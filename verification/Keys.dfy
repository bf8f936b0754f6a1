/** Stored keys and key ranges, byte for byte. */
module KeyRanges {
  import opened Wrappers
  import opened Bytes

  datatype Bound = Unbounded | Included(key: Key) | Excluded(key: Key)

  datatype KeyRange = KeyRange(start: Bound, end: Bound)

  predicate AtMost(a: Key, b: Key) { a == b || Less(a, b) }

  predicate Above(start: Bound, k: Key)
  {
    match start
    case Unbounded => true
    case Included(s) => AtMost(s, k)
    case Excluded(s) => Less(s, k)
  }

  predicate Below(end: Bound, k: Key)
  {
    match end
    case Unbounded => true
    case Included(e) => AtMost(k, e)
    case Excluded(e) => Less(k, e)
  }

  predicate Contains(r: KeyRange, k: Key) { Above(r.start, k) && Below(r.end, k) }

  /** The same by the order alone: an inclusive bound lets its own key in, an exclusive one does not. */
  predicate Within(r: KeyRange, k: Key)
  {
    && (r.start.Included? ==> !Less(k, r.start.key)) && (r.start.Excluded? ==> Less(r.start.key, k))
    && (r.end.Included? ==> !Less(r.end.key, k)) && (r.end.Excluded? ==> Less(k, r.end.key))
  }

  lemma BoundsExact(r: KeyRange, k: Key)
    ensures Contains(r, k) <==> Within(r, k)
  {
    if !r.start.Unbounded? { Trichotomy(r.start.key, k); }
    if !r.end.Unbounded? { Trichotomy(r.end.key, k); }
  }

  /** Between two inclusive bounds lie exactly the keys below neither end; between a key and itself, that key. */
  lemma InclusiveExact(a: Key, b: Key, k: Key)
    ensures Contains(KeyRange(Included(a), Included(b)), k) <==> !Less(k, a) && !Less(b, k)
    ensures Contains(KeyRange(Included(a), Included(a)), k) <==> k == a
    ensures !Contains(KeyRange(Excluded(a), Unbounded), a) && !Contains(KeyRange(Unbounded, Excluded(b)), b)
  {
    Trichotomy(a, k);
    Trichotomy(b, k);
    LessIrreflexive(a);
    LessIrreflexive(b);
  }

  lemma Trichotomy(a: Key, b: Key)
    ensures AtMost(a, b) <==> !Less(b, a)
    ensures AtMost(b, a) <==> !Less(a, b)
  {
    LessTotal(a, b);
    LessIrreflexive(a);
    if Less(a, b) { LessAsymmetric(a, b); }
    if Less(b, a) { LessAsymmetric(b, a); }
  }

  // ---- prefixes ------------------------------------------------------

  /** The least string above everything that begins with `p`, if there is one. */
  function Successor(p: Key): Option<Key>
  {
    if p == [] then None
    else
      match Successor(p[1..])
      case Some(e) => Some([p[0]] + e)
      case None => if p[0] < 255 then Some([p[0] + 1]) else None
  }

  function PrefixRange(p: Key): KeyRange
  {
    KeyRange(Included(p), match Successor(p) { case Some(e) => Excluded(e) case None => Unbounded })
  }

  /** Drop trailing 0xFF bytes, then increment the last byte left. */
  method Prefix(p: Key) returns (r: KeyRange)
    ensures r == PrefixRange(p)
  {
    var end := p;
    while end != []
      invariant Successor(end) == Successor(p)
      decreases |end|
    {
      var last := end[|end| - 1];
      assert end == end[..|end| - 1] + [last];
      SuccessorOfLast(end[..|end| - 1], last);
      end := end[..|end| - 1];
      if last != 255 {
        return KeyRange(Included(p), Excluded(end + [last + 1]));
      }
    }
    return KeyRange(Included(p), Unbounded);
  }

  lemma {:induction false} SuccessorOfLast(head: Key, last: byte)
    ensures Successor(head + [last]) == if last < 255 then Some(head + [last + 1]) else Successor(head)
    decreases |head|
  {
    var p := head + [last];
    if head == [] {
      assert p == [last] && p[1..] == [] && Successor([]) == None;
      if last < 255 { assert head + [last + 1] == [last + 1]; }
    } else {
      assert p[1..] == head[1..] + [last] && p[0] == head[0];
      SuccessorOfLast(head[1..], last);
      assert last < 255 ==> [head[0]] + (head[1..] + [last + 1]) == head + [last + 1];
    }
  }

  /** The successor is just past every key with the prefix, and past nothing else that is not below the prefix. */
  lemma {:induction false} SuccessorBounds(p: Key, k: Key)
    ensures AtMost(p, k) && (Successor(p).Some? ==> Less(k, Successor(p).value)) <==> p <= k
    decreases |p|
  {
    if p == [] {
    } else if k == [] {
    } else {
      assert p == [p[0]] + p[1..] && k == [k[0]] + k[1..];
      assert p <= k <==> p[0] == k[0] && p[1..] <= k[1..];
      if p[0] == k[0] {
        SuccessorBounds(p[1..], k[1..]);
        assert AtMost(p, k) <==> AtMost(p[1..], k[1..]);
        if Successor(p[1..]).Some? {
          assert ([p[0]] + Successor(p[1..]).value)[1..] == Successor(p[1..]).value;
        }
      }
    }
  }

  /** A prefix range holds exactly the keys with the prefix, trailing 0xFF bytes and all. */
  lemma PrefixExact(p: Key, k: Key)
    ensures Contains(PrefixRange(p), k) <==> p <= k
  {
    SuccessorBounds(p, k);
  }

  // ---- keys of a locker ----------------------------------------------

  type LockerId = i: nat | i <= U32_MAX

  const PREFIX_LEN: nat := 4

  function Tag(l: LockerId): Key { ToBE(l, PREFIX_LEN) }

  function Encode(l: LockerId, k: Key): Key { Tag(l) + k }

  /** `None` for a key too short to carry a locker, or carrying another one. */
  function Decode(l: LockerId, e: Key): Option<Key>
  {
    if |e| < PREFIX_LEN || FromBE(e[..PREFIX_LEN]) != l then None else Some(e[PREFIX_LEN..])
  }

  lemma TagRoundTrip(l: LockerId)
    ensures FromBE(Tag(l)) == l
  {
    Widths();
    BERoundTrip(l, PREFIX_LEN);
  }

  /** Decoding is exactly the inverse of encoding. */
  lemma DecodeExact(l: LockerId, e: Key, k: Key)
    ensures Decode(l, e) == Some(k) <==> e == Encode(l, k)
  {
    TagRoundTrip(l);
    if Decode(l, e) == Some(k) {
      BEInverse(e[..PREFIX_LEN]);
      assert e == e[..PREFIX_LEN] + e[PREFIX_LEN..];
    }
    if e == Encode(l, k) {
      assert e[..PREFIX_LEN] == Tag(l) && e[PREFIX_LEN..] == k;
    }
  }

  /** Keys sort within a locker as the user's keys do, and lockers sort by number. */
  lemma EncodeOrders(l: LockerId, a: Key, m: LockerId, b: Key)
    ensures Less(Encode(l, a), Encode(m, b)) <==> l < m || (l == m && Less(a, b))
  {
    if l == m {
      LessUnderPrefix(Tag(l), a, b);
    } else {
      Widths();
      BEOrder(l, m, PREFIX_LEN);
      BEOrder(m, l, PREFIX_LEN);
      TagRoundTrip(l);
      TagRoundTrip(m);
      LessTotal(Tag(l), Tag(m));
      LessExtended(Tag(l), Tag(m), a, b);
    }
  }

  /** Two strings of one length that differ decide the order whatever follows. */
  lemma {:induction false} LessExtended(p: Key, q: Key, a: Key, b: Key)
    requires |p| == |q| && p != q
    ensures Less(p + a, q + b) == Less(p, q)
    decreases |p|
  {
    assert (p + a)[1..] == p[1..] + a && (q + b)[1..] == q[1..] + b;
    if p[0] == q[0] {
      assert p == [p[0]] + p[1..] && q == [q[0]] + q[1..];
      LessExtended(p[1..], q[1..], a, b);
    }
  }

  // ---- ranges of a locker --------------------------------------------

  function EncodeBound(l: LockerId, b: Bound, edge: Bound): Bound
  {
    match b
    case Unbounded => edge
    case Included(k) => Included(Encode(l, k))
    case Excluded(k) => Excluded(Encode(l, k))
  }

  /** An unbounded end becomes the locker's own edge. */
  function EncodeRange(l: LockerId, start: Bound, end: Bound): KeyRange
  {
    var all := PrefixRange(Tag(l));
    KeyRange(EncodeBound(l, start, all.start), EncodeBound(l, end, all.end))
  }

  lemma ExtendsAtMost(p: Key, a: Key)
    ensures AtMost(p, p + a)
  {
    LessUnderPrefix(p, [], a);
    assert p + [] == p;
  }

  lemma AtMostTransitive(a: Key, b: Key, c: Key)
    ensures AtMost(a, b) && AtMost(b, c) ==> AtMost(a, c)
    ensures AtMost(a, b) && Less(b, c) ==> Less(a, c)
    ensures Less(a, b) && AtMost(b, c) ==> Less(a, c)
  {
    if Less(a, b) && Less(b, c) { LessTransitive(a, b, c); }
  }

  /** Anything in an encoded user range carries the locker's tag. */
  lemma RangeInsideLocker(l: LockerId, start: Bound, end: Bound, e: Key)
    requires Contains(EncodeRange(l, start, end), e)
    ensures Tag(l) <= e
  {
    var p := Tag(l);
    if !start.Unbounded? {
      ExtendsAtMost(p, start.key);
      AtMostTransitive(p, p + start.key, e);
    }
    if !end.Unbounded? {
      SuccessorBounds(p, p + end.key);
      ExtendsAtMost(p, end.key);
      if Successor(p).Some? { AtMostTransitive(e, p + end.key, Successor(p).value); }
    }
    SuccessorBounds(p, e);
  }

  /**
   An encoded user range holds a stored key exactly when that is this locker's encoding of a user key inside the
   bounds: no neighbour's key, no key too short to have an owner.
   */
  lemma RangeExact(l: LockerId, start: Bound, end: Bound, e: Key)
    ensures Contains(EncodeRange(l, start, end), e) <==>
              Decode(l, e).Some? && Contains(KeyRange(start, end), Decode(l, e).value)
  {
    if Tag(l) <= e {
      var k := e[PREFIX_LEN..];
      assert e == Encode(l, k);
      DecodeExact(l, e, k);
      SuccessorBounds(Tag(l), e);
      BoundsUnderTag(l, start, end, k);
    } else {
      if Contains(EncodeRange(l, start, end), e) { RangeInsideLocker(l, start, end, e); }
      if Decode(l, e).Some? { DecodeExact(l, e, Decode(l, e).value); }
    }
  }

  lemma BoundsUnderTag(l: LockerId, start: Bound, end: Bound, k: Key)
    ensures !start.Unbounded? ==> Above(EncodeRange(l, start, end).start, Encode(l, k)) == Above(start, k)
    ensures !end.Unbounded? ==> Below(EncodeRange(l, start, end).end, Encode(l, k)) == Below(end, k)
  {
    var p := Tag(l);
    if !start.Unbounded? {
      LessUnderPrefix(p, start.key, k);
      assert p + start.key == p + k ==> start.key == (p + k)[|p|..];
    }
    if !end.Unbounded? {
      LessUnderPrefix(p, k, end.key);
      assert p + end.key == p + k ==> end.key == (p + k)[|p|..];
    }
  }

  // ---- degenerate bounds ---------------------------------------------

  /** Bounds with nothing between them: crossed, or meeting at a key one of them leaves out. */
  predicate IsDegenerate(start: Bound, end: Bound)
  {
    match (start, end)
    case (Unbounded, _) => false
    case (_, Unbounded) => false
    case (Included(s), Included(e)) => Less(e, s)
    case (_, _) => AtMost(end.key, start.key)
  }

  /** What an ordered map accepts as a range; anything else makes it panic. */
  predicate Legal(r: KeyRange)
  {
    r.start.Unbounded? || r.end.Unbounded?
    || Less(r.start.key, r.end.key)
    || (r.start.key == r.end.key && !(r.start.Excluded? && r.end.Excluded?))
  }

  /** Refusing degenerate bounds loses nothing, and what is left is a legal range once encoded. */
  lemma DegenerateIsEmpty(start: Bound, end: Bound, k: Key)
    requires IsDegenerate(start, end)
    ensures !Contains(KeyRange(start, end), k)
  {
    AtMostTransitive(start.key, k, end.key);
    AtMostTransitive(end.key, start.key, k);
    LessIrreflexive(k);
    LessIrreflexive(start.key);
    LessIrreflexive(end.key);
    if Contains(KeyRange(start, end), k) {
      AtMostTransitive(end.key, start.key, end.key);
      AtMostTransitive(k, end.key, start.key);
    }
  }

  lemma EncodedIsLegal(l: LockerId, start: Bound, end: Bound)
    requires !IsDegenerate(start, end)
    ensures Legal(EncodeRange(l, start, end))
  {
    var p := Tag(l);
    if !start.Unbounded? && !end.Unbounded? {
      LessTotal(start.key, end.key);
      LessUnderPrefix(p, start.key, end.key);
    } else {
      var a: Key := if start.Unbounded? then [] else start.key;
      var b: Key := if end.Unbounded? then [] else end.key;
      SuccessorBounds(p, p + a);
      ExtendsAtMost(p, a);
      ExtendsAtMost(p, b);
      assert p + [] == p;
    }
  }
}
