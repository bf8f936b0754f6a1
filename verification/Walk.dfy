/** Walking one locker's records, a page at a time. */
module Paging {
  import opened Wrappers
  import opened Bytes
  import opened KeyRanges
  import opened ByteStore

  /** The stored keys of a locker inside user bounds. */
  ghost function Inside(tree: Tree, l: KeyRanges.LockerId, start: Bound, end: Bound): set<Key>
  {
    InRange(tree, EncodeRange(l, start, end))
  }

  /** The user keys of a locker inside user bounds. */
  function UserKeys(tree: Tree, l: KeyRanges.LockerId, start: Bound, end: Bound): set<Key>
  {
    set e | e in tree && Decode(l, e).Some? && Contains(KeyRange(start, end), Decode(l, e).value) :: Decode(l, e).value
  }

  lemma UserKeysAre(tree: Tree, l: KeyRanges.LockerId, start: Bound, end: Bound, k: Key)
    ensures k in UserKeys(tree, l, start, end) <==> Encode(l, k) in tree && Contains(KeyRange(start, end), k)
    ensures k in UserKeys(tree, l, start, end) <==> Encode(l, k) in Inside(tree, l, start, end)
  {
    DecodeExact(l, Encode(l, k), k);
    RangeExact(l, start, end, Encode(l, k));
    if k in UserKeys(tree, l, start, end) {
      var e :| && e in tree && Decode(l, e).Some? && Contains(KeyRange(start, end), Decode(l, e).value)
               && Decode(l, e).value == k;
      DecodeExact(l, e, k);
    }
  }

  /** The keys of a locker within user bounds, by the order of keys alone. */
  lemma UserKeysWithin(tree: Tree, l: KeyRanges.LockerId, start: Bound, end: Bound, k: Key)
    ensures k in UserKeys(tree, l, start, end) <==> Encode(l, k) in tree && KeyRanges.Within(KeyRange(start, end), k)
  {
    UserKeysAre(tree, l, start, end, k);
    KeyRanges.BoundsExact(KeyRange(start, end), k);
  }

  function EncodeAll(l: KeyRanges.LockerId, ks: seq<Key>): (es: seq<Key>)
    ensures |es| == |ks| && forall i :: 0 <= i < |ks| ==> es[i] == Encode(l, ks[i])
  {
    seq(|ks|, i requires 0 <= i < |ks| => Encode(l, ks[i]))
  }

  /** Listing a locker's stored keys and listing its user keys is the same walk. */
  lemma WalkIsListing(tree: Tree, l: KeyRanges.LockerId, start: Bound, end: Bound, reverse: bool)
    ensures Ordered(Inside(tree, l, start, end), reverse)
         == EncodeAll(l, Ordered(UserKeys(tree, l, start, end), reverse))
  {
    var ks := Ordered(UserKeys(tree, l, start, end), reverse);
    OrderedIs(UserKeys(tree, l, start, end), reverse);
    forall i, j | 0 <= i < j < |ks|
      ensures Before(EncodeAll(l, ks)[i], EncodeAll(l, ks)[j], reverse)
    {
      EncodeOrders(l, ks[i], l, ks[j]);
      EncodeOrders(l, ks[j], l, ks[i]);
    }
    forall e ensures e in Inside(tree, l, start, end) <==> e in EncodeAll(l, ks) {
      RangeExact(l, start, end, e);
      if e in Inside(tree, l, start, end) {
        var k := Decode(l, e).value;
        DecodeExact(l, e, k);
        UserKeysAre(tree, l, start, end, k);
        var i :| 0 <= i < |ks| && ks[i] == k;
        assert EncodeAll(l, ks)[i] == e;
      }
      if e in EncodeAll(l, ks) {
        var i :| 0 <= i < |ks| && EncodeAll(l, ks)[i] == e;
        assert ks[i] in ks;
        UserKeysAre(tree, l, start, end, ks[i]);
      }
    }
    ListingUnique(EncodeAll(l, ks), Inside(tree, l, start, end), reverse);
  }

  /** The range left once every key up to `last` has been visited. */
  function Resumed(r: KeyRange, last: Key, reverse: bool): KeyRange
  {
    if reverse then r.(end := Excluded(last)) else r.(start := Excluded(last))
  }

  /** Excluding the last key visited leaves exactly the keys not yet visited, in either direction. */
  lemma RestOfWalk(tree: Tree, r: KeyRange, reverse: bool, n: nat)
    requires 0 < n <= |Ordered(InRange(tree, r), reverse)|
    ensures var all := Ordered(InRange(tree, r), reverse);
      && all[n - 1] in InRange(tree, r)
      && Ordered(InRange(tree, Resumed(r, all[n - 1], reverse)), reverse) == all[n..]
  {
    var keys := InRange(tree, r);
    var all := Ordered(keys, reverse);
    OrderedIs(keys, reverse);
    var last := all[n - 1];
    assert last in all;
    var left := InRange(tree, Resumed(r, last, reverse));
    forall k ensures k in left <==> k in all[n..] {
      Beyond(r, last, reverse, k);
      if k in all[n..] {
        var i :| n <= i < |all| && all[i] == k;
        assert Before(last, all[i], reverse) && all[i] in keys;
      }
      if k in left {
        assert k in all;
        var i :| 0 <= i < |all| && all[i] == k;
        LessIrreflexive(k);
        if i < n - 1 { LessAsymmetricAt(all[i], last, reverse); }
        assert all[n..][i - n] == k;
      }
    }
    ListingUnique(all[n..], left, reverse);
  }

  lemma LessAsymmetricAt(a: Key, b: Key, reverse: bool)
    requires Before(a, b, reverse)
    ensures !Before(b, a, reverse)
  {
    if reverse { LessAsymmetric(b, a); } else { LessAsymmetric(a, b); }
  }

  lemma Beyond(r: KeyRange, last: Key, reverse: bool, k: Key)
    requires Contains(r, last)
    ensures Contains(Resumed(r, last, reverse), k) <==> Contains(r, k) && Before(last, k, reverse)
  {
    if reverse {
      if !r.end.Unbounded? { AtMostTransitive(k, last, r.end.key); }
    } else {
      if !r.start.Unbounded? { AtMostTransitive(r.start.key, last, k); }
    }
    if !r.end.Unbounded? && Less(k, last) { LessThenWithin(k, last, r.end); }
    if !r.start.Unbounded? && Less(last, k) { WithinThenLess(r.start, last, k); }
  }

  lemma LessThenWithin(k: Key, last: Key, end: Bound)
    requires Less(k, last) && Below(end, last)
    ensures Below(end, k)
  {
    if !end.Unbounded? {
      AtMostTransitive(k, last, end.key);
      if Less(last, end.key) { LessTransitive(k, last, end.key); }
    }
  }

  lemma WithinThenLess(start: Bound, last: Key, k: Key)
    requires Less(last, k) && Above(start, last)
    ensures Above(start, k)
  {
    if !start.Unbounded? {
      AtMostTransitive(start.key, last, k);
      if Less(start.key, last) { LessTransitive(start.key, last, k); }
    }
  }

  /** Resuming past a key of a legal range is a legal range again. */
  lemma ResumedIsLegal(r: KeyRange, last: Key, reverse: bool)
    requires Legal(r) && Contains(r, last)
    ensures Legal(Resumed(r, last, reverse))
  {
  }

  datatype Seen = Seen(key: Key, value: Option<Blob>)

  function SeenKeys(visits: seq<Seen>): (ks: seq<Key>)
    ensures |ks| == |visits| && forall i :: 0 <= i < |ks| ==> ks[i] == visits[i].key
  {
    seq(|visits|, i requires 0 <= i < |visits| => visits[i].key)
  }

  /** Visits of exactly `ks`, each with its stored value when values were asked for. */
  ghost predicate Visits(tree: Tree, l: KeyRanges.LockerId, visits: seq<Seen>, wantValues: bool)
  {
    forall i :: 0 <= i < |visits| ==>
      && Encode(l, visits[i].key) in tree
      && visits[i].value == if wantValues then Some(tree[Encode(l, visits[i].key)]) else None
  }

  lemma NothingInside(tree: Tree, l: KeyRanges.LockerId, start: Bound, end: Bound, reverse: bool)
    requires IsDegenerate(start, end)
    ensures Ordered(UserKeys(tree, l, start, end), reverse) == []
  {
    forall k ensures k !in UserKeys(tree, l, start, end) {
      UserKeysAre(tree, l, start, end, k);
      DegenerateIsEmpty(start, end, k);
    }
    assert UserKeys(tree, l, start, end) == {};
  }

  /** A page of an encoded user range decodes without fail. */
  lemma PageDecodes(tree: Tree, l: KeyRanges.LockerId, start: Bound, end: Bound, reverse: bool, e: Key)
    requires e in Ordered(Inside(tree, l, start, end), reverse)
    ensures e in tree && Decode(l, e).Some? && Encode(l, Decode(l, e).value) == e
  {
    OrderedIs(Inside(tree, l, start, end), reverse);
    RangeExact(l, start, end, e);
    DecodeExact(l, e, Decode(l, e).value);
  }

  /** Hand each record of a page to the visitor under its user key. */
  method VisitPage(l: KeyRanges.LockerId, items: seq<Item>) returns (visits: seq<Seen>)
    requires forall i :: 0 <= i < |items| ==> Decode(l, items[i].key).Some?
    ensures Reads(l, items, visits)
  {
    visits := [];
    for i := 0 to |items|
      invariant |visits| == i
      invariant forall j :: 0 <= j < i ==> visits[j] == Seen(Decode(l, items[j].key).value, items[j].value)
    {
      visits := visits + [Seen(Decode(l, items[i].key).value, items[i].value)];
    }
  }

  /** Where a walk stands: `seen` visits so far, the keys of `range` still to come. */
  ghost predicate Underway(tree: Tree, l: KeyRanges.LockerId, start: Bound, end: Bound, reverse: bool,
                           wantValues: bool, range: KeyRange, done: seq<Seen>)
  {
    && Legal(range)
    && EncodeAll(l, SeenKeys(done)) + Ordered(InRange(tree, range), reverse)
       == Ordered(Inside(tree, l, start, end), reverse)
    && Visits(tree, l, done, wantValues)
  }

  /** One page more. */
  lemma PageVisited(tree: Tree, l: KeyRanges.LockerId, start: Bound, end: Bound, reverse: bool, wantValues: bool,
                    range: KeyRange, done: seq<Seen>, items: seq<Item>, limit: nat)
    requires Underway(tree, l, start, end, reverse, wantValues, range, done)
    requires HoldsPage(tree, range, reverse, limit, wantValues, items)
    ensures forall i :: 0 <= i < |items| ==> Decode(l, items[i].key).Some?
  {
    var all, left := Ordered(Inside(tree, l, start, end), reverse), Ordered(InRange(tree, range), reverse);
    forall i | 0 <= i < |items|
      ensures Decode(l, items[i].key).Some? && Encode(l, Decode(l, items[i].key).value) == items[i].key
    {
      assert ItemKeys(items)[i] == left[i] == all[|done| + i];
      PageDecodes(tree, l, start, end, reverse, items[i].key);
    }
  }

  /** The visits of one page, read off its items. */
  ghost predicate Reads(l: KeyRanges.LockerId, items: seq<Item>, visits: seq<Seen>)
    requires forall i :: 0 <= i < |items| ==> Decode(l, items[i].key).Some?
  {
    |visits| == |items|
    && forall i :: 0 <= i < |items| ==> visits[i] == Seen(Decode(l, items[i].key).value, items[i].value)
  }

  lemma PageAdds(tree: Tree, l: KeyRanges.LockerId, done: seq<Seen>, items: seq<Item>, visits: seq<Seen>,
                 wantValues: bool)
    requires forall i :: 0 <= i < |items| ==> Decode(l, items[i].key).Some?
    requires Reads(l, items, visits) && Visits(tree, l, done, wantValues)
    requires forall i :: 0 <= i < |items| ==>
               items[i].key in tree && items[i].value == if wantValues then Some(tree[items[i].key]) else None
    ensures EncodeAll(l, SeenKeys(done + visits)) == EncodeAll(l, SeenKeys(done)) + ItemKeys(items)
    ensures Visits(tree, l, done + visits, wantValues)
  {
    forall i | 0 <= i < |items| ensures Encode(l, visits[i].key) == items[i].key {
      DecodeExact(l, items[i].key, visits[i].key);
    }
  }

  /** A page into `range` has been read, and `done` are the visits so far: there is less to come, or nothing. */
  ghost predicate GoesOn(tree: Tree, l: KeyRanges.LockerId, start: Bound, end: Bound, reverse: bool,
                         wantValues: bool, range: KeyRange, done: seq<Seen>, resume: Option<Key>)
  {
    match resume
    case Some(last) =>
      var next := Resumed(range, last, reverse);
      && Underway(tree, l, start, end, reverse, wantValues, next, done)
      && |Ordered(InRange(tree, next), reverse)| < |Ordered(InRange(tree, range), reverse)|
    case None =>
      && EncodeAll(l, SeenKeys(done)) == Ordered(Inside(tree, l, start, end), reverse)
      && Visits(tree, l, done, wantValues)
  }

  /** After a page the walk either goes on from the resume point, or has seen everything. */
  lemma Onward(tree: Tree, l: KeyRanges.LockerId, start: Bound, end: Bound, reverse: bool, wantValues: bool,
               range: KeyRange, done: seq<Seen>, page: Page, visits: seq<Seen>, limit: nat)
    requires Underway(tree, l, start, end, reverse, wantValues, range, done)
    requires HoldsPage(tree, range, reverse, limit, wantValues, page.items) && LegalResume(tree, range, limit, page)
    requires forall i :: 0 <= i < |page.items| ==> Decode(l, page.items[i].key).Some?
    requires Reads(l, page.items, visits)
    ensures GoesOn(tree, l, start, end, reverse, wantValues, range, done + visits, page.resume)
  {
    PageAdds(tree, l, done, page.items, visits, wantValues);
    var before, left := EncodeAll(l, SeenKeys(done)), Ordered(InRange(tree, range), reverse);
    match page.resume
    case Some(last) =>
      var next := Ordered(InRange(tree, Resumed(range, last, reverse)), reverse);
      assert Contains(range, last) && left == ItemKeys(page.items) + next && page.items != [] by {
        MoreToCome(tree, range, reverse, limit, wantValues, page);
      }
      ResumedIsLegal(range, last, reverse);
      Regroup(before, ItemKeys(page.items), next);
    case None =>
      assert left == ItemKeys(page.items) by { LastPage(tree, range, reverse, limit, wantValues, page); }
  }

  lemma Regroup(a: seq<Key>, b: seq<Key>, c: seq<Key>)
    ensures (a + b) + c == a + (b + c)
  {
  }

  /** Without a resume point the page is all there was left. */
  lemma LastPage(tree: Tree, range: KeyRange, reverse: bool, limit: nat, wantValues: bool, page: Page)
    requires HoldsPage(tree, range, reverse, limit, wantValues, page.items) && LegalResume(tree, range, limit, page)
    requires page.resume.None?
    ensures ItemKeys(page.items) == Ordered(InRange(tree, range), reverse)
  {
    OrderedCount(InRange(tree, range), reverse);
  }

  /** A resume point splits what is left into the page just read and the rest. */
  lemma MoreToCome(tree: Tree, range: KeyRange, reverse: bool, limit: nat, wantValues: bool, page: Page)
    requires HoldsPage(tree, range, reverse, limit, wantValues, page.items) && LegalResume(tree, range, limit, page)
    requires page.resume.Some?
    ensures var last := page.resume.value;
      && Contains(range, last)
      && Ordered(InRange(tree, range), reverse)
         == ItemKeys(page.items) + Ordered(InRange(tree, Resumed(range, last, reverse)), reverse)
      && page.items != []
  {
    var left := Ordered(InRange(tree, range), reverse);
    OrderedCount(InRange(tree, range), reverse);
    assert page.resume.value == ItemKeys(page.items)[limit - 1] == left[limit - 1];
    assert left == left[..limit] + left[limit..];
    RestOfWalk(tree, range, reverse, limit);
  }

  lemma WalkDone(tree: Tree, l: KeyRanges.LockerId, start: Bound, end: Bound, reverse: bool, done: seq<Seen>)
    requires EncodeAll(l, SeenKeys(done)) == Ordered(Inside(tree, l, start, end), reverse)
    ensures SeenKeys(done) == Ordered(UserKeys(tree, l, start, end), reverse)
  {
    WalkIsListing(tree, l, start, end, reverse);
    var ks := Ordered(UserKeys(tree, l, start, end), reverse);
    forall i | 0 <= i < |done| ensures SeenKeys(done)[i] == ks[i] {
      assert Encode(l, SeenKeys(done)[i]) == EncodeAll(l, SeenKeys(done))[i] == Encode(l, ks[i]);
      assert Encode(l, ks[i])[|Tag(l)|..] == ks[i];
    }
  }

  /**
   Every key of the locker inside the bounds, exactly once, in the direction asked for, and no other locker's, for
   any page size and either way of offering a resume point. The backend is never handed a range it would refuse.
   */
  method Walk(b: MemoryBackend, l: KeyRanges.LockerId, start: Bound, end: Bound, reverse: bool, wantValues: bool)
    returns (visits: Option<seq<Seen>>)
    requires b.pageSize >= 1
    ensures b.closed && !IsDegenerate(start, end) ==> visits == None
    ensures !b.closed || IsDegenerate(start, end) ==>
              && visits.Some?
              && SeenKeys(visits.value) == Ordered(UserKeys(b.tables.records, l, start, end), reverse)
              && Visits(b.tables.records, l, visits.value, wantValues)
              && WalksAll(b.tables.records, l, start, end, reverse, visits.value)
  {
    visits := WalkPages(b, l, start, end, reverse, wantValues);
    if visits.Some? { WalkExactly(b.tables.records, l, start, end, reverse, visits.value); }
  }

  /** Every key of the locker within the bounds, and no other, in strict order, by the order of keys alone. */
  ghost predicate WalksAll(tree: Tree, l: KeyRanges.LockerId, start: Bound, end: Bound, reverse: bool,
                           visits: seq<Seen>)
  {
    && (forall k :: k in SeenKeys(visits) <==> Encode(l, k) in tree && KeyRanges.Within(KeyRange(start, end), k))
    && (forall i, j :: 0 <= i < j < |visits| ==> Before(visits[i].key, visits[j].key, reverse))
  }

  lemma WalkExactly(tree: Tree, l: KeyRanges.LockerId, start: Bound, end: Bound, reverse: bool, visits: seq<Seen>)
    requires SeenKeys(visits) == Ordered(UserKeys(tree, l, start, end), reverse)
    ensures WalksAll(tree, l, start, end, reverse, visits)
  {
    var ks := SeenKeys(visits);
    OrderedIs(UserKeys(tree, l, start, end), reverse);
    forall k ensures k in ks <==> Encode(l, k) in tree && KeyRanges.Within(KeyRange(start, end), k) {
      UserKeysWithin(tree, l, start, end, k);
    }
    forall i, j | 0 <= i < j < |visits| ensures Before(visits[i].key, visits[j].key, reverse) {
      assert Before(ks[i], ks[j], reverse);
    }
  }

  /** One page of a walk: what it visits, and where to go on from. */
  method TurnPage(b: MemoryBackend, l: KeyRanges.LockerId, ghost start: Bound, ghost end: Bound, reverse: bool,
                  wantValues: bool, range: KeyRange, ghost done: seq<Seen>)
    returns (turned: Option<(seq<Seen>, Option<Key>)>)
    requires b.pageSize >= 1 && Underway(b.tables.records, l, start, end, reverse, wantValues, range, done)
    ensures turned.None? <==> b.closed
    ensures turned.Some? ==>
              GoesOn(b.tables.records, l, start, end, reverse, wantValues, range, done + turned.value.0, turned.value.1)
  {
    var scanned := b.Scan(Records, range, reverse, b.pageSize, wantValues);
    if scanned.None? { return None; }
    var page := scanned.value;
    PageVisited(b.tables.records, l, start, end, reverse, wantValues, range, done, page.items, b.pageSize);
    var more := VisitPage(l, page.items);
    Onward(b.tables.records, l, start, end, reverse, wantValues, range, done, page, more, b.pageSize);
    return Some((more, page.resume));
  }

  method WalkPages(b: MemoryBackend, l: KeyRanges.LockerId, start: Bound, end: Bound, reverse: bool, wantValues: bool)
    returns (visits: Option<seq<Seen>>)
    requires b.pageSize >= 1
    ensures b.closed && !IsDegenerate(start, end) ==> visits == None
    ensures !b.closed || IsDegenerate(start, end) ==> visits.Some?
    ensures visits.Some? ==>
              && SeenKeys(visits.value) == Ordered(UserKeys(b.tables.records, l, start, end), reverse)
              && Visits(b.tables.records, l, visits.value, wantValues)
  {
    var tree := b.tables.records;
    if IsDegenerate(start, end) {
      NothingInside(tree, l, start, end, reverse);
      return Some([]);
    }
    var range := EncodeRange(l, start, end);
    EncodedIsLegal(l, start, end);
    var done: seq<Seen> := [];
    var finished := false;
    while !finished
      invariant !finished ==> Underway(tree, l, start, end, reverse, wantValues, range, done)
      invariant Visits(tree, l, done, wantValues)
      invariant finished ==> !b.closed && EncodeAll(l, SeenKeys(done)) == Ordered(Inside(tree, l, start, end), reverse)
      decreases !finished, |Ordered(InRange(tree, range), reverse)|
    {
      var turned := TurnPage(b, l, start, end, reverse, wantValues, range, done);
      if turned.None? { return None; }
      done := done + turned.value.0;
      match turned.value.1
      case Some(last) => range := if reverse then range.(end := Excluded(last)) else range.(start := Excluded(last));
      case None => finished := true;
    }
    WalkDone(tree, l, start, end, reverse, done);
    return Some(done);
  }

  lemma OrderedCount(keys: set<Key>, reverse: bool)
    ensures |Ordered(keys, reverse)| == |keys|
  {
    OrderedIs(keys, reverse);
    CountListed(Ordered(keys, reverse), keys, reverse);
  }
}
