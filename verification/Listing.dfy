/** Listing a lazy locker: storage overlaid with whatever the handle has staged. */
module Listing {
  import opened Wrappers
  import opened Bytes
  import opened Storage
  import opened Batches
  import KeyRanges
  import ByteStore

  type Bound = KeyRanges.Bound

  datatype Listed = Listed(key: Key, value: Value)

  predicate InBounds(k: Key, start: Bound, end: Bound)
  {
    KeyRanges.Contains(KeyRanges.KeyRange(start, end), k)
  }

  function Restrict(m: Contents, start: Bound, end: Bound): Contents
  {
    map k | k in m && InBounds(k, start, end) :: m[k]
  }

  function Truncate<T>(s: seq<T>, limit: Option<nat>): seq<T>
  {
    if limit.Some? && limit.value < |s| then s[..limit.value] else s
  }

  function Keys(items: seq<Listed>): (ks: seq<Key>)
    ensures |ks| == |items| && forall i :: 0 <= i < |ks| ==> ks[i] == items[i].key
  {
    seq(|items|, i requires 0 <= i < |items| => items[i].key)
  }

  /** The first `limit` entries of a map in the direction asked for, each key once. */
  ghost predicate Lists(items: seq<Listed>, m: Contents, reverse: bool, limit: Option<nat>)
  {
    && Keys(items) == Truncate(ByteStore.Ordered(m.Keys, reverse), limit)
    && forall i :: 0 <= i < |items| ==> items[i].key in m && items[i].value == m[items[i].key]
  }

  /**
   The items are entries of the map within the bounds, in the direction asked for and no more than the limit; one that
   is left out comes after all of them, and only because the limit is reached.
   */
  ghost predicate FirstWithin(items: seq<Listed>, m: Contents, start: Bound, end: Bound, reverse: bool,
                              limit: Option<nat>)
  {
    var r := KeyRanges.KeyRange(start, end);
    && (forall i :: 0 <= i < |items| ==>
          items[i].key in m && KeyRanges.Within(r, items[i].key) && items[i].value == m[items[i].key])
    && (forall i, j :: 0 <= i < j < |items| ==> ByteStore.Before(items[i].key, items[j].key, reverse))
    && (limit.Some? ==> |items| <= limit.value)
    && (forall k :: k in m && KeyRanges.Within(r, k) ==>
          || (exists i :: 0 <= i < |items| && items[i].key == k)
          || (limit == Some(|items|) && forall i :: 0 <= i < |items| ==> ByteStore.Before(items[i].key, k, reverse)))
  }

  /** What a listing is, by the order of keys alone. */
  lemma ListsExactly(items: seq<Listed>, m: Contents, start: Bound, end: Bound, reverse: bool, limit: Option<nat>)
    requires Lists(items, Restrict(m, start, end), reverse, limit)
    ensures FirstWithin(items, m, start, end, reverse, limit)
  {
    var r, inside := KeyRanges.KeyRange(start, end), Restrict(m, start, end);
    var all := ByteStore.Ordered(inside.Keys, reverse);
    ByteStore.OrderedIs(inside.Keys, reverse);
    forall i | 0 <= i < |items| ensures KeyRanges.Within(r, items[i].key) && items[i].key == all[i] {
      KeyRanges.BoundsExact(r, items[i].key);
      assert Keys(items)[i] == all[i];
    }
    forall k | k in m && KeyRanges.Within(r, k)
      ensures || (exists i :: 0 <= i < |items| && items[i].key == k)
              || (limit == Some(|items|) && forall i :: 0 <= i < |items| ==> ByteStore.Before(items[i].key, k, reverse))
    {
      KeyRanges.BoundsExact(r, k);
      assert k in all;
      var j :| 0 <= j < |all| && all[j] == k;
      if j < |items| { assert items[j].key == k; }
    }
  }

  /** A visible key at an inclusive bound is listed, unless earlier ones fill the limit; one at an exclusive is not. */
  lemma EndpointsListed(items: seq<Listed>, m: Contents, start: Bound, end: Bound, reverse: bool, limit: Option<nat>)
    requires FirstWithin(items, m, start, end, reverse, limit) && !start.Unbounded? && !end.Unbounded?
    requires Less(start.key, end.key) || (start.key == end.key && start.Included? && end.Included?)
    ensures forall b :: b in {start, end} ==>
      && (b.Included? && b.key in m && (limit.Some? ==> |items| < limit.value) ==>
            exists i :: 0 <= i < |items| && items[i].key == b.key)
      && (b.Excluded? ==> forall i :: 0 <= i < |items| ==> items[i].key != b.key)
  {
    LessIrreflexive(start.key);
    LessIrreflexive(end.key);
    if Less(start.key, end.key) { LessAsymmetric(start.key, end.key); }
    var r := KeyRanges.KeyRange(start, end);
    forall b | b in {start, end} ensures KeyRanges.Within(r, b.key) <==> b.Included? {}
  }

  /** Where the writes after the last clear begin. */
  method AfterLastClear(staged: seq<Pending>) returns (found: bool, from: nat)
    ensures from <= |staged| && found == HasClear(staged)
    ensures staged[from..] == Tail(staged)
  {
    from := |staged|;
    while from > 0 && !staged[from - 1].Clear?
      invariant from <= |staged|
      invariant forall i :: from <= i < |staged| ==> !staged[i].Clear?
    {
      from := from - 1;
    }
    found := from > 0;
    TailFrom(staged, from);
  }

  lemma {:induction false} TailFrom(staged: seq<Pending>, from: nat)
    requires from <= |staged| && forall i :: from <= i < |staged| ==> !staged[i].Clear?
    requires from > 0 ==> staged[from - 1].Clear?
    ensures HasClear(staged) == (from > 0) && Tail(staged) == staged[from..]
    decreases |staged|
  {
    if from > 0 { assert HasClear(staged); }
    if from < |staged| {
      var init := staged[..|staged| - 1];
      TailFrom(init, from);
      assert init[from..] + [staged[|staged| - 1]] == staged[from..];
    }
  }

  lemma RestrictReplay(m: Contents, p: Pending, start: Bound, end: Bound)
    ensures Restrict(Replay(m, p), start, end) ==
              match p {
                case Put(k, payload) =>
                  if InBounds(k, start, end) then Restrict(m, start, end)[k := Value(FLAG_POSTCARD, payload)]
                  else Restrict(m, start, end)
                case Delete(k) => Restrict(m, start, end) - {k}
                case Clear => map[]
              }
  {
  }

  /**
   `walked` is what the walk over storage hands its visitor. The listing is the first `limit` entries of what the
   handle sees, staged writes, deletes and clears included; cutting the walk short when nothing is staged changes
   nothing.
   */
  method Collect(walked: seq<Listed>, ghost stored: Contents, staged: seq<Pending>, start: Bound, end: Bound,
                 reverse: bool, limit: Option<nat>)
    returns (items: seq<Listed>)
    requires Lists(walked, Restrict(stored, start, end), reverse, None)
    ensures Lists(items, Restrict(Overlay(stored, staged), start, end), reverse, limit)
    ensures FirstWithin(items, Overlay(stored, staged), start, end, reverse, limit)
  {
    items := CollectItems(walked, stored, staged, start, end, reverse, limit);
    ListsExactly(items, Overlay(stored, staged), start, end, reverse, limit);
  }

  method CollectItems(walked: seq<Listed>, ghost stored: Contents, staged: seq<Pending>, start: Bound, end: Bound,
                      reverse: bool, limit: Option<nat>)
    returns (items: seq<Listed>)
    requires Lists(walked, Restrict(stored, start, end), reverse, None)
    ensures Lists(items, Restrict(Overlay(stored, staged), start, end), reverse, limit)
  {
    var kept := Visit(walked, if staged == [] then limit else None);
    if staged == [] {
      return kept;
    }
    var found, from := AfterLastClear(staged);
    var merged: Contents := map[];
    if !found {
      WalkedAll(walked, Restrict(stored, start, end), reverse);
      merged := MapOf(kept, Restrict(stored, start, end));
    }
    ghost var base: Contents := if found then map[] else stored;
    merged := Merge(merged, staged[from..], start, end, base);
    ClearForgets(stored, staged);
    items := InOrder(merged, reverse, limit);
  }

  /** Later staged entries win; a staged key outside the bounds does not belong. */
  method Merge(walked: Contents, tail: seq<Pending>, start: Bound, end: Bound, ghost base: Contents)
    returns (merged: Contents)
    requires !HasClear(tail) && walked == Restrict(base, start, end)
    ensures merged == Restrict(Overlay(base, tail), start, end)
  {
    merged := walked;
    for i := 0 to |tail|
      invariant merged == Restrict(Overlay(base, tail[..i]), start, end)
    {
      assert tail[..i + 1][..i] == tail[..i];
      RestrictReplay(Overlay(base, tail[..i]), tail[i], start, end);
      assert !tail[i].Clear?;
      match tail[i]
      case Put(k, payload) =>
        if InBounds(k, start, end) { merged := merged[k := Value(FLAG_POSTCARD, payload)]; }
      case Delete(k) =>
        merged := merged - {k};
      case Clear =>
    }
    assert tail[..|tail|] == tail;
  }

  /** The visitor of the walk, which ignores everything past `cap`. */
  method Visit(walked: seq<Listed>, cap: Option<nat>) returns (kept: seq<Listed>)
    ensures kept == Truncate(walked, cap)
  {
    kept := [];
    for i := 0 to |walked|
      invariant kept == Truncate(walked[..i], cap)
    {
      if cap.None? || |kept| < cap.value { kept := kept + [walked[i]]; }
    }
  }

  lemma WalkedAll(items: seq<Listed>, m: Contents, reverse: bool)
    requires Lists(items, m, reverse, None)
    ensures forall k :: k in m ==> k in Keys(items)
  {
    ByteStore.OrderedIs(m.Keys, reverse);
  }

  method MapOf(items: seq<Listed>, ghost m: Contents) returns (r: Contents)
    requires forall i :: 0 <= i < |items| ==> items[i].key in m && items[i].value == m[items[i].key]
    requires forall k :: k in m ==> k in Keys(items)
    ensures r == m
  {
    r := map[];
    for i := 0 to |items|
      invariant forall j :: 0 <= j < i ==> Keys(items)[j] in r
      invariant forall k :: k in r ==> k in m && r[k] == m[k]
    {
      r := r[items[i].key := items[i].value];
    }
  }

  /** A sorted map, read forwards or backwards, cut to the limit. */
  method InOrder(m: Contents, reverse: bool, limit: Option<nat>) returns (items: seq<Listed>)
    ensures Lists(items, m, reverse, limit)
  {
    var keys := KeysInOrder(m.Keys);
    if reverse { keys := ByteStore.Reversed(keys); }
    assert forall k :: k in keys ==> k in m by { ByteStore.OrderedIs(m.Keys, reverse); }
    var n := if limit.Some? && limit.value < |keys| then limit.value else |keys|;
    items := [];
    for i := 0 to n
      invariant Keys(items) == keys[..i]
      invariant forall j :: 0 <= j < i ==> items[j].key in m && items[j].value == m[items[j].key]
    {
      assert keys[i] in keys;
      items := items + [Listed(keys[i], m[keys[i]])];
    }
  }
}
