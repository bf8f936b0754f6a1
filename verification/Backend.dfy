/**
 The memory backend: three ordered tables of bytes, op lists applied atomically, and bounded scans.
 */
module ByteStore {
  import opened Wrappers
  import opened Bytes
  import opened KeyRanges

  type Blob = seq<byte>

  type Tree = map<Key, Blob>

  datatype Table = Meta | Records | Chunks

  datatype Tables = Tables(meta: Tree, records: Tree, chunks: Tree)
  {
    function Get(t: Table): Tree
    {
      match t
      case Meta => meta
      case Records => records
      case Chunks => chunks
    }

    function With(t: Table, tree: Tree): Tables
    {
      match t
      case Meta => this.(meta := tree)
      case Records => this.(records := tree)
      case Chunks => this.(chunks := tree)
    }
  }

  datatype Op =
    | Put(table: Table, key: Key, value: Blob)
    | Delete(table: Table, key: Key)
    | DeleteRange(table: Table, range: KeyRange)

  const EMPTY_TABLES := Tables(map[], map[], map[])

  function Apply(s: Tables, op: Op): Tables
  {
    match op
    case Put(t, k, v) => s.With(t, s.Get(t)[k := v])
    case Delete(t, k) => s.With(t, s.Get(t) - {k})
    case DeleteRange(t, r) => s.With(t, map k | k in s.Get(t) && !Contains(r, k) :: s.Get(t)[k])
  }

  function ApplyAll(s: Tables, ops: seq<Op>): Tables
    decreases |ops|
  {
    if ops == [] then s else Apply(ApplyAll(s, ops[..|ops| - 1]), ops[|ops| - 1])
  }

  // ---- order of a scan -----------------------------------------------

  function Reversed(s: seq<Key>): (r: seq<Key>)
    ensures |r| == |s| && forall i :: 0 <= i < |s| ==> r[i] == s[|s| - 1 - i]
  {
    seq(|s|, i requires 0 <= i < |s| => s[|s| - 1 - i])
  }

  /** Keys in the order a scan visits them. */
  ghost function Ordered(keys: set<Key>, reverse: bool): seq<Key>
  {
    if reverse then Reversed(Sorted(keys)) else Sorted(keys)
  }

  predicate Before(a: Key, b: Key, reverse: bool) { if reverse then Less(b, a) else Less(a, b) }

  ghost predicate IsListing(ks: seq<Key>, keys: set<Key>, reverse: bool)
  {
    && (forall i, j :: 0 <= i < j < |ks| ==> Before(ks[i], ks[j], reverse))
    && (forall k :: k in keys <==> k in ks)
  }

  lemma OrderedIs(keys: set<Key>, reverse: bool)
    ensures IsListing(Ordered(keys, reverse), keys, reverse)
  {
    SortedIs(keys);
    if reverse { SameKeys(Sorted(keys)); }
  }

  lemma SameKeys(s: seq<Key>)
    ensures forall k :: k in Reversed(s) <==> k in s
  {
    forall k | k in s ensures k in Reversed(s) {
      var i :| 0 <= i < |s| && s[i] == k;
      assert Reversed(s)[|s| - 1 - i] == k;
    }
  }

  /** A set of keys is listed one way in each direction. */
  lemma ListingUnique(ks: seq<Key>, keys: set<Key>, reverse: bool)
    requires IsListing(ks, keys, reverse)
    ensures ks == Ordered(keys, reverse)
  {
    SortedIs(keys);
    if reverse {
      SameKeys(ks);
      SortingUnique(Reversed(ks), Sorted(keys));
      assert Reversed(Reversed(ks)) == ks;
    } else {
      SortingUnique(ks, Sorted(keys));
    }
  }

  // ---- scanning ------------------------------------------------------

  datatype Item = Item(key: Key, value: Option<Blob>)

  datatype Page = Page(items: seq<Item>, resume: Option<Key>)

  function ItemKeys(items: seq<Item>): (ks: seq<Key>)
    ensures |ks| == |items| && forall i :: 0 <= i < |ks| ==> ks[i] == items[i].key
  {
    seq(|items|, i requires 0 <= i < |items| => items[i].key)
  }

  ghost function InRange(tree: Tree, r: KeyRange): set<Key>
  {
    set k | k in tree && Contains(r, k)
  }

  /** The next page of at most `limit` keys, with the stored values if they were asked for. */
  ghost predicate HoldsPage(tree: Tree, r: KeyRange, reverse: bool, limit: nat, wantValues: bool, items: seq<Item>)
  {
    var all := Ordered(InRange(tree, r), reverse);
    && ItemKeys(items) == (if |all| <= limit then all else all[..limit])
    && forall i :: 0 <= i < |items| ==>
         items[i].key in tree && items[i].value == if wantValues then Some(tree[items[i].key]) else None
  }

  /**
   A resume point names the last key returned. It must be offered whenever more keys remain; a backend may also
   offer it on any full page.
   */
  ghost predicate LegalResume(tree: Tree, r: KeyRange, limit: nat, p: Page)
  {
    && (p.resume.Some? ==> |p.items| == limit && limit > 0 && p.resume.value == p.items[limit - 1].key)
    && (|InRange(tree, r)| > |p.items| ==> p.resume.Some?)
  }

  /**
   The page by the order of keys alone: stored keys within the bounds, in order; every such key left out comes after
   those on a full page, and then the page says where to go on.
   */
  ghost predicate OnePage(tree: Tree, r: KeyRange, reverse: bool, limit: nat, p: Page)
  {
    && |p.items| <= limit
    && (forall i :: 0 <= i < |p.items| ==> p.items[i].key in tree && KeyRanges.Within(r, p.items[i].key))
    && (forall i, j :: 0 <= i < j < |p.items| ==> Before(p.items[i].key, p.items[j].key, reverse))
    && (forall k :: k in tree && KeyRanges.Within(r, k) ==>
          || (exists i :: 0 <= i < |p.items| && p.items[i].key == k)
          || (&& 0 < limit == |p.items| && p.resume == Some(p.items[limit - 1].key)
              && forall i :: 0 <= i < |p.items| ==> Before(p.items[i].key, k, reverse)))
  }

  lemma PageExactly(tree: Tree, r: KeyRange, reverse: bool, limit: nat, wantValues: bool, p: Page)
    requires limit >= 1 && HoldsPage(tree, r, reverse, limit, wantValues, p.items) && LegalResume(tree, r, limit, p)
    ensures OnePage(tree, r, reverse, limit, p)
  {
    var all := Ordered(InRange(tree, r), reverse);
    OrderedIs(InRange(tree, r), reverse);
    CountListed(all, InRange(tree, r), reverse);
    forall i | 0 <= i < |p.items| ensures KeyRanges.Within(r, p.items[i].key) && p.items[i].key == all[i] {
      assert ItemKeys(p.items)[i] == all[i] && all[i] in all;
      KeyRanges.BoundsExact(r, p.items[i].key);
    }
    forall k | k in tree && KeyRanges.Within(r, k)
      ensures || (exists i :: 0 <= i < |p.items| && p.items[i].key == k)
              || (&& 0 < limit == |p.items| && p.resume == Some(p.items[limit - 1].key)
                  && forall i :: 0 <= i < |p.items| ==> Before(p.items[i].key, k, reverse))
    {
      KeyRanges.BoundsExact(r, k);
      OnPageOrAfter(all, p.items, reverse, limit, k);
    }
  }

  lemma OnPageOrAfter(all: seq<Key>, items: seq<Item>, reverse: bool, limit: nat, k: Key)
    requires ItemKeys(items) == (if |all| <= limit then all else all[..limit]) && k in all
    requires forall i, j :: 0 <= i < j < |all| ==> Before(all[i], all[j], reverse)
    ensures || (exists i :: 0 <= i < |items| && items[i].key == k)
            || (|all| > |items| == limit && forall i :: 0 <= i < |items| ==> Before(items[i].key, k, reverse))
  {
    var j :| 0 <= j < |all| && all[j] == k;
    assert forall i :: 0 <= i < |items| ==> items[i].key == ItemKeys(items)[i] == all[i];
  }

  class MemoryBackend {
    var tables: Tables
    var closed: bool
    const pageSize: nat
    /** Whether a full page always offers a resume point, or only one that leaves keys behind. */
    const fullPageResumes: bool

    constructor (pageSize: nat, fullPageResumes: bool)
      requires pageSize >= 1
      ensures tables == EMPTY_TABLES && !closed
      ensures this.pageSize == pageSize && this.fullPageResumes == fullPageResumes
    {
      this.pageSize, this.fullPageResumes := pageSize, fullPageResumes;
      tables, closed := EMPTY_TABLES, false;
    }

    /** All of the ops, in order, or none of them. */
    method Commit(ops: seq<Op>) returns (ok: bool)
      modifies this`tables
      ensures ok == !closed
      ensures tables == if ok then ApplyAll(old(tables), ops) else old(tables)
    {
      if closed { return false; }
      for i := 0 to |ops|
        invariant tables == ApplyAll(old(tables), ops[..i])
      {
        assert ops[..i + 1][..i] == ops[..i];
        ApplyOp(ops[i]);
      }
      assert ops[..|ops|] == ops;
      return true;
    }

    method ApplyOp(op: Op)
      modifies this`tables
      ensures tables == Apply(old(tables), op)
    {
      match op
      case Put(t, k, v) =>
        tables := tables.With(t, tables.Get(t)[k := v]);
      case Delete(t, k) =>
        tables := tables.With(t, tables.Get(t) - {k});
      case DeleteRange(t, r) =>
        var doomed := set k | k in tables.Get(t) && Contains(r, k);
        tables := tables.With(t, tables.Get(t) - doomed);
    }

    method Close()
      modifies this
      ensures closed && tables == if old(closed) then old(tables) else EMPTY_TABLES
    {
      if !closed {
        closed := true;
        tables := EMPTY_TABLES;
      }
    }

    /** One page of a range, in key order or its reverse. */
    method Scan(t: Table, r: KeyRange, reverse: bool, limit: nat, wantValues: bool) returns (p: Option<Page>)
      requires Legal(r) && limit >= 1
      ensures p.Some? <==> !closed
      ensures p.Some? ==>
                && HoldsPage(tables.Get(t), r, reverse, limit, wantValues, p.value.items)
                && LegalResume(tables.Get(t), r, limit, p.value)
                && OnePage(tables.Get(t), r, reverse, limit, p.value)
    {
      if closed { return None; }
      var page := ScanPage(t, r, reverse, limit, wantValues);
      PageExactly(tables.Get(t), r, reverse, limit, wantValues, page);
      p := Some(page);
    }

    method ScanPage(t: Table, r: KeyRange, reverse: bool, limit: nat, wantValues: bool) returns (p: Page)
      requires Legal(r) && limit >= 1
      ensures HoldsPage(tables.Get(t), r, reverse, limit, wantValues, p.items)
      ensures LegalResume(tables.Get(t), r, limit, p)
    {
      var tree := tables.Get(t);
      var inside := set k | k in tree && Contains(r, k);
      var keys := KeysInOrder(inside);
      if reverse { keys := Reversed(keys); }
      assert keys == Ordered(InRange(tree, r), reverse) && |keys| == |inside| by {
        OrderedIs(inside, reverse);
        CountListed(keys, inside, reverse);
      }
      assert forall k :: k in keys ==> k in tree by { OrderedIs(inside, reverse); }
      var items, last := FillPage(tree, keys, limit, wantValues);
      var exhausted := |items| < limit || (!fullPageResumes && |items| == |keys|);
      p := Page(items, if exhausted then None else last);
    }

    /** Take keys until the page is full, remembering the last. */
    method FillPage(tree: Tree, keys: seq<Key>, limit: nat, wantValues: bool)
      returns (items: seq<Item>, last: Option<Key>)
      requires forall k :: k in keys ==> k in tree
      ensures ItemKeys(items) == if |keys| <= limit then keys else keys[..limit]
      ensures forall i :: 0 <= i < |items| ==>
                items[i].key in tree && items[i].value == if wantValues then Some(tree[items[i].key]) else None
      ensures last == if items == [] then None else Some(items[|items| - 1].key)
    {
      items, last := [], None;
      var i := 0;
      while i < |keys| && |items| < limit
        invariant i == |items| <= |keys| && |items| <= limit
        invariant ItemKeys(items) == keys[..i]
        invariant forall j :: 0 <= j < i ==>
                    items[j].key in tree && items[j].value == if wantValues then Some(tree[items[j].key]) else None
        invariant last == if i == 0 then None else Some(items[i - 1].key)
      {
        assert keys[i] in keys;
        items := items + [Item(keys[i], if wantValues then Some(tree[keys[i]]) else None)];
        last := Some(keys[i]);
        i := i + 1;
      }
    }
  }

  lemma CountListed(ks: seq<Key>, keys: set<Key>, reverse: bool)
    requires IsListing(ks, keys, reverse)
    ensures |ks| == |keys|
    decreases |ks|
  {
    if ks == [] {
      assert keys == {};
    } else {
      var rest := keys - {ks[0]};
      LessIrreflexive(ks[0]);
      assert IsListing(ks[1..], rest, reverse) by {
        assert forall k :: k in ks <==> k == ks[0] || k in ks[1..];
        assert forall j :: 0 < j < |ks| ==> ks[j] != ks[0];
      }
      CountListed(ks[1..], rest, reverse);
    }
  }
}
