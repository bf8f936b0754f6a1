/** The sizes and removals a batch comes to, entry by entry, before a plan is made. */
module Accounting {
  import opened Bytes
  import opened Storage
  import opened Batches
  import opened Lru

  datatype Size = Size(key: Key, bytes: nat)

  datatype Accounts = Accounts(updates: seq<Size>, removals: seq<Key>, cleared: bool)

  function DropSizes(updates: seq<Size>, k: Key): seq<Size>
    decreases |updates|
  {
    if updates == [] then []
    else
      var before := DropSizes(updates[..|updates| - 1], k);
      if updates[|updates| - 1].key == k then before else before + [updates[|updates| - 1]]
  }

  function DropKeys(keys: seq<Key>, k: Key): seq<Key>
    decreases |keys|
  {
    if keys == [] then []
    else
      var before := DropKeys(keys[..|keys| - 1], k);
      if keys[|keys| - 1] == k then before else before + [keys[|keys| - 1]]
  }

  function Accounted(batch: seq<Pending>): Accounts
    decreases |batch|
  {
    if batch == [] then Accounts([], [], false)
    else
      var a := Accounted(batch[..|batch| - 1]);
      match batch[|batch| - 1]
      case Put(k, payload) =>
        Accounts(DropSizes(a.updates, k) + [Size(k, |payload|)], DropKeys(a.removals, k), a.cleared)
      case Delete(k) => Accounts(DropSizes(a.updates, k), a.removals + [k], a.cleared)
      case Clear => Accounts([], [], true)
  }

  function SizeKeys(updates: seq<Size>): (ks: seq<Key>)
    ensures |ks| == |updates| && forall i :: 0 <= i < |ks| ==> ks[i] == updates[i].key
  {
    seq(|updates|, i requires 0 <= i < |updates| => updates[i].key)
  }

  /** How often `k` has been deleted since it was last written or the batch was last cleared. */
  function PendingDeletes(batch: seq<Pending>, k: Key): nat
    decreases |batch|
  {
    if batch == [] then 0
    else
      var n := PendingDeletes(batch[..|batch| - 1], k);
      match batch[|batch| - 1]
      case Put(j, _) => if j == k then 0 else n
      case Delete(j) => if j == k then n + 1 else n
      case Clear => 0
  }

  /** No key is deleted twice in a row: what keeps the byte total honest. */
  ghost predicate SingleDeletes(batch: seq<Pending>)
  {
    forall k :: PendingDeletes(batch, k) <= 1
  }

  method Account(batch: seq<Pending>) returns (a: Accounts)
    ensures a == Accounted(batch)
  {
    a := Accounts([], [], false);
    for i := 0 to |batch|
      invariant a == Accounted(batch[..i])
    {
      assert batch[..i + 1][..i] == batch[..i];
      match batch[i]
      case Put(k, payload) =>
        var updates := RetainSizes(a.updates, k);
        var removals := RetainKeys(a.removals, k);
        a := Accounts(updates + [Size(k, |payload|)], removals, a.cleared);
      case Delete(k) =>
        var updates := RetainSizes(a.updates, k);
        a := Accounts(updates, a.removals + [k], a.cleared);
      case Clear =>
        a := Accounts([], [], true);
    }
    assert batch[..|batch|] == batch;
  }

  method RetainSizes(updates: seq<Size>, k: Key) returns (r: seq<Size>)
    ensures r == DropSizes(updates, k)
  {
    r := [];
    for i := 0 to |updates|
      invariant r == DropSizes(updates[..i], k)
    {
      assert updates[..i + 1][..i] == updates[..i];
      if updates[i].key != k { r := r + [updates[i]]; }
    }
    assert updates[..|updates|] == updates;
  }

  method RetainKeys(keys: seq<Key>, k: Key) returns (r: seq<Key>)
    ensures r == DropKeys(keys, k)
  {
    r := [];
    for i := 0 to |keys|
      invariant r == DropKeys(keys[..i], k)
    {
      assert keys[..i + 1][..i] == keys[..i];
      if keys[i] != k { r := r + [keys[i]]; }
    }
    assert keys[..|keys|] == keys;
  }

  lemma {:induction false} DropSizesAre(updates: seq<Size>, k: Key)
    ensures forall u :: u in DropSizes(updates, k) <==> u in updates && u.key != k
    decreases |updates|
  {
    if updates != [] {
      var init, u := updates[..|updates| - 1], updates[|updates| - 1];
      assert updates == init + [u];
      DropSizesAre(init, k);
    }
  }

  lemma {:induction false} DropSizesDistinct(updates: seq<Size>, k: Key)
    requires DistinctKeys(SizeKeys(updates))
    ensures DistinctKeys(SizeKeys(DropSizes(updates, k)))
    decreases |updates|
  {
    if updates != [] {
      var init, u := updates[..|updates| - 1], updates[|updates| - 1];
      assert SizeKeys(init) == SizeKeys(updates)[..|init|];
      DropSizesDistinct(init, k);
      DropSizesAre(init, k);
      if u.key != k {
        forall w | w in DropSizes(init, k) ensures w.key != u.key {
          var j :| 0 <= j < |init| && init[j] == w;
          assert SizeKeys(updates)[j] != SizeKeys(updates)[|init|];
        }
        AppendDistinct(DropSizes(init, k), u.key, u.bytes);
      }
    }
  }

  lemma {:induction false} DropKeysAre(keys: seq<Key>, k: Key)
    ensures multiset(DropKeys(keys, k)) == multiset(keys)[k := 0]
    decreases |keys|
  {
    if keys != [] {
      assert keys == keys[..|keys| - 1] + [keys[|keys| - 1]];
      DropKeysAre(keys[..|keys| - 1], k);
    }
  }

  lemma {:induction false} UpdatesDistinct(batch: seq<Pending>)
    ensures DistinctKeys(SizeKeys(Accounted(batch).updates))
    decreases |batch|
  {
    if batch != [] {
      var init, p := batch[..|batch| - 1], batch[|batch| - 1];
      UpdatesDistinct(init);
      if !p.Clear? {
        var updates := Accounted(init).updates;
        DropSizesDistinct(updates, p.key);
        DropSizesAre(updates, p.key);
        if p.Put? { AppendDistinct(DropSizes(updates, p.key), p.key, |p.payload|); }
      }
    }
  }

  ghost predicate SizesOf(updates: seq<Size>, acts: map<Key, Action>)
  {
    forall u :: u in updates <==> u.key in acts && acts[u.key].Assign? && u.bytes == |acts[u.key].payload|
  }

  lemma SizesStep(updates: seq<Size>, acts: map<Key, Action>, k: Key, a: Action)
    requires SizesOf(updates, acts)
    ensures SizesOf(DropSizes(updates, k) + (if a.Assign? then [Size(k, |a.payload|)] else []), acts[k := a])
  {
    DropSizesAre(updates, k);
  }

  /** The last entry per key decides the sizes. */
  lemma {:induction false} UpdatesAre(batch: seq<Pending>)
    ensures DistinctKeys(SizeKeys(Accounted(batch).updates))
    ensures SizesOf(Accounted(batch).updates, Actions(Tail(batch)))
    decreases |batch|
  {
    UpdatesDistinct(batch);
    if batch != [] {
      var init, p := batch[..|batch| - 1], batch[|batch| - 1];
      assert batch == init + [p];
      UpdatesAre(init);
      ActionsAppend(init, p);
      match p
      case Put(k, payload) => SizesStep(Accounted(init).updates, Actions(Tail(init)), k, Assign(payload));
      case Delete(k) =>
        SizesStep(Accounted(init).updates, Actions(Tail(init)), k, Remove);
        assert DropSizes(Accounted(init).updates, k) + [] == DropSizes(Accounted(init).updates, k);
      case Clear =>
    }
  }

  /** A key is listed for removal once per delete since it was last written. */
  lemma {:induction false} RemovalsAre(batch: seq<Pending>)
    ensures Accounted(batch).cleared == HasClear(batch)
    ensures forall k :: multiset(Accounted(batch).removals)[k] == PendingDeletes(batch, k)
    decreases |batch|
  {
    if batch != [] {
      var init, p := batch[..|batch| - 1], batch[|batch| - 1];
      assert batch == init + [p];
      RemovalsAre(init);
      assert HasClear(batch) == (p.Clear? || HasClear(init)) by { TailAppend(init, p); }
      if p.Put? { DropKeysAre(Accounted(init).removals, p.key); }
    }
  }

  /** A key is pending deletion exactly when its last action is a removal. */
  lemma {:induction false} DeletesAre(batch: seq<Pending>, k: Key)
    ensures PendingDeletes(batch, k) > 0 <==>
              k in Actions(Tail(batch)) && Actions(Tail(batch))[k].Remove?
    decreases |batch|
  {
    if batch != [] {
      var init, p := batch[..|batch| - 1], batch[|batch| - 1];
      assert batch == init + [p];
      DeletesAre(init, k);
      ActionsAppend(init, p);
    }
  }

  /** Removals name exactly the keys whose last action is a removal. */
  lemma RemovedKeys(batch: seq<Pending>, k: Key)
    ensures k in Accounted(batch).removals <==>
              k in Actions(Tail(batch)) && Actions(Tail(batch))[k].Remove?
  {
    RemovalsAre(batch);
    DeletesAre(batch, k);
    assert k in Accounted(batch).removals <==> multiset(Accounted(batch).removals)[k] > 0;
  }

  lemma AppendDistinct(updates: seq<Size>, k: Key, n: nat)
    requires DistinctKeys(SizeKeys(updates)) && forall u :: u in updates ==> u.key != k
    ensures DistinctKeys(SizeKeys(updates + [Size(k, n)]))
  {
    var all := updates + [Size(k, n)];
    forall i, j | 0 <= i < j < |all| ensures SizeKeys(all)[i] != SizeKeys(all)[j] {
      if j < |updates| { assert SizeKeys(updates)[i] != SizeKeys(updates)[j]; } else { assert updates[i] in updates; }
    }
  }

  /** How one more entry changes the collapsed actions. */
  lemma ActionsAppend(init: seq<Pending>, p: Pending)
    ensures var acts := Actions(Tail(init));
      Actions(Tail(init + [p])) ==
        match p {
          case Put(k, payload) => acts[k := Assign(payload)]
          case Delete(k) => acts[k := Remove]
          case Clear => map[]
        }
  {
    TailAppend(init, p);
    if !p.Clear? {
      assert (Tail(init) + [p])[..|Tail(init)|] == Tail(init);
    }
  }

  lemma TailAppend(init: seq<Pending>, p: Pending)
    ensures Tail(init + [p]) == if p.Clear? then [] else Tail(init) + [p]
    ensures HasClear(init + [p]) == (p.Clear? || HasClear(init))
    ensures !p.Clear? ==> Tail(init + [p])[..|Tail(init)|] == Tail(init)
  {
    var batch := init + [p];
    assert batch[..|batch| - 1] == init;
    if HasClear(init) { var i :| 0 <= i < |init| && init[i].Clear?; assert batch[i].Clear?; }
    if HasClear(batch) && !p.Clear? { var i :| 0 <= i < |batch| && batch[i].Clear?; assert init[i].Clear?; }
    if p.Clear? { assert batch[|init|].Clear?; }
  }

  /** Removals are listed once each exactly when no key is deleted twice in a row. */
  lemma RemovalsDistinct(batch: seq<Pending>)
    ensures DistinctKeys(Accounted(batch).removals) <==> SingleDeletes(batch)
  {
    RemovalsAre(batch);
    var removals := Accounted(batch).removals;
    if DistinctKeys(removals) {
      forall k ensures PendingDeletes(batch, k) <= 1 {
        DistinctOnce(removals, k);
      }
    } else {
      var i, j :| 0 <= i < j < |removals| && removals[i] == removals[j];
      CountedTwice(removals, i, j);
    }
  }

  lemma CountedTwice(keys: seq<Key>, i: nat, j: nat)
    requires i < j < |keys| && keys[i] == keys[j]
    ensures multiset(keys)[keys[i]] >= 2
  {
    var a, b := keys[..j], keys[j..];
    assert keys == a + b;
    assert a[i] in a && b[0] in b;
    assert multiset(a)[keys[i]] > 0 && multiset(b)[keys[i]] > 0;
  }

  lemma {:induction false} DistinctOnce(keys: seq<Key>, k: Key)
    requires DistinctKeys(keys)
    ensures multiset(keys)[k] <= 1
    decreases |keys|
  {
    if keys != [] {
      var init, last := keys[..|keys| - 1], keys[|keys| - 1];
      assert keys == init + [last];
      DistinctOnce(init, k);
      assert k == last ==> k !in init;
    }
  }
}
