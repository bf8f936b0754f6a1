/** One commit's share of the byte budget: the ops it adds, and the accounts it leaves. */
module Budget {
  import opened Bytes
  import opened Storage
  import opened Ownership
  import opened Inner
  import opened Batches
  import opened Transaction
  import opened Lru
  import opened Accounting
  import opened LogicalClock

  datatype LruState = LruState(maxBytes: nat, entries: Entries, total: nat, pending: map<Key, nat>)

  /** What one commit does to the accounts, worked out before anything is written. */
  datatype BudgetPlan = BudgetPlan(
    updates: seq<Update>, removals: seq<Key>, cleared: bool, plan: Plan, pending: seq<Key>)

  const NO_BUDGET := BudgetPlan([], [], false, Plan([], 0), [])

  // ---- deferred tick bumps -------------------------------------------

  function Take(keys: seq<Key>, n: nat): seq<Key> { if |keys| <= n then keys else keys[..n] }

  /** The bumped keys a commit forgets. */
  function CarriedKeys(l: LruState, keys: seq<Key>, skip: seq<Key>): seq<Key>
    decreases |keys|
  {
    if keys == [] then []
    else
      var k := keys[|keys| - 1];
      var before := CarriedKeys(l, keys[..|keys| - 1], skip);
      if k in skip || k in l.entries then before + [k] else before
  }

  /** The rows it rewrites for them: never one it is writing afresh. */
  function CarriedOps(l: LruState, id: LockerId, keys: seq<Key>, skip: seq<Key>): seq<Op>
    requires forall k :: k in keys ==> k in l.pending
    decreases |keys|
  {
    if keys == [] then []
    else
      var k := keys[|keys| - 1];
      var before := CarriedOps(l, id, keys[..|keys| - 1], skip);
      if k in skip || k !in l.entries then before
      else before + [PutLru(id, k, Entry(l.pending[k], l.entries[k].bytes))]
  }

  ghost function PendingBatch(l: LruState): seq<Key> { Take(Sorted(l.pending.Keys), PENDING_PER_COMMIT) }

  lemma PendingBatchIs(l: LruState)
    ensures forall k :: k in PendingBatch(l) ==> k in l.pending
  {
    SortedIs(l.pending.Keys);
    forall k | k in PendingBatch(l) ensures k in l.pending {
      assert k in Sorted(l.pending.Keys);
    }
  }

  // ---- the ops -------------------------------------------------------

  function UpdateOps(id: LockerId, updates: seq<Update>): seq<Op>
  {
    seq(|updates|, i requires 0 <= i < |updates| => PutLru(id, updates[i].key, updates[i].entry))
  }

  function RemovalOps(id: LockerId, keys: seq<Key>): seq<Op>
  {
    seq(|keys|, i requires 0 <= i < |keys| => DeleteLru(id, keys[i]))
  }

  function VictimOps(s: Store, id: LockerId, victims: seq<Key>): seq<Op>
    decreases |victims|
  {
    if victims == [] then []
    else
      VictimOps(s, id, victims[..|victims| - 1])
      + DeleteOps(s, id, victims[|victims| - 1], Unknown) + [DeleteLru(id, victims[|victims| - 1])]
  }

  function Stamp(sizes: seq<Size>, tick: nat): (updates: seq<Update>)
    ensures |updates| == |sizes|
    ensures forall i :: 0 <= i < |sizes| ==> updates[i] == Update(sizes[i].key, Entry(tick, sizes[i].bytes))
  {
    seq(|sizes|, i requires 0 <= i < |sizes| => Update(sizes[i].key, Entry(tick, sizes[i].bytes)))
  }

  ghost function PlanBudget(l: LruState, tick: nat, a: Accounts): BudgetPlan
  {
    var updates := Stamp(a.updates, tick);
    BudgetPlan(updates, a.removals, a.cleared,
               PlanFor(l.entries, l.total, updates, a.removals, a.cleared, l.maxBytes, KeysOf(updates)),
               if a.cleared then [] else CarriedKeys(l, PendingBatch(l), KeysOf(updates)))
  }

  /** Bookkeeping rows: a clear, the fresh rows, the deferred bumps, the removals, in that order. */
  ghost function RowOps(l: LruState, id: LockerId, b: BudgetPlan): seq<Op>
  {
    PendingBatchIs(l);
    (if b.cleared then [ClearLru(id)] else [])
    + UpdateOps(id, b.updates)
    + (if b.cleared then [] else CarriedOps(l, id, PendingBatch(l), KeysOf(b.updates)))
    + RemovalOps(id, b.removals)
  }

  ghost function BudgetOps(s: Store, l: LruState, id: LockerId, b: BudgetPlan, ticks: TickState): seq<Op>
  {
    RowOps(l, id, b) + VictimOps(s, id, b.plan.victims) + [PutNextTick(Persisted(ticks))]
  }

  function WithoutPending(pending: map<Key, nat>, keys: seq<Key>): map<Key, nat>
  {
    pending - set k | k in keys
  }

  /** The accounts once the commit has landed. */
  function Applied(l: LruState, b: BudgetPlan): LruState
  {
    var pending := WithoutPending(WithoutPending(if b.cleared then map[] else l.pending, b.removals), b.plan.victims);
    l.(entries := EntriesAfter(l.entries, b.updates, b.removals, b.cleared, b.plan.victims),
       total := b.plan.total,
       pending := WithoutPending(pending, b.pending))
  }

  // ---- the stored rows follow the accounts ---------------------------

  /** Stored rows for exactly the accounted keys, with the accounted sizes (to 32 bits). */
  ghost predicate RowsMatch(rows: map<Key, Entry>, m: Entries)
  {
    rows.Keys == m.Keys && forall k :: k in m ==> rows[k].bytes == Sat32(m[k].bytes)
  }

  lemma {:induction false} UpdateOpsEffect(s: Store, id: LockerId, updates: seq<Update>, m: Entries)
    requires RowsMatch(s.LruRows(id), m)
    ensures var t := ApplyAll(s, UpdateOps(id, updates));
      RowsMatch(t.LruRows(id), PutAll(m, updates)) && forall j :: j != id ==> t.LruRows(j) == s.LruRows(j)
    decreases |updates|
  {
    if updates != [] {
      var n := |updates| - 1;
      UpdateOpsEffect(s, id, updates[..n], m);
      assert UpdateOps(id, updates)[..n] == UpdateOps(id, updates[..n]);
      assert UpdateOps(id, updates)[n] == PutLru(id, updates[n].key, updates[n].entry);
    }
  }

  lemma {:induction false} RemovalOpsEffect(s: Store, id: LockerId, keys: seq<Key>, m: Entries)
    requires RowsMatch(s.LruRows(id), m)
    ensures var t := ApplyAll(s, RemovalOps(id, keys));
      RowsMatch(t.LruRows(id), RemoveAll(m, keys)) && forall j :: j != id ==> t.LruRows(j) == s.LruRows(j)
    decreases |keys|
  {
    if keys == [] {
      assert RemoveAll(m, []) == m;
    } else {
      var n := |keys| - 1;
      RemovalOpsEffect(s, id, keys[..n], m);
      assert RemovalOps(id, keys)[..n] == RemovalOps(id, keys[..n]);
      assert RemovalOps(id, keys)[n] == DeleteLru(id, keys[n]);
      RemoveLast(m, keys);
    }
  }

  lemma RemoveLast(m: Entries, keys: seq<Key>)
    requires keys != []
    ensures RemoveAll(m, keys) == RemoveAll(m, keys[..|keys| - 1]) - {keys[|keys| - 1]}
  {
    assert keys == keys[..|keys| - 1] + [keys[|keys| - 1]];
  }

  lemma {:induction false} CarriedOpsEffect(s: Store, l: LruState, id: LockerId, keys: seq<Key>, skip: seq<Key>,
                                            m: Entries)
    requires forall k :: k in keys ==> k in l.pending
    requires RowsMatch(s.LruRows(id), m)
    requires forall k :: k in l.entries && k !in skip ==> k in m && m[k] == l.entries[k]
    ensures var t := ApplyAll(s, CarriedOps(l, id, keys, skip));
      RowsMatch(t.LruRows(id), m) && forall j :: j != id ==> t.LruRows(j) == s.LruRows(j)
    decreases |keys|
  {
    if keys != [] {
      var init, k := keys[..|keys| - 1], keys[|keys| - 1];
      CarriedOpsEffect(s, l, id, init, skip, m);
      if k !in skip && k in l.entries {
        var op := PutLru(id, k, Entry(l.pending[k], l.entries[k].bytes));
        ApplyAppend(s, CarriedOps(l, id, init, skip), [op]);
        ApplyOne(ApplyAll(s, CarriedOps(l, id, init, skip)), op);
      }
    }
  }

  /** The bookkeeping part of a commit leaves rows for exactly the kept accounts. */
  lemma RowOpsEffect(s: Store, l: LruState, id: LockerId, b: BudgetPlan)
    requires RowsMatch(s.LruRows(id), l.entries)
    requires forall k :: k in b.removals ==> k !in KeysOf(b.updates)
    ensures var t := ApplyAll(s, RowOps(l, id, b));
      && RowsMatch(t.LruRows(id), Kept(l.entries, b.updates, b.removals, b.cleared))
      && (forall j :: j != id ==> t.LruRows(j) == s.LruRows(j))
  {
    PendingBatchIs(l);
    var clear := if b.cleared then [ClearLru(id)] else [];
    var m0: Entries := if b.cleared then map[] else l.entries;
    var s1 := ApplyAll(s, clear);
    assert RowsMatch(s1.LruRows(id), m0) && forall j :: j != id ==> s1.LruRows(j) == s.LruRows(j) by {
      if b.cleared { ApplyOne(s, ClearLru(id)); }
    }
    UpdateOpsEffect(s1, id, b.updates, m0);
    var m1 := PutAll(m0, b.updates);
    PutAllAt(m0, b.updates);
    var s2 := ApplyAll(s1, UpdateOps(id, b.updates));
    ApplyAppend(s, clear, UpdateOps(id, b.updates));
    var carried := if b.cleared then [] else CarriedOps(l, id, PendingBatch(l), KeysOf(b.updates));
    if !b.cleared { CarriedOpsEffect(s2, l, id, PendingBatch(l), KeysOf(b.updates), m1); }
    var s3 := ApplyAll(s2, carried);
    ApplyAppend(s, clear + UpdateOps(id, b.updates), carried);
    RemovalOpsEffect(s3, id, b.removals, m1);
    ApplyAppend(s, clear + UpdateOps(id, b.updates) + carried, RemovalOps(id, b.removals));
    RemoveCommutes(l.entries, b);
  }

  lemma RemoveCommutes(m: Entries, b: BudgetPlan)
    requires forall k :: k in b.removals ==> k !in KeysOf(b.updates)
    ensures RemoveAll(PutAll(if b.cleared then map[] else m, b.updates), b.removals)
         == Kept(m, b.updates, b.removals, b.cleared)
  {
    var base: Entries := if b.cleared then map[] else m;
    PutAllAt(base, b.updates);
    PutAllAt(RemoveAll(m, b.removals), b.updates);
    PutAllPointwise(base, RemoveAll(base, b.removals), b.updates);
    assert RemoveAll(map[], b.removals) == map[];
  }

  /** What an update writes does not depend on what it is written over. */
  lemma {:induction false} PutAllPointwise(a: Entries, b: Entries, updates: seq<Update>)
    ensures forall k :: k in KeysOf(updates) ==>
              k in PutAll(a, updates) && k in PutAll(b, updates) && PutAll(a, updates)[k] == PutAll(b, updates)[k]
    decreases |updates|
  {
    PutAllAt(a, updates);
    PutAllAt(b, updates);
    if updates != [] {
      var init, u := updates[..|updates| - 1], updates[|updates| - 1];
      assert updates == init + [u] && KeysOf(updates) == KeysOf(init) + [u.key];
      PutAllPointwise(a, b, init);
    }
  }

  // ---- evicting ------------------------------------------------------

  /** `t` is `s` without the victims' records, chunks and budget rows, and nothing else is touched. */
  ghost predicate Evicted(s: Store, t: Store, ws: Writers, id: LockerId, victims: seq<Key>, m: Entries, cursor: nat)
  {
    && Sound(t, ws, cursor)
    && View(t, id) == View(s, id) - (set k | k in victims)
    && OnlyRecords(s, t, ws, id, victims, cursor)
    && (RowsMatch(s.LruRows(id), m) ==> RowsMatch(t.LruRows(id), RemoveAll(m, victims)))
    && (forall j :: j != id ==> t.LruRows(j) == s.LruRows(j))
    && t.nextId == s.nextId && t.nextTick == s.nextTick
  }

  lemma {:induction false} VictimOpsEffect(s0: Store, s: Store, ws: Writers, id: LockerId, victims: seq<Key>,
                                           m: Entries, cursor: nat)
    requires Sound(s, ws, cursor) && GcReady(s0, s, id, victims, cursor)
    requires DistinctKeys(victims)
    ensures Evicted(s, ApplyAll(s, VictimOps(s0, id, victims)), ws, id, victims, m, cursor)
    decreases |victims|
  {
    if victims == [] {
      assert RemoveAll(m, []) == m;
    } else {
      var init, v := victims[..|victims| - 1], victims[|victims| - 1];
      var t := ApplyAll(s, VictimOps(s0, id, init));
      var step := DeleteOps(s0, id, v, Unknown) + [DeleteLru(id, v)];
      AllButLast(s0, s, id, victims, cursor);
      VictimOpsEffect(s0, s, ws, id, init, m, cursor);
      assert ApplyAll(s, VictimOps(s0, id, victims)) == ApplyAll(t, step) by {
        assert VictimOps(s0, id, victims) == VictimOps(s0, id, init) + step;
        ApplyAppend(s, VictimOps(s0, id, init), step);
      }
      NextVictim(s0, s, t, ws, id, init, v, m, cursor);
    }
  }

  lemma AllButLast(s0: Store, s: Store, id: LockerId, victims: seq<Key>, cursor: nat)
    requires victims != [] && DistinctKeys(victims) && GcReady(s0, s, id, victims, cursor)
    ensures var init, v := victims[..|victims| - 1], victims[|victims| - 1];
      victims == init + [v] && DistinctKeys(init) && v !in init && GcReady(s0, s, id, init, cursor)
  {
    assert forall k :: k in victims[..|victims| - 1] ==> k in victims;
  }

  lemma NextVictim(s0: Store, s: Store, t: Store, ws: Writers, id: LockerId, init: seq<Key>, v: Key, m: Entries,
                   cursor: nat)
    requires Evicted(s, t, ws, id, init, m, cursor) && GcReady(s0, s, id, init + [v], cursor) && v !in init
    ensures Evicted(s, ApplyAll(t, DeleteOps(s0, id, v, Unknown) + [DeleteLru(id, v)]), ws, id, init + [v], m, cursor)
  {
    assert v in init + [v];
    StillReady(s0, s, t, ws, id, init, v, cursor);
    VictimStep(s0, t, ws, id, v, RemoveAll(m, init), cursor);
    EvictedOneMore(s, t, ApplyAll(t, DeleteOps(s0, id, v, Unknown) + [DeleteLru(id, v)]), ws, id, init, v, m, cursor);
  }

  lemma EvictedOneMore(s: Store, t: Store, u: Store, ws: Writers, id: LockerId, init: seq<Key>, v: Key, m: Entries,
                       cursor: nat)
    requires Evicted(s, t, ws, id, init, m, cursor) && Evicted(t, u, ws, id, [v], RemoveAll(m, init), cursor)
    ensures Evicted(s, u, ws, id, init + [v], m, cursor)
  {
    assert RemoveAll(m, init + [v]) == RemoveAll(RemoveAll(m, init), [v]);
    assert View(u, id) == View(s, id) - (set k | k in init + [v]) by {
      assert (set k | k in init + [v]) == (set k | k in init) + {v};
      assert (set k | k in [v]) == {v};
    }
    OnlyRecordsTwice(s, t, u, ws, id, init, [v], cursor);
  }

  lemma OnlyRecordsTwice(s: Store, t: Store, u: Store, ws: Writers, id: LockerId, a: seq<Key>, b: seq<Key>, cursor: nat)
    requires OnlyRecords(s, t, ws, id, a, cursor) && OnlyRecords(t, u, ws, id, b, cursor)
    ensures OnlyRecords(s, u, ws, id, a + b, cursor)
  {
    forall k | k !in a + b ensures RecordAt(u, id, k) == RecordAt(s, id, k) {
      assert k !in a && k !in b;
    }
    forall l | l != id ensures u.Recs(l) == s.Recs(l) && View(u, l) == View(s, l) {
      assert t.Recs(l) == s.Recs(l) && View(t, l) == View(s, l);
    }
  }

  lemma VictimStep(s0: Store, s: Store, ws: Writers, id: LockerId, v: Key, m: Entries, cursor: nat)
    requires Sound(s, ws, cursor) && Drops(s, id, v, GcTarget(s0, id, v, Unknown))
    ensures Evicted(s, ApplyAll(s, DeleteOps(s0, id, v, Unknown) + [DeleteLru(id, v)]), ws, id, [v], m, cursor)
  {
    var ops := DeleteOps(s0, id, v, Unknown);
    DeleteStep(s0, s, ws, id, v, Unknown, cursor);
    var t1 := ApplyAll(s, ops);
    var t := Apply(t1, DeleteLru(id, v));
    ApplyAppend(s, ops, [DeleteLru(id, v)]);
    ApplyOne(t1, DeleteLru(id, v));
    RowsOnly(s, t1, t, ws, id, [v], cursor);
    assert (set k | k in [v]) == {v};
    RowDropped(s, t, id, v, m);
  }

  lemma RowDropped(s: Store, t: Store, id: LockerId, v: Key, m: Entries)
    requires t.lru == s.lru[id := s.LruRows(id) - {v}]
    ensures RowsMatch(s.LruRows(id), m) ==> RowsMatch(t.LruRows(id), RemoveAll(m, [v]))
    ensures forall j :: j != id ==> t.LruRows(j) == s.LruRows(j)
  {
    assert RemoveAll(m, [v]) == m - {v};
  }

  /** A change to bookkeeping rows only keeps everything said about records and chunks. */
  lemma RowsOnly(s: Store, t: Store, u: Store, ws: Writers, id: LockerId, keys: seq<Key>, cursor: nat)
    requires u.records == t.records && u.chunks == t.chunks && u.nextId == t.nextId
    ensures Sound(t, ws, cursor) ==> Sound(u, ws, cursor)
    ensures forall l :: u.Recs(l) == t.Recs(l) && View(u, l) == View(t, l)
    ensures OnlyRecords(s, t, ws, id, keys, cursor) ==> OnlyRecords(s, u, ws, id, keys, cursor)
  {
    SameData(t, u, ws);
    assert forall v: nat :: u.Rows(v) == t.Rows(v);
    SameReadable(t, u);
  }
}
