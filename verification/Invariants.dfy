/**
 What every step of a lazy locker keeps, and what it does to the locker's contents: one commit at a
 time here, whole runs in `Runs`.
 */
module Invariants {
  import opened Wrappers
  import opened Bytes
  import opened Storage
  import opened Ownership
  import opened Inner
  import opened Batches
  import opened Transaction
  import opened Lru
  import opened Accounting
  import opened Budget
  import opened LogicalClock
  import opened LockerSteps

  /** A locker's contents as its own handle sees them: the stored ones overlaid with the staged batch. */
  function Visible(s: Store, l: Locker): Contents
  {
    Overlay(View(s, l.id), l.staged)
  }

  /** The bank: exact chunk ownership, and both counters ahead of every id in use. */
  ghost predicate BankOk(b: Bank, ws: Writers)
  {
    Sound(b.store, ws, Cursor(b.store, b.next))
  }

  /** The resident state agrees with storage. */
  ghost predicate ResidentOk(s: Store, l: Locker)
  {
    && l.cfg.chunkSize >= 1
    && l.index == Visible(s, l).Keys
    && (forall k :: k in l.knownInline ==> k in s.Recs(l.id) && s.Recs(l.id)[k].Inline?)
    && (if l.cfg.IsDeferred() then l.knownInline == {} else l.staged == [])
    && (l.lru.Some? <==> l.cfg.budget.Some?)
    && Bounded(l.staged)
  }

  /** One account per stored key, holding the payload's size. */
  ghost predicate Covers(entries: Entries, m: Contents)
  {
    entries.Keys == m.Keys && forall k :: k in m ==> entries[k].bytes == |m[k].payload|
  }

  /** RAM accounts, stored rows and stored values agree, and the total is their sum. */
  ghost predicate AccountsOk(s: Store, id: LockerId, a: LruState)
  {
    && Covers(a.entries, View(s, id))
    && RowsMatch(s.LruRows(id), a.entries)
    && a.total == Sum(a.entries)
    && a.pending.Keys <= a.entries.Keys
  }

  // ---- what the build of a commit promises ---------------------------

  lemma BatchBuilds(b: Bank, ws: Writers, l: Locker, batch: seq<Pending>)
    requires l.cfg.chunkSize >= 1 && BankOk(b, ws) && Bounded(batch)
    ensures Builds(b.store, ws, l.id, batch, BatchOps(b.store, l.id, l.cfg.chunkSize, batch, b.next), b.next)
  {
    BatchOpsEffect(b.store, ws, l.id, l.cfg.chunkSize, batch, b.next);
  }

  /** What the index proves is true of the store: the read-skipping answers are right. */
  lemma PriorIsTrue(s: Store, l: Locker, k: Key)
    requires ResidentOk(s, l)
    ensures GcTarget(s, l.id, k, PriorOf(l, k)) == GcTarget(s, l.id, k, Unknown)
  {
    assert l.staged == [] ==> Visible(s, l) == View(s, l.id);
  }

  /** Under what the locker knows, a write builds exactly the ops it would build after a read. */
  lemma FastPathExact(b: Bank, l: Locker, k: Key, payload: Payload)
    requires ResidentOk(b.store, l)
    ensures PutBuild(b.store, l.id, l.cfg.chunkSize, k, payload, FLAG_POSTCARD, PriorOf(l, k), b.next)
         == PutBuild(b.store, l.id, l.cfg.chunkSize, k, payload, FLAG_POSTCARD, Unknown, b.next)
    ensures DeleteOps(b.store, l.id, k, PriorOf(l, k)) == DeleteOps(b.store, l.id, k, Unknown)
  {
    PriorIsTrue(b.store, l, k);
  }

  lemma SingleActions(p: Pending)
    requires !p.Clear?
    ensures !HasClear([p]) && Tail([p]) == [p]
    ensures Actions([p]) == map[p.key := if p.Put? then Assign(p.payload) else Remove]
    ensures forall k :: k in Sorted(Actions([p]).Keys) <==> k in [p.key]
  {
    assert [p][..0] == [];
    assert Actions([]) == map[];
    SortedIs(Actions([p]).Keys);
  }

  lemma ImmediateBuilds(b: Bank, ws: Writers, l: Locker, p: Pending)
    requires BankOk(b, ws) && ResidentOk(b.store, l) && Bounded([p])
    ensures Builds(b.store, ws, l.id, [p], ImmediateBuild(b, l, p), b.next)
    ensures p.Put? ==>
              var t := ApplyAll(b.store, ImmediateBuild(b, l, p).ops);
              p.key in t.Recs(l.id) &&
              (t.Recs(l.id)[p.key].Inline? <==> StoresInline(|p.payload|, l.cfg.chunkSize, FLAG_POSTCARD))
  {
    match p
    case Put(k, payload) =>
      assert [p][0].Put?;
      ImmediatePut(b, ws, l, k, payload);
    case Delete(k) => ImmediateDelete(b, ws, l, k);
    case Clear => ImmediateClear(b, ws, l);
  }

  lemma ImmediatePut(b: Bank, ws: Writers, l: Locker, k: Key, payload: Payload)
    requires BankOk(b, ws) && ResidentOk(b.store, l) && |payload| <= MAX_DECODED_BYTES
    ensures Builds(b.store, ws, l.id, [Put(k, payload)], ImmediateBuild(b, l, Put(k, payload)), b.next)
    ensures var t := ApplyAll(b.store, ImmediateBuild(b, l, Put(k, payload)).ops);
      && k in t.Recs(l.id)
      && (t.Recs(l.id)[k].Inline? <==> StoresInline(|payload|, l.cfg.chunkSize, FLAG_POSTCARD))
  {
    var s, cursor, p := b.store, Cursor(b.store, b.next), Put(k, payload);
    OverlayOne(View(s, l.id), p);
    SingleActions(p);
    PriorIsTrue(s, l, k);
    PutStep(s, s, ws, l.id, l.cfg.chunkSize, k, payload, FLAG_POSTCARD, PriorOf(l, k), b.next);
    SameKeys(s, ApplyAll(s, ImmediateBuild(b, l, p).ops), ws, l.id, [k], Sorted(Actions([p]).Keys), cursor);
  }

  lemma ImmediateDelete(b: Bank, ws: Writers, l: Locker, k: Key)
    requires BankOk(b, ws) && ResidentOk(b.store, l)
    ensures Builds(b.store, ws, l.id, [Delete(k)], ImmediateBuild(b, l, Delete(k)), b.next)
  {
    var s, cursor, p := b.store, Cursor(b.store, b.next), Delete(k);
    OverlayOne(View(s, l.id), p);
    SingleActions(p);
    PriorIsTrue(s, l, k);
    DeleteStep(s, s, ws, l.id, k, PriorOf(l, k), cursor);
    SameKeys(s, ApplyAll(s, ImmediateBuild(b, l, p).ops), ws, l.id, [k], Sorted(Actions([p]).Keys), cursor);
  }

  lemma ImmediateClear(b: Bank, ws: Writers, l: Locker)
    requires BankOk(b, ws) && ResidentOk(b.store, l)
    ensures Builds(b.store, ws, l.id, [Clear], ImmediateBuild(b, l, Clear), b.next)
  {
    var s := b.store;
    OverlayOne(View(s, l.id), Clear);
    assert HasClear([Clear]) by { assert [Clear][0].Clear?; }
    ReadyAfterClear(s, ws, l.id, [], Cursor(s, b.next));
    ClearedBuilds(s, ApplyAll(s, ClearOps(s, l.id)), ws, l.id, [Clear], Build(ClearOps(s, l.id), b.next));
  }

  /** A batch with a clear in it, and nothing left of the locker. */
  lemma ClearedBuilds(s: Store, t: Store, ws: Writers, id: LockerId, batch: seq<Pending>, main: Build)
    requires t == ApplyAll(s, main.ops) && Sound(t, ws, Cursor(s, main.next)) && WritersKept(s, t, ws)
    requires t.Recs(id) == map[] && View(t, id) == Overlay(View(s, id), batch) && HasClear(batch)
    requires forall j :: j != id ==> t.Recs(j) == s.Recs(j) && View(t, j) == View(s, j)
    requires t.lru == s.lru && t.nextTick == s.nextTick && t.nextId == s.nextId
    ensures Builds(s, ws, id, batch, main, main.next)
  {
    assert NewPointers(s, t, id, Cursor(s, main.next));
  }

  lemma SameKeys(s: Store, t: Store, ws: Writers, id: LockerId, keys: seq<Key>, keys': seq<Key>, bound: nat)
    requires OnlyRecords(s, t, ws, id, keys, bound) && forall k :: k in keys <==> k in keys'
    ensures OnlyRecords(s, t, ws, id, keys', bound)
  {
  }

  // ---- one landed commit ---------------------------------------------

  /** `t` differs from `s` by the eviction of `victims` and by bookkeeping rows of locker `id`. */
  ghost predicate Shrunk(s: Store, t: Store, ws: Writers, id: LockerId, victims: seq<Key>)
  {
    && WritersKept(s, t, ws)
    && View(t, id) == View(s, id) - (set k | k in victims)
    && (forall k :: k !in victims ==> RecordAt(t, id, k) == RecordAt(s, id, k))
    && (forall j :: j != id ==> t.Recs(j) == s.Recs(j) && View(t, j) == View(s, j) && t.LruRows(j) == s.LruRows(j))
    && t.nextId == s.nextId
  }

  lemma PlanKeys(b: Bank, l: Locker, batch: seq<Pending>)
    requires l.lru.Some?
    ensures var p := PlanOf(b, l, batch);
      && DistinctKeys(KeysOf(p.updates))
      && (forall k :: k in KeysOf(p.updates) <==> k in Actions(Tail(batch)) && Actions(Tail(batch))[k].Assign?)
      && (forall k :: k in p.removals <==> k in Actions(Tail(batch)) && Actions(Tail(batch))[k].Remove?)
      && p.cleared == HasClear(batch)
  {
    var p := PlanOf(b, l, batch);
    RemovalsAre(batch);
    assert KeysOf(p.updates) == SizeKeys(Accounted(batch).updates);
    assert DistinctKeys(SizeKeys(Accounted(batch).updates)) by { UpdatesAre(batch); }
    forall k ensures k in p.removals <==> k in Actions(Tail(batch)) && Actions(Tail(batch))[k].Remove? {
      RemovedKeys(batch, k);
    }
    forall k ensures k in KeysOf(p.updates) <==> k in Actions(Tail(batch)) && Actions(Tail(batch))[k].Assign? {
      UpdatedKeys(batch, k);
    }
  }

  lemma UpdatedKeys(batch: seq<Pending>, k: Key)
    ensures k in SizeKeys(Accounted(batch).updates) <==>
              k in Actions(Tail(batch)) && Actions(Tail(batch))[k].Assign?
  {
    UpdatesAre(batch);
    var updates := Accounted(batch).updates;
    if k in Actions(Tail(batch)) && Actions(Tail(batch))[k].Assign? {
      assert Size(k, |Actions(Tail(batch))[k].payload|) in updates;
    }
    if k in SizeKeys(updates) {
      var i :| 0 <= i < |updates| && SizeKeys(updates)[i] == k;
      assert updates[i] in updates;
    }
  }

  /** A commit never evicts a key it writes or deletes, nor anything at all when it clears. */
  lemma EvictedUntouched(b: Bank, l: Locker, batch: seq<Pending>)
    ensures var victims := PlanOf(b, l, batch).plan.victims;
      && DistinctKeys(victims)
      && (forall v :: v in victims ==> v !in Actions(Tail(batch)) && l.lru.Some? && v in l.lru.value.entries)
      && (HasClear(batch) ==> victims == [])
      && (l.lru.None? ==> victims == [])
  {
    if l.lru.Some? {
      var p, a := PlanOf(b, l, batch), l.lru.value;
      PlanKeys(b, l, batch);
      VictimsAre(a.entries, a.total, p.updates, p.removals, p.cleared, a.maxBytes, KeysOf(p.updates));
      PutAllAt(if p.cleared then map[] else RemoveAll(a.entries, p.removals), p.updates);
      assert p.plan.victims != [] ==> p.plan.victims[0] in p.plan.victims;
    }
  }

  /** The budget ops of a commit evict the victims and touch nothing else but their own rows. */
  lemma ExtraOpsEffect(b: Bank, ws: Writers, l: Locker, batch: seq<Pending>, main: Build)
    requires BankOk(b, ws) && Builds(b.store, ws, l.id, batch, main, b.next)
    ensures var t := ApplyAll(b.store, main.ops);
            var u := ApplyAll(t, ExtraOps(b, l, batch));
      && Sound(u, ws, Cursor(b.store, main.next))
      && Shrunk(t, u, ws, l.id, PlanOf(b, l, batch).plan.victims)
  {
    if l.lru.Some? {
      VictimsReady(b, ws, l, batch, main);
      BudgetOpsEffect(b.store, ApplyAll(b.store, main.ops), ws, l.lru.value, l.id, PlanOf(b, l, batch),
                      TicksAfter(b, l), Cursor(b.store, main.next));
    }
  }

  /** Rows first, then the evictions, then the clock. */
  lemma BudgetOpsInTurn(s: Store, t: Store, a: LruState, id: LockerId, p: BudgetPlan, ticks: TickState)
    ensures ApplyAll(t, BudgetOps(s, a, id, p, ticks))
         == Apply(ApplyAll(ApplyAll(t, RowOps(a, id, p)), VictimOps(s, id, p.plan.victims)),
                  PutNextTick(Persisted(ticks)))
  {
    var rows, evict, tick := RowOps(a, id, p), VictimOps(s, id, p.plan.victims), PutNextTick(Persisted(ticks));
    ApplyAppend(t, rows, evict);
    ApplyAppend(t, rows + evict, [tick]);
    ApplyOne(ApplyAll(ApplyAll(t, rows), evict), tick);
  }

  lemma BudgetOpsEffect(s: Store, t: Store, ws: Writers, a: LruState, id: LockerId, p: BudgetPlan, ticks: TickState,
                        cursor: nat)
    requires Sound(t, ws, cursor)
    requires DistinctKeys(p.plan.victims) && GcReady(s, t, id, p.plan.victims, cursor)
    ensures var u := ApplyAll(t, BudgetOps(s, a, id, p, ticks));
      Sound(u, ws, cursor) && Shrunk(t, u, ws, id, p.plan.victims)
  {
    var rows, evict, tick := RowOps(a, id, p), VictimOps(s, id, p.plan.victims), PutNextTick(Persisted(ticks));
    var t1 := ApplyAll(t, rows);
    var t2 := ApplyAll(t1, evict);
    var u := ApplyAll(t, BudgetOps(s, a, id, p, ticks));
    assert u == Apply(t2, tick) by { BudgetOpsInTurn(s, t, a, id, p, ticks); }
    assert OnlyRowsOf(t, t1, id) by { RowOpsOnlyRows(t, a, id, p); }
    EvictedAfterRows(s, t, t1, ws, id, p.plan.victims, cursor);
    Around(t, t1, t2, u, ws, id, p.plan.victims, cursor);
  }

  lemma EvictedAfterRows(s: Store, t: Store, t1: Store, ws: Writers, id: LockerId, victims: seq<Key>, cursor: nat)
    requires Sound(t, ws, cursor) && OnlyRowsOf(t, t1, id)
    requires DistinctKeys(victims) && GcReady(s, t, id, victims, cursor)
    ensures Evicted(t1, ApplyAll(t1, VictimOps(s, id, victims)), ws, id, victims, map[], cursor)
  {
    RowsOnly(t, t, t1, ws, id, [], cursor);
    StillGcReady(s, t, t1, id, victims, cursor);
    VictimOpsEffect(s, t1, ws, id, victims, map[], cursor);
  }

  lemma StillGcReady(s: Store, t: Store, t1: Store, id: LockerId, keys: seq<Key>, cursor: nat)
    requires GcReady(s, t, id, keys, cursor) && t1.records == t.records && t1.chunks == t.chunks
    ensures GcReady(s, t1, id, keys, cursor)
  {
    assert forall v: nat :: t1.Rows(v) == t.Rows(v);
    assert forall k :: RecordAt(t1, id, k) == RecordAt(t, id, k);
  }

  /** Only bookkeeping rows of locker `id`, or the clock, differ. */
  ghost predicate OnlyRowsOf(s: Store, t: Store, id: LockerId)
  {
    && t.records == s.records && t.chunks == s.chunks && t.nextId == s.nextId
    && forall j :: j != id ==> t.LruRows(j) == s.LruRows(j)
  }

  lemma Around(t: Store, t1: Store, t2: Store, u: Store, ws: Writers, id: LockerId, victims: seq<Key>, cursor: nat)
    requires OnlyRowsOf(t, t1, id) && Evicted(t1, t2, ws, id, victims, map[], cursor) && OnlyRowsOf(t2, u, id)
    ensures Sound(u, ws, cursor) && Shrunk(t, u, ws, id, victims)
  {
    SameData(t, t1, ws);
    SameData(t2, u, ws);
    forall k | k !in victims ensures RecordAt(u, id, k) == RecordAt(t, id, k) {
      assert RecordAt(t2, id, k) == RecordAt(t1, id, k);
    }
    assert View(u, id) == View(t2, id) && View(t, id) == View(t1, id);
    assert View(u, id) == View(t, id) - (set k | k in victims);
    forall j | j != id
      ensures u.Recs(j) == t.Recs(j) && View(u, j) == View(t, j) && u.LruRows(j) == t.LruRows(j)
    {
      assert t2.Recs(j) == t1.Recs(j) && View(t2, j) == View(t1, j);
    }
  }

  lemma RowOpsOnlyRows(t: Store, a: LruState, id: LockerId, p: BudgetPlan)
    ensures OnlyRowsOf(t, ApplyAll(t, RowOps(a, id, p)), id)
  {
    RowOpsAreRows(a, id, p);
    BookkeepingKeepsData(t, RowOps(a, id, p));
    NoCounterOps(t, RowOps(a, id, p));
    RowOpsOthers(t, a, id, p);
  }

  lemma RowOpsAreRows(a: LruState, id: LockerId, p: BudgetPlan)
    ensures forall op <- RowOps(a, id, p) :: op.TouchesLru() && !op.TouchesData() && !op.PutNextId?
  {
    PendingBatchIs(a);
    CarriedAreRows(a, id, PendingBatch(a), KeysOf(p.updates));
  }

  lemma {:induction false} CarriedAreRows(a: LruState, id: LockerId, keys: seq<Key>, skip: seq<Key>)
    requires forall k :: k in keys ==> k in a.pending
    ensures forall op <- CarriedOps(a, id, keys, skip) :: op.PutLru? && op.locker == id
    decreases |keys|
  {
    if keys != [] { CarriedAreRows(a, id, keys[..|keys| - 1], skip); }
  }

  lemma RowOpsOthers(s: Store, a: LruState, id: LockerId, p: BudgetPlan)
    ensures forall j :: j != id ==> ApplyAll(s, RowOps(a, id, p)).LruRows(j) == s.LruRows(j)
  {
    PendingBatchIs(a);
    CarriedAreRows(a, id, PendingBatch(a), KeysOf(p.updates));
    OneLockersRows(s, id, RowOps(a, id, p));
  }

  lemma {:induction false} OneLockersRows(s: Store, id: LockerId, ops: seq<Op>)
    requires forall op <- ops :: op.TouchesLru() && op.locker == id
    ensures forall j :: j != id ==> ApplyAll(s, ops).LruRows(j) == s.LruRows(j)
    decreases |ops|
  {
    if ops != [] {
      assert ops[|ops| - 1] in ops;
      OneLockersRows(s, id, ops[..|ops| - 1]);
    }
  }

  lemma VictimsReady(b: Bank, ws: Writers, l: Locker, batch: seq<Pending>, main: Build)
    requires BankOk(b, ws) && Builds(b.store, ws, l.id, batch, main, b.next)
    ensures var victims := PlanOf(b, l, batch).plan.victims;
      && DistinctKeys(victims)
      && GcReady(b.store, ApplyAll(b.store, main.ops), l.id, victims, Cursor(b.store, main.next))
  {
    var victims := PlanOf(b, l, batch).plan.victims;
    EvictedUntouched(b, l, batch);
    ReadyAtStart(b.store, ws, l.id, victims, Cursor(b.store, b.next));
    SortedIs(Actions(batch).Keys);
    var t := ApplyAll(b.store, main.ops);
    forall v | v in victims ensures RecordAt(t, l.id, v) == RecordAt(b.store, l.id, v) {
      assert !HasClear(batch) && Tail(batch) == batch;
    }
  }

  /** One landed commit: what it does to the store. */
  lemma CommitEffect(b: Bank, ws: Writers, l: Locker, batch: seq<Pending>, main: Build)
    requires BankOk(b, ws) && Builds(b.store, ws, l.id, batch, main, b.next)
    ensures var o := Landed(b, l, main, batch);
      && BankOk(o.bank, ws)
      && View(o.bank.store, l.id) == Overlay(View(b.store, l.id), batch) - (set k | k in o.evicted)
      && (forall k :: k !in o.evicted ==>
            RecordAt(o.bank.store, l.id, k) == RecordAt(ApplyAll(b.store, main.ops), l.id, k))
      && OthersKept(b.store, o.bank.store, l.id) && WritersKept(b.store, o.bank.store, ws)
      && FreshOnly(b.store, o.bank.store, l.id)
  {
    var t := ApplyAll(b.store, main.ops);
    var o := Landed(b, l, main, batch);
    var victims := PlanOf(b, l, batch).plan.victims;
    assert o.bank.store == ApplyAll(t, ExtraOps(b, l, batch)) by {
      ApplyAppend(b.store, main.ops, ExtraOps(b, l, batch));
    }
    assert Sound(o.bank.store, ws, Cursor(b.store, main.next)) && Shrunk(t, o.bank.store, ws, l.id, victims) by {
      ExtraOpsEffect(b, ws, l, batch, main);
    }
    BuiltThenShrunk(b.store, t, o.bank.store, ws, l.id, Overlay(View(b.store, l.id), batch), victims);
    FreshAfter(b.store, t, o.bank.store, ws, l.id, victims, Cursor(b.store, b.next));
    CursorMoves(b.store, o.bank.store, ws, main.next);
  }

  lemma CursorMoves(s: Store, u: Store, ws: Writers, next: Option<nat>)
    requires Sound(u, ws, Cursor(s, next))
    ensures Sound(u, ws, Cursor(u, next))
  {
  }

  lemma BuiltThenShrunk(s: Store, t: Store, u: Store, ws: Writers, id: LockerId, m: Contents, victims: seq<Key>)
    requires View(t, id) == m && t.lru == s.lru && WritersKept(s, t, ws)
    requires forall j :: j != id ==> t.Recs(j) == s.Recs(j) && View(t, j) == View(s, j)
    requires Shrunk(t, u, ws, id, victims)
    ensures View(u, id) == m - (set k | k in victims)
    ensures forall k :: k !in victims ==> RecordAt(u, id, k) == RecordAt(t, id, k)
    ensures OthersKept(s, u, id) && WritersKept(s, u, ws)
  {
    forall j | j != id ensures u.Recs(j) == s.Recs(j) && View(u, j) == View(s, j) && u.LruRows(j) == s.LruRows(j) {
      assert t.Recs(j) == s.Recs(j) && View(t, j) == View(s, j) && t.LruRows(j) == s.LruRows(j);
    }
  }

  /** The counter has not moved back, and every pointer that is new carries an id from past it. */
  ghost predicate FreshOnly(s: Store, t: Store, id: LockerId)
  {
    NewPointers(s, t, id, Stored(s)) && Stored(s) <= Stored(t)
  }

  lemma FreshAfter(s: Store, t: Store, u: Store, ws: Writers, id: LockerId, victims: seq<Key>, bound: nat)
    requires NewPointers(s, t, id, bound) && Stored(s) <= Stored(t) && Stored(s) <= bound
    requires Shrunk(t, u, ws, id, victims)
    ensures FreshOnly(s, u, id)
  {
    forall k | PointerId(RecordAt(u, id, k)).Some? ensures RecordAt(u, id, k) == RecordAt(t, id, k) {
      assert k in View(u, id);
    }
  }

  /** Nothing of any other locker has changed: records, contents, budget rows. */
  ghost predicate OthersKept(s: Store, t: Store, id: LockerId)
  {
    forall j :: j != id ==> t.Recs(j) == s.Recs(j) && View(t, j) == View(s, j) && t.LruRows(j) == s.LruRows(j)
  }

  // ---- the resident state after a commit -----------------------------

  lemma {:induction false} IndexTracks(m: Contents, batch: seq<Pending>)
    ensures IndexAfterAll(m.Keys, batch) == Overlay(m, batch).Keys
    decreases |batch|
  {
    if batch != [] { IndexTracks(m, batch[..|batch| - 1]); }
  }

  /** `l` is the locker with its index already updated; settling the evictions completes the step. */
  lemma LandedResident(b: Bank, ws: Writers, l: Locker, batch: seq<Pending>, main: Build)
    requires BankOk(b, ws) && Builds(b.store, ws, l.id, batch, main, b.next)
    requires l.cfg.chunkSize >= 1 && l.staged == [] && (l.lru.Some? <==> l.cfg.budget.Some?)
    requires l.index == Overlay(View(b.store, l.id), batch).Keys
    requires l.cfg.IsDeferred() ==> l.knownInline == {}
    requires forall k :: k in l.knownInline ==>
               var t := ApplyAll(b.store, main.ops); k in t.Recs(l.id) && t.Recs(l.id)[k].Inline?
    ensures var o := Landed(b, l, main, batch);
      && ResidentOk(o.bank.store, o.locker)
      && Visible(o.bank.store, o.locker) == Overlay(View(b.store, l.id), batch) - (set k | k in o.evicted)
  {
    CommitEffect(b, ws, l, batch, main);
    var o := Landed(b, l, main, batch);
    assert Visible(o.bank.store, o.locker) == View(o.bank.store, l.id);
    var t := ApplyAll(b.store, main.ops);
    forall k | k in o.locker.knownInline
      ensures k in o.bank.store.Recs(l.id) && o.bank.store.Recs(l.id)[k].Inline?
    {
      assert RecordAt(o.bank.store, l.id, k) == RecordAt(t, l.id, k);
    }
  }

  // ---- the accounts after a commit -----------------------------------

  /** The stored budget rows after a commit's bookkeeping are exactly those of the surviving accounts. */
  lemma BudgetRowsEffect(s: Store, t: Store, ws: Writers, a: LruState, id: LockerId, p: BudgetPlan,
                         ticks: TickState, cursor: nat)
    requires Sound(t, ws, cursor)
    requires DistinctKeys(p.plan.victims) && GcReady(s, t, id, p.plan.victims, cursor)
    requires RowsMatch(t.LruRows(id), a.entries)
    requires forall k :: k in p.removals ==> k !in KeysOf(p.updates)
    ensures RowsMatch(ApplyAll(t, BudgetOps(s, a, id, p, ticks)).LruRows(id),
                      EntriesAfter(a.entries, p.updates, p.removals, p.cleared, p.plan.victims))
  {
    var t1, kept := ApplyAll(t, RowOps(a, id, p)), Kept(a.entries, p.updates, p.removals, p.cleared);
    RowsInPlace(t, a, id, p);
    EvictedRows(s, t, t1, ws, id, p.plan.victims, kept, cursor);
    ClockLast(s, t, a, id, p, ticks);
  }

  lemma RowsInPlace(t: Store, a: LruState, id: LockerId, p: BudgetPlan)
    requires RowsMatch(t.LruRows(id), a.entries) && forall k :: k in p.removals ==> k !in KeysOf(p.updates)
    ensures var t1 := ApplyAll(t, RowOps(a, id, p));
      OnlyRowsOf(t, t1, id) && RowsMatch(t1.LruRows(id), Kept(a.entries, p.updates, p.removals, p.cleared))
  {
    RowOpsEffect(t, a, id, p);
    RowOpsOnlyRows(t, a, id, p);
  }

  lemma ClockLast(s: Store, t: Store, a: LruState, id: LockerId, p: BudgetPlan, ticks: TickState)
    ensures ApplyAll(t, BudgetOps(s, a, id, p, ticks)).LruRows(id)
         == ApplyAll(ApplyAll(t, RowOps(a, id, p)), VictimOps(s, id, p.plan.victims)).LruRows(id)
  {
    BudgetOpsInTurn(s, t, a, id, p, ticks);
    TickOnly(ApplyAll(ApplyAll(t, RowOps(a, id, p)), VictimOps(s, id, p.plan.victims)), Persisted(ticks), id);
  }

  lemma TickOnly(s: Store, n: nat, id: LockerId)
    ensures Apply(s, PutNextTick(n)).LruRows(id) == s.LruRows(id)
  {
  }

  lemma EvictedRows(s: Store, t: Store, t1: Store, ws: Writers, id: LockerId, victims: seq<Key>, kept: Entries,
                    cursor: nat)
    requires Sound(t, ws, cursor) && DistinctKeys(victims) && GcReady(s, t, id, victims, cursor)
    requires OnlyRowsOf(t, t1, id) && RowsMatch(t1.LruRows(id), kept)
    ensures RowsMatch(ApplyAll(t1, VictimOps(s, id, victims)).LruRows(id), RemoveAll(kept, victims))
  {
    RowsOnly(t, t, t1, ws, id, [], cursor);
    StillGcReady(s, t, t1, id, victims, cursor);
    VictimOpsEffect(s, t1, ws, id, victims, kept, cursor);
  }

  /** The kept accounts hold the size of every value the batch leaves behind. */
  lemma KeptCovers(b: Bank, l: Locker, batch: seq<Pending>, m: Contents)
    requires l.lru.Some? && Covers(l.lru.value.entries, m)
    ensures var p := PlanOf(b, l, batch);
      Covers(Kept(l.lru.value.entries, p.updates, p.removals, p.cleared), Overlay(m, batch))
  {
    var p, entries := PlanOf(b, l, batch), l.lru.value.entries;
    var kept, after := Kept(entries, p.updates, p.removals, p.cleared), Overlay(m, batch);
    forall k ensures k in kept <==> k in after
      ensures k in after ==> kept[k].bytes == |after[k].payload|
    {
      KeptAt(b, l, batch, k);
      OverlayOf(m, batch, k);
    }
  }

  /** What the batch leaves under one key. */
  lemma OverlayOf(m: Contents, batch: seq<Pending>, k: Key)
    ensures var acts := Actions(Tail(batch));
      Lookup(Overlay(m, batch), k) ==
        if k in acts then ResultOf(acts[k]) else if HasClear(batch) then None else Lookup(m, k)
  {
    var m0: Contents := if HasClear(batch) then map[] else m;
    ClearForgets(m, batch);
    OverlayAt(m0, Tail(batch));
    assert Lookup(Overlay(m0, Tail(batch)), k) ==
             if k in Actions(Tail(batch)) then ResultOf(Actions(Tail(batch))[k]) else Lookup(m0, k);
  }

  /** What the plan keeps under one key. */
  lemma KeptAt(b: Bank, l: Locker, batch: seq<Pending>, k: Key)
    requires l.lru.Some?
    ensures var p, acts, entries := PlanOf(b, l, batch), Actions(Tail(batch)), l.lru.value.entries;
            var kept := Kept(entries, p.updates, p.removals, p.cleared);
      if k in acts && acts[k].Assign? then k in kept && kept[k].bytes == |acts[k].payload|
      else if k in acts || HasClear(batch) then k !in kept
      else (k in kept <==> k in entries) && (k in kept ==> kept[k] == entries[k])
  {
    var p, acts, entries := PlanOf(b, l, batch), Actions(Tail(batch)), l.lru.value.entries;
    var base: Entries := if p.cleared then map[] else RemoveAll(entries, p.removals);
    PlanKeys(b, l, batch);
    PutAllAt(base, p.updates);
    if k in acts && acts[k].Assign? {
      WrittenSize(b, l, batch, k);
    }
  }

  lemma WrittenSize(b: Bank, l: Locker, batch: seq<Pending>, k: Key)
    requires l.lru.Some?
    requires k in Actions(Tail(batch)) && Actions(Tail(batch))[k].Assign?
    ensures var p := PlanOf(b, l, batch);
      exists u :: u in p.updates && u.key == k && u.entry.bytes == |Actions(Tail(batch))[k].payload|
  {
    UpdatesAre(batch);
    var a := Accounted(batch);
    var size := Size(k, |Actions(Tail(batch))[k].payload|);
    assert size in a.updates;
    var i :| 0 <= i < |a.updates| && a.updates[i] == size;
    assert PlanOf(b, l, batch).updates[i] in PlanOf(b, l, batch).updates;
  }

  /** What a commit must respect for the byte total to stay exact. */
  ghost predicate Countable(b: Bank, l: Locker, batch: seq<Pending>)
  {
    l.lru.Some? ==>
      && (HasClear(batch) || SingleDeletes(batch))
      && l.lru.value.total + UpdateBytes(PlanOf(b, l, batch).updates) <= U64_MAX
  }

  /**
   The accounts stay exact: after a commit every stored key has one account and one stored row with its
   payload's size, the total is their sum, and it is within the limit unless only this batch's keys are left.
   */
  lemma AccountsAfter(b: Bank, ws: Writers, l: Locker, batch: seq<Pending>, main: Build)
    requires BankOk(b, ws) && Builds(b.store, ws, l.id, batch, main, b.next)
    requires l.lru.Some? && AccountsOk(b.store, l.id, l.lru.value) && Countable(b, l, batch)
    ensures var o := Landed(b, l, main, batch);
      && AccountsOk(o.bank.store, l.id, o.locker.lru.value)
      && (o.locker.lru.value.total <= l.lru.value.maxBytes
          || forall k :: k in o.locker.lru.value.entries ==> k in Actions(Tail(batch)))
  {
    var a, p := l.lru.value, PlanOf(b, l, batch);
    var o := Landed(b, l, main, batch);
    var t := ApplyAll(b.store, main.ops);
    var after := EntriesAfter(a.entries, p.updates, p.removals, p.cleared, p.plan.victims);
    PlanKeys(b, l, batch);
    assert PlanInput(a.entries, a.total, p.updates, p.removals, p.cleared) by { RemovalsDistinct(batch); }
    assert && p.plan.total == Sum(after)
           && (p.plan.total <= a.maxBytes || forall k :: k in after ==> k in KeysOf(p.updates)) by {
      PlanSoundAndMinimal(a.entries, a.total, p.updates, p.removals, p.cleared, a.maxBytes, KeysOf(p.updates));
    }
    assert Covers(after, View(o.bank.store, l.id)) by {
      KeptCovers(b, l, batch, View(b.store, l.id));
      CommitEffect(b, ws, l, batch, main);
    }
    assert RowsMatch(o.bank.store.LruRows(l.id), after) by {
      VictimsReady(b, ws, l, batch, main);
      BudgetRowsEffect(b.store, t, ws, a, l.id, p, TicksAfter(b, l), Cursor(b.store, main.next));
      ApplyAppend(b.store, main.ops, ExtraOps(b, l, batch));
    }
    PendingSurvives(a, p);
  }

  lemma PendingSurvives(a: LruState, p: BudgetPlan)
    requires a.pending.Keys <= a.entries.Keys
    ensures Applied(a, p).pending.Keys <= Applied(a, p).entries.Keys
  {
    PutAllAt(if p.cleared then map[] else RemoveAll(a.entries, p.removals), p.updates);
  }
}
