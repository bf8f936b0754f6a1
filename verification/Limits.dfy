/**
 Where the promises stop: for each condition a caller must respect, a concrete case that breaks without it, and the
 exact line between.
 */
module Limits {
  import opened Wrappers
  import opened Bytes
  import opened Storage
  import opened Ownership
  import opened Inner
  import opened Batches
  import opened Transaction
  import opened Lru
  import opened Accounting
  import opened Budget
  import opened LogicalClock
  import opened Streaming
  import opened Invariants
  import opened Steps
  import Runs
  import L = LockerSteps

  // ---- deleting one key twice in a batch -----------------------------

  /** What the removals take off the total, a key listed twice counting twice. */
  function Debited(entries: Entries, removals: seq<Key>): nat
    decreases |removals|
  {
    if removals == [] then 0
    else
      var k := removals[|removals| - 1];
      Debited(entries, removals[..|removals| - 1]) + if k in entries then entries[k].bytes else 0
  }

  lemma {:induction false} RemovedIsDebited(entries: Entries, total: nat, removals: seq<Key>)
    ensures TotalRemoved(entries, total, removals) == SatSub(total, Debited(entries, removals))
    decreases |removals|
  {
    if removals != [] { RemovedIsDebited(entries, total, removals[..|removals| - 1]); }
  }

  /** Nothing with a size is listed for removal twice. */
  ghost predicate DebitedOnce(entries: Entries, removals: seq<Key>)
  {
    forall k :: k in entries && entries[k].bytes > 0 ==> multiset(removals)[k] <= 1
  }

  lemma {:induction false} DebitExact(entries: Entries, removals: seq<Key>)
    ensures Sum(RemoveAll(entries, removals)) <= Sum(entries)
            <= Sum(RemoveAll(entries, removals)) + Debited(entries, removals)
    ensures Sum(entries) == Sum(RemoveAll(entries, removals)) + Debited(entries, removals)
            <==> DebitedOnce(entries, removals)
    decreases |removals|
  {
    if removals == [] {
      assert RemoveAll(entries, []) == entries;
    } else {
      var init, k := removals[..|removals| - 1], removals[|removals| - 1];
      assert removals == init + [k];
      DebitExact(entries, init);
      var left := RemoveAll(entries, init);
      assert RemoveAll(entries, removals) == left - {k};
      assert multiset(init)[k] > 0 <==> k in init;
      if k in left { SumRemove(left, k); } else { assert left - {k} == left; }
    }
  }

  /** At some update everything else accounted is worth nothing, so a total that ran low catches up. */
  ghost predicate CatchesUp(prior: Entries, total: nat, updates: seq<Update>)
  {
    exists i :: CatchesAt(prior, total, updates, i)
  }

  ghost predicate CatchesAt(prior: Entries, total: nat, updates: seq<Update>, i: int)
  {
    && 0 <= i < |updates| && updates[i].key in prior
    && TotalUpdated(prior, total, updates[..i]) <= prior[updates[i].key].bytes
  }

  lemma CatchesLater(prior: Entries, total: nat, updates: seq<Update>)
    requires updates != []
    ensures var n := |updates| - 1;
      CatchesUp(prior, total, updates) <==> CatchesUp(prior, total, updates[..n]) || CatchesAt(prior, total, updates, n)
  {
    var n := |updates| - 1;
    forall i | 0 <= i < n ensures CatchesAt(prior, total, updates, i) <==> CatchesAt(prior, total, updates[..n], i) {
      assert updates[..n][..i] == updates[..i];
    }
    if CatchesUp(prior, total, updates) {
      var i :| CatchesAt(prior, total, updates, i);
      assert i < n ==> CatchesAt(prior, total, updates[..n], i);
    }
    if CatchesUp(prior, total, updates[..n]) {
      var i :| CatchesAt(prior, total, updates[..n], i);
      assert CatchesAt(prior, total, updates, i);
    }
  }

  /** No step of the updates overflows. */
  ghost predicate Fits(prior: Entries, total: nat, updates: seq<Update>)
    decreases |updates|
  {
    TotalUpdated(prior, total, updates) < U64_MAX && (updates == [] || Fits(prior, total, updates[..|updates| - 1]))
  }

  lemma {:induction false} LowTotalStaysLow(prior: Entries, low: nat, total: nat, updates: seq<Update>)
    requires low < total && Fits(prior, total, updates)
    ensures TotalUpdated(prior, low, updates) <= TotalUpdated(prior, total, updates)
    ensures TotalUpdated(prior, low, updates) == TotalUpdated(prior, total, updates)
            <==> CatchesUp(prior, total, updates)
    decreases |updates|
  {
    if updates == [] {
      assert forall i :: !CatchesAt(prior, total, updates, i);
    } else {
      LowTotalStaysLow(prior, low, total, updates[..|updates| - 1]);
      CatchesLater(prior, total, updates);
    }
  }

  /**
   The total after a commit is what the surviving accounts add up to exactly when nothing with a size was deleted
   twice in a row, or nothing is left, or the updates pass a point where nothing else is accounted.
   */
  lemma TotalExactly(entries: Entries, updates: seq<Update>, removals: seq<Key>)
    requires DistinctKeys(KeysOf(updates)) && forall k :: k in removals ==> k !in KeysOf(updates)
    requires Sum(entries) + UpdateBytes(updates) < U64_MAX
    ensures var left := Sum(RemoveAll(entries, removals));
      TotalBefore(entries, Sum(entries), updates, removals, false) == Sum(Kept(entries, updates, removals, false))
      <==> DebitedOnce(entries, removals) || left == 0 || CatchesUp(entries, left, updates)
  {
    var kept := RemoveAll(entries, removals);
    RemovedIsDebited(entries, Sum(entries), removals);
    DebitExact(entries, removals);
    forall u | u in updates ensures Same(entries, kept, u.key) { UpdateKeyListed(updates, u); }
    TrueTotals(entries, kept, updates);
    var low := TotalRemoved(entries, Sum(entries), removals);
    if low < Sum(kept) { LowTotalStaysLow(entries, low, Sum(kept), updates); }
  }

  /** Starting from the true total every step of the updates is true, and none overflows. */
  lemma {:induction false} TrueTotals(prior: Entries, m: Entries, updates: seq<Update>)
    requires DistinctKeys(KeysOf(updates)) && forall u :: u in updates ==> Same(prior, m, u.key)
    requires Sum(m) + UpdateBytes(updates) < U64_MAX
    ensures TotalUpdated(prior, Sum(m), updates) == Sum(PutAll(m, updates))
    ensures Fits(prior, Sum(m), updates)
    decreases |updates|
  {
    UpdatedTotal(prior, m, updates);
    if updates != [] {
      SplitUpdates(updates);
      TrueTotals(prior, m, updates[..|updates| - 1]);
    }
  }

  /** A key deleted twice in one batch is miscounted whenever it had a size and anything else is left. */
  lemma DoubleDeleteMiscounts(entries: Entries, k: Key)
    requires k in entries && entries[k].bytes > 0 && Sum(entries - {k}) > 0 && Sum(entries) < U64_MAX
    ensures var removals := Accounted([Delete(k), Delete(k)]).removals;
      TotalBefore(entries, Sum(entries), [], removals, false) != Sum(Kept(entries, [], removals, false))
  {
    var removals := Accounted([Delete(k), Delete(k)]).removals;
    assert removals == [k, k] by { TwoDeletes(k); }
    assert multiset(removals)[k] == 2;
    assert RemoveAll(entries, removals) == entries - {k};
    assert KeysOf([]) == [] && UpdateBytes([]) == 0;
    TotalExactly(entries, [], removals);
    assert forall i :: !CatchesAt(entries, Sum(entries - {k}), [], i);
  }

  lemma TwoDeletes(k: Key)
    ensures Accounted([Delete(k), Delete(k)]).removals == [k, k]
  {
    assert [Delete(k), Delete(k)][..1] == [Delete(k)] && [Delete(k)][..0] == [];
    assert Accounted([]) == Accounts([], [], false) && Accounted([Delete(k)]) == Accounts([], [k], false);
  }

  // ---- evicting over a staged overwrite ------------------------------

  /** A locker holding one 1-byte value, with an overwrite of it staged. */
  function Overwriting(): L.Locker
  {
    L.Locker(0, L.Config(8, L.Deferred(9), Some(100)), {[1]}, {}, [Put([1], [7])],
             Some(LruState(100, map[[1] := Entry(1, 1)], 1, map[])))
  }

  function OneRecord(): Store
  {
    Store(map[0 := map[[1] := Inline([5])]], map[], map[0 := map[[1] := Entry(1, 1)]], None, None)
  }

  lemma SumOne(k: Key, e: Entry)
    ensures Sum(map[k := e]) == e.bytes && Sum(map[]) == 0
  {
    SumRemove(map[k := e], k);
    assert map[k := e] - {k} == map[];
  }

  /** With one account and no room, that account goes. */
  lemma OneAccountGoes(k: Key, e: Entry)
    requires 0 < e.bytes < U64_MAX
    ensures k in PlanFor(map[k := e], e.bytes, [], [], false, 0, []).victims
  {
    var entries: Entries := map[k := e];
    var p := PlanFor(entries, e.bytes, [], [], false, 0, []);
    SumOne(k, e);
    assert UpdateBytes([]) == 0;
    PlanSoundAndMinimal(entries, e.bytes, [], [], false, 0, []);
    assert RemoveAll(entries, []) == entries;
    assert k !in p.victims ==> EntriesAfter(entries, [], [], false, p.victims) == entries;
  }

  /** Evicting a key with an overwrite staged unlists it while `get` still answers the overwrite. */
  lemma EvictOverStagedPut(b: L.Bank, l: L.Locker, limit: nat, k: Key, payload: Payload)
    requires k in L.EvictTo(b, l, limit, L.Lands).evicted && L.StagedView(l.staged, k) == Some(Some(payload))
    ensures var o := L.EvictTo(b, l, limit, L.Lands);
      && k !in o.locker.index && L.Answer(o.bank.store, o.locker, k) == Some(Some(Value(FLAG_POSTCARD, payload)))
      && !ResidentOk(o.bank.store, o.locker)
  {
    var o := L.EvictTo(b, l, limit, L.Lands);
    AnswerIsVisible(o.bank.store, o.locker, k);
  }

  lemma OverwritingIsFine()
    ensures ResidentOk(OneRecord(), Overwriting())
  {
    OverlayOne(View(OneRecord(), 0), Put([1], [7]));
    assert View(OneRecord(), 0) == map[[1] := Value(FLAG_POSTCARD, [5])];
  }

  /** Such a locker exists: one stored byte, an overwrite of it staged, and `evict_to(0)`. */
  lemma EvictOverStagedPutHappens(b: L.Bank)
    requires b.store == OneRecord()
    ensures ResidentOk(b.store, Overwriting())
    ensures [1] in L.EvictTo(b, Overwriting(), 0, L.Lands).evicted
    ensures L.StagedView(Overwriting().staged, [1]) == Some(Some([7]))
  {
    OverwritingIsFine();
    var a := Overwriting().lru.value;
    assert [1] in PlanFor(a.entries, a.total, [], [], false, 0, []).victims by { OneAccountGoes([1], Entry(1, 1)); }
  }

  // ---- publishing under a staged delete ------------------------------

  /** A streamed value published while a delete of its key is staged: listed, but not to be found. */
  lemma PublishUnderStagedDelete()
    ensures var k: Key := [1];
            var l := L.Locker(0, L.Config(8, L.Deferred(9), None), {}, {}, [Delete(k)], None);
            var s := Store(map[], map[3 := map[0 := [7]]], map[], Some(4), None);
            var w := WriterState(0, k, 3, 1, 1, []);
            var t := ApplyAll(s, PublishOps(None, w));
            var l1 := l.(index := l.index + {k});
      ResidentOk(s, l) && k in l1.index && k in t.Recs(0) && L.Answer(t, l1, k) == Some(None) && !ResidentOk(t, l1)
  {
    var k: Key := [1];
    var l := L.Locker(0, L.Config(8, L.Deferred(9), None), {}, {}, [Delete(k)], None);
    var s := Store(map[], map[3 := map[0 := [7]]], map[], Some(4), None);
    var w := WriterState(0, k, 3, 1, 1, []);
    OverlayOne(View(s, 0), Delete(k));
    PublishRecords(s, None, w);
    var t := ApplyAll(s, PublishOps(None, w));
    var l1 := l.(index := l.index + {k});
    assert l.staged[..0] == [];
    StagedDecides(View(t, 0), l1.staged, k);
  }

  // ---- publishing after a lost flush ---------------------------------

  /** A writer of one byte whose only flush failed, in any state of the engine. */
  ghost function AfterLostPiece(w: World, id: LockerId, h: nat, key: Key, x: byte, fate: L.Fate): World
    requires id in w.lockers && w.lockers[id].cfg.chunkSize >= 1 && h !in w.ws && fate.Fails?
  {
    Lost(Fed(Started(w, id, h, key), h, [x]), h, 1, fate)
  }

  /** `e` is a step of the engine, and `w1` is where it leads. */
  ghost predicate Leads(w: World, e: Event, w1: World)
  {
    Possible(w, e) && w1 == Steps.Next(w, e)
  }

  /** Starting, feeding one byte and failing to flush it are steps of the engine, and lead there. */
  lemma LostPieceHappens(w: World, id: LockerId, h: nat, key: Key, x: byte)
    requires id in w.lockers && w.lockers[id].cfg.chunkSize >= 1 && h !in w.ws && h !in w.looks
    ensures var w1 := Started(w, id, h, key);
            var w2 := Fed(w1, h, [x]);
            var fate := L.Fails(w2.bank.next, w2.bank.ticks);
            var w3 := AfterLostPiece(w, id, h, key, x, fate);
      && Leads(w, On(id, Start(h, key, L.Lands)), w1)
      && Leads(w1, On(id, Feed(h, [x])), w2)
      && Leads(w2, On(id, FlushPiece(h, fate)), w3)
      && (Legible(RecordAt(w3.bank.store, id, key)) ==> Leads(w3, On(id, Look(h)), Looked(w3, h)))
  {
    var w2 := Fed(Started(w, id, h, key), h, [x]);
    var fate := L.Fails(w2.bank.next, w2.bank.ticks);
    StartLeads(w, id, h, key);
    FeedLeads(Started(w, id, h, key), id, h, x);
    LossLeads(w2, id, h, x, fate);
    LookLeads(Lost(w2, h, 1, fate), id, h);
  }

  lemma StartLeads(w: World, id: LockerId, h: nat, key: Key)
    requires id in w.lockers && w.lockers[id].cfg.chunkSize >= 1 && h !in w.ws && h !in w.looks
    ensures Leads(w, On(id, Start(h, key, L.Lands)), Started(w, id, h, key))
  {
  }

  lemma FeedLeads(w: World, id: LockerId, h: nat, x: byte)
    requires id in w.lockers && w.lockers[id].cfg.chunkSize >= 1 && h in w.ws && h !in w.looks && w.ws[h].locker == id
    ensures Leads(w, On(id, Feed(h, [x])), Fed(w, h, [x]))
  {
  }

  lemma LossLeads(w: World, id: LockerId, h: nat, x: byte, fate: L.Fate)
    requires id in w.lockers && w.lockers[id].cfg.chunkSize >= 1 && h in w.ws && h !in w.looks && w.ws[h].locker == id
    requires w.ws[h].buf == [x] && fate == L.Fails(w.bank.next, w.bank.ticks)
    ensures Leads(w, On(id, FlushPiece(h, fate)), Lost(w, h, 1, fate))
  {
  }

  lemma LookLeads(w: World, id: LockerId, h: nat)
    requires id in w.lockers && w.lockers[id].cfg.chunkSize >= 1 && h in w.ws && h !in w.looks && w.ws[h].locker == id
    requires w.ws[h].buf == []
    ensures Legible(RecordAt(w.bank.store, id, w.ws[h].key)) ==> Leads(w, On(id, Look(h)), Looked(w, h))
  {
  }

  /** Finished all the same, it leaves a record `get` cannot read. */
  lemma PublishAfterLostPiece(w: World, id: LockerId, h: nat, key: Key, x: byte, fate: L.Fate, tracked: set<LockerId>)
    requires WorldOk(w, tracked) && id in w.lockers && h !in w.ws && h !in w.looks
    requires L.StagedView(w.lockers[id].staged, key) == None
    requires fate.Fails? && L.Admissible(Started(w, id, h, key).bank, fate)
    ensures var w1 := Looked(AfterLostPiece(w, id, h, key, x, fate), h);
            var w2 := Published(w1, id, h);
      !Readable(w2.bank.store) && L.Answer(w2.bank.store, w2.lockers[id], key) == None
  {
    var w0 := AfterLostPiece(w, id, h, key, x, fate);
    var s := w0.bank.store;
    assert LockerOk(w.bank.store, id, w.lockers[id], tracked);
    assert Sound(s, w0.ws, Cursor(s, w0.bank.next)) by { LostWriterSound(w, id, h, key, x, fate); }
    var seen := PointerId(RecordAt(s, id, key));
    PublishStep(s, w0.ws, h, seen, Cursor(s, w0.bank.next));
    var t := ApplyAll(s, PublishOps(seen, w0.ws[h]));
    assert Join(s.Rows(w0.ws[h].valueId), 0) == [];
    assert View(t, id)[key] == Value(FLAG_RAW, []) && t.Recs(id)[key] == Pointer(PublishedPointer(w0.ws[h]));
  }

  lemma LostWriterSound(w: World, id: LockerId, h: nat, key: Key, x: byte, fate: L.Fate)
    requires BankOk(w.bank, w.ws) && id in w.lockers && w.lockers[id].cfg.chunkSize >= 1 && h !in w.ws
    requires fate.Fails? && L.Admissible(Started(w, id, h, key).bank, fate)
    ensures var w1 := AfterLostPiece(w, id, h, key, x, fate);
      Sound(w1.bank.store, w1.ws, Cursor(w1.bank.store, w1.bank.next))
  {
    var w1, v := Started(w, id, h, key), Cursor(w.bank.store, w.bank.next);
    StartStep(w.bank.store, w.ws, h, WriterState(id, key, v, 0, 0, []), v);
    assert BankOk(w1.bank, w1.ws);
    var w2 := AfterLostPiece(w, id, h, key, x, fate);
    FailureOk(w1.bank, w1.ws, fate);
    Runs.SameClaims(w1.bank.store, w1.ws, w2.ws, Cursor(w1.bank.store, fate.next));
  }

  // ---- pointers over the limit ---------------------------------------

  /**
   Nothing stops a put of a value over the limit, but once it has landed as chunks its record can be neither read,
   replaced nor deleted, and a clear leaves its chunks behind.
   */
  lemma OverLimitPutSticks(b: L.Bank, ws: Writers, l: L.Locker, k: Key, payload: Payload, next: Pending)
    requires BankOk(b, ws) && ResidentOk(b.store, l) && l.lru.None? && !l.cfg.IsDeferred()
    requires |payload| > MAX_DECODED_BYTES && |payload| > l.cfg.chunkSize && !next.Clear? && next.key == k
    ensures L.AllLegible(b.store, l.id, L.WriteReads(b, l, Put(k, payload)))
    ensures var o := L.Write(b, l, Put(k, payload), L.Lands);
      && o.ok && L.Answer(o.bank.store, o.locker, k) == None
      && !L.AllLegible(o.bank.store, l.id, L.WriteReads(o.bank, o.locker, next))
      && !Owned(ApplyAll(o.bank.store, ClearOps(o.bank.store, l.id)), ws)
  {
    var s, o := b.store, L.Write(b, l, Put(k, payload), L.Lands);
    ReadableIsLegible(s, l.id);
    PriorIsTrue(s, l, k);
    var main := PutBuild(s, l.id, l.cfg.chunkSize, k, payload, FLAG_POSTCARD, L.PriorOf(l, k), b.next);
    assert main.ops + [] == main.ops;
    OverLimitLeaves(s, ws, l.id, l.cfg.chunkSize, k, payload, L.PriorOf(l, k), b.next);
    assert o.bank.store == ApplyAll(s, main.ops);
    assert k in L.WriteReads(o.bank, o.locker, next);
    ClearOwnedExactly(o.bank.store, ws, l.id);
  }

  lemma OverLimitLeaves(s: Store, ws: Writers, l: LockerId, chunkSize: nat, k: Key, payload: Payload, prior: Prior,
                        next: Option<nat>)
    requires Sound(s, ws, Cursor(s, next)) && Drops(s, l, k, GcTarget(s, l, k, prior))
    requires 1 <= chunkSize < |payload| && |payload| > MAX_DECODED_BYTES
    ensures var t := ApplyAll(s, PutBuild(s, l, chunkSize, k, payload, FLAG_POSTCARD, prior, next).ops);
      Owned(t, ws) && k in t.Recs(l) && !Legible(RecordAt(t, l, k)) && !Collectable(t, l)
  {
    var t := ApplyAll(s, PutBuild(s, l, chunkSize, k, payload, FLAG_POSTCARD, prior, next).ops);
    var r := PutRecordOf(s, chunkSize, payload, FLAG_POSTCARD, next);
    var rows := PutRowsOf(chunkSize, payload, FLAG_POSTCARD);
    CursorUnclaimed(s, ws, Cursor(s, next));
    CutSizes(payload, chunkSize);
    PutEffect(s, s, l, chunkSize, k, payload, FLAG_POSTCARD, prior, next);
    assert ExactRows(rows, r.ptr.nChunks);
    ReplaceKeepsOwnership(s, t, ws, l, k, Some(r), rows);
    assert RecordAt(t, l, k) == Some(r) && t.Rows(r.ptr.valueId) == rows && 0 in rows;
  }

  /** A clear keeps chunk ownership exactly when no pointer it has to pass over has chunks. */
  lemma ClearOwnedExactly(s: Store, ws: Writers, l: LockerId)
    requires Owned(s, ws)
    ensures Owned(ApplyAll(s, ClearOps(s, l)), ws) <==> Collectable(s, l)
  {
    if k :| !Legible(RecordAt(s, l, k)) && s.Rows(s.Recs(l)[k].ptr.valueId) != map[] {
      ClearLeavesBehind(s, ws, l, k);
    } else {
      ClearEffect(s, ws, l);
    }
  }

  lemma ClearLeavesBehind(s: Store, ws: Writers, l: LockerId, k: Key)
    requires Owned(s, ws) && !Legible(RecordAt(s, l, k)) && s.Rows(s.Recs(l)[k].ptr.valueId) != map[]
    ensures !Owned(ApplyAll(s, ClearOps(s, l)), ws)
  {
    var t, v := ApplyAll(s, ClearOps(s, l)), s.Recs(l)[k].ptr.valueId;
    ClearRows(s, l);
    assert Claiming(s, ws, ByRecord(l, k), v);
    assert !NamedBy(s, l, Sorted(s.Recs(l).Keys), v) by {
      forall j ensures ParsedId(RecordAt(s, l, j)) != Some(v) {
        assert ParsedId(RecordAt(s, l, j)) == Some(v) ==> Claiming(s, ws, ByRecord(l, j), v);
      }
    }
    FewerPointers(s, t, ws, l);
    Orphaned(s, t, ws, ByRecord(l, k), v);
  }

  /** Nobody claims what they did not claim before. */
  ghost predicate FewerClaims(s: Store, t: Store, ws: Writers)
  {
    forall o, v :: Claiming(t, ws, o, v) ==> Claiming(s, ws, o, v)
  }

  lemma FewerPointers(s: Store, t: Store, ws: Writers, l: LockerId)
    requires forall j :: j != l ==> t.Recs(j) == s.Recs(j)
    requires forall k :: k in t.Recs(l) && t.Recs(l)[k].Pointer? ==> k in s.Recs(l) && t.Recs(l)[k] == s.Recs(l)[k]
    ensures FewerClaims(s, t, ws)
  {
    forall o, v | Claiming(t, ws, o, v) ensures Claiming(s, ws, o, v) {
      if o.ByRecord? && o.locker != l { assert t.Recs(o.locker) == s.Recs(o.locker); }
    }
  }

  /** Chunks whose only owner's record is gone, with nothing else come to claim them, are orphans. */
  lemma Orphaned(s: Store, t: Store, ws: Writers, a: Owner, v: nat)
    requires Owned(s, ws) && Claiming(s, ws, a, v) && t.Rows(v) == s.Rows(v) != map[]
    requires FewerClaims(s, t, ws) && !Claiming(t, ws, a, v)
    ensures !Owned(t, ws)
  {
    forall o ensures !Claiming(t, ws, o, v) {
      assert Claiming(t, ws, o, v) ==> Claiming(s, ws, o, v);
    }
    assert Unclaimed(t, ws, v);
  }

  // ---- what comes between a read and its commit ----------------------

  /** A chunked put between a writer's look and its publish: what it stored is left behind without an owner. */
  lemma PutBetweenLookAndPublish(w: World, a: AbsWorld, id: LockerId, h: nat, payload: Payload, w1: World,
                                 tracked: set<LockerId>)
    requires Runs.Kept(w, a, tracked) && id in w.lockers && h in w.looks && w.ws[h].locker == id && id !in tracked
    requires !w.lockers[id].cfg.IsDeferred() && w.lockers[id].cfg.chunkSize < |payload| <= MAX_DECODED_BYTES
    requires Leads(w, On(id, Write(Put(w.ws[h].key, payload), L.Lands)), w1)
    ensures WorldOk(w1, tracked)
    ensures var w2 := Published(w1, id, h); !Owned(w2.bank.store, w2.ws)
  {
    var k := w.ws[h].key;
    PutRespected(w, id, k, payload, w1, tracked);
    Runs.StepKeeps(w, a, On(id, Write(Put(k, payload), L.Lands)), tracked);
    PublishedStale(w, id, h, payload, w1, tracked);
  }

  /** The put is one its caller may make. */
  lemma PutRespected(w: World, id: LockerId, k: Key, payload: Payload, w1: World, tracked: set<LockerId>)
    requires id in w.lockers && id !in tracked && |payload| <= MAX_DECODED_BYTES
    requires Leads(w, On(id, Write(Put(k, payload), L.Lands)), w1)
    ensures Respected(w, On(id, Write(Put(k, payload), L.Lands)), tracked)
    ensures w1.bank == L.Write(w.bank, w.lockers[id], Put(k, payload), L.Lands).bank
    ensures w1.ws == w.ws && w1.looks == w.looks
  {
    BoundedOne(Put(k, payload));
  }

  lemma PublishedStale(w: World, id: LockerId, h: nat, payload: Payload, w1: World, tracked: set<LockerId>)
    requires WorldOk(w, tracked) && WorldOk(w1, tracked) && id in w.lockers && id in w1.lockers
    requires h in w.looks && w.ws[h].locker == id && w1.ws == w.ws && w1.looks == w.looks
    requires !w.lockers[id].cfg.IsDeferred() && w.lockers[id].cfg.chunkSize < |payload| <= MAX_DECODED_BYTES
    requires w1.bank == L.Write(w.bank, w.lockers[id], Put(w.ws[h].key, payload), L.Lands).bank
    ensures var w2 := Published(w1, id, h); !Owned(w2.bank.store, w2.ws)
  {
    assert LockerOk(w.bank.store, id, w.lockers[id], tracked);
    assert LookOk(w.bank.store, w.ws, id, w.ws[h].key, w.looks[h]);
    var v := FreshlyPut(w.bank, w.ws, w.lockers[id], w.ws[h].key, payload);
    assert LookOk(w1.bank.store, w1.ws, id, w1.ws[h].key, w1.looks[h]);
    NotSeen(w1.bank.store, w1.ws, id, w1.ws[h].key, v, w1.looks[h]);
    PublishOwnedExactly(w1.bank.store, w1.ws, h, w1.looks[h]);
  }

  lemma NotSeen(s: Store, ws: Writers, l: LockerId, k: Key, v: nat, seen: Option<nat>)
    requires Owned(s, ws) && PointerId(RecordAt(s, l, k)) == Some(v) && s.Recs(l)[k].ptr.nChunks >= 1
    requires seen != Some(v)
    ensures !Current(s, l, k, seen)
  {
    assert ClaimOf(s, ws, ByRecord(l, k)).Some? && 0 in s.Rows(v);
  }

  /** A large put leaves a pointer under an id from the counter on, with at least one chunk. */
  lemma FreshlyPut(b: L.Bank, ws: Writers, l: L.Locker, k: Key, payload: Payload) returns (v: nat)
    requires BankOk(b, ws) && ResidentOk(b.store, l) && !l.cfg.IsDeferred()
    requires l.cfg.chunkSize < |payload| <= MAX_DECODED_BYTES
    ensures var r := RecordAt(L.Write(b, l, Put(k, payload), L.Lands).bank.store, l.id, k);
      PointerId(r) == Some(v) && v >= Stored(b.store) && r.value.ptr.nChunks >= 1
  {
    v := Cursor(b.store, b.next);
    PutStays(b, ws, l, k, payload);
    PutInPlace(b, ws, l, k, payload);
    CutSizes(payload, l.cfg.chunkSize);
  }

  /** What the put stores is not evicted by its own commit. */
  lemma PutStays(b: L.Bank, ws: Writers, l: L.Locker, k: Key, payload: Payload)
    requires BankOk(b, ws) && ResidentOk(b.store, l) && !l.cfg.IsDeferred() && |payload| <= MAX_DECODED_BYTES
    ensures RecordAt(L.Write(b, l, Put(k, payload), L.Lands).bank.store, l.id, k)
         == RecordAt(ApplyAll(b.store, L.ImmediateBuild(b, l, Put(k, payload)).ops), l.id, k)
  {
    var p := Put(k, payload);
    var l1 := l.(index := L.IndexAfter(l.index, p), knownInline := L.InlineAfter(l, p));
    BoundedOne(p);
    ImmediateBuilds(b, ws, l, p);
    CommitEffect(b, ws, l1, [p], L.ImmediateBuild(b, l, p));
    assert k !in L.PlanOf(b, l1, [p]).plan.victims by {
      SingleActions(p);
      EvictedUntouched(b, l1, [p]);
    }
  }

  lemma BoundedOne(p: Pending)
    requires p.Put? ==> |p.payload| <= MAX_DECODED_BYTES
    ensures Bounded([p])
  {
  }

  lemma PutInPlace(b: L.Bank, ws: Writers, l: L.Locker, k: Key, payload: Payload)
    requires BankOk(b, ws) && ResidentOk(b.store, l)
    ensures RecordAt(ApplyAll(b.store, L.ImmediateBuild(b, l, Put(k, payload)).ops), l.id, k)
         == Some(PutRecordOf(b.store, l.cfg.chunkSize, payload, FLAG_POSTCARD, b.next))
  {
    PriorIsTrue(b.store, l, k);
    CursorUnclaimed(b.store, ws, Cursor(b.store, b.next));
    PutEffect(b.store, b.store, l.id, l.cfg.chunkSize, k, payload, FLAG_POSTCARD, L.PriorOf(l, k), b.next);
  }

  /**
   A delete whose read is stale keeps chunk ownership exactly when the key still points where it was found to, or at
   no chunks; a publish, which takes no lock, can come between the two.
   */
  lemma DeleteOwnedExactly(s: Store, ws: Writers, l: LockerId, k: Key, seen: Option<nat>)
    requires Owned(s, ws) && Settled(s, ws, l, k, seen)
    ensures Owned(ApplyAll(s, GcOps(seen) + [DeleteRecord(l, k)]), ws) <==> Current(s, l, k, seen)
  {
    var t := ApplyAll(s, GcOps(seen) + [DeleteRecord(l, k)]);
    DeletedRows(s, l, k, seen);
    var now := PointerId(RecordAt(s, l, k));
    if Current(s, l, k, seen) {
      assert Replaced(s, t, l, k, None, map[]);
      ReplaceKeepsOwnership(s, t, ws, l, k, None, map[]);
    } else {
      OneKeyOrphans(s, t, ws, l, k, now.value);
    }
  }

  lemma DeletedRows(s: Store, l: LockerId, k: Key, seen: Option<nat>)
    ensures var t := ApplyAll(s, GcOps(seen) + [DeleteRecord(l, k)]);
      && t.records == s.records[l := s.Recs(l) - {k}]
      && forall v: nat :: t.Rows(v) == if seen == Some(v) then map[] else s.Rows(v)
  {
    DropEffect(s, seen);
    ApplyAppend(s, GcOps(seen), [DeleteRecord(l, k)]);
    ApplyOne(ApplyAll(s, GcOps(seen)), DeleteRecord(l, k));
  }

  /** The key no longer points at chunks that are still there. */
  lemma OneKeyOrphans(s: Store, t: Store, ws: Writers, l: LockerId, k: Key, v: nat)
    requires Owned(s, ws) && PointerId(RecordAt(s, l, k)) == Some(v) && t.Rows(v) == s.Rows(v) != map[]
    requires forall j :: j != l ==> t.Recs(j) == s.Recs(j)
    requires PointerId(RecordAt(t, l, k)) == None
    requires forall j :: j in t.Recs(l) && j != k ==> j in s.Recs(l) && t.Recs(l)[j] == s.Recs(l)[j]
    ensures !Owned(t, ws)
  {
    assert Claiming(s, ws, ByRecord(l, k), v);
    FewerPointers(s, t, ws, l);
    Orphaned(s, t, ws, ByRecord(l, k), v);
  }

  // ---- eager writes over chunked values ------------------------------

  /**
   An eager locker puts and deletes without dropping chunks, so chunk ownership survives exactly when the record it
   replaces points at none.
   */
  lemma EagerWriteKeepsOwnershipExactly(s: Store, ws: Writers, l: LockerId, k: Key, r: Option<Payload>)
    requires Owned(s, ws)
    ensures var op := if r.Some? then PutRecord(l, k, Inline(r.value)) else DeleteRecord(l, k);
            var old' := PointerId(RecordAt(s, l, k));
      Owned(ApplyAll(s, [op]), ws) <==> old' == None || s.Rows(old'.value) == map[]
  {
    var op := if r.Some? then PutRecord(l, k, Inline(r.value)) else DeleteRecord(l, k);
    var r1 := if r.Some? then Some(Inline(r.value)) else None;
    var before := PointerId(RecordAt(s, l, k));
    ApplyOne(s, op);
    var t := ApplyAll(s, [op]);
    if before == None || s.Rows(before.value) == map[] {
      assert Replaced(s, t, l, k, r1, map[]);
      ReplaceKeepsOwnership(s, t, ws, l, k, r1, map[]);
    } else {
      OneKeyOrphans(s, t, ws, l, k, before.value);
    }
  }

  /** So with its clear, which drops the records alone: every pointer of the locker must be without chunks. */
  lemma EagerClearKeepsOwnershipExactly(s: Store, ws: Writers, l: LockerId)
    requires Owned(s, ws)
    ensures Owned(ApplyAll(s, [ClearRecords(l)]), ws) <==>
              forall k :: PointerId(RecordAt(s, l, k)).Some? ==> s.Rows(PointerId(RecordAt(s, l, k)).value) == map[]
  {
    ApplyOne(s, ClearRecords(l));
    var t := ApplyAll(s, [ClearRecords(l)]);
    if k :| PointerId(RecordAt(s, l, k)).Some? && s.Rows(PointerId(RecordAt(s, l, k)).value) != map[] {
      OneKeyOrphans(s, t, ws, l, k, PointerId(RecordAt(s, l, k)).value);
    } else {
      RecordsGone(s, t, ws, l);
    }
  }

  lemma RecordsGone(s: Store, t: Store, ws: Writers, l: LockerId)
    requires Owned(s, ws) && t.records == s.records[l := map[]] && t.chunks == s.chunks
    requires forall k :: PointerId(RecordAt(s, l, k)).Some? ==> s.Rows(PointerId(RecordAt(s, l, k)).value) == map[]
    ensures Owned(t, ws)
  {
    assert forall v: nat :: t.Rows(v) == s.Rows(v);
    forall o ensures ClaimOf(t, ws, o) == if o.ByRecord? && o.locker == l then None else ClaimOf(s, ws, o) {
      if o.ByRecord? && o.locker != l { assert t.Recs(o.locker) == s.Recs(o.locker); }
    }
    assert forall o, v :: Claiming(t, ws, o, v) ==> Claiming(s, ws, o, v);
    forall v: nat | Unclaimed(t, ws, v) ensures t.Rows(v) == map[] {
      if !Unclaimed(s, ws, v) {
        var o :| Claiming(s, ws, o, v);
        assert !Claiming(t, ws, o, v);
        assert PointerId(RecordAt(s, l, o.key)) == Some(v);
      }
    }
  }
}
