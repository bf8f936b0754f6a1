/**
 Whole runs: every reachable state keeps the engine's invariants and behaves as a plain transactional map.
 */
module Runs {
  import opened Wrappers
  import opened Bytes
  import opened Storage
  import opened Ownership
  import opened Inner
  import opened Batches
  import opened Transaction
  import opened Lru
  import opened Accounting
  import opened Budget
  import opened Streaming
  import opened Invariants
  import opened Steps
  import L = LockerSteps

  // ---- what a writer's step leaves alone -----------------------------

  /** Records, contents and budget rows of every locker are as they were. */
  ghost predicate LockersKept(s: Store, t: Store)
  {
    forall j: LockerId :: t.Recs(j) == s.Recs(j) && View(t, j) == View(s, j) && t.LruRows(j) == s.LruRows(j)
  }

  lemma LockerStays(s: Store, t: Store, id: LockerId, l: L.Locker, tracked: set<LockerId>)
    requires LockerOk(s, id, l, tracked)
    requires t.Recs(id) == s.Recs(id) && View(t, id) == View(s, id) && t.LruRows(id) == s.LruRows(id)
    ensures LockerOk(t, id, l, tracked)
  {
  }

  lemma MatchStays(s: Store, t: Store, w: WriterState, a: AbsWriter)
    requires WriterMatches(s, w, a) && t.Rows(w.valueId) == s.Rows(w.valueId)
    ensures WriterMatches(t, w, a)
  {
  }

  /** Moving bytes through a writer's buffer claims nothing new. */
  lemma SameClaims(s: Store, ws: Writers, ws': Writers, cursor: nat)
    requires Sound(s, ws, cursor) && ws'.Keys == ws.Keys
    requires forall h :: h in ws ==> ws'[h].valueId == ws[h].valueId && ws'[h].seqNo == ws[h].seqNo
    ensures Sound(s, ws', cursor)
  {
    assert forall o :: ClaimOf(s, ws', o) == ClaimOf(s, ws, o);
    assert forall o, v :: Claiming(s, ws', o, v) == Claiming(s, ws, o, v);
    forall v | Unclaimed(s, ws', v) ensures s.Rows(v) == map[] {
      assert Unclaimed(s, ws, v) by {
        forall o ensures !Claiming(s, ws, o, v) { assert !Claiming(s, ws', o, v); }
      }
    }
  }

  /** Distinct writers hold distinct ids. */
  lemma WritersApart(s: Store, ws: Writers, h: nat, j: nat)
    requires Owned(s, ws) && h in ws && j in ws && h != j
    ensures ws[h].valueId != ws[j].valueId
  {
    assert Claiming(s, ws, ByWriter(h), ws[h].valueId) && Claiming(s, ws, ByWriter(j), ws[j].valueId);
  }

  /** An op on one writer's chunks leaves every other writer's alone. */
  lemma RowsApart(s: Store, ws: Writers, h: nat, op: Op)
    requires Owned(s, ws) && h in ws && (op.PutChunk? || op.DropChunks?) && op.valueId == ws[h].valueId
    ensures forall j :: j in ws && j != h ==> ApplyAll(s, [op]).Rows(ws[j].valueId) == s.Rows(ws[j].valueId)
  {
    ApplyOne(s, op);
    forall j | j in ws && j != h ensures ws[j].valueId != ws[h].valueId { WritersApart(s, ws, h, j); }
  }

  // ---- what a finishing writer saw -----------------------------------

  ghost predicate HeldByWriter(ws: Writers, v: nat)
  {
    exists h :: h in ws && ws[h].valueId == v
  }

  /** No id from before the stored counter gains an owner, but that a writer's may pass to its record. */
  ghost predicate ClaimsFade(s: Store, ws: Writers, t: Store, ws': Writers)
  {
    && Stored(s) <= Stored(t)
    && forall o, v: nat :: Claiming(t, ws', o, v) && v < Stored(s) ==> Claiming(s, ws, o, v) || HeldByWriter(ws, v)
  }

  lemma LookStays(s: Store, ws: Writers, t: Store, ws': Writers, l: LockerId, k: Key, seen: Option<nat>)
    requires Owned(s, ws) && ClaimsFade(s, ws, t, ws') && LookOk(s, ws, l, k, seen)
    ensures LookOk(t, ws', l, k, seen)
  {
    if seen.Some? {
      var v := seen.value;
      assert !HeldByWriter(ws, v) by { NotHeld(s, ws, l, k, v); }
      forall o | Claiming(t, ws', o, v) ensures o == ByRecord(l, k) {
        assert Claiming(s, ws, o, v);
        assert PointerId(RecordAt(s, l, k)) == seen ==> Claiming(s, ws, ByRecord(l, k), v);
      }
    }
  }

  /** No writer holds an id a finishing writer has seen under its key. */
  lemma NotHeld(s: Store, ws: Writers, l: LockerId, k: Key, v: nat)
    requires Owned(s, ws) && LookOk(s, ws, l, k, Some(v))
    ensures !HeldByWriter(ws, v)
  {
    forall h | h in ws ensures ws[h].valueId != v {
      assert Claiming(s, ws, ByWriter(h), ws[h].valueId);
      assert PointerId(RecordAt(s, l, k)) == Some(v) ==> Claiming(s, ws, ByRecord(l, k), v);
    }
  }

  lemma LooksStay(s: Store, ws: Writers, t: Store, ws': Writers, looks: map<nat, Option<nat>>)
    requires Owned(s, ws) && ClaimsFade(s, ws, t, ws') && LooksOk(s, ws, looks)
    requires forall h :: h in looks ==> h in ws' && ws'[h].locker == ws[h].locker && ws'[h].key == ws[h].key
    ensures LooksOk(t, ws', looks)
  {
    forall h | h in looks ensures LookOk(t, ws', ws'[h].locker, ws'[h].key, looks[h]) {
      LookStays(s, ws, t, ws', ws[h].locker, ws[h].key, looks[h]);
    }
  }

  /** New pointers and new writers take ids from the counter on. */
  lemma RecordsFade(s: Store, ws: Writers, t: Store, ws': Writers, id: LockerId)
    requires FreshOnly(s, t, id) && forall j :: j != id ==> t.Recs(j) == s.Recs(j)
    requires forall h :: h in ws' ==> (h in ws && ws'[h].valueId == ws[h].valueId) || ws'[h].valueId >= Stored(s)
    ensures ClaimsFade(s, ws, t, ws')
  {
    forall o, v: nat | Claiming(t, ws', o, v) && v < Stored(s) ensures Claiming(s, ws, o, v) {
      if o.ByRecord? {
        assert o.locker != id ==> t.Recs(o.locker) == s.Recs(o.locker);
        assert RecordAt(t, o.locker, o.key) == RecordAt(s, o.locker, o.key);
      }
    }
  }

  /** As far as writers go, when no record changes. */
  lemma WritersFade(s: Store, ws: Writers, t: Store, ws': Writers)
    requires (forall j :: t.Recs(j) == s.Recs(j)) && Stored(s) <= Stored(t)
    requires forall h :: h in ws' ==> (h in ws && ws'[h].valueId == ws[h].valueId) || ws'[h].valueId >= Stored(s)
    ensures ClaimsFade(s, ws, t, ws')
  {
    assert forall k :: RecordAt(t, 0, k) == RecordAt(s, 0, k);
    RecordsFade(s, ws, t, ws', 0);
  }

  // ---- one step of the world -----------------------------------------

  /** The state after a step, in terms of what the step promised. */
  ghost predicate Kept(w: World, a: AbsWorld, tracked: set<LockerId>)
  {
    WorldOk(w, tracked) && Refines(w, a)
  }

  lemma LockerStep(w: World, a: AbsWorld, id: LockerId, act: Act, tracked: set<LockerId>)
    requires Kept(w, a, tracked) && !WriterAct(act)
    requires Possible(w, On(id, act)) && Respected(w, On(id, act), tracked)
    ensures var o := LockerOutcome(w, id, act);
      Stepped(w.bank.store, w.ws, id, o,
              AbsLockerNext(a.lockers[id], w.lockers[id].cfg, act, set k | k in o.evicted), tracked)
  {
    var b, l := w.bank, w.lockers[id];
    assert LockerOk(b.store, id, l, tracked) && a.lockers[id] == Abs(View(b.store, id), l.staged);
    match act
    case Write(p, fate) => WriteStep(b, w.ws, id, l, p, fate, tracked);
    case Transact(tx, fate) => TransactStep(b, w.ws, id, l, tx, fate, tracked);
    case Flush(fate) => FlushStep(b, w.ws, id, l, fate, tracked);
    case Evict(limit, fate) => EvictStep(b, w.ws, id, l, limit, fate, tracked);
    case Get(k) => GetStep(b, w.ws, id, l, k, tracked);
    case Reopen(cfg) => ReopenStep(b, w.ws, id, l, cfg, tracked);
  }

  lemma SteppedLooks(s: Store, ws: Writers, id: LockerId, t: Store, looks: map<nat, Option<nat>>)
    requires Owned(s, ws) && LooksOk(s, ws, looks) && OthersKept(s, t, id) && FreshOnly(s, t, id)
    ensures LooksOk(t, ws, looks)
  {
    RecordsFade(s, ws, t, ws, id);
    LooksStay(s, ws, t, ws, looks);
  }

  /** Putting a stepped locker back among the others. */
  lemma PutBack(w: World, a: AbsWorld, id: LockerId, o: L.Outcome, want: Abs, tracked: set<LockerId>)
    requires Kept(w, a, tracked) && id in w.lockers
    requires Stepped(w.bank.store, w.ws, id, o, want, tracked)
    ensures Kept(w.(bank := o.bank, lockers := w.lockers[id := o.locker]), a.(lockers := a.lockers[id := want]),
                 tracked)
  {
    var s, t := w.bank.store, o.bank.store;
    SteppedLooks(s, w.ws, id, t, w.looks);
    OneLocker(s, t, id, w.lockers, a.lockers, o.locker, tracked);
    WritersStay(s, t, w.ws, a.writers);
  }

  /** One locker has changed, and its storage with it. */
  lemma OneLocker(s: Store, t: Store, id: LockerId, lockers: map<LockerId, L.Locker>, maps: map<LockerId, Abs>,
                  l1: L.Locker, tracked: set<LockerId>)
    requires LockersOk(s, lockers, tracked) && LockersMatch(s, lockers, maps)
    requires id in lockers && OthersKept(s, t, id) && LockerOk(t, id, l1, tracked)
    ensures LockersOk(t, lockers[id := l1], tracked)
    ensures LockersMatch(t, lockers[id := l1], maps[id := Abs(View(t, id), l1.staged)])
  {
    forall j | j in lockers && j != id
      ensures LockerOk(t, j, lockers[j], tracked) && maps[j] == Abs(View(t, j), lockers[j].staged)
    {
      LockerStays(s, t, j, lockers[j], tracked);
    }
  }

  lemma NoLocker(s: Store, t: Store, lockers: map<LockerId, L.Locker>, maps: map<LockerId, Abs>,
                 tracked: set<LockerId>)
    requires LockersOk(s, lockers, tracked) && LockersMatch(s, lockers, maps) && LockersKept(s, t)
    ensures LockersOk(t, lockers, tracked) && LockersMatch(t, lockers, maps)
  {
    forall j | j in lockers
      ensures LockerOk(t, j, lockers[j], tracked) && maps[j] == Abs(View(t, j), lockers[j].staged)
    {
      LockerStays(s, t, j, lockers[j], tracked);
    }
  }

  lemma WritersStay(s: Store, t: Store, ws: Writers, writers: map<nat, AbsWriter>)
    requires WritersMatch(s, ws, writers) && WritersKept(s, t, ws)
    ensures WritersMatch(t, ws, writers)
  {
    forall h | h in ws ensures WriterMatches(t, ws[h], writers[h]) { MatchStays(s, t, ws[h], writers[h]); }
  }

  /** Every writer's chunks but those of `h` are as they were. */
  ghost predicate OtherWritersKept(s: Store, t: Store, ws: Writers, h: nat)
  {
    forall j :: j in ws && j != h ==> t.Rows(ws[j].valueId) == s.Rows(ws[j].valueId)
  }

  lemma OneWriter(s: Store, t: Store, ws: Writers, writers: map<nat, AbsWriter>, h: nat, x: WriterState, ax: AbsWriter)
    requires WritersMatch(s, ws, writers) && OtherWritersKept(s, t, ws, h) && WriterMatches(t, x, ax)
    ensures WritersMatch(t, ws[h := x], writers[h := ax])
  {
    forall j | j in ws && j != h ensures WriterMatches(t, ws[j], writers[j]) { MatchStays(s, t, ws[j], writers[j]); }
  }

  lemma WriterGone(s: Store, t: Store, ws: Writers, writers: map<nat, AbsWriter>, h: nat)
    requires WritersMatch(s, ws, writers) && OtherWritersKept(s, t, ws, h)
    ensures WritersMatch(t, ws - {h}, writers - {h})
  {
    forall j | j in ws && j != h ensures WriterMatches(t, ws[j], writers[j]) { MatchStays(s, t, ws[j], writers[j]); }
  }

  /** What one writer's step leaves: the writer further on, and everybody else as they were. */
  ghost predicate Moves(b: L.Bank, ws: Writers, b1: L.Bank, h: nat, x: WriterState, ax: AbsWriter)
  {
    && BankOk(b1, ws[h := x]) && LockersKept(b.store, b1.store)
    && Stored(b.store) <= Stored(b1.store) && OwnPlace(b.store, ws, h, x)
    && OtherWritersKept(b.store, b1.store, ws, h) && WriterMatches(b1.store, x, ax)
  }

  /** One writer starts or moves on, and no locker changes. */
  lemma WriterMoved(w: World, a: AbsWorld, b: L.Bank, h: nat, x: WriterState, ax: AbsWriter, w1: World, a1: AbsWorld,
                    tracked: set<LockerId>)
    requires Kept(w, a, tracked) && Moves(w.bank, w.ws, b, h, x, ax)
    requires w1 == w.(bank := b, ws := w.ws[h := x]) && a1 == a.(writers := a.writers[h := ax])
    ensures Kept(w1, a1, tracked)
  {
    MovedLooks(w.bank.store, w.ws, b.store, h, x, w.looks);
    NoLocker(w.bank.store, b.store, w.lockers, a.lockers, tracked);
    OneWriter(w.bank.store, b.store, w.ws, a.writers, h, x, ax);
  }

  lemma MovedLooks(s: Store, ws: Writers, t: Store, h: nat, x: WriterState, looks: map<nat, Option<nat>>)
    requires Owned(s, ws) && LooksOk(s, ws, looks) && LockersKept(s, t)
    requires Stored(s) <= Stored(t) && OwnPlace(s, ws, h, x)
    ensures LooksOk(t, ws[h := x], looks)
  {
    WritersFade(s, ws, t, ws[h := x]);
    LooksStay(s, ws, t, ws[h := x], looks);
  }

  /** The writer is new and takes a fresh id, or keeps its id and its key. */
  ghost predicate OwnPlace(s: Store, ws: Writers, h: nat, w: WriterState)
  {
    if h in ws then w.valueId == ws[h].valueId && w.locker == ws[h].locker && w.key == ws[h].key
    else w.valueId >= Stored(s)
  }

  lemma FailStep(w: World, a: AbsWorld, fate: L.Fate, tracked: set<LockerId>)
    requires Kept(w, a, tracked) && fate.Fails? && L.Admissible(w.bank, fate)
    ensures Kept(w.(bank := AfterFailure(w.bank, fate)), a, tracked)
  {
    FailureOk(w.bank, w.ws, fate);
  }

  lemma StartKeeps(w: World, a: AbsWorld, id: LockerId, h: nat, key: Key, tracked: set<LockerId>)
    requires Kept(w, a, tracked) && h !in w.ws
    ensures Kept(Started(w, id, h, key), a.(writers := a.writers[h := AbsWriter(id, key, [], false)]), tracked)
  {
    var w1, ax := Started(w, id, h, key), AbsWriter(id, key, [], false);
    StartMoves(w, id, h, key);
    WriterMoved(w, a, w1.bank, h, w1.ws[h], ax, w1, a.(writers := a.writers[h := ax]), tracked);
  }

  lemma StartMoves(w: World, id: LockerId, h: nat, key: Key)
    requires BankOk(w.bank, w.ws) && h !in w.ws
    ensures var w1 := Started(w, id, h, key);
      && h in w1.ws && w1 == w.(bank := w1.bank, ws := w.ws[h := w1.ws[h]])
      && Moves(w.bank, w.ws, w1.bank, h, w1.ws[h], AbsWriter(id, key, [], false))
  {
    StartLands(w.bank, w.ws, h, WriterState(id, key, Cursor(w.bank.store, w.bank.next), 0, 0, []));
  }

  lemma StartLands(b: L.Bank, ws: Writers, h: nat, x: WriterState)
    requires BankOk(b, ws) && h !in ws
    requires x == WriterState(x.locker, x.key, Cursor(b.store, b.next), 0, 0, [])
    ensures var t := ApplyAll(b.store, [PutNextId(x.valueId + 1)]);
      Moves(b, ws, b.(store := t, next := Some(x.valueId + 1)), h, x, AbsWriter(x.locker, x.key, [], false))
  {
    StartStep(b.store, ws, h, x, x.valueId);
    ApplyOne(b.store, PutNextId(x.valueId + 1));
  }

  lemma FeedKeeps(w: World, a: AbsWorld, h: nat, bytes: Payload, tracked: set<LockerId>)
    requires Kept(w, a, tracked) && h in w.ws
    ensures Kept(Fed(w, h, bytes), AbsFed(a, h, bytes), tracked)
  {
    var w1, a1 := Fed(w, h, bytes), AbsFed(a, h, bytes);
    assert Moves(w.bank, w.ws, w.bank, h, w1.ws[h], a1.writers[h]) by {
      FeedLands(w.bank, w.ws, h, a.writers[h], bytes);
    }
    WriterMoved(w, a, w.bank, h, w1.ws[h], a1.writers[h], w1, a1, tracked);
  }

  lemma FeedLands(b: L.Bank, ws: Writers, h: nat, aw: AbsWriter, bytes: Payload)
    requires BankOk(b, ws) && h in ws && WriterMatches(b.store, ws[h], aw)
    ensures var fed := ws[h].(buf := ws[h].buf + bytes, totalLen := ws[h].totalLen + |bytes|);
      Moves(b, ws, b, h, fed, aw.(sent := aw.sent + bytes))
  {
    var fed := ws[h].(buf := ws[h].buf + bytes, totalLen := ws[h].totalLen + |bytes|);
    SameClaims(b.store, ws, ws[h := fed], Cursor(b.store, b.next));
    FedMatches(b.store, ws[h], aw, bytes);
  }

  lemma FedMatches(s: Store, w: WriterState, a: AbsWriter, bytes: Payload)
    requires WriterMatches(s, w, a)
    ensures WriterMatches(s, w.(buf := w.buf + bytes, totalLen := w.totalLen + |bytes|), a.(sent := a.sent + bytes))
  {
    assert Join(s.Rows(w.valueId), w.seqNo) + (w.buf + bytes) == Sent(s, w) + bytes;
  }

  /** A failed flush loses its piece, and the writer with it. */
  lemma LostKeeps(w: World, a: AbsWorld, h: nat, n: nat, fate: L.Fate, tracked: set<LockerId>)
    requires Kept(w, a, tracked) && h in w.ws && 0 < n <= |w.ws[h].buf|
    requires fate.Fails? && L.Admissible(w.bank, fate)
    ensures Kept(Lost(w, h, n, fate), AbsTorn(a, h), tracked)
  {
    var w1, a1 := Lost(w, h, n, fate), AbsTorn(a, h);
    assert Moves(w.bank, w.ws, w1.bank, h, w1.ws[h], a1.writers[h]) by {
      LostLands(w.bank, w.ws, h, a.writers[h], n, fate);
    }
    WriterMoved(w, a, w1.bank, h, w1.ws[h], a1.writers[h], w1, a1, tracked);
  }

  lemma LostLands(b: L.Bank, ws: Writers, h: nat, aw: AbsWriter, n: nat, fate: L.Fate)
    requires BankOk(b, ws) && h in ws && WriterMatches(b.store, ws[h], aw) && 0 < n <= |ws[h].buf|
    requires fate.Fails? && L.Admissible(b, fate)
    ensures Moves(b, ws, AfterFailure(b, fate), h, ws[h].(buf := ws[h].buf[n..]), aw.(torn := true))
  {
    var bank := AfterFailure(b, fate);
    FailureOk(b, ws, fate);
    SameClaims(b.store, ws, ws[h := ws[h].(buf := ws[h].buf[n..])], Cursor(bank.store, bank.next));
    LostPiece(b.store, ws[h], aw, n);
  }

  lemma LostPiece(s: Store, w: WriterState, a: AbsWriter, n: nat)
    requires WriterMatches(s, w, a) && 0 < n <= |w.buf|
    ensures WriterMatches(s, w.(buf := w.buf[n..]), a.(torn := true))
  {
  }

  lemma FlushedPiece(s: Store, t: Store, w: WriterState, a: AbsWriter, n: nat)
    requires WriterMatches(s, w, a) && 0 < n <= |w.buf|
    requires Join(t.Rows(w.valueId), w.seqNo + 1) == Join(s.Rows(w.valueId), w.seqNo) + w.buf[..n]
    ensures WriterMatches(t, w.(buf := w.buf[n..], seqNo := w.seqNo + 1), a)
  {
    assert w.buf == w.buf[..n] + w.buf[n..];
    assert Join(t.Rows(w.valueId), w.seqNo + 1) + w.buf[n..] == Sent(s, w);
  }

  lemma PieceKeeps(w: World, a: AbsWorld, h: nat, n: nat, tracked: set<LockerId>)
    requires Kept(w, a, tracked) && h in w.ws && 0 < n <= |w.ws[h].buf|
    ensures Kept(Flushed(w, h, n), a, tracked)
  {
    var w1 := Flushed(w, h, n);
    PieceMoves(w, h, a.writers[h], n);
    assert a.writers == a.writers[h := a.writers[h]];
    WriterMoved(w, a, w1.bank, h, w1.ws[h], a.writers[h], w1, a, tracked);
  }

  lemma PieceMoves(w: World, h: nat, aw: AbsWriter, n: nat)
    requires BankOk(w.bank, w.ws) && h in w.ws && WriterMatches(w.bank.store, w.ws[h], aw) && 0 < n <= |w.ws[h].buf|
    ensures var w1 := Flushed(w, h, n);
      Moves(w.bank, w.ws, w1.bank, h, w1.ws[h], aw) && w1 == w.(bank := w1.bank, ws := w.ws[h := w1.ws[h]])
  {
    PieceLands(w.bank, w.ws, h, aw, n);
  }

  lemma PieceLands(b: L.Bank, ws: Writers, h: nat, aw: AbsWriter, n: nat)
    requires BankOk(b, ws) && h in ws && WriterMatches(b.store, ws[h], aw) && 0 < n <= |ws[h].buf|
    ensures var w, t := ws[h], ApplyAll(b.store, [PieceOp(ws[h], ws[h].buf[..n])]);
      Moves(b, ws, b.(store := t), h, w.(buf := w.buf[n..], seqNo := w.seqNo + 1), aw)
  {
    PieceBank(b, ws, h, n);
    PieceMatches(b.store, ApplyAll(b.store, [PieceOp(ws[h], ws[h].buf[..n])]), ws, aw, h, n);
  }

  lemma PieceMatches(s: Store, t: Store, ws: Writers, aw: AbsWriter, h: nat, n: nat)
    requires Owned(s, ws) && h in ws && 0 < n <= |ws[h].buf| && WriterMatches(s, ws[h], aw)
    requires var w := ws[h];
      && t == ApplyAll(s, [PieceOp(w, w.buf[..n])])
      && Join(t.Rows(w.valueId), w.seqNo + 1) == Join(s.Rows(w.valueId), w.seqNo) + w.buf[..n]
    ensures WriterMatches(t, ws[h].(buf := ws[h].buf[n..], seqNo := ws[h].seqNo + 1), aw)
    ensures OtherWritersKept(s, t, ws, h)
  {
    FlushedPiece(s, t, ws[h], aw, n);
    RowsApart(s, ws, h, PieceOp(ws[h], ws[h].buf[..n]));
  }

  lemma PieceBank(b: L.Bank, ws: Writers, h: nat, n: nat)
    requires BankOk(b, ws) && h in ws && n <= |ws[h].buf|
    ensures var w := ws[h];
            var t := ApplyAll(b.store, [PieceOp(w, w.buf[..n])]);
      && BankOk(b.(store := t), ws[h := w.(buf := w.buf[n..], seqNo := w.seqNo + 1)])
      && LockersKept(b.store, t) && t.nextId == b.store.nextId
      && Join(t.Rows(w.valueId), w.seqNo + 1) == Join(b.store.Rows(w.valueId), w.seqNo) + w.buf[..n]
  {
    var w, cursor := ws[h], Cursor(b.store, b.next);
    var t := ApplyAll(b.store, [PieceOp(w, w.buf[..n])]);
    var ws1, ws2 := ws[h := w.(seqNo := w.seqNo + 1)], ws[h := w.(buf := w.buf[n..], seqNo := w.seqNo + 1)];
    PieceStep(b.store, ws, h, w.buf[..n], cursor);
    assert Sound(t, ws2, cursor) by { SameClaims(t, ws1, ws2, cursor); }
    CursorMoves(b.store, t, ws2, b.next);
  }

  lemma AbortKeeps(w: World, a: AbsWorld, h: nat, tracked: set<LockerId>)
    requires Kept(w, a, tracked) && h in w.ws && h !in w.looks
    ensures Kept(Aborted(w, h), a.(writers := a.writers - {h}), tracked)
  {
    var s, t := w.bank.store, ApplyAll(w.bank.store, [DropChunks(w.ws[h].valueId)]);
    AbortLands(w.bank, w.ws, h, w.looks);
    NoLocker(s, t, w.lockers, a.lockers, tracked);
    RowsApart(s, w.ws, h, DropChunks(w.ws[h].valueId));
    WriterGone(s, t, w.ws, a.writers, h);
  }

  lemma AbortLands(b: L.Bank, ws: Writers, h: nat, looks: map<nat, Option<nat>>)
    requires BankOk(b, ws) && LooksOk(b.store, ws, looks) && h in ws && h !in looks
    ensures var t := ApplyAll(b.store, [DropChunks(ws[h].valueId)]);
      BankOk(b.(store := t), ws - {h}) && LooksOk(t, ws - {h}, looks) && LockersKept(b.store, t)
  {
    var t := ApplyAll(b.store, [DropChunks(ws[h].valueId)]);
    AbortStep(b.store, ws, h, Cursor(b.store, b.next));
    CursorMoves(b.store, t, ws - {h}, b.next);
    assert LooksOk(t, ws - {h}, looks) by {
      WritersFade(b.store, ws, t, ws - {h});
      LooksStay(b.store, ws, t, ws - {h}, looks);
    }
  }

  // ---- publishing ----------------------------------------------------

  /**
   Listing the published key is right exactly when no staged delete or clear hides it: otherwise the index
   claims a key `get` will not find.
   */
  lemma PublishIndexExact(s: Store, t: Store, l: L.Locker, l1: L.Locker, k: Key, v: Value)
    requires l.index == Visible(s, l).Keys
    requires l1.id == l.id && l1.staged == l.staged && l1.index == l.index + {k}
    requires View(t, l.id) == View(s, l.id)[k := v]
    ensures l1.index == Visible(t, l1).Keys <==> L.StagedView(l.staged, k) != Some(None)
  {
    forall j
      ensures j in Visible(t, l1) <==>
                match L.StagedView(l.staged, j) {
                  case Some(p) => p.Some?
                  case None => j in View(s, l.id) || j == k
                }
      ensures j in Visible(s, l) <==>
                match L.StagedView(l.staged, j) { case Some(p) => p.Some? case None => j in View(s, l.id) }
    {
      StagedDecides(View(s, l.id), l.staged, j);
      StagedDecides(View(t, l.id), l.staged, j);
    }
    assert k in l1.index;
  }

  lemma PublishLocker(s: Store, t: Store, id: LockerId, l: L.Locker, k: Key, v: Value, tracked: set<LockerId>)
    requires LockerOk(s, id, l, tracked) && id !in tracked && L.StagedView(l.staged, k) != Some(None)
    requires View(t, id) == View(s, id)[k := v]
    requires forall j :: j != k ==> RecordAt(t, id, j) == RecordAt(s, id, j)
    ensures LockerOk(t, id, l.(index := l.index + {k}, knownInline := l.knownInline - {k}), tracked)
  {
    var l1 := l.(index := l.index + {k}, knownInline := l.knownInline - {k});
    PublishIndexExact(s, t, l, l1, k, v);
    forall j | j in l1.knownInline ensures j in t.Recs(id) && t.Recs(id)[j].Inline? {
      assert RecordAt(t, id, j) == RecordAt(s, id, j);
    }
  }

  /** Publishing touches no other writer's chunks. */
  lemma PublishApart(s: Store, ws: Writers, h: nat, seen: Option<nat>)
    requires Owned(s, ws) && h in ws && LookOk(s, ws, ws[h].locker, ws[h].key, seen)
    ensures OtherWritersKept(s, ApplyAll(s, PublishOps(seen, ws[h])), ws, h)
  {
    PublishRecords(s, seen, ws[h]);
    if seen.Some? { NotHeld(s, ws, ws[h].locker, ws[h].key, seen.value); }
  }

  /** What the other finishing writers saw is as true as it was. */
  lemma PublishLooks(s: Store, ws: Writers, h: nat, looks: map<nat, Option<nat>>)
    requires Owned(s, ws) && LooksOk(s, ws, looks) && h in ws && h in looks
    ensures LooksOk(ApplyAll(s, PublishOps(looks[h], ws[h])), ws - {h}, looks - {h})
  {
    var w, t := ws[h], ApplyAll(s, PublishOps(looks[h], ws[h]));
    PublishRecords(s, looks[h], w);
    assert ClaimsFade(s, ws, t, ws - {h}) by {
      forall o, v: nat | Claiming(t, ws - {h}, o, v) && v < Stored(s)
        ensures Claiming(s, ws, o, v) || HeldByWriter(ws, v)
      {
        assert o.ByRecord? && o.locker != w.locker ==> t.Recs(o.locker) == s.Recs(o.locker);
        if o == ByRecord(w.locker, w.key) { assert ws[h].valueId == v; }
      }
    }
    LooksStay(s, ws, t, ws - {h}, looks - {h});
  }

  lemma PublishBank(b: L.Bank, ws: Writers, h: nat, seen: Option<nat>)
    requires BankOk(b, ws) && h in ws && Settled(b.store, ws, ws[h].locker, ws[h].key, seen)
    requires Current(b.store, ws[h].locker, ws[h].key, seen)
    requires Parses(PublishedPointer(ws[h])) && |Join(b.store.Rows(ws[h].valueId), ws[h].seqNo)| == ws[h].totalLen
    ensures var t := ApplyAll(b.store, PublishOps(seen, ws[h]));
      BankOk(b.(store := t), ws - {h}) && OthersKept(b.store, t, ws[h].locker)
  {
    var t := ApplyAll(b.store, PublishOps(seen, ws[h]));
    PublishStep(b.store, ws, h, seen, Cursor(b.store, b.next));
    assert Sound(t, ws - {h}, Cursor(b.store, b.next));
    CursorMoves(b.store, t, ws - {h}, b.next);
  }

  lemma NothingBuffered(s: Store, w: WriterState, a: AbsWriter)
    requires WriterMatches(s, w, a) && Intact(s, w) && w.buf == [] && w.totalLen <= MAX_DECODED_BYTES
    ensures Join(s.Rows(w.valueId), w.seqNo) == a.sent
    ensures |a.sent| == w.totalLen && Parses(PublishedPointer(w))
  {
    assert Sent(s, w) == Join(s.Rows(w.valueId), w.seqNo);
  }

  lemma PublishKeeps(w: World, a: AbsWorld, id: LockerId, h: nat, tracked: set<LockerId>)
    requires Kept(w, a, tracked) && id in w.lockers && id !in tracked
    requires h in w.ws && h in w.looks && w.ws[h].locker == id
    requires w.ws[h].buf == [] && Publishable(w.bank.store, w.lockers[id], w.ws[h], w.looks[h])
    ensures Kept(Published(w, id, h), AbsPublished(a, id, h), tracked)
  {
    var s, l, k := w.bank.store, w.lockers[id], w.ws[h].key;
    var t := ApplyAll(s, PublishOps(w.looks[h], w.ws[h]));
    PublishLands(w.bank, w.ws, h, w.looks[h], a.writers[h]);
    PublishApart(s, w.ws, h, w.looks[h]);
    PublishLooks(s, w.ws, h, w.looks);
    PublishLocker(s, t, id, l, k, Value(FLAG_RAW, a.writers[h].sent), tracked);
    OneLocker(s, t, id, w.lockers, a.lockers, l.(index := l.index + {k}, knownInline := l.knownInline - {k}), tracked);
    WriterGone(s, t, w.ws, a.writers, h);
  }

  lemma PublishLands(b: L.Bank, ws: Writers, h: nat, seen: Option<nat>, aw: AbsWriter)
    requires BankOk(b, ws) && h in ws && Settled(b.store, ws, ws[h].locker, ws[h].key, seen)
    requires Current(b.store, ws[h].locker, ws[h].key, seen)
    requires WriterMatches(b.store, ws[h], aw) && Intact(b.store, ws[h])
    requires ws[h].buf == [] && ws[h].totalLen <= MAX_DECODED_BYTES
    ensures var w, s, t := ws[h], b.store, ApplyAll(b.store, PublishOps(seen, ws[h]));
      && BankOk(b.(store := t), ws - {h}) && OthersKept(s, t, w.locker)
      && View(t, w.locker) == View(s, w.locker)[w.key := Value(FLAG_RAW, aw.sent)]
      && forall j :: j != w.key ==> RecordAt(t, w.locker, j) == RecordAt(s, w.locker, j)
  {
    NothingBuffered(b.store, ws[h], aw);
    PublishBank(b, ws, h, seen);
    PublishStep(b.store, ws, h, seen, Cursor(b.store, b.next));
  }

  lemma LookKeeps(w: World, a: AbsWorld, h: nat, tracked: set<LockerId>)
    requires Kept(w, a, tracked) && h in w.ws
    ensures Kept(Looked(w, h), a, tracked)
  {
    LookIsOk(w.bank.store, w.ws, w.ws[h].locker, w.ws[h].key);
  }

  lemma LookIsOk(s: Store, ws: Writers, l: LockerId, k: Key)
    requires ClaimsBelow(s, ws, Stored(s))
    ensures LookOk(s, ws, l, k, PointerId(RecordAt(s, l, k)))
  {
    if PointerId(RecordAt(s, l, k)).Some? { assert ClaimOf(s, ws, ByRecord(l, k)).Some?; }
  }

  // ---- restarting ----------------------------------------------------

  lemma RestartKeeps(w: World, a: AbsWorld, e: Event, tracked: set<LockerId>)
    requires Kept(w, a, tracked) && e.Restart? && Possible(w, e) && Respected(w, e, tracked)
    ensures Kept(Next(w, e), AbsNext(a, Configs(w), e, {}), tracked)
  {
    Reseeded(w.bank, w.ws);
    AllOpened(w.bank.store, w.lockers, a.lockers, e.cfgs, tracked);
  }

  lemma AllOpened(s: Store, lockers: map<LockerId, L.Locker>, maps: map<LockerId, Abs>, cfgs: map<LockerId, L.Config>,
                  tracked: set<LockerId>)
    requires LockersOk(s, lockers, tracked) && LockersMatch(s, lockers, maps)
    requires cfgs.Keys == lockers.Keys && forall id :: id in cfgs ==> cfgs[id].chunkSize >= 1
    requires forall id :: id in lockers && id in tracked ==> cfgs[id].budget.Some? && SmallValues(s, id)
    ensures var opened' := map id | id in lockers :: L.Open(s, id, cfgs[id]);
            var durable := map id | id in maps :: Abs(maps[id].durable, []);
      LockersOk(s, opened', tracked) && LockersMatch(s, opened', durable)
  {
    forall id | id in lockers ensures LockerOk(s, id, L.Open(s, id, cfgs[id]), tracked) {
      OpenedOk(s, id, lockers[id], cfgs[id], tracked);
    }
  }

  lemma OpenedOk(s: Store, id: LockerId, l: L.Locker, cfg: L.Config, tracked: set<LockerId>)
    requires LockerOk(s, id, l, tracked) && cfg.chunkSize >= 1
    requires id in tracked ==> cfg.budget.Some? && SmallValues(s, id)
    ensures LockerOk(s, id, L.Open(s, id, cfg), tracked)
  {
    OpenResident(s, id, cfg);
    if id in tracked { ReopenRebuilds(s, id, l.lru.value, cfg.budget.value); }
  }

  /** A fresh cursor starts past the stored counter and every stored id. */
  lemma Reseeded(b: L.Bank, ws: Writers)
    requires BankOk(b, ws)
    ensures Sound(b.store, ws, Cursor(b.store, None))
  {
  }

  // ---- every step, every run -----------------------------------------

  lemma WriterStepKeeps(w: World, a: AbsWorld, id: LockerId, act: Act, tracked: set<LockerId>)
    requires Kept(w, a, tracked) && WriterAct(act)
    requires Possible(w, On(id, act)) && Respected(w, On(id, act), tracked)
    requires AbsEnabled(a, Configs(w), On(id, act))
    ensures Kept(Next(w, On(id, act)), AbsNext(a, Configs(w), On(id, act), {}), tracked)
  {
    if Commits(act) && act.fate.Fails? {
      FailedWriterStep(w, a, id, act, tracked);
    } else {
      WriterUnfolds(w, a, id, act, tracked);
      LandedWriterStep(w, a, id, act, Next(w, On(id, act)), AbsNext(a, Configs(w), On(id, act), {}), tracked);
    }
  }

  /** What a writer's step may assume of the engine and its caller. */
  ghost predicate WriterReady(w: World, a: AbsWorld, id: LockerId, act: Act, tracked: set<LockerId>)
  {
    && WriterAct(act) && id in w.lockers && w.lockers[id].cfg.chunkSize >= 1 && WriterMay(w, id, act)
    && id in a.lockers && (!act.Start? ==> act.h in a.writers)
    && (act.Publish? ==> id !in tracked && Publishable(w.bank.store, w.lockers[id], w.ws[act.h], w.looks[act.h]))
  }

  lemma LandedWriterStep(w: World, a: AbsWorld, id: LockerId, act: Act, w1: World, a1: AbsWorld, tracked: set<LockerId>)
    requires Kept(w, a, tracked) && WriterReady(w, a, id, act, tracked) && Unfolded(w, a, id, act, w1, a1, tracked)
    ensures Kept(w1, a1, tracked)
  {
    match act
    case Start(h, key, _) => StartKeeps(w, a, id, h, key, tracked);
    case Publish(h, _) => PublishKeeps(w, a, id, h, tracked);
    case FlushPiece(h, _) => FlushKeeps(w, a, id, act, w1, a1, tracked);
    case _ => OthersKeep(w, a, id, act, w1, a1, tracked);
  }

  lemma FlushKeeps(w: World, a: AbsWorld, id: LockerId, act: Act, w1: World, a1: AbsWorld, tracked: set<LockerId>)
    requires Kept(w, a, tracked) && WriterReady(w, a, id, act, tracked) && Unfolded(w, a, id, act, w1, a1, tracked)
    requires act.FlushPiece?
    ensures Kept(w1, a1, tracked)
  {
    PieceKeeps(w, a, act.h, NextPiece(w.ws[act.h].buf, w.lockers[id].cfg.chunkSize), tracked);
  }

  lemma OthersKeep(w: World, a: AbsWorld, id: LockerId, act: Act, w1: World, a1: AbsWorld, tracked: set<LockerId>)
    requires Kept(w, a, tracked) && WriterReady(w, a, id, act, tracked) && Unfolded(w, a, id, act, w1, a1, tracked)
    requires act.Feed? || act.Look? || act.Abort?
    ensures Kept(w1, a1, tracked)
  {
    match act
    case Feed(h, bytes) => FeedKeeps(w, a, h, bytes, tracked);
    case Look(h) => LookKeeps(w, a, h, tracked);
    case Abort(h, _) => AbortKeeps(w, a, h, tracked);
  }

  /** What a writer's landed step makes of the engine, and of the maps. */
  ghost predicate Unfolded(w: World, a: AbsWorld, id: LockerId, act: Act, w1: World, a1: AbsWorld,
                           tracked: set<LockerId>)
    requires WriterReady(w, a, id, act, tracked)
  {
    match act
    case Start(h, key, _) =>
      w1 == Started(w, id, h, key) && a1 == a.(writers := a.writers[h := AbsWriter(id, key, [], false)])
    case Feed(h, bytes) => w1 == Fed(w, h, bytes) && a1 == AbsFed(a, h, bytes)
    case FlushPiece(h, _) => w1 == Flushed(w, h, NextPiece(w.ws[h].buf, w.lockers[id].cfg.chunkSize)) && a1 == a
    case Look(h) => w1 == Looked(w, h) && a1 == a
    case Publish(h, _) => w1 == Published(w, id, h) && a1 == AbsPublished(a, id, h)
    case Abort(h, _) => w1 == Aborted(w, h) && a1 == a.(writers := a.writers - {h})
  }

  lemma WriterUnfolds(w: World, a: AbsWorld, id: LockerId, act: Act, tracked: set<LockerId>)
    requires WriterAct(act) && Possible(w, On(id, act)) && AbsEnabled(a, Configs(w), On(id, act))
    requires (Commits(act) ==> act.fate.Lands?) && Respected(w, On(id, act), tracked)
    ensures WriterReady(w, a, id, act, tracked)
    ensures Unfolded(w, a, id, act, Next(w, On(id, act)), AbsNext(a, Configs(w), On(id, act), {}), tracked)
  {
  }

  lemma FailureUnfolds(w: World, a: AbsWorld, id: LockerId, act: Act)
    requires WriterAct(act) && Commits(act) && act.fate.Fails?
    requires Possible(w, On(id, act)) && AbsEnabled(a, Configs(w), On(id, act))
    ensures var w1, a1 := Next(w, On(id, act)), AbsNext(a, Configs(w), On(id, act), {});
      if act.FlushPiece? then
        && w1 == Lost(w, act.h, NextPiece(w.ws[act.h].buf, w.lockers[id].cfg.chunkSize), act.fate)
        && a1 == AbsTorn(a, act.h)
      else w1 == w.(bank := AfterFailure(w.bank, act.fate)) && a1 == a
  {
  }

  lemma FailedWriterStep(w: World, a: AbsWorld, id: LockerId, act: Act, tracked: set<LockerId>)
    requires Kept(w, a, tracked) && WriterAct(act) && Commits(act) && act.fate.Fails?
    requires Possible(w, On(id, act)) && AbsEnabled(a, Configs(w), On(id, act))
    ensures Kept(Next(w, On(id, act)), AbsNext(a, Configs(w), On(id, act), {}), tracked)
  {
    FailureUnfolds(w, a, id, act);
    if act.FlushPiece? {
      LostKeeps(w, a, act.h, NextPiece(w.ws[act.h].buf, w.lockers[id].cfg.chunkSize), act.fate, tracked);
    } else {
      FailStep(w, a, act.fate, tracked);
    }
  }

  /**
   Every step keeps chunk ownership exact, the index, markers and accounts of every locker true, and changes
   each locker's contents exactly as the same step changes a plain map, minus the keys it evicts.
   */
  lemma StepKeeps(w: World, a: AbsWorld, e: Event, tracked: set<LockerId>)
    requires WorldOk(w, tracked) && Refines(w, a)
    requires Possible(w, e) && Respected(w, e, tracked)
    ensures AbsEnabled(a, Configs(w), e)
    ensures WorldOk(Next(w, e), tracked)
    ensures Refines(Next(w, e), AbsNext(a, Configs(w), e, EvictedBy(w, e)))
  {
    if e.Restart? {
      RestartKeeps(w, a, e, tracked);
    } else if WriterAct(e.act) {
      WriterStepKeeps(w, a, e.id, e.act, tracked);
    } else {
      var o := LockerOutcome(w, e.id, e.act);
      LockerStep(w, a, e.id, e.act, tracked);
      PutBack(w, a, e.id, o, AbsLockerNext(a.lockers[e.id], w.lockers[e.id].cfg, e.act, EvictedBy(w, e)), tracked);
    }
  }

  /** A run of the engine: one world per moment, one event between each two. */
  ghost predicate IsRun(worlds: seq<World>, events: seq<Event>, tracked: set<LockerId>)
  {
    && |worlds| == |events| + 1
    && forall i :: 0 <= i < |events| ==> Takes(worlds[i], events[i], worlds[i + 1], tracked)
  }

  /** One event of a run, its caller keeping to the rules. */
  ghost predicate Takes(w: World, e: Event, w1: World, tracked: set<LockerId>)
  {
    Possible(w, e) && Respected(w, e, tracked) && w1 == Next(w, e)
  }

  /** One event, as a plain map sees it. */
  ghost predicate MapStep(a: AbsWorld, w: World, e: Event, a1: AbsWorld)
  {
    Possible(w, e) && AbsEnabled(a, Configs(w), e) && a1 == AbsNext(a, Configs(w), e, EvictedBy(w, e))
  }

  /** The same run of plain maps. */
  ghost predicate IsMapRun(maps: seq<AbsWorld>, worlds: seq<World>, events: seq<Event>)
  {
    && |maps| == |worlds| == |events| + 1
    && forall i :: 0 <= i < |events| ==> MapStep(maps[i], worlds[i], events[i], maps[i + 1])
  }

  const EMPTY_STORE := Store(map[], map[], map[], None, None)

  /** A bank over an empty store, its lockers just opened. */
  ghost predicate Initial(w: World, tracked: set<LockerId>)
  {
    && w.bank.store == EMPTY_STORE && w.bank.next == None && w.ws == map[] && w.looks == map[]
    && forall id :: id in w.lockers ==>
         && w.lockers[id] == L.Open(EMPTY_STORE, id, w.lockers[id].cfg) && w.lockers[id].cfg.chunkSize >= 1
         && (id in tracked ==> w.lockers[id].cfg.budget.Some?)
  }

  lemma InitialOk(w: World, tracked: set<LockerId>)
    requires Initial(w, tracked)
    ensures WorldOk(w, tracked)
    ensures Refines(w, AbsWorld(map id | id in w.lockers :: Abs(map[], []), map[]))
  {
    var s := EMPTY_STORE;
    forall id ensures View(s, id) == map[] {}
    forall id | id in w.lockers ensures LockerOk(s, id, w.lockers[id], tracked) {
      OpenResident(s, id, w.lockers[id].cfg);
      OpenTotal(s, id, if id in tracked then w.lockers[id].cfg.budget.value else 0);
    }
  }

  lemma Follow(w: World, a: AbsWorld, e: Event, w1: World, tracked: set<LockerId>) returns (a1: AbsWorld)
    requires Kept(w, a, tracked) && Takes(w, e, w1, tracked)
    ensures MapStep(a, w, e, a1) && Kept(w1, a1, tracked)
  {
    StepKeeps(w, a, e, tracked);
    a1 := AbsNext(a, Configs(w), e, EvictedBy(w, e));
  }

  /**
   Over every run from an empty bank, in every state reached: chunk ownership is exact, each locker's index is
   the key set of its visible contents, its markers and accounts are true, and those contents are what the same
   run of plain maps holds.
   */
  lemma RunsRefineMaps(worlds: seq<World>, events: seq<Event>, tracked: set<LockerId>) returns (maps: seq<AbsWorld>)
    requires IsRun(worlds, events, tracked) && Initial(worlds[0], tracked)
    ensures IsMapRun(maps, worlds, events)
    ensures maps[0] == AbsWorld(map id | id in worlds[0].lockers :: Abs(map[], []), map[])
    ensures forall i :: 0 <= i < |worlds| ==> Kept(worlds[i], maps[i], tracked)
  {
    maps := FollowTo(worlds, events, tracked, |events|);
  }

  /** The first `n` events, map by map. */
  ghost predicate Followed(maps: seq<AbsWorld>, worlds: seq<World>, events: seq<Event>, n: nat, tracked: set<LockerId>)
  {
    && |maps| == n + 1 && n < |worlds| && n <= |events|
    && (forall i :: 0 <= i <= n ==> Kept(worlds[i], maps[i], tracked))
    && (forall i :: 0 <= i < n ==> MapStep(maps[i], worlds[i], events[i], maps[i + 1]))
  }

  lemma {:induction false} FollowTo(worlds: seq<World>, events: seq<Event>, tracked: set<LockerId>, n: nat)
    returns (maps: seq<AbsWorld>)
    requires IsRun(worlds, events, tracked) && Initial(worlds[0], tracked) && n <= |events|
    ensures Followed(maps, worlds, events, n, tracked)
    ensures maps[0] == AbsWorld(map id | id in worlds[0].lockers :: Abs(map[], []), map[])
    decreases n
  {
    if n == 0 {
      InitialOk(worlds[0], tracked);
      maps := [AbsWorld(map id | id in worlds[0].lockers :: Abs(map[], []), map[])];
    } else {
      var before := FollowTo(worlds, events, tracked, n - 1);
      maps := FollowOn(before, worlds, events, n - 1, tracked);
    }
  }

  lemma FollowOn(before: seq<AbsWorld>, worlds: seq<World>, events: seq<Event>, n: nat, tracked: set<LockerId>)
    returns (maps: seq<AbsWorld>)
    requires Followed(before, worlds, events, n, tracked)
    requires n + 1 < |worlds| && n < |events| && Takes(worlds[n], events[n], worlds[n + 1], tracked)
    ensures Followed(maps, worlds, events, n + 1, tracked) && maps[0] == before[0]
  {
    var next := Follow(worlds[n], before[n], events[n], worlds[n + 1], tracked);
    maps := before + [next];
    Appended(before, next, worlds, events, n, tracked);
  }

  lemma Appended(before: seq<AbsWorld>, next: AbsWorld, worlds: seq<World>, events: seq<Event>, n: nat,
                 tracked: set<LockerId>)
    requires Followed(before, worlds, events, n, tracked) && n + 1 < |worlds| && n < |events|
    requires Kept(worlds[n + 1], next, tracked) && MapStep(before[n], worlds[n], events[n], next)
    ensures Followed(before + [next], worlds, events, n + 1, tracked)
  {
    var maps := before + [next];
    forall i | 0 <= i <= n + 1 ensures Kept(worlds[i], maps[i], tracked) {
      if i <= n { assert maps[i] == before[i]; }
    }
    forall i | 0 <= i < n + 1 ensures MapStep(maps[i], worlds[i], events[i], maps[i + 1]) {
      if i < n { assert maps[i] == before[i] && maps[i + 1] == before[i + 1]; }
    }
  }

  /**
   What a caller sees in every state of every run: no read is refused, `get` answers what the plain map holds, the
   index lists exactly its keys, and a write that skips reading the old record builds the very ops it would build
   after a read.
   */
  lemma EveryAnswerIsRight(w: World, a: AbsWorld, tracked: set<LockerId>, id: LockerId, k: Key, payload: Payload)
    requires Kept(w, a, tracked) && id in w.lockers
    ensures var b, l, m := w.bank, w.lockers[id], a.lockers[id].Seen();
      && L.Answer(b.store, l, k) == Some(Lookup(m, k))
      && l.index == m.Keys
      && PutBuild(b.store, id, l.cfg.chunkSize, k, payload, FLAG_POSTCARD, L.PriorOf(l, k), b.next)
      == PutBuild(b.store, id, l.cfg.chunkSize, k, payload, FLAG_POSTCARD, Unknown, b.next)
      && DeleteOps(b.store, id, k, L.PriorOf(l, k)) == DeleteOps(b.store, id, k, Unknown)
  {
    var b, l := w.bank, w.lockers[id];
    assert LockerOk(b.store, id, l, tracked) && a.lockers[id] == Abs(View(b.store, id), l.staged);
    AnswerIsVisible(b.store, l, k);
    if k in b.store.Recs(id) { EveryRecordLoads(b.store, w.ws, id, k); }
    FastPathExact(b, l, k, payload);
  }

  lemma EveryRecordLoads(s: Store, ws: Writers, l: LockerId, k: Key)
    requires Owned(s, ws) && Readable(s) && k in s.Recs(l)
    ensures Loads(s, s.Recs(l)[k])
  {
    assert Whole(s, l, k);
    if s.Recs(l)[k].Pointer? { assert ClaimOf(s, ws, ByRecord(l, k)).Some?; }
  }

  /** In every reachable state no record stands in the way of a step, or keeps its chunks from a clear. */
  lemma NothingStandsInTheWay(w: World, tracked: set<LockerId>, id: LockerId, act: Act)
    requires WorldOk(w, tracked) && id in w.lockers
    ensures Unhindered(w, id, act) && Collectable(w.bank.store, id)
  {
    ReadableIsLegible(w.bank.store, id);
  }

  /**
   Chunk ownership in every reachable state: a stored chunk row belongs to exactly one live pointer or unfinished
   writer, which counts it among its own; and a pointer's rows are chunks 0 to its count, adding up to its length.
   */
  lemma EveryChunkHasOneOwner(w: World, tracked: set<LockerId>, v: nat, i: nat) returns (o: Owner)
    requires WorldOk(w, tracked) && i in w.bank.store.Rows(v)
    ensures Claiming(w.bank.store, w.ws, o, v) && i < ClaimOf(w.bank.store, w.ws, o).value.chunks
    ensures forall p :: Claiming(w.bank.store, w.ws, p, v) ==> p == o
  {
    var s := w.bank.store;
    assert !Unclaimed(s, w.ws, v);
    o :| Claiming(s, w.ws, o, v);
    assert ExactRows(s.Rows(v), ClaimOf(s, w.ws, o).value.chunks);
  }

  lemma EveryPointerIsWhole(w: World, tracked: set<LockerId>, l: LockerId, k: Key)
    requires WorldOk(w, tracked) && k in w.bank.store.Recs(l) && w.bank.store.Recs(l)[k].Pointer?
    ensures var p := w.bank.store.Recs(l)[k].ptr;
      && ExactRows(w.bank.store.Rows(p.valueId), p.nChunks)
      && |Join(w.bank.store.Rows(p.valueId), p.nChunks)| == p.totalLen && Parses(p)
      && p.valueId < Cursor(w.bank.store, w.bank.next)
  {
    var s := w.bank.store;
    assert ClaimOf(s, w.ws, ByRecord(l, k)).Some?;
    assert Whole(s, l, k);
  }

  /** A write that is only staged: the store is as it was, and the batch one entry longer. */
  ghost predicate OnlyStaged(w: World, id: LockerId, p: Pending, w1: World)
  {
    && id in w.lockers && id in w1.lockers
    && w1.bank.store == w.bank.store && w1.lockers[id].staged == w.lockers[id].staged + [p]
  }

  /** `batch` is in the store, but for what its commit evicted, and nothing is staged any more. */
  ghost predicate InStore(w: World, id: LockerId, batch: seq<Pending>, evicted: set<Key>, w1: World)
  {
    && id in w1.lockers && w1.lockers[id].staged == []
    && View(w1.bank.store, id) == Overlay(View(w.bank.store, id), batch) - evicted
  }

  /**
   Which configurations stage, and until when. Below the batch size a write is only staged; the write that fills the
   batch commits all of it, or stays staged with the rest; at a batch size of one or none, as without deferral, a
   write is committed on its own or leaves no trace.
   */
  lemma BatchesFillUp(w: World, a: AbsWorld, id: LockerId, p: Pending, fate: L.Fate, w1: World, tracked: set<LockerId>)
    requires Kept(w, a, tracked) && Takes(w, On(id, Write(p, fate)), w1, tracked)
    ensures var l, evicted := w.lockers[id], EvictedBy(w, On(id, Write(p, fate)));
      if l.cfg.commit.Deferred? && l.cfg.commit.after > 1 then
        if |l.staged| + 1 < l.cfg.commit.after || fate.Fails? then OnlyStaged(w, id, p, w1)
        else InStore(w, id, l.staged + [p], evicted, w1)
      else if fate.Fails? then w1.bank.store == w.bank.store && id in w1.lockers && w1.lockers[id].staged == []
      else InStore(w, id, [p], evicted, w1)
  {
    var l := w.lockers[id];
    assert LockerOk(w.bank.store, id, l, tracked) && a.lockers[id] == Abs(View(w.bank.store, id), l.staged);
    LockerStep(w, a, id, Write(p, fate), tracked);
    WriteLeads(w, id, p, fate, w1);
    Unbatched(a.lockers[id], l.cfg, p, fate, EvictedBy(w, On(id, Write(p, fate))));
  }

  lemma WriteLeads(w: World, id: LockerId, p: Pending, fate: L.Fate, w1: World)
    requires Possible(w, On(id, Write(p, fate))) && w1 == Next(w, On(id, Write(p, fate)))
    ensures var o := L.Write(w.bank, w.lockers[id], p, fate);
      && w1.bank == o.bank && id in w1.lockers && w1.lockers[id] == o.locker
      && EvictedBy(w, On(id, Write(p, fate))) == set k | k in o.evicted
    ensures var l := w.lockers[id];
      fate.Fails? || (l.cfg.commit.Deferred? && 1 < l.cfg.commit.after && |l.staged| + 1 < l.cfg.commit.after) ==>
        w1.bank.store == w.bank.store
  {
  }

  /** The plain map's step, by the commit mode alone. */
  lemma Unbatched(m: Abs, cfg: L.Config, p: Pending, fate: L.Fate, evicted: set<Key>)
    ensures AbsLockerNext(m, cfg, Write(p, fate), evicted) ==
      if cfg.commit.Deferred? && cfg.commit.after > 1 then
        if |m.staged| + 1 < cfg.commit.after || fate.Fails? then Abs(m.durable, m.staged + [p])
        else Abs(Overlay(m.durable, m.staged + [p]) - evicted, [])
      else if fate.Fails? then m
      else Abs(Overlay(m.durable, [p]) - evicted, [])
  {
  }

  /**
   What a locker that stages nothing remembers of a write: a put that fits one chunk is marked inline and one that does
   not is unmarked, so the next write of the key needs no look exactly in the first case; a deleted key is off the
   index, and needs none either. No other key's mark changes but by eviction.
   */
  lemma WriteIsRemembered(w: World, id: LockerId, p: Pending, w1: World, tracked: set<LockerId>)
    requires WorldOk(w, tracked) && Takes(w, On(id, Write(p, L.Lands)), w1, tracked) && !p.Clear?
    requires w.lockers[id].cfg.commit.Immediate? || w.lockers[id].cfg.commit.after <= 1
    ensures var l, l1, evicted := w.lockers[id], w1.lockers[id], EvictedBy(w, On(id, Write(p, L.Lands)));
      && (p.Put? ==> p.key in l1.index && (p.key in l1.knownInline <==> |p.payload| <= l.cfg.chunkSize))
      && (p.Delete? ==> p.key !in l1.index && p.key !in l1.knownInline)
      && (L.PriorOf(l1, p.key).Unknown? <==> p.Put? && |p.payload| > l.cfg.chunkSize)
      && (forall j :: j != p.key ==> (j in l1.knownInline <==> j in l.knownInline && j !in evicted))
      && (forall j :: j != p.key ==> (j in l1.index <==> j in l.index && j !in evicted))
  {
    EvictionsSpareTheBatch(w, On(id, Write(p, L.Lands)), tracked);
    WriteLeads(w, id, p, L.Lands, w1);
    SingleActions(p);
  }

  /** A step that fails writes nothing, touches no other locker, and at most leaves its write staged. */
  lemma FailureWritesNothing(w: World, e: Event)
    requires Possible(w, e) && e.On? && Commits(e.act) && e.act.fate.Fails?
    ensures Next(w, e).bank.store == w.bank.store
    ensures forall id :: id in w.lockers && id != e.id ==> Next(w, e).lockers[id] == w.lockers[id]
    ensures var l, l1 := w.lockers[e.id], Next(w, e).lockers[e.id];
      if e.act.Write? && l.cfg.IsDeferred() then l1 == L.Staged(l, e.act.p)
      else l1 == l
  {
    if WriterAct(e.act) {
      assert Next(w, e).lockers == w.lockers;
    }
  }

  /**
   What a step may evict: nothing from a locker without a budget, nothing on a step that failed or that clears,
   and never a key the same commit writes or deletes.
   */
  lemma EvictionsSpareTheBatch(w: World, e: Event, tracked: set<LockerId>)
    requires Possible(w, e) && e.On? && !WriterAct(e.act) && WorldOk(w, tracked)
    ensures EvictedBy(w, e) != {} ==> w.lockers[e.id].lru.Some?
    ensures Commits(e.act) && e.act.fate.Fails? ==> EvictedBy(w, e) == {}
    ensures !e.act.Evict? ==>
              var batch := CommittedBatch(w.lockers[e.id], e.act);
              && (HasClear(batch) ==> EvictedBy(w, e) == {})
              && forall k :: k in EvictedBy(w, e) ==>
                   k !in Actions(Tail(batch)) && k in w.lockers[e.id].lru.value.entries
  {
    var l, batch := w.lockers[e.id], CommittedBatch(w.lockers[e.id], e.act);
    if !e.act.Evict? {
      EvictedUntouched(w.bank, l, batch);
      EvictedByPlan(w, e);
    }
  }

  lemma EvictedByPlan(w: World, e: Event)
    requires Possible(w, e) && e.On? && !WriterAct(e.act) && !e.act.Evict?
    ensures var evicted := LockerOutcome(w, e.id, e.act).evicted;
      evicted == [] ||
      evicted == L.PlanOf(w.bank, w.lockers[e.id], CommittedBatch(w.lockers[e.id], e.act)).plan.victims
  {
  }
}
