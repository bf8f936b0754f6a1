/**
 The engine over bytes: what a read finds in the backend's tables is what the engine's store holds, and whole runs
 of the engine are runs of byte commits.
 */
module Bytewise {
  import opened Wrappers
  import opened Bytes
  import opened Storage
  import opened Ownership
  import opened Inner
  import opened Batches
  import opened Transaction
  import opened Bridge
  import opened Steps
  import Codec
  import Reading
  import KeyRanges
  import ByteStore
  import Paging
  import Listing
  import Runs
  import Lru
  import Budget
  import Streaming
  import L = LockerSteps

  // ---- one read ------------------------------------------------------

  /** The chain gives the payload back. */
  predicate Opens(c: Codec.FilterChain, p: Payload) { Codec.SealOf(c, p).Some? && Codec.InvertsAlong(c.filters, p) }

  /** The chain gives back all that is stored, and every pointer of the locker fits its encoding. */
  ghost predicate Encodable(c: Codec.FilterChain, s: Store, l: LockerId)
  {
    && l <= U32_MAX
    && (forall k :: k in s.Recs(l) ==>
          match s.Recs(l)[k] { case Inline(p) => Opens(c, p) case Pointer(p) => Codec.Fits(p) })
    && (forall v: nat, i: nat :: i in s.Rows(v) ==> Opens(c, s.Rows(v)[i]))
  }

  /** The sealed pieces of a value among the first `n`. */
  function SealedRows(t: ByteStore.Tables, v: nat, n: nat): Reading.Sealed
  {
    map i: nat | i < n && Found(t, ChunkCell(v, i)).Some? :: Found(t, ChunkCell(v, i)).value
  }

  /** Reading a key from the tables: nothing stored, a value, or an error. */
  function ReadStored(c: Codec.FilterChain, t: ByteStore.Tables, l: LockerId, k: Key): Option<Option<Value>>
  {
    match Found(t, RecordCell(l, k))
    case None => Some(None)
    case Some(raw) =>
      match RecordOf(c, raw)
      case None => None
      case Some(Inline(p)) => Some(Some(Value(FLAG_POSTCARD, p)))
      case Some(Pointer(p)) =>
        match Reading.ValueOf(c, SealedRows(t, p.valueId, p.nChunks), p)
        case Some(value) => Some(Some(Value(p.flags, value)))
        case None => None
  }

  /** What is put back together from sealed pieces is what the pieces join to, when none is missing. */
  lemma {:induction false} AssembledFromBytes(c: Codec.FilterChain, t: ByteStore.Tables, s: Store, v: nat, m: nat,
                                              n: nat)
    requires Represents(t, s, c) && v <= U64_MAX && m <= n <= U32_MAX
    requires forall i: nat :: i in s.Rows(v) ==> Opens(c, s.Rows(v)[i])
    ensures Reading.Assembled(c, SealedRows(t, v, n), m) ==
              if AllThere(s.Rows(v), m) then Some(Join(s.Rows(v), m)) else None
    decreases m
  {
    if m > 0 {
      AssembledFromBytes(c, t, s, v, m - 1, n);
      PieceFromBytes(c, t, s, v, m - 1, n);
      OneMoreThere(s.Rows(v), m);
    }
  }

  lemma OneMoreThere(rows: map<nat, Payload>, m: nat)
    requires m > 0
    ensures AllThere(rows, m) <==> AllThere(rows, m - 1) && m - 1 in rows
    ensures m - 1 in rows ==> Join(rows, m) == Join(rows, m - 1) + rows[m - 1]
  {
  }

  lemma PieceFromBytes(c: Codec.FilterChain, t: ByteStore.Tables, s: Store, v: nat, i: nat, n: nat)
    requires Represents(t, s, c) && v <= U64_MAX && i < n <= U32_MAX
    requires i in s.Rows(v) ==> Opens(c, s.Rows(v)[i])
    ensures Reading.PieceAt(c, SealedRows(t, v, n), i) == if i in s.Rows(v) then Some(s.Rows(v)[i]) else None
  {
    assert Found(t, ChunkCell(v, i)) == Held(c, s, ChunkCell(v, i));
    if i in s.Rows(v) { Codec.SealOpens(c, c, s.Rows(v)[i]); }
  }

  /** Reading through the bytes gives what the store holds, and fails exactly where its record does not load. */
  lemma ReadsBack(c: Codec.FilterChain, t: ByteStore.Tables, s: Store, l: LockerId, k: Key)
    requires Represents(t, s, c) && Encodable(c, s, l)
    ensures ReadStored(c, t, l, k) ==
              if k !in s.Recs(l) then Some(None)
              else if Loads(s, s.Recs(l)[k]) then Some(Some(Decode(s, s.Recs(l)[k])))
              else None
  {
    assert Found(t, RecordCell(l, k)) == Held(c, s, RecordCell(l, k));
    if k in s.Recs(l) {
      var r := s.Recs(l)[k];
      RecordReadsBack(c, r);
      if r.Pointer? && Parses(r.ptr) { PointerReadsBack(c, t, s, r.ptr); }
    }
  }

  lemma PointerReadsBack(c: Codec.FilterChain, t: ByteStore.Tables, s: Store, p: ChunkPointer)
    requires Represents(t, s, c) && Codec.Fits(p) && Parses(p)
    requires forall v: nat, i: nat :: i in s.Rows(v) ==> Opens(c, s.Rows(v)[i])
    ensures Reading.ValueOf(c, SealedRows(t, p.valueId, p.nChunks), p) ==
              if Loads(s, Pointer(p)) then Some(Join(s.Rows(p.valueId), p.nChunks)) else None
  {
    AssembledFromBytes(c, t, s, p.valueId, p.nChunks, p.nChunks);
  }

  /** `get` over bytes: the staged answer, or what the tables hold. */
  function GetBytes(c: Codec.FilterChain, t: ByteStore.Tables, l: L.Locker, k: Key): Option<Option<Value>>
  {
    match L.StagedView(l.staged, k)
    case Some(Some(payload)) => Some(Some(Value(FLAG_POSTCARD, payload)))
    case Some(None) => Some(None)
    case None => ReadStored(c, t, l.id, k)
  }

  /** In every reachable state, what `get` reads from the bytes is what the plain map holds. */
  lemma BytesAnswer(w: World, a: AbsWorld, tracked: set<LockerId>, c: Codec.FilterChain, t: ByteStore.Tables,
                    id: LockerId, k: Key)
    requires Runs.Kept(w, a, tracked) && id in w.lockers
    requires Represents(t, w.bank.store, c) && Encodable(c, w.bank.store, id)
    ensures GetBytes(c, t, w.lockers[id], k) == Some(Lookup(a.lockers[id].Seen(), k))
  {
    assert LockerOk(w.bank.store, id, w.lockers[id], tracked);
    Runs.EveryAnswerIsRight(w, a, tracked, id, k, []);
    ReadsBack(c, t, w.bank.store, id, k);
  }

  // ---- a listing -----------------------------------------------------

  /** The values of the keys a walk has visited. */
  function ListedOf(c: Codec.FilterChain, t: ByteStore.Tables, l: LockerId, visits: seq<Paging.Seen>)
    : (items: seq<Listing.Listed>)
    requires forall i :: 0 <= i < |visits| ==> ReadStored(c, t, l, visits[i].key) !in {None, Some(None)}
    ensures |items| == |visits|
    ensures forall i :: 0 <= i < |items| ==>
              items[i] == Listing.Listed(visits[i].key, ReadStored(c, t, l, visits[i].key).value.value)
  {
    seq(|visits|, i requires 0 <= i < |visits| =>
      Listing.Listed(visits[i].key, ReadStored(c, t, l, visits[i].key).value.value))
  }

  /** What a walk visits, read value by value, is exactly what a listing starts from. */
  lemma WalkedIsStored(c: Codec.FilterChain, t: ByteStore.Tables, s: Store, l: LockerId, start: KeyRanges.Bound,
                       end: KeyRanges.Bound, reverse: bool, visits: seq<Paging.Seen>)
    requires Represents(t, s, c) && Encodable(c, s, l) && forall k :: k in s.Recs(l) ==> Loads(s, s.Recs(l)[k])
    requires Paging.SeenKeys(visits) == ByteStore.Ordered(Paging.UserKeys(t.records, l, start, end), reverse)
    ensures forall i :: 0 <= i < |visits| ==> ReadStored(c, t, l, visits[i].key) !in {None, Some(None)}
    ensures Listing.Lists(ListedOf(c, t, l, visits), Listing.Restrict(View(s, l), start, end), reverse, None)
  {
    var m := Listing.Restrict(View(s, l), start, end);
    WalkFeedsListing(t, s, c, l, start, end, reverse);
    forall i | 0 <= i < |visits|
      ensures visits[i].key in m && ReadStored(c, t, l, visits[i].key) == Some(Some(m[visits[i].key]))
    {
      ByteStore.OrderedIs(m.Keys, reverse);
      assert Paging.SeenKeys(visits)[i] in ByteStore.Ordered(m.Keys, reverse);
      ReadsBack(c, t, s, l, visits[i].key);
    }
    assert Listing.Keys(ListedOf(c, t, l, visits)) == Paging.SeenKeys(visits);
  }

  // ---- whole runs ----------------------------------------------------

  ghost function FlushOps(b: L.Bank, l: L.Locker): seq<Storage.Op>
    requires l.cfg.chunkSize >= 1
  {
    if l.staged == [] then [] else CommitOps(b, l, l.staged)
  }

  ghost function CommitOps(b: L.Bank, l: L.Locker, batch: seq<Pending>): seq<Storage.Op>
    requires l.cfg.chunkSize >= 1
  {
    BatchOps(b.store, l.id, l.cfg.chunkSize, batch, b.next).ops + L.ExtraOps(b, l, batch)
  }

  ghost function WriteOps(b: L.Bank, l: L.Locker, p: Pending): seq<Storage.Op>
    requires l.cfg.chunkSize >= 1
  {
    if !l.cfg.IsDeferred() then L.ImmediateBuild(b, l, p).ops + L.ExtraOps(b, l, [p])
    else if |l.staged| + 1 >= l.cfg.commit.after then FlushOps(b, L.Staged(l, p))
    else []
  }

  ghost function EvictOps(b: L.Bank, l: L.Locker, limit: nat): seq<Storage.Op>
  {
    if l.lru.None? then []
    else VictimsOf(b, l, PlanVictims(l.lru.value, limit))
  }

  ghost function PlanVictims(a: Budget.LruState, limit: nat): seq<Key>
  {
    Lru.PlanFor(a.entries, a.total, [], [], false, limit, []).victims
  }

  ghost function VictimsOf(b: L.Bank, l: L.Locker, victims: seq<Key>): seq<Storage.Op>
  {
    Budget.VictimOps(b.store, l.id, victims)
  }

  /** The ops an event commits; nothing, when it fails or only reads. */
  ghost function OpsOf(w: World, e: Event): seq<Storage.Op>
    requires Possible(w, e)
  {
    if e.Restart? || !Commits(e.act) || e.act.fate.Fails? then []
    else
      var b, l := w.bank, w.lockers[e.id];
      match e.act
      case Write(p, _) => WriteOps(b, l, p)
      case Transact(tx, _) => if tx == [] then [] else CommitOps(b, l, l.staged + tx)
      case Flush(_) => FlushOps(b, l)
      case Evict(limit, _) => EvictOps(b, l, limit)
      case Start(_, _, _) => [PutNextId(Cursor(b.store, b.next) + 1)]
      case FlushPiece(h, _) =>
        [Streaming.PieceOp(w.ws[h], w.ws[h].buf[..NextPiece(w.ws[h].buf, l.cfg.chunkSize)])]
      case Publish(h, _) => Streaming.PublishOps(w.looks[h], w.ws[h])
      case Abort(h, _) => [DropChunks(w.ws[h].valueId)]
  }

  /** A step changes the store by its ops and nothing else. */
  lemma StepIsOps(w: World, e: Event)
    requires Possible(w, e)
    ensures Next(w, e).bank.store == ApplyAll(w.bank.store, OpsOf(w, e))
  {
    if e.On? && !WriterAct(e.act) { LockerStepIsOps(w, e.id, e.act); }
  }

  lemma LockerStepIsOps(w: World, id: LockerId, a: Act)
    requires Possible(w, On(id, a)) && !WriterAct(a)
    ensures LockerOutcome(w, id, a).bank.store == ApplyAll(w.bank.store, OpsOf(w, On(id, a)))
  {
    match a
    case Evict(limit, fate) => EvictIsOps(w.bank, w.lockers[id], limit, fate);
    case _ =>
  }

  lemma EvictIsOps(b: L.Bank, l: L.Locker, limit: nat, fate: L.Fate)
    ensures L.EvictTo(b, l, limit, fate).bank.store ==
              if fate.Fails? then b.store else ApplyAll(b.store, EvictOps(b, l, limit))
  {
    if l.lru.Some? && PlanVictims(l.lru.value, limit) == [] { assert VictimsOf(b, l, []) == []; }
  }

  /** The tables follow the run, commit by commit. */
  ghost predicate ByteRun(tables: seq<ByteStore.Tables>, worlds: seq<World>, events: seq<Event>, c: Codec.FilterChain,
                          tracked: set<LockerId>)
    requires Runs.IsRun(worlds, events, tracked)
  {
    && |tables| == |worlds|
    && forall i :: 0 <= i < |events| ==> ByteStep(tables[i], tables[i + 1], worlds[i], events[i], c)
  }

  ghost predicate ByteStep(t: ByteStore.Tables, u: ByteStore.Tables, w: World, e: Event, c: Codec.FilterChain)
  {
    Possible(w, e) && u == ByteStore.ApplyAll(t, EncodedAll(c, OpsOf(w, e)))
  }

  /** Every number an event's ops hold fits the width it is stored in. */
  ghost predicate FitsWidths(w: World, e: Event)
  {
    Possible(w, e) && forall op :: op in OpsOf(w, e) ==> LegalOp(op)
  }

  /** Over any run, the byte commits leave tables that hold exactly the engine's store, in every state. */
  lemma RunRepresents(tables: seq<ByteStore.Tables>, worlds: seq<World>, events: seq<Event>, c: Codec.FilterChain,
                      tracked: set<LockerId>)
    requires Runs.IsRun(worlds, events, tracked) && ByteRun(tables, worlds, events, c, tracked)
    requires Runs.Initial(worlds[0], tracked) && tables[0] == ByteStore.EMPTY_TABLES
    requires forall i :: 0 <= i < |events| ==> FitsWidths(worlds[i], events[i])
    ensures forall i :: 0 <= i < |worlds| ==> Represents(tables[i], worlds[i].bank.store, c)
  {
    EmptyRepresents(c);
    for n := 0 to |events|
      invariant forall i :: 0 <= i <= n ==> Represents(tables[i], worlds[i].bank.store, c)
    {
      assert Runs.Takes(worlds[n], events[n], worlds[n + 1], tracked);
      assert ByteStep(tables[n], tables[n + 1], worlds[n], events[n], c);
      assert FitsWidths(worlds[n], events[n]);
      StepRepresents(tables[n], worlds[n], events[n], c);
    }
  }

  lemma StepRepresents(t: ByteStore.Tables, w: World, e: Event, c: Codec.FilterChain)
    requires FitsWidths(w, e) && Represents(t, w.bank.store, c)
    ensures Represents(ByteStore.ApplyAll(t, EncodedAll(c, OpsOf(w, e))), Next(w, e).bank.store, c)
  {
    StepIsOps(w, e);
    CommitSimulates(t, w.bank.store, c, OpsOf(w, e));
  }
}
