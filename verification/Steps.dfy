/**
 The engine as a state machine: any number of lazy lockers and streaming writers over one store, any of their
 steps landing or failing, lockers reopened and the bank restarted at any point. Each step of a locker keeps the
 engine's invariants and does what the same step does to a plain map; `Runs` follows whole runs.
 */
module Steps {
  import opened Wrappers
  import opened Bytes
  import opened Storage
  import opened Ownership
  import opened Inner
  import opened Batches
  import opened Transaction
  import opened Lru
  import opened Budget
  import opened LogicalClock
  import opened Streaming
  import opened Invariants
  import ValueIdCursor
  import L = LockerSteps

  // ---- the engine ----------------------------------------------------

  /** `looks` holds, for each writer about to publish, the pointer id it found under its key. */
  datatype World = World(bank: L.Bank, ws: Writers, lockers: map<LockerId, L.Locker>, looks: map<nat, Option<nat>>)

  datatype Act =
    | Write(p: Pending, fate: L.Fate)
    | Transact(tx: seq<Pending>, fate: L.Fate)
    | Flush(fate: L.Fate)
    | Evict(limit: nat, fate: L.Fate)
    | Get(key: Key)
    | Reopen(cfg: L.Config)
    | Start(h: nat, key: Key, fate: L.Fate)
    | Feed(h: nat, bytes: Payload)
    | FlushPiece(h: nat, fate: L.Fate)
    | Look(h: nat)
    | Publish(h: nat, fate: L.Fate)
    | Abort(h: nat, fate: L.Fate)

  /** A step of one locker, or the whole bank closing and opening again. */
  datatype Event = On(id: LockerId, act: Act) | Restart(cfgs: map<LockerId, L.Config>)

  predicate WriterAct(a: Act)
  {
    a.Start? || a.Feed? || a.FlushPiece? || a.Look? || a.Publish? || a.Abort?
  }

  /** The step tries to commit, so it can fail. */
  predicate Commits(a: Act) { !a.Get? && !a.Reopen? && !a.Feed? && !a.Look? }

  ghost function LockerOutcome(w: World, id: LockerId, a: Act): L.Outcome
    requires id in w.lockers && w.lockers[id].cfg.chunkSize >= 1 && !WriterAct(a)
  {
    var l := w.lockers[id];
    match a
    case Write(p, fate) => L.Write(w.bank, l, p, fate)
    case Transact(tx, fate) => L.Transact(w.bank, l, tx, fate)
    case Flush(fate) => L.Flush(w.bank, l, fate)
    case Evict(limit, fate) => L.EvictTo(w.bank, l, limit, fate)
    case Get(k) => L.Get(w.bank, l, k)
    case Reopen(cfg) => L.Outcome(L.Reopened(w.bank, id, cfg), L.Open(w.bank.store, id, cfg), true, [])
  }

  function NextPiece(buf: Payload, chunkSize: nat): nat { if |buf| < chunkSize then |buf| else chunkSize }

  function AfterFailure(b: L.Bank, fate: L.Fate): L.Bank
    requires fate.Fails?
  {
    L.Bank(b.store, fate.next, fate.ticks)
  }

  /** A writer takes a fresh value id, persisted past before anything else. */
  ghost function Started(w: World, id: LockerId, h: nat, key: Key): World
  {
    var v := Cursor(w.bank.store, w.bank.next);
    w.(bank := w.bank.(store := ApplyAll(w.bank.store, [PutNextId(v + 1)]), next := Some(v + 1)),
       ws := w.ws[h := WriterState(id, key, v, 0, 0, [])])
  }

  function Fed(w: World, h: nat, bytes: Payload): World
    requires h in w.ws
  {
    w.(ws := w.ws[h := w.ws[h].(buf := w.ws[h].buf + bytes, totalLen := w.ws[h].totalLen + |bytes|)])
  }

  /** The next `n` buffered bytes become a chunk row. */
  function Flushed(w: World, h: nat, n: nat): World
    requires h in w.ws && n <= |w.ws[h].buf|
  {
    var s := w.ws[h];
    w.(bank := w.bank.(store := ApplyAll(w.bank.store, [PieceOp(s, s.buf[..n])])),
       ws := w.ws[h := s.(buf := s.buf[n..], seqNo := s.seqNo + 1)])
  }

  /** The piece leaves the buffer before its commit is attempted. */
  function Lost(w: World, h: nat, n: nat, fate: L.Fate): World
    requires h in w.ws && n <= |w.ws[h].buf| && fate.Fails?
  {
    w.(bank := AfterFailure(w.bank, fate), ws := w.ws[h := w.ws[h].(buf := w.ws[h].buf[n..])])
  }

  /** A finishing writer reads the record it is about to replace; nothing holds others off until it commits. */
  function Looked(w: World, h: nat): World
    requires h in w.ws
  {
    w.(looks := w.looks[h := PointerId(RecordAt(w.bank.store, w.ws[h].locker, w.ws[h].key))])
  }

  function Published(w: World, id: LockerId, h: nat): World
    requires h in w.ws && id in w.lockers && h in w.looks
  {
    var l, key := w.lockers[id], w.ws[h].key;
    World(w.bank.(store := ApplyAll(w.bank.store, PublishOps(w.looks[h], w.ws[h]))), w.ws - {h},
          w.lockers[id := l.(index := l.index + {key}, knownInline := l.knownInline - {key})], w.looks - {h})
  }

  function Aborted(w: World, h: nat): World
    requires h in w.ws
  {
    w.(bank := w.bank.(store := ApplyAll(w.bank.store, [DropChunks(w.ws[h].valueId)])), ws := w.ws - {h})
  }

  ghost function WriterNext(w: World, id: LockerId, a: Act): World
    requires id in w.lockers && w.lockers[id].cfg.chunkSize >= 1 && WriterAct(a)
    requires (!a.Start? ==> a.h in w.ws) && (a.Publish? ==> a.h in w.looks)
  {
    var failed := if !Commits(a) || a.fate.Lands? then w else w.(bank := AfterFailure(w.bank, a.fate));
    match a
    case Start(h, key, fate) => if fate.Fails? then failed else Started(w, id, h, key)
    case Feed(h, bytes) => Fed(w, h, bytes)
    case FlushPiece(h, fate) =>
      var n := NextPiece(w.ws[h].buf, w.lockers[id].cfg.chunkSize);
      if fate.Fails? then Lost(w, h, n, fate) else Flushed(w, h, n)
    case Look(h) => Looked(w, h)
    case Publish(h, fate) => if fate.Fails? then failed else Published(w, id, h)
    case Abort(h, fate) => if fate.Fails? then failed else Aborted(w, h)
  }

  /** Every tick in the budget rows of the lockers opened evictable. */
  function RowTicks(s: Store, cfgs: map<LockerId, L.Config>): set<nat>
  {
    set id, k | id in cfgs && cfgs[id].budget.Some? && k in s.LruRows(id) :: s.LruRows(id)[k].tick
  }

  /** The clock of a bank just opened: raised above every row read back, and not yet seeded. */
  ghost function FirstTicks(s: Store, cfgs: map<LockerId, L.Config>): TickState
  {
    TickState(None, ValueIdCursor.FloorOf(RowTicks(s, cfgs)))
  }

  ghost function Next(w: World, e: Event): World
    requires Possible(w, e)
  {
    match e
    case Restart(cfgs) =>
      w.(bank := L.Bank(w.bank.store, None, FirstTicks(w.bank.store, cfgs)),
         lockers := map id | id in w.lockers :: L.Open(w.bank.store, id, cfgs[id]))
    case On(id, a) =>
      if WriterAct(a) then WriterNext(w, id, a)
      else
        var o := LockerOutcome(w, id, a);
        w.(bank := o.bank, lockers := w.lockers[id := o.locker])
  }

  ghost function EvictedBy(w: World, e: Event): set<Key>
    requires Possible(w, e)
  {
    if e.On? && !WriterAct(e.act) then set k | k in LockerOutcome(w, e.id, e.act).evicted else {}
  }

  /** The records a step reads back before it commits. */
  ghost function ReadsOf(w: World, id: LockerId, a: Act): set<Key>
    requires id in w.lockers
  {
    var b, l := w.bank, w.lockers[id];
    match a
    case Write(p, _) => L.WriteReads(b, l, p)
    case Transact(tx, _) => L.TransactReads(b, l, tx)
    case Flush(_) => L.FlushReads(b, l)
    case Evict(limit, _) => L.EvictReads(l, limit)
    case Look(h) => if h in w.ws then {w.ws[h].key} else {}
    case _ => {}
  }

  /** Nothing the step reads back stops it. */
  ghost predicate Unhindered(w: World, id: LockerId, a: Act)
    requires id in w.lockers
  {
    (Commits(a) && a.fate.Fails?) || L.AllLegible(w.bank.store, id, ReadsOf(w, id, a))
  }

  /** The step exists in this state. */
  ghost predicate Possible(w: World, e: Event)
  {
    && (e.Restart? ==> e.cfgs.Keys == w.lockers.Keys && forall id :: id in e.cfgs ==> e.cfgs[id].chunkSize >= 1)
    && (e.On? ==>
      && e.id in w.lockers && w.lockers[e.id].cfg.chunkSize >= 1
      && (WriterAct(e.act) ==> WriterMay(w, e.id, e.act))
      && (e.act.Reopen? ==> e.act.cfg.chunkSize >= 1)
      && (Commits(e.act) ==> L.Admissible(w.bank, e.act.fate))
      && Unhindered(w, e.id, e.act))
  }

  /** Once a writer has begun to finish, publishing is all it can do. */
  ghost predicate WriterMay(w: World, id: LockerId, a: Act)
    requires WriterAct(a)
  {
    && (if a.Start? then a.h !in w.ws else a.h in w.ws && w.ws[a.h].locker == id)
    && (if a.Publish? then a.h in w.looks else a.h !in w.looks)
    && (a.FlushPiece? ==> w.ws[a.h].buf != [])
    && (a.Look? || a.Publish? ==> w.ws[a.h].buf == [])
  }

  // ---- the plain map it behaves as -----------------------------------

  /** A locker's committed contents, and the writes it has staged since. */
  datatype Abs = Abs(durable: Contents, staged: seq<Pending>)
  {
    function Seen(): Contents { Overlay(durable, staged) }
  }

  /** A streaming write in progress; `torn` once a flush has failed and its piece is lost. */
  datatype AbsWriter = AbsWriter(locker: LockerId, key: Key, sent: Payload, torn: bool)

  datatype AbsWorld = AbsWorld(lockers: map<LockerId, Abs>, writers: map<nat, AbsWriter>)

  function Committed(a: Abs, batch: seq<Pending>, evicted: set<Key>): Abs
  {
    Abs(Overlay(a.durable, batch) - evicted, [])
  }

  function AbsLockerNext(a: Abs, cfg: L.Config, act: Act, evicted: set<Key>): Abs
    requires !WriterAct(act)
  {
    match act
    case Write(p, fate) =>
      var staged := a.staged + [p];
      if !cfg.IsDeferred() then (if fate.Lands? then Committed(a, [p], evicted) else a)
      else if |staged| >= cfg.commit.after && fate.Lands? then Committed(a, staged, evicted)
      else Abs(a.durable, staged)
    case Transact(tx, fate) => if tx != [] && fate.Lands? then Committed(a, a.staged + tx, evicted) else a
    case Flush(fate) => if a.staged != [] && fate.Lands? then Committed(a, a.staged, evicted) else a
    case Evict(_, fate) => Abs(a.durable - evicted, a.staged)
    case Get(_) => a
    case Reopen(_) => Abs(a.durable, [])
  }

  function AbsFed(a: AbsWorld, h: nat, bytes: Payload): AbsWorld
    requires h in a.writers
  {
    a.(writers := a.writers[h := a.writers[h].(sent := a.writers[h].sent + bytes)])
  }

  function AbsTorn(a: AbsWorld, h: nat): AbsWorld
    requires h in a.writers
  {
    a.(writers := a.writers[h := a.writers[h].(torn := true)])
  }

  function AbsPublished(a: AbsWorld, id: LockerId, h: nat): AbsWorld
    requires h in a.writers && id in a.lockers
  {
    var m, w := a.lockers[id], a.writers[h];
    AbsWorld(a.lockers[id := m.(durable := m.durable[w.key := Value(FLAG_RAW, w.sent)])], a.writers - {h})
  }

  predicate AbsEnabled(a: AbsWorld, cfgs: map<LockerId, L.Config>, e: Event)
  {
    e.On? ==> e.id in a.lockers && e.id in cfgs && (WriterAct(e.act) && !e.act.Start? ==> e.act.h in a.writers)
  }

  function AbsNext(a: AbsWorld, cfgs: map<LockerId, L.Config>, e: Event, evicted: set<Key>): AbsWorld
    requires AbsEnabled(a, cfgs, e)
  {
    match e
    case Restart(_) => a.(lockers := map id | id in a.lockers :: Abs(a.lockers[id].durable, []))
    case On(id, act) =>
      match act
      case Start(h, key, fate) =>
        if fate.Fails? then a else a.(writers := a.writers[h := AbsWriter(id, key, [], false)])
      case Feed(h, bytes) => AbsFed(a, h, bytes)
      case FlushPiece(h, fate) => if fate.Fails? then AbsTorn(a, h) else a
      case Look(h) => a
      case Publish(h, fate) => if fate.Fails? then a else AbsPublished(a, id, h)
      case Abort(h, fate) => if fate.Fails? then a else a.(writers := a.writers - {h})
      case _ => a.(lockers := a.lockers[id := AbsLockerNext(a.lockers[id], cfgs[id], act, evicted)])
  }

  // ---- invariants ----------------------------------------------------

  /** Every byte handed to the writer is flushed or buffered, unless one flush was lost; no flushed piece is empty. */
  ghost predicate WriterMatches(s: Store, w: WriterState, a: AbsWriter)
  {
    && a.locker == w.locker && a.key == w.key
    && w.seqNo <= |Join(s.Rows(w.valueId), w.seqNo)|
    && |Join(s.Rows(w.valueId), w.seqNo)| + |w.buf| <= w.totalLen
    && (a.torn <==> !Intact(s, w))
    && (!a.torn ==> Sent(s, w) == a.sent)
  }

  ghost predicate LockerOk(s: Store, id: LockerId, l: L.Locker, tracked: set<LockerId>)
  {
    l.id == id && ResidentOk(s, l) && (id in tracked ==> l.lru.Some? && AccountsOk(s, id, l.lru.value))
  }

  /** What a finishing writer saw is still the key's, or nobody's, and will never be anybody's again. */
  ghost predicate LooksOk(s: Store, ws: Writers, looks: map<nat, Option<nat>>)
  {
    forall h :: h in looks ==> h in ws && LookOk(s, ws, ws[h].locker, ws[h].key, looks[h])
  }

  ghost predicate LookOk(s: Store, ws: Writers, l: LockerId, k: Key, seen: Option<nat>)
  {
    Settled(s, ws, l, k, seen) && (seen.Some? ==> seen.value < Stored(s))
  }

  /** `tracked` lockers are always opened evictable and never streamed into. */
  ghost predicate WorldOk(w: World, tracked: set<LockerId>)
  {
    && BankOk(w.bank, w.ws) && LooksOk(w.bank.store, w.ws, w.looks)
    && LockersOk(w.bank.store, w.lockers, tracked)
  }

  ghost predicate LockersOk(s: Store, lockers: map<LockerId, L.Locker>, tracked: set<LockerId>)
  {
    forall id :: id in lockers ==> LockerOk(s, id, lockers[id], tracked)
  }

  ghost predicate Refines(w: World, a: AbsWorld)
  {
    LockersMatch(w.bank.store, w.lockers, a.lockers) && WritersMatch(w.bank.store, w.ws, a.writers)
  }

  ghost predicate LockersMatch(s: Store, lockers: map<LockerId, L.Locker>, maps: map<LockerId, Abs>)
  {
    && maps.Keys == lockers.Keys
    && forall id :: id in lockers ==> maps[id] == Abs(View(s, id), lockers[id].staged)
  }

  ghost predicate WritersMatch(s: Store, ws: Writers, writers: map<nat, AbsWriter>)
  {
    writers.Keys == ws.Keys && forall h :: h in ws ==> WriterMatches(s, ws[h], writers[h])
  }

  function Configs(w: World): map<LockerId, L.Config>
  {
    map id | id in w.lockers :: w.lockers[id].cfg
  }

  /** The batch a step tries to commit. */
  function CommittedBatch(l: L.Locker, a: Act): seq<Pending>
  {
    match a
    case Write(p, _) =>
      if !l.cfg.IsDeferred() then [p]
      else if |l.staged| + 1 >= l.cfg.commit.after then l.staged + [p] else []
    case Transact(tx, _) => if tx == [] then [] else l.staged + tx
    case Flush(_) => l.staged
    case _ => []
  }

  /** No staged write would bring an evicted key back. */
  ghost predicate EvictsCleanly(l: L.Locker, victims: seq<Key>)
  {
    forall v :: v in victims ==> L.StagedView(l.staged, v) == None || L.StagedView(l.staged, v) == Some(None)
  }

  /**
   What a caller must respect for the promises to hold: no value longer than a reader takes on; no `evict_to` over
   staged writes of its victims; a streamed value is published only if every flush landed, no staged delete hides
   its key and no chunked value was put there since the writer looked; and, for exact byte totals, no key deleted
   twice in a row in one batch, no streaming into a budgeted locker, and no value of 4 GiB or more when its budget
   rows are read back.
   */
  ghost predicate Respected(w: World, e: Event, tracked: set<LockerId>)
    requires Possible(w, e)
  {
    && (e.Restart? ==>
          forall id :: id in w.lockers && id in tracked ==> e.cfgs[id].budget.Some? && SmallValues(w.bank.store, id))
    && (e.On? ==>
      var l := w.lockers[e.id];
      && (e.act.Reopen? && e.id in tracked ==> e.act.cfg.budget.Some? && SmallValues(w.bank.store, e.id))
      && (e.act.Write? ==> Bounded([e.act.p]))
      && (e.act.Transact? ==> Bounded(e.act.tx))
      && (e.act.Evict? ==> EvictsCleanly(l, LockerOutcome(w, e.id, e.act).evicted))
      && (e.act.Publish? ==>
            && Publishable(w.bank.store, l, w.ws[e.act.h], w.looks[e.act.h])
            && e.id !in tracked)
      && (e.id in tracked && !WriterAct(e.act) ==> Countable(w.bank, l, CommittedBatch(l, e.act))))
  }

  ghost predicate Publishable(s: Store, l: L.Locker, w: WriterState, seen: Option<nat>)
  {
    && Intact(s, w) && w.totalLen <= MAX_DECODED_BYTES
    && Current(s, w.locker, w.key, seen)
    && L.StagedView(l.staged, w.key) != Some(None)
  }

  /** Every stored size fits the 32 bits of a budget row. */
  ghost predicate SmallValues(s: Store, id: LockerId)
  {
    forall k :: k in View(s, id) ==> |View(s, id)[k].payload| <= U32_MAX
  }

  // ---- one locker step -----------------------------------------------

  /** The outcome `o` of a step of locker `id` keeps every invariant and leaves `want`. */
  ghost predicate Stepped(s: Store, ws: Writers, id: LockerId, o: L.Outcome, want: Abs, tracked: set<LockerId>)
  {
    && BankOk(o.bank, ws)
    && LockerOk(o.bank.store, id, o.locker, tracked)
    && OthersKept(s, o.bank.store, id) && WritersKept(s, o.bank.store, ws) && FreshOnly(s, o.bank.store, id)
    && Abs(View(o.bank.store, id), o.locker.staged) == want
  }

  lemma FailureOk(b: L.Bank, ws: Writers, fate: L.Fate)
    requires BankOk(b, ws) && fate.Fails? && L.Admissible(b, fate)
    ensures BankOk(AfterFailure(b, fate), ws)
  {
  }

  lemma StayedPut(b: L.Bank, ws: Writers, id: LockerId, l: L.Locker, o: L.Outcome, tracked: set<LockerId>)
    requires BankOk(o.bank, ws) && LockerOk(b.store, id, l, tracked) && o.bank.store == b.store && o.locker == l
    ensures Stepped(b.store, ws, id, o, Abs(View(b.store, id), l.staged), tracked)
  {
  }

  lemma FailedStep(b: L.Bank, ws: Writers, id: LockerId, l: L.Locker, fate: L.Fate, tracked: set<LockerId>)
    requires BankOk(b, ws) && LockerOk(b.store, id, l, tracked) && fate.Fails? && L.Admissible(b, fate)
    ensures Stepped(b.store, ws, id, L.Failed(b, l, fate), Abs(View(b.store, id), l.staged), tracked)
  {
    FailureOk(b, ws, fate);
    StayedPut(b, ws, id, l, L.Failed(b, l, fate), tracked);
  }

  /** One landed commit, `l1` being the locker with its index updated and nothing staged. */
  lemma LandedStep(b: L.Bank, ws: Writers, id: LockerId, l: L.Locker, l1: L.Locker, batch: seq<Pending>, main: Build,
                   tracked: set<LockerId>)
    requires BankOk(b, ws) && LockerOk(b.store, id, l, tracked)
    requires l1 == l.(staged := [], index := l1.index, knownInline := l1.knownInline)
    requires Builds(b.store, ws, id, batch, main, b.next)
    requires l1.index == Overlay(View(b.store, id), batch).Keys
    requires l.cfg.IsDeferred() ==> l1.knownInline == {}
    requires forall k :: k in l1.knownInline ==>
               var t := ApplyAll(b.store, main.ops); k in t.Recs(id) && t.Recs(id)[k].Inline?
    requires id in tracked ==> Countable(b, l, batch)
    ensures var o := L.Landed(b, l1, main, batch);
      Stepped(b.store, ws, id, o, Abs(Overlay(View(b.store, id), batch) - (set k | k in o.evicted), []), tracked)
  {
    CommitEffect(b, ws, l1, batch, main);
    LandedResident(b, ws, l1, batch, main);
    if id in tracked {
      AccountsAfter(b, ws, l1, batch, main);
    }
  }

  lemma FlushStep(b: L.Bank, ws: Writers, id: LockerId, l: L.Locker, fate: L.Fate, tracked: set<LockerId>)
    requires BankOk(b, ws) && LockerOk(b.store, id, l, tracked) && L.Admissible(b, fate)
    requires id in tracked && fate.Lands? ==> Countable(b, l, l.staged)
    ensures var o := L.Flush(b, l, fate);
            var a := Abs(View(b.store, id), l.staged);
      Stepped(b.store, ws, id, o, AbsLockerNext(a, l.cfg, Flush(fate), set k | k in o.evicted), tracked)
  {
    if l.staged == [] {
      StayedPut(b, ws, id, l, L.Outcome(b, l, true, []), tracked);
    } else if fate.Fails? {
      FailedStep(b, ws, id, l, fate, tracked);
    } else {
      BatchBuilds(b, ws, l, l.staged);
      var main := BatchOps(b.store, id, l.cfg.chunkSize, l.staged, b.next);
      LandedStep(b, ws, id, l, l.(staged := []), l.staged, main, tracked);
    }
  }

  /** Staging a write keeps the locker in step: index and contents move together. */
  lemma StagedOk(s: Store, id: LockerId, l: L.Locker, p: Pending, tracked: set<LockerId>)
    requires LockerOk(s, id, l, tracked) && l.cfg.IsDeferred() && Bounded([p])
    ensures LockerOk(s, id, L.Staged(l, p), tracked)
    ensures Visible(s, L.Staged(l, p)) == Replay(Visible(s, l), p)
  {
    StagedResident(s, l, p);
  }

  lemma StagedResident(s: Store, l: L.Locker, p: Pending)
    requires ResidentOk(s, l) && l.cfg.IsDeferred() && Bounded([p])
    ensures ResidentOk(s, L.Staged(l, p)) && Visible(s, L.Staged(l, p)) == Replay(Visible(s, l), p)
  {
    var l1 := L.Staged(l, p);
    assert Visible(s, l1) == Replay(Visible(s, l), p) by {
      OverlayAppend(View(s, l.id), l.staged, [p]);
      OverlayOne(Visible(s, l), p);
    }
    assert l1.index == Visible(s, l1).Keys by { ReplayKeys(Visible(s, l), p); }
    assert l1.knownInline == {};
    BoundedAppend(l.staged, [p]);
  }

  lemma BoundedAppend(a: seq<Pending>, b: seq<Pending>)
    requires Bounded(a) && Bounded(b)
    ensures Bounded(a + b)
  {
  }

  lemma ReplayKeys(m: Contents, p: Pending)
    ensures L.IndexAfter(m.Keys, p) == Replay(m, p).Keys
  {
  }

  lemma WriteStep(b: L.Bank, ws: Writers, id: LockerId, l: L.Locker, p: Pending, fate: L.Fate, tracked: set<LockerId>)
    requires BankOk(b, ws) && LockerOk(b.store, id, l, tracked) && L.Admissible(b, fate) && Bounded([p])
    requires id in tracked ==> Countable(b, l, CommittedBatch(l, Write(p, fate)))
    ensures var o := L.Write(b, l, p, fate);
            var a := Abs(View(b.store, id), l.staged);
      Stepped(b.store, ws, id, o, AbsLockerNext(a, l.cfg, Write(p, fate), set k | k in o.evicted), tracked)
  {
    if l.cfg.IsDeferred() {
      DeferStep(b, ws, id, l, p, fate, tracked);
    } else if fate.Fails? {
      FailedStep(b, ws, id, l, fate, tracked);
    } else {
      ImmediateStep(b, ws, id, l, p, tracked);
    }
  }

  lemma DeferStep(b: L.Bank, ws: Writers, id: LockerId, l: L.Locker, p: Pending, fate: L.Fate, tracked: set<LockerId>)
    requires BankOk(b, ws) && LockerOk(b.store, id, l, tracked) && L.Admissible(b, fate) && Bounded([p])
    requires l.cfg.IsDeferred() && (id in tracked ==> Countable(b, l, CommittedBatch(l, Write(p, fate))))
    ensures var o := L.Defer(b, l, p, fate);
            var a := Abs(View(b.store, id), l.staged);
      Stepped(b.store, ws, id, o, AbsLockerNext(a, l.cfg, Write(p, fate), set k | k in o.evicted), tracked)
  {
    var l1 := L.Staged(l, p);
    StagedOk(b.store, id, l, p, tracked);
    if |l1.staged| >= l.cfg.commit.after {
      FullBatchStep(b, ws, id, l, l1, p, fate, tracked);
    } else {
      StayedPut(b, ws, id, l1, L.Outcome(b, l1, true, []), tracked);
    }
  }

  lemma FullBatchStep(b: L.Bank, ws: Writers, id: LockerId, l: L.Locker, l1: L.Locker, p: Pending, fate: L.Fate,
                      tracked: set<LockerId>)
    requires BankOk(b, ws) && LockerOk(b.store, id, l1, tracked) && L.Admissible(b, fate)
    requires l1 == L.Staged(l, p) && (id in tracked ==> Countable(b, l, l1.staged))
    ensures var o := L.Flush(b, l1, fate);
            var want := if fate.Fails? then Abs(View(b.store, id), l1.staged)
                        else Committed(Abs(View(b.store, id), l.staged), l1.staged, set k | k in o.evicted);
      Stepped(b.store, ws, id, o, want, tracked)
  {
    if id in tracked { SamePlan(b, l, l1, l1.staged); }
    FlushStep(b, ws, id, l1, fate, tracked);
    FlushedFull(Abs(View(b.store, id), l.staged), l1.cfg, l1.staged, fate, set k | k in L.Flush(b, l1, fate).evicted);
  }

  lemma FlushedFull(a: Abs, cfg: L.Config, staged: seq<Pending>, fate: L.Fate, evicted: set<Key>)
    requires staged != []
    ensures AbsLockerNext(Abs(a.durable, staged), cfg, Flush(fate), evicted)
         == if fate.Fails? then Abs(a.durable, staged) else Committed(a, staged, evicted)
  {
  }

  lemma SamePlan(b: L.Bank, l: L.Locker, l1: L.Locker, batch: seq<Pending>)
    requires l1.lru == l.lru && Countable(b, l, batch)
    ensures Countable(b, l1, batch)
  {
  }

  lemma ImmediateStep(b: L.Bank, ws: Writers, id: LockerId, l: L.Locker, p: Pending, tracked: set<LockerId>)
    requires BankOk(b, ws) && LockerOk(b.store, id, l, tracked) && !l.cfg.IsDeferred() && Bounded([p])
    requires id in tracked ==> Countable(b, l, [p])
    ensures var o := L.Write(b, l, p, L.Lands);
      Stepped(b.store, ws, id, o, Abs(Overlay(View(b.store, id), [p]) - (set k | k in o.evicted), []), tracked)
  {
    var l1 := l.(index := L.IndexAfter(l.index, p), knownInline := L.InlineAfter(l, p));
    var main := L.ImmediateBuild(b, l, p);
    ImmediateBuilds(b, ws, l, p);
    OverlayOne(View(b.store, id), p);
    InlineStays(b, ws, l, p);
    LandedStep(b, ws, id, l, l1, [p], main, tracked);
  }

  /** A marker set by this write, or left from before it, still names an inline record. */
  lemma InlineStays(b: L.Bank, ws: Writers, l: L.Locker, p: Pending)
    requires BankOk(b, ws) && ResidentOk(b.store, l) && Bounded([p])
    ensures forall k :: k in L.InlineAfter(l, p) ==>
              var t := ApplyAll(b.store, L.ImmediateBuild(b, l, p).ops); k in t.Recs(l.id) && t.Recs(l.id)[k].Inline?
  {
    ImmediateBuilds(b, ws, l, p);
    if !p.Clear? {
      SingleActions(p);
      InlineKept(b.store, ApplyAll(b.store, L.ImmediateBuild(b, l, p).ops), ws, l, p, Cursor(b.store, b.next));
    }
  }

  lemma InlineKept(s: Store, t: Store, ws: Writers, l: L.Locker, p: Pending, bound: nat)
    requires !p.Clear? && forall k :: k in l.knownInline ==> k in s.Recs(l.id) && s.Recs(l.id)[k].Inline?
    requires forall k :: k in Sorted(Actions([p]).Keys) <==> k in [p.key]
    requires OnlyRecords(s, t, ws, l.id, Sorted(Actions([p]).Keys), bound)
    requires p.Put? ==>
               && p.key in t.Recs(l.id)
               && (t.Recs(l.id)[p.key].Inline? <==> StoresInline(|p.payload|, l.cfg.chunkSize, FLAG_POSTCARD))
    ensures forall k :: k in L.InlineAfter(l, p) ==> k in t.Recs(l.id) && t.Recs(l.id)[k].Inline?
  {
    forall k | k in L.InlineAfter(l, p) ensures k in t.Recs(l.id) && t.Recs(l.id)[k].Inline? {
      if k != p.key {
        assert k !in Sorted(Actions([p]).Keys);
        assert RecordAt(t, l.id, k) == RecordAt(s, l.id, k);
      }
    }
  }

  lemma TransactStep(b: L.Bank, ws: Writers, id: LockerId, l: L.Locker, tx: seq<Pending>, fate: L.Fate,
                     tracked: set<LockerId>)
    requires BankOk(b, ws) && LockerOk(b.store, id, l, tracked) && L.Admissible(b, fate) && Bounded(tx)
    requires id in tracked ==> Countable(b, l, CommittedBatch(l, Transact(tx, fate)))
    ensures var o := L.Transact(b, l, tx, fate);
            var a := Abs(View(b.store, id), l.staged);
      Stepped(b.store, ws, id, o, AbsLockerNext(a, l.cfg, Transact(tx, fate), set k | k in o.evicted), tracked)
  {
    if tx == [] {
      StayedPut(b, ws, id, l, L.Outcome(b, l, true, []), tracked);
    } else if fate.Fails? {
      FailedStep(b, ws, id, l, fate, tracked);
    } else {
      var merged := l.staged + tx;
      var l1 := l.(staged := [], index := L.IndexAfterAll(l.index, tx), knownInline := {});
      assert l1.index == Overlay(View(b.store, id), merged).Keys by {
        OverlayAppend(View(b.store, id), l.staged, tx);
        IndexTracks(Visible(b.store, l), tx);
      }
      BoundedAppend(l.staged, tx);
      BatchBuilds(b, ws, l, merged);
      LandedStep(b, ws, id, l, l1, merged, BatchOps(b.store, id, l.cfg.chunkSize, merged, b.next), tracked);
    }
  }

  // ---- eviction ------------------------------------------------------

  /** What a batch says about a key, newest entry first. */
  lemma {:induction false} StagedDecides(m: Contents, batch: seq<Pending>, k: Key)
    ensures Lookup(Overlay(m, batch), k) ==
              match L.StagedView(batch, k) {
                case Some(Some(payload)) => Some(Value(FLAG_POSTCARD, payload))
                case Some(None) => None
                case None => Lookup(m, k)
              }
    decreases |batch|
  {
    if batch != [] { StagedDecides(m, batch[..|batch| - 1], k); }
  }

  /**
   In every state `get` answers from the locker's contents as its own handle sees them, unless it has to read a
   record that does not load.
   */
  lemma AnswerIsVisible(s: Store, l: L.Locker, k: Key)
    ensures L.Answer(s, l, k) == None <==>
              L.StagedView(l.staged, k) == None && k in s.Recs(l.id) && !Loads(s, s.Recs(l.id)[k])
    ensures L.Answer(s, l, k) == None || L.Answer(s, l, k) == Some(Lookup(Visible(s, l), k))
  {
    StagedDecides(View(s, l.id), l.staged, k);
  }

  lemma EvictStep(b: L.Bank, ws: Writers, id: LockerId, l: L.Locker, limit: nat, fate: L.Fate, tracked: set<LockerId>)
    requires BankOk(b, ws) && LockerOk(b.store, id, l, tracked) && L.Admissible(b, fate)
    requires EvictsCleanly(l, L.EvictTo(b, l, limit, fate).evicted)
    requires id in tracked ==> Countable(b, l, [])
    ensures var o := L.EvictTo(b, l, limit, fate);
            var a := Abs(View(b.store, id), l.staged);
      Stepped(b.store, ws, id, o, AbsLockerNext(a, l.cfg, Evict(limit, fate), set k | k in o.evicted), tracked)
  {
    if L.EvictTo(b, l, limit, fate).evicted == [] {
      EvictIdle(b, ws, id, l, limit, fate, tracked);
    } else {
      EvictLands(b, ws, id, l, limit, fate, tracked);
    }
  }

  lemma EvictIdle(b: L.Bank, ws: Writers, id: LockerId, l: L.Locker, limit: nat, fate: L.Fate, tracked: set<LockerId>)
    requires BankOk(b, ws) && LockerOk(b.store, id, l, tracked) && L.Admissible(b, fate)
    requires L.EvictTo(b, l, limit, fate).evicted == []
    ensures var o := L.EvictTo(b, l, limit, fate);
            var a := Abs(View(b.store, id), l.staged);
      Stepped(b.store, ws, id, o, AbsLockerNext(a, l.cfg, Evict(limit, fate), set k | k in o.evicted), tracked)
  {
    var o := L.EvictTo(b, l, limit, fate);
    NothingEvicted(Abs(View(b.store, id), l.staged), l.cfg, limit, fate, o.evicted);
    NothingShed(b, l, limit, fate);
    EvictStays(b, ws, id, l, o, fate, tracked);
  }

  lemma EvictStays(b: L.Bank, ws: Writers, id: LockerId, l: L.Locker, o: L.Outcome, fate: L.Fate,
                   tracked: set<LockerId>)
    requires BankOk(b, ws) && LockerOk(b.store, id, l, tracked) && L.Admissible(b, fate)
    requires fate.Lands? ==> o.ok
    requires o == if o.ok then L.Outcome(b, l, true, []) else L.Failed(b, l, fate)
    ensures Stepped(b.store, ws, id, o, Abs(View(b.store, id), l.staged), tracked)
  {
    if o.ok { StayedPut(b, ws, id, l, o, tracked); } else { FailedStep(b, ws, id, l, fate, tracked); }
  }

  lemma NothingShed(b: L.Bank, l: L.Locker, limit: nat, fate: L.Fate)
    requires L.EvictTo(b, l, limit, fate).evicted == []
    ensures var o := L.EvictTo(b, l, limit, fate);
      (fate.Lands? ==> o.ok) && o == if o.ok then L.Outcome(b, l, true, []) else L.Failed(b, l, fate)
  {
  }

  lemma NothingEvicted(a: Abs, cfg: L.Config, limit: nat, fate: L.Fate, gone: seq<Key>)
    requires gone == []
    ensures AbsLockerNext(a, cfg, Evict(limit, fate), set k | k in gone) == a
  {
    assert (set k | k in gone) == {};
  }

  lemma EvictLands(b: L.Bank, ws: Writers, id: LockerId, l: L.Locker, limit: nat, fate: L.Fate, tracked: set<LockerId>)
    requires BankOk(b, ws) && LockerOk(b.store, id, l, tracked)
    requires var victims := L.EvictTo(b, l, limit, fate).evicted; victims != [] && EvictsCleanly(l, victims)
    requires id in tracked ==> Countable(b, l, [])
    ensures var o := L.EvictTo(b, l, limit, fate);
            var a := Abs(View(b.store, id), l.staged);
      Stepped(b.store, ws, id, o, AbsLockerNext(a, l.cfg, Evict(limit, fate), set k | k in o.evicted), tracked)
  {
    var o := L.EvictTo(b, l, limit, fate);
    assert fate.Lands? && l.lru.Some?;
    ShedEffect(b, ws, l, limit);
    if id in tracked { ShedAccounts(b, ws, l, limit); }
    Shed(b, ws, id, l, o, tracked);
  }

  lemma Shed(b: L.Bank, ws: Writers, id: LockerId, l: L.Locker, o: L.Outcome, tracked: set<LockerId>)
    requires BankOk(b, ws) && LockerOk(b.store, id, l, tracked) && l.lru.Some? && o.locker.lru.Some?
    requires o.bank == b.(store := o.bank.store) && EvictsCleanly(l, o.evicted)
    requires var gone := set k | k in o.evicted;
             o.locker == l.(lru := o.locker.lru, index := l.index - gone, knownInline := l.knownInline - gone)
    requires Evicted(b.store, o.bank.store, ws, id, o.evicted, l.lru.value.entries, Cursor(b.store, b.next))
    requires id in tracked ==> AccountsOk(o.bank.store, id, o.locker.lru.value)
    ensures Stepped(b.store, ws, id, o, Abs(View(b.store, id) - (set k | k in o.evicted), l.staged), tracked)
  {
    CursorMoves(b.store, o.bank.store, ws, b.next);
    ShedResident(b.store, o.bank.store, l, o.locker, o.evicted);
  }

  /** What `evict_to` does to the store. */
  lemma ShedEffect(b: L.Bank, ws: Writers, l: L.Locker, limit: nat)
    requires BankOk(b, ws) && l.lru.Some?
    ensures var a := l.lru.value;
            var victims := PlanFor(a.entries, a.total, [], [], false, limit, []).victims;
      && DistinctKeys(victims)
      && Evicted(b.store, ApplyAll(b.store, VictimOps(b.store, l.id, victims)), ws, l.id, victims, a.entries,
                 Cursor(b.store, b.next))
  {
    var a := l.lru.value;
    var victims := PlanFor(a.entries, a.total, [], [], false, limit, []).victims;
    VictimsAre(a.entries, a.total, [], [], false, limit, []);
    ReadyAtStart(b.store, ws, l.id, victims, Cursor(b.store, b.next));
    VictimOpsEffect(b.store, b.store, ws, l.id, victims, a.entries, Cursor(b.store, b.next));
  }

  /**
   Dropping the victims from the index is right exactly when no staged write would bring one back: `evict_to`
   over a staged overwrite leaves a stored-or-staged key the index no longer lists.
   */
  lemma EvictIndexExact(s: Store, t: Store, l: L.Locker, l1: L.Locker, victims: seq<Key>)
    requires l.index == Visible(s, l).Keys
    requires l1.id == l.id && l1.staged == l.staged && l1.index == l.index - (set k | k in victims)
    requires View(t, l.id) == View(s, l.id) - (set k | k in victims)
    ensures l1.index == Visible(t, l1).Keys <==> EvictsCleanly(l, victims)
  {
    forall k ensures k in Visible(s, l) <==> Lookup(Visible(s, l), k).Some? {}
    forall k
      ensures k in Visible(t, l1) <==>
                match L.StagedView(l.staged, k) {
                  case Some(p) => p.Some?
                  case None => k in View(s, l.id) && k !in victims
                }
      ensures k in Visible(s, l) <==>
                match L.StagedView(l.staged, k) { case Some(p) => p.Some? case None => k in View(s, l.id) }
    {
      StagedDecides(View(s, l.id), l.staged, k);
      StagedDecides(View(t, l.id), l.staged, k);
    }
    if l1.index == Visible(t, l1).Keys {
      forall v | v in victims ensures L.StagedView(l.staged, v) == None || L.StagedView(l.staged, v) == Some(None) {
        assert v !in l1.index;
      }
    }
  }

  lemma ShedResident(s: Store, t: Store, l: L.Locker, l1: L.Locker, victims: seq<Key>)
    requires ResidentOk(s, l) && EvictsCleanly(l, victims)
    requires var gone := set k | k in victims;
             l1 == l.(lru := l1.lru, index := l.index - gone, knownInline := l.knownInline - gone)
    requires l1.lru.Some? == l.lru.Some?
    requires View(t, l.id) == View(s, l.id) - (set k | k in victims)
    requires forall k :: k !in victims ==> RecordAt(t, l.id, k) == RecordAt(s, l.id, k)
    ensures ResidentOk(t, l1)
  {
    EvictIndexExact(s, t, l, l1, victims);
    forall k | k in l1.knownInline ensures k in t.Recs(l.id) && t.Recs(l.id)[k].Inline? {
      assert RecordAt(t, l.id, k) == RecordAt(s, l.id, k);
    }
  }

  lemma ShedAccounts(b: L.Bank, ws: Writers, l: L.Locker, limit: nat)
    requires BankOk(b, ws) && l.lru.Some? && AccountsOk(b.store, l.id, l.lru.value)
    requires l.lru.value.total <= U64_MAX
    ensures var a := l.lru.value;
            var plan := PlanFor(a.entries, a.total, [], [], false, limit, []);
      AccountsOk(ApplyAll(b.store, VictimOps(b.store, l.id, plan.victims)), l.id,
                 Applied(a, BudgetPlan([], [], false, plan, [])))
  {
    var a := l.lru.value;
    var plan := PlanFor(a.entries, a.total, [], [], false, limit, []);
    var t := ApplyAll(b.store, VictimOps(b.store, l.id, plan.victims));
    var left := RemoveAll(a.entries, plan.victims);
    assert RowsMatch(t.LruRows(l.id), left) && View(t, l.id) == View(b.store, l.id) - (set k | k in plan.victims) by {
      ShedEffect(b, ws, l, limit);
    }
    assert plan.total == Sum(left) && EntriesAfter(a.entries, [], [], false, plan.victims) == left by {
      assert UpdateBytes([]) == 0;
      PlanSoundAndMinimal(a.entries, a.total, [], [], false, limit, []);
      assert RemoveAll(a.entries, []) == a.entries;
    }
    assert Covers(left, View(t, l.id));
  }

  // ---- reading -------------------------------------------------------

  lemma GetStep(b: L.Bank, ws: Writers, id: LockerId, l: L.Locker, k: Key, tracked: set<LockerId>)
    requires BankOk(b, ws) && LockerOk(b.store, id, l, tracked)
    ensures Stepped(b.store, ws, id, L.Get(b, l, k), Abs(View(b.store, id), l.staged), tracked)
  {
    if id in tracked { TouchKeeps(b.store, id, l.lru.value, k, NextTick(b.ticks, b.store.nextTick)); }
  }

  /** Using a key moves its tick, not its size. */
  lemma TouchKeeps(s: Store, id: LockerId, a: LruState, k: Key, tick: nat)
    requires AccountsOk(s, id, a)
    ensures AccountsOk(s, id, L.Touched(a, k, tick))
  {
    if k in a.entries { SumPut(a.entries, k, a.entries[k].(tick := tick)); }
  }

  // ---- opening -------------------------------------------------------

  lemma ReopenStep(b: L.Bank, ws: Writers, id: LockerId, l: L.Locker, cfg: L.Config, tracked: set<LockerId>)
    requires BankOk(b, ws) && LockerOk(b.store, id, l, tracked) && cfg.chunkSize >= 1
    requires id in tracked ==> cfg.budget.Some? && SmallValues(b.store, id)
    ensures Stepped(b.store, ws, id, L.Outcome(L.Reopened(b, id, cfg), L.Open(b.store, id, cfg), true, []),
                    Abs(View(b.store, id), []), tracked)
  {
    OpenResident(b.store, id, cfg);
    if id in tracked { ReopenRebuilds(b.store, id, l.lru.value, cfg.budget.value); }
  }

  lemma OpenResident(s: Store, id: LockerId, cfg: L.Config)
    requires cfg.chunkSize >= 1
    ensures ResidentOk(s, L.Open(s, id, cfg))
  {
    assert Overlay(View(s, id), []) == View(s, id);
  }

  /** Whatever rows are found, the total of a fresh open is the sum of its accounts. */
  lemma OpenTotal(s: Store, id: LockerId, maxBytes: nat)
    ensures var a := L.OpenLru(s, id, maxBytes);
      a.total == Sum(a.entries) && a.entries.Keys == s.Recs(id).Keys && a.pending == map[]
  {
    var live := s.Recs(id).Keys;
    var rows := map k | k in s.LruRows(id) && k in live :: s.LruRows(id)[k];
    ZeroesAddNothing(live, rows);
    assert (L.Zeroes(live) + rows).Keys == live;
  }

  lemma {:induction false} ZeroesAddNothing(keys: set<Key>, rows: Entries)
    ensures Sum(L.Zeroes(keys) + rows) == Sum(rows)
    decreases |keys|
  {
    if keys == {} {
      assert L.Zeroes(keys) + rows == rows;
    } else {
      var k :| k in keys;
      var rest := L.Zeroes(keys - {k}) + rows;
      ZeroesAddNothing(keys - {k}, rows);
      if k in rows {
        assert L.Zeroes(keys) + rows == rest;
      } else {
        assert L.Zeroes(keys) + rows == rest[k := Entry(0, 0)];
        SumPut(rest, k, Entry(0, 0));
      }
    }
  }

  /**
   A reopen rebuilds the accounts, and the same total, exactly when every stored size fits a budget row's 32
   bits; a larger value is counted as 4 GiB from then on.
   */
  lemma ReopenRebuilds(s: Store, id: LockerId, a: LruState, maxBytes: nat)
    requires AccountsOk(s, id, a)
    ensures AccountsOk(s, id, L.OpenLru(s, id, maxBytes)) <==> SmallValues(s, id)
    ensures SmallValues(s, id) ==> L.OpenLru(s, id, maxBytes).total == a.total
  {
    var o := L.OpenLru(s, id, maxBytes);
    OpenTotal(s, id, maxBytes);
    assert View(s, id).Keys == s.Recs(id).Keys;
    assert o.entries.Keys == a.entries.Keys;
    forall k | k in o.entries ensures o.entries[k].bytes == Sat32(a.entries[k].bytes) {
      assert k in s.LruRows(id);
    }
    if SmallValues(s, id) { SameBytes(o.entries, a.entries); }
    if AccountsOk(s, id, o) {
      forall k | k in View(s, id) ensures |View(s, id)[k].payload| <= U32_MAX {
        assert o.entries[k].bytes == Sat32(a.entries[k].bytes);
      }
    }
  }

  lemma {:induction false} SameBytes(m: Entries, n: Entries)
    requires m.Keys == n.Keys && forall k :: k in m ==> m[k].bytes == n[k].bytes
    ensures Sum(m) == Sum(n)
    decreases |m|
  {
    if m == map[] {
      assert n == map[];
    } else {
      var k :| k in m;
      SumRemove(m, k);
      SumRemove(n, k);
      SameBytes(m - {k}, n - {k});
    }
  }
}
