/**
 What least recently used means: in every reachable state the next tick is past every tick a locker holds, so a key
 just read or written is the last a plan would take.
 */
module Recency {
  import opened Wrappers
  import opened Bytes
  import opened Storage
  import opened Ownership
  import opened Inner
  import opened Batches
  import opened Transaction
  import opened Lru
  import opened Accounting
  import opened Budget
  import opened LogicalClock
  import opened Steps
  import Bytewise
  import Invariants
  import Runs
  import Streaming
  import ValueIdCursor
  import L = LockerSteps

  /** The tick the bank hands out next. */
  function Clock(b: L.Bank): nat { NextTick(b.ticks, b.store.nextTick) }

  /** Every tick held is below this: the next one, but that an adopted key starts at 0 and so may the clock. */
  function Horizon(b: L.Bank): nat { Max(Clock(b), 1) }

  ghost predicate TicksBelow(m: Entries, n: nat)
  {
    forall k :: k in m ==> m[k].tick < n
  }

  ghost predicate BumpsBelow(pending: map<Key, nat>, n: nat)
  {
    forall k :: k in pending ==> pending[k] < n
  }

  /** The ticks a locker holds in RAM, and its read bumps not yet written. */
  ghost predicate HeldBelow(l: L.Locker, b: L.Bank)
  {
    l.lru.Some? ==> TicksBelow(l.lru.value.entries, Horizon(b)) && BumpsBelow(l.lru.value.pending, Clock(b))
  }

  /** No locker holds a tick, in RAM or in its rows, that has not been handed out. */
  ghost predicate ClockAhead(w: World)
  {
    forall id :: id in w.lockers ==> LockerBehind(w.bank, id, w.lockers[id])
  }

  ghost predicate LockerBehind(b: L.Bank, id: LockerId, l: L.Locker)
  {
    l.id == id && HeldBelow(l, b) && (l.lru.Some? ==> TicksBelow(b.store.LruRows(id), Horizon(b)))
  }

  // ---- ops -----------------------------------------------------------

  /** Every budget row the ops write carries a tick below `n`. */
  ghost predicate OpsBelow(ops: seq<Op>, n: nat)
  {
    forall op <- ops :: op.PutLru? ==> op.entry.tick < n
  }

  /** The ops write neither budget rows nor the clock. */
  ghost predicate Plain(ops: seq<Op>)
  {
    forall op <- ops :: !op.TouchesLru() && !op.PutNextTick?
  }

  lemma {:induction false} RowsStayBelow(s: Store, ops: seq<Op>, id: LockerId, n: nat)
    requires TicksBelow(s.LruRows(id), n) && OpsBelow(ops, n)
    ensures TicksBelow(ApplyAll(s, ops).LruRows(id), n)
    decreases |ops|
  {
    if ops != [] {
      assert ops[|ops| - 1] in ops;
      RowsStayBelow(s, ops[..|ops| - 1], id, n);
    }
  }

  lemma {:induction false} ClockUntouched(s: Store, ops: seq<Op>)
    requires forall op <- ops :: !op.PutNextTick?
    ensures ApplyAll(s, ops).nextTick == s.nextTick
    decreases |ops|
  {
    if ops != [] {
      assert ops[|ops| - 1] in ops;
      ClockUntouched(s, ops[..|ops| - 1]);
    }
  }

  lemma PutIsPlain(s: Store, l: LockerId, chunkSize: nat, k: Key, payload: Payload, flags: nat, prior: Prior,
                   next: Option<nat>)
    requires chunkSize >= 1
    ensures Plain(PutBuild(s, l, chunkSize, k, payload, flags, prior, next).ops)
  {
  }

  lemma {:induction false} ActionsArePlain(s: Store, l: LockerId, chunkSize: nat, acts: map<Key, Action>,
                                           keys: seq<Key>, next: Option<nat>)
    requires chunkSize >= 1 && forall k :: k in keys ==> k in acts
    ensures Plain(ActionOps(s, l, chunkSize, acts, keys, next).ops)
    decreases |keys|
  {
    if keys != [] {
      var init, k := keys[..|keys| - 1], keys[|keys| - 1];
      ActionsArePlain(s, l, chunkSize, acts, init, next);
      var before := ActionOps(s, l, chunkSize, acts, init, next);
      match acts[k]
      case Assign(payload) => PutIsPlain(s, l, chunkSize, k, payload, FLAG_POSTCARD, Unknown, before.next);
      case Remove =>
    }
  }

  lemma ClearIsPlain(s: Store, l: LockerId)
    ensures Plain(ClearOps(s, l))
  {
    DropsOnly(s, l, Sorted(s.Recs(l).Keys));
  }

  lemma BatchIsPlain(s: Store, l: LockerId, chunkSize: nat, batch: seq<Pending>, next: Option<nat>)
    requires chunkSize >= 1
    ensures Plain(BatchOps(s, l, chunkSize, batch, next).ops)
  {
    BatchOpsAre(s, l, chunkSize, batch, next);
    ActionsArePlain(s, l, chunkSize, Actions(Tail(batch)), Sorted(Actions(Tail(batch)).Keys), next);
    ClearIsPlain(s, l);
  }

  lemma ImmediateIsPlain(b: L.Bank, l: L.Locker, p: Pending)
    requires l.cfg.chunkSize >= 1
    ensures Plain(L.ImmediateBuild(b, l, p).ops)
  {
    match p
    case Put(k, payload) =>
      PutIsPlain(b.store, l.id, l.cfg.chunkSize, k, payload, FLAG_POSTCARD, L.PriorOf(l, k), b.next);
    case Delete(_) =>
    case Clear => ClearIsPlain(b.store, l.id);
  }

  lemma {:induction false} VictimsWriteNoRow(s: Store, id: LockerId, victims: seq<Key>)
    ensures forall op <- VictimOps(s, id, victims) :: !op.PutLru? && !op.PutNextTick?
    decreases |victims|
  {
    if victims != [] { VictimsWriteNoRow(s, id, victims[..|victims| - 1]); }
  }

  lemma {:induction false} CarriedBelow(a: LruState, id: LockerId, keys: seq<Key>, skip: seq<Key>, n: nat)
    requires (forall k :: k in keys ==> k in a.pending) && BumpsBelow(a.pending, n)
    ensures OpsBelow(CarriedOps(a, id, keys, skip), n)
    ensures forall op <- CarriedOps(a, id, keys, skip) :: !op.PutNextTick?
    decreases |keys|
  {
    if keys != [] { CarriedBelow(a, id, keys[..|keys| - 1], skip, n); }
  }

  lemma OpsBelowBoth(a: seq<Op>, b: seq<Op>, n: nat)
    requires OpsBelow(a, n) && OpsBelow(b, n)
    ensures OpsBelow(a + b, n)
  {
  }

  lemma UpdatesWriteBelow(id: LockerId, updates: seq<Update>, n: nat)
    requires forall i :: 0 <= i < |updates| ==> updates[i].entry.tick < n
    ensures OpsBelow(UpdateOps(id, updates), n)
  {
  }

  lemma RowOpsBelow(a: LruState, id: LockerId, p: BudgetPlan, n: nat)
    requires forall i :: 0 <= i < |p.updates| ==> p.updates[i].entry.tick < n
    requires BumpsBelow(a.pending, n)
    ensures OpsBelow(RowOps(a, id, p), n)
  {
    PendingBatchIs(a);
    var clear: seq<Op> := if p.cleared then [ClearLru(id)] else [];
    var carried := if p.cleared then [] else CarriedOps(a, id, PendingBatch(a), KeysOf(p.updates));
    UpdatesWriteBelow(id, p.updates, n);
    CarriedBelow(a, id, PendingBatch(a), KeysOf(p.updates), n);
    OpsBelowBoth(clear, UpdateOps(id, p.updates), n);
    OpsBelowBoth(clear + UpdateOps(id, p.updates), carried, n);
    OpsBelowBoth(clear + UpdateOps(id, p.updates) + carried, RemovalOps(id, p.removals), n);
  }

  /** The budget ops of a commit write no tick later than its own. */
  lemma BudgetBelow(s: Store, a: LruState, id: LockerId, acc: Accounts, ticks: TickState, tick: nat, n: nat)
    requires tick < n && BumpsBelow(a.pending, n)
    ensures OpsBelow(BudgetOps(s, a, id, PlanBudget(a, tick, acc), ticks), n)
  {
    var p := PlanBudget(a, tick, acc);
    var rows, evict := RowOps(a, id, p), VictimOps(s, id, p.plan.victims);
    RowOpsBelow(a, id, p, n);
    VictimsWriteNoRow(s, id, p.plan.victims);
    OpsBelowBoth(rows, evict, n);
    OpsBelowBoth(rows + evict, [PutNextTick(Persisted(ticks))], n);
  }

  // ---- one landed commit ---------------------------------------------

  /** A step leaves the clock no earlier, its rows behind it, and its locker's own ticks as well. */
  ghost predicate Behind(b: L.Bank, o: L.Outcome, ops: seq<Op>)
  {
    && Clock(b) <= Clock(o.bank) && OpsBelow(ops, Horizon(o.bank)) && HeldBelow(o.locker, o.bank)
  }

  lemma LandedBehind(b: L.Bank, l: L.Locker, main: Build, batch: seq<Pending>)
    requires Plain(main.ops) && HeldBelow(l, b)
    ensures Behind(b, L.Landed(b, l, main, batch), main.ops + L.ExtraOps(b, l, batch))
  {
    var o := L.Landed(b, l, main, batch);
    if l.lru.None? {
      ClockUntouched(b.store, main.ops + L.ExtraOps(b, l, batch));
    } else {
      var p := L.PlanOf(b, l, batch);
      assert Clock(o.bank) == Clock(b) + 1;
      BudgetBelow(b.store, l.lru.value, l.id, Accounted(batch), L.TicksAfter(b, l), Clock(b), Clock(b) + 1);
      AppliedBelow(l.lru.value, p, Clock(b));
    }
  }

  /** What a commit stamps is its own tick, and everything else it keeps. */
  lemma AppliedBelow(a: LruState, p: BudgetPlan, tick: nat)
    requires TicksBelow(a.entries, tick + 1) && BumpsBelow(a.pending, tick + 1)
    requires forall u :: u in p.updates ==> u.entry.tick == tick
    ensures TicksBelow(Applied(a, p).entries, tick + 1)
    ensures BumpsBelow(Applied(a, p).pending, tick + 1)
  {
    UpdatesBelow(if p.cleared then map[] else RemoveAll(a.entries, p.removals), p.updates, tick + 1);
  }

  lemma {:induction false} UpdatesBelow(m: Entries, updates: seq<Update>, n: nat)
    requires TicksBelow(m, n) && forall u :: u in updates ==> u.entry.tick < n
    ensures TicksBelow(PutAll(m, updates), n)
    decreases |updates|
  {
    if updates != [] {
      assert updates[|updates| - 1] in updates;
      UpdatesBelow(m, updates[..|updates| - 1], n);
    }
  }

  // ---- every step ----------------------------------------------------

  lemma FlushBehind(b: L.Bank, l: L.Locker, fate: L.Fate)
    requires l.cfg.chunkSize >= 1 && HeldBelow(l, b) && L.Admissible(b, fate)
    ensures Behind(b, L.Flush(b, l, fate), if fate.Lands? then Bytewise.FlushOps(b, l) else [])
  {
    if l.staged != [] && fate.Lands? {
      BatchIsPlain(b.store, l.id, l.cfg.chunkSize, l.staged, b.next);
      LandedBehind(b, l.(staged := []), BatchOps(b.store, l.id, l.cfg.chunkSize, l.staged, b.next), l.staged);
    }
  }

  lemma WriteBehind(b: L.Bank, l: L.Locker, p: Pending, fate: L.Fate)
    requires l.cfg.chunkSize >= 1 && HeldBelow(l, b) && L.Admissible(b, fate)
    ensures Behind(b, L.Write(b, l, p, fate), if fate.Lands? then Bytewise.WriteOps(b, l, p) else [])
  {
    if l.cfg.IsDeferred() {
      FlushBehind(b, L.Staged(l, p), fate);
    } else if fate.Lands? {
      ImmediateIsPlain(b, l, p);
      LandedBehind(b, l.(index := L.IndexAfter(l.index, p), knownInline := L.InlineAfter(l, p)),
                   L.ImmediateBuild(b, l, p), [p]);
    }
  }

  lemma TransactBehind(b: L.Bank, l: L.Locker, tx: seq<Pending>, fate: L.Fate)
    requires l.cfg.chunkSize >= 1 && HeldBelow(l, b) && L.Admissible(b, fate)
    ensures Behind(b, L.Transact(b, l, tx, fate),
                   if fate.Fails? || tx == [] then [] else Bytewise.CommitOps(b, l, l.staged + tx))
  {
    if tx != [] && fate.Lands? {
      var merged := l.staged + tx;
      BatchIsPlain(b.store, l.id, l.cfg.chunkSize, merged, b.next);
      LandedBehind(b, l.(staged := [], index := L.IndexAfterAll(l.index, tx), knownInline := {}),
                   BatchOps(b.store, l.id, l.cfg.chunkSize, merged, b.next), merged);
    }
  }

  lemma EvictBehind(b: L.Bank, l: L.Locker, limit: nat, fate: L.Fate)
    requires HeldBelow(l, b) && L.Admissible(b, fate)
    ensures Behind(b, L.EvictTo(b, l, limit, fate), if fate.Lands? then Bytewise.EvictOps(b, l, limit) else [])
  {
    if l.lru.Some? {
      var victims := Bytewise.PlanVictims(l.lru.value, limit);
      VictimsWriteNoRow(b.store, l.id, victims);
      ClockUntouched(b.store, VictimOps(b.store, l.id, victims));
    }
  }

  lemma ReopenBehind(b: L.Bank, id: LockerId, cfg: L.Config)
    ensures var o := L.Outcome(L.Reopened(b, id, cfg), L.Open(b.store, id, cfg), true, []);
      Behind(b, o, []) && (o.locker.lru.Some? ==> TicksBelow(b.store.LruRows(id), Horizon(o.bank)))
  {
    forall k | k in b.store.LruRows(id) ensures b.store.LruRows(id)[k].tick in L.TicksOf(b.store.LruRows(id)) {}
  }

  lemma GetBehind(b: L.Bank, l: L.Locker, k: Key)
    requires HeldBelow(l, b)
    ensures Behind(b, L.Get(b, l, k), [])
  {
  }

  lemma LockerActBehind(w: World, id: LockerId, a: Act)
    requires ClockAhead(w) && Possible(w, On(id, a)) && !WriterAct(a)
    ensures Behind(w.bank, LockerOutcome(w, id, a), Bytewise.OpsOf(w, On(id, a)))
    ensures var o := LockerOutcome(w, id, a);
      a.Reopen? && o.locker.lru.Some? ==> TicksBelow(w.bank.store.LruRows(id), Horizon(o.bank))
  {
    var b, l := w.bank, w.lockers[id];
    assert LockerBehind(b, id, l);
    match a
    case Write(p, fate) => WriteBehind(b, l, p, fate);
    case Transact(tx, fate) => TransactBehind(b, l, tx, fate);
    case Flush(fate) => FlushBehind(b, l, fate);
    case Evict(limit, fate) => EvictBehind(b, l, limit, fate);
    case Get(k) => GetBehind(b, l, k);
    case Reopen(cfg) => ReopenBehind(b, id, cfg);
  }

  lemma SameLru(w: World, id: LockerId, a: Act)
    requires Possible(w, On(id, a)) && !WriterAct(a)
    ensures var o := LockerOutcome(w, id, a); o.locker.id == (if a.Reopen? then id else w.lockers[id].id)
    ensures !a.Reopen? ==> (LockerOutcome(w, id, a).locker.lru.Some? <==> w.lockers[id].lru.Some?)
  {
  }

  /** Rows stay behind the clock whoever commits. */
  lemma RowsBehind(b: L.Bank, b1: L.Bank, id: LockerId, ops: seq<Op>)
    requires TicksBelow(b.store.LruRows(id), Horizon(b)) && Clock(b) <= Clock(b1)
    requires b1.store == ApplyAll(b.store, ops) && OpsBelow(ops, Horizon(b1))
    ensures TicksBelow(b1.store.LruRows(id), Horizon(b1))
  {
    RowsStayBelow(b.store, ops, id, Horizon(b1));
  }

  lemma LockerStepAhead(w: World, id: LockerId, a: Act)
    requires ClockAhead(w) && Possible(w, On(id, a)) && !WriterAct(a)
    ensures ClockAhead(Steps.Next(w, On(id, a)))
  {
    var w1, ops := Steps.Next(w, On(id, a)), Bytewise.OpsOf(w, On(id, a));
    LockerActBehind(w, id, a);
    Bytewise.StepIsOps(w, On(id, a));
    SameLru(w, id, a);
    forall j | j in w1.lockers ensures LockerBehind(w1.bank, j, w1.lockers[j]) {
      assert LockerBehind(w.bank, j, w.lockers[j]);
      if w.lockers[j].lru.Some? { RowsBehind(w.bank, w1.bank, j, ops); }
    }
  }

  /** A writer's ops write chunks, a record or a counter of ids. */
  lemma WriterOpsPlain(w: World, id: LockerId, a: Act)
    requires Possible(w, On(id, a)) && WriterAct(a)
    ensures Plain(Bytewise.OpsOf(w, On(id, a)))
  {
    if a.Publish? && a.fate.Lands? { PublishIsPlain(w.looks[a.h], w.ws[a.h]); }
  }

  lemma PublishIsPlain(seen: Option<nat>, x: WriterState)
    ensures Plain(Streaming.PublishOps(seen, x))
  {
  }

  /** Its step touches no account or bump. */
  lemma WriterLeavesAccounts(w: World, id: LockerId, a: Act)
    requires Possible(w, On(id, a)) && WriterAct(a)
    ensures var w1 := Steps.Next(w, On(id, a));
      && w1.lockers.Keys == w.lockers.Keys && Onward(w.bank.ticks, w1.bank.ticks, w.bank.store.nextTick)
      && forall j :: j in w.lockers ==> w1.lockers[j].lru == w.lockers[j].lru && w1.lockers[j].id == w.lockers[j].id
  {
    WriterBank(w, id, a);
    WriterLockers(w, id, a);
  }

  lemma WriterBank(w: World, id: LockerId, a: Act)
    requires Possible(w, On(id, a)) && WriterAct(a)
    ensures var ticks := Steps.Next(w, On(id, a)).bank.ticks;
      ticks == if Commits(a) && a.fate.Fails? then a.fate.ticks else w.bank.ticks
  {
  }

  lemma WriterLockers(w: World, id: LockerId, a: Act)
    requires Possible(w, On(id, a)) && WriterAct(a)
    ensures var lockers, l := Steps.Next(w, On(id, a)).lockers, w.lockers[id];
      if a.Publish? && a.fate.Lands? then
        && id in lockers
        && lockers == w.lockers[id := l.(index := lockers[id].index, knownInline := lockers[id].knownInline)]
      else lockers == w.lockers
  {
  }

  lemma WriterStepAhead(w: World, id: LockerId, a: Act)
    requires ClockAhead(w) && Possible(w, On(id, a)) && WriterAct(a)
    ensures ClockAhead(Steps.Next(w, On(id, a)))
  {
    var w1, ops := Steps.Next(w, On(id, a)), Bytewise.OpsOf(w, On(id, a));
    Bytewise.StepIsOps(w, On(id, a));
    WriterOpsPlain(w, id, a);
    WriterLeavesAccounts(w, id, a);
    ClockUntouched(w.bank.store, ops);
    OthersAhead(w, w1, ops);
  }

  /** No tick in RAM has changed, and none written or handed out is behind. */
  lemma OthersAhead(w: World, w1: World, ops: seq<Op>)
    requires ClockAhead(w) && Clock(w.bank) <= Clock(w1.bank) && w1.lockers.Keys == w.lockers.Keys
    requires w1.bank.store == ApplyAll(w.bank.store, ops) && OpsBelow(ops, Horizon(w1.bank))
    requires forall j :: j in w.lockers ==> w1.lockers[j].lru == w.lockers[j].lru && w1.lockers[j].id == w.lockers[j].id
    ensures ClockAhead(w1)
  {
    forall j | j in w1.lockers ensures LockerBehind(w1.bank, j, w1.lockers[j]) {
      assert LockerBehind(w.bank, j, w.lockers[j]);
      if w.lockers[j].lru.Some? { RowsBehind(w.bank, w1.bank, j, ops); }
    }
  }

  lemma RestartAhead(w: World, e: Event)
    requires ClockAhead(w) && e.Restart? && Possible(w, e)
    ensures ClockAhead(Steps.Next(w, e))
  {
    var w1, s := Steps.Next(w, e), w.bank.store;
    forall id | id in w1.lockers ensures LockerBehind(w1.bank, id, w1.lockers[id]) {
      if e.cfgs[id].budget.Some? {
        forall k | k in s.LruRows(id) ensures s.LruRows(id)[k].tick < Horizon(w1.bank) {
          assert s.LruRows(id)[k].tick in RowTicks(s, e.cfgs);
        }
      }
    }
  }

  lemma StepAhead(w: World, e: Event)
    requires ClockAhead(w) && Possible(w, e)
    ensures ClockAhead(Steps.Next(w, e))
  {
    if e.Restart? {
      RestartAhead(w, e);
    } else if WriterAct(e.act) {
      WriterStepAhead(w, e.id, e.act);
    } else {
      LockerStepAhead(w, e.id, e.act);
    }
  }

  /** In every state of every run, every tick held anywhere is behind the clock. */
  lemma AlwaysAhead(worlds: seq<World>, events: seq<Event>, tracked: set<LockerId>)
    requires Runs.IsRun(worlds, events, tracked) && Runs.Initial(worlds[0], tracked)
    ensures forall i :: 0 <= i < |worlds| ==> ClockAhead(worlds[i])
  {
    for n := 0 to |events|
      invariant forall i :: 0 <= i <= n ==> ClockAhead(worlds[i])
    {
      assert Runs.Takes(worlds[n], events[n], worlds[n + 1], tracked);
      StepAhead(worlds[n], events[n]);
    }
  }

  // ---- what counts as a use ------------------------------------------

  /** The accounts a locker keeps. */
  function Held(w: World, id: LockerId): Entries
  {
    if id in w.lockers && w.lockers[id].lru.Some? then w.lockers[id].lru.value.entries else map[]
  }

  /** Its read bumps not yet written. */
  function Bumps(w: World, id: LockerId): map<Key, nat>
  {
    if id in w.lockers && w.lockers[id].lru.Some? then w.lockers[id].lru.value.pending else map[]
  }

  /** The event can happen, and leads there. */
  ghost predicate Leads(w: World, e: Event, w1: World)
  {
    Possible(w, e) && w1 == Steps.Next(w, e)
  }

  /**
   Reading a stored value is a use: no account is younger afterwards, every other is older unless the bank had handed
   out no tick before, nothing else about the accounts changes, and the bump is kept for a later commit to write.
   */
  lemma ReadIsUse(w: World, id: LockerId, k: Key, w1: World)
    requires ClockAhead(w) && Leads(w, On(id, Get(k)), w1)
    requires L.StagedView(w.lockers[id].staged, k) == None && k in Held(w, id)
    requires k in w.bank.store.Recs(id) && Loads(w.bank.store, w.bank.store.Recs(id)[k])
    ensures Held(w1, id).Keys == Held(w, id).Keys && Held(w1, id)[k].bytes == Held(w, id)[k].bytes
    ensures forall j :: j in Held(w1, id) && j != k ==> Held(w1, id)[j] == Held(w, id)[j]
    ensures forall j :: j in Held(w1, id) ==> Held(w1, id)[j].tick <= Held(w1, id)[k].tick
    ensures (forall j :: j in Held(w1, id) && j != k ==> Held(w1, id)[j].tick < Held(w1, id)[k].tick)
            <==> Clock(w.bank) > 0 || Held(w1, id).Keys == {k}
    ensures k in Bumps(w1, id) && Bumps(w1, id)[k] == Held(w1, id)[k].tick
  {
    assert LockerBehind(w.bank, id, w.lockers[id]);
    ReadAccount(w.bank, w.lockers[id], k);
    GetLeads(w, id, k, w1);
    Youngest(Held(w, id), Held(w1, id), k, Clock(w.bank));
  }

  lemma GetLeads(w: World, id: LockerId, k: Key, w1: World)
    requires Leads(w, On(id, Get(k)), w1)
    ensures id in w1.lockers && w1.lockers[id] == L.Get(w.bank, w.lockers[id], k).locker
  {
  }

  lemma ReadAccount(b: L.Bank, l: L.Locker, k: Key)
    requires l.lru.Some? && k in l.lru.value.entries && L.StagedView(l.staged, k) == None
    requires k in b.store.Recs(l.id) && Loads(b.store, b.store.Recs(l.id)[k])
    ensures var a, o := l.lru.value, L.Get(b, l, k);
      && o.locker.lru.Some?
      && o.locker.lru.value.entries == a.entries[k := a.entries[k].(tick := Clock(b))]
      && o.locker.lru.value.pending == a.pending[k := Clock(b)]
  {
  }

  lemma Youngest(before: Entries, after: Entries, k: Key, tick: nat)
    requires TicksBelow(before, Max(tick, 1)) && k in before && after == before[k := before[k].(tick := tick)]
    ensures forall j :: j in after ==> after[j].tick <= tick
    ensures (forall j :: j in after && j != k ==> after[j].tick < tick) <==> tick > 0 || after.Keys == {k}
  {
    if tick == 0 && after.Keys != {k} {
      var j :| j in after && j != k;
      assert !(after[j].tick < tick);
    }
  }

  /** A read answered from the staged batch, or finding nothing, or failing, uses nothing. */
  lemma OtherReadsAreNoUse(w: World, id: LockerId, k: Key, w1: World)
    requires Leads(w, On(id, Get(k)), w1)
    requires var s, l := w.bank.store, w.lockers[id];
      L.StagedView(l.staged, k) != None || k !in s.Recs(l.id) || !Loads(s, s.Recs(l.id)[k])
    ensures w1 == w
  {
    assert w.lockers[id := w.lockers[id]] == w.lockers;
  }

  /** What a plan keeps of a key the batch puts, and of one it leaves alone. */
  lemma KeptTicks(b: L.Bank, l: L.Locker, batch: seq<Pending>, k: Key)
    requires l.lru.Some?
    ensures var p, acts, entries := L.PlanOf(b, l, batch), Actions(Tail(batch)), l.lru.value.entries;
            var kept := Kept(entries, p.updates, p.removals, p.cleared);
      && (k in acts && acts[k].Assign? ==> k in kept && kept[k].tick == Clock(b))
      && (k in kept && !(k in acts && acts[k].Assign?) ==> k in entries && kept[k] == entries[k])
  {
    var p, acts, entries := L.PlanOf(b, l, batch), Actions(Tail(batch)), l.lru.value.entries;
    Invariants.KeptAt(b, l, batch, k);
    Invariants.PlanKeys(b, l, batch);
    PutAllAt(if p.cleared then map[] else RemoveAll(entries, p.removals), p.updates);
    if k in acts && acts[k].Assign? { Invariants.WrittenSize(b, l, batch, k); }
  }

  /** The batch a step commits puts the key. */
  predicate Puts(batch: seq<Pending>, k: Key)
  {
    k in Actions(Tail(batch)) && Actions(Tail(batch))[k].Assign?
  }

  lemma LandedUses(b: L.Bank, l: L.Locker, main: Build, batch: seq<Pending>, k: Key)
    requires l.lru.Some? && HeldBelow(l, b) && Puts(batch, k)
    ensures var after := L.Landed(b, l, main, batch).locker.lru.value.entries;
      && k in after && after[k].tick == Clock(b)
      && (forall j :: j in after && !Puts(batch, j) ==> j in l.lru.value.entries && after[j] == l.lru.value.entries[j])
      && (forall j :: j in after && Puts(batch, j) ==> after[j].tick == Clock(b))
  {
    var p := L.PlanOf(b, l, batch);
    var after := L.Landed(b, l, main, batch).locker.lru.value.entries;
    KeptTicks(b, l, batch, k);
    Invariants.EvictedUntouched(b, l, batch);
    forall j | j in after
      ensures Puts(batch, j) ==> after[j].tick == Clock(b)
      ensures !Puts(batch, j) ==> j in l.lru.value.entries && after[j] == l.lru.value.entries[j]
    {
      KeptTicks(b, l, batch, j);
    }
  }

  /** The commit a landed step makes, if it makes one. */
  lemma CommitIs(w: World, id: LockerId, a: Act) returns (l1: L.Locker, main: Build)
    requires Possible(w, On(id, a)) && (a.Write? || a.Transact? || a.Flush?) && a.fate.Lands?
    requires CommittedBatch(w.lockers[id], a) != []
    ensures LockerOutcome(w, id, a) == L.Landed(w.bank, l1, main, CommittedBatch(w.lockers[id], a))
    ensures l1.lru == w.lockers[id].lru && l1.id == w.lockers[id].id && Plain(main.ops)
  {
    var b, l := w.bank, w.lockers[id];
    if a.Write? && !l.cfg.IsDeferred() {
      l1 := l.(index := L.IndexAfter(l.index, a.p), knownInline := L.InlineAfter(l, a.p));
      main := L.ImmediateBuild(b, l, a.p);
      ImmediateIsPlain(b, l, a.p);
    } else {
      var batch := CommittedBatch(l, a);
      main := BatchOps(b.store, l.id, l.cfg.chunkSize, batch, b.next);
      BatchIsPlain(b.store, l.id, l.cfg.chunkSize, batch, b.next);
      match a
      case Write(p, _) => l1 := L.Staged(l, p).(staged := []);
      case Transact(tx, _) => l1 := l.(staged := [], index := L.IndexAfterAll(l.index, tx), knownInline := {});
      case Flush(_) => l1 := l.(staged := []);
    }
  }

  /**
   Writing is a use: after a landed commit the keys it put share one tick no account exceeds, every other account is
   as it was, and is older unless the bank had handed out no tick before.
   */
  lemma WriteIsUse(w: World, id: LockerId, a: Act, k: Key, w1: World)
    requires ClockAhead(w) && Leads(w, On(id, a), w1)
    requires (a.Write? || a.Transact? || a.Flush?) && a.fate.Lands?
    requires w.lockers[id].lru.Some? && Puts(CommittedBatch(w.lockers[id], a), k)
    ensures var batch, before, after := CommittedBatch(w.lockers[id], a), Held(w, id), Held(w1, id);
      && k in after
      && (forall j :: j in after ==> after[j].tick <= after[k].tick)
      && (forall j :: j in after && Puts(batch, j) ==> after[j].tick == after[k].tick)
      && (forall j :: j in after && !Puts(batch, j) ==> j in before && after[j] == before[j])
      && ((forall j :: j in after && !Puts(batch, j) ==> after[j].tick < after[k].tick)
          <==> Clock(w.bank) > 0 || forall j :: j in after ==> Puts(batch, j))
  {
    var b, l, batch := w.bank, w.lockers[id], CommittedBatch(w.lockers[id], a);
    assert LockerBehind(b, id, l);
    assert batch != [];
    var l1, main := CommitIs(w, id, a);
    LandedUses(b, l1, main, batch, k);
    ActLeads(w, id, a, w1);
    AmongPuts(Held(w, id), Held(w1, id), batch, k, Clock(b));
  }

  lemma ActLeads(w: World, id: LockerId, a: Act, w1: World)
    requires Leads(w, On(id, a), w1) && !WriterAct(a)
    ensures id in w1.lockers && w1.lockers[id] == LockerOutcome(w, id, a).locker
  {
  }

  lemma AmongPuts(before: Entries, after: Entries, batch: seq<Pending>, k: Key, tick: nat)
    requires TicksBelow(before, Max(tick, 1)) && k in after && Puts(batch, k)
    requires forall j :: j in after && Puts(batch, j) ==> after[j].tick == tick
    requires forall j :: j in after && !Puts(batch, j) ==> j in before && after[j] == before[j]
    ensures forall j :: j in after ==> after[j].tick <= tick
    ensures (forall j :: j in after && !Puts(batch, j) ==> after[j].tick < tick)
            <==> tick > 0 || forall j :: j in after ==> Puts(batch, j)
  {
    if tick == 0 && exists j :: j in after && !Puts(batch, j) {
      var j :| j in after && !Puts(batch, j);
      assert !(after[j].tick < tick);
    }
  }

  /** The youngest account goes only after every other that could, whatever commit plans the eviction. */
  lemma YoungestGoesLast(entries: Entries, total: nat, updates: seq<Update>, removals: seq<Key>, budget: nat,
                         keep: seq<Key>, j: Key, k: Key)
    requires DistinctKeys(KeysOf(updates)) && forall r :: r in removals ==> r !in KeysOf(updates)
    requires j in entries && k in entries && entries[j].tick < entries[k].tick
    requires j !in KeysOf(updates) && k !in KeysOf(updates) && j !in removals && j !in keep
    ensures var victims := PlanFor(entries, total, updates, removals, false, budget, keep).victims;
      k in victims ==> j in victims
  {
    var kept := Kept(entries, updates, removals, false);
    PutAllAt(RemoveAll(entries, removals), updates);
    VictimsAre(entries, total, updates, removals, false, budget, keep);
    if k in PlanFor(entries, total, updates, removals, false, budget, keep).victims {
      OlderGoFirst(entries, total, updates, removals, false, budget, keep, j, k);
    }
  }

  /** So of the accounts a read has passed over, none outlives the key read, in any plan made before the next use. */
  lemma ReadKeyGoesLast(w: World, id: LockerId, k: Key, w1: World, total: nat, updates: seq<Update>,
                        removals: seq<Key>, budget: nat, keep: seq<Key>, j: Key)
    requires ClockAhead(w) && Leads(w, On(id, Get(k)), w1) && Clock(w.bank) > 0
    requires L.StagedView(w.lockers[id].staged, k) == None && k in Held(w, id)
    requires k in w.bank.store.Recs(id) && Loads(w.bank.store, w.bank.store.Recs(id)[k])
    requires DistinctKeys(KeysOf(updates)) && forall r :: r in removals ==> r !in KeysOf(updates)
    requires j in Held(w, id) && j != k && j !in removals && j !in keep
    requires j !in KeysOf(updates) && k !in KeysOf(updates)
    ensures var victims := PlanFor(Held(w1, id), total, updates, removals, false, budget, keep).victims;
      k in victims ==> j in victims
  {
    ReadIsUse(w, id, k, w1);
    YoungestGoesLast(Held(w1, id), total, updates, removals, budget, keep, j, k);
  }

  /**
   The first tick of a bank is 0, which is also the tick of a key adopted without a row: read before anything was
   written under a budget, such a key is no younger than another one never read.
   */
  lemma FirstReadTies(s: Store, id: LockerId, k: Key, j: Key, maxBytes: nat)
    requires s.LruRows(id) == map[] && s.nextTick == None && {j, k} <= s.Recs(id).Keys && j != k
    ensures var a := L.OpenLru(s, id, maxBytes);
            var used := L.Touched(a, k, NextTick(TickState(None, 0), s.nextTick));
      used.entries[k].tick == used.entries[j].tick == 0
  {
  }

  // ---- shedding on demand --------------------------------------------

  /**
   The oldest accounts are gone and the rest untouched; what is left adds up to no more than the limit, and with one of
   those gone it would have been more.
   */
  ghost predicate DownTo(before: Entries, after: Entries, limit: nat)
  {
    && after.Keys <= before.Keys && Sum(after) <= limit && (forall k :: k in after ==> after[k] == before[k])
    && (Sum(before) <= limit ==> after == before)
    && (forall v, k :: v in before && v !in after && k in after ==>
          before[v].tick < before[k].tick || (before[v].tick == before[k].tick && Less(v, k)))
    && (after != before ==> exists v :: v in before && v !in after && Sum(after) + before[v].bytes > limit)
  }

  /** `evict_to` brings a locker down to the bytes asked for, oldest accounts first, and no further. */
  lemma EvictsDownTo(w: World, id: LockerId, limit: nat, w1: World, tracked: set<LockerId>)
    requires WorldOk(w, tracked) && id in tracked && Leads(w, On(id, Evict(limit, L.Lands)), w1)
    requires Sum(Held(w, id)) <= U64_MAX
    ensures DownTo(Held(w, id), Held(w1, id), limit)
  {
    assert LockerOk(w.bank.store, id, w.lockers[id], tracked);
    Shedding(w.bank, w.lockers[id], limit);
    EvictLeads(w, id, limit, w1);
    ShedDownTo(w.lockers[id].lru.value, limit);
  }

  lemma EvictLeads(w: World, id: LockerId, limit: nat, w1: World)
    requires Leads(w, On(id, Evict(limit, L.Lands)), w1)
    ensures id in w1.lockers && w1.lockers[id] == L.EvictTo(w.bank, w.lockers[id], limit, L.Lands).locker
  {
  }

  lemma ShedDownTo(a: LruState, limit: nat)
    requires a.total == Sum(a.entries) <= U64_MAX
    ensures DownTo(a.entries, RemoveAll(a.entries, Bytewise.PlanVictims(a, limit)), limit)
  {
    var victims := Bytewise.PlanVictims(a, limit);
    NothingWritten(a.entries, victims);
    assert PlanInput(a.entries, a.total, [], [], false);
    PlanSoundAndMinimal(a.entries, a.total, [], [], false, limit, []);
    NothingLeft(RemoveAll(a.entries, victims), limit);
    VictimsGone(a.entries, victims, limit);
  }

  lemma VictimsGone(m: Entries, victims: seq<Key>, limit: nat)
    requires Sum(RemoveAll(m, victims)) <= limit && forall v :: v in victims ==> v in m
    requires forall v, k :: v in victims && k in RemoveAll(m, victims) ==> Older(Lru.Account(m, v), Lru.Account(m, k))
    requires victims != [] ==>
               var last := victims[|victims| - 1]; Sum(RemoveAll(m, victims)) + m[last].bytes > limit
    requires Sum(m) <= limit ==> victims == []
    ensures DownTo(m, RemoveAll(m, victims), limit)
  {
    var after := RemoveAll(m, victims);
    forall v, k | v in m && v !in after && k in after
      ensures m[v].tick < m[k].tick || (m[v].tick == m[k].tick && Less(v, k))
    {
      assert v in victims && Older(Lru.Account(m, v), Lru.Account(m, k));
    }
    if victims == [] {
      assert after == m;
    } else {
      assert victims[|victims| - 1] in victims;
    }
  }

  lemma NothingLeft(m: Entries, limit: nat)
    ensures (forall k :: k !in m) ==> Sum(m) <= limit
  {
    if forall k :: k !in m { assert m == map[]; }
  }

  lemma NothingWritten(entries: Entries, victims: seq<Key>)
    ensures UpdateBytes([]) == 0 && KeysOf([]) == [] && Kept(entries, [], [], false) == entries
    ensures EntriesAfter(entries, [], [], false, victims) == RemoveAll(entries, victims)
  {
    assert RemoveAll(entries, []) == entries;
  }

  lemma Shedding(b: L.Bank, l: L.Locker, limit: nat)
    requires l.lru.Some?
    ensures var o, victims := L.EvictTo(b, l, limit, L.Lands), Bytewise.PlanVictims(l.lru.value, limit);
      && o.evicted == victims && o.locker.lru.Some?
      && o.locker.lru.value.entries == RemoveAll(l.lru.value.entries, victims)
  {
    var entries := l.lru.value.entries;
    NothingWritten(entries, Bytewise.PlanVictims(l.lru.value, limit));
    assert RemoveAll(entries, []) == entries;
  }

  // ---- what a reopen will know ---------------------------------------

  /** Bumps still to be written are the accounts' own ticks; every other account's tick is in its row. */
  ghost predicate WrittenDown(rows: map<Key, Entry>, entries: Entries, pending: map<Key, nat>)
  {
    && (forall k :: k in pending ==> k in entries && pending[k] == entries[k].tick)
    && (forall k :: k in entries && k !in pending ==> k in rows && rows[k].tick == entries[k].tick)
  }

  function TickAt(m: map<Key, Entry>, k: Key): Option<nat> { if k in m then Some(m[k].tick) else None }

  lemma {:induction false} UpdateTicks(s: Store, id: LockerId, updates: seq<Update>, tick: nat, k: Key)
    requires forall i :: 0 <= i < |updates| ==> updates[i].entry.tick == tick
    ensures TickAt(ApplyAll(s, UpdateOps(id, updates)).LruRows(id), k) ==
              if k in KeysOf(updates) then Some(tick) else TickAt(s.LruRows(id), k)
    decreases |updates|
  {
    if updates != [] {
      var n := |updates| - 1;
      UpdateTicks(s, id, updates[..n], tick, k);
      assert UpdateOps(id, updates)[..n] == UpdateOps(id, updates[..n]);
      assert UpdateOps(id, updates)[n] == PutLru(id, updates[n].key, updates[n].entry);
      assert KeysOf(updates) == KeysOf(updates[..n]) + [updates[n].key];
    }
  }

  lemma {:induction false} CarriedTicks(s: Store, a: LruState, id: LockerId, keys: seq<Key>, skip: seq<Key>, k: Key)
    requires forall j :: j in keys ==> j in a.pending
    ensures TickAt(ApplyAll(s, CarriedOps(a, id, keys, skip)).LruRows(id), k) ==
              if k in keys && k !in skip && k in a.entries then Some(a.pending[k]) else TickAt(s.LruRows(id), k)
    decreases |keys|
  {
    if keys != [] {
      var init, j := keys[..|keys| - 1], keys[|keys| - 1];
      assert keys == init + [j];
      CarriedTicks(s, a, id, init, skip, k);
      if j !in skip && j in a.entries {
        RowWritten(s, CarriedOps(a, id, init, skip), id, j, Entry(a.pending[j], a.entries[j].bytes), k);
      }
    }
  }

  lemma RowWritten(s: Store, ops: seq<Op>, id: LockerId, j: Key, e: Entry, k: Key)
    ensures TickAt(ApplyAll(s, ops + [PutLru(id, j, e)]).LruRows(id), k) ==
              if k == j then Some(e.tick) else TickAt(ApplyAll(s, ops).LruRows(id), k)
  {
    ApplyAppend(s, ops, [PutLru(id, j, e)]);
    ApplyOne(ApplyAll(s, ops), PutLru(id, j, e));
  }

  lemma {:induction false} RemovalTicks(s: Store, id: LockerId, keys: seq<Key>, k: Key)
    ensures TickAt(ApplyAll(s, RemovalOps(id, keys)).LruRows(id), k) ==
              if k in keys then None else TickAt(s.LruRows(id), k)
    decreases |keys|
  {
    if keys != [] {
      var n := |keys| - 1;
      assert keys == keys[..n] + [keys[n]];
      RemovalTicks(s, id, keys[..n], k);
      assert RemovalOps(id, keys)[..n] == RemovalOps(id, keys[..n]);
      assert RemovalOps(id, keys)[n] == DeleteLru(id, keys[n]);
    }
  }

  lemma {:induction false} RowsUntouched(s: Store, ops: seq<Op>, id: LockerId)
    requires forall op <- ops :: !op.TouchesLru()
    ensures ApplyAll(s, ops).LruRows(id) == s.LruRows(id)
    decreases |ops|
  {
    if ops != [] {
      assert ops[|ops| - 1] in ops;
      RowsUntouched(s, ops[..|ops| - 1], id);
    }
  }

  lemma {:induction false} VictimTicks(s0: Store, s: Store, id: LockerId, victims: seq<Key>, k: Key)
    ensures TickAt(ApplyAll(s, VictimOps(s0, id, victims)).LruRows(id), k) ==
              if k in victims then None else TickAt(s.LruRows(id), k)
    decreases |victims|
  {
    if victims != [] {
      var init, v := victims[..|victims| - 1], victims[|victims| - 1];
      assert victims == init + [v];
      VictimTicks(s0, s, id, init, k);
      OneVictimMore(s0, s, id, victims);
      RowGone(s0, ApplyAll(s, VictimOps(s0, id, init)), id, v, k);
    }
  }

  lemma OneVictimMore(s0: Store, s: Store, id: LockerId, victims: seq<Key>)
    requires victims != []
    ensures var init, v := victims[..|victims| - 1], victims[|victims| - 1];
      ApplyAll(s, VictimOps(s0, id, victims))
      == ApplyAll(ApplyAll(s, VictimOps(s0, id, init)), DeleteOps(s0, id, v, Unknown) + [DeleteLru(id, v)])
  {
    var init, v := victims[..|victims| - 1], victims[|victims| - 1];
    var gone := DeleteOps(s0, id, v, Unknown) + [DeleteLru(id, v)];
    assert VictimOps(s0, id, victims) == VictimOps(s0, id, init) + gone;
    ApplyAppend(s, VictimOps(s0, id, init), gone);
  }

  lemma RowGone(s0: Store, t: Store, id: LockerId, v: Key, k: Key)
    ensures TickAt(ApplyAll(t, DeleteOps(s0, id, v, Unknown) + [DeleteLru(id, v)]).LruRows(id), k) ==
              if k == v then None else TickAt(t.LruRows(id), k)
  {
    var gone := DeleteOps(s0, id, v, Unknown);
    ApplyAppend(t, gone, [DeleteLru(id, v)]);
    ApplyOne(ApplyAll(t, gone), DeleteLru(id, v));
    RowsUntouched(t, gone, id);
  }

  /** The tick in the row of a key once the row ops are in. */
  lemma RowTicksAfter(s: Store, a: LruState, id: LockerId, p: BudgetPlan, tick: nat, k: Key)
    requires forall i :: 0 <= i < |p.updates| ==> p.updates[i].entry.tick == tick
    ensures k in PendingBatch(a) ==> k in a.pending
    ensures TickAt(ApplyAll(s, RowOps(a, id, p)).LruRows(id), k) ==
              if k in p.removals then None
              else if k in KeysOf(p.updates) then Some(tick)
              else if p.cleared then None
              else if k in PendingBatch(a) && k in a.entries then Some(a.pending[k])
              else TickAt(s.LruRows(id), k)
  {
    PendingBatchIs(a);
    var clear: seq<Op> := if p.cleared then [ClearLru(id)] else [];
    var updates := UpdateOps(id, p.updates);
    var carried := if p.cleared then [] else CarriedOps(a, id, PendingBatch(a), KeysOf(p.updates));
    var s1 := ApplyAll(s, clear);
    if p.cleared { ApplyOne(s, ClearLru(id)); }
    var s2 := ApplyAll(s1, updates);
    UpdateTicks(s1, id, p.updates, tick, k);
    var s3 := ApplyAll(s2, carried);
    CarriedTicks(s2, a, id, PendingBatch(a), KeysOf(p.updates), k);
    RemovalTicks(s3, id, p.removals, k);
    FourParts(s, clear, updates, carried, RemovalOps(id, p.removals));
  }

  lemma FourParts(s: Store, a: seq<Op>, b: seq<Op>, c: seq<Op>, d: seq<Op>)
    ensures ApplyAll(s, a + b + c + d) == ApplyAll(ApplyAll(ApplyAll(ApplyAll(s, a), b), c), d)
  {
    ApplyAppend(s, a, b);
    ApplyAppend(s, a + b, c);
    ApplyAppend(s, a + b + c, d);
  }

  /** The same after the whole commit: evicted rows are gone, and the clock changes none. */
  lemma CommittedTicks(b: L.Bank, l: L.Locker, main: Build, batch: seq<Pending>, k: Key)
    requires l.lru.Some? && forall op <- main.ops :: !op.TouchesLru()
    ensures k in PendingBatch(l.lru.value) ==> k in l.lru.value.pending
    ensures var a, p, o := l.lru.value, L.PlanOf(b, l, batch), L.Landed(b, l, main, batch);
      TickAt(o.bank.store.LruRows(l.id), k) ==
        if k in p.plan.victims || k in p.removals then None
        else if k in KeysOf(p.updates) then Some(Clock(b))
        else if p.cleared then None
        else if k in PendingBatch(a) && k in a.entries then Some(a.pending[k])
        else TickAt(b.store.LruRows(l.id), k)
  {
    var a, p := l.lru.value, L.PlanOf(b, l, batch);
    var t := ApplyAll(b.store, main.ops);
    RowsUntouched(b.store, main.ops, l.id);
    RowTicksAfter(t, a, l.id, p, Clock(b), k);
    VictimTicks(b.store, ApplyAll(t, RowOps(a, l.id, p)), l.id, p.plan.victims, k);
    LandedRows(b, l, main, batch);
  }

  lemma LandedRows(b: L.Bank, l: L.Locker, main: Build, batch: seq<Pending>)
    requires l.lru.Some?
    ensures var a, p := l.lru.value, L.PlanOf(b, l, batch);
      L.Landed(b, l, main, batch).bank.store.LruRows(l.id)
      == ApplyAll(ApplyAll(ApplyAll(b.store, main.ops), RowOps(a, l.id, p)),
                  VictimOps(b.store, l.id, p.plan.victims)).LruRows(l.id)
  {
    Invariants.ClockLast(b.store, ApplyAll(b.store, main.ops), l.lru.value, l.id, L.PlanOf(b, l, batch),
                         L.TicksAfter(b, l));
    ApplyAppend(b.store, main.ops, L.ExtraOps(b, l, batch));
  }

  /** Every bump of a key the batch puts is among those the commit takes care of. */
  ghost predicate Prompt(a: LruState, batch: seq<Pending>)
  {
    HasClear(batch) || forall k :: k in a.pending && Puts(batch, k) ==> k in PendingBatch(a)
  }

  /** The bumps a commit takes care of are the first pending ones it still has an account for, or has one again. */
  lemma {:induction false} CarriedAre(a: LruState, keys: seq<Key>, skip: seq<Key>)
    ensures forall k :: k in CarriedKeys(a, keys, skip) <==> k in keys && (k in skip || k in a.entries)
    decreases |keys|
  {
    if keys != [] {
      assert keys == keys[..|keys| - 1] + [keys[|keys| - 1]];
      CarriedAre(a, keys[..|keys| - 1], skip);
    }
  }

  /** Which bumps are left. */
  lemma PendingAfter(b: L.Bank, l: L.Locker, batch: seq<Pending>, k: Key)
    requires l.lru.Some?
    ensures var a, p := l.lru.value, L.PlanOf(b, l, batch);
            var after := Applied(a, p).pending;
      && (k in after <==>
            && k in a.pending && !p.cleared && k !in p.removals && k !in p.plan.victims
            && !(k in PendingBatch(a) && (k in KeysOf(p.updates) || k in a.entries)))
      && (k in after ==> after[k] == a.pending[k])
  {
    var a, p := l.lru.value, L.PlanOf(b, l, batch);
    if !p.cleared { CarriedAre(a, PendingBatch(a), KeysOf(p.updates)); }
  }

  /**
   A commit leaves bumps and rows telling each account's own tick exactly when no bump of a key it puts is left over:
   one that is, among more than a commit carries, is later written over the fresher tick.
   */
  lemma CommitWritesDown(b: L.Bank, l: L.Locker, main: Build, batch: seq<Pending>)
    requires l.lru.Some? && HeldBelow(l, b) && forall op <- main.ops :: !op.TouchesLru()
    requires WrittenDown(b.store.LruRows(l.id), l.lru.value.entries, l.lru.value.pending)
    ensures var o := L.Landed(b, l, main, batch);
      WrittenDown(o.bank.store.LruRows(l.id), o.locker.lru.value.entries, o.locker.lru.value.pending)
      <==> Prompt(l.lru.value, batch)
  {
    var o := L.Landed(b, l, main, batch);
    var rows, a := o.bank.store.LruRows(l.id), o.locker.lru.value;
    forall k ensures WrittenAt(rows, a.entries, a.pending, k) <==> PromptAt(l.lru.value, batch, k) {
      WritesDownAt(b, l, main, batch, k);
    }
    OneByOne(rows, a.entries, a.pending);
    PromptOneByOne(l.lru.value, batch);
  }

  /** One of the first 64 bumps in key order. */
  ghost predicate SoonWritten(pending: map<Key, nat>, k: Key)
  {
    exists i :: 0 <= i < 64 && i < |Sorted(pending.Keys)| && Sorted(pending.Keys)[i] == k
  }

  lemma SoonCarried(a: LruState, k: Key)
    requires SoonWritten(a.pending, k)
    ensures k in PendingBatch(a) && k in a.pending
  {
    var bumped := Sorted(a.pending.Keys);
    SortedIs(a.pending.Keys);
    var i :| 0 <= i < 64 && i < |bumped| && bumped[i] == k;
    assert PendingBatch(a)[i] == k;
    assert k in bumped;
  }

  /**
   Bumps do not wait for ever: a commit that clears nothing writes down the first 64 of them, in key order, of the keys
   that keep an account.
   */
  lemma BumpsGetWritten(b: L.Bank, l: L.Locker, main: Build, batch: seq<Pending>, k: Key)
    requires l.lru.Some? && !HasClear(batch) && SoonWritten(l.lru.value.pending, k)
    requires forall op <- main.ops :: !op.TouchesLru()
    ensures var o := L.Landed(b, l, main, batch);
      k in l.lru.value.pending && (k in o.locker.lru.value.entries ==>
        && k !in o.locker.lru.value.pending
        && TickAt(o.bank.store.LruRows(l.id), k) == Some(if Puts(batch, k) then Clock(b) else l.lru.value.pending[k]))
  {
    SoonCarried(l.lru.value, k);
    CommittedTicks(b, l, main, batch, k);
    PendingAfter(b, l, batch, k);
    EntryAfter(b, l, main, batch, k);
  }

  lemma PromptOneByOne(a: LruState, batch: seq<Pending>)
    ensures Prompt(a, batch) <==> forall k :: PromptAt(a, batch, k)
  {
    if forall k :: PromptAt(a, batch, k) {
      forall k | k in a.pending && Puts(batch, k) && !HasClear(batch) ensures k in PendingBatch(a) {
        assert PromptAt(a, batch, k);
      }
    }
  }

  predicate WrittenAt(rows: map<Key, Entry>, entries: Entries, pending: map<Key, nat>, k: Key)
  {
    && (k in pending ==> k in entries && pending[k] == entries[k].tick)
    && (k in entries && k !in pending ==> k in rows && rows[k].tick == entries[k].tick)
  }

  ghost predicate PromptAt(a: LruState, batch: seq<Pending>, k: Key)
  {
    HasClear(batch) || (k in a.pending && Puts(batch, k) ==> k in PendingBatch(a))
  }

  lemma OneByOne(rows: map<Key, Entry>, entries: Entries, pending: map<Key, nat>)
    ensures WrittenDown(rows, entries, pending) <==> forall k :: WrittenAt(rows, entries, pending, k)
  {
    if WrittenDown(rows, entries, pending) {
      forall k ensures WrittenAt(rows, entries, pending, k) {}
    }
    if forall k :: WrittenAt(rows, entries, pending, k) {
      forall k | k in pending ensures k in entries && pending[k] == entries[k].tick {
        assert WrittenAt(rows, entries, pending, k);
      }
      forall k | k in entries && k !in pending ensures k in rows && rows[k].tick == entries[k].tick {
        assert WrittenAt(rows, entries, pending, k);
      }
    }
  }

  lemma WritesDownAt(b: L.Bank, l: L.Locker, main: Build, batch: seq<Pending>, k: Key)
    requires l.lru.Some? && HeldBelow(l, b) && forall op <- main.ops :: !op.TouchesLru()
    requires WrittenDown(b.store.LruRows(l.id), l.lru.value.entries, l.lru.value.pending)
    ensures var o := L.Landed(b, l, main, batch);
      WrittenAt(o.bank.store.LruRows(l.id), o.locker.lru.value.entries, o.locker.lru.value.pending, k)
      <==> PromptAt(l.lru.value, batch, k)
  {
    var a, p, o := l.lru.value, L.PlanOf(b, l, batch), L.Landed(b, l, main, batch);
    CommittedTicks(b, l, main, batch, k);
    PendingAfter(b, l, batch, k);
    EntryAfter(b, l, main, batch, k);
    assert WrittenAt(b.store.LruRows(l.id), a.entries, a.pending, k);
    Told(b, l, batch, k, TickAt(o.bank.store.LruRows(l.id), k), o.locker.lru.value.entries, o.locker.lru.value.pending);
  }

  /** The account of a key after the commit, and which of the plan's lists name it. */
  lemma EntryAfter(b: L.Bank, l: L.Locker, main: Build, batch: seq<Pending>, k: Key)
    requires l.lru.Some?
    ensures var a, p, after := l.lru.value, L.PlanOf(b, l, batch), L.Landed(b, l, main, batch).locker.lru.value.entries;
      && (k in KeysOf(p.updates) <==> Puts(batch, k)) && p.cleared == HasClear(batch)
      && (Puts(batch, k) ==> k in after && after[k].tick == Clock(b) && k !in p.removals && k !in p.plan.victims)
      && (!Puts(batch, k) ==>
            && (k in after <==> k in a.entries && !p.cleared && k !in p.removals && k !in p.plan.victims)
            && (k in after ==> after[k] == a.entries[k]))
  {
    KeptTicks(b, l, batch, k);
    Invariants.KeptAt(b, l, batch, k);
    Invariants.PlanKeys(b, l, batch);
    Invariants.EvictedUntouched(b, l, batch);
  }

  lemma Told(b: L.Bank, l: L.Locker, batch: seq<Pending>, k: Key, row: Option<nat>, entries: Entries,
             pending: map<Key, nat>)
    requires l.lru.Some? && HeldBelow(l, b)
    requires WrittenAt(b.store.LruRows(l.id), l.lru.value.entries, l.lru.value.pending, k)
    requires var a, p := l.lru.value, L.PlanOf(b, l, batch);
      && (k in PendingBatch(a) ==> k in a.pending)
      && (k in KeysOf(p.updates) <==> Puts(batch, k)) && p.cleared == HasClear(batch)
      && (Puts(batch, k) ==> k in entries && entries[k].tick == Clock(b) && k !in p.removals && k !in p.plan.victims)
      && (!Puts(batch, k) ==>
            && (k in entries <==> k in a.entries && !p.cleared && k !in p.removals && k !in p.plan.victims)
            && (k in entries ==> entries[k] == a.entries[k]))
      && (k in pending <==>
            && k in a.pending && !p.cleared && k !in p.removals && k !in p.plan.victims
            && !(k in PendingBatch(a) && (k in KeysOf(p.updates) || k in a.entries)))
      && (k in pending ==> pending[k] == a.pending[k])
      && row == if k in p.plan.victims || k in p.removals then None
                else if k in KeysOf(p.updates) then Some(Clock(b))
                else if p.cleared then None
                else if k in PendingBatch(a) && k in a.entries then Some(a.pending[k])
                else TickAt(b.store.LruRows(l.id), k)
    ensures var ok := && (k in pending ==> k in entries && pending[k] == entries[k].tick)
                      && (k in entries && k !in pending ==> row == Some(entries[k].tick));
      ok <==> PromptAt(l.lru.value, batch, k)
  {
  }

  /** Reading keeps the bump beside the row. */
  lemma ReadWritesDown(rows: map<Key, Entry>, a: LruState, k: Key, tick: nat)
    requires WrittenDown(rows, a.entries, a.pending)
    ensures WrittenDown(rows, L.Touched(a, k, tick).entries, L.Touched(a, k, tick).pending)
  {
  }

  /** A reopen finds every account's tick where its bumps had been written, and the order between those accounts. */
  lemma ReopenKeepsOrder(s: Store, id: LockerId, a: LruState, maxBytes: nat, j: Key, k: Key)
    requires Invariants.AccountsOk(s, id, a) && WrittenDown(s.LruRows(id), a.entries, a.pending)
    requires j in a.entries && k in a.entries && j !in a.pending && k !in a.pending
    ensures var o := L.OpenLru(s, id, maxBytes);
      && j in o.entries && k in o.entries
      && (o.entries[j].tick < o.entries[k].tick <==> a.entries[j].tick < a.entries[k].tick)
      && o.entries[j].tick == a.entries[j].tick && o.pending == map[]
  {
    assert j in View(s, id) && k in View(s, id);
  }

  /** Every locker of `tracked` has its ticks written down, or a bump for them kept. */
  ghost predicate AllWrittenDown(w: World, tracked: set<LockerId>)
  {
    forall id :: id in w.lockers && id in tracked ==> LockerWritten(w.bank.store, id, w.lockers[id])
  }

  ghost predicate LockerWritten(s: Store, id: LockerId, l: L.Locker)
  {
    l.id == id && l.lru.Some? && WrittenDown(s.LruRows(id), l.lru.value.entries, l.lru.value.pending)
  }

  /** The commit a step makes takes care of the bump of every key it puts. */
  ghost predicate PromptStep(w: World, e: Event)
    requires Possible(w, e)
  {
    e.On? && (e.act.Write? || e.act.Transact? || e.act.Flush?) && w.lockers[e.id].lru.Some? ==>
      Prompt(w.lockers[e.id].lru.value, CommittedBatch(w.lockers[e.id], e.act))
  }

  lemma CommitStepWritten(w: World, id: LockerId, a: Act)
    requires ClockAhead(w) && Possible(w, On(id, a)) && (a.Write? || a.Transact? || a.Flush?)
    requires LockerWritten(w.bank.store, id, w.lockers[id]) && PromptStep(w, On(id, a))
    ensures var o := LockerOutcome(w, id, a); LockerWritten(o.bank.store, id, o.locker)
  {
    var b, l, batch := w.bank, w.lockers[id], CommittedBatch(w.lockers[id], a);
    assert LockerBehind(b, id, l);
    if a.fate.Lands? && batch != [] {
      var l1, main := CommitIs(w, id, a);
      CommitWritesDown(b, l1, main, batch);
    }
  }

  lemma EvictStepWritten(b: L.Bank, id: LockerId, l: L.Locker, limit: nat, fate: L.Fate)
    requires LockerWritten(b.store, id, l)
    ensures var o := L.EvictTo(b, l, limit, fate); LockerWritten(o.bank.store, id, o.locker)
  {
    var o, victims := L.EvictTo(b, l, limit, fate), Bytewise.PlanVictims(l.lru.value, limit);
    if victims != [] && fate.Lands? {
      var a, rows := l.lru.value, o.bank.store.LruRows(id);
      Shedding(b, l, limit);
      forall k ensures WrittenAt(rows, o.locker.lru.value.entries, o.locker.lru.value.pending, k) {
        VictimTicks(b.store, b.store, id, victims, k);
        assert WrittenAt(b.store.LruRows(id), a.entries, a.pending, k);
        assert TickAt(rows, k) == if k in victims then None else TickAt(b.store.LruRows(id), k);
      }
      OneByOne(rows, o.locker.lru.value.entries, o.locker.lru.value.pending);
    }
  }

  lemma ReopenWritten(s: Store, id: LockerId, a: LruState, cfg: L.Config)
    requires Invariants.AccountsOk(s, id, a) && cfg.budget.Some?
    ensures LockerWritten(s, id, L.Open(s, id, cfg))
  {
    assert forall k :: k in s.Recs(id) ==> k in View(s, id);
  }

  lemma LockerStepWritten(w: World, id: LockerId, a: Act, tracked: set<LockerId>)
    requires ClockAhead(w) && WorldOk(w, tracked) && AllWrittenDown(w, tracked) && id in tracked && !WriterAct(a)
    requires Possible(w, On(id, a)) && Respected(w, On(id, a), tracked) && PromptStep(w, On(id, a))
    ensures var o := LockerOutcome(w, id, a); LockerWritten(o.bank.store, id, o.locker)
  {
    assert LockerOk(w.bank.store, id, w.lockers[id], tracked) && LockerWritten(w.bank.store, id, w.lockers[id]);
    if a.Write? || a.Transact? || a.Flush? {
      CommitStepWritten(w, id, a);
    } else {
      QuietStepWritten(w, id, a);
    }
  }

  lemma QuietStepWritten(w: World, id: LockerId, a: Act)
    requires Possible(w, On(id, a)) && (a.Evict? || a.Get? || a.Reopen?)
    requires LockerWritten(w.bank.store, id, w.lockers[id])
    requires a.Reopen? ==> Invariants.AccountsOk(w.bank.store, id, w.lockers[id].lru.value) && a.cfg.budget.Some?
    ensures var o := LockerOutcome(w, id, a); LockerWritten(o.bank.store, id, o.locker)
  {
    var b, l := w.bank, w.lockers[id];
    match a
    case Evict(limit, fate) => EvictStepWritten(b, id, l, limit, fate);
    case Get(k) => ReadWritesDown(b.store.LruRows(id), l.lru.value, k, Clock(b));
    case Reopen(cfg) => ReopenWritten(b.store, id, l.lru.value, cfg);
  }

  lemma WriterStepWritten(w: World, id: LockerId, a: Act, tracked: set<LockerId>)
    requires AllWrittenDown(w, tracked) && WriterAct(a) && Possible(w, On(id, a))
    ensures AllWrittenDown(Steps.Next(w, On(id, a)), tracked)
  {
    var w1, ops := Steps.Next(w, On(id, a)), Bytewise.OpsOf(w, On(id, a));
    WriterOpsPlain(w, id, a);
    WriterLeavesAccounts(w, id, a);
    Bytewise.StepIsOps(w, On(id, a));
    forall j | j in w1.lockers && j in tracked ensures LockerWritten(w1.bank.store, j, w1.lockers[j]) {
      assert LockerWritten(w.bank.store, j, w.lockers[j]);
      RowsUntouched(w.bank.store, ops, j);
    }
  }

  lemma RestartWritten(w: World, e: Event, tracked: set<LockerId>)
    requires WorldOk(w, tracked) && e.Restart? && Possible(w, e) && Respected(w, e, tracked)
    ensures AllWrittenDown(Steps.Next(w, e), tracked)
  {
    var w1 := Steps.Next(w, e);
    forall id | id in w1.lockers && id in tracked ensures LockerWritten(w1.bank.store, id, w1.lockers[id]) {
      assert LockerOk(w.bank.store, id, w.lockers[id], tracked);
      ReopenWritten(w.bank.store, id, w.lockers[id].lru.value, e.cfgs[id]);
    }
  }

  lemma StepWritten(w: World, a: AbsWorld, e: Event, tracked: set<LockerId>)
    requires ClockAhead(w) && Runs.Kept(w, a, tracked) && AllWrittenDown(w, tracked)
    requires Possible(w, e) && Respected(w, e, tracked) && PromptStep(w, e)
    ensures AllWrittenDown(Steps.Next(w, e), tracked)
  {
    if e.Restart? {
      RestartWritten(w, e, tracked);
    } else if WriterAct(e.act) {
      WriterStepWritten(w, e.id, e.act, tracked);
    } else {
      OneLockerWritten(w, a, e.id, e.act, tracked);
    }
  }

  lemma OneLockerWritten(w: World, a: AbsWorld, id: LockerId, act: Act, tracked: set<LockerId>)
    requires ClockAhead(w) && Runs.Kept(w, a, tracked) && AllWrittenDown(w, tracked) && !WriterAct(act)
    requires Possible(w, On(id, act)) && Respected(w, On(id, act), tracked) && PromptStep(w, On(id, act))
    ensures AllWrittenDown(Steps.Next(w, On(id, act)), tracked)
  {
    var o := LockerOutcome(w, id, act);
    assert Invariants.OthersKept(w.bank.store, o.bank.store, id) by { Runs.LockerStep(w, a, id, act, tracked); }
    if id in tracked { LockerStepWritten(w, id, act, tracked); }
    OneWritten(w, id, o, tracked);
  }

  lemma OneWritten(w: World, id: LockerId, o: L.Outcome, tracked: set<LockerId>)
    requires AllWrittenDown(w, tracked) && Invariants.OthersKept(w.bank.store, o.bank.store, id)
    requires id in tracked ==> LockerWritten(o.bank.store, id, o.locker)
    ensures AllWrittenDown(w.(bank := o.bank, lockers := w.lockers[id := o.locker]), tracked)
  {
    forall j | j in w.lockers && j in tracked && j != id ensures LockerWritten(o.bank.store, j, w.lockers[j]) {
      assert LockerWritten(w.bank.store, j, w.lockers[j]);
    }
  }

  /**
   Over every run whose commits take care of the bumps of what they put, reopened lockers and restarts included, every
   account's tick is in its row or kept as a bump: nothing of the order of use is lost but bumps not yet written.
   */
  lemma AlwaysWrittenDown(worlds: seq<World>, events: seq<Event>, tracked: set<LockerId>)
    requires Runs.IsRun(worlds, events, tracked) && Runs.Initial(worlds[0], tracked)
    requires forall i :: 0 <= i < |events| ==> TakesCare(worlds[i], events[i])
    ensures forall i :: 0 <= i < |worlds| ==> AllWrittenDown(worlds[i], tracked)
  {
    var maps := CarefulRun(worlds, events, tracked);
    InitialWritten(worlds[0], tracked);
    for n := 0 to |events|
      invariant forall i :: 0 <= i <= n ==> AllWrittenDown(worlds[i], tracked)
    {
      FollowWritten(worlds[n], maps[n], events[n], worlds[n + 1], tracked);
    }
  }

  /** One event of such a run, from a state the invariants hold of. */
  ghost predicate Careful(w: World, a: AbsWorld, e: Event, w1: World, tracked: set<LockerId>)
  {
    ClockAhead(w) && Runs.Kept(w, a, tracked) && Runs.Takes(w, e, w1, tracked) && TakesCare(w, e)
  }

  lemma CarefulRun(worlds: seq<World>, events: seq<Event>, tracked: set<LockerId>) returns (maps: seq<AbsWorld>)
    requires Runs.IsRun(worlds, events, tracked) && Runs.Initial(worlds[0], tracked)
    requires forall i :: 0 <= i < |events| ==> TakesCare(worlds[i], events[i])
    ensures |maps| == |worlds|
    ensures forall n {:trigger events[n]} :: 0 <= n < |events| ==>
      Careful(worlds[n], maps[n], events[n], worlds[n + 1], tracked)
  {
    AlwaysAhead(worlds, events, tracked);
    maps := Runs.RunsRefineMaps(worlds, events, tracked);
    forall n | 0 <= n < |events| ensures Careful(worlds[n], maps[n], events[n], worlds[n + 1], tracked) {
      assert Runs.Takes(worlds[n], events[n], worlds[n + 1], tracked) && TakesCare(worlds[n], events[n]);
    }
  }

  lemma FollowWritten(w: World, a: AbsWorld, e: Event, w1: World, tracked: set<LockerId>)
    requires Careful(w, a, e, w1, tracked) && AllWrittenDown(w, tracked)
    ensures AllWrittenDown(w1, tracked)
  {
    StepWritten(w, a, e, tracked);
  }

  ghost predicate TakesCare(w: World, e: Event) { Possible(w, e) && PromptStep(w, e) }

  lemma InitialWritten(w: World, tracked: set<LockerId>)
    requires Runs.Initial(w, tracked)
    ensures AllWrittenDown(w, tracked)
  {
  }
}
