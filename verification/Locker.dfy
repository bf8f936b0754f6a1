/**
 One lazy locker's steps, as functions on the bank's store and cursors and on the locker's resident
 state: the key index, the known-inline markers, the staged batch and the byte budget.
 */
module LockerSteps {
  import opened Wrappers
  import opened Bytes
  import opened Storage
  import opened Ownership
  import opened Inner
  import opened Batches
  import opened Transaction
  import opened Lru
  import opened Accounting
  import opened Budget
  import opened LogicalClock
  import ValueIdCursor

  datatype CommitMode = Immediate | Deferred(after: nat)

  /** `budget` is the byte limit of an evictable locker, absent on a precious one. */
  datatype Config = Config(chunkSize: nat, commit: CommitMode, budget: Option<nat>)
  {
    /** A batch of nought or one is not deferral. */
    predicate IsDeferred() { commit.Deferred? && commit.after > 1 }
  }

  datatype Locker = Locker(
    id: LockerId, cfg: Config, index: set<Key>, knownInline: set<Key>, staged: seq<Pending>, lru: Option<LruState>)

  /** The store, and the two RAM cursors every locker of the bank shares. */
  datatype Bank = Bank(store: Store, next: Option<nat>, ticks: TickState)

  /**
   How one attempt ends. A failed attempt (an unreadable or full backend, an exhausted counter) has
   written nothing, but may have moved the RAM cursors forward.
   */
  datatype Fate = Lands | Fails(next: Option<nat>, ticks: TickState)

  ghost predicate Admissible(b: Bank, fate: Fate)
  {
    fate.Fails? ==>
      && Cursor(b.store, b.next) <= Cursor(b.store, fate.next)
      && (b.next.Some? ==> fate.next.Some?)
      && Onward(b.ticks, fate.ticks, b.store.nextTick)
  }

  /** What a step leaves: the bank, the locker, whether it succeeded, and the keys it evicted. */
  datatype Outcome = Outcome(bank: Bank, locker: Locker, ok: bool, evicted: seq<Key>)

  function Failed(b: Bank, l: Locker, fate: Fate): Outcome
    requires fate.Fails?
  {
    Outcome(Bank(b.store, fate.next, fate.ticks), l, false, [])
  }

  // ---- what this locker can prove about a key ------------------------

  function PriorOf(l: Locker, k: Key): Prior
  {
    if l.staged != [] then Unknown
    else if k !in l.index then Absent
    else if k in l.knownInline then KnownInline
    else Unknown
  }

  // ---- the byte budget -----------------------------------------------

  ghost function PlanOf(b: Bank, l: Locker, batch: seq<Pending>): BudgetPlan
  {
    if l.lru.None? then NO_BUDGET
    else PlanBudget(l.lru.value, NextTick(b.ticks, b.store.nextTick), Accounted(batch))
  }

  ghost function TicksAfter(b: Bank, l: Locker): TickState
  {
    if l.lru.None? then b.ticks else Issue(b.ticks, NextTick(b.ticks, b.store.nextTick))
  }

  ghost function ExtraOps(b: Bank, l: Locker, batch: seq<Pending>): seq<Op>
  {
    if l.lru.None? then []
    else BudgetOps(b.store, l.lru.value, l.id, PlanOf(b, l, batch), TicksAfter(b, l))
  }

  /** Evicted keys leave the index and the accounts follow, once the commit has landed. */
  function Settle(l: Locker, p: BudgetPlan): Locker
  {
    var gone := set k | k in p.plan.victims;
    l.(lru := if l.lru.Some? then Some(Applied(l.lru.value, p)) else None,
       index := l.index - gone, knownInline := l.knownInline - gone)
  }

  /** One landed commit of `main` plus the budget ops of `batch`; `l` already has its index updated. */
  ghost function Landed(b: Bank, l: Locker, main: Build, batch: seq<Pending>): Outcome
  {
    var p := PlanOf(b, l, batch);
    Outcome(Bank(ApplyAll(b.store, main.ops + ExtraOps(b, l, batch)), main.next, TicksAfter(b, l)),
            Settle(l, p), true, p.plan.victims)
  }

  // ---- the steps -----------------------------------------------------

  function IndexAfter(index: set<Key>, p: Pending): set<Key>
  {
    match p
    case Put(k, _) => index + {k}
    case Delete(k) => index - {k}
    case Clear => {}
  }

  function IndexAfterAll(index: set<Key>, batch: seq<Pending>): set<Key>
    decreases |batch|
  {
    if batch == [] then index else IndexAfter(IndexAfterAll(index, batch[..|batch| - 1]), batch[|batch| - 1])
  }

  ghost function Flush(b: Bank, l: Locker, fate: Fate): Outcome
    requires l.cfg.chunkSize >= 1
  {
    if l.staged == [] then Outcome(b, l, true, [])
    else if fate.Fails? then Failed(b, l, fate)
    else Landed(b, l.(staged := []), BatchOps(b.store, l.id, l.cfg.chunkSize, l.staged, b.next), l.staged)
  }

  function Staged(l: Locker, p: Pending): Locker
  {
    l.(staged := l.staged + [p], index := IndexAfter(l.index, p),
       knownInline := if p.Clear? then {} else l.knownInline - {p.key})
  }

  /** Stage one write; a full batch is committed at once. */
  ghost function Defer(b: Bank, l: Locker, p: Pending, fate: Fate): Outcome
    requires l.cfg.chunkSize >= 1 && l.cfg.IsDeferred()
  {
    var staged := Staged(l, p);
    if |staged.staged| >= l.cfg.commit.after then Flush(b, staged, fate) else Outcome(b, staged, true, [])
  }

  /** The ops of an immediate write. */
  ghost function ImmediateBuild(b: Bank, l: Locker, p: Pending): Build
    requires l.cfg.chunkSize >= 1
  {
    match p
    case Put(k, payload) =>
      PutBuild(b.store, l.id, l.cfg.chunkSize, k, payload, FLAG_POSTCARD, PriorOf(l, k), b.next)
    case Delete(k) => Build(DeleteOps(b.store, l.id, k, PriorOf(l, k)), b.next)
    case Clear => Build(ClearOps(b.store, l.id), b.next)
  }

  function InlineAfter(l: Locker, p: Pending): set<Key>
  {
    match p
    case Put(k, payload) =>
      if StoresInline(|payload|, l.cfg.chunkSize, FLAG_POSTCARD) then l.knownInline + {k} else l.knownInline - {k}
    case Delete(k) => l.knownInline - {k}
    case Clear => {}
  }

  /** `put_by`, `delete_by` and `clear`. */
  ghost function Write(b: Bank, l: Locker, p: Pending, fate: Fate): Outcome
    requires l.cfg.chunkSize >= 1
  {
    if l.cfg.IsDeferred() then Defer(b, l, p, fate)
    else if fate.Fails? then Failed(b, l, fate)
    else
      Landed(b, l.(index := IndexAfter(l.index, p), knownInline := InlineAfter(l, p)), ImmediateBuild(b, l, p), [p])
  }

  /** A whole transaction: the staged batch is absorbed, staged first. */
  ghost function Transact(b: Bank, l: Locker, tx: seq<Pending>, fate: Fate): Outcome
    requires l.cfg.chunkSize >= 1
  {
    if tx == [] then Outcome(b, l, true, [])
    else if fate.Fails? then Failed(b, l, fate)
    else
      var merged := l.staged + tx;
      Landed(b, l.(staged := [], index := IndexAfterAll(l.index, tx), knownInline := {}),
             BatchOps(b.store, l.id, l.cfg.chunkSize, merged, b.next), merged)
  }

  /** Evict by age down to `bytes`. */
  ghost function EvictTo(b: Bank, l: Locker, bytes: nat, fate: Fate): Outcome
  {
    if l.lru.None? then Outcome(b, l, true, [])
    else
      var plan := PlanFor(l.lru.value.entries, l.lru.value.total, [], [], false, bytes, []);
      if plan.victims == [] then Outcome(b, l, true, [])
      else if fate.Fails? then Failed(b, l, fate)
      else
        Outcome(b.(store := ApplyAll(b.store, VictimOps(b.store, l.id, plan.victims))),
                Settle(l, BudgetPlan([], [], false, plan, [])), true, plan.victims)
  }

  /** The staged answer for a key, newest first: nothing staged, a removal, or a payload. */
  function StagedView(batch: seq<Pending>, k: Key): Option<Option<Payload>>
    decreases |batch|
  {
    if batch == [] then None
    else
      match batch[|batch| - 1]
      case Put(j, payload) => if j == k then Some(Some(payload)) else StagedView(batch[..|batch| - 1], k)
      case Delete(j) => if j == k then Some(None) else StagedView(batch[..|batch| - 1], k)
      case Clear => Some(None)
  }

  /** What `get` answers: nothing when the record it would have to read does not load. */
  function Answer(s: Store, l: Locker, k: Key): Option<Option<Value>>
  {
    match StagedView(l.staged, k)
    case Some(Some(payload)) => Some(Some(Value(FLAG_POSTCARD, payload)))
    case Some(None) => Some(None)
    case None =>
      if k !in s.Recs(l.id) then Some(None)
      else if Loads(s, s.Recs(l.id)[k]) then Some(Some(Decode(s, s.Recs(l.id)[k])))
      else None
  }

  function Touched(l: LruState, k: Key, tick: nat): LruState
  {
    if k in l.entries then
      l.(entries := l.entries[k := l.entries[k].(tick := tick)], pending := l.pending[k := tick])
    else l
  }

  /** `get`: a stored value that is read counts as used; nothing is written. */
  function Get(b: Bank, l: Locker, k: Key): Outcome
  {
    if Answer(b.store, l, k).None? then Outcome(b, l, false, [])
    else if StagedView(l.staged, k).Some? || k !in b.store.Recs(l.id) || l.lru.None? then Outcome(b, l, true, [])
    else
      var tick := NextTick(b.ticks, b.store.nextTick);
      Outcome(b.(ticks := Issue(b.ticks, tick)), l.(lru := Some(Touched(l.lru.value, k, tick))), true, [])
  }

  // ---- what a step reads back ----------------------------------------

  /** No record under `keys` is a pointer the engine could not parse; one such record stops the step that needs it. */
  predicate AllLegible(s: Store, id: LockerId, keys: set<Key>)
  {
    forall k :: k in keys ==> Legible(RecordAt(s, id, k))
  }

  function KeysIn(keys: seq<Key>): set<Key> { set k | k in keys }

  /** The records a commit of `batch` replaces or evicts. */
  ghost function CommitReads(b: Bank, l: Locker, batch: seq<Pending>): set<Key>
  {
    Actions(Tail(batch)).Keys + KeysIn(PlanOf(b, l, batch).plan.victims)
  }

  ghost function FlushReads(b: Bank, l: Locker): set<Key>
  {
    if l.staged == [] then {} else CommitReads(b, l, l.staged)
  }

  /** An immediate write reads the record under its key only when it knows nothing of it. */
  ghost function WriteReads(b: Bank, l: Locker, p: Pending): set<Key>
  {
    if l.cfg.IsDeferred() then
      (if |l.staged| + 1 >= l.cfg.commit.after then FlushReads(b, Staged(l, p)) else {})
    else
      (if !p.Clear? && PriorOf(l, p.key).Unknown? then {p.key} else {}) + KeysIn(PlanOf(b, l, [p]).plan.victims)
  }

  ghost function TransactReads(b: Bank, l: Locker, tx: seq<Pending>): set<Key>
  {
    if tx == [] then {} else CommitReads(b, l, l.staged + tx)
  }

  ghost function EvictReads(l: Locker, bytes: nat): set<Key>
  {
    if l.lru.None? then {}
    else KeysIn(PlanFor(l.lru.value.entries, l.lru.value.total, [], [], false, bytes, []).victims)
  }

  // ---- opening -------------------------------------------------------

  function Zeroes(keys: set<Key>): Entries { map k | k in keys :: Entry(0, 0) }

  /** Accounts read back from storage and reconciled with the keys actually stored. */
  ghost function OpenLru(s: Store, id: LockerId, maxBytes: nat): LruState
  {
    var live := s.Recs(id).Keys;
    var rows := map k | k in s.LruRows(id) && k in live :: s.LruRows(id)[k];
    LruState(maxBytes, Zeroes(live) + rows, Sum(rows), map[])
  }

  function TicksOf(rows: Entries): set<nat> { set k | k in rows :: rows[k].tick }

  /** Reading budget rows back raises the clock above every tick they hold. */
  ghost function Reopened(b: Bank, id: LockerId, cfg: Config): Bank
  {
    var seen := TicksOf(b.store.LruRows(id));
    if cfg.budget.None? || seen == {} then b
    else b.(ticks := Observed(b.ticks, ValueIdCursor.FloorOf(seen) - 1))
  }

  ghost function Open(s: Store, id: LockerId, cfg: Config): Locker
  {
    Locker(id, cfg, s.Recs(id).Keys, {}, [],
           if cfg.budget.Some? then Some(OpenLru(s, id, cfg.budget.value)) else None)
  }
}
