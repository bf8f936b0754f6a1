/**
 The lazy locker as an object over a shared bank: every public call is proved to be exactly one step of
 `LockerSteps`, whatever fails on the way.
 */
module Engine {
  import opened Wrappers
  import opened Bytes
  import opened Storage
  import opened Ownership
  import opened Inner
  import opened Batches
  import opened Transaction
  import opened Lru
  import opened Accounting
  import opened Budget
  import opened LogicalClock
  import ValueIdCursor
  import LruAccounts
  import Listing
  import L = LockerSteps

  /**
   The store and the two cursors every locker of a bank shares. Whether the backend answers is the environment's:
   `answers` says of each read in turn whether it succeeds, `landing` how many more commits it takes before one fails.
   */
  class Bank {
    var store: Store
    const ids: ValueIdCursor.ValueIds
    const ticks: Ticks
    const answers: nat -> bool
    var asked: nat
    var landing: Option<nat>

    constructor (store: Store, answers: nat -> bool)
      ensures this.store == store && this.answers == answers && asked == 0 && landing == None
      ensures fresh(ids) && fresh(ticks)
      ensures State() == L.Bank(store, None, TickState(None, 0))
    {
      this.store, this.answers, asked, landing := store, answers, 0, None;
      ids := new ValueIdCursor.ValueIds();
      ticks := new Ticks();
    }

    ghost function State(): L.Bank
      reads this, ids, ticks
    {
      L.Bank(store, ids.next, ticks.State())
    }

    /** No read will ever fail. */
    ghost predicate Answering()
    {
      forall i :: answers(i)
    }

    /** Nothing the environment or an exhausted counter could hold against `n` allocations. */
    ghost predicate Able(n: nat)
      reads this, ids, ticks
    {
      && Answering() && landing != Some(0)
      && Cursor(store, ids.next) + n <= U64_MAX && NextTick(ticks.State(), store.nextTick) < U64_MAX
    }

    method Read() returns (ok: bool)
      modifies this`asked
      ensures ok == answers(old(asked)) && asked == old(asked) + 1
    {
      ok := answers(asked);
      asked := asked + 1;
    }

    method Fetch(l: LockerId, k: Key) returns (r: Option<Option<Record>>)
      modifies this`asked
      ensures r == if answers(old(asked)) then Some(RecordAt(store, l, k)) else None
    {
      var ok := Read();
      if !ok { return None; }
      r := Some(if k in store.Recs(l) then Some(store.Recs(l)[k]) else None);
    }

    method Commit(ops: seq<Op>) returns (ok: bool)
      modifies this`store, this`landing
      ensures ok == (old(landing) != Some(0))
      ensures store == if ok then ApplyAll(old(store), ops) else old(store)
      ensures landing == if old(landing).Some? && ok then Some(old(landing).value - 1) else old(landing)
    {
      if landing == Some(0) { return false; }
      for i := 0 to |ops|
        invariant store == ApplyAll(old(store), ops[..i]) && landing == old(landing)
      {
        assert ops[..i + 1][..i] == ops[..i];
        store := Apply(store, ops[i]);
      }
      assert ops[..|ops|] == ops;
      if landing.Some? { landing := Some(landing.value - 1); }
      return true;
    }

    /** One past the highest id any stored chunk carries. */
    method HighestStored() returns (f: nat)
      ensures f == ValueIdCursor.FloorOf(StoredIds(store))
    {
      var left := StoredIds(store);
      f := 0;
      while left != {}
        invariant left <= StoredIds(store)
        invariant f == 0 || f - 1 in StoredIds(store)
        invariant forall v :: v in StoredIds(store) && v !in left ==> v < f
        decreases |left|
      {
        var v :| v in left;
        if v >= f { f := v + 1; }
        left := left - {v};
      }
    }

    method AllocateId() returns (r: Option<nat>)
      modifies ids, this`asked
      ensures var id := Cursor(store, old(ids.next));
        r == (if id < U64_MAX && (answers(old(asked)) || old(ids.next).Some?) then Some(id) else None)
        && ids.next == if r.Some? then Some(id + 1) else old(ids.next)
    {
      var taken := ids.Take();
      if taken.Exhausted? { return None; }
      if taken.Id? { return Some(taken.value); }
      var ok := Read();
      if !ok { return None; }
      var highest := HighestStored();
      var counter := if store.nextId.Some? then store.nextId.value else 0;
      var seeded := ids.SeedAndTake(if counter > highest then counter else highest);
      r := if seeded.Id? then Some(seeded.value) else None;
    }

    method AllocateTick() returns (r: Option<nat>)
      modifies ticks, this`asked
      ensures var tick := NextTick(old(ticks.State()), store.nextTick);
        && (r == None || r == Some(tick))
        && (Answering() && tick < U64_MAX ==> r.Some?)
        && ticks.State() == if r.Some? then Issue(old(ticks.State()), tick) else old(ticks.State())
    {
      if ticks.next.None? {
        var ok := Read();
        if !ok { return None; }
      }
      r := ticks.Allocate(store.nextTick);
    }

    // ---- building ops ------------------------------------------------

    /** The record under the key does not stand in the way of a write that knows `prior` of it. */
    ghost predicate Replaceable(l: LockerId, k: Key, prior: Inner.Prior)
      reads this
    {
      prior.Unknown? ==> Legible(RecordAt(store, l, k))
    }

    /** The chunks to drop; a pointer over the reader's limits cannot be parsed, and stops the write. */
    method GcFor(l: LockerId, k: Key, prior: Inner.Prior) returns (r: Option<seq<Op>>)
      modifies this`asked
      ensures r.Some? ==> Replaceable(l, k, prior) && r.value == GcOps(GcTarget(store, l, k, prior))
      ensures (Answering() || !prior.Unknown?) && Replaceable(l, k, prior) ==> r.Some?
    {
      if !prior.Unknown? { return Some([]); }
      var found := Fetch(l, k);
      match found
      case None => return None;
      case Some(None) => return Some([]);
      case Some(Some(Inline(_))) => return Some([]);
      case Some(Some(Pointer(p))) => return if Parses(p) then Some([DropChunks(p.valueId)]) else None;
    }

    method DeleteValueOps(l: LockerId, k: Key, prior: Inner.Prior) returns (r: Option<seq<Op>>)
      modifies this`asked
      ensures r.Some? ==> Replaceable(l, k, prior) && r.value == DeleteOps(store, l, k, prior)
      ensures Answering() && Replaceable(l, k, prior) ==> r.Some?
    {
      var gc := GcFor(l, k, prior);
      r := if gc.None? then None else Some(gc.value + [DeleteRecord(l, k)]);
    }

    /** Walk the locker's records and drop the chunks of every pointer that parses. */
    method ClearValueOps(l: LockerId) returns (r: Option<seq<Op>>)
      modifies this`asked
      ensures r.Some? ==> r.value == ClearOps(store, l)
      ensures r.Some? <==> answers(old(asked))
    {
      var ok := Read();
      if !ok { return None; }
      var keys := KeysInOrder(store.Recs(l).Keys);
      var ops := GcAllOps(l, keys);
      r := Some(ops + [ClearRecords(l)]);
    }

    method GcAllOps(l: LockerId, keys: seq<Key>) returns (ops: seq<Op>)
      ensures ops == GcAll(store, l, keys)
    {
      ops := [];
      for i := 0 to |keys|
        invariant ops == GcAll(store, l, keys[..i])
      {
        assert keys[..i + 1][..i] == keys[..i];
        if keys[i] in store.Recs(l) {
          var found := store.Recs(l)[keys[i]];
          if found.Pointer? && Parses(found.ptr) { ops := ops + [DropChunks(found.ptr.valueId)]; }
        }
      }
      assert keys[..|keys|] == keys;
    }
  }

  lemma HighestTick(rows: Entries, highest: Option<nat>)
    requires LruAccounts.IsHighest(rows, highest)
    ensures highest.None? <==> L.TicksOf(rows) == {}
    ensures highest.Some? ==> ValueIdCursor.FloorOf(L.TicksOf(rows)) == highest.value + 1
  {
    forall k | k in rows ensures rows[k].tick in L.TicksOf(rows) {}
    if highest.Some? { assert highest.value in L.TicksOf(rows); }
  }

  /** A landed commit, its share of the budget worked out on the locker as it was before the index moved. */
  lemma LandedIs(b: L.Bank, l: L.Locker, l': L.Locker, main: Build, batch: seq<Pending>)
    requires l.lru == l'.lru && l.id == l'.id
    ensures var p := L.PlanOf(b, l, batch);
      L.Landed(b, l', main, batch) ==
        L.Outcome(L.Bank(ApplyAll(b.store, main.ops + L.ExtraOps(b, l, batch)), main.next, L.TicksAfter(b, l)),
                  L.Settle(l', p), true, p.plan.victims)
  {
  }

  /** Later writes of a key override earlier ones. */
  method CollectActions(tail: seq<Pending>) returns (acts: map<Key, Action>)
    ensures acts == Actions(tail) && |acts| <= |tail|
  {
    acts := map[];
    for i := 0 to |tail|
      invariant acts == Actions(tail[..i]) && |acts| <= i
    {
      assert tail[..i + 1][..i] == tail[..i];
      match tail[i]
      case Put(k, payload) =>
        MapGrows(acts, k, Assign(payload));
        acts := acts[k := Assign(payload)];
      case Delete(k) =>
        MapGrows(acts, k, Remove);
        acts := acts[k := Remove];
      case Clear =>
    }
    assert tail[..|tail|] == tail;
  }

  /** Which victims a commit has does not depend on what is staged beside it. */
  lemma SameReads(b: L.Bank, l: L.Locker, l': L.Locker, batch: seq<Pending>)
    requires l'.lru == l.lru
    ensures L.CommitReads(b, l', batch) == L.CommitReads(b, l, batch)
  {
  }

  lemma EvictIs(b: L.Bank, l: L.Locker, bytes: nat, plan: Plan)
    requires l.lru.Some? && plan.victims != []
    requires plan == PlanFor(l.lru.value.entries, l.lru.value.total, [], [], false, bytes, [])
    ensures L.EvictTo(b, l, bytes, L.Lands) ==
              L.Outcome(b.(store := ApplyAll(b.store, VictimOps(b.store, l.id, plan.victims))),
                        L.Settle(l, BudgetPlan([], [], false, plan, [])), true, plan.victims)
    ensures L.EvictTo(b, l, bytes, L.Fails(b.next, b.ticks)) == L.Outcome(b, l, false, [])
    ensures L.EvictReads(l, bytes) == L.KeysIn(plan.victims)
  {
  }

  /** An immediate write is one landed commit of its own op list. */
  lemma ImmediateIs(b: L.Bank, l: L.Locker, p: Pending, fate: L.Fate)
    requires l.cfg.chunkSize >= 1 && !l.cfg.IsDeferred()
    ensures L.Write(b, l, p, fate) ==
              if fate.Fails? then L.Failed(b, l, fate)
              else L.Landed(b, l.(index := L.IndexAfter(l.index, p), knownInline := L.InlineAfter(l, p)),
                            L.ImmediateBuild(b, l, p), [p])
    ensures L.WriteReads(b, l, p) ==
              (if !p.Clear? && L.PriorOf(l, p.key).Unknown? then {p.key} else {})
              + L.KeysIn(L.PlanOf(b, l, [p]).plan.victims)
  {
  }

  lemma PutIs(b: L.Bank, l: L.Locker, k: Key, payload: Payload, fate: L.Fate)
    requires l.cfg.chunkSize >= 1 && !l.cfg.IsDeferred()
    ensures var inline := StoresInline(|payload|, l.cfg.chunkSize, FLAG_POSTCARD);
      L.Write(b, l, Put(k, payload), fate) ==
        if fate.Fails? then L.Failed(b, l, fate)
        else L.Landed(b, l.(index := l.index + {k},
                            knownInline := if inline then l.knownInline + {k} else l.knownInline - {k}),
                      PutBuild(b.store, l.id, l.cfg.chunkSize, k, payload, FLAG_POSTCARD, L.PriorOf(l, k), b.next),
                      [Put(k, payload)])
    ensures L.WriteReads(b, l, Put(k, payload)) ==
              (if L.PriorOf(l, k).Unknown? then {k} else {}) + L.KeysIn(L.PlanOf(b, l, [Put(k, payload)]).plan.victims)
  {
  }

  lemma ClearIs(b: L.Bank, l: L.Locker, fate: L.Fate)
    requires l.cfg.chunkSize >= 1 && !l.cfg.IsDeferred()
    ensures L.Write(b, l, Clear, fate) ==
              if fate.Fails? then L.Failed(b, l, fate)
              else L.Landed(b, l.(index := {}, knownInline := {}), Build(ClearOps(b.store, l.id), b.next), [Clear])
    ensures L.WriteReads(b, l, Clear) == L.KeysIn(L.PlanOf(b, l, [Clear]).plan.victims)
  {
  }

  class LazyLocker {
    const bank: Bank
    const id: LockerId
    const cfg: L.Config
    var index: set<Key>
    var knownInline: set<Key>
    var staged: seq<Pending>
    const lru: LruAccounts.Accounts?

    constructor (bank: Bank, id: LockerId, cfg: L.Config, index: set<Key>, lru: LruAccounts.Accounts?)
      ensures this.bank == bank && this.id == id && this.cfg == cfg && this.lru == lru
      ensures this.index == index && knownInline == {} && staged == []
    {
      this.bank, this.id, this.cfg, this.index, this.lru := bank, id, cfg, index, lru;
      knownInline, staged := {}, [];
    }

    /**
     Read the keys, and the budget rows of an evictable locker, back from storage. Rows of keys no longer stored are
     dropped, stored keys without a row are counted as nothing, and the clock is raised above every tick seen.
     */
    static method Open(bank: Bank, id: LockerId, cfg: L.Config) returns (r: Option<LazyLocker>)
      modifies bank.ticks, bank`asked
      ensures r.Some? ==>
                && fresh(r.value) && r.value.bank == bank
                && r.value.State() == L.Open(bank.store, id, cfg)
                && (r.value.lru != null ==> fresh(r.value.lru))
                && bank.State() == L.Reopened(old(bank.State()), id, cfg)
      ensures r.None? ==> bank.State() == old(bank.State())
      ensures bank.Answering() && (forall k :: k in bank.store.LruRows(id) ==> bank.store.LruRows(id)[k].tick < U64_MAX)
              ==> r.Some?
    {
      var ok := bank.Read();
      if !ok { return None; }
      var index := bank.store.Recs(id).Keys;
      if cfg.budget.None? {
        var precious := new LazyLocker(bank, id, cfg, index, null);
        return Some(precious);
      }
      ok := bank.Read();
      if !ok { return None; }
      var rows := bank.store.LruRows(id);
      var accounts := new LruAccounts.Accounts(cfg.budget.value);
      var highest := accounts.Load(rows);
      HighestTick(rows, highest);
      if highest.Some? {
        var observed := bank.ticks.ObserveRecorded(highest.value);
        if !observed { return None; }
      }
      accounts.RetainKeys(index);
      accounts.AdoptAll(index);
      var l := new LazyLocker(bank, id, cfg, index, accounts);
      r := Some(l);
    }

    ghost function State(): L.Locker
      reads this, lru
    {
      L.Locker(id, cfg, index, knownInline, staged, if lru == null then None else Some(lru.State()))
    }

    // ---- building ops ------------------------------------------------

    method Prior(k: Key) returns (p: Inner.Prior)
      ensures p == L.PriorOf(State(), k)
      ensures staged == [] && k !in index <==> p.Absent?
      ensures staged == [] && k in index && k in knownInline <==> p.KnownInline?
    {
      if staged != [] { return Unknown; }
      if k !in index { return Absent; }
      if k in knownInline { return KnownInline; }
      return Unknown;
    }

    /** Split a payload at the chunk size. */
    static method Pieces(p: Payload, size: nat) returns (pieces: seq<Payload>)
      requires size >= 1
      ensures pieces == Cut(p, size)
    {
      pieces := [];
      var rest := p;
      while |rest| > size
        invariant Cut(p, size) == pieces + Cut(rest, size)
        decreases |rest|
      {
        pieces, rest := pieces + [rest[..size]], rest[size..];
      }
      if rest != [] { pieces := pieces + [rest]; }
    }

    method PutPayloadOps(k: Key, payload: Payload, flags: nat, prior: Inner.Prior) returns (r: Option<seq<Op>>)
      requires cfg.chunkSize >= 1
      modifies bank.ids, bank`asked
      ensures r.Some? ==> bank.Replaceable(id, k, prior)
      ensures var b := PutBuild(bank.store, id, cfg.chunkSize, k, payload, flags, prior, old(bank.ids.next));
              if r.Some? then r.value == b.ops && bank.ids.next == b.next else bank.ids.next == old(bank.ids.next)
      ensures (&& bank.Answering() && bank.Replaceable(id, k, prior)
               && Cursor(bank.store, old(bank.ids.next)) < U64_MAX) ==> r.Some?
    {
      var gc := bank.GcFor(id, k, prior);
      if gc.None? { return None; }
      var stored := StoreOpsFor(k, payload, flags);
      if stored.None? { return None; }
      r := Some(gc.value + stored.value);
    }

    /** The record inline, or its chunks under a fresh id, the pointer to them, and the counter past the id. */
    method StoreOpsFor(k: Key, payload: Payload, flags: nat) returns (r: Option<seq<Op>>)
      requires cfg.chunkSize >= 1
      modifies bank.ids, bank`asked
      ensures var v, inline := Cursor(bank.store, old(bank.ids.next)), StoresInline(|payload|, cfg.chunkSize, flags);
        if r.Some? then
          && r.value == StoreOps(v, id, cfg.chunkSize, k, payload, flags)
          && bank.ids.next == if inline then old(bank.ids.next) else Some(v + 1)
        else bank.ids.next == old(bank.ids.next)
      ensures bank.Answering() && Cursor(bank.store, old(bank.ids.next)) < U64_MAX ==> r.Some?
    {
      if StoresInline(|payload|, cfg.chunkSize, flags) { return Some([PutRecord(id, k, Inline(payload))]); }
      var taken := bank.AllocateId();
      if taken.None? { return None; }
      var v := taken.value;
      var pieces := Pieces(payload, cfg.chunkSize);
      var puts := ChunkOps(v, pieces);
      var counter := bank.ids.CounterOp();
      r := Some(puts + [PutRecord(id, k, StoredPointer(v, |pieces|, |payload|, flags))] + [PutNextId(counter.value)]);
    }

    static method ChunkOps(v: nat, pieces: seq<Payload>) returns (puts: seq<Op>)
      ensures puts == ChunkPuts(v, pieces)
    {
      puts := [];
      for i := 0 to |pieces|
        invariant puts == ChunkPuts(v, pieces[..i])
      {
        puts := puts + [PutChunk(v, i, pieces[i])];
        assert ChunkPuts(v, pieces[..i + 1]) == ChunkPuts(v, pieces[..i]) + [PutChunk(v, i, pieces[i])];
      }
      assert pieces[..|pieces|] == pieces;
    }

    /** The collapsed ops of a batch: the last action per surviving key, in key order, behind any clear. */
    method OpsForItems(batch: seq<Pending>) returns (r: Option<seq<Op>>)
      requires cfg.chunkSize >= 1
      modifies bank.ids, bank`asked
      ensures r.Some? ==> L.AllLegible(bank.store, id, Actions(Tail(batch)).Keys)
      ensures r.Some? ==>
                Build(r.value, bank.ids.next) == BatchOps(bank.store, id, cfg.chunkSize, batch, old(bank.ids.next))
      ensures Allocated(old(bank.ids.next), |batch|)
      ensures (&& bank.Answering() && Cursor(bank.store, old(bank.ids.next)) + |batch| <= U64_MAX
               && L.AllLegible(bank.store, id, Actions(Tail(batch)).Keys)) ==> r.Some?
    {
      var found, from := Listing.AfterLastClear(batch);
      var ops: seq<Op> := [];
      if found {
        var cleared := bank.ClearValueOps(id);
        if cleared.None? { return None; }
        ops := cleared.value;
      }
      var acts := CollectActions(batch[from..]);
      var acted := ActionOpsFor(acts);
      if acted.None? { return None; }
      r := Some(ops + acted.value);
    }

    /** Between nothing and `most` ids have been handed out since the cursor was `start`. */
    ghost predicate Allocated(start: Option<nat>, most: nat)
      reads bank, bank.ids
    {
      && Cursor(bank.store, start) <= Cursor(bank.store, bank.ids.next) <= Cursor(bank.store, start) + most
      && (start.Some? ==> bank.ids.next.Some?)
    }

    method ActionOpsFor(acts: map<Key, Action>) returns (r: Option<seq<Op>>)
      requires cfg.chunkSize >= 1
      modifies bank.ids, bank`asked
      ensures (forall k :: k in Sorted(acts.Keys) ==> k in acts)
      ensures r.Some? ==>
                && L.AllLegible(bank.store, id, acts.Keys)
                && Build(r.value, bank.ids.next)
                == ActionOps(bank.store, id, cfg.chunkSize, acts, Sorted(acts.Keys), old(bank.ids.next))
      ensures Allocated(old(bank.ids.next), |acts|)
      ensures (&& bank.Answering() && Cursor(bank.store, old(bank.ids.next)) + |acts| <= U64_MAX
               && L.AllLegible(bank.store, id, acts.Keys)) ==> r.Some?
    {
      var keys := KeysInOrder(acts.Keys);
      SortedCount(acts.Keys);
      assert L.KeysIn(keys) == acts.Keys;
      r := ActionOpsOver(acts, keys);
    }

    method ActionOpsOver(acts: map<Key, Action>, keys: seq<Key>) returns (r: Option<seq<Op>>)
      requires cfg.chunkSize >= 1 && forall k :: k in keys ==> k in acts
      modifies bank.ids, bank`asked
      ensures r.Some? ==>
                && L.AllLegible(bank.store, id, L.KeysIn(keys))
                && Build(r.value, bank.ids.next)
                == ActionOps(bank.store, id, cfg.chunkSize, acts, keys, old(bank.ids.next))
      ensures Allocated(old(bank.ids.next), |keys|)
      ensures (&& bank.Answering() && Cursor(bank.store, old(bank.ids.next)) + |keys| <= U64_MAX
               && L.AllLegible(bank.store, id, L.KeysIn(keys))) ==> r.Some?
    {
      var ops: seq<Op> := [];
      var start := bank.ids.next;
      for i := 0 to |keys|
        invariant Build(ops, bank.ids.next) == ActionOps(bank.store, id, cfg.chunkSize, acts, keys[..i], start)
        invariant Allocated(start, i) && L.AllLegible(bank.store, id, L.KeysIn(keys[..i]))
      {
        OneActionMore(bank.store, id, cfg.chunkSize, acts, keys, i, start);
        OneMoreKey(bank.store, id, keys, i);
        var more := ActionFor(keys[i], acts[keys[i]]);
        if more.None? { return None; }
        ops := ops + more.value;
      }
      assert keys[..|keys|] == keys;
      r := Some(ops);
    }

    method ActionFor(k: Key, a: Action) returns (r: Option<seq<Op>>)
      requires cfg.chunkSize >= 1
      modifies bank.ids, bank`asked
      ensures r.Some? ==> bank.Replaceable(id, k, Unknown)
      ensures var b := ActionBuild(bank.store, id, cfg.chunkSize, k, a, old(bank.ids.next));
              if r.Some? then r.value == b.ops && bank.ids.next == b.next else bank.ids.next == old(bank.ids.next)
      ensures Allocated(old(bank.ids.next), 1)
      ensures (&& bank.Answering() && bank.Replaceable(id, k, Unknown)
               && Cursor(bank.store, old(bank.ids.next)) < U64_MAX) ==> r.Some?
    {
      match a
      case Assign(payload) => r := PutPayloadOps(k, payload, FLAG_POSTCARD, Unknown);
      case Remove => r := bank.DeleteValueOps(id, k, Unknown);
    }

    // ---- the byte budget ---------------------------------------------

    /**
     Accounts another tab's news left with an unknown size are read back from storage before they are planned
     against; read ticks not yet committed are kept, and the clock rises above every tick read.
     */
    method ReloadIfDirty() returns (ok: bool)
      requires lru != null ==> cfg.budget.Some?
      modifies lru, bank.ticks, bank`asked
      ensures lru == null || !old(lru.dirty) ==> ok && State() == old(State()) && bank.State() == old(bank.State())
      ensures lru != null && old(lru.dirty) ==>
                if ok then
                  var rows, pending := bank.store.LruRows(id), old(lru.pending);
                  && lru.State() == LruState(lru.maxBytes, rows, LruAccounts.Capped(Sum(rows)),
                                             map k | k in pending && k in rows :: pending[k])
                  && !lru.dirty && bank.State() == L.Reopened(old(bank.State()), id, cfg)
                else State() == old(State()) && bank.State() == old(bank.State())
    {
      if lru == null || !lru.dirty { return true; }
      ok := bank.Read();
      if !ok { return; }
      var loaded := new LruAccounts.Accounts(lru.maxBytes);
      var highest := loaded.Load(bank.store.LruRows(id));
      HighestTick(bank.store.LruRows(id), highest);
      if highest.Some? {
        ok := bank.ticks.ObserveRecorded(highest.value);
        if !ok { return; }
      }
      lru.AdoptLoaded(loaded.entries, loaded.total);
    }

    /** Plan a commit's share of the budget and build its ops; nothing is applied yet. */
    method BudgetFor(a: Accounts) returns (r: Option<(seq<Op>, BudgetPlan)>)
      modifies bank.ticks, bank`asked
      ensures lru == null ==> r == Some(([], NO_BUDGET)) && bank.ticks.State() == old(bank.ticks.State())
      ensures lru != null && r.Some? ==>
                var tick := NextTick(old(bank.ticks.State()), bank.store.nextTick);
                && r.value.1 == PlanBudget(lru.State(), tick, a)
                && bank.ticks.State() == Issue(old(bank.ticks.State()), tick)
                && r.value.0 == BudgetOps(bank.store, lru.State(), id, r.value.1, bank.ticks.State())
                && L.AllLegible(bank.store, id, L.KeysIn(r.value.1.plan.victims))
      ensures Onward(old(bank.ticks.State()), bank.ticks.State(), bank.store.nextTick)
      ensures var tick := NextTick(old(bank.ticks.State()), bank.store.nextTick);
        (&& bank.Answering() && tick < U64_MAX
         && (lru != null ==>
               L.AllLegible(bank.store, id, L.KeysIn(PlanBudget(lru.State(), tick, a).plan.victims)))) ==> r.Some?
    {
      if lru == null { return Some(([], NO_BUDGET)); }
      var tick := bank.AllocateTick();
      if tick.None? { return None; }
      var updates := Stamp(a.updates, tick.value);
      var written := KeysOf(updates);
      var plan := lru.Plan(updates, a.removals, a.cleared, lru.maxBytes, written);
      var carried: seq<Key>, bumps: seq<Op> := [], [];
      if !a.cleared { carried, bumps := lru.PendingOps(id, written); }
      var ops: seq<Op> := if a.cleared then [ClearLru(id)] else [];
      ops := ops + UpdateOps(id, updates) + bumps + RemovalOps(id, a.removals);
      var shed := ShedOps(plan.victims);
      if shed.None? { return None; }
      var counter := bank.ticks.Counter();
      r := Some((ops + shed.value + [PutNextTick(counter)], BudgetPlan(updates, a.removals, a.cleared, plan, carried)));
    }

    method ShedOps(victims: seq<Key>) returns (r: Option<seq<Op>>)
      modifies bank`asked
      ensures r.Some? ==>
                L.AllLegible(bank.store, id, L.KeysIn(victims)) && r.value == VictimOps(bank.store, id, victims)
      ensures bank.Answering() && L.AllLegible(bank.store, id, L.KeysIn(victims)) ==> r.Some?
    {
      var ops: seq<Op> := [];
      for i := 0 to |victims|
        invariant ops == VictimOps(bank.store, id, victims[..i])
        invariant L.AllLegible(bank.store, id, L.KeysIn(victims[..i]))
      {
        assert victims[..i + 1][..i] == victims[..i];
        OneMoreKey(bank.store, id, victims, i);
        var gone := bank.DeleteValueOps(id, victims[i], Unknown);
        if gone.None? { return None; }
        ops := ops + gone.value + [DeleteLru(id, victims[i])];
      }
      assert victims[..|victims|] == victims;
      r := Some(ops);
    }

    /** Settle a landed commit: its accounts take effect, and what it evicted is no longer listed. */
    method ApplyBudget(p: BudgetPlan)
      modifies this`index, this`knownInline, lru
      ensures State() == L.Settle(old(State()), p)
    {
      if lru != null {
        lru.Apply(p.updates, p.removals, p.cleared, p.plan);
        lru.ClearPending(p.pending);
      }
      index := index - set k | k in p.plan.victims;
      knownInline := knownInline - set k | k in p.plan.victims;
    }

    // ---- committing --------------------------------------------------

    /** Commit `main` with the batch's share of the budget; the locker itself is not touched. */
    method Land(main: seq<Op>, batch: seq<Pending>, ghost start: L.Bank) returns (ok: bool, plan: BudgetPlan)
      requires start.store == bank.store && start.ticks == bank.ticks.State()
      modifies bank`store, bank`landing, bank`asked, bank.ticks
      ensures if ok then
          && plan == L.PlanOf(start, State(), batch)
          && bank.store == ApplyAll(start.store, main + L.ExtraOps(start, State(), batch))
          && bank.ticks.State() == L.TicksAfter(start, State())
        else bank.store == start.store
      ensures Onward(start.ticks, bank.ticks.State(), start.store.nextTick)
      ensures ok ==> L.AllLegible(start.store, id, L.KeysIn(plan.plan.victims))
      ensures (&& bank.Answering() && old(bank.landing) != Some(0)
               && NextTick(start.ticks, start.store.nextTick) < U64_MAX
               && L.AllLegible(start.store, id, L.KeysIn(L.PlanOf(start, State(), batch).plan.victims))) ==> ok
    {
      var accounts := Accounting.Account(batch);
      var budget := BudgetFor(accounts);
      if budget.None? { return false, NO_BUDGET; }
      plan := budget.value.1;
      ok := bank.Commit(main + budget.value.0);
    }

    /** This outcome is what the step says, given how the attempt ended. */
    ghost predicate Did(o: L.Outcome, ok: bool, evicted: seq<Key>)
      reads this, lru, bank, bank.ids, bank.ticks
    {
      bank.State() == o.bank && State() == o.locker && ok == o.ok && evicted == o.evicted
    }

    /**
     Commit `main`, and once it has landed update the index and the accounts. `start` is the bank as the call found
     it; building `main` may have moved the id cursor since.
     */
    method LandWith(main: seq<Op>, batch: seq<Pending>, newIndex: set<Key>, newInline: set<Key>, ghost start: L.Bank)
      returns (ok: bool, evicted: seq<Key>, ghost fate: L.Fate)
      requires start.store == bank.store && start.ticks == bank.ticks.State()
      requires Cursor(start.store, start.next) <= Cursor(bank.store, bank.ids.next)
      requires start.next.Some? ==> bank.ids.next.Some?
      modifies this`index, this`knownInline, lru, bank`store, bank`landing, bank`asked, bank.ticks
      ensures L.Admissible(start, fate) && ok == fate.Lands?
      ensures ok ==> L.AllLegible(start.store, id, L.KeysIn(L.PlanOf(start, old(State()), batch).plan.victims))
      ensures ok ==> Did(L.Landed(start, old(State()).(index := newIndex, knownInline := newInline),
                                  Build(main, bank.ids.next), batch), ok, evicted)
      ensures !ok ==> Did(L.Failed(start, old(State()), fate), ok, evicted)
      ensures (&& bank.Answering() && old(bank.landing) != Some(0)
               && NextTick(start.ticks, start.store.nextTick) < U64_MAX
               && L.AllLegible(start.store, id, L.KeysIn(L.PlanOf(start, old(State()), batch).plan.victims))) ==> ok
    {
      ghost var l := State();
      var landed, plan := Land(main, batch, start);
      if !landed { return false, [], L.Fails(bank.ids.next, bank.ticks.State()); }
      ghost var l1 := l.(index := newIndex, knownInline := newInline);
      LandedIs(start, l, l1, Build(main, bank.ids.next), batch);
      index, knownInline := newIndex, newInline;
      ApplyBudget(plan);
      assert State() == L.Settle(l1, plan);
      return true, plan.plan.victims, L.Lands;
    }

    /** Commit `batch` as one, with nothing staged: what flushing and a transaction have in common. */
    method CommitBatch(batch: seq<Pending>, newIndex: set<Key>, newInline: set<Key>)
      returns (ok: bool, evicted: seq<Key>, ghost fate: L.Fate)
      requires cfg.chunkSize >= 1
      modifies this`index, this`knownInline, lru, bank`store, bank`landing, bank`asked, bank.ids, bank.ticks
      ensures L.Admissible(old(bank.State()), fate) && ok == fate.Lands?
      ensures var b, l := old(bank.State()), old(State());
        if ok then
          Did(L.Landed(b, l.(index := newIndex, knownInline := newInline),
                       BatchOps(b.store, id, cfg.chunkSize, batch, b.next), batch), ok, evicted)
        else Did(L.Failed(b, l, fate), ok, evicted)
      ensures ok ==> L.AllLegible(old(bank.store), id, L.CommitReads(old(bank.State()), old(State()), batch))
      ensures (&& old(bank.Able(|batch|))
               && L.AllLegible(old(bank.store), id, L.CommitReads(old(bank.State()), old(State()), batch))) ==> ok
    {
      ghost var start := bank.State();
      var main := OpsForItems(batch);
      if main.None? { return false, [], L.Fails(bank.ids.next, bank.ticks.State()); }
      assert Build(main.value, bank.ids.next) == BatchOps(start.store, id, cfg.chunkSize, batch, start.next);
      ok, evicted, fate := LandWith(main.value, batch, newIndex, newInline, start);
    }

    // ---- the public calls --------------------------------------------

    /** Commit everything staged; a batch that does not land is put back as it was. */
    method FlushLocked() returns (ok: bool, evicted: seq<Key>, ghost fate: L.Fate)
      requires cfg.chunkSize >= 1
      modifies this`staged, this`index, this`knownInline, lru
      modifies bank`store, bank`landing, bank`asked, bank.ids, bank.ticks
      ensures L.Admissible(old(bank.State()), fate)
      ensures Did(L.Flush(old(bank.State()), old(State()), fate), ok, evicted)
      ensures ok ==> L.AllLegible(old(bank.store), id, L.FlushReads(old(bank.State()), old(State())))
      ensures (&& old(bank.Able(|staged|))
               && L.AllLegible(old(bank.store), id, L.FlushReads(old(bank.State()), old(State())))) ==> ok
    {
      if staged == [] { return true, [], L.Lands; }
      ok, evicted, fate := FlushBatch();
    }

    method FlushBatch() returns (ok: bool, evicted: seq<Key>, ghost fate: L.Fate)
      requires cfg.chunkSize >= 1 && staged != []
      modifies this`staged, this`index, this`knownInline, lru
      modifies bank`store, bank`landing, bank`asked, bank.ids, bank.ticks
      ensures L.Admissible(old(bank.State()), fate)
      ensures Did(L.Flush(old(bank.State()), old(State()), fate), ok, evicted)
      ensures ok ==> L.AllLegible(old(bank.store), id, L.FlushReads(old(bank.State()), old(State())))
      ensures (&& old(bank.Able(|staged|))
               && L.AllLegible(old(bank.store), id, L.FlushReads(old(bank.State()), old(State())))) ==> ok
    {
      ghost var start, l := bank.State(), State();
      var entries := staged;
      staged := [];
      SameReads(start, l, State(), entries);
      ok, evicted, fate := CommitBatch(entries, index, knownInline);
      if !ok { Restage(entries); }
    }

    /** A batch that did not land is staged again, before what has been staged meanwhile. */
    method Restage(entries: seq<Pending>)
      modifies this`staged
      ensures staged == entries + old(staged)
      ensures old(staged) == [] ==> staged == entries
    {
      staged := entries + staged;
    }

    /** Queue a write, keep the index in step, and commit the batch if it is now full. */
    method Stage(p: Pending) returns (ok: bool, evicted: seq<Key>, ghost fate: L.Fate)
      requires cfg.chunkSize >= 1 && cfg.IsDeferred()
      modifies this`staged, this`index, this`knownInline, lru
      modifies bank`store, bank`landing, bank`asked, bank.ids, bank.ticks
      ensures L.Admissible(old(bank.State()), fate)
      ensures Did(L.Defer(old(bank.State()), old(State()), p, fate), ok, evicted)
      ensures ok ==> L.AllLegible(old(bank.store), id, L.WriteReads(old(bank.State()), old(State()), p))
      ensures (&& old(bank.Able(|staged| + 1))
               && L.AllLegible(old(bank.store), id, L.WriteReads(old(bank.State()), old(State()), p))) ==> ok
    {
      staged := staged + [p];
      match p {
        case Put(k, _) => index, knownInline := index + {k}, knownInline - {k};
        case Delete(k) => index, knownInline := index - {k}, knownInline - {k};
        case Clear => index, knownInline := {}, {};
      }
      if |staged| >= cfg.commit.after {
        ok, evicted, fate := FlushLocked();
      } else {
        return true, [], L.Lands;
      }
    }

    method PutBy(k: Key, payload: Payload) returns (ok: bool, evicted: seq<Key>, ghost fate: L.Fate)
      requires cfg.chunkSize >= 1
      modifies this`staged, this`index, this`knownInline, lru
      modifies bank`store, bank`landing, bank`asked, bank.ids, bank.ticks
      ensures L.Admissible(old(bank.State()), fate)
      ensures Did(L.Write(old(bank.State()), old(State()), Put(k, payload), fate), ok, evicted)
      ensures ok ==> L.AllLegible(old(bank.store), id, L.WriteReads(old(bank.State()), old(State()), Put(k, payload)))
      ensures (&& old(bank.Able(|staged| + 1))
               && L.AllLegible(old(bank.store), id, L.WriteReads(old(bank.State()), old(State()), Put(k, payload))))
              ==> ok
      ensures cfg.commit.Deferred? && |old(staged)| + 1 < cfg.commit.after ==>
                && ok && evicted == [] && bank.store == old(bank.store) && staged == old(staged) + [Put(k, payload)]
      ensures cfg.commit.Deferred? && cfg.commit.after > 1 && |old(staged)| + 1 >= cfg.commit.after ==>
                staged == if ok then [] else old(staged) + [Put(k, payload)]
      ensures cfg.commit.Immediate? || cfg.commit.after <= 1 ==> staged == old(staged)
    {
      if cfg.IsDeferred() {
        ok, evicted, fate := Stage(Put(k, payload));
      } else {
        ok, evicted, fate := PutNow(k, payload);
      }
    }

    method PutNow(k: Key, payload: Payload) returns (ok: bool, evicted: seq<Key>, ghost fate: L.Fate)
      requires cfg.chunkSize >= 1 && !cfg.IsDeferred()
      modifies this`index, this`knownInline, lru, bank`store, bank`landing, bank`asked, bank.ids, bank.ticks
      ensures L.Admissible(old(bank.State()), fate)
      ensures Did(L.Write(old(bank.State()), old(State()), Put(k, payload), fate), ok, evicted)
      ensures ok ==> L.AllLegible(old(bank.store), id, L.WriteReads(old(bank.State()), old(State()), Put(k, payload)))
      ensures (&& old(bank.Able(1))
               && L.AllLegible(old(bank.store), id, L.WriteReads(old(bank.State()), old(State()), Put(k, payload))))
              ==> ok
    {
      ghost var start, l := bank.State(), State();
      var prior := Prior(k);
      var main := PutPayloadOps(k, payload, FLAG_POSTCARD, prior);
      if main.None? { return false, [], L.Fails(bank.ids.next, bank.ticks.State()); }
      var inline := StoresInline(|payload|, cfg.chunkSize, FLAG_POSTCARD);
      var newInline := if inline then knownInline + {k} else knownInline - {k};
      ok, evicted, fate := LandWith(main.value, [Put(k, payload)], index + {k}, newInline, start);
      PutIs(start, l, k, payload, fate);
    }

    method DeleteBy(k: Key) returns (ok: bool, evicted: seq<Key>, ghost fate: L.Fate)
      requires cfg.chunkSize >= 1
      modifies this`staged, this`index, this`knownInline, lru
      modifies bank`store, bank`landing, bank`asked, bank.ids, bank.ticks
      ensures L.Admissible(old(bank.State()), fate)
      ensures Did(L.Write(old(bank.State()), old(State()), Delete(k), fate), ok, evicted)
      ensures ok ==> L.AllLegible(old(bank.store), id, L.WriteReads(old(bank.State()), old(State()), Delete(k)))
      ensures (&& old(bank.Able(|staged| + 1))
               && L.AllLegible(old(bank.store), id, L.WriteReads(old(bank.State()), old(State()), Delete(k)))) ==> ok
      ensures cfg.commit.Deferred? && |old(staged)| + 1 < cfg.commit.after ==>
                && ok && evicted == [] && bank.store == old(bank.store) && staged == old(staged) + [Delete(k)]
      ensures cfg.commit.Deferred? && cfg.commit.after > 1 && |old(staged)| + 1 >= cfg.commit.after ==>
                staged == if ok then [] else old(staged) + [Delete(k)]
      ensures cfg.commit.Immediate? || cfg.commit.after <= 1 ==> staged == old(staged)
    {
      if cfg.IsDeferred() {
        ok, evicted, fate := Stage(Delete(k));
      } else {
        ok, evicted, fate := DeleteNow(k);
      }
    }

    method DeleteNow(k: Key) returns (ok: bool, evicted: seq<Key>, ghost fate: L.Fate)
      requires cfg.chunkSize >= 1 && !cfg.IsDeferred()
      modifies this`index, this`knownInline, lru, bank`store, bank`landing, bank`asked, bank.ticks
      ensures L.Admissible(old(bank.State()), fate)
      ensures Did(L.Write(old(bank.State()), old(State()), Delete(k), fate), ok, evicted)
      ensures ok ==> L.AllLegible(old(bank.store), id, L.WriteReads(old(bank.State()), old(State()), Delete(k)))
      ensures (&& old(bank.Able(1))
               && L.AllLegible(old(bank.store), id, L.WriteReads(old(bank.State()), old(State()), Delete(k)))) ==> ok
    {
      var prior := Prior(k);
      var main := bank.DeleteValueOps(id, k, prior);
      if main.None? { return false, [], L.Fails(bank.ids.next, bank.ticks.State()); }
      ghost var start, l := bank.State(), State();
      assert Build(main.value, bank.ids.next) == L.ImmediateBuild(start, l, Delete(k));
      ok, evicted, fate := LandWith(main.value, [Delete(k)], index - {k}, knownInline - {k}, start);
      ImmediateIs(start, l, Delete(k), fate);
    }

    method ClearAll() returns (ok: bool, evicted: seq<Key>, ghost fate: L.Fate)
      requires cfg.chunkSize >= 1
      modifies this`staged, this`index, this`knownInline, lru
      modifies bank`store, bank`landing, bank`asked, bank.ids, bank.ticks
      ensures L.Admissible(old(bank.State()), fate)
      ensures Did(L.Write(old(bank.State()), old(State()), Clear, fate), ok, evicted)
      ensures ok ==> L.AllLegible(old(bank.store), id, L.WriteReads(old(bank.State()), old(State()), Clear))
      ensures (&& old(bank.Able(|staged| + 1))
               && L.AllLegible(old(bank.store), id, L.WriteReads(old(bank.State()), old(State()), Clear))) ==> ok
      ensures cfg.commit.Deferred? && |old(staged)| + 1 < cfg.commit.after ==>
                && ok && evicted == [] && bank.store == old(bank.store) && staged == old(staged) + [Clear]
      ensures cfg.commit.Deferred? && cfg.commit.after > 1 && |old(staged)| + 1 >= cfg.commit.after ==>
                staged == if ok then [] else old(staged) + [Clear]
      ensures cfg.commit.Immediate? || cfg.commit.after <= 1 ==> staged == old(staged)
    {
      if cfg.IsDeferred() {
        ok, evicted, fate := Stage(Clear);
      } else {
        ok, evicted, fate := ClearNow();
      }
    }

    method ClearNow() returns (ok: bool, evicted: seq<Key>, ghost fate: L.Fate)
      requires cfg.chunkSize >= 1 && !cfg.IsDeferred()
      modifies this`index, this`knownInline, lru, bank`store, bank`landing, bank`asked, bank.ticks
      ensures L.Admissible(old(bank.State()), fate)
      ensures Did(L.Write(old(bank.State()), old(State()), Clear, fate), ok, evicted)
      ensures ok ==> L.AllLegible(old(bank.store), id, L.WriteReads(old(bank.State()), old(State()), Clear))
      ensures (&& old(bank.Able(1))
               && L.AllLegible(old(bank.store), id, L.WriteReads(old(bank.State()), old(State()), Clear))) ==> ok
    {
      var main := bank.ClearValueOps(id);
      if main.None? { return false, [], L.Fails(bank.ids.next, bank.ticks.State()); }
      ghost var start, l := bank.State(), State();
      ok, evicted, fate := LandWith(main.value, [Clear], {}, {}, start);
      ClearIs(start, l, fate);
    }

    /** Commit a transaction's write-set together with whatever was staged before it. */
    method Transact(tx: seq<Pending>) returns (ok: bool, evicted: seq<Key>, ghost fate: L.Fate)
      requires cfg.chunkSize >= 1
      modifies this`staged, this`index, this`knownInline, lru
      modifies bank`store, bank`landing, bank`asked, bank.ids, bank.ticks
      ensures L.Admissible(old(bank.State()), fate)
      ensures Did(L.Transact(old(bank.State()), old(State()), tx, fate), ok, evicted)
      ensures ok ==> L.AllLegible(old(bank.store), id, L.TransactReads(old(bank.State()), old(State()), tx))
      ensures (&& old(bank.Able(|staged| + |tx|))
               && L.AllLegible(old(bank.store), id, L.TransactReads(old(bank.State()), old(State()), tx))) ==> ok
    {
      if tx == [] { return true, [], L.Lands; }
      ghost var start, l := bank.State(), State();
      var before := staged;
      staged := [];
      var touched := TouchIndex(tx);
      SameReads(start, l, State(), before + tx);
      ok, evicted, fate := CommitBatch(before + tx, touched, {});
      if !ok { Restage(before); }
    }

    /** The index once the transaction's own writes are in it. */
    method TouchIndex(tx: seq<Pending>) returns (touched: set<Key>)
      ensures touched == L.IndexAfterAll(index, tx)
    {
      touched := index;
      for i := 0 to |tx|
        invariant touched == L.IndexAfterAll(index, tx[..i])
      {
        assert tx[..i + 1][..i] == tx[..i];
        match tx[i]
        case Put(k, _) => touched := touched + {k};
        case Delete(k) => touched := touched - {k};
        case Clear => touched := {};
      }
      assert tx[..|tx|] == tx;
    }

    /** A streamed value has appeared under `k`: list the key, and forget what was known of its shape. */
    method NotePublished(k: Key)
      modifies this`index, this`knownInline
      ensures index == old(index) + {k} && knownInline == old(knownInline) - {k}
    {
      index, knownInline := index + {k}, knownInline - {k};
    }

    /** Evict by age, oldest use first, down to a byte count the caller names. */
    method EvictTo(bytes: nat) returns (ok: bool, evicted: seq<Key>, ghost fate: L.Fate)
      modifies this`index, this`knownInline, lru, bank`store, bank`landing, bank`asked
      ensures L.Admissible(old(bank.State()), fate)
      ensures Did(L.EvictTo(old(bank.State()), old(State()), bytes, fate), ok, evicted)
      ensures ok ==> L.AllLegible(old(bank.store), id, L.EvictReads(old(State()), bytes))
      ensures (&& bank.Answering() && old(bank.landing) != Some(0)
               && L.AllLegible(old(bank.store), id, L.EvictReads(old(State()), bytes))) ==> ok
    {
      if lru == null { return true, [], L.Lands; }
      var plan := lru.Plan([], [], false, bytes, []);
      if plan.victims == [] { return true, [], L.Lands; }
      EvictIs(bank.State(), State(), bytes, plan);
      ok := Shed(plan);
      evicted := if ok then plan.victims else [];
      fate := if ok then L.Lands else L.Fails(bank.ids.next, bank.ticks.State());
    }

    /** Commit the evictions of a plan, and settle the accounts once they have landed. */
    method Shed(plan: Plan) returns (ok: bool)
      modifies this`index, this`knownInline, lru, bank`store, bank`landing, bank`asked
      ensures var b, l := old(bank.State()), old(State());
        if ok then
          && bank.State() == b.(store := ApplyAll(b.store, VictimOps(b.store, id, plan.victims)))
          && State() == L.Settle(l, BudgetPlan([], [], false, plan, []))
        else bank.State() == b && State() == l
      ensures ok ==> L.AllLegible(old(bank.store), id, L.KeysIn(plan.victims))
      ensures (&& bank.Answering() && old(bank.landing) != Some(0)
               && L.AllLegible(old(bank.store), id, L.KeysIn(plan.victims))) ==> ok
    {
      var ops := ShedOps(plan.victims);
      if ops.None? { return false; }
      ok := bank.Commit(ops.value);
      if ok { ApplyBudget(BudgetPlan([], [], false, plan, [])); }
    }

    /**
     What is staged answers first; a stored value that is read counts as used, and a record that does not load is an
     error.
     */
    method GetBy(k: Key) returns (r: Option<Option<Value>>)
      modifies lru, bank.ticks, bank`asked
      ensures r.Some? ==>
                && r == L.Answer(bank.store, State(), k)
                && Did(L.Get(old(bank.State()), old(State()), k), true, [])
      ensures r.None? ==> State() == old(State()) && bank.State() == old(bank.State())
      ensures (&& bank.Answering() && NextTick(old(bank.ticks.State()), bank.store.nextTick) < U64_MAX
               && L.Answer(bank.store, State(), k).Some?) ==> r.Some?
      ensures (&& r.Some? && lru != null && L.StagedView(staged, k) == None && k in bank.store.Recs(id)
               && k in old(lru.entries)
               && forall j :: j in old(lru.entries) ==>
                    old(lru.entries)[j].tick < NextTick(old(bank.ticks.State()), bank.store.nextTick))
              ==> forall j :: j in lru.entries && j != k ==> lru.entries[j].tick < lru.entries[k].tick
    {
      var view := Staged(k);
      if view.Some? {
        return Some(if view.value.Some? then Some(Value(FLAG_POSTCARD, view.value.value)) else None);
      }
      var found := bank.Fetch(id, k);
      if found.None? { return None; }
      if found.value.None? { return Some(None); }
      var value := Load(found.value.value);
      if value.None? { return None; }
      if lru != null {
        var tick := bank.AllocateTick();
        if tick.None? { return None; }
        lru.Touch(k, tick.value);
      }
      return Some(value);
    }

    /** The value of a record: the payload in it, or the chunks it points at. */
    method Load(r: Record) returns (v: Option<Value>)
      modifies bank`asked
      ensures v.Some? ==> Loads(bank.store, r) && v.value == Decode(bank.store, r)
      ensures bank.Answering() && Loads(bank.store, r) ==> v.Some?
    {
      if r.Pointer? {
        if !Parses(r.ptr) { return None; }
        var ok := bank.Read();
        if !ok { return None; }
      }
      v := if Loads(bank.store, r) then Some(Decode(bank.store, r)) else None;
    }

    /** The staged answer for a key, newest entry first. */
    method Staged(k: Key) returns (r: Option<Option<Payload>>)
      ensures r == L.StagedView(staged, k)
    {
      var i := |staged|;
      assert staged[..i] == staged;
      while i > 0
        invariant i <= |staged| && L.StagedView(staged[..i], k) == L.StagedView(staged, k)
      {
        assert staged[..i][..i - 1] == staged[..i - 1];
        match staged[i - 1] {
          case Put(j, payload) => if j == k { return Some(Some(payload)); }
          case Delete(j) => if j == k { return Some(None); }
          case Clear => return Some(None);
        }
        i := i - 1;
      }
      return None;
    }
  }

  /** The ops of one collapsed action. */
  ghost function ActionBuild(s: Store, l: LockerId, chunkSize: nat, k: Key, a: Action, next: Option<nat>): Build
    requires chunkSize >= 1
  {
    match a
    case Assign(payload) => PutBuild(s, l, chunkSize, k, payload, FLAG_POSTCARD, Unknown, next)
    case Remove => Build(DeleteOps(s, l, k, Unknown), next)
  }

  lemma OneActionMore(s: Store, l: LockerId, chunkSize: nat, acts: map<Key, Action>, keys: seq<Key>, i: nat,
                      next: Option<nat>)
    requires chunkSize >= 1 && i < |keys| && forall k :: k in keys ==> k in acts
    ensures var before := ActionOps(s, l, chunkSize, acts, keys[..i], next);
            var more := ActionBuild(s, l, chunkSize, keys[i], acts[keys[i]], before.next);
      ActionOps(s, l, chunkSize, acts, keys[..i + 1], next) == Build(before.ops + more.ops, more.next)
  {
    assert keys[..i + 1][..i] == keys[..i];
  }

  lemma OneMoreKey(s: Store, id: LockerId, keys: seq<Key>, i: nat)
    requires i < |keys|
    ensures L.AllLegible(s, id, L.KeysIn(keys[..i + 1]))
            <==> L.AllLegible(s, id, L.KeysIn(keys[..i])) && Legible(RecordAt(s, id, keys[i]))
    ensures L.AllLegible(s, id, L.KeysIn(keys)) ==> Legible(RecordAt(s, id, keys[i]))
  {
    assert keys[..i + 1] == keys[..i] + [keys[i]];
    assert L.KeysIn(keys[..i + 1]) == L.KeysIn(keys[..i]) + {keys[i]};
  }

  lemma SortedCount(keys: set<Key>)
    ensures (forall k :: k in Sorted(keys) <==> k in keys) && |Sorted(keys)| == |keys|
    decreases |keys|
  {
    SortedIs(keys);
    if keys != {} { SortedCount(keys - {Least(keys)}); }
  }

  lemma MapGrows(m: map<Key, Action>, k: Key, a: Action)
    ensures |m[k := a]| <= |m| + 1
  {
    assert m[k := a].Keys == m.Keys + {k};
    assert |m[k := a]| == |m.Keys + {k}| && |m| == |m.Keys|;
  }
}
