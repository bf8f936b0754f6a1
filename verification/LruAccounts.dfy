/** The accounts of one evictable locker as an object, and the planning loops behind an eviction. */
module LruAccounts {
  import opened Wrappers
  import opened Bytes
  import opened Storage
  import opened Lru
  import opened Budget

  class Accounts {
    const maxBytes: nat
    var entries: Entries
    var total: nat
    var pending: map<Key, nat>
    /** Another tab named a key whose size is unknown here: reload before planning. */
    var dirty: bool

    constructor (maxBytes: nat)
      ensures this.maxBytes == maxBytes
      ensures entries == map[] && total == 0 && pending == map[] && !dirty
    {
      this.maxBytes := maxBytes;
      entries, total, pending, dirty := map[], 0, map[], false;
    }

    function State(): LruState
      reads this
    {
      LruState(maxBytes, entries, total, pending)
    }

    // ---- planning ----------------------------------------------------

    method Plan(updates: seq<Update>, removals: seq<Key>, cleared: bool, budget: nat, keep: seq<Key>)
      returns (p: Lru.Plan)
      ensures p == PlanFor(entries, total, updates, removals, cleared, budget, keep)
    {
      var t := NewTotal(updates, removals, cleared);
      if t <= budget { return Lru.Plan([], t); }
      var candidates := CandidateList(updates, removals, cleared, keep);
      p := ShedOldest(ByAge(candidates), t, budget);
    }

    method NewTotal(updates: seq<Update>, removals: seq<Key>, cleared: bool) returns (t: nat)
      ensures t == TotalBefore(entries, total, updates, removals, cleared)
    {
      t := if cleared then 0 else total;
      if !cleared {
        for i := 0 to |removals|
          invariant t == TotalRemoved(entries, total, removals[..i])
        {
          assert removals[..i + 1][..i] == removals[..i];
          if removals[i] in entries { t := SatSub(t, entries[removals[i]].bytes); }
        }
        assert removals[..|removals|] == removals;
      }
      ghost var start := t;
      ghost var prior: Entries := if cleared then map[] else entries;
      for i := 0 to |updates|
        invariant t == TotalUpdated(prior, start, updates[..i])
      {
        assert updates[..i + 1][..i] == updates[..i];
        var u := updates[i];
        if !cleared && u.key in entries { t := SatSub(t, entries[u.key].bytes); }
        t := SatAdd(t, u.entry.bytes);
      }
      assert updates[..|updates|] == updates;
    }

    method CandidateList(updates: seq<Update>, removals: seq<Key>, cleared: bool, keep: seq<Key>)
      returns (cs: seq<Candidate>)
      ensures cs == Candidates(entries, updates, removals, cleared, keep)
    {
      cs := [];
      if !cleared {
        var keys := KeysInOrder(entries.Keys);
        assert forall k :: k in keys ==> k in entries by { SortedIs(entries.Keys); }
        var written := KeysOf(updates);
        for i := 0 to |keys|
          invariant cs == OldCandidates(entries, keys[..i], updates, removals, keep)
        {
          assert keys[..i + 1][..i] == keys[..i];
          var k := keys[i];
          if k !in removals && k !in written && k !in keep {
            cs := cs + [Candidate(entries[k].tick, k, entries[k].bytes)];
          }
        }
        assert keys[..|keys|] == keys;
      }
      ghost var old' := cs;
      for i := 0 to |updates|
        invariant cs == old' + NewCandidates(updates[..i], keep)
      {
        assert updates[..i + 1][..i] == updates[..i];
        var u := updates[i];
        if u.key !in keep { cs := cs + [Candidate(u.entry.tick, u.key, u.entry.bytes)]; }
      }
      assert updates[..|updates|] == updates;
    }

    static method ShedOldest(cs: seq<Candidate>, before: nat, budget: nat) returns (p: Lru.Plan)
      ensures p == Shed(cs, before, budget)
    {
      var t: nat := before;
      var victims: seq<Key> := [];
      var i: nat := 0;
      while i < |cs| && t > budget
        invariant i <= |cs|
        invariant Shed(cs, before, budget) ==
                    Lru.Plan(victims + Shed(cs[i..], t, budget).victims, Shed(cs[i..], t, budget).total)
      {
        assert cs[i..][1..] == cs[i + 1..];
        t := SatSub(t, cs[i].bytes);
        victims := victims + [cs[i].key];
        i := i + 1;
      }
      p := Lru.Plan(victims, t);
    }

    /** Which postponed ticks a commit takes along, and the rows it rewrites for them. */
    method PendingOps(id: LockerId, skip: seq<Key>) returns (keys: seq<Key>, ops: seq<Op>)
      ensures var batch := PendingBatch(State());
        && (forall k :: k in batch ==> k in pending)
        && keys == CarriedKeys(State(), batch, skip)
        && ops == CarriedOps(State(), id, batch, skip)
    {
      PendingBatchIs(State());
      var bumped := KeysInOrder(pending.Keys);
      var batch := Take(bumped, PENDING_PER_COMMIT);
      keys, ops := [], [];
      for i := 0 to |batch|
        invariant keys == CarriedKeys(State(), batch[..i], skip)
        invariant ops == CarriedOps(State(), id, batch[..i], skip)
      {
        assert batch[..i + 1][..i] == batch[..i];
        var k := batch[i];
        assert k in pending;
        if k in skip {
          keys := keys + [k];
        } else if k in entries {
          keys := keys + [k];
          ops := ops + [PutLru(id, k, Entry(pending[k], entries[k].bytes))];
        }
      }
      assert batch[..|batch|] == batch;
    }

    // ---- once a commit has landed ------------------------------------

    method Apply(updates: seq<Update>, removals: seq<Key>, cleared: bool, plan: Lru.Plan)
      modifies this
      ensures entries == EntriesAfter(old(entries), updates, removals, cleared, plan.victims)
      ensures pending == WithoutPending(WithoutPending(if cleared then map[] else old(pending), removals), plan.victims)
      ensures total == plan.total && dirty == old(dirty)
    {
      if cleared { entries, pending := map[], map[]; }
      entries, pending := entries - (set k | k in removals), pending - (set k | k in removals);
      ghost var base := entries;
      assert base == if cleared then map[] else RemoveAll(old(entries), removals);
      for i := 0 to |updates|
        invariant entries == PutAll(base, updates[..i])
        invariant pending == WithoutPending(if cleared then map[] else old(pending), removals) && dirty == old(dirty)
      {
        assert updates[..i + 1][..i] == updates[..i];
        entries := entries[updates[i].key := updates[i].entry];
      }
      assert updates[..|updates|] == updates;
      entries, pending := entries - (set k | k in plan.victims), pending - (set k | k in plan.victims);
      total := plan.total;
    }

    method ClearPending(keys: seq<Key>)
      modifies this`pending
      ensures pending == WithoutPending(old(pending), keys)
    {
      pending := pending - set k | k in keys;
    }

    /** Note a read: in RAM only. */
    method Touch(k: Key, tick: nat)
      modifies this`entries, this`pending
      ensures if k in old(entries)
              then entries == old(entries)[k := old(entries)[k].(tick := tick)] && pending == old(pending)[k := tick]
              else entries == old(entries) && pending == old(pending)
    {
      if k in entries {
        entries := entries[k := entries[k].(tick := tick)];
        pending := pending[k := tick];
      }
    }

    // ---- another tab's news ------------------------------------------

    /** One past the highest tick held here; the tick of a key nobody here has used. */
    method NextLocalTick() returns (tick: nat)
      ensures AfterAll(entries, tick)
    {
      var left := entries.Keys;
      var highest := 0;
      while left != {}
        invariant left <= entries.Keys
        invariant forall k :: k in entries && k !in left ==> entries[k].tick <= highest
        invariant highest == 0 || exists k :: k in entries && entries[k].tick == highest
        decreases |left|
      {
        var k :| k in left;
        if entries[k].tick > highest { highest := entries[k].tick; }
        left := left - {k};
      }
      tick := SatAdd(highest, 1);
    }

    /**
     Another tab's put: the key now sorts after every account held, unless its size is unknown and it was held
     already. An unknown size counts as nothing and marks the accounts for a reload.
     */
    method RemotePut(k: Key, bytes: Option<nat>)
      modifies this
      ensures entries.Keys == old(entries).Keys + {k} && pending == old(pending)
      ensures forall j :: j in old(entries) && j != k ==> entries[j] == old(entries)[j]
      ensures dirty == (old(dirty) || bytes.None?)
      ensures if bytes.None? && k in old(entries) then entries == old(entries)
              else && entries[k].bytes == (if bytes.Some? then bytes.value else 0)
                   && AfterAll(old(entries), entries[k].tick)
      ensures Sum(entries) <= Sum(old(entries)) + (if bytes.Some? then bytes.value else 0)
      ensures old(total) == Sum(old(entries)) && old(total) + (if bytes.Some? then bytes.value else 0) <= U64_MAX ==>
                total == Sum(entries)
    {
      var tick := NextLocalTick();
      match bytes
      case Some(n) =>
        SumPut(entries, k, Entry(tick, n));
        if k in entries { total := SatSub(total, entries[k].bytes); }
        entries := entries[k := Entry(tick, n)];
        total := SatAdd(total, n);
      case None =>
        if k !in entries {
          SumPut(entries, k, Entry(tick, 0));
          entries := entries[k := Entry(tick, 0)];
        }
        dirty := true;
    }

    method RemoteDelete(k: Key)
      modifies this
      ensures entries == old(entries) - {k} && pending == old(pending) - {k} && dirty == old(dirty)
      ensures old(total) == Sum(old(entries)) ==> total == Sum(entries)
    {
      if k in entries {
        SumRemove(entries, k);
        total := SatSub(total, entries[k].bytes);
      } else {
        assert entries - {k} == entries;
      }
      entries, pending := entries - {k}, pending - {k};
    }

    method RemoteClear()
      modifies this
      ensures entries == map[] && pending == map[] && total == 0 && !dirty
    {
      entries, pending, total, dirty := map[], map[], 0, false;
    }

    /** Replace the accounts with what storage records, keeping the read ticks not yet committed. */
    method AdoptLoaded(loaded: Entries, loadedTotal: nat)
      modifies this
      ensures entries == loaded && total == loadedTotal && !dirty
      ensures pending == map k | k in old(pending) && k in loaded :: old(pending)[k]
    {
      entries, total, dirty := loaded, loadedTotal, false;
      pending := map k | k in pending && k in entries :: pending[k];
    }

    // ---- opening -----------------------------------------------------

    /** Read the stored rows back, in key order; the highest tick seen is for the clock to observe. */
    method Load(rows: Entries) returns (highest: Option<nat>)
      requires entries == map[] && total == 0
      modifies this`entries, this`total
      ensures entries == rows
      ensures total == Capped(Sum(rows)) && IsHighest(rows, highest)
    {
      var keys := KeysInOrder(rows.Keys);
      assert forall k :: k in keys ==> k in rows by { SortedIs(rows.Keys); }
      var loaded := Loaded(map[], 0, None);
      for i := 0 to |keys|
        invariant loaded == LoadAll(rows, keys[..i])
      {
        assert keys[..i + 1][..i] == keys[..i];
        var e := rows[keys[i]];
        loaded := Loaded(loaded.entries[keys[i] := e], SatAdd(loaded.total, e.bytes),
                         Some(Higher(loaded.highest, e.tick)));
      }
      assert keys[..|keys|] == keys;
      EveryRowLoaded(rows, keys);
      entries, total := loaded.entries, loaded.total;
      return loaded.highest;
    }

    /** Keep only keys storage still holds, and count afresh. */
    method RetainKeys(live: set<Key>)
      modifies this
      ensures entries == (map k | k in old(entries) && k in live :: old(entries)[k])
      ensures pending == (map k | k in old(pending) && k in live :: old(pending)[k])
      ensures total == Sum(entries) && dirty == old(dirty)
    {
      entries := map k | k in entries && k in live :: entries[k];
      pending := map k | k in pending && k in live :: pending[k];
      total := TotalOf(entries);
    }

    static method TotalOf(m: Entries) returns (t: nat)
      ensures t == Sum(m)
    {
      t := 0;
      var left := m;
      while left != map[]
        invariant t + Sum(left) == Sum(m)
        decreases |left|
      {
        var k :| k in left;
        SumRemove(left, k);
        t := t + left[k].bytes;
        left := left - {k};
      }
    }

    method AdoptAll(keys: set<Key>)
      modifies this`entries
      ensures entries == (map k | k in keys :: Entry(0, 0)) + old(entries)
    {
      var left := keys;
      while left != {}
        invariant left <= keys
        invariant entries == (map k | k in keys - left :: Entry(0, 0)) + old(entries)
        decreases |left|
      {
        var k :| k in left;
        Adopt(k);
        left := left - {k};
      }
      assert keys - left == keys;
    }

    /** A stored key with no row: counted as nothing, and the first to go. */
    method Adopt(k: Key)
      modifies this`entries
      ensures entries == if k in old(entries) then old(entries) else old(entries)[k := Entry(0, 0)]
    {
      if k !in entries { entries := entries[k := Entry(0, 0)]; }
    }
  }

  /** The tick sorts after every account, or is the last there is. */
  ghost predicate AfterAll(m: Entries, tick: nat)
  {
    || tick == U64_MAX
    || ((forall k :: k in m ==> m[k].tick < tick) && (tick == 1 || exists k :: k in m && m[k].tick == tick - 1))
  }

  // ---- reading rows back ---------------------------------------------

  datatype Loaded = Loaded(entries: Entries, total: nat, highest: Option<nat>)

  /** Rows taken up one at a time. */
  function LoadAll(rows: Entries, keys: seq<Key>): Loaded
    requires forall k :: k in keys ==> k in rows
    decreases |keys|
  {
    if keys == [] then Loaded(map[], 0, None)
    else
      var before := LoadAll(rows, keys[..|keys| - 1]);
      var k := keys[|keys| - 1];
      Loaded(before.entries[k := rows[k]], SatAdd(before.total, rows[k].bytes),
             Some(Higher(before.highest, rows[k].tick)))
  }

  function Higher(highest: Option<nat>, tick: nat): nat
  {
    if highest.Some? && highest.value > tick then highest.value else tick
  }

  function Capped(n: nat): nat { if n <= U64_MAX then n else U64_MAX }

  ghost predicate IsHighest(m: Entries, h: Option<nat>)
  {
    && (h.None? <==> m == map[])
    && (h.Some? ==> (exists k :: k in m && m[k].tick == h.value) && forall k :: k in m ==> m[k].tick <= h.value)
  }

  lemma HigherRow(m: Entries, k: Key, e: Entry, h: Option<nat>)
    requires k !in m && IsHighest(m, h)
    ensures IsHighest(m[k := e], Some(Higher(h, e.tick)))
  {
    var m' := m[k := e];
    if h.Some? && h.value > e.tick {
      var j :| j in m && m[j].tick == h.value;
      assert j in m' && m'[j].tick == h.value;
    } else {
      assert k in m' && m'[k].tick == e.tick;
    }
  }

  lemma {:induction false} LoadAllIs(rows: Entries, keys: seq<Key>)
    requires (forall k :: k in keys ==> k in rows) && forall i, j :: 0 <= i < j < |keys| ==> keys[i] != keys[j]
    ensures var l := LoadAll(rows, keys);
      && (forall k :: k in l.entries <==> k in keys) && (forall k :: k in l.entries ==> l.entries[k] == rows[k])
      && l.total == Capped(Sum(l.entries)) && IsHighest(l.entries, l.highest)
    decreases |keys|
  {
    if keys != [] {
      var init, k := keys[..|keys| - 1], keys[|keys| - 1];
      assert keys == init + [k];
      LoadAllIs(rows, init);
      OneMoreRow(LoadAll(rows, init), k, rows[k]);
    }
  }

  lemma OneMoreRow(l: Loaded, k: Key, e: Entry)
    requires k !in l.entries && l.total == Capped(Sum(l.entries)) && IsHighest(l.entries, l.highest)
    ensures SatAdd(l.total, e.bytes) == Capped(Sum(l.entries[k := e]))
    ensures IsHighest(l.entries[k := e], Some(Higher(l.highest, e.tick)))
  {
    SumPut(l.entries, k, e);
    HigherRow(l.entries, k, e, l.highest);
  }

  lemma EveryRowLoaded(rows: Entries, keys: seq<Key>)
    requires keys == Sorted(rows.Keys) && forall k :: k in keys ==> k in rows
    ensures var l := LoadAll(rows, keys);
      l.entries == rows && l.total == Capped(Sum(rows)) && IsHighest(rows, l.highest)
  {
    SortedIs(rows.Keys);
    AscendingDistinct(keys);
    LoadAllIs(rows, keys);
    assert LoadAll(rows, keys).entries == rows;
  }
}
