/**
 Write-sets: what a batch of staged writes means, how it is collapsed before it is turned into
 ops, and the proof that committing the collapsed ops is the same as replaying the batch.
 */
module Batches {
  import opened Wrappers
  import opened Bytes
  import opened Storage

  datatype Pending = Put(key: Key, payload: Payload) | Delete(key: Key) | Clear

  datatype Action = Assign(payload: Payload) | Remove

  type Contents = map<Key, Value>

  /** One staged write, replayed on a locker's contents. */
  function Replay(m: Contents, p: Pending): Contents
  {
    match p
    case Put(k, payload) => m[k := Value(FLAG_POSTCARD, payload)]
    case Delete(k) => m - {k}
    case Clear => map[]
  }

  /** A whole batch, replayed oldest first. */
  function Overlay(m: Contents, batch: seq<Pending>): Contents
    decreases |batch|
  {
    if batch == [] then m else Replay(Overlay(m, batch[..|batch| - 1]), batch[|batch| - 1])
  }

  lemma {:induction false} OverlayAppend(m: Contents, a: seq<Pending>, b: seq<Pending>)
    ensures Overlay(m, a + b) == Overlay(Overlay(m, a), b)
    decreases |b|
  {
    if b == [] {
      assert a + b == a;
    } else {
      OverlayAppend(m, a, b[..|b| - 1]);
      assert (a + b)[..|a + b| - 1] == a + b[..|b| - 1];
    }
  }

  lemma OverlayOne(m: Contents, p: Pending)
    ensures Overlay(m, [p]) == Replay(m, p)
  {
    assert [p][..0] == [];
    assert Overlay(m, []) == m;
  }

  // ---- collapsing ----------------------------------------------------

  predicate HasClear(batch: seq<Pending>)
  {
    exists i :: 0 <= i < |batch| && batch[i].Clear?
  }

  /** What follows the last clear. */
  function Tail(batch: seq<Pending>): (t: seq<Pending>)
    ensures !HasClear(t)
    ensures !HasClear(batch) ==> t == batch
    ensures HasClear(batch) ==> |t| < |batch| && batch[|batch| - |t| - 1].Clear? && t == batch[|batch| - |t|..]
    decreases |batch|
  {
    if batch == [] then []
    else if batch[|batch| - 1].Clear? then []
    else
      var last := batch[|batch| - 1];
      var init := batch[..|batch| - 1];
      assert batch == init + [last];
      assert HasClear(init) <==> HasClear(batch) by {
        if HasClear(init) { var i :| 0 <= i < |init| && init[i].Clear?; assert batch[i].Clear?; }
        if HasClear(batch) { var i :| 0 <= i < |batch| && batch[i].Clear?; assert init[i].Clear?; }
      }
      Tail(init) + [last]
  }

  /** What each key ends up as. */
  function Actions(tail: seq<Pending>): map<Key, Action>
    decreases |tail|
  {
    if tail == [] then map[]
    else
      var before := Actions(tail[..|tail| - 1]);
      match tail[|tail| - 1]
      case Put(k, payload) => before[k := Assign(payload)]
      case Delete(k) => before[k := Remove]
      case Clear => before
  }

  function Perform(m: Contents, k: Key, a: Action): Contents
  {
    match a
    case Assign(payload) => m[k := Value(FLAG_POSTCARD, payload)]
    case Remove => m - {k}
  }

  /** The collapsed actions, performed key by key. */
  function Played(m: Contents, acts: map<Key, Action>, keys: seq<Key>): Contents
    requires forall k :: k in keys ==> k in acts
    decreases |keys|
  {
    if keys == [] then m
    else Perform(Played(m, acts, keys[..|keys| - 1]), keys[|keys| - 1], acts[keys[|keys| - 1]])
  }

  function Lookup(m: Contents, k: Key): Option<Value> { if k in m then Some(m[k]) else None }

  function ResultOf(a: Action): Option<Value>
  {
    match a
    case Assign(payload) => Some(Value(FLAG_POSTCARD, payload))
    case Remove => None
  }

  lemma {:induction false} PlayedAt(m: Contents, acts: map<Key, Action>, keys: seq<Key>)
    requires forall k :: k in keys ==> k in acts
    ensures forall k :: Lookup(Played(m, acts, keys), k) ==
                          if k in keys then ResultOf(acts[k]) else Lookup(m, k)
    decreases |keys|
  {
    if keys != [] {
      var init, last := keys[..|keys| - 1], keys[|keys| - 1];
      assert keys == init + [last];
      PlayedAt(m, acts, init);
    }
  }

  lemma {:induction false} OverlayAt(m: Contents, tail: seq<Pending>)
    requires !HasClear(tail)
    ensures forall k :: Lookup(Overlay(m, tail), k) ==
                          if k in Actions(tail) then ResultOf(Actions(tail)[k]) else Lookup(m, k)
    decreases |tail|
  {
    if tail != [] {
      var init := tail[..|tail| - 1];
      assert forall i :: 0 <= i < |init| ==> init[i] == tail[i];
      OverlayAt(m, init);
    }
  }

  lemma SameLookups(a: Contents, b: Contents)
    requires forall k :: Lookup(a, k) == Lookup(b, k)
    ensures a == b
  {
    forall k ensures k in a <==> k in b { assert Lookup(a, k) == Lookup(b, k); }
    forall k | k in a ensures a[k] == b[k] { assert Lookup(a, k) == Lookup(b, k); }
  }

  /** Everything before the last clear is irrelevant. */
  lemma ClearForgets(m: Contents, batch: seq<Pending>)
    ensures Overlay(m, batch) == Overlay(if HasClear(batch) then map[] else m, Tail(batch))
  {
    var t := Tail(batch);
    if HasClear(batch) {
      var n := |batch| - |t|;
      assert batch == batch[..n] + t;
      OverlayAppend(m, batch[..n], t);
      assert batch[..n][n - 1].Clear?;
    }
  }

  /** Collapsing a batch keeps its meaning, whatever it is replayed on. */
  lemma CollapseKeepsMeaning(m: Contents, batch: seq<Pending>)
    ensures var acts := Actions(Tail(batch));
      && (forall k :: k in Sorted(acts.Keys) ==> k in acts)
      && Overlay(m, batch) == Played(if HasClear(batch) then map[] else m, acts, Sorted(acts.Keys))
  {
    var acts := Actions(Tail(batch));
    SortedIs(acts.Keys);
    var base: Contents := if HasClear(batch) then map[] else m;
    ClearForgets(m, batch);
    OverlayAt(base, Tail(batch));
    PlayedAt(base, acts, Sorted(acts.Keys));
    SameLookups(Overlay(base, Tail(batch)), Played(base, acts, Sorted(acts.Keys)));
  }
}

module Transaction {
  import opened Wrappers
  import opened Bytes
  import opened Storage
  import opened Ownership
  import opened Inner
  import opened Batches

  /** Ops for the collapsed actions, in key order, allocating a value id for each large put. */
  ghost function ActionOps(s: Store, l: LockerId, chunkSize: nat, acts: map<Key, Action>, keys: seq<Key>,
                           next: Option<nat>): Build
    requires chunkSize >= 1
    requires forall k :: k in keys ==> k in acts
    decreases |keys|
  {
    if keys == [] then Build([], next)
    else
      var before := ActionOps(s, l, chunkSize, acts, keys[..|keys| - 1], next);
      var k := keys[|keys| - 1];
      match acts[k]
      case Assign(payload) =>
        var b := PutBuild(s, l, chunkSize, k, payload, FLAG_POSTCARD, Unknown, before.next);
        Build(before.ops + b.ops, b.next)
      case Remove => Build(before.ops + DeleteOps(s, l, k, Unknown), before.next)
  }

  /** The ops of a whole batch. */
  ghost function BatchOps(s: Store, l: LockerId, chunkSize: nat, batch: seq<Pending>, next: Option<nat>): Build
    requires chunkSize >= 1
  {
    var acts := Actions(Tail(batch));
    SortedIs(acts.Keys);
    var b := ActionOps(s, l, chunkSize, acts, Sorted(acts.Keys), next);
    Build((if HasClear(batch) then ClearOps(s, l) else []) + b.ops, b.next)
  }

  /** The pieces unfinished writers have flushed are untouched. */
  ghost predicate WritersKept(s: Store, t: Store, ws: Writers)
  {
    forall h :: h in ws ==> t.Rows(ws[h].valueId) == s.Rows(ws[h].valueId)
  }

  // ---- clear ---------------------------------------------------------

  /** Some key among `keys` holds a pointer with this id, and it parses. */
  ghost predicate NamedBy(s: Store, l: LockerId, keys: seq<Key>, v: nat)
  {
    exists k :: k in keys && ParsedId(RecordAt(s, l, k)) == Some(v)
  }

  /** A clear finds every chunk of the locker: a pointer it has to pass over has none. */
  ghost predicate Collectable(s: Store, l: LockerId)
  {
    forall k :: !Legible(RecordAt(s, l, k)) ==> s.Rows(s.Recs(l)[k].ptr.valueId) == map[]
  }

  lemma {:induction false} GcAllEffect(s0: Store, s: Store, l: LockerId, keys: seq<Key>)
    ensures var t := ApplyAll(s, GcAll(s0, l, keys));
      && (forall v: nat :: t.Rows(v) == if NamedBy(s0, l, keys, v) then map[] else s.Rows(v))
      && t.records == s.records && t.lru == s.lru && t.nextId == s.nextId && t.nextTick == s.nextTick
    decreases |keys|
  {
    if keys != [] {
      var init, k := keys[..|keys| - 1], keys[|keys| - 1];
      assert keys == init + [k];
      GcAllEffect(s0, s, l, init);
      var id := ParsedId(RecordAt(s0, l, k));
      ApplyAppend(s, GcAll(s0, l, init), GcOps(id));
      DropEffect(ApplyAll(s, GcAll(s0, l, init)), id);
      NamedByLast(s0, l, init, k);
    }
  }

  lemma DropEffect(s: Store, id: Option<nat>)
    ensures var t := ApplyAll(s, GcOps(id));
      && (forall v: nat :: t.Rows(v) == if id == Some(v) then map[] else s.Rows(v))
      && t.records == s.records && t.lru == s.lru && t.nextId == s.nextId && t.nextTick == s.nextTick
  {
    if id.Some? { ApplyOne(s, DropChunks(id.value)); }
  }

  lemma NamedByLast(s: Store, l: LockerId, init: seq<Key>, k: Key)
    ensures forall v: nat :: NamedBy(s, l, init + [k], v) ==
                               (NamedBy(s, l, init, v) || ParsedId(RecordAt(s, l, k)) == Some(v))
  {
    forall v: nat
      ensures NamedBy(s, l, init + [k], v) == (NamedBy(s, l, init, v) || ParsedId(RecordAt(s, l, k)) == Some(v))
    {
      if NamedBy(s, l, init, v) {
        var j :| j in init && ParsedId(RecordAt(s, l, j)) == Some(v);
        assert j in init + [k];
      }
      if ParsedId(RecordAt(s, l, k)) == Some(v) { assert k in init + [k]; }
    }
  }

  /** Clearing a locker empties it, drops exactly its chunks, and touches no other locker. */
  lemma ClearEffect(s: Store, ws: Writers, l: LockerId)
    requires Owned(s, ws) && Collectable(s, l)
    ensures var t := ApplyAll(s, ClearOps(s, l));
      && Owned(t, ws)
      && t.Recs(l) == map[] && View(t, l) == map[]
      && (forall l' :: l' != l ==> t.Recs(l') == s.Recs(l') && View(t, l') == View(s, l'))
      && (forall o :: ClaimOf(t, ws, o) == if o.ByRecord? && o.locker == l then None else ClaimOf(s, ws, o))
      && (forall v: nat :: s.Rows(v) == map[] ==> t.Rows(v) == map[])
      && (forall k :: PointerId(RecordAt(s, l, k)).Some? ==> t.Rows(PointerId(RecordAt(s, l, k)).value) == map[])
      && WritersKept(s, t, ws)
      && t.lru == s.lru && t.nextId == s.nextId && t.nextTick == s.nextTick
  {
    var t := ApplyAll(s, ClearOps(s, l));
    assert t.lru == s.lru && t.nextId == s.nextId && t.nextTick == s.nextTick
           && t.Recs(l) == map[] && (forall l' :: l' != l ==> t.Recs(l') == s.Recs(l')) by {
      ClearRows(s, l);
    }
    ClearDrops(s, l);
    assert Owned(t, ws) && View(t, l) == map[] && WritersKept(s, t, ws)
           && (forall l' :: l' != l ==> View(t, l') == View(s, l'))
           && (forall o :: ClaimOf(t, ws, o) == if o.ByRecord? && o.locker == l then None else ClaimOf(s, ws, o)) by {
      SortedIs(s.Recs(l).Keys);
      ClearRows(s, l);
      ClearKeepsOwnership(s, t, ws, l, Sorted(s.Recs(l).Keys));
    }
  }

  /** No row comes into being, and the rows of every pointer of the locker are gone. */
  lemma ClearDrops(s: Store, l: LockerId)
    requires Collectable(s, l)
    ensures var t := ApplyAll(s, ClearOps(s, l));
      && (forall v: nat :: s.Rows(v) == map[] ==> t.Rows(v) == map[])
      && (forall k :: PointerId(RecordAt(s, l, k)).Some? ==> t.Rows(PointerId(RecordAt(s, l, k)).value) == map[])
  {
    var t, keys := ApplyAll(s, ClearOps(s, l)), Sorted(s.Recs(l).Keys);
    ClearRows(s, l);
    assert forall k :: k in keys <==> k in s.Recs(l) by { SortedIs(s.Recs(l).Keys); }
    forall k | PointerId(RecordAt(s, l, k)).Some? ensures t.Rows(PointerId(RecordAt(s, l, k)).value) == map[] {
      assert k in keys;
      if Legible(RecordAt(s, l, k)) { assert NamedBy(s, l, keys, PointerId(RecordAt(s, l, k)).value); }
    }
  }

  lemma ClearRows(s: Store, l: LockerId)
    ensures var t := ApplyAll(s, ClearOps(s, l));
      && t.Recs(l) == map[] && (forall l' :: l' != l ==> t.Recs(l') == s.Recs(l'))
      && (forall v: nat :: t.Rows(v) == if NamedBy(s, l, Sorted(s.Recs(l).Keys), v) then map[] else s.Rows(v))
      && t.lru == s.lru && t.nextId == s.nextId && t.nextTick == s.nextTick
  {
    var keys := Sorted(s.Recs(l).Keys);
    GcAllEffect(s, s, l, keys);
    ApplyAppend(s, GcAll(s, l, keys), [ClearRecords(l)]);
    ApplyOne(ApplyAll(s, GcAll(s, l, keys)), ClearRecords(l));
  }

  lemma ClearKeepsOwnership(s: Store, t: Store, ws: Writers, l: LockerId, keys: seq<Key>)
    requires Owned(s, ws) && Collectable(s, l) && IsSorting(keys, s.Recs(l).Keys)
    requires t.Recs(l) == map[] && forall l' :: l' != l ==> t.Recs(l') == s.Recs(l')
    requires forall v: nat :: t.Rows(v) == if NamedBy(s, l, keys, v) then map[] else s.Rows(v)
    ensures Owned(t, ws) && View(t, l) == map[] && WritersKept(s, t, ws)
    ensures forall l' :: l' != l ==> View(t, l') == View(s, l')
    ensures forall o :: ClaimOf(t, ws, o) == if o.ByRecord? && o.locker == l then None else ClaimOf(s, ws, o)
  {
    forall o ensures ClaimOf(t, ws, o) == if o.ByRecord? && o.locker == l then None else ClaimOf(s, ws, o) {
      if o.ByRecord? && o.locker != l { assert t.Recs(o.locker) == s.Recs(o.locker); }
    }
    forall v: nat, o | NamedBy(s, l, keys, v) && Claiming(s, ws, o, v)
      ensures o.ByRecord? && o.locker == l
    {
      var k :| k in keys && ParsedId(RecordAt(s, l, k)) == Some(v);
      assert Claiming(s, ws, ByRecord(l, k), v);
    }
    forall h | h in ws ensures t.Rows(ws[h].valueId) == s.Rows(ws[h].valueId) {
      assert Claiming(s, ws, ByWriter(h), ws[h].valueId);
    }
    forall v | Unclaimed(t, ws, v) ensures t.Rows(v) == map[] {
      if !Unclaimed(s, ws, v) {
        var o :| Claiming(s, ws, o, v);
        assert !Claiming(t, ws, o, v);
        Collected(s, ws, l, keys, o.key, v);
      }
    }
    forall o, p, v | Claiming(t, ws, o, v) && Claiming(t, ws, p, v) ensures o == p {
      assert Claiming(s, ws, o, v) && Claiming(s, ws, p, v);
    }
    forall o | ClaimOf(t, ws, o).Some?
      ensures ExactRows(t.Rows(ClaimOf(t, ws, o).value.valueId), ClaimOf(t, ws, o).value.chunks)
    {
      assert Claiming(s, ws, o, ClaimOf(s, ws, o).value.valueId);
    }
    forall l', k | l' != l && k in s.Recs(l') && s.Recs(l')[k].Pointer?
      ensures t.Rows(s.Recs(l')[k].ptr.valueId) == s.Rows(s.Recs(l')[k].ptr.valueId)
    {
      assert Claiming(s, ws, ByRecord(l', k), s.Recs(l')[k].ptr.valueId);
    }
  }

  lemma Collected(s: Store, ws: Writers, l: LockerId, keys: seq<Key>, k: Key, v: nat)
    requires Collectable(s, l) && IsSorting(keys, s.Recs(l).Keys) && Claiming(s, ws, ByRecord(l, k), v)
    ensures NamedBy(s, l, keys, v) || s.Rows(v) == map[]
  {
    assert k in keys;
    if Legible(RecordAt(s, l, k)) { assert ParsedId(RecordAt(s, l, k)) == Some(v); }
  }

  // ---- one key at a time ---------------------------------------------

  /** Every pointer parses and declares the length of what its chunks hold, so reading it back succeeds. */
  ghost predicate Readable(s: Store)
  {
    forall l, k :: k in s.Recs(l) ==> Whole(s, l, k)
  }

  /** The record under the key loads. */
  predicate Whole(s: Store, l: LockerId, k: Key)
    requires k in s.Recs(l)
  {
    var r := s.Recs(l)[k];
    r.Pointer? ==> Parses(r.ptr) && |View(s, l)[k].payload| == r.ptr.totalLen
  }

  lemma SameReadable(s: Store, t: Store)
    requires forall l :: t.Recs(l) == s.Recs(l) && View(t, l) == View(s, l)
    ensures Readable(t) == Readable(s)
  {
    forall l, k | k in t.Recs(l) ensures k in s.Recs(l) && Whole(t, l, k) == Whole(s, l, k) {
      assert t.Recs(l) == s.Recs(l) && View(t, l) == View(s, l);
    }
  }

  lemma ReadableIsLegible(s: Store, l: LockerId)
    requires Readable(s)
    ensures Collectable(s, l) && forall k :: Legible(RecordAt(s, l, k))
  {
    forall k ensures Legible(RecordAt(s, l, k)) {
      assert k in s.Recs(l) ==> Whole(s, l, k);
    }
  }

  /**
   What every commit keeps: exact chunk ownership, readable pointers, and every id in use below the
   stored counter, which the RAM cursor has passed.
   */
  ghost predicate Sound(s: Store, ws: Writers, cursor: nat)
  {
    Owned(s, ws) && Readable(s) && ClaimsBelow(s, ws, Stored(s)) && Stored(s) <= cursor
  }

  /** Only the locker's records under `keys` may differ, and no id below `bound` gained rows or a pointer. */
  ghost predicate OnlyRecords(s: Store, t: Store, ws: Writers, l: LockerId, keys: seq<Key>, bound: nat)
  {
    && WritersKept(s, t, ws)
    && (forall k :: k !in keys ==> RecordAt(t, l, k) == RecordAt(s, l, k))
    && (forall l' :: l' != l ==> t.Recs(l') == s.Recs(l') && View(t, l') == View(s, l'))
    && (forall v: nat :: v < bound && s.Rows(v) == map[] ==> t.Rows(v) == map[])
    && NewPointers(s, t, l, bound) && Stored(s) <= Stored(t)
  }

  /** Every pointer of the locker was there before, under the same key, or is fresh. */
  ghost predicate NewPointers(s: Store, t: Store, l: LockerId, bound: nat)
  {
    forall k :: PointerId(RecordAt(t, l, k)).Some? && RecordAt(t, l, k) != RecordAt(s, l, k) ==>
      PointerId(RecordAt(t, l, k)).value >= bound
  }

  /** As `OnlyRecords`, with the budget rows and the clock untouched as well. */
  ghost predicate OnlyKeys(s: Store, t: Store, ws: Writers, l: LockerId, keys: seq<Key>, bound: nat)
  {
    OnlyRecords(s, t, ws, l, keys, bound) && t.lru == s.lru && t.nextTick == s.nextTick
  }

  /** A put keeps the store sound and writes one key. */
  lemma PutStep(s0: Store, s: Store, ws: Writers, l: LockerId, chunkSize: nat, k: Key, payload: Payload,
                flags: nat, prior: Prior, next: Option<nat>)
    requires chunkSize >= 1 && |payload| <= MAX_DECODED_BYTES
    requires Sound(s, ws, Cursor(s0, next)) && Drops(s, l, k, GcTarget(s0, l, k, prior))
    ensures var b := PutBuild(s0, l, chunkSize, k, payload, flags, prior, next);
            var t := ApplyAll(s, b.ops);
      && Sound(t, ws, Cursor(s0, b.next))
      && View(t, l) == View(s, l)[k := Value(flags, payload)]
      && OnlyKeys(s, t, ws, l, [k], Cursor(s0, next))
      && k in t.Recs(l) && (t.Recs(l)[k].Inline? <==> StoresInline(|payload|, chunkSize, flags))
      && Cursor(s0, next) <= Cursor(s0, b.next)
  {
    var r, rows := PutLeaves(s0, s, ws, l, chunkSize, k, payload, flags, prior, next);
    var t := ApplyAll(s, PutBuild(s0, l, chunkSize, k, payload, flags, prior, next).ops);
    ReplaceStep(s, t, ws, l, k, Some(r), rows, Cursor(s0, next));
  }

  /** The record and rows a put leaves behind, with what the rest of the engine needs to know of them. */
  lemma PutLeaves(s0: Store, s: Store, ws: Writers, l: LockerId, chunkSize: nat, k: Key, payload: Payload,
                  flags: nat, prior: Prior, next: Option<nat>) returns (r: Record, rows: map<nat, Payload>)
    requires chunkSize >= 1 && |payload| <= MAX_DECODED_BYTES
    requires Sound(s, ws, Cursor(s0, next)) && Drops(s, l, k, GcTarget(s0, l, k, prior))
    ensures var b := PutBuild(s0, l, chunkSize, k, payload, flags, prior, next);
            var t := ApplyAll(s, b.ops);
      && Replaced(s, t, l, k, Some(r), rows) && Decode(t, r) == Value(flags, payload)
      && t.lru == s.lru && t.nextTick == s.nextTick
      && (r.Inline? ==> t.nextId == s.nextId && Cursor(s0, b.next) == Cursor(s0, next))
      && (r.Pointer? ==>
            && t.nextId == Some(Cursor(s0, next) + 1) && Cursor(s0, b.next) == Cursor(s0, next) + 1
            && r.ptr.valueId == Cursor(s0, next) && r.ptr.totalLen == |payload| && ExactRows(rows, r.ptr.nChunks)
            && Parses(r.ptr))
    ensures r.Inline? <==> StoresInline(|payload|, chunkSize, flags)
  {
    r := PutRecordOf(s0, chunkSize, payload, flags, next);
    rows := PutRowsOf(chunkSize, payload, flags);
    CursorUnclaimed(s, ws, Cursor(s0, next));
    CutSizes(payload, chunkSize);
    PutEffect(s0, s, l, chunkSize, k, payload, flags, prior, next);
    PutDecodes(s0, ApplyAll(s, PutBuild(s0, l, chunkSize, k, payload, flags, prior, next).ops), chunkSize, payload,
               flags, next);
  }

  lemma CursorUnclaimed(s: Store, ws: Writers, cursor: nat)
    requires Sound(s, ws, cursor)
    ensures Unclaimed(s, ws, cursor) && s.Rows(cursor) == map[]
  {
    forall o ensures !Claiming(s, ws, o, cursor) {
    }
  }

  /** Replacing one record under a fresh id, or dropping it, keeps the store sound. */
  lemma ReplaceStep(s: Store, t: Store, ws: Writers, l: LockerId, k: Key, r: Option<Record>,
                    rows: map<nat, Payload>, cursor: nat)
    requires Sound(s, ws, cursor) && Replaced(s, t, l, k, r, rows)
    requires t.lru == s.lru && t.nextTick == s.nextTick
    requires PointerId(r).Some? ==>
               && PointerId(r) == Some(cursor) && ExactRows(rows, r.value.ptr.nChunks) && t.nextId == Some(cursor + 1)
               && Sized(t, r.value)
    requires PointerId(r).None? ==> t.nextId == s.nextId
    ensures Sound(t, ws, if PointerId(r).Some? then cursor + 1 else cursor)
    ensures View(t, l) == if r.Some? then View(s, l)[k := Decode(t, r.value)] else View(s, l) - {k}
    ensures OnlyKeys(s, t, ws, l, [k], cursor)
  {
    CursorUnclaimed(s, ws, cursor);
    ReplaceKeepsOwnership(s, t, ws, l, k, r, rows);
    ReplaceView(s, t, ws, l, k, r, rows);
    ReplaceClaims(s, t, ws, l, k, r, rows);
    ReplaceReadable(s, t, ws, l, k, r, rows);
    ReplaceWriters(s, t, ws, l, k, r, rows);
    forall o | ClaimOf(t, ws, o).Some? ensures ClaimOf(t, ws, o).value.valueId < Stored(t) {
      if o != ByRecord(l, k) { assert ClaimOf(t, ws, o) == ClaimOf(s, ws, o); }
    }
  }

  lemma ReplaceWriters(s: Store, t: Store, ws: Writers, l: LockerId, k: Key, r: Option<Record>,
                       rows: map<nat, Payload>)
    requires Owned(s, ws) && Replaced(s, t, l, k, r, rows)
    requires PointerId(r).Some? ==> Unclaimed(s, ws, PointerId(r).value)
    ensures WritersKept(s, t, ws)
  {
    forall h | h in ws ensures t.Rows(ws[h].valueId) == s.Rows(ws[h].valueId) {
      var v := ws[h].valueId;
      assert Claiming(s, ws, ByWriter(h), v);
      assert PointerId(RecordAt(s, l, k)) == Some(v) ==> Claiming(s, ws, ByRecord(l, k), v);
    }
  }

  lemma ReplaceReadable(s: Store, t: Store, ws: Writers, l: LockerId, k: Key, r: Option<Record>,
                        rows: map<nat, Payload>)
    requires Owned(s, ws) && Readable(s) && Replaced(s, t, l, k, r, rows)
    requires PointerId(r).Some? ==>
               Unclaimed(s, ws, PointerId(r).value) && Sized(t, r.value)
    ensures Readable(t)
  {
    ReplaceView(s, t, ws, l, k, r, rows);
    forall l', k' | k' in t.Recs(l') ensures Whole(t, l', k') {
      if l' != l || k' != k {
        assert t.Recs(l')[k'] == s.Recs(l')[k'] && View(t, l')[k'] == View(s, l')[k'] && Whole(s, l', k');
      }
    }
  }

  /** A delete keeps the store sound and removes one key. */
  lemma DeleteStep(s0: Store, s: Store, ws: Writers, l: LockerId, k: Key, prior: Prior, cursor: nat)
    requires Sound(s, ws, cursor) && Drops(s, l, k, GcTarget(s0, l, k, prior))
    ensures var t := ApplyAll(s, DeleteOps(s0, l, k, prior));
      && Sound(t, ws, cursor)
      && View(t, l) == View(s, l) - {k}
      && OnlyKeys(s, t, ws, l, [k], cursor)
      && t.nextId == s.nextId
  {
    DeleteEffect(s0, s, l, k, prior);
    ReplaceStep(s, ApplyAll(s, DeleteOps(s0, l, k, prior)), ws, l, k, None, map[], cursor);
  }

  // ---- a whole batch -------------------------------------------------

  /** No write is longer than a reader would take on. */
  ghost predicate Bounded(batch: seq<Pending>)
  {
    forall i :: 0 <= i < |batch| && batch[i].Put? ==> |batch[i].payload| <= MAX_DECODED_BYTES
  }

  ghost predicate BoundedActs(acts: map<Key, Action>)
  {
    forall k :: k in acts && acts[k].Assign? ==> |acts[k].payload| <= MAX_DECODED_BYTES
  }

  lemma {:induction false} ActionsBounded(tail: seq<Pending>)
    requires Bounded(tail)
    ensures BoundedActs(Actions(tail))
    decreases |tail|
  {
    if tail != [] {
      assert Bounded(tail[..|tail| - 1]);
      ActionsBounded(tail[..|tail| - 1]);
    }
  }

  lemma TailBounded(batch: seq<Pending>)
    requires Bounded(batch)
    ensures BoundedActs(Actions(Tail(batch)))
  {
    assert Bounded(Tail(batch));
    ActionsBounded(Tail(batch));
  }

  /** The chunks to drop, read from `s0`, are still the right ones in `s`. */
  ghost predicate GcReady(s0: Store, s: Store, l: LockerId, keys: seq<Key>, bound: nat)
  {
    forall k :: k in keys ==>
      Drops(s, l, k, GcTarget(s0, l, k, Unknown)) &&
      (GcTarget(s0, l, k, Unknown).Some? ==> GcTarget(s0, l, k, Unknown).value < bound)
  }

  lemma {:induction false} ActionOpsEffect(s0: Store, s: Store, ws: Writers, l: LockerId, chunkSize: nat,
                                           acts: map<Key, Action>, keys: seq<Key>, next: Option<nat>)
    requires chunkSize >= 1 && BoundedActs(acts)
    requires forall k :: k in keys ==> k in acts
    requires forall i, j :: 0 <= i < j < |keys| ==> keys[i] != keys[j]
    requires Sound(s, ws, Cursor(s0, next)) && GcReady(s0, s, l, keys, Cursor(s0, next))
    ensures var b := ActionOps(s0, l, chunkSize, acts, keys, next);
            var t := ApplyAll(s, b.ops);
      && Sound(t, ws, Cursor(s0, b.next))
      && View(t, l) == Played(View(s, l), acts, keys)
      && OnlyKeys(s, t, ws, l, keys, Cursor(s0, next))
      && Cursor(s0, next) <= Cursor(s0, b.next)
    decreases |keys|
  {
    if keys != [] {
      var init, k := keys[..|keys| - 1], keys[|keys| - 1];
      assert keys == init + [k];
      var before := ActionOps(s0, l, chunkSize, acts, init, next);
      var t := ApplyAll(s, before.ops);
      ActionOpsEffect(s0, s, ws, l, chunkSize, acts, init, next);
      assert Drops(t, l, k, GcTarget(s0, l, k, Unknown)) by {
        assert k !in init && k in keys;
        StillReady(s0, s, t, ws, l, init, k, Cursor(s0, next));
      }
      OneMoreAction(s0, s, ws, l, chunkSize, acts, init, k, next);
    }
  }

  /** The last action, on top of those before it. */
  lemma OneMoreAction(s0: Store, s: Store, ws: Writers, l: LockerId, chunkSize: nat, acts: map<Key, Action>,
                      init: seq<Key>, k: Key, next: Option<nat>)
    requires chunkSize >= 1 && BoundedActs(acts) && (forall j :: j in init ==> j in acts) && k in acts
    requires var before := ActionOps(s0, l, chunkSize, acts, init, next);
             var t := ApplyAll(s, before.ops);
      && Sound(t, ws, Cursor(s0, before.next))
      && View(t, l) == Played(View(s, l), acts, init)
      && OnlyKeys(s, t, ws, l, init, Cursor(s0, next)) && Cursor(s0, next) <= Cursor(s0, before.next)
      && Drops(t, l, k, GcTarget(s0, l, k, Unknown))
    ensures var b := ActionOps(s0, l, chunkSize, acts, init + [k], next);
            var u := ApplyAll(s, b.ops);
      && Sound(u, ws, Cursor(s0, b.next))
      && View(u, l) == Played(View(s, l), acts, init + [k])
      && OnlyKeys(s, u, ws, l, init + [k], Cursor(s0, next))
      && Cursor(s0, next) <= Cursor(s0, b.next)
  {
    var before := ActionOps(s0, l, chunkSize, acts, init, next);
    var t := ApplyAll(s, before.ops);
    assert (init + [k])[..|init|] == init;
    match acts[k]
    case Assign(payload) =>
      var b := PutBuild(s0, l, chunkSize, k, payload, FLAG_POSTCARD, Unknown, before.next);
      PutStep(s0, t, ws, l, chunkSize, k, payload, FLAG_POSTCARD, Unknown, before.next);
      ApplyAppend(s, before.ops, b.ops);
      OnlyKeysTwice(s, t, ApplyAll(t, b.ops), ws, l, init, [k], Cursor(s0, next), Cursor(s0, before.next));
    case Remove =>
      var ops := DeleteOps(s0, l, k, Unknown);
      DeleteStep(s0, t, ws, l, k, Unknown, Cursor(s0, before.next));
      ApplyAppend(s, before.ops, ops);
      OnlyKeysTwice(s, t, ApplyAll(t, ops), ws, l, init, [k], Cursor(s0, next), Cursor(s0, before.next));
  }

  lemma OnlyKeysTwice(s: Store, t: Store, u: Store, ws: Writers, l: LockerId, a: seq<Key>, b: seq<Key>, bound: nat,
                      bound': nat)
    requires OnlyKeys(s, t, ws, l, a, bound) && OnlyKeys(t, u, ws, l, b, bound') && bound <= bound'
    ensures OnlyKeys(s, u, ws, l, a + b, bound)
  {
    forall k | k !in a + b ensures RecordAt(u, l, k) == RecordAt(s, l, k) {
      assert k !in a && k !in b;
    }
    forall l' | l' != l ensures u.Recs(l') == s.Recs(l') && View(u, l') == View(s, l') {
      assert t.Recs(l') == s.Recs(l') && View(t, l') == View(s, l');
    }
  }

  lemma StillReady(s0: Store, s: Store, t: Store, ws: Writers, l: LockerId, keys: seq<Key>, k: Key, bound: nat)
    requires OnlyRecords(s, t, ws, l, keys, bound) && k !in keys
    requires Drops(s, l, k, GcTarget(s0, l, k, Unknown))
    requires GcTarget(s0, l, k, Unknown).Some? ==> GcTarget(s0, l, k, Unknown).value < bound
    ensures Drops(t, l, k, GcTarget(s0, l, k, Unknown))
  {
  }

  /** The main ops of a commit of `batch` do to the store what replaying `batch` does. */
  ghost predicate Builds(s: Store, ws: Writers, id: LockerId, batch: seq<Pending>, main: Build, next: Option<nat>)
  {
    var t := ApplyAll(s, main.ops);
    && Sound(t, ws, Cursor(s, main.next))
    && Cursor(s, next) <= Cursor(s, main.next)
    && View(t, id) == Overlay(View(s, id), batch)
    && (forall j :: j != id ==> t.Recs(j) == s.Recs(j) && View(t, j) == View(s, j))
    && WritersKept(s, t, ws)
    && t.lru == s.lru && t.nextTick == s.nextTick
    && NewPointers(s, t, id, Cursor(s, next)) && Stored(s) <= Stored(t)
    && (!HasClear(batch) ==> OnlyRecords(s, t, ws, id, Sorted(Actions(batch).Keys), Cursor(s, next)))
  }

  /**
   Batch collapse preserves meaning: committing the collapsed ops leaves exactly what replaying every
   staged write in order would, keeps chunk ownership exact, and touches no other locker.
   */
  lemma BatchOpsEffect(s: Store, ws: Writers, l: LockerId, chunkSize: nat, batch: seq<Pending>, next: Option<nat>)
    requires chunkSize >= 1 && Bounded(batch) && Sound(s, ws, Cursor(s, next))
    ensures Builds(s, ws, l, batch, BatchOps(s, l, chunkSize, batch, next), next)
  {
    var acts := Actions(Tail(batch));
    var keys := Sorted(acts.Keys);
    TailBounded(batch);
    BatchOpsAre(s, l, chunkSize, batch, next);
    CollapseKeepsMeaning(View(s, l), batch);
    assert forall i, j :: 0 <= i < j < |keys| ==> keys[i] != keys[j] by {
      SortedIs(acts.Keys);
      AscendingDistinct(keys);
    }
    var b := ActionOps(s, l, chunkSize, acts, keys, next);
    if HasClear(batch) {
      AfterClear(s, ws, l, chunkSize, acts, keys, next);
      ApplyAppend(s, ClearOps(s, l), b.ops);
    } else {
      ReadyAtStart(s, ws, l, keys, Cursor(s, next));
      ActionOpsEffect(s, s, ws, l, chunkSize, acts, keys, next);
      assert [] + b.ops == b.ops;
    }
  }

  /** The surviving actions, on top of the clear before them. */
  lemma AfterClear(s: Store, ws: Writers, l: LockerId, chunkSize: nat, acts: map<Key, Action>, keys: seq<Key>,
                   next: Option<nat>)
    requires chunkSize >= 1 && BoundedActs(acts) && Sound(s, ws, Cursor(s, next))
    requires forall k :: k in keys ==> k in acts
    requires forall i, j :: 0 <= i < j < |keys| ==> keys[i] != keys[j]
    ensures var b := ActionOps(s, l, chunkSize, acts, keys, next);
            var t := ApplyAll(ApplyAll(s, ClearOps(s, l)), b.ops);
      && Sound(t, ws, Cursor(s, b.next))
      && View(t, l) == Played(map[], acts, keys)
      && (forall j :: j != l ==> t.Recs(j) == s.Recs(j) && View(t, j) == View(s, j))
      && WritersKept(s, t, ws) && t.lru == s.lru && t.nextTick == s.nextTick
      && NewPointers(s, t, l, Cursor(s, next)) && Stored(s) <= Stored(t)
      && Cursor(s, next) <= Cursor(s, b.next)
  {
    var s1 := ApplyAll(s, ClearOps(s, l));
    ReadyAfterClear(s, ws, l, keys, Cursor(s, next));
    ActionOpsEffect(s, s1, ws, l, chunkSize, acts, keys, next);
    var t := ApplyAll(s1, ActionOps(s, l, chunkSize, acts, keys, next).ops);
    ClearedThenWritten(s, s1, t, ws, l, keys, Cursor(s, next));
  }

  lemma ClearedThenWritten(s: Store, s1: Store, t: Store, ws: Writers, l: LockerId, keys: seq<Key>, bound: nat)
    requires s1.Recs(l) == map[] && (forall j :: j != l ==> s1.Recs(j) == s.Recs(j) && View(s1, j) == View(s, j))
    requires WritersKept(s, s1, ws) && s1.nextId == s.nextId && OnlyRecords(s1, t, ws, l, keys, bound)
    ensures forall j :: j != l ==> t.Recs(j) == s.Recs(j) && View(t, j) == View(s, j)
    ensures WritersKept(s, t, ws) && NewPointers(s, t, l, bound) && Stored(s) <= Stored(t)
  {
    forall j | j != l ensures t.Recs(j) == s.Recs(j) && View(t, j) == View(s, j) {
      assert t.Recs(j) == s1.Recs(j) && View(t, j) == View(s1, j);
    }
  }

  lemma ReadyAtStart(s: Store, ws: Writers, l: LockerId, keys: seq<Key>, cursor: nat)
    requires Sound(s, ws, cursor)
    ensures GcReady(s, s, l, keys, cursor)
  {
    forall k | GcTarget(s, l, k, Unknown).Some? ensures GcTarget(s, l, k, Unknown).value < cursor {
      assert ClaimOf(s, ws, ByRecord(l, k)).Some?;
    }
  }

  lemma ReadyAfterClear(s: Store, ws: Writers, l: LockerId, keys: seq<Key>, cursor: nat)
    requires Sound(s, ws, cursor)
    ensures var t := ApplyAll(s, ClearOps(s, l));
      && Sound(t, ws, cursor) && GcReady(s, t, l, keys, cursor)
      && View(t, l) == map[]
      && (forall l' :: l' != l ==> t.Recs(l') == s.Recs(l') && View(t, l') == View(s, l'))
      && WritersKept(s, t, ws)
      && t.Recs(l) == map[] && t.lru == s.lru && t.nextId == s.nextId && t.nextTick == s.nextTick
  {
    var t := ApplyAll(s, ClearOps(s, l));
    assert View(t, l) == map[] && WritersKept(s, t, ws)
           && (forall l' :: l' != l ==> t.Recs(l') == s.Recs(l') && View(t, l') == View(s, l'))
           && t.lru == s.lru && t.nextId == s.nextId && t.nextTick == s.nextTick && t.Recs(l) == map[] by {
      ReadableIsLegible(s, l);
      ClearEffect(s, ws, l);
    }
    ClearSound(s, ws, l, cursor);
    ClearReady(s, ws, l, keys, cursor);
  }

  lemma ClearSound(s: Store, ws: Writers, l: LockerId, cursor: nat)
    requires Sound(s, ws, cursor)
    ensures Sound(ApplyAll(s, ClearOps(s, l)), ws, cursor)
  {
    var t := ApplyAll(s, ClearOps(s, l));
    ReadableIsLegible(s, l);
    ClearEffect(s, ws, l);
    assert Readable(t) by {
      forall l', k | k in t.Recs(l') ensures Whole(t, l', k) {
        assert l' != l && View(t, l') == View(s, l') && Whole(s, l', k);
      }
    }
    assert ClaimsBelow(t, ws, Stored(t)) by {
      forall o | ClaimOf(t, ws, o).Some? ensures ClaimOf(t, ws, o).value.valueId < Stored(t) {
        assert ClaimOf(t, ws, o) == ClaimOf(s, ws, o);
      }
    }
  }

  lemma ClearReady(s: Store, ws: Writers, l: LockerId, keys: seq<Key>, cursor: nat)
    requires Sound(s, ws, cursor)
    ensures GcReady(s, ApplyAll(s, ClearOps(s, l)), l, keys, cursor)
  {
    ReadableIsLegible(s, l);
    ClearDrops(s, l);
    ClearRows(s, l);
    ReadyAtStart(s, ws, l, keys, cursor);
  }

  // ---- one write per key ---------------------------------------------

  /** How often an op list writes or deletes the record under one key. */
  function Writes(ops: seq<Op>, l: LockerId, k: Key): nat
    decreases |ops|
  {
    if ops == [] then 0
    else
      var op := ops[|ops| - 1];
      Writes(ops[..|ops| - 1], l, k)
      + if (op.PutRecord? || op.DeleteRecord?) && op.locker == l && op.key == k then 1 else 0
  }

  lemma {:induction false} WritesAppend(a: seq<Op>, b: seq<Op>, l: LockerId, k: Key)
    ensures Writes(a + b, l, k) == Writes(a, l, k) + Writes(b, l, k)
    decreases |b|
  {
    if b == [] {
      assert a + b == a;
    } else {
      WritesAppend(a, b[..|b| - 1], l, k);
      assert (a + b)[..|a + b| - 1] == a + b[..|b| - 1];
    }
  }

  lemma {:induction false} NoWrites(ops: seq<Op>, l: LockerId, k: Key)
    requires forall op <- ops :: !op.PutRecord? && !op.DeleteRecord?
    ensures Writes(ops, l, k) == 0
    decreases |ops|
  {
    if ops != [] {
      assert ops[|ops| - 1] in ops;
      NoWrites(ops[..|ops| - 1], l, k);
    }
  }

  lemma OneWrite(op: Op, l: LockerId, k: Key)
    ensures Writes([op], l, k) == if (op.PutRecord? || op.DeleteRecord?) && op.locker == l && op.key == k then 1 else 0
  {
    assert [op][..0] == [];
    assert Writes([], l, k) == 0;
  }

  lemma StoreWritesOnce(v: nat, l: LockerId, chunkSize: nat, j: Key, payload: Payload, flags: nat, k: Key)
    requires chunkSize >= 1
    ensures Writes(StoreOps(v, l, chunkSize, j, payload, flags), l, k) == if j == k then 1 else 0
  {
    if StoresInline(|payload|, chunkSize, flags) {
      OneWrite(PutRecord(l, j, Inline(payload)), l, k);
    } else {
      var pieces := Cut(payload, chunkSize);
      var puts, r := ChunkPuts(v, pieces), PutRecord(l, j, StoredPointer(v, |pieces|, |payload|, flags));
      NoWrites(puts, l, k);
      OneWrite(r, l, k);
      OneWrite(PutNextId(v + 1), l, k);
      WritesAppend(puts, [r], l, k);
      WritesAppend(puts + [r], [PutNextId(v + 1)], l, k);
    }
  }

  lemma {:induction false} ActionWritesOnce(s: Store, l: LockerId, chunkSize: nat, acts: map<Key, Action>,
                                            keys: seq<Key>, next: Option<nat>, k: Key)
    requires chunkSize >= 1 && forall j :: j in keys ==> j in acts
    requires forall i, j :: 0 <= i < j < |keys| ==> keys[i] != keys[j]
    ensures Writes(ActionOps(s, l, chunkSize, acts, keys, next).ops, l, k) == if k in keys then 1 else 0
    decreases |keys|
  {
    if keys != [] {
      var init, j := keys[..|keys| - 1], keys[|keys| - 1];
      assert keys == init + [j];
      var before := ActionOps(s, l, chunkSize, acts, init, next);
      ActionWritesOnce(s, l, chunkSize, acts, init, next, k);
      var gc := GcOps(GcTarget(s, l, j, Unknown));
      NoWrites(gc, l, k);
      match acts[j]
      case Assign(payload) =>
        var store := StoreOps(Cursor(s, before.next), l, chunkSize, j, payload, FLAG_POSTCARD);
        StoreWritesOnce(Cursor(s, before.next), l, chunkSize, j, payload, FLAG_POSTCARD, k);
        WritesAppend(gc, store, l, k);
        WritesAppend(before.ops, gc + store, l, k);
      case Remove =>
        OneWrite(DeleteRecord(l, j), l, k);
        WritesAppend(gc, [DeleteRecord(l, j)], l, k);
        WritesAppend(before.ops, gc + [DeleteRecord(l, j)], l, k);
    }
  }

  /** A batch writes each key surviving its last clear once, whatever it did to that key, and no other key. */
  lemma BatchWritesOnce(s: Store, l: LockerId, chunkSize: nat, batch: seq<Pending>, next: Option<nat>, k: Key)
    requires chunkSize >= 1
    ensures Writes(BatchOps(s, l, chunkSize, batch, next).ops, l, k) == if k in Actions(Tail(batch)) then 1 else 0
  {
    BatchOpsAre(s, l, chunkSize, batch, next);
    SurvivorsWrittenOnce(s, l, chunkSize, Actions(Tail(batch)), next, k);
    ClearWritesNone(s, l, k);
    var ops := ActionOps(s, l, chunkSize, Actions(Tail(batch)), Sorted(Actions(Tail(batch)).Keys), next).ops;
    if HasClear(batch) { WritesAppend(ClearOps(s, l), ops, l, k); } else { WritesAppend([], ops, l, k); }
  }

  lemma SurvivorsWrittenOnce(s: Store, l: LockerId, chunkSize: nat, acts: map<Key, Action>, next: Option<nat>, k: Key)
    requires chunkSize >= 1
    ensures forall j :: j in Sorted(acts.Keys) ==> j in acts
    ensures Writes(ActionOps(s, l, chunkSize, acts, Sorted(acts.Keys), next).ops, l, k) == if k in acts then 1 else 0
  {
    SortedIs(acts.Keys);
    AscendingDistinct(Sorted(acts.Keys));
    ActionWritesOnce(s, l, chunkSize, acts, Sorted(acts.Keys), next, k);
  }

  lemma BatchOpsAre(s: Store, l: LockerId, chunkSize: nat, batch: seq<Pending>, next: Option<nat>)
    requires chunkSize >= 1
    ensures var acts := Actions(Tail(batch));
      && (forall j :: j in Sorted(acts.Keys) ==> j in acts)
      && BatchOps(s, l, chunkSize, batch, next).ops ==
           (if HasClear(batch) then ClearOps(s, l) else [])
           + ActionOps(s, l, chunkSize, acts, Sorted(acts.Keys), next).ops
  {
    SortedIs(Actions(Tail(batch)).Keys);
  }

  lemma ClearWritesNone(s: Store, l: LockerId, k: Key)
    ensures Writes(ClearOps(s, l), l, k) == 0 && Writes([], l, k) == 0
  {
    DropsOnly(s, l, Sorted(s.Recs(l).Keys));
    NoWrites(ClearOps(s, l), l, k);
  }

  lemma {:induction false} DropsOnly(s: Store, l: LockerId, keys: seq<Key>)
    ensures forall op <- GcAll(s, l, keys) :: op.DropChunks?
    decreases |keys|
  {
    if keys != [] { DropsOnly(s, l, keys[..|keys| - 1]); }
  }
}
