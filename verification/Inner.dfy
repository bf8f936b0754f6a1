/**
 Building the op list of one write: collect the chunks of what is being replaced, cut a
 large payload into chunks under a fresh value id, store the record.
 */
module Inner {
  import opened Wrappers
  import opened Bytes
  import opened Storage
  import opened Ownership
  import ValueIdCursor

  // ---- chunking ------------------------------------------------------

  /** A payload cut into pieces of `size`, the last one possibly shorter. */
  function Cut(p: Payload, size: nat): seq<Payload>
    requires size >= 1
    decreases |p|
  {
    if p == [] then [] else if |p| <= size then [p] else [p[..size]] + Cut(p[size..], size)
  }

  function PieceRows(pieces: seq<Payload>): map<nat, Payload>
  {
    map i: nat | i < |pieces| :: pieces[i]
  }

  lemma {:induction false} JoinPrepend(x: Payload, pieces: seq<Payload>, n: nat)
    requires n <= |pieces|
    ensures Join(PieceRows([x] + pieces), n + 1) == x + Join(PieceRows(pieces), n)
    decreases n
  {
    if n == 0 {
      assert Join(PieceRows([x] + pieces), 1) == [] + x;
    } else {
      JoinPrepend(x, pieces, n - 1);
      assert ([x] + pieces)[n] == pieces[n - 1];
    }
  }

  /** Cutting and joining give the payload back. */
  lemma {:induction false} JoinCut(p: Payload, size: nat)
    requires size >= 1
    ensures Join(PieceRows(Cut(p, size)), |Cut(p, size)|) == p
    decreases |p|
  {
    if p == [] {
    } else if |p| <= size {
      JoinOne(p);
    } else {
      var rest := Cut(p[size..], size);
      JoinCut(p[size..], size);
      assert Cut(p, size) == [p[..size]] + rest;
      JoinPrepend(p[..size], rest, |rest|);
      assert p == p[..size] + p[size..];
    }
  }

  lemma JoinOne(p: Payload)
    ensures Join(PieceRows([p]), 1) == p
  {
    JoinPrepend(p, [], 0);
    assert [p] + [] == [p];
  }

  /** Every piece is nonempty, at most `size` long, and only the last may be short. */
  lemma {:induction false} CutSizes(p: Payload, size: nat)
    requires size >= 1
    ensures forall i :: 0 <= i < |Cut(p, size)| ==>
              0 < |Cut(p, size)[i]| <= size && (i + 1 < |Cut(p, size)| ==> |Cut(p, size)[i]| == size)
    ensures |Cut(p, size)| <= |p| <= size * |Cut(p, size)|
    decreases |p|
  {
    if |p| > size {
      CutSizes(p[size..], size);
    }
  }

  // ---- the value-id cursor -------------------------------------------

  /** The ids some stored chunk row carries. */
  function StoredIds(s: Store): set<nat>
  {
    set v | v in s.chunks && s.chunks[v] != map[]
  }

  function Stored(s: Store): nat { if s.nextId.Some? then s.nextId.value else 0 }

  /** Where a fresh cursor starts: past the stored counter and past every id in use. */
  ghost function SeedFloor(s: Store): nat
  {
    if Stored(s) > ValueIdCursor.FloorOf(StoredIds(s)) then Stored(s) else ValueIdCursor.FloorOf(StoredIds(s))
  }

  /** The id the next allocation hands out. */
  ghost function Cursor(s: Store, next: Option<nat>): nat
  {
    if next.Some? then next.value else SeedFloor(s)
  }

  // ---- op lists ------------------------------------------------------

  /** What a caller can already say about the record it is replacing. */
  datatype Prior = Unknown | Absent | KnownInline

  datatype Build = Build(ops: seq<Op>, next: Option<nat>)

  function StoresInline(size: nat, chunkSize: nat, flags: nat): bool
  {
    size <= chunkSize && flags == FLAG_POSTCARD
  }

  function GcOps(id: Option<nat>): seq<Op> { if id.Some? then [DropChunks(id.value)] else [] }

  /** The chunks a writer must drop: it reads the old record only when nothing is known. */
  function GcTarget(s: Store, l: LockerId, k: Key, prior: Prior): Option<nat>
  {
    if prior.Unknown? then PointerId(RecordAt(s, l, k)) else None
  }

  function ChunkPuts(v: nat, pieces: seq<Payload>): seq<Op>
  {
    seq(|pieces|, i requires 0 <= i < |pieces| => PutChunk(v, i, pieces[i]))
  }

  function StoredPointer(v: nat, pieces: nat, size: nat, flags: nat): Record
  {
    Pointer(ChunkPointer(v, pieces, size, flags))
  }

  /** The ops of a put after whatever has to be dropped first. */
  function StoreOps(v: nat, l: LockerId, chunkSize: nat, k: Key, payload: Payload, flags: nat): seq<Op>
    requires chunkSize >= 1
  {
    if StoresInline(|payload|, chunkSize, flags) then [PutRecord(l, k, Inline(payload))]
    else
      var pieces := Cut(payload, chunkSize);
      ChunkPuts(v, pieces) + [PutRecord(l, k, StoredPointer(v, |pieces|, |payload|, flags))] + [PutNextId(v + 1)]
  }

  ghost function PutBuild(s: Store, l: LockerId, chunkSize: nat, k: Key, payload: Payload, flags: nat,
                          prior: Prior, next: Option<nat>): Build
    requires chunkSize >= 1
  {
    Build(GcOps(GcTarget(s, l, k, prior)) + StoreOps(Cursor(s, next), l, chunkSize, k, payload, flags),
          if StoresInline(|payload|, chunkSize, flags) then next else Some(Cursor(s, next) + 1))
  }

  function DeleteOps(s: Store, l: LockerId, k: Key, prior: Prior): seq<Op>
  {
    GcOps(GcTarget(s, l, k, prior)) + [DeleteRecord(l, k)]
  }

  /** Drop the chunks of every pointer among `keys` that parses; one that does not is passed over. */
  function GcAll(s: Store, l: LockerId, keys: seq<Key>): seq<Op>
  {
    if keys == [] then []
    else GcAll(s, l, keys[..|keys| - 1]) + GcOps(ParsedId(RecordAt(s, l, keys[|keys| - 1])))
  }

  ghost function ClearOps(s: Store, l: LockerId): seq<Op>
  {
    GcAll(s, l, Sorted(s.Recs(l).Keys)) + [ClearRecords(l)]
  }

  // ---- what the op lists do ------------------------------------------

  /**
   Dropping `gc` is what replacing the record under `(l, k)` needs: it names the current pointer's
   chunks, or it names an id that has no rows any more.
   */
  ghost predicate Drops(s: Store, l: LockerId, k: Key, gc: Option<nat>)
  {
    || gc == PointerId(RecordAt(s, l, k))
    || (PointerId(RecordAt(s, l, k)).None? && gc.Some? && s.Rows(gc.value) == map[])
  }

  lemma {:induction false} ChunkPutsEffect(s: Store, v: nat, pieces: seq<Payload>)
    requires s.Rows(v) == map[]
    ensures var t := ApplyAll(s, ChunkPuts(v, pieces));
      && t.Rows(v) == PieceRows(pieces)
      && (forall u: nat :: u != v ==> t.Rows(u) == s.Rows(u))
      && t.records == s.records && t.lru == s.lru && t.nextId == s.nextId && t.nextTick == s.nextTick
    decreases |pieces|
  {
    if pieces != [] {
      var n := |pieces| - 1;
      ChunkPutsEffect(s, v, pieces[..n]);
      assert ChunkPuts(v, pieces)[..n] == ChunkPuts(v, pieces[..n]);
      assert ChunkPuts(v, pieces)[n] == PutChunk(v, n, pieces[n]);
      assert PieceRows(pieces) == PieceRows(pieces[..n])[n := pieces[n]];
    }
  }

  /** Dropping the chunks of the record about to be replaced. */
  lemma GcEffect(s: Store, l: LockerId, k: Key, gc: Option<nat>)
    requires Drops(s, l, k, gc)
    ensures var t := ApplyAll(s, GcOps(gc));
      && (forall v: nat :: t.Rows(v) == if PointerId(RecordAt(s, l, k)) == Some(v) then map[] else s.Rows(v))
      && t.records == s.records && t.lru == s.lru && t.nextId == s.nextId && t.nextTick == s.nextTick
  {
    if gc.Some? {
      assert GcOps(gc)[..0] == [];
      assert ApplyAll(s, GcOps(gc)) == Apply(ApplyAll(s, []), GcOps(gc)[0]);
    }
  }

  lemma ApplyOne(s: Store, op: Op)
    ensures ApplyAll(s, [op]) == Apply(s, op)
  {
    assert [op][..0] == [];
    assert ApplyAll(s, []) == s;
  }

  lemma DeleteEffect(s0: Store, s: Store, l: LockerId, k: Key, prior: Prior)
    requires Drops(s, l, k, GcTarget(s0, l, k, prior))
    ensures var t := ApplyAll(s, DeleteOps(s0, l, k, prior));
      && Replaced(s, t, l, k, None, map[])
      && t.lru == s.lru && t.nextId == s.nextId && t.nextTick == s.nextTick
  {
    var gc := GcTarget(s0, l, k, prior);
    GcEffect(s, l, k, gc);
    ApplyAppend(s, GcOps(gc), [DeleteRecord(l, k)]);
    ApplyOne(ApplyAll(s, GcOps(gc)), DeleteRecord(l, k));
  }

  /** The record and rows a put leaves behind. */
  ghost function PutRecordOf(s: Store, chunkSize: nat, payload: Payload, flags: nat, next: Option<nat>): Record
    requires chunkSize >= 1
  {
    if StoresInline(|payload|, chunkSize, flags) then Inline(payload)
    else StoredPointer(Cursor(s, next), |Cut(payload, chunkSize)|, |payload|, flags)
  }

  ghost function PutRowsOf(chunkSize: nat, payload: Payload, flags: nat): map<nat, Payload>
    requires chunkSize >= 1
  {
    if StoresInline(|payload|, chunkSize, flags) then map[] else PieceRows(Cut(payload, chunkSize))
  }

  lemma PutEffect(s0: Store, s: Store, l: LockerId, chunkSize: nat, k: Key, payload: Payload, flags: nat,
                  prior: Prior, next: Option<nat>)
    requires chunkSize >= 1
    requires Drops(s, l, k, GcTarget(s0, l, k, prior))
    requires !StoresInline(|payload|, chunkSize, flags) ==> s.Rows(Cursor(s0, next)) == map[]
    ensures var b := PutBuild(s0, l, chunkSize, k, payload, flags, prior, next);
            var t := ApplyAll(s, b.ops);
      && Replaced(s, t, l, k, Some(PutRecordOf(s0, chunkSize, payload, flags, next)),
                  PutRowsOf(chunkSize, payload, flags))
      && t.lru == s.lru && t.nextTick == s.nextTick
      && t.nextId == (if StoresInline(|payload|, chunkSize, flags) then s.nextId else b.next)
  {
    var gc := GcTarget(s0, l, k, prior);
    var v := Cursor(s0, next);
    GcEffect(s, l, k, gc);
    var s1 := ApplyAll(s, GcOps(gc));
    var tail := StoreOps(v, l, chunkSize, k, payload, flags);
    ApplyAppend(s, GcOps(gc), tail);
    StoreEffect(s1, v, l, chunkSize, k, payload, flags);
    var r := PutRecordOf(s0, chunkSize, payload, flags, next);
    assert PointerId(Some(r)) == if StoresInline(|payload|, chunkSize, flags) then None else Some(v);
    GcThenSet(s, s1, ApplyAll(s1, tail), l, k, r, PutRowsOf(chunkSize, payload, flags));
    assert PutBuild(s0, l, chunkSize, k, payload, flags, prior, next).ops == GcOps(gc) + tail;
  }

  lemma StoreEffect(s: Store, v: nat, l: LockerId, chunkSize: nat, k: Key, payload: Payload, flags: nat)
    requires chunkSize >= 1
    requires !StoresInline(|payload|, chunkSize, flags) ==> s.Rows(v) == map[]
    ensures var t := ApplyAll(s, StoreOps(v, l, chunkSize, k, payload, flags));
            var inline := StoresInline(|payload|, chunkSize, flags);
            var r := if inline then Inline(payload)
                     else StoredPointer(v, |Cut(payload, chunkSize)|, |payload|, flags);
      && t.records == s.records[l := s.Recs(l)[k := r]]
      && (forall u: nat :: t.Rows(u) ==
            if !inline && u == v then PutRowsOf(chunkSize, payload, flags) else s.Rows(u))
      && t.lru == s.lru && t.nextTick == s.nextTick
      && t.nextId == (if inline then s.nextId else Some(v + 1))
  {
    if StoresInline(|payload|, chunkSize, flags) {
      ApplyOne(s, PutRecord(l, k, Inline(payload)));
    } else {
      var pieces := Cut(payload, chunkSize);
      ChunkedEffect(s, l, k, v, pieces, StoredPointer(v, |pieces|, |payload|, flags));
    }
  }

  lemma GcThenSet(s: Store, s1: Store, t: Store, l: LockerId, k: Key, r: Record, rows: map<nat, Payload>)
    requires s1.records == s.records
    requires forall v: nat :: s1.Rows(v) == if PointerId(RecordAt(s, l, k)) == Some(v) then map[] else s.Rows(v)
    requires t.records == s1.records[l := s1.Recs(l)[k := r]]
    requires forall v: nat :: t.Rows(v) == if PointerId(Some(r)) == Some(v) then rows else s1.Rows(v)
    ensures Replaced(s, t, l, k, Some(r), rows)
  {
  }

  lemma ChunkedEffect(s: Store, l: LockerId, k: Key, v: nat, pieces: seq<Payload>, r: Record)
    requires s.Rows(v) == map[]
    ensures var t := ApplyAll(s, ChunkPuts(v, pieces) + [PutRecord(l, k, r)] + [PutNextId(v + 1)]);
      && t.records == s.records[l := s.Recs(l)[k := r]]
      && t.Rows(v) == PieceRows(pieces)
      && (forall u: nat :: u != v ==> t.Rows(u) == s.Rows(u))
      && t.lru == s.lru && t.nextTick == s.nextTick && t.nextId == Some(v + 1)
  {
    var puts := ChunkPuts(v, pieces);
    ChunkPutsEffect(s, v, pieces);
    var s1 := ApplyAll(s, puts);
    ApplyAppend(s, puts, [PutRecord(l, k, r)]);
    ApplyOne(s1, PutRecord(l, k, r));
    ApplyAppend(s, puts + [PutRecord(l, k, r)], [PutNextId(v + 1)]);
    ApplyOne(Apply(s1, PutRecord(l, k, r)), PutNextId(v + 1));
  }

  /** A put's record decodes to the payload that was handed in. */
  lemma PutDecodes(s: Store, t: Store, chunkSize: nat, payload: Payload, flags: nat, next: Option<nat>)
    requires chunkSize >= 1
    requires !StoresInline(|payload|, chunkSize, flags) ==>
               t.Rows(Cursor(s, next)) == PutRowsOf(chunkSize, payload, flags)
    ensures Decode(t, PutRecordOf(s, chunkSize, payload, flags, next)) == Value(flags, payload)
  {
    JoinCut(payload, chunkSize);
  }
}
