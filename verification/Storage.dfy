/**
 The store as the engine sees it: three tables, an op list, and what a stored record means.

 Keys and values are structured here; `Bridge` proves that the byte-level tables and ops
 the backend really holds carry exactly this structure.
 */
module Storage {
  import opened Wrappers
  import opened Bytes

  type LockerId = nat
  type Payload = seq<byte>

  /** The stored payload is an encoded value, or raw bytes from a streaming writer. */
  const FLAG_POSTCARD: nat := 0
  const FLAG_RAW: nat := 1

  datatype ChunkPointer = ChunkPointer(valueId: nat, nChunks: nat, totalLen: nat, flags: nat)

  /** The longest value a reader takes on. */
  const MAX_DECODED_BYTES: nat := 256 * 1024 * 1024

  /** The reader accepts the pointer: its value is within the limit, and no chunk of it is empty. */
  predicate Parses(p: ChunkPointer)
  {
    p.totalLen <= MAX_DECODED_BYTES && p.nChunks <= p.totalLen
  }

  datatype Record = Inline(payload: Payload) | Pointer(ptr: ChunkPointer)

  /** One key's share of the byte budget. */
  datatype Entry = Entry(tick: nat, bytes: nat)

  /** What a caller reads under a key: payload bytes and how they decode. */
  datatype Value = Value(flags: nat, payload: Payload)

  datatype Store = Store(
    records: map<LockerId, map<Key, Record>>,
    chunks: map<nat, map<nat, Payload>>,
    lru: map<LockerId, map<Key, Entry>>,
    nextId: Option<nat>,
    nextTick: Option<nat>)
  {
    function Recs(l: LockerId): map<Key, Record> { if l in records then records[l] else map[] }

    function Rows(v: nat): map<nat, Payload> { if v in chunks then chunks[v] else map[] }

    function LruRows(l: LockerId): map<Key, Entry> { if l in lru then lru[l] else map[] }
  }

  datatype Op =
    | PutRecord(locker: LockerId, key: Key, record: Record)
    | DeleteRecord(locker: LockerId, key: Key)
    | ClearRecords(locker: LockerId)
    | PutChunk(valueId: nat, seqNo: nat, piece: Payload)
    | DropChunks(valueId: nat)
    | PutLru(locker: LockerId, key: Key, entry: Entry)
    | DeleteLru(locker: LockerId, key: Key)
    | ClearLru(locker: LockerId)
    | PutNextId(next: nat)
    | PutNextTick(next: nat)
  {
    predicate TouchesData()
    {
      PutRecord? || DeleteRecord? || ClearRecords? || PutChunk? || DropChunks?
    }

    predicate TouchesLru()
    {
      PutLru? || DeleteLru? || ClearLru?
    }
  }

  /** A stored budget row keeps 32 bits of size, saturating. */
  function Sat32(bytes: nat): nat { if bytes <= U32_MAX then bytes else U32_MAX }

  function Apply(s: Store, op: Op): Store
  {
    match op
    case PutRecord(l, k, r) => s.(records := s.records[l := s.Recs(l)[k := r]])
    case DeleteRecord(l, k) => s.(records := s.records[l := s.Recs(l) - {k}])
    case ClearRecords(l) => s.(records := s.records[l := map[]])
    case PutChunk(v, i, piece) => s.(chunks := s.chunks[v := s.Rows(v)[i := piece]])
    case DropChunks(v) => s.(chunks := s.chunks[v := map[]])
    case PutLru(l, k, e) => s.(lru := s.lru[l := s.LruRows(l)[k := e.(bytes := Sat32(e.bytes))]])
    case DeleteLru(l, k) => s.(lru := s.lru[l := s.LruRows(l) - {k}])
    case ClearLru(l) => s.(lru := s.lru[l := map[]])
    case PutNextId(n) => s.(nextId := Some(n))
    case PutNextTick(n) => s.(nextTick := Some(n))
  }

  /** An op list takes effect in order. */
  function ApplyAll(s: Store, ops: seq<Op>): Store
    decreases |ops|
  {
    if ops == [] then s else Apply(ApplyAll(s, ops[..|ops| - 1]), ops[|ops| - 1])
  }

  lemma {:induction false} ApplyAppend(s: Store, a: seq<Op>, b: seq<Op>)
    ensures ApplyAll(s, a + b) == ApplyAll(ApplyAll(s, a), b)
    decreases |b|
  {
    if b == [] {
      assert a + b == a;
    } else {
      ApplyAppend(s, a, b[..|b| - 1]);
      assert (a + b)[..|a + b| - 1] == a + b[..|b| - 1];
    }
  }

  /** Ops on the budget rows and counters leave records and chunks alone. */
  lemma {:induction false} BookkeepingKeepsData(s: Store, ops: seq<Op>)
    requires forall op <- ops :: !op.TouchesData()
    ensures ApplyAll(s, ops).records == s.records && ApplyAll(s, ops).chunks == s.chunks
    decreases |ops|
  {
    if ops != [] {
      assert ops[|ops| - 1] in ops;
      BookkeepingKeepsData(s, ops[..|ops| - 1]);
    }
  }

  lemma {:induction false} NoCounterOps(s: Store, ops: seq<Op>)
    requires forall op <- ops :: !op.PutNextId?
    ensures ApplyAll(s, ops).nextId == s.nextId
    decreases |ops|
  {
    if ops != [] {
      assert ops[|ops| - 1] in ops;
      NoCounterOps(s, ops[..|ops| - 1]);
    }
  }

  // ---- what a record means -------------------------------------------

  /** The first `n` rows of a chunked value, end to end. */
  function Join(rows: map<nat, Payload>, n: nat): Payload
  {
    if n == 0 then [] else Join(rows, n - 1) + (if n - 1 in rows then rows[n - 1] else [])
  }

  function Decode(s: Store, r: Record): Value
  {
    match r
    case Inline(p) => Value(FLAG_POSTCARD, p)
    case Pointer(p) => Value(p.flags, Join(s.Rows(p.valueId), p.nChunks))
  }

  /** A pointer that parses and declares the length its chunks add up to. */
  predicate Sized(s: Store, r: Record)
  {
    r.Pointer? ==> Parses(r.ptr) && |Decode(s, r).payload| == r.ptr.totalLen
  }

  /** A read of the record gives its value: nothing about it is refused, and no chunk of it is missing. */
  predicate Loads(s: Store, r: Record)
  {
    Sized(s, r) && (r.Pointer? ==> AllThere(s.Rows(r.ptr.valueId), r.ptr.nChunks))
  }

  predicate AllThere(rows: map<nat, Payload>, n: nat)
  {
    forall i: nat :: i < n ==> i in rows
  }

  /** A locker's contents as a plain map. */
  function View(s: Store, l: LockerId): map<Key, Value>
  {
    map k | k in s.Recs(l) :: Decode(s, s.Recs(l)[k])
  }
}

/**
 Who owns each chunk row. Every value id is claimed by at most one owner (a live pointer record of
 some locker, or an unfinished streaming writer), and the rows of a claimed id are exactly the
 pieces its owner knows about.
 */
module Ownership {
  import opened Wrappers
  import opened Bytes
  import opened Storage

  /** A streaming writer: pieces already flushed, and the bytes still buffered. */
  datatype WriterState = WriterState(
    locker: LockerId, key: Key, valueId: nat, seqNo: nat, totalLen: nat, buf: Payload)

  type Writers = map<nat, WriterState>

  datatype Owner = ByRecord(locker: LockerId, key: Key) | ByWriter(handle: nat)

  datatype Claim = Claim(valueId: nat, chunks: nat)

  function ClaimOf(s: Store, ws: Writers, o: Owner): Option<Claim>
  {
    match o
    case ByRecord(l, k) =>
      if k in s.Recs(l) && s.Recs(l)[k].Pointer?
      then Some(Claim(s.Recs(l)[k].ptr.valueId, s.Recs(l)[k].ptr.nChunks)) else None
    case ByWriter(w) => if w in ws then Some(Claim(ws[w].valueId, ws[w].seqNo)) else None
  }

  ghost predicate Claiming(s: Store, ws: Writers, o: Owner, v: nat)
  {
    ClaimOf(s, ws, o).Some? && ClaimOf(s, ws, o).value.valueId == v
  }

  ghost predicate Unclaimed(s: Store, ws: Writers, v: nat)
  {
    forall o :: !Claiming(s, ws, o, v)
  }

  ghost predicate ExactRows(rows: map<nat, Payload>, n: nat)
  {
    forall i: nat :: i in rows <==> i < n
  }

  ghost predicate Owned(s: Store, ws: Writers)
  {
    && (forall o, p, v :: Claiming(s, ws, o, v) && Claiming(s, ws, p, v) ==> o == p)
    && (forall o :: ClaimOf(s, ws, o).Some? ==>
          var c := ClaimOf(s, ws, o).value; ExactRows(s.Rows(c.valueId), c.chunks))
    && (forall v :: Unclaimed(s, ws, v) ==> s.Rows(v) == map[])
  }

  /** Every claimed id is below `n`. */
  ghost predicate ClaimsBelow(s: Store, ws: Writers, n: nat)
  {
    forall o :: ClaimOf(s, ws, o).Some? ==> ClaimOf(s, ws, o).value.valueId < n
  }

  /** Two stores with the same data tables make the same claims and mean the same. */
  lemma SameData(s: Store, t: Store, ws: Writers)
    requires s.records == t.records && s.chunks == t.chunks
    ensures forall o :: ClaimOf(s, ws, o) == ClaimOf(t, ws, o)
    ensures Owned(s, ws) ==> Owned(t, ws)
    ensures forall l :: View(s, l) == View(t, l)
    ensures forall v :: Unclaimed(s, ws, v) ==> Unclaimed(t, ws, v)
  {
    assert forall l :: s.Recs(l) == t.Recs(l);
    assert forall v :: s.Rows(v) == t.Rows(v);
    assert forall o :: ClaimOf(s, ws, o) == ClaimOf(t, ws, o);
    assert forall o, v :: Claiming(s, ws, o, v) == Claiming(t, ws, o, v);
    forall v ensures Unclaimed(s, ws, v) == Unclaimed(t, ws, v) {
      assert forall o :: Claiming(s, ws, o, v) == Claiming(t, ws, o, v);
    }
  }

  // ---- replacing one record ------------------------------------------

  function PointerId(r: Option<Record>): Option<nat>
  {
    if r.Some? && r.value.Pointer? then Some(r.value.ptr.valueId) else None
  }

  /** The record is one the engine can replace: a pointer it could not parse would stop it. */
  predicate Legible(r: Option<Record>)
  {
    r.Some? && r.value.Pointer? ==> Parses(r.value.ptr)
  }

  /** The id of a pointer that parses; any other record is passed over. */
  function ParsedId(r: Option<Record>): Option<nat>
  {
    if Legible(r) then PointerId(r) else None
  }

  function RecordAt(s: Store, l: LockerId, k: Key): Option<Record>
  {
    if k in s.Recs(l) then Some(s.Recs(l)[k]) else None
  }

  /**
   `t` is `s` with the record under `(l, k)` replaced by `r` (or removed), the chunks of the
   old record dropped, and the chunks of the new one in place.
   */
  ghost predicate Replaced(s: Store, t: Store, l: LockerId, k: Key, r: Option<Record>, rows: map<nat, Payload>)
  {
    && t.Recs(l) == (if r.Some? then s.Recs(l)[k := r.value] else s.Recs(l) - {k})
    && (forall l' :: l' != l ==> t.Recs(l') == s.Recs(l'))
    && (forall v: nat :: t.Rows(v) ==
          if PointerId(r) == Some(v) then rows
          else if PointerId(RecordAt(s, l, k)) == Some(v) then map[]
          else s.Rows(v))
  }

  lemma ReplaceKeepsOwnership(s: Store, t: Store, ws: Writers, l: LockerId, k: Key, r: Option<Record>,
                              rows: map<nat, Payload>)
    requires Owned(s, ws) && Replaced(s, t, l, k, r, rows)
    requires PointerId(r).Some? ==>
               Unclaimed(s, ws, PointerId(r).value) && ExactRows(rows, r.value.ptr.nChunks)
    ensures Owned(t, ws)
    ensures forall v: nat :: Unclaimed(s, ws, v) && PointerId(r) != Some(v) ==> Unclaimed(t, ws, v)
  {
    var a := ByRecord(l, k);
    ReplaceClaims(s, t, ws, l, k, r, rows);
    forall v: nat | Unclaimed(t, ws, v) ensures t.Rows(v) == map[] {
      assert PointerId(r).Some? ==> Claiming(t, ws, a, PointerId(r).value);
      if PointerId(RecordAt(s, l, k)) != Some(v) {
        assert !Claiming(s, ws, a, v);
        forall o ensures !Claiming(s, ws, o, v) {
          assert !Claiming(t, ws, o, v);
        }
        assert Unclaimed(s, ws, v);
      }
    }
    forall o | ClaimOf(t, ws, o).Some?
      ensures ExactRows(t.Rows(ClaimOf(t, ws, o).value.valueId), ClaimOf(t, ws, o).value.chunks)
    {
      if o != a {
        var v := ClaimOf(s, ws, o).value.valueId;
        assert Claiming(s, ws, o, v);
        assert !Claiming(s, ws, a, v);
      }
    }
  }

  lemma ReplaceClaims(s: Store, t: Store, ws: Writers, l: LockerId, k: Key, r: Option<Record>,
                      rows: map<nat, Payload>)
    requires Replaced(s, t, l, k, r, rows)
    ensures forall o :: o != ByRecord(l, k) ==> ClaimOf(t, ws, o) == ClaimOf(s, ws, o)
    ensures forall o, v :: o != ByRecord(l, k) ==> Claiming(t, ws, o, v) == Claiming(s, ws, o, v)
    ensures ClaimOf(t, ws, ByRecord(l, k)) ==
              if PointerId(r).Some? then Some(Claim(r.value.ptr.valueId, r.value.ptr.nChunks)) else None
  {
    forall o | o != ByRecord(l, k) ensures ClaimOf(t, ws, o) == ClaimOf(s, ws, o) {
      match o
      case ByRecord(l', k') => assert l' != l ==> t.Recs(l') == s.Recs(l');
      case ByWriter(_) =>
    }
  }

  /** Replacing one record changes one key of one locker's contents, and nothing else anywhere. */
  lemma ReplaceView(s: Store, t: Store, ws: Writers, l: LockerId, k: Key, r: Option<Record>,
                    rows: map<nat, Payload>)
    requires Owned(s, ws) && Replaced(s, t, l, k, r, rows)
    requires PointerId(r).Some? ==> Unclaimed(s, ws, PointerId(r).value)
    ensures View(t, l) == if r.Some? then View(s, l)[k := Decode(t, r.value)] else View(s, l) - {k}
    ensures forall l' :: l' != l ==> View(t, l') == View(s, l')
  {
    forall l', k' | k' in s.Recs(l') && (l' != l || k' != k)
      ensures Decode(t, s.Recs(l')[k']) == Decode(s, s.Recs(l')[k'])
    {
      var rec := s.Recs(l')[k'];
      if rec.Pointer? {
        var v := rec.ptr.valueId;
        assert Claiming(s, ws, ByRecord(l', k'), v);
        if PointerId(RecordAt(s, l, k)) == Some(v) {
          assert Claiming(s, ws, ByRecord(l, k), v);
        }
      }
    }
  }
}
