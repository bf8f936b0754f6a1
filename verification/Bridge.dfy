/**
 What the backend really holds: every record, chunk, budget row and counter is one key of one byte table, and every
 op of the engine is one byte op with the same effect.
 */
module Bridge {
  import opened Wrappers
  import opened Bytes
  import Storage
  import Ownership
  import KeyRanges
  import ByteStore
  import Codec
  import Paging
  import Listing

  type Blob = ByteStore.Blob

  /** One place in the store. */
  datatype Cell =
    | RecordCell(locker: nat, key: Key)
    | ChunkCell(valueId: nat, seqNo: nat)
    | LruCell(locker: nat, key: Key)
    | NextIdCell
    | NextTickCell
  {
    /** The numbers fit the widths their keys give them. */
    predicate Legal()
    {
      match this
      case RecordCell(l, _) => l <= U32_MAX
      case ChunkCell(v, i) => v <= U64_MAX && i <= U32_MAX
      case LruCell(l, _) => l <= U32_MAX
      case _ => true
    }
  }

  // "lru::", "::", "next_value_id" and "next_tick"
  const LRU_PREFIX: Key := [108, 114, 117, 58, 58]
  const SEPARATOR: Key := [58, 58]
  const META_NEXT_VALUE_ID: Key := [110, 101, 120, 116, 95, 118, 97, 108, 117, 101, 95, 105, 100]
  const META_NEXT_TICK: Key := [110, 101, 120, 116, 95, 116, 105, 99, 107]

  function LruPrefix(l: nat): Key { LRU_PREFIX + ToBE(l, 4) + SEPARATOR }

  function TableOf(c: Cell): ByteStore.Table
  {
    match c
    case RecordCell(_, _) => ByteStore.Records
    case ChunkCell(_, _) => ByteStore.Chunks
    case _ => ByteStore.Meta
  }

  function KeyOf(c: Cell): Key
  {
    match c
    case RecordCell(l, k) => ToBE(l, 4) + k
    case ChunkCell(v, i) => ToBE(v, 8) + ToBE(i, 4)
    case LruCell(l, k) => LruPrefix(l) + k
    case NextIdCell => META_NEXT_VALUE_ID
    case NextTickCell => META_NEXT_TICK
  }

  lemma SplitAt(p: Key, a: Key, q: Key, b: Key)
    requires |p| == |q| && p + a == q + b
    ensures p == q && a == b
  {
    assert (p + a)[..|p|] == p && (q + b)[..|q|] == q;
    assert (p + a)[|p|..] == a && (q + b)[|q|..] == b;
  }

  lemma SameNumber(a: nat, b: nat, width: nat)
    requires a < Pow256(width) && b < Pow256(width) && ToBE(a, width) == ToBE(b, width)
    ensures a == b
  {
    BERoundTrip(a, width);
    BERoundTrip(b, width);
  }

  lemma LruPrefixOf(l: nat, m: nat)
    requires l <= U32_MAX && m <= U32_MAX && LruPrefix(l) == LruPrefix(m)
    ensures l == m
  {
    Widths();
    assert LruPrefix(l)[5..9] == ToBE(l, 4) && LruPrefix(m)[5..9] == ToBE(m, 4);
    SameNumber(l, m, 4);
  }

  /** No two places share a key. */
  lemma KeysApart(c: Cell, d: Cell)
    requires c.Legal() && d.Legal() && TableOf(c) == TableOf(d) && KeyOf(c) == KeyOf(d)
    ensures c == d
  {
    Widths();
    FirstByte(c);
    FirstByte(d);
    match c
    case RecordCell(l, k) =>
      SplitAt(ToBE(l, 4), k, ToBE(d.locker, 4), d.key);
      SameNumber(l, d.locker, 4);
    case ChunkCell(v, i) =>
      SplitAt(ToBE(v, 8), ToBE(i, 4), ToBE(d.valueId, 8), ToBE(d.seqNo, 4));
      SameNumber(v, d.valueId, 8);
      SameNumber(i, d.seqNo, 4);
    case LruCell(l, k) =>
      if d.LruCell? {
        SplitAt(LruPrefix(l), k, LruPrefix(d.locker), d.key);
        LruPrefixOf(l, d.locker);
      }
    case NextIdCell =>
    case NextTickCell =>
  }

  lemma FirstByte(c: Cell)
    ensures TableOf(c) == ByteStore.Meta ==> KeyOf(c) != [] && (KeyOf(c)[0] == 108 <==> c.LruCell?)
  {
  }

  // ---- values --------------------------------------------------------

  function Sealed(c: Codec.FilterChain, p: Blob): Blob
  {
    match Codec.SealOf(c, p)
    case Some(b) => b
    case None => []
  }

  function RecordBytes(c: Codec.FilterChain, r: Storage.Record): Blob
  {
    match r
    case Inline(p) => Sealed(c, p)
    case Pointer(p) => if Codec.Fits(p) then Codec.EncodePointer(p) else []
  }

  function EntryBytes(e: Storage.Entry): Blob { ToBE(e.tick, 8) + ToBE(Storage.Sat32(e.bytes), 4) }

  function ParseEntry(raw: Blob): Option<Storage.Entry>
  {
    if |raw| != 12 then None else Some(Storage.Entry(FromBE(raw[..8]), FromBE(raw[8..])))
  }

  /** A stored budget row is read back with its size cut to 32 bits, saturating. */
  lemma EntryReadsBack(e: Storage.Entry)
    requires e.tick <= U64_MAX
    ensures ParseEntry(EntryBytes(e)) == Some(e.(bytes := Storage.Sat32(e.bytes)))
  {
    Widths();
    BERoundTrip(e.tick, 8);
    BERoundTrip(Storage.Sat32(e.bytes), 4);
    var raw := EntryBytes(e);
    assert raw[..8] == ToBE(e.tick, 8) && raw[8..] == ToBE(Storage.Sat32(e.bytes), 4);
  }

  /** What a stored record's bytes say, pointer or envelope. */
  function RecordOf(c: Codec.FilterChain, raw: Blob): Option<Storage.Record>
  {
    if Codec.IsPointer(raw) then
      (match Codec.ParsePointer(raw) { case Pointer(p) => Some(Storage.Pointer(p)) case _ => None })
    else
      match Codec.OpenOf(c, raw)
      case Ok(p) => Some(Storage.Inline(p))
      case _ => None
  }

  /** A record's bytes are read back as that record, but for a pointer the parser refuses. */
  lemma RecordReadsBack(c: Codec.FilterChain, r: Storage.Record)
    requires r.Inline? ==> Codec.SealOf(c, r.payload).Some? && Codec.InvertsAlong(c.filters, r.payload)
    requires r.Pointer? ==> Codec.Fits(r.ptr)
    ensures RecordOf(c, RecordBytes(c, r)) == if Ownership.Legible(Some(r)) then Some(r) else None
  {
    match r
    case Inline(p) => Codec.SealOpens(c, c, p);
    case Pointer(p) => Codec.PointerRoundTrip(p);
  }

  // ---- representation ------------------------------------------------

  /** What the structured store holds in one place, as bytes. */
  function Held(c: Codec.FilterChain, s: Storage.Store, cell: Cell): Option<Blob>
  {
    match cell
    case RecordCell(l, k) => if k in s.Recs(l) then Some(RecordBytes(c, s.Recs(l)[k])) else None
    case ChunkCell(v, i) => if i in s.Rows(v) then Some(Sealed(c, s.Rows(v)[i])) else None
    case LruCell(l, k) => if k in s.LruRows(l) then Some(EntryBytes(s.LruRows(l)[k])) else None
    case NextIdCell => if s.nextId.Some? then Some(ToBE(s.nextId.value, 8)) else None
    case NextTickCell => if s.nextTick.Some? then Some(ToBE(s.nextTick.value, 8)) else None
  }

  function Found(t: ByteStore.Tables, cell: Cell): Option<Blob>
  {
    if KeyOf(cell) in t.Get(TableOf(cell)) then Some(t.Get(TableOf(cell))[KeyOf(cell)]) else None
  }

  /** The byte tables hold exactly what the structured store says, place by place. */
  ghost predicate Represents(t: ByteStore.Tables, s: Storage.Store, c: Codec.FilterChain)
  {
    forall cell: Cell :: cell.Legal() ==> Found(t, cell) == Held(c, s, cell)
  }

  // ---- ops -----------------------------------------------------------

  predicate LegalOp(op: Storage.Op)
  {
    match op
    case PutRecord(l, _, r) => l <= U32_MAX && (r.Pointer? ==> Codec.Fits(r.ptr))
    case DeleteRecord(l, _) => l <= U32_MAX
    case ClearRecords(l) => l <= U32_MAX
    case PutChunk(v, i, _) => v <= U64_MAX && i <= U32_MAX
    case DropChunks(v) => v <= U64_MAX
    case PutLru(l, _, e) => l <= U32_MAX && e.tick <= U64_MAX
    case DeleteLru(l, _) => l <= U32_MAX
    case ClearLru(l) => l <= U32_MAX
    case PutNextId(n) => n <= U64_MAX
    case PutNextTick(n) => n <= U64_MAX
  }

  function PutAt(cell: Cell, value: Blob): ByteStore.Op { ByteStore.Put(TableOf(cell), KeyOf(cell), value) }

  function DeleteAt(cell: Cell): ByteStore.Op { ByteStore.Delete(TableOf(cell), KeyOf(cell)) }

  /** The byte op the engine hands the backend. */
  function Encoded(c: Codec.FilterChain, op: Storage.Op): ByteStore.Op
  {
    match op
    case PutRecord(l, k, r) => PutAt(RecordCell(l, k), RecordBytes(c, r))
    case DeleteRecord(l, k) => DeleteAt(RecordCell(l, k))
    case ClearRecords(l) => ByteStore.DeleteRange(ByteStore.Records, KeyRanges.PrefixRange(ToBE(l, 4)))
    case PutChunk(v, i, piece) => PutAt(ChunkCell(v, i), Sealed(c, piece))
    case DropChunks(v) => ByteStore.DeleteRange(ByteStore.Chunks, KeyRanges.PrefixRange(ToBE(v, 8)))
    case PutLru(l, k, e) => PutAt(LruCell(l, k), EntryBytes(e))
    case DeleteLru(l, k) => DeleteAt(LruCell(l, k))
    case ClearLru(l) => ByteStore.DeleteRange(ByteStore.Meta, KeyRanges.PrefixRange(LruPrefix(l)))
    case PutNextId(n) => PutAt(NextIdCell, ToBE(n, 8))
    case PutNextTick(n) => PutAt(NextTickCell, ToBE(n, 8))
  }

  /** The places a range op empties. */
  predicate Sweeps(op: Storage.Op, cell: Cell)
  {
    match op
    case ClearRecords(l) => cell.RecordCell? && cell.locker == l
    case DropChunks(v) => cell.ChunkCell? && cell.valueId == v
    case ClearLru(l) => cell.LruCell? && cell.locker == l
    case _ => false
  }

  /** A prefix range holds exactly the keys of the places it is meant to empty. */
  lemma RangeSweeps(c: Codec.FilterChain, op: Storage.Op, cell: Cell)
    requires LegalOp(op) && cell.Legal() && (op.ClearRecords? || op.DropChunks? || op.ClearLru?)
    ensures Encoded(c, op).DeleteRange?
    ensures TableOf(cell) == Encoded(c, op).table ==>
              (KeyRanges.Contains(Encoded(c, op).range, KeyOf(cell)) <==> Sweeps(op, cell))
  {
    Widths();
    match op
    case ClearRecords(l) =>
      if cell.RecordCell? { Prefixed(ToBE(l, 4), ToBE(cell.locker, 4), cell.key); }
      if cell.RecordCell? && ToBE(l, 4) == ToBE(cell.locker, 4) { SameNumber(l, cell.locker, 4); }
    case DropChunks(v) =>
      if cell.ChunkCell? { Prefixed(ToBE(v, 8), ToBE(cell.valueId, 8), ToBE(cell.seqNo, 4)); }
      if cell.ChunkCell? && ToBE(v, 8) == ToBE(cell.valueId, 8) { SameNumber(v, cell.valueId, 8); }
    case ClearLru(l) =>
      KeyRanges.PrefixExact(LruPrefix(l), KeyOf(cell));
      assert LruPrefix(l)[0] == 108;
      if cell.LruCell? { Prefixed(LruPrefix(l), LruPrefix(cell.locker), cell.key); }
      if cell.LruCell? && LruPrefix(l) == LruPrefix(cell.locker) { LruPrefixOf(l, cell.locker); }
  }

  lemma Prefixed(p: Key, q: Key, rest: Key)
    requires |p| == |q|
    ensures KeyRanges.Contains(KeyRanges.PrefixRange(p), q + rest) <==> p == q
  {
    KeyRanges.PrefixExact(p, q + rest);
    assert (q + rest)[..|p|] == q;
  }

  /** What an op does to one place, in the structured store. */
  lemma HeldAfter(c: Codec.FilterChain, s: Storage.Store, op: Storage.Op, cell: Cell)
    requires LegalOp(op) && cell.Legal()
    ensures Held(c, Storage.Apply(s, op), cell) ==
              match Encoded(c, op) {
                case Put(_, _, value) => if IsTarget(op, cell) then Some(value) else Held(c, s, cell)
                case Delete(_, _) => if IsTarget(op, cell) then None else Held(c, s, cell)
                case DeleteRange(_, _) => if Sweeps(op, cell) then None else Held(c, s, cell)
              }
  {
    if op.PutRecord? || op.DeleteRecord? || op.ClearRecords? {
      RecordsHeldAfter(c, s, op, cell);
    } else if op.PutLru? || op.DeleteLru? || op.ClearLru? {
      RowsHeldAfter(c, s, op, cell);
    }
  }

  lemma RecordsHeldAfter(c: Codec.FilterChain, s: Storage.Store, op: Storage.Op, cell: Cell)
    requires op.PutRecord? || op.DeleteRecord? || op.ClearRecords?
    ensures Held(c, Storage.Apply(s, op), cell) ==
              if op.PutRecord? && IsTarget(op, cell) then Some(RecordBytes(c, op.record))
              else if IsTarget(op, cell) || Sweeps(op, cell) then None
              else Held(c, s, cell)
  {
  }

  lemma RowsHeldAfter(c: Codec.FilterChain, s: Storage.Store, op: Storage.Op, cell: Cell)
    requires op.PutLru? || op.DeleteLru? || op.ClearLru?
    ensures Held(c, Storage.Apply(s, op), cell) ==
              if op.PutLru? && IsTarget(op, cell) then Some(EntryBytes(op.entry))
              else if IsTarget(op, cell) || Sweeps(op, cell) then None
              else Held(c, s, cell)
  {
    if op.PutLru? { SatTwice(op.entry); }
  }

  lemma SatTwice(e: Storage.Entry)
    ensures EntryBytes(e.(bytes := Storage.Sat32(e.bytes))) == EntryBytes(e)
  {
  }

  /** The place a single-key op writes or deletes. */
  predicate IsTarget(op: Storage.Op, cell: Cell)
  {
    match op
    case PutRecord(l, k, _) => cell == RecordCell(l, k)
    case DeleteRecord(l, k) => cell == RecordCell(l, k)
    case PutChunk(v, i, _) => cell == ChunkCell(v, i)
    case PutLru(l, k, _) => cell == LruCell(l, k)
    case DeleteLru(l, k) => cell == LruCell(l, k)
    case PutNextId(_) => cell == NextIdCell
    case PutNextTick(_) => cell == NextTickCell
    case _ => false
  }

  /** What the byte op does to one place, in the tables. */
  lemma FoundAfter(c: Codec.FilterChain, t: ByteStore.Tables, op: Storage.Op, cell: Cell)
    requires LegalOp(op) && cell.Legal()
    ensures Found(ByteStore.Apply(t, Encoded(c, op)), cell) ==
              match Encoded(c, op) {
                case Put(_, _, value) => if IsTarget(op, cell) then Some(value) else Found(t, cell)
                case Delete(_, _) => if IsTarget(op, cell) then None else Found(t, cell)
                case DeleteRange(_, _) => if Sweeps(op, cell) then None else Found(t, cell)
              }
  {
    match op
    case ClearRecords(_) => RangeSweeps(c, op, cell);
    case DropChunks(_) => RangeSweeps(c, op, cell);
    case ClearLru(_) => RangeSweeps(c, op, cell);
    case PutRecord(l, k, _) => TargetKey(RecordCell(l, k), cell);
    case DeleteRecord(l, k) => TargetKey(RecordCell(l, k), cell);
    case PutChunk(v, i, _) => TargetKey(ChunkCell(v, i), cell);
    case PutLru(l, k, _) => TargetKey(LruCell(l, k), cell);
    case DeleteLru(l, k) => TargetKey(LruCell(l, k), cell);
    case PutNextId(_) => TargetKey(NextIdCell, cell);
    case PutNextTick(_) => TargetKey(NextTickCell, cell);
  }

  lemma TargetKey(target: Cell, cell: Cell)
    requires target.Legal() && cell.Legal()
    ensures TableOf(target) == TableOf(cell) && KeyOf(target) == KeyOf(cell) <==> target == cell
  {
    if TableOf(target) == TableOf(cell) && KeyOf(target) == KeyOf(cell) { KeysApart(target, cell); }
  }

  /** Each engine op and its bytes have the same effect. */
  lemma OpSimulates(t: ByteStore.Tables, s: Storage.Store, c: Codec.FilterChain, op: Storage.Op)
    requires Represents(t, s, c) && LegalOp(op)
    ensures Represents(ByteStore.Apply(t, Encoded(c, op)), Storage.Apply(s, op), c)
  {
    forall cell: Cell | cell.Legal()
      ensures Found(ByteStore.Apply(t, Encoded(c, op)), cell) == Held(c, Storage.Apply(s, op), cell)
    {
      HeldAfter(c, s, op, cell);
      FoundAfter(c, t, op, cell);
      assert Found(t, cell) == Held(c, s, cell);
    }
  }

  function EncodedAll(c: Codec.FilterChain, ops: seq<Storage.Op>): (r: seq<ByteStore.Op>)
    ensures |r| == |ops| && forall i :: 0 <= i < |ops| ==> r[i] == Encoded(c, ops[i])
  {
    seq(|ops|, i requires 0 <= i < |ops| => Encoded(c, ops[i]))
  }

  /** A whole commit's bytes leave the tables representing what the engine's ops leave. */
  lemma {:induction false} CommitSimulates(t: ByteStore.Tables, s: Storage.Store, c: Codec.FilterChain,
                                           ops: seq<Storage.Op>)
    requires Represents(t, s, c) && forall op :: op in ops ==> LegalOp(op)
    ensures Represents(ByteStore.ApplyAll(t, EncodedAll(c, ops)), Storage.ApplyAll(s, ops), c)
    decreases |ops|
  {
    if ops != [] {
      var init, op := ops[..|ops| - 1], ops[|ops| - 1];
      CommitSimulates(t, s, c, init);
      assert EncodedAll(c, ops)[..|ops| - 1] == EncodedAll(c, init);
      assert op in ops;
      OpSimulates(ByteStore.ApplyAll(t, EncodedAll(c, init)), Storage.ApplyAll(s, init), c, op);
    }
  }

  lemma EmptyRepresents(c: Codec.FilterChain)
    ensures Represents(ByteStore.EMPTY_TABLES, Storage.Store(map[], map[], map[], None, None), c)
  {
  }

  /** Walking a locker's bytes lists exactly the keys of its records inside the bounds. */
  lemma WalkedKeys(t: ByteStore.Tables, s: Storage.Store, c: Codec.FilterChain, l: KeyRanges.LockerId,
                   start: KeyRanges.Bound, end: KeyRanges.Bound, k: Key)
    requires Represents(t, s, c)
    ensures k in Paging.UserKeys(t.records, l, start, end) <==>
              k in s.Recs(l) && KeyRanges.Contains(KeyRanges.KeyRange(start, end), k)
  {
    Paging.UserKeysAre(t.records, l, start, end, k);
    assert Found(t, RecordCell(l, k)) == Held(c, s, RecordCell(l, k));
    assert KeyOf(RecordCell(l, k)) == KeyRanges.Encode(l, k);
  }

  /** So what a walk over the bytes hands its visitor is what a listing starts from. */
  lemma WalkFeedsListing(t: ByteStore.Tables, s: Storage.Store, c: Codec.FilterChain, l: KeyRanges.LockerId,
                         start: KeyRanges.Bound, end: KeyRanges.Bound, reverse: bool)
    requires Represents(t, s, c)
    ensures ByteStore.Ordered(Paging.UserKeys(t.records, l, start, end), reverse)
         == ByteStore.Ordered(Listing.Restrict(Storage.View(s, l), start, end).Keys, reverse)
  {
    var keys := Listing.Restrict(Storage.View(s, l), start, end).Keys;
    forall k ensures k in Paging.UserKeys(t.records, l, start, end) <==> k in keys {
      WalkedKeys(t, s, c, l, start, end, k);
    }
    assert Paging.UserKeys(t.records, l, start, end) == keys;
  }

  /**
   Chunk keys sort by id, then by sequence number, so the last key of the chunks table carries the highest id stored:
   one reverse scan of one record finds where a fresh cursor must start.
   */
  lemma ChunkKeysSort(v: nat, i: nat, w: nat, j: nat)
    requires ChunkCell(v, i).Legal() && ChunkCell(w, j).Legal()
    ensures Less(KeyOf(ChunkCell(v, i)), KeyOf(ChunkCell(w, j))) <==> v < w || (v == w && i < j)
  {
    Widths();
    if v == w {
      LessUnderPrefix(ToBE(v, 8), ToBE(i, 4), ToBE(j, 4));
      BEOrder(i, j, 4);
    } else {
      if ToBE(v, 8) == ToBE(w, 8) { SameNumber(v, w, 8); }
      BEOrder(v, w, 8);
      KeyRanges.LessExtended(ToBE(v, 8), ToBE(w, 8), ToBE(i, 4), ToBE(j, 4));
    }
  }
}
