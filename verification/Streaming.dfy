/**
 Streaming writers: a value written piece by piece over many commits, published by one last commit.
 A writer owns the chunks it has flushed until it publishes them under a record or aborts.
 */
module Streaming {
  import opened Wrappers
  import opened Bytes
  import opened Storage
  import opened Ownership
  import opened Inner
  import opened Batches
  import opened Transaction

  /** The whole pieces at the front of a buffer. */
  function WholePieces(buf: Payload, chunkSize: nat): seq<Payload>
    requires chunkSize >= 1
    decreases |buf|
  {
    if |buf| < chunkSize then [] else [buf[..chunkSize]] + WholePieces(buf[chunkSize..], chunkSize)
  }

  function Leftover(buf: Payload, chunkSize: nat): Payload
    requires chunkSize >= 1
    decreases |buf|
  {
    if |buf| < chunkSize then buf else Leftover(buf[chunkSize..], chunkSize)
  }

  function PieceOp(w: WriterState, piece: Payload): Op { PutChunk(w.valueId, w.seqNo, piece) }

  /** What publishing commits: `seen` is the id the old record was found to point at, some time before. */
  function PublishOps(seen: Option<nat>, w: WriterState): seq<Op>
  {
    GcOps(seen) + [PutRecord(w.locker, w.key, Pointer(PublishedPointer(w)))]
  }

  /** The id found under the key is still the key's, or belongs to nobody any more. */
  ghost predicate Settled(s: Store, ws: Writers, l: LockerId, k: Key, seen: Option<nat>)
  {
    seen.Some? ==> PointerId(RecordAt(s, l, k)) == seen || Unclaimed(s, ws, seen.value)
  }

  /** Nothing has been put under the key since whose chunks would be left behind. */
  predicate Current(s: Store, l: LockerId, k: Key, seen: Option<nat>)
  {
    var now := PointerId(RecordAt(s, l, k));
    now.None? || now == seen || s.Rows(now.value) == map[]
  }

  /** Every byte handed to the writer is in a flushed piece or still buffered. */
  ghost predicate Intact(s: Store, w: WriterState)
  {
    |Join(s.Rows(w.valueId), w.seqNo)| + |w.buf| == w.totalLen
  }

  /** The bytes the writer has been handed. */
  function Sent(s: Store, w: WriterState): Payload
  {
    Join(s.Rows(w.valueId), w.seqNo) + w.buf
  }

  // ---- ownership -----------------------------------------------------

  /** A new writer owns a fresh id and no rows yet. */
  lemma StartStep(s: Store, ws: Writers, h: nat, w: WriterState, cursor: nat)
    requires Sound(s, ws, cursor) && h !in ws
    requires w.valueId == cursor && w.seqNo == 0
    ensures var t := ApplyAll(s, [PutNextId(cursor + 1)]);
      && Sound(t, ws[h := w], cursor + 1)
      && (forall l :: t.Recs(l) == s.Recs(l) && View(t, l) == View(s, l)) && t.lru == s.lru
  {
    ApplyOne(s, PutNextId(cursor + 1));
    var t := ApplyAll(s, [PutNextId(cursor + 1)]);
    CursorUnclaimed(s, ws, cursor);
    SameData(s, t, ws);
    SameReadable(s, t);
    WriterClaims(t, ws, ws[h := w], h);
    forall v | Unclaimed(t, ws[h := w], v) ensures t.Rows(v) == map[] {
      forall o ensures !Claiming(t, ws, o, v) {
        assert !Claiming(t, ws[h := w], o, v);
      }
      assert Unclaimed(t, ws, v);
    }
    OwnedWith(t, ws, ws[h := w], h);
  }

  lemma WriterClaims(t: Store, ws: Writers, ws': Writers, h: nat)
    requires forall x :: x != h ==> (x in ws' <==> x in ws) && (x in ws ==> ws'[x] == ws[x])
    ensures forall o :: o != ByWriter(h) ==> ClaimOf(t, ws', o) == ClaimOf(t, ws, o)
    ensures forall o, v :: o != ByWriter(h) ==> Claiming(t, ws', o, v) == Claiming(t, ws, o, v)
  {
  }

  lemma OwnedWith(t: Store, ws: Writers, ws': Writers, h: nat)
    requires h !in ws && h in ws' && ws' == ws[h := ws'[h]]
    requires Owned(t, ws) && Unclaimed(t, ws, ws'[h].valueId)
    requires ws'[h].seqNo == 0
    requires forall v :: Unclaimed(t, ws', v) ==> t.Rows(v) == map[]
    ensures Owned(t, ws')
  {
    WriterClaims(t, ws, ws', h);
    forall o | ClaimOf(t, ws', o).Some?
      ensures ExactRows(t.Rows(ClaimOf(t, ws', o).value.valueId), ClaimOf(t, ws', o).value.chunks)
    {
    }
  }

  /** Flushing a piece adds exactly the writer's next row. */
  lemma PieceStep(s: Store, ws: Writers, h: nat, piece: Payload, cursor: nat)
    requires Sound(s, ws, cursor) && h in ws
    ensures var w := ws[h];
            var t := ApplyAll(s, [PieceOp(w, piece)]);
            var ws' := ws[h := w.(seqNo := w.seqNo + 1)];
      && Sound(t, ws', cursor)
      && (forall l :: t.Recs(l) == s.Recs(l) && View(t, l) == View(s, l)) && t.lru == s.lru
      && Join(t.Rows(w.valueId), w.seqNo + 1) == Join(s.Rows(w.valueId), w.seqNo) + piece
      && t.nextId == s.nextId
  {
    var w := ws[h];
    var ws' := ws[h := w.(seqNo := w.seqNo + 1)];
    ApplyOne(s, PieceOp(w, piece));
    var t := ApplyAll(s, [PieceOp(w, piece)]);
    var v := w.valueId;
    assert Claiming(s, ws, ByWriter(h), v);
    assert forall u: nat :: u != v ==> t.Rows(u) == s.Rows(u);
    forall o ensures ClaimOf(t, ws', o) == if o == ByWriter(h) then Some(Claim(v, w.seqNo + 1)) else ClaimOf(s, ws, o) {
      assert o.ByRecord? ==> t.Recs(o.locker) == s.Recs(o.locker);
    }
    PieceOwned(s, t, ws, ws', h, piece);
    forall l, k | k in s.Recs(l) ensures Decode(t, s.Recs(l)[k]) == Decode(s, s.Recs(l)[k]) {
      if s.Recs(l)[k].Pointer? { assert Claiming(s, ws, ByRecord(l, k), s.Recs(l)[k].ptr.valueId); }
    }
    assert forall l :: View(t, l) == View(s, l);
    SameReadable(s, t);
    JoinExtends(s.Rows(v), w.seqNo, piece);
  }

  lemma PieceOwned(s: Store, t: Store, ws: Writers, ws': Writers, h: nat, piece: Payload)
    requires Owned(s, ws) && h in ws
    requires t.records == s.records && forall u: nat :: u != ws[h].valueId ==> t.Rows(u) == s.Rows(u)
    requires t.Rows(ws[h].valueId) == s.Rows(ws[h].valueId)[ws[h].seqNo := piece]
    requires forall o :: ClaimOf(t, ws', o) ==
               if o == ByWriter(h) then Some(Claim(ws[h].valueId, ws[h].seqNo + 1)) else ClaimOf(s, ws, o)
    ensures Owned(t, ws')
  {
    var v0 := ws[h].valueId;
    assert Claiming(s, ws, ByWriter(h), v0);
    forall o, v ensures Claiming(t, ws', o, v) == Claiming(s, ws, o, v) {
      assert ClaimOf(t, ws', o).Some? == ClaimOf(s, ws, o).Some?;
    }
    forall o | ClaimOf(t, ws', o).Some?
      ensures ExactRows(t.Rows(ClaimOf(t, ws', o).value.valueId), ClaimOf(t, ws', o).value.chunks)
    {
      if o != ByWriter(h) { assert Claiming(s, ws, o, ClaimOf(s, ws, o).value.valueId); }
    }
    forall v: nat | Unclaimed(t, ws', v) ensures t.Rows(v) == map[] {
      forall o ensures !Claiming(s, ws, o, v) { assert !Claiming(t, ws', o, v); }
      assert Unclaimed(s, ws, v) && !Claiming(s, ws, ByWriter(h), v);
    }
  }

  lemma {:induction false} JoinExtends(rows: map<nat, Payload>, n: nat, piece: Payload)
    ensures Join(rows[n := piece], n + 1) == Join(rows, n) + piece
  {
    JoinSame(rows, rows[n := piece], n);
  }

  lemma {:induction false} JoinSame(a: map<nat, Payload>, b: map<nat, Payload>, n: nat)
    requires forall i: nat :: i < n ==> (i in a <==> i in b) && (i in a ==> a[i] == b[i])
    ensures Join(a, n) == Join(b, n)
    decreases n
  {
    if n > 0 { JoinSame(a, b, n - 1); }
  }

  /**
   Publishing hands the writer's chunks to the record and drops those of the value it replaces. The result
   is readable exactly when the flushed pieces add up to the bytes the writer was handed, which a failed
   flush whose piece was lost breaks for good, and the pointer is one a reader takes on.
   */
  lemma PublishStep(s: Store, ws: Writers, h: nat, seen: Option<nat>, cursor: nat)
    requires Sound(s, ws, cursor) && h in ws
    requires Settled(s, ws, ws[h].locker, ws[h].key, seen) && Current(s, ws[h].locker, ws[h].key, seen)
    ensures var w := ws[h];
            var t := ApplyAll(s, PublishOps(seen, w));
      && Owned(t, ws - {h}) && ClaimsBelow(t, ws - {h}, Stored(t)) && Stored(t) <= cursor
      && (Readable(t) <==> |Join(s.Rows(w.valueId), w.seqNo)| == w.totalLen && Parses(PublishedPointer(w)))
      && View(t, w.locker) == View(s, w.locker)[w.key := Value(FLAG_RAW, Join(s.Rows(w.valueId), w.seqNo))]
      && t.Recs(w.locker) == s.Recs(w.locker)[w.key := Pointer(PublishedPointer(w))]
      && (forall l :: l != w.locker ==> t.Recs(l) == s.Recs(l) && View(t, l) == View(s, l))
      && t.lru == s.lru && t.nextId == s.nextId
  {
    var w := ws[h];
    var t := ApplyAll(s, PublishOps(seen, w));
    PublishReplaces(s, ws, h, seen);
    HandOver(s, t, ws, h, Pointer(PublishedPointer(w)));
    PublishReadable(s, t, w, PublishedPointer(w));
  }

  function PublishedPointer(w: WriterState): ChunkPointer
  {
    ChunkPointer(w.valueId, w.seqNo, w.totalLen, FLAG_RAW)
  }

  lemma PublishRecords(s: Store, seen: Option<nat>, w: WriterState)
    ensures var t := ApplyAll(s, PublishOps(seen, w));
      && t.records == s.records[w.locker := s.Recs(w.locker)[w.key := Pointer(PublishedPointer(w))]]
      && (forall v: nat :: t.Rows(v) == if seen == Some(v) then map[] else s.Rows(v))
      && t.lru == s.lru && t.nextId == s.nextId && t.nextTick == s.nextTick
  {
    var put := PutRecord(w.locker, w.key, Pointer(PublishedPointer(w)));
    DropEffect(s, seen);
    ApplyAppend(s, GcOps(seen), [put]);
    ApplyOne(ApplyAll(s, GcOps(seen)), put);
  }

  lemma PublishReplaces(s: Store, ws: Writers, h: nat, seen: Option<nat>)
    requires Owned(s, ws) && h in ws
    requires Settled(s, ws, ws[h].locker, ws[h].key, seen) && Current(s, ws[h].locker, ws[h].key, seen)
    ensures var w := ws[h];
            var t := ApplyAll(s, PublishOps(seen, w));
      && Replaced(s, t, w.locker, w.key, Some(Pointer(PublishedPointer(w))), s.Rows(w.valueId))
      && t.lru == s.lru && t.nextId == s.nextId
  {
    var w := ws[h];
    var t := ApplyAll(s, PublishOps(seen, w));
    PublishRecords(s, seen, w);
    forall v: nat
      ensures t.Rows(v) == if v == w.valueId then s.Rows(v)
                           else if PointerId(RecordAt(s, w.locker, w.key)) == Some(v) then map[] else s.Rows(v)
    {
      SeenRows(s, ws, h, seen, v);
    }
  }

  /** What was seen is either what is there now or of no consequence. */
  lemma SeenRows(s: Store, ws: Writers, h: nat, seen: Option<nat>, v: nat)
    requires Owned(s, ws) && h in ws
    requires Settled(s, ws, ws[h].locker, ws[h].key, seen) && Current(s, ws[h].locker, ws[h].key, seen)
    ensures var now := PointerId(RecordAt(s, ws[h].locker, ws[h].key));
      && seen != Some(ws[h].valueId) && now != Some(ws[h].valueId)
      && (if seen == Some(v) then map[] else s.Rows(v)) == (if now == Some(v) then map[] else s.Rows(v))
  {
    var w := ws[h];
    assert Claiming(s, ws, ByWriter(h), w.valueId);
    if PointerId(RecordAt(s, w.locker, w.key)) == Some(w.valueId) {
      assert Claiming(s, ws, ByRecord(w.locker, w.key), w.valueId);
      assert false;
    }
  }

  lemma PublishReadable(s: Store, t: Store, w: WriterState, p: ChunkPointer)
    requires Readable(s) && p.totalLen == w.totalLen
    requires t.Recs(w.locker) == s.Recs(w.locker)[w.key := Pointer(p)]
    requires forall l :: l != w.locker ==> t.Recs(l) == s.Recs(l) && View(t, l) == View(s, l)
    requires View(t, w.locker) == View(s, w.locker)[w.key := Decode(s, Pointer(p))]
    ensures Readable(t) <==> |Decode(s, Pointer(p)).payload| == w.totalLen && Parses(p)
  {
    assert Whole(t, w.locker, w.key) <==> |Decode(s, Pointer(p)).payload| == w.totalLen && Parses(p);
    forall l, k | k in t.Recs(l) && (l != w.locker || k != w.key) ensures Whole(t, l, k) {
      assert l != w.locker ==> t.Recs(l) == s.Recs(l) && View(t, l) == View(s, l);
      assert Whole(s, l, k) && t.Recs(l)[k] == s.Recs(l)[k] && View(t, l)[k] == View(s, l)[k];
    }
  }

  /**
   A publish reads the old record before it commits, and nothing keeps the two together. Chunk ownership survives
   exactly when, at the commit, the key still points where it was found to point, or at no chunks.
   */
  lemma PublishOwnedExactly(s: Store, ws: Writers, h: nat, seen: Option<nat>)
    requires Owned(s, ws) && h in ws && Settled(s, ws, ws[h].locker, ws[h].key, seen)
    ensures Owned(ApplyAll(s, PublishOps(seen, ws[h])), ws - {h}) <==> Current(s, ws[h].locker, ws[h].key, seen)
  {
    var w := ws[h];
    var t := ApplyAll(s, PublishOps(seen, w));
    if Current(s, w.locker, w.key, seen) {
      PublishReplaces(s, ws, h, seen);
      HandOver(s, t, ws, h, Pointer(PublishedPointer(w)));
    } else {
      PublishRecords(s, seen, w);
      LeftBehind(s, t, ws, h, PointerId(RecordAt(s, w.locker, w.key)).value);
    }
  }

  lemma LeftBehind(s: Store, t: Store, ws: Writers, h: nat, v: nat)
    requires Owned(s, ws) && h in ws && PointerId(RecordAt(s, ws[h].locker, ws[h].key)) == Some(v)
    requires t.Rows(v) == s.Rows(v) != map[]
    requires t.records ==
             s.records[ws[h].locker := s.Recs(ws[h].locker)[ws[h].key := Pointer(PublishedPointer(ws[h]))]]
    ensures !Owned(t, ws - {h})
  {
    var w, a := ws[h], ByRecord(ws[h].locker, ws[h].key);
    assert Claiming(s, ws, a, v) && Claiming(s, ws, ByWriter(h), w.valueId);
    forall o ensures !Claiming(t, ws - {h}, o, v) {
      if o.ByRecord? && o.locker != w.locker { assert t.Recs(o.locker) == s.Recs(o.locker); }
      assert o != a && Claiming(t, ws - {h}, o, v) ==> Claiming(s, ws, o, v);
    }
    assert Unclaimed(t, ws - {h}, v);
  }

  lemma HandOver(s: Store, t: Store, ws: Writers, h: nat, r: Record)
    requires h in ws && Owned(s, ws)
    requires r == Pointer(PublishedPointer(ws[h]))
    requires Replaced(s, t, ws[h].locker, ws[h].key, Some(r), s.Rows(ws[h].valueId))
    ensures Owned(t, ws - {h})
    ensures forall n: nat :: ClaimsBelow(s, ws, n) ==> ClaimsBelow(t, ws - {h}, n)
    ensures View(t, ws[h].locker) == View(s, ws[h].locker)[ws[h].key := Decode(s, r)]
    ensures forall l :: l != ws[h].locker ==> View(t, l) == View(s, l)
  {
    var w, a, v0 := ws[h], ByRecord(ws[h].locker, ws[h].key), ws[h].valueId;
    var ws' := ws - {h};
    assert Claiming(s, ws, ByWriter(h), v0);
    forall o
      ensures ClaimOf(t, ws', o) ==
                if o == a then Some(Claim(v0, w.seqNo)) else if o == ByWriter(h) then None else ClaimOf(s, ws, o)
    {
      assert o.ByRecord? && o.locker != w.locker ==> t.Recs(o.locker) == s.Recs(o.locker);
    }
    HandOverOwned(s, t, ws, ws', h, a, r);
    forall l, k | k in s.Recs(l) && ByRecord(l, k) != a
      ensures Decode(t, s.Recs(l)[k]) == Decode(s, s.Recs(l)[k])
    {
      if s.Recs(l)[k].Pointer? {
        var v := s.Recs(l)[k].ptr.valueId;
        assert Claiming(s, ws, ByRecord(l, k), v);
        assert PointerId(RecordAt(s, w.locker, w.key)) == Some(v) ==> Claiming(s, ws, a, v);
      }
    }
  }

  lemma HandOverOwned(s: Store, t: Store, ws: Writers, ws': Writers, h: nat, a: Owner, r: Record)
    requires h in ws && Owned(s, ws) && a == ByRecord(ws[h].locker, ws[h].key)
    requires Replaced(s, t, ws[h].locker, ws[h].key, Some(r), s.Rows(ws[h].valueId))
    requires r == Pointer(PublishedPointer(ws[h]))
    requires forall o :: ClaimOf(t, ws', o) ==
               if o == a then Some(Claim(ws[h].valueId, ws[h].seqNo)) else if o == ByWriter(h) then None
               else ClaimOf(s, ws, o)
    ensures Owned(t, ws')
  {
    var v0 := ws[h].valueId;
    assert Claiming(s, ws, ByWriter(h), v0);
    forall o, p, v | Claiming(t, ws', o, v) && Claiming(t, ws', p, v) ensures o == p {
      assert Claiming(s, ws, if o == a then ByWriter(h) else o, v);
      assert Claiming(s, ws, if p == a then ByWriter(h) else p, v);
    }
    forall o | ClaimOf(t, ws', o).Some?
      ensures ExactRows(t.Rows(ClaimOf(t, ws', o).value.valueId), ClaimOf(t, ws', o).value.chunks)
    {
      if o != a {
        var v := ClaimOf(s, ws, o).value.valueId;
        assert Claiming(s, ws, o, v);
        assert PointerId(RecordAt(s, a.locker, a.key)) == Some(v) ==> Claiming(s, ws, a, v);
      }
    }
    forall v: nat | Unclaimed(t, ws', v) ensures t.Rows(v) == map[] {
      assert !Claiming(t, ws', a, v);
      if PointerId(RecordAt(s, a.locker, a.key)) != Some(v) {
        forall o ensures !Claiming(s, ws, o, v) {
          assert !Claiming(t, ws', o, v);
        }
        assert Unclaimed(s, ws, v);
      }
    }
  }

  /** Aborting drops the writer's chunks and nothing else. */
  lemma AbortStep(s: Store, ws: Writers, h: nat, cursor: nat)
    requires Sound(s, ws, cursor) && h in ws
    ensures var t := ApplyAll(s, [DropChunks(ws[h].valueId)]);
      && Sound(t, ws - {h}, cursor)
      && (forall l :: t.Recs(l) == s.Recs(l) && View(t, l) == View(s, l))
      && t.lru == s.lru && t.nextId == s.nextId
  {
    var v0 := ws[h].valueId;
    var ws' := ws - {h};
    ApplyOne(s, DropChunks(v0));
    var t := ApplyAll(s, [DropChunks(v0)]);
    assert Claiming(s, ws, ByWriter(h), v0);
    assert forall v: nat :: t.Rows(v) == if v == v0 then map[] else s.Rows(v);
    assert forall l :: t.Recs(l) == s.Recs(l);
    forall o ensures ClaimOf(t, ws', o) == if o == ByWriter(h) then None else ClaimOf(s, ws, o) {
    }
    forall v: nat | Unclaimed(t, ws', v) ensures t.Rows(v) == map[] {
      if v != v0 {
        forall o ensures !Claiming(s, ws, o, v) {
          assert !Claiming(t, ws', o, v);
        }
        assert Unclaimed(s, ws, v);
      }
    }
    forall o, p, v | Claiming(t, ws', o, v) && Claiming(t, ws', p, v) ensures o == p {
      assert Claiming(s, ws, o, v) && Claiming(s, ws, p, v);
    }
    forall o | ClaimOf(t, ws', o).Some?
      ensures ExactRows(t.Rows(ClaimOf(t, ws', o).value.valueId), ClaimOf(t, ws', o).value.chunks)
    {
      assert Claiming(s, ws, o, ClaimOf(s, ws, o).value.valueId);
    }
    forall l, k | k in s.Recs(l) ensures Decode(t, s.Recs(l)[k]) == Decode(s, s.Recs(l)[k]) {
      if s.Recs(l)[k].Pointer? { assert Claiming(s, ws, ByRecord(l, k), s.Recs(l)[k].ptr.valueId); }
    }
  }
}
