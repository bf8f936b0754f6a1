/** The streaming writer as an object: a buffer drained in whole pieces, however its bytes arrive. */
module StreamingWriter {
  import opened Wrappers
  import opened Bytes
  import opened Storage
  import opened Ownership
  import opened Inner
  import opened Streaming
  import opened Engine
  import Steps

  // ---- how bytes become pieces ---------------------------------------

  function Concat(splits: seq<Payload>): Payload
    decreases |splits|
  {
    if splits == [] then [] else Concat(splits[..|splits| - 1]) + splits[|splits| - 1]
  }

  /** What is left in the buffer after the splits have been written one call at a time. */
  function Buffered(splits: seq<Payload>, size: nat): Payload
    requires size >= 1
    decreases |splits|
  {
    if splits == [] then []
    else Leftover(Buffered(splits[..|splits| - 1], size) + splits[|splits| - 1], size)
  }

  /** The pieces flushed on the way. */
  function FlushedPieces(splits: seq<Payload>, size: nat): seq<Payload>
    requires size >= 1
    decreases |splits|
  {
    if splits == [] then []
    else
      var init := splits[..|splits| - 1];
      FlushedPieces(init, size) + WholePieces(Buffered(init, size) + splits[|splits| - 1], size)
  }

  lemma {:induction false} MoreBytes(a: Payload, b: Payload, size: nat)
    requires size >= 1
    ensures WholePieces(a + b, size) == WholePieces(a, size) + WholePieces(Leftover(a, size) + b, size)
    ensures Leftover(a + b, size) == Leftover(Leftover(a, size) + b, size)
    decreases |a|
  {
    if |a| >= size {
      assert (a + b)[..size] == a[..size] && (a + b)[size..] == a[size..] + b;
      MoreBytes(a[size..], b, size);
    }
  }

  /** Every piece is full, and what is left over is not. */
  lemma {:induction false} OnlyWholePieces(buf: Payload, size: nat)
    requires size >= 1
    ensures |Leftover(buf, size)| < size
    ensures forall i :: 0 <= i < |WholePieces(buf, size)| ==> |WholePieces(buf, size)[i]| == size
    decreases |buf|
  {
    if |buf| >= size { OnlyWholePieces(buf[size..], size); }
  }

  /**
   However the bytes are split across calls, the same pieces are flushed and the same rest is buffered, and never as
   much as a piece.
   */
  lemma {:induction false} SplitsDoNotMatter(splits: seq<Payload>, size: nat)
    requires size >= 1
    ensures FlushedPieces(splits, size) == WholePieces(Concat(splits), size)
    ensures Buffered(splits, size) == Leftover(Concat(splits), size) && |Buffered(splits, size)| < size
    ensures forall i :: 0 <= i < |FlushedPieces(splits, size)| ==> |FlushedPieces(splits, size)[i]| == size
    decreases |splits|
  {
    OnlyWholePieces(Concat(splits), size);
    if splits != [] {
      var init := splits[..|splits| - 1];
      SplitsDoNotMatter(init, size);
      MoreBytes(Concat(init), splits[|splits| - 1], size);
    }
  }

  function Ending(rest: Payload): seq<Payload> { if rest == [] then [] else [rest] }

  /** Whole pieces, then what is left over: the payload cut at the chunk size. */
  lemma {:induction false} WholeThenRest(p: Payload, size: nat)
    requires size >= 1
    ensures WholePieces(p, size) + Ending(Leftover(p, size)) == Cut(p, size)
    decreases |p|
  {
    if |p| >= size {
      WholeThenRest(p[size..], size);
      assert |p| == size ==> p[..size] == p && p[size..] == [];
    }
  }

  /** A streamed value is stored as its payload cut at the chunk size, whatever calls it arrived in. */
  lemma StreamedIsCut(splits: seq<Payload>, size: nat)
    requires size >= 1
    ensures FlushedPieces(splits, size) + Ending(Buffered(splits, size)) == Cut(Concat(splits), size)
  {
    SplitsDoNotMatter(splits, size);
    WholeThenRest(Concat(splits), size);
  }

  // ---- the writer ----------------------------------------------------

  function PieceOps(v: nat, from: nat, pieces: seq<Payload>): seq<Op>
  {
    seq(|pieces|, i requires 0 <= i < |pieces| => PutChunk(v, from + i, pieces[i]))
  }

  /** What is left once `n` whole pieces are gone. */
  function After(buf: Payload, size: nat, n: nat): Payload
    requires size >= 1 && n <= |WholePieces(buf, size)|
    decreases n
  {
    if n == 0 then buf else After(buf[size..], size, n - 1)
  }

  class Writer {
    const bank: Bank
    const locker: LazyLocker
    const chunkSize: nat
    const key: Key
    const valueId: nat
    var seqNo: nat
    var totalLen: nat
    var buf: Payload

    constructor (locker: LazyLocker, key: Key, valueId: nat)
      ensures this.locker == locker && bank == locker.bank && chunkSize == locker.cfg.chunkSize
      ensures State() == WriterState(locker.id, key, valueId, 0, 0, [])
    {
      bank, chunkSize := locker.bank, locker.cfg.chunkSize;
      this.locker, this.key, this.valueId := locker, key, valueId;
      seqNo, totalLen, buf := 0, 0, [];
    }

    /** Take a fresh value id, and persist the counter past it before anything else. */
    static method Start(locker: LazyLocker, key: Key) returns (r: Option<Writer>)
      modifies locker.bank`store, locker.bank`landing, locker.bank`asked, locker.bank.ids
      ensures var b, v := locker.bank, Cursor(old(locker.bank.store), old(locker.bank.ids.next));
        && (r.Some? ==>
              && fresh(r.value) && r.value.locker == locker && r.value.bank == b
              && r.value.State() == WriterState(locker.id, key, v, 0, 0, [])
              && b.store == ApplyAll(old(b.store), [PutNextId(v + 1)]) && b.ids.next == Some(v + 1))
        && (r.None? ==> b.store == old(b.store) && (b.ids.next == old(b.ids.next) || b.ids.next == Some(v + 1)))
        && (b.Answering() && old(b.landing) != Some(0) && v < U64_MAX ==> r.Some?)
    {
      var taken := locker.bank.AllocateId();
      if taken.None? { return None; }
      var counter := locker.bank.ids.CounterOp();
      var ok := locker.bank.Commit([PutNextId(counter.value)]);
      if !ok { return None; }
      var w := new Writer(locker, key, taken.value);
      r := Some(w);
    }

    function State(): WriterState
      reads this
    {
      WriterState(locker.id, key, valueId, seqNo, totalLen, buf)
    }

    /** Whole pieces leave the buffer one commit at a time; one that does not land is gone. */
    method WriteChunk(bytes: Payload) returns (ok: bool)
      requires chunkSize >= 1
      modifies this, bank`store, bank`landing
      ensures totalLen == old(totalLen) + |bytes|
      ensures var pieces := WholePieces(old(buf) + bytes, chunkSize);
              var take := old(bank.landing);
              ok == (take.None? || |pieces| <= take.value)
      ensures var pieces := WholePieces(old(buf) + bytes, chunkSize);
              var n := seqNo - old(seqNo);
        && 0 <= n <= |pieces|
        && bank.store == ApplyAll(old(bank.store), PieceOps(valueId, old(seqNo), pieces[..n]))
        && (ok ==> n == |pieces| && buf == Leftover(old(buf) + bytes, chunkSize))
        && (!ok ==> Some(n) == old(bank.landing) && buf == After(old(buf) + bytes, chunkSize, n + 1))
    {
      buf := buf + bytes;
      totalLen := totalLen + |bytes|;
      ghost var all, start, take, first := buf, bank.store, bank.landing, seqNo;
      assert WholePieces(all, chunkSize)[..0] == [] && PieceOps(valueId, first, []) == [];
      ghost var n := 0;
      while |buf| >= chunkSize
        invariant Drained(all, start, take, first, n) && totalLen == old(totalLen) + |bytes|
        decreases |buf|
      {
        ok := DrainPiece(all, start, take, first, n);
        if !ok { return; }
        n := n + 1;
      }
      NoPieceLeft(all, chunkSize, n);
      return true;
    }

    /** `n` whole pieces of `all` have left the buffer and landed. */
    ghost predicate Drained(all: Payload, start: Store, take: Option<nat>, first: nat, n: nat)
      requires chunkSize >= 1
      reads this, bank
    {
      var pieces := WholePieces(all, chunkSize);
      && n <= |pieces| && seqNo == first + n && buf == After(all, chunkSize, n)
      && bank.store == ApplyAll(start, PieceOps(valueId, first, pieces[..n]))
      && (take.Some? ==> n <= take.value) && bank.landing == if take.Some? then Some(take.value - n) else None
    }

    /** One whole piece leaves the buffer, and is gone whether or not its commit lands. */
    method DrainPiece(ghost all: Payload, ghost start: Store, ghost take: Option<nat>, ghost first: nat, ghost n: nat)
      returns (ok: bool)
      requires chunkSize >= 1 && |buf| >= chunkSize && Drained(all, start, take, first, n)
      modifies this`buf, this`seqNo, bank`store, bank`landing
      ensures n < |WholePieces(all, chunkSize)| && ok == (take != Some(n)) && |buf| < |old(buf)|
      ensures ok ==> Drained(all, start, take, first, n + 1)
      ensures !ok ==> && buf == After(all, chunkSize, n + 1) && seqNo == old(seqNo)
                      && bank.store == old(bank.store) && bank.landing == old(bank.landing)
    {
      var piece := buf[..chunkSize];
      OnePieceMore(all, chunkSize, n);
      NextPieceOp(start, valueId, first, WholePieces(all, chunkSize), n);
      buf := buf[chunkSize..];
      ok := FlushPiece(piece);
    }

    /** Commit one piece under the next sequence number. */
    method FlushPiece(piece: Payload) returns (ok: bool)
      modifies this`seqNo, bank`store, bank`landing
      ensures ok == (old(bank.landing) != Some(0)) && seqNo == old(seqNo) + if ok then 1 else 0
      ensures bank.store ==
                if ok then ApplyAll(old(bank.store), [PutChunk(valueId, old(seqNo), piece)]) else old(bank.store)
      ensures var take := old(bank.landing); bank.landing == if ok && take.Some? then Some(take.value - 1) else take
    {
      ok := bank.Commit([PutChunk(valueId, seqNo, piece)]);
      if ok { seqNo := seqNo + 1; }
    }

    /**
     The rest of the buffer becomes the last piece, then the record appears and the old value's chunks go. An old
     pointer the reader would not take on cannot be parsed, and stops it.
     */
    method Finish() returns (ok: bool)
      requires chunkSize >= 1
      modifies this, bank`store, bank`landing, bank`asked, locker`index, locker`knownInline
      ensures var last := Ending(old(buf));
              var w := old(State()).(seqNo := old(seqNo) + |last|, buf := []);
              var flushed := ApplyAll(old(bank.store), PieceOps(valueId, old(seqNo), last));
              var before := RecordAt(flushed, locker.id, key);
        && ok == (&& (old(bank.landing).None? || |last| < old(bank.landing).value)
                  && bank.answers(old(bank.asked)) && Legible(before))
        && (ok ==> State() == w && bank.store == ApplyAll(flushed, PublishOps(PointerId(before), w)))
        && (ok ==> locker.index == old(locker.index) + {key} && locker.knownInline == old(locker.knownInline) - {key})
        && (!ok ==> bank.store == (if seqNo == old(seqNo) then old(bank.store) else flushed))
        && (!ok ==> locker.index == old(locker.index) && locker.knownInline == old(locker.knownInline))
    {
      var flushed := FlushRest();
      if !flushed { return false; }
      ghost var s, w := bank.store, State();
      var seen := Look();
      if seen.None? { return false; }
      ok := Publish(seen.value);
      assert State() == w;
      assert ok ==> bank.store == ApplyAll(s, PublishOps(PointerId(RecordAt(s, locker.id, key)), w));
    }

    /** What is left in the buffer becomes the last piece; if its commit fails it is lost. */
    method FlushRest() returns (ok: bool)
      modifies this`buf, this`seqNo, bank`store, bank`landing
      ensures var last, take := Ending(old(buf)), old(bank.landing);
        && ok == (last == [] || take != Some(0)) && buf == []
        && seqNo == old(seqNo) + (if ok then |last| else 0)
        && bank.store ==
             (if ok then ApplyAll(old(bank.store), PieceOps(valueId, old(seqNo), last)) else old(bank.store))
        && bank.landing == if ok && take.Some? then Some(take.value - |last|) else take
    {
      assert PieceOps(valueId, seqNo, []) == [];
      if buf == [] { return true; }
      var leftover := buf;
      buf := [];
      assert PieceOps(valueId, seqNo, [leftover]) == [PutChunk(valueId, seqNo, leftover)];
      ok := FlushPiece(leftover);
    }

    /** Read the record about to be replaced, before anything is committed. */
    method Look() returns (seen: Option<Option<nat>>)
      modifies bank`asked
      ensures var before := RecordAt(bank.store, locker.id, key);
        seen == if bank.answers(old(bank.asked)) && Legible(before) then Some(PointerId(before)) else None
    {
      var found := bank.Fetch(locker.id, key);
      match found
      case None => return None;
      case Some(None) => return Some(None);
      case Some(Some(Inline(_))) => return Some(None);
      case Some(Some(Pointer(p))) => return if Parses(p) then Some(Some(p.valueId)) else None;
    }

    /** Commit the pointer together with the removal of what was seen; the store may have moved on in between. */
    method Publish(seen: Option<nat>) returns (ok: bool)
      modifies bank`store, bank`landing, locker`index, locker`knownInline
      ensures ok == (old(bank.landing) != Some(0))
      ensures bank.store == if ok then ApplyAll(old(bank.store), PublishOps(seen, State())) else old(bank.store)
      ensures locker.index == old(locker.index) + (if ok then {key} else {})
      ensures locker.knownInline == old(locker.knownInline) - (if ok then {key} else {})
    {
      ok := bank.Commit(PublishOps(seen, State()));
      if ok { locker.NotePublished(key); }
    }

    /** The chunks already flushed go; the value under the key stays. */
    method Abort() returns (ok: bool)
      modifies bank`store, bank`landing
      ensures ok == (old(bank.landing) != Some(0))
      ensures bank.store == if ok then ApplyAll(old(bank.store), [DropChunks(valueId)]) else old(bank.store)
    {
      ok := bank.Commit([DropChunks(valueId)]);
    }
  }

  lemma {:induction false} OnePieceMore(buf: Payload, size: nat, n: nat)
    requires size >= 1 && n <= |WholePieces(buf, size)| && |After(buf, size, n)| >= size
    ensures n < |WholePieces(buf, size)| && WholePieces(buf, size)[n] == After(buf, size, n)[..size]
    ensures After(buf, size, n + 1) == After(buf, size, n)[size..]
    decreases n
  {
    if n > 0 { OnePieceMore(buf[size..], size, n - 1); }
  }

  lemma {:induction false} NoPieceLeft(buf: Payload, size: nat, n: nat)
    requires size >= 1 && n <= |WholePieces(buf, size)| && |After(buf, size, n)| < size
    ensures n == |WholePieces(buf, size)| && After(buf, size, n) == Leftover(buf, size)
    decreases n
  {
    if n > 0 { NoPieceLeft(buf[size..], size, n - 1); }
  }

  lemma NextPieceOp(s: Store, v: nat, from: nat, pieces: seq<Payload>, n: nat)
    requires n < |pieces|
    ensures ApplyAll(ApplyAll(s, PieceOps(v, from, pieces[..n])), [PutChunk(v, from + n, pieces[n])])
         == ApplyAll(s, PieceOps(v, from, pieces[..n + 1]))
  {
    ApplyAppend(s, PieceOps(v, from, pieces[..n]), [PutChunk(v, from + n, pieces[n])]);
    assert PieceOps(v, from, pieces[..n + 1]) == PieceOps(v, from, pieces[..n]) + [PutChunk(v, from + n, pieces[n])];
  }

  // ---- the same, as steps of the engine ------------------------------

  /** `n` whole pieces flushed, one step each. */
  function FlushTimes(w: Steps.World, h: nat, size: nat, n: nat): (r: Steps.World)
    requires h in w.ws
    ensures h in r.ws
    decreases n
  {
    if n == 0 then w
    else
      var before := FlushTimes(w, h, size, n - 1);
      if size <= |before.ws[h].buf| then Steps.Flushed(before, h, size) else before
  }

  /** What `WriteChunk` leaves after `n` landed pieces is what feeding the bytes and `n` flush steps leave. */
  lemma {:induction false} WriteIsSteps(w: Steps.World, h: nat, size: nat, n: nat)
    requires h in w.ws && size >= 1 && n <= |WholePieces(w.ws[h].buf, size)|
    ensures var s, r := w.ws[h], FlushTimes(w, h, size, n);
      && r.ws == w.ws[h := s.(buf := After(s.buf, size, n), seqNo := s.seqNo + n)] && r.lockers == w.lockers
      && r.bank == w.bank.(store := ApplyAll(w.bank.store, PieceOps(s.valueId, s.seqNo, WholePieces(s.buf, size)[..n])))
    decreases n
  {
    var s := w.ws[h];
    var pieces := WholePieces(s.buf, size);
    if n == 0 {
      assert pieces[..0] == [] && PieceOps(s.valueId, s.seqNo, []) == [];
    } else {
      WriteIsSteps(w, h, size, n - 1);
      var before := FlushTimes(w, h, size, n - 1);
      assert FlushTimes(w, h, size, n) == Steps.Flushed(before, h, size) by { EnoughLeft(s.buf, size, n - 1); }
      OneStepMore(w, before, h, size, n);
    }
  }

  lemma OneStepMore(w: Steps.World, before: Steps.World, h: nat, size: nat, n: nat)
    requires h in w.ws && size >= 1 && 0 < n <= |WholePieces(w.ws[h].buf, size)|
    requires var s := w.ws[h];
      && before.ws == w.ws[h := s.(buf := After(s.buf, size, n - 1), seqNo := s.seqNo + n - 1)]
      && before.lockers == w.lockers && |After(s.buf, size, n - 1)| >= size
      && before.bank.store == ApplyAll(w.bank.store, PieceOps(s.valueId, s.seqNo, WholePieces(s.buf, size)[..n - 1]))
      && before.bank == w.bank.(store := before.bank.store)
    ensures var s, r := w.ws[h], Steps.Flushed(before, h, size);
      && r.ws == w.ws[h := s.(buf := After(s.buf, size, n), seqNo := s.seqNo + n)] && r.lockers == w.lockers
      && r.bank == w.bank.(store := ApplyAll(w.bank.store, PieceOps(s.valueId, s.seqNo, WholePieces(s.buf, size)[..n])))
  {
    var s := w.ws[h];
    OnePieceMore(s.buf, size, n - 1);
    NextPieceOp(w.bank.store, s.valueId, s.seqNo, WholePieces(s.buf, size), n - 1);
  }

  lemma {:induction false} EnoughLeft(buf: Payload, size: nat, n: nat)
    requires size >= 1 && n < |WholePieces(buf, size)|
    ensures |After(buf, size, n)| >= size
    decreases n
  {
    if n > 0 { EnoughLeft(buf[size..], size, n - 1); }
  }
}
