/** Reading a chunked value back, whole or a piece at a time. */
module Reading {
  import opened Wrappers
  import opened Bytes
  import opened Storage
  import opened Inner
  import opened Codec

  /** How many chunks one backend call fetches. */
  const CHUNK_FETCH_GROUP: nat := 64

  /** A value's sealed pieces, by sequence number. */
  type Sealed = map<nat, Blob>

  /** The first `n` pieces, opened and joined; `None` when one is missing or does not open. */
  function Assembled(c: FilterChain, rows: Sealed, n: nat): Option<Blob>
  {
    if n == 0 then Some([])
    else
      Both(Assembled(c, rows, n - 1), PieceAt(c, rows, n - 1))
  }

  /** What a read answers: the value, if it is whole and as long as its pointer declares. */
  function ValueOf(c: FilterChain, rows: Sealed, p: Codec.ChunkPointer): Option<Blob>
  {
    match Assembled(c, rows, p.nChunks)
    case Some(value) => if |value| == p.totalLen then Some(value) else None
    case None => None
  }

  /** A failure or an overlong head is never made good by later pieces. */
  lemma {:induction false} AssembledGrows(c: FilterChain, rows: Sealed, m: nat, n: nat)
    requires m <= n
    ensures Assembled(c, rows, n).Some? ==>
              Assembled(c, rows, m).Some? && |Assembled(c, rows, m).value| <= |Assembled(c, rows, n).value|
    decreases n
  {
    if m < n { AssembledGrows(c, rows, m, n - 1); }
  }

  /** One backend call: the rows asked for, each present or not. */
  method GetMany(rows: Sealed, from: nat, upto: nat) returns (pieces: seq<Option<Blob>>)
    requires from <= upto
    ensures |pieces| == upto - from
    ensures forall i :: 0 <= i < |pieces| ==> pieces[i] == if from + i in rows then Some(rows[from + i]) else None
  {
    pieces := [];
    for s := from to upto
      invariant |pieces| == s - from
      invariant forall i :: 0 <= i < |pieces| ==> pieces[i] == if from + i in rows then Some(rows[from + i]) else None
    {
      pieces := pieces + [if s in rows then Some(rows[s]) else None];
    }
  }

  /** The first `at` pieces are there, open and joined, and no longer than the pointer declares. */
  ghost predicate ReadUpTo(c: FilterChain, rows: Sealed, p: Codec.ChunkPointer, at: nat, head: Blob)
  {
    Assembled(c, rows, at) == Some(head) && (at > 0 ==> |head| <= p.totalLen)
  }

  /** Reassemble a value in bounded groups, never growing past what its pointer declares. */
  method ReadChunks(c: FilterChain, rows: Sealed, p: Codec.ChunkPointer) returns (r: Option<Blob>)
    ensures r == ValueOf(c, rows, p)
  {
    var head: Blob := [];
    var at := 0;
    while at < p.nChunks
      invariant at <= p.nChunks && ReadUpTo(c, rows, p, at, head)
    {
      var upto := if at + CHUNK_FETCH_GROUP <= p.nChunks then at + CHUNK_FETCH_GROUP else p.nChunks;
      var longer := ReadGroup(c, rows, p, at, upto, head);
      if longer.None? { return None; }
      at, head := upto, longer.value;
    }
    return if |head| == p.totalLen then Some(head) else None;
  }

  /** One group: every piece must be there, open, and leave the value within its declared length. */
  method ReadGroup(c: FilterChain, rows: Sealed, p: Codec.ChunkPointer, from: nat, upto: nat, head: Blob)
    returns (longer: Option<Blob>)
    requires from <= upto <= p.nChunks && ReadUpTo(c, rows, p, from, head)
    ensures longer.Some? ==> ReadUpTo(c, rows, p, upto, longer.value)
    ensures longer.None? ==> ValueOf(c, rows, p) == None
  {
    var out := head;
    var pieces := GetMany(rows, from, upto);
    for i := 0 to |pieces|
      invariant ReadUpTo(c, rows, p, from + i, out)
    {
      AssembledGrows(c, rows, from + i + 1, p.nChunks);
      if pieces[i].None? { return None; }
      var answer := Open(c, pieces[i].value);
      if !answer.Ok? { return None; }
      out := out + answer.payload;
      if |out| > p.totalLen { return None; }
    }
    return Some(out);
  }

  /** Every piece of `pieces` is sealed under its number. */
  ghost predicate SealsAll(c: FilterChain, rows: Sealed, pieces: seq<Blob>)
  {
    forall i :: 0 <= i < |pieces| ==>
      && i in rows && SealOf(c, pieces[i]) == Some(rows[i]) && InvertsAlong(c.filters, pieces[i])
  }

  lemma {:induction false} AssembledIsJoin(c: FilterChain, rows: Sealed, pieces: seq<Blob>, n: nat)
    requires SealsAll(c, rows, pieces) && n <= |pieces|
    ensures Assembled(c, rows, n) == Some(Join(PieceRows(pieces), n))
    decreases n
  {
    if n > 0 {
      AssembledIsJoin(c, rows, pieces, n - 1);
      PieceOpens(c, rows, pieces, n - 1);
      JoinMore(pieces, n);
    }
  }

  lemma JoinMore(pieces: seq<Blob>, n: nat)
    requires 0 < n <= |pieces|
    ensures Join(PieceRows(pieces), n) == Join(PieceRows(pieces), n - 1) + pieces[n - 1]
  {
  }

  lemma PieceOpens(c: FilterChain, rows: Sealed, pieces: seq<Blob>, i: nat)
    requires SealsAll(c, rows, pieces) && i < |pieces|
    ensures PieceAt(c, rows, i) == Some(pieces[i])
  {
    SealOpens(c, c, pieces[i]);
  }

  /** A payload cut into pieces, sealed piece by piece, is read back whole, under any chain that inverts. */
  lemma ChunkedRoundTrip(c: FilterChain, rows: Sealed, payload: Blob, size: nat, p: Codec.ChunkPointer)
    requires size >= 1 && SealsAll(c, rows, Cut(payload, size))
    requires p.nChunks == |Cut(payload, size)| && p.totalLen == |payload|
    ensures ValueOf(c, rows, p) == Some(payload)
  {
    AssembledIsJoin(c, rows, Cut(payload, size), p.nChunks);
    JoinCut(payload, size);
  }

  /** The pointer a put stores is one a reader accepts exactly when the payload is within the decoding limit. */
  lemma PutPointerParses(payload: Blob, size: nat, v: nat, flags: nat)
    requires size >= 1 && v <= U64_MAX && flags < 256 && |payload| <= U64_MAX && |Cut(payload, size)| <= U32_MAX
    ensures var p := Storage.ChunkPointer(v, |Cut(payload, size)|, |payload|, flags);
      ParsePointer(EncodePointer(p)) == Codec.Pointer(p) <==> |payload| <= MAX_DECODED_BYTES
  {
    CutSizes(payload, size);
    PointerRoundTrip(Storage.ChunkPointer(v, |Cut(payload, size)|, |payload|, flags));
  }

  // ---- piece by piece ------------------------------------------------

  datatype Next = Piece(bytes: Blob) | End | Missing

  /** Yields a value without ever holding it whole; what was stored inline comes in one go. */
  class Reader {
    const chain: FilterChain
    const rows: Sealed
    const pointer: Codec.ChunkPointer
    var at: nat
    var inline: Option<Blob>

    constructor FromPointer(chain: FilterChain, rows: Sealed, pointer: Codec.ChunkPointer)
      ensures this.chain == chain && this.rows == rows && this.pointer == pointer
      ensures at == 0 && inline == None
    {
      this.chain, this.rows, this.pointer := chain, rows, pointer;
      at, inline := 0, None;
    }

    constructor FromInline(chain: FilterChain, payload: Blob)
      ensures pointer == Storage.ChunkPointer(0, 0, |payload|, FLAG_RAW)
      ensures at == 0 && inline == Some(payload)
    {
      this.chain, rows, pointer := chain, map[], Storage.ChunkPointer(0, 0, |payload|, FLAG_RAW);
      at, inline := 0, Some(payload);
    }

    /** What a full read from here on yields, if every piece is there. */
    ghost function Rest(): Option<Blob>
      reads this
    {
      var tail := if at < pointer.nChunks then Between(chain, rows, at, pointer.nChunks) else Some([]);
      if inline.Some? then Both(inline, tail) else tail
    }

    method NextChunk() returns (r: Next)
      modifies this
      ensures r.Piece? ==> old(Rest()) == Both(Some(r.bytes), Rest())
      ensures r.End? ==> old(Rest()) == Some([]) && Rest() == old(Rest())
      ensures r.Missing? ==> old(Rest()) == None
      ensures r.Piece? ==> Left() < old(Left())
    {
      if inline.Some? {
        r := Piece(inline.value);
        inline := None;
        return;
      }
      if at >= pointer.nChunks { return End; }
      if at !in rows { return Missing; }
      var answer := Open(chain, rows[at]);
      at := at + 1;
      r := if answer.Ok? then Piece(answer.payload) else Missing;
      assert Between(chain, rows, pointer.nChunks, pointer.nChunks) == Some([]);
    }

    ghost function Left(): nat
      reads this
    {
      (if inline.Some? then 1 else 0) + if at < pointer.nChunks then pointer.nChunks - at else 0
    }

    /** Draining a reader gives the value. */
    method Drain() returns (r: Option<Blob>)
      modifies this
      ensures r == old(Rest())
    {
      var out: Blob := [];
      BothUnits(Rest());
      while true
        invariant old(Rest()) == Both(Some(out), Rest())
        decreases Left()
      {
        var next := NextChunk();
        BothUnits(Some(out));
        match next
        case Piece(bytes) =>
          BothAssociates(Some(out), Some(bytes), Rest());
          out := out + bytes;
        case End => return Some(out);
        case Missing => return None;
      }
    }
  }

  /** Pieces `lo..hi`, opened and joined. */
  function Between(c: FilterChain, rows: Sealed, lo: nat, hi: nat): Option<Blob>
    requires lo <= hi
    decreases hi - lo
  {
    if lo >= hi then Some([]) else Both(PieceAt(c, rows, lo), Between(c, rows, lo + 1, hi))
  }

  function PieceAt(c: FilterChain, rows: Sealed, i: nat): Option<Blob>
  {
    if i !in rows then None
    else
      match OpenOf(c, rows[i])
      case Ok(piece) => Some(piece)
      case _ => None
  }

  function Both(a: Option<Blob>, b: Option<Blob>): Option<Blob>
  {
    if a.None? || b.None? then None else Some(a.value + b.value)
  }

  /** Reading piece by piece and reading whole see the same bytes. */
  lemma {:induction false} ReaderAgrees(c: FilterChain, rows: Sealed, n: nat, m: nat)
    requires m <= n
    ensures Assembled(c, rows, n) == Both(Assembled(c, rows, m), Between(c, rows, m, n))
    decreases n - m
  {
    if m < n {
      ReaderAgrees(c, rows, n, m + 1);
      BothAssociates(Assembled(c, rows, m), PieceAt(c, rows, m), Between(c, rows, m + 1, n));
    } else if Assembled(c, rows, m).Some? {
      assert Assembled(c, rows, m).value + [] == Assembled(c, rows, m).value;
    }
  }

  lemma BothUnits(a: Option<Blob>)
    ensures Both(Some([]), a) == a && Both(a, Some([])) == a
  {
    if a.Some? { assert [] + a.value == a.value && a.value + [] == a.value; }
  }

  lemma BothAssociates(a: Option<Blob>, b: Option<Blob>, d: Option<Blob>)
    ensures Both(Both(a, b), d) == Both(a, Both(b, d))
  {
    if a.Some? && b.Some? && d.Some? { assert (a.value + b.value) + d.value == a.value + (b.value + d.value); }
  }
}
