/**
 What is stored under a key: an envelope around a filtered payload, or a pointer to its chunks.
 */
module Codec {
  import opened Wrappers
  import opened Bytes
  import Storage

  type Blob = seq<byte>

  /** A byte transform and its inverse, each borrowing its input or consuming it. `None` is a refusal. */
  datatype Filter = Filter(
    forward: Blob -> Option<Blob>, reverse: Blob -> Option<Blob>,
    forwardOwned: Blob -> Option<Blob>, reverseOwned: Blob -> Option<Blob>)

  datatype FilterChain = FilterChain(id: byte, filters: seq<Filter>)

  datatype Opened = Ok(payload: Blob) | TooShort | NoMagic | UnsupportedVersion | OtherChain | Refused

  const MAGIC: Blob := [67, 66, 78, 75]
  const VERSION: byte := 1
  const HEADER_LEN: nat := 6

  /** The payload after every filter of the chain, in order. */
  function Filtered(filters: seq<Filter>, payload: Blob): Option<Blob>
    decreases |filters|
  {
    if filters == [] then Some(payload)
    else
      match Filtered(filters[..|filters| - 1], payload)
      case Some(body) => filters[|filters| - 1].forwardOwned(body)
      case None => None
  }

  /** A stored body after every inverse, last filter first. */
  function Unfiltered(filters: seq<Filter>, body: Blob): Option<Blob>
    decreases |filters|
  {
    if filters == [] then Some(body)
    else
      match filters[|filters| - 1].reverseOwned(body)
      case Some(inner) => Unfiltered(filters[..|filters| - 1], inner)
      case None => None
  }

  function Header(id: byte): Blob { MAGIC + [VERSION, id] }

  function SealOf(c: FilterChain, payload: Blob): Option<Blob>
  {
    match Filtered(c.filters, payload)
    case Some(body) => Some(Header(c.id) + body)
    case None => None
  }

  function OpenOf(c: FilterChain, stored: Blob): Opened
  {
    if |stored| < HEADER_LEN then TooShort
    else if stored[..4] != MAGIC then NoMagic
    else if stored[4] != VERSION then UnsupportedVersion
    else if stored[5] != c.id then OtherChain
    else
      match Unfiltered(c.filters, stored[HEADER_LEN..])
      case Some(payload) => Ok(payload)
      case None => Refused
  }

  method Seal(c: FilterChain, payload: Blob) returns (r: Option<Blob>)
    ensures r == SealOf(c, payload)
  {
    var body := payload;
    for i := 0 to |c.filters|
      invariant Filtered(c.filters[..i], payload) == Some(body)
    {
      assert c.filters[..i + 1][..i] == c.filters[..i];
      var next := c.filters[i].forwardOwned(body);
      if next.None? {
        FilteredFails(c.filters, payload, i + 1);
        return None;
      }
      body := next.value;
    }
    assert c.filters[..|c.filters|] == c.filters;
    return Some(Header(c.id) + body);
  }

  lemma {:induction false} FilteredFails(filters: seq<Filter>, payload: Blob, n: nat)
    requires n <= |filters| && Filtered(filters[..n], payload) == None
    ensures Filtered(filters, payload) == None
    decreases |filters|
  {
    if n == |filters| {
      assert filters[..n] == filters;
    } else {
      assert filters[..|filters| - 1][..n] == filters[..n];
      FilteredFails(filters[..|filters| - 1], payload, n);
    }
  }

  method Open(c: FilterChain, stored: Blob) returns (r: Opened)
    ensures r == OpenOf(c, stored)
  {
    if |stored| < HEADER_LEN { return TooShort; }
    if stored[..4] != MAGIC { return NoMagic; }
    if stored[4] != VERSION { return UnsupportedVersion; }
    if stored[5] != c.id { return OtherChain; }
    var body := stored[HEADER_LEN..];
    var i := |c.filters|;
    assert c.filters[..i] == c.filters;
    while i > 0
      invariant i <= |c.filters|
      invariant Unfiltered(c.filters[..i], body) == Unfiltered(c.filters, stored[HEADER_LEN..])
    {
      assert c.filters[..i][..i - 1] == c.filters[..i - 1];
      var next := c.filters[i - 1].reverseOwned(body);
      if next.None? { return Refused; }
      i, body := i - 1, next.value;
    }
    return Ok(body);
  }

  /** The filter gives this very buffer back. */
  predicate InvertsOn(f: Filter, b: Blob)
  {
    f.forwardOwned(b).Some? ==> f.reverseOwned(f.forwardOwned(b).value) == Some(b)
  }

  /** So does every filter of the chain, on what reaches it. */
  predicate InvertsAlong(filters: seq<Filter>, payload: Blob)
    decreases |filters|
  {
    filters == [] ||
    (InvertsAlong(filters[..|filters| - 1], payload) &&
     (Filtered(filters[..|filters| - 1], payload).Some? ==>
        InvertsOn(filters[|filters| - 1], Filtered(filters[..|filters| - 1], payload).value)))
  }

  lemma {:induction false} FilterRoundTrip(filters: seq<Filter>, payload: Blob)
    requires InvertsAlong(filters, payload) && Filtered(filters, payload).Some?
    ensures Unfiltered(filters, Filtered(filters, payload).value) == Some(payload)
    decreases |filters|
  {
    if filters != [] { FilterRoundTrip(filters[..|filters| - 1], payload); }
  }

  /** What a chain seals it opens; any other chain refuses it, and it is never taken for a pointer. */
  lemma SealOpens(c: FilterChain, d: FilterChain, payload: Blob)
    requires InvertsAlong(c.filters, payload) && SealOf(c, payload).Some?
    ensures var sealed := SealOf(c, payload).value;
      && OpenOf(c, sealed) == Ok(payload)
      && (d.id != c.id ==> OpenOf(d, sealed) == OtherChain)
      && !IsPointer(sealed)
  {
    var sealed, body := SealOf(c, payload).value, Filtered(c.filters, payload).value;
    FilterRoundTrip(c.filters, payload);
    OpenAfterSeal(c, payload, body);
    assert sealed[..4] == MAGIC && sealed[4] == VERSION && sealed[5] == c.id;
  }

  // ---- the filters shipped -------------------------------------------

  function ToLE(n: nat, width: nat): (s: Blob)
    ensures |s| == width
  {
    if width == 0 then [] else [n % 256] + ToLE(n / 256, width - 1)
  }

  function FromLE(s: Blob): nat
  {
    if s == [] then 0 else s[0] + 256 * FromLE(s[1..])
  }

  lemma {:induction false} LERoundTrip(n: nat, width: nat)
    requires n < Pow256(width)
    ensures FromLE(ToLE(n, width)) == n
    decreases width
  {
    if width > 0 { LERoundTrip(n / 256, width - 1); }
  }

  lemma {:induction false} LEInverse(s: Blob)
    ensures FromLE(s) < Pow256(|s|) && ToLE(FromLE(s), |s|) == s
    decreases |s|
  {
    if s != [] {
      LEInverse(s[1..]);
      LowByte(s[0], FromLE(s[1..]));
      assert s == [s[0]] + s[1..];
    }
  }

  lemma LowByte(b: byte, n: nat)
    ensures (b + 256 * n) % 256 == b && (b + 256 * n) / 256 == n
  {
  }

  type Hash = h: Blob -> nat | forall b :: h(b) <= U32_MAX witness (b: Blob) => 0

  /** The body a trailing checksum covers, if it matches. */
  function Verify(hash: Hash, input: Blob): Option<Blob>
  {
    if |input| < 4 then None
    else
      var split := |input| - 4;
      if FromLE(input[split..]) == hash(input[..split]) then Some(input[..split]) else None
  }

  function Crc32(hash: Hash): Filter
  {
    Filter(
      (input: Blob) => Some(input + ToLE(hash(input), 4)),
      (input: Blob) => match Verify(hash, input) { case Some(body) => Some(body) case None => None },
      (input: Blob) => Some(input + ToLE(hash(input), 4)),
      (input: Blob) => match Verify(hash, input) { case Some(body) => Some(input[..|body|]) case None => None })
  }

  /**
   The checksum filter's borrowing and owning halves are the same functions, and it accepts exactly the buffers it
   would itself have produced.
   */
  lemma CrcExact(hash: Hash, b: Blob, input: Blob)
    ensures var f := Crc32(hash);
      && f.forwardOwned(b) == f.forward(b) && f.reverseOwned(input) == f.reverse(input)
      && (f.reverseOwned(input) == Some(b) <==> f.forwardOwned(b) == Some(input))
      && InvertsOn(f, b)
    ensures Crc32(hash).forwardOwned(b) == Some(b + ToLE(hash(b), 4))
    ensures Crc32(hash).reverseOwned(input).Some? <==>
              |input| >= 4 && FromLE(input[|input| - 4..]) == hash(input[..|input| - 4])
  {
    Widths();
    LERoundTrip(hash(b), 4);
    var out := b + ToLE(hash(b), 4);
    assert out[..|b|] == b && out[|b|..] == ToLE(hash(b), 4);
    if |input| >= 4 {
      var split := |input| - 4;
      LEInverse(input[split..]);
      assert input == input[..split] + input[split..];
    }
  }

  /** A block compressor that gives a buffer back when told its length. */
  datatype Compressor = Compressor(compress: Blob -> Blob, decompress: (nat, Blob) -> Option<Blob>)

  ghost predicate Lossless(z: Compressor)
  {
    forall b :: z.decompress(|b|, z.compress(b)) == Some(b)
  }

  /** The length, cut to 32 bits, then the block. */
  function Deflate(z: Compressor, input: Blob): Blob
  {
    ToLE(|input| % (U32_MAX + 1), 4) + z.compress(input)
  }

  function Inflate(z: Compressor, input: Blob): Option<Blob>
  {
    if |input| < 4 || FromLE(input[..4]) > Storage.MAX_DECODED_BYTES then None
    else z.decompress(FromLE(input[..4]), input[4..])
  }

  function Lz4(z: Compressor): Filter
  {
    var deflate := (input: Blob) => Some(Deflate(z, input));
    var inflate := (input: Blob) => Inflate(z, input);
    Filter(deflate, inflate, deflate, inflate)
  }

  lemma Split(head: Blob, rest: Blob)
    ensures (head + rest)[..|head|] == head && (head + rest)[|head|..] == rest
  {
  }

  lemma DeflateThenInflate(z: Compressor, b: Blob)
    requires Lossless(z) && |b| <= U32_MAX
    ensures Inflate(z, Deflate(z, b)) == if |b| <= Storage.MAX_DECODED_BYTES then Some(b) else None
  {
    Widths();
    var prefix := ToLE(|b| % (U32_MAX + 1), 4);
    LERoundTrip(|b| % (U32_MAX + 1), 4);
    assert FromLE(prefix) == |b|;
    Split(prefix, z.compress(b));
  }

  /** Compression gives back exactly the buffers within the decoding limit. */
  lemma Lz4Exact(z: Compressor, b: Blob)
    requires Lossless(z) && |b| <= U32_MAX
    ensures Lz4(z).forwardOwned(b).Some?
    ensures Lz4(z).reverseOwned(Lz4(z).forwardOwned(b).value) ==
              if |b| <= Storage.MAX_DECODED_BYTES then Some(b) else None
  {
    DeflateThenInflate(z, b);
  }

  function DefaultChain(z: Compressor, hash: Hash): FilterChain { FilterChain(1, [Lz4(z), Crc32(hash)]) }

  /** Two filters, one after the other. */
  lemma TwoFilters(f: Filter, g: Filter, payload: Blob, mid: Blob, out: Blob)
    requires f.forwardOwned(payload) == Some(mid)
    requires g.forwardOwned(mid) == Some(out) && g.reverseOwned(out) == Some(mid)
    ensures Filtered([f, g], payload) == Some(out)
    ensures Unfiltered([f, g], out) == f.reverseOwned(mid)
  {
    assert [f, g][..1] == [f] && [f][..0] == [];
    assert Filtered([], payload) == Some(payload) && Filtered([f], payload) == Some(mid);
    assert Unfiltered([f], mid) == f.reverseOwned(mid) by {
      if f.reverseOwned(mid).Some? { assert Unfiltered([], f.reverseOwned(mid).value) == f.reverseOwned(mid); }
    }
  }

  lemma OpenAfterSeal(c: FilterChain, payload: Blob, body: Blob)
    requires Filtered(c.filters, payload) == Some(body)
    ensures SealOf(c, payload).Some?
    ensures OpenOf(c, SealOf(c, payload).value) ==
              match Unfiltered(c.filters, body) { case Some(p) => Ok(p) case None => Refused }
  {
    var sealed := SealOf(c, payload).value;
    assert sealed[..4] == MAGIC && sealed[4] == VERSION && sealed[5] == c.id && sealed[HEADER_LEN..] == body;
  }

  /** Whatever is sealed under the default chain opens again exactly when it is within the decoding limit. */
  lemma DefaultChainExact(z: Compressor, hash: Hash, payload: Blob)
    requires Lossless(z) && |payload| <= U32_MAX
    ensures var c := DefaultChain(z, hash);
      && SealOf(c, payload).Some?
      && OpenOf(c, SealOf(c, payload).value) == if |payload| <= Storage.MAX_DECODED_BYTES then Ok(payload) else Refused
  {
    var f, g := Lz4(z), Crc32(hash);
    Lz4Exact(z, payload);
    var mid := f.forwardOwned(payload).value;
    var out := g.forwardOwned(mid).value;
    CrcExact(hash, mid, out);
    TwoFilters(f, g, payload, mid, out);
    OpenAfterSeal(DefaultChain(z, hash), payload, out);
  }

  /** What the default chain stores: the header, the length and the block, and the checksum of those two. */
  lemma DefaultChainLayout(z: Compressor, hash: Hash, payload: Blob, block: Blob)
    requires Lz4(z).forwardOwned(payload) == Some(block)
    ensures SealOf(DefaultChain(z, hash), payload) == Some([67, 66, 78, 75, 1, 1] + block + ToLE(hash(block), 4))
  {
    var sum := ToLE(hash(block), 4);
    CrcExact(hash, block, block + sum);
    SealedBlock(z, hash, payload, block, sum);
  }

  lemma SealedBlock(z: Compressor, hash: Hash, payload: Blob, block: Blob, sum: Blob)
    requires Lz4(z).forwardOwned(payload) == Some(block) && Crc32(hash).forwardOwned(block) == Some(block + sum)
    requires Crc32(hash).reverseOwned(block + sum) == Some(block)
    ensures SealOf(DefaultChain(z, hash), payload) == Some([67, 66, 78, 75, 1, 1] + block + sum)
  {
    TwoFilters(Lz4(z), Crc32(hash), payload, block, block + sum);
    assert Header(1) == [67, 66, 78, 75, 1, 1];
    assert Header(1) + (block + sum) == [67, 66, 78, 75, 1, 1] + block + sum;
  }

  // ---- chunk pointers ------------------------------------------------

  type ChunkPointer = Storage.ChunkPointer

  const POINTER_MAGIC: Blob := [67, 67, 72, 75]
  const POINTER_VERSION: byte := 1
  const POINTER_LEN: nat := 26

  datatype Parsed = Pointer(p: ChunkPointer) | NotAPointer | PointerVersion | TooLong | TooManyChunks

  predicate IsPointer(raw: Blob) { |raw| >= 4 && raw[..4] == POINTER_MAGIC }

  /** The fields fit the widths the pointer stores. */
  predicate Fits(p: ChunkPointer)
  {
    p.valueId <= U64_MAX && p.nChunks <= U32_MAX && p.totalLen <= U64_MAX && p.flags < 256
  }

  function EncodePointer(p: ChunkPointer): Blob
    requires Fits(p)
  {
    POINTER_MAGIC + [POINTER_VERSION, p.flags] + ToBE(p.valueId, 8) + ToBE(p.nChunks, 4) + ToBE(p.totalLen, 8)
  }

  function ParsePointer(raw: Blob): Parsed
  {
    if |raw| != POINTER_LEN || raw[..4] != POINTER_MAGIC then NotAPointer
    else if raw[4] != POINTER_VERSION then PointerVersion
    else
      var nChunks, totalLen := FromBE(raw[14..18]), FromBE(raw[18..26]);
      if totalLen > Storage.MAX_DECODED_BYTES then TooLong
      else if nChunks > totalLen then TooManyChunks
      else Pointer(Storage.ChunkPointer(FromBE(raw[6..14]), nChunks, totalLen, raw[5]))
  }

  lemma Fields(p: ChunkPointer)
    requires Fits(p)
    ensures var raw := EncodePointer(p);
      && |raw| == POINTER_LEN && raw[..4] == POINTER_MAGIC && raw[4] == POINTER_VERSION && raw[5] == p.flags
      && raw[6..14] == ToBE(p.valueId, 8) && raw[14..18] == ToBE(p.nChunks, 4) && raw[18..26] == ToBE(p.totalLen, 8)
  {
    FieldsOf(POINTER_MAGIC, [POINTER_VERSION, p.flags], ToBE(p.valueId, 8), ToBE(p.nChunks, 4), ToBE(p.totalLen, 8));
  }

  lemma FieldsOf(a: Blob, b: Blob, c: Blob, d: Blob, e: Blob)
    requires |a| == 4 && |b| == 2 && |c| == 8 && |d| == 4 && |e| == 8
    ensures var raw := a + b + c + d + e;
      && |raw| == 26 && raw[..4] == a && raw[4..6] == b && raw[6..14] == c && raw[14..18] == d && raw[18..26] == e
  {
  }

  /** A pointer is read back exactly when it is within the limit and no chunk is empty. */
  lemma PointerRoundTrip(p: ChunkPointer)
    requires Fits(p)
    ensures ParsePointer(EncodePointer(p)) == Pointer(p) <==> Storage.Parses(p)
    ensures ParsePointer(EncodePointer(p)).Pointer? <==> Storage.Parses(p)
    ensures IsPointer(EncodePointer(p))
  {
    Fields(p);
    Widths();
    BERoundTrip(p.valueId, 8);
    BERoundTrip(p.nChunks, 4);
    BERoundTrip(p.totalLen, 8);
  }

  /** Only the encoding of a pointer parses as that pointer. */
  lemma ParseIsExact(raw: Blob, p: ChunkPointer)
    requires ParsePointer(raw) == Pointer(p)
    ensures Fits(p) && raw == EncodePointer(p)
  {
    Widths();
    assert p.valueId <= U64_MAX && raw[6..14] == ToBE(p.valueId, 8) by { BEInverse(raw[6..14]); }
    assert p.nChunks <= U32_MAX && raw[14..18] == ToBE(p.nChunks, 4) by { BEInverse(raw[14..18]); }
    assert p.totalLen <= U64_MAX && raw[18..26] == ToBE(p.totalLen, 8) by { BEInverse(raw[18..26]); }
    InFields(raw);
    assert raw[4..6] == [POINTER_VERSION, p.flags];
  }

  lemma InFields(raw: Blob)
    requires |raw| == POINTER_LEN
    ensures raw == raw[..4] + raw[4..6] + raw[6..14] + raw[14..18] + raw[18..26]
  {
  }
}
