/** Base64 as `openmath/src/base64.rs` implements it: the alphabet and padding of
    section 4 of RFC 4648, written as adapters over byte iterators. An iterator over
    bytes is modelled as the sequence of bytes it still has to yield. */
module Base64 {
  import opened Wrappers
  import Text

  type byte = bv8

  /** The padding symbol `=`. */
  const PAD: byte := 61

  /** `TABLE`: the symbol for each 6-bit value, `A`-`Z`, `a`-`z`, `0`-`9`, `+`, `/`
      (ASCII 65-90, 97-122, 48-57, 43, 47). */
  function Table(i: byte): (c: byte)
    requires i < 64
    ensures c < 0x80 && c != PAD
  {
    if i < 26 then i + 65
    else if i < 52 then i + 71
    else if i < 62 then i - 4
    else if i == 62 then 43
    else 47
  }

  /** The value `INVERSE_TABLE` holds for byte `c`: the index of `c` in `TABLE`, or
      255 for a byte that is not a symbol, written out by the ranges of the alphabet. */
  function InverseTable(c: byte): byte {
    if 65 <= c <= 90 then c - 65
    else if 97 <= c <= 122 then c - 71
    else if 48 <= c <= 57 then c + 4
    else if c == 43 then 62
    else if c == 47 then 63
    else 255
  }

  /** Every symbol maps back to its own index. */
  lemma TableInverse(i: byte)
    requires i < 64
    ensures InverseTable(Table(i)) == i
  {
  }

  /** A byte the inverse table accepts is a symbol, and it is the symbol at the index
      the table gives; a byte it rejects is no symbol at all. */
  lemma InverseTableSound(c: byte)
    ensures InverseTable(c) != 255 ==> InverseTable(c) < 64 && Table(InverseTable(c)) == c
    ensures InverseTable(c) == 255 <==> forall i: byte :: i < 64 ==> Table(i) != c
  {
  }

  /** The loop that builds `INVERSE_TABLE`: start from 255 everywhere and write each
      symbol's index at that symbol. */
  method BuildInverseTable() returns (ret: array<byte>)
    ensures fresh(ret) && ret.Length == 256
    ensures forall c: byte :: ret[c as int] == InverseTable(c)
  {
    ret := new byte[256](_ => 255);
    var i: byte := 0;
    while i < 64
      invariant 0 <= i <= 64
      invariant forall c: byte :: ret[c as int] == if InverseTable(c) < i then InverseTable(c) else 255
    {
      TableInverse(i);
      ret[Table(i) as int] := i;
      i := i + 1;
    }
  }

  // ----- encoding ---------------------------------------------------------------

  /** `Chunk`: up to three input bytes. */
  datatype Chunk = One(a: byte) | Two(a: byte, b: byte) | Three(a: byte, b: byte, c: byte)

  function ChunkBytes(c: Chunk): (s: seq<byte>)
    ensures 1 <= |s| <= 3
  {
    match c
    case One(a) => [a]
    case Two(a, b) => [a, b]
    case Three(a, b, c) => [a, b, c]
  }

  /** The chunks `Chunked` yields over the bytes `s`, in order. */
  function Chunks(s: seq<byte>): seq<Chunk>
    decreases |s|
  {
    if |s| == 0 then []
    else if |s| == 1 then [One(s[0])]
    else if |s| == 2 then [Two(s[0], s[1])]
    else [Three(s[0], s[1], s[2])] + Chunks(s[3..])
  }

  function ConcatChunks(cs: seq<Chunk>): seq<byte> {
    if cs == [] then [] else ChunkBytes(cs[0]) + ConcatChunks(cs[1..])
  }

  /** The chunks partition the input: concatenated they give it back, there are
      ceil(n/3) of them, and every chunk but the last is full. */
  lemma {:induction false} ChunksPartition(s: seq<byte>)
    ensures ConcatChunks(Chunks(s)) == s
    ensures |Chunks(s)| == (|s| + 2) / 3
    ensures forall i :: 0 <= i < |Chunks(s)| - 1 ==> Chunks(s)[i].Three?
    decreases |s|
  {
    if |s| > 3 {
      ChunksPartition(s[3..]);
      assert s == [s[0], s[1], s[2]] + s[3..];
    } else if |s| == 3 {
      assert s[3..] == [];
    }
  }

  /** The four symbols `Base64Encoder::next` yields for a chunk. */
  function EncodeChunk(c: Chunk): (q: seq<byte>)
    ensures |q| == 4
  {
    match c
    case One(a) => [Table(a >> 2), Table((a << 4) & 0x3F), PAD, PAD]
    case Two(a, b) =>
      [Table(a >> 2), Table(((a << 4) | (b >> 4)) & 0x3F),
       Table((b << 2) & 0x3F), PAD]
    case Three(a, b, c) =>
      [Table(a >> 2), Table(((a << 4) | (b >> 4)) & 0x3F),
       Table(((b << 2) | (c >> 6)) & 0x3F), Table(c & 0x3F)]
  }

  function EncodeChunks(cs: seq<Chunk>): seq<byte> {
    if cs == [] then [] else EncodeChunk(cs[0]) + EncodeChunks(cs[1..])
  }

  /** The encoding of `s`: every symbol the encoder yields, flattened. */
  function Encode(s: seq<byte>): seq<byte> {
    EncodeChunks(Chunks(s))
  }

  /** The encoding is ASCII. */
  lemma {:induction false} EncodeChunksAscii(cs: seq<Chunk>)
    ensures forall i :: 0 <= i < |EncodeChunks(cs)| ==> EncodeChunks(cs)[i] < 0x80
  {
    if cs != [] {
      EncodeChunksAscii(cs[1..]);
      var q := EncodeChunk(cs[0]);
      assert forall i :: 0 <= i < 4 ==> q[i] < 0x80;
      assert EncodeChunks(cs) == q + EncodeChunks(cs[1..]);
    }
  }

  /** The encoding as a string (`Base64Encoder::into_string`). */
  function EncodeString(s: seq<byte>): string {
    Chars(Encode(s))
  }

  /** Bytes as the characters of the same code. */
  function Chars(bs: seq<byte>): (r: string)
    ensures |r| == |bs|
    ensures forall i :: 0 <= i < |bs| ==> r[i] == bs[i] as char
  {
    seq(|bs|, i requires 0 <= i < |bs| => bs[i] as char)
  }

  lemma CharsAppend(a: seq<byte>, b: seq<byte>)
    ensures Chars(a + b) == Chars(a) + Chars(b)
  {
  }

  predicate IsSymbol(c: byte) {
    InverseTable(c) != 255
  }

  lemma {:induction false} EncodeChunksLength(cs: seq<Chunk>)
    ensures |EncodeChunks(cs)| == 4 * |cs|
  {
    if cs != [] {
      EncodeChunksLength(cs[1..]);
    }
  }

  /** The encoding is 4 * ceil(n/3) symbols long. */
  lemma EncodeLength(s: seq<byte>)
    ensures |Encode(s)| == 4 * ((|s| + 2) / 3)
  {
    ChunksPartition(s);
    EncodeChunksLength(Chunks(s));
  }

  /** The number of `=` the encoding of `n` bytes ends in. */
  function PadCount(n: nat): nat {
    if n % 3 == 0 then 0 else 3 - n % 3
  }

  /** The quad of one chunk: symbols, then one `=` per missing byte. */
  lemma EncodeChunkShape(c: Chunk)
    ensures var q := EncodeChunk(c);
      var pads := if c.Three? then 0 else if c.Two? then 1 else 2;
      (forall i :: 0 <= i < 4 - pads ==> IsSymbol(q[i])) &&
      (forall i :: 4 - pads <= i < 4 ==> q[i] == PAD)
  {
    match c {
      case One(a) => OneShape(a);
      case Two(a, b) => TwoShape(a, b);
      case Three(a, b, cc) => ThreeShape(a, b, cc);
    }
  }

  lemma OneShape(a: byte)
    ensures var q := EncodeChunk(One(a));
      IsSymbol(q[0]) && IsSymbol(q[1]) && q[2] == PAD && q[3] == PAD
  {
    TableInverse(a >> 2);
    TableInverse((a << 4) & 0x3F);
  }

  lemma TwoShape(a: byte, b: byte)
    ensures var q := EncodeChunk(Two(a, b));
      IsSymbol(q[0]) && IsSymbol(q[1]) && IsSymbol(q[2]) && q[3] == PAD
  {
    TableInverse(a >> 2);
    TableInverse(((a << 4) | (b >> 4)) & 0x3F);
    TableInverse((b << 2) & 0x3F);
  }

  lemma ThreeShape(a: byte, b: byte, c: byte)
    ensures var q := EncodeChunk(Three(a, b, c));
      IsSymbol(q[0]) && IsSymbol(q[1]) && IsSymbol(q[2]) && IsSymbol(q[3])
  {
    TableInverse(a >> 2);
    TableInverse(((a << 4) | (b >> 4)) & 0x3F);
    TableInverse(((b << 2) | (c >> 6)) & 0x3F);
    TableInverse(c & 0x3F);
  }

  lemma {:induction false} EncodeChunksShape(cs: seq<Chunk>)
    requires forall i :: 0 <= i < |cs| - 1 ==> cs[i].Three?
    ensures |EncodeChunks(cs)| == 4 * |cs|
    ensures var e := EncodeChunks(cs);
      var pads := if cs == [] || cs[|cs| - 1].Three? then 0 else if cs[|cs| - 1].Two? then 1 else 2;
      (forall i :: 0 <= i < |e| - pads ==> IsSymbol(e[i])) &&
      (forall i :: |e| - pads <= i < |e| ==> e[i] == PAD)
  {
    EncodeChunksLength(cs);
    if cs != [] {
      EncodeChunksShape(cs[1..]);
      EncodeChunkShape(cs[0]);
      var q := EncodeChunk(cs[0]);
      var rest := EncodeChunks(cs[1..]);
      assert EncodeChunks(cs) == q + rest;
      if |cs| > 1 {
        assert cs[0].Three?;
        assert cs[1..][|cs[1..]| - 1] == cs[|cs| - 1];
      }
    }
  }


  /** The encoding consists of symbols followed by exactly `PadCount(n)` paddings. */
  lemma EncodePadding(s: seq<byte>)
    ensures var e := Encode(s);
      |e| >= PadCount(|s|) &&
      (forall i :: 0 <= i < |e| - PadCount(|s|) ==> IsSymbol(e[i])) &&
      (forall i :: |e| - PadCount(|s|) <= i < |e| ==> e[i] == PAD)
  {
    ChunksPartition(s);
    EncodeChunksShape(Chunks(s));
    LastChunkKind(s);
  }

  lemma {:induction false} LastChunkKind(s: seq<byte>)
    ensures |s| > 0 ==> (|Chunks(s)| > 0 &&
      var last := Chunks(s)[|Chunks(s)| - 1];
      (|s| % 3 == 0 <==> last.Three?) && (|s| % 3 == 2 <==> last.Two?) && (|s| % 3 == 1 <==> last.One?))
    decreases |s|
  {
    if |s| > 3 {
      LastChunkKind(s[3..]);
    }
  }

  // ----- decoding ---------------------------------------------------------------

  /** `Error`: why a quad of symbols does not decode. */
  datatype Error = IllegalLength | NonsensicalPadding | IllegalChar(c: byte)

  /** The three bytes of one decoded quad. */
  datatype Triple = Triple(a: byte, b: byte, c: byte)

  function TripleBytes(t: Triple): seq<byte> {
    [t.a, t.b, t.c]
  }

  /** One `get!(e)`: the 6-bit value of symbol `x` (0 for `=`) and the new `in_pad`,
      or the error that ends the quad. */
  function Sextet(x: byte, inPad: bool): (r: Result<(bv32, bool), Error>)
    ensures r.Ok? ==> r.value.0 < 64
  {
    if inPad && x != PAD then Err(NonsensicalPadding)
    else if x == PAD then Ok((0, true))
    else if InverseTable(x) == 255 then Err(IllegalChar(x))
    else Ok((InverseTable(x) as bv32, inPad))
  }

  /** The first three big-endian bytes of the 32-bit word `r` (`r.to_be_bytes()`). */
  function TopBytes(r: bv32): Triple {
    Triple(((r >> 24) & 0xFF) as byte, ((r >> 16) & 0xFF) as byte, ((r >> 8) & 0xFF) as byte)
  }

  /** The word `a << 26 | b << 20 | c << 14 | d << 8` the four sextets of a quad make. */
  function Word(a: bv32, b: bv32, c: bv32, d: bv32): bv32 {
    (a << 26) | (b << 20) | (c << 14) | (d << 8)
  }

  /** What one `Base64Decoder::next` yields on the remaining input `s`, and how many
      bytes it consumes; `None` once the input is exhausted. The four `get!` steps are
      written out as the source writes them: a missing byte is `IllegalLength`, and an
      error ends the call right after the byte that caused it. */
  function DecodeNext(s: seq<byte>): (r: Option<(Result<Triple, Error>, nat)>)
    ensures r.Some? <==> |s| > 0
    ensures r.Some? ==> 1 <= r.value.1 <= |s| && r.value.1 <= 4
  {
    if |s| == 0 then None
    else
      var g0 := Sextet(s[0], false);
      if g0.Err? then Some((Err(g0.error), 1))
      else if |s| == 1 then Some((Err(IllegalLength), 1))
      else
        var g1 := Sextet(s[1], g0.value.1);
        if g1.Err? then Some((Err(g1.error), 2))
        else if |s| == 2 then Some((Err(IllegalLength), 2))
        else
          var g2 := Sextet(s[2], g1.value.1);
          if g2.Err? then Some((Err(g2.error), 3))
          else if |s| == 3 then Some((Err(IllegalLength), 3))
          else
            var g3 := Sextet(s[3], g2.value.1);
            if g3.Err? then Some((Err(g3.error), 4))
            else Some((Ok(TopBytes(Word(g0.value.0, g1.value.0, g2.value.0, g3.value.0))), 4))
  }

  /** Every item the decoder yields on `s`, in order. */
  function DecodeAll(s: seq<byte>): seq<Result<Triple, Error>>
    decreases |s|
  {
    if |s| == 0 then []
    else
      var (item, used) := DecodeNext(s).value;
      [item] + DecodeAll(s[used..])
  }

  /** A well-formed quad: every byte is a symbol or `=`, and nothing but `=` follows an `=`. */
  predicate WellFormedQuad(q: seq<byte>)
    requires |q| == 4
  {
    (forall i :: 0 <= i < 4 ==> q[i] == PAD || IsSymbol(q[i])) &&
    (forall i, j :: 0 <= i < j < 4 && q[i] == PAD ==> q[j] == PAD)
  }

  /** A call on four or more bytes succeeds exactly when the first four form a
      well-formed quad, and then consumes exactly those four. */
  lemma DecodeNextOk(s: seq<byte>)
    requires |s| >= 4
    ensures DecodeNext(s).value.0.Ok? <==> WellFormedQuad(s[..4])
    ensures DecodeNext(s).value.0.Ok? ==> DecodeNext(s).value.1 == 4
  {
    if WellFormedQuad(s[..4]) {
      assert s[..4][0] == s[0] && s[..4][1] == s[1] && s[..4][2] == s[2] && s[..4][3] == s[3];
    } else {
      assert s[..4][0] == s[0] && s[..4][1] == s[1] && s[..4][2] == s[2] && s[..4][3] == s[3];
    }
  }

  /** Fewer than four symbols left: the call reports `IllegalLength` and consumes them all. */
  lemma DecodeNextShort(s: seq<byte>)
    requires 0 < |s| < 4
    requires forall i :: 0 <= i < |s| ==> IsSymbol(s[i])
    ensures DecodeNext(s) == Some((Err(IllegalLength), |s|))
  {
  }

  /** A symbol after `=` in the same quad is `NonsensicalPadding`. */
  lemma DecodeNextPadThenSymbol(s: seq<byte>, j: nat)
    requires 0 < j < 4 && j < |s|
    requires forall i :: 0 <= i < j ==> s[i] == PAD
    requires IsSymbol(s[j])
    ensures DecodeNext(s) == Some((Err(NonsensicalPadding), j + 1))
  {
  }

  /** A byte that is neither a symbol nor `=`, before any `=`, is reported with its value. */
  lemma DecodeNextIllegalChar(s: seq<byte>, j: nat)
    requires j < 4 && j < |s|
    requires forall i :: 0 <= i < j ==> IsSymbol(s[i])
    requires s[j] != PAD && !IsSymbol(s[j])
    ensures DecodeNext(s) == Some((Err(IllegalChar(s[j])), j + 1))
  {
  }

  /** `fltn`: a decoded item as three byte results (an error followed by two zeros). */
  function Fltn(r: Result<Triple, Error>): seq<Result<byte, Error>> {
    match r
    case Ok(t) => [Ok(t.a), Ok(t.b), Ok(t.c)]
    case Err(e) => [Err(e), Ok(0), Ok(0)]
  }

  /** `flter`: keep every result except `Ok(0)`. */
  predicate Flter(r: Result<byte, Error>) {
    !(r.Ok? && r.value == 0)
  }

  function Filter(rs: seq<Result<byte, Error>>): seq<Result<byte, Error>> {
    if rs == [] then [] else (if Flter(rs[0]) then [rs[0]] else []) + Filter(rs[1..])
  }

  function FlatMapFltn(items: seq<Result<Triple, Error>>): seq<Result<byte, Error>> {
    if items == [] then [] else Fltn(items[0]) + FlatMapFltn(items[1..])
  }

  /** `Base64Decoder::flat`, as written. */
  function Flat(items: seq<Result<Triple, Error>>): seq<Result<byte, Error>> {
    Filter(FlatMapFltn(items))
  }

  /** Collecting `Result<u8, Error>`s into `Result<Vec<u8>, Error>`: the first error,
      or every byte. */
  function Collect(rs: seq<Result<byte, Error>>): (r: Result<seq<byte>, Error>)
    ensures r.Ok? <==> forall i :: 0 <= i < |rs| ==> rs[i].Ok?
    ensures r.Ok? ==> |r.value| == |rs| && forall i :: 0 <= i < |rs| ==> rs[i] == Ok(r.value[i])
    ensures r.Err? ==> exists i :: 0 <= i < |rs| && rs[i] == Err(r.error) && forall j :: 0 <= j < i ==> rs[j].Ok?
  {
    if rs == [] then Ok([])
    else match rs[0]
      case Err(e) => Err(e)
      case Ok(b) =>
        match Collect(rs[1..])
        case Err(e) => Err(e)
        case Ok(bs) => Ok([b] + bs)
  }

  /** `decode_base64().flat().collect()` on `s`, as written. */
  function DecodeFlat(s: seq<byte>): Result<seq<byte>, Error> {
    Collect(Flat(DecodeAll(s)))
  }

  /** The triple a chunk's quad decodes to: its bytes, then zeros for the padding. */
  function ChunkTriple(c: Chunk): Triple {
    match c
    case One(a) => Triple(a, 0, 0)
    case Two(a, b) => Triple(a, b, 0)
    case Three(a, b, cc) => Triple(a, b, cc)
  }

  /** A symbol outside padding decodes to its index; after padding it is an error. */
  lemma SextetOfSymbol(v: byte, inPad: bool)
    requires v < 64
    ensures Sextet(Table(v), inPad) == if inPad then Err(NonsensicalPadding) else Ok((v as bv32, false))
  {
    TableInverse(v);
  }

  /** Reassembling the four sextets of a chunk gives its bytes back. */
  lemma SextetsReassemble(a: byte, b: byte, c: byte)
    ensures var v0, v1, v2, v3 := a >> 2, ((a << 4) | (b >> 4)) & 0x3F, ((b << 2) | (c >> 6)) & 0x3F, c & 0x3F;
      TopBytes(Word(v0 as bv32, v1 as bv32, v2 as bv32, v3 as bv32)) == Triple(a, b, c)
  {
  }

  lemma SextetsReassembleTwo(a: byte, b: byte)
    ensures var v0, v1, v2 := a >> 2, ((a << 4) | (b >> 4)) & 0x3F, (b << 2) & 0x3F;
      TopBytes(Word(v0 as bv32, v1 as bv32, v2 as bv32, 0)) == Triple(a, b, 0)
  {
  }

  lemma SextetsReassembleOne(a: byte)
    ensures var v0, v1 := a >> 2, (a << 4) & 0x3F;
      TopBytes(Word(v0 as bv32, v1 as bv32, 0, 0)) == Triple(a, 0, 0)
  {
  }

  /** A call whose first four bytes all decode yields the word their sextets make. */
  lemma DecodeNextOf(s: seq<byte>, v0: bv32, v1: bv32, v2: bv32, v3: bv32, p1: bool, p2: bool, p3: bool, p4: bool)
    requires |s| >= 4
    requires Sextet(s[0], false) == Ok((v0, p1)) && Sextet(s[1], p1) == Ok((v1, p2))
    requires Sextet(s[2], p2) == Ok((v2, p3)) && Sextet(s[3], p3) == Ok((v3, p4))
    ensures DecodeNext(s) == Some((Ok(TopBytes(Word(v0, v1, v2, v3))), 4))
  {
  }

  lemma DecodeSymbols(s: seq<byte>, v0: byte, v1: byte, v2: byte, v3: byte)
    requires |s| >= 4 && v0 < 64 && v1 < 64 && v2 < 64 && v3 < 64
    requires s[0] == Table(v0) && s[1] == Table(v1) && s[2] == Table(v2) && s[3] == Table(v3)
    ensures DecodeNext(s) == Some((Ok(TopBytes(Word(v0 as bv32, v1 as bv32, v2 as bv32, v3 as bv32))), 4))
  {
    SextetOfSymbol(v0, false);
    SextetOfSymbol(v1, false);
    SextetOfSymbol(v2, false);
    SextetOfSymbol(v3, false);
    DecodeNextOf(s, v0 as bv32, v1 as bv32, v2 as bv32, v3 as bv32, false, false, false, false);
  }

  lemma DecodeSymbolsPadOne(s: seq<byte>, v0: byte, v1: byte, v2: byte)
    requires |s| >= 4 && v0 < 64 && v1 < 64 && v2 < 64
    requires s[0] == Table(v0) && s[1] == Table(v1) && s[2] == Table(v2) && s[3] == PAD
    ensures DecodeNext(s) == Some((Ok(TopBytes(Word(v0 as bv32, v1 as bv32, v2 as bv32, 0))), 4))
  {
    SextetOfSymbol(v0, false);
    SextetOfSymbol(v1, false);
    SextetOfSymbol(v2, false);
    DecodeNextOf(s, v0 as bv32, v1 as bv32, v2 as bv32, 0, false, false, false, true);
  }

  lemma DecodeSymbolsPadTwo(s: seq<byte>, v0: byte, v1: byte)
    requires |s| >= 4 && v0 < 64 && v1 < 64
    requires s[0] == Table(v0) && s[1] == Table(v1) && s[2] == PAD && s[3] == PAD
    ensures DecodeNext(s) == Some((Ok(TopBytes(Word(v0 as bv32, v1 as bv32, 0, 0))), 4))
  {
    SextetOfSymbol(v0, false);
    SextetOfSymbol(v1, false);
    DecodeNextOf(s, v0 as bv32, v1 as bv32, 0, 0, false, false, true, true);
  }

  lemma DecodeQuadOne(a: byte, s: seq<byte>)
    requires |s| >= 4
    requires s[0] == Table(a >> 2) && s[1] == Table((a << 4) & 0x3F) && s[2] == PAD && s[3] == PAD
    ensures DecodeNext(s) == Some((Ok(Triple(a, 0, 0)), 4))
  {
    var v0, v1 := a >> 2, (a << 4) & 0x3F;
    DecodeSymbolsPadTwo(s, v0, v1);
    SextetsReassembleOne(a);
  }

  lemma DecodeQuadTwo(a: byte, b: byte, s: seq<byte>)
    requires |s| >= 4
    requires s[0] == Table(a >> 2) && s[1] == Table(((a << 4) | (b >> 4)) & 0x3F)
    requires s[2] == Table((b << 2) & 0x3F) && s[3] == PAD
    ensures DecodeNext(s) == Some((Ok(Triple(a, b, 0)), 4))
  {
    var v0, v1, v2 := a >> 2, ((a << 4) | (b >> 4)) & 0x3F, (b << 2) & 0x3F;
    DecodeSymbolsPadOne(s, v0, v1, v2);
    SextetsReassembleTwo(a, b);
  }

  lemma DecodeQuadThree(a: byte, b: byte, c: byte, s: seq<byte>)
    requires |s| >= 4
    requires s[0] == Table(a >> 2) && s[1] == Table(((a << 4) | (b >> 4)) & 0x3F)
    requires s[2] == Table(((b << 2) | (c >> 6)) & 0x3F) && s[3] == Table(c & 0x3F)
    ensures DecodeNext(s) == Some((Ok(Triple(a, b, c)), 4))
  {
    var v0, v1 := a >> 2, ((a << 4) | (b >> 4)) & 0x3F;
    var v2, v3 := ((b << 2) | (c >> 6)) & 0x3F, c & 0x3F;
    DecodeSymbols(s, v0, v1, v2, v3);
    SextetsReassemble(a, b, c);
  }

  /** The quad of every chunk decodes, in one call, to the chunk's bytes padded with
      zeros, and the call consumes exactly the quad. */
  lemma DecodeEncodedChunk(c: Chunk, rest: seq<byte>)
    ensures DecodeNext(EncodeChunk(c) + rest) == Some((Ok(ChunkTriple(c)), 4))
  {
    var s := EncodeChunk(c) + rest;
    var q := EncodeChunk(c);
    assert s[0] == q[0] && s[1] == q[1] && s[2] == q[2] && s[3] == q[3];
    match c {
      case One(a) => DecodeQuadOne(a, s);
      case Two(a, b) => DecodeQuadTwo(a, b, s);
      case Three(a, b, cc) => DecodeQuadThree(a, b, cc, s);
    }
  }

  /** The items of a successfully decoded sequence of chunks. */
  function OkTriples(cs: seq<Chunk>): seq<Result<Triple, Error>> {
    if cs == [] then [] else [Ok(ChunkTriple(cs[0]))] + OkTriples(cs[1..])
  }

  /** Bytes as the successful results `flat` yields for them. */
  function OkBytes(b: seq<byte>): seq<Result<byte, Error>> {
    if b == [] then [] else [Ok(b[0])] + OkBytes(b[1..])
  }

  lemma {:induction false} DecodeEncodedChunks(cs: seq<Chunk>)
    ensures DecodeAll(EncodeChunks(cs)) == OkTriples(cs)
  {
    if cs != [] {
      var s := EncodeChunks(cs);
      DecodeEncodedChunk(cs[0], EncodeChunks(cs[1..]));
      DecodeEncodedChunks(cs[1..]);
      assert s[4..] == EncodeChunks(cs[1..]);
    }
  }

  lemma {:induction false} FilterAppend(a: seq<Result<byte, Error>>, b: seq<Result<byte, Error>>)
    ensures Filter(a + b) == Filter(a) + Filter(b)
  {
    if a != [] {
      FilterAppend(a[1..], b);
      assert (a + b)[1..] == a[1..] + b;
    } else {
      assert a + b == b;
    }
  }

  lemma {:induction false} OkBytesAppend(a: seq<byte>, b: seq<byte>)
    ensures OkBytes(a + b) == OkBytes(a) + OkBytes(b)
  {
    if a != [] {
      OkBytesAppend(a[1..], b);
      assert (a + b)[1..] == a[1..] + b;
    } else {
      assert a + b == b;
    }
  }

  lemma FilterThree(x: Result<byte, Error>, y: Result<byte, Error>, z: Result<byte, Error>)
    ensures Filter([x, y, z]) ==
      (if Flter(x) then [x] else []) + (if Flter(y) then [y] else []) + (if Flter(z) then [z] else [])
  {
    assert [x, y, z][1..] == [y, z];
    assert [y, z][1..] == [z];
    assert [z][1..] == [];
    assert Filter([z]) == (if Flter(z) then [z] else []) + Filter([]);
    assert Filter([y, z]) == (if Flter(y) then [y] else []) + Filter([z]);
  }

  /** The bytes of one chunk without zeros survive `fltn` and `flter` unchanged. */
  lemma FilterChunk(c: Chunk)
    requires 0 !in ChunkBytes(c)
    ensures Filter(Fltn(Ok(ChunkTriple(c)))) == OkBytes(ChunkBytes(c))
  {
    var t := ChunkTriple(c);
    FilterThree(Ok(t.a), Ok(t.b), Ok(t.c));
    var b := ChunkBytes(c);
    match c {
      case One(a) => {
        assert b[0] == a;
        assert OkBytes(b) == [Ok(a)] + OkBytes([]);
      }
      case Two(a, bb) => {
        assert b[0] == a && b[1] == bb && b[1..] == [bb] && b[1..][1..] == [];
        assert OkBytes([bb]) == [Ok(bb)] + OkBytes([]);
        assert OkBytes(b) == [Ok(a)] + OkBytes([bb]);
      }
      case Three(a, bb, cc) => {
        assert b[0] == a && b[1] == bb && b[2] == cc;
        assert b[1..] == [bb, cc] && b[1..][1..] == [cc] && b[1..][1..][1..] == [];
        assert OkBytes([cc]) == [Ok(cc)] + OkBytes([]);
        assert OkBytes([bb, cc]) == [Ok(bb)] + OkBytes([cc]);
        assert OkBytes(b) == [Ok(a)] + OkBytes([bb, cc]);
      }
    }
  }

  /** Without zero bytes, `flat` passes every byte of the decoded chunks through. */
  lemma {:induction false} FlatOfChunks(cs: seq<Chunk>)
    requires 0 !in ConcatChunks(cs)
    ensures Flat(OkTriples(cs)) == OkBytes(ConcatChunks(cs))
  {
    if cs != [] {
      var c := cs[0];
      assert ConcatChunks(cs) == ChunkBytes(c) + ConcatChunks(cs[1..]);
      assert OkTriples(cs)[1..] == OkTriples(cs[1..]);
      assert FlatMapFltn(OkTriples(cs)) == Fltn(Ok(ChunkTriple(c))) + FlatMapFltn(OkTriples(cs[1..]));
      FlatOfChunks(cs[1..]);
      FilterAppend(Fltn(Ok(ChunkTriple(c))), FlatMapFltn(OkTriples(cs[1..])));
      OkBytesAppend(ChunkBytes(c), ConcatChunks(cs[1..]));
      FilterChunk(c);
    }
  }

  lemma {:induction false} CollectOkBytes(b: seq<byte>)
    ensures Collect(OkBytes(b)) == Ok(b)
  {
    if b != [] {
      assert OkBytes(b)[1..] == OkBytes(b[1..]);
      CollectOkBytes(b[1..]);
      assert b == [b[0]] + b[1..];
    }
  }

  /** As written, the decoder returns the original bytes when none of them is zero. */
  lemma RoundTripWithoutZeros(s: seq<byte>)
    requires 0 !in s
    ensures DecodeFlat(Encode(s)) == Ok(s)
  {
    ChunksPartition(s);
    DecodeEncodedChunks(Chunks(s));
    FlatOfChunks(Chunks(s));
    CollectOkBytes(s);
  }

  /** As written, `flat` also drops zero bytes that are data: the single byte 0
      encodes to `AA==`, which decodes to nothing. */
  lemma ZeroByteIsLost()
    ensures Encode([0]) == [65, 65, PAD, PAD]
    ensures DecodeFlat(Encode([0])) == Ok([])
  {
    assert Chunks([0]) == [One(0)];
    assert Encode([0]) == EncodeChunk(One(0)) + [];
    DecodeEncodedChunk(One(0), []);
    assert DecodeAll(Encode([0])) == [Ok(Triple(0, 0, 0))] + DecodeAll([]);
    assert Flat(DecodeAll(Encode([0]))) == [];
  }

  // ----- decoding, corrected ------------------------------------------------------

  /** How many bytes of a successful quad are data: one fewer than its non-padding
      symbols (none for a quad of padding). */
  function DataLength(q: seq<byte>): (n: nat)
    requires |q| == 4
    ensures n <= 3
  {
    var symbols := if q[0] == PAD then 0 else if q[1] == PAD then 1 else if q[2] == PAD then 2 else if q[3] == PAD then 3 else 4;
    if symbols == 0 then 0 else symbols - 1
  }

  /** Decoding that drops exactly the zero bytes the padding stands for, keeping the
      decoder's own acceptance and errors. */
  function DecodeCorrected(s: seq<byte>): (r: Result<seq<byte>, Error>)
    decreases |s|
  {
    if |s| == 0 then Ok([])
    else
      var (item, used) := DecodeNext(s).value;
      match item
      case Err(e) => Err(e)
      case Ok(t) =>
        var rest :- DecodeCorrected(s[used..]);
        Ok(TripleBytes(t)[..DataLength(s[..4])] + rest)
  }

  lemma EncodedChunkDataLength(c: Chunk)
    ensures DataLength(EncodeChunk(c)) == |ChunkBytes(c)|
    ensures TripleBytes(ChunkTriple(c))[..|ChunkBytes(c)|] == ChunkBytes(c)
  {
    match c {
      case One(a) => {}
      case Two(a, b) => {}
      case Three(a, b, cc) => {}
    }
  }

  lemma {:induction false} DecodeCorrectedChunks(cs: seq<Chunk>)
    ensures DecodeCorrected(EncodeChunks(cs)) == Ok(ConcatChunks(cs))
  {
    if cs != [] {
      var s := EncodeChunks(cs);
      DecodeEncodedChunk(cs[0], EncodeChunks(cs[1..]));
      assert s[4..] == EncodeChunks(cs[1..]);
      assert s[..4] == EncodeChunk(cs[0]);
      EncodedChunkDataLength(cs[0]);
      DecodeCorrectedChunks(cs[1..]);
    }
  }

  /** The corrected decoder inverts the encoder on every byte sequence. */
  lemma RoundTrip(s: seq<byte>)
    ensures DecodeCorrected(Encode(s)) == Ok(s)
  {
    DecodeCorrectedChunks(Chunks(s));
    ChunksPartition(s);
  }

  /** `AA==`, which the decoder as written reads as no bytes, is the zero byte. */
  lemma ZeroByteIsKept()
    ensures DecodeFlat([65, 65, PAD, PAD]) == Ok([])
    ensures DecodeCorrected([65, 65, PAD, PAD]) == Ok([0])
  {
    ZeroByteIsLost();
    RoundTrip([0]);
  }

  /** Where the written decoder is right, the corrected one agrees with it. */
  lemma CorrectedAgreesWithoutZeros(s: seq<byte>)
    requires 0 !in s
    ensures DecodeCorrected(Encode(s)) == DecodeFlat(Encode(s))
  {
    RoundTrip(s);
    RoundTripWithoutZeros(s);
  }

  // ----- the iterators ------------------------------------------------------------

  /** `Chunked`: groups the bytes of the wrapped iterator in threes. */
  class Chunked {
    /** The wrapped iterator: the bytes of `input` from `pos` on are still to come. */
    const input: seq<byte>
    var pos: nat

    ghost predicate Valid()
      reads this
    {
      pos <= |input|
    }

    function Remaining(): seq<byte>
      reads this
      requires Valid()
    {
      input[pos..]
    }

    constructor (s: seq<byte>)
      ensures Valid() && input == s && Remaining() == s
    {
      input := s;
      pos := 0;
    }

    /** `Chunked::next`: read one byte, `None` if there is none; then up to two more. */
    method Next() returns (c: Option<Chunk>)
      requires Valid()
      modifies this
      ensures Valid()
      ensures old(Remaining()) == [] ==> c == None && Remaining() == []
      ensures old(Remaining()) != [] ==> c.Some? && old(Remaining()) == ChunkBytes(c.value) + Remaining()
      ensures c.Some? ==> Chunks(old(Remaining())) == [c.value] + Chunks(Remaining())
    {
      if pos == |input| {
        return None;
      }
      var a := input[pos];
      pos := pos + 1;
      if pos == |input| {
        return Some(One(a));
      }
      var b := input[pos];
      pos := pos + 1;
      if pos == |input| {
        return Some(Two(a, b));
      }
      var cc := input[pos];
      pos := pos + 1;
      assert old(Remaining()) == [a, b, cc] + Remaining();
      return Some(Three(a, b, cc));
    }
  }

  /** `Base64Encoder`: yields four symbols per chunk. */
  class Encoder {
    const chunks: Chunked

    constructor (s: seq<byte>)
      ensures fresh(chunks) && chunks.Valid() && chunks.Remaining() == s
    {
      chunks := new Chunked(s);
    }

    /** `Base64Encoder::next`. */
    method Next() returns (q: Option<seq<byte>>)
      requires chunks.Valid()
      modifies chunks
      ensures chunks.Valid()
      ensures q.None? <==> old(chunks.Remaining()) == []
      ensures q.Some? ==> |chunks.Remaining()| < |old(chunks.Remaining())| && |q.value| == 4
      ensures Encode(old(chunks.Remaining())) == (if q.Some? then q.value else []) + Encode(chunks.Remaining())
    {
      var c := chunks.Next();
      if c.None? {
        return None;
      }
      q := Some(EncodeChunk(c.value));
    }

    /** `Base64Encoder::into_string`: drain the encoder into a string. */
    method IntoString() returns (out: string)
      requires chunks.Valid()
      modifies chunks
      ensures out == EncodeString(old(chunks.Remaining()))
      ensures chunks.Valid() && chunks.Remaining() == []
    {
      ghost var all := Encode(chunks.Remaining());
      var done: seq<byte> := [];
      out := "";
      while true
        invariant chunks.Valid()
        invariant done + Encode(chunks.Remaining()) == all
        invariant out == Chars(done)
        decreases |chunks.Remaining()|
      {
        var q := Next();
        if q.None? {
          break;
        }
        out := out + Chars(q.value);
        CharsAppend(done, q.value);
        Text.Assoc(done, q.value, Encode(chunks.Remaining()));
        done := done + q.value;
      }
    }
  }

  /** `Base64Decoder`: decodes quads of symbols from the wrapped iterator. */
  class Decoder {
    const input: seq<byte>
    var pos: nat

    ghost predicate Valid()
      reads this
    {
      pos <= |input|
    }

    function Remaining(): seq<byte>
      reads this
      requires Valid()
    {
      input[pos..]
    }

    constructor (s: seq<byte>)
      ensures Valid() && input == s && Remaining() == s
    {
      input := s;
      pos := 0;
    }

    /** `Base64Decoder::next`: `None` on an exhausted input; otherwise reads up to four
      bytes, stopping at the first one that ends the quad in an error. */
    method Next() returns (r: Option<Result<Triple, Error>>)
      requires Valid()
      modifies this
      ensures Valid()
      ensures old(Remaining()) == [] ==> r == None && Remaining() == []
      ensures old(Remaining()) != [] ==>
        var (item, used) := DecodeNext(old(Remaining())).value;
        r == Some(item) && pos == old(pos) + used
    {
      ghost var s := Remaining();
      if pos == |input| {
        return None;
      }
      var inPad := false;
      var a := input[pos];
      pos := pos + 1;
      var g0 := Sextet(a, inPad);
      if g0.Err? {
        return Some(Err(g0.error));
      }
      inPad := g0.value.1;
      if pos == |input| {
        return Some(Err(IllegalLength));
      }
      var n := input[pos];
      pos := pos + 1;
      var g1 := Sextet(n, inPad);
      if g1.Err? {
        return Some(Err(g1.error));
      }
      inPad := g1.value.1;
      if pos == |input| {
        return Some(Err(IllegalLength));
      }
      n := input[pos];
      pos := pos + 1;
      var g2 := Sextet(n, inPad);
      if g2.Err? {
        return Some(Err(g2.error));
      }
      inPad := g2.value.1;
      if pos == |input| {
        return Some(Err(IllegalLength));
      }
      n := input[pos];
      pos := pos + 1;
      var g3 := Sextet(n, inPad);
      if g3.Err? {
        return Some(Err(g3.error));
      }
      // `r = a << 26 | b << 20 | c << 14 | d << 8`, accumulated in the source
      var acc := Word(g0.value.0, g1.value.0, g2.value.0, g3.value.0);
      return Some(Ok(TopBytes(acc)));
    }
  }
}
