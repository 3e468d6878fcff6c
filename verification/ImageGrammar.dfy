/**
 The byte scanners for PNG and WebP images (src/application/raster-claim-inspector.ts,
 pngIsAnimatedOrMalformed and webpIsAnimatedOrMalformed) decide two grammars: section 3.2 of RFC 2083
 and section 2.3 of RFC 9649, with chunk types compared as the runtime's ASCII decoding reads them.
 */
module ImageGrammar {
  import opened Text

  type Byte = n: nat | n < 256

  type Bytes = seq<Byte>

  /** A byte as ASCII decoding reads it: the highest bit is dropped. */
  function Seven(b: Byte): Byte { b % 128 }

  function Tag(kind: Bytes): (tag: Bytes)
    ensures |tag| == |kind| && forall i :: 0 <= i < |kind| ==> tag[i] == Seven(kind[i])
  {
    seq(|kind|, i requires 0 <= i < |kind| => Seven(kind[i]))
  }

  function Word(a: nat, b: nat, c: nat, d: nat): nat { ((a * 256 + b) * 256 + c) * 256 + d }

  function BigEndian(b: Bytes): nat
    requires |b| == 4
  {
    Word(b[0], b[1], b[2], b[3])
  }

  function LittleEndian(b: Bytes): nat
    requires |b| == 4
  {
    Word(b[3], b[2], b[1], b[0])
  }

  // ----- PNG -----

  const IHDR: Bytes := [73, 72, 68, 82]
  const IEND: Bytes := [73, 69, 78, 68]
  const ACTL: Bytes := [97, 99, 84, 76]

  datatype Chunk = Chunk(length: Bytes, kind: Bytes, data: Bytes, crc: Bytes)

  predicate IsChunk(c: Chunk) {
    |c.length| == 4 && |c.kind| == 4 && |c.crc| == 4 && BigEndian(c.length) == |c.data|
  }

  function ChunkBytes(c: Chunk): Bytes { c.length + c.kind + c.data + c.crc }

  function AllBytes(cs: seq<Chunk>): Bytes {
    if cs == [] then [] else ChunkBytes(cs[0]) + AllBytes(cs[1..])
  }

  /**
   The rest of a still image: chunks that are not animation control, of which the last and only the
   last is IEND, and is empty. The first of the file is a 13-byte IHDR.
   */
  predicate PngRest(cs: seq<Chunk>, sawHeader: bool) {
    && cs != [] && IsChunk(cs[0])
    && (sawHeader || (Tag(cs[0].kind) == IHDR && |cs[0].data| == 13))
    && Tag(cs[0].kind) != ACTL
    && (if Tag(cs[0].kind) == IEND then cs[0].data == [] && |cs| == 1 else PngRest(cs[1..], true))
  }

  ghost predicate IsPngRest(rest: Bytes, sawHeader: bool) {
    exists cs :: PngRest(cs, sawHeader) && rest == AllBytes(cs)
  }

  /** The chunks after the 8-byte signature are those of a still image. */
  ghost predicate StillPng(bytes: Bytes) { |bytes| >= 8 && IsPngRest(bytes[8..], false) }

  /** The chunk at the head of some bytes that hold it. */
  function ChunkAt(rest: Bytes, length: nat): Chunk
    requires 12 + length <= |rest|
  {
    Chunk(rest[..4], rest[4..8], rest[8..8 + length], rest[8 + length..12 + length])
  }

  lemma HeadChunk(c: Chunk, more: Bytes)
    requires IsChunk(c)
    ensures var rest := ChunkBytes(c) + more;
            && 12 + |c.data| <= |rest| && BigEndian(rest[..4]) == |c.data|
            && ChunkAt(rest, |c.data|) == c && rest[12 + |c.data|..] == more
  {
    var rest := ChunkBytes(c) + more;
    assert rest == c.length + (c.kind + c.data + c.crc + more);
    assert rest[..4] == c.length && rest[4..8] == c.kind;
    assert rest[8..8 + |c.data|] == c.data && rest[8 + |c.data|..12 + |c.data|] == c.crc;
  }

  lemma ChunkIsThere(rest: Bytes, length: nat)
    requires 12 + length <= |rest| && BigEndian(rest[..4]) == length
    ensures IsChunk(ChunkAt(rest, length))
    ensures rest == ChunkBytes(ChunkAt(rest, length)) + rest[12 + length..]
  {}

  /** Fewer bytes than a chunk needs are not the rest of an image. */
  lemma PngTooShort(rest: Bytes, sawHeader: bool)
    requires |rest| < 12 || 12 + BigEndian(rest[..4]) > |rest|
    ensures !IsPngRest(rest, sawHeader)
  {
    if cs :| PngRest(cs, sawHeader) && rest == AllBytes(cs) {
      HeadChunk(cs[0], AllBytes(cs[1..]));
    }
  }

  /** What the head of a PNG rest must be, and what must follow it. */
  ghost predicate PngHeadAccepted(rest: Bytes, sawHeader: bool)
    requires |rest| >= 12 && 12 + BigEndian(rest[..4]) <= |rest|
  {
    var length := BigEndian(rest[..4]);
    var tag := Tag(rest[4..8]);
    && (sawHeader || (tag == IHDR && length == 13)) && tag != ACTL
    && (if tag == IEND then length == 0 && |rest| == 12 else IsPngRest(rest[12 + length..], true))
  }

  lemma PngReads(rest: Bytes, cs: seq<Chunk>, sawHeader: bool)
    requires |rest| >= 12 && 12 + BigEndian(rest[..4]) <= |rest|
    requires PngRest(cs, sawHeader) && rest == AllBytes(cs)
    ensures PngHeadAccepted(rest, sawHeader)
  {
    HeadChunk(cs[0], AllBytes(cs[1..]));
    assert cs[0] == ChunkAt(rest, BigEndian(rest[..4])) && rest[4..8] == cs[0].kind;
    if Tag(cs[0].kind) == IEND { assert cs[1..] == []; }
  }

  lemma PngBuilds(rest: Bytes, sawHeader: bool)
    requires |rest| >= 12 && 12 + BigEndian(rest[..4]) <= |rest|
    requires PngHeadAccepted(rest, sawHeader)
    ensures IsPngRest(rest, sawHeader)
  {
    var length := BigEndian(rest[..4]);
    var c, more := ChunkAt(rest, length), rest[12 + length..];
    ChunkIsThere(rest, length);
    if Tag(c.kind) == IEND {
      assert [c][1..] == [] && more == [];
      assert AllBytes([c]) == rest && PngRest([c], sawHeader);
    } else {
      var cs :| PngRest(cs, true) && more == AllBytes(cs);
      ConsTail(c, cs);
      assert AllBytes([c] + cs) == rest && PngRest([c] + cs, sawHeader);
    }
  }

  /** One step of the grammar: the first chunk is determined by the bytes. */
  lemma PngStep(rest: Bytes, sawHeader: bool)
    requires |rest| >= 12 && 12 + BigEndian(rest[..4]) <= |rest|
    ensures IsPngRest(rest, sawHeader) <==> PngHeadAccepted(rest, sawHeader)
  {
    if IsPngRest(rest, sawHeader) {
      var cs :| PngRest(cs, sawHeader) && rest == AllBytes(cs);
      PngReads(rest, cs, sawHeader);
    }
    if PngHeadAccepted(rest, sawHeader) { PngBuilds(rest, sawHeader); }
  }

  /** pngIsAnimatedOrMalformed: false exactly for the still images of the grammar. */
  method PngIsAnimatedOrMalformed(bytes: Bytes) returns (bad: bool)
    ensures bad <==> !StillPng(bytes)
  {
    var offset: nat := 8;
    var sawHeader, sawEnd := false, false;
    while offset + 12 <= |bytes|
      invariant |bytes| >= 8 ==> offset <= |bytes|
      invariant |bytes| >= 8 ==> (StillPng(bytes) <==> IsPngRest(bytes[offset..], sawHeader))
      invariant offset == 8 || sawHeader
    {
      ghost var rest := bytes[offset..];
      assert rest[..4] == bytes[offset..offset + 4] && rest[4..8] == bytes[offset + 4..offset + 8];
      var length := BigEndian(bytes[offset..offset + 4]);
      var chunkEnd := offset + 12 + length;
      if chunkEnd > |bytes| {
        PngTooShort(rest, sawHeader);
        return true;
      }
      PngStep(rest, sawHeader);
      assert rest[12 + length..] == bytes[chunkEnd..];
      var tag := Tag(bytes[offset + 4..offset + 8]);
      if !sawHeader && (tag != IHDR || length != 13) { return true; }
      sawHeader := true;
      if tag == ACTL { return true; }
      if tag == IEND {
        sawEnd := length == 0 && chunkEnd == |bytes|;
        return !sawEnd;
      }
      offset := chunkEnd;
    }
    if |bytes| >= 8 { PngTooShort(bytes[offset..], sawHeader); }
    return true;
  }

  // ----- The types as the standard spells them -----

  /** The same grammar with chunk types compared byte for byte, as section 3.2 of RFC 2083 defines them. */
  predicate StrictRest(cs: seq<Chunk>, sawHeader: bool) {
    && cs != [] && IsChunk(cs[0])
    && (sawHeader || (cs[0].kind == IHDR && |cs[0].data| == 13))
    && cs[0].kind != ACTL
    && (if cs[0].kind == IEND then cs[0].data == [] && |cs| == 1 else StrictRest(cs[1..], true))
  }

  /** The chunks with the highest bit of every type byte cleared. */
  function Cleared(cs: seq<Chunk>): (r: seq<Chunk>)
    ensures |r| == |cs|
  {
    if cs == [] then [] else [cs[0].(kind := Tag(cs[0].kind))] + Cleared(cs[1..])
  }

  /** The scanner accepts exactly the chunk lists that the standard's grammar accepts once cleared. */
  lemma {:induction false} ScannerReadsCleared(cs: seq<Chunk>, sawHeader: bool)
    ensures PngRest(cs, sawHeader) <==> StrictRest(Cleared(cs), sawHeader)
  {
    if cs != [] {
      ConsTail(cs[0].(kind := Tag(cs[0].kind)), Cleared(cs[1..]));
      ScannerReadsCleared(cs[1..], true);
    }
  }

  ghost predicate StrictPng(bytes: Bytes) {
    |bytes| >= 8 && exists cs :: StrictRest(cs, false) && bytes[8..] == AllBytes(cs)
  }

  predicate AreChunks(cs: seq<Chunk>) { forall i :: 0 <= i < |cs| ==> IsChunk(cs[i]) }

  /** Bytes are the chunks of one list at most. */
  lemma {:induction false} ChunksAreUnique(a: seq<Chunk>, b: seq<Chunk>)
    requires AreChunks(a) && AreChunks(b) && AllBytes(a) == AllBytes(b)
    ensures a == b
  {
    if a != [] { HeadChunk(a[0], AllBytes(a[1..])); }
    if b != [] { HeadChunk(b[0], AllBytes(b[1..])); }
    if a != [] && b != [] {
      ChunksAreUnique(a[1..], b[1..]);
      assert a == [a[0]] + a[1..] && b == [b[0]] + b[1..];
    }
  }

  lemma {:induction false} GrammarsReadChunks(cs: seq<Chunk>, sawHeader: bool)
    requires PngRest(cs, sawHeader) || StrictRest(cs, sawHeader)
    ensures AreChunks(cs)
  {
    assert cs == [cs[0]] + cs[1..];
    if |cs| > 1 { GrammarsReadChunks(cs[1..], true); }
  }

  /** So both grammars judge the same chunks. */
  lemma JudgedByChunks(bytes: Bytes, cs: seq<Chunk>)
    requires |bytes| >= 8 && AreChunks(cs) && bytes[8..] == AllBytes(cs)
    ensures (StillPng(bytes) <==> PngRest(cs, false)) && (StrictPng(bytes) <==> StrictRest(cs, false))
  {
    if other :| PngRest(other, false) && bytes[8..] == AllBytes(other) {
      GrammarsReadChunks(other, false);
      ChunksAreUnique(cs, other);
    }
    if other :| StrictRest(other, false) && bytes[8..] == AllBytes(other) {
      GrammarsReadChunks(other, false);
      ChunksAreUnique(cs, other);
    }
  }

  lemma LiteralReadsItself(kind: Bytes)
    ensures kind == IHDR || kind == IEND || kind == ACTL ==> Tag(kind) == kind
  {}

  /** The first chunk is literally the header, unless one was seen, and the last is literally the end. */
  predicate LiteralEnds(cs: seq<Chunk>, sawHeader: bool)
    requires cs != []
  {
    (sawHeader || cs[0].kind == IHDR) && cs[|cs| - 1].kind == IEND
  }

  /** What the scanner accepts is not a still image exactly when its first or last type only reads like the right one. */
  lemma {:induction false} AcceptedWronglyWhen(cs: seq<Chunk>, sawHeader: bool)
    requires PngRest(cs, sawHeader)
    ensures !StrictRest(cs, sawHeader) <==> !LiteralEnds(cs, sawHeader)
  {
    LiteralReadsItself(cs[0].kind);
    if Tag(cs[0].kind) != IEND {
      AcceptedWronglyWhen(cs[1..], true);
      assert cs[1..][|cs| - 2] == cs[|cs| - 1];
    } else if cs[0].kind != IEND && |cs| == 1 {
      assert !StrictRest(cs[1..], true);
    }
  }

  /** Some chunk reads like animation control, or like the end before the last. */
  predicate MisreadAt(cs: seq<Chunk>, i: nat)
    requires i < |cs|
  {
    Tag(cs[i].kind) == ACTL || (i < |cs| - 1 && Tag(cs[i].kind) == IEND)
  }

  predicate Misread(cs: seq<Chunk>) { exists i :: 0 <= i < |cs| && MisreadAt(cs, i) }

  lemma MisreadStep(cs: seq<Chunk>)
    requires |cs| > 1
    ensures Misread(cs) <==> MisreadAt(cs, 0) || Misread(cs[1..])
  {
    if i :| 0 <= i < |cs| && MisreadAt(cs, i) {
      if i > 0 { assert MisreadAt(cs[1..], i - 1); }
    }
    if i :| 0 <= i < |cs[1..]| && MisreadAt(cs[1..], i) { assert MisreadAt(cs, i + 1); }
  }

  /** A still image is refused exactly when one of its types only reads like one that ends or animates it. */
  lemma {:induction false} RefusedWronglyWhen(cs: seq<Chunk>, sawHeader: bool)
    requires StrictRest(cs, sawHeader)
    ensures !PngRest(cs, sawHeader) <==> Misread(cs)
  {
    LiteralReadsItself(cs[0].kind);
    if |cs| > 1 {
      MisreadStep(cs);
      RefusedWronglyWhen(cs[1..], true);
    } else {
      assert cs[0].kind == IEND;
      assert !MisreadAt(cs, 0);
    }
  }

  /** Where scanner and standard differ on a file of these chunks. */
  lemma PngDiffersWhen(bytes: Bytes, cs: seq<Chunk>)
    requires |bytes| >= 8 && AreChunks(cs) && bytes[8..] == AllBytes(cs)
    ensures StillPng(bytes) ==> cs != [] && (!StrictPng(bytes) <==> !LiteralEnds(cs, false))
    ensures StrictPng(bytes) ==> (!StillPng(bytes) <==> Misread(cs))
  {
    JudgedByChunks(bytes, cs);
    if PngRest(cs, false) { AcceptedWronglyWhen(cs, false); }
    if StrictRest(cs, false) { RefusedWronglyWhen(cs, false); }
  }

  predicate AsciiTypes(cs: seq<Chunk>) {
    forall i, j :: 0 <= i < |cs| && 0 <= j < |cs[i].kind| ==> cs[i].kind[j] < 128
  }

  /** With ASCII types, as the standard requires of every chunk, there is no difference. */
  lemma {:induction false} AsciiIsStrict(cs: seq<Chunk>, sawHeader: bool)
    requires AsciiTypes(cs)
    ensures PngRest(cs, sawHeader) <==> StrictRest(cs, sawHeader)
  {
    if cs != [] {
      assert Tag(cs[0].kind) == cs[0].kind;
      forall i, j | 0 <= i < |cs[1..]| && 0 <= j < |cs[1..][i].kind| ensures cs[1..][i].kind[j] < 128 {
        assert cs[i + 1] == cs[1..][i];
      }
      AsciiIsStrict(cs[1..], true);
    }
  }

  const THIRTEEN: Bytes := [0, 0, 0, 0, 0, 0, 0, 0, 0, 0, 0, 0, 0]
  const HIGH_HEADER := Chunk([0, 0, 0, 13], [201, 72, 68, 82], THIRTEEN, [0, 0, 0, 0])
  const END := Chunk([0, 0, 0, 0], IEND, [], [0, 0, 0, 0])

  /** A type byte with its highest bit set makes a difference: this first chunk is no IHDR, yet is taken for one. */
  lemma HighBitPasses()
    ensures PngRest([HIGH_HEADER, END], false) && !StrictRest([HIGH_HEADER, END], false)
  {
    assert Tag(HIGH_HEADER.kind) == IHDR && Tag(END.kind) == IEND;
    assert IHDR[0] != HIGH_HEADER.kind[0] && IHDR[1] != IEND[1];
    assert [HIGH_HEADER, END][1..] == [END];
    assert IsChunk(HIGH_HEADER) && IsChunk(END);
    assert PngRest([END], true);
  }

  const HEADER := Chunk([0, 0, 0, 13], IHDR, THIRTEEN, [0, 0, 0, 0])
  const HIGH_CONTROL := Chunk([0, 0, 0, 0], [225, 99, 84, 76], [], [0, 0, 0, 0])

  /** And this chunk is no animation control, yet is taken for one. */
  lemma HighBitRefuses()
    ensures StrictRest([HEADER, HIGH_CONTROL, END], false) && !PngRest([HEADER, HIGH_CONTROL, END], false)
  {
    var cs := [HEADER, HIGH_CONTROL, END];
    assert Tag(HIGH_CONTROL.kind) == ACTL && IHDR[1] != IEND[1] && IHDR[0] != ACTL[0] && IEND[0] != ACTL[0];
    assert HIGH_CONTROL.kind[0] != ACTL[0] && HIGH_CONTROL.kind[0] != IEND[0];
    assert IsChunk(HEADER) && IsChunk(HIGH_CONTROL) && IsChunk(END);
    assert cs[1..] == [HIGH_CONTROL, END] && [HIGH_CONTROL, END][1..] == [END];
    assert StrictRest([END], true) && StrictRest([HIGH_CONTROL, END], true);
    assert MisreadAt(cs, 1);
    RefusedWronglyWhen(cs, false);
  }

  // ----- WebP -----

  const RIFF: Bytes := [82, 73, 70, 70]
  const WEBP: Bytes := [87, 69, 66, 80]
  const ANIM: Bytes := [65, 78, 73, 77]
  const ANMF: Bytes := [65, 78, 77, 70]
  const VP8X: Bytes := [86, 80, 56, 88]
  const VP8_: Bytes := [86, 80, 56, 32]
  const VP8L: Bytes := [86, 80, 56, 76]

  /** A RIFF chunk; `pad` is one byte when the data are odd in length. */
  datatype Riff = Riff(kind: Bytes, size: Bytes, data: Bytes, pad: Bytes)

  predicate IsRiff(c: Riff) {
    |c.kind| == 4 && |c.size| == 4 && LittleEndian(c.size) == |c.data| && |c.pad| == |c.data| % 2
  }

  function RiffBytes(c: Riff): Bytes { c.kind + c.size + c.data + c.pad }

  function AllRiff(cs: seq<Riff>): Bytes {
    if cs == [] then [] else RiffBytes(cs[0]) + AllRiff(cs[1..])
  }

  /** No animation; an extended header is 10 bytes and does not announce one. */
  predicate StillChunk(tag: Bytes, data: Bytes) {
    tag != ANIM && tag != ANMF && (tag == VP8X ==> |data| == 10 && data[0] / 2 % 2 == 0)
  }

  predicate ImageTag(tag: Bytes) { tag == VP8_ || tag == VP8L }

  /** The chunks of a still image, of which one at least is an image, unless one was seen before. */
  predicate WebpRest(cs: seq<Riff>, sawImage: bool) {
    if cs == [] then sawImage
    else IsRiff(cs[0]) && StillChunk(Tag(cs[0].kind), cs[0].data) && WebpRest(cs[1..], sawImage || ImageTag(Tag(cs[0].kind)))
  }

  ghost predicate IsWebpRest(rest: Bytes, sawImage: bool) {
    exists cs :: WebpRest(cs, sawImage) && rest == AllRiff(cs)
  }

  /** A RIFF file of the exact size, holding the chunks of a still image. */
  ghost predicate StillWebp(bytes: Bytes) {
    && |bytes| >= 12 && Tag(bytes[..4]) == RIFF && Tag(bytes[8..12]) == WEBP
    && LittleEndian(bytes[4..8]) + 8 == |bytes|
    && IsWebpRest(bytes[12..], false)
  }

  function RiffEnd(length: nat): nat { 8 + length + length % 2 }

  function RiffAt(rest: Bytes, length: nat): Riff
    requires RiffEnd(length) <= |rest|
  {
    Riff(rest[..4], rest[4..8], rest[8..8 + length], rest[8 + length..RiffEnd(length)])
  }

  lemma HeadRiff(c: Riff, more: Bytes)
    requires IsRiff(c)
    ensures var rest := RiffBytes(c) + more;
            && RiffEnd(|c.data|) <= |rest| && LittleEndian(rest[4..8]) == |c.data|
            && RiffAt(rest, |c.data|) == c && rest[RiffEnd(|c.data|)..] == more
  {
    var rest := RiffBytes(c) + more;
    assert rest == c.kind + (c.size + c.data + c.pad + more);
    assert rest[..4] == c.kind && rest[4..8] == c.size;
    assert rest[8..8 + |c.data|] == c.data && rest[8 + |c.data|..RiffEnd(|c.data|)] == c.pad;
  }

  lemma RiffIsThere(rest: Bytes, length: nat)
    requires |rest| >= 8 && RiffEnd(length) <= |rest| && LittleEndian(rest[4..8]) == length
    ensures IsRiff(RiffAt(rest, length))
    ensures rest == RiffBytes(RiffAt(rest, length)) + rest[RiffEnd(length)..]
  {}

  lemma WebpTooShort(rest: Bytes, sawImage: bool)
    requires rest != [] && (|rest| < 8 || RiffEnd(LittleEndian(rest[4..8])) > |rest|)
    ensures !IsWebpRest(rest, sawImage)
  {
    if cs :| WebpRest(cs, sawImage) && rest == AllRiff(cs) {
      HeadRiff(cs[0], AllRiff(cs[1..]));
    }
  }

  lemma WebpReads(rest: Bytes, cs: seq<Riff>, sawImage: bool)
    requires |rest| >= 8 && RiffEnd(LittleEndian(rest[4..8])) <= |rest|
    requires WebpRest(cs, sawImage) && rest == AllRiff(cs)
    ensures var length := LittleEndian(rest[4..8]);
            var tag := Tag(rest[..4]);
            StillChunk(tag, rest[8..8 + length]) && IsWebpRest(rest[RiffEnd(length)..], sawImage || ImageTag(tag))
  {
    HeadRiff(cs[0], AllRiff(cs[1..]));
    var tag := Tag(rest[..4]);
    assert cs[0] == RiffAt(rest, LittleEndian(rest[4..8])) && tag == Tag(cs[0].kind);
    assert WebpRest(cs[1..], sawImage || ImageTag(tag));
  }

  lemma WebpBuilds(rest: Bytes, cs: seq<Riff>, sawImage: bool)
    requires |rest| >= 8 && RiffEnd(LittleEndian(rest[4..8])) <= |rest|
    requires rest[RiffEnd(LittleEndian(rest[4..8]))..] == AllRiff(cs)
    requires StillChunk(Tag(rest[..4]), rest[8..8 + LittleEndian(rest[4..8])])
    requires WebpRest(cs, sawImage || ImageTag(Tag(rest[..4])))
    ensures IsWebpRest(rest, sawImage)
  {
    var length := LittleEndian(rest[4..8]);
    var c := RiffAt(rest, length);
    RiffIsThere(rest, length);
    ConsTail(c, cs);
    assert AllRiff([c] + cs) == rest;
    assert WebpRest([c] + cs, sawImage);
  }

  lemma WebpStep(rest: Bytes, sawImage: bool)
    requires |rest| >= 8 && RiffEnd(LittleEndian(rest[4..8])) <= |rest|
    ensures var length := LittleEndian(rest[4..8]);
            var tag := Tag(rest[..4]);
            IsWebpRest(rest, sawImage) <==>
              StillChunk(tag, rest[8..8 + length]) && IsWebpRest(rest[RiffEnd(length)..], sawImage || ImageTag(tag))
  {
    var length := LittleEndian(rest[4..8]);
    var more, sawNext := rest[RiffEnd(length)..], sawImage || ImageTag(Tag(rest[..4]));
    if IsWebpRest(rest, sawImage) {
      var cs :| WebpRest(cs, sawImage) && rest == AllRiff(cs);
      WebpReads(rest, cs, sawImage);
    }
    if StillChunk(Tag(rest[..4]), rest[8..8 + length]) && IsWebpRest(more, sawNext) {
      var cs :| WebpRest(cs, sawNext) && more == AllRiff(cs);
      WebpBuilds(rest, cs, sawImage);
    }
  }

  lemma RiffIsLong(cs: seq<Riff>, sawImage: bool)
    requires WebpRest(cs, sawImage)
    ensures cs != [] ==> |AllRiff(cs)| >= 8
  {}

  lemma WebpEnds(sawImage: bool)
    ensures IsWebpRest([], sawImage) <==> sawImage
  {
    if cs :| WebpRest(cs, sawImage) && [] == AllRiff(cs) {
      RiffIsLong(cs, sawImage);
    }
    assert WebpRest([], sawImage) <==> sawImage;
    assert AllRiff([]) == [];
  }

  /** webpIsAnimatedOrMalformed: false exactly for the still images of the grammar. */
  method WebpIsAnimatedOrMalformed(bytes: Bytes) returns (bad: bool)
    ensures bad <==> !StillWebp(bytes)
  {
    if |bytes| < 20 {
      if |bytes| == 12 { WebpEnds(false); assert bytes[12..] == []; }
      if 12 < |bytes| { WebpTooShort(bytes[12..], false); }
      return true;
    }
    if Tag(bytes[..4]) != RIFF || Tag(bytes[8..12]) != WEBP || LittleEndian(bytes[4..8]) + 8 != |bytes| { return true; }
    var offset: nat := 12;
    var sawImage := false;
    while offset < |bytes|
      invariant 12 <= offset <= |bytes|
      invariant StillWebp(bytes) <==> IsWebpRest(bytes[offset..], sawImage)
    {
      ghost var rest := bytes[offset..];
      if offset + 8 > |bytes| {
        WebpTooShort(rest, sawImage);
        return true;
      }
      assert rest[..4] == bytes[offset..offset + 4] && rest[4..8] == bytes[offset + 4..offset + 8];
      var tag := Tag(bytes[offset..offset + 4]);
      var length := LittleEndian(bytes[offset + 4..offset + 8]);
      var chunkEnd := offset + 8 + length + length % 2;
      if chunkEnd > |bytes| {
        WebpTooShort(rest, sawImage);
        return true;
      }
      WebpStep(rest, sawImage);
      assert rest[RiffEnd(length)..] == bytes[chunkEnd..];
      assert rest[8..8 + length] == bytes[offset + 8..offset + 8 + length];
      if tag == ANIM || tag == ANMF { return true; }
      if tag == VP8X {
        if length != 10 || bytes[offset + 8] / 2 % 2 != 0 { return true; }
      }
      if tag == VP8_ || tag == VP8L { sawImage := true; }
      offset := chunkEnd;
    }
    assert bytes[offset..] == [];
    WebpEnds(sawImage);
    return !sawImage;
  }

  // ----- The WebP types as the standard spells them -----

  /** The same grammar with types compared byte for byte, as section 2.3 of RFC 9649 defines them. */
  predicate StrictWebpRest(cs: seq<Riff>, sawImage: bool) {
    if cs == [] then sawImage
    else IsRiff(cs[0]) && StillChunk(cs[0].kind, cs[0].data) && StrictWebpRest(cs[1..], sawImage || ImageTag(cs[0].kind))
  }

  ghost predicate StrictWebp(bytes: Bytes) {
    && |bytes| >= 12 && bytes[..4] == RIFF && bytes[8..12] == WEBP
    && LittleEndian(bytes[4..8]) + 8 == |bytes|
    && IsStrictWebpRest(bytes[12..])
  }

  ghost predicate IsStrictWebpRest(rest: Bytes) { exists cs :: StrictWebpRest(cs, false) && rest == AllRiff(cs) }

  predicate AreRiff(cs: seq<Riff>) { forall i :: 0 <= i < |cs| ==> IsRiff(cs[i]) }

  lemma {:induction false} RiffIsUnique(a: seq<Riff>, b: seq<Riff>)
    requires AreRiff(a) && AreRiff(b) && AllRiff(a) == AllRiff(b)
    ensures a == b
  {
    if a != [] { HeadRiff(a[0], AllRiff(a[1..])); }
    if b != [] { HeadRiff(b[0], AllRiff(b[1..])); }
    if a != [] && b != [] {
      RiffIsUnique(a[1..], b[1..]);
      assert a == [a[0]] + a[1..] && b == [b[0]] + b[1..];
    }
  }

  lemma {:induction false} GrammarsReadRiff(cs: seq<Riff>, sawTag: bool, sawKind: bool)
    requires WebpRest(cs, sawTag) || StrictWebpRest(cs, sawKind)
    ensures AreRiff(cs)
  {
    if cs != [] {
      assert cs == [cs[0]] + cs[1..];
      GrammarsReadRiff(cs[1..], sawTag || ImageTag(Tag(cs[0].kind)), sawKind || ImageTag(cs[0].kind));
    }
  }

  lemma RiffReadsItself(kind: Bytes)
    ensures kind == ANIM || kind == ANMF || kind == VP8X || ImageTag(kind) ==> Tag(kind) == kind
  {}

  predicate LiteralImage(cs: seq<Riff>) { exists i :: 0 <= i < |cs| && ImageTag(cs[i].kind) }

  lemma LiteralImageStep(cs: seq<Riff>)
    requires cs != []
    ensures LiteralImage(cs) <==> ImageTag(cs[0].kind) || LiteralImage(cs[1..])
  {
    if i :| 0 <= i < |cs| && ImageTag(cs[i].kind) {
      if i > 0 { assert cs[1..][i - 1] == cs[i]; }
    }
    if i :| 0 <= i < |cs[1..]| && ImageTag(cs[1..][i].kind) { assert cs[i + 1] == cs[1..][i]; }
  }

  /** Chunks that the scanner accepts are wrong exactly when none is literally an image. */
  lemma {:induction false} WebpAcceptedWronglyWhen(cs: seq<Riff>, sawTag: bool, sawKind: bool)
    requires WebpRest(cs, sawTag)
    ensures !StrictWebpRest(cs, sawKind) <==> !sawKind && !LiteralImage(cs)
  {
    if cs != [] {
      RiffReadsItself(cs[0].kind);
      LiteralImageStep(cs);
      WebpAcceptedWronglyWhen(cs[1..], sawTag || ImageTag(Tag(cs[0].kind)), sawKind || ImageTag(cs[0].kind));
    }
  }

  predicate Disturbed(cs: seq<Riff>) { exists i :: 0 <= i < |cs| && !StillChunk(Tag(cs[i].kind), cs[i].data) }

  lemma DisturbedStep(cs: seq<Riff>)
    requires cs != []
    ensures Disturbed(cs) <==> !StillChunk(Tag(cs[0].kind), cs[0].data) || Disturbed(cs[1..])
  {
    if i :| 0 <= i < |cs| && !StillChunk(Tag(cs[i].kind), cs[i].data) {
      if i > 0 { assert cs[1..][i - 1] == cs[i]; }
    }
    if i :| 0 <= i < |cs[1..]| && !StillChunk(Tag(cs[1..][i].kind), cs[1..][i].data) { assert cs[i + 1] == cs[1..][i]; }
  }

  /** The chunks of a still image are refused exactly when a type only reads like an animation or a bad header. */
  lemma {:induction false} WebpRefusedWronglyWhen(cs: seq<Riff>, sawTag: bool, sawKind: bool)
    requires StrictWebpRest(cs, sawKind) && (sawKind ==> sawTag)
    ensures !WebpRest(cs, sawTag) <==> Disturbed(cs)
  {
    if cs != [] {
      RiffReadsItself(cs[0].kind);
      DisturbedStep(cs);
      WebpRefusedWronglyWhen(cs[1..], sawTag || ImageTag(Tag(cs[0].kind)), sawKind || ImageTag(cs[0].kind));
    }
  }

  lemma WebpJudgedByChunks(rest: Bytes, cs: seq<Riff>)
    requires AreRiff(cs) && rest == AllRiff(cs)
    ensures (IsWebpRest(rest, false) <==> WebpRest(cs, false)) && (IsStrictWebpRest(rest) <==> StrictWebpRest(cs, false))
  {
    if other :| WebpRest(other, false) && rest == AllRiff(other) {
      GrammarsReadRiff(other, false, false);
      RiffIsUnique(cs, other);
    }
    if other :| StrictWebpRest(other, false) && rest == AllRiff(other) {
      GrammarsReadRiff(other, false, false);
      RiffIsUnique(cs, other);
    }
  }

  lemma ChunksDiffer(rest: Bytes, cs: seq<Riff>)
    requires AreRiff(cs) && rest == AllRiff(cs)
    ensures IsWebpRest(rest, false) ==> (!IsStrictWebpRest(rest) <==> !LiteralImage(cs))
    ensures IsStrictWebpRest(rest) ==> (!IsWebpRest(rest, false) <==> Disturbed(cs))
  {
    WebpJudgedByChunks(rest, cs);
    if WebpRest(cs, false) { WebpAcceptedWronglyWhen(cs, false, false); }
    if StrictWebpRest(cs, false) { WebpRefusedWronglyWhen(cs, false, false); }
  }

  lemma FormReadsItself(kind: Bytes)
    ensures (kind == RIFF ==> Tag(kind) == RIFF) && (kind == WEBP ==> Tag(kind) == WEBP)
  {}

  /** Where scanner and standard differ on a file of these chunks. */
  lemma WebpDiffersWhen(bytes: Bytes, cs: seq<Riff>)
    requires |bytes| >= 12 && AreRiff(cs) && bytes[12..] == AllRiff(cs)
    ensures StillWebp(bytes) ==> (!StrictWebp(bytes) <==> bytes[..4] != RIFF || bytes[8..12] != WEBP || !LiteralImage(cs))
    ensures StrictWebp(bytes) ==> (!StillWebp(bytes) <==> Disturbed(cs))
  {
    ChunksDiffer(bytes[12..], cs);
    FormReadsItself(bytes[..4]);
    FormReadsItself(bytes[8..12]);
  }

  function WebpFile(form: Bytes, size: Bytes, cs: seq<Riff>): Bytes { form + (size + (WEBP + AllRiff(cs))) }

  lemma FileParts(form: Bytes, size: Bytes, cs: seq<Riff>)
    requires |form| == |size| == 4
    ensures var bytes := WebpFile(form, size, cs);
            && bytes[..4] == form && bytes[4..8] == size && bytes[8..12] == WEBP && bytes[12..] == AllRiff(cs)
            && |bytes| == 12 + |AllRiff(cs)|
  {
    CutTwo(form, size + (WEBP + AllRiff(cs)));
    CutTwo(size, WEBP + AllRiff(cs));
    CutTwo(WEBP, AllRiff(cs));
    var rest, bytes := size + (WEBP + AllRiff(cs)), WebpFile(form, size, cs);
    assert bytes[4..] == rest && bytes[4..8] == rest[..4] && bytes[8..] == rest[4..];
    assert bytes[8..12] == rest[4..][..4] && bytes[12..] == rest[4..][4..];
  }

  /** An image chunk without data stands alone, or before others. */
  lemma EmptyImage(c: Riff, more: seq<Riff>)
    requires IsRiff(c) && ImageTag(c.kind) && c.data == []
    ensures WebpRest([c] + more, false) <==> WebpRest(more, true)
    ensures StrictWebpRest([c] + more, false) <==> StrictWebpRest(more, true)
    ensures |AllRiff([c] + more)| == 8 + |AllRiff(more)|
  {
    ConsTail(c, more);
    RiffReadsItself(c.kind);
    assert VP8_[0] != ANIM[0] && VP8_[0] != ANMF[0] && VP8_[3] != VP8X[3];
    assert VP8L[0] != ANIM[0] && VP8L[0] != ANMF[0] && VP8L[3] != VP8X[3];
  }

  /** A chunk whose type reads like an animation, and is none. */
  lemma HighAnimation(c: Riff)
    requires IsRiff(c) && c.data == [] && Tag(c.kind) == ANIM && c.kind[0] >= 128
    ensures StrictWebpRest([c], true) && Disturbed([c]) && |AllRiff([c])| == 8
  {
    assert [c][1..] == [] && AllRiff([]) == [] && StrictWebpRest([], true);
    assert c.kind[0] != ANIM[0] && c.kind[0] != ANMF[0] && c.kind[0] != VP8X[0];
    assert !StillChunk(Tag([c][0].kind), [c][0].data);
  }

  /** Any file that begins with what only reads like RIFF, and holds an image, is taken for WebP. */
  lemma HighFormPasses(form: Bytes, size: Bytes, c: Riff)
    requires |form| == |size| == 4 && Tag(form) == RIFF && form != RIFF && LittleEndian(size) == 12
    requires IsRiff(c) && ImageTag(c.kind) && c.data == []
    ensures StillWebp(WebpFile(form, size, [c])) && !StrictWebp(WebpFile(form, size, [c]))
  {
    FileParts(form, size, [c]);
    EmptyConcat([c]);
    EmptyImage(c, []);
    FormReadsItself(WEBP);
  }

  /** Any file with a chunk that only reads like an animation is refused. */
  lemma HighAnimationRefuses(size: Bytes, c: Riff, d: Riff)
    requires |size| == 4 && LittleEndian(size) == 20
    requires IsRiff(c) && ImageTag(c.kind) && c.data == []
    requires IsRiff(d) && Tag(d.kind) == ANIM && d.kind[0] >= 128 && d.data == []
    ensures StrictWebp(WebpFile(RIFF, size, [c] + [d])) && !StillWebp(WebpFile(RIFF, size, [c] + [d]))
  {
    var cs := [c] + [d];
    FileParts(RIFF, size, cs);
    HighAnimation(d);
    EmptyImage(c, [d]);
    ConsTail(c, [d]);
    DisturbedStep(cs);
    GrammarsReadRiff(cs, false, false);
    ChunksDiffer(AllRiff(cs), cs);
  }

  const SIZE_12: Bytes := [12, 0, 0, 0]
  const SIZE_20: Bytes := [20, 0, 0, 0]
  const HIGH_RIFF: Bytes := [210, 73, 70, 70]
  const LOSSLESS := Riff(VP8L, [0, 0, 0, 0], [], [])
  const HIGH_ANIMATION := Riff([193, 78, 73, 77], [0, 0, 0, 0], [], [])

  /** These bytes make one file of either kind. */
  lemma HighBitsInWebp()
    ensures Tag(HIGH_RIFF) == RIFF && HIGH_RIFF != RIFF && LittleEndian(SIZE_12) == 12 && LittleEndian(SIZE_20) == 20
    ensures IsRiff(LOSSLESS) && ImageTag(LOSSLESS.kind)
    ensures IsRiff(HIGH_ANIMATION) && Tag(HIGH_ANIMATION.kind) == ANIM && HIGH_ANIMATION.kind[0] >= 128
    ensures exists bytes :: StillWebp(bytes) && !StrictWebp(bytes)
    ensures exists bytes :: StrictWebp(bytes) && !StillWebp(bytes)
  {
    assert HIGH_RIFF[0] != RIFF[0];
    SomeHighForm(HIGH_RIFF, SIZE_12, LOSSLESS);
    SomeHighAnimation(SIZE_20, LOSSLESS, HIGH_ANIMATION);
  }

  lemma SomeHighForm(form: Bytes, size: Bytes, c: Riff)
    requires |form| == |size| == 4 && Tag(form) == RIFF && form != RIFF && LittleEndian(size) == 12
    requires IsRiff(c) && ImageTag(c.kind) && c.data == []
    ensures exists bytes :: StillWebp(bytes) && !StrictWebp(bytes)
  {
    HighFormPasses(form, size, c);
  }

  lemma SomeHighAnimation(size: Bytes, c: Riff, d: Riff)
    requires |size| == 4 && LittleEndian(size) == 20
    requires IsRiff(c) && ImageTag(c.kind) && c.data == []
    requires IsRiff(d) && Tag(d.kind) == ANIM && d.kind[0] >= 128 && d.data == []
    ensures exists bytes :: StrictWebp(bytes) && !StillWebp(bytes)
  {
    HighAnimationRefuses(size, c, d);
  }
}
