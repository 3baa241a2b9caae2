/** Image type and pixel dimensions from the first bytes of an upload, without decoding it. */
module Jpeg {
  import opened Prelude

  type Byte = x: int | 0 <= x < 256

  datatype Dimensions = Dimensions(width: nat, height: nat)

  function U16(hi: Byte, lo: Byte): (r: nat)
    ensures r < 0x1_0000
  {
    hi * 256 + lo
  }

  // ---------------------------------------------------------------- the marker walk

  /** SOF0..SOF15 without DHT, JPG and DAC. */
  predicate IsFrameMarker(m: Byte) {
    0xC0 <= m <= 0xCF && m != 0xC4 && m != 0xC8 && m != 0xCC
  }

  /** SOI, EOI and the restart markers. */
  predicate IsStandalone(m: Byte) {
    0xD0 <= m <= 0xD9
  }

  /** What the walk returns from an offset on. */
  function Walk(buf: seq<Byte>, offset: nat): Option<Dimensions>
    decreases |buf| - offset
  {
    if offset + 9 >= |buf| then None
    else if buf[offset] != 0xFF then Walk(buf, offset + 1)
    else
      var marker := buf[offset + 1];
      if IsFrameMarker(marker) then
        Some(Dimensions(U16(buf[offset + 7], buf[offset + 8]), U16(buf[offset + 5], buf[offset + 6])))
      else if IsStandalone(marker) then Walk(buf, offset + 2)
      else
        var segmentLength := U16(buf[offset + 2], buf[offset + 3]);
        if segmentLength < 2 then None else Walk(buf, offset + 2 + segmentLength)
  }

  /** The loop terminates on every buffer, reads only inside it, and computes the walk. */
  method JpegDimensions(buf: array<Byte>) returns (r: Option<Dimensions>)
    ensures r == Walk(buf[..], 2)
  {
    var offset := 2;
    while offset + 9 < buf.Length
      invariant Walk(buf[..], offset) == Walk(buf[..], 2)
      decreases buf.Length - offset
    {
      if buf[offset] != 0xFF {
        offset := offset + 1;
        continue;
      }
      var marker := buf[offset + 1];
      if IsFrameMarker(marker) {
        var height := U16(buf[offset + 5], buf[offset + 6]);
        var width := U16(buf[offset + 7], buf[offset + 8]);
        return Some(Dimensions(width, height));
      }
      if IsStandalone(marker) {
        offset := offset + 2;
        continue;
      }
      var segmentLength := U16(buf[offset + 2], buf[offset + 3]);
      if segmentLength < 2 { return None; }
      offset := offset + 2 + segmentLength;
    }
    r := None;
  }

  // ---------------------------------------------------------------- files as T.81 writes them

  /** Marker codes of segments; 0xFF is a fill byte and 0x01 is TEM. */
  type SegmentMarker = m: Byte | 0x02 <= m < 0xFF && !IsFrameMarker(m) && !IsStandalone(m) witness 0xE0
  type StandaloneMarker = m: Byte | IsStandalone(m) witness 0xD8
  type FrameMarker = m: Byte | IsFrameMarker(m) witness 0xC0
  type Payload = p: seq<Byte> | |p| <= 0xFFFD
  type Word = n: nat | n < 0x1_0000

  /** What may stand between SOI and the frame header (section B.2.4 of ITU-T T.81): a marker segment
      with its two-byte length, a marker without one, the marker TEM, which has none either, or a fill
      byte 0xFF in front of the next marker (section B.1.1.2). */
  datatype Item = Segment(code: SegmentMarker, payload: Payload) | Standalone(marker: StandaloneMarker) | Tem | Fill

  /** Items without TEM and fill bytes. */
  predicate AllPlain(xs: seq<Item>) {
    forall k :: 0 <= k < |xs| ==> xs[k].Segment? || xs[k].Standalone?
  }

  function Split16(n: Word): (r: seq<Byte>)
    ensures |r| == 2 && U16(r[0], r[1]) == n
  {
    [n / 256, n % 256]
  }

  function Mark(m: Byte): (r: seq<Byte>)
    ensures |r| == 2 && r[0] == 0xFF && r[1] == m
  {
    [0xFF, m]
  }

  function Encode(x: Item): seq<Byte> {
    match x
    case Standalone(m) => Mark(m)
    case Segment(m, p) => Mark(m) + Split16(|p| + 2) + p
    case Tem => Mark(0x01)
    case Fill => [0xFF]
  }

  function Concat(cs: seq<seq<Byte>>): seq<Byte> {
    if cs == [] then [] else cs[0] + Concat(cs[1..])
  }

  function Encodings(xs: seq<Item>): seq<seq<Byte>> {
    seq(|xs|, k requires 0 <= k < |xs| => Encode(xs[k]))
  }

  function EncodeAll(xs: seq<Item>): seq<Byte> {
    Concat(Encodings(xs))
  }

  type Components = cs: seq<(Byte, Byte, Byte)> | |cs| <= 255

  /** A frame header (section B.2.2): precision, number of lines, samples per line, components. */
  datatype Frame = Frame(marker: FrameMarker, precision: Byte, lines: Word, samples: Word, components: Components)

  function EncodeComponents(cs: seq<(Byte, Byte, Byte)>): seq<Byte> {
    if cs == [] then [] else [cs[0].0, cs[0].1, cs[0].2] + EncodeComponents(cs[1..])
  }

  function EncodeFrame(f: Frame): (r: seq<Byte>)
    ensures |r| >= 10 && r[0] == 0xFF && r[1] == f.marker && U16(r[5], r[6]) == f.lines && U16(r[7], r[8]) == f.samples
  {
    Mark(f.marker) + Split16(8 + 3 * |f.components|) + [f.precision] + Split16(f.lines) + Split16(f.samples)
      + [|f.components|] + EncodeComponents(f.components)
  }

  /** The walk from an offset sees only what follows it. */
  lemma WalkFrame(buf: seq<Byte>, offset: nat, f: Frame, rest: seq<Byte>)
    requires offset <= |buf| && buf[offset..] == EncodeFrame(f) + rest
    ensures Walk(buf, offset) == Some(Dimensions(f.samples, f.lines))
  {
    var e := EncodeFrame(f);
    assert |buf| == offset + |e| + |rest|;
    forall k | 0 <= k < |e| ensures buf[offset + k] == e[k] {
      assert buf[offset..][k] == e[k];
    }
  }

  /** A chunk the walk steps over: a standalone marker or a whole segment. */
  predicate Skipped(c: seq<Byte>) {
    && |c| >= 2 && c[0] == 0xFF && !IsFrameMarker(c[1])
    && if IsStandalone(c[1]) then |c| == 2 else |c| >= 4 && |c| == 2 + U16(c[2], c[3])
  }

  lemma PlainIsSkipped(x: Item)
    requires x.Segment? || x.Standalone?
    ensures Skipped(Encode(x))
  {
    if x.Segment? {
      var c, n := Encode(x), Split16(|x.payload| + 2);
      assert c[1] == x.code && c[2] == n[0] && c[3] == n[1];
    }
  }

  /** The walk steps over a chunk to what follows it. */
  lemma WalkChunk(buf: seq<Byte>, offset: nat, c: seq<Byte>, tail: seq<Byte>)
    requires Skipped(c) && offset <= |buf| && buf[offset..] == c + tail && |tail| >= 10
    ensures offset + |c| <= |buf| && buf[offset + |c|..] == tail
    ensures Walk(buf, offset) == Walk(buf, offset + |c|)
  {
    assert |buf| == offset + |c| + |tail|;
    forall k | 0 <= k < |c| ensures buf[offset + k] == c[k] {
      assert buf[offset..][k] == c[k];
    }
    assert buf[offset..][|c|..] == tail;
  }

  /** The walk steps over all chunks to what they lead to. */
  lemma {:induction false} WalkChunks(buf: seq<Byte>, offset: nat, cs: seq<seq<Byte>>, end: seq<Byte>)
    requires forall c <- cs :: Skipped(c)
    requires offset <= |buf| && buf[offset..] == Concat(cs) + end && |end| >= 10
    ensures offset + |Concat(cs)| <= |buf| && buf[offset + |Concat(cs)|..] == end
    ensures Walk(buf, offset) == Walk(buf, offset + |Concat(cs)|)
    decreases |cs|
  {
    if cs == [] {
      assert Concat(cs) == [] && buf[offset..] == end;
    } else {
      assert Concat(cs) + end == cs[0] + (Concat(cs[1..]) + end);
      WalkChunk(buf, offset, cs[0], Concat(cs[1..]) + end);
      WalkChunks(buf, offset + |cs[0]|, cs[1..], end);
    }
  }

  lemma WalkItems(buf: seq<Byte>, offset: nat, xs: seq<Item>, end: seq<Byte>)
    requires AllPlain(xs)
    requires offset <= |buf| && buf[offset..] == EncodeAll(xs) + end && |end| >= 10
    ensures offset + |EncodeAll(xs)| <= |buf| && buf[offset + |EncodeAll(xs)|..] == end
    ensures Walk(buf, offset) == Walk(buf, offset + |EncodeAll(xs)|)
  {
    forall c <- Encodings(xs) ensures Skipped(c) {
      var k :| 0 <= k < |xs| && c == Encode(xs[k]);
      PlainIsSkipped(xs[k]);
    }
    WalkChunks(buf, offset, Encodings(xs), end);
  }

  lemma {:induction false} ConcatAppend(cs: seq<seq<Byte>>, ds: seq<seq<Byte>>)
    ensures Concat(cs + ds) == Concat(cs) + Concat(ds)
  {
    if cs == [] {
      assert cs + ds == ds;
    } else {
      assert (cs + ds)[1..] == cs[1..] + ds;
      ConcatAppend(cs[1..], ds);
    }
  }

  lemma EncodeAppend(ys: seq<Item>, zs: seq<Item>)
    ensures EncodeAll(ys + zs) == EncodeAll(ys) + EncodeAll(zs)
  {
    assert Encodings(ys + zs) == Encodings(ys) + Encodings(zs);
    ConcatAppend(Encodings(ys), Encodings(zs));
  }

  lemma OneItem(x: Item)
    ensures EncodeAll([x]) == Encode(x)
  {
    assert Encodings([x]) == [Encode(x)];
    assert Concat([Encode(x)]) == Encode(x) by { assert [Encode(x)][1..] == []; }
  }

  lemma FirstItem(x: Item, xs: seq<Item>)
    ensures EncodeAll([x] + xs) == Encode(x) + EncodeAll(xs)
  {
    EncodeAppend([x], xs);
    OneItem(x);
  }

  const SOI: seq<Byte> := [0xFF, 0xD8]

  /** The walk from the start of any plain items finds the frame they lead to. */
  lemma WalkToFrame(buf: seq<Byte>, offset: nat, xs: seq<Item>, f: Frame, rest: seq<Byte>)
    requires AllPlain(xs)
    requires offset <= |buf| && buf[offset..] == EncodeAll(xs) + (EncodeFrame(f) + rest)
    ensures Walk(buf, offset) == Some(Dimensions(f.samples, f.lines))
  {
    var end := EncodeFrame(f) + rest;
    WalkItems(buf, offset, xs, end);
    WalkFrame(buf, offset + |EncodeAll(xs)|, f, rest);
  }

  /** After SOI and any well-formed items but TEM and fill bytes, the walk finds exactly the
      width and height of the frame header, whatever follows it. */
  lemma WalkFindsTheFrame(xs: seq<Item>, f: Frame, rest: seq<Byte>)
    requires AllPlain(xs)
    ensures Walk(SOI + (EncodeAll(xs) + (EncodeFrame(f) + rest)), 2) == Some(Dimensions(f.samples, f.lines))
  {
    var buf := SOI + (EncodeAll(xs) + (EncodeFrame(f) + rest));
    assert buf[2..] == EncodeAll(xs) + (EncodeFrame(f) + rest);
    WalkToFrame(buf, 2, xs, f, rest);
  }

  // ---------------------------------------------------------------- headers the walk misreads

  /** The bytes from the first misread item on: some items, the frame, the rest. */
  function Tail(ys: seq<Item>, f: Frame, rest: seq<Byte>): (r: seq<Byte>)
    ensures |r| >= 10
  {
    EncodeAll(ys) + (EncodeFrame(f) + rest)
  }

  lemma FirstBytes(x: Item)
    ensures |Encode(x)| >= 1 && Encode(x)[0] == 0xFF && (if x.Fill? then |Encode(x)| == 1 else |Encode(x)| >= 2 && Encode(x)[1] > 0)
  {
  }

  lemma {:induction false} TailStarts(ys: seq<Item>, f: Frame, rest: seq<Byte>)
    ensures var t := Tail(ys, f, rest); t[0] == 0xFF && t[1] > 0
  {
    if ys == [] {
      assert Tail(ys, f, rest) == EncodeFrame(f) + rest;
    } else {
      TailOf(ys[0], ys[1..], f, rest);
      assert ys == [ys[0]] + ys[1..];
      FirstBytes(ys[0]);
      TailStarts(ys[1..], f, rest);
    }
  }

  lemma TailOf(x: Item, zs: seq<Item>, f: Frame, rest: seq<Byte>)
    ensures Tail([x] + zs, f, rest) == Encode(x) + Tail(zs, f, rest)
  {
    FirstItem(x, zs);
  }

  /** A file whose items up to y are plain. */
  function FileOf(xs: seq<Item>, y: Item, tail: seq<Byte>): seq<Byte> {
    SOI + EncodeAll(xs) + (Encode(y) + tail)
  }

  /** Where the walk goes on after it took the two bytes behind TEM, or behind the 0xFF that follows a
      fill byte, for the length of a segment. */
  function Landing(xs: seq<Item>, y: Item, tail: seq<Byte>): nat
    requires |tail| >= 3
  {
    2 + |EncodeAll(xs)| + 2 + if y.Tem? then U16(tail[0], tail[1]) else U16(tail[1], tail[2])
  }

  lemma AfterSoi(e: seq<Byte>, end: seq<Byte>)
    ensures (SOI + e + end)[2..] == e + end
  {
  }

  lemma WalkOverPlain(xs: seq<Item>, end: seq<Byte>)
    requires AllPlain(xs) && |end| >= 10
    ensures Walk(SOI + EncodeAll(xs) + end, 2) == Walk(SOI + EncodeAll(xs) + end, 2 + |EncodeAll(xs)|)
  {
    AfterSoi(EncodeAll(xs), end);
    WalkItems(SOI + EncodeAll(xs) + end, 2, xs, end);
  }

  /** One step of the walk at TEM or a fill byte. */
  lemma WalkMisreads(file: seq<Byte>, head: seq<Byte>, y: Item, tail: seq<Byte>)
    requires (y.Tem? || y.Fill?) && |tail| >= 10 && tail[0] == 0xFF && tail[1] > 0
    requires file == head + (Encode(y) + tail)
    ensures Walk(file, |head|) == Walk(file, |head| + 2 + if y.Tem? then U16(tail[0], tail[1]) else U16(tail[1], tail[2]))
  {
    var off, end := |head|, Encode(y) + tail;
    assert file[off] == end[0] && file[off + 1] == end[1] && file[off + 2] == end[2] && file[off + 3] == end[3];
  }

  lemma WalkEnds(buf: seq<Byte>, at: nat)
    ensures at + 9 >= |buf| ==> Walk(buf, at) == None
  {
  }

  lemma WalkLands(xs: seq<Item>, y: Item, tail: seq<Byte>)
    requires AllPlain(xs) && (y.Tem? || y.Fill?) && |tail| >= 10 && tail[0] == 0xFF && tail[1] > 0
    ensures Walk(FileOf(xs, y, tail), 2) == Walk(FileOf(xs, y, tail), Landing(xs, y, tail))
  {
    WalkOverPlain(xs, Encode(y) + tail);
    WalkMisreads(FileOf(xs, y, tail), SOI + EncodeAll(xs), y, tail);
  }

  /** The first TEM or fill byte of a header sends the walk to its landing, whatever follows. The file
      is refused if the landing lies within ten bytes of its end or beyond; otherwise the walk goes on there. */
  lemma MisreadOutcome(xs: seq<Item>, y: Item, ys: seq<Item>, f: Frame, rest: seq<Byte>)
    requires AllPlain(xs) && (y.Tem? || y.Fill?)
    ensures var tail := Tail(ys, f, rest);
      var file, at := FileOf(xs, y, tail), Landing(xs, y, tail);
      Walk(file, 2) == Walk(file, at) && (at + 9 >= |file| ==> Walk(file, 2) == None)
  {
    var tail := Tail(ys, f, rest);
    TailStarts(ys, f, rest);
    WalkLands(xs, y, tail);
    WalkEnds(FileOf(xs, y, tail), Landing(xs, y, tail));
  }

  /** The walk runs over bytes other than 0xFF. */
  lemma {:induction false} WalkSkips(buf: seq<Byte>, from: nat, to: nat)
    requires from <= to <= |buf| && forall k :: from <= k < to ==> buf[k] != 0xFF
    ensures Walk(buf, from) == Walk(buf, to)
    decreases |buf| - from
  {
    if from < to {
      WalkSkips(buf, from + 1, to);
    }
  }

  /** No 0xFF from an offset on. */
  predicate Quiet(bytes: seq<Byte>, from: nat) {
    from <= |bytes| && forall k :: from <= k < |bytes| ==> bytes[k] != 0xFF
  }

  lemma WalkRecovers(file: seq<Byte>, at: nat, head: seq<Byte>, zs: seq<Item>, f: Frame, rest: seq<Byte>)
    requires AllPlain(zs) && file == head + (EncodeAll(zs) + (EncodeFrame(f) + rest))
    requires Quiet(head, at)
    ensures Walk(file, at) == Some(Dimensions(f.samples, f.lines))
  {
    forall k | at <= k < |head| ensures file[k] != 0xFF { assert file[k] == head[k]; }
    WalkSkips(file, at, |head|);
    assert file[|head|..] == EncodeAll(zs) + (EncodeFrame(f) + rest);
    WalkToFrame(file, |head|, zs, f, rest);
  }

  /** A file up to the items that follow ys. */
  function Head(xs: seq<Item>, y: Item, ys: seq<Item>): seq<Byte> {
    SOI + EncodeAll(xs) + Encode(y) + EncodeAll(ys)
  }

  lemma Regroup(a: seq<Byte>, b: seq<Byte>, c: seq<Byte>, d: seq<Byte>, e: seq<Byte>)
    ensures a + (b + ((c + d) + e)) == ((a + b) + c) + (d + e)
  {
  }

  lemma FileSplits(xs: seq<Item>, y: Item, ys: seq<Item>, zs: seq<Item>, f: Frame, rest: seq<Byte>)
    ensures FileOf(xs, y, Tail(ys + zs, f, rest)) == Head(xs, y, ys) + (EncodeAll(zs) + (EncodeFrame(f) + rest))
  {
    EncodeAppend(ys, zs);
    Regroup(SOI + EncodeAll(xs), Encode(y), EncodeAll(ys), EncodeAll(zs), EncodeFrame(f) + rest);
  }

  /** If the landing lies in items ys and no 0xFF stands between it and their end, and all later items
      are plain, the walk falls into step again and finds the frame. */
  lemma MisreadRecovers(xs: seq<Item>, y: Item, ys: seq<Item>, zs: seq<Item>, f: Frame, rest: seq<Byte>)
    requires AllPlain(xs) && (y.Tem? || y.Fill?) && AllPlain(zs)
    requires Quiet(Head(xs, y, ys), Landing(xs, y, Tail(ys + zs, f, rest)))
    ensures Walk(FileOf(xs, y, Tail(ys + zs, f, rest)), 2) == Some(Dimensions(f.samples, f.lines))
  {
    MisreadOutcome(xs, y, ys + zs, f, rest);
    FileSplits(xs, y, ys, zs, f, rest);
    WalkRecovers(FileOf(xs, y, Tail(ys + zs, f, rest)), Landing(xs, y, Tail(ys + zs, f, rest)), Head(xs, y, ys), zs, f, rest);
  }

  /** A fill byte or TEM right in front of the frame header: the file is refused unless some 48
      kilobytes follow. */
  lemma FrameIsLost(xs: seq<Item>, y: Item, f: Frame, rest: seq<Byte>)
    requires AllPlain(xs) && (y.Tem? || y.Fill?)
    requires |EncodeFrame(f) + rest| < 49_162
    ensures Walk(FileOf(xs, y, EncodeFrame(f) + rest), 2) == None
  {
    assert Tail([], f, rest) == EncodeFrame(f) + rest;
    MisreadOutcome(xs, y, [], f, rest);
    assert U16(0xFF, f.marker) >= 0xC000;
    var tail := EncodeFrame(f) + rest;
    assert tail[0] == 0xFF && tail[1] == f.marker;
    assert U16(f.marker, tail[2]) >= 0xC000;
  }

  /** A fill byte in front of a segment that is long enough for its marker code and holds no 0xFF does
      no harm: the landing is inside the segment. */
  lemma LongSegmentAbsorbs(xs: seq<Item>, x: Item, zs: seq<Item>, f: Frame, rest: seq<Byte>)
    requires AllPlain(xs) && x.Segment? && AllPlain(zs)
    requires 0xFF !in x.payload && 256 * x.code + (|x.payload| + 2) / 256 <= |x.payload| + 3
    ensures Walk(FileOf(xs, Fill, Tail([x] + zs, f, rest)), 2) == Some(Dimensions(f.samples, f.lines))
  {
    OneItem(x);
    TailOf(x, zs, f, rest);
    var tail := Tail([x] + zs, f, rest);
    SegmentBytes(x, tail, Tail(zs, f, rest));
    AbsorbedLanding(xs, x, tail);
    QuietSegment(SOI + EncodeAll(xs), x, Landing(xs, Fill, tail));
    MisreadRecovers(xs, Fill, [x], zs, f, rest);
  }

  lemma QuietSegment(pre: seq<Byte>, x: Item, at: nat)
    requires x.Segment? && 0xFF !in x.payload && |pre| + 5 <= at <= |pre| + 5 + |x.payload|
    ensures Quiet(pre + Encode(Fill) + Encode(x), at)
  {
    var head := pre + Encode(Fill) + Encode(x);
    forall k | at <= k < |head| ensures head[k] != 0xFF {
      assert head[k] == x.payload[k - |pre| - 5];
    }
  }

  lemma AbsorbedLanding(xs: seq<Item>, x: Item, tail: seq<Byte>)
    requires AllPlain(xs) && x.Segment? && |tail| >= 4
    requires tail[1] == x.code && tail[2] == (|x.payload| + 2) / 256
    requires 256 * x.code + (|x.payload| + 2) / 256 <= |x.payload| + 3
    ensures |SOI + EncodeAll(xs)| + 5 <= Landing(xs, Fill, tail) <= |SOI + EncodeAll(xs)| + 5 + |x.payload|
  {
  }

  lemma SegmentBytes(x: Item, tail: seq<Byte>, more: seq<Byte>)
    requires x.Segment? && tail == Encode(x) + more
    ensures |tail| >= 4 && tail[1] == x.code && tail[2] == (|x.payload| + 2) / 256
  {
    assert Encode(x)[1] == x.code && Encode(x)[2] == (|x.payload| + 2) / 256;
  }

  // ---------------------------------------------------------------- inspectImage

  datatype Mime = ImageJpeg | ImagePng | ImageWebp

  datatype Inspection = Image(mime: Mime, width: nat, height: nat) | InvalidFileType | ImageTooLarge

  const MAX_IMAGE_PIXELS := 25_000_000
  const MAX_IMAGE_DIMENSION := 12_000

  const PNG_SIGNATURE: seq<Byte> := [0x89, 0x50, 0x4E, 0x47, 0x0D, 0x0A, 0x1A, 0x0A]
  const RIFF: seq<Byte> := [0x52, 0x49, 0x46, 0x46]
  const WEBP: seq<Byte> := [0x57, 0x45, 0x42, 0x50]
  const VP8: seq<Byte> := [0x56, 0x50, 0x38, 0x20]
  const VP8L: seq<Byte> := [0x56, 0x50, 0x38, 0x4C]
  const VP8X: seq<Byte> := [0x56, 0x50, 0x38, 0x58]

  /** Decoding as ASCII clears the highest bit of each byte. */
  function Ascii(bytes: seq<Byte>): seq<Byte> {
    seq(|bytes|, k requires 0 <= k < |bytes| => bytes[k] % 128)
  }

  function DetectMime(buf: seq<Byte>): Option<Mime> {
    if |buf| < 12 then None
    else if buf[0] == 0xFF && buf[1] == 0xD8 && buf[2] == 0xFF then Some(ImageJpeg)
    else if buf[..8] == PNG_SIGNATURE then Some(ImagePng)
    else if Ascii(buf[..4]) == RIFF && Ascii(buf[8..12]) == WEBP then Some(ImageWebp)
    else None
  }

  function PngDimensions(buf: seq<Byte>): Option<Dimensions> {
    if |buf| < 24 then None
    else Some(Dimensions(U16(buf[16], buf[17]) * 0x1_0000 + U16(buf[18], buf[19]), U16(buf[20], buf[21]) * 0x1_0000 + U16(buf[22], buf[23])))
  }

  /** Little-endian fields; a mask of 0x3fff keeps 14 bits. */
  function WebpDimensions(buf: seq<Byte>): Option<Dimensions> {
    if |buf| < 30 then None
    else if Ascii(buf[12..16]) == VP8 then Some(Dimensions(U16(buf[27], buf[26]) % 0x4000, U16(buf[29], buf[28]) % 0x4000))
    else if Ascii(buf[12..16]) == VP8L then
      var bits := U16(buf[24], buf[23]) * 0x1_0000 + U16(buf[22], buf[21]);
      Some(Dimensions(bits % 0x4000 + 1, bits / 0x4000 % 0x4000 + 1))
    else if Ascii(buf[12..16]) == VP8X then
      Some(Dimensions(1 + buf[26] * 0x1_0000 + U16(buf[25], buf[24]), 1 + buf[29] * 0x1_0000 + U16(buf[28], buf[27])))
    else None
  }

  function HeaderDimensions(mime: Mime, buf: seq<Byte>): Option<Dimensions> {
    match mime
    case ImagePng => PngDimensions(buf)
    case ImageJpeg => Walk(buf, 2)
    case ImageWebp => WebpDimensions(buf)
  }

  function InspectImage(buf: seq<Byte>): Inspection {
    var mime := DetectMime(buf);
    if mime.None? then InvalidFileType
    else
      var dims := HeaderDimensions(mime.value, buf);
      if dims.None? || dims.value.width == 0 || dims.value.height == 0 then InvalidFileType
      else
        var w, h := dims.value.width, dims.value.height;
        if w > MAX_IMAGE_DIMENSION || h > MAX_IMAGE_DIMENSION || w * h > MAX_IMAGE_PIXELS then ImageTooLarge
        else Image(mime.value, w, h)
  }

  lemma {:induction false} EncodeAllStartsWithMarker(xs: seq<Item>)
    requires AllPlain(xs)
    ensures xs != [] ==> |EncodeAll(xs)| >= 2 && EncodeAll(xs)[0] == 0xFF
  {
  }

  /** The verdict on a file whose header says w by h pixels. */
  function Bounded(mime: Mime, w: nat, h: nat): Inspection {
    if w == 0 || h == 0 then InvalidFileType
    else if w > 12_000 || h > 12_000 || w * h > 25_000_000 then ImageTooLarge
    else Image(mime, w, h)
  }

  lemma InspectJpeg(buf: seq<Byte>, w: nat, h: nat)
    requires |buf| >= 12 && buf[0] == 0xFF && buf[1] == 0xD8 && buf[2] == 0xFF && Walk(buf, 2) == Some(Dimensions(w, h))
    ensures InspectImage(buf) == Bounded(ImageJpeg, w, h)
  {
  }

  /** A well-formed JPEG header is accepted with its own dimensions exactly when they are positive and
      within the bounds; it is too large exactly when they are positive and out of them. */
  lemma JpegInspection(xs: seq<Item>, f: Frame, rest: seq<Byte>)
    requires AllPlain(xs)
    ensures InspectImage(SOI + (EncodeAll(xs) + (EncodeFrame(f) + rest))) == Bounded(ImageJpeg, f.samples, f.lines)
  {
    var tail := EncodeAll(xs) + (EncodeFrame(f) + rest);
    EncodeAllStartsWithMarker(xs);
    assert tail[0] == 0xFF && |tail| >= 10;
    WalkFindsTheFrame(xs, f, rest);
    assert (SOI + tail)[2] == tail[0];
    InspectJpeg(SOI + tail, f.samples, f.lines);
  }

  // ---------------------------------------------------------------- PNG and WebP headers

  type Long = x: int | 0 <= x < 0x1_0000_0000

  /** Four bytes, the highest first. */
  function BigEndian(n: Long): (r: seq<Byte>)
    ensures |r| == 4 && U16(r[0], r[1]) * 0x1_0000 + U16(r[2], r[3]) == n
  {
    var hi, lo := Split16(n / 0x1_0000), Split16(n % 0x1_0000);
    [hi[0], hi[1], lo[0], lo[1]]
  }

  /** Four bytes, the lowest first. */
  function LittleEndian(n: Long): (r: seq<Byte>)
    ensures |r| == 4 && U16(r[3], r[2]) * 0x1_0000 + U16(r[1], r[0]) == n
  {
    var hi, lo := Split16(n / 0x1_0000), Split16(n % 0x1_0000);
    [lo[1], lo[0], hi[1], hi[0]]
  }

  function LittleWord(n: Word): (r: seq<Byte>)
    ensures |r| == 2 && U16(r[1], r[0]) == n
  {
    var w := Split16(n);
    [w[1], w[0]]
  }

  type Triple = x: int | 0 <= x < 0x100_0000

  function LittleTriple(n: Triple): (r: seq<Byte>)
    ensures |r| == 3 && r[2] * 0x1_0000 + U16(r[1], r[0]) == n
  {
    LittleWord(n % 0x1_0000) + [n / 0x1_0000]
  }

  const IHDR: seq<Byte> := [0x00, 0x00, 0x00, 0x0D, 0x49, 0x48, 0x44, 0x52]

  /** A PNG file: its signature, then the header chunk that starts with width and height. */
  function EncodePng(w: Long, h: Long, rest: seq<Byte>): seq<Byte> {
    PNG_SIGNATURE + (IHDR + (BigEndian(w) + (BigEndian(h) + rest)))
  }

  lemma PngFields(buf: seq<Byte>, w: Long, h: Long, rest: seq<Byte>)
    requires |buf| == 24 + |rest| && buf[16..] == BigEndian(w) + (BigEndian(h) + rest)
    ensures PngDimensions(buf) == Some(Dimensions(w, h))
  {
    var a, b, c := BigEndian(w), BigEndian(h), buf[16..];
    assert buf[16] == c[0] == a[0] && buf[17] == c[1] == a[1] && buf[18] == c[2] == a[2] && buf[19] == c[3] == a[3];
    assert buf[20] == c[4] == b[0] && buf[21] == c[5] == b[1] && buf[22] == c[6] == b[2] && buf[23] == c[7] == b[3];
  }

  /** A PNG header is read back as it was written, over the whole range of its fields. */
  lemma PngInspection(w: Long, h: Long, rest: seq<Byte>)
    ensures InspectImage(EncodePng(w, h, rest)) == Bounded(ImagePng, w, h)
  {
    var buf := EncodePng(w, h, rest);
    assert buf[..8] == PNG_SIGNATURE && buf[16..] == BigEndian(w) + (BigEndian(h) + rest);
    assert buf[0] == PNG_SIGNATURE[0];
    PngFields(buf, w, h, rest);
  }

  /** What a WebP file holds: the dimensions in one of the three formats, and what the reader skips. */
  datatype Webp =
    | Lossy(tag: seq<Byte>, width: nat, widthScale: nat, height: nat, heightScale: nat)
    | Lossless(signature: Byte, width: nat, height: nat, top: nat)
    | Extended(flags: seq<Byte>, width: nat, height: nat)

  predicate WellFormed(x: Webp) {
    match x
    case Lossy(tag, w, a, h, b) => |tag| == 6 && w < 0x4000 && h < 0x4000 && a < 4 && b < 4
    case Lossless(_, w, h, f) => 1 <= w <= 0x4000 && 1 <= h <= 0x4000 && f < 16
    case Extended(flags, w, h) => |flags| == 4 && 1 <= w <= 0x100_0000 && 1 <= h <= 0x100_0000
  }

  /** The fields of the format, from byte 20 of the file on. */
  function WebpFields(x: Webp): seq<Byte>
    requires WellFormed(x)
  {
    match x
    case Lossy(tag, w, a, h, b) => tag + (LittleWord(w + 0x4000 * a) + LittleWord(h + 0x4000 * b))
    case Lossless(g, w, h, f) => [g] + LittleEndian((w - 1) + 0x4000 * ((h - 1) + 0x4000 * f))
    case Extended(flags, w, h) => flags + (LittleTriple(w - 1) + LittleTriple(h - 1))
  }

  function WebpFormat(x: Webp): seq<Byte> {
    match x
    case Lossy(_, _, _, _, _) => VP8
    case Lossless(_, _, _, _) => VP8L
    case Extended(_, _, _) => VP8X
  }

  /** A WebP file: the container with its size, the format chunk with its size, its fields. */
  function EncodeWebp(size: Long, x: Webp, chunk: Long, rest: seq<Byte>): seq<Byte>
    requires WellFormed(x)
  {
    RIFF + (LittleEndian(size) + (WEBP + (WebpFormat(x) + (LittleEndian(chunk) + (WebpFields(x) + rest)))))
  }

  lemma Pieces(a: seq<Byte>, b: seq<Byte>, c: seq<Byte>, d: seq<Byte>, e: seq<Byte>)
    requires |a| == |b| == |c| == |d| == 4
    ensures var buf := a + (b + (c + (d + e)));
      |buf| == 16 + |e| && buf[..4] == a && buf[8..12] == c && buf[12..16] == d && buf[16..] == e && buf[0] == a[0]
  {
  }

  lemma Dropped(buf: seq<Byte>, a: seq<Byte>, b: seq<Byte>)
    requires |buf| >= 20 && |a| == 4 && buf[16..] == a + b
    ensures buf[20..] == b
  {
    assert buf[20..] == buf[16..][4..] == b;
  }

  lemma AsciiTags()
    ensures Ascii(RIFF) == RIFF && Ascii(WEBP) == WEBP && Ascii(VP8) == VP8 && Ascii(VP8L) == VP8L && Ascii(VP8X) == VP8X
  {
  }

  lemma WebpHead(size: Long, x: Webp, chunk: Long, rest: seq<Byte>)
    requires WellFormed(x)
    ensures var buf := EncodeWebp(size, x, chunk, rest);
      && |buf| == 20 + |WebpFields(x)| + |rest|
      && Ascii(buf[..4]) == RIFF && Ascii(buf[8..12]) == WEBP && Ascii(buf[12..16]) == WebpFormat(x) && buf[0] == 0x52
      && buf[20..] == WebpFields(x) + rest
  {
    var e := LittleEndian(chunk) + (WebpFields(x) + rest);
    Pieces(RIFF, LittleEndian(size), WEBP, WebpFormat(x), e);
    Dropped(RIFF + (LittleEndian(size) + (WEBP + (WebpFormat(x) + e))), LittleEndian(chunk), WebpFields(x) + rest);
    AsciiTags();
  }

  lemma LossyFields(buf: seq<Byte>, x: Webp, rest: seq<Byte>)
    requires x.Lossy? && WellFormed(x) && |buf| >= 30 && buf[20..] == WebpFields(x) + rest
    ensures U16(buf[27], buf[26]) % 0x4000 == x.width && U16(buf[29], buf[28]) % 0x4000 == x.height
  {
    var a, b := LittleWord(x.width + 0x4000 * x.widthScale), LittleWord(x.height + 0x4000 * x.heightScale);
    PackedFields(x.width, x.widthScale, 0);
    PackedFields(x.height, x.heightScale, 0);
    assert buf[26] == buf[20..][6] == a[0] && buf[27] == buf[20..][7] == a[1];
    assert buf[28] == buf[20..][8] == b[0] && buf[29] == buf[20..][9] == b[1];
  }

  lemma LosslessFields(buf: seq<Byte>, x: Webp, rest: seq<Byte>)
    requires x.Lossless? && WellFormed(x) && |buf| >= 30 && buf[20..] == WebpFields(x) + rest
    ensures U16(buf[24], buf[23]) * 0x1_0000 + U16(buf[22], buf[21])
      == (x.width - 1) + 0x4000 * ((x.height - 1) + 0x4000 * x.top)
  {
    var a := LittleEndian((x.width - 1) + 0x4000 * ((x.height - 1) + 0x4000 * x.top));
    assert buf[21] == buf[20..][1] == a[0] && buf[22] == buf[20..][2] == a[1];
    assert buf[23] == buf[20..][3] == a[2] && buf[24] == buf[20..][4] == a[3];
  }

  lemma PackedFields(w: nat, h: nat, f: nat)
    requires w < 0x4000 && h < 0x4000
    ensures var bits := w + 0x4000 * (h + 0x4000 * f); bits % 0x4000 == w && bits / 0x4000 % 0x4000 == h
  {
  }

  lemma ExtendedFields(buf: seq<Byte>, x: Webp, rest: seq<Byte>)
    requires x.Extended? && WellFormed(x) && |buf| >= 30 && buf[20..] == WebpFields(x) + rest
    ensures 1 + buf[26] * 0x1_0000 + U16(buf[25], buf[24]) == x.width && 1 + buf[29] * 0x1_0000 + U16(buf[28], buf[27]) == x.height
  {
    var a, b := LittleTriple(x.width - 1), LittleTriple(x.height - 1);
    assert buf[24] == buf[20..][4] == a[0] && buf[25] == buf[20..][5] == a[1] && buf[26] == buf[20..][6] == a[2];
    assert buf[27] == buf[20..][7] == b[0] && buf[28] == buf[20..][8] == b[1] && buf[29] == buf[20..][9] == b[2];
  }

  /** A WebP header in any of the three formats is read back as it was written, exactly if the file is at
      least 30 bytes long: a shorter lossless one is refused. */
  lemma WebpInspection(size: Long, x: Webp, chunk: Long, rest: seq<Byte>)
    requires WellFormed(x)
    ensures InspectImage(EncodeWebp(size, x, chunk, rest)) ==
      if 20 + |WebpFields(x)| + |rest| >= 30 then Bounded(ImageWebp, x.width, x.height) else InvalidFileType
  {
    var buf := EncodeWebp(size, x, chunk, rest);
    WebpHead(size, x, chunk, rest);
    assert buf[..8][0] == 0x52;
    assert DetectMime(buf) == Some(ImageWebp);
    if |buf| >= 30 {
      FieldsRead(buf, x, rest);
    }
  }

  lemma FieldsRead(buf: seq<Byte>, x: Webp, rest: seq<Byte>)
    requires WellFormed(x) && |buf| >= 30 && buf[20..] == WebpFields(x) + rest && Ascii(buf[12..16]) == WebpFormat(x)
    ensures WebpDimensions(buf) == Some(Dimensions(x.width, x.height))
  {
    match x
    case Lossy(_, _, _, _, _) => LossyFields(buf, x, rest);
    case Lossless(_, w, h, f) =>
      LosslessFields(buf, x, rest);
      PackedFields(w - 1, h - 1, f);
      LosslessDimensions(buf, w, h, (w - 1) + 0x4000 * ((h - 1) + 0x4000 * f));
    case Extended(_, _, _) =>
      ExtendedFields(buf, x, rest);
      ExtendedDimensions(buf, x.width, x.height);
  }

  lemma LosslessDimensions(buf: seq<Byte>, w: nat, h: nat, bits: nat)
    requires |buf| >= 30 && Ascii(buf[12..16]) == VP8L
    requires U16(buf[24], buf[23]) * 0x1_0000 + U16(buf[22], buf[21]) == bits
    requires w >= 1 && h >= 1 && bits % 0x4000 == w - 1 && bits / 0x4000 % 0x4000 == h - 1
    ensures WebpDimensions(buf) == Some(Dimensions(w, h))
  {
    assert Ascii(buf[12..16])[3] == VP8L[3] != VP8[3];
  }

  lemma ExtendedDimensions(buf: seq<Byte>, w: nat, h: nat)
    requires |buf| >= 30 && Ascii(buf[12..16]) == VP8X
    requires 1 + buf[26] * 0x1_0000 + U16(buf[25], buf[24]) == w && 1 + buf[29] * 0x1_0000 + U16(buf[28], buf[27]) == h
    ensures WebpDimensions(buf) == Some(Dimensions(w, h))
  {
    assert Ascii(buf[12..16])[3] == VP8X[3] != VP8[3] && VP8X[3] != VP8L[3];
  }

  /** The first bytes are those of the file type; a WebP tag is read without the highest bit of its bytes. */
  ghost predicate StartsAs(buf: seq<Byte>, mime: Mime) {
    && |buf| >= 12
    && match mime
       case ImageJpeg => buf[0] == 0xFF && buf[1] == 0xD8 && buf[2] == 0xFF
       case ImagePng => buf[..8] == PNG_SIGNATURE
       case ImageWebp => forall k: nat :: k < 4 ==> buf[k] % 128 == RIFF[k] && buf[8 + k] % 128 == WEBP[k]
  }

  /** Whatever the bytes, an accepted image starts as its type does and is within the decompression bounds. */
  lemma AcceptedIsBounded(buf: seq<Byte>)
    requires InspectImage(buf).Image?
    ensures var r := InspectImage(buf);
      1 <= r.width <= 12_000 && 1 <= r.height <= 12_000 && r.width * r.height <= 25_000_000
      && HeaderDimensions(r.mime, buf) == Some(Dimensions(r.width, r.height))
      && StartsAs(buf, r.mime)
  {
    if InspectImage(buf).mime == ImageWebp {
      forall k: nat | k < 4 ensures buf[k] % 128 == RIFF[k] && buf[8 + k] % 128 == WEBP[k] {
        assert Ascii(buf[..4])[k] == RIFF[k] && Ascii(buf[8..12])[k] == WEBP[k];
      }
    }
  }
}
