/** The size of a picture from its header (cells/gr00t_server.py, ImageHeader.size), against the layouts of
    section B.1.1 and B.2.2 of ITU-T T.81 and sections 3.1 and 4.1.1 of RFC 2083. */
module ImageHeader {
  import opened Basics

  datatype Extent = Extent(width: nat, height: nat)

  const PNG: Bytes := [0x89, 0x50, 0x4E, 0x47, 0x0D, 0x0A, 0x1A, 0x0A]
  const IHDR: Bytes := [0x49, 0x48, 0x44, 0x52]
  const FILL: Byte := 0xFF
  const SOI: Bytes := [0xFF, 0xD8]

  const SOF: set<Byte> := {0xC0, 0xC1, 0xC2, 0xC3, 0xC5, 0xC6, 0xC7, 0xC9, 0xCA, 0xCB, 0xCD, 0xCE, 0xCF}

  /** The start-of-frame markers of table B.1 of T.81: C0 to CF without DHT, JPG and DAC. */
  predicate OfFrame(marker: Byte) { 0xC0 <= marker <= 0xCF && marker !in {0xC4, 0xC8, 0xCC} }

  predicate InSof(marker: Byte): (r: bool)
    ensures r <==> OfFrame(marker)
  {
    marker in SOF
  }

  function U16(b: Bytes): nat
    requires |b| == 2
  {
    b[0] as int * 0x100 + b[1]
  }

  function U32(b: Bytes): nat
    requires |b| == 4
  {
    U16(b[..2]) * 0x10000 + U16(b[2..])
  }

  function Two(n: nat): (b: Bytes)
    requires n < 0x10000
    ensures |b| == 2 && U16(b) == n
  {
    [n / 0x100, n % 0x100]
  }

  function Four(n: nat): (b: Bytes)
    requires n < 0x1_0000_0000
    ensures |b| == 4 && U32(b) == n
  {
    var b := Two(n / 0x10000) + Two(n % 0x10000);
    assert b[..2] == Two(n / 0x10000) && b[2..] == Two(n % 0x10000);
    b
  }

  // ---- the reader ---------------------------------------------------------------------

  /** What the marker at the front of `b` comes to. */
  function Scan(b: Bytes): Option<Extent>
    decreases |b|
  {
    if |b| < 4 || b[0] != FILL then None
    else if b[1] == FILL then Scan(b[1..])
    else if InSof(b[1]) && 9 <= |b| then Some(Extent(U16(b[7..9]), U16(b[5..7])))
    else if 2 + U16(b[2..4]) <= |b| then Scan(b[2 + U16(b[2..4])..]) else None
  }

  function ScanFrom(raw: Bytes, at: nat): Option<Extent> { if at <= |raw| then Scan(raw[at..]) else None }

  function SizeOf(raw: Bytes): Option<Extent> {
    if 24 <= |raw| && raw[..8] == PNG && raw[12..16] == IHDR then Some(Extent(U32(raw[16..20]), U32(raw[20..24])))
    else if 2 <= |raw| && raw[..2] == SOI then Scan(raw[2..]) else None
  }

  lemma {:induction false} DropTwice(b: Bytes, i: nat, j: nat)
    requires i + j <= |b|
    ensures b[i..][j..] == b[i + j..]
  {
  }

  lemma {:induction false} SliceOfDrop(b: Bytes, at: nat, i: nat, j: nat)
    requires i <= j && at + j <= |b|
    ensures b[at..][i..j] == b[at + i..at + j]
  {
  }

  /** One turn of the scan, in the places of the whole file. */
  lemma {:induction false} Turn(raw: Bytes, at: nat)
    requires at + 4 <= |raw| && raw[at] == FILL
    ensures raw[at + 1] == FILL ==> ScanFrom(raw, at) == ScanFrom(raw, at + 1)
    ensures raw[at + 1] != FILL && OfFrame(raw[at + 1]) && at + 9 <= |raw| ==>
      ScanFrom(raw, at) == Some(Extent(U16(raw[at + 7..at + 9]), U16(raw[at + 5..at + 7])))
    ensures raw[at + 1] != FILL && !(OfFrame(raw[at + 1]) && at + 9 <= |raw|) ==>
      ScanFrom(raw, at) == ScanFrom(raw, at + 2 + U16(raw[at + 2..at + 4]))
  {
    var b := raw[at..];
    SliceOfDrop(raw, at, 2, 4);
    if raw[at + 1] == FILL {
      DropTwice(raw, at, 1);
    } else if OfFrame(b[1]) && 9 <= |b| {
      SliceOfDrop(raw, at, 7, 9);
      SliceOfDrop(raw, at, 5, 7);
    } else if 2 + U16(b[2..4]) <= |b| {
      DropTwice(raw, at, 2 + U16(b[2..4]));
    }
  }

  /** `ImageHeader.size`. */
  method Size(raw: Bytes) returns (size: Option<Extent>)
    ensures size == SizeOf(raw)
  {
    if 24 <= |raw| && raw[..8] == PNG && raw[12..16] == IHDR {
      return Some(Extent(U32(raw[16..20]), U32(raw[20..24])));
    }
    if |raw| < 2 || raw[..2] != SOI { return None; }
    var at := 2;
    while at + 4 <= |raw|
      invariant 2 <= at && SizeOf(raw) == ScanFrom(raw, at)
      decreases |raw| - at
    {
      if raw[at] != FILL { return None; }
      Turn(raw, at);
      var marker := raw[at + 1];
      if marker == FILL {
        at := at + 1;
        continue;
      }
      var length := U16(raw[at + 2..at + 4]);
      if OfFrame(marker) && at + 9 <= |raw| {
        return Some(Extent(U16(raw[at + 7..at + 9]), U16(raw[at + 5..at + 7])));
      }
      at := at + 2 + length;
    }
    return None;
  }

  // ---- files as they are laid out -----------------------------------------------------

  /** A segment: the fill bytes before its marker, the marker, and what its length covers. */
  datatype Segment = Segment(fill: nat, marker: Byte, payload: Bytes)

  /** A frame header up to its dimensions; the length field is whatever it is. */
  datatype Frame = Frame(fill: nat, marker: Byte, length: Bytes, precision: Byte, height: Bytes, width: Bytes)

  predicate ValidSegment(s: Segment) { s.marker != FILL && !OfFrame(s.marker) && 2 + |s.payload| < 0x10000 }

  predicate ValidFrame(f: Frame) { OfFrame(f.marker) && |f.length| == 2 && |f.height| == 2 && |f.width| == 2 }

  /** The marker's own FF and the fill bytes before it. */
  function Lead(fill: nat): (b: Bytes)
    ensures |b| == fill + 1
  {
    if fill == 0 then [FILL] else [FILL] + Lead(fill - 1)
  }

  function SegmentBytes(s: Segment): Bytes
    requires ValidSegment(s)
  {
    Lead(s.fill) + ([s.marker] + Two(2 + |s.payload|) + s.payload)
  }

  function FrameBytes(f: Frame): Bytes
    requires ValidFrame(f)
  {
    Lead(f.fill) + ([f.marker] + f.length + [f.precision] + f.height + f.width)
  }

  predicate ValidAll(segments: seq<Segment>) { forall k :: 0 <= k < |segments| ==> ValidSegment(segments[k]) }

  function AllBytes(segments: seq<Segment>): Bytes
    requires ValidAll(segments)
  {
    if segments == [] then [] else SegmentBytes(segments[0]) + AllBytes(segments[1..])
  }

  /** Segments, a frame header and anything after it. */
  ghost predicate LaidOut(b: Bytes, segments: seq<Segment>, f: Frame, after: Bytes) {
    ValidAll(segments) && ValidFrame(f) && b == AllBytes(segments) + (FrameBytes(f) + after)
  }

  ghost predicate FrameOf(b: Bytes, size: Extent) {
    exists segments: seq<Segment>, f: Frame, after: Bytes ::
      LaidOut(b, segments, f, after) && size == Extent(U16(f.width), U16(f.height))
  }

  /** Section B.2.2 of T.81: the image begins with SOI, and its first frame header carries the size. */
  ghost predicate IsJpeg(raw: Bytes, size: Extent) { 2 <= |raw| && raw[..2] == SOI && FrameOf(raw[2..], size) }

  /** Sections 3.1 and 4.1.1 of RFC 2083: the signature, then a chunk called IHDR that begins with the size. */
  ghost predicate IsPng(raw: Bytes, size: Extent) {
    exists length: Bytes, after: Bytes ::
      && |length| == 4 && size.width < 0x1_0000_0000 && size.height < 0x1_0000_0000
      && raw == PNG + length + IHDR + Four(size.width) + Four(size.height) + after
  }

  // ---- what is laid out is read -------------------------------------------------------

  lemma {:induction false} ScanLead(fill: nat, b: Bytes)
    requires |b| >= 3
    ensures Scan(Lead(fill) + b) == Scan([FILL] + b)
  {
    if fill > 0 {
      var all := Lead(fill) + b;
      assert all[1..] == Lead(fill - 1) + b;
      assert all[1] == Lead(fill - 1)[0];
      ScanLead(fill - 1, b);
    }
  }

  lemma {:induction false} ScanSegment(s: Segment, after: Bytes)
    requires ValidSegment(s)
    ensures Scan(SegmentBytes(s) + after) == Scan(after)
  {
    var body := [s.marker] + Two(2 + |s.payload|) + s.payload;
    assert SegmentBytes(s) + after == Lead(s.fill) + (body + after);
    ScanLead(s.fill, body + after);
    var b := [FILL] + (body + after);
    assert b[2..4] == Two(2 + |s.payload|);
    assert b[4 + |s.payload|..] == after;
  }

  lemma {:induction false} ScanFrame(f: Frame, after: Bytes)
    requires ValidFrame(f)
    ensures Scan(FrameBytes(f) + after) == Some(Extent(U16(f.width), U16(f.height)))
  {
    var body := [f.marker] + f.length + [f.precision] + f.height + f.width;
    assert FrameBytes(f) + after == Lead(f.fill) + (body + after);
    ScanLead(f.fill, body + after);
    var b := [FILL] + (body + after);
    assert b[5..7] == f.height && b[7..9] == f.width;
  }

  lemma {:induction false} ScanLaidOut(segments: seq<Segment>, f: Frame, after: Bytes)
    requires ValidAll(segments) && ValidFrame(f)
    ensures Scan(AllBytes(segments) + (FrameBytes(f) + after)) == Some(Extent(U16(f.width), U16(f.height)))
    decreases |segments|
  {
    ScanFrame(f, after);
    var tail := FrameBytes(f) + after;
    if segments == [] {
      assert AllBytes(segments) + tail == tail;
    } else {
      ScanLaidOut(segments[1..], f, after);
      ScanSegment(segments[0], AllBytes(segments[1..]) + tail);
      assert AllBytes(segments) + tail == SegmentBytes(segments[0]) + (AllBytes(segments[1..]) + tail);
    }
  }

  // ---- what is read was laid out ------------------------------------------------------

  lemma {:induction false} ShortHasNone(b: Bytes)
    requires |b| < 9
    ensures Scan(b) == None
    decreases |b|
  {
    if 4 <= |b| && b[0] == FILL {
      if b[1] == FILL { ShortHasNone(b[1..]); } else if 2 + U16(b[2..4]) <= |b| { ShortHasNone(b[2 + U16(b[2..4])..]); }
    }
  }

  /** A length that does not cover itself ends the scan, as does a frame header cut short. */
  lemma {:induction false} SkippedIsSegment(b: Bytes)
    requires 4 <= |b| && b[0] == FILL && b[1] != FILL && !(OfFrame(b[1]) && 9 <= |b|) && Scan(b).Some?
    ensures 2 <= U16(b[2..4]) && 2 + U16(b[2..4]) <= |b| && !OfFrame(b[1])
  {
    var n := U16(b[2..4]);
    var rest := b[2 + n..];
    if |rest| < 9 { ShortHasNone(rest); }
    assert rest[0] == b[2 + n] == FILL;
  }

  /** One more FF in front is one more fill byte. */
  lemma {:induction false} OneMoreFill(b: Bytes, segments: seq<Segment>, f: Frame, after: Bytes)
      returns (segments': seq<Segment>, f': Frame)
    requires LaidOut(b, segments, f, after)
    ensures LaidOut([FILL] + b, segments', f', after) && f'.width == f.width && f'.height == f.height
  {
    if segments == [] {
      segments', f' := [], f.(fill := f.fill + 1);
      assert FrameBytes(f') == [FILL] + FrameBytes(f);
      assert [FILL] + b == AllBytes([]) + (FrameBytes(f') + after);
    } else {
      var first := segments[0].(fill := segments[0].fill + 1);
      segments', f' := [first] + segments[1..], f;
      assert SegmentBytes(first) == [FILL] + SegmentBytes(segments[0]);
      assert AllBytes(segments') == SegmentBytes(first) + AllBytes(segments[1..]);
      assert [FILL] + b == AllBytes(segments') + (FrameBytes(f) + after);
    }
  }

  lemma {:induction false} OneMoreSegment(b: Bytes, s: Segment, segments: seq<Segment>, f: Frame, after: Bytes)
    requires ValidSegment(s) && LaidOut(b, segments, f, after)
    ensures LaidOut(SegmentBytes(s) + b, [s] + segments, f, after)
  {
    assert ([s] + segments)[1..] == segments;
    assert SegmentBytes(s) + b == AllBytes([s] + segments) + (FrameBytes(f) + after);
  }

  lemma {:induction false} SegmentInFront(b: Bytes) returns (s: Segment)
    requires 4 <= |b| && b[0] == FILL && b[1] != FILL && !OfFrame(b[1])
    requires 2 <= U16(b[2..4]) && 2 + U16(b[2..4]) <= |b|
    ensures ValidSegment(s) && b == SegmentBytes(s) + b[2 + U16(b[2..4])..]
  {
    var n := U16(b[2..4]);
    s := Segment(0, b[1], b[4..2 + n]);
    assert Two(n) == b[2..4];
    assert b == [b[0]] + ([b[1]] + b[2..4] + b[4..2 + n]) + b[2 + n..];
  }

  lemma {:induction false} FrameInFront(b: Bytes)
    requires 9 <= |b| && b[0] == FILL && OfFrame(b[1])
    ensures b == FrameBytes(Frame(0, b[1], b[2..4], b[4], b[5..7], b[7..9])) + b[9..]
  {
    assert Lead(0) == [b[0]];
    assert b == [b[0]] + ([b[1]] + b[2..4] + [b[4]] + b[5..7] + b[7..9]) + b[9..];
  }

  lemma {:induction false} Parsed(b: Bytes) returns (segments: seq<Segment>, f: Frame, after: Bytes)
    requires Scan(b).Some?
    ensures LaidOut(b, segments, f, after) && Scan(b) == Some(Extent(U16(f.width), U16(f.height)))
    decreases |b|
  {
    if b[1] == FILL {
      segments, f, after := Parsed(b[1..]);
      assert b == [FILL] + b[1..];
      segments, f := OneMoreFill(b[1..], segments, f, after);
    } else if OfFrame(b[1]) && 9 <= |b| {
      segments, f, after := [], Frame(0, b[1], b[2..4], b[4], b[5..7], b[7..9]), b[9..];
      FrameInFront(b);
      assert b == AllBytes([]) + (FrameBytes(f) + after);
    } else {
      SkippedIsSegment(b);
      var rest := b[2 + U16(b[2..4])..];
      segments, f, after := Parsed(rest);
      var s := SegmentInFront(b);
      OneMoreSegment(rest, s, segments, f, after);
      segments := [s] + segments;
    }
  }

  lemma {:induction false} ScanIff(b: Bytes, size: Extent)
    ensures Scan(b) == Some(size) <==> FrameOf(b, size)
  {
    if FrameOf(b, size) {
      var segments: seq<Segment>, f: Frame, after: Bytes :|
        LaidOut(b, segments, f, after) && size == Extent(U16(f.width), U16(f.height));
      ScanLaidOut(segments, f, after);
    }
    if Scan(b) == Some(size) {
      var segments, f, after := Parsed(b);
      assert LaidOut(b, segments, f, after);
    }
  }

  lemma {:induction false} TwoOf(b: Bytes)
    requires |b| == 2
    ensures Two(U16(b)) == b
  {
  }

  lemma {:induction false} FourOf(b: Bytes)
    requires |b| == 4
    ensures U32(b) < 0x1_0000_0000 && Four(U32(b)) == b
  {
    assert b == b[..2] + b[2..];
    TwoOf(b[..2]);
    TwoOf(b[2..]);
    var high, low := U16(b[..2]), U16(b[2..]);
    assert U32(b) / 0x10000 == high && U32(b) % 0x10000 == low;
  }

  lemma {:induction false} PngIff(raw: Bytes, size: Extent)
    ensures IsPng(raw, size) <==>
      24 <= |raw| && raw[..8] == PNG && raw[12..16] == IHDR && size == Extent(U32(raw[16..20]), U32(raw[20..24]))
  {
    if IsPng(raw, size) {
      var length: Bytes, after: Bytes :|
        && |length| == 4
        && raw == PNG + length + IHDR + Four(size.width) + Four(size.height) + after;
      assert raw[..8] == PNG;
      assert raw[12..16] == IHDR;
      assert raw[16..20] == Four(size.width);
      assert raw[20..24] == Four(size.height);
    }
    if 24 <= |raw| && raw[..8] == PNG && raw[12..16] == IHDR && size == Extent(U32(raw[16..20]), U32(raw[20..24])) {
      FourOf(raw[16..20]);
      FourOf(raw[20..24]);
      assert raw == raw[..8] + raw[8..12] + raw[12..16] + raw[16..20] + raw[20..24] + raw[24..];
    }
  }

  /** Of every byte string: the reader gives a size exactly when the bytes are a PNG whose header chunk carries
      it, or a JPEG in which any segments, with any fill bytes, come before the frame header that carries it. */
  lemma {:induction false} SizeIff(raw: Bytes, size: Extent)
    ensures SizeOf(raw) == Some(size) <==> IsPng(raw, size) || IsJpeg(raw, size)
  {
    PngIff(raw, size);
    if 2 <= |raw| { ScanIff(raw[2..], size); }
    if 24 <= |raw| && raw[..8] == PNG && raw[12..16] == IHDR {
      assert raw[0] == raw[..8][0] == PNG[0] && raw[..2][0] == raw[0] != SOI[0];
    }
  }
}
