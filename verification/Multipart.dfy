/** The file of a multipart request, and the values of its fields (cells/whisper_server.py,
    _extract_file and _fields), against bodies built as section 5.1.1 of RFC 2046 and RFC 7578 say. */
module Multipart {
  import opened Basics
  import opened Search

  const CR: Byte := 13
  const LF: Byte := 10
  const DASH: Byte := 45
  const SPACE: Byte := 32
  const TAB: Byte := 9
  const CRLF: Bytes := [CR, LF]
  const BLANK_LINE: Bytes := [CR, LF, CR, LF]
  /** filename= */
  const FILENAME: Bytes := [102, 105, 108, 101, 110, 97, 109, 101, 61]

  // ---- splitting ---------------------------------------------------------------------

  /** bytes.split: everything between the separators. */
  function Split(b: Bytes, sep: Bytes): seq<Bytes>
    requires sep != []
    decreases |b|
  {
    var i := Find(b, sep, 0);
    if i == |b| then [b] else [b[..i]] + Split(b[i + |sep|..], sep)
  }

  /** The last place, or None. */
  function FindLast(b: Bytes, p: Bytes): (i: Option<nat>)
    requires p != []
    ensures i.Some? ==> At(b, i.value, p) && forall k: nat :: At(b, k, p) ==> k <= i.value
    ensures i.None? ==> forall k: nat :: !At(b, k, p)
  {
    Last(b, p, |b|)
  }

  function Last(b: Bytes, p: Bytes, below: nat): (i: Option<nat>)
    requires p != [] && below <= |b| && forall k: nat :: At(b, k, p) ==> k < below
    ensures i.Some? ==> At(b, i.value, p) && forall k: nat :: At(b, k, p) ==> k <= i.value
    ensures i.None? ==> forall k: nat :: !At(b, k, p)
  {
    if below == 0 then None else if At(b, below - 1, p) then Some(below - 1) else Last(b, p, below - 1)
  }

  // ---- the reader -------------------------------------------------------------------

  function Separator(boundary: Bytes): Bytes { [DASH, DASH] + boundary }

  /** What one part gives: the file's bytes when its head names a file. */
  function FileOf(part: Bytes): Option<Bytes> {
    var i := Find(part, BLANK_LINE, 0);
    if i == |part| then None
    else
      var head, rest := part[..i], part[i + 4..];
      if Contains(head, FILENAME) && rest != [] then
        var last := FindLast(rest, CRLF);
        Some(if last.Some? then rest[..last.value] else rest)
      else None
  }

  function FirstFile(parts: seq<Bytes>): Option<Bytes> {
    if parts == [] then None
    else if FileOf(parts[0]).Some? then FileOf(parts[0]) else FirstFile(parts[1..])
  }

  /** `_extract_file`, with the boundary already read off the content type. */
  method ExtractFile(body: Bytes, boundary: Bytes) returns (file: Option<Bytes>)
    ensures boundary == [] ==> file == None
    ensures boundary != [] ==> file == FirstFile(Split(body, Separator(boundary)))
  {
    if boundary == [] { return None; }
    var parts := Split(body, Separator(boundary));
    for k := 0 to |parts|
      invariant FirstFile(parts) == FirstFile(parts[k..])
    {
      assert parts[k..][1..] == parts[k + 1..];
      var found := FileOf(parts[k]);
      if found.Some? { return found; }
    }
    return None;
  }

  // ---- bodies as they are built -------------------------------------------------------

  /** `padding` is what may follow the separator on its line. */
  datatype Part = Part(padding: Bytes, headers: seq<Bytes>, content: Bytes)

  /** A header line: not empty, no line break in it. */
  predicate Line(l: Bytes) { l != [] && CR !in l && LF !in l }

  predicate Padding(b: Bytes) { forall k :: 0 <= k < |b| ==> b[k] == SPACE || b[k] == TAB }

  predicate WellFormed(part: Part) {
    Padding(part.padding) && part.headers != [] && forall l :: l in part.headers ==> Line(l)
  }

  function Head(headers: seq<Bytes>): Bytes {
    if headers == [] then [] else if |headers| == 1 then headers[0] else headers[0] + CRLF + Head(headers[1..])
  }

  /** A part from its separator's line break on. */
  function Bare(part: Part): Bytes { CRLF + Head(part.headers) + BLANK_LINE + part.content + CRLF }

  /** A part between its separators. */
  function Chunk(part: Part): Bytes { part.padding + Bare(part) }

  const CLOSING: Bytes := [DASH, DASH, CR, LF]

  /** What follows the first separator: each part, a separator after it, and two dashes after the last separator. */
  function Rest(parts: seq<Part>, sep: Bytes): Bytes {
    if parts == [] then CLOSING else Chunk(parts[0]) + (sep + Rest(parts[1..], sep))
  }

  function Build(parts: seq<Part>, sep: Bytes): Bytes { sep + Rest(parts, sep) }

  /** What a sender must see to: the boundary is a plain token that appears nowhere. */
  predicate Clear(parts: seq<Part>, boundary: Bytes) {
    && boundary != [] && CR !in boundary && LF !in boundary
    && forall p :: p in parts ==>
         WellFormed(p) && !Contains(Head(p.headers), Separator(boundary)) && !Contains(p.content, Separator(boundary))
  }

  function NamedFile(parts: seq<Part>): Option<Bytes> {
    if parts == [] then None
    else if Contains(Head(parts[0].headers), FILENAME) then Some(parts[0].content) else NamedFile(parts[1..])
  }

  // ---- a part by itself -----------------------------------------------------------------

  /** In a head no line break is followed by another. */
  lemma {:induction false} HeadShape(headers: seq<Bytes>)
    requires headers != [] && forall l :: l in headers ==> Line(l)
    ensures var h := Head(headers);
      && h != [] && h[0] != CR && h[0] != LF
      && (forall k :: 0 <= k < |h| && h[k] == CR ==> k + 2 < |h| && h[k + 1] == LF && h[k + 2] != CR)
    decreases |headers|
  {
    var first := headers[0];
    assert first in headers;
    if |headers| > 1 {
      HeadShape(headers[1..]);
      var h, rest := Head(headers), Head(headers[1..]);
      assert h == first + CRLF + rest;
      forall j | 0 <= j < |first|
        ensures first[j] != CR && first[j] != LF
      {
        assert first[j] in first;
      }
      forall k | 0 <= k < |h| && h[k] == CR
        ensures k + 2 < |h| && h[k + 1] == LF && h[k + 2] != CR
      {
        if k >= |first| + 2 {
          assert h[k] == rest[k - |first| - 2];
          assert h[k + 1] == rest[k - |first| - 1] && h[k + 2] == rest[k - |first|];
        }
      }
    } else {
      forall k | 0 <= k < |first|
        ensures first[k] != CR && first[k] != LF
      {
        assert first[k] in first;
      }
    }
  }

  /** The blank line after the head is the first one. */
  lemma {:induction false} BlankLineIsFirst(part: Part, after: Bytes)
    requires WellFormed(part)
    ensures var all := CRLF + Head(part.headers) + BLANK_LINE + after;
      && At(all, 2 + |Head(part.headers)|, BLANK_LINE)
      && forall k :: 0 <= k < 2 + |Head(part.headers)| ==> !At(all, k, BLANK_LINE)
  {
    var h := Head(part.headers);
    HeadShape(part.headers);
    var all := CRLF + h + BLANK_LINE + after;
    forall k | 0 <= k < 2 + |h|
      ensures !At(all, k, BLANK_LINE)
    {
      if k == 0 {
        assert all[k + 2] == h[0] != BLANK_LINE[2];
      } else if k == 1 || h[k - 2] != CR {
        assert all[k + 0] != BLANK_LINE[0];
      } else {
        assert all[k + 2] == h[k] != BLANK_LINE[2];
      }
    }
  }

  lemma {:induction false} LastBreakIsTheEnd(content: Bytes)
    ensures FindLast(content + CRLF, CRLF) == Some(|content|)
  {
    var b := content + CRLF;
    assert At(b, |content|, CRLF);
  }

  /** A pattern with no line break is found in a head with a line break before it just when it is in the head. */
  lemma {:induction false} InHead(h: Bytes, p: Bytes)
    requires p != [] && CR !in p && LF !in p
    ensures Contains(CRLF + h, p) <==> Contains(h, p)
  {
    var all := CRLF + h;
    if Contains(h, p) {
      var i: nat :| i <= |h| && At(h, i, p);
      assert At(all, i + 2, p);
    }
    if Contains(all, p) {
      var i: nat :| i <= |all| && At(all, i, p);
      assert all[i + 0] == p[0] && p[0] in p;
      assert i >= 2;
      assert At(h, i - 2, p);
    }
  }

  lemma {:induction false} FileOfBare(part: Part)
    requires WellFormed(part)
    ensures FileOf(Bare(part)) == if Contains(Head(part.headers), FILENAME) then Some(part.content) else None
  {
    hide Find;

    var h := Head(part.headers);
    var all := CRLF + h + BLANK_LINE + (part.content + CRLF);
    assert Bare(part) == all;
    BlankLineIsFirst(part, part.content + CRLF);
    FindIs(all, BLANK_LINE, 0, 2 + |h|);
    var i := 2 + |h|;
    assert all[..i] == CRLF + h;
    assert all[i + 4..] == part.content + CRLF;
    InHead(h, FILENAME);
    LastBreakIsTheEnd(part.content);
    assert (part.content + CRLF)[..|part.content|] == part.content;
  }

  lemma {:induction false} NoneInPadding(padding: Bytes, b: Bytes, p: Bytes)
    requires Padding(padding) && p != [] && p[0] != SPACE && p[0] != TAB
    ensures forall k :: 0 <= k < |padding| ==> !At(padding + b, k, p)
    ensures Contains(padding + b, p) <==> Contains(b, p)
  {
    forall k | 0 <= k < |padding|
      ensures !At(padding + b, k, p)
    {
      if k + |p| <= |padding + b| { assert (padding + b)[k + 0] == padding[k] != p[0]; }
    }
    if Contains(b, p) {
      var i: nat :| i <= |b| && At(b, i, p);
      AtShift(padding, b, p, i);
    }
    if Contains(padding + b, p) {
      var i: nat :| i <= |padding + b| && At(padding + b, i, p);
      assert i >= |padding|;
      AtShift(padding, b, p, i - |padding|);
    }
  }

  lemma {:induction false} FindPastPadding(padding: Bytes, b: Bytes, p: Bytes)
    requires Padding(padding) && p != [] && p[0] != SPACE && p[0] != TAB
    ensures Find(padding + b, p, 0) == |padding| + Find(b, p, 0)
  {
    NoneInPadding(padding, b, p);
    FindShift(padding, b, p, 0);
    FindSays(padding + b, p, 0);
    FindSays(padding + b, p, |padding|);
  }

  /** One part read: its content, just when its head names a file. */
  lemma {:induction false} FileOfChunk(part: Part)
    requires WellFormed(part)
    ensures FileOf(Chunk(part)) == if Contains(Head(part.headers), FILENAME) then Some(part.content) else None
  {
    hide Find, Bare, Head, Contains, At;
    var b, n := Bare(part), |part.padding|;
    FileOfBare(part);
    FindPastPadding(part.padding, b, BLANK_LINE);
    var i := Find(b, BLANK_LINE, 0);
    if i < |b| {
      assert (part.padding + b)[..n + i] == part.padding + b[..i];
      assert (part.padding + b)[n + i + 4..] == b[i + 4..];
      NoneInPadding(part.padding, b[..i], FILENAME);
    }
  }

  // ---- the separators --------------------------------------------------------------------

  lemma {:induction false} SeparatorIsPlain(boundary: Bytes)
    requires boundary != [] && CR !in boundary && LF !in boundary
    ensures var sep := Separator(boundary); |sep| >= 3 && sep[0] == DASH && CR !in sep && LF !in sep
  {
  }

  /** A separator lies within the head or the content of a part, never across a line break. */
  lemma {:induction false} NotInBare(part: Part, sep: Bytes, after: Bytes, k: nat)
    requires sep != [] && CR !in sep && LF !in sep
    requires k < 2 + |Head(part.headers)| ==> !Contains(Head(part.headers), sep)
    requires !Contains(part.content, sep) && k < |Bare(part)|
    ensures !At(Bare(part) + after, k, sep)
  {
    var h, c := Head(part.headers), part.content;
    var all, n := Bare(part) + after, |sep|;
    var body := 6 + |h|;
    assert forall j :: 0 <= j < n ==> sep[j] in sep;
    if k + n <= |all| {
      if k < 2 || 2 + |h| <= k < body || body + |c| <= k {
        assert all[k + 0] != sep[0];
      } else if k < 2 + |h| {
        if k + n > 2 + |h| {
          assert all[k + (2 + |h| - k)] == CR != sep[2 + |h| - k];
        } else {
          assert !At(h, k - 2, sep);
          var j :| 0 <= j < n && h[k - 2 + j] != sep[j];
          assert all[k + j] != sep[j];
        }
      } else {
        if k + n > body + |c| {
          assert all[k + (body + |c| - k)] == CR != sep[body + |c| - k];
        } else {
          assert !At(c, k - body, sep);
          var j :| 0 <= j < n && c[k - body + j] != sep[j];
          assert all[k + j] != sep[j];
        }
      }
    }
  }

  lemma {:induction false} SplitAtSeparator(chunk: Bytes, sep: Bytes, after: Bytes)
    requires sep != [] && forall k :: 0 <= k < |chunk| ==> !At(chunk + (sep + after), k, sep)
    ensures Split(chunk + (sep + after), sep) == [chunk] + Split(after, sep)
  {
    var b := chunk + (sep + after);
    assert At(b, |chunk|, sep);
    FindIs(b, sep, 0, |chunk|);
    assert b[..|chunk|] == chunk && b[|chunk| + |sep|..] == after;
  }

  lemma {:induction false} ClosingHasNone(sep: Bytes, epilogue: Bytes)
    requires |sep| >= 3 && CR !in sep && LF !in sep && !Contains(epilogue, sep)
    ensures Split(CLOSING + epilogue, sep) == [CLOSING + epilogue]
  {
    var b := CLOSING + epilogue;
    forall k: nat | k <= |b|
      ensures !At(b, k, sep)
    {
      assert forall j :: 0 <= j < |sep| ==> sep[j] in sep;
      if k + |sep| <= |b| {
        if k <= 2 {
          assert b[k + (2 - k)] != sep[2 - k];
        } else if k == 3 {
          assert b[k + 0] != sep[0];
        } else {
          assert !At(epilogue, k - 4, sep);
          AtShift(CLOSING, epilogue, sep, k - 4);
        }
      }
    }
    FindNone(b, sep);
  }

  lemma {:induction false} NotInChunk(part: Part, sep: Bytes, after: Bytes, k: nat)
    requires sep != [] && sep[0] == DASH && CR !in sep && LF !in sep && Padding(part.padding)
    requires !Contains(Head(part.headers), sep) && !Contains(part.content, sep) && k < |Chunk(part)|
    ensures !At(Chunk(part) + after, k, sep)
  {
    hide Bare, Head, Contains;
    var n := |part.padding|;
    assert Chunk(part) + after == part.padding + (Bare(part) + after);
    if k < n {
      NoneInPadding(part.padding, Bare(part) + after, sep);
    } else {
      NotInBare(part, sep, after, k - n);
      AtShift(part.padding, Bare(part) + after, sep, k - n);
    }
  }

  lemma {:induction false} SplitAtPart(part: Part, sep: Bytes, after: Bytes)
    requires sep != [] && sep[0] == DASH && CR !in sep && LF !in sep && Padding(part.padding)
    requires !Contains(Head(part.headers), sep) && !Contains(part.content, sep)
    ensures Split(Chunk(part) + (sep + after), sep) == [Chunk(part)] + Split(after, sep)
  {
    hide Chunk, Head, Contains;
    forall k | 0 <= k < |Chunk(part)|
      ensures !At(Chunk(part) + (sep + after), k, sep)
    {
      NotInChunk(part, sep, sep + after, k);
    }
    SplitAtSeparator(Chunk(part), sep, after);
  }

  /** After its first separator a built body splits into its parts and the closing dashes with what follows them. */
  lemma {:induction false} SplitOfBuilt(parts: seq<Part>, sep: Bytes, epilogue: Bytes)
    requires |sep| >= 3 && sep[0] == DASH && CR !in sep && LF !in sep && !Contains(epilogue, sep)
    requires forall p :: p in parts ==> Padding(p.padding) && !Contains(Head(p.headers), sep) && !Contains(p.content, sep)
    ensures Split(Rest(parts, sep) + epilogue, sep) == Chunks(parts) + [CLOSING + epilogue]
    decreases |parts|
  {
    hide Split, Chunk, Contains, Head, Padding;
    if parts == [] {
      ClosingHasNone(sep, epilogue);
    } else {
      var part, others := parts[0], parts[1..];
      assert part in parts;
      forall p | p in others
        ensures Padding(p.padding) && !Contains(Head(p.headers), sep) && !Contains(p.content, sep)
      {
        assert p in parts;
      }
      SplitOfBuilt(others, sep, epilogue);
      var after := Rest(others, sep) + epilogue;
      SplitAtPart(part, sep, after);
      assert Rest(parts, sep) + epilogue == Chunk(part) + (sep + after);
      assert [Chunk(part)] + (Chunks(others) + [CLOSING + epilogue]) == Chunks(parts) + [CLOSING + epilogue];
    }
  }

  function Chunks(parts: seq<Part>): seq<Bytes> { if parts == [] then [] else [Chunk(parts[0])] + Chunks(parts[1..]) }

  lemma {:induction false} FirstFileOfChunks(parts: seq<Part>, after: seq<Bytes>)
    requires forall p :: p in parts ==> WellFormed(p)
    ensures FirstFile(Chunks(parts) + after) == if NamedFile(parts).Some? then NamedFile(parts) else FirstFile(after)
    decreases |parts|
  {
    hide FileOf, Chunk, Contains, Head;
    if parts == [] {
      assert Chunks(parts) + after == after;
    } else {
      assert parts[0] in parts;
      FileOfChunk(parts[0]);
      var all := Chunks(parts) + after;
      assert all[0] == Chunk(parts[0]) && all[1..] == Chunks(parts[1..]) + after;
      forall p | p in parts[1..]
        ensures WellFormed(p)
      {
        assert p in parts;
      }
      FirstFileOfChunks(parts[1..], after);
    }
  }

  lemma {:induction false} DashesAreNoFile()
    ensures FirstFile([CLOSING]) == None
  {
    forall k: nat | k <= |CLOSING|
      ensures !At(CLOSING, k, BLANK_LINE)
    {
      if k == 0 { assert CLOSING[k + 0] != BLANK_LINE[0]; }
    }
    FindNone(CLOSING, BLANK_LINE);
    assert [CLOSING][1..] == [];
  }

  /** No separator begins in the preamble. */
  predicate ClearBefore(preamble: Bytes, sep: Bytes) { forall k :: 0 <= k < |preamble| ==> !At(preamble + sep, k, sep) }

  lemma {:induction false} PreambleSplits(preamble: Bytes, sep: Bytes, after: Bytes)
    requires sep != [] && ClearBefore(preamble, sep)
    ensures Split(preamble + (sep + after), sep) == [preamble] + Split(after, sep)
  {
    forall k | 0 <= k < |preamble|
      ensures !At(preamble + (sep + after), k, sep)
    {
      assert !At(preamble + sep, k, sep);
      var j :| 0 <= j < |sep| && (preamble + sep)[k + j] != sep[j];
      assert (preamble + (sep + after))[k + j] != sep[j];
    }
    SplitAtSeparator(preamble, sep, after);
  }

  /** The round trip: of every body built from parts in which the boundary does not appear, with anything before
      and after it in which it does not appear either, the reader returns the bytes of the first part whose head
      names a file, whatever line breaks or dashes they hold, exactly unless the preamble reads as a file of
      its own, or, with no file among the parts, the epilogue does. */
  lemma {:induction false} RoundTripAround(preamble: Bytes, parts: seq<Part>, boundary: Bytes, epilogue: Bytes)
    requires Clear(parts, boundary) && ClearBefore(preamble, Separator(boundary)) && !Contains(epilogue, Separator(boundary))
    ensures var sep := Separator(boundary);
      var read := FirstFile(Split(preamble + (Build(parts, sep) + epilogue), sep));
      && read == (if FileOf(preamble).Some? then FileOf(preamble)
                  else if NamedFile(parts).Some? then NamedFile(parts) else FileOf(CLOSING + epilogue))
      && (read == NamedFile(parts) <==>
            if FileOf(preamble).Some? then FileOf(preamble) == NamedFile(parts)
            else NamedFile(parts).Some? || FileOf(CLOSING + epilogue).None?)
  {
    hide Split, FileOf, Chunk, Contains, Head, At, Rest;
    var sep := Separator(boundary);
    SeparatorIsPlain(boundary);
    SplitOfBuilt(parts, sep, epilogue);
    var after := Rest(parts, sep) + epilogue;
    assert preamble + (Build(parts, sep) + epilogue) == preamble + (sep + after);
    PreambleSplits(preamble, sep, after);
    var tail := Chunks(parts) + [CLOSING + epilogue];
    FirstFileOfChunks(parts, [CLOSING + epilogue]);
    OneFile(CLOSING + epilogue);
    assert ([preamble] + tail)[1..] == tail && ([preamble] + tail)[0] == preamble;
  }

  lemma {:induction false} OneFile(part: Bytes)
    ensures FirstFile([part]) == FileOf(part)
  {
    assert [part][1..] == [];
  }

  /** With nothing around it the body gives its first file, or nothing when there is none. */
  lemma {:induction false} RoundTrip(parts: seq<Part>, boundary: Bytes)
    requires Clear(parts, boundary)
    ensures FirstFile(Split(Build(parts, Separator(boundary)), Separator(boundary))) == NamedFile(parts)
  {
    hide Split, Rest;
    var sep := Separator(boundary);
    SeparatorIsPlain(boundary);
    NotInNothing(sep);
    RoundTripAround([], parts, boundary, []);
    DashesAreNoFile();
    OneFile(CLOSING);
    assert FileOf([]) == None;
    assert CLOSING + [] == CLOSING && [] + (Build(parts, sep) + []) == Build(parts, sep);
  }

  lemma {:induction false} NotInNothing(p: Bytes)
    requires p != []
    ensures !Contains([], p)
  {
  }

  // ---- fields ---------------------------------------------------------------------------

  /** One turn of the search: nothing more, no end to the value, or a value from `s` to `e`. */
  datatype Turn = Stop | Open(from: nat) | Closed(s: nat, e: nat) {
    function Next(): nat { match this case Stop => 0 case Open(i) => i case Closed(_, e) => e }

    function Moved(n: nat): Turn {
      match this case Stop => this case Open(i) => Open(n + i) case Closed(s, e) => Closed(n + s, n + e)
    }
  }

  /** The first break after a blank line ends a value; without one the search goes on past the key at `i`. */
  function Ended(body: Bytes, key: Bytes, i: nat, blank: nat): (t: Turn)
    requires i + |key| <= |body| && blank <= |body| && (blank < |body| ==> i <= blank <= |body| - 4)
  {
    if blank == |body| then Stop
    else
      var e := Find(body, CRLF, blank + 4);
      if e == |body| then Open(i + |key|) else Closed(blank + 4, e)
  }

  function TurnAt(body: Bytes, key: Bytes, at: nat): (t: Turn)
    requires key != [] && at <= |body|
    ensures !t.Stop? ==> at < t.Next() <= |body|
    ensures t.Closed? ==> t.s <= t.e
  {
    var i := Find(body, key, at);
    if i == |body| then Stop else Ended(body, key, i, Find(body, BLANK_LINE, i))
  }

  /** What a turn adds: an empty value is passed over. */
  function Value(body: Bytes, t: Turn): seq<Bytes>
    requires t.Closed? ==> t.s <= t.e <= |body|
  {
    if t.Closed? && t.e > t.s then [body[t.s..t.e]] else []
  }

  /** The values read from a place on. */
  function Values(body: Bytes, key: Bytes, at: nat): seq<Bytes>
    requires key != [] && at <= |body|
    decreases |body| - at
  {
    var t := TurnAt(body, key, at);
    if t.Stop? then [] else Value(body, t) + Values(body, key, t.Next())
  }

  /** The values read so far, and the turn that is next. */
  lemma {:induction false} Gathered(body: Bytes, key: Bytes, at: nat, out: seq<Bytes>)
    requires key != [] && at <= |body|
    ensures var t := TurnAt(body, key, at);
      out + Values(body, key, at) == if t.Stop? then out else (out + Value(body, t)) + Values(body, key, t.Next())
  {
  }

  /** `_fields`: every value sent under the name, in order. */
  method Fields(body: Bytes, key: Bytes) returns (out: seq<Bytes>)
    requires key != []
    ensures out == Values(body, key, 0)
  {
    hide Find, At, Values;

    out := [];
    var at := 0;
    ghost var all := Values(body, key, 0);
    while true
      invariant 0 <= at <= |body|
      invariant all == out + Values(body, key, at)
      decreases |body| - at
    {
      Gathered(body, key, at, out);
      ghost var t := TurnAt(body, key, at);
      var i := Find(body, key, at);
      if i == |body| { return; }
      var s := Find(body, BLANK_LINE, i);
      if s == |body| { return; }
      s := s + 4;
      var e := Find(body, CRLF, s);
      if e < |body| {
        assert t == Closed(s, e);
        assert Value(body, t) == if e > s then [body[s..e]] else [];
        if e > s { out := out + [body[s..e]]; }
        at := e;
      } else {
        assert t == Open(i + |key|) && out + Value(body, t) == out;
        at := i + |key|;
      }
    }
  }

  // ---- fields of a body as it is built -----------------------------------------------------

  /** A content up to its first line break. */
  function FirstLine(content: Bytes): (line: Bytes)
    ensures line <= content
  {
    var i := Find(content, CRLF, 0);
    content[..i]
  }

  /** The values under a name: of each part whose head holds the key, the first line of its content, unless it is empty. */
  function Sent(parts: seq<Part>, key: Bytes): seq<Bytes> {
    if parts == [] then []
    else
      var line := FirstLine(parts[0].content);
      (if Contains(Head(parts[0].headers), key) && line != [] then [line] else []) + Sent(parts[1..], key)
  }

  lemma {:induction false} EndedShift(before: Bytes, b: Bytes, key: Bytes, i: nat, blank: nat)
    requires i + |key| <= |b| && blank <= |b| && (blank < |b| ==> i <= blank <= |b| - 4)
    ensures Ended(before + b, key, |before| + i, |before| + blank) == Ended(b, key, i, blank).Moved(|before|)
  {
    if blank < |b| { FindShift(before, b, CRLF, blank + 4); }
  }

  lemma {:induction false} TurnShift(before: Bytes, b: Bytes, key: Bytes, at: nat)
    requires key != [] && at <= |b|
    ensures TurnAt(before + b, key, |before| + at) == TurnAt(b, key, at).Moved(|before|)
  {
    hide Find;
    var i := Find(b, key, at);
    FindShift(before, b, key, at);
    if i < |b| {
      FindShift(before, b, BLANK_LINE, i);
      EndedShift(before, b, key, i, Find(b, BLANK_LINE, i));
    }
  }

  lemma {:induction false} SliceShift(before: Bytes, b: Bytes, s: nat, e: nat)
    requires s <= e <= |b|
    ensures (before + b)[|before| + s..|before| + e] == b[s..e]
  {
  }

  /** Reading does not look back. */
  lemma {:induction false} ValuesShift(before: Bytes, b: Bytes, key: Bytes, at: nat)
    requires key != [] && at <= |b|
    ensures Values(before + b, key, |before| + at) == Values(b, key, at)
    decreases |b| - at
  {
    hide TurnAt;

    TurnShift(before, b, key, at);
    var t := TurnAt(b, key, at);
    if !t.Stop? {
      if t.Closed? { SliceShift(before, b, t.s, t.e); }
      assert Value(before + b, t.Moved(|before|)) == Value(b, t);
      ValuesShift(before, b, key, t.Next());
    }
  }

  lemma {:induction false} SkipTo(b: Bytes, key: Bytes, at: nat, to: nat)
    requires key != [] && at <= to <= |b| && forall k :: at <= k < to ==> !At(b, k, key)
    ensures Values(b, key, at) == Values(b, key, to)
  {
    FindSays(b, key, at);
    FindSays(b, key, to);
    assert Find(b, key, at) == Find(b, key, to);
    assert TurnAt(b, key, at) == TurnAt(b, key, to);
  }

  /** No key begins in the separator. */
  lemma {:induction false} NotInSeparator(sep: Bytes, part: Part, after: Bytes, key: Bytes, k: nat)
    requires key != [] && CR !in key && !Contains(sep, key) && k < |sep|
    ensures !At(sep + (Bare(part) + after), k, key)
  {
    var b := sep + (Bare(part) + after);
    assert b[|sep|] == CR;
    if k + |key| > |sep| {
      assert key[|sep| - k] in key;
      assert b[k + (|sep| - k)] != key[|sep| - k];
    } else {
      assert !At(sep, k, key);
      var j :| 0 <= j < |key| && sep[k + j] != key[j];
      assert b[k + j] != key[j];
    }
  }

  /** A part whose head does not hold the key is passed over. */
  lemma {:induction false} PartWithout(sep: Bytes, part: Part, after: Bytes, key: Bytes)
    requires key != [] && CR !in key && LF !in key && !Contains(sep, key)
    requires !Contains(Head(part.headers), key) && !Contains(part.content, key)
    ensures Values(sep + (Bare(part) + after), key, 0) == Values(after, key, 0)
  {
    hide TurnAt, At;

    var b, n := sep + (Bare(part) + after), |sep + Bare(part)|;
    assert forall k :: 0 <= k < n ==> !At(b, k, key) by {
      forall k | 0 <= k < n
        ensures !At(b, k, key)
      {
        if k < |sep| {
          NotInSeparator(sep, part, after, key, k);
        } else {
          NotInBare(part, key, after, k - |sep|);
          AtShift(sep, Bare(part) + after, key, k - |sep|);
        }
      }
    }
    SkipTo(b, key, 0, n);
    assert b == (sep + Bare(part)) + after;
    ValuesShift(sep + Bare(part), after, key, 0);
  }

  /** The first break after a content's beginning ends its first line. */
  lemma {:induction false} LineEnds(content: Bytes, after: Bytes)
    ensures Find(content + CRLF + after, CRLF, 0) == |FirstLine(content)|
  {
    var b, i := content + CRLF + after, Find(content, CRLF, 0);
    FindSays(content, CRLF, 0);
    forall k | 0 <= k < i
      ensures !At(b, k, CRLF)
    {
      assert !At(content, k, CRLF);
      if k + 1 == |content| {
        assert b[k + 1] != CRLF[1];
      } else {
        var j :| 0 <= j < 2 && content[k + j] != CRLF[j];
        assert b[k + j] != CRLF[j];
      }
    }
    assert At(b, i, CRLF);
    FindIs(b, CRLF, 0, i);
  }

  lemma {:induction false} KeyAt(sep: Bytes, part: Part, after: Bytes, key: Bytes) returns (j: nat)
    requires Contains(Head(part.headers), key)
    ensures j + |key| <= |Head(part.headers)| && At(sep + (Bare(part) + after), |sep| + 2 + j, key)
  {
    var h := Head(part.headers);
    j :| j <= |h| && At(h, j, key);
    forall m | 0 <= m < |key|
      ensures (sep + (Bare(part) + after))[|sep| + 2 + j + m] == key[m]
    {
      assert h[j + m] == key[m];
    }
  }

  lemma {:induction false} FoundWithin(b: Bytes, key: Bytes, from: nat, at: nat)
    requires At(b, at, key) && key != [] && forall k :: 0 <= k < from ==> !At(b, k, key)
    ensures from <= Find(b, key, 0) <= at
  {
    FindSays(b, key, 0);
  }

  /** The key is first found in the head. */
  lemma {:induction false} KeyInHead(sep: Bytes, part: Part, after: Bytes, key: Bytes)
    requires key != [] && CR !in key && !Contains(sep, key) && Contains(Head(part.headers), key)
    ensures var i := Find(sep + (Bare(part) + after), key, 0);
      |sep| <= i && i + |key| <= |sep| + 2 + |Head(part.headers)|
  {
    var b := sep + (Bare(part) + after);
    var j := KeyAt(sep, part, after, key);
    forall k | 0 <= k < |sep|
      ensures !At(b, k, key)
    {
      NotInSeparator(sep, part, after, key, k);
    }
    FoundWithin(b, key, |sep|, |sep| + 2 + j);
  }

  /** The blank line found from there on is the one that ends the head. */
  lemma {:induction false} BlankAfterKey(sep: Bytes, part: Part, after: Bytes, i: nat)
    requires WellFormed(part) && |sep| <= i <= |sep| + 2 + |Head(part.headers)|
    ensures Find(sep + (Bare(part) + after), BLANK_LINE, i) == |sep| + 2 + |Head(part.headers)|
  {
    hide Find, At;

    var h, c := Head(part.headers), part.content;
    var all := CRLF + h + BLANK_LINE + (c + CRLF + after);
    assert Bare(part) + after == all;
    BlankLineIsFirst(part, c + CRLF + after);
    FindIs(all, BLANK_LINE, i - |sep|, |h| + 2);
    FindShift(sep, all, BLANK_LINE, i - |sep|);
  }

  lemma {:induction false} ChunkIs(part: Part, after: Bytes)
    ensures Bare(part) + after == (CRLF + Head(part.headers) + BLANK_LINE) + (part.content + CRLF + after)
  {
  }

  lemma {:induction false} FindBehind(first: Bytes, second: Bytes, b: Bytes, p: Bytes)
    requires p != []
    ensures Find(first + (second + b), p, |first| + |second|) == |first| + |second| + Find(b, p, 0)
  {
    FindShift(second, b, p, 0);
    FindShift(first, second + b, p, |second|);
  }

  lemma {:induction false} BreakAfterLine(sep: Bytes, part: Part, after: Bytes)
    ensures var s := |sep| + 6 + |Head(part.headers)|;
      Find(sep + (Bare(part) + after), CRLF, s) == s + |FirstLine(part.content)|
  {
    hide Find, FirstLine, Head;

    var lead, tail := CRLF + Head(part.headers) + BLANK_LINE, part.content + CRLF + after;
    ChunkIs(part, after);
    LineEnds(part.content, after);
    FindBehind(sep, lead, tail, CRLF);
  }

  /** Where the reader comes to in a part whose head holds the key. */
  lemma {:induction false} PartTurn(sep: Bytes, part: Part, after: Bytes, key: Bytes)
    requires key != [] && CR !in key && LF !in key && !Contains(sep, key)
    requires WellFormed(part) && Contains(Head(part.headers), key)
    ensures var s := |sep| + 6 + |Head(part.headers)|;
      TurnAt(sep + (Bare(part) + after), key, 0) == Closed(s, s + |FirstLine(part.content)|)
  {
    hide Find, FirstLine, Head, Contains;
    KeyInHead(sep, part, after, key);
    BlankAfterKey(sep, part, after, Find(sep + (Bare(part) + after), key, 0));
    BreakAfterLine(sep, part, after);
  }

  lemma {:induction false} PartWith(sep: Bytes, part: Part, after: Bytes, key: Bytes)
    requires key != [] && CR !in key && LF !in key && !Contains(sep, key) && !Contains(part.content, key)
    requires WellFormed(part) && Contains(Head(part.headers), key)
    ensures var line := FirstLine(part.content);
      Values(sep + (Bare(part) + after), key, 0) == (if line != [] then [line] else []) + Values(after, key, 0)
  {
    hide TurnAt, At;

    var h, c, line := Head(part.headers), part.content, FirstLine(part.content);
    var b, n := sep + (Bare(part) + after), |sep + Bare(part)|;
    var s := |sep| + 6 + |h|;
    PartTurn(sep, part, after, key);
    assert b[s..s + |line|] == line;
    forall k | s + |line| <= k < n
      ensures !At(b, k, key)
    {
      NotInBare(part, key, after, k - |sep|);
      AtShift(sep, Bare(part) + after, key, k - |sep|);
    }
    SkipTo(b, key, s + |line|, n);
    assert b == (sep + Bare(part)) + after;
    ValuesShift(sep + Bare(part), after, key, 0);
  }

  lemma {:induction false} ClosingIsNoValue(sep: Bytes, key: Bytes)
    requires key != [] && CR !in key && LF !in key && !Contains(sep + [DASH, DASH], key)
    ensures Values(sep + CLOSING, key, 0) == []
  {
    var b := sep + CLOSING;
    forall k: nat | k <= |b|
      ensures !At(b, k, key)
    {
      var n := |sep| + 2;
      if k + |key| <= |b| {
        assert b[n] == CR && b[n + 1] == LF;
        if k >= n {
          assert key[0] in key;
          assert b[k + 0] != key[0];
        } else if k + |key| > n {
          assert key[n - k] in key;
          assert b[k + (n - k)] != key[n - k];
        } else {
          assert !At(sep + [DASH, DASH], k, key);
          var j :| 0 <= j < |key| && (sep + [DASH, DASH])[k + j] != key[j];
          assert b[k + j] != key[j];
        }
      }
    }
    FindNone(b, key);
  }

  /** The form's round trip: of a built body whose contents and boundary lines do not hold the key, the reader
      returns, for each part whose head does, the first line of its content, in order, the empty ones
      left out. A content with a line break in it comes back cut at the break. */
  lemma {:induction false} FieldsRoundTrip(parts: seq<Part>, boundary: Bytes, key: Bytes)
    requires key != [] && CR !in key && LF !in key && !Contains(Separator(boundary) + [DASH, DASH], key)
    requires forall p :: p in parts ==>
      WellFormed(p) && !Contains(p.content, key) && !Contains(Separator(boundary) + p.padding, key)
    ensures Values(Build(parts, Separator(boundary)), key, 0) == Sent(parts, key)
    decreases |parts|
  {
    hide Values, Contains, Bare, Head, FirstLine;
    var sep := Separator(boundary);
    if parts == [] {
      ClosingIsNoValue(sep, key);
    } else {
      var part, others := parts[0], parts[1..];
      assert part in parts;
      forall p | p in others
        ensures WellFormed(p) && !Contains(p.content, key) && !Contains(Separator(boundary) + p.padding, key)
      {
        assert p in parts;
      }
      FieldsRoundTrip(others, boundary, key);
      var line, after := sep + part.padding, Build(others, sep);
      assert Build(parts, sep) == line + (Bare(part) + after);
      if Contains(Head(part.headers), key) { PartWith(line, part, after, key); } else { PartWithout(line, part, after, key); }
    }
  }

  /** A key without a line break is not found across one. */
  lemma {:induction false} NotAcross(a: Bytes, b: Bytes, key: Bytes)
    requires key != [] && CR !in key && LF !in key && !Contains(a, key) && !Contains(b, key)
    ensures !Contains(a + CRLF + b, key)
  {
    var all, n := a + CRLF + b, |a|;
    forall k: nat | k <= |all|
      ensures !At(all, k, key)
    {
      if k + |key| <= |all| {
        assert forall j :: 0 <= j < |key| ==> key[j] in key;
        if k <= n < k + |key| {
          assert all[k + (n - k)] == CR != key[n - k];
        } else if k == n + 1 {
          assert all[k + 0] == LF != key[0];
        } else if k < n {
          assert !At(a, k, key);
          var j :| 0 <= j < |key| && a[k + j] != key[j];
          assert all[k + j] != key[j];
        } else {
          assert !At(b, k - n - 2, key);
          var j :| 0 <= j < |key| && b[k - n - 2 + j] != key[j];
          assert all[k + j] != key[j];
        }
      }
    }
  }

  /** A content that holds the key makes a value: of a part that is not sent under the name, and whose content is
      the key, a blank line and a text, the reader returns the text's first line. */
  lemma {:induction false} StrayValue(header: Bytes, boundary: Bytes, key: Bytes, text: Bytes)
    requires Line(header) && Line(key) && !Contains(header, key) && !Contains(text, key)
    requires !Contains(Separator(boundary) + [DASH, DASH], key) && FirstLine(text) != []
    ensures var parts := [Part([], [header], key + BLANK_LINE + text)];
      Sent(parts, key) == [] && Values(Build(parts, Separator(boundary)), key, 0) == [FirstLine(text)]
  {
    var sep := Separator(boundary);
    var part := Part([], [header], key + BLANK_LINE + text);
    var parts := [part];
    assert parts[1..] == [] && Head([header]) == header;
    if Contains(sep, key) {
      var i: nat :| i <= |sep| && At(sep, i, key);
      assert At(sep + [DASH, DASH], i, key);
    }
    // the content's own key reads as the head of a part
    var lead := sep + CRLF + header + CRLF;
    NotAcross(sep, header, key);
    NotInNothing(key);
    NotAcross(sep + CRLF + header, [], key);
    assert sep + CRLF + header + CRLF + [] == lead;
    var inner, after := Part([], [key], text), Build([], sep);
    assert Head([key]) == key && At(key, 0, key);
    StrayBody(header, sep, key, text);
    PartWith(lead, inner, after, key);
    ClosingIsNoValue(sep, key);
  }

  lemma {:induction false} StrayBody(header: Bytes, sep: Bytes, key: Bytes, text: Bytes)
    ensures Build([Part([], [header], key + BLANK_LINE + text)], sep)
         == (sep + CRLF + header + CRLF) + (Bare(Part([], [key], text)) + Build([], sep))
  {
    var parts := [Part([], [header], key + BLANK_LINE + text)];
    assert parts[1..] == [] && Head([header]) == header && Head([key]) == key;
    assert BLANK_LINE == CRLF + CRLF;
    var body := key + BLANK_LINE + text + CRLF;
    assert Bare(parts[0]) == CRLF + header + CRLF + (CRLF + body);
    assert Bare(Part([], [key], text)) == CRLF + body;
    assert Chunk(parts[0]) == Bare(parts[0]);
    assert Build(parts, sep) == sep + (Chunk(parts[0]) + (sep + Rest([], sep)));
  }
}
