/** The proxy's journal as caravan/admin/client_misses.py reads it: bytes into lines, a line into a
    row, a row into a client's error. */
module JournalRows {
  import opened Basics

  // ---- lines ----------------------------------------------------------------------

  const LF: Byte := 10
  const CR: Byte := 13

  /** Where the first line break stands, or the length when there is none. */
  function FirstBreak(b: Bytes): (i: nat)
    ensures i <= |b|
    ensures forall k :: 0 <= k < i ==> b[k] != LF && b[k] != CR
    ensures i < |b| ==> b[i] == LF || b[i] == CR
  {
    if b == [] || b[0] == LF || b[0] == CR then 0 else 1 + FirstBreak(b[1..])
  }

  function BreakLength(b: Bytes, i: nat): (n: nat)
    requires i < |b|
    ensures 1 <= n && i + n <= |b|
  {
    if b[i] == CR && i + 1 < |b| && b[i + 1] == LF then 2 else 1
  }

  /** Python's bytes.splitlines: "\n", "\r" and "\r\n" each end a line. */
  function SplitLines(b: Bytes): seq<Bytes>
    decreases |b|
  {
    if b == [] then []
    else
      var i := FirstBreak(b);
      if i == |b| then [b] else [b[..i]] + SplitLines(b[i + BreakLength(b, i)..])
  }

  /** A line ends at the first break, "\r\n" being one break; what has none is one line. */
  lemma {:induction false} LineEnds(line: Bytes, rest: Bytes)
    requires LF !in line && CR !in line
    ensures SplitLines(line + ([LF] + rest)) == [line] + SplitLines(rest)
    ensures SplitLines(line + ([CR, LF] + rest)) == [line] + SplitLines(rest)
    ensures (rest == [] || rest[0] != LF) ==> SplitLines(line + ([CR] + rest)) == [line] + SplitLines(rest)
    ensures SplitLines(line) == if line == [] then [] else [line]
  {
    hide SplitLines, FirstBreak;
    BreakAfter(line, [LF] + rest, 1);
    BreakAfter(line, [CR, LF] + rest, 2);
    if rest == [] || rest[0] != LF { BreakAfter(line, [CR] + rest, 1); }
    assert ([LF] + rest)[1..] == rest && ([CR, LF] + rest)[2..] == rest && ([CR] + rest)[1..] == rest;
    OneLine(line);
  }

  lemma {:induction false} OneLine(line: Bytes)
    requires LF !in line && CR !in line
    ensures SplitLines(line) == if line == [] then [] else [line]
  {
    assert FirstBreak(line) == |line|;
  }

  lemma {:induction false} BreakAfter(line: Bytes, more: Bytes, n: nat)
    requires LF !in line && CR !in line && more != [] && (more[0] == LF || more[0] == CR)
    requires n == if more[0] == CR && |more| > 1 && more[1] == LF then 2 else 1
    ensures SplitLines(line + more) == [line] + SplitLines(more[n..])
  {
    hide FirstBreak;
    var all := line + more;
    BreakIsThere(line, more);
    assert all[|line|] == more[0] && (|more| > 1 ==> all[|line| + 1] == more[1]);
    assert BreakLength(all, |line|) == n;
    hide BreakLength;
    assert all[..|line|] == line && all[|line| + n..] == more[n..];
  }

  lemma {:induction false} BreakIsThere(line: Bytes, more: Bytes)
    requires LF !in line && CR !in line && more != [] && (more[0] == LF || more[0] == CR)
    ensures FirstBreak(line + more) == |line|
  {
    var all := line + more;
    if line == [] {
      assert all == more;
    } else {
      assert all[1..] == line[1..] + more && line[0] in line;
      BreakIsThere(line[1..], more);
    }
  }

  /** How many bytes stand before and with the last "\n": `rfind(b"\n") + 1`. */
  function WholeLength(b: Bytes): (n: nat)
    ensures n <= |b|
    ensures n > 0 ==> b[n - 1] == LF
    ensures forall k :: n <= k < |b| ==> b[k] != LF
  {
    if b == [] then 0 else if b[|b| - 1] == LF then |b| else WholeLength(b[..|b| - 1])
  }

  function Whole(b: Bytes): Bytes { b[..WholeLength(b)] }

  predicate EndsWhole(b: Bytes) { b == [] || b[|b| - 1] == LF }

  lemma {:induction false} WholeLengthIs(b: Bytes, n: nat)
    requires n <= |b| && (n > 0 ==> b[n - 1] == LF) && forall k :: n <= k < |b| ==> b[k] != LF
    ensures WholeLength(b) == n
  {
    var m := WholeLength(b);
    assert m > 0 ==> b[m - 1] == LF;
  }

  /** Reading on from a whole line finds the same last whole line as reading it all. */
  lemma {:induction false} WholeOfRest(seen: Bytes, more: Bytes)
    requires EndsWhole(seen)
    ensures Whole(seen + more) == seen + Whole(more)
    ensures EndsWhole(Whole(more))
  {
    WholeLengthIs(seen + more, |seen| + WholeLength(more));
  }

  lemma {:induction false} FirstBreakInFront(a: Bytes, b: Bytes)
    requires FirstBreak(a) < |a|
    ensures FirstBreak(a + b) == FirstBreak(a)
  {
    if a[0] != LF && a[0] != CR {
      assert (a + b)[1..] == a[1..] + b;
      FirstBreakInFront(a[1..], b);
    }
  }

  lemma {:induction false} FirstLineInFront(a: Bytes, b: Bytes)
    requires a != [] && EndsWhole(a) && FirstBreak(a) < |a|
    ensures var i := FirstBreak(a); var rest := a[i + BreakLength(a, i)..];
      SplitLines(a + b) == [a[..i]] + SplitLines(rest + b)
  {
    FirstBreakInFront(a, b);
    var i := FirstBreak(a);
    assert (a + b)[i] == a[i];
    assert i + 1 < |a| ==> (a + b)[i + 1] == a[i + 1];
    var n := BreakLength(a, i);
    assert BreakLength(a + b, i) == n;
    assert (a + b)[i + n..] == a[i + n..] + b;
    assert (a + b)[..i] == a[..i];
  }

  lemma {:induction false} LinesOf(a: Bytes)
    requires a != [] && EndsWhole(a)
    ensures FirstBreak(a) < |a|
    ensures var i := FirstBreak(a); var rest := a[i + BreakLength(a, i)..];
      EndsWhole(rest) && SplitLines(a) == [a[..i]] + SplitLines(rest)
  {
    assert a[|a| - 1] == LF;
    var i := FirstBreak(a);
    assert i < |a|;
    var rest := a[i + BreakLength(a, i)..];
    assert rest != [] ==> rest[|rest| - 1] == a[|a| - 1];
  }

  lemma {:induction false} NoLines()
    ensures SplitLines([]) == []
  {
  }

  /** Cut after a "\n", the two halves have the lines of the whole. */
  lemma {:induction false} LinesOfHalves(a: Bytes, b: Bytes)
    requires EndsWhole(a)
    ensures SplitLines(a + b) == SplitLines(a) + SplitLines(b)
    decreases |a|
  {
    hide SplitLines, FirstBreak, BreakLength;
    if a == [] {
      assert a + b == b;
      NoLines();
      assert [] + SplitLines(b) == SplitLines(b);
    } else {
      LinesOf(a);
      FirstLineInFront(a, b);
      var i := FirstBreak(a);
      var rest := a[i + BreakLength(a, i)..];
      LinesOfHalves(rest, b);
      Associative([a[..i]], SplitLines(rest), SplitLines(b));
    }
  }

  // ---- rows -----------------------------------------------------------------------

  datatype Json =
    | Null | Bool(flag: bool) | Num(n: int) | Frac(r: real) | Text(s: string)
    | List(items: seq<Json>) | Object(fields: map<string, Json>)

  /** What Python itself does with a line and its values: json.loads, int() of a text, str() of a
      value that is no text. */
  datatype Python = Python(parse: Bytes -> Option<Json>, number: string -> Option<int>, show: Json -> string)

  datatype IntOf = IsInt(n: int) | ValueError | TypeError

  function Truncated(r: real): int { if r >= 0.0 then r.Floor else -((-r).Floor) }

  function ToInt(py: Python, j: Json): IntOf {
    match j
    case Bool(flag) => IsInt(if flag then 1 else 0)
    case Num(n) => IsInt(n)
    case Frac(r) => IsInt(Truncated(r))
    case Text(s) => (match py.number(s) case Some(n) => IsInt(n) case None => ValueError)
    case _ => TypeError
  }

  /** Python's int(): a truth value is one or nothing, a fraction loses what is behind its point. */
  lemma {:induction false} IntIs(py: Python, r: real, flag: bool)
    ensures ToInt(py, Bool(flag)) == IsInt(if flag then 1 else 0)
    ensures ToInt(py, Frac(r)).IsInt? && var n := ToInt(py, Frac(r)).n as real;
      if r < 0.0 then n - 1.0 < r <= n else n <= r < n + 1.0
  {
  }

  predicate Truthy(j: Json) {
    match j
    case Null => false
    case Bool(flag) => flag
    case Num(n) => n != 0
    case Frac(r) => r != 0.0
    case Text(s) => s != ""
    case List(items) => items != []
    case Object(fields) => fields != map[]
  }

  function Get(fields: map<string, Json>, key: string): Json { if key in fields then fields[key] else Null }

  /** `str(a or b or "")`. */
  function Said(py: Python, j: Json): string {
    if !Truthy(j) then "" else if j.Text? then j.s else py.show(j)
  }

  predicate OfClient(row: Json, client: string) {
    row.Object? && Get(row.fields, "item").Object? && Get(Get(row.fields, "item").fields, "client") == Text(client)
  }

  const PROBE_CLIENTS := ["routing-probe", "kanban-probe"]

  datatype Found =
    | Nothing
    | Miss(port: int, method_: string, path: string, status: int, reason: string, when: int)
    | NotANumber      // the row's time raises ValueError: the line is passed over
    | Breaks          // it raises TypeError: the whole reading fails

  /** `miss_of`: the error a row told a client, refused at the entry or finished, unless the client is a probe. */
  function MissOf(py: Python, row: Json): (found: Found)
    ensures found.Miss? ==> found.status >= 400 && found.port > 0
    ensures found.Miss? || found.NotANumber? || found.Breaks? ==>
      && row.Object? && Get(row.fields, "event") in [Text("blocked"), Text("finished")]
      && forall probe :: probe in PROBE_CLIENTS ==> !OfClient(row, probe)
  {
    if !row.Object? then Nothing
    else
      var item := if Get(row.fields, "item").Object? then Get(row.fields, "item").fields else map[];
      var client := Get(item, "client");
      if client.Text? && client.s in PROBE_CLIENTS then Nothing
      else
        var event := Get(row.fields, "event");
        if event != Text("blocked") && event != Text("finished") then Nothing
        else
          var status :=
            if event == Text("finished") && "status" in row.fields then row.fields["status"] else Get(item, "status");
          var s, p := ToInt(py, status), ToInt(py, Get(item, "port"));
          if !s.IsInt? || !p.IsInt? then Nothing
          else if s.n < 400 || p.n <= 0 then Nothing
          else
            var reason := Said(py, if Truthy(Get(item, "reason")) then Get(item, "reason") else Get(row.fields, "errorKind"));
            var time := Get(row.fields, "time");
            match ToInt(py, if Truthy(time) then time else Num(0))
            case IsInt(when) => Miss(p.n, Said(py, Get(item, "method")), Said(py, Get(item, "path")), s.n, reason, when)
            case ValueError => NotANumber
            case TypeError => Breaks
  }

  /** The field is there and holds this. */
  predicate Field(fields: map<string, Json>, key: string, value: Json) { key in fields && fields[key] == value }

  predicate IsProbe(item: map<string, Json>) {
    Field(item, "client", Text("routing-probe")) || Field(item, "client", Text("kanban-probe"))
  }

  /** A row of this status, port and time: a refusal has its item's status, a finished request its own or, where
      the row has none, its item's. */
  predicate Tells(row: map<string, Json>, item: map<string, Json>, status: int, port: int, when: int) {
    && (Field(row, "event", Text("blocked")) || Field(row, "event", Text("finished")))
    && Field(row, "item", Object(item)) && Field(row, "time", Num(when)) && Field(item, "port", Num(port))
    && Field(if Field(row, "event", Text("finished")) && "status" in row then row else item, "status", Num(status))
  }

  /** Every row that told a client an error is found, and no other. */
  lemma {:induction false} ErrorIsFound(py: Python, row: map<string, Json>, item: map<string, Json>,
                                        status: int, port: int, when: int)
    requires Tells(row, item, status, port, when)
    ensures MissOf(py, Object(row)).Miss? <==> status >= 400 && port > 0 && !IsProbe(item)
  {
    hide Said;
    var client := Get(item, "client");
    assert IsProbe(item) <==> client.Text? && client.s in PROBE_CLIENTS;
  }

  /** And it is told as it is: the item's reason or, where that is empty, the row's kind of error. */
  lemma {:induction false} ErrorIsToldAsItIs(py: Python, row: map<string, Json>, item: map<string, Json>, status: int,
                                             port: int, when: int, method_: string, path: string, reason: string, kind: string)
    requires Tells(row, item, status, port, when) && status >= 400 && port > 0 && !IsProbe(item)
    requires Field(item, "method", Text(method_)) && Field(item, "path", Text(path))
    requires Field(item, "reason", Text(reason)) && Field(row, "errorKind", Text(kind))
    ensures MissOf(py, Object(row)) == Miss(port, method_, path, status, if reason != "" then reason else kind, when)
  {
    ErrorIsFound(py, row, item, status, port, when);
    TextIsSaid(py, method_);
    TextIsSaid(py, path);
    TextIsSaid(py, reason);
    TextIsSaid(py, kind);
    hide Said;
  }

  lemma {:induction false} TextIsSaid(py: Python, s: string)
    ensures Said(py, Text(s)) == s && (Truthy(Text(s)) <==> s != "")
  {
  }

  // ---- the fold -------------------------------------------------------------------

  datatype Key = Key(port: int, method_: string, path: string, status: int)

  datatype Line = Line(count: nat, last: int, reason: string)

  type Book = map<Key, Line>

  const NO_LINE := Line(0, 0, "")

  function Add(book: Book, m: Found): Book
    requires m.Miss?
  {
    var key := Key(m.port, m.method_, m.path, m.status);
    var was := if key in book then book[key] else NO_LINE;
    book[key := Line(was.count + 1, if m.when > was.last then m.when else was.last,
                     if m.when >= was.last then m.reason else was.reason)]
  }

  /** One line into the book; None when the reading breaks. */
  function ReadLine(py: Python, book: Book, line: Bytes): Option<Book> {
    match py.parse(line)
    case None => Some(book)
    case Some(row) =>
      var found := MissOf(py, row);
      match found
      case Miss(_, _, _, _, _, _) => Some(Add(book, found))
      case Breaks => None
      case _ => Some(book)
  }

  function ReadLines(py: Python, book: Book, lines: seq<Bytes>): Option<Book>
    decreases |lines|
  {
    if lines == [] then Some(book)
    else match ReadLine(py, book, lines[0])
         case None => None
         case Some(next) => ReadLines(py, next, lines[1..])
  }

  /** A reading fails exactly when one of its lines is a row whose time is neither number nor text. */
  lemma {:induction false} ReadingFailsIff(py: Python, book: Book, lines: seq<Bytes>)
    ensures ReadLines(py, book, lines).None? <==>
      exists l :: l in lines && py.parse(l).Some? && MissOf(py, py.parse(l).value).Breaks?
    decreases |lines|
  {
    hide MissOf, Add;
    if lines != [] {
      assert lines == [lines[0]] + lines[1..];
      var read := ReadLine(py, book, lines[0]);
      if read.Some? { ReadingFailsIff(py, read.value, lines[1..]); }
    }
  }

  lemma {:induction false} WhatBreaks(py: Python, row: map<string, Json>)
    requires MissOf(py, Object(row)).Breaks?
    ensures Get(row, "time").List? || Get(row, "time").Object?
  {
    hide Said;
  }

  /** A whole file, read from its first byte. */
  function ReadAll(py: Python, file: Bytes): Option<Book> {
    ReadLines(py, map[], SplitLines(Whole(file)))
  }

  lemma {:induction false} ReadInTwo(py: Python, book: Book, a: seq<Bytes>, b: seq<Bytes>)
    ensures ReadLines(py, book, a + b) ==
      match ReadLines(py, book, a) case None => None case Some(mid) => ReadLines(py, mid, b)
    decreases |a|
  {
    if a == [] {
      assert a + b == b;
    } else {
      assert (a + b)[1..] == a[1..] + b;
      match ReadLine(py, book, a[0])
      case None =>
      case Some(next) => ReadInTwo(py, next, a[1..], b);
    }
  }

  /** What was read up to a whole line, and the rest read on from there, is the file read at once. */
  lemma {:induction false} ReadOn(py: Python, seen: Bytes, more: Bytes, book: Book)
    requires EndsWhole(seen) && ReadLines(py, map[], SplitLines(seen)) == Some(book)
    ensures ReadAll(py, seen + more) == ReadLines(py, book, SplitLines(Whole(more)))
  {
    WholeOfRest(seen, more);
    LinesOfHalves(seen, Whole(more));
    ReadInTwo(py, map[], SplitLines(seen), SplitLines(Whole(more)));
  }
}
