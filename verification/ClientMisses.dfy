/** What clients were answered with an error, over the journal's days (caravan/admin/client_misses.py).

    Each day's file is read once and then only its new whole lines. The reader here is a class with
    the source's own cache; whatever was appended between readings, and at whatever byte a reading
    found the file cut, its cache is the file read from the start. */
module ClientMisses {
  import opened Basics
  import opened JournalRows

  // ---- what a book says -------------------------------------------------------------

  predicate IsMissOf(py: Python, line: Bytes, key: Key) {
    py.parse(line).Some? &&
    var m := MissOf(py, py.parse(line).value);
    m.Miss? && Key(m.port, m.method_, m.path, m.status) == key
  }

  function WhenOf(py: Python, line: Bytes, key: Key): int
    requires IsMissOf(py, line, key)
  {
    MissOf(py, py.parse(line).value).when
  }

  function ReasonOf(py: Python, line: Bytes, key: Key): string
    requires IsMissOf(py, line, key)
  {
    MissOf(py, py.parse(line).value).reason
  }

  /** The lines that told this error. */
  function LinesOfKey(py: Python, lines: seq<Bytes>, key: Key): (told: seq<Bytes>)
    ensures forall l :: l in told <==> l in lines && IsMissOf(py, l, key)
  {
    if lines == [] then []
    else LinesOfKey(py, lines[..|lines| - 1], key)
         + (if IsMissOf(py, lines[|lines| - 1], key) then [lines[|lines| - 1]] else [])
  }

  /** The book of the lines: an error is in it when a line told it, counted once for each line; `last` is the newest
      time told (never before the epoch), and the reason is that of the latest line told at that time. */
  ghost predicate BookOf(py: Python, lines: seq<Bytes>, book: Book) {
    && (forall key :: key in book <==> LinesOfKey(py, lines, key) != [])
    && (forall key :: key in book ==> LineSays(py, LinesOfKey(py, lines, key), key, book[key]))
  }

  predicate ToldBefore(py: Python, line: Bytes, key: Key, when: int) { IsMissOf(py, line, key) && WhenOf(py, line, key) < when }

  ghost predicate LastTold(py: Python, told: seq<Bytes>, key: Key, line: Line, i: nat) {
    && i < |told| && IsMissOf(py, told[i], key)
    && WhenOf(py, told[i], key) == line.last && ReasonOf(py, told[i], key) == line.reason
    && forall j :: i < j < |told| ==> ToldBefore(py, told[j], key, line.last)
  }

  ghost predicate LineSays(py: Python, told: seq<Bytes>, key: Key, line: Line) {
    && line.count == |told| && line.last >= 0
    && (forall i :: 0 <= i < |told| ==> ToldBefore(py, told[i], key, line.last + 1))
    && ((exists i :: LastTold(py, told, key, line, i))
        || (line.last == 0 && line.reason == "" && forall i :: 0 <= i < |told| ==> ToldBefore(py, told[i], key, 0)))
  }

  /** One line more of the error. */
  lemma {:induction false} OneMoreTold(py: Python, told: seq<Bytes>, key: Key, was: Line, line: Bytes)
    requires IsMissOf(py, line, key) && (LineSays(py, told, key, was) || (told == [] && was == NO_LINE))
    ensures var when, reason := WhenOf(py, line, key), ReasonOf(py, line, key);
      LineSays(py, told + [line], key,
        Line(was.count + 1, if when > was.last then when else was.last, if when >= was.last then reason else was.reason))
  {
    var when, all := WhenOf(py, line, key), told + [line];
    var next := Line(was.count + 1, if when > was.last then when else was.last,
                     if when >= was.last then ReasonOf(py, line, key) else was.reason);
    if when >= was.last {
      assert LastTold(py, all, key, next, |told|);
    } else if i :| LastTold(py, told, key, was, i) {
      assert LastTold(py, all, key, next, i);
    }
  }

  lemma {:induction false} BookOfOneMore(py: Python, lines: seq<Bytes>, line: Bytes, book: Book)
    requires BookOf(py, lines, book) && ReadLine(py, book, line).Some?
    ensures BookOf(py, lines + [line], ReadLine(py, book, line).value)
  {
    var all := lines + [line];
    var next := ReadLine(py, book, line).value;
    assert all[..|all| - 1] == lines;
    forall key
      ensures key in next <==> LinesOfKey(py, all, key) != []
      ensures key in next ==> LineSays(py, LinesOfKey(py, all, key), key, next[key])
    {
      var told := LinesOfKey(py, lines, key);
      if IsMissOf(py, line, key) {
        assert LinesOfKey(py, all, key) == told + [line];
        OneMoreTold(py, told, key, if key in book then book[key] else NO_LINE, line);
      } else {
        assert LinesOfKey(py, all, key) == told;
      }
    }
  }

  /** Reading a file's lines gives their book. */
  lemma {:induction false} ReadingGivesTheBook(py: Python, done: seq<Bytes>, lines: seq<Bytes>, book: Book)
    requires BookOf(py, done, book) && ReadLines(py, book, lines).Some?
    ensures BookOf(py, done + lines, ReadLines(py, book, lines).value)
    decreases |lines|
  {
    if lines == [] {
      assert done + lines == done;
    } else {
      BookOfOneMore(py, done, lines[0], book);
      assert done + lines == done + [lines[0]] + lines[1..];
      ReadingGivesTheBook(py, done + [lines[0]], lines[1..], ReadLine(py, book, lines[0]).value);
    }
  }

  lemma {:induction false} WholeFileGivesItsBook(py: Python, file: Bytes)
    requires ReadAll(py, file).Some?
    ensures BookOf(py, SplitLines(Whole(file)), ReadAll(py, file).value)
  {
    ReadingGivesTheBook(py, [], SplitLines(Whole(file)), map[]);
    assert [] + SplitLines(Whole(file)) == SplitLines(Whole(file));
  }

  // ---- the cache ----------------------------------------------------------------------

  /** A day's file, read up to a whole line. */
  datatype Seen = Seen(offset: nat, misses: Book)

  ghost predicate Faithful(py: Python, seen: Seen, file: Bytes) {
    && seen.offset <= |file|
    && EndsWhole(file[..seen.offset])
    && ReadLines(py, map[], SplitLines(file[..seen.offset])) == Some(seen.misses)
  }

  /** All whole lines of the file were read, and nothing past them. */
  ghost predicate UpToDate(py: Python, seen: Seen, file: Bytes) {
    seen.offset == WholeLength(file) && ReadAll(py, file) == Some(seen.misses)
  }

  lemma {:induction false} AppendKeepsFaithful(py: Python, seen: Seen, file: Bytes, more: Bytes)
    requires Faithful(py, seen, file)
    ensures Faithful(py, seen, file + more)
  {
    assert (file + more)[..seen.offset] == file[..seen.offset];
  }

  lemma {:induction false} UpToDateIsFaithful(py: Python, seen: Seen, file: Bytes)
    requires UpToDate(py, seen, file)
    ensures Faithful(py, seen, file)
  {
  }

  /** What one reading of a day does to what was seen of it. */
  lemma {:induction false} ReadOnIsUpToDate(py: Python, seen: Seen, file: Bytes, book: Book)
    requires Faithful(py, seen, file)
    requires ReadLines(py, seen.misses, SplitLines(Whole(file[seen.offset..]))) == Some(book)
    ensures UpToDate(py, Seen(seen.offset + |Whole(file[seen.offset..])|, book), file)
  {
    var front, rest := file[..seen.offset], file[seen.offset..];
    assert file == front + rest;
    ReadOn(py, front, rest, seen.misses);
    WholeOfRest(front, rest);
    assert |Whole(file)| == |front| + |Whole(rest)|;
  }

  lemma {:induction false} NoRest(py: Python, book: map<Key, Line>)
    ensures Whole([]) == [] && SplitLines([]) == [] && ReadLines(py, book, []) == Some(book)
  {
  }

  lemma {:induction false} ReadOnBreaks(py: Python, seen: Seen, file: Bytes)
    requires Faithful(py, seen, file)
    requires ReadLines(py, seen.misses, SplitLines(Whole(file[seen.offset..]))).None?
    ensures ReadAll(py, file).None?
  {
    var front, rest := file[..seen.offset], file[seen.offset..];
    assert file == front + rest;
    ReadOn(py, front, rest, seen.misses);
  }

  lemma {:induction false} NothingSeen(py: Python, file: Bytes)
    ensures Faithful(py, Seen(0, map[]), file)
  {
    assert file[..0] == [];
  }

  /** An error of the window: its counts summed over the days, newest day first. */
  function Join(was: Option<Line>, line: Line): Line {
    match was
    case None => line
    case Some(w) =>
      if line.last >= w.last then Line(line.count + w.count, line.last, line.reason)
      else w.(count := w.count + line.count)
  }

  function Total(books: seq<Book>, key: Key): Option<Line> {
    if books == [] then None
    else
      var was := Total(books[..|books| - 1], key);
      var book := books[|books| - 1];
      if key in book then Some(Join(was, book[key])) else was
  }

  function SumOf(books: seq<Book>, key: Key): nat {
    if books == [] then 0
    else SumOf(books[..|books| - 1], key) + (if key in books[|books| - 1] then books[|books| - 1][key].count else 0)
  }

  /** The window's line: there when some day told the error, its counts summed, `last` the newest,
      and the reason that of the newest, the earliest day winning a tie. */
  lemma {:induction false} TotalSays(books: seq<Book>, key: Key)
    ensures Total(books, key).Some? <==> exists i :: 0 <= i < |books| && key in books[i]
    ensures Total(books, key).Some? ==>
      && Total(books, key).value.count == SumOf(books, key)
      && (forall i :: 0 <= i < |books| && key in books[i] ==> books[i][key].last <= Total(books, key).value.last)
      && (exists i :: 0 <= i < |books| && key in books[i]
            && books[i][key].last == Total(books, key).value.last && books[i][key].reason == Total(books, key).value.reason
            && forall j :: i < j < |books| && key in books[j] ==> books[j][key].last < books[i][key].last)
    ensures Total(books, key).None? ==> SumOf(books, key) == 0
  {
    if books != [] {
      var n := |books| - 1;
      var front := books[..n];
      TotalSays(front, key);
      assert forall i :: 0 <= i < n ==> front[i] == books[i];
      if Total(front, key).Some? {
        var w := Total(front, key).value;
        var i :| 0 <= i < |front| && key in front[i] && front[i][key].last == w.last && front[i][key].reason == w.reason
          && forall j :: i < j < |front| && key in front[j] ==> front[j][key].last < front[i][key].last;
        assert key in books[i] && books[i][key] == front[i][key];
      }
    }
  }

  // ---- the lines a card shows -----------------------------------------------------------

  const SHOWN := 8

  datatype Entry = Entry(key: Key, line: Line)

  /** Python's order of two texts. */
  predicate TextAtMost(a: string, b: string) {
    a == [] || (b != [] && (a[0] < b[0] || (a[0] == b[0] && TextAtMost(a[1..], b[1..]))))
  }

  /** The board's order: the newest first, then by path. */
  predicate Before(a: Entry, b: Entry) {
    a.line.last > b.line.last || (a.line.last == b.line.last && TextAtMost(a.key.path, b.key.path))
  }

  lemma {:induction false} TextOrder(a: string, b: string, c: string)
    ensures TextAtMost(a, b) || TextAtMost(b, a)
    ensures TextAtMost(a, b) && TextAtMost(b, c) ==> TextAtMost(a, c)
    decreases |a|
  {
    if a != [] {
      TextOrder(a[1..], if b == [] then [] else b[1..], if c == [] then [] else c[1..]);
    }
  }

  /** Texts stand by their first difference, a text before one it begins; so no two share a place. */
  lemma {:induction false} TextAtMostIff(a: string, b: string)
    ensures TextAtMost(a, b) <==> a <= b || exists k :: 0 <= k < |a| && k < |b| && a[..k] == b[..k] && a[k] < b[k]
    decreases |a|
  {
    if a != [] && b != [] && a[0] == b[0] {
      TextAtMostIff(a[1..], b[1..]);
      assert a == [a[0]] + a[1..] && b == [b[0]] + b[1..];
      if k :| 0 <= k < |a[1..]| && k < |b[1..]| && a[1..][..k] == b[1..][..k] && a[1..][k] < b[1..][k] {
        assert a[..k + 1] == [a[0]] + a[1..][..k] && b[..k + 1] == [b[0]] + b[1..][..k];
        assert a[k + 1] < b[k + 1];
      }
      if k :| 0 <= k < |a| && k < |b| && a[..k] == b[..k] && a[k] < b[k] {
        assert a[1..][..k - 1] == a[..k][1..] && b[1..][..k - 1] == b[..k][1..];
        assert a[1..][k - 1] < b[1..][k - 1];
      }
      if a <= b { assert a[1..] <= b[1..]; }
    } else if a != [] && b != [] {
      assert a[..0] == b[..0];
    }
  }

  ghost predicate Sorted(entries: seq<Entry>) {
    forall i, j :: 0 <= i < j < |entries| ==> Before(entries[i], entries[j])
  }

  function Insert(entries: seq<Entry>, e: Entry): seq<Entry> {
    if entries == [] then [e]
    else if Before(e, entries[0]) then [e] + entries
    else [entries[0]] + Insert(entries[1..], e)
  }

  /** Before the first of a sorted list is before all of it. */
  lemma {:induction false} BeforeAll(entries: seq<Entry>, e: Entry)
    requires Sorted(entries) && entries != [] && Before(e, entries[0])
    ensures Sorted([e] + entries)
  {
    forall k | 0 <= k < |entries|
      ensures Before(e, entries[k])
    {
      TextOrder(e.key.path, entries[0].key.path, entries[k].key.path);
      TextOrder(e.key.path, e.key.path, e.key.path);
    }
  }

  /** A first that is before the entries and the one placed among them is before all of the outcome. */
  lemma {:induction false} FirstStays(first: Entry, rest: seq<Entry>, e: Entry, placed: seq<Entry>)
    requires Sorted([first] + rest) && Before(first, e) && Sorted(placed) && multiset(placed) == multiset(rest) + multiset{e}
    ensures Sorted([first] + placed)
  {
    forall k | 0 <= k < |placed|
      ensures Before(first, placed[k])
    {
      assert placed[k] in multiset(placed);
      if placed[k] != e {
        assert placed[k] in multiset(rest);
        var m :| 0 <= m < |rest| && rest[m] == placed[k];
        assert ([first] + rest)[0] == first && ([first] + rest)[m + 1] == placed[k];
      }
    }
  }

  lemma {:induction false} InsertKeepsAll(entries: seq<Entry>, e: Entry)
    ensures multiset(Insert(entries, e)) == multiset(entries) + multiset{e}
    decreases |entries|
  {
    if entries != [] {
      assert entries == [entries[0]] + entries[1..];
      if !Before(e, entries[0]) { InsertKeepsAll(entries[1..], e); }
    }
  }

  lemma {:induction false} InsertSorts(entries: seq<Entry>, e: Entry)
    requires Sorted(entries)
    ensures Sorted(Insert(entries, e))
    ensures multiset(Insert(entries, e)) == multiset(entries) + multiset{e}
    decreases |entries|
  {
    InsertKeepsAll(entries, e);
    if entries != [] {
      var first, rest := entries[0], entries[1..];
      assert entries == [first] + rest;
      if Before(e, first) {
        BeforeAll(entries, e);
      } else {
        InsertKeepsAll(rest, e);
        InsertSorts(rest, e);
        TextOrder(e.key.path, first.key.path, first.key.path);
        hide Sorted;
        FirstStays(first, rest, e, Insert(rest, e));
      }
    }
  }

  datatype Card = Card(items: seq<Entry>, more: nat)

  /** All the errors of one client, each once, in the board's order. */
  ghost predicate Listed(total: map<Key, Line>, port: int, all: seq<Entry>) {
    && Sorted(all)
    && (forall i, j :: 0 <= i < j < |all| ==> all[i].key != all[j].key)
    && KeysOf(all) == (set key | key in total && key.port == port)
    && (forall e :: e in all ==> e.key in total && e.line == total[e.key])
  }

  function Top(all: seq<Entry>): Card {
    if |all| < SHOWN then Card(all, 0) else Card(all[..SHOWN], |all| - SHOWN)
  }

  /** A client's card: the first of its errors in the board's order, and how many more there are. */
  ghost predicate CardOf(total: map<Key, Line>, port: int, card: Card) {
    exists all :: Listed(total, port, all) && card == Top(all)
  }

  /** A card's lines stand the newest first, those of one time by path; nothing it leaves out is newer, and shown
      and left out together are the client's distinct errors. */
  lemma {:induction false} CardCounts(total: map<Key, Line>, port: int, card: Card)
    requires CardOf(total, port, card)
    ensures var n := |set key | key in total && key.port == port|;
      |card.items| + card.more == n && |card.items| == if n < 8 then n else 8
    ensures forall i, j :: 0 <= i < j < |card.items| ==> var a, b := card.items[i], card.items[j];
      a.line.last >= b.line.last && (a.line.last == b.line.last ==> TextAtMost(a.key.path, b.key.path))
    ensures forall key, e :: key in total && key.port == port && key !in KeysOf(card.items) && e in card.items ==>
      total[key].last <= e.line.last
  {
    var all :| Listed(total, port, all) && card == Top(all);
    KeysAreCounted(all);
    forall key, e | key in total && key.port == port && key !in KeysOf(card.items) && e in card.items
      ensures total[key].last <= e.line.last
    {
      LeftOutIsOlder(total, port, all, key, e);
    }
  }

  lemma {:induction false} LeftOutIsOlder(total: map<Key, Line>, port: int, all: seq<Entry>, key: Key, e: Entry)
    requires Listed(total, port, all) && e in Top(all).items
    requires key in KeysOf(all) && key !in KeysOf(Top(all).items)
    ensures total[key].last <= e.line.last
  {
    var items := Top(all).items;
    var late :| late in all && late.key == key;
    var k :| 0 <= k < |all| && all[k] == late;
    var i :| 0 <= i < |items| && items[i] == e;
    assert Before(all[i], all[k]);
  }

  function KeysOf(all: seq<Entry>): set<Key> { set e | e in all :: e.key }

  lemma {:induction false} KeysAreCounted(all: seq<Entry>)
    requires forall i, j :: 0 <= i < j < |all| ==> all[i].key != all[j].key
    ensures |KeysOf(all)| == |all|
  {
    if all != [] {
      var n := |all| - 1;
      KeysAreCounted(all[..n]);
      assert all == all[..n] + [all[n]];
      assert KeysOf(all) == KeysOf(all[..n]) + {all[n].key};
      assert all[n].key !in KeysOf(all[..n]);
    }
  }

  // ---- the reader ---------------------------------------------------------------------

  type Day = int

  /** The journal's folder: a file for each day it has. */
  type Journal = map<Day, Bytes>

  datatype DayRead = Gone | Read(seen: Seen) | Broke

  datatype Answer = NotKnown | Failed | Cards(cards: map<int, Card>)

  function Window(today: Day, days: nat): seq<Day> { seq(days, back => today - back) }

  /** The last days up to today, each once, the latest first. */
  lemma {:induction false} WindowIs(today: Day, days: nat, day: Day)
    ensures day in Window(today, days) <==> today - days < day <= today
    ensures forall i, j :: 0 <= i < j < days ==> Window(today, days)[i] > Window(today, days)[j]
  {
    if today - days < day <= today { assert Window(today, days)[today - day] == day; }
  }

  /** A day's errors, as the file read whole gives them; none for a day not there. */
  function BookOfDay(py: Python, journal: Journal, day: Day): Option<Book> {
    if day in journal then ReadAll(py, journal[day]) else Some(map[])
  }

  function BooksOf(py: Python, journal: Journal, days: seq<Day>): Option<seq<Book>> {
    if days == [] then Some([])
    else match (BooksOf(py, journal, days[..|days| - 1]), BookOfDay(py, journal, days[|days| - 1]))
         case (Some(front), Some(book)) => Some(front + [book])
         case _ => None
  }

  /** Every error of the clients asked about, with its line over the books. */
  ghost predicate TotalsOf(books: seq<Book>, wanted: set<int>, total: map<Key, Line>) {
    && (forall key :: key in total <==> key.port in wanted && Total(books, key).Some?)
    && (forall key :: key in total ==> Total(books, key) == Some(total[key]))
  }

  ghost predicate CardsOf(books: seq<Book>, wanted: set<int>, cards: map<int, Card>) {
    && cards.Keys == wanted
    && exists total :: TotalsOf(books, wanted, total) && forall port :: port in wanted ==> CardOf(total, port, cards[port])
  }

  class ClientMisses {
    const py: Python
    const days: nat
    var read: map<Day, Seen>

    constructor (py: Python, days: nat)
      ensures this.py == py && this.days == days && read == map[]
    {
      this.py := py;
      this.days := days;
      read := map[];
    }

    /** The cache tells the truth about every file it has read less of than there is. */
    ghost predicate Tracks(journal: Journal)
      reads this
    {
      forall day :: day in read && day in journal && read[day].offset <= |journal[day]| ==>
        Faithful(py, read[day], journal[day])
    }

    /** And of every file it read, which still is at least as long. */
    ghost predicate Follows(journal: Journal)
      reads this
    {
      forall day :: day in read ==> day in journal && Faithful(py, read[day], journal[day])
    }

    /** `_day`: the day's file read on to its last whole line. A file shorter than what was read of it is
        read again from its start; one gone is forgotten. */
    method ReadDay(journal: Journal, day: Day) returns (r: DayRead)
      requires Tracks(journal)
      modifies this
      ensures Tracks(journal)
      ensures forall d :: d != day ==> (d in read <==> d in old(read)) && (d in read ==> read[d] == old(read)[d])
      ensures old(Follows(journal)) ==> Follows(journal)
      ensures r.Gone? <==> day !in journal
      ensures r.Gone? ==> day !in read
      ensures r.Broke? <==> day in journal && ReadAll(py, journal[day]).None?
      ensures r.Broke? ==> read == old(read)
      ensures r.Read? ==> day in read && read[day] == r.seen && UpToDate(py, r.seen, journal[day])
    {
      hide Whole, SplitLines, ReadLine;
      if day !in journal {
        read := read - {day};
        return Gone;
      }
      var file := journal[day];
      var seen := if day in read then read[day] else Seen(0, map[]);
      NothingSeen(py, file);
      if seen.offset > |file| { seen := Seen(0, map[]); }
      var rest := file[seen.offset..];
      if seen.offset < |file| {
        var whole := Whole(rest);
        var lines := SplitLines(whole);
        var misses := seen.misses;
        for k := 0 to |lines|
          invariant read == old(read)
          invariant ReadLines(py, seen.misses, lines[..k]) == Some(misses)
        {
          ReadInTwo(py, seen.misses, lines[..k], [lines[k]]);
          assert lines[..k + 1] == lines[..k] + [lines[k]];
          var next := ReadLine(py, misses, lines[k]);
          if next.None? {
            ReadInTwo(py, seen.misses, lines[..k + 1], lines[k + 1..]);
            assert lines == lines[..k + 1] + lines[k + 1..];
            ReadOnBreaks(py, seen, file);
            return Broke;
          }
          misses := next.value;
        }
        assert lines[..|lines|] == lines;
        ReadOnIsUpToDate(py, seen, file, misses);
        seen := Seen(seen.offset + |whole|, misses);
      } else {
        assert rest == [];
        NoRest(py, seen.misses);
        ReadOnIsUpToDate(py, seen, file, seen.misses);
      }
      UpToDateIsFaithful(py, seen, file);
      read := read[day := seen];
      r := Read(seen);
    }

    /** The window's errors of the clients asked about; None when a day's reading breaks. */
    method Totals(journal: Journal, window: seq<Day>, wanted: set<int>) returns (total: Option<map<Key, Line>>)
      requires Tracks(journal) && forall day :: day in read ==> day in window
      modifies this
      ensures Tracks(journal) && forall day :: day in read ==> day in window
      ensures old(Follows(journal)) ==> Follows(journal)
      ensures total.None? <==> BooksOf(py, journal, window).None?
      ensures total.Some? ==> TotalsOf(BooksOf(py, journal, window).value, wanted, total.value)
    {
      var sums: map<Key, Line> := map[];
      ghost var books: seq<Book> := [];
      for k := 0 to |window|
        invariant Tracks(journal) && forall day :: day in read ==> day in window
        invariant old(Follows(journal)) ==> Follows(journal)
        invariant BooksOf(py, journal, window[..k]) == Some(books)
        invariant TotalsOf(books, wanted, sums)
      {
        var seen := ReadDay(journal, window[k]);
        assert window[..k + 1][..k] == window[..k];
        if seen.Broke? {
          BreaksLater(py, journal, window, k + 1);
          return None;
        }
        var book := if seen.Read? then seen.seen.misses else map[];
        sums := AddDay(sums, wanted, book, books);
        books := books + [book];
      }
      assert window[..|window|] == window;
      total := Some(sums);
    }

    /** The cards of the clients asked about, over the window's days; not known when there is no folder. */
    method Of(folder: Option<Journal>, today: Day, ports: seq<int>) returns (answer: Answer)
      requires folder.Some? ==> Tracks(folder.value)
      modifies this
      ensures folder.Some? ==> Tracks(folder.value)
      ensures folder.Some? && old(Follows(folder.value)) ==> Follows(folder.value)
      ensures folder.None? ==> answer.NotKnown? && read == old(read)
      ensures folder.Some? ==> forall day :: day in read ==> day in Window(today, days)
      ensures folder.Some? ==> Right(py, days, folder.value, today, ports, answer)
    {
      if folder.None? { return NotKnown; }
      var window := Window(today, days);
      read := map day | day in read && day in window :: read[day];
      var wanted := set p | p in ports;
      var total := Totals(folder.value, window, wanted);
      if total.None? { return Failed; }
      var cards := MakeCards(total.value, ports);
      answer := Cards(cards);
    }
  }

  /** One day's errors added to the window's, for the clients asked about. */
  method AddDay(total: map<Key, Line>, wanted: set<int>, book: Book, ghost books: seq<Book>) returns (next: map<Key, Line>)
    requires TotalsOf(books, wanted, total)
    ensures TotalsOf(books + [book], wanted, next)
  {
    assert (books + [book])[..|books|] == books;
    next := total;
    var left := book.Keys;
    while left != {}
      invariant left <= book.Keys
      invariant forall key :: key !in book || key in left || key.port !in wanted ==>
        (key in next <==> key in total) && (key in next ==> next[key] == total[key])
      invariant forall key :: key in book && key !in left && key.port in wanted ==>
        key in next && next[key] == Join(if key in total then Some(total[key]) else None, book[key])
      decreases left
    {
      var key :| key in left;
      left := left - {key};
      if key.port !in wanted { continue; }
      next := next[key := Join(if key in total then Some(total[key]) else None, book[key])];
    }
  }

  method MakeCards(total: map<Key, Line>, ports: seq<int>) returns (cards: map<int, Card>)
    ensures cards.Keys == (set p | p in ports)
    ensures forall port :: port in cards ==> CardOf(total, port, cards[port])
  {
    cards := map[];
    for k := 0 to |ports|
      invariant cards.Keys == (set p | p in ports[..k])
      invariant forall port :: port in cards ==> CardOf(total, port, cards[port])
    {
      assert ports[..k + 1] == ports[..k] + [ports[k]];
      var card := MakeCard(total, ports[k]);
      cards := cards[ports[k] := card];
    }
    assert ports[..|ports|] == ports;
  }

  method MakeCard(total: map<Key, Line>, port: int) returns (card: Card)
    ensures CardOf(total, port, card)
  {
    var all: seq<Entry> := [];
    var keys := set key | key in total && key.port == port;
    var left := keys;
    while left != {}
      invariant left <= keys && KeysOf(all) == keys - left
      invariant Sorted(all)
      invariant forall i, j :: 0 <= i < j < |all| ==> all[i].key != all[j].key
      invariant forall e :: e in all ==> e.key in total && e.line == total[e.key]
      decreases left
    {
      var key :| key in left;
      var e := Entry(key, total[key]);
      InsertSorts(all, e);
      InsertKeeps(all, e);
      all := Insert(all, e);
      left := left - {key};
    }
    assert Listed(total, port, all);
    card := Top(all);
  }

  lemma {:induction false} BreaksLater(py: Python, journal: Journal, days: seq<Day>, k: nat)
    requires k <= |days| && BooksOf(py, journal, days[..k]).None?
    ensures BooksOf(py, journal, days).None?
    decreases |days|
  {
    if k == |days| {
      assert days[..k] == days;
    } else {
      assert days[..|days| - 1][..k] == days[..k];
      BreaksLater(py, journal, days[..|days| - 1], k);
    }
  }

  lemma {:induction false} InsertKeeps(all: seq<Entry>, e: Entry)
    requires forall i, j :: 0 <= i < j < |all| ==> all[i].key != all[j].key
    requires e.key !in KeysOf(all)
    ensures var placed := Insert(all, e);
      && KeysOf(placed) == KeysOf(all) + {e.key}
      && (forall i, j :: 0 <= i < j < |placed| ==> placed[i].key != placed[j].key)
      && (forall x :: x in placed ==> x == e || x in all)
    decreases |all|
  {
    var placed := Insert(all, e);
    if all != [] {
      assert all[0].key in KeysOf(all);
      var rest := all[1..];
      assert all == [all[0]] + rest;
      assert KeysOf(all) == {all[0].key} + KeysOf(rest);
      if Before(e, all[0]) {
        assert KeysOf(placed) == {e.key} + KeysOf(all) by {
          assert placed[1..] == all;
        }
      } else {
        assert all[0].key !in KeysOf(rest) by {
          assert forall i :: 0 <= i < |rest| ==> rest[i] == all[i + 1];
        }
        InsertKeeps(rest, e);
        var later := Insert(rest, e);
        assert forall i :: 0 <= i < |later| ==> later[i].key in KeysOf(later);
        assert KeysOf(placed) == {all[0].key} + KeysOf(later) by {
          assert placed[1..] == later;
        }
      }
    }
  }

  // ---- every interleaving ---------------------------------------------------------------

  datatype Event = Append(day: Day, more: Bytes) | Ask(today: Day, ports: seq<int>)

  function Appended(journal: Journal, day: Day, more: Bytes): Journal {
    journal[day := (if day in journal then journal[day] else []) + more]
  }

  /** The journal after the events. */
  function Grown(start: Journal, events: seq<Event>): Journal {
    if events == [] then start
    else
      var before, last := Grown(start, events[..|events| - 1]), events[|events| - 1];
      if last.Append? then Appended(before, last.day, last.more) else before
  }

  /** The answer a question gets from the files read whole. */
  ghost predicate Right(py: Python, days: nat, journal: Journal, today: Day, ports: seq<int>, answer: Answer) {
    match BooksOf(py, journal, Window(today, days))
    case None => answer.Failed?
    case Some(books) => answer.Cards? && CardsOf(books, (set p | p in ports), answer.cards)
  }

  /** One answer for each question, each right at its moment. */
  ghost predicate AllRight(py: Python, days: nat, start: Journal, events: seq<Event>, answers: seq<Answer>) {
    if events == [] then answers == []
    else
      var before, last := events[..|events| - 1], events[|events| - 1];
      if last.Append? then AllRight(py, days, start, before, answers)
      else
        && answers != []
        && Right(py, days, Grown(start, before), last.today, last.ports, answers[|answers| - 1])
        && AllRight(py, days, start, before, answers[..|answers| - 1])
  }

  /** Over any run of appends, cut at any byte, and of questions: the cache stays true, and every
      question is answered as from the files read whole at that moment. */
  method RunAll(reader: ClientMisses, start: Journal, events: seq<Event>) returns (journal: Journal, answers: seq<Answer>)
    requires reader.Follows(start)
    modifies reader
    ensures journal == Grown(start, events) && reader.Follows(journal)
    ensures AllRight(reader.py, reader.days, start, events, answers)
  {
    hide Right, BooksOf, CardsOf;
    journal, answers := start, [];
    for k := 0 to |events|
      invariant journal == Grown(start, events[..k]) && reader.Follows(journal)
      invariant AllRight(reader.py, reader.days, start, events[..k], answers)
    {
      assert events[..k + 1][..k] == events[..k];
      match events[k] {
        case Append(day, more) =>
          if day in reader.read { AppendKeepsFaithful(reader.py, reader.read[day], journal[day], more); }
          journal := Appended(journal, day, more);
        case Ask(today, ports) =>
          var answer := reader.Of(Some(journal), today, ports);
          assert (answers + [answer])[..|answers|] == answers;
          answers := answers + [answer];
      }
    }
    assert events[..|events|] == events;
  }
}
