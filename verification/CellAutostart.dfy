/** A cell's autostart follows its record when the cell is deleted, moved to another port or swapped
    with another one (caravan/admin/cell_ops.py, class CellAutostart), while scouts' reports arrive.

    What a scout is to start with its machine it holds as a request for a port; it reports these, and of a
    cell the controller has no record of one is made from the request. */
module CellAutostart {
  import opened Basics

  datatype Cell = Cell(host: string, port: int)

  /** A cell's settings; the port in them is the cell's own. */
  type Config = string

  /** The controller's records, the requests the scouts keep, and the list of them each scout named last. */
  datatype Fleet = Fleet(records: map<Cell, Config>, kept: map<Cell, Config>, known: set<Cell>)

  /** The ports no cell may take: the proxy's and the excluded ones. */
  datatype Site = Site(reserved: set<int>)

  predicate ValidPort(port: int) { 1 <= port <= 65535 }

  function Used(site: Site, records: map<Cell, Config>): set<int> {
    site.reserved + set c | c in records :: c.port
  }

  // ---- a report, and the two calls ----------------------------------------------------

  function KeptBy(kept: map<Cell, Config>, host: string): set<Cell> { set c | c in kept && c.host == host }

  function Listed(known: set<Cell>, kept: map<Cell, Config>, host: string): set<Cell> {
    (set c | c in known && c.host != host) + KeptBy(kept, host)
  }

  /** A report makes a record of this kept request. */
  predicate Adopts(site: Site, f: Fleet, host: string, c: Cell) {
    c in f.kept && c.host == host && ValidPort(c.port) && c !in f.records && c.port !in Used(site, f.records)
  }

  /** KeptCells.adopt, and the host's list renewed. */
  function Report(site: Site, f: Fleet, host: string): Fleet {
    Fleet(f.records + (map c | c in f.kept && Adopts(site, f, host, c) :: f.kept[c]),
          f.kept, Listed(f.known, f.kept, host))
  }

  function Reports(site: Site, f: Fleet, hosts: seq<string>): Fleet
    decreases |hosts|
  {
    if hosts == [] then f else Reports(site, Report(site, f, hosts[0]), hosts[1..])
  }

  /** What becomes of one call to a scout: it never arrives, it is refused, it is carried out and the answer
      is lost, or it is carried out and answered. Each call has its own: nothing follows from the one before. */
  datatype Outcome = Unheard | Refused | Lost | Done

  predicate Took(o: Outcome) { o.Lost? || o.Done? }

  predicate Answered(o: Outcome) { o.Refused? || o.Done? }

  /** `_set` off: the scout forgets the request, and its answer renews the host's list. */
  function Off(f: Fleet, c: Cell, o: Outcome): Fleet {
    var kept := if Took(o) then f.kept - {c} else f.kept;
    f.(kept := kept, known := if Answered(o) then Listed(f.known, kept, c.host) else f.known)
  }

  /** The settings a request is made with: the record's as it stands, and none without a record. */
  function Setting(f: Fleet, c: Cell): Config { if c in f.records then f.records[c] else "" }

  /** `_set` on: the request is made from the record as it stands. */
  function On(f: Fleet, c: Cell, o: Outcome): Fleet {
    var kept := if Took(o) then f.kept[c := Setting(f, c)] else f.kept;
    f.(kept := kept, known := if Answered(o) then Listed(f.known, kept, c.host) else f.known)
  }

  // ---- the protocol, reports between any two of its steps ------------------------------

  /** How a protocol goes: the hosts whose reports arrive at each pause, and what becomes of each call. */
  datatype Course = Course(reports: nat -> seq<string>, answers: nat -> Outcome)

  function AllOff(site: Site, f: Fleet, cells: seq<Cell>, p: Course): Fleet {
    if cells == [] then f
    else
      var n := |cells| - 1;
      Reports(site, Off(AllOff(site, f, cells[..n], p), cells[n], p.answers(n)), p.reports(n))
  }

  /** The calls are numbered from `call` on, the pauses from `pause` on. */
  function AllOn(site: Site, f: Fleet, cells: seq<Cell>, p: Course, call: nat, pause: nat): Fleet {
    if cells == [] then f
    else
      var n := |cells| - 1;
      Reports(site, On(AllOn(site, f, cells[..n], p, call, pause), cells[n], p.answers(call + n)), p.reports(pause + n))
  }

  datatype Move = Move(host: string, oldPort: int, newPort: int)

  function OldCell(m: Move): Cell { Cell(m.host, m.oldPort) }

  function NewCell(m: Move): Cell { Cell(m.host, m.newPort) }

  /** The moves whose cell's request is kept, as far as the controller knows. */
  function KnownMoves(f: Fleet, moves: seq<Move>): (known: seq<Move>)
    ensures forall m :: m in known <==> m in moves && OldCell(m) in f.known
  {
    if moves == [] then []
    else KnownMoves(f, moves[..|moves| - 1])
         + (if OldCell(moves[|moves| - 1]) in f.known then [moves[|moves| - 1]] else [])
  }

  function OldCells(moves: seq<Move>): seq<Cell> { seq(|moves|, i requires 0 <= i < |moves| => OldCell(moves[i])) }

  function NewCells(moves: seq<Move>): seq<Cell> { seq(|moves|, i requires 0 <= i < |moves| => NewCell(moves[i])) }

  /** What the records' move leaves, and whether it answered: one that is refused leaves them, one whose save
      raises has moved them already. */
  datatype Changed = Changed(records: map<Cell, Config>, done: bool)

  type Change = map<Cell, Config> -> Changed

  datatype Moved = Moved(fleet: Fleet, done: bool)

  function MoveAll(site: Site, f: Fleet, moves: seq<Move>, change: Change, p: Course): Moved {
    var kept := KnownMoves(f, moves);
    var n := |kept|;
    var off := AllOff(site, f, OldCells(kept), p);
    var changed := change(off.records);
    if changed.done then
      Moved(AllOn(site, Reports(site, off.(records := changed.records), p.reports(n)), NewCells(kept), p, n, n + 1), true)
    else Moved(AllOn(site, off.(records := changed.records), OldCells(kept), p, n, n), false)
  }

  // ---- the class ------------------------------------------------------------------------

  /** What an answer says of one request: the port, on or off, whether the scout said it did it. */
  datatype Said = Said(port: int, enabled: bool, ok: bool)

  class Controller {
    var fleet: Fleet
    const site: Site

    constructor (site: Site, f: Fleet)
      ensures fleet == f && this.site == site
    {
      this.site := site;
      fleet := f;
    }

    method HearReports(hosts: seq<string>)
      modifies this
      ensures fleet == Reports(site, old(fleet), hosts)
    {
      for k := 0 to |hosts|
        invariant Reports(site, fleet, hosts[k..]) == Reports(site, old(fleet), hosts)
      {
        assert hosts[k..][1..] == hosts[k + 1..];
        fleet := Report(site, fleet, hosts[k]);
      }
    }

    method Set(c: Cell, enabled: bool, o: Outcome) returns (said: Said)
      modifies this
      ensures fleet == if enabled then On(old(fleet), c, o) else Off(old(fleet), c, o)
      ensures said == Said(c.port, enabled, o.Done?)
    {
      fleet := if enabled then On(fleet, c, o) else Off(fleet, c, o);
      said := Said(c.port, enabled, o.Done?);
    }

    /** `forget`: None when the scout is not known to keep a request. */
    method Forget(c: Cell, o: Outcome) returns (said: Option<Said>)
      modifies this
      ensures fleet == if c in old(fleet).known then Off(old(fleet), c, o) else old(fleet)
      ensures said == if c in old(fleet).known then Some(Said(c.port, false, o.Done?)) else None
    {
      if c !in fleet.known { return None; }
      var s := Set(c, false, o);
      said := Some(s);
    }

    method SwitchOff(cells: seq<Cell>, p: Course) returns (said: seq<Said>)
      modifies this
      ensures fleet == AllOff(site, old(fleet), cells, p) && |said| == |cells|
      ensures forall k :: 0 <= k < |cells| ==> said[k] == Said(cells[k].port, false, p.answers(k).Done?)
    {
      hide Off, On, Reports;
      said := [];
      for k := 0 to |cells|
        invariant fleet == AllOff(site, old(fleet), cells[..k], p) && |said| == k
        invariant forall i :: 0 <= i < k ==> said[i] == Said(cells[i].port, false, p.answers(i).Done?)
      {
        assert cells[..k + 1][..k] == cells[..k];
        var s := Set(cells[k], false, p.answers(k));
        said := said + [s];
        HearReports(p.reports(k));
      }
      assert cells[..|cells|] == cells;
    }

    method SwitchOn(cells: seq<Cell>, p: Course, call: nat, pause: nat) returns (said: seq<Said>)
      modifies this
      ensures fleet == AllOn(site, old(fleet), cells, p, call, pause) && |said| == |cells|
      ensures forall k :: 0 <= k < |cells| ==> said[k] == Said(cells[k].port, true, p.answers(call + k).Done?)
    {
      hide Off, On, Reports;
      said := [];
      for k := 0 to |cells|
        invariant fleet == AllOn(site, old(fleet), cells[..k], p, call, pause) && |said| == k
        invariant forall i :: 0 <= i < k ==> said[i] == Said(cells[i].port, true, p.answers(call + i).Done?)
      {
        assert cells[..k + 1][..k] == cells[..k];
        var s := Set(cells[k], true, p.answers(call + k));
        said := said + [s];
        HearReports(p.reports(pause + k));
      }
      assert cells[..|cells|] == cells;
    }

    /** `moved`: off at the old ports, the records' change, on at the new ones; back on at the old ones
        when the change raises. */
    method RunMoves(moves: seq<Move>, change: Change, p: Course) returns (done: bool, said: seq<Said>)
      modifies this
      ensures Moved(fleet, done) == MoveAll(site, old(fleet), moves, change, p)
      ensures done ==> |said| == 2 * |KnownMoves(old(fleet), moves)|
      ensures done ==> forall k :: 0 <= k < |said| ==> said[k].ok == p.answers(k).Done?
    {
      hide AllOff, AllOn, Reports, KnownMoves, OldCells, NewCells, MoveAll;
      ghost var was := fleet;
      var kept := KnownMoves(fleet, moves);
      SameLength(kept);
      said := SwitchOff(OldCells(kept), p);
      var changed := change(fleet.records);
      MoveAllIs(site, was, moves, change, p);
      fleet := fleet.(records := changed.records);
      if !changed.done {
        var _ := SwitchOn(OldCells(kept), p, |kept|, |kept|);
        return false, said;
      }
      HearReports(p.reports(|kept|));
      var started := SwitchOn(NewCells(kept), p, |kept|, |kept| + 1);
      SaidTogether(said, started, p);
      return true, said + started;
    }

    /** client_server_slot_delete: the request first, then the record. */
    method Delete(c: Cell, p: Course) returns (removed: bool, said: Option<Said>)
      modifies this
      ensures fleet == Deleted(site, old(fleet), c, p)
      ensures removed <==> c in Cleared(site, old(fleet), c, p).records
      ensures said == if c in old(fleet).known then Some(Said(c.port, false, p.answers(0).Done?)) else None
    {
      said := Forget(c, p.answers(0));
      HearReports(p.reports(0));
      removed := c in fleet.records;
      fleet := fleet.(records := fleet.records - {c});
      HearReports(p.reports(1));
    }
  }

  lemma {:induction false} SameLength(moves: seq<Move>)
    ensures |OldCells(moves)| == |NewCells(moves)| == |moves|
  {
  }

  lemma {:induction false} MoveAllIs(site: Site, f: Fleet, moves: seq<Move>, change: Change, p: Course)
    ensures var kept := KnownMoves(f, moves); var n := |kept|;
      var off := AllOff(site, f, OldCells(kept), p);
      var changed := change(off.records);
      MoveAll(site, f, moves, change, p) ==
        if changed.done then
          Moved(AllOn(site, Reports(site, off.(records := changed.records), p.reports(n)), NewCells(kept), p, n, n + 1), true)
        else Moved(AllOn(site, off.(records := changed.records), OldCells(kept), p, n, n), false)
  {
    hide AllOff, AllOn, Reports, KnownMoves, OldCells, NewCells;
  }

  lemma {:induction false} SaidTogether(off: seq<Said>, on: seq<Said>, p: Course)
    requires forall k :: 0 <= k < |off| ==> off[k].ok == p.answers(k).Done?
    requires forall k :: 0 <= k < |on| ==> on[k].ok == p.answers(|off| + k).Done?
    ensures forall k :: 0 <= k < |off + on| ==> (off + on)[k].ok == p.answers(k).Done?
  {
    forall k | 0 <= k < |off + on|
      ensures (off + on)[k].ok == p.answers(k).Done?
    {
      if k >= |off| { assert (off + on)[k] == on[k - |off|] && p.answers(|off| + (k - |off|)) == p.answers(k); }
    }
  }

  /** The fleet when the record is to go. */
  function Cleared(site: Site, f: Fleet, c: Cell, p: Course): Fleet {
    Reports(site, if c in f.known then Off(f, c, p.answers(0)) else f, p.reports(0))
  }

  function Deleted(site: Site, f: Fleet, c: Cell, p: Course): Fleet {
    var off := Cleared(site, f, c, p);
    Reports(site, off.(records := off.records - {c}), p.reports(1))
  }

  // ---- what reports can and cannot do -----------------------------------------------------

  /** Reports leave every request and every record; what they add is a kept request's cell. */
  lemma {:induction false} ReportsOnlyAdopt(site: Site, f: Fleet, hosts: seq<string>)
    ensures var g := Reports(site, f, hosts);
      && g.kept == f.kept
      && (forall c :: c in f.records ==> c in g.records && g.records[c] == f.records[c])
      && (forall c :: c in g.records && c !in f.records ==> c in f.kept && g.records[c] == f.kept[c])
    decreases |hosts|
  {
    if hosts != [] { ReportsOnlyAdopt(site, Report(site, f, hosts[0]), hosts[1..]); }
  }

  /** A report makes a record of a request exactly when the request is its host's, the port a valid one that is
      neither reserved nor any cell's, and the cell has none. */
  lemma {:induction false} ReportAdoptsIff(site: Site, f: Fleet, host: string, c: Cell)
    ensures var g := Report(site, f, host);
      && (c in g.records && c !in f.records <==>
            c in f.kept && c.host == host && 1 <= c.port <= 65535 && c !in f.records
            && c.port !in site.reserved && forall d :: d in f.records ==> d.port != c.port)
      && (c in g.records && c !in f.records ==> g.records[c] == f.kept[c])
  {
  }

  /** A request no scout keeps brings no record back. */
  predicate Gone(f: Fleet, c: Cell) { c !in f.records && c !in f.kept }

  lemma {:induction false} GoneStaysGone(site: Site, f: Fleet, hosts: seq<string>, c: Cell)
    requires Gone(f, c)
    ensures Gone(Reports(site, f, hosts), c)
  {
    ReportsOnlyAdopt(site, f, hosts);
  }

  /** The cells whose calls took effect, the calls numbered from `call` on. */
  function Reached(cells: seq<Cell>, p: Course, call: nat): set<Cell> {
    if cells == [] then {}
    else
      var n := |cells| - 1;
      Reached(cells[..n], p, call) + if Took(p.answers(call + n)) then {cells[n]} else {}
  }

  lemma {:induction false} ReachedWithin(cells: seq<Cell>, p: Course, call: nat)
    ensures forall c :: c in Reached(cells, p, call) ==> c in cells
  {
    if cells != [] {
      var n := |cells| - 1;
      ReachedWithin(cells[..n], p, call);
      assert cells == cells[..n] + [cells[n]];
    }
  }

  lemma {:induction false} AfterAllOff(site: Site, f: Fleet, cells: seq<Cell>, p: Course)
    ensures var g := AllOff(site, f, cells, p);
      && g.kept == f.kept - Reached(cells, p, 0)
      && (forall c :: c in f.records ==> c in g.records && g.records[c] == f.records[c])
      && (forall c :: c in g.records && c !in f.records ==> c in f.kept)
    decreases |cells|
  {
    if cells != [] {
      var n := |cells| - 1;
      AfterAllOff(site, f, cells[..n], p);
      ReportsOnlyAdopt(site, Off(AllOff(site, f, cells[..n], p), cells[n], p.answers(n)), p.reports(n));
    }
  }

  /** What the calls on sent, where they took effect. */
  function Sent(site: Site, f: Fleet, cells: seq<Cell>, p: Course, call: nat, pause: nat): map<Cell, Config> {
    if cells == [] then map[]
    else
      var n := |cells| - 1;
      Sent(site, f, cells[..n], p, call, pause)
      + if Took(p.answers(call + n)) then map[cells[n] := Setting(AllOn(site, f, cells[..n], p, call, pause), cells[n])] else map[]
  }

  /** Settings that stood in `f`: a record's, and of a cell without one a request's or none. */
  predicate Stood(f: Fleet, c: Cell, settings: Config) {
    if c in f.records then settings == f.records[c] else settings == "" || (c in f.kept && settings == f.kept[c])
  }

  /** What switching on leaves. */
  predicate SwitchedOn(f: Fleet, g: Fleet, sent: map<Cell, Config>) {
    && g.kept == f.kept + sent
    && (forall c :: c in sent ==> Stood(f, c, sent[c]))
    && (forall c :: c in f.records ==> c in g.records && g.records[c] == f.records[c])
    && (forall c :: c in g.records && c !in f.records ==> (c in f.kept || c in sent) && Stood(f, c, g.records[c]))
  }

  lemma {:induction false} NoneOn(f: Fleet)
    ensures SwitchedOn(f, f, map[])
  {
    assert f.kept + map[] == f.kept;
  }

  lemma {:induction false} OneMoreSent(kept: map<Cell, Config>, sent: map<Cell, Config>, c: Cell, settings: Config)
    ensures kept + (sent + map[c := settings]) == (kept + sent)[c := settings]
  {
  }

  lemma {:induction false} SettingStood(f: Fleet, g: Fleet, sent: map<Cell, Config>, c: Cell)
    requires SwitchedOn(f, g, sent)
    ensures Stood(f, c, Setting(g, c))
  {
  }

  lemma {:induction false} OneMoreOn(f: Fleet, g: Fleet, sent: map<Cell, Config>, c: Cell, o: Outcome)
    requires SwitchedOn(f, g, sent)
    ensures SwitchedOn(f, On(g, c, o), sent + if Took(o) then map[c := Setting(g, c)] else map[])
  {
    SettingStood(f, g, sent, c);
    hide Stood, Setting;
    if Took(o) {
      var next := sent + map[c := Setting(g, c)];
      OneMoreSent(f.kept, sent, c, Setting(g, c));
      assert forall d :: d in next ==> Stood(f, d, next[d]);
      assert On(g, c, o).records == g.records && On(g, c, o).kept == f.kept + next;
      assert SwitchedOn(f, On(g, c, o), next);
    } else {
      assert sent + map[] == sent;
    }
  }

  lemma {:induction false} StaysOn(site: Site, f: Fleet, g: Fleet, sent: map<Cell, Config>, hosts: seq<string>)
    requires SwitchedOn(f, g, sent)
    ensures SwitchedOn(f, Reports(site, g, hosts), sent)
  {
    hide Reports;
    ReportsOnlyAdopt(site, g, hosts);
  }

  lemma {:induction false} AfterAllOn(site: Site, f: Fleet, cells: seq<Cell>, p: Course, call: nat, pause: nat)
    ensures SwitchedOn(f, AllOn(site, f, cells, p, call, pause), Sent(site, f, cells, p, call, pause))
    ensures Sent(site, f, cells, p, call, pause).Keys == Reached(cells, p, call)
    decreases |cells|
  {
    hide Reports, On, SwitchedOn, Setting;
    if cells == [] {
      NoneOn(f);
    } else {
      var n := |cells| - 1;
      AfterAllOn(site, f, cells[..n], p, call, pause);
      var g, sent := AllOn(site, f, cells[..n], p, call, pause), Sent(site, f, cells[..n], p, call, pause);
      OneMoreOn(f, g, sent, cells[n], p.answers(call + n));
      StaysOn(site, f, On(g, cells[n], p.answers(call + n)), Sent(site, f, cells, p, call, pause), p.reports(pause + n));
    }
  }

  function Cells(moves: seq<Move>, f: Fleet): set<Cell> { set m | m in moves && OldCell(m) in f.known :: OldCell(m) }

  function Goals(moves: seq<Move>, f: Fleet): set<Cell> { set m | m in moves && OldCell(m) in f.known :: NewCell(m) }

  /** The cells at whose old ports the off took effect. */
  function OffAt(f: Fleet, moves: seq<Move>, p: Course): set<Cell> { Reached(OldCells(KnownMoves(f, moves)), p, 0) }

  /** The cells at whose new ports the on took effect. */
  function OnAt(f: Fleet, moves: seq<Move>, p: Course): set<Cell> {
    Reached(NewCells(KnownMoves(f, moves)), p, |KnownMoves(f, moves)|)
  }

  /** And, when the change raised, those at whose old ports it did. */
  function BackAt(f: Fleet, moves: seq<Move>, p: Course): set<Cell> {
    Reached(OldCells(KnownMoves(f, moves)), p, |KnownMoves(f, moves)|)
  }

  lemma {:induction false} AskedAreCells(f: Fleet, moves: seq<Move>, p: Course)
    ensures OffAt(f, moves, p) <= Cells(moves, f) && BackAt(f, moves, p) <= Cells(moves, f) && OnAt(f, moves, p) <= Goals(moves, f)
    ensures forall c :: c in OldCells(KnownMoves(f, moves)) <==> c in Cells(moves, f)
    ensures forall c :: c in NewCells(KnownMoves(f, moves)) <==> c in Goals(moves, f)
  {
    var kept := KnownMoves(f, moves);
    ReachedWithin(OldCells(kept), p, 0);
    ReachedWithin(OldCells(kept), p, |kept|);
    ReachedWithin(NewCells(kept), p, |kept|);
    forall m | m in kept
      ensures OldCell(m) in OldCells(kept) && NewCell(m) in NewCells(kept)
    {
      var i :| 0 <= i < |kept| && kept[i] == m;
      assert OldCells(kept)[i] == OldCell(m) && NewCells(kept)[i] == NewCell(m);
    }
    forall i | 0 <= i < |kept|
      ensures OldCells(kept)[i] in Cells(moves, f) && NewCells(kept)[i] in Goals(moves, f)
    {
      assert kept[i] in kept;
    }
  }

  /** The fleet a change was made on and what it made of it. */
  function ChangedTo(site: Site, f: Fleet, moves: seq<Move>, change: Change, p: Course): Fleet {
    var off := AllOff(site, f, OldCells(KnownMoves(f, moves)), p);
    off.(records := change(off.records).records)
  }

  /** A move of any cells that went through, whatever became of its calls: which requests are kept at the end,
      and which records a report can have added. */
  lemma {:induction false} AfterMove(site: Site, f: Fleet, moves: seq<Move>, change: Change, p: Course, records: map<Cell, Config>)
    requires var off := AllOff(site, f, OldCells(KnownMoves(f, moves)), p); change(off.records) == Changed(records, true)
    ensures var r := MoveAll(site, f, moves, change, p); var g := r.fleet;
      && r.done
      && g.kept.Keys == f.kept.Keys - OffAt(f, moves, p) + OnAt(f, moves, p)
      && (forall c :: c in g.kept && c !in OnAt(f, moves, p) ==> g.kept[c] == f.kept[c])
      && (forall c :: c in OnAt(f, moves, p) && c in records ==> g.kept[c] == records[c])
      && (forall c :: c in records ==> c in g.records && g.records[c] == records[c])
      && (forall c :: c in g.records && c !in records ==> (c in f.kept && c !in OffAt(f, moves, p)) || c in OnAt(f, moves, p))
  {
    hide Reports, AllOn, AllOff, Sent, Reached, KnownMoves;
    var kept := KnownMoves(f, moves);
    AfterAllOff(site, f, OldCells(kept), p);
    var off := AllOff(site, f, OldCells(kept), p);
    ReportsOnlyAdopt(site, off.(records := records), p.reports(|kept|));
    var changed := Reports(site, off.(records := records), p.reports(|kept|));
    AfterAllOn(site, changed, NewCells(kept), p, |kept|, |kept| + 1);
    ghost var sent := Sent(site, changed, NewCells(kept), p, |kept|, |kept| + 1);
    assert (changed.kept + sent).Keys == changed.kept.Keys + sent.Keys;
  }

  /** The requests end renamed as the cells are moved exactly when each kept one left on stands where a moved one
      goes, each moved one was switched on or stands there already, and none other was switched on. */
  lemma {:induction false} RenamedIff(kept: set<Cell>, cells: set<Cell>, goals: set<Cell>, off: set<Cell>, on: set<Cell>)
    requires cells <= kept && off * kept <= cells
    ensures kept - off + on == kept - cells + goals
       <==> cells - off <= goals && goals <= on + (kept - off) && on <= kept - cells + goals
  {
    if kept - off + on == kept - cells + goals {
      assert forall c :: c in cells - off ==> c in kept - off + on;
      assert forall c :: c in goals ==> c in kept - off + on;
      assert forall c :: c in on ==> c in kept - off + on;
    }
  }

  // ---- a port move --------------------------------------------------------------------------

  /** reassign_server_slot_port, as far as the records go; `saves` is whether its save goes through. */
  function Reassign(site: Site, host: string, oldPort: int, newPort: int, saves: bool): Change {
    (records: map<Cell, Config>) =>
      var from, to := Cell(host, oldPort), Cell(host, newPort);
      if oldPort == newPort || from !in records then Changed(records, false)
      else if !ValidPort(newPort) || newPort in Used(site, records - {from}) then Changed(records, false)
      else Changed((records - {from})[to := records[from]], saves)
  }

  function PortMove(site: Site, f: Fleet, host: string, oldPort: int, newPort: int, saves: bool, p: Course): Moved {
    MoveAll(site, f, [Move(host, oldPort, newPort)], Reassign(site, host, oldPort, newPort, saves), p)
  }

  /** The records a move is made on: those there were, and what reports added meanwhile. */
  function Before(site: Site, f: Fleet, moves: seq<Move>, p: Course): Fleet {
    AllOff(site, f, OldCells(KnownMoves(f, moves)), p)
  }

  lemma {:induction false} ReassignedRecords(site: Site, f: Fleet, host: string, oldPort: int, newPort: int, saves: bool, p: Course)
    requires PortMove(site, f, host, oldPort, newPort, saves, p).done
    ensures var moves := [Move(host, oldPort, newPort)]; var from, to := Cell(host, oldPort), Cell(host, newPort);
      var before := Before(site, f, moves, p).records;
      && from in before && from != to
      && Reassign(site, host, oldPort, newPort, saves)(before) == Changed((before - {from})[to := before[from]], true)
      && (from in f.records ==> before[from] == f.records[from])
      && Cells(moves, f) == (if from in f.known then {from} else {})
      && Goals(moves, f) == (if from in f.known then {to} else {})
  {
    AfterAllOff(site, f, OldCells(KnownMoves(f, [Move(host, oldPort, newPort)])), p);
  }

  /** A move goes through exactly when the ports differ, the cell has a record, the new port is a valid one that is
      neither reserved nor another cell's, and the save does not raise. */
  lemma {:induction false} MoveIsDoneIff(site: Site, f: Fleet, host: string, oldPort: int, newPort: int, saves: bool, p: Course)
    ensures var from, before := Cell(host, oldPort), Before(site, f, [Move(host, oldPort, newPort)], p).records;
      PortMove(site, f, host, oldPort, newPort, saves, p).done <==>
        oldPort != newPort && from in before && 1 <= newPort <= 65535 && newPort !in site.reserved
        && (forall c :: c in before && c != from ==> c.port != newPort) && saves
  {
    hide AllOff, AllOn, Reports, KnownMoves, OldCells, NewCells;
  }

  /** The calls of a port move: off at the old port, then on at the new one. */
  lemma {:induction false} PortCalls(f: Fleet, host: string, oldPort: int, newPort: int, p: Course)
    ensures var moves := [Move(host, oldPort, newPort)]; var from, to := Cell(host, oldPort), Cell(host, newPort);
      && OffAt(f, moves, p) == (if from in f.known && Took(p.answers(0)) then {from} else {})
      && OnAt(f, moves, p) == (if from in f.known && Took(p.answers(1)) then {to} else {})
      && BackAt(f, moves, p) == (if from in f.known && Took(p.answers(1)) then {from} else {})
  {
    var move := Move(host, oldPort, newPort);
    var moves, none: seq<Cell> := [move], [];
    assert moves[..0] == [] && KnownMoves(f, moves) == if OldCell(move) in f.known then [move] else [];
    assert Reached(none, p, 0) == {} && Reached(none, p, 1) == {};
    if OldCell(move) in f.known {
      assert OldCells(moves) == [OldCell(move)] && NewCells(moves) == [NewCell(move)];
      OneReached(OldCell(move), p, 0);
      OneReached(OldCell(move), p, 1);
      OneReached(NewCell(move), p, 1);
    } else {
      assert OldCells([]) == [] && NewCells([]) == [];
    }
  }

  lemma {:induction false} OneReached(c: Cell, p: Course, call: nat)
    ensures Reached([c], p, call) == if Took(p.answers(call)) then {c} else {}
  {
    assert [c][..0] == [] && Reached([c][..0], p, call) == {};
  }

  /** Whatever reports arrive meanwhile and afterwards, and whatever becomes of the calls, a port move leaves a
      request at the old port exactly when one was there that the controller did not know of, or whose off did
      not take effect; and with no request there, no report brings the record back. */
  lemma {:induction false} MoveVacates(site: Site, f: Fleet, host: string, oldPort: int, newPort: int, saves: bool, p: Course)
    requires PortMove(site, f, host, oldPort, newPort, saves, p).done
    ensures var g := PortMove(site, f, host, oldPort, newPort, saves, p).fleet; var from, to := Cell(host, oldPort), Cell(host, newPort);
      && (from in g.kept <==> from in f.kept && (from !in f.known || !Took(p.answers(0))))
      && (from !in g.kept ==> from !in g.records && forall later :: from !in Reports(site, g, later).records)
      && to in g.records
      && (from in f.records ==> g.records[to] == f.records[from])
  {
    var moves := [Move(host, oldPort, newPort)];
    var from, to := Cell(host, oldPort), Cell(host, newPort);
    ReassignedRecords(site, f, host, oldPort, newPort, saves, p);
    PortCalls(f, host, oldPort, newPort, p);
    var before := Before(site, f, moves, p).records;
    AfterMove(site, f, moves, Reassign(site, host, oldPort, newPort, saves), p, (before - {from})[to := before[from]]);
    var g := PortMove(site, f, host, oldPort, newPort, saves, p).fleet;
    if from !in g.kept {
      forall later
        ensures from !in Reports(site, g, later).records
      {
        GoneStaysGone(site, g, later, from);
      }
    }
  }

  /** A request that was left does bring the record back: the next report of its machine makes it anew, unless
      another cell or the proxy holds its number. */
  lemma {:induction false} LeftRequestComesBack(site: Site, f: Fleet, host: string, oldPort: int, newPort: int, saves: bool, p: Course)
    requires PortMove(site, f, host, oldPort, newPort, saves, p).done && ValidPort(oldPort)
    requires Cell(host, oldPort) in f.kept && (Cell(host, oldPort) !in f.known || !Took(p.answers(0)))
    ensures var g := PortMove(site, f, host, oldPort, newPort, saves, p).fleet;
      oldPort in Used(site, g.records) || Cell(host, oldPort) in Report(site, g, host).records
  {
    MoveVacates(site, f, host, oldPort, newPort, saves, p);
    var g := PortMove(site, f, host, oldPort, newPort, saves, p).fleet;
    var from := Cell(host, oldPort);
    if from !in g.records && oldPort !in Used(site, g.records) {
      assert Adopts(site, g, host, from);
    }
  }

  /** Whatever the list says: the kept requests end renamed as the record was exactly when one that was there was
      known, its off took effect, and the on did or a request stood at the new port already; and when one that was
      not there was not taken for one, or the on for it did not take effect or changed no port. So a request may be
      left at neither port, and one may be made that nobody kept. */
  lemma {:induction false} MoveRenamesIff(site: Site, f: Fleet, host: string, oldPort: int, newPort: int, saves: bool, p: Course)
    requires PortMove(site, f, host, oldPort, newPort, saves, p).done
    ensures var g := PortMove(site, f, host, oldPort, newPort, saves, p).fleet;
      var from, to := Cell(host, oldPort), Cell(host, newPort); var off, on := Took(p.answers(0)), Took(p.answers(1));
      && (g.kept.Keys == (if from in f.kept then f.kept.Keys - {from} + {to} else f.kept.Keys) <==>
            if from in f.kept then from in f.known && off && (on || to in f.kept)
            else from !in f.known || !on || to in f.kept)
      && (from in f.kept && from !in g.kept && to !in g.kept <==>
            from in f.kept && from in f.known && off && !on && to !in f.kept)
      && (from !in f.kept && to in g.kept && to !in f.kept <==>
            from !in f.kept && from in f.known && on && to !in f.kept)
      && (from in f.known && on ==> to in g.kept && to in g.records && g.kept[to] == g.records[to])
      && (forall c :: c in g.kept && c != to ==> c in f.kept && g.kept[c] == f.kept[c])
  {
    hide MoveAll, AllOff, Reached, KnownMoves, Reassign;
    var moves := [Move(host, oldPort, newPort)];
    var from, to := Cell(host, oldPort), Cell(host, newPort);
    ReassignedRecords(site, f, host, oldPort, newPort, saves, p);
    PortCalls(f, host, oldPort, newPort, p);
    var before := Before(site, f, moves, p).records;
    AfterMove(site, f, moves, Reassign(site, host, oldPort, newPort, saves), p, (before - {from})[to := before[from]]);
    RenamedIff(f.kept.Keys, if from in f.kept then {from} else {}, if from in f.kept then {to} else {},
      OffAt(f, moves, p), OnAt(f, moves, p));
  }

  /** A request nobody kept, made by a move all of whose calls were answered: the list still names one. */
  lemma {:induction false} RequestOutOfNowhere()
    ensures var from, to := Cell("h", 1), Cell("h", 2);
      var f := Fleet(map[from := "settings"], map[], {from});
      var r := PortMove(Site({}), f, "h", 1, 2, true, Course((n: nat) => [], (n: nat) => Done));
      r.done && f.kept == map[] && to in r.fleet.kept
  {
    var from := Cell("h", 1);
    var f := Fleet(map[from := "settings"], map[], {from});
    var p := Course((n: nat) => [], (n: nat) => Done);
    var moves := [Move("h", 1, 2)];
    AfterAllOff(Site({}), f, OldCells(KnownMoves(f, moves)), p);
    var off := AllOff(Site({}), f, OldCells(KnownMoves(f, moves)), p);
    assert off.records == f.records;
    assert Used(Site({}), off.records - {from}) == {};
    MoveRenamesIff(Site({}), f, "h", 1, 2, true, p);
  }

  /** A change that raises, of any moves, whatever becomes of the calls and whether it had moved the records: the
      requests kept at the end are those not switched off and those switched back on, with the settings sent. They
      are those kept at the start exactly when every one whose off took effect was switched back on, and none was
      switched on that was not kept; and their settings too, exactly when those sent were the request's own. */
  lemma {:induction false} RefusedMoveRestores(site: Site, f: Fleet, moves: seq<Move>, change: Change, p: Course)
    requires !MoveAll(site, f, moves, change, p).done
    ensures var g, kept := MoveAll(site, f, moves, change, p).fleet, KnownMoves(f, moves);
      var start := ChangedTo(site, f, moves, change, p);
      var off, sent := OffAt(f, moves, p), Sent(site, start, OldCells(kept), p, |kept|, |kept|);
      && sent.Keys == BackAt(f, moves, p) && (forall c :: c in sent ==> Stood(start, c, sent[c]))
      && g.kept == (f.kept - off) + sent
      && (g.kept.Keys == f.kept.Keys <==>
            (forall c :: c in off && c in f.kept ==> c in sent) && forall c :: c in sent ==> c in f.kept)
      && (g.kept == f.kept <==> g.kept.Keys == f.kept.Keys && forall c :: c in sent && c in f.kept ==> sent[c] == f.kept[c])
      && (forall c :: c in start.records ==> c in g.records && g.records[c] == start.records[c])
  {
    hide Reports, AllOn, AllOff, Sent, Reached, KnownMoves;
    var kept := KnownMoves(f, moves);
    var start := ChangedTo(site, f, moves, change, p);
    AfterAllOff(site, f, OldCells(kept), p);
    AfterAllOn(site, start, OldCells(kept), p, |kept|, |kept|);
    BackIff(f.kept, OffAt(f, moves, p), Sent(site, start, OldCells(kept), p, |kept|, |kept|));
  }

  /** A change that was refused outright leaves every record standing. */
  lemma {:induction false} RefusalKeepsRecords(site: Site, f: Fleet, moves: seq<Move>, change: Change, p: Course)
    requires !MoveAll(site, f, moves, change, p).done
    requires forall records :: change(records).done || change(records).records == records
    ensures forall c :: c in f.records ==>
      c in MoveAll(site, f, moves, change, p).fleet.records && MoveAll(site, f, moves, change, p).fleet.records[c] == f.records[c]
  {
    hide Reports, AllOn, AllOff, Sent, Reached, KnownMoves;
    RefusedMoveRestores(site, f, moves, change, p);
    AfterAllOff(site, f, OldCells(KnownMoves(f, moves)), p);
    var off := AllOff(site, f, OldCells(KnownMoves(f, moves)), p);
    assert !change(off.records).done;
    assert change(off.records).records == off.records;
  }

  lemma {:induction false} BackIff(kept: map<Cell, Config>, off: set<Cell>, sent: map<Cell, Config>)
    ensures var g := (kept - off) + sent;
      && (g.Keys == kept.Keys <==> (forall c :: c in off && c in kept ==> c in sent) && forall c :: c in sent ==> c in kept)
      && (g == kept <==> g.Keys == kept.Keys && forall c :: c in sent && c in kept ==> sent[c] == kept[c])
  {
    var g := (kept - off) + sent;
    assert forall c :: c in g <==> c in sent || (c in kept && c !in off);
    if g.Keys == kept.Keys {
      assert forall c :: c in g <==> c in kept;
    }
    if g.Keys == kept.Keys && forall c :: c in sent && c in kept ==> sent[c] == kept[c] {
      assert forall c :: c in kept ==> g[c] == kept[c];
    }
  }

  /** Of one cell: the on back sends the settings that stand when it is sent. */
  lemma {:induction false} RefusedMoveSends(site: Site, f: Fleet, host: string, oldPort: int, newPort: int, saves: bool, p: Course)
    requires !PortMove(site, f, host, oldPort, newPort, saves, p).done
    ensures var c := Cell(host, oldPort);
      var start := ChangedTo(site, f, [Move(host, oldPort, newPort)], Reassign(site, host, oldPort, newPort, saves), p);
      PortMove(site, f, host, oldPort, newPort, saves, p).fleet.kept
      == if c in f.known && Took(p.answers(1)) then start.kept[c := Setting(start, c)] else start.kept
  {
    var move := Move(host, oldPort, newPort);
    var moves := [move];
    var start := ChangedTo(site, f, moves, Reassign(site, host, oldPort, newPort, saves), p);
    KnownOne(f, move);
    hide KnownMoves, OldCells, Reports, AllOff;
    MoveAllIs(site, f, moves, Reassign(site, host, oldPort, newPort, saves), p);
    if OldCell(move) in f.known {
      OneOn(site, start, OldCell(move), p, 1, 1);
      ReportsOnlyAdopt(site, On(start, OldCell(move), p.answers(1)), p.reports(1));
    }
  }

  lemma {:induction false} OneOn(site: Site, f: Fleet, c: Cell, p: Course, call: nat, pause: nat)
    ensures AllOn(site, f, [c], p, call, pause) == Reports(site, On(f, c, p.answers(call)), p.reports(pause))
  {
    hide Reports, On;
    assert [c][..0] == [] && AllOn(site, f, [c][..0], p, call, pause) == f;
  }

  lemma {:induction false} OneOff(site: Site, f: Fleet, c: Cell, p: Course)
    ensures AllOff(site, f, [c], p) == Reports(site, Off(f, c, p.answers(0)), p.reports(0))
  {
    hide Reports, Off;
    assert [c][..0] == [] && AllOff(site, f, [c][..0], p) == f;
  }

  lemma {:induction false} KnownOne(f: Fleet, move: Move)
    ensures KnownMoves(f, [move]) == (if OldCell(move) in f.known then [move] else [])
    ensures OldCells([move]) == [OldCell(move)] && NewCells([move]) == [NewCell(move)]
    ensures OldCells([]) == [] && NewCells([]) == []
  {
    assert [move][..0] == [];
  }

  /** So one cell loses its request to a refused move exactly when it was known, the off took effect and the on
      back did not. */
  lemma {:induction false} RefusedMoveLosesIff(site: Site, f: Fleet, host: string, oldPort: int, newPort: int, saves: bool, p: Course)
    requires !PortMove(site, f, host, oldPort, newPort, saves, p).done && Cell(host, oldPort) in f.kept
    ensures Cell(host, oldPort) !in PortMove(site, f, host, oldPort, newPort, saves, p).fleet.kept
       <==> Cell(host, oldPort) in f.known && Took(p.answers(0)) && !Took(p.answers(1))
  {
    RefusedMoveRestores(site, f, [Move(host, oldPort, newPort)], Reassign(site, host, oldPort, newPort, saves), p);
    PortCalls(f, host, oldPort, newPort, p);
  }

  /** A course in which no report arrives. */
  function Quiet(n: nat): seq<string> { [] }

  /** And it happens: the new port is reserved, the off is answered, and the call back never arrives. */
  lemma {:induction false} RefusedMoveLoses()
    ensures var c := Cell("h", 1);
      var f := Fleet(map[c := "settings"], map[c := "settings"], {c});
      var r := PortMove(Site({2}), f, "h", 1, 2, true, Course(Quiet, (n: nat) => if n == 0 then Done else Unheard));
      !r.done && c !in r.fleet.kept
  {
    var c := Cell("h", 1);
    var f := Fleet(map[c := "settings"], map[c := "settings"], {c});
    var p := Course(Quiet, (n: nat) => if n == 0 then Done else Unheard);
    var off := AllOff(Site({2}), f, OldCells(KnownMoves(f, [Move("h", 1, 2)])), p);
    assert 2 in Used(Site({2}), off.records - {c});
    RefusedMoveLosesIff(Site({2}), f, "h", 1, 2, true, p);
  }

  /** Where every call is answered a refused move may still spoil a request: of a cell whose record was not made,
      its number being taken, the call back sends no settings. */
  lemma {:induction false} RefusedMoveEmpties()
    ensures var c := Cell("h", 1);
      var f := Fleet(map[Cell("other", 1) := "x"], map[c := "settings"], {c});
      var r := PortMove(Site({}), f, "h", 1, 2, true, Course(Quiet, (n: nat) => Done));
      !r.done && c in r.fleet.kept && r.fleet.kept[c] == ""
  {
    var c := Cell("h", 1);
    var f := Fleet(map[Cell("other", 1) := "x"], map[c := "settings"], {c});
    var p := Course(Quiet, (n: nat) => Done);
    OneOffIs(Site({}), f, "h", 1, 2, p);
    RefusedMoveSends(Site({}), f, "h", 1, 2, true, p);
  }

  /** And a move whose save raises has moved the record: the call back makes a request without settings at the old
      port, and the next report makes a record of it there, beside the moved one. */
  lemma {:induction false} UnsavedMoveSplits()
    ensures var c, to := Cell("h", 1), Cell("h", 2);
      var f := Fleet(map[c := "settings"], map[c := "settings"], {c});
      var r := PortMove(Site({}), f, "h", 1, 2, false, Course(Quiet, (n: nat) => Done));
      var later := Report(Site({}), r.fleet, "h");
      && !r.done && r.fleet.kept == map[c := ""]
      && later.records == map[c := "", to := "settings"]
  {
    var c, to := Cell("h", 1), Cell("h", 2);
    var f := Fleet(map[c := "settings"], map[c := "settings"], {c});
    var p := Course(Quiet, (n: nat) => Done);
    OneOffIs(Site({}), f, "h", 1, 2, p);
    var off := Before(Site({}), f, [Move("h", 1, 2)], p);
    assert Used(Site({}), off.records - {c}) == {};
    RefusedMoveSends(Site({}), f, "h", 1, 2, false, p);
    var g := PortMove(Site({}), f, "h", 1, 2, false, p).fleet;
    QuietRecords(Site({}), f, "h", 1, 2, false, p);
    assert g.records == map[to := "settings"] && g.kept == map[c := ""];
    assert Adopts(Site({}), g, "h", c);
  }

  /** Where nothing is reported, only the calls change the fleet. */
  lemma {:induction false} OneOffIs(site: Site, f: Fleet, host: string, oldPort: int, newPort: int, p: Course)
    requires p.reports(0) == [] && Cell(host, oldPort) in f.known
    ensures Before(site, f, [Move(host, oldPort, newPort)], p) == Off(f, Cell(host, oldPort), p.answers(0))
  {
    var move := Move(host, oldPort, newPort);
    KnownOne(f, move);
    OneOff(site, f, OldCell(move), p);
  }

  lemma {:induction false} QuietRecords(site: Site, f: Fleet, host: string, oldPort: int, newPort: int, saves: bool, p: Course)
    requires p.reports(1) == [] && Cell(host, oldPort) in f.known && !PortMove(site, f, host, oldPort, newPort, saves, p).done
    ensures PortMove(site, f, host, oldPort, newPort, saves, p).fleet.records
         == ChangedTo(site, f, [Move(host, oldPort, newPort)], Reassign(site, host, oldPort, newPort, saves), p).records
  {
    var move := Move(host, oldPort, newPort);
    KnownOne(f, move);
    var start := ChangedTo(site, f, [move], Reassign(site, host, oldPort, newPort, saves), p);
    MoveAllIs(site, f, [move], Reassign(site, host, oldPort, newPort, saves), p);
    OneOn(site, start, OldCell(move), p, 1, 1);
    hide MoveAll, AllOff, AllOn, KnownMoves, Reassign;
    assert Reports(site, On(start, OldCell(move), p.answers(1)), []) == On(start, OldCell(move), p.answers(1));
  }

  // ---- a swap -------------------------------------------------------------------------------

  /** swap_server_slot_ports, as far as the records go: `b` is the cell that holds the other port. */
  function Swap(a: Cell, b: Cell, saves: bool): Change {
    (records: map<Cell, Config>) =>
      if a.port == b.port || a !in records || b !in records then Changed(records, false)
      else Changed((records - {a, b})[Cell(a.host, b.port) := records[a]][Cell(b.host, a.port) := records[b]], saves)
  }

  function PortSwap(site: Site, f: Fleet, a: Cell, b: Cell, saves: bool, p: Course): Moved {
    MoveAll(site, f, SwapMoves(a, b), Swap(a, b, saves), p)
  }

  /** Where a swap takes a cell. */
  function Swapped(a: Cell, b: Cell, c: Cell): Cell {
    if c == a then Cell(a.host, b.port) else if c == b then Cell(b.host, a.port) else c
  }

  function SwapMoves(a: Cell, b: Cell): seq<Move> { [Move(a.host, a.port, b.port), Move(b.host, b.port, a.port)] }

  function SwappedRecords(before: map<Cell, Config>, a: Cell, b: Cell): map<Cell, Config>
    requires a in before && b in before
  {
    (before - {a, b})[Cell(a.host, b.port) := before[a]][Cell(b.host, a.port) := before[b]]
  }

  lemma {:induction false} SwapMoved(site: Site, f: Fleet, a: Cell, b: Cell, saves: bool, p: Course)
    requires PortSwap(site, f, a, b, saves, p).done
    ensures var before := Before(site, f, SwapMoves(a, b), p).records; var g := PortSwap(site, f, a, b, saves, p).fleet;
      var off, on := OffAt(f, SwapMoves(a, b), p), OnAt(f, SwapMoves(a, b), p);
      && a in before && b in before && a.port != b.port
      && g.kept.Keys == f.kept.Keys - off + on
      && (forall c :: c in SwappedRecords(before, a, b) ==> c in g.records && g.records[c] == SwappedRecords(before, a, b)[c])
      && (forall c :: c in g.records && c !in SwappedRecords(before, a, b) ==> (c in f.kept && c !in off) || c in on)
  {
    var before := Before(site, f, SwapMoves(a, b), p).records;
    SwapCells(f, a, b);
    AfterMove(site, f, SwapMoves(a, b), Swap(a, b, saves), p, SwappedRecords(before, a, b));
  }

  /** The requests of the two cells, and where they are to go. */
  function SwapKept(f: Fleet, a: Cell, b: Cell): set<Cell> { set c | c in {a, b} && c in f.kept }

  function SwapGoals(f: Fleet, a: Cell, b: Cell): set<Cell> { set c | c in {a, b} && c in f.kept :: Swapped(a, b, c) }

  /** Whatever reports arrive and whatever the list says, the kept requests end swapped as the records exactly when
      each kept one left on stands where a swapped one goes, each swapped one was switched on or stands there
      already, and none other was switched on: so whenever the list is right and every call took effect. */
  lemma {:induction false} SwapRenamesIff(site: Site, f: Fleet, a: Cell, b: Cell, saves: bool, p: Course)
    requires PortSwap(site, f, a, b, saves, p).done
    ensures var g := PortSwap(site, f, a, b, saves, p).fleet;
      var off, on := OffAt(f, SwapMoves(a, b), p), OnAt(f, SwapMoves(a, b), p);
      var swapped := set c | c in f.kept :: Swapped(a, b, c);
      && (g.kept.Keys == swapped <==>
            SwapKept(f, a, b) - off <= SwapGoals(f, a, b) && SwapGoals(f, a, b) <= on + (f.kept.Keys - off) && on <= swapped)
      && (SwapKept(f, a, b) <= off && on == SwapGoals(f, a, b) ==> g.kept.Keys == swapped)
      && (a in f.records && b in f.records ==>
            && Swapped(a, b, a) in g.records && g.records[Swapped(a, b, a)] == f.records[a]
            && Swapped(a, b, b) in g.records && g.records[Swapped(a, b, b)] == f.records[b])
  {
    hide MoveAll, AllOff, Reached, KnownMoves;
    var moves := SwapMoves(a, b);
    SwapMoved(site, f, a, b, saves, p);
    SwapCells(f, a, b);
    AskedAreCells(f, moves, p);
    assert OffAt(f, moves, p) * f.kept.Keys <= SwapKept(f, a, b);
    RenamedIff(f.kept.Keys, SwapKept(f, a, b), SwapGoals(f, a, b), OffAt(f, moves, p), OnAt(f, moves, p));
    SwappedKeys(f.kept.Keys, a, b);
    AfterAllOff(site, f, OldCells(KnownMoves(f, moves)), p);
  }

  /** And of two machines, a request is left at the port its machine vacated exactly when one was there whose off
      did not take effect or was not asked; with none there, no later report brings the record back. */
  lemma {:induction false} SwapVacates(site: Site, f: Fleet, a: Cell, b: Cell, saves: bool, p: Course)
    requires PortSwap(site, f, a, b, saves, p).done && a.host != b.host
    ensures var g, off := PortSwap(site, f, a, b, saves, p).fleet, OffAt(f, SwapMoves(a, b), p);
      forall c :: c in {a, b} ==>
        && (c in g.kept <==> c in f.kept && c !in off)
        && (c !in g.kept ==> forall later :: c !in Reports(site, g, later).records)
  {
    hide MoveAll, AllOff, Reached, KnownMoves, Reports;
    var moves := SwapMoves(a, b);
    SwapMoved(site, f, a, b, saves, p);
    SwapCells(f, a, b);
    AskedAreCells(f, moves, p);
    var g := PortSwap(site, f, a, b, saves, p).fleet;
    assert forall c :: c in Goals(moves, f) ==> c != a && c != b;
    forall c, later | c in {a, b} && c !in g.kept
      ensures c !in Reports(site, g, later).records
    {
      GoneStaysGone(site, g, later, c);
    }
  }

  lemma {:induction false} SwapCells(f: Fleet, a: Cell, b: Cell)
    requires a.port != b.port
    ensures var moves := SwapMoves(a, b);
      && Cells(moves, f) == (set c | c in {a, b} && c in f.known)
      && Goals(moves, f) == (set c | c in {a, b} && c in f.known :: Swapped(a, b, c))
  {
    var m, n := Move(a.host, a.port, b.port), Move(b.host, b.port, a.port);
    var moves := [m, n];
    assert OldCell(m) == a && OldCell(n) == b && NewCell(m) == Swapped(a, b, a) && NewCell(n) == Swapped(a, b, b);
    forall c
      ensures c in Goals(moves, f) <==> c in (set d | d in {a, b} && d in f.known :: Swapped(a, b, d))
    {
      if d :| d in {a, b} && d in f.known && c == Swapped(a, b, d) {
        assert (d == a && m in moves) || (d == b && n in moves);
      }
    }
  }

  lemma {:induction false} SwappedKeys(keys: set<Cell>, a: Cell, b: Cell)
    ensures keys - (set c | c in {a, b} && c in keys) + (set c | c in {a, b} && c in keys :: Swapped(a, b, c))
         == (set c | c in keys :: Swapped(a, b, c))
  {
    var left := keys - (set c | c in {a, b} && c in keys) + (set c | c in {a, b} && c in keys :: Swapped(a, b, c));
    var right := set c | c in keys :: Swapped(a, b, c);
    forall x
      ensures x in left <==> x in right
    {
      if x in keys && x != a && x != b {
        assert Swapped(a, b, x) == x;
      }
    }
  }

  // ---- a deletion ---------------------------------------------------------------------------

  /** A deleted cell stays deleted, exactly unless its scout kept a request the controller did not know of, or
      whose off did not take effect. */
  lemma {:induction false} DeletedStaysDeleted(site: Site, f: Fleet, c: Cell, p: Course)
    ensures var g := Deleted(site, f, c, p);
      && (c in g.kept <==> c in f.kept && (c !in f.known || !Took(p.answers(0))))
      && (c !in g.kept ==> forall later :: c !in Reports(site, g, later).records)
      && (c in g.kept && ValidPort(c.port) ==>
            c.port in Used(site, g.records) || c in Report(site, g, c.host).records)
  {
    var started := if c in f.known then Off(f, c, p.answers(0)) else f;
    ReportsOnlyAdopt(site, started, p.reports(0));
    var off := Cleared(site, f, c, p);
    var cleared := off.(records := off.records - {c});
    ReportsOnlyAdopt(site, cleared, p.reports(1));
    var g := Deleted(site, f, c, p);
    if c !in g.kept {
      forall later
        ensures c !in Reports(site, g, later).records
      {
        GoneStaysGone(site, g, later, c);
      }
    }
  }
}
