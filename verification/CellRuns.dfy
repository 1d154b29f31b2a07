/** Whole runs of an admin board over its cells: moves, swaps, deletions and reports in any order. The controller
    works from a list of the requests each scout keeps (caravan/admin/cell_ops.py, CellAutostart.kept); here is
    what keeps that list right, and where the requests stand at the end. */
module CellRuns {
  import opened CellAutostart

  // ---- the list ---------------------------------------------------------------------------

  /** The list names exactly the requests this scout keeps. */
  ghost predicate Right(f: Fleet, host: string) {
    forall c: Cell :: c.host == host ==> (c in f.known <==> c in f.kept)
  }

  /** A report renews what the list says of its own host, and of no other. */
  lemma {:induction false} ReportRenewsList(site: Site, f: Fleet, host: string, c: Cell)
    ensures c in Report(site, f, host).known <==> if c.host == host then c in f.kept else c in f.known
  {
  }

  /** So does an answered call, by what the scout keeps after it; a call without an answer leaves the list. */
  lemma {:induction false} AnswerRenewsList(f: Fleet, c: Cell, enabled: bool, o: Outcome, d: Cell)
    ensures var g := if enabled then On(f, c, o) else Off(f, c, o);
      d in g.known <==> if d.host == c.host && (o.Refused? || o.Done?) then d in g.kept else d in f.known
  {
  }

  /** A right list is wrong after a call exactly when the call was carried out, its answer was lost, and it
      changed what the scout keeps. */
  lemma {:induction false} CallSpoilsListIff(f: Fleet, c: Cell, enabled: bool, o: Outcome)
    requires Right(f, c.host)
    ensures !Right(if enabled then On(f, c, o) else Off(f, c, o), c.host) <==> o.Lost? && (c in f.kept <==> !enabled)
  {
    var g := if enabled then On(f, c, o) else Off(f, c, o);
    if o.Lost? {
      assert c in f.known <==> c in f.kept;
      assert Right(g, c.host) ==> (c in g.known <==> c in g.kept);
    }
  }

  lemma {:induction false} OtherHostsStand(f: Fleet, c: Cell, enabled: bool, o: Outcome, host: string)
    requires host != c.host && Right(f, host)
    ensures Right(if enabled then On(f, c, o) else Off(f, c, o), host)
  {
  }

  lemma {:induction false} CallKeepsRight(f: Fleet, c: Cell, enabled: bool, o: Outcome, host: string)
    requires Right(f, host) && !o.Lost?
    ensures Right(if enabled then On(f, c, o) else Off(f, c, o), host)
  {
    if host == c.host {
      CallSpoilsListIff(f, c, enabled, o);
    } else {
      OtherHostsStand(f, c, enabled, o, host);
    }
  }

  lemma {:induction false} ReportsKeepRight(site: Site, f: Fleet, hosts: seq<string>, host: string)
    requires Right(f, host) || host in hosts
    ensures Right(Reports(site, f, hosts), host)
    decreases |hosts|
  {
    if hosts != [] {
      var g := Report(site, f, hosts[0]);
      forall c
        ensures c in g.known <==> if c.host == hosts[0] then c in f.kept else c in f.known
      {
        ReportRenewsList(site, f, hosts[0], c);
      }
      assert g.kept == f.kept;
      ReportsKeepRight(site, g, hosts[1..], host);
    }
  }

  /** No call was carried out with its answer lost. */
  ghost predicate NoneLost(p: Course) { forall n :: !p.answers(n).Lost? }

  lemma {:induction false} AllOffKeepsRight(site: Site, f: Fleet, cells: seq<Cell>, p: Course, host: string)
    requires Right(f, host) && NoneLost(p)
    ensures Right(AllOff(site, f, cells, p), host)
    decreases |cells|
  {
    hide Right, Reports, Off, On;
    if cells != [] {
      var n := |cells| - 1;
      AllOffKeepsRight(site, f, cells[..n], p, host);
      CallKeepsRight(AllOff(site, f, cells[..n], p), cells[n], false, p.answers(n), host);
      ReportsKeepRight(site, Off(AllOff(site, f, cells[..n], p), cells[n], p.answers(n)), p.reports(n), host);
    }
  }

  lemma {:induction false} AllOnKeepsRight(site: Site, f: Fleet, cells: seq<Cell>, p: Course, call: nat, pause: nat, host: string)
    requires Right(f, host) && NoneLost(p)
    ensures Right(AllOn(site, f, cells, p, call, pause), host)
    decreases |cells|
  {
    hide Right, Reports, Off, On;
    if cells != [] {
      var n := |cells| - 1;
      AllOnKeepsRight(site, f, cells[..n], p, call, pause, host);
      var g := AllOn(site, f, cells[..n], p, call, pause);
      CallKeepsRight(g, cells[n], true, p.answers(call + n), host);
      ReportsKeepRight(site, On(g, cells[n], p.answers(call + n)), p.reports(pause + n), host);
    }
  }

  /** Any moves keep a right list right, whatever the records' change does, when no answer is lost. */
  lemma {:induction false} MovesKeepRight(site: Site, f: Fleet, moves: seq<Move>, change: Change, p: Course, host: string)
    requires Right(f, host) && NoneLost(p)
    ensures Right(MoveAll(site, f, moves, change, p).fleet, host)
  {
    hide Reports, AllOff, AllOn, KnownMoves, OldCells, NewCells;
    var kept := KnownMoves(f, moves);
    var n := |kept|;
    AllOffKeepsRight(site, f, OldCells(kept), p, host);
    var off := AllOff(site, f, OldCells(kept), p);
    var changed := off.(records := change(off.records).records);
    assert Right(changed, host);
    ReportsKeepRight(site, changed, p.reports(n), host);
    AllOnKeepsRight(site, Reports(site, changed, p.reports(n)), NewCells(kept), p, n, n + 1, host);
    AllOnKeepsRight(site, changed, OldCells(kept), p, n, n, host);
  }

  lemma {:induction false} DeletionKeepsRight(site: Site, f: Fleet, c: Cell, p: Course, host: string)
    requires Right(f, host) && NoneLost(p)
    ensures Right(Deleted(site, f, c, p), host)
  {
    hide Reports, Off;
    var started := if c in f.known then Off(f, c, p.answers(0)) else f;
    if c in f.known { CallKeepsRight(f, c, false, p.answers(0), host); }
    ReportsKeepRight(site, started, p.reports(0), host);
    var off := Cleared(site, f, c, p);
    assert Right(off.(records := off.records - {c}), host);
    ReportsKeepRight(site, off.(records := off.records - {c}), p.reports(1), host);
  }

  // ---- a run ------------------------------------------------------------------------------

  datatype Order =
    | PortMoved(host: string, oldPort: int, newPort: int, saves: bool)
    | PortsSwapped(a: Cell, b: Cell, saves: bool)
    | CellDeleted(c: Cell)
    | Heard(hosts: seq<string>)

  /** One order and how it went. */
  datatype Step = Step(order: Order, course: Course)

  function Obeyed(site: Site, f: Fleet, step: Step): Moved {
    match step.order
    case PortMoved(host, oldPort, newPort, saves) => PortMove(site, f, host, oldPort, newPort, saves, step.course)
    case PortsSwapped(a, b, saves) => PortSwap(site, f, a, b, saves, step.course)
    case CellDeleted(c) => Moved(Deleted(site, f, c, step.course), true)
    case Heard(hosts) => Moved(Reports(site, f, hosts), true)
  }

  function After(site: Site, f: Fleet, run: seq<Step>): Fleet {
    if run == [] then f else Obeyed(site, After(site, f, run[..|run| - 1]), run[|run| - 1]).fleet
  }

  /** Over any run a right list stays right, when no answer is lost. */
  lemma {:induction false} ListStaysRight(site: Site, f: Fleet, run: seq<Step>, host: string)
    requires Right(f, host) && forall step :: step in run ==> NoneLost(step.course)
    ensures Right(After(site, f, run), host)
    decreases |run|
  {
    hide Right, MoveAll, Deleted, Reports;
    if run != [] {
      var most, step := run[..|run| - 1], run[|run| - 1];
      ListStaysRight(site, f, most, host);
      var before := After(site, f, most);
      match step.order
      case PortMoved(h, oldPort, newPort, saves) =>
        MovesKeepRight(site, before, [Move(h, oldPort, newPort)], Reassign(site, h, oldPort, newPort, saves), step.course, host);
      case PortsSwapped(a, b, saves) =>
        MovesKeepRight(site, before, SwapMoves(a, b), Swap(a, b, saves), step.course, host);
      case CellDeleted(c) => DeletionKeepsRight(site, before, c, step.course, host);
      case Heard(hosts) => ReportsKeepRight(site, before, hosts, host);
    }
  }

  // ---- where the requests stand -------------------------------------------------------------

  ghost predicate AllDone(p: Course) { forall n :: p.answers(n).Done? }

  /** Every host's list is right. */
  ghost predicate AllRight(f: Fleet) { forall host :: Right(f, host) }

  lemma {:induction false} AllRightIs(f: Fleet)
    ensures AllRight(f) <==> f.known == f.kept.Keys
  {
    if AllRight(f) {
      forall c: Cell
        ensures c in f.known <==> c in f.kept
      {
        assert Right(f, c.host);
      }
    }
  }

  lemma {:induction false} AllReached(cells: seq<Cell>, p: Course, call: nat)
    requires AllDone(p)
    ensures forall c :: c in Reached(cells, p, call) <==> c in cells
    decreases |cells|
  {
    if cells != [] {
      var n := |cells| - 1;
      AllReached(cells[..n], p, call);
      assert cells == cells[..n] + [cells[n]] && p.answers(call + n).Done?;
    }
  }

  /** Every call done, each known cell's request is switched off, on and back. */
  lemma {:induction false} AllAsked(f: Fleet, moves: seq<Move>, p: Course)
    requires AllDone(p)
    ensures OffAt(f, moves, p) == Cells(moves, f) && BackAt(f, moves, p) == Cells(moves, f) && OnAt(f, moves, p) == Goals(moves, f)
  {
    hide KnownMoves, OldCells, NewCells, Reached;
    AskedAreCells(f, moves, p);
    var kept := KnownMoves(f, moves);
    AllReached(OldCells(kept), p, 0);
    AllReached(OldCells(kept), p, |kept|);
    AllReached(NewCells(kept), p, |kept|);
  }

  /** A change that raised leaves the requests where they were. */
  lemma {:induction false} RefusalMovesNothing(site: Site, f: Fleet, moves: seq<Move>, change: Change, p: Course)
    requires f.known == f.kept.Keys && AllDone(p) && !MoveAll(site, f, moves, change, p).done
    ensures MoveAll(site, f, moves, change, p).fleet.kept.Keys == f.kept.Keys
  {
    hide MoveAll, KnownMoves, OldCells, NewCells, OffAt, BackAt, Sent, Stood;
    RefusedMoveRestores(site, f, moves, change, p);
    AllAsked(f, moves, p);
  }

  /** Where one order takes a request that is kept. */
  function Goes(order: Order, c: Cell): Cell {
    match order
    case PortMoved(host, oldPort, newPort, _) => if c == Cell(host, oldPort) then Cell(host, newPort) else c
    case PortsSwapped(a, b, _) => if c == a then Cell(a.host, b.port) else if c == b then Cell(b.host, a.port) else c
    case _ => c
  }

  /** Where the requests stand after an order that went through or was refused. */
  ghost function Taken(order: Order, done: bool, cells: set<Cell>): set<Cell> {
    if !done then cells
    else (set c | c in cells :: Goes(order, c)) - if order.CellDeleted? then {order.c} else {}
  }

  lemma {:induction false} OneOrder(site: Site, f: Fleet, step: Step)
    requires f.known == f.kept.Keys && AllDone(step.course)
    ensures Obeyed(site, f, step).fleet.kept.Keys == Taken(step.order, Obeyed(site, f, step).done, f.kept.Keys)
  {
    hide MoveAll, Reports;
    var p, done := step.course, Obeyed(site, f, step).done;
    match step.order
    case PortMoved(host, oldPort, newPort, saves) =>
      if done {
        MoveDone(site, f, host, oldPort, newPort, saves, p);
      } else {
        RefusalMovesNothing(site, f, [Move(host, oldPort, newPort)], Reassign(site, host, oldPort, newPort, saves), p);
      }
    case PortsSwapped(a, b, saves) =>
      if done {
        SwapDone(site, f, a, b, saves, p);
      } else {
        RefusalMovesNothing(site, f, SwapMoves(a, b), Swap(a, b, saves), p);
      }
    case CellDeleted(c) =>
      assert p.answers(0).Done?;
      DeletedKeys(site, f, c, p);
      assert forall d :: d in f.kept.Keys ==> Goes(step.order, d) == d;
    case Heard(hosts) =>
      ReportsOnlyAdopt(site, f, hosts);
      assert forall d :: d in f.kept.Keys ==> Goes(step.order, d) == d;
  }

  lemma {:induction false} MovedKeys(cells: set<Cell>, from: Cell, to: Cell)
    ensures (set c | c in cells :: if c == from then to else c) == if from in cells then cells - {from} + {to} else cells
  {
    var moved := set c | c in cells :: if c == from then to else c;
    forall x
      ensures x in moved <==> x in (if from in cells then cells - {from} + {to} else cells)
    {
      if x in cells && x != from { assert x == if x == from then to else x; }
      if from in cells && x == to { assert x == if from == from then to else from; }
    }
  }

  lemma {:induction false} MoveDone(site: Site, f: Fleet, host: string, oldPort: int, newPort: int, saves: bool, p: Course)
    requires f.known == f.kept.Keys && AllDone(p) && PortMove(site, f, host, oldPort, newPort, saves, p).done
    ensures var from, to := Cell(host, oldPort), Cell(host, newPort);
      PortMove(site, f, host, oldPort, newPort, saves, p).fleet.kept.Keys == set c | c in f.kept.Keys :: if c == from then to else c
  {
    hide MoveAll;
    assert p.answers(0).Done? && p.answers(1).Done?;
    MoveRenamesIff(site, f, host, oldPort, newPort, saves, p);
    MovedKeys(f.kept.Keys, Cell(host, oldPort), Cell(host, newPort));
  }

  lemma {:induction false} SwapDone(site: Site, f: Fleet, a: Cell, b: Cell, saves: bool, p: Course)
    requires f.known == f.kept.Keys && AllDone(p) && PortSwap(site, f, a, b, saves, p).done
    ensures PortSwap(site, f, a, b, saves, p).fleet.kept.Keys == set c | c in f.kept :: Swapped(a, b, c)
  {
    hide MoveAll, KnownMoves, OldCells, NewCells, OffAt, BackAt, OnAt, Cells, Goals;
    SwapMoved(site, f, a, b, saves, p);
    SwapRenamesIff(site, f, a, b, saves, p);
    AllAsked(f, SwapMoves(a, b), p);
    SwapCells(f, a, b);
  }

  lemma {:induction false} DeletedKeys(site: Site, f: Fleet, c: Cell, p: Course)
    requires f.known == f.kept.Keys && p.answers(0).Done?
    ensures Deleted(site, f, c, p).kept.Keys == f.kept.Keys - {c}
  {
    hide Reports;
    var started := if c in f.known then Off(f, c, p.answers(0)) else f;
    ReportsOnlyAdopt(site, started, p.reports(0));
    var off := Cleared(site, f, c, p);
    ReportsOnlyAdopt(site, off.(records := off.records - {c}), p.reports(1));
  }

  /** Where the requests stand after a run: each order's doing, one after the other. */
  ghost function Followed(site: Site, f: Fleet, run: seq<Step>): set<Cell> {
    if run == [] then f.kept.Keys
    else
      var most, step := run[..|run| - 1], run[|run| - 1];
      Taken(step.order, Obeyed(site, After(site, f, most), step).done, Followed(site, f, most))
  }

  /** Every call answered, from a right list the requests follow their cells through any run: through every move
      and swap that went through, by none that was refused, and to nowhere when the cell is deleted. */
  lemma {:induction false} RequestsFollow(site: Site, f: Fleet, run: seq<Step>)
    requires AllRight(f) && forall step :: step in run ==> AllDone(step.course)
    ensures After(site, f, run).kept.Keys == Followed(site, f, run) && AllRight(After(site, f, run))
    decreases |run|
  {
    hide Right, AllDone, Obeyed, Taken;
    if run != [] {
      var most, step := run[..|run| - 1], run[|run| - 1];
      RequestsFollow(site, f, most);
      var before := After(site, f, most);
      AllRightIs(before);
      OneOrder(site, before, step);
      forall host
        ensures Right(After(site, f, run), host)
      {
        forall s | s in run ensures NoneLost(s.course) { DoneIsNotLost(s.course); }
        assert Right(f, host);
        ListStaysRight(site, f, run, host);
      }
    }
  }

  lemma {:induction false} DoneIsNotLost(p: Course)
    requires AllDone(p)
    ensures NoneLost(p)
  {
  }

  // ---- a cell moved again and again ---------------------------------------------------------

  /** The steps move one cell from port to port. */
  ghost predicate Journey(site: Site, f: Fleet, host: string, ports: seq<int>, run: seq<Step>) {
    && |ports| == |run| + 1
    && forall i :: 0 <= i < |run| ==>
         && run[i].order.PortMoved? && run[i].order.host == host
         && run[i].order.oldPort == ports[i] && run[i].order.newPort == ports[i + 1]
         && AllDone(run[i].course) && Obeyed(site, After(site, f, run[..i]), run[i]).done
  }

  lemma {:induction false} ShorterJourney(site: Site, f: Fleet, host: string, ports: seq<int>, run: seq<Step>)
    requires run != [] && Journey(site, f, host, ports, run)
    ensures Journey(site, f, host, ports[..|run|], run[..|run| - 1])
    ensures forall step :: step in run[..|run| - 1] ==> AllDone(step.course)
  {
    hide Obeyed, After, AllDone;
    var n := |run| - 1;
    assert forall i :: 0 <= i < n ==> run[..n][i] == run[i] && run[..n][..i] == run[..i];
  }

  lemma {:induction false} JourneyEnds(site: Site, f: Fleet, host: string, ports: seq<int>, run: seq<Step>)
    requires run != [] && Journey(site, f, host, ports, run)
    ensures var n := |run| - 1; var before, p := After(site, f, run[..n]), run[n].course;
      && AllDone(p) && PortMove(site, before, host, ports[n], ports[n + 1], run[n].order.saves, p).done
      && After(site, f, run) == PortMove(site, before, host, ports[n], ports[n + 1], run[n].order.saves, p).fleet
  {
    hide PortMove, AllDone;
    var n := |run| - 1;
    assert 0 <= n < |run|;
  }

  /** However often a cell was moved, its request ends at the last port, and at no other it passed. */
  lemma {:induction false} OneRequestAtTheEnd(site: Site, f: Fleet, host: string, ports: seq<int>, run: seq<Step>)
    requires AllRight(f) && Journey(site, f, host, ports, run) && Cell(host, ports[0]) in f.kept
    ensures var g := After(site, f, run); var last := ports[|run|];
      && Cell(host, last) in g.kept
      && forall i :: 0 <= i < |run| && ports[i] != last ==> Cell(host, ports[i]) !in g.kept
    decreases |run|
  {
    hide AllRight, AllDone, PortMove, Obeyed;
    if run != [] {
      hide After, Journey;
      var n := |run| - 1;
      ShorterJourney(site, f, host, ports, run);
      OneRequestAtTheEnd(site, f, host, ports[..n + 1], run[..n]);
      RequestsFollow(site, f, run[..n]);
      var before := After(site, f, run[..n]);
      AllRightIs(before);
      JourneyEnds(site, f, host, ports, run);
      LastMove(site, before, host, ports[n], ports[n + 1], run[n].order.saves, run[n].course);
    }
  }

  lemma {:induction false} LastMove(site: Site, f: Fleet, host: string, oldPort: int, newPort: int, saves: bool, p: Course)
    requires f.known == f.kept.Keys && AllDone(p) && PortMove(site, f, host, oldPort, newPort, saves, p).done
    requires Cell(host, oldPort) in f.kept
    ensures oldPort != newPort
    ensures PortMove(site, f, host, oldPort, newPort, saves, p).fleet.kept.Keys
         == f.kept.Keys - {Cell(host, oldPort)} + {Cell(host, newPort)}
  {
    hide MoveAll, KnownMoves, AllOff;
    assert p.answers(0).Done? && p.answers(1).Done?;
    ReassignedRecords(site, f, host, oldPort, newPort, saves, p);
    MoveRenamesIff(site, f, host, oldPort, newPort, saves, p);
  }
}
