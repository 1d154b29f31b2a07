/** A cell's name, `srv:<port>`, followed in the pools' rows and the models' schedules when its port
    changes, and taken out of them when it is deleted (caravan/admin/cell_outputs.py). */
module CellOutputs {
  import opened Basics

  // ---- the document -----------------------------------------------------------------

  /** A row of a pool: what it is cabled to, and all else of it. A thing that is no row stays as it is. */
  datatype Row =
    | Junk(what: string)
    | Row(output: Option<string>, kind: Option<string>, accountId: Option<string>, model: Option<string>, rest: string)

  datatype Pool =
    | NoPool(what: string)
    | Pool(name: string, id: string, steps: seq<Row>)

  type Schedules = map<string, string>

  /** cloud-providers.json, as far as cells are named in it; a schedule by its output. */
  datatype Document = Document(pools: seq<Pool>, schedules: Schedules)

  predicate Names(row: Row, output: string) { row.Row? && row.output == Some(output) && output != "" }

  // ---- a renaming -------------------------------------------------------------------

  datatype Renaming = Move(from: string, to: string) | Swap(a: string, b: string) | Drop(gone: string)

  /** What a row's output becomes; None takes the row's cable away. */
  function Named(r: Renaming, output: string): Option<string> {
    match r
    case Move(from, to) => if output == to then None else if output == from then Some(to) else Some(output)
    case Swap(a, b) => if output == a then Some(b) else if output == b then Some(a) else Some(output)
    case Drop(gone) => if output == gone then None else Some(output)
  }

  function Untargeted(row: Row): Row
    requires row.Row?
  {
    Row(None, None, None, None, row.rest)
  }

  predicate Cabled(row: Row) { row.Row? && row.output.Some? && row.output.value != "" }

  function RenamedRow(r: Renaming, row: Row): Row {
    if !Cabled(row) then row
    else
      var named := Named(r, row.output.value);
      if named == row.output then row
      else if named.Some? && named.value != "" then row.(output := named)
      else Untargeted(row)
  }

  function RenamedPool(r: Renaming, pool: Pool): Pool {
    if pool.NoPool? then pool
    else pool.(steps := seq(|pool.steps|, i requires 0 <= i < |pool.steps| => RenamedRow(r, pool.steps[i])))
  }

  function RenamedPools(r: Renaming, pools: seq<Pool>): seq<Pool> {
    seq(|pools|, i requires 0 <= i < |pools| => RenamedPool(r, pools[i]))
  }

  /** The schedules with the cells: a stale schedule of the destination goes first. */
  function RenamedSchedules(r: Renaming, s: Schedules): Schedules {
    match r
    case Move(from, to) =>
      var kept := s - {to};
      if from in kept then (kept - {from})[to := kept[from]] else kept
    case Swap(a, b) =>
      var others := s - {a, b};
      var withB := if a in s then others[b := s[a]] else others;
      if b in s then withB[a := s[b]] else withB
    case Drop(gone) => s - {gone}
  }

  /** Whether the schedules' change says it did something. */
  predicate ScheduleSays(r: Renaming, s: Schedules) {
    match r
    case Move(from, to) => to in s || from in s
    case Swap(a, b) => a in s || b in s
    case Drop(gone) => gone in s
  }

  function Renamed(r: Renaming, d: Document): Document {
    Document(RenamedPools(r, d.pools), RenamedSchedules(r, d.schedules))
  }

  function PoolName(pool: Pool): string
    requires pool.Pool?
  {
    if pool.name != "" then pool.name else pool.id
  }

  /** The names of the pools a renaming changes, in their order. */
  function ChangedNames(r: Renaming, pools: seq<Pool>): seq<string> {
    if pools == [] then []
    else
      var last := pools[|pools| - 1];
      ChangedNames(r, pools[..|pools| - 1])
      + (if last.Pool? && RenamedPool(r, last) != last then [PoolName(last)] else [])
  }

  lemma {:induction false} NoNames(r: Renaming)
    ensures ChangedNames(r, []) == []
  {
  }

  lemma {:induction false} OneMoreName(r: Renaming, pools: seq<Pool>, k: nat)
    requires k < |pools|
    ensures ChangedNames(r, pools[..k + 1])
         == ChangedNames(r, pools[..k]) + if pools[k].Pool? && RenamedPool(r, pools[k]) != pools[k] then [PoolName(pools[k])] else []
  {
    assert pools[..k + 1][..k] == pools[..k];
  }

  // ---- the class --------------------------------------------------------------------

  datatype Said = Said(routers: bool, pools: seq<string>, schedule: bool, notFollowed: nat)

  /** Which files cannot be read or written this time. */
  datatype Trouble = Trouble(routers: bool, load: bool, save: bool)

  class CellOutputs {
    /** The document as the file holds it, and what was asked of the routers' file. */
    var file: Document
    var routers: seq<Renaming>
    /** What is read from the file is worked on here, in place. */
    var pools: seq<Pool>

    constructor (d: Document)
      ensures file == d && routers == []
    {
      file := d;
      routers := [];
      pools := [];
    }

    /** `_rows` of one pool: each cabled row named anew in its place. */
    method RenameSteps(r: Renaming, k: nat) returns (touched: bool)
      requires k < |pools| && pools[k].Pool?
      modifies this`pools
      ensures pools == old(pools)[k := RenamedPool(r, old(pools[k]))]
      ensures touched <==> pools[k] != old(pools[k])
    {
      touched := false;
      ghost var steps := pools[k].steps;
      for index := 0 to |pools[k].steps|
        invariant |pools| == |old(pools)| && pools[k].Pool? && |pools[k].steps| == |steps|
        invariant pools == old(pools)[k := old(pools[k]).(steps := pools[k].steps)]
        invariant forall i :: 0 <= i < index ==> pools[k].steps[i] == RenamedRow(r, steps[i])
        invariant forall i :: index <= i < |steps| ==> pools[k].steps[i] == steps[i]
        invariant touched <==> exists i :: 0 <= i < index && pools[k].steps[i] != steps[i]
      {
        var step := pools[k].steps[index];
        if !Cabled(step) { continue; }
        var named := Named(r, step.output.value);
        if named == step.output { continue; }
        var anew := if named.Some? && named.value != "" then step.(output := named) else Untargeted(step);
        pools := pools[k := pools[k].(steps := pools[k].steps[index := anew])];
        touched := true;
        assert pools[k].steps[index] != steps[index];
      }
      assert pools[k].steps == RenamedPool(r, old(pools[k])).steps;
      if touched {
        assert pools[k].steps != steps;
      } else {
        assert pools[k].steps == steps;
      }
    }

    method RenameRows(r: Renaming) returns (changed: seq<string>)
      modifies this`pools
      ensures pools == RenamedPools(r, old(pools)) && changed == ChangedNames(r, old(pools))
    {
      hide ChangedNames;
      NoNames(r);
      changed := [];
      for k := 0 to |pools|
        invariant |pools| == |old(pools)|
        invariant forall i :: 0 <= i < k ==> pools[i] == RenamedPool(r, old(pools)[i])
        invariant forall i :: k <= i < |pools| ==> pools[i] == old(pools)[i]
        invariant changed == ChangedNames(r, old(pools)[..k])
      {
        OneMoreName(r, old(pools), k);
        if pools[k].NoPool? { continue; }
        var touched := RenameSteps(r, k);
        if touched { changed := changed + [PoolName(pools[k])]; }
      }
      assert old(pools)[..|old(pools)|] == old(pools);
    }

    /** `_cloud`: one reading and one writing, the rows and the schedules together; nothing is written
        when nothing changed. */
    method Cloud(r: Renaming, t: Trouble) returns (done: bool, changed: seq<string>, schedule: bool)
      modifies this`pools, this`file
      ensures done <==> !t.load && !(t.save && (ChangedNames(r, old(file.pools)) != [] || ScheduleSays(r, old(file.schedules))))
      ensures done ==> file == Renamed(r, old(file))
      ensures done ==> changed == ChangedNames(r, old(file.pools)) && schedule == ScheduleSays(r, old(file.schedules))
      ensures !done ==> file == old(file) && changed == [] && !schedule
    {
      if t.load { return false, [], false; }
      pools := file.pools;
      changed := RenameRows(r);
      schedule := ScheduleSays(r, file.schedules);
      if changed != [] || schedule {
        if t.save { return false, [], false; }
        file := Document(pools, RenamedSchedules(r, file.schedules));
      } else {
        NothingChanged(r, file.pools);
        SchedulesUntouched(r, file.schedules);
      }
      done := true;
    }

    /** `_follow`: each file on its own; one that cannot be written is counted, the other still follows. */
    method Follow(r: Renaming, t: Trouble) returns (said: Said)
      modifies this
      ensures routers == if r.Drop? || t.routers then old(routers) else old(routers) + [r]
      ensures var failed := t.load || (t.save && (ChangedNames(r, old(file.pools)) != [] || ScheduleSays(r, old(file.schedules))));
        && file == (if failed then old(file) else Renamed(r, old(file)))
        && said.pools == (if failed then [] else ChangedNames(r, old(file.pools)))
        && said.schedule == (!failed && ScheduleSays(r, old(file.schedules)))
        && said.routers == (!r.Drop? && !t.routers)
        && said.notFollowed == (if !r.Drop? && t.routers then 1 else 0) + if failed then 1 else 0
    {
      var failures := 0;
      var routed := false;
      if r.Drop? {
      } else if t.routers {
        failures := failures + 1;
      } else {
        routers := routers + [r];
        routed := true;
      }
      var done, changed, schedule := Cloud(r, t);
      if !done { failures := failures + 1; }
      said := Said(routed, changed, schedule, failures);
    }
  }

  // ---- what a renaming leaves alone ---------------------------------------------------

  lemma {:induction false} NothingChanged(r: Renaming, pools: seq<Pool>)
    requires ChangedNames(r, pools) == []
    ensures RenamedPools(r, pools) == pools
    decreases |pools|
  {
    if pools != [] {
      NothingChanged(r, pools[..|pools| - 1]);
      var front := RenamedPools(r, pools[..|pools| - 1]);
      assert forall i :: 0 <= i < |pools| - 1 ==> front[i] == RenamedPools(r, pools)[i];
    }
  }

  lemma {:induction false} SchedulesUntouched(r: Renaming, s: Schedules)
    requires !ScheduleSays(r, s)
    ensures RenamedSchedules(r, s) == s
  {
  }

  /** The schedules say they changed exactly when they did; a swap says so too when two like ones change places. */
  lemma {:induction false} ScheduleSaysIff(r: Renaming, s: Schedules)
    ensures RenamedSchedules(r, s) != s ==> ScheduleSays(r, s)
    ensures ScheduleSays(r, s) ==>
      RenamedSchedules(r, s) != s || (r.Swap? && r.a in s && r.b in s && s[r.a] == s[r.b])
  {
    if r.Swap? && (r.a in s || r.b in s) {
      var t := RenamedSchedules(r, s);
      assert r.a in t <==> r.b in s;
      assert r.b in t <==> r.a in s;
      assert r.a in t ==> t[r.a] == s[r.b];
    }
  }

  /** Whatever is renamed, every row keeps its place and all it holds besides its cable; one that loses the cable
      loses with it what the cable led to, and one without a cable is left as it is. */
  lemma {:induction false} RowsKeepTheirPlace(r: Renaming, d: Document)
    ensures var g := Renamed(r, d);
      && |g.pools| == |d.pools|
      && (forall i :: 0 <= i < |d.pools| ==> g.pools[i].Pool? == d.pools[i].Pool?)
      && (forall i :: 0 <= i < |d.pools| && d.pools[i].NoPool? ==> g.pools[i] == d.pools[i])
      && (forall i :: 0 <= i < |d.pools| && d.pools[i].Pool? ==>
            && g.pools[i].name == d.pools[i].name && g.pools[i].id == d.pools[i].id
            && |g.pools[i].steps| == |d.pools[i].steps|
            && (forall k :: 0 <= k < |d.pools[i].steps| ==> KeepsAllButTheCable(d.pools[i].steps[k], g.pools[i].steps[k])))
  {
  }

  predicate KeepsAllButTheCable(before: Row, after: Row) {
    || after == before
    || (Cabled(before) && Cabled(after) && after == before.(output := after.output))
    || (Cabled(before) && after == Row(None, None, None, None, before.rest))
  }

  // ---- a swap ---------------------------------------------------------------------------

  /** After a swap of two names the rows that name one are exactly those that named the other, with all else they
      held, every other row is as it was, and the two schedules have changed places. */
  lemma {:induction false} SwapFollows(d: Document, a: string, b: string, i: nat, k: nat)
    requires a != "" && b != ""
    requires i < |d.pools| && d.pools[i].Pool? && k < |d.pools[i].steps|
    ensures var g := Renamed(Swap(a, b), d);
      && g.pools[i].Pool? && |g.pools[i].steps| == |d.pools[i].steps|
      && var before := d.pools[i].steps[k]; var after := g.pools[i].steps[k];
         && (Names(after, a) <==> Names(before, b)) && (Names(after, b) <==> Names(before, a))
         && (Names(before, a) ==> after == before.(output := Some(b)))
         && (Names(before, b) ==> after == before.(output := Some(a)))
         && (!Names(before, a) && !Names(before, b) ==> after == before)
    ensures var s := Renamed(Swap(a, b), d).schedules;
      && (a in s <==> b in d.schedules) && (b in s <==> a in d.schedules)
      && (a in s ==> s[a] == d.schedules[b]) && (b in s ==> s[b] == d.schedules[a])
      && (forall x :: x != a && x != b ==> (x in s <==> x in d.schedules) && (x in s ==> s[x] == d.schedules[x]))
  {
  }

  /** So a swap undoes itself. */
  lemma {:induction false} SwapTwice(d: Document, a: string, b: string)
    requires a != "" && b != ""
    ensures Renamed(Swap(a, b), Renamed(Swap(a, b), d)) == d
  {
    var r := Swap(a, b);
    var g := Renamed(r, d);
    var back := Renamed(r, g);
    forall i | 0 <= i < |d.pools|
      ensures back.pools[i] == d.pools[i]
    {
      if d.pools[i].Pool? {
        forall k | 0 <= k < |d.pools[i].steps|
          ensures back.pools[i].steps[k] == d.pools[i].steps[k]
        {
          RowSwapTwice(d.pools[i].steps[k], a, b);
        }
        assert back.pools[i].steps == d.pools[i].steps;
      }
    }
    assert back.pools == d.pools;
    ScheduleSwapTwice(d.schedules, a, b);
  }

  lemma {:induction false} RowSwapTwice(row: Row, a: string, b: string)
    requires a != "" && b != ""
    ensures RenamedRow(Swap(a, b), RenamedRow(Swap(a, b), row)) == row
  {
  }

  lemma {:induction false} ScheduleSwapTwice(s: Schedules, a: string, b: string)
    ensures RenamedSchedules(Swap(a, b), RenamedSchedules(Swap(a, b), s)) == s
  {
    var t := RenamedSchedules(Swap(a, b), s);
    assert a in t <==> b in s;
    assert b in t <==> a in s;
    var u := RenamedSchedules(Swap(a, b), t);
    forall k
      ensures k in u <==> k in s
      ensures k in s ==> u[k] == s[k]
    {
      if k != a && k != b {
        assert k in t <==> k in s;
      }
    }
  }

  // ---- a move ---------------------------------------------------------------------------

  /** After a move to another port, the rows that name the new port are exactly those that named the
      old one, none names the old one, every other row names what it named, and the cell's schedule
      went with it. */
  lemma {:induction false} MoveFollows(d: Document, from: string, to: string, i: nat, k: nat)
    requires from != to && from != "" && to != ""
    requires i < |d.pools| && d.pools[i].Pool? && k < |d.pools[i].steps|
    ensures var g := Renamed(Move(from, to), d);
      && g.pools[i].Pool? && |g.pools[i].steps| == |d.pools[i].steps|
      && var before := d.pools[i].steps[k]; var after := g.pools[i].steps[k];
         && (Names(after, to) <==> Names(before, from))
         && !Names(after, from)
         && (Names(before, from) ==> after == before.(output := Some(to)))
         && (Names(before, to) ==> after == Row(None, None, None, None, before.rest))
         && (!Names(before, from) && !Names(before, to) ==> after == before)
    ensures var s := RenamedSchedules(Move(from, to), d.schedules);
      && from !in s && (to in s <==> from in d.schedules)
      && (to in s ==> s[to] == d.schedules[from])
      && (forall x :: x != from && x != to ==> (x in s <==> x in d.schedules) && (x in s ==> s[x] == d.schedules[x]))
  {
  }

  predicate NobodyNames(d: Document, output: string) {
    && output !in d.schedules
    && forall i, k :: 0 <= i < |d.pools| && d.pools[i].Pool? && 0 <= k < |d.pools[i].steps| ==>
         !Names(d.pools[i].steps[k], output)
  }

  /** Every row that had a cable has one. */
  predicate CablesKept(before: seq<Pool>, after: seq<Pool>)
    requires |before| == |after|
  {
    forall i, k :: 0 <= i < |before| && before[i].Pool? && 0 <= k < |before[i].steps| && Cabled(before[i].steps[k]) ==>
      after[i].Pool? && k < |after[i].steps| && Cabled(after[i].steps[k])
  }

  /** A move takes no cable and no schedule away exactly when nothing names its destination: so a move onto the
      cell's own port, which the caller refuses, would take away all the cell has. */
  lemma {:induction false} MoveKeepsCablesIff(d: Document, from: string, to: string)
    requires from != "" && to != ""
    ensures var g := Renamed(Move(from, to), d);
      CablesKept(d.pools, g.pools) && |g.schedules| == |d.schedules| <==> NobodyNames(d, to)
  {
    var g := Renamed(Move(from, to), d);
    MovedSchedules(d.schedules, from, to);
    if NobodyNames(d, to) {
      forall i, k | 0 <= i < |d.pools| && d.pools[i].Pool? && 0 <= k < |d.pools[i].steps| && Cabled(d.pools[i].steps[k])
        ensures g.pools[i].Pool? && k < |g.pools[i].steps| && Cabled(g.pools[i].steps[k])
      {
        assert !Names(d.pools[i].steps[k], to);
      }
    }
    if CablesKept(d.pools, g.pools) {
      forall i, k | 0 <= i < |d.pools| && d.pools[i].Pool? && 0 <= k < |d.pools[i].steps|
        ensures !Names(d.pools[i].steps[k], to)
      {
        var row := d.pools[i].steps[k];
        assert g.pools[i].steps[k] == RenamedRow(Move(from, to), row);
        assert Cabled(row) ==> Cabled(g.pools[i].steps[k]);
      }
    }
  }

  lemma {:induction false} MovedSchedules(s: Schedules, from: string, to: string)
    ensures |RenamedSchedules(Move(from, to), s)| == |s| <==> to !in s
  {
    var kept := s - {to};
    assert kept.Keys == s.Keys - {to};
    if from in kept {
      var left := kept - {from};
      assert left.Keys == kept.Keys - {from};
      assert left[to := kept[from]].Keys == left.Keys + {to};
    }
  }

  /** Moving there and back restores the document exactly when nothing stale named the new port. */
  lemma {:induction false} MoveBackRestores(d: Document, from: string, to: string)
    requires from != to && from != "" && to != ""
    ensures Renamed(Move(to, from), Renamed(Move(from, to), d)) == d <==> NobodyNames(d, to)
  {
    var there := Renamed(Move(from, to), d);
    var back := Renamed(Move(to, from), there);
    if NobodyNames(d, to) {
      forall i | 0 <= i < |d.pools|
        ensures back.pools[i] == d.pools[i]
      {
        if d.pools[i].Pool? {
          forall k | 0 <= k < |d.pools[i].steps|
            ensures back.pools[i].steps[k] == d.pools[i].steps[k]
          {
            var row := d.pools[i].steps[k];
            assert !Names(row, to);
            assert there.pools[i].steps[k] == RenamedRow(Move(from, to), row);
            RowMoveBack(row, from, to);
          }
          assert back.pools[i].steps == d.pools[i].steps;
        }
      }
      assert back.pools == d.pools;
      assert back.schedules == d.schedules;
    }
    if back == d {
      forall i, k | 0 <= i < |d.pools| && d.pools[i].Pool? && 0 <= k < |d.pools[i].steps|
        ensures !Names(d.pools[i].steps[k], to)
      {
        assert back.pools[i].steps[k] == RenamedRow(Move(to, from), RenamedRow(Move(from, to), d.pools[i].steps[k]));
      }
      assert to !in back.schedules;
    }
  }

  lemma {:induction false} RowMoveBack(row: Row, from: string, to: string)
    requires from != to && from != "" && to != "" && !Names(row, to)
    ensures RenamedRow(Move(to, from), RenamedRow(Move(from, to), row)) == row
  {
  }

  /** A deleted cell is named nowhere, and nothing else is touched. */
  lemma {:induction false} DropForgets(d: Document, gone: string)
    requires gone != ""
    ensures NobodyNames(Renamed(Drop(gone), d), gone)
    ensures var g := Renamed(Drop(gone), d);
      && g.schedules == d.schedules - {gone} && |g.pools| == |d.pools|
      && (forall i :: 0 <= i < |d.pools| && d.pools[i].NoPool? ==> g.pools[i] == d.pools[i])
      && (forall i, k :: 0 <= i < |d.pools| && d.pools[i].Pool? && 0 <= k < |d.pools[i].steps| ==>
            && g.pools[i].Pool? && |g.pools[i].steps| == |d.pools[i].steps|
            && g.pools[i].steps[k] == if Names(d.pools[i].steps[k], gone) then Row(None, None, None, None, d.pools[i].steps[k].rest)
                                     else d.pools[i].steps[k])
  {
  }

  predicate Changes(r: Renaming, pool: Pool) { pool.Pool? && RenamedPool(r, pool) != pool }

  function ChangedAt(r: Renaming, pools: seq<Pool>): set<nat> { set i | 0 <= i < |pools| && Changes(r, pools[i]) }

  /** The names answered are as many as the pools that changed, and each changed pool's is among them. */
  lemma {:induction false} ChangedAreNamed(r: Renaming, pools: seq<Pool>)
    ensures |ChangedNames(r, pools)| == |ChangedAt(r, pools)|
    ensures forall i :: i in ChangedAt(r, pools) ==> PoolName(pools[i]) in ChangedNames(r, pools)
    decreases |pools|
  {
    if pools != [] {
      var n := |pools| - 1;
      ChangedAreNamed(r, pools[..n]);
      AtOneMore(r, pools);
    }
  }

  /** And a name that is answered is the name of a pool that changed. */
  lemma {:induction false} NamedAreChanged(r: Renaming, pools: seq<Pool>, name: string)
    ensures name in ChangedNames(r, pools) <==>
      exists i :: i in ChangedAt(r, pools) && name == if pools[i].name == "" then pools[i].id else pools[i].name
    decreases |pools|
  {
    if pools != [] {
      var n := |pools| - 1;
      NamedAreChanged(r, pools[..n], name);
      AtOneMore(r, pools);
      assert forall i :: i in ChangedAt(r, pools[..n]) ==> pools[..n][i] == pools[i] && i in ChangedAt(r, pools);
      if Changes(r, pools[n]) { assert n in ChangedAt(r, pools); }
    }
  }

  lemma {:induction false} AtOneMore(r: Renaming, pools: seq<Pool>)
    requires pools != []
    ensures var n := |pools| - 1;
      && ChangedAt(r, pools) == ChangedAt(r, pools[..n]) + (if Changes(r, pools[n]) then {n} else {})
      && n !in ChangedAt(r, pools[..n])
  {
    var n := |pools| - 1;
    forall i: nat
      ensures i in ChangedAt(r, pools) <==> i in ChangedAt(r, pools[..n]) || (i == n && Changes(r, pools[n]))
    {
      if i < n { assert pools[..n][i] == pools[i]; }
    }
  }
}
