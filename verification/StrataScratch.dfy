/** What a start of a Strata cell makes in its scratch folder, and when the next start may use it
    (cells/strata_launch.py).

    Every change of the disk is one effect, and a start may die after any of them. `made.json`
    says what the pack and the draft layer were made from: it is removed before either is touched
    and written after both are whole. */
module StrataScratch {
  import opened Basics

  /** A file as `made_from` names it: path, size and time stand for the content. */
  datatype Stat = Stat(path: string, size: nat, mtime: nat)

  datatype Made = Made(model: Stat, mtp: Option<Stat>, draftVocab: string, packArgs: seq<string>, strata: (string, string))

  /** made.json: not there, cut short while being written (no JSON), or whole. */
  datatype Marker = Absent | Torn | Whole(made: Made)

  type Dir = map<string, string>

  datatype Disk = Disk(marker: Marker, pack: Dir, runtime: Dir)

  /** Strata's tools: the files each writes, by what it reads. */
  datatype Tools = Tools(
    packOf: (Stat, seq<string>, (string, string)) -> Dir,
    runtimeOf: (Stat, (string, string)) -> Dir,
    vocab: (string, (string, string)) -> Option<string>)

  const NATIVE := "native_experts.txt"
  const VOCAB := "tokenizer/vocab.json"
  const EXPERTS := "experts.bin"
  const DRAFT_VOCAB := "draft_vocab.bin"

  // ---- what a fresh make writes ---------------------------------------------------

  function PackFiles(t: Tools, m: Made): Dir { t.packOf(m.model, m.packArgs, m.strata) }

  /** The runtime's files and the token subset beside them; empty when the cell names no draft layer. */
  function RuntimeFiles(t: Tools, m: Made): Dir {
    if m.mtp.None? || t.vocab(m.draftVocab, m.strata).None? then map[]
    else t.runtimeOf(m.mtp.value, m.strata)[DRAFT_VOCAB := t.vocab(m.draftVocab, m.strata).value]
  }

  function Over(under: Dir, files: Dir): Dir { under + files }

  ghost predicate Holds(dir: Dir, files: Dir) {
    forall f :: f in files ==> f in dir && dir[f] == files[f]
  }

  /** The pack on the disk is the one made from `m`, and so is the runtime when `m` names a draft layer. */
  ghost predicate IsMade(t: Tools, d: Disk, m: Made) {
    && Holds(d.pack, PackFiles(t, m))
    && (m.mtp.Some? ==> t.vocab(m.draftVocab, m.strata).Some? && Holds(d.runtime, RuntimeFiles(t, m)))
  }

  /** The promise of made.json. */
  ghost predicate Consistent(t: Tools, d: Disk) {
    d.marker.Whole? ==> IsMade(t, d, d.marker.made)
  }

  // ---- effects --------------------------------------------------------------------

  datatype Folder = PackFolder | RuntimeFolder

  function In(d: Disk, folder: Folder): Dir { if folder.PackFolder? then d.pack else d.runtime }

  function Put(d: Disk, folder: Folder, dir: Dir): Disk {
    if folder.PackFolder? then d.(pack := dir) else d.(runtime := dir)
  }

  datatype Effect =
    | Unlink
    | Delete(folder: Folder, name: string)
    | Write(folder: Folder, name: string, content: string)
    | MarkTorn
    | MarkWhole(made: Made)

  predicate IsMark(e: Effect) { e.Unlink? || e.MarkTorn? || e.MarkWhole? }

  function Apply(d: Disk, e: Effect): Disk {
    match e
    case Unlink => d.(marker := Absent)
    case Delete(folder, f) => Put(d, folder, In(d, folder) - {f})
    case Write(folder, f, c) => Put(d, folder, In(d, folder)[f := c])
    case MarkTorn => d.(marker := Torn)
    case MarkWhole(m) => d.(marker := Whole(m))
  }

  function ApplyAll(d: Disk, log: seq<Effect>): Disk {
    if log == [] then d else Apply(ApplyAll(d, log[..|log| - 1]), log[|log| - 1])
  }

  /** What a start that makes `m` has done when it stops: nothing yet; or the marker is gone and the
      artifacts are under way; or they are whole and the marker is being, or is, written. */
  ghost predicate StartLog(t: Tools, before: Disk, m: Made, log: seq<Effect>) {
    || log == []
    || (log[0] == Unlink && forall i :: 1 <= i < |log| ==> !IsMark(log[i]))
    || (exists n: nat :: FinishedAt(t, before, m, log, n))
  }

  ghost predicate FinishedAt(t: Tools, before: Disk, m: Made, log: seq<Effect>, n: nat) {
    && 1 <= n < |log| && log[0] == Unlink
    && (forall i :: 1 <= i < n ==> !IsMark(log[i]))
    && IsMade(t, ApplyAll(before, log[..n]), m)
    && (log[n..] == [MarkTorn] || log[n..] == [MarkTorn, MarkWhole(m)])
  }

  lemma {:induction false} MarkerStaysGone(d: Disk, log: seq<Effect>)
    requires log != [] && log[0] == Unlink && forall i :: 1 <= i < |log| ==> !IsMark(log[i])
    ensures ApplyAll(d, log).marker == Absent
  {
    if |log| > 1 {
      MarkerStaysGone(d, log[..|log| - 1]);
    } else {
      assert log[..0] == [];
    }
  }

  /** Wherever a start stops, made.json still tells the truth. */
  lemma {:induction false} StartKeepsConsistent(t: Tools, d: Disk, m: Made, log: seq<Effect>)
    requires Consistent(t, d) && StartLog(t, d, m, log)
    ensures Consistent(t, ApplyAll(d, log))
  {
    if log != [] {
      if forall i :: 1 <= i < |log| ==> !IsMark(log[i]) {
        MarkerStaysGone(d, log);
      } else {
        var n: nat :| FinishedAt(t, d, m, log, n);
        var made := ApplyAll(d, log[..n]);
        if |log| == n + 1 {
          assert log[n] == log[n..][0];
          assert log[..|log| - 1] == log[..n];
        } else {
          assert log[n + 1] == log[n..][1] && log[n] == log[n..][0];
          assert log[..|log| - 1][..n] == log[..n] && log[..|log| - 1][n] == MarkTorn;
          assert ApplyAll(d, log[..|log| - 1]) == Apply(made, MarkTorn);
        }
      }
    }
  }

  /** One start: what it was asked to make, what it did before it stopped; or the scout took the
      whole folder away with the cell's models. */
  datatype Run = Start(made: Made, log: seq<Effect>) | Wiped

  function AfterRun(d: Disk, r: Run): Disk {
    match r
    case Start(_, log) => ApplyAll(d, log)
    case Wiped => Disk(Absent, map[], map[])
  }

  ghost predicate History(t: Tools, d: Disk, runs: seq<Run>)
    decreases runs
  {
    runs == [] ||
    ((runs[0].Start? ==> StartLog(t, d, runs[0].made, runs[0].log)) && History(t, AfterRun(d, runs[0]), runs[1..]))
  }

  function AfterRuns(d: Disk, runs: seq<Run>): Disk
    decreases runs
  {
    if runs == [] then d else AfterRuns(AfterRun(d, runs[0]), runs[1..])
  }

  /** Over any sequence of starts with any arguments, each stopped anywhere: when made.json reads as
      M, the pack on the disk is M's, and so is the runtime when M names a draft layer. */
  lemma {:induction false} EveryHistoryIsConsistent(t: Tools, d: Disk, runs: seq<Run>)
    requires Consistent(t, d) && History(t, d, runs)
    ensures Consistent(t, AfterRuns(d, runs))
    decreases runs
  {
    if runs != [] {
      if runs[0].Start? { StartKeepsConsistent(t, d, runs[0].made, runs[0].log); }
      EveryHistoryIsConsistent(t, AfterRun(d, runs[0]), runs[1..]);
    }
  }

  // ---- reuse ----------------------------------------------------------------------

  /** `reusable`: made.json reads as what this start would make, and the parts are there. */
  predicate Reusable(d: Disk, m: Made) {
    && d.marker == Whole(m)
    && NATIVE in d.pack && VOCAB in d.pack
    && (m.mtp.Some? ==> EXPERTS in d.runtime)
  }

  /** A disk from which a part was taken, or whose marker does not say this make, is never reused. */
  lemma {:induction false} TakenPartIsMissed(d: Disk, m: Made, part: string)
    ensures part == "native_experts.txt" || part == "tokenizer/vocab.json" ==> !Reusable(d.(pack := d.pack - {part}), m)
    ensures part == "experts.bin" && m.mtp.Some? ==> !Reusable(d.(runtime := d.runtime - {part}), m)
    ensures d.marker != Whole(m) ==> !Reusable(d, m)
  {
  }

  /** What the engine is given: the pack, and the runtime when the cell names a draft layer. */
  datatype Given = Given(pack: Dir, runtime: Option<Dir>)

  function Hand(d: Disk, m: Made): Given {
    Given(d.pack, if m.mtp.Some? then Some(d.runtime) else None)
  }

  /** What a make from nothing would hand over. */
  function FreshMake(t: Tools, m: Made): Given {
    Given(PackFiles(t, m), if m.mtp.Some? then Some(RuntimeFiles(t, m)) else None)
  }

  /** No file but those the make wrote. */
  ghost predicate NoLeftovers(t: Tools, d: Disk, m: Made) {
    && d.pack.Keys <= PackFiles(t, m).Keys
    && (m.mtp.Some? ==> d.runtime.Keys <= RuntimeFiles(t, m).Keys)
  }

  /** A start that reuses hands the engine every file of a fresh make, byte for byte, and exactly
      those when no folder kept a file its removal could not take. */
  lemma {:induction false} ReuseIsAFreshMake(t: Tools, d: Disk, m: Made)
    requires Consistent(t, d) && Reusable(d, m)
    ensures IsMade(t, d, m)
    ensures Hand(d, m) == FreshMake(t, m) <==> NoLeftovers(t, d, m)
  {
    SameDir(d.pack, PackFiles(t, m));
    if m.mtp.Some? { SameDir(d.runtime, RuntimeFiles(t, m)); }
  }

  lemma {:induction false} SameDir(dir: Dir, files: Dir)
    requires Holds(dir, files)
    ensures dir == files <==> dir.Keys <= files.Keys
  {
    if dir.Keys <= files.Keys {
      assert dir.Keys == files.Keys;
    }
  }

  // ---- one start ------------------------------------------------------------------

  datatype Outcome = Died | Refused | Ready(reused: bool, given: Given)

  /** What could not be removed stays: rmtree(ignore_errors=True) goes on past it. */
  function Stuck(dir: Dir, stuck: set<string>): Dir { map f | f in dir && f in stuck :: dir[f] }

  lemma {:induction false} OverOneMore(under: Dir, files: Dir, f: string, c: string)
    ensures Over(Over(under, files), map[f := c]) == Over(under, files[f := c])
  {
  }

  class Scratch {
    var disk: Disk
    const tools: Tools
    /** What this start has done to the disk. */
    ghost var log: seq<Effect>

    constructor (t: Tools, d: Disk)
      ensures tools == t && disk == d && log == []
    {
      tools := t;
      disk := d;
      log := [];
    }

    method Do(e: Effect)
      modifies this
      ensures disk == Apply(old(disk), e) && log == old(log) + [e]
    {
      disk := Apply(disk, e);
      log := log + [e];
    }

    /** The log since the start began, as the methods below extend it. */
    ghost predicate Making(before: Disk)
      reads this
    {
      && disk == ApplyAll(before, log)
      && log != [] && log[0] == Unlink
      && forall i :: 1 <= i < |log| ==> !IsMark(log[i])
    }

    method DoMaking(e: Effect, ghost before: Disk)
      requires Making(before) && !IsMark(e)
      modifies this
      ensures Making(before) && disk == Apply(old(disk), e)
    {
      Do(e);
      assert log[..|log| - 1] == old(log);
    }

    /** rmtree of a folder, file by file; false when the process dies under way. */
    method Remove(folder: Folder, stuck: set<string>, ghost before: Disk) returns (alive: bool)
      requires Making(before)
      modifies this
      ensures Making(before)
      ensures disk == Put(old(disk), folder, In(disk, folder))
      ensures alive ==> In(disk, folder) == Stuck(old(In(disk, folder)), stuck)
    {
      var left := In(disk, folder).Keys - stuck;
      while left != {}
        invariant Making(before)
        invariant disk == Put(old(disk), folder, In(disk, folder))
        invariant left == In(disk, folder).Keys - stuck
        invariant Stuck(In(disk, folder), stuck) == Stuck(old(In(disk, folder)), stuck)
        decreases left
      {
        if * { return false; }
        var f :| f in left;
        DoMaking(Delete(folder, f), before);
        left := left - {f};
      }
      alive := true;
      forall f | f in In(disk, folder)
        ensures f in stuck
      {
        assert f !in In(disk, folder).Keys - stuck;
      }
      assert In(disk, folder) == Stuck(In(disk, folder), stuck);
    }

    /** A tool writing its files in some order, each first in part: it may be killed, or fail, anywhere. */
    method WriteAll(folder: Folder, files: Dir, ghost before: Disk) returns (done: bool)
      requires Making(before)
      modifies this
      ensures Making(before)
      ensures disk == Put(old(disk), folder, In(disk, folder))
      ensures done ==> In(disk, folder) == Over(old(In(disk, folder)), files)
    {
      var left := files.Keys;
      while left != {}
        invariant Making(before)
        invariant disk == Put(old(disk), folder, In(disk, folder))
        invariant left <= files.Keys
        invariant In(disk, folder) == Over(old(In(disk, folder)), files - left)
        decreases left
      {
        var f :| f in left;
        var part: string := *;
        if * { DoMaking(Write(folder, f, part), before); return false; }
        DoMaking(Write(folder, f, files[f]), before);
        assert files - (left - {f}) == (files - left)[f := files[f]];
        left := left - {f};
      }
      assert files - {} == files;
      done := *;
    }

    /** The pack, made anew. */
    method Pack(m: Made, stuck: set<string>, ghost before: Disk) returns (done: bool)
      requires Making(before)
      modifies this
      ensures Making(before) && disk == old(disk).(pack := disk.pack)
      ensures done ==> NATIVE in disk.pack && VOCAB in disk.pack
      ensures done ==> disk.pack == Over(Stuck(old(disk.pack), stuck), PackFiles(tools, m))
    {
      var alive := Remove(PackFolder, stuck, before);
      if !alive { return false; }
      done := WriteAll(PackFolder, PackFiles(tools, m), before);
      if done && (NATIVE !in disk.pack || VOCAB !in disk.pack) { done := false; }
    }

    /** The draft layer's runtime, made anew with the token subset; untouched when the cell names none. */
    method Draft(m: Made, stuck: set<string>, ghost before: Disk) returns (done: bool)
      requires Making(before)
      modifies this
      ensures Making(before) && disk == old(disk).(runtime := disk.runtime)
      ensures done && m.mtp.None? ==> disk.runtime == old(disk.runtime)
      ensures done && m.mtp.Some? ==>
        tools.vocab(m.draftVocab, m.strata).Some? && disk.runtime == Over(Stuck(old(disk.runtime), stuck), RuntimeFiles(tools, m))
    {
      if m.mtp.None? { return true; }
      var alive := Remove(RuntimeFolder, stuck, before);
      if !alive { return false; }
      var made := tools.runtimeOf(m.mtp.value, m.strata);
      ghost var under := disk.runtime;
      done := WriteAll(RuntimeFolder, made, before);
      if !done { return; }
      var vocab := tools.vocab(m.draftVocab, m.strata);
      if vocab.None? { return false; }
      done := WriteAll(RuntimeFolder, map[DRAFT_VOCAB := vocab.value], before);
      OverOneMore(under, made, DRAFT_VOCAB, vocab.value);
    }

    /** `config` from `made_from` on. `m` is None when a file the cell names is not there: the start
        is refused before it touches anything. It may die at any point. */
    method Config(m: Option<Made>, stuck: set<string>) returns (r: Outcome)
      requires log == []
      modifies this
      ensures disk == ApplyAll(old(disk), log)
      ensures m.None? ==> r.Refused? && log == []
      ensures m.Some? ==> StartLog(tools, old(disk), m.value, log)
      ensures r.Ready? ==> m.Some? && (r.reused <==> Reusable(old(disk), m.value)) && r.given == Hand(disk, m.value)
      ensures r.Ready? && r.reused ==> disk == old(disk)
      ensures r.Ready? && !r.reused ==>
        && disk.marker == Whole(m.value)
        && disk.pack == Over(Stuck(old(disk.pack), stuck), PackFiles(tools, m.value))
        && (m.value.mtp.Some? ==> disk.runtime == Over(Stuck(old(disk.runtime), stuck), RuntimeFiles(tools, m.value)))
        && (m.value.mtp.None? ==> disk.runtime == old(disk.runtime))
        && IsMade(tools, disk, m.value) && NATIVE in disk.pack && VOCAB in disk.pack
    {
      if m.None? { return Refused; }
      if Reusable(disk, m.value) { return Ready(true, Hand(disk, m.value)); }
      if * { return Died; }
      ghost var before := disk;
      Do(Unlink);
      assert log[..0] == [];
      assert ApplyAll(before, []) == before;
      if * { return Died; }
      var done := Pack(m.value, stuck, before);
      if !done { if * { return Died; } return Refused; }
      done := Draft(m.value, stuck, before);
      if !done { if * { return Died; } return Refused; }
      ghost var n := |log|;
      ghost var body := log;
      assert IsMade(tools, disk, m.value);
      if * { return Died; }
      Do(MarkTorn);
      assert log[..n] == body && log[n..] == [MarkTorn];
      assert FinishedAt(tools, before, m.value, log, n);
      if * { return Died; }
      Do(MarkWhole(m.value));
      assert log[..n] == body && log[n..] == [MarkTorn, MarkWhole(m.value)];
      assert log[..|log| - 1][..n] == body;
      assert FinishedAt(tools, before, m.value, log, n);
      r := Ready(false, Hand(disk, m.value));
    }
  }

  /** A folder made anew holds exactly what the tool wrote, unless a file that could not be removed is
      none of the tool's. */
  lemma {:induction false} MadeAnewIff(dir: Dir, stuck: set<string>, files: Dir)
    ensures Over(Stuck(dir, stuck), files) == files <==> dir.Keys * stuck <= files.Keys
  {
    var made := Over(Stuck(dir, stuck), files);
    assert made.Keys == dir.Keys * stuck + files.Keys;
    if dir.Keys * stuck <= files.Keys {
      assert made.Keys == files.Keys;
    }
  }

  /** The next start of the same cell reuses what a start made, exactly when the draft layer's tool wrote its
      experts or an old file of that name could not be removed: nothing checked the tool's before the marker was
      written. `was` is the runtime's folder before that start. */
  lemma {:induction false} NextStartReuses(t: Tools, d: Disk, m: Made, was: Dir, stuck: set<string>)
    requires d.marker == Whole(m) && NATIVE in d.pack && VOCAB in d.pack
    requires m.mtp.Some? ==> d.runtime == Over(Stuck(was, stuck), RuntimeFiles(t, m)) && t.vocab(m.draftVocab, m.strata).Some?
    ensures Reusable(d, m) <==>
      (m.mtp.Some? ==> EXPERTS in t.runtimeOf(m.mtp.value, m.strata) || (EXPERTS in was && EXPERTS in stuck))
  {
    assert EXPERTS[0] != DRAFT_VOCAB[0];
  }

  /** And with such an old file the reuse hands over experts the tool did not write. */
  lemma {:induction false} OldExpertsHandedOver(t: Tools, d: Disk, m: Made, was: Dir, stuck: set<string>)
    requires Consistent(t, d) && Reusable(d, m) && m.mtp.Some?
    requires d.runtime == Over(Stuck(was, stuck), RuntimeFiles(t, m))
    ensures EXPERTS !in t.runtimeOf(m.mtp.value, m.strata) ==>
      EXPERTS in was && d.runtime[EXPERTS] == was[EXPERTS] && Hand(d, m) != FreshMake(t, m)
  {
    assert EXPERTS[0] != DRAFT_VOCAB[0];
    ReuseIsAFreshMake(t, d, m);
  }
}
