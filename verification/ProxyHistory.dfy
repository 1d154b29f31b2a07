/** Every history of the proxy under scripts/deploy.sh: the checkout moves, the proxy process is
    started, dies, loads its files one by one, notes the commit the checkout is at, and writes its start
    record; a deploy decides.

    The note is taken by the running process, after its first imports and not at the start itself. A
    Python process loads a file when an import of it first runs, and some imports of the proxy stand
    inside functions: a file may be loaded long after the start, from whatever the checkout holds then. */
module ProxyHistory {
  import opened Basics
  import opened ProxySources
  import opened ProxyDeploy

  /** A running proxy: its pid, the commit the checkout was at when it started, the commit it noted ("" when
      git did not answer), and the files it loaded. */
  datatype Process = Process(pid: nat, commit: string, noted: Option<string>, loaded: Tree)

  datatype Record = Record(commit: string, pid: nat)

  datatype Controller = Controller(head: string, proxy: Option<Process>, record: Record)

  /** Every commit that passed the guard before it was pushed, and those the deploying repository knows. */
  datatype World = World(trees: map<string, Tree>, known: set<string>)

  ghost predicate Sound(w: World) {
    forall c :: c in w.trees ==> c != "" && Guarded(w.trees[c])
  }

  datatype Event =
    | Start(pid: nat)               // the unit is started, or restarts itself
    | Note(answers: bool)           // StartRecord.at_start: the checkout's commit, if git answers
    | WriteRecord                   // the proxy's state file, with what was noted
    | Die
    | Load(path: string)            // an import runs for the first time
    | Pull(commit: string)          // the checkout moves and the proxy is left: --no-restart, a deploy that
                                    // stops after its pull, or the pull of one that decides later
    | Deploy(commit: string, pid: nat)

  function FactsOf(s: Controller): Facts {
    if s.proxy.Some? then Facts("active", s.proxy.value.pid, s.record.commit, s.record.pid)
    else Facts("inactive", 0, s.record.commit, s.record.pid)
  }

  /** Git's answer about the two commits, in some order of the paths. */
  ghost predicate GitSays(w: World, running: string, next: string, changed: Option<seq<string>>) {
    if running in w.known && next in w.known && running in w.trees && next in w.trees then
      changed.Some? && forall p :: p in changed.value <==> p in Changed(w.trees[running], w.trees[next])
    else changed.None?
  }

  /** The deploy leaves the proxy alone: `proxy_restart.py decide` answers keep. */
  ghost predicate Keeps(w: World, s: Controller, next: string) {
    exists changed :: GitSays(w, s.record.commit, next, changed) && Decide(FactsOf(s), changed).Keep?
  }

  /** A path some loaded file imports, as the checkout resolves it now; the launcher comes first. */
  ghost predicate Importable(tree: Tree, loaded: Tree, path: string) {
    && path in tree && path !in loaded
    && (path == ENTRY || exists q :: q in loaded && path in Next(tree, q, loaded[q]))
  }

  /** A new process never takes the pid the last record names. */
  ghost predicate Enabled(w: World, s: Controller, e: Event) {
    match e
    case Start(pid) => s.proxy.None? && pid != 0 && pid != s.record.pid
    case Note(_) => s.proxy.Some? && s.proxy.value.noted.None?
    case WriteRecord => s.proxy.Some? && s.proxy.value.noted.Some?
    case Die => s.proxy.Some?
    case Load(path) => s.proxy.Some? && s.head in w.trees && Importable(w.trees[s.head], s.proxy.value.loaded, path)
    case Pull(commit) => commit in w.trees
    case Deploy(commit, pid) => commit in w.trees && pid != 0 && pid != s.record.pid
  }

  function Started(s: Controller, pid: nat): Controller {
    s.(proxy := Some(Process(pid, s.head, None, map[])))
  }

  ghost function Step(w: World, s: Controller, e: Event): Controller
    requires Enabled(w, s, e)
  {
    match e
    case Start(pid) => Started(s, pid)
    case Note(answers) => s.(proxy := Some(s.proxy.value.(noted := Some(if answers then s.head else ""))))
    case WriteRecord => s.(record := Record(s.proxy.value.noted.value, s.proxy.value.pid))
    case Die => s.(proxy := None)
    case Load(path) =>
      var p := s.proxy.value;
      s.(proxy := Some(p.(loaded := p.loaded[path := w.trees[s.head][path]])))
    case Pull(commit) => s.(head := commit)
    case Deploy(commit, pid) =>
      if Keeps(w, s, commit) then s.(head := commit) else Started(s.(head := commit), pid)
  }

  /** The process runs a commit's code: every file it loaded is one the proxy runs at that commit,
      byte for byte; the release number aside. */
  ghost predicate RunsCode(p: Process, tree: Tree) {
    forall f :: f in p.loaded && f != RELEASE_FILE ==> f in Reach(tree) && f in tree && p.loaded[f] == tree[f]
  }

  // ---- what every step keeps ------------------------------------------------------

  ghost predicate Inv(w: World, s: Controller) {
    && s.head in w.trees
    && (s.proxy.Some? ==>
          var p := s.proxy.value;
          && p.pid != 0 && p.commit in w.trees
          && (p.noted.Some? && p.noted.value != "" ==> p.noted.value in w.trees)
          && (s.record.pid == p.pid ==> p.noted == Some(s.record.commit))
          && (RELEASE_FILE in p.loaded ==> HoldsOnlyTheNumber(p.loaded[RELEASE_FILE])))
  }

  lemma {:induction false} GuardedRelease(tree: Tree)
    requires Guarded(tree) && RELEASE_FILE in tree
    ensures HoldsOnlyTheNumber(tree[RELEASE_FILE])
  {
    ReleaseFileIsRun(tree);
    assert ProblemsOf(RELEASE_FILE, tree[RELEASE_FILE]) == {};
  }

  lemma {:induction false} StepKeepsInv(w: World, s: Controller, e: Event)
    requires Sound(w) && Inv(w, s) && Enabled(w, s, e)
    ensures Inv(w, Step(w, s, e))
  {
    hide Guarded, Reach, Keeps, Next, HoldsOnlyTheNumber;
    if e.Load? && e.path == RELEASE_FILE {
      GuardedRelease(w.trees[s.head]);
    }
  }

  /** A kept process is the one the record names, and the proxy's code is the same at the commit it noted and at
      the new one. */
  lemma {:induction false} KeptIsSameCode(w: World, s: Controller, next: string)
    requires Sound(w) && Inv(w, s) && next in w.trees && Keeps(w, s, next)
    ensures s.proxy.Some? && s.proxy.value.noted == Some(s.record.commit) && s.record.commit in w.trees
    ensures SameCode(w.trees[s.record.commit], w.trees[next])
  {
    var changed :| GitSays(w, s.record.commit, next, changed) && Decide(FactsOf(s), changed).Keep?;
    var running := s.record.commit;
    assert s.record.pid == s.proxy.value.pid;
    forall q | q in Changed(w.trees[running], w.trees[next])
      ensures !Covers(q)
    {
      assert q in changed.value;
    }
    UnchangedIsSameCode(w.trees[running], w.trees[next]);
  }

  /** A process that noted no commit, for it has not yet or git did not answer, is never kept, whatever the record
      says. */
  lemma {:induction false} NothingNotedRestarts(w: World, s: Controller, next: string)
    requires Inv(w, s) && s.proxy.Some? && (s.proxy.value.noted.Some? ==> s.proxy.value.noted.value == "")
    ensures !Keeps(w, s, next)
  {
  }

  /** So it is with one whose note git did not answer. */
  lemma {:induction false} UnansweredNoteRestarts(w: World, s: Controller, next: string)
    requires Sound(w) && Inv(w, s) && Enabled(w, s, Note(false))
    ensures !Keeps(w, Step(w, s, Note(false)), next) && !Keeps(w, Step(w, Step(w, s, Note(false)), WriteRecord), next)
  {
    hide Keeps, Guarded;
    StepKeepsInv(w, s, Note(false));
    var noted := Step(w, s, Note(false));
    StepKeepsInv(w, noted, WriteRecord);
    NothingNotedRestarts(w, noted, next);
    NothingNotedRestarts(w, Step(w, noted, WriteRecord), next);
  }

  lemma {:induction false} SameCodeRunsAlike(p: Process, a: Tree, b: Tree)
    requires SameCode(a, b)
    ensures RunsCode(p, a) <==> RunsCode(p, b)
  {
    forall f | f != RELEASE_FILE
      ensures f in Reach(a) <==> f in Reach(b)
      ensures f in Reach(a) ==> f in a && f in b && a[f] == b[f]
    {
      assert f in Reach(a) - {RELEASE_FILE} <==> f in Reach(b) - {RELEASE_FILE};
    }
  }

  /** The deploy theorem: after a deploy that obeys its verdict, the proxy runs the new commit's
      code, exactly unless the deploy kept a process that had loaded a file other than those of the commit it
      noted. */
  lemma {:induction false} DeployRunsNewCode(w: World, s: Controller, commit: string, pid: nat)
    requires Sound(w) && Inv(w, s) && Enabled(w, s, Deploy(commit, pid))
    ensures Keeps(w, s, commit) ==> s.proxy.Some? && s.record.commit in w.trees
    ensures var after := Step(w, s, Deploy(commit, pid));
      && after.head == commit && after.proxy.Some?
      && (RunsCode(after.proxy.value, w.trees[commit]) <==>
            (Keeps(w, s, commit) ==> RunsCode(s.proxy.value, w.trees[s.record.commit])))
  {
    if Keeps(w, s, commit) {
      KeptIsSameCode(w, s, commit);
      SameCodeRunsAlike(s.proxy.value, w.trees[s.record.commit], w.trees[commit]);
    }
  }

  // ---- which loads and notes are safe ------------------------------------------------

  /** The process runs its own start commit's code (vacuous with no process). */
  ghost predicate RunsItsOwn(w: World, s: Controller)
    requires Inv(w, s)
  {
    s.proxy.Some? ==> RunsCode(s.proxy.value, w.trees[s.proxy.value.commit])
  }

  /** The commit it noted, if any, has its start commit's code. */
  ghost predicate NotedItsOwn(w: World, s: Controller)
    requires Inv(w, s)
  {
    s.proxy.Some? && s.proxy.value.noted.Some? && s.proxy.value.noted.value != "" ==>
      SameCode(w.trees[s.proxy.value.commit], w.trees[s.proxy.value.noted.value])
  }

  /** The checkout holds the running proxy's code, whatever its commit. */
  ghost predicate NotBehind(w: World, s: Controller)
    requires Inv(w, s)
  {
    s.proxy.Some? ==> SameCode(w.trees[s.proxy.value.commit], w.trees[s.head])
  }

  /** What the checkout's own code imports is among the files the proxy runs there. */
  lemma {:induction false} ImportsAreReached(p: Process, head: Tree, path: string)
    requires Guarded(head) && RunsCode(p, head) && Importable(head, p.loaded, path)
    requires RELEASE_FILE in p.loaded ==> HoldsOnlyTheNumber(p.loaded[RELEASE_FILE])
    ensures path in Reach(head)
  {
    ReachIsClosed(head);
    if path != ENTRY {
      var q :| q in p.loaded && path in Next(head, q, p.loaded[q]);
      if q == RELEASE_FILE {
        NumberImportsNothing(q, p.loaded[q]);
        assert false;
      }
      assert path in Next(head, q, head[q]);
    }
  }

  lemma {:induction false} SameCodeAgrees(a: Tree, b: Tree, f: string)
    requires SameCode(a, b) && f in Reach(b) && f != RELEASE_FILE
    ensures f in Reach(a) && f in a && f in b && a[f] == b[f]
  {
    assert f in Reach(a) - {RELEASE_FILE};
  }

  lemma {:induction false} LoadedIsItsOwn(p: Process, start: Tree, head: Tree, path: string)
    requires SameCode(start, head) && RunsCode(p, start) && Guarded(head) && Importable(head, p.loaded, path)
    requires RELEASE_FILE in p.loaded ==> HoldsOnlyTheNumber(p.loaded[RELEASE_FILE])
    ensures RunsCode(p.(loaded := p.loaded[path := head[path]]), start)
  {
    hide HoldsOnlyTheNumber, Guarded, Reach;
    SameCodeRunsAlike(p, start, head);
    ImportsAreReached(p, head, path);
    if path != RELEASE_FILE { SameCodeAgrees(start, head, path); }
  }

  /** A file loaded while the checkout still holds the proxy's code is the start commit's. */
  lemma {:induction false} LoadWhenNotBehind(w: World, s: Controller, path: string)
    requires Sound(w) && Inv(w, s) && Enabled(w, s, Load(path))
    requires RunsItsOwn(w, s) && NotBehind(w, s)
    ensures Inv(w, Step(w, s, Load(path))) && RunsItsOwn(w, Step(w, s, Load(path)))
  {
    hide RunsCode, SameCode, Guarded, HoldsOnlyTheNumber;
    StepKeepsInv(w, s, Load(path));
    var p := s.proxy.value;
    LoadedIsItsOwn(p, w.trees[p.commit], w.trees[s.head], path);
  }

  ghost predicate Allowed(w: World, s: Controller, run: seq<Event>)
    decreases run
  {
    run == [] || (Enabled(w, s, run[0]) && Allowed(w, Step(w, s, run[0]), run[1..]))
  }

  ghost function After(w: World, s: Controller, run: seq<Event>): Controller
    requires Allowed(w, s, run)
    decreases run
  {
    if run == [] then s else After(w, Step(w, s, run[0]), run[1..])
  }

  /** A note git answers is of the start's own code exactly when the checkout still holds it. */
  lemma {:induction false} NoteWhenNotBehindIff(w: World, s: Controller)
    requires Sound(w) && Inv(w, s) && Enabled(w, s, Note(true))
    ensures Inv(w, Step(w, s, Note(true))) && (NotedItsOwn(w, Step(w, s, Note(true))) <==> NotBehind(w, s))
  {
    StepKeepsInv(w, s, Note(true));
  }

  /** Every load and every note of the run happens while the checkout holds the running proxy's code. */
  ghost predicate InTime(w: World, s: Controller, run: seq<Event>)
    requires Sound(w) && Inv(w, s) && Allowed(w, s, run)
    decreases run
  {
    if run == [] then true
    else
      StepKeepsInv(w, s, run[0]);
      && (run[0].Load? || run[0].Note? ==> NotBehind(w, s))
      && InTime(w, Step(w, s, run[0]), run[1..])
  }

  lemma {:induction false} StepStaysItsOwn(w: World, s: Controller, e: Event)
    requires Sound(w) && Inv(w, s) && Enabled(w, s, e) && (e.Load? || e.Note? ==> NotBehind(w, s))
    requires RunsItsOwn(w, s) && NotedItsOwn(w, s)
    ensures Inv(w, Step(w, s, e)) && RunsItsOwn(w, Step(w, s, e)) && NotedItsOwn(w, Step(w, s, e))
  {
    hide SameCode, Guarded, Reach, Importable, Keeps, HoldsOnlyTheNumber;
    StepKeepsInv(w, s, e);
    if e.Load? { LoadWhenNotBehind(w, s, e.path); }
    if e == Note(true) { NoteWhenNotBehindIff(w, s); }
  }

  lemma {:induction false} RunKeeps(w: World, s: Controller, run: seq<Event>)
    requires Sound(w) && Inv(w, s) && Allowed(w, s, run)
    ensures Inv(w, After(w, s, run))
    ensures RunsItsOwn(w, s) && NotedItsOwn(w, s) && InTime(w, s, run) ==>
      RunsItsOwn(w, After(w, s, run)) && NotedItsOwn(w, After(w, s, run))
    decreases run
  {
    hide Sound, Inv, Step, RunsItsOwn, NotedItsOwn, NotBehind;
    if run != [] {
      var next := Step(w, s, run[0]);
      StepKeepsInv(w, s, run[0]);
      if RunsItsOwn(w, s) && NotedItsOwn(w, s) && InTime(w, s, run) { StepStaysItsOwn(w, s, run[0]); }
      RunKeeps(w, next, run[1..]);
    }
  }

  /** Over every history in which each late import and each note meets a checkout that still holds the proxy's
      code, every deploy leaves the proxy running the code it deployed. */
  lemma {:induction false} HistoryRunsNewCode(w: World, s: Controller, run: seq<Event>, commit: string, pid: nat)
    requires Sound(w) && Inv(w, s) && s.proxy.None?
    requires Allowed(w, s, run) && InTime(w, s, run)
    requires Enabled(w, After(w, s, run), Deploy(commit, pid))
    ensures var after := Step(w, After(w, s, run), Deploy(commit, pid));
      after.proxy.Some? && RunsCode(after.proxy.value, w.trees[commit])
  {
    RunKeeps(w, s, run);
    var t := After(w, s, run);
    DeployRunsNewCode(w, t, commit, pid);
    if Keeps(w, t, commit) {
      KeptIsSameCode(w, t, commit);
      SameCodeRunsAlike(t.proxy.value, w.trees[t.proxy.value.commit], w.trees[t.record.commit]);
    }
  }

  // ---- when the checkout moves with the decision only ----------------------------------

  lemma {:induction false} SameCodeJoins(a: Tree, b: Tree, c: Tree)
    requires SameCode(a, b) && SameCode(b, c)
    ensures SameCode(a, c)
  {
  }

  lemma {:induction false} StepStaysCurrent(w: World, s: Controller, e: Event)
    requires Sound(w) && Inv(w, s) && Enabled(w, s, e) && !e.Pull? && NotBehind(w, s) && NotedItsOwn(w, s)
    ensures Inv(w, Step(w, s, e)) && NotBehind(w, Step(w, s, e)) && NotedItsOwn(w, Step(w, s, e))
  {
    StepKeepsInv(w, s, e);
    if e.Deploy? && Keeps(w, s, e.commit) {
      KeptIsSameCode(w, s, e.commit);
      SameCodeJoins(w.trees[s.proxy.value.commit], w.trees[s.record.commit], w.trees[e.commit]);
    }
  }

  /** A history in which the checkout only moves at the moment a deploy decides meets that condition by itself. A
      deploy with --no-restart moves it otherwise, and so does one that stops after its pull, for an active
      download or a file that does not compile. */
  lemma {:induction false} WithoutLonePulls(w: World, s: Controller, run: seq<Event>)
    requires Sound(w) && Inv(w, s) && Allowed(w, s, run) && NotBehind(w, s) && NotedItsOwn(w, s)
    requires forall e :: e in run ==> !e.Pull?
    ensures InTime(w, s, run)
    decreases run
  {
    if run != [] {
      assert run[0] in run;
      StepStaysCurrent(w, s, run[0]);
      forall e | e in run[1..]
        ensures !e.Pull?
      {
        assert e in run;
      }
      WithoutLonePulls(w, Step(w, s, run[0]), run[1..]);
    }
  }

  /** After the deploy, `verify` names the new commit only for a process that noted it, when commit names are
      whole (none a prefix of another); and one that loaded and noted in time runs that commit's code. */
  lemma {:induction false} VerifiedRunsTheCommit(w: World, s: Controller, commit: string)
    requires Inv(w, s) && commit in w.trees
    requires forall c, d :: c in w.trees && d in w.trees && c <= d ==> c == d
    requires commit != "" && Verify(FactsOf(s), commit).None?
    ensures s.proxy.Some? && s.proxy.value.noted == Some(commit)
    ensures RunsItsOwn(w, s) && NotedItsOwn(w, s) ==> RunsCode(s.proxy.value, w.trees[commit])
  {
    var p := s.proxy.value;
    if RunsItsOwn(w, s) && NotedItsOwn(w, s) { SameCodeRunsAlike(p, w.trees[p.commit], w.trees[commit]); }
  }

  /** And it does so: a deploy that restarts the proxy is verified once the process noted its commit and wrote its
      record, by the commit's name and by any abbreviation of it. */
  lemma {:induction false} RestartIsVerified(w: World, s: Controller, commit: string, pid: nat, short: string)
    requires commit in w.trees && commit != "" && pid != 0 && pid != s.record.pid && !Keeps(w, s, commit) && short <= commit
    ensures var noted := Step(w, Step(w, s, Deploy(commit, pid)), Note(true));
      Enabled(w, Step(w, s, Deploy(commit, pid)), Note(true)) && Verify(FactsOf(Step(w, noted, WriteRecord)), short).None?
  {
    hide Keeps, Importable;
    var started := Step(w, s, Deploy(commit, pid));
    assert started == Controller(commit, Some(Process(pid, commit, None, map[])), s.record);
    var noted := Step(w, started, Note(true));
    assert noted == Controller(commit, Some(Process(pid, commit, Some(commit), map[])), s.record);
    assert Step(w, noted, WriteRecord).record == Record(commit, pid);
  }
}
