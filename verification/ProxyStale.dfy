/** Concrete histories: where the naive promise of scripts/proxy_restart.py fails. */
module ProxyStale {
  import opened Basics
  import opened ProxySources
  import opened ProxyDeploy
  import opened ProxyHistory

  const MAIN := "caravan/proxy/main.py"
  const HANDLER := "caravan/proxy/handler.py"
  const MAIN_NAME: Dotted := ["caravan", "proxy", "main"]
  const HANDLER_NAME: Dotted := ["caravan", "proxy", "handler"]

  const LauncherFile := File("launcher", [Import([MAIN_NAME])])
  /** main.py imports the handler inside a function. */
  const MainFile := File("main", [Compound([Import([HANDLER_NAME])])])
  const ReleaseText := File("release", [Assign([VERSION_WORD], true)])

  function Code(handler: string): Tree {
    map[ENTRY := LauncherFile, MAIN := MainFile, HANDLER := File(handler, [])]
  }

  function WithRelease(handler: string): Tree { Code(handler)[RELEASE_FILE := ReleaseText] }

  lemma {:induction false} ShortHoldsNothing(text: string)
    requires |text| < 9
    ensures !Holds(text, VERSION_WORD) && !Holds(text, DYNAMIC[0]) && !Holds(text, DYNAMIC[1])
  {
  }

  lemma {:induction false} NamesOfLauncher()
    ensures ImportedNames(ENTRY, LauncherFile) == [MAIN_NAME]
  {
    var nodes := [Import([MAIN_NAME])];
    assert Flatten(LauncherFile.body) == nodes + Flatten([]) == nodes;
    assert nodes[..0] == [];
    assert NamesOf(ENTRY, nodes[0]) == [MAIN_NAME];
    assert AllNames(ENTRY, nodes) == AllNames(ENTRY, nodes[..0]) + [MAIN_NAME] == [MAIN_NAME];
    assert CaravanOnly([MAIN_NAME]) == [MAIN_NAME] + CaravanOnly([]);
  }

  lemma {:induction false} NamesOfMain()
    ensures ImportedNames(MAIN, MainFile) == [HANDLER_NAME]
  {
    var inner := [Import([HANDLER_NAME])];
    var nodes := [Compound(inner), Import([HANDLER_NAME])];
    assert Flatten(inner) == inner + Flatten([]) == inner;
    assert Flatten(MainFile.body) == [Compound(inner)] + inner + Flatten([]) == nodes;
    assert nodes[..1] == [Compound(inner)] && nodes[..1][..0] == [];
    assert AllNames(MAIN, nodes[..1]) == [];
    assert AllNames(MAIN, nodes) == [HANDLER_NAME];
    assert CaravanOnly([HANDLER_NAME]) == [HANDLER_NAME] + CaravanOnly([]);
  }

  lemma {:induction false} JoinThree(a: string, b: string, c: string)
    ensures Join([a, b, c]) == a + "/" + (b + "/" + c)
  {
    assert [a, b, c][1..] == [b, c] && [b, c][1..] == [c];
    assert Join([c]) == c;
    assert Join([b, c]) == b + "/" + Join([c]);
    assert Join([a, b, c]) == a + "/" + Join([b, c]);
  }

  lemma {:induction false} FilesOf(name: Dotted)
    requires |name| == 3
    ensures ModuleFile(name) == name[0] + "/" + (name[1] + "/" + (name[2] + ".py"))
    ensures InitFile(name) == name[0] + "/" + (name[1] + "/" + name[2]) + "/__init__.py"
  {
    JoinThree(name[0], name[1], name[2]);
    JoinThree(name[0], name[1], name[2] + ".py");
    assert name == [name[0], name[1], name[2]];
    assert name[..2] + [name[2] + ".py"] == [name[0], name[1], name[2] + ".py"];
  }

  lemma {:induction false} FilesOfMain()
    ensures ModuleFile(MAIN_NAME) == MAIN && |InitFile(MAIN_NAME)| == 30
  {
    FilesOf(MAIN_NAME);
    assert "caravan" + "/" + ("proxy" + "/" + ("main" + ".py")) == MAIN;
  }

  lemma {:induction false} FilesOfHandler()
    ensures ModuleFile(HANDLER_NAME) == HANDLER && |InitFile(HANDLER_NAME)| == 33
  {
    FilesOf(HANDLER_NAME);
    assert "caravan" + "/" + ("proxy" + "/" + ("handler" + ".py")) == HANDLER;
  }

  lemma {:induction false} MainResolves(tree: Tree)
    requires tree.Keys <= {ENTRY, MAIN, HANDLER, RELEASE_FILE} && MAIN in tree
    ensures MAIN in Next(tree, ENTRY, LauncherFile)
  {
    NamesOfLauncher();
    FilesOfMain();
    assert InitFile(MAIN_NAME) !in tree;
    assert MAIN_NAME[..3] == MAIN_NAME;
    assert MAIN in FileAt(tree, MAIN_NAME, 3);
    FileOfName(tree, [MAIN_NAME], MAIN_NAME, MAIN);
  }

  lemma {:induction false} HandlerResolves(tree: Tree)
    requires tree.Keys <= {ENTRY, MAIN, HANDLER, RELEASE_FILE} && HANDLER in tree
    ensures HANDLER in Next(tree, MAIN, MainFile)
  {
    NamesOfMain();
    FilesOfHandler();
    assert InitFile(HANDLER_NAME) !in tree;
    assert HANDLER_NAME[..3] == HANDLER_NAME;
    assert HANDLER in FileAt(tree, HANDLER_NAME, 3);
    FileOfName(tree, [HANDLER_NAME], HANDLER_NAME, HANDLER);
  }

  predicate IsSample(tree: Tree) {
    && tree.Keys <= {ENTRY, MAIN, HANDLER, RELEASE_FILE} && ENTRY in tree && MAIN in tree && HANDLER in tree
    && tree[ENTRY] == LauncherFile && tree[MAIN] == MainFile
    && tree[HANDLER].body == [] && |tree[HANDLER].text| < 9
    && (RELEASE_FILE in tree ==> tree[RELEASE_FILE] == ReleaseText)
  }

  lemma {:induction false} SampleReaches(tree: Tree)
    requires IsSample(tree)
    ensures MAIN in Reach(tree) && HANDLER in Reach(tree)
  {
    ReachIsClosed(tree);
    MainResolves(tree);
    HandlerResolves(tree);
  }

  lemma {:induction false} SampleFile(tree: Tree, p: string)
    requires IsSample(tree) && p in tree
    ensures ProblemsOf(p, tree[p]) == {}
  {
    if p == RELEASE_FILE {
      assert ReleaseText.body[0] == Assign([VERSION_WORD], true);
    } else {
      ShortHoldsNothing(tree[p].text);
      assert "caravan/proxy/" <= MAIN && "caravan/proxy/" <= HANDLER;
    }
  }

  lemma {:induction false} SampleIsGuarded(tree: Tree)
    requires IsSample(tree)
    ensures Guarded(tree)
  {
    SampleReaches(tree);
    forall p | p in Reach(tree)
      ensures ProblemsOf(p, tree[p]) == {}
    {
      SampleFile(tree, p);
    }
  }

  /** A commit that drops the release file passes the guard, changes no covered file, and the walk
      no longer reaches the same files. */
  lemma {:induction false} DroppedReleaseFile()
    ensures var a, b := WithRelease("old"), Code("old");
      && Guarded(a) && Guarded(b)
      && (forall p :: p in Changed(a, b) ==> !Covers(p))
      && Reach(a) != Reach(b)
  {
    var a, b := WithRelease("old"), Code("old");
    SampleIsGuarded(a);
    SampleIsGuarded(b);
    forall p | p in Changed(a, b)
      ensures !Covers(p)
    {
      OnlyReleaseChanged(p);
    }
    SameWalkIff(a, b);
  }

  lemma {:induction false} OnlyReleaseChanged(p: string)
    requires p in Changed(WithRelease("old"), Code("old"))
    ensures !Covers(p)
  {
    assert p == RELEASE_FILE;
    assert RELEASE_FILE[8] == '_' && "caravan/proxy/"[8] == 'p' && "caravan/common/"[8] == 'c' && ENTRY[0] == 'a';
  }

  /** Two releases of the same code with another one between them. */
  const WORLD := World(map["one" := Code("old"), "two" := Code("new"), "three" := Code("old")], {"one", "two", "three"})

  lemma {:induction false} WorldIsSound()
    ensures Sound(WORLD)
  {
    hide Guarded, IsSample, Code;
    CodeIsSample("old");
    CodeIsSample("new");
    SampleIsGuarded(Code("old"));
    SampleIsGuarded(Code("new"));
    assert WORLD.trees.Keys == {"one", "two", "three"};
    assert forall c :: c in WORLD.trees ==> WORLD.trees[c] == Code("old") || WORLD.trees[c] == Code("new");
  }

  lemma {:induction false} CodeIsSample(handler: string)
    requires |handler| < 9
    ensures IsSample(Code(handler))
  {
    DistinctNames();
  }

  // ---- one history, for every repository ----------------------------------------------

  /** The proxy starts at `one` and loads its launcher and `main`; a --no-restart deploy brings
      `two`; a request then runs `main`'s late import of `late`. */
  function Mixing(main: string, late: string, two: string): seq<Event> {
    [Start(7), Load(ENTRY), Load(main), Note(true), WriteRecord, Pull(two), Load(late)]
  }

  function Fresh(one: string): Controller { Controller(one, None, Record("", 0)) }

  function Running(head: string, one: string, noted: Option<string>, record: Record, loaded: Tree): Controller {
    Controller(head, Some(Process(7, one, noted, loaded)), record)
  }

  lemma {:induction false} OneStep(w: World, s: Controller, e: Event, next: Controller, rest: seq<Event>)
    requires Enabled(w, s, e) && next == Step(w, s, e) && Allowed(w, next, rest)
    ensures Allowed(w, s, [e] + rest) && After(w, s, [e] + rest) == After(w, next, rest)
  {
    assert ([e] + rest)[1..] == rest;
  }

  lemma {:induction false} LoadStep(w: World, head: string, one: string, noted: Option<string>, record: Record,
      loaded: Tree, path: string, rest: seq<Event>)
    requires head in w.trees && Importable(w.trees[head], loaded, path)
    requires Allowed(w, Running(head, one, noted, record, loaded[path := w.trees[head][path]]), rest)
    ensures Allowed(w, Running(head, one, noted, record, loaded), [Load(path)] + rest)
    ensures After(w, Running(head, one, noted, record, loaded), [Load(path)] + rest)
         == After(w, Running(head, one, noted, record, loaded[path := w.trees[head][path]]), rest)
  {
    OneStep(w, Running(head, one, noted, record, loaded), Load(path),
      Running(head, one, noted, record, loaded[path := w.trees[head][path]]), rest);
  }

  /** What the launcher and `main` are at a commit. */
  function Early(tree: Tree, main: string): Tree
    requires ENTRY in tree && main in tree
  {
    map[ENTRY := tree[ENTRY]][main := tree[main]]
  }

  lemma {:induction false} EarlySteps(w: World, one: string, main: string, rest: seq<Event>)
    requires one in w.trees
    requires var a := w.trees[one]; ENTRY in a && main in a && main != ENTRY && main in Next(a, ENTRY, a[ENTRY])
    requires Allowed(w, Running(one, one, None, Record("", 0), Early(w.trees[one], main)), rest)
    ensures Allowed(w, Fresh(one), [Start(7)] + ([Load(ENTRY)] + ([Load(main)] + rest)))
    ensures After(w, Fresh(one), [Start(7)] + ([Load(ENTRY)] + ([Load(main)] + rest)))
         == After(w, Running(one, one, None, Record("", 0), Early(w.trees[one], main)), rest)
  {
    var a := w.trees[one];
    var none: Tree, first: Tree := map[], map[ENTRY := a[ENTRY]];
    assert none[ENTRY := a[ENTRY]] == first;
    assert ENTRY in first && main in Next(a, ENTRY, first[ENTRY]);
    LoadStep(w, one, one, None, Record("", 0), first, main, rest);
    LoadStep(w, one, one, None, Record("", 0), none, ENTRY, [Load(main)] + rest);
    OneStep(w, Fresh(one), Start(7), Running(one, one, None, Record("", 0), none), [Load(ENTRY)] + ([Load(main)] + rest));
  }

  /** The note and the record it goes into. */
  lemma {:induction false} NoteSteps(w: World, head: string, one: string, loaded: Tree, rest: seq<Event>)
    requires Allowed(w, Running(head, one, Some(head), Record(head, 7), loaded), rest)
    ensures Allowed(w, Running(head, one, None, Record("", 0), loaded), [Note(true)] + ([WriteRecord] + rest))
    ensures After(w, Running(head, one, None, Record("", 0), loaded), [Note(true)] + ([WriteRecord] + rest))
         == After(w, Running(head, one, Some(head), Record(head, 7), loaded), rest)
  {
    OneStep(w, Running(head, one, Some(head), Record("", 0), loaded), WriteRecord,
      Running(head, one, Some(head), Record(head, 7), loaded), rest);
    OneStep(w, Running(head, one, None, Record("", 0), loaded), Note(true),
      Running(head, one, Some(head), Record("", 0), loaded), [WriteRecord] + rest);
  }

  lemma {:induction false} LateSteps(w: World, one: string, two: string, loaded: Tree, q: string, late: string)
    requires two in w.trees && q in loaded && late !in loaded && late in w.trees[two]
    requires late in Next(w.trees[two], q, loaded[q])
    ensures Allowed(w, Running(one, one, Some(one), Record(one, 7), loaded), [Pull(two)] + ([Load(late)] + []))
    ensures After(w, Running(one, one, Some(one), Record(one, 7), loaded), [Pull(two)] + ([Load(late)] + []))
         == Running(two, one, Some(one), Record(one, 7), loaded[late := w.trees[two][late]])
  {
    LoadStep(w, two, one, Some(one), Record(one, 7), loaded, late, []);
    OneStep(w, Running(one, one, Some(one), Record(one, 7), loaded), Pull(two),
      Running(two, one, Some(one), Record(one, 7), loaded), [Load(late)] + []);
  }

  lemma {:induction false} MixingRuns(w: World, one: string, two: string, main: string, late: string)
    requires one in w.trees && two in w.trees
    requires var a, b := w.trees[one], w.trees[two];
      && ENTRY in a && main in a && main in Next(a, ENTRY, a[ENTRY])
      && late in b && late in Next(b, main, a[main])
    requires main != ENTRY && late != ENTRY && late != main
    ensures Allowed(w, Fresh(one), Mixing(main, late, two))
    ensures After(w, Fresh(one), Mixing(main, late, two))
         == Running(two, one, Some(one), Record(one, 7), Early(w.trees[one], main)[late := w.trees[two][late]])
  {
    hide Allowed, After, Next;
    var loaded := Early(w.trees[one], main);
    var tail := [Pull(two)] + ([Load(late)] + []);
    LateSteps(w, one, two, loaded, main, late);
    NoteSteps(w, one, one, loaded, tail);
    EarlySteps(w, one, main, [Note(true)] + ([WriteRecord] + tail));
    assert Mixing(main, late, two)
        == [Start(7)] + ([Load(ENTRY)] + ([Load(main)] + ([Note(true)] + ([WriteRecord] + tail))));
  }

  /** A late import's file differs at `two` from what it is at `one` and `three`, which are alike. */
  ghost predicate CanMix(w: World, one: string, two: string, three: string, main: string, late: string) {
    && one in w.trees && two in w.trees && three in w.trees && w.trees[one] == w.trees[three]
    && one in w.known && three in w.known
    && main != ENTRY && late != ENTRY && late != main && late != RELEASE_FILE
    && var a, b := w.trees[one], w.trees[two];
      && ENTRY in a && main in a && main in Next(a, ENTRY, a[ENTRY])
      && late in b && late in Next(b, main, a[main])
      && (late in a ==> a[late] != b[late])
  }

  /** Then deploying `three` over a process that met `two` in between keeps it, right about the
      commits, and the process serves `two`'s file. */
  lemma {:induction false} KeptOnMixedCode(w: World, one: string, two: string, three: string, main: string, late: string)
    requires Sound(w) && CanMix(w, one, two, three, main, late)
    ensures Inv(w, Fresh(one)) && Allowed(w, Fresh(one), Mixing(main, late, two))
    ensures var s := After(w, Fresh(one), Mixing(main, late, two));
      && Enabled(w, s, Deploy(three, 8)) && Keeps(w, s, three)
      && !RunsCode(Step(w, s, Deploy(three, 8)).proxy.value, w.trees[three])
  {
    MixingRuns(w, one, two, main, late);
    var s := After(w, Fresh(one), Mixing(main, late, two));
    assert Changed(w.trees[one], w.trees[three]) == {};
    assert GitSays(w, one, three, Some([]));
    assert Decide(FactsOf(s), Some([])).Keep?;
    assert s.proxy.value.loaded[late] == w.trees[two][late];
  }

  // ---- a note taken late ----------------------------------------------------------------

  /** The proxy starts at `one` and loads its launcher, `main` and `late`; the checkout moves to `two`, as in a
      deploy that has not decided yet; only then does the proxy note the checkout's commit. */
  function NotingLate(main: string, late: string, two: string): seq<Event> {
    [Start(7), Load(ENTRY), Load(main), Load(late), Pull(two), Note(true), WriteRecord]
  }

  ghost predicate CanNoteLate(w: World, one: string, two: string, main: string, late: string) {
    && one in w.trees && two in w.trees && two in w.known
    && main != ENTRY && late != ENTRY && late != main && late != RELEASE_FILE
    && var a, b := w.trees[one], w.trees[two];
      && ENTRY in a && main in a && main in Next(a, ENTRY, a[ENTRY])
      && late in a && late in Next(a, main, a[main])
      && (late in b ==> a[late] != b[late])
  }

  lemma {:induction false} NotingLateRuns(w: World, one: string, two: string, main: string, late: string)
    requires CanNoteLate(w, one, two, main, late)
    ensures Allowed(w, Fresh(one), NotingLate(main, late, two))
    ensures After(w, Fresh(one), NotingLate(main, late, two))
         == Running(two, one, Some(two), Record(two, 7), Early(w.trees[one], main)[late := w.trees[one][late]])
  {
    hide After, Next;
    var early := Early(w.trees[one], main);
    var loaded := early[late := w.trees[one][late]];
    var notes := [Note(true)] + ([WriteRecord] + []);
    NoteSteps(w, two, one, loaded, []);
    EndsThere(w, Running(two, one, Some(two), Record(two, 7), loaded));
    OneStep(w, Running(one, one, None, Record("", 0), loaded), Pull(two), Running(two, one, None, Record("", 0), loaded), notes);
    assert main in early && late in Next(w.trees[one], main, early[main]);
    LoadStep(w, one, one, None, Record("", 0), early, late, [Pull(two)] + notes);
    EarlySteps(w, one, main, [Load(late)] + ([Pull(two)] + notes));
    assert NotingLate(main, late, two)
        == [Start(7)] + ([Load(ENTRY)] + ([Load(main)] + ([Load(late)] + ([Pull(two)] + notes))));
  }

  lemma {:induction false} EndsThere(w: World, s: Controller)
    ensures Allowed(w, s, []) && After(w, s, []) == s
  {
  }

  /** Then the deploy of `two` finds the record naming `two`, sees no change and keeps the process, which runs
      `one`'s file. */
  lemma {:induction false} KeptOnOldCode(w: World, one: string, two: string, main: string, late: string)
    requires Sound(w) && CanNoteLate(w, one, two, main, late)
    ensures Inv(w, Fresh(one)) && Allowed(w, Fresh(one), NotingLate(main, late, two))
    ensures var s := After(w, Fresh(one), NotingLate(main, late, two));
      && Enabled(w, s, Deploy(two, 8)) && Keeps(w, s, two)
      && !RunsCode(Step(w, s, Deploy(two, 8)).proxy.value, w.trees[two])
  {
    NotingLateRuns(w, one, two, main, late);
    var s := After(w, Fresh(one), NotingLate(main, late, two));
    assert Changed(w.trees[two], w.trees[two]) == {};
    assert GitSays(w, two, two, Some([]));
    assert Decide(FactsOf(s), Some([])).Keep?;
    assert s.proxy.value.loaded[late] == w.trees[one][late];
  }

  // ---- such repositories --------------------------------------------------------------------

  lemma {:induction false} DistinctNames()
    ensures MAIN != ENTRY && HANDLER != ENTRY && HANDLER != MAIN && HANDLER != RELEASE_FILE
  {
    assert MAIN[0] != ENTRY[0] && HANDLER[0] != ENTRY[0] && MAIN[14] != HANDLER[14];
    assert HANDLER[8] == 'p' && RELEASE_FILE[8] == '_';
  }

  lemma {:induction false} SampleCode(handler: string)
    ensures var tree := Code(handler);
      && tree[ENTRY] == LauncherFile && tree[MAIN] == MainFile && tree[HANDLER] == File(handler, [])
      && MAIN in Next(tree, ENTRY, LauncherFile) && HANDLER in Next(tree, MAIN, MainFile)
  {
    DistinctNames();
    MainResolves(Code(handler));
    HandlerResolves(Code(handler));
  }

  /** Such repositories exist, and their commits pass the guard. */
  lemma {:induction false} MixedCodeHappens()
    ensures Sound(WORLD) && CanMix(WORLD, "one", "two", "three", MAIN, HANDLER) && CanNoteLate(WORLD, "one", "two", MAIN, HANDLER)
  {
    WorldIsSound();
    DistinctNames();
    SampleCode("old");
    SampleCode("new");
    assert "new"[0] != "old"[0];
    assert WORLD.trees["one"] == Code("old") == WORLD.trees["three"] && WORLD.trees["two"] == Code("new");
  }
}
