/** The files the proxy process runs, as scripts/check_proxy_sources.py walks them.

    A commit's tree is a map from repository path to file. A file carries its text, as git
    compares it, and the statements of that text as Python's parser reads them. */
module ProxySources {

  /** A dotted name, already split at the dots. */
  type Dotted = seq<string>

  /** The statements the guard tells apart; `Compound` is any other statement with the ones it nests. */
  datatype Stmt =
    | ConstText
    | Assign(targets: seq<string>, constText: bool)
    | Import(names: seq<Dotted>)
    | ImportFrom(base: Dotted, level: nat, aliases: seq<string>)
    | Compound(body: seq<Stmt>)

  datatype File = File(text: string, body: seq<Stmt>)

  type Tree = map<string, File>

  const ENTRY := "agent-proxies.py"
  const RELEASE_FILE := "caravan/__init__.py"
  const MUST_REACH := ["caravan/proxy/main.py", "caravan/proxy/handler.py"]
  const DYNAMIC := ["importlib", "__import__"]
  const VERSION_WORD := "__version__"

  // ---- strings ----------------------------------------------------------------

  function Join(parts: seq<string>): string {
    if parts == [] then "" else if |parts| == 1 then parts[0] else parts[0] + "/" + Join(parts[1..])
  }

  function SplitSlash(s: string): (parts: seq<string>)
    ensures parts != []
  {
    if s == "" then [""]
    else
      var rest := SplitSlash(s[1..]);
      if s[0] == '/' then [""] + rest else [[s[0]] + rest[0]] + rest[1..]
  }

  predicate StandsAt(text: string, i: nat, word: string) {
    i + |word| <= |text| && text[i..i + |word|] == word
  }

  predicate Holds(text: string, word: string) {
    exists i | 0 <= i <= |text| :: StandsAt(text, i, word)
  }

  /** `s[:n]` as Python slices: a negative `n` counts from the end. */
  function PythonTake<T>(s: seq<T>, n: int): seq<T> {
    var m := if n < 0 then n + |s| else n;
    if m <= 0 then [] else if m >= |s| then s else s[..m]
  }

  function RemoveSuffix(s: string, suffix: string): string {
    if |suffix| <= |s| && s[|s| - |suffix|..] == suffix then s[..|s| - |suffix|] else s
  }

  // ---- the names a file imports -----------------------------------------------

  /** Every statement of a body, at any depth. */
  function Flatten(body: seq<Stmt>): seq<Stmt> {
    if body == [] then []
    else [body[0]] + (if body[0].Compound? then Flatten(body[0].body) else []) + Flatten(body[1..])
  }

  predicate IsCaravan(name: Dotted) {
    name != [] && name[0] == "caravan"
  }

  /** The package a relative import starts from; [""] stands for Python's empty base. */
  function BaseOf(path: string, base: Dotted, level: nat): Dotted {
    if level == 0 then (if base == [] then [""] else base)
    else
      var parts := SplitSlash(RemoveSuffix(path, ".py"));
      var package := parts[..|parts| - 1];
      var from := PythonTake(package, |package| - (level - 1)) + base;
      if from == [] then [""] else from
  }

  function NamesOf(path: string, node: Stmt): seq<Dotted> {
    match node
    case Import(names) => names
    case ImportFrom(base, level, aliases) =>
      var from := BaseOf(path, base, level);
      [from] + seq(|aliases|, i requires 0 <= i < |aliases| => from + [aliases[i]])
    case _ => []
  }

  function CaravanOnly(names: seq<Dotted>): (kept: seq<Dotted>)
    ensures forall n :: n in kept <==> n in names && IsCaravan(n)
  {
    if names == [] then []
    else (if IsCaravan(names[0]) then [names[0]] else []) + CaravanOnly(names[1..])
  }

  function AllNames(path: string, nodes: seq<Stmt>): seq<Dotted> {
    if nodes == [] then [] else AllNames(path, nodes[..|nodes| - 1]) + NamesOf(path, nodes[|nodes| - 1])
  }

  /** What `imports_of` answers for a file. */
  function ImportedNames(path: string, file: File): seq<Dotted> {
    CaravanOnly(AllNames(path, Flatten(file.body)))
  }

  method ImportsOf(path: string, file: File) returns (found: seq<Dotted>)
    ensures found == ImportedNames(path, file)
    ensures forall n :: n in found ==> IsCaravan(n)
  {
    found := [];
    var nodes := Flatten(file.body);
    for k := 0 to |nodes|
      invariant found == AllNames(path, nodes[..k])
    {
      assert nodes[..k + 1][..k] == nodes[..k];
      found := found + NamesOf(path, nodes[k]);
    }
    assert nodes[..|nodes|] == nodes;
    found := CaravanOnly(found);
  }

  // ---- the files a name runs --------------------------------------------------

  function InitFile(parts: Dotted): string { Join(parts) + "/__init__.py" }

  function ModuleFile(parts: Dotted): string
    requires parts != []
  {
    Join(parts[..|parts| - 1] + [parts[|parts| - 1] + ".py"])
  }

  /** The file `import name` runs at one depth of the name, if the tree has it. */
  function FileAt(tree: Tree, name: Dotted, depth: nat): seq<string>
    requires 1 <= depth <= |name|
  {
    if InitFile(name[..depth]) in tree then [InitFile(name[..depth])]
    else if depth == |name| && ModuleFile(name) in tree then [ModuleFile(name)]
    else []
  }

  function FilesUpTo(tree: Tree, name: Dotted, depth: nat): (files: seq<string>)
    requires depth <= |name|
    ensures forall f :: f in files <==> exists d :: 1 <= d <= depth && f in FileAt(tree, name, d)
  {
    if depth == 0 then [] else FilesUpTo(tree, name, depth - 1) + FileAt(tree, name, depth)
  }

  method ModuleFiles(tree: Tree, name: Dotted) returns (files: seq<string>)
    ensures files == FilesUpTo(tree, name, |name|)
    ensures forall f :: f in files ==> f in tree
  {
    files := [];
    for depth := 1 to |name| + 1
      invariant files == FilesUpTo(tree, name, depth - 1)
    {
      var package := name[..depth];
      if InitFile(package) in tree {
        files := files + [InitFile(package)];
      } else if depth == |name| && ModuleFile(name) in tree {
        files := files + [ModuleFile(name)];
      }
    }
  }

  // ---- the walk ---------------------------------------------------------------

  function Items(queue: seq<string>): set<string> { set q | q in queue }

  ghost function FilesOfAll(tree: Tree, names: seq<Dotted>): set<string> {
    if names == [] then {}
    else
      var last := names[|names| - 1];
      FilesOfAll(tree, names[..|names| - 1]) + Items(FilesUpTo(tree, last, |last|))
  }

  /** What importing `path`, whose content is `file`, runs in `tree`. */
  ghost function Next(tree: Tree, path: string, file: File): set<string> {
    FilesOfAll(tree, ImportedNames(path, file))
  }

  lemma {:induction false} FileOfName(tree: Tree, names: seq<Dotted>, name: Dotted, f: string)
    requires name in names && f in FilesUpTo(tree, name, |name|)
    ensures f in FilesOfAll(tree, names)
  {
    if name != names[|names| - 1] {
      FileOfName(tree, names[..|names| - 1], name, f);
    }
  }

  lemma {:induction false} NameOfFile(tree: Tree, names: seq<Dotted>, f: string) returns (name: Dotted)
    requires f in FilesOfAll(tree, names)
    ensures name in names && f in FilesUpTo(tree, name, |name|) && f in tree
  {
    name := names[|names| - 1];
    if f !in FilesUpTo(tree, name, |name|) {
      name := NameOfFile(tree, names[..|names| - 1], f);
    }
  }

  lemma {:induction false} NextIsThere(tree: Tree, path: string, file: File)
    ensures Next(tree, path, file) <= tree.Keys
  {
    forall f | f in Next(tree, path, file)
      ensures f in tree
    {
      var _ := NameOfFile(tree, ImportedNames(path, file), f);
    }
  }

  ghost predicate Closed(tree: Tree, files: set<string>) {
    && ENTRY in files
    && files <= tree.Keys
    && forall p :: p in files ==> Next(tree, p, tree[p]) <= files
  }

  /** What the proxy runs: in every set that holds the launcher and is closed under imports. */
  ghost function Reach(tree: Tree): set<string> {
    set p | p in tree.Keys && forall files :: Closed(tree, files) ==> p in files
  }

  lemma {:induction false} AllIsClosed(tree: Tree)
    requires ENTRY in tree
    ensures Closed(tree, tree.Keys)
  {
    forall p | p in tree.Keys
      ensures Next(tree, p, tree[p]) <= tree.Keys
    {
      NextIsThere(tree, p, tree[p]);
    }
  }

  lemma {:induction false} ReachIsClosed(tree: Tree)
    requires ENTRY in tree
    ensures Closed(tree, Reach(tree))
    ensures forall files :: Closed(tree, files) ==> Reach(tree) <= files
  {
    AllIsClosed(tree);
    forall p, f | p in Reach(tree) && f in Next(tree, p, tree[p])
      ensures f in Reach(tree)
    {
      forall files | Closed(tree, files)
        ensures f in files
      {
        assert p in files;
      }
    }
  }

  datatype Walked = NoLauncher | Walked(files: set<string>)

  lemma {:induction false} BothItems(a: seq<string>, b: seq<string>)
    ensures Items(a + b) == Items(a) + Items(b)
  {
  }

  method NotIn(files: seq<string>, seen: set<string>) returns (unseen: seq<string>)
    ensures Items(unseen) == Items(files) - seen
  {
    unseen := [];
    for m := 0 to |files|
      invariant Items(unseen) == Items(files[..m]) - seen
    {
      assert files[..m + 1] == files[..m] + [files[m]];
      BothItems(files[..m], [files[m]]);
      if files[m] !in seen {
        BothItems(unseen, [files[m]]);
        unseen := unseen + [files[m]];
      }
    }
    assert files[..|files|] == files;
  }

  /** What one file's imports add to the queue: the files they run that were not seen yet. */
  method Unseen(tree: Tree, path: string, names: seq<Dotted>, seen: set<string>) returns (added: seq<string>)
    requires path in tree && names == ImportedNames(path, tree[path])
    ensures Items(added) == Next(tree, path, tree[path]) - seen
  {
    added := [];
    for k := 0 to |names|
      invariant Items(added) == FilesOfAll(tree, names[..k]) - seen
    {
      var files := ModuleFiles(tree, names[k]);
      var unseen := NotIn(files, seen);
      BothItems(added, unseen);
      added := added + unseen;
      assert names[..k + 1][..k] == names[..k];
    }
    assert names[..|names|] == names;
  }

  ghost function Graph(tree: Tree): (next: map<string, set<string>>)
    ensures next.Keys == tree.Keys
  {
    map p | p in tree.Keys :: Next(tree, p, tree[p])
  }

  /** What the walk keeps: every import of a seen file is seen or queued, and it stays inside every closed set. */
  ghost predicate Walking(next: map<string, set<string>>, least: set<string>, seen: set<string>, queued: set<string>) {
    && seen + queued <= least <= next.Keys
    && ENTRY in seen + queued
    && (forall p :: p in seen && p in next ==> next[p] <= seen + queued)
  }

  lemma {:induction false} WalkReads(next: map<string, set<string>>, least: set<string>, seen: set<string>, queued: set<string>,
                  path: string, rest: set<string>, added: set<string>)
    requires Walking(next, least, seen, queued) && queued == rest + {path}
    requires next[path] <= least
    requires added == next[path] - (seen + {path})
    ensures Walking(next, least, seen + {path}, rest + added)
  {
    var all := seen + {path} + (rest + added);
    assert seen + queued <= all;
    assert next[path] <= all;
  }

  lemma {:induction false} WalkSkips(next: map<string, set<string>>, least: set<string>, seen: set<string>, queued: set<string>,
                  path: string, rest: set<string>)
    requires Walking(next, least, seen, queued) && queued == rest + {path} && path in seen
    ensures Walking(next, least, seen, rest)
  {
    assert seen + queued == seen + rest;
  }

  lemma {:induction false} LeastAndGraph(tree: Tree)
    requires ENTRY in tree
    ensures ENTRY in Reach(tree) && Reach(tree) <= tree.Keys
    ensures forall p :: p in Reach(tree) ==> Graph(tree)[p] <= Reach(tree)
  {
    ReachIsClosed(tree);
  }

  lemma {:induction false} WalkEnds(tree: Tree, seen: set<string>)
    requires ENTRY in tree && Walking(Graph(tree), Reach(tree), seen, {})
    ensures seen == Reach(tree)
  {
    ReachIsClosed(tree);
    assert Closed(tree, seen) by {
      forall p | p in seen
        ensures Next(tree, p, tree[p]) <= seen
      {
        assert Graph(tree)[p] <= seen + {};
      }
    }
  }

  /** The worklist of `walk`: pops the newest path, reads it once, queues what it imports. A
      launcher that is not there cannot be read. */
  method Walk(tree: Tree) returns (r: Walked)
    ensures r.NoLauncher? <==> ENTRY !in tree
    ensures r.Walked? ==> r.files == Reach(tree)
  {
    if ENTRY !in tree { return NoLauncher; }
    LeastAndGraph(tree);
    ghost var next, least := Graph(tree), Reach(tree);
    var seen: set<string>, queue := {}, [ENTRY];
    while queue != []
      invariant Walking(next, least, seen, Items(queue))
      decreases tree.Keys - seen, |queue|
    {
      var path := queue[|queue| - 1];
      var rest := queue[..|queue| - 1];
      LastItem(queue);
      if path in seen {
        WalkSkips(next, least, seen, Items(queue), path, Items(rest));
        queue := rest;
        continue;
      }
      var names := ImportsOf(path, tree[path]);
      var added := Unseen(tree, path, names, seen + {path});
      WalkReads(next, least, seen, Items(queue), path, Items(rest), Items(added));
      BothItems(rest, added);
      seen := seen + {path};
      queue := rest + added;
    }
    WalkEnds(tree, seen);
    r := Walked(seen);
  }

  lemma {:induction false} LastItem(queue: seq<string>)
    requires queue != []
    ensures Items(queue) == Items(queue[..|queue| - 1]) + {queue[|queue| - 1]}
  {
    assert queue == queue[..|queue| - 1] + [queue[|queue| - 1]];
  }

  // ---- what counts as the proxy's code ------------------------------------------

  /** ProxyRestart.covers: the launcher and the two packages it imports. */
  predicate Covers(path: string) {
    path == ENTRY || "caravan/proxy/" <= path || "caravan/common/" <= path
  }

  /** A release file: one assignment of a text to `__version__`, and a text in front of it at most. */
  predicate HoldsOnlyTheNumber(file: File) {
    var body := if file.body != [] && file.body[0].ConstText? then file.body[1..] else file.body;
    |body| == 1 && body[0] == Assign([VERSION_WORD], true)
  }

  // ---- the guard ----------------------------------------------------------------

  datatype Problem =
    | LauncherMissing
    | NotReached(path: string)
    | ReleaseFileHoldsMore
    | NotCovered(path: string)
    | ReadsVersion(path: string)
    | ImportsDynamically(path: string, word: string)

  /** What the guard says about one file the proxy runs. */
  function ProblemsOf(path: string, file: File): set<Problem> {
    if path == RELEASE_FILE then (if HoldsOnlyTheNumber(file) then {} else {ReleaseFileHoldsMore})
    else if !Covers(path) then {NotCovered(path)}
    else
      (if Holds(file.text, VERSION_WORD) then {ReadsVersion(path)} else {})
      + (if Holds(file.text, DYNAMIC[0]) then {ImportsDynamically(path, DYNAMIC[0])} else {})
      + (if Holds(file.text, DYNAMIC[1]) then {ImportsDynamically(path, DYNAMIC[1])} else {})
  }

  /** The word stands in the text. */
  ghost predicate Contains(text: string, word: string) { exists front, back :: text == front + word + back }

  /** The release file has no problem exactly when it is an assignment of a text to `__version__` with a text in
      front of it or none; any other file exactly when it is the launcher or lies in one of the two packages and
      its text holds none of the three words. */
  lemma {:induction false} NoProblemIff(path: string, file: File)
    ensures ProblemsOf(path, file) == {} <==>
      if path == "caravan/__init__.py" then file.body in [[Assign(["__version__"], true)], [ConstText, Assign(["__version__"], true)]]
      else
        && (path == "agent-proxies.py" || exists rest :: path == "caravan/proxy/" + rest || path == "caravan/common/" + rest)
        && !Contains(file.text, "__version__") && !Contains(file.text, "importlib") && !Contains(file.text, "__import__")
  {
    HoldsIsContains(file.text, "__version__");
    HoldsIsContains(file.text, "importlib");
    HoldsIsContains(file.text, "__import__");
    hide Holds, Contains;
    if path == RELEASE_FILE {
      var number := Assign(["__version__"], true);
      if HoldsOnlyTheNumber(file) { assert file.body == [number] || file.body == [ConstText, number]; }
    } else {
      CoversIff(path);
    }
  }

  lemma {:induction false} HoldsIsContains(text: string, word: string)
    ensures Holds(text, word) <==> Contains(text, word)
  {
    if i :| 0 <= i <= |text| && StandsAt(text, i, word) {
      assert text == text[..i] + word + text[i + |word|..];
    }
    if front, back :| text == front + word + back {
      assert StandsAt(text, |front|, word);
    }
  }

  lemma {:induction false} CoversIff(path: string)
    ensures Covers(path) <==>
      path == "agent-proxies.py" || exists rest :: path == "caravan/proxy/" + rest || path == "caravan/common/" + rest
  {
    var proxy, common := "caravan/proxy/", "caravan/common/";
    if proxy <= path { assert path == proxy + path[|proxy|..]; }
    if common <= path { assert path == common + path[|common|..]; }
  }

  /** The guard passes: the two files it must reach are reached, and no file the proxy runs has a problem. */
  ghost predicate Guarded(tree: Tree) {
    && ENTRY in tree
    && MUST_REACH[0] in Reach(tree) && MUST_REACH[1] in Reach(tree)
    && forall p :: p in Reach(tree) ==> ProblemsOf(p, tree[p]) == {}
  }

  method Guard(tree: Tree) returns (problems: set<Problem>)
    ensures problems == {} <==> Guarded(tree)
  {
    var walked := Walk(tree);
    if walked.NoLauncher? { return {LauncherMissing}; }
    problems := {};
    for k := 0 to |MUST_REACH|
      invariant problems == {} <==> forall j :: 0 <= j < k ==> MUST_REACH[j] in walked.files
    {
      if MUST_REACH[k] !in walked.files { problems := problems + {NotReached(MUST_REACH[k])}; }
    }
    assert problems == {} <==> MUST_REACH[0] in walked.files && MUST_REACH[1] in walked.files;
    var left := walked.files;
    while left != {}
      invariant left <= walked.files
      invariant problems == {} <==> (MUST_REACH[0] in walked.files && MUST_REACH[1] in walked.files
                                     && forall p :: p in walked.files - left ==> ProblemsOf(p, tree[p]) == {})
      decreases left
    {
      var path :| path in left;
      problems := problems + ProblemsOf(path, tree[path]);
      left := left - {path};
    }
  }

  // ---- facts about the walk -----------------------------------------------------

  lemma {:induction false} FlattenOfPlain(body: seq<Stmt>)
    requires forall i :: 0 <= i < |body| ==> body[i].ConstText? || body[i].Assign?
    ensures forall path :: AllNames(path, Flatten(body)) == []
  {
    PlainFlatten(body);
    forall path
      ensures AllNames(path, Flatten(body)) == []
    {
      PlainNames(path, Flatten(body));
    }
  }

  lemma {:induction false} PlainFlatten(body: seq<Stmt>)
    requires forall i :: 0 <= i < |body| ==> body[i].ConstText? || body[i].Assign?
    ensures Flatten(body) == body
  {
    if body != [] { PlainFlatten(body[1..]); }
  }

  lemma {:induction false} PlainNames(path: string, body: seq<Stmt>)
    requires forall i :: 0 <= i < |body| ==> body[i].ConstText? || body[i].Assign?
    ensures AllNames(path, body) == []
  {
    if body != [] { PlainNames(path, body[..|body| - 1]); }
  }

  /** A release file that holds only the number imports nothing. */
  lemma {:induction false} NumberImportsNothing(path: string, file: File)
    requires HoldsOnlyTheNumber(file)
    ensures ImportedNames(path, file) == []
  {
    FlattenOfPlain(file.body);
  }

  lemma {:induction false} InitOfCaravan(name: Dotted, depth: nat)
    requires IsCaravan(name) && 1 <= depth <= |name|
    ensures InitFile(name[..depth]) == RELEASE_FILE <==> depth == 1
  {
    var parts := name[..depth];
    assert parts[0] == "caravan";
    if depth == 1 {
      assert Join(parts) == "caravan";
      assert "caravan" + "/__init__.py" == RELEASE_FILE;
    } else {
      assert Join(parts) == "caravan" + "/" + Join(parts[1..]);
      assert |InitFile(parts)| > |RELEASE_FILE|;
    }
  }

  /** The release file is run whenever it is there: every module of the package runs it first. */
  lemma {:induction false} ReleaseFileIsRun(tree: Tree)
    requires Guarded(tree)
    ensures RELEASE_FILE in Reach(tree) <==> RELEASE_FILE in tree
  {
    ReachIsClosed(tree);
    if RELEASE_FILE in tree {
      var main := MUST_REACH[0];
      var without := Reach(tree) - {main};
      assert main != ENTRY;
      if forall p :: p in without ==> main !in Next(tree, p, tree[p]) {
        assert Closed(tree, without);
        assert false;
      }
      var p :| p in without && main in Next(tree, p, tree[p]);
      var name := NameOfFile(tree, ImportedNames(p, tree[p]), main);
      InitOfCaravan(name, 1);
      assert RELEASE_FILE in FileAt(tree, name, 1);
      FileOfName(tree, ImportedNames(p, tree[p]), name, RELEASE_FILE);
    }
  }
}
