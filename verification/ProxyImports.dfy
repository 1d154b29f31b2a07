/** Which files an import statement runs, and so which files the proxy runs, said of the statements and the
    paths alone (scripts/check_proxy_sources.py). */
module ProxyImports {
  import opened Basics
  import opened ProxySources

  // ---- what a statement names -----------------------------------------------------------

  /** A statement of a body, at any depth. */
  ghost predicate Within(s: Stmt, body: seq<Stmt>) {
    exists i :: 0 <= i < |body| && (body[i] == s || (body[i].Compound? && Within(s, body[i].body)))
  }

  predicate Plain(parts: seq<string>) { forall part :: part in parts ==> '/' !in part }

  /** So many folders up; past the top the count goes on from the end, as a slice's does. */
  function Upward(folder: Dotted, up: nat): Dotted {
    if up <= |folder| then folder[..|folder| - up]
    else if up <= 2 * |folder| then folder[..2 * |folder| - up]
    else []
  }

  /** The package a file's import starts from: none for an absolute one, and for a relative one the file's own
      folder with a level less of dots than were written. */
  ghost predicate Package(path: string, level: nat, package: Dotted) {
    if level == 0 then package == []
    else exists folder: Dotted, file: string ::
      Join(folder + [file]) == path && Plain(folder + [file]) && package == Upward(folder, level - 1)
  }

  /** The names a statement imports: of `from base import a` the base and `base.a`. */
  ghost predicate Says(path: string, s: Stmt, name: Dotted) {
    match s
    case Import(names) => name in names
    case ImportFrom(base, level, aliases) =>
      exists package :: Package(path, level, package) && package + base != []
        && (name == package + base || exists a :: a in aliases && name == package + base + [a])
    case _ => false
  }

  /** A file the tree has and that importing this name runs: a package on the way, or the module, if no package
      stands in its place. */
  predicate Runs(tree: Tree, name: Dotted, f: string) {
    && f in tree && name != []
    && (|| (exists d :: 1 <= d <= |name| && f == Join(name[..d]) + "/__init__.py")
        || (f == Join(name) + ".py" && Join(name) + "/__init__.py" !in tree))
  }

  /** A file holds an import, at any depth, that runs this file. */
  ghost predicate Imports(tree: Tree, p: string, f: string) {
    p in tree && exists s, name :: Within(s, tree[p].body) && Says(p, s, name) && IsCaravan(name) && Runs(tree, name, f)
  }

  // ---- paths ------------------------------------------------------------------------------

  lemma {:induction false} SplitPlain(part: string, rest: string)
    requires '/' !in part
    ensures SplitSlash(part) == [part] && SplitSlash(part + "/" + rest) == [part] + SplitSlash(rest)
  {
    var whole := part + "/" + rest;
    if part != "" {
      SplitPlain(part[1..], rest);
      assert whole[1..] == part[1..] + "/" + rest && [part[0]] + part[1..] == part;
    } else {
      assert whole[0] == '/' && whole[1..] == rest;
    }
  }

  lemma {:induction false} SplitOfJoin(parts: seq<string>)
    requires parts != [] && Plain(parts)
    ensures SplitSlash(Join(parts)) == parts
  {
    if |parts| == 1 {
      SplitPlain(parts[0], "");
    } else {
      assert Plain(parts[1..]);
      SplitOfJoin(parts[1..]);
      SplitPlain(parts[0], Join(parts[1..]));
    }
  }

  lemma {:induction false} JoinOfSplit(path: string)
    ensures Join(SplitSlash(path)) == path && Plain(SplitSlash(path))
  {
    if path != "" {
      JoinOfSplit(path[1..]);
      var rest := SplitSlash(path[1..]);
      if path[0] == '/' {
        assert ([""] + rest)[1..] == rest;
        assert path == "" + "/" + path[1..];
      } else {
        var parts := [[path[0]] + rest[0]] + rest[1..];
        assert parts[1..] == rest[1..];
        assert path == [path[0]] + path[1..];
      }
    }
  }

  /** What stands in front of a path's last part: nothing, or something that ends in a slash. */
  lemma {:induction false} JoinEnds(folder: seq<string>, file: string) returns (front: string)
    ensures Join(folder + [file]) == front + file
    ensures forall other :: Join(folder + [other]) == front + other
    ensures front == "" || front[|front| - 1] == '/'
  {
    if folder == [] {
      front := "";
    } else {
      var rest := JoinEnds(folder[1..], file);
      front := folder[0] + "/" + rest;
      forall other
        ensures Join(folder + [other]) == front + other
      {
        assert (folder + [other])[1..] == folder[1..] + [other];
      }
    }
  }

  lemma {:induction false} NoSuffixOver(front: string, file: string)
    requires front != "" && front[|front| - 1] == '/' && |file| < 3 && |front + file| >= 3
    ensures (front + file)[|front + file| - 3..] != ".py"
  {
    var path := front + file;
    assert path[|path| - 3..][2 - |file|] == path[|front| - 1];
  }

  /** A suffix is taken off a path's last part. */
  lemma {:induction false} SuffixOfLast(folder: seq<string>, file: string)
    ensures RemoveSuffix(Join(folder + [file]), ".py") == Join(folder + [RemoveSuffix(file, ".py")])
  {
    var front := JoinEnds(folder, file);
    var path := front + file;
    if |path| >= 3 {
      if |file| >= 3 {
        assert path[|path| - 3..] == file[|file| - 3..];
        assert path[..|path| - 3] == front + file[..|file| - 3];
      } else if front != "" {
        NoSuffixOver(front, file);
      }
    }
  }

  /** A file's folder is its path without the last part, whatever that part ends in. */
  lemma {:induction false} FolderOf(folder: seq<string>, file: string)
    requires Plain(folder + [file])
    ensures var parts := SplitSlash(RemoveSuffix(Join(folder + [file]), ".py")); parts[..|parts| - 1] == folder
  {
    var short := RemoveSuffix(file, ".py");
    assert Plain(folder + [short]) by {
      forall part | part in folder + [short]
        ensures '/' !in part
      {
        assert forall part :: part in folder ==> part in folder + [file];
        assert file in folder + [file];
      }
    }
    hide RemoveSuffix, SplitSlash, Join;
    SuffixOfLast(folder, file);
    SplitOfJoin(folder + [short]);
  }

  lemma {:induction false} TakesUp(folder: Dotted, up: nat)
    ensures PythonTake(folder, |folder| - up) == Upward(folder, up)
  {
  }

  lemma {:induction false} PackageIs(path: string, base: Dotted, level: nat, package: Dotted)
    requires Package(path, level, package)
    ensures BaseOf(path, base, level) == if package + base == [] then [""] else package + base
  {
    hide RemoveSuffix, SplitSlash, Join, PythonTake, Upward, Plain;
    if level != 0 {
      var folder: Dotted, file: string :|
        Join(folder + [file]) == path && Plain(folder + [file]) && package == Upward(folder, level - 1);
      FolderOf(folder, file);
      TakesUp(folder, level - 1);
    }
  }

  lemma {:induction false} PackageThere(path: string, level: nat) returns (package: Dotted)
    ensures Package(path, level, package)
  {
    if level == 0 { return []; }
    JoinOfSplit(path);
    var parts := SplitSlash(path);
    var folder, file := parts[..|parts| - 1], parts[|parts| - 1];
    assert folder + [file] == parts;
    package := Upward(folder, level - 1);
  }

  lemma {:induction false} ModuleIs(name: Dotted)
    requires name != []
    ensures ModuleFile(name) == Join(name) + ".py"
  {
    var most, last := name[..|name| - 1], name[|name| - 1];
    var front := JoinEnds(most, last);
    assert name == most + [last];
  }

  // ---- from the statement to the files ------------------------------------------------------

  lemma {:induction false} FlattenIs(s: Stmt, body: seq<Stmt>)
    ensures s in Flatten(body) <==> Within(s, body)
    decreases body
  {
    if body != [] {
      var first, rest := body[0], body[1..];
      FlattenIs(s, rest);
      if first.Compound? { FlattenIs(s, first.body); }
      if Within(s, rest) {
        var i :| 0 <= i < |rest| && (rest[i] == s || (rest[i].Compound? && Within(s, rest[i].body)));
        assert body[i + 1] == rest[i];
      }
      if Within(s, body) {
        var i :| 0 <= i < |body| && (body[i] == s || (body[i].Compound? && Within(s, body[i].body)));
        if i > 0 { assert rest[i - 1] == body[i]; }
      }
    }
  }

  lemma {:induction false} NameInAll(path: string, nodes: seq<Stmt>, name: Dotted)
    ensures name in AllNames(path, nodes) <==> exists s :: s in nodes && name in NamesOf(path, s)
    decreases |nodes|
  {
    hide NamesOf;
    if nodes != [] {
      var n := |nodes| - 1;
      NameInAll(path, nodes[..n], name);
      assert nodes == nodes[..n] + [nodes[n]];
    }
  }

  lemma {:induction false} NamesAreSaid(path: string, s: Stmt, name: Dotted)
    requires IsCaravan(name)
    ensures name in NamesOf(path, s) <==> Says(path, s, name)
  {
    if s.ImportFrom? {
      hide BaseOf, Package;
      var package := PackageThere(path, s.level);
      forall p | Package(path, s.level, p)
        ensures BaseOf(path, s.base, s.level) == if p + s.base == [] then [""] else p + s.base
      {
        PackageIs(path, s.base, s.level, p);
      }
      var from := BaseOf(path, s.base, s.level);
      NameOfFrom(from, s.aliases, name);
      if package + s.base == [] {
        assert !Says(path, s, name);
      } else {
        assert from == package + s.base;
      }
    }
  }

  lemma {:induction false} NameOfFrom(from: Dotted, aliases: seq<string>, name: Dotted)
    ensures name in [from] + seq(|aliases|, i requires 0 <= i < |aliases| => from + [aliases[i]])
       <==> name == from || exists a :: a in aliases && name == from + [a]
  {
    var names := seq(|aliases|, i requires 0 <= i < |aliases| => from + [aliases[i]]);
    if a :| a in aliases && name == from + [a] {
      var i :| 0 <= i < |aliases| && aliases[i] == a;
      assert names[i] == name;
    }
  }

  lemma {:induction false} FilesAreRun(tree: Tree, name: Dotted, f: string)
    requires name != []
    ensures f in FilesUpTo(tree, name, |name|) <==> Runs(tree, name, f)
  {
    ModuleIs(name);
    assert name[..|name|] == name;
    if d :| 1 <= d <= |name| && f == Join(name[..d]) + "/__init__.py" && f in tree {
      assert f in FileAt(tree, name, d);
    }
    if f == Join(name) + ".py" && Join(name) + "/__init__.py" !in tree && f in tree {
      assert f in FileAt(tree, name, |name|);
    }
  }

  /** The walk's one step is exactly that. */
  lemma {:induction false} NextIsImports(tree: Tree, p: string, f: string)
    requires p in tree
    ensures f in Next(tree, p, tree[p]) <==> Imports(tree, p, f)
  {
    hide Within, Says, Runs, FilesUpTo, NamesOf, Flatten;
    var names, nodes := ImportedNames(p, tree[p]), Flatten(tree[p].body);
    if f in Next(tree, p, tree[p]) {
      var name := NameOfFile(tree, names, f);
      NameInAll(p, nodes, name);
      var s :| s in nodes && name in NamesOf(p, s);
      FlattenIs(s, tree[p].body);
      NamesAreSaid(p, s, name);
      FilesAreRun(tree, name, f);
    }
    if Imports(tree, p, f) {
      var s, name :| Within(s, tree[p].body) && Says(p, s, name) && IsCaravan(name) && Runs(tree, name, f);
      FlattenIs(s, tree[p].body);
      NamesAreSaid(p, s, name);
      NameInAll(p, nodes, name);
      FilesAreRun(tree, name, f);
      FileOfName(tree, names, name, f);
    }
  }

  // ---- what the proxy runs --------------------------------------------------------------------

  /** A chain of imports from the launcher. */
  ghost predicate Chain(tree: Tree, chain: seq<string>) {
    && chain != [] && chain[0] == ENTRY
    && forall i :: 0 <= i < |chain| - 1 ==> Imports(tree, chain[i], chain[i + 1])
  }

  ghost predicate Chained(tree: Tree, f: string) { exists chain :: Chain(tree, chain) && chain[|chain| - 1] == f }

  lemma {:induction false} Longer(tree: Tree, p: string, f: string)
    requires Chained(tree, p) && Imports(tree, p, f)
    ensures Chained(tree, f)
  {
    hide Imports;
    var chain :| Chain(tree, chain) && chain[|chain| - 1] == p;
    var longer := chain + [f];
    assert forall i :: 0 <= i < |longer| - 1 ==> Imports(tree, longer[i], longer[i + 1]);
    assert Chain(tree, longer) && longer[|longer| - 1] == f;
  }

  lemma {:induction false} ChainReaches(tree: Tree, chain: seq<string>)
    requires ENTRY in tree && Chain(tree, chain)
    ensures chain[|chain| - 1] in Reach(tree)
    decreases |chain|
  {
    hide Imports, Next, Reach;
    ReachIsClosed(tree);
    if |chain| > 1 {
      var n := |chain| - 1;
      assert Chain(tree, chain[..n]);
      ChainReaches(tree, chain[..n]);
      assert Imports(tree, chain[n - 1], chain[n]);
      NextIsImports(tree, chain[n - 1], chain[n]);
    }
  }

  /** The files the proxy runs are exactly those that a chain of import statements leads to from the launcher. */
  lemma {:induction false} ReachedByImports(tree: Tree, f: string)
    requires ENTRY in tree
    ensures f in Reach(tree) <==> Chained(tree, f)
  {
    hide Imports, Next, Reach;
    ReachIsClosed(tree);
    if Chained(tree, f) {
      var chain :| Chain(tree, chain) && chain[|chain| - 1] == f;
      ChainReaches(tree, chain);
    }
    var chained := set p | p in tree.Keys && Chained(tree, p);
    assert Closed(tree, chained) by {
      assert Chained(tree, ENTRY) by { assert Chain(tree, [ENTRY]) && [ENTRY][0] == ENTRY; }
      forall p, g | p in chained && g in Next(tree, p, tree[p])
        ensures g in chained
      {
        NextIsImports(tree, p, g);
        NextIsThere(tree, p, tree[p]);
        Longer(tree, p, g);
      }
    }
  }

  /** So a file the proxy runs, its `from base import a, ..` in whatever statement: it runs every package on the
      way to the base, the base, and each `base.a` that is a module or a package. */
  lemma {:induction false} FromImportIsFollowed(tree: Tree, p: string, base: Dotted, level: nat, aliases: seq<string>, package: Dotted)
    requires ENTRY in tree && p in Reach(tree) && Within(ImportFrom(base, level, aliases), tree[p].body)
    requires Package(p, level, package) && IsCaravan(package + base)
    ensures forall f :: Runs(tree, package + base, f) ==> f in Reach(tree)
    ensures forall a, f :: a in aliases && Runs(tree, package + base + [a], f) ==> f in Reach(tree)
  {
    hide Within, Package, Runs, Next, Reach;
    ReachIsClosed(tree);
    var s := ImportFrom(base, level, aliases);
    forall name, f | Says(p, s, name) && IsCaravan(name) && Runs(tree, name, f)
      ensures f in Reach(tree)
    {
      NextIsImports(tree, p, f);
    }
    assert Says(p, s, package + base);
    forall a | a in aliases ensures Says(p, s, package + base + [a]) { }
  }

  /** And of its `import x.y, ..`, every package on the way to each name and the module. */
  lemma {:induction false} ImportIsFollowed(tree: Tree, p: string, names: seq<Dotted>, name: Dotted, f: string)
    requires ENTRY in tree && p in Reach(tree) && Within(Import(names), tree[p].body)
    requires name in names && IsCaravan(name) && Runs(tree, name, f)
    ensures f in Reach(tree)
  {
    hide Within, Runs, Next, Reach;
    ReachIsClosed(tree);
    assert Says(p, Import(names), name);
    NextIsImports(tree, p, f);
  }

  /** The launcher's own line, `from caravan.proxy.main import main`, reaches the proxy's entry point. */
  lemma {:induction false} LauncherReachesMain(tree: Tree)
    requires ENTRY in tree && Within(ImportFrom(["caravan", "proxy", "main"], 0, ["main"]), tree[ENTRY].body)
    requires "caravan/proxy/main.py" in tree && "caravan/proxy/main/__init__.py" !in tree
    ensures "caravan/proxy/main.py" in Reach(tree)
  {
    hide Reach, Within, Runs;
    var base := ["caravan", "proxy", "main"];
    ReachIsClosed(tree);
    MainIsRun(tree);
    assert [] + base == base;
    FromImportIsFollowed(tree, ENTRY, base, 0, ["main"], []);
  }

  lemma {:induction false} MainIsRun(tree: Tree)
    requires "caravan/proxy/main.py" in tree && "caravan/proxy/main/__init__.py" !in tree
    ensures Runs(tree, ["caravan", "proxy", "main"], "caravan/proxy/main.py")
  {
    hide Join;
    JoinThree("caravan", "proxy", "main");
    var path := "caravan" + "/" + "proxy" + "/" + "main";
    assert path == "caravan/proxy/main";
    assert path + ".py" == "caravan/proxy/main.py" && path + "/__init__.py" == "caravan/proxy/main/__init__.py";
  }

  lemma {:induction false} JoinThree(a: string, b: string, c: string)
    ensures Join([a, b, c]) == a + "/" + b + "/" + c
  {
    assert [a, b, c][1..] == [b, c] && [b, c][1..] == [c];
    assert Join([b, c]) == b + "/" + c;
    Associative(a + "/", b + "/", c);
    Associative(a + "/", b, "/");
    assert a + "/" + (b + "/" + c) == a + "/" + b + "/" + c;
  }
}
