/** Whether a deploy restarts the proxy (scripts/proxy_restart.py), and what the proxy then runs.

    The decision compares the commit the running proxy says it started from with the one being
    deployed. Here it meets the walk of ProxySources: when no covered file changed between two commits
    that pass the guard, the proxy's code is the same at both. */
module ProxyDeploy {
  import opened Basics
  import opened ProxySources

  // ---- the decision -------------------------------------------------------------

  /** What the controller said: the unit's state, its MainPID, and the proxy's start record. */
  datatype Facts = Facts(active: string, mainPid: nat, commit: string, pid: nat)

  datatype Why =
    | NotRunning | NoCommit | NotItsRecord | UnknownCommit | Touched(files: seq<string>) | Unchanged

  datatype Verdict = Restart(why: Why) | Keep

  function CoveredOnly(changed: seq<string>): (touched: seq<string>)
    ensures forall p :: p in touched <==> p in changed && Covers(p)
  {
    if changed == [] then []
    else (if Covers(changed[0]) then [changed[0]] else []) + CoveredOnly(changed[1..])
  }

  /** `changed` is None when git could not compare the two commits. */
  function Decide(facts: Facts, changed: Option<seq<string>>): (v: Verdict)
    ensures v.Keep? <==>
      && facts.active == "active" && facts.commit != ""
      && facts.mainPid != 0 && facts.pid == facts.mainPid
      && changed.Some? && forall p :: p in changed.value ==> !Covers(p)
  {
    if facts.active != "active" then Restart(NotRunning)
    else if facts.commit == "" then Restart(NoCommit)
    else if facts.mainPid == 0 || facts.pid != facts.mainPid then Restart(NotItsRecord)
    else if changed.None? then Restart(UnknownCommit)
    else
      var touched := CoveredOnly(changed.value);
      if touched != [] then
        assert touched[0] in touched;
        Restart(Touched(touched))
      else Keep
  }

  /** Short names that can stand for one commit: neither is empty, and one begins with the other. */
  predicate SameCommit(one: string, other: string) {
    one != "" && other != "" && (one <= other || other <= one)
  }

  lemma {:induction false} SameCommitIff(one: string, other: string)
    ensures SameCommit(one, other) <==> one != "" && other != "" && exists rest :: one + rest == other || other + rest == one
  {
    if SameCommit(one, other) {
      if one <= other { assert one + other[|one|..] == other; } else { assert other + one[|other|..] == one; }
    }
  }

  datatype Mismatch = IsDown | ForeignRecord | OtherCommit

  /** ProxyRestart.verify: None when the proxy is up, the record is its own and, when a commit is asked for, names it. */
  function Verify(facts: Facts, newCommit: string): (m: Option<Mismatch>)
    ensures m.None? <==>
      && facts.active == "active" && facts.mainPid != 0 && facts.pid == facts.mainPid
      && (newCommit != "" ==> SameCommit(facts.commit, newCommit))
  {
    if facts.active != "active" then Some(IsDown)
    else if facts.mainPid == 0 || facts.pid != facts.mainPid then Some(ForeignRecord)
    else if newCommit != "" && !SameCommit(facts.commit, newCommit) then Some(OtherCommit)
    else None
  }

  // ---- two commits ----------------------------------------------------------------

  /** The files that differ between two trees: `git diff --name-only --no-renames`. */
  ghost function Changed(a: Tree, b: Tree): set<string> {
    set p | p in a.Keys + b.Keys && (p !in a || p !in b || a[p] != b[p])
  }

  /** The two trees run the same proxy: the same files with the same content, the release file aside. */
  ghost predicate SameCode(a: Tree, b: Tree) {
    && Reach(a) - {RELEASE_FILE} == Reach(b) - {RELEASE_FILE}
    && forall p :: p in Reach(a) - {RELEASE_FILE} ==> p in a && p in b && a[p] == b[p]
  }

  lemma {:induction false} CoveredAreEqual(a: Tree, b: Tree, p: string)
    requires forall q :: q in Changed(a, b) ==> !Covers(q)
    requires Covers(p) && (p in a || p in b)
    ensures p in a && p in b && a[p] == b[p]
  {
    assert p !in Changed(a, b);
  }

  lemma {:induction false} BarePackageIsNotCovered()
    ensures !Covers(ModuleFile(["caravan"]))
  {
    var f := ModuleFile(["caravan"]);
    assert f == Join(["caravan" + ".py"]) == "caravan.py";
    assert f[7] == '.' && "caravan/proxy/"[7] == '/' && "caravan/common/"[7] == '/';
    assert f[0] == 'c' && ENTRY[0] == 'a';
  }

  /** A module run in place of a package that the other commit has: then the package's own file is
      covered and differs, or it is the release file and the module lies outside the sources. */
  lemma {:induction false} SameResolution(a: Tree, b: Tree, name: Dotted, f: string, d: nat)
    requires forall q :: q in Changed(a, b) ==> !Covers(q)
    requires IsCaravan(name) && 1 <= d <= |name| && f in FileAt(a, name, d) && Covers(f)
    requires forall g :: g in FileAt(b, name, d) ==> g == RELEASE_FILE || Covers(g)
    ensures f in FileAt(b, name, d)
  {
    var init := InitFile(name[..d]);
    CoveredAreEqual(a, b, f);
    if f != init && init in b {
      assert init in FileAt(b, name, d);
      if init == RELEASE_FILE {
        InitOfCaravan(name, d);
        BarePackageIsNotCovered();
        assert false;
      }
      CoveredAreEqual(a, b, init);
      assert false;
    }
  }

  lemma {:induction false} HalfOfSameCode(a: Tree, b: Tree)
    requires Guarded(a) && Guarded(b)
    requires forall p :: p in Changed(a, b) ==> !Covers(p)
    ensures Reach(a) <= Reach(b) + {RELEASE_FILE}
  {
    ReachIsClosed(a);
    ReachIsClosed(b);
    var both := Reach(a) * (Reach(b) + {RELEASE_FILE});
    assert Covers(ENTRY);
    forall p, f | p in both && f in Next(a, p, a[p])
      ensures f in both
    {
      assert ProblemsOf(p, a[p]) == {};
      if p == RELEASE_FILE {
        NumberImportsNothing(p, a[p]);
        assert false;
      }
      assert p in Reach(b) && Covers(p);
      CoveredAreEqual(a, b, p);
      assert f in Reach(a);
      assert ProblemsOf(f, a[f]) == {};
      if f != RELEASE_FILE {
        var name := NameOfFile(a, ImportedNames(p, a[p]), f);
        var d :| 1 <= d <= |name| && f in FileAt(a, name, d);
        forall g | g in FileAt(b, name, d)
          ensures g == RELEASE_FILE || Covers(g)
        {
          assert g in FilesUpTo(b, name, |name|);
          FileOfName(b, ImportedNames(p, b[p]), name, g);
          assert ProblemsOf(g, b[g]) == {};
        }
        SameResolution(a, b, name, f, d);
        assert f in FilesUpTo(b, name, |name|);
        FileOfName(b, ImportedNames(p, b[p]), name, f);
      }
    }
    assert Closed(a, both);
  }

  /** When the guard passes at both commits and no covered file changed, the proxy's files and their
      contents are the same at both. */
  lemma {:induction false} UnchangedIsSameCode(a: Tree, b: Tree)
    requires Guarded(a) && Guarded(b)
    requires forall p :: p in Changed(a, b) ==> !Covers(p)
    ensures SameCode(a, b)
  {
    HalfOfSameCode(a, b);
    HalfOfSameCode(b, a);
    ReachIsClosed(a);
    forall p | p in Reach(a) - {RELEASE_FILE}
      ensures p in a && p in b && a[p] == b[p]
    {
      assert ProblemsOf(p, a[p]) == {};
      CoveredAreEqual(a, b, p);
    }
  }

  /** The release file itself is in the walk wherever it exists: the two walks are equal exactly
      when both commits have it or neither does. The guard asks for neither. */
  lemma {:induction false} SameWalkIff(a: Tree, b: Tree)
    requires Guarded(a) && Guarded(b)
    requires forall p :: p in Changed(a, b) ==> !Covers(p)
    ensures Reach(a) == Reach(b) <==> (RELEASE_FILE in a <==> RELEASE_FILE in b)
  {
    UnchangedIsSameCode(a, b);
    ReleaseFileIsRun(a);
    ReleaseFileIsRun(b);
    EqualButForOne(Reach(a), Reach(b), RELEASE_FILE);
  }

  lemma {:induction false} EqualButForOne(x: set<string>, y: set<string>, e: string)
    requires x - {e} == y - {e}
    ensures x == y <==> (e in x <==> e in y)
  {
    if e in x <==> e in y {
      forall p
        ensures p in x <==> p in y
      {
        assert p in x - {e} <==> p in y - {e};
      }
    }
  }
}
