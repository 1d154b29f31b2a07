/** The generated table in the documentation page (caravan/admin/api_spec.py, ApiReference.block and splice):
    what stands between the page's two markers is replaced, markers and all. */
module PageSplice {
  import opened Basics
  import opened Search

  const GAP := "\n\n"

  function Block(start: string, end: string, table: string): string { start + (GAP + (table + (GAP + end))) }

  /** `splice`; None stands for the error a page without the markers gets. */
  function Splice(text: string, start: string, end: string, table: string): Option<string> {
    var s, e := Find(text, start, 0), Find(text, end, 0);
    if s == |text| || e == |text| || e < s then None
    else Some(text[..s] + Block(start, end, table) + text[e + |end|..])
  }

  /** Markers of the page's kind: on one line, neither empty, the end no longer than the start and not in it. */
  predicate Fit(start: string, end: string) {
    start != "" && end != "" && |end| <= |start| && '\n' !in end && !Contains(start, end)
  }

  // ---- where the markers are afterwards ---------------------------------------------------

  lemma {:induction false} Same(a: string, b: string, n: nat, p: string, k: nat)
    requires n <= |a| && n <= |b| && a[..n] == b[..n] && k + |p| <= n && At(a, k, p)
    ensures At(b, k, p)
  {
    forall j | 0 <= j < |p|
      ensures b[k + j] == p[j]
    {
      assert a[..n][k + j] == b[..n][k + j];
    }
  }

  /** The start marker stays where it was, and no end marker comes to stand before it. */
  lemma {:induction false} BeforeTheBlock(text: string, start: string, end: string, s: nat, after: string)
    requires Fit(start, end) && s == Find(text, start, 0) < |text| && s <= Find(text, end, 0)
    ensures var t := text[..s] + (start + after);
      Find(t, start, 0) == s && forall k :: 0 <= k < s ==> !At(t, k, end)
  {
    var t, n := text[..s] + (start + after), s + |start|;
    FindSays(text, start, 0);
    FindSays(text, end, 0);
    assert text[..n] == t[..n] by {
      forall j | s <= j < n
        ensures text[j] == t[j]
      {
        assert text[s + (j - s)] == start[j - s];
      }
    }
    assert At(t, s, start);
    forall k | 0 <= k < s
      ensures !At(t, k, start) && !At(t, k, end)
    {
      if At(t, k, start) { Same(t, text, n, start, k); }
      if At(t, k, end) { Same(t, text, n, end, k); }
    }
    FindIs(t, start, 0, s);
  }

  lemma {:induction false} Found(block: string, end: string, at: nat)
    requires end != "" && At(block, at, end)
    ensures Find(block, end, 0) <= at && (Find(block, end, 0) == at <==> forall k :: 0 <= k < at ==> !At(block, k, end))
  {
    FindSays(block, end, 0);
  }

  /** The first end marker of a block ends it, just when there is none in the table. */
  lemma {:induction false} EndOfBlock(start: string, end: string, table: string)
    requires Fit(start, end)
    ensures var block := Block(start, end, table);
      var f := Find(block, end, 0);
      f <= |block| - |end| && (f == |block| - |end| <==> !Contains(table, end))
  {
    hide Find;
    var block := Block(start, end, table);
    var lead, last := |start| + 2, |block| - |end|;
    Reassociate(start, GAP, table, GAP, end);
    assert At(block, last, end);
    Found(block, end, last);
    if Contains(table, end) {
      var i: nat :| i <= |table| && At(table, i, end);
      assert At(block, lead + i, end);
    } else {
      forall k | 0 <= k < last
        ensures !At(block, k, end)
      {
        NotInside(start, end, table, k);
      }
    }
  }

  lemma {:induction false} Reassociate(a: string, b: string, c: string, d: string, e: string)
    ensures a + (b + (c + (d + e))) == (a + b + c + d) + e
  {
  }

  lemma {:induction false} NotInside(start: string, end: string, table: string, k: nat)
    requires Fit(start, end) && !Contains(table, end) && k < |start| + |table| + 4
    ensures !At(Block(start, end, table), k, end)
  {
    var block, n, lead := Block(start, end, table), |end|, |start| + 2;
    var tail := lead + |table|;
    assert forall j :: 0 <= j < n ==> end[j] in end;
    assert block[|start|] == '\n' && block[|start| + 1] == '\n' && block[tail] == '\n' && block[tail + 1] == '\n';
    if k <= |start| < k + n {
      assert block[k + (|start| - k)] != end[|start| - k];
    } else if k <= |start| + 1 < k + n {
      assert block[k + (|start| + 1 - k)] != end[|start| + 1 - k];
    } else if k < |start| {
      assert !At(start, k, end);
      var j :| 0 <= j < n && start[k + j] != end[j];
      assert block[k + j] != end[j];
    } else if k <= tail < k + n {
      assert block[k + (tail - k)] != end[tail - k];
    } else if k <= tail + 1 < k + n {
      assert block[k + (tail + 1 - k)] != end[tail + 1 - k];
    } else {
      assert !At(table, k - lead, end);
      var j :| 0 <= j < n && table[k - lead + j] != end[j];
      assert block[k + j] != end[j];
    }
  }

  lemma {:induction false} EndAfterward(a: string, block: string, c: string, end: string)
    requires end != "" && Find(block, end, 0) < |block| && forall k :: 0 <= k < |a| ==> !At(a + (block + c), k, end)
    ensures Find(a + (block + c), end, 0) == |a| + Find(block, end, 0)
  {
    var f, all := Find(block, end, 0), block + c;
    FindSays(block, end, 0);
    forall k | 0 <= k < f
      ensures !At(all, k, end)
    {
      if At(all, k, end) { Same(all, block, |block|, end, k); }
    }
    assert all[..|block|] == block[..|block|];
    Same(block, all, |block|, end, f);
    FindIs(all, end, 0, f);
    FindShift(a, all, end, 0);
    FindSays(a + all, end, 0);
    FindSays(a + all, end, |a|);
  }

  /** Of a spliced page, what a second splice keeps behind the block. */
  lemma {:induction false} SplicedPage(a: string, start: string, end: string, table: string, c: string, next: string)
    requires Fit(start, end)
    requires Find(a + (Block(start, end, table) + c), start, 0) == |a|
    requires forall k :: 0 <= k < |a| ==> !At(a + (Block(start, end, table) + c), k, end)
    ensures var block := Block(start, end, table);
      var f := Find(block, end, 0);
      f + |end| <= |block| && Splice(a + (block + c), start, end, next) == Some(a + Block(start, end, next) + (block[f + |end|..] + c))
  {
    hide Find, At;
    var block := Block(start, end, table);
    var f, page := Find(block, end, 0), a + (block + c);
    EndOfBlock(start, end, table);
    EndAfterward(a, block, c, end);
    assert page[..|a|] == a;
    assert page[|a| + f + |end|..] == block[f + |end|..] + c;
  }

  /** A page that was spliced takes another table as it would have taken it at first, just when the table it has
      holds no end marker; with the same table again nothing changes. */
  lemma {:induction false} SpliceAgainIff(text: string, start: string, end: string, table: string, next: string)
    requires Fit(start, end) && Splice(text, start, end, table).Some?
    ensures var page := Splice(text, start, end, table).value;
      Splice(page, start, end, next).Some?
      && (Splice(page, start, end, next) == Splice(text, start, end, next) <==> !Contains(table, end))
  {
    var s, e := Find(text, start, 0), Find(text, end, 0);
    var a, block, c := text[..s], Block(start, end, table), text[e + |end|..];
    hide Find, At, Contains;
    var page := Splice(text, start, end, table).value;
    assert page == a + (block + c);
    var rest := GAP + (table + (GAP + end)) + c;
    assert block + c == start + rest;
    BeforeTheBlock(text, start, end, s, rest);
    SplicedPage(a, start, end, table, c, next);
    EndOfBlock(start, end, table);
    var f := Find(block, end, 0);
    var kept := block[f + |end|..];
    assert Splice(text, start, end, next) == Some(a + Block(start, end, next) + c);
    KeptIff(a + Block(start, end, next), kept, c);
  }

  lemma {:induction false} KeptIff(a: string, kept: string, c: string)
    ensures a + (kept + c) == a + c <==> kept == ""
  {
    assert |a + (kept + c)| == |a| + |kept| + |c|;
    if kept == "" { assert kept + c == c; }
  }
}
