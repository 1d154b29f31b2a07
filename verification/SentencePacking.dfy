/** A long text spoken in pieces of whole sentences (cells/lfm_audio_server.py, split_text). The text
    is given as the sentences its regular expression splits it into. */
module SentencePacking {
  import opened Basics

  // ---- strings ----------------------------------------------------------------------

  /** A sentence as the split leaves it: not empty, no blank at either end. */
  predicate Sentence(s: string) { s != "" && !White(s[0]) && !White(s[|s| - 1]) }

  predicate Sentences(parts: seq<string>) { forall p :: p in parts ==> Sentence(p) }

  function Join(group: seq<string>): string {
    if group == [] then ""
    else if |group| == 1 then group[0]
    else Join(group[..|group| - 1]) + " " + group[|group| - 1]
  }

  function JoinAll(groups: seq<seq<string>>): seq<string> {
    seq(|groups|, i requires 0 <= i < |groups| => Join(groups[i]))
  }

  // ---- groups of sentences ------------------------------------------------------------

  /** How long a group is spoken as one piece. */
  function Cost(group: seq<string>): nat {
    if group == [] then 0
    else if |group| == 1 then |group[0]|
    else Cost(group[..|group| - 1]) + 1 + |group[|group| - 1]|
  }

  /** A piece within the limit, or one sentence that is too long by itself. */
  predicate Fits(group: seq<string>, limit: int) { |group| == 1 || (|group| > 1 && Cost(group) <= limit) }

  function Flat(groups: seq<seq<string>>): seq<string> {
    if groups == [] then [] else groups[0] + Flat(groups[1..])
  }

  /** Consecutive groups of these sentences, each a permitted piece. */
  predicate Grouping(groups: seq<seq<string>>, parts: seq<string>, limit: int) {
    Flat(groups) == parts && forall g :: g in groups ==> Fits(g, limit)
  }

  /** The groups the loop makes: `current` is open, the rest is still to come. */
  function Pack(current: seq<string>, rest: seq<string>, limit: int): seq<seq<string>>
    decreases |rest|
  {
    if rest == [] then (if current == [] then [] else [current])
    else if current != [] && Cost(current) + |rest[0]| + 1 > limit then [current] + Pack([rest[0]], rest[1..], limit)
    else Pack(current + [rest[0]], rest[1..], limit)
  }

  // ---- the loop -----------------------------------------------------------------------

  /** `split_text`, on the sentences of the text; an empty text is the one empty sentence. */
  method SplitText(parts: seq<string>, limit: int) returns (pieces: seq<string>)
    requires parts == [""] || Sentences(parts)
    ensures parts == [""] ==> pieces == []
    ensures Sentences(parts) ==> pieces == JoinAll(Pack([], parts, limit))
  {
    pieces := [];
    var current := "";
    ghost var open: seq<string>, closed: seq<seq<string>> := [], [];
    for k := 0 to |parts|
      invariant parts == [""] ==> current == "" && pieces == []
      invariant Sentences(parts) ==>
        && Sentences(open) && current == Join(open) && pieces == JoinAll(closed)
        && closed + Pack(open, parts[k..], limit) == Pack([], parts, limit)
    {
      var part := parts[k];
      if Sentences(parts) {
        assert part in parts;
        JoinIsSpoken(open);
        assert parts[k..][1..] == parts[k + 1..];
      }
      if current != "" && |current| + |part| + 1 > limit {
        if Sentences(parts) {
          JoinAllOneMore(closed, open);
          Associative(closed, [open], Pack([part], parts[k + 1..], limit));
        }
        pieces := pieces + [current];
        current := part;
        closed, open := closed + [open], [part];
      } else {
        if Sentences(parts) { StripJoins(open, part); }
        current := Strip(current + " " + part);
        if parts == [""] { StripOfWhite(); }
        open := open + [part];
      }
    }
    if Sentences(parts) {
      assert parts[|parts|..] == [];
      JoinIsSpoken(open);
      JoinAllOneMore(closed, open);
    }
    pieces := pieces + (if current != "" then [current] else []);
  }

  lemma {:induction false} StripOfWhite()
    ensures Strip("" + " " + "") == ""
  {
    assert "" + " " + "" == " ";
    assert StripLeft(" ") == StripLeft(" "[1..]) == "";
  }

  lemma {:induction false} JoinAllOneMore(groups: seq<seq<string>>, g: seq<string>)
    ensures JoinAll(groups + [g]) == JoinAll(groups) + [Join(g)]
  {
  }

  lemma {:induction false} JoinIsSpoken(group: seq<string>)
    requires Sentences(group)
    ensures |Join(group)| == Cost(group)
    ensures group == [] <==> Join(group) == ""
    ensures group != [] ==> Sentence(Join(group))
  {
    if |group| == 1 {
      assert group[0] in group;
    }
    if |group| > 1 {
      var front := group[..|group| - 1];
      assert group[|group| - 1] in group;
      forall p | p in front
        ensures Sentence(p)
      {
        assert p in group;
      }
      JoinIsSpoken(front);
    }
  }

  lemma {:induction false} StripSentence(s: string)
    requires Sentence(s)
    ensures Strip(s) == s && Strip(" " + s) == s
  {
    assert (" " + s)[1..] == s;
    assert StripLeft(" " + s) == StripLeft(s) == s;
  }

  lemma {:induction false} StripJoins(group: seq<string>, part: string)
    requires Sentences(group) && Sentence(part)
    ensures Strip(Join(group) + " " + part) == Join(group + [part])
  {
    JoinIsSpoken(group);
    if group == [] {
      assert "" + " " + part == " " + part;
      StripSentence(part);
    } else {
      assert (group + [part])[..|group|] == group;
      StripSentence(Join(group) + " " + part);
    }
  }

  // ---- nothing is lost, every piece fits ------------------------------------------------

  lemma {:induction false} FlatOne(g: seq<string>, rest: seq<seq<string>>)
    ensures Flat([g] + rest) == g + Flat(rest)
  {
    assert ([g] + rest)[1..] == rest;
  }

  /** The pieces are the sentences in their order, in permitted groups. */
  lemma {:induction false} PackIsAGrouping(current: seq<string>, rest: seq<string>, limit: int)
    requires current == [] || Fits(current, limit)
    ensures Flat(Pack(current, rest, limit)) == current + rest
    ensures forall g :: g in Pack(current, rest, limit) ==> Fits(g, limit)
    decreases |rest|
  {
    if rest == [] {
      if current != [] {
        assert [current] == [current] + [];
        FlatOne(current, []);
      }
    } else if current != [] && Cost(current) + |rest[0]| + 1 > limit {
      PackIsAGrouping([rest[0]], rest[1..], limit);
      FlatOne(current, Pack([rest[0]], rest[1..], limit));
    } else {
      assert (current + [rest[0]])[..|current|] == current;
      assert current + [rest[0]] + rest[1..] == current + rest;
      PackIsAGrouping(current + [rest[0]], rest[1..], limit);
    }
  }

  // ---- no grouping has fewer pieces ------------------------------------------------------

  /** A part of a group costs no more. */
  lemma {:induction false} CostOfFront(group: seq<string>, n: nat)
    requires 0 < n <= |group|
    ensures Cost(group[..n]) <= Cost(group)
    decreases |group|
  {
    if n == |group| {
      assert group[..n] == group;
    } else {
      var front := group[..|group| - 1];
      assert front[..n] == group[..n];
      CostOfFront(front, n);
    }
  }

  lemma {:induction false} CostOfTail(group: seq<string>, n: nat)
    requires n < |group|
    ensures Cost(group[n..]) <= Cost(group)
    decreases |group|
  {
    if n == |group| - 1 {
      assert group[n..] == [group[n]];
    } else {
      var front := group[..|group| - 1];
      assert group[n..][..|group[n..]| - 1] == front[n..];
      CostOfTail(front, n);
    }
  }

  /** Without its first sentences a grouping is a grouping of the rest, with no more groups. */
  lemma {:induction false} DropFirst(groups: seq<seq<string>>, parts: seq<string>, limit: int, n: nat)
    returns (left: seq<seq<string>>)
    requires Grouping(groups, parts, limit) && n <= |parts|
    ensures Grouping(left, parts[n..], limit) && |left| <= |groups|
    decreases |groups|
  {
    if groups == [] || n == 0 {
      assert n == 0 ==> parts[n..] == parts;
      left := groups;
    } else {
      var g, rest := groups[0], groups[1..];
      assert groups == [g] + rest && g in groups;
      assert Grouping(rest, Flat(rest), limit);
      if n < |g| {
        CostOfTail(g, n);
        left := [g[n..]] + rest;
        FlatOne(g[n..], rest);
        assert parts[n..] == g[n..] + Flat(rest);
      } else {
        left := DropFirst(rest, Flat(rest), limit, n - |g|);
        assert parts[n..] == Flat(rest)[n - |g|..];
      }
    }
  }

  /** The first group the loop closes is the longest that fits. */
  lemma {:induction false} FirstGroup(current: seq<string>, rest: seq<string>, limit: int) returns (k: nat)
    requires current != []
    ensures k <= |rest|
    ensures Pack(current, rest, limit) == [current + rest[..k]] + Pack([], rest[k..], limit)
    ensures k < |rest| ==> Cost(current + rest[..k]) + 1 + |rest[k]| > limit
    decreases |rest|
  {
    if rest == [] {
      k := 0;
      assert current + rest[..0] == current;
    } else if Cost(current) + |rest[0]| + 1 > limit {
      k := 0;
      assert current + rest[..0] == current;
      assert rest[0..] == rest && [] + [rest[0]] == [rest[0]];
    } else {
      k := FirstGroup(current + [rest[0]], rest[1..], limit);
      assert current + [rest[0]] + rest[1..][..k] == current + rest[..k + 1];
      assert rest[1..][k..] == rest[k + 1..];
      k := k + 1;
    }
  }

  /** No split into consecutive permitted pieces has fewer. */
  lemma {:induction false} FewestPieces(parts: seq<string>, limit: int, groups: seq<seq<string>>)
    requires Grouping(groups, parts, limit)
    ensures |Pack([], parts, limit)| <= |groups|
    decreases |parts|
  {
    if parts != [] {
      var k := FirstGroup([parts[0]], parts[1..], limit);
      var first := [parts[0]] + parts[1..][..k];
      assert [] + [parts[0]] == [parts[0]];
      assert first == parts[..k + 1] && parts[1..][k..] == parts[k + 1..];
      assert groups != [];
      var g, rest := groups[0], groups[1..];
      assert groups == [g] + rest && g in groups;
      assert parts == g + Flat(rest);
      FirstIsLongest(parts, limit, g, k);
      assert Grouping(rest, Flat(rest), limit);
      var left := DropFirst(rest, Flat(rest), limit, k + 1 - |g|);
      assert Flat(rest)[k + 1 - |g|..] == parts[k + 1..];
      FewestPieces(parts[k + 1..], limit, left);
    }
  }

  lemma {:induction false} FirstIsLongest(parts: seq<string>, limit: int, g: seq<string>, k: nat)
    requires k < |parts| && Fits(g, limit) && |g| <= |parts| && g == parts[..|g|]
    requires k + 1 < |parts| ==> Cost(parts[..k + 1]) + 1 + |parts[k + 1]| > limit
    ensures |g| <= k + 1
  {
    if |g| > k + 1 {
      assert parts[..k + 2][..k + 1] == parts[..k + 1];
      assert Cost(parts[..k + 2]) == Cost(parts[..k + 1]) + 1 + |parts[k + 1]|;
      assert g[..k + 2] == parts[..k + 2];
      CostOfFront(g, k + 2);
      assert false;
    }
  }
}
