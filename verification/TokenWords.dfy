/** Words out of an engine's tokens (cells/transcribe_server.py, _words_from_tokens): a token that begins with
    the word mark begins a word, unless nothing is to be seen of the one before. */
module TokenWords {
  import opened Basics

  const MARK: char := '\U{2581}'

  /** A token's text and its times in milliseconds, in the piece it was heard in. */
  datatype Token = Token(text: string, t0: int, t1: int)

  /** A word and its times in the whole recording, in milliseconds before they are rounded to seconds. */
  datatype Word = Word(text: string, start: int, end: int)

  /** The text as it is shown: a mark is a space. */
  function Shown(s: string): string { if s == "" then "" else Shown(s[..|s| - 1]) + [if s[|s| - 1] == MARK then ' ' else s[|s| - 1]] }

  predicate StartsWord(t: Token) { t.text != "" && t.text[0] == MARK }

  function TextOf(tokens: seq<Token>): string {
    if tokens == [] then "" else TextOf(tokens[..|tokens| - 1]) + Shown(tokens[|tokens| - 1].text)
  }

  // ---- the groups -------------------------------------------------------------------------

  /** The tokens in groups, the last one still open. */
  function Groups(tokens: seq<Token>): (groups: seq<seq<Token>>)
    ensures groups != [] && (tokens != [] ==> groups[|groups| - 1] != [])
  {
    if tokens == [] then [[]] else Join(Groups(tokens[..|tokens| - 1]), tokens[|tokens| - 1])
  }

  function Join(groups: seq<seq<Token>>, t: Token): (joined: seq<seq<Token>>)
    requires groups != []
    ensures joined != [] && joined[|joined| - 1] != []
  {
    var last := groups[|groups| - 1];
    if StartsWord(t) && Strip(TextOf(last)) != "" then groups + [[t]] else groups[..|groups| - 1] + [last + [t]]
  }

  function Earliest(tokens: seq<Token>): int
    requires tokens != []
  {
    var t := tokens[|tokens| - 1].t0;
    if |tokens| == 1 then t
    else
      var e := Earliest(tokens[..|tokens| - 1]);
      if t < e then t else e
  }

  function Latest(tokens: seq<Token>): int
    requires tokens != []
  {
    var t := tokens[|tokens| - 1].t1;
    if |tokens| == 1 then t
    else
      var e := Latest(tokens[..|tokens| - 1]);
      if t > e then t else e
  }

  /** What a group is written as: nothing when there is nothing to be seen of it. */
  function WordOf(group: seq<Token>, offset: int): seq<Word> {
    if group == [] || Strip(TextOf(group)) == "" then []
    else [Word(Strip(TextOf(group)), offset + Earliest(group), offset + Latest(group))]
  }

  function WordsOf(groups: seq<seq<Token>>, offset: int): seq<Word> {
    if groups == [] then [] else WordsOf(groups[..|groups| - 1], offset) + WordOf(groups[|groups| - 1], offset)
  }

  lemma {:induction false} WordsOfMore(groups: seq<seq<Token>>, group: seq<Token>, offset: int)
    ensures WordsOf(groups + [group], offset) == WordsOf(groups, offset) + WordOf(group, offset)
  {
    assert (groups + [group])[..|groups|] == groups;
  }

  lemma {:induction false} OneMoreToken(group: seq<Token>, t: Token)
    ensures TextOf(group + [t]) == TextOf(group) + Shown(t.text)
    ensures Earliest(group + [t]) == (if group == [] || t.t0 < Earliest(group) then t.t0 else Earliest(group))
    ensures Latest(group + [t]) == (if group == [] || t.t1 > Latest(group) then t.t1 else Latest(group))
  {
    assert (group + [t])[..|group|] == group;
  }

  lemma {:induction false} NextGroups(tokens: seq<Token>, k: nat, done: seq<seq<Token>>, open: seq<Token>)
    requires k < |tokens| && Groups(tokens[..k]) == done + [open]
    ensures Groups(tokens[..k + 1]) ==
      if StartsWord(tokens[k]) && Strip(TextOf(open)) != "" then done + [open] + [[tokens[k]]] else done + [open + [tokens[k]]]
  {
    assert tokens[..k + 1][..k] == tokens[..k];
    assert (done + [open])[..|done|] == done;
  }

  /** `_words_from_tokens`. */
  method WordsFromTokens(tokens: seq<Token>, offset: int) returns (words: seq<Word>)
    ensures words == WordsOf(Groups(tokens), offset)
  {
    hide Groups, Strip, TextOf, Shown, Earliest, Latest;
    words := [];
    var cur, t0, t1 := "", 0, 0;
    var any := false;
    ghost var done: seq<seq<Token>>, open: seq<Token> := [], [];
    NoGroups();
    assert tokens[..0] == [] && Groups(tokens[..0]) == done + [open];
    for k := 0 to |tokens|
      invariant Groups(tokens[..k]) == done + [open] && words == WordsOf(done, offset)
      invariant cur == TextOf(open) && any == (open != [])
      invariant any ==> t0 == Earliest(open) && t1 == Latest(open)
      invariant !any ==> Strip(cur) == ""
    {
      var tok := tokens[k];
      NextGroups(tokens, k, done, open);
      if StartsWord(tok) && Strip(cur) != "" {
        WordsOfMore(done, open, offset);
        words := words + [Word(Strip(cur), offset + t0, offset + t1)];
        cur, any := "", false;
        done, open := done + [open], [];
        NoGroups();
      }
      OneMoreToken(open, tok);
      cur := cur + Shown(tok.text);
      t0 := if !any || tok.t0 < t0 then tok.t0 else t0;
      t1 := if !any || tok.t1 > t1 then tok.t1 else t1;
      any := true;
      open := open + [tok];
      assert [] + [tok] == [tok];
    }
    assert tokens[..|tokens|] == tokens;
    WordsOfMore(done, open, offset);
    if Strip(cur) != "" { words := words + [Word(Strip(cur), offset + t0, offset + t1)]; }
  }

  lemma {:induction false} NoGroups()
    ensures Groups([]) == [[]] && TextOf([]) == "" && Strip("") == ""
  {
  }

  // ---- nothing is lost, and the cuts are where words begin ------------------------------------

  function Flat(groups: seq<seq<Token>>): seq<Token> {
    if groups == [] then [] else Flat(groups[..|groups| - 1]) + groups[|groups| - 1]
  }

  /** The text begins with the word mark. */
  predicate Marked(text: string) { "\U{2581}" <= text }

  /** A cut stands before a word mark, with something to be seen before it. */
  predicate CutAt(groups: seq<seq<Token>>, i: nat)
    requires 0 < i < |groups|
  {
    groups[i] != [] && Marked(groups[i][0].text) && Strip(TextOf(groups[i - 1])) != ""
  }

  /** Nothing is to be seen before a word mark that is passed over. */
  predicate Whole(group: seq<Token>) { forall j :: 0 < j < |group| && Marked(group[j].text) ==> Strip(TextOf(group[..j])) == "" }

  predicate CutAtWords(groups: seq<seq<Token>>) {
    (forall i :: 0 < i < |groups| ==> CutAt(groups, i)) && forall i :: 0 <= i < |groups| ==> Whole(groups[i])
  }

  /** The groups are the tokens, in order, cut exactly where a word begins. */
  lemma {:induction false} GroupsAreTheTokens(tokens: seq<Token>)
    ensures Flat(Groups(tokens)) == tokens && CutAtWords(Groups(tokens))
    decreases |tokens|
  {
    if tokens == [] {
      assert Flat([[]]) == [];
    } else {
      var most, t := tokens[..|tokens| - 1], tokens[|tokens| - 1];
      assert tokens == most + [t];
      GroupsAreTheTokens(most);
      JoinKeeps(Groups(most), t);
    }
  }

  lemma {:induction false} WholePlus(group: seq<Token>, t: Token)
    requires Whole(group) && (StartsWord(t) ==> Strip(TextOf(group)) == "")
    ensures Whole(group + [t])
  {
    forall j | 0 < j < |group + [t]| && StartsWord((group + [t])[j])
      ensures Strip(TextOf((group + [t])[..j])) == ""
    {
      assert (group + [t])[..j] == group[..j];
      assert j == |group| ==> group[..j] == group;
    }
  }

  lemma {:induction false} FlatOfMore(groups: seq<seq<Token>>, group: seq<Token>)
    ensures Flat(groups + [group]) == Flat(groups) + group
  {
    assert (groups + [group])[..|groups|] == groups;
  }

  lemma {:induction false} JoinKeeps(groups: seq<seq<Token>>, t: Token)
    requires groups != [] && CutAtWords(groups)
    ensures Flat(Join(groups, t)) == Flat(groups) + [t] && CutAtWords(Join(groups, t))
  {
    hide Flat, TextOf, Strip;
    var n := |groups| - 1;
    var most, last, joined := groups[..n], groups[n], Join(groups, t);
    assert groups == most + [last];
    FlatOfMore(most, last);
    if StartsWord(t) && Strip(TextOf(last)) != "" {
      FlatOfMore(groups, [t]);
      assert Whole([t]);
      forall i | 0 < i < |joined|
        ensures CutAt(joined, i)
      {
        if i <= n { assert CutAt(groups, i); }
      }
    } else {
      FlatOfMore(most, last + [t]);
      assert Flat(most) + (last + [t]) == Flat(most) + last + [t];
      WholePlus(last, t);
      forall i | 0 < i < |joined|
        ensures CutAt(joined, i)
      {
        assert CutAt(groups, i);
      }
    }
  }

  /** What is to be seen of a text. */
  function Seen(s: string): string {
    if s == "" then "" else Seen(s[..|s| - 1]) + if White(s[|s| - 1]) then "" else [s[|s| - 1]]
  }

  lemma {:induction false} SeenOfBoth(a: string, b: string)
    ensures Seen(a + b) == Seen(a) + Seen(b)
    decreases |b|
  {
    if b == "" {
      assert a + b == a;
    } else {
      var m := b[..|b| - 1];
      assert (a + b)[..|a + b| - 1] == a + m;
      SeenOfBoth(a, m);
    }
  }

  lemma {:induction false} SeenOfStrip(s: string)
    ensures Seen(Strip(s)) == Seen(s)
  {
    SeenOfStripLeft(s);
    SeenOfStripRight(StripLeft(s));
  }

  lemma {:induction false} SeenOfStripLeft(s: string)
    ensures Seen(StripLeft(s)) == Seen(s)
    decreases |s|
  {
    if s != "" && White(s[0]) {
      assert s == s[..1] + s[1..];
      SeenOfBoth(s[..1], s[1..]);
      assert s[..1][..0] == "";
      assert Seen(s[..1]) == "";
      SeenOfStripLeft(s[1..]);
    }
  }

  lemma {:induction false} SeenOfStripRight(s: string)
    ensures Seen(StripRight(s)) == Seen(s)
    decreases |s|
  {
    if s != "" && White(s[|s| - 1]) { SeenOfStripRight(s[..|s| - 1]); }
  }

  function SeenOfWords(words: seq<Word>): string {
    if words == [] then "" else SeenOfWords(words[..|words| - 1]) + Seen(words[|words| - 1].text)
  }

  lemma {:induction false} SeenOfMoreWords(words: seq<Word>, more: seq<Word>)
    requires |more| <= 1
    ensures SeenOfWords(words + more) == SeenOfWords(words) + if more == [] then "" else Seen(more[0].text)
  {
    if more == [] {
      assert words + more == words;
    } else {
      assert (words + more)[..|words|] == words;
    }
  }

  lemma {:induction false} TextOfBoth(a: seq<Token>, b: seq<Token>)
    ensures TextOf(a + b) == TextOf(a) + TextOf(b)
    decreases |b|
  {
    if b == [] {
      assert a + b == a;
    } else {
      var m := b[..|b| - 1];
      assert (a + b)[..|a + b| - 1] == a + m;
      TextOfBoth(a, m);
    }
  }

  lemma {:induction false} WordsShowGroups(groups: seq<seq<Token>>, offset: int)
    ensures SeenOfWords(WordsOf(groups, offset)) == Seen(TextOf(Flat(groups)))
    decreases |groups|
  {
    if groups != [] {
      var most, group := groups[..|groups| - 1], groups[|groups| - 1];
      WordsShowGroups(most, offset);
      SeenOfMoreWords(WordsOf(most, offset), WordOf(group, offset));
      TextOfBoth(Flat(most), group);
      SeenOfBoth(TextOf(Flat(most)), TextOf(group));
      SeenOfStrip(TextOf(group));
    }
  }

  /** The tokens' own texts, one after another. */
  function Raw(tokens: seq<Token>): string {
    if tokens == [] then "" else Raw(tokens[..|tokens| - 1]) + tokens[|tokens| - 1].text
  }

  /** Its characters that are neither blank nor a word mark. */
  function Visible(s: string): string {
    if s == "" then ""
    else
      var c := s[|s| - 1];
      Visible(s[..|s| - 1]) + if White(c) || c == MARK then "" else [c]
  }

  lemma {:induction false} VisibleOfBoth(a: string, b: string)
    ensures Visible(a + b) == Visible(a) + Visible(b)
    decreases |b|
  {
    if b == "" {
      assert a + b == a;
    } else {
      var m := b[..|b| - 1];
      assert (a + b)[..|a + b| - 1] == a + m;
      VisibleOfBoth(a, m);
    }
  }

  lemma {:induction false} ShownIsVisible(s: string)
    ensures Seen(Shown(s)) == Visible(s)
    decreases |s|
  {
    if s != "" {
      var m := s[..|s| - 1];
      ShownIsVisible(m);
      assert Shown(s)[..|Shown(s)| - 1] == Shown(m);
    }
  }

  lemma {:induction false} TextIsVisible(tokens: seq<Token>)
    ensures Seen(TextOf(tokens)) == Visible(Raw(tokens))
    decreases |tokens|
  {
    if tokens != [] {
      var most, last := tokens[..|tokens| - 1], tokens[|tokens| - 1];
      TextIsVisible(most);
      SeenOfBoth(TextOf(most), Shown(last.text));
      VisibleOfBoth(Raw(most), last.text);
      ShownIsVisible(last.text);
    }
  }

  /** The words show every character of the tokens that is neither blank nor a word mark, in order, and no other. */
  lemma {:induction false} NothingLost(tokens: seq<Token>, offset: int)
    ensures SeenOfWords(WordsOf(Groups(tokens), offset)) == Visible(Raw(tokens))
  {
    GroupsAreTheTokens(tokens);
    WordsShowGroups(Groups(tokens), offset);
    TextIsVisible(tokens);
  }

  /** A word's times are those of its tokens, and no wider. */
  lemma {:induction false} TimesAreTheTokens(group: seq<Token>)
    requires group != []
    ensures forall t :: t in group ==> Earliest(group) <= t.t0 && t.t1 <= Latest(group)
    ensures (exists t :: t in group && t.t0 == Earliest(group)) && exists t :: t in group && t.t1 == Latest(group)
    decreases |group|
  {
    var most, last := group[..|group| - 1], group[|group| - 1];
    assert group == most + [last] && last in group;
    if most != [] {
      TimesAreTheTokens(most);
      var a :| a in most && a.t0 == Earliest(most);
      var b :| b in most && b.t1 == Latest(most);
      assert a in group && b in group;
    } else {
      assert group == [last];
    }
  }

  /** The offset moves every word alike, so a piece's words stand where the piece stands in the recording. */
  lemma {:induction false} OffsetMoves(groups: seq<seq<Token>>, offset: int)
    ensures |WordsOf(groups, offset)| == |WordsOf(groups, 0)|
    ensures forall k :: 0 <= k < |WordsOf(groups, 0)| ==>
      var w := WordsOf(groups, 0)[k]; WordsOf(groups, offset)[k] == Word(w.text, offset + w.start, offset + w.end)
    decreases |groups|
  {
    if groups != [] { OffsetMoves(groups[..|groups| - 1], offset); }
  }
}
