/** Audio longer than a model's window, cut into pieces at quiet places
    (cells/transcribe_server.py, _split_at_quiet). Samples are real numbers at 16 kHz. */
module AudioSplit {
  import opened Basics

  type Samples = seq<real>

  const FRAME := 320        // 20 ms
  const BAND := 24000       // 1.5 s
  const SHORT_TAIL := 32000 // 2 s

  // ---- energy -----------------------------------------------------------------------

  function Abs(x: real): real { if x < 0.0 then -x else x }

  /** The first `n` of the 80 samples a frame is judged by: every fourth. */
  function EnergyOf(s: Samples, pos: nat, n: nat): real
    requires n > 0 ==> pos + 4 * (n - 1) < |s|
  {
    if n == 0 then 0.0 else EnergyOf(s, pos, n - 1) + Abs(s[pos + 4 * (n - 1)])
  }

  function Energy(s: Samples, pos: nat): real
    requires pos + FRAME <= |s|
  {
    EnergyOf(s, pos, 80)
  }

  /** A frame has no energy exactly when every fourth sample of it is silent. */
  lemma {:induction false} SilentIff(s: Samples, pos: nat, n: nat)
    requires n > 0 ==> pos + 4 * (n - 1) < |s|
    ensures EnergyOf(s, pos, n) >= 0.0
    ensures EnergyOf(s, pos, n) == 0.0 <==> forall j :: 0 <= j < n ==> s[pos + 4 * j] == 0.0
  {
    if n > 0 { SilentIff(s, pos, n - 1); }
  }

  /** The audio with its sign turned. */
  function Turned(s: Samples): Samples { seq(|s|, i requires 0 <= i < |s| => -s[i]) }

  lemma {:induction false} TurnedEnergy(s: Samples, pos: nat, n: nat)
    requires n > 0 ==> pos + 4 * (n - 1) < |s|
    ensures EnergyOf(Turned(s), pos, n) == EnergyOf(s, pos, n)
  {
    if n > 0 { TurnedEnergy(s, pos, n - 1); }
  }

  method MeasureEnergy(s: Samples, pos: nat) returns (energy: real)
    requires pos + FRAME <= |s|
    ensures energy == Energy(s, pos)
  {
    energy := 0.0;
    var j := 0;
    while j < FRAME
      invariant 0 <= j <= FRAME && j % 4 == 0
      invariant energy == EnergyOf(s, pos, j / 4)
    {
      energy := energy + Abs(s[pos + j]);
      j := j + 4;
    }
  }

  // ---- one cut ----------------------------------------------------------------------

  /** How many frames `range(lo, hi, frame)` visits. */
  function Count(lo: int, hi: int): nat { if lo < hi then (hi - lo + FRAME - 1) / FRAME else 0 }

  /** The quietest of the first `n` candidates, the earliest of equals. */
  function Quietest(s: Samples, lo: nat, n: nat): (k: nat)
    requires n > 0 && lo + FRAME * (n - 1) + FRAME <= |s|
    ensures k < n
  {
    if n == 1 then 0
    else
      var k := Quietest(s, lo, n - 1);
      if Energy(s, lo + FRAME * (n - 1)) < Energy(s, lo + FRAME * k) then n - 1 else k
  }

  /** No candidate is quieter, and every earlier one is louder. */
  lemma {:induction false} QuietestIs(s: Samples, lo: nat, n: nat, i: nat)
    requires n > 0 && lo + FRAME * (n - 1) + FRAME <= |s| && i < n
    ensures var k := Quietest(s, lo, n);
      && Energy(s, lo + FRAME * k) <= Energy(s, lo + FRAME * i)
      && (i < k ==> Energy(s, lo + FRAME * k) < Energy(s, lo + FRAME * i))
  {
    if n > 1 {
      QuietestIs(s, lo, n - 1, if i < n - 1 then i else 0);
    }
  }

  function Step(win: int): (step: int)
    ensures step >= 1
  {
    var step := win * 4 / 5; if step < 1 then 1 else step
  }

  function Low(start: nat, nominal: nat): int { if nominal - BAND > start + FRAME then nominal - BAND else start + FRAME }

  function High(s: Samples, nominal: nat): int { if |s| - FRAME < nominal + BAND then |s| - FRAME else nominal + BAND }

  lemma {:induction false} CandidatesInside(lo: nat, hi: int, length: nat)
    requires lo < hi <= length - FRAME
    ensures Count(lo, hi) > 0 && lo + FRAME * (Count(lo, hi) - 1) < hi
    ensures lo + FRAME * (Count(lo, hi) - 1) + FRAME <= length
    ensures hi <= lo + FRAME * Count(lo, hi)
  {
  }

  lemma {:induction false} NthCandidate(lo: int, hi: int, n: nat)
    ensures lo + FRAME * n < hi <==> n < Count(lo, hi)
  {
  }

  lemma {:induction false} OneMoreCandidate(s: Samples, lo: nat, n: nat)
    requires n > 0 && lo + FRAME * n + FRAME <= |s|
    ensures var k := Quietest(s, lo, n);
      Quietest(s, lo, n + 1) == if Energy(s, lo + FRAME * n) < Energy(s, lo + FRAME * k) then n else k
  {
  }

  /** Where a piece that starts at `start` ends: at the quietest frame near 80% of the window, or at
      80% itself when the audio leaves no frame to choose from. */
  function Cut(s: Samples, start: nat, win: int): (cut: nat)
    requires start + Step(win) < |s|
    ensures start < cut < |s|
  {
    var nominal := start + Step(win);
    var lo, hi := Low(start, nominal), High(s, nominal);
    if Count(lo, hi) == 0 then nominal
    else
      CandidatesInside(lo, hi, |s|);
      lo + FRAME * Quietest(s, lo, Count(lo, hi))
  }

  method Scan(s: Samples, lo: nat, hi: int, nominal: nat) returns (cut: nat)
    requires hi <= |s| - FRAME
    ensures Count(lo, hi) == 0 ==> cut == nominal
    ensures Count(lo, hi) > 0 ==> lo + FRAME * (Count(lo, hi) - 1) + FRAME <= |s| && cut == lo + FRAME * Quietest(s, lo, Count(lo, hi))
  {
    cut := nominal;
    var best: Option<real> := None;
    var pos := lo;
    ghost var n := 0;
    while pos < hi
      invariant pos == lo + FRAME * n && n <= Count(lo, hi)
      invariant n == 0 ==> best.None? && cut == nominal
      invariant n > 0 ==> lo + FRAME * (n - 1) + FRAME <= |s|
      invariant n > 0 ==> cut == lo + FRAME * Quietest(s, lo, n) && cut + FRAME <= |s| && best == Some(Energy(s, cut))
      decreases hi - pos
    {
      NthCandidate(lo, hi, n);
      var energy := MeasureEnergy(s, pos);
      if n > 0 { OneMoreCandidate(s, lo, n); }
      if best.None? || energy < best.value {
        best, cut := Some(energy), pos;
      }
      pos := pos + FRAME;
      n := n + 1;
    }
    NthCandidate(lo, hi, n);
  }

  method FindCut(s: Samples, start: nat, win: int) returns (cut: nat)
    requires start + Step(win) < |s|
    ensures cut == Cut(s, start, win)
  {
    var nominal := start + Step(win);
    cut := Scan(s, Low(start, nominal), High(s, nominal), nominal);
  }

  /** Each seam is cut at the quietest candidate frame, the earliest of equals. */
  lemma {:induction false} SeamIsQuietest(s: Samples, start: nat, win: int, i: nat)
    requires start + Step(win) < |s|
    requires var nominal := start + Step(win); i < Count(Low(start, nominal), High(s, nominal))
    ensures var lo := Low(start, start + Step(win)); var cut := Cut(s, start, win);
      && cut + FRAME <= |s| && lo + FRAME * i + FRAME <= |s|
      && Energy(s, cut) <= Energy(s, lo + FRAME * i)
      && (lo + FRAME * i < cut ==> Energy(s, cut) < Energy(s, lo + FRAME * i))
  {
    var nominal := start + Step(win);
    var lo, hi := Low(start, nominal), High(s, nominal);
    CandidatesInside(lo, hi, |s|);
    QuietestIs(s, lo, Count(lo, hi), i);
  }

  lemma {:induction false} TurnedQuietest(s: Samples, lo: nat, n: nat)
    requires n > 0 && lo + FRAME * (n - 1) + FRAME <= |s|
    ensures Quietest(Turned(s), lo, n) == Quietest(s, lo, n)
  {
    if n > 1 {
      TurnedQuietest(s, lo, n - 1);
      TurnedEnergy(s, lo + FRAME * (n - 1), 80);
      TurnedEnergy(s, lo + FRAME * Quietest(s, lo, n - 1), 80);
    }
  }

  /** What counts is how loud a sample is, not its sign: audio turned over is cut at the same places. */
  lemma {:induction false} TurnedCut(s: Samples, start: nat, win: int)
    requires start + Step(win) < |s|
    ensures Cut(Turned(s), start, win) == Cut(s, start, win)
  {
    hide Quietest, Energy;
    var nominal := start + Step(win);
    var lo, hi := Low(start, nominal), High(s, nominal);
    if Count(lo, hi) > 0 {
      CandidatesInside(lo, hi, |s|);
      TurnedQuietest(s, lo, Count(lo, hi));
    }
  }

  // ---- the pieces -------------------------------------------------------------------

  function Pieces(s: Samples, start: nat, win: int): seq<Samples>
    requires start <= |s|
    decreases |s| - start
  {
    if start == |s| then []
    else if start + Step(win) >= |s| then [s[start..]]
    else
      var cut := Cut(s, start, win);
      [s[start..cut]] + Pieces(s, cut, win)
  }

  /** A tail under 2 s joins the piece before it when both fit the window. */
  function FoldTail(out: seq<Samples>, win: int): seq<Samples> {
    var n := |out|;
    if n > 1 && |out[n - 1]| < SHORT_TAIL && |out[n - 2]| + |out[n - 1]| <= win
    then out[..n - 2] + [out[n - 2] + out[n - 1]]
    else out
  }

  function Split(s: Samples, win: int): seq<Samples> {
    if win <= 0 || |s| <= win then [s] else FoldTail(Pieces(s, 0, win), win)
  }

  /** `_split_at_quiet`. */
  method SplitAtQuiet(s: Samples, win: int) returns (out: seq<Samples>)
    ensures out == Split(s, win)
  {
    if win <= 0 || |s| <= win { return [s]; }
    out := [];
    var start := 0;
    while start < |s|
      invariant start <= |s|
      invariant out + Pieces(s, start, win) == Pieces(s, 0, win)
      invariant forall p :: p in out ==> p != []
      decreases |s| - start
    {
      var nominal := start + Step(win);
      if nominal >= |s| {
        out := out + [s[start..]];
        break;
      }
      var cut := FindCut(s, start, win);
      Associative(out, [s[start..cut]], Pieces(s, cut, win));
      out := out + [s[start..cut]];
      start := cut;
    }
    assert out == Pieces(s, 0, win);
    out := Fold(out, win);
  }

  /** The tail is taken off first, then joined to the piece that is last without it. */
  method Fold(pieces: seq<Samples>, win: int) returns (out: seq<Samples>)
    ensures out == FoldTail(pieces, win)
  {
    out := pieces;
    var n := |out|;
    if n > 1 && |out[n - 1]| < SHORT_TAIL && |out[n - 2]| + |out[n - 1]| <= win {
      var tail := out[n - 1];
      out := out[..n - 1];
      out := out[n - 2 := out[n - 2] + tail];
    }
  }

  // ---- nothing is lost --------------------------------------------------------------

  function Concat(pieces: seq<Samples>): Samples {
    if pieces == [] then [] else pieces[0] + Concat(pieces[1..])
  }

  lemma {:induction false} ConcatBoth(a: seq<Samples>, b: seq<Samples>)
    ensures Concat(a + b) == Concat(a) + Concat(b)
  {
    if a == [] {
      assert a + b == b;
    } else {
      assert (a + b)[1..] == a[1..] + b;
      ConcatBoth(a[1..], b);
    }
  }

  lemma {:induction false} PiecesAreTheRest(s: Samples, start: nat, win: int)
    requires start <= |s|
    ensures Concat(Pieces(s, start, win)) == s[start..]
    ensures forall p :: p in Pieces(s, start, win) ==> p != []
    decreases |s| - start
  {
    if start < |s| && start + Step(win) < |s| {
      var cut := Cut(s, start, win);
      PiecesAreTheRest(s, cut, win);
      assert Pieces(s, start, win)[1..] == Pieces(s, cut, win);
      assert s[start..cut] + s[cut..] == s[start..];
    } else if start < |s| {
      assert Concat([s[start..]]) == s[start..] + Concat([]);
    }
  }

  lemma {:induction false} FoldKeeps(out: seq<Samples>, win: int)
    ensures Concat(FoldTail(out, win)) == Concat(out)
  {
    var n := |out|;
    if FoldTail(out, win) != out {
      var a, b := out[n - 2], out[n - 1];
      assert out == out[..n - 2] + [a, b];
      ConcatBoth(out[..n - 2], [a, b]);
      ConcatBoth(out[..n - 2], [a + b]);
      assert [a, b][1..] == [b] && [b][1..] == [] && [a + b][1..] == [];
    }
  }

  lemma {:induction false} FoldIsWhole(out: seq<Samples>, win: int)
    requires forall p :: p in out ==> p != []
    ensures forall p :: p in FoldTail(out, win) ==> p != []
  {
    var n := |out|;
    if FoldTail(out, win) != out {
      assert out[n - 1] in out && out[n - 1] != [];
      forall p | p in FoldTail(out, win)
        ensures p != []
      {
        if p in out[..n - 2] { assert p in out; }
      }
    }
  }

  /** The pieces, one after another, are the audio; none is empty unless the audio is. */
  lemma {:induction false} NothingLost(s: Samples, win: int)
    ensures Concat(Split(s, win)) == s
    ensures s != [] ==> forall p :: p in Split(s, win) ==> p != []
  {
    if win <= 0 || |s| <= win {
      assert [s][1..] == [];
    } else {
      var out := Pieces(s, 0, win);
      PiecesAreTheRest(s, 0, win);
      assert s[0..] == s;
      FoldKeeps(out, win);
      FoldIsWhole(out, win);
    }
  }

  // ---- how long a piece can be ------------------------------------------------------

  /** The farthest a cut can lie from its piece's start. */
  function MaxCut(win: int): nat {
    var step := Step(win);
    var lo := if step - BAND > FRAME then step - BAND else FRAME;
    lo + FRAME * ((step + BAND - lo - 1) / FRAME)
  }

  lemma {:induction false} CutAtMost(s: Samples, start: nat, win: int)
    requires start + Step(win) < |s|
    ensures Cut(s, start, win) - start <= MaxCut(win)
  {
    var nominal := start + Step(win);
    var lo, hi := Low(start, nominal), High(s, nominal);
    if Count(lo, hi) > 0 {
      CandidatesInside(lo, hi, |s|);
      var k := Quietest(s, lo, Count(lo, hi));
      assert lo + FRAME * k < nominal + BAND;
      Farthest(lo - start, k, Step(win) + BAND);
    }
  }

  lemma {:induction false} Farthest(lo: int, k: nat, limit: int)
    requires lo + FRAME * k < limit
    ensures FRAME * k <= FRAME * ((limit - lo - 1) / FRAME)
  {
  }

  lemma {:induction false} StepFits(win: int)
    requires win > 0
    ensures Step(win) <= win && Step(win) <= MaxCut(win)
  {
  }

  lemma {:induction false} PiecesAtMost(s: Samples, start: nat, win: int)
    requires start <= |s| && win > 0
    ensures forall p :: p in Pieces(s, start, win) ==> |p| <= MaxCut(win)
    decreases |s| - start
  {
    StepFits(win);
    if start < |s| && start + Step(win) < |s| {
      CutAtMost(s, start, win);
      PiecesAtMost(s, Cut(s, start, win), win);
    }
  }

  /** The audio that is loud up to the farthest candidate and silent from there. */
  function Hush(win: int): Samples { seq(MaxCut(win) + 2 * BAND, i => if i < MaxCut(win) then 1.0 else 0.0) }

  lemma {:induction false} HushEnergy(win: int, pos: nat, n: nat)
    requires n <= 80 && pos + FRAME <= |Hush(win)|
    requires pos + FRAME <= MaxCut(win) || MaxCut(win) <= pos
    ensures EnergyOf(Hush(win), pos, n) == if pos < MaxCut(win) then n as real else 0.0
  {
    if n > 0 {
      HushEnergy(win, pos, n - 1);
      assert 4 * (n - 1) < FRAME;
    }
  }

  lemma {:induction false} HushIsCutLate(win: int)
    requires win > 0
    ensures Step(win) < |Hush(win)| && Cut(Hush(win), 0, win) == MaxCut(win)
  {
    var s := Hush(win);
    var step := Step(win);
    var lo, hi := Low(0, step), High(s, step);
    assert hi == step + BAND;
    CandidatesInside(lo, hi, |s|);
    var n := Count(lo, hi);
    assert lo + FRAME * (n - 1) == MaxCut(win);
    var k := Quietest(s, lo, n);
    HushEnergy(win, MaxCut(win), 80);
    if k < n - 1 {
      HushEnergy(win, lo + FRAME * k, 80);
      QuietestIs(s, lo, n, n - 1);
      assert false;
    }
  }

  /** No piece of any audio exceeds the window, the folded tail included, exactly when no candidate
      lies past it. */
  lemma {:induction false} PiecesFitIff(win: int)
    requires win > 0
    ensures (forall s: Samples, p :: p in Split(s, win) ==> |p| <= win) <==> MaxCut(win) <= win
  {
    if MaxCut(win) <= win {
      forall s: Samples, p | p in Split(s, win)
        ensures |p| <= win
      {
        if |s| > win { PiecesAtMost(s, 0, win); }
      }
    } else {
      var s := Hush(win);
      HushIsCutLate(win);
      var out := Pieces(s, 0, win);
      assert out == [s[0..MaxCut(win)]] + Pieces(s, MaxCut(win), win);
      assert FoldTail(out, win)[0] == out[0];
      assert out[0] in Split(s, win) && |out[0]| > win;
    }
  }

  /** In samples: from 118396 on, 7.4 s in whole milliseconds; the source's own note asks for about 8 s. */
  lemma {:induction false} WindowsThatFit(win: int)
    requires win > 0
    ensures MaxCut(win) <= win <==> win >= 118396
  {
    var step := win * 4 / 5;
    if step - BAND > FRAME {
      assert MaxCut(win) == step + BAND - FRAME;
    }
  }
}
