/** The time marks of subtitles (cells/whisper_server.py, _ts; cells/transcribe_server.py, _srt_ts), from a
    time in whole milliseconds, and a reader that takes them back. */
module Timestamps {
  import opened Basics

  const HOUR := 3600000
  const MINUTE := 60000
  const SECOND := 1000

  // ---- numbers as text ----------------------------------------------------------------

  function Digit(d: nat): char
    requires d < 10
  {
    "0123456789"[d]
  }

  function Digits(n: nat): (s: string) { if n < 10 then [Digit(n)] else Digits(n / 10) + [Digit(n % 10)] }

  function Zeros(n: nat): (s: string)
    ensures |s| == n
  {
    seq(n, _ => '0')
  }

  /** "%0<width>d": the sign counts towards the width, and a longer number is not cut. */
  function Padded(n: int, width: nat): string {
    if n < 0 then
      var d := Digits(-n);
      "-" + Zeros(if |d| + 1 < width then width - 1 - |d| else 0) + d
    else
      var d := Digits(n);
      Zeros(if |d| < width then width - |d| else 0) + d
  }

  /** `_ts`: the hours take what the other parts leave, so they alone grow long or go below zero. */
  function Mark(ms: int, comma: bool): string {
    var rest := ms % HOUR;
    Padded(ms / HOUR, 2) + ":" + Padded(rest / MINUTE, 2) + ":" + Padded(rest % MINUTE / SECOND, 2)
    + (if comma then "," else ".") + Padded(rest % MINUTE % SECOND, 3)
  }

  /** `_srt_ts`: a time before the beginning is the beginning. */
  function SubtitleMark(ms: int, comma: bool): string { Mark(if ms < 0 then 0 else ms, comma) }

  // ---- text as numbers ----------------------------------------------------------------

  predicate AllDigits(s: string) { forall k :: 0 <= k < |s| ==> '0' <= s[k] <= '9' }

  function Number(s: string): nat
    requires AllDigits(s)
  {
    if s == [] then 0 else 10 * Number(s[..|s| - 1]) + (s[|s| - 1] as int - '0' as int)
  }

  function Signed(s: string): Option<int> {
    if s == [] then None
    else if s[0] == '-' then if |s| > 1 && AllDigits(s[1..]) then Some(0 - Number(s[1..])) else None
    else if AllDigits(s) then Some(Number(s)) else None
  }

  /** A mark read back: hours of any length, then two digits, two digits and three. */
  function Read(s: string): Option<int> {
    var n := |s| - 10;
    if n < 0 then None
    else
      var m, sec, ms := s[n + 1..n + 3], s[n + 4..n + 6], s[n + 7..];
      if s[n] != ':' || s[n + 3] != ':' || s[n + 6] !in ",." then None
      else if !AllDigits(m) || !AllDigits(sec) || !AllDigits(ms) || Signed(s[..n]).None? then None
      else Some(Signed(s[..n]).value * HOUR + Number(m) * MINUTE + Number(sec) * SECOND + Number(ms))
  }

  // ---- what is written reads back -----------------------------------------------------

  lemma {:induction false} DigitsRead(n: nat)
    ensures var s := Digits(n);
      && s != [] && AllDigits(s) && Number(s) == n
      && (n < 10 ==> |s| == 1) && (n < 100 ==> |s| <= 2) && (n < 1000 ==> |s| <= 3)
  {
    var s := Digits(n);
    if n < 10 {
      assert s[..0] == [];
    } else {
      DigitsRead(n / 10);
      assert s[..|s| - 1] == Digits(n / 10);
      assert s[|s| - 1] as int - '0' as int == n % 10;
    }
  }

  lemma {:induction false} ZerosRead(k: nat, s: string)
    requires AllDigits(s)
    ensures AllDigits(Zeros(k) + s) && Number(Zeros(k) + s) == Number(s)
    decreases |s|, k
  {
    var all := Zeros(k) + s;
    if s != [] {
      assert all[..|all| - 1] == Zeros(k) + s[..|s| - 1];
      ZerosRead(k, s[..|s| - 1]);
    } else if k > 0 {
      assert all[..|all| - 1] == Zeros(k - 1) + s;
      ZerosRead(k - 1, s);
    } else {
      assert all == s;
    }
  }

  lemma {:induction false} PaddedReads(n: nat, width: nat)
    ensures AllDigits(Padded(n, width)) && Number(Padded(n, width)) == n
    ensures |Padded(n, width)| >= width && |Padded(n, width)| >= 1
    ensures n < 100 && width == 2 ==> |Padded(n, width)| == 2
    ensures n < 1000 && width == 3 ==> |Padded(n, width)| == 3
  {
    hide Digits, Number;
    var d := Digits(n);
    DigitsRead(n);
    ZerosRead(if |d| < width then width - |d| else 0, d);
  }

  lemma {:induction false} HoursRead(n: int)
    ensures Signed(Padded(n, 2)) == Some(n)
    ensures |Padded(n, 2)| >= 2
  {
    var s := Padded(n, 2);
    if n >= 0 {
      PaddedReads(n, 2);
      assert s[0] in s;
    } else {
      var d := Digits(-n);
      DigitsRead(-n);
      assert s == "-" + d;
      assert s[1..] == d;
    }
  }

  lemma {:induction false} PartsRead(h: string, m: string, sec: string, t: string, point: string)
    requires Signed(h).Some? && AllDigits(m) && AllDigits(sec) && AllDigits(t)
    requires |m| == 2 && |sec| == 2 && |t| == 3 && (point == "," || point == ".")
    ensures Read(h + ":" + m + ":" + sec + point + t)
         == Some(Signed(h).value * HOUR + Number(m) * MINUTE + Number(sec) * SECOND + Number(t))
  {
    hide Signed, Number;
    var s, n := h + ":" + m + ":" + sec + point + t, |h|;
    assert s[..n] == h;
    assert s[n + 1..n + 3] == m;
    assert s[n + 4..n + 6] == sec;
    assert s[n + 7..] == t;
    assert s[n] == ':' && s[n + 3] == ':' && s[n + 6] == point[0];
  }

  lemma {:induction false} PartsAdd(ms: int)
    ensures var rest := ms % HOUR;
      && 0 <= rest / MINUTE < 100 && 0 <= rest % MINUTE / SECOND < 100 && 0 <= rest % MINUTE % SECOND < 1000
      && ms / HOUR * HOUR + rest / MINUTE * MINUTE + rest % MINUTE / SECOND * SECOND + rest % MINUTE % SECOND == ms
  {
  }

  /** Every mark reads back as the time it was made from, hours past 99 and times below zero among them. */
  lemma {:induction false} MarkReads(ms: int, comma: bool)
    ensures Read(Mark(ms, comma)) == Some(ms)
  {
    hide Padded, Read, Number, Signed;
    var rest := ms % HOUR;
    PartsAdd(ms);
    HoursRead(ms / HOUR);
    PaddedReads(rest / MINUTE, 2);
    PaddedReads(rest % MINUTE / SECOND, 2);
    PaddedReads(rest % MINUTE % SECOND, 3);
    PartsRead(Padded(ms / HOUR, 2), Padded(rest / MINUTE, 2), Padded(rest % MINUTE / SECOND, 2),
      Padded(rest % MINUTE % SECOND, 3), if comma then "," else ".");
  }

  /** So no two times share a mark, and a subtitle's mark tells every time that is not below zero. */
  lemma {:induction false} MarksDiffer(a: int, b: int, comma: bool)
    ensures Mark(a, comma) == Mark(b, comma) <==> a == b
    ensures SubtitleMark(a, comma) == SubtitleMark(b, comma) <==> a == b || (a <= 0 && b <= 0)
  {
    hide Mark, Read;
    MarkReads(a, comma);
    MarkReads(b, comma);
    MarkReads(0, comma);
  }

  /** A mark's last four characters are its comma or its point and the three digits behind, and in front stand at
      least two digits of hours: twelve characters from the beginning up to a hundred hours. */
  lemma {:induction false} MarkShape(ms: int, comma: bool)
    ensures var s := Mark(ms, comma);
      && |s| >= 12 && s[|s| - 4] == (if comma then ',' else '.')
      && (0 <= ms < 100 * HOUR ==> |s| == 12)
  {
    hide Padded;
    var rest := ms % HOUR;
    PartsAdd(ms);
    HoursRead(ms / HOUR);
    PaddedReads(rest / MINUTE, 2);
    PaddedReads(rest % MINUTE / SECOND, 2);
    PaddedReads(rest % MINUTE % SECOND, 3);
    if 0 <= ms < 100 * HOUR { PaddedReads(ms / HOUR, 2); }
  }
}
