/** A cell's weekly schedule (caravan/admin/cell_schedule.py): its windows on the clock of the week,
    and the minutes to the next one.

    Time is in whole minutes, minute 0 a Monday's midnight, with no change of the clock. */
module CellSchedule {
  import opened Basics

  const DAY := 1440
  const WEEK := 10080

  type Minute = m: int | 0 <= m < 1440

  type Weekday = d: int | 0 <= d < 7

  /** A schedule as it is kept: `days` empty means every day. */
  datatype Schedule = Schedule(enabled: bool, start: Minute, stop: Minute, days: set<Weekday>)

  // ---- keeping it -----------------------------------------------------------------

  /** A time as typed: not of the shape HH:MM, or its two numbers. */
  datatype Typed = NoTime | Time(hour: nat, minute: nat)

  datatype TypedDay = NotANumber | Number(n: int)

  datatype Payload = NotAnObject | Fields(enabled: bool, start: Option<Typed>, stop: Option<Typed>, days: Option<seq<TypedDay>>)

  datatype Refusal = NoObject | NotHHMM | OutOfRange | BadDays | StartIsStop

  datatype Result<T> = Ok(value: T) | Refused(why: Refusal)

  function MinuteOf(typed: Option<Typed>, default: Minute): Result<Minute> {
    match typed
    case None => Ok(default)
    case Some(NoTime) => Refused(NotHHMM)
    case Some(Time(hour, minute)) => if hour > 23 || minute > 59 then Refused(OutOfRange) else Ok(hour * 60 + minute)
  }

  function DaysOf(typed: seq<TypedDay>): set<Weekday> {
    set i | 0 <= i < |typed| && typed[i].Number? && 0 <= typed[i].n <= 6 :: typed[i].n
  }

  /** normalize_schedule: 22:00 to 08:00 unless said; days outside the week are passed over. */
  function Normalize(p: Payload): (r: Result<Schedule>)
    ensures r.Ok? && r.value.enabled ==> r.value.start != r.value.stop
  {
    if p.NotAnObject? then Refused(NoObject)
    else if p.days.Some? && exists i :: 0 <= i < |p.days.value| && p.days.value[i].NotANumber? then Refused(BadDays)
    else
      var days := if p.days.Some? then DaysOf(p.days.value) else {};
      match (MinuteOf(p.start, 1320), MinuteOf(p.stop, 480))
      case (Ok(start), Ok(stop)) =>
        if p.enabled && start == stop then Refused(StartIsStop) else Ok(Schedule(p.enabled, start, stop, days))
      case (Refused(why), _) => Refused(why)
      case (Ok(_), Refused(why)) => Refused(why)
  }

  /** A time as typed lies in the day, or none was typed. */
  predicate InDay(typed: Option<Typed>) { typed.Some? ==> typed.value.Time? && typed.value.hour < 24 && typed.value.minute < 60 }

  /** What a schedule is kept as, and when it is kept at all. */
  lemma {:induction false} NormalizeIff(p: Payload)
    ensures Normalize(p).Ok? <==>
      && p.Fields? && InDay(p.start) && InDay(p.stop)
      && (p.days.Some? ==> forall i :: 0 <= i < |p.days.value| ==> p.days.value[i].Number?)
      && !(p.enabled && MinuteTyped(p.start, 22) == MinuteTyped(p.stop, 8))
    ensures Normalize(p).Ok? ==> var s := Normalize(p).value;
      && s.enabled == p.enabled && s.start == MinuteTyped(p.start, 22) && s.stop == MinuteTyped(p.stop, 8)
      && forall d: Weekday :: d in s.days <==> p.days.Some? && Number(d) in p.days.value
  {
    if Normalize(p).Ok? && p.days.Some? {
      forall d: Weekday
        ensures d in Normalize(p).value.days <==> Number(d) in p.days.value
      {
        if Number(d) in p.days.value {
          var i :| 0 <= i < |p.days.value| && p.days.value[i] == Number(d);
        }
      }
    }
  }

  /** The minute of the day that was typed, or the hour that stands when none was. */
  function MinuteTyped(typed: Option<Typed>, hour: int): int {
    if typed.Some? && typed.value.Time? then 60 * typed.value.hour + typed.value.minute else 60 * hour
  }

  function Typing(m: Minute): Option<Typed> { Some(Time(m / 60, m % 60)) }

  /** What was kept is kept again as it is, its days in any order and as often as they are named. */
  lemma {:induction false} KeptAgain(p: Payload, days: seq<TypedDay>)
    requires Normalize(p).Ok? && DaysOf(days) == Normalize(p).value.days
    requires forall i :: 0 <= i < |days| ==> days[i].Number?
    ensures var s := Normalize(p).value;
      Normalize(Fields(s.enabled, Typing(s.start), Typing(s.stop), Some(days))) == Normalize(p)
  {
  }

  // ---- the clock ------------------------------------------------------------------

  function DayOf(t: int): Weekday { (t / DAY) % 7 }

  function MinuteOfDay(t: int): Minute { t % DAY }

  function Days(s: Schedule): set<Weekday> {
    if s.days == {} then {0, 1, 2, 3, 4, 5, 6} else s.days
  }

  /** in_window, by the day and the minute the clock shows. */
  predicate InWindow(s: Schedule, day: Weekday, cur: Minute) {
    if s.start == s.stop then false
    else if s.start < s.stop then day in Days(s) && s.start <= cur < s.stop
    else (day in Days(s) && cur >= s.start) || ((day - 1) % 7 in Days(s) && cur < s.stop)
  }

  predicate OpenAt(s: Schedule, t: int) { InWindow(s, DayOf(t), MinuteOfDay(t)) }

  /** A window opens at `o`. */
  predicate Opening(s: Schedule, o: int) { DayOf(o) in Days(s) && MinuteOfDay(o) == s.start }

  /** How long a window stays open; not at all when start and stop are the same. */
  function Length(s: Schedule): Minute { (s.stop - s.start) % DAY }

  predicate InWindowFrom(s: Schedule, o: int, t: int) { Opening(s, o) && o <= t < o + Length(s) }

  // ---- windows --------------------------------------------------------------------

  lemma {:induction false} DayAndMinute(t: int)
    ensures t == (t / DAY) * DAY + MinuteOfDay(t)
  {
  }

  lemma {:induction false} LengthIs(s: Schedule)
    ensures Length(s) == if s.start <= s.stop then s.stop - s.start else s.stop - s.start + DAY
  {
    if s.start > s.stop {
      assert (s.stop - s.start + DAY) % DAY == s.stop - s.start + DAY;
      assert (s.stop - s.start) % DAY == (s.stop - s.start + DAY) % DAY;
    }
  }

  /** The opening a minute would belong to: today's, or yesterday's before today's start. */
  function LastStart(s: Schedule, t: int): int {
    if MinuteOfDay(t) >= s.start then (t / DAY) * DAY + s.start else (t / DAY - 1) * DAY + s.start
  }

  lemma {:induction false} LastStartIs(s: Schedule, t: int)
    ensures var o := LastStart(s, t);
      && o <= t < o + DAY && MinuteOfDay(o) == s.start
      && o / DAY == (if MinuteOfDay(t) >= s.start then t / DAY else t / DAY - 1)
      && DayOf(o) == (if MinuteOfDay(t) >= s.start then DayOf(t) else (DayOf(t) - 1) % 7)
  {
    DayAndMinute(t);
    var d := if MinuteOfDay(t) >= s.start then t / DAY else t / DAY - 1;
    DivMod(d, s.start);
    assert (t / DAY - 1) % 7 == (DayOf(t) - 1) % 7;
  }

  lemma {:induction false} DivMod(d: int, m: Minute)
    ensures (d * DAY + m) / DAY == d && (d * DAY + m) % DAY == m
  {
  }

  /** Minutes at the same minute of the day are whole days apart. */
  lemma {:induction false} OneStartADay(s: Schedule, o: int, t: int)
    requires MinuteOfDay(o) == s.start && o <= t < o + DAY
    ensures o == LastStart(s, t)
  {
    DayAndMinute(o);
    DayAndMinute(t);
  }

  /** in_window is true exactly inside [opening, opening + length) for an opening on an enabled day; where no day
      is named each is enabled. */
  lemma {:induction false} InWindowIff(s: Schedule, t: int)
    ensures OpenAt(s, t) <==> exists o :: InWindowFrom(s, o, t)
    ensures Opening(s, t) <==> (s.days == {} || (t / 1440) % 7 in s.days) && t % 1440 == s.start
  {
    LengthIs(s);
    LastStartIs(s, t);
    DayAndMinute(t);
    var o := LastStart(s, t);
    DayAndMinute(o);
    if OpenAt(s, t) {
      assert InWindowFrom(s, o, t);
    }
    if p :| InWindowFrom(s, p, t) {
      OneStartADay(s, p, t);
    }
  }

  /** No minute lies in two windows. */
  lemma {:induction false} OneWindow(s: Schedule, o: int, p: int, t: int)
    requires InWindowFrom(s, o, t) && InWindowFrom(s, p, t)
    ensures o == p
  {
    OneStartADay(s, o, t);
    OneStartADay(s, p, t);
  }

  /** The week comes round: what is open, and what opens, is a matter of the minute of the week. */
  lemma {:induction false} WeekRepeats(s: Schedule, t: int, weeks: int)
    ensures OpenAt(s, t + weeks * WEEK) == OpenAt(s, t) && Opening(s, t + weeks * WEEK) == Opening(s, t)
  {
    DayAndMinute(t);
    assert t + weeks * WEEK == (t / DAY + weeks * 7) * DAY + MinuteOfDay(t);
    DivMod(t / DAY + weeks * 7, MinuteOfDay(t));
    SevenDays(t / DAY, weeks);
  }

  lemma {:induction false} SevenDays(d: int, weeks: int)
    ensures (d + weeks * 7) % 7 == d % 7
  {
  }

  // ---- the next opening -------------------------------------------------------------

  /** `o` is the next opening at or after `t`. */
  ghost predicate NextOpening(s: Schedule, t: int, o: int) {
    t <= o && Opening(s, o) && forall u :: t <= u < o ==> !Opening(s, u)
  }

  /** A day, counted from the epoch, the schedule runs on. */
  predicate RunsOn(s: Schedule, d: int) { d % 7 in Days(s) }

  lemma {:induction false} OpeningIsOnADay(s: Schedule, o: int)
    requires Opening(s, o)
    ensures RunsOn(s, o / DAY) && o == (o / DAY) * DAY + s.start
  {
    DayAndMinute(o);
  }

  lemma {:induction false} DayOpens(s: Schedule, d: int)
    requires RunsOn(s, d)
    ensures Opening(s, d * DAY + s.start)
  {
    DivMod(d, s.start);
  }

  /** The first running day from today whose start is not behind us. */
  lemma {:induction false} FirstDayIsNext(s: Schedule, t: int, d: int)
    requires RunsOn(s, d) && t <= d * DAY + s.start
    requires forall e :: t / DAY <= e < d && RunsOn(s, e) ==> e * DAY + s.start < t
    ensures NextOpening(s, t, d * DAY + s.start)
  {
    DayOpens(s, d);
    DayAndMinute(t);
    forall u | t <= u < d * DAY + s.start
      ensures !Opening(s, u)
    {
      if Opening(s, u) { OpeningIsOnADay(s, u); }
    }
  }

  lemma {:induction false} SomeDayRuns(s: Schedule, today: int)
    ensures exists d :: today < d <= today + 7 && RunsOn(s, d)
  {
    var day: Weekday := 0;
    if s.days != {} { day :| day in s.days; }
    assert day in Days(s);
    var d := today + 1 + (day - today - 1) % 7;
    assert (today + 1 + (day - today - 1) % 7) % 7 == (today + 1 + (day - today - 1)) % 7 == day;
    assert RunsOn(s, d);
  }

  /** minutes_to_window: day by day from today; the same day again closes the week. */
  method MinutesToWindow(s: Schedule, day: Weekday, cur: Minute, ghost t: int) returns (r: Option<int>)
    requires day == DayOf(t) && cur == MinuteOfDay(t)
    ensures r.None? <==> s.start == s.stop
    ensures r.Some? ==> NextOpening(s, t, t + r.value) && 0 <= r.value < WEEK
  {
    if s.start == s.stop { return None; }
    ghost var today := t / DAY;
    DayAndMinute(t);
    for ahead := 0 to 8
      invariant forall e :: today <= e < today + ahead && RunsOn(s, e) ==> e * DAY + s.start < t
    {
      assert (day + ahead) % 7 == (today + ahead) % 7;
      if (day + ahead) % 7 !in Days(s) { continue; }
      var left := ahead * DAY + s.start - cur;
      assert RunsOn(s, today + ahead);
      assert t + left == (today + ahead) * DAY + s.start;
      if left >= 0 {
        FirstDayIsNext(s, t, today + ahead);
        if ahead == 7 {
          assert today % 7 == (today + 7) % 7;
          assert RunsOn(s, today);
        }
        return Some(left);
      }
    }
    SomeDayRuns(s, today);
    assert false;
    r := None;
  }

  lemma {:induction false} NextIsUnique(s: Schedule, t: int, o: int, p: int)
    requires NextOpening(s, t, o) && NextOpening(s, t, p)
    ensures o == p
  {
  }

  /** Until it opens, the next window stays the next one; later it can only be a later one. */
  lemma {:induction false} NextAsTimeGoes(s: Schedule, t: int, u: int, o: int, p: int)
    requires t <= u && NextOpening(s, t, o) && NextOpening(s, u, p)
    ensures u <= o ==> p == o
    ensures o <= p
  {
  }

  /** The minute a window opens it is open: a fetch is always for a window still to come. */
  lemma {:induction false} OpenWhenItOpens(s: Schedule, t: int)
    requires Opening(s, t) && s.start != s.stop
    ensures OpenAt(s, t)
  {
    LengthIs(s);
    assert InWindowFrom(s, t, t);
    InWindowIff(s, t);
  }
}
