/** The once-a-minute tick that starts and stops scheduled cells and fetches their models
    (caravan/admin/cell_schedule.py). It acts on the edges of a window only, remembered on the
    cell's slot. */
module CellScheduler {
  import opened Basics
  import opened CellSchedule

  /** The minutes before an opening in which a tick fetches. */
  const PREFETCH_MIN := 30

  /** `schedState`: the window state last applied, "on" or "off"; never, when the edges are armed. */
  datatype Applied = Never | On | Off

  function Side(open: bool): Applied { if open then On else Off }

  /** What the tick keeps on a slot: the window state it applied last, and the opening it fetched for. */
  datatype Memory = Memory(state: Applied, fetched: Option<int>)

  datatype Act = Start | Stop | Fetch(opens: int)

  // ---- one tick of one slot ---------------------------------------------------------

  ghost function NextOf(s: Schedule, t: int): (o: int)
    requires s.start != s.stop
    ensures NextOpening(s, t, o)
  {
    NextExists(s, t);
    var o :| NextOpening(s, t, o);
    o
  }

  lemma {:induction false} NextExists(s: Schedule, t: int)
    ensures exists o :: NextOpening(s, t, o)
  {
    SomeDayRuns(s, t / DAY);
    var d :| t / DAY < d <= t / DAY + 7 && RunsOn(s, d);
    DayAndMinute(t);
    EarliestDay(s, t, t / DAY, d);
  }

  lemma {:induction false} EarliestDay(s: Schedule, t: int, from: int, d: int)
    requires t / DAY <= from <= d && RunsOn(s, d) && t <= d * DAY + s.start
    requires forall e :: t / DAY <= e < from && RunsOn(s, e) ==> e * DAY + s.start < t
    ensures exists o :: NextOpening(s, t, o)
    decreases d - from
  {
    if RunsOn(s, from) && t <= from * DAY + s.start {
      FirstDayIsNext(s, t, from);
    } else {
      EarliestDay(s, t, from + 1, d);
    }
  }

  /** Whether the tick fetches: out of the window, an opening near, not the one it fetched for last. */
  ghost predicate Fetches(s: Schedule, m: Memory, t: int)
    requires s.start != s.stop
  {
    !OpenAt(s, t) && NextOf(s, t) - t <= PREFETCH_MIN && m.fetched != Some(NextOf(s, t))
  }

  /** What a tick leaves on the slot. */
  ghost function After(s: Schedule, m: Memory, t: int): Memory {
    if !s.enabled then m.(state := Never)
    else
      Memory(Side(OpenAt(s, t)),
             if s.start != s.stop && Fetches(s, m, t) then Some(NextOf(s, t)) else m.fetched)
  }

  /** What it does: a fetch first, then a start or a stop on an edge; an edge first seen closed is
      only remembered. */
  ghost function Acts(s: Schedule, m: Memory, t: int): seq<Act> {
    if !s.enabled then []
    else
      (if s.start != s.stop && Fetches(s, m, t) then [Fetch(NextOf(s, t))] else []) + Edge(m.state, OpenAt(s, t))
  }

  function Edge(last: Applied, want: bool): seq<Act> {
    if last == Side(want) then []
    else if last.Never? && !want then []
    else if want then [Start] else [Stop]
  }

  class Slot {
    var schedule: Schedule
    var schedState: Applied
    var schedFetch: Option<int>
    /** What was asked of the cell's scout, in order; a refusal changes nothing here. */
    var done: seq<Act>

    constructor (s: Schedule)
      ensures schedule == s && Kept() == Memory(Never, None) && done == []
    {
      schedule := s;
      schedState := Never;
      schedFetch := None;
      done := [];
    }

    function Kept(): Memory
      reads this
    {
      Memory(schedState, schedFetch)
    }

    /** set_cell_schedule: a schedule that is refused changes nothing; one kept re-arms the edges. */
    method SetSchedule(p: Payload) returns (r: Result<Schedule>)
      modifies this
      ensures r == Normalize(p) && done == old(done)
      ensures r.Ok? ==> schedule == r.value && Kept() == old(Kept()).(state := Never)
      ensures r.Refused? ==> schedule == old(schedule) && Kept() == old(Kept())
    {
      r := Normalize(p);
      if r.Ok? {
        schedule := r.value;
        schedState := Never;
      }
    }

    /** prefetch_tick; true when the slot changed. */
    method PrefetchTick(day: Weekday, cur: Minute, ghost t: int, now: int) returns (changed: bool)
      requires day == DayOf(t) && cur == MinuteOfDay(t) && now == t && !OpenAt(schedule, t)
      modifies this
      ensures schedule == old(schedule) && schedState == old(schedState)
      ensures changed <==> schedule.start != schedule.stop && Fetches(schedule, old(Kept()), t)
      ensures changed ==> schedFetch == Some(NextOf(schedule, t)) && done == old(done) + [Fetch(NextOf(schedule, t))]
      ensures !changed ==> schedFetch == old(schedFetch) && done == old(done)
    {
      var left := MinutesToWindow(schedule, day, cur, t);
      if left.None? || left.value > PREFETCH_MIN {
        if left.Some? { NextIsUnique(schedule, t, t + left.value, NextOf(schedule, t)); }
        return false;
      }
      var opens := now + left.value;
      NextIsUnique(schedule, t, opens, NextOf(schedule, t));
      if schedFetch == Some(opens) { return false; }
      schedFetch := Some(opens);
      done := done + [Fetch(opens)];
      changed := true;
    }

    /** One slot's part of scheduler_tick. */
    method Tick(now: int) returns (changed: bool)
      modifies this
      ensures schedule == old(schedule)
      ensures Kept() == After(schedule, old(Kept()), now)
      ensures done == old(done) + Acts(schedule, old(Kept()), now)
      ensures changed <==> Kept() != old(Kept())
    {
      changed := false;
      if !schedule.enabled {
        if !schedState.Never? { schedState := Never; changed := true; }
        return;
      }
      var want := InWindow(schedule, DayOf(now), MinuteOfDay(now));
      if !want {
        changed := PrefetchTick(DayOf(now), MinuteOfDay(now), now, now);
      }
      var last := schedState;
      if last == Side(want) { return; }
      schedState := Side(want);
      changed := true;
      if last.Never? && !want { return; }
      done := done + [if want then Start else Stop];
    }
  }

  /** scheduler_tick: every slot once; the state is saved when any changed. */
  method SchedulerTick(slots: seq<Slot>, now: int) returns (save: bool)
    requires forall i, j :: 0 <= i < j < |slots| ==> slots[i] != slots[j]
    modifies slots
    ensures forall s :: s in slots ==>
      && s.schedule == old(s.schedule)
      && s.Kept() == After(s.schedule, old(s.Kept()), now)
      && s.done == old(s.done) + Acts(s.schedule, old(s.Kept()), now)
    ensures save <==> exists s :: s in slots && s.Kept() != old(s.Kept())
  {
    save := false;
    for k := 0 to |slots|
      invariant forall i :: 0 <= i < k ==>
        && slots[i].schedule == old(slots[i].schedule)
        && slots[i].Kept() == After(slots[i].schedule, old(slots[i].Kept()), now)
        && slots[i].done == old(slots[i].done) + Acts(slots[i].schedule, old(slots[i].Kept()), now)
      invariant forall i :: k <= i < |slots| ==>
        slots[i].schedule == old(slots[i].schedule) && slots[i].Kept() == old(slots[i].Kept()) && slots[i].done == old(slots[i].done)
      invariant save <==> exists i :: 0 <= i < k && slots[i].Kept() != old(slots[i].Kept())
    {
      var changed := slots[k].Tick(now);
      save := save || changed;
    }
  }

  // ---- runs -------------------------------------------------------------------------

  /** What happens to one slot: ticks, and schedules set on the board. A cell started or stopped by
      hand changes nothing the tick keeps. */
  datatype Event = Tick(now: int) | Set(schedule: Schedule) | ByHand

  datatype World = World(schedule: Schedule, memory: Memory, done: seq<Act>)

  ghost function Next(w: World, e: Event): World {
    match e
    case Tick(now) =>
      World(w.schedule, After(w.schedule, w.memory, now), w.done + Acts(w.schedule, w.memory, now))
    case Set(s) => World(s, w.memory.(state := Never), w.done)
    case ByHand => w
  }

  ghost function RunFrom(w: World, events: seq<Event>): World {
    if events == [] then w else Next(RunFrom(w, events[..|events| - 1]), events[|events| - 1])
  }

  /** The starts and stops done since the edges were last armed. */
  function SinceArmed(before: seq<Act>, acts: seq<Act>): seq<Act> { before + Orders(acts) }

  function Orders(acts: seq<Act>): seq<Act> {
    if acts == [] then [] else (if acts[0].Fetch? then [] else [acts[0]]) + Orders(acts[1..])
  }

  ghost function ArmedActs(w: World, events: seq<Event>): seq<Act> {
    if events == [] then []
    else
      var front := events[..|events| - 1];
      var e := events[|events| - 1];
      match e
      case Tick(now) =>
        var before := RunFrom(w, front);
        if before.schedule.enabled then SinceArmed(ArmedActs(w, front), Acts(before.schedule, before.memory, now)) else []
      case Set(_) => []
      case ByHand => ArmedActs(w, front)
  }

  /** start, stop, start, ... */
  predicate Alternates(acts: seq<Act>) {
    forall i :: 0 <= i < |acts| ==> acts[i] == if i % 2 == 0 then Start else Stop
  }

  lemma {:induction false} OrdersOfTick(s: Schedule, m: Memory, t: int)
    requires s.enabled
    ensures Orders(Acts(s, m, t)) == Edge(m.state, OpenAt(s, t))
  {
    var edge := Edge(m.state, OpenAt(s, t));
    OrdersOfEdge(m.state, OpenAt(s, t));
    if s.start != s.stop && Fetches(s, m, t) {
      assert ([Fetch(NextOf(s, t))] + edge)[1..] == edge;
    } else {
      assert [] + edge == edge;
    }
  }

  lemma {:induction false} OrdersOfEdge(last: Applied, want: bool)
    ensures Orders(Edge(last, want)) == Edge(last, want)
  {
    var edge := Edge(last, want);
    if edge != [] {
      assert edge[1..] == [];
      assert Orders([]) == [];
    }
  }

  /** Over any run, since the edges were armed: the actions alternate start, stop, start, and begin
      with a start; the last of them agrees with the state kept on the slot. */
  lemma {:induction false} ActionsAlternate(w: World, events: seq<Event>)
    requires w.memory.state.Never?
    ensures var end := RunFrom(w, events); var acts := ArmedActs(w, events);
      && Alternates(acts)
      && (end.memory.state.On? <==> |acts| % 2 == 1)
      && (end.memory.state.Never? ==> acts == [])
    decreases |events|
  {
    if events != [] {
      var front := events[..|events| - 1];
      var e := events[|events| - 1];
      ActionsAlternate(w, front);
      var before := RunFrom(w, front);
      if e.Tick? && before.schedule.enabled {
        OrdersOfTick(before.schedule, before.memory, e.now);
        var want := OpenAt(before.schedule, e.now);
        assert ArmedActs(w, events) == ArmedActs(w, front) + Edge(before.memory.state, want);
        EdgeAlternates(ArmedActs(w, front), before.memory.state, want);
      }
    }
  }

  lemma {:induction false} EdgeAlternates(acts: seq<Act>, last: Applied, want: bool)
    requires Alternates(acts) && (last.On? <==> |acts| % 2 == 1) && (last.Never? ==> acts == [])
    ensures Alternates(acts + Edge(last, want)) && (want <==> |acts + Edge(last, want)| % 2 == 1)
  {
  }

  /** After a tick of an enabled schedule the slot holds the window's state at that tick. */
  lemma {:induction false} StateIsTheWindow(w: World, now: int)
    requires w.schedule.enabled
    ensures Next(w, Tick(now)).memory.state == Side(OpenAt(w.schedule, now))
  {
  }

  /** A run of ticks on one side of the window, and whatever is done by hand between them. */
  ghost predicate Quiet(s: Schedule, open: bool, events: seq<Event>) {
    forall e :: e in events ==> e.ByHand? || (e.Tick? && OpenAt(s, e.now) == open)
  }

  /** Once the window's state was applied, nothing is started or stopped until the other edge: a
      cell stopped by hand inside its window stays stopped. */
  lemma {:induction false} ByHandStands(w: World, open: bool, events: seq<Event>)
    requires w.schedule.enabled && w.memory.state == Side(open) && Quiet(w.schedule, open, events)
    ensures var end := RunFrom(w, events);
      end.schedule == w.schedule && end.memory.state == Side(open) && Orders(end.done) == Orders(w.done)
    decreases |events|
  {
    if events != [] {
      var front := events[..|events| - 1];
      var e := events[|events| - 1];
      assert e in events;
      forall x | x in front
        ensures x in events
      {
      }
      ByHandStands(w, open, front);
      var before := RunFrom(w, front);
      if e.Tick? {
        OrdersOfTick(before.schedule, before.memory, e.now);
        OrdersOfBoth(before.done, Acts(before.schedule, before.memory, e.now));
      }
    }
  }

  lemma {:induction false} OrdersOfBoth(a: seq<Act>, b: seq<Act>)
    ensures Orders(a + b) == Orders(a) + Orders(b)
    decreases |a|
  {
    if a == [] {
      assert a + b == b;
    } else {
      assert (a + b)[1..] == a[1..] + b;
      OrdersOfBoth(a[1..], b);
    }
  }

  /** A schedule set outside its window stops nothing, however long until it opens. */
  lemma {:induction false} FirstSightingStopsNothing(w: World, s: Schedule, events: seq<Event>)
    requires s.enabled && Quiet(s, false, events)
    ensures Orders(RunFrom(Next(w, Set(s)), events).done) == Orders(w.done)
  {
    var armed := Next(w, Set(s));
    QuietUntilOpen(armed, events);
  }

  lemma {:induction false} QuietUntilOpen(w: World, events: seq<Event>)
    requires w.schedule.enabled && !w.memory.state.On? && Quiet(w.schedule, false, events)
    ensures var end := RunFrom(w, events);
      end.schedule == w.schedule && !end.memory.state.On? && Orders(end.done) == Orders(w.done)
    decreases |events|
  {
    if events != [] {
      var front := events[..|events| - 1];
      var e := events[|events| - 1];
      assert e in events;
      forall x | x in front
        ensures x in events
      {
      }
      QuietUntilOpen(w, front);
      var before := RunFrom(w, front);
      if e.Tick? {
        OrdersOfTick(before.schedule, before.memory, e.now);
        OrdersOfBoth(before.done, Acts(before.schedule, before.memory, e.now));
      }
    }
  }

  // ---- fetches ----------------------------------------------------------------------

  /** The openings a run of ticks fetched for, and when. */
  datatype Fetched = Fetched(at: int, opens: int)

  ghost function FetchesOf(s: Schedule, m: Memory, times: seq<int>): seq<Fetched>
    requires s.enabled && s.start != s.stop
  {
    if times == [] then []
    else
      var front := times[..|times| - 1];
      var t := times[|times| - 1];
      FetchesOf(s, m, front) + (if Fetches(s, MemoryAfter(s, m, front), t) then [Fetched(t, NextOf(s, t))] else [])
  }

  ghost function MemoryAfter(s: Schedule, m: Memory, times: seq<int>): Memory {
    if times == [] then m else After(s, MemoryAfter(s, m, times[..|times| - 1]), times[|times| - 1])
  }

  predicate NonDecreasing(times: seq<int>) { forall i, j :: 0 <= i < j < |times| ==> times[i] <= times[j] }

  /** What the fetches of a run keep: each is for a later window than the one before, made in the 30
      minutes before it opens, and the last of them is what the slot remembers. */
  ghost predicate FetchedOnce(s: Schedule, fetched: seq<Fetched>, remembered: Option<int>, now: int) {
    && (forall i :: 0 <= i < |fetched| ==>
          && fetched[i].at <= now && NextOpening(s, fetched[i].at, fetched[i].opens)
          && 0 < fetched[i].opens - fetched[i].at <= PREFETCH_MIN)
    && (forall i, j :: 0 <= i < j < |fetched| ==> fetched[i].opens < fetched[j].opens)
    && (if fetched == [] then remembered.None? else remembered == Some(fetched[|fetched| - 1].opens))
  }

  /** With one schedule and a clock that does not go back: a fetch at most once for each window,
      only in the 30 minutes before it opens, and done whenever a tick fell there. */
  lemma {:induction false} FetchOncePerWindow(s: Schedule, times: seq<int>)
    requires s.enabled && s.start != s.stop && times != [] && NonDecreasing(times)
    ensures var last := times[|times| - 1]; var fetched := FetchesOf(s, Memory(Never, None), times);
      && FetchedOnce(s, fetched, MemoryAfter(s, Memory(Never, None), times).fetched, last)
      && (!OpenAt(s, last) && NextOf(s, last) - last <= PREFETCH_MIN ==>
            fetched != [] && fetched[|fetched| - 1].opens == NextOf(s, last))
    decreases |times|
  {
    var m := Memory(Never, None);
    var front := times[..|times| - 1];
    var t := times[|times| - 1];
    if front != [] {
      var before := front[|front| - 1];
      assert before == times[|times| - 2] <= t;
      assert NonDecreasing(front);
      FetchOncePerWindow(s, front);
    }
    OneMoreFetch(s, FetchesOf(s, m, front), MemoryAfter(s, m, front), if front == [] then t else front[|front| - 1], t);
  }

  lemma {:induction false} OneMoreFetch(s: Schedule, fetched: seq<Fetched>, m: Memory, before: int, t: int)
    requires s.enabled && s.start != s.stop && before <= t
    requires FetchedOnce(s, fetched, m.fetched, before)
    ensures var all := fetched + (if Fetches(s, m, t) then [Fetched(t, NextOf(s, t))] else []);
      && FetchedOnce(s, all, After(s, m, t).fetched, t)
      && (!OpenAt(s, t) && NextOf(s, t) - t <= PREFETCH_MIN ==> all != [] && all[|all| - 1].opens == NextOf(s, t))
  {
    var o := NextOf(s, t);
    if Fetches(s, m, t) {
      if o == t {
        OpenWhenItOpens(s, t);
        assert false;
      }
      if fetched != [] {
        var last := fetched[|fetched| - 1];
        NextAsTimeGoes(s, last.at, t, last.opens, o);
      }
    }
  }
}
