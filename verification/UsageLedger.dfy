/** What the statistics count from the event logs (caravan/admin/cloud_api.py, usage_stats): one pass that
    fills the accounts, their models, the cloud models, the local models and the days. */
module UsageLedger {

  /** Requests, tokens in and out, and what they cost or would have cost. */
  datatype Tally = Tally(requests: int, prompt: int, completion: int, cost: real) {
    function Plus(t: Tally): Tally { Tally(requests + t.requests, prompt + t.prompt, completion + t.completion, cost + t.cost) }
  }

  const ZERO := Tally(0, 0, 0, 0.0)

  /** An account's id, a model's name or a date. */
  datatype Name = Name(text: string)

  datatype Account = Account(total: Tally, models: map<Name, Tally>)

  datatype Day = Day(cloudCost: real, cloudTokens: int, localTokens: int, localWouldCost: real)

  datatype Ledger = Ledger(accounts: map<Name, Account>, models: map<Name, Tally>, locals: map<Name, Tally>, days: map<Name, Day>)

  const EMPTY := Ledger(map[], map[], map[], map[])

  /** A finished request: its upstream type, the account and model it went to (CloudLeg), the model it
      asked for, and its usage. */
  datatype Event = Event(upstream: string, account: string, model: string, asked: string,
    prompt: int, completion: int, cacheRead: int, cacheWrite: int)

  /** A line of the log; one that is no finished request is passed over. */
  datatype Line = Finished(event: Event) | Passed

  /** A day's log, or none that can be read. */
  datatype Log = Log(date: Name, lines: seq<Line>) | Unread(date: Name)

  /** The prices: of a cloud request, and per million local tokens in and out. */
  datatype Tariff = Tariff(cost: (Name, int, int, int, int) -> real, inPrice: real, outPrice: real)

  /** Where a request is counted. */
  datatype Place = Cloud(account: Name, model: Name) | Local(model: Name) | Nowhere

  function Or(s: string, other: string): string { if s == "" then other else s }

  function PlaceOf(e: Event): Place {
    if Or(e.upstream, "llama") == "cloud" then if e.account == "" then Nowhere else Cloud(Name(e.account), Name(Or(e.model, "?")))
    else Local(Name(Or(e.asked, "(unspecified)")))
  }

  function Cost(e: Event, tariff: Tariff): real {
    if PlaceOf(e).Cloud? then tariff.cost(PlaceOf(e).model, e.prompt, e.completion, e.cacheRead, e.cacheWrite)
    else e.prompt as real / 1000000.0 * tariff.inPrice + e.completion as real / 1000000.0 * tariff.outPrice
  }

  /** What a request adds wherever it is counted. */
  function Share(e: Event, tariff: Tariff): Tally { Tally(1, e.prompt, e.completion, Cost(e, tariff)) }

  function At(m: map<Name, Tally>, k: Name): Tally { if k in m then m[k] else ZERO }

  function AccountAt(m: map<Name, Account>, k: Name): Account { if k in m then m[k] else Account(ZERO, map[]) }

  function DayAt(m: map<Name, Day>, k: Name): Day { if k in m then m[k] else Day(0.0, 0, 0, 0.0) }

  function CloudPlus(d: Day, share: Tally): Day {
    d.(cloudCost := d.cloudCost + share.cost, cloudTokens := d.cloudTokens + share.prompt + share.completion)
  }

  function LocalPlus(d: Day, share: Tally): Day {
    d.(localTokens := d.localTokens + share.prompt + share.completion, localWouldCost := d.localWouldCost + share.cost)
  }

  // ---- the pass ---------------------------------------------------------------------------

  /** A cloud request, under its account and the account's model, its model, and its day. */
  function PostCloud(l: Ledger, date: Name, account: Name, model: Name, share: Tally): Ledger {
    var a, d := AccountAt(l.accounts, account), DayAt(l.days, date);
    Ledger(l.accounts[account := Account(a.total.Plus(share), a.models[model := At(a.models, model).Plus(share)])],
      l.models[model := At(l.models, model).Plus(share)], l.locals,
      l.days[date := CloudPlus(d, share)])
  }

  /** A local request, under its model and its day. */
  function PostLocal(l: Ledger, date: Name, model: Name, share: Tally): Ledger {
    var d := DayAt(l.days, date);
    Ledger(l.accounts, l.models, l.locals[model := At(l.locals, model).Plus(share)],
      l.days[date := LocalPlus(d, share)])
  }

  function Post(l: Ledger, date: Name, e: Event, tariff: Tariff): Ledger {
    match PlaceOf(e)
    case Nowhere => l
    case Cloud(account, model) => PostCloud(l, date, account, model, Share(e, tariff))
    case Local(model) => PostLocal(l, date, model, Share(e, tariff))
  }

  function PostLines(l: Ledger, date: Name, lines: seq<Line>, tariff: Tariff): Ledger {
    if lines == [] then l
    else
      var before, line := PostLines(l, date, lines[..|lines| - 1], tariff), lines[|lines| - 1];
      if line.Finished? then Post(before, date, line.event, tariff) else before
  }

  /** A day whose log is read has its entry even when nothing is counted. */
  function Opened(l: Ledger, date: Name): Ledger { l.(days := l.days[date := DayAt(l.days, date)]) }

  function PostLogs(logs: seq<Log>, tariff: Tariff): Ledger {
    if logs == [] then EMPTY
    else
      var before, log := PostLogs(logs[..|logs| - 1], tariff), logs[|logs| - 1];
      if log.Unread? then before else PostLines(Opened(before, log.date), log.date, log.lines, tariff)
  }

  lemma {:induction false} CloudPosted(l: Ledger, date: Name, d: Day, account: Name, model: Name, share: Tally)
    ensures var a := AccountAt(l.accounts, account);
      PostCloud(l.(days := l.days[date := d]), date, account, model, share)
      == Ledger(l.accounts[account := Account(a.total.Plus(share), a.models[model := At(a.models, model).Plus(share)])],
           l.models[model := At(l.models, model).Plus(share)], l.locals, l.days[date := CloudPlus(d, share)])
  {
    hide At, AccountAt, CloudPlus;
    assert DayAt(l.days[date := d], date) == d;
  }

  lemma {:induction false} LocalPosted(l: Ledger, date: Name, d: Day, model: Name, share: Tally)
    ensures PostLocal(l.(days := l.days[date := d]), date, model, share)
         == Ledger(l.accounts, l.models, l.locals[model := At(l.locals, model).Plus(share)], l.days[date := LocalPlus(d, share)])
  {
    hide At, LocalPlus;
    assert DayAt(l.days[date := d], date) == d;
  }

  /** One log, line by line. */
  method ReadLog(l: Ledger, date: Name, lines: seq<Line>, tariff: Tariff) returns (after: Ledger)
    ensures after == PostLines(Opened(l, date), date, lines, tariff)
  {
    hide CloudPlus, LocalPlus, Share, At, AccountAt, PostCloud, PostLocal, PlaceOf;
    var accounts, models, locals := l.accounts, l.models, l.locals;
    var d := DayAt(l.days, date);
    ghost var start := Opened(l, date);
    for k := 0 to |lines|
      invariant PostLines(start, date, lines[..k], tariff) == Ledger(accounts, models, locals, l.days[date := d])
    {
      assert lines[..k + 1][..k] == lines[..k];
      if lines[k].Passed? { continue; }
      var e := lines[k].event;
      var share := Share(e, tariff);
      ghost var before := Ledger(accounts, models, locals, l.days);
      match PlaceOf(e) {
        case Nowhere =>
        case Cloud(account, model) =>
          CloudPosted(before, date, d, account, model, share);
          var a := AccountAt(accounts, account);
          accounts := accounts[account := Account(a.total.Plus(share), a.models[model := At(a.models, model).Plus(share)])];
          models := models[model := At(models, model).Plus(share)];
          d := CloudPlus(d, share);
        case Local(model) =>
          LocalPosted(before, date, d, model, share);
          locals := locals[model := At(locals, model).Plus(share)];
          d := LocalPlus(d, share);
      }
    }
    assert lines[..|lines|] == lines;
    after := Ledger(accounts, models, locals, l.days[date := d]);
  }

  /** `usage_stats`, up to the shaping of its answer: the logs of the window, the latest day first. */
  method Collect(logs: seq<Log>, tariff: Tariff) returns (l: Ledger)
    ensures l == PostLogs(logs, tariff)
  {
    l := EMPTY;
    for k := 0 to |logs|
      invariant l == PostLogs(logs[..k], tariff)
    {
      assert logs[..k + 1][..k] == logs[..k];
      if logs[k].Unread? { continue; }
      l := ReadLog(l, logs[k].date, logs[k].lines, tariff);
    }
    assert logs[..|logs|] == logs;
  }

  // ---- sums over a map ----------------------------------------------------------------------

  ghost function Sum(m: map<Name, Tally>): Tally
    decreases |m|
  {
    if m == map[] then ZERO
    else
      var k :| k in m;
      m[k].Plus(Sum(m - {k}))
  }

  /** Any entry may be taken first. */
  lemma {:induction false} SumTakes(m: map<Name, Tally>, k: Name)
    requires k in m
    ensures Sum(m) == m[k].Plus(Sum(m - {k}))
    decreases |m|
  {
    var j :| j in m && Sum(m) == m[j].Plus(Sum(m - {j}));
    if j != k {
      SumTakes(m - {j}, k);
      SumTakes(m - {k}, j);
      var rest := m - {j} - {k};
      assert rest == m - {k} - {j};
      assert Sum(m) == m[j].Plus(m[k].Plus(Sum(rest)));
      assert Sum(m - {k}) == m[j].Plus(Sum(rest));
    }
  }

  lemma {:induction false} SumPut(m: map<Name, Tally>, k: Name, share: Tally)
    ensures Sum(m[k := At(m, k).Plus(share)]) == Sum(m).Plus(share)
  {
    var after := m[k := At(m, k).Plus(share)];
    SumTakes(after, k);
    if k in m {
      SumTakes(m, k);
      assert after - {k} == m - {k};
    } else {
      assert after - {k} == m;
    }
  }

  ghost function Totals(accounts: map<Name, Account>): map<Name, Tally> { map k | k in accounts :: accounts[k].total }

  /** Tokens and cost, as a day counts them. */
  function Spend(t: Tally): Tally { Tally(0, t.prompt + t.completion, 0, t.cost) }

  function CloudOf(d: Day): Tally { Tally(0, d.cloudTokens, 0, d.cloudCost) }

  function LocalOf(d: Day): Tally { Tally(0, d.localTokens, 0, d.localWouldCost) }

  ghost function CloudDays(days: map<Name, Day>): map<Name, Tally> { map k | k in days :: CloudOf(days[k]) }

  ghost function LocalDays(days: map<Name, Day>): map<Name, Tally> { map k | k in days :: LocalOf(days[k]) }

  // ---- each figure is what happened ------------------------------------------------------

  /** The figures of the ledger, as the requests that belong to each. */
  datatype Pick = AnyCloud | AnyLocal | Counted | OfAccount(account: Name) | OfAccountModel(account: Name, model: Name)
                | OfModel(model: Name) | OfLocal(model: Name) | CloudOn(date: Name) | LocalOn(date: Name)

  /** Which requests belong to a figure, by what they say of themselves: a cloud request to its account and the
      model it went to, every other one to the model it asked for, and a cloud request without an account to none. */
  predicate Belongs(pick: Pick, e: Event, date: Name) {
    var cloud, model := e.upstream == "cloud" && e.account != "", if e.model != "" then e.model else "?";
    var local, asked := e.upstream != "cloud", if e.asked != "" then e.asked else "(unspecified)";
    match pick
    case AnyCloud => cloud
    case AnyLocal => local
    case Counted => cloud || local
    case OfAccount(a) => cloud && a.text == e.account
    case OfAccountModel(a, m) => cloud && a.text == e.account && m.text == model
    case OfModel(m) => cloud && m.text == model
    case OfLocal(m) => local && m.text == asked
    case CloudOn(d) => cloud && d == date
    case LocalOn(d) => local && d == date
  }

  /** One request, its tokens, and its price: its model's, or what its tokens would have cost at the local tariff. */
  function Spent(e: Event, tariff: Tariff): Tally {
    var million := 1000000.0;
    var price :=
      if e.upstream == "cloud" then
        tariff.cost(Name(if e.model != "" then e.model else "?"), e.prompt, e.completion, e.cacheRead, e.cacheWrite)
      else e.prompt as real / million * tariff.inPrice + e.completion as real / million * tariff.outPrice;
    Tally(1, e.prompt, e.completion, price)
  }

  /** What the ledger says. */
  ghost function View(l: Ledger, pick: Pick): Tally {
    match pick
    case AnyCloud => Sum(l.models)
    case AnyLocal => Sum(l.locals)
    case Counted => Sum(l.models).Plus(Sum(l.locals))
    case OfAccount(a) => AccountAt(l.accounts, a).total
    case OfAccountModel(a, m) => At(AccountAt(l.accounts, a).models, m)
    case OfModel(m) => At(l.models, m)
    case OfLocal(m) => At(l.locals, m)
    case CloudOn(d) => CloudOf(DayAt(l.days, d))
    case LocalOn(d) => LocalOf(DayAt(l.days, d))
  }

  /** A share as the figure counts it. */
  function Counts(pick: Pick, share: Tally): Tally { if pick.CloudOn? || pick.LocalOn? then Spend(share) else share }

  /** What happened: what the requests of a figure spent, added up. */
  function Part(e: Event, date: Name, tariff: Tariff, pick: Pick): Tally {
    if Belongs(pick, e, date) then Counts(pick, Spent(e, tariff)) else ZERO
  }

  function InLines(lines: seq<Line>, date: Name, tariff: Tariff, pick: Pick): Tally {
    if lines == [] then ZERO
    else
      var line := lines[|lines| - 1];
      InLines(lines[..|lines| - 1], date, tariff, pick).Plus(if line.Finished? then Part(line.event, date, tariff, pick) else ZERO)
  }

  function InLogs(logs: seq<Log>, tariff: Tariff, pick: Pick): Tally {
    if logs == [] then ZERO
    else
      var log := logs[|logs| - 1];
      InLogs(logs[..|logs| - 1], tariff, pick).Plus(if log.Log? then InLines(log.lines, log.date, tariff, pick) else ZERO)
  }

  lemma {:induction false} CloudAccount(l: Ledger, date: Name, account: Name, model: Name, share: Tally, a: Name, m: Name)
    ensures var after := PostCloud(l, date, account, model, share);
      && AccountAt(after.accounts, a).total == AccountAt(l.accounts, a).total.Plus(if a == account then share else ZERO)
      && At(AccountAt(after.accounts, a).models, m)
         == At(AccountAt(l.accounts, a).models, m).Plus(if a == account && m == model then share else ZERO)
  {
    hide DayAt;
  }

  lemma {:induction false} CloudModel(l: Ledger, date: Name, account: Name, model: Name, share: Tally, m: Name)
    ensures var after := PostCloud(l, date, account, model, share);
      && At(after.models, m) == At(l.models, m).Plus(if m == model then share else ZERO)
      && Sum(after.models) == Sum(l.models).Plus(share) && after.locals == l.locals
  {
    hide DayAt, AccountAt, Sum;
    SumPut(l.models, model, share);
  }

  lemma {:induction false} CloudAdds(d: Day, share: Tally)
    ensures CloudOf(CloudPlus(d, share)) == CloudOf(d).Plus(Spend(share)) && LocalOf(CloudPlus(d, share)) == LocalOf(d).Plus(ZERO)
    ensures LocalOf(LocalPlus(d, share)) == LocalOf(d).Plus(Spend(share)) && CloudOf(LocalPlus(d, share)) == CloudOf(d).Plus(ZERO)
  {
  }

  lemma {:induction false} DayPut(days: map<Name, Day>, date: Name, put: Day, d: Name)
    ensures DayAt(days[date := put], d) == if d == date then put else DayAt(days, d)
  {
  }

  lemma {:induction false} CloudDay(l: Ledger, date: Name, account: Name, model: Name, share: Tally, d: Name)
    ensures var after := PostCloud(l, date, account, model, share);
      && CloudOf(DayAt(after.days, d)) == CloudOf(DayAt(l.days, d)).Plus(if d == date then Spend(share) else ZERO)
      && LocalOf(DayAt(after.days, d)) == LocalOf(DayAt(l.days, d)).Plus(ZERO)
  {
    hide At, AccountAt, DayAt, CloudPlus, CloudOf, LocalOf, Spend;
    CloudAdds(DayAt(l.days, date), share);
    DayPut(l.days, date, CloudPlus(DayAt(l.days, date), share), d);
  }

  lemma {:induction false} LocalModel(l: Ledger, date: Name, model: Name, share: Tally, m: Name)
    ensures var after := PostLocal(l, date, model, share);
      && At(after.locals, m) == At(l.locals, m).Plus(if m == model then share else ZERO)
      && Sum(after.locals) == Sum(l.locals).Plus(share) && after.models == l.models && after.accounts == l.accounts
  {
    hide DayAt, Sum;
    SumPut(l.locals, model, share);
  }

  lemma {:induction false} LocalDay(l: Ledger, date: Name, model: Name, share: Tally, d: Name)
    ensures var after := PostLocal(l, date, model, share);
      && LocalOf(DayAt(after.days, d)) == LocalOf(DayAt(l.days, d)).Plus(if d == date then Spend(share) else ZERO)
      && CloudOf(DayAt(after.days, d)) == CloudOf(DayAt(l.days, d)).Plus(ZERO)
  {
    hide At, DayAt, LocalPlus, CloudOf, LocalOf, Spend;
    CloudAdds(DayAt(l.days, date), share);
    DayPut(l.days, date, LocalPlus(DayAt(l.days, date), share), d);
  }

  lemma {:induction false} CloudShows(l: Ledger, date: Name, e: Event, account: Name, model: Name, share: Tally, pick: Pick)
    requires PlaceOf(e) == Cloud(account, model)
    ensures View(PostCloud(l, date, account, model, share), pick)
         == View(l, pick).Plus(if Belongs(pick, e, date) then Counts(pick, share) else ZERO)
  {
    hide Sum, PostCloud, DayAt, AccountAt, At, CloudOf, LocalOf, Spend;
    match pick
    case OfAccount(a) => CloudAccount(l, date, account, model, share, a, model);
    case OfAccountModel(a, m) => CloudAccount(l, date, account, model, share, a, m);
    case OfModel(m) => CloudModel(l, date, account, model, share, m);
    case CloudOn(d) => CloudDay(l, date, account, model, share, d);
    case LocalOn(d) => CloudDay(l, date, account, model, share, d);
    case _ => CloudModel(l, date, account, model, share, model);
  }

  lemma {:induction false} LocalShows(l: Ledger, date: Name, e: Event, model: Name, share: Tally, pick: Pick)
    requires PlaceOf(e) == Local(model)
    ensures View(PostLocal(l, date, model, share), pick)
         == View(l, pick).Plus(if Belongs(pick, e, date) then Counts(pick, share) else ZERO)
  {
    hide Sum, PostLocal, DayAt, AccountAt, At, CloudOf, LocalOf, Spend;
    match pick
    case OfLocal(m) => LocalModel(l, date, model, share, m);
    case CloudOn(d) => LocalDay(l, date, model, share, d);
    case LocalOn(d) => LocalDay(l, date, model, share, d);
    case _ => LocalModel(l, date, model, share, model);
  }

  lemma {:induction false} PostShows(l: Ledger, date: Name, e: Event, tariff: Tariff, pick: Pick)
    ensures View(Post(l, date, e, tariff), pick) == View(l, pick).Plus(Part(e, date, tariff, pick))
  {
    hide View, PlaceOf, Belongs, PostCloud, PostLocal, Counts;
    SpentIsShare(e, date, tariff, pick);
    match PlaceOf(e)
    case Nowhere =>
    case Cloud(account, model) => CloudShows(l, date, e, account, model, Share(e, tariff), pick);
    case Local(model) => LocalShows(l, date, e, model, Share(e, tariff), pick);
  }

  lemma {:induction false} SpentIsShare(e: Event, date: Name, tariff: Tariff, pick: Pick)
    ensures PlaceOf(e).Nowhere? || Spent(e, tariff) == Share(e, tariff)
    ensures PlaceOf(e).Nowhere? <==> e.upstream == "cloud" && e.account == ""
    ensures PlaceOf(e).Nowhere? ==> !Belongs(pick, e, date)
  {
  }

  lemma {:induction false} LinesShow(l: Ledger, date: Name, lines: seq<Line>, tariff: Tariff, pick: Pick)
    ensures View(PostLines(l, date, lines, tariff), pick) == View(l, pick).Plus(InLines(lines, date, tariff, pick))
    decreases |lines|
  {
    hide View, Post, Part;
    if lines != [] {
      var most, line := lines[..|lines| - 1], lines[|lines| - 1];
      LinesShow(l, date, most, tariff, pick);
      if line.Finished? { PostShows(PostLines(l, date, most, tariff), date, line.event, tariff, pick); }
    }
  }

  lemma {:induction false} OpenedShows(l: Ledger, date: Name, pick: Pick)
    ensures View(Opened(l, date), pick) == View(l, pick)
  {
    hide Sum;
  }

  /** Every figure of the ledger, a day's among them, is the sum over the requests that say they belong to it, each
      at its tokens and its price, and no others. A date listed twice is read twice. */
  lemma {:induction false} FiguresAreWhatHappened(logs: seq<Log>, tariff: Tariff, pick: Pick)
    ensures View(PostLogs(logs, tariff), pick) == InLogs(logs, tariff, pick)
    decreases |logs|
  {
    if logs != [] {
      hide View, Opened, PostLines, InLines;
      var most, log := logs[..|logs| - 1], logs[|logs| - 1];
      FiguresAreWhatHappened(most, tariff, pick);
      var before := PostLogs(most, tariff);
      if log.Log? {
        OpenedShows(before, log.date, pick);
        LinesShow(Opened(before, log.date), log.date, log.lines, tariff, pick);
      }
    }
  }

  lemma {:induction false} OneMoreLine(most: seq<Line>, line: Line, date: Name, tariff: Tariff, pick: Pick)
    ensures InLines(most + [line], date, tariff, pick)
         == InLines(most, date, tariff, pick).Plus(if line.Finished? then Part(line.event, date, tariff, pick) else ZERO)
  {
    hide Part;
    assert (most + [line])[..|most|] == most;
  }

  lemma {:induction false} InLinesOf(before: seq<Line>, e: Event, after: seq<Line>, date: Name, tariff: Tariff, pick: Pick)
    ensures InLines(before + [Finished(e)] + after, date, tariff, pick)
         == InLines(before + after, date, tariff, pick).Plus(Part(e, date, tariff, pick))
    decreases |after|
  {
    hide Part, InLines;
    if after == [] {
      assert before + [Finished(e)] + after == before + [Finished(e)] && before + after == before;
      OneMoreLine(before, Finished(e), date, tariff, pick);
    } else {
      var n := |after| - 1;
      InLinesOf(before, e, after[..n], date, tariff, pick);
      assert before + [Finished(e)] + after == before + [Finished(e)] + after[..n] + [after[n]];
      assert before + after == before + after[..n] + [after[n]];
      OneMoreLine(before + [Finished(e)] + after[..n], after[n], date, tariff, pick);
      OneMoreLine(before + after[..n], after[n], date, tariff, pick);
    }
  }

  lemma {:induction false} SameLines(l: Ledger, date: Name, before: seq<Line>, e: Event, after: seq<Line>, tariff: Tariff)
    requires forall m :: Post(m, date, e, tariff) == m
    ensures PostLines(l, date, before + [Finished(e)] + after, tariff) == PostLines(l, date, before + after, tariff)
    decreases |after|
  {
    hide Post;
    if after == [] {
      assert before + [Finished(e)] + after == before + [Finished(e)] && before + after == before;
      assert (before + [Finished(e)])[..|before|] == before;
    } else {
      var n := |after| - 1;
      SameLines(l, date, before, e, after[..n], tariff);
      var with, without := before + [Finished(e)] + after, before + after;
      assert with[..|with| - 1] == before + [Finished(e)] + after[..n];
      assert without[..|without| - 1] == before + after[..n];
    }
  }

  lemma {:induction false} OneMoreCounted(before: seq<Line>, e: Event, after: seq<Line>, date: Name, tariff: Tariff)
    requires e.upstream != "cloud" || e.account != ""
    ensures InLines(before + [Finished(e)] + after, date, tariff, Counted).requests
         == InLines(before + after, date, tariff, Counted).requests + 1
  {
    hide InLines;
    InLinesOf(before, e, after, date, tariff, Counted);
  }

  lemma {:induction false} LeavesATrace(l: Ledger, date: Name, before: seq<Line>, e: Event, after: seq<Line>, tariff: Tariff)
    requires e.upstream != "cloud" || e.account != ""
    ensures PostLines(l, date, before + [Finished(e)] + after, tariff) != PostLines(l, date, before + after, tariff)
  {
    hide View, PostLines, InLines;
    LinesShow(l, date, before + [Finished(e)] + after, tariff, Counted);
    LinesShow(l, date, before + after, tariff, Counted);
    OneMoreCounted(before, e, after, date, tariff);
  }

  /** A request leaves no trace in the ledger, wherever in its log it stands, exactly when it went to the cloud
      under no account. */
  lemma {:induction false} LeavesNoTraceIff(l: Ledger, date: Name, before: seq<Line>, e: Event, after: seq<Line>, tariff: Tariff)
    ensures PostLines(l, date, before + [Finished(e)] + after, tariff) == PostLines(l, date, before + after, tariff)
       <==> e.upstream == "cloud" && e.account == ""
  {
    hide PostLines, Post;
    if e.upstream == "cloud" && e.account == "" {
      forall m ensures Post(m, date, e, tariff) == m { NowherePosts(m, date, e, tariff); }
      SameLines(l, date, before, e, after, tariff);
    } else {
      LeavesATrace(l, date, before, e, after, tariff);
    }
  }

  lemma {:induction false} NowherePosts(l: Ledger, date: Name, e: Event, tariff: Tariff)
    requires e.upstream == "cloud" && e.account == ""
    ensures Post(l, date, e, tariff) == l
  {
  }

  // ---- the views balance -------------------------------------------------------------------

  /** By account, by each account's models, by model and by day the same comes out. */
  ghost predicate Balanced(l: Ledger) {
    && Sum(Totals(l.accounts)) == Sum(l.models)
    && Kept(l.accounts)
    && Sum(CloudDays(l.days)) == Spend(Sum(l.models))
    && Sum(LocalDays(l.days)) == Spend(Sum(l.locals))
  }

  ghost predicate Kept(accounts: map<Name, Account>) { forall a :: a in accounts ==> accounts[a].total == Sum(accounts[a].models) }

  lemma {:induction false} AccountsBalance(accounts: map<Name, Account>, account: Name, model: Name, share: Tally)
    requires Kept(accounts)
    ensures var a := AccountAt(accounts, account);
      var after := accounts[account := Account(a.total.Plus(share), a.models[model := At(a.models, model).Plus(share)])];
      Sum(Totals(after)) == Sum(Totals(accounts)).Plus(share) && Kept(after)
  {
    var a := AccountAt(accounts, account);
    var after := accounts[account := Account(a.total.Plus(share), a.models[model := At(a.models, model).Plus(share)])];
    assert a.total == Sum(a.models);
    SumPut(a.models, model, share);
    hide Sum;
    assert Totals(after) == Totals(accounts)[account := At(Totals(accounts), account).Plus(share)];
    SumPut(Totals(accounts), account, share);
  }

  lemma {:induction false} DaysBalance(days: map<Name, Day>, date: Name, d: Day, cloud: Tally, local: Tally)
    requires CloudOf(d) == CloudOf(DayAt(days, date)).Plus(cloud) && LocalOf(d) == LocalOf(DayAt(days, date)).Plus(local)
    ensures Sum(CloudDays(days[date := d])) == Sum(CloudDays(days)).Plus(cloud)
    ensures Sum(LocalDays(days[date := d])) == Sum(LocalDays(days)).Plus(local)
  {
    hide Sum;
    assert CloudDays(days[date := d]) == CloudDays(days)[date := At(CloudDays(days), date).Plus(cloud)];
    assert LocalDays(days[date := d]) == LocalDays(days)[date := At(LocalDays(days), date).Plus(local)];
    SumPut(CloudDays(days), date, cloud);
    SumPut(LocalDays(days), date, local);
  }

  lemma {:induction false} CloudBalances(l: Ledger, date: Name, account: Name, model: Name, share: Tally)
    requires Balanced(l)
    ensures Balanced(PostCloud(l, date, account, model, share))
  {
    hide Sum, Totals, CloudDays, LocalDays, AccountAt, DayAt, At, Kept, CloudPlus, CloudOf, LocalOf;
    AccountsBalance(l.accounts, account, model, share);
    SumPut(l.models, model, share);
    CloudAdds(DayAt(l.days, date), share);
    DaysBalance(l.days, date, CloudPlus(DayAt(l.days, date), share), Spend(share), ZERO);
  }

  lemma {:induction false} LocalBalances(l: Ledger, date: Name, model: Name, share: Tally)
    requires Balanced(l)
    ensures Balanced(PostLocal(l, date, model, share))
  {
    hide Sum, Totals, CloudDays, LocalDays, DayAt, At, Kept, LocalPlus, CloudOf, LocalOf;
    SumPut(l.locals, model, share);
    CloudAdds(DayAt(l.days, date), share);
    DaysBalance(l.days, date, LocalPlus(DayAt(l.days, date), share), ZERO, Spend(share));
  }

  lemma {:induction false} OpenedBalances(l: Ledger, date: Name)
    requires Balanced(l)
    ensures Balanced(Opened(l, date))
  {
    hide Sum, Totals, CloudDays, LocalDays, DayAt, Kept;
    DaysBalance(l.days, date, DayAt(l.days, date), ZERO, ZERO);
  }

  lemma {:induction false} PostBalances(l: Ledger, date: Name, e: Event, tariff: Tariff)
    requires Balanced(l)
    ensures Balanced(Post(l, date, e, tariff))
  {
    hide Balanced, PlaceOf, Share, PostCloud, PostLocal;
    match PlaceOf(e)
    case Nowhere =>
    case Cloud(account, model) => CloudBalances(l, date, account, model, Share(e, tariff));
    case Local(model) => LocalBalances(l, date, model, Share(e, tariff));
  }

  lemma {:induction false} LinesBalance(l: Ledger, date: Name, lines: seq<Line>, tariff: Tariff)
    requires Balanced(l)
    ensures Balanced(PostLines(l, date, lines, tariff))
    decreases |lines|
  {
    hide Balanced, Post;
    if lines != [] {
      var most, line := lines[..|lines| - 1], lines[|lines| - 1];
      LinesBalance(l, date, most, tariff);
      if line.Finished? { PostBalances(PostLines(l, date, most, tariff), date, line.event, tariff); }
    }
  }

  /** Conservation, for every log: no view loses or doubles a request, a token or a cost. */
  lemma {:induction false} LedgerBalances(logs: seq<Log>, tariff: Tariff)
    ensures Balanced(PostLogs(logs, tariff))
    decreases |logs|
  {
    if logs == [] {
      assert Totals(map[]) == map[] && CloudDays(map[]) == map[] && LocalDays(map[]) == map[];
    } else {
      hide Balanced, Opened, PostLines;
      var most, log := logs[..|logs| - 1], logs[|logs| - 1];
      LedgerBalances(most, tariff);
      var before := PostLogs(most, tariff);
      if log.Log? {
        OpenedBalances(before, log.date);
        LinesBalance(Opened(before, log.date), log.date, log.lines, tariff);
      }
    }
  }

  /** Each counted request is cloud or local, never both. */
  lemma {:induction false} CountedOnce(logs: seq<Log>, tariff: Tariff)
    ensures InLogs(logs, tariff, Counted) == InLogs(logs, tariff, AnyCloud).Plus(InLogs(logs, tariff, AnyLocal))
  {
    FiguresAreWhatHappened(logs, tariff, Counted);
    FiguresAreWhatHappened(logs, tariff, AnyCloud);
    FiguresAreWhatHappened(logs, tariff, AnyLocal);
  }

  // ---- the days ------------------------------------------------------------------------------

  predicate IsRead(logs: seq<Log>, date: Name) { exists log :: log in logs && log.Log? && log.date == date }

  lemma {:induction false} PostKeepsDays(l: Ledger, date: Name, lines: seq<Line>, tariff: Tariff)
    requires date in l.days
    ensures PostLines(l, date, lines, tariff).days.Keys == l.days.Keys
    decreases |lines|
  {
    if lines != [] {
      hide Share, PlaceOf;
      PostKeepsDays(l, date, lines[..|lines| - 1], tariff);
    }
  }

  /** The days are those of which a log was read, whether anything was counted or not. */
  lemma {:induction false} DaysAreThoseRead(logs: seq<Log>, tariff: Tariff, day: Name)
    ensures day in PostLogs(logs, tariff).days.Keys <==> IsRead(logs, day)
    decreases |logs|
  {
    if logs != [] {
      hide PostLines;
      var most, log := logs[..|logs| - 1], logs[|logs| - 1];
      assert logs == most + [log];
      DaysAreThoseRead(most, tariff, day);
      assert IsRead(most, day) ==> IsRead(logs, day);
      if log.Log? {
        assert log in logs;
        PostKeepsDays(Opened(PostLogs(most, tariff), log.date), log.date, log.lines, tariff);
      }
    }
  }

  // ---- rounding --------------------------------------------------------------------------------

  const HALF_UNIT := 0.00005

  /** A rounding to four places. */
  ghost predicate Rounds(round: real -> real) { forall x :: x - HALF_UNIT <= round(x) <= x + HALF_UNIT }

  ghost function Rounded(m: map<Name, Tally>, round: real -> real): map<Name, Tally> {
    map k | k in m :: m[k].(cost := round(m[k].cost))
  }

  lemma {:induction false} RoundedSum(m: map<Name, Tally>, round: real -> real)
    requires Rounds(round)
    ensures var exact, shown := Sum(m), Sum(Rounded(m, round));
      && exact.cost - HALF_UNIT * |m| as real <= shown.cost <= exact.cost + HALF_UNIT * |m| as real
      && shown.requests == exact.requests && shown.prompt == exact.prompt && shown.completion == exact.completion
    decreases |m|
  {
    if m == map[] {
      assert Rounded(m, round) == map[];
    } else {
      var k :| k in m;
      SumTakes(m, k);
      SumTakes(Rounded(m, round), k);
      assert Rounded(m, round) - {k} == Rounded(m - {k}, round);
      RoundedSum(m - {k}, round);
    }
  }

  /** The local total shown adds up rounded figures and rounds again: it is off by at most half a unit for
      each model and one more. The cloud total rounds once, whatever the number of accounts. */
  lemma {:induction false} TotalsShown(l: Ledger, round: real -> real)
    requires Rounds(round)
    ensures var exact, shown := Sum(l.locals).cost, round(Sum(Rounded(l.locals, round)).cost);
      exact - HALF_UNIT * (|l.locals| + 1) as real <= shown <= exact + HALF_UNIT * (|l.locals| + 1) as real
    ensures var exact := Sum(Totals(l.accounts)).cost; exact - HALF_UNIT <= round(exact) <= exact + HALF_UNIT
  {
    RoundedSum(l.locals, round);
  }

  // ---- how far back a credit is read --------------------------------------------------------

  const DAY := 86400
  const FURTHEST := 3650

  /** The days a credit typed at `since` asks to be read back. */
  function Asks(now: int, since: int): int { (now - since) / DAY + 1 }

  /** The most that the window or any credit asks. */
  function Most(days: int, now: int, credits: seq<int>): int {
    if credits == [] then days
    else
      var most, asked := Most(days, now, credits[..|credits| - 1]), Asks(now, credits[|credits| - 1]);
      if asked > most then asked else most
  }

  /** The days that are read back, for all the accounts' credits together (cloud_spend_summary). */
  function Reach(days: int, now: int, credits: seq<int>): int {
    var most := Most(days, now, credits);
    if most < FURTHEST then most else FURTHEST
  }

  /** The calendar day of a time, and how far into it the time is. */
  function Date(t: int): int { t / DAY }

  function TimeOfDay(t: int): int { t % DAY }

  predicate DayIsRead(day: int, reach: int, now: int) { exists i :: 0 <= i < reach && Date(now - i * DAY) == day }

  lemma {:induction false} DayIsReadIff(since: int, reach: int, now: int)
    ensures DayIsRead(Date(since), reach, now) <==> 0 <= Date(now) - Date(since) < reach
  {
    forall i
      ensures Date(now - i * DAY) == Date(now) - i
    {
    }
    var span := Date(now) - Date(since);
    if 0 <= span < reach { assert Date(now - span * DAY) == Date(since); }
  }

  /** The credits but one. */
  function Others(credits: seq<int>, k: nat): seq<int>
    requires k < |credits|
  {
    credits[..k] + credits[k + 1..]
  }

  lemma {:induction false} MostWithout(days: int, now: int, credits: seq<int>, k: nat)
    requires k < |credits|
    ensures var others, asked := Most(days, now, Others(credits, k)), Asks(now, credits[k]);
      Most(days, now, credits) == if asked > others then asked else others
    decreases |credits|
  {
    var n := |credits| - 1;
    if k < n {
      MostWithout(days, now, credits[..n], k);
      var others := Others(credits, k);
      assert others[..|others| - 1] == Others(credits[..n], k) && others[|others| - 1] == credits[n];
    } else {
      assert Others(credits, k) == credits[..n];
    }
  }

  /** The day a credit was typed is not always read. It is, within the furthest reach, just when the credit was
      typed no later in its day than it is now, or the window or another credit asks for a day more than it does. */
  lemma {:induction false} CreditDayIsReadIff(days: int, now: int, credits: seq<int>, k: nat)
    requires k < |credits|
    ensures var since := credits[k];
      var inTime := TimeOfDay(since) <= TimeOfDay(now);
      DayIsRead(Date(since), Reach(days, now, credits), now)
      <==> (0 <= Date(now) - Date(since) < FURTHEST
            && (inTime || Most(days, now, Others(credits, k)) > Asks(now, since)))
  {
    var since := credits[k];
    DayIsReadIff(since, Reach(days, now, credits), now);
    MostWithout(days, now, credits, k);
    SpanIs(now, since);
  }

  lemma {:induction false} SpanIs(now: int, since: int)
    ensures Date(now) - Date(since) == Asks(now, since) - if TimeOfDay(since) <= TimeOfDay(now) then 1 else 0
  {
  }

  /** Alone, a credit typed later in its day than it is now loses that day, unless the window reaches past it. */
  lemma {:induction false} LoneCreditLosesItsDay(days: int, now: int, since: int)
    requires since <= now && Date(now) - Date(since) < FURTHEST
    ensures !DayIsRead(Date(since), Reach(days, now, [since]), now)
       <==> TimeOfDay(since) > TimeOfDay(now) && days <= Asks(now, since)
  {
    CreditDayIsReadIff(days, now, [since], 0);
    assert Others([since], 0) == [];
    SpanIs(now, since);
  }
}
