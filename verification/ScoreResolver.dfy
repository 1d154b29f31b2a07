/** Scores for a list of model ids (caravan/admin/benchmarks.py, hf_get_aa_scores): a map that grows with
    every page read, a memory of pages that gave nothing, and at most twelve pages a call. */
module ScoreResolver {
  import opened Basics

  const CAP := 12
  const TTL := 86400

  /** What the resolver remembers: scores by slug, and when a slug's page last gave it none. */
  datatype Store = Store(scores: map<string, real>, bad: map<string, int>)

  /** An entry of the request; anything but text is passed over, and so is blank text. */
  datatype Item = Text(text: string) | Other

  datatype Pair = Pair(id: string, slug: string)

  /** The fetching under way. */
  datatype Round = Round(store: Store, found: map<string, real>, fetched: nat)

  predicate Blank(s: string) { forall k :: 0 <= k < |s| ==> White(s[k]) }

  /** A slug never fetched counts as fetched at time 0. */
  predicate Bad(bad: map<string, int>, slug: string, now: int) {
    now - (if slug in bad then bad[slug] else 0) < TTL
  }

  /** Neither scored nor known to have no page. */
  predicate Open(store: Store, slug: string, now: int) { slug !in store.scores && !Bad(store.bad, slug, now) }

  // ---- one call, step by step -----------------------------------------------------------

  function Ids(items: seq<Item>): seq<string> {
    if items == [] then []
    else
      var last := items[|items| - 1];
      Ids(items[..|items| - 1]) + if last.Text? && !Blank(last.text) then [last.text] else []
  }

  /** Asked are exactly the texts in which something is to be seen. */
  lemma {:induction false} IdsAre(items: seq<Item>, id: string)
    ensures id in Ids(items) <==> Text(id) in items && exists k :: 0 <= k < |id| && !White(id[k])
    decreases |items|
  {
    if items != [] {
      var n := |items| - 1;
      IdsAre(items[..n], id);
      assert items == items[..n] + [items[n]];
    }
  }

  /** The ids answered from what is remembered, and the others. */
  function Known(ids: seq<string>, scores: map<string, real>, slugOf: string -> string): map<string, real> {
    map id | id in ids && slugOf(id) in scores :: scores[slugOf(id)]
  }

  function Unknown(ids: seq<string>, scores: map<string, real>, slugOf: string -> string): seq<Pair> {
    if ids == [] then []
    else
      var id := ids[|ids| - 1];
      Unknown(ids[..|ids| - 1], scores, slugOf) + if slugOf(id) in scores then [] else [Pair(id, slugOf(id))]
  }

  /** One pair: passed over when the budget is spent or its slug is known to be bad, and else its page is read,
      every score on it is kept, and the pair is answered or its slug is bad from now on. */
  function Turn(r: Round, p: Pair, now: int, pages: string -> map<string, real>): Round {
    if r.fetched >= CAP || Bad(r.store.bad, p.slug, now) then r
    else
      var scores := r.store.scores + pages(p.slug);
      if p.slug in scores then Round(Store(scores, r.store.bad), r.found[p.id := scores[p.slug]], r.fetched + 1)
      else Round(Store(scores, r.store.bad[p.slug := now]), r.found, r.fetched + 1)
  }

  function Turns(r: Round, pairs: seq<Pair>, now: int, pages: string -> map<string, real>): Round {
    if pairs == [] then r else Turn(Turns(r, pairs[..|pairs| - 1], now, pages), pairs[|pairs| - 1], now, pages)
  }

  /** The pairs left without a score whose slug is bad. */
  function Misses(pairs: seq<Pair>, found: map<string, real>, bad: map<string, int>, now: int): seq<string> {
    if pairs == [] then []
    else
      var p := pairs[|pairs| - 1];
      Misses(pairs[..|pairs| - 1], found, bad, now) + if p.id !in found && Bad(bad, p.slug, now) then [p.id] else []
  }

  function Call(store: Store, ids: seq<string>, fetch: bool, now: int, slugOf: string -> string, pages: string -> map<string, real>): Round {
    var start := Round(store, Known(ids, store.scores, slugOf), 0);
    if fetch then Turns(start, Unknown(ids, store.scores, slugOf), now, pages) else start
  }

  lemma {:induction false} NoTurns(r: Round, now: int, pages: string -> map<string, real>)
    ensures Turns(r, [], now, pages) == r
  {
  }

  lemma {:induction false} OneMoreTurn(r: Round, pairs: seq<Pair>, n: nat, now: int, pages: string -> map<string, real>)
    requires n < |pairs|
    ensures Turns(r, pairs[..n + 1], now, pages) == Turn(Turns(r, pairs[..n], now, pages), pairs[n], now, pages)
  {
    assert pairs[..n + 1][..n] == pairs[..n];
  }

  class Resolver {
    var scores: map<string, real>
    var bad: map<string, int>

    function Now(): Store
      reads this
    {
      Store(scores, bad)
    }

    /** The first part: what is remembered, and the pairs that are not. */
    method Look(items: seq<Item>, slugOf: string -> string) returns (result: map<string, real>, pairs: seq<Pair>)
      ensures result == Known(Ids(items), scores, slugOf) && pairs == Unknown(Ids(items), scores, slugOf)
    {
      result, pairs := map[], [];
      for k := 0 to |items|
        invariant result == Known(Ids(items[..k]), scores, slugOf)
        invariant pairs == Unknown(Ids(items[..k]), scores, slugOf)
      {
        ghost var before := Ids(items[..k]);
        assert items[..k + 1][..k] == items[..k];
        if items[k].Other? || Blank(items[k].text) {
          assert Ids(items[..k + 1]) == before;
          continue;
        }
        var id := items[k].text;
        assert Ids(items[..k + 1]) == before + [id];
        OneMoreId(before, id, scores, slugOf);
        var slug := slugOf(id);
        if slug in scores { result := result[id := scores[slug]]; } else { pairs := pairs + [Pair(id, slug)]; }
      }
      assert items[..|items|] == items;
    }

    /** The second: pages read within the budget. */
    method Fetch(found: map<string, real>, pairs: seq<Pair>, now: int, pages: string -> map<string, real>)
        returns (result: map<string, real>, ghost fetched: nat)
      modifies this
      ensures Round(Now(), result, fetched) == Turns(Round(old(Now()), found, 0), pairs, now, pages)
    {
      hide Turns, Bad;
      result := found;
      ghost var start := Round(Now(), found, 0);
      var spent := 0;
      var n := 0;
      NoTurns(start, now, pages);
      while n < |pairs| && spent < CAP
        invariant n <= |pairs|
        invariant Turns(start, pairs[..n], now, pages) == Round(Now(), result, spent)
      {
        var p := pairs[n];
        OneMoreTurn(start, pairs, n, now, pages);
        n := n + 1;
        if Bad(bad, p.slug, now) { continue; }
        spent := spent + 1;
        scores := scores + pages(p.slug);
        if p.slug in scores { result := result[p.id := scores[p.slug]]; } else { bad := bad[p.slug := now]; }
      }
      fetched := spent;
      SpentStays(start, pairs, n, now, pages);
    }

    /** The third: the ids confirmed to have no page. */
    method Report(pairs: seq<Pair>, result: map<string, real>, now: int) returns (misses: seq<string>)
      ensures misses == Misses(pairs, result, bad, now)
    {
      misses := [];
      for k := 0 to |pairs|
        invariant misses == Misses(pairs[..k], result, bad, now)
      {
        assert pairs[..k + 1][..k] == pairs[..k];
        if pairs[k].id !in result && Bad(bad, pairs[k].slug, now) { misses := misses + [pairs[k].id]; }
      }
      assert pairs[..|pairs|] == pairs;
    }

    /** `hf_get_aa_scores`, the pages as they would be read. */
    method Resolve(items: seq<Item>, fetch: bool, now: int, slugOf: string -> string, pages: string -> map<string, real>)
        returns (result: map<string, real>, misses: seq<string>)
      modifies this
      ensures var ids, was := Ids(items), old(Now());
        var r := Call(was, ids, fetch, now, slugOf, pages);
        && Now() == r.store && result == r.found
        && misses == Misses(Unknown(ids, was.scores, slugOf), r.found, r.store.bad, now)
    {
      var pairs;
      result, pairs := Look(items, slugOf);
      if fetch {
        ghost var fetched;
        result, fetched := Fetch(result, pairs, now, pages);
      }
      misses := Report(pairs, result, now);
    }
  }

  lemma {:induction false} OneMoreId(ids: seq<string>, id: string, scores: map<string, real>, slugOf: string -> string)
    ensures Known(ids + [id], scores, slugOf)
         == if slugOf(id) in scores then Known(ids, scores, slugOf)[id := scores[slugOf(id)]] else Known(ids, scores, slugOf)
    ensures Unknown(ids + [id], scores, slugOf)
         == Unknown(ids, scores, slugOf) + if slugOf(id) in scores then [] else [Pair(id, slugOf(id))]
  {
    assert (ids + [id])[..|ids|] == ids;
  }

  /** Once the budget is spent nothing changes. */
  lemma {:induction false} SpentStays(r: Round, pairs: seq<Pair>, n: nat, now: int, pages: string -> map<string, real>)
    requires n <= |pairs| && (n == |pairs| || Turns(r, pairs[..n], now, pages).fetched >= CAP)
    ensures Turns(r, pairs, now, pages) == Turns(r, pairs[..n], now, pages)
    decreases |pairs|
  {
    if n == |pairs| {
      assert pairs[..n] == pairs;
    } else {
      var most := pairs[..|pairs| - 1];
      assert most[..n] == pairs[..n];
      SpentStays(r, most, n, now, pages);
    }
  }

  // ---- what a call reads ----------------------------------------------------------------

  /** The slugs whose pages are read, in order. */
  function Read(r: Round, pairs: seq<Pair>, now: int, pages: string -> map<string, real>): seq<string> {
    if pairs == [] then []
    else
      var most, p := pairs[..|pairs| - 1], pairs[|pairs| - 1];
      var before := Turns(r, most, now, pages);
      Read(r, most, now, pages) + if before.fetched >= CAP || Bad(before.store.bad, p.slug, now) then [] else [p.slug]
  }

  /** The turn of one more pair. */
  lemma {:induction false} OneMore(r: Round, pairs: seq<Pair>, p: Pair, now: int, pages: string -> map<string, real>)
    ensures Turns(r, pairs + [p], now, pages) == Turn(Turns(r, pairs, now, pages), p, now, pages)
    ensures var t := Turns(r, pairs, now, pages);
      Read(r, pairs + [p], now, pages)
      == Read(r, pairs, now, pages) + if t.fetched >= CAP || Bad(t.store.bad, p.slug, now) then [] else [p.slug]
  {
    assert (pairs + [p])[..|pairs|] == pairs;
  }

  predicate Settled(store: Store, slug: string, now: int) { slug in store.scores || (slug in store.bad && store.bad[slug] == now) }

  /** What is bad was bad, or was read now and gave nothing. */
  predicate BadSince(was: map<string, int>, bad: map<string, int>, read: seq<string>, now: int) {
    && (forall s :: s in was ==> s in bad)
    && (forall s :: s in bad ==> (s in was && bad[s] == was[s]) || (s in read && bad[s] == now))
  }

  lemma {:induction false} Reading(r: Round, pairs: seq<Pair>, now: int, pages: string -> map<string, real>)
    requires r.fetched == 0
    ensures var t, read := Turns(r, pairs, now, pages), Read(r, pairs, now, pages);
      && |read| == t.fetched <= CAP
      && (forall s :: s in r.store.scores ==> s in t.store.scores)
      && BadSince(r.store.bad, t.store.bad, read, now)
      && (forall s :: s in read ==> Settled(t.store, s, now) && !Bad(r.store.bad, s, now))
      && (forall s :: s in read ==> exists p :: p in pairs && p.slug == s)
    decreases |pairs|
  {
    if pairs != [] {
      var most, p := pairs[..|pairs| - 1], pairs[|pairs| - 1];
      assert pairs == most + [p];
      Reading(r, most, now, pages);
      OneMore(r, most, p, now, pages);
      var read := Read(r, most, now, pages);
      forall s | s in Read(r, pairs, now, pages)
        ensures exists q :: q in pairs && q.slug == s
      {
        if s in read {
          var q :| q in most && q.slug == s;
          assert q in pairs;
        } else {
          assert p in pairs;
        }
      }
    }
  }

  /** What was decided when the call began is decided after it, at every time it was decided for. */
  lemma {:induction false} BadLasts(was: map<string, int>, bad: map<string, int>, read: seq<string>, now: int, slug: string, t: int)
    requires BadSince(was, bad, read, now) && forall s :: s in read ==> !Bad(was, s, now)
    requires Bad(was, slug, t)
    ensures Bad(bad, slug, t)
  {
  }

  /** With budget left every pair was read, or its slug was bad. */
  lemma {:induction false} AllSeen(r: Round, pairs: seq<Pair>, now: int, pages: string -> map<string, real>)
    requires r.fetched == 0 && Turns(r, pairs, now, pages).fetched < CAP
    ensures forall p :: p in pairs ==> p.slug in Read(r, pairs, now, pages) || Bad(r.store.bad, p.slug, now)
    decreases |pairs|
  {
    if pairs != [] {
      var most, p := pairs[..|pairs| - 1], pairs[|pairs| - 1];
      assert pairs == most + [p];
      Reading(r, most, now, pages);
      OneMore(r, most, p, now, pages);
      AllSeen(r, most, now, pages);
    }
  }

  /** The scores afterwards are those of before and those of the pages read. */
  lemma {:induction false} ScoresGrow(r: Round, pairs: seq<Pair>, now: int, pages: string -> map<string, real>, slug: string)
    ensures slug in Turns(r, pairs, now, pages).store.scores
       <==> slug in r.store.scores || exists q :: q in Read(r, pairs, now, pages) && slug in pages(q)
    decreases |pairs|
  {
    if pairs != [] {
      var most, p := pairs[..|pairs| - 1], pairs[|pairs| - 1];
      assert pairs == most + [p];
      ScoresGrow(r, most, now, pages, slug);
      OneMore(r, most, p, now, pages);
      var before, read := Turns(r, most, now, pages), Read(r, pairs, now, pages);
      assert forall q :: q in Read(r, most, now, pages) ==> q in read;
      if !(before.fetched >= CAP || Bad(before.store.bad, p.slug, now)) {
        assert read[|read| - 1] == p.slug && p.slug in read;
      }
    }
  }

  predicate DistinctSlugs(pairs: seq<Pair>) { forall i, j :: 0 <= i < j < |pairs| ==> pairs[i].slug != pairs[j].slug }

  predicate Distinct(slugs: seq<string>) { forall i, j :: 0 <= i < j < |slugs| ==> slugs[i] != slugs[j] }

  /** How many pairs have a page to read. */
  function ToRead(pairs: seq<Pair>, bad: map<string, int>, now: int): nat {
    if pairs == [] then 0
    else ToRead(pairs[..|pairs| - 1], bad, now) + if Bad(bad, pairs[|pairs| - 1].slug, now) then 0 else 1
  }

  /** Of distinct slugs the call reads a page for each that has one to read, up to twelve, and none twice. */
  lemma {:induction false} ReadsTwelve(r: Round, pairs: seq<Pair>, now: int, pages: string -> map<string, real>)
    requires r.fetched == 0 && DistinctSlugs(pairs)
    ensures var n := ToRead(pairs, r.store.bad, now);
      Turns(r, pairs, now, pages).fetched == (if n < CAP then n else CAP) && Distinct(Read(r, pairs, now, pages))
    decreases |pairs|
  {
    if pairs != [] {
      var most, p := pairs[..|pairs| - 1], pairs[|pairs| - 1];
      assert pairs == most + [p];
      ReadsTwelve(r, most, now, pages);
      Reading(r, most, now, pages);
      OneMore(r, most, p, now, pages);
      assert p.slug !in Read(r, most, now, pages);
    }
  }

  // ---- what a call answers --------------------------------------------------------------

  lemma {:induction false} UnknownIs(ids: seq<string>, scores: map<string, real>, slugOf: string -> string)
    ensures forall p :: p in Unknown(ids, scores, slugOf) <==> p.id in ids && p.slug == slugOf(p.id) && p.slug !in scores
    decreases |ids|
  {
    if ids != [] {
      var most, id := ids[..|ids| - 1], ids[|ids| - 1];
      assert ids == most + [id];
      UnknownIs(most, scores, slugOf);
      OneMoreId(most, id, scores, slugOf);
    }
  }

  predicate DistinctIds(ids: seq<string>, slugOf: string -> string) {
    forall i, j :: 0 <= i < j < |ids| ==> slugOf(ids[i]) != slugOf(ids[j])
  }

  lemma {:induction false} UnknownDistinct(ids: seq<string>, scores: map<string, real>, slugOf: string -> string)
    requires DistinctIds(ids, slugOf)
    ensures DistinctSlugs(Unknown(ids, scores, slugOf))
    decreases |ids|
  {
    if ids != [] {
      var most, id := ids[..|ids| - 1], ids[|ids| - 1];
      UnknownDistinct(most, scores, slugOf);
      UnknownIs(most, scores, slugOf);
      assert forall k :: 0 <= k < |most| ==> slugOf(most[k]) != slugOf(id);
      assert forall p :: p in Unknown(most, scores, slugOf) ==> p.slug != slugOf(id);
    }
  }

  lemma {:induction false} MissesAre(pairs: seq<Pair>, found: map<string, real>, bad: map<string, int>, now: int, id: string)
    ensures id in Misses(pairs, found, bad, now) <==> id !in found && exists p :: p in pairs && p.id == id && Bad(bad, p.slug, now)
    decreases |pairs|
  {
    if pairs != [] {
      var most, last := pairs[..|pairs| - 1], pairs[|pairs| - 1];
      assert pairs == most + [last];
      MissesAre(most, found, bad, now, id);
      assert last in pairs && forall p :: p in most ==> p in pairs;
    }
  }

  /** Every score is one that was remembered, or stands on a page that was read. */
  ghost predicate FromPages(was: map<string, real>, scores: map<string, real>, read: seq<string>, pages: string -> map<string, real>) {
    forall s :: s in scores ==> (s in was && scores[s] == was[s]) || exists q :: q in read && s in pages(q) && scores[s] == pages(q)[s]
  }

  /** Every answer is a remembered one, or the score of the id's slug on a page that was read. */
  ghost predicate Sourced(was: map<string, real>, found: map<string, real>, pairs: seq<Pair>, read: seq<string>, pages: string -> map<string, real>) {
    forall id :: id in found && !(id in was && found[id] == was[id]) ==>
      exists p, q :: p in pairs && p.id == id && q in read && p.slug in pages(q) && found[id] == pages(q)[p.slug]
  }

  lemma {:induction false} AnswersKept(r: Round, pairs: seq<Pair>, now: int, pages: string -> map<string, real>)
    ensures var t := Turns(r, pairs, now, pages);
      (forall id :: id in r.found ==> id in t.found) && forall id :: id in t.found ==> id in r.found || exists p :: p in pairs && p.id == id
    decreases |pairs|
  {
    if pairs != [] {
      var most, p := pairs[..|pairs| - 1], pairs[|pairs| - 1];
      assert pairs == most + [p];
      AnswersKept(r, most, now, pages);
      OneMore(r, most, p, now, pages);
      assert p in pairs && forall q :: q in most ==> q in pairs;
    }
  }

  /** One more pair: no answer is lost, nothing that is bad stops being so, and with budget left the pair is answered or bad. */
  lemma {:induction false} TurnAnswers(before: Round, p: Pair, now: int, pages: string -> map<string, real>)
    ensures var after := Turn(before, p, now, pages);
      && before.fetched <= after.fetched
      && (forall id :: id in before.found ==> id in after.found)
      && (forall s :: Bad(before.store.bad, s, now) ==> Bad(after.store.bad, s, now))
      && (after.fetched < CAP ==> p.id in after.found || Bad(after.store.bad, p.slug, now))
  {
  }

  lemma {:induction false} AnswersAll(r: Round, pairs: seq<Pair>, now: int, pages: string -> map<string, real>)
    requires Turns(r, pairs, now, pages).fetched < CAP
    ensures var t := Turns(r, pairs, now, pages);
      forall p :: p in pairs ==> p.id in t.found || Bad(t.store.bad, p.slug, now)
    decreases |pairs|
  {
    if pairs != [] {
      var most, p := pairs[..|pairs| - 1], pairs[|pairs| - 1];
      assert pairs == most + [p];
      TurnAnswers(Turns(r, most, now, pages), p, now, pages);
      AnswersAll(r, most, now, pages);
    }
  }

  lemma {:induction false} PagesGive(r: Round, pairs: seq<Pair>, now: int, pages: string -> map<string, real>)
    ensures FromPages(r.store.scores, Turns(r, pairs, now, pages).store.scores, Read(r, pairs, now, pages), pages)
    decreases |pairs|
  {
    if pairs != [] {
      var most, p := pairs[..|pairs| - 1], pairs[|pairs| - 1];
      assert pairs == most + [p];
      PagesGive(r, most, now, pages);
      OneMore(r, most, p, now, pages);
      var before, read := Turns(r, most, now, pages), Read(r, most, now, pages);
      var after, all := Turns(r, pairs, now, pages), Read(r, pairs, now, pages);
      assert forall q :: q in read ==> q in all;
      if !(before.fetched >= CAP || Bad(before.store.bad, p.slug, now)) { assert all[|read|] == p.slug; }
      FromStays(r.store.scores, before.store.scores, read, after.store.scores, all, p.slug, pages);
    }
  }

  lemma {:induction false} AnswersAreRead(r: Round, pairs: seq<Pair>, now: int, pages: string -> map<string, real>)
    requires forall p :: p in pairs ==> p.slug !in r.store.scores
    ensures Sourced(r.found, Turns(r, pairs, now, pages).found, pairs, Read(r, pairs, now, pages), pages)
    decreases |pairs|
  {
    if pairs != [] {
      var most, p := pairs[..|pairs| - 1], pairs[|pairs| - 1];
      assert pairs == most + [p];
      AnswersAreRead(r, most, now, pages);
      PagesGive(r, pairs, now, pages);
      OneMore(r, most, p, now, pages);
      var before, read := Turns(r, most, now, pages), Read(r, most, now, pages);
      var after, all := Turns(r, pairs, now, pages), Read(r, pairs, now, pages);
      assert p in pairs && p.slug !in r.store.scores;
      SourcedStays(r.found, before.found, most, read, pairs, all, pages);
      if p.slug in after.store.scores {
        var q :| q in all && p.slug in pages(q) && after.store.scores[p.slug] == pages(q)[p.slug];
        SourcedPlus(r.found, before.found, pairs, all, pages, p, q);
      }
    }
  }

  lemma {:induction false} SourcedPlus(was: map<string, real>, found: map<string, real>, pairs: seq<Pair>, read: seq<string>,
      pages: string -> map<string, real>, p: Pair, q: string)
    requires Sourced(was, found, pairs, read, pages) && p in pairs && q in read && p.slug in pages(q)
    ensures Sourced(was, found[p.id := pages(q)[p.slug]], pairs, read, pages)
  {
  }

  lemma {:induction false} FromStays(was: map<string, real>, scores: map<string, real>, read: seq<string>, after: map<string, real>,
      all: seq<string>, slug: string, pages: string -> map<string, real>)
    requires FromPages(was, scores, read, pages) && forall q :: q in read ==> q in all
    requires after == scores || (after == scores + pages(slug) && slug in all)
    ensures FromPages(was, after, all, pages)
  {
    forall s | s in after
      ensures (s in was && after[s] == was[s]) || exists q :: q in all && s in pages(q) && after[s] == pages(q)[s]
    {
      if after != scores && s in pages(slug) {
        assert after[s] == pages(slug)[s];
      } else if !(s in was && scores[s] == was[s]) {
        var q :| q in read && s in pages(q) && scores[s] == pages(q)[s];
        assert q in all;
      }
    }
  }

  lemma {:induction false} SourcedStays(was: map<string, real>, found: map<string, real>, pairs: seq<Pair>, read: seq<string>,
      pairs': seq<Pair>, read': seq<string>, pages: string -> map<string, real>)
    requires Sourced(was, found, pairs, read, pages)
    requires (forall p :: p in pairs ==> p in pairs') && forall q :: q in read ==> q in read'
    ensures Sourced(was, found, pairs', read', pages)
  {
    forall id | id in found && !(id in was && found[id] == was[id])
      ensures exists p, q :: p in pairs' && p.id == id && q in read' && p.slug in pages(q) && found[id] == pages(q)[p.slug]
    {
      var p, q :| p in pairs && p.id == id && q in read && p.slug in pages(q) && found[id] == pages(q)[p.slug];
      assert p in pairs' && q in read';
    }
  }

  /** Whatever is asked: no id is both scored and a miss, nothing is answered that was not asked, and a call
      whose budget did not run out answers every id. */
  lemma {:induction false} EveryIdIsAnswered(store: Store, ids: seq<string>, fetch: bool, now: int,
      slugOf: string -> string, pages: string -> map<string, real>)
    ensures var r := Call(store, ids, fetch, now, slugOf, pages);
      var misses := Misses(Unknown(ids, store.scores, slugOf), r.found, r.store.bad, now);
      && (forall id :: id in r.found ==> id in ids && id !in misses)
      && (forall id :: id in misses ==> id in ids)
      && (fetch && r.fetched < CAP ==> forall id :: id in ids ==> id in r.found || id in misses)
  {
    var pairs := Unknown(ids, store.scores, slugOf);
    var start := Round(store, Known(ids, store.scores, slugOf), 0);
    var r := Call(store, ids, fetch, now, slugOf, pages);
    UnknownIs(ids, store.scores, slugOf);
    AnswersKept(start, pairs, now, pages);
    if Turns(start, pairs, now, pages).fetched < CAP { AnswersAll(start, pairs, now, pages); }
    forall id: string
      ensures id in Misses(pairs, r.found, r.store.bad, now) <==> id !in r.found && exists p :: p in pairs && p.id == id && Bad(r.store.bad, p.slug, now)
    {
      MissesAre(pairs, r.found, r.store.bad, now, id);
    }
    forall id | id in ids && id !in r.found && fetch && r.fetched < CAP
      ensures id in Misses(pairs, r.found, r.store.bad, now)
    {
      var p := Pair(id, slugOf(id));
      assert p in pairs && p.id == id;
    }
  }

  /** Every score given was remembered for the id's slug, or stands on a page the call read. */
  lemma {:induction false} ScoresAreRead(store: Store, ids: seq<string>, now: int, slugOf: string -> string, pages: string -> map<string, real>)
    ensures var r := Call(store, ids, true, now, slugOf, pages);
      var read := Read(Round(store, Known(ids, store.scores, slugOf), 0), Unknown(ids, store.scores, slugOf), now, pages);
      forall id :: id in r.found ==>
        (slugOf(id) in store.scores && r.found[id] == store.scores[slugOf(id)])
        || exists q :: q in read && slugOf(id) in pages(q) && r.found[id] == pages(q)[slugOf(id)]
  {
    var pairs := Unknown(ids, store.scores, slugOf);
    var start := Round(store, Known(ids, store.scores, slugOf), 0);
    UnknownIs(ids, store.scores, slugOf);
    AnswersAreRead(start, pairs, now, pages);
    var r, read := Call(store, ids, true, now, slugOf, pages), Read(start, pairs, now, pages);
    forall id | id in r.found && !(slugOf(id) in store.scores && r.found[id] == store.scores[slugOf(id)])
      ensures exists q :: q in read && slugOf(id) in pages(q) && r.found[id] == pages(q)[slugOf(id)]
    {
      assert !(id in start.found && r.found[id] == start.found[id]);
      var p, q :| p in pairs && p.id == id && q in read && p.slug in pages(q) && r.found[id] == pages(q)[p.slug];
      assert p.slug == slugOf(id);
    }
  }

  /** A miss is not an id without a score: its slug has one afterwards just when a page the call read carries it. */
  lemma {:induction false} MissHasAScoreIff(store: Store, ids: seq<string>, now: int, slugOf: string -> string,
      pages: string -> map<string, real>, id: string)
    requires var r := Call(store, ids, true, now, slugOf, pages);
      id in Misses(Unknown(ids, store.scores, slugOf), r.found, r.store.bad, now)
    ensures var read := Read(Round(store, Known(ids, store.scores, slugOf), 0), Unknown(ids, store.scores, slugOf), now, pages);
      slugOf(id) in Call(store, ids, true, now, slugOf, pages).store.scores
      <==> exists q :: q in read && slugOf(id) in pages(q)
  {
    var pairs := Unknown(ids, store.scores, slugOf);
    var start := Round(store, Known(ids, store.scores, slugOf), 0);
    var r := Call(store, ids, true, now, slugOf, pages);
    MissesAre(pairs, r.found, r.store.bad, now, id);
    var p :| p in pairs && p.id == id && Bad(r.store.bad, p.slug, now);
    UnknownIs(ids, store.scores, slugOf);
    ScoresGrow(start, pairs, now, pages, slugOf(id));
  }

  /** It happens to every two ids the first of whose pages gives it nothing and the second of whose pages carries
      the first one's score. */
  lemma {:induction false} MissWithAScore(a: string, b: string, now: int, slugOf: string -> string, pages: string -> map<string, real>)
    requires a != b && slugOf(a) != slugOf(b) && now >= TTL
    requires pages(slugOf(a)) == map[] && slugOf(a) in pages(slugOf(b)) && slugOf(b) in pages(slugOf(b))
    ensures var r := Call(Store(map[], map[]), [a, b], true, now, slugOf, pages);
      && Misses(Unknown([a, b], map[], slugOf), r.found, r.store.bad, now) == [a]
      && r.found == map[b := pages(slugOf(b))[slugOf(b)]] && slugOf(a) in r.store.scores
  {
    hide Known, Unknown, Turns, Turn, Misses;
    var p, q := Pair(a, slugOf(a)), Pair(b, slugOf(b));
    TwoPairs(a, b, slugOf);
    TwoTurns(Round(Store(map[], map[]), map[], 0), p, q, now, pages);
    FirstOfTwo(p, q, now, pages);
    TwoMisses(p, q, Round(Store(pages(q.slug), map[p.slug := now]), map[q.id := pages(q.slug)[q.slug]], 2), now);
  }

  lemma {:induction false} TwoPairs(a: string, b: string, slugOf: string -> string)
    ensures Known([a, b], map[], slugOf) == map[]
    ensures Unknown([a, b], map[], slugOf) == [Pair(a, slugOf(a)), Pair(b, slugOf(b))]
  {
    var none: seq<string> := [];
    assert none + [a] == [a] && [a] + [b] == [a, b];
    OneMoreId(none, a, map[], slugOf);
    OneMoreId([a], b, map[], slugOf);
  }

  lemma {:induction false} TwoTurns(r: Round, p: Pair, q: Pair, now: int, pages: string -> map<string, real>)
    ensures Turns(r, [p, q], now, pages) == Turn(Turn(r, p, now, pages), q, now, pages)
  {
    hide Turn;
    assert [p, q][..1] == [p] && [p][..0] == [];
    assert Turns(r, [p], now, pages) == Turn(Turns(r, [], now, pages), p, now, pages);
  }

  lemma {:induction false} FirstOfTwo(p: Pair, q: Pair, now: int, pages: string -> map<string, real>)
    requires p.id != q.id && p.slug != q.slug && now >= TTL
    requires pages(p.slug) == map[] && p.slug in pages(q.slug) && q.slug in pages(q.slug)
    ensures Turn(Turn(Round(Store(map[], map[]), map[], 0), p, now, pages), q, now, pages)
         == Round(Store(pages(q.slug), map[p.slug := now]), map[q.id := pages(q.slug)[q.slug]], 2)
  {
    assert map[] + pages(p.slug) == map[];
    assert Turn(Round(Store(map[], map[]), map[], 0), p, now, pages) == Round(Store(map[], map[p.slug := now]), map[], 1);
    assert map[] + pages(q.slug) == pages(q.slug);
  }

  lemma {:induction false} TwoMisses(p: Pair, q: Pair, r: Round, now: int)
    requires p.id !in r.found && q.id in r.found && Bad(r.store.bad, p.slug, now)
    ensures Misses([p, q], r.found, r.store.bad, now) == [p.id]
  {
    assert [p, q][..1] == [p] && [p][..0] == [];
    assert Misses([p], r.found, r.store.bad, now) == [] + [p.id] == [p.id];
  }

  // ---- over many calls ------------------------------------------------------------------

  /** What was decided stays decided: scores are not lost, and no slug stops being bad sooner. */
  lemma {:induction false} DecidedStays(store: Store, ids: seq<string>, fetch: bool, now: int, slugOf: string -> string,
      pages: string -> map<string, real>, slug: string, t: int)
    requires !Open(store, slug, t)
    ensures !Open(Call(store, ids, fetch, now, slugOf, pages).store, slug, t)
  {
    if fetch {
      var pairs := Unknown(ids, store.scores, slugOf);
      var start := Round(store, Known(ids, store.scores, slugOf), 0);
      Reading(start, pairs, now, pages);
      if slug !in store.scores {
        BadLasts(store.bad, Turns(start, pairs, now, pages).store.bad, Read(start, pairs, now, pages), now, slug, t);
      }
    }
  }

  lemma {:induction false} FoundWasRead(r: Round, pairs: seq<Pair>, now: int, pages: string -> map<string, real>, id: string)
    requires id in Turns(r, pairs, now, pages).found && id !in r.found
    ensures exists p :: p in pairs && p.id == id && p.slug in Read(r, pairs, now, pages)
    decreases |pairs|
  {
    var most, p := pairs[..|pairs| - 1], pairs[|pairs| - 1];
    assert pairs == most + [p];
    OneMore(r, most, p, now, pages);
    var read, all := Read(r, most, now, pages), Read(r, pairs, now, pages);
    assert p in pairs && forall s :: s in read ==> s in all;
    var before := Turns(r, most, now, pages);
    if id in before.found {
      FoundWasRead(r, most, now, pages, id);
      var q :| q in most && q.id == id && q.slug in read;
      assert q in pairs;
    } else {
      assert id == p.id && all == read + [p.slug];
    }
  }

  /** An id without a score whose page was never read is reported as a miss only once this call has read its page,
      exactly when the clock is past its first day: before that a slug never read counts as a bad one. */
  lemma {:induction false} MissIsReadIff(store: Store, ids: seq<string>, now: int, slugOf: string -> string,
      pages: string -> map<string, real>, id: string)
    requires id in ids && slugOf(id) !in store.scores && slugOf(id) !in store.bad
    ensures var r := Call(store, ids, true, now, slugOf, pages);
      var pairs := Unknown(ids, store.scores, slugOf);
      var read := Read(Round(store, Known(ids, store.scores, slugOf), 0), pairs, now, pages);
      (id in Misses(pairs, r.found, r.store.bad, now) ==> slugOf(id) in read) <==> now >= TTL
  {
    var pairs := Unknown(ids, store.scores, slugOf);
    var start := Round(store, Known(ids, store.scores, slugOf), 0);
    var r, read := Call(store, ids, true, now, slugOf, pages), Read(start, pairs, now, pages);
    var slug := slugOf(id);
    UnknownIs(ids, store.scores, slugOf);
    Reading(start, pairs, now, pages);
    MissesAre(pairs, r.found, r.store.bad, now, id);
    var p := Pair(id, slug);
    assert p in pairs && p.id == id;
    if now < TTL {
      assert Bad(store.bad, slug, now);
      BadLasts(store.bad, r.store.bad, read, now, slug, now);
      assert forall q :: q in pairs && q.id == id ==> q.slug !in read;
      if id in r.found { FoundWasRead(start, pairs, now, pages, id); }
    } else if id in Misses(pairs, r.found, r.store.bad, now) {
      var q :| q in pairs && q.id == id && Bad(r.store.bad, q.slug, now);
      assert q.slug == slug;
    }
  }

  function Slugs(ids: seq<string>, slugOf: string -> string): set<string> { set id | id in ids :: slugOf(id) }

  function OpenOf(store: Store, slugs: set<string>, t: int): set<string> { set s | s in slugs && Open(store, s, t) }

  /** A call that left an id neither scored nor bad. */
  predicate FellShort(store: Store, ids: seq<string>, now: int, slugOf: string -> string) {
    exists id :: id in ids && Open(store, slugOf(id), now)
  }

  function AsSet(slugs: seq<string>): set<string> { set s | s in slugs }

  lemma {:induction false} DistinctSize(slugs: seq<string>)
    requires Distinct(slugs)
    ensures |AsSet(slugs)| == |slugs|
    decreases |slugs|
  {
    if slugs != [] {
      var most, last := slugs[..|slugs| - 1], slugs[|slugs| - 1];
      DistinctSize(most);
      assert last !in most;
      assert AsSet(slugs) == AsSet(most) + {last};
    }
  }

  /** The slugs open at the end are fewer by those read. */
  lemma {:induction false} CallCloses(store: Store, ids: seq<string>, now: int, slugOf: string -> string, pages: string -> map<string, real>, end: int)
    requires now <= end < now + TTL
    ensures var pairs, start := Unknown(ids, store.scores, slugOf), Round(store, Known(ids, store.scores, slugOf), 0);
      var after, slugs := Call(store, ids, true, now, slugOf, pages).store, Slugs(ids, slugOf);
      var read := AsSet(Read(start, pairs, now, pages));
      read <= OpenOf(store, slugs, end) && OpenOf(after, slugs, end) <= OpenOf(store, slugs, end) - read
  {
    var pairs, start := Unknown(ids, store.scores, slugOf), Round(store, Known(ids, store.scores, slugOf), 0);
    var after, slugs := Call(store, ids, true, now, slugOf, pages).store, Slugs(ids, slugOf);
    var read := Read(start, pairs, now, pages);
    Reading(start, pairs, now, pages);
    UnknownIs(ids, store.scores, slugOf);
    forall s | s in read
      ensures s in OpenOf(store, slugs, end) && !Open(after, s, end)
    {
      var p :| p in pairs && p.slug == s;
      assert slugOf(p.id) == s;
    }
    forall s | s in slugs && !Open(store, s, end)
      ensures !Open(after, s, end)
    {
      DecidedStays(store, ids, true, now, slugOf, pages, s, end);
    }
  }

  /** A call falls short only by spending its whole budget. */
  lemma {:induction false} ShortMeansSpent(store: Store, ids: seq<string>, now: int, slugOf: string -> string, pages: string -> map<string, real>)
    requires FellShort(Call(store, ids, true, now, slugOf, pages).store, ids, now, slugOf)
    ensures Call(store, ids, true, now, slugOf, pages).fetched >= CAP
  {
    var pairs, start := Unknown(ids, store.scores, slugOf), Round(store, Known(ids, store.scores, slugOf), 0);
    var r := Call(store, ids, true, now, slugOf, pages);
    var id :| id in ids && Open(r.store, slugOf(id), now);
    Reading(start, pairs, now, pages);
    UnknownIs(ids, store.scores, slugOf);
    var p := Pair(id, slugOf(id));
    assert p in pairs;
    if r.fetched < CAP {
      AllSeen(start, pairs, now, pages);
      if p.slug !in Read(start, pairs, now, pages) {
        BadLasts(store.bad, r.store.bad, Read(start, pairs, now, pages), now, p.slug, now);
      }
      assert false;
    }
  }

  datatype Ask = Ask(now: int, pages: string -> map<string, real>)

  /** How many of the calls, one after another, fell short. */
  function Shorts(store: Store, ids: seq<string>, slugOf: string -> string, asks: seq<Ask>): nat
    decreases |asks|
  {
    if asks == [] then 0
    else
      var after := Call(store, ids, true, asks[0].now, slugOf, asks[0].pages).store;
      (if FellShort(after, ids, asks[0].now, slugOf) then 1 else 0) + Shorts(after, ids, slugOf, asks[1..])
  }

  /** Asking for one list again and again within a day, whatever the pages hold: a list of distinct slugs falls
      short at most once for every twelve of them that are open, and any list at most once for each. After that
      every id is scored or a confirmed miss at each call. */
  lemma {:induction false} FewCallsFallShort(store: Store, ids: seq<string>, slugOf: string -> string, asks: seq<Ask>, end: int)
    requires forall a :: a in asks ==> a.now <= end < a.now + TTL
    ensures Shorts(store, ids, slugOf, asks) <= |OpenOf(store, Slugs(ids, slugOf), end)|
    ensures DistinctIds(ids, slugOf) ==> CAP * Shorts(store, ids, slugOf, asks) <= |OpenOf(store, Slugs(ids, slugOf), end)|
    decreases |asks|
  {
    if asks != [] {
      var a := asks[0];
      assert a in asks && forall b :: b in asks[1..] ==> b in asks;
      var pairs, start := Unknown(ids, store.scores, slugOf), Round(store, Known(ids, store.scores, slugOf), 0);
      var after, slugs := Call(store, ids, true, a.now, slugOf, a.pages).store, Slugs(ids, slugOf);
      var read := Read(start, pairs, a.now, a.pages);
      FewCallsFallShort(after, ids, slugOf, asks[1..], end);
      CallCloses(store, ids, a.now, slugOf, a.pages, end);
      Shrinks(OpenOf(after, slugs, end), OpenOf(store, slugs, end), AsSet(read));
      Reading(start, pairs, a.now, a.pages);
      if FellShort(after, ids, a.now, slugOf) {
        ShortMeansSpent(store, ids, a.now, slugOf, a.pages);
        assert read[0] in AsSet(read);
        if DistinctIds(ids, slugOf) {
          UnknownDistinct(ids, store.scores, slugOf);
          ReadsTwelve(start, pairs, a.now, a.pages);
          DistinctSize(read);
        }
      }
    }
  }

  lemma {:induction false} Shrinks(after: set<string>, before: set<string>, gone: set<string>)
    requires gone <= before && after <= before - gone
    ensures |after| <= |before| - |gone| && (gone != {} ==> |after| < |before|)
  {
    Within(after, before - gone);
    assert |before - gone| == |before| - |gone|;
  }

  lemma {:induction false} Within(a: set<string>, b: set<string>)
    requires a <= b
    ensures |a| <= |b|
  {
    assert b == a + (b - a);
  }
}
