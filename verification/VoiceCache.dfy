/** The voices a cell keeps loaded (cells/moonshine_server.py, _synthesize): the last used stay, the
    oldest is closed when one too many is held. */
module VoiceCache {
  import opened Basics

  /** A locale and one of its voices, or the locale's default. */
  datatype Key = Key(tag: string, voice: Option<string>)

  // ---- the order of last use ------------------------------------------------------------

  function Without(keys: seq<Key>, k: Key): seq<Key> {
    if keys == [] then [] else (if keys[0] == k then [] else [keys[0]]) + Without(keys[1..], k)
  }

  /** Every key once, in the order of its last use, the latest at the end. */
  function Recent(used: seq<Key>): seq<Key> {
    if used == [] then [] else
      var k := used[|used| - 1];
      Without(Recent(used[..|used| - 1]), k) + [k]
  }

  function Latest(keys: seq<Key>, n: nat): (r: seq<Key>)
    ensures |r| == (if |keys| <= n then |keys| else n) && (|keys| <= n ==> r == keys)
  {
    if |keys| <= n then keys else keys[|keys| - n..]
  }

  lemma {:induction false} LatestStep(keys: seq<Key>, n: nat)
    requires 0 < n <= |keys|
    ensures Latest(keys, n)[1..] == Latest(keys, n - 1)
  {
  }

  /** What the cache does with a used key: it moves to the end, and the front goes when there are too many. */
  function Touch(keys: seq<Key>, k: Key, n: nat): seq<Key> { Latest(Without(keys, k) + [k], n) }

  predicate Distinct(keys: seq<Key>) { forall i, j :: 0 <= i < j < |keys| ==> keys[i] != keys[j] }

  lemma {:induction false} DistinctTail(keys: seq<Key>)
    requires Distinct(keys) && keys != []
    ensures Distinct(keys[1..]) && keys[0] !in keys[1..]
    ensures forall k :: k in keys <==> k == keys[0] || k in keys[1..]
  {
    assert keys == [keys[0]] + keys[1..];
  }

  lemma {:induction false} DistinctPlus(keys: seq<Key>, k: Key)
    requires Distinct(keys) && k !in keys
    ensures Distinct(keys + [k]) && forall x :: x in keys + [k] <==> x in keys || x == k
  {
  }

  lemma {:induction false} WithoutHas(keys: seq<Key>, k: Key)
    ensures forall x :: x in Without(keys, k) <==> x in keys && x != k
  {
    if keys != [] {
      WithoutHas(keys[1..], k);
      assert keys == [keys[0]] + keys[1..];
    }
  }

  lemma {:induction false} WithoutNothing(keys: seq<Key>, k: Key)
    requires k !in keys
    ensures Without(keys, k) == keys
  {
    if keys != [] {
      assert keys == [keys[0]] + keys[1..];
      WithoutNothing(keys[1..], k);
    }
  }

  lemma {:induction false} WithoutIs(keys: seq<Key>, k: Key)
    requires Distinct(keys)
    ensures Distinct(Without(keys, k)) && |Without(keys, k)| == |keys| - if k in keys then 1 else 0
  {
    if keys != [] {
      DistinctTail(keys);
      WithoutIs(keys[1..], k);
      WithoutHas(keys[1..], k);
    }
  }

  lemma {:induction false} WithoutJoin(a: seq<Key>, b: seq<Key>, k: Key)
    ensures Without(a + b, k) == Without(a, k) + Without(b, k)
  {
    if a == [] {
      assert a + b == b;
    } else {
      assert (a + b)[1..] == a[1..] + b;
      WithoutJoin(a[1..], b, k);
    }
  }

  lemma {:induction false} LatestJoin(a: seq<Key>, b: seq<Key>, n: nat)
    requires |b| >= n
    ensures Latest(a + b, n) == Latest(b, n)
  {
  }

  lemma {:induction false} LastStays(keys: seq<Key>, n: nat)
    requires keys != [] && n >= 1
    ensures keys[|keys| - 1] in Latest(keys, n)
  {
    assert Latest(keys, n)[|Latest(keys, n)| - 1] == keys[|keys| - 1];
  }

  /** Forgetting the oldest before or after a use comes to the same. */
  lemma {:induction false} TouchLatest(keys: seq<Key>, k: Key, n: nat)
    requires Distinct(keys) && n >= 1
    ensures Touch(Latest(keys, n), k, n) == Latest(Without(keys, k) + [k], n)
  {
    if |keys| > n {
      var cut := |keys| - n;
      var gone, kept := keys[..cut], keys[cut..];
      assert keys == gone + kept;
      WithoutJoin(gone, kept, k);
      assert Distinct(kept);
      WithoutIs(kept, k);
      assert Without(keys, k) + [k] == Without(gone, k) + (Without(kept, k) + [k]);
      LatestJoin(Without(gone, k), Without(kept, k) + [k], n);
    }
  }

  lemma {:induction false} RecentIsDistinct(used: seq<Key>)
    ensures Distinct(Recent(used))
  {
    if used != [] {
      var k := used[|used| - 1];
      RecentIsDistinct(used[..|used| - 1]);
      WithoutIs(Recent(used[..|used| - 1]), k);
      WithoutHas(Recent(used[..|used| - 1]), k);
    }
  }

  /** One more use of a cache that holds the latest keys leaves it holding the latest keys. */
  lemma {:induction false} StaysLatest(used: seq<Key>, k: Key, n: nat)
    requires n >= 1
    ensures Touch(Latest(Recent(used), n), k, n) == Latest(Recent(used + [k]), n)
  {
    RecentIsDistinct(used);
    TouchLatest(Recent(used), k, n);
    assert (used + [k])[..|used|] == used;
  }

  /** Whether `k` was used, and then when it was last. */
  function LastUse(used: seq<Key>, k: Key): (at: Option<nat>)
    ensures at.None? <==> k !in used
    ensures at.Some? ==> at.value < |used| && used[at.value] == k && forall j :: at.value < j < |used| ==> used[j] != k
  {
    if used == [] then None
    else if used[|used| - 1] == k then Some(|used| - 1)
    else
      assert used == used[..|used| - 1] + [used[|used| - 1]];
      LastUse(used[..|used| - 1], k)
  }

  predicate Earlier(used: seq<Key>, x: Key, y: Key) {
    LastUse(used, x).Some? && LastUse(used, y).Some? && LastUse(used, x).value < LastUse(used, y).value
  }

  /** That order is what it says: the used keys and no others, each before those used after it. */
  lemma {:induction false} RecentIsByLastUse(used: seq<Key>)
    ensures forall k :: k in Recent(used) <==> k in used
    ensures forall i, j :: 0 <= i < j < |Recent(used)| ==> Earlier(used, Recent(used)[i], Recent(used)[j])
    decreases |used|
  {
    if used != [] {
      var k, before := used[|used| - 1], used[..|used| - 1];
      assert used == before + [k];
      RecentIsByLastUse(before);
      var older, rest := Recent(before), Without(Recent(before), k);
      WithoutHas(older, k);
      assert Recent(used) == rest + [k];
      forall i, j | 0 <= i < j < |rest| + 1
        ensures Earlier(used, (rest + [k])[i], (rest + [k])[j])
      {
        assert rest[i] in rest;
        if j < |rest| {
          assert rest[j] in rest;
          var a, b := InOrder(older, k, i, j);
          assert Earlier(before, older[a], older[b]);
        }
      }
    }
  }

  lemma {:induction false} InOrder(keys: seq<Key>, k: Key, i: nat, j: nat) returns (a: nat, b: nat)
    requires i < j < |Without(keys, k)|
    ensures a < b < |keys| && keys[a] == Without(keys, k)[i] && keys[b] == Without(keys, k)[j]
  {
    var tail := Without(keys[1..], k);
    if keys[0] == k {
      a, b := InOrder(keys[1..], k, i, j);
      a, b := a + 1, b + 1;
    } else if i > 0 {
      a, b := InOrder(keys[1..], k, i - 1, j - 1);
      a, b := a + 1, b + 1;
    } else {
      assert Without(keys, k)[j] == tail[j - 1] && tail[j - 1] in tail;
      WithoutHas(keys[1..], k);
      assert tail[j - 1] in keys[1..];
      var m :| 0 <= m < |keys[1..]| && keys[1..][m] == tail[j - 1];
      a, b := 0, m + 1;
    }
  }

  // ---- the cache -----------------------------------------------------------------------

  /** A loaded voice; `close` gives its memory back. */
  class Voice {
    const key: Key
    var closed: nat

    constructor (key: Key)
      ensures this.key == key && closed == 0
    {
      this.key := key;
      closed := 0;
    }

    method Close()
      modifies this
      ensures closed == old(closed) + 1
    {
      closed := closed + 1;
    }
  }

  datatype Answer = NoVoice | NotLoaded | Spoken(voice: Voice)

  class Voices {
    /** The most voices that may be held, as it is configured. */
    const limit: int
    /** The keys held, the longest unused first, and their voices. */
    var keys: seq<Key>
    var held: map<Key, Voice>
    /** The keys of the requests that were answered, and every voice ever loaded. */
    ghost var used: seq<Key>
    ghost var loaded: set<Voice>

    ghost predicate Valid()
      reads this, loaded
    {
      && keys == Latest(Recent(used), Most())
      && Distinct(keys)
      && (forall k :: k in held <==> k in keys)
      && (forall k :: k in held ==> held[k] in loaded && held[k].key == k)
      && (forall v :: v in loaded ==> v.closed == if v.key in held && held[v.key] == v then 0 else 1)
    }

    function Most(): (n: nat)
      ensures n >= 1 && n >= limit && (n == 1 || n == limit)
    {
      if limit > 1 then limit else 1
    }

    constructor (limit: int)
      ensures Valid() && this.limit == limit && keys == [] && used == [] && loaded == {}
    {
      this.limit := limit;
      keys, held, used, loaded := [], map[], [], {};
    }

    /** `popitem(last=False)`, and the voice closed. */
    method Evict()
      requires keys != [] && Distinct(keys) && (forall k :: k in held <==> k in keys)
      modifies this`keys, this`held, held[keys[0]]
      ensures keys == old(keys[1..]) && held == old(held - {keys[0]})
      ensures old(held[keys[0]]).closed == old(held[keys[0]].closed) + 1
    {
      var oldest := keys[0];
      var dead := held[oldest];
      keys, held := keys[1..], held - {oldest};
      dead.Close();
    }

    /** What is over the limit goes, each voice closed once. */
    method Trim()
      requires Distinct(keys) && (forall k :: k in held <==> k in keys) && forall k :: k in held ==> held[k].key == k
      modifies this`keys, this`held, held.Values
      ensures keys == Latest(old(keys), Most()) && (forall k :: k in held <==> k in keys) && Distinct(keys)
      ensures forall k :: k in held ==> k in old(held) && held[k] == old(held)[k]
      ensures forall k :: k in old(held) ==> old(held)[k].closed == old(held[k].closed) + if k in held then 0 else 1
    {
      hide Latest, Distinct;
      ghost var was, voices := keys, held;
      while |keys| > Most()
        invariant |keys| <= |was| && keys == Latest(was, |keys|) && (keys == was || |keys| >= Most())
        invariant Distinct(keys) && forall k :: k in held <==> k in keys
        invariant forall k :: k in held ==> k in voices && held[k] == voices[k]
        invariant forall k :: k in voices ==> voices[k].closed == old(held[k].closed) + if k in held then 0 else 1
        decreases |keys|
      {
        LatestStep(was, |keys|);
        DistinctTail(keys);
        assert keys[0] in held;
        Evict();
      }
    }

    /** `move_to_end`. */
    method MoveToEnd(key: Key)
      requires Valid() && key in held
      modifies this`keys, this`used
      ensures Valid() && used == old(used) + [key] && keys == Touch(old(keys), key, Most())
    {
      hide Recent, Latest, Without, Distinct;
      WithoutIs(keys, key);
      WithoutHas(keys, key);
      StaysLatest(used, key, Most());
      DistinctPlus(Without(keys, key), key);
      assert |Without(keys, key) + [key]| <= Most();
      keys := Without(keys, key) + [key];
      used := used + [key];
    }

    /** A voice loaded, put at the end, and what is over the limit given back. */
    method Load(key: Key) returns (v: Voice)
      requires Valid() && key !in held
      modifies this`keys, this`held, this`used, this`loaded, held.Values
      ensures Valid() && used == old(used) + [key] && keys == Touch(old(keys), key, Most())
      ensures v !in old(loaded) && loaded == old(loaded) + {v} && key in held && held[key] == v && v.key == key
    {
      hide Recent, Latest, Without, Distinct;
      WithoutNothing(keys, key);
      StaysLatest(used, key, Most());
      DistinctPlus(keys, key);
      LastStays(keys + [key], Most());
      v := new Voice(key);
      keys, held := keys + [key], held[key := v];
      loaded, used := loaded + {v}, used + [key];
      ghost var voices := held;
      assert forall u :: u in voices.Values ==> u.key in voices && voices[u.key] == u;
      Trim();
      forall u | u in loaded
        ensures u.closed == if u.key in held && held[u.key] == u then 0 else 1
      {
        assert u in voices.Values || !(u.key in held && held[u.key] == u);
      }
    }

    /** `_synthesize` under its lock: `tag` is None for a language without voices, and `loads` says whether
        the voice can be loaded. The voice that answers is the key's own and is not closed. What was used
        last is held, and each voice ever loaded is either held, or closed once. */
    method Synthesize(tag: Option<string>, voice: Option<string>, loads: bool) returns (answer: Answer)
      requires Valid()
      modifies this, loaded
      ensures Valid()
      ensures answer.NoVoice? <==> tag.None?
      ensures answer.NotLoaded? <==> tag.Some? && !loads && Key(tag.value, voice) !in old(held)
      ensures answer.Spoken? ==> answer.voice.key == Key(tag.value, voice) && answer.voice.closed == 0
      ensures answer.Spoken? ==> used == old(used) + [Key(tag.value, voice)] && keys == Touch(old(keys), Key(tag.value, voice), Most())
      ensures answer.Spoken? && Key(tag.value, voice) in old(held) ==>
        answer.voice == old(held)[Key(tag.value, voice)] && loaded == old(loaded) && held == old(held)
      ensures answer.Spoken? && Key(tag.value, voice) !in old(held) ==>
        answer.voice !in old(loaded) && loaded == old(loaded) + {answer.voice}
      ensures !answer.Spoken? ==> keys == old(keys) && held == old(held) && used == old(used) && loaded == old(loaded)
    {
      hide Recent, Latest, Without, Distinct, Touch;
      if tag.None? { return NoVoice; }
      var key := Key(tag.value, voice);
      if key in held {
        MoveToEnd(key);
        return Spoken(held[key]);
      }
      if !loads { return NotLoaded; }
      var v := Load(key);
      return Spoken(v);
    }
  }
}
