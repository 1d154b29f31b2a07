/** Looking for a pattern in text or bytes, as Python's find does. */
module Search {

  predicate At<T(==)>(b: seq<T>, i: nat, p: seq<T>) { i + |p| <= |b| && forall j :: 0 <= j < |p| ==> b[i + j] == p[j] }

  /** find from `at`: the first place, or the length when there is none. */
  function Find<T(==)>(b: seq<T>, p: seq<T>, at: nat): (i: nat)
    requires at <= |b|
    ensures at <= i <= |b| && (i < |b| ==> i + |p| <= |b|)
    decreases |b| - at
  {
    if at == |b| || At(b, at, p) then at else Find(b, p, at + 1)
  }

  lemma {:induction false} FindSays<T>(b: seq<T>, p: seq<T>, at: nat)
    requires at <= |b|
    ensures var i := Find(b, p, at); (i < |b| ==> At(b, i, p)) && forall k :: at <= k < i ==> !At(b, k, p)
    decreases |b| - at
  {
    if at < |b| && !At(b, at, p) { FindSays(b, p, at + 1); }
  }

  predicate Contains<T(==)>(b: seq<T>, p: seq<T>) { exists i: nat :: i <= |b| && At(b, i, p) }

  lemma {:induction false} FindIs<T>(b: seq<T>, p: seq<T>, at: nat, i: nat)
    requires p != [] && at <= i && At(b, i, p) && forall k :: at <= k < i ==> !At(b, k, p)
    ensures Find(b, p, at) == i && i < |b|
  {
    FindSays(b, p, at);
    assert i < |b|;
    assert !(Find(b, p, at) < i);
  }

  lemma {:induction false} FindNone<T>(b: seq<T>, p: seq<T>)
    requires p != [] && !Contains(b, p)
    ensures Find(b, p, 0) == |b|
  {
    FindSays(b, p, 0);
  }

  lemma {:induction false} FindShift<T>(before: seq<T>, b: seq<T>, p: seq<T>, at: nat)
    requires p != [] && at <= |b|
    ensures Find(before + b, p, |before| + at) == |before| + Find(b, p, at)
  {
    var all, n := before + b, |before|;
    var i, j := Find(all, p, n + at), Find(b, p, at);
    FindSays(all, p, n + at);
    FindSays(b, p, at);
    if i < |all| { assert At(b, i - n, p); }
    if j < |b| { assert At(all, n + j, p); }
  }

  lemma {:induction false} AtShift<T>(before: seq<T>, b: seq<T>, p: seq<T>, k: nat)
    ensures At(before + b, |before| + k, p) <==> At(b, k, p)
  {
    if At(before + b, |before| + k, p) {
      forall j | 0 <= j < |p|
        ensures b[k + j] == p[j]
      {
        assert (before + b)[|before| + k + j] == p[j];
      }
    }
  }
}
