/** Facts about the values held in a list, used by the focus-offset check
    (`len(set(xs)) == 1`) and by the cycle bounds. */
module Sequences {
  import opened Wrappers

  function Elements<T>(s: seq<T>): set<T> {
    set x | x in s
  }

  predicate AllEqual<T(==)>(s: seq<T>) {
    forall i :: 0 <= i < |s| ==> s[i] == s[0]
  }

  predicate Distinct<T(==)>(s: seq<T>) {
    forall i, j :: 0 <= i < j < |s| ==> s[i] != s[j]
  }

  /** A list's set of values has exactly one element iff the list is
      non-empty and all its entries are equal. */
  lemma SingletonIffUniform<T>(s: seq<T>)
    ensures |Elements(s)| == 1 <==> (|s| > 0 && AllEqual(s))
  {
    if |s| > 0 && AllEqual(s) {
      assert Elements(s) == {s[0]};
    }
    if |Elements(s)| == 1 {
      var a :| a in Elements(s);
      assert |Elements(s) - {a}| == |Elements(s)| - |{a}| == 0;
      assert Elements(s) - {a} == {};
      assert Elements(s) == {a};
      assert s[0] in Elements(s);
      forall i | 0 <= i < |s| ensures s[i] == s[0] {
        assert s[i] in Elements(s);
      }
    }
  }

  /** A list without repeated values has as many values as entries. */
  lemma {:induction false} DistinctElements<T>(s: seq<T>)
    requires Distinct(s)
    ensures |Elements(s)| == |s|
  {
    if s != [] {
      assert Elements(s) == Elements(s[1..]) + {s[0]};
      assert s[0] !in Elements(s[1..]);
      DistinctElements(s[1..]);
    }
  }

  /** Two lists without repeats and without a common value concatenate to a
      list without repeats. */
  lemma ConcatDistinct<T>(a: seq<T>, b: seq<T>)
    requires Distinct(a) && Distinct(b)
    requires forall i :: 0 <= i < |a| ==> a[i] !in b
    ensures Distinct(a + b)
  {
    forall i, j | 0 <= i < j < |a + b|
      ensures (a + b)[i] != (a + b)[j]
    {
      if i < |a| && |a| <= j {
        assert (a + b)[i] == a[i] && (a + b)[j] in b;
      }
    }
  }

  /** `outs` is `f(1), f(2), ..., f(|outs|)`, each of them present: the
      results of a loop over `1 .. |outs|` that has not stopped. */
  predicate Follows<T(==)>(outs: seq<T>, f: nat -> Option<T>)
    decreases |outs|
  {
    outs == [] || (Follows(outs[..|outs| - 1], f) && f(|outs|) == Some(outs[|outs| - 1]))
  }

  /** `f(1), ..., f(n)` are all present. */
  predicate AllPresent<T>(f: nat -> Option<T>, n: nat) {
    n == 0 || (AllPresent(f, n - 1) && f(n).Some?)
  }

  lemma FollowsSnoc<T>(outs: seq<T>, f: nat -> Option<T>, x: T)
    requires Follows(outs, f) && f(|outs| + 1) == Some(x)
    ensures Follows(outs + [x], f)
  {
    assert (outs + [x])[..|outs|] == outs;
  }

  /** Entry `k` of a list that follows `f` is `f(k + 1)`. */
  lemma {:induction false} FollowsAt<T>(outs: seq<T>, f: nat -> Option<T>, k: nat)
    requires Follows(outs, f) && k < |outs|
    ensures f(k + 1) == Some(outs[k])
    decreases |outs|
  {
    if k < |outs| - 1 {
      var prefix := outs[..|outs| - 1];
      FollowsAt(prefix, f, k);
      assert outs[k] == prefix[k];
    }
  }

  lemma {:induction false} FollowsPresent<T>(outs: seq<T>, f: nat -> Option<T>)
    requires Follows(outs, f)
    ensures AllPresent(f, |outs|)
    decreases |outs|
  {
    if outs != [] {
      FollowsPresent(outs[..|outs| - 1], f);
    }
  }

  /** `AllPresent` holds exactly when every `f(k)`, `1 <= k <= n`, is present. */
  lemma {:induction false} AllPresentMeans<T>(f: nat -> Option<T>, n: nat)
    ensures AllPresent(f, n) <==> forall k: nat :: 1 <= k <= n ==> f(k).Some?
    decreases n
  {
    if n > 0 {
      AllPresentMeans(f, n - 1);
    }
  }
}
