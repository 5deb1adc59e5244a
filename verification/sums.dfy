/** The reduction every canonicaliser shares: the sum of the values of
    those listed names that are present, with absent names contributing
    nothing (Python's `sum([v[n] for n in names if n in v])`). */
module Sums {

  /** Sum, in list order, of `values[n]` over the names `n` of `names`
      that are keys of `values`; 0 when none is. */
  function SumPresent(names: seq<string>, values: map<string, real>): real
  {
    if |names| == 0 then 0.0
    else
      SumPresent(names[..|names| - 1], values)
      + (if names[|names| - 1] in values then values[names[|names| - 1]] else 0.0)
  }

  /** The contribution of one name. */
  function Term(name: string, values: map<string, real>): real
  {
    if name in values then values[name] else 0.0
  }

  /** The sum over a concatenation is the sum of the sums. */
  lemma {:induction false} SumPresentAppend(a: seq<string>, b: seq<string>, values: map<string, real>)
    ensures SumPresent(a + b, values) == SumPresent(a, values) + SumPresent(b, values)
    decreases |b|
  {
    if |b| == 0 {
      assert a + b == a;
    } else {
      var b' := b[..|b| - 1];
      assert (a + b)[..|a + b| - 1] == a + b';
      assert (a + b)[|a + b| - 1] == b[|b| - 1];
      SumPresentAppend(a, b', values);
    }
  }

  lemma SumPresentSingle(n: string, values: map<string, real>)
    ensures SumPresent([n], values) == Term(n, values)
  {
    assert [n][..0] == [];
  }

  /** Reordering the names does not change the sum. */
  lemma {:induction false} SumPresentPermutation(a: seq<string>, b: seq<string>, values: map<string, real>)
    requires multiset(a) == multiset(b)
    ensures SumPresent(a, values) == SumPresent(b, values)
    decreases |a|
  {
    if |a| == 0 {
      assert |b| == |multiset(b)| == 0;
    } else {
      var x := a[0];
      assert x in multiset(b);
      var j :| 0 <= j < |b| && b[j] == x;
      var rest := b[..j] + b[j + 1..];
      assert b == b[..j] + [x] + b[j + 1..];
      assert a == [x] + a[1..];
      assert multiset(a) == multiset(a[1..]) + multiset{x};
      assert multiset(b) == multiset(rest) + multiset{x} by {
        assert multiset(b) == multiset(b[..j]) + multiset{x} + multiset(b[j + 1..]);
      }
      assert multiset(a[1..]) == multiset(a) - multiset{x};
      assert multiset(rest) == multiset(b) - multiset{x};
      SumPresentPermutation(a[1..], rest, values);
      SumPresentAppend([x], a[1..], values);
      SumPresentAppend(b[..j] + [x], b[j + 1..], values);
      SumPresentAppend(b[..j], [x], values);
      SumPresentAppend(b[..j], b[j + 1..], values);
      SumPresentSingle(x, values);
    }
  }

  /** The sum reads only the listed names: two value maps that agree on
      them (on presence and on value) give the same sum. */
  lemma {:induction false} SumPresentFrame(names: seq<string>, v1: map<string, real>, v2: map<string, real>)
    requires forall i :: 0 <= i < |names| ==> (names[i] in v1 <==> names[i] in v2)
    requires forall i :: 0 <= i < |names| && names[i] in v1 ==> v1[names[i]] == v2[names[i]]
    ensures SumPresent(names, v1) == SumPresent(names, v2)
    decreases |names|
  {
    if |names| > 0 {
      SumPresentFrame(names[..|names| - 1], v1, v2);
    }
  }

  /** Names that are all absent sum to 0. */
  lemma {:induction false} SumPresentNonepresent(names: seq<string>, values: map<string, real>)
    requires forall i :: 0 <= i < |names| ==> names[i] !in values
    ensures SumPresent(names, values) == 0.0
    decreases |names|
  {
    if |names| > 0 {
      SumPresentNonepresent(names[..|names| - 1], values);
    }
  }

  /** Every value multiplied by `k`. */
  function Scaled(values: map<string, real>, k: real): (r: map<string, real>)
    ensures r.Keys == values.Keys
    ensures forall n :: n in r ==> r[n] == k * values[n]
  {
    map n | n in values :: k * values[n]
  }

  /** Scaling every term scales the sum. */
  lemma {:induction false} SumPresentScale(names: seq<string>, values: map<string, real>, k: real)
    ensures SumPresent(names, Scaled(values, k)) == k * SumPresent(names, values)
    decreases |names|
  {
    if |names| > 0 {
      SumPresentScale(names[..|names| - 1], values, k);
    }
  }
}
