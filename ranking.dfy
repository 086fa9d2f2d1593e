/** The buckets of `handleSubmit` and their ordering: `Object.entries` of the
    bucket dictionary sorted by descending percentage with a stable sort. */
module Ranking {
  import opened JsObject

  /** `{ count, percentage }`, the value stored per bucket key. */
  datatype Stats = Stats(count: nat, percentage: real)

  /** One `[key, stats]` entry. */
  type Bucket = (string, Stats)

  predicate NonIncreasing(s: seq<Bucket>) {
    forall i, j :: 0 <= i < j < |s| ==> s[i].1.percentage >= s[j].1.percentage
  }

  /** Places `x` before the first entry whose percentage is not above its own. */
  function Insert(x: Bucket, t: seq<Bucket>): (r: seq<Bucket>)
    ensures |r| == |t| + 1
    ensures multiset(r) == multiset(t) + multiset{x}
  {
    if t == [] || t[0].1.percentage <= x.1.percentage then [x] + t
    else
      assert t == [t[0]] + t[1..];
      [t[0]] + Insert(x, t[1..])
  }

  /** `entries.sort((a, b) => b[1].percentage - a[1].percentage)`, a stable sort. */
  function SortByPercentage(s: seq<Bucket>): (r: seq<Bucket>)
    ensures |r| == |s|
    ensures multiset(r) == multiset(s)
  {
    if s == [] then []
    else
      assert s == [s[0]] + s[1..];
      Insert(s[0], SortByPercentage(s[1..]))
  }

  lemma {:induction false} InsertKeepsOrder(x: Bucket, t: seq<Bucket>)
    requires NonIncreasing(t)
    ensures NonIncreasing(Insert(x, t))
  {
    if !(t == [] || t[0].1.percentage <= x.1.percentage) {
      InsertKeepsOrder(x, t[1..]);
      var r := Insert(x, t[1..]);
      forall e | e in r ensures e.1.percentage <= t[0].1.percentage {
        assert e in multiset(r);
      }
    }
  }

  /** The sorted entries are in non-increasing order of percentage. */
  lemma {:induction false} SortIsOrdered(s: seq<Bucket>)
    ensures NonIncreasing(SortByPercentage(s))
  {
    if s != [] {
      SortIsOrdered(s[1..]);
      InsertKeepsOrder(s[0], SortByPercentage(s[1..]));
    }
  }

  /** The entries of `s` whose percentage is `v`, in order. */
  function WithPercentage(s: seq<Bucket>, v: real): (r: seq<Bucket>)
    ensures forall e :: e in r ==> e in s && e.1.percentage == v
  {
    if s == [] then []
    else (if s[0].1.percentage == v then [s[0]] else []) + WithPercentage(s[1..], v)
  }

  lemma WithPercentageCons(e: Bucket, s: seq<Bucket>, v: real)
    ensures WithPercentage([e] + s, v) ==
            (if e.1.percentage == v then [e] else []) + WithPercentage(s, v)
  {
    assert ([e] + s)[1..] == s;
  }

  /** Inserting `x` keeps, among the entries of any one percentage, the order
      they have with `x` put in front. */
  lemma {:induction false} InsertIsStable(x: Bucket, t: seq<Bucket>, v: real)
    ensures WithPercentage(Insert(x, t), v) == WithPercentage([x] + t, v)
  {
    if !(t == [] || t[0].1.percentage <= x.1.percentage) {
      var t' := t[1..];
      assert t == [t[0]] + t';
      InsertIsStable(x, t', v);
      WithPercentageCons(t[0], Insert(x, t'), v);
      WithPercentageCons(x, t', v);
      WithPercentageCons(x, t, v);
      WithPercentageCons(t[0], t', v);
    }
  }

  /** Stability: for every percentage, the entries with that percentage keep
      their original relative order, so ties stay in insertion order. */
  lemma {:induction false} SortIsStable(s: seq<Bucket>, v: real)
    ensures WithPercentage(SortByPercentage(s), v) == WithPercentage(s, v)
  {
    if s != [] {
      SortIsStable(s[1..], v);
      InsertIsStable(s[0], SortByPercentage(s[1..]), v);
      assert ([s[0]] + SortByPercentage(s[1..]))[1..] == SortByPercentage(s[1..]);
    }
  }

  /** Sorting neither adds, drops nor duplicates keys. */
  lemma {:induction false} SortKeepsKeys(s: seq<Bucket>)
    requires DistinctKeys(s)
    ensures DistinctKeys(SortByPercentage(s))
    ensures forall k :: k in Keys(SortByPercentage(s)) <==> k in Keys(s)
  {
    if s != [] {
      assert s == [s[0]] + s[1..];
      ConsKeys(s[0], s[1..]);
      SortKeepsKeys(s[1..]);
      InsertKeepsKeys(s[0], SortByPercentage(s[1..]));
    }
  }

  lemma {:induction false} InsertKeepsKeys(x: Bucket, t: seq<Bucket>)
    requires DistinctKeys(t) && x.0 !in Keys(t)
    ensures DistinctKeys(Insert(x, t))
    ensures forall k :: k in Keys(Insert(x, t)) <==> k == x.0 || k in Keys(t)
  {
    if t == [] || t[0].1.percentage <= x.1.percentage {
      ConsKeys(x, t);
    } else {
      var t' := t[1..];
      assert t == [t[0]] + t';
      ConsKeys(t[0], t');
      InsertKeepsKeys(x, t');
      ConsKeys(t[0], Insert(x, t'));
    }
  }

  /** The sum of the percentages, in order. */
  function SumPercentages(s: seq<Bucket>): real {
    if s == [] then 0.0 else s[0].1.percentage + SumPercentages(s[1..])
  }

  lemma {:induction false} SumPercentagesSnoc(s: seq<Bucket>, x: Bucket)
    ensures SumPercentages(s + [x]) == SumPercentages(s) + x.1.percentage
  {
    if s != [] {
      assert (s + [x])[1..] == s[1..] + [x];
      SumPercentagesSnoc(s[1..], x);
    }
  }

  lemma {:induction false} InsertKeepsSum(x: Bucket, t: seq<Bucket>)
    ensures SumPercentages(Insert(x, t)) == x.1.percentage + SumPercentages(t)
  {
    if !(t == [] || t[0].1.percentage <= x.1.percentage) {
      InsertKeepsSum(x, t[1..]);
    }
  }

  /** Sorting leaves the total of the percentages unchanged. */
  lemma {:induction false} SortKeepsSum(s: seq<Bucket>)
    ensures SumPercentages(SortByPercentage(s)) == SumPercentages(s)
  {
    if s != [] {
      SortKeepsSum(s[1..]);
      InsertKeepsSum(s[0], SortByPercentage(s[1..]));
    }
  }
}
