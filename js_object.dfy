/** A JavaScript plain object used as a dictionary, as the spectrum code uses
    `occurrences`, `mutationStats`, `data`, `filledIn` and `allData`: its own
    string-keyed properties, in insertion order. Assigning to an existing key
    keeps its position; assigning to a new key appends it. */
module JsObject {
  import opened Wrappers

  type Entries<V> = seq<(string, V)>

  /** `Object.keys(d)`. */
  function Keys<V>(d: Entries<V>): (ks: seq<string>)
    ensures |ks| == |d|
    ensures forall i {:trigger ks[i]} :: 0 <= i < |d| ==> ks[i] == d[i].0
  {
    seq(|d|, i requires 0 <= i < |d| => d[i].0)
  }

  /** What every JavaScript object satisfies: no key twice. */
  predicate DistinctKeys<V>(d: Entries<V>) {
    forall i, j :: 0 <= i < j < |d| ==> d[i].0 != d[j].0
  }

  /** The position of the first `k` in `ks`, or `|ks|` when there is none. */
  function IndexOf(ks: seq<string>, k: string): (i: nat)
    ensures i <= |ks|
    ensures i < |ks| ==> ks[i] == k
    ensures forall j :: 0 <= j < i ==> ks[j] != k
  {
    if ks == [] then 0
    else if ks[0] == k then 0
    else 1 + IndexOf(ks[1..], k)
  }

  lemma IndexOfMember(ks: seq<string>, k: string)
    ensures IndexOf(ks, k) < |ks| <==> k in ks
  {
  }

  /** The keys and distinctness of an object given its first entry and the rest. */
  lemma ConsKeys<V>(x: (string, V), s: Entries<V>)
    ensures ([x] + s)[1..] == s
    ensures Keys([x] + s) == [x.0] + Keys(s)
    ensures DistinctKeys([x] + s) <==> x.0 !in Keys(s) && DistinctKeys(s)
  {
    assert ([x] + s)[1..] == s;
    KeysCons(x, s);
    DistinctCons(x, s);
  }

  lemma KeysCons<V>(x: (string, V), s: Entries<V>)
    ensures Keys([x] + s) == [x.0] + Keys(s)
  {
    assert Keys([x] + s) == [x.0] + Keys(s);
  }

  lemma DistinctCons<V>(x: (string, V), s: Entries<V>)
    ensures DistinctKeys([x] + s) <==> x.0 !in Keys(s) && DistinctKeys(s)
  {
    var xs := [x] + s;
    if x.0 !in Keys(s) && DistinctKeys(s) {
      forall i, j | 0 <= i < j < |xs| ensures xs[i].0 != xs[j].0 {
        assert xs[j] == s[j - 1];
        if i == 0 {
          assert Keys(s)[j - 1] == s[j - 1].0;
        } else {
          assert xs[i] == s[i - 1];
        }
      }
    }
    if DistinctKeys(xs) {
      forall i, j | 0 <= i < j < |s| ensures s[i].0 != s[j].0 {
        assert xs[i + 1] == s[i] && xs[j + 1] == s[j];
      }
      forall i | 0 <= i < |s| ensures Keys(s)[i] != x.0 {
        assert xs[0] == x && xs[i + 1] == s[i];
      }
    }
  }

  /** `d[k]`: the value stored under `k`, or `undefined`. */
  function Find<V>(d: Entries<V>, k: string): (r: Option<V>)
    ensures r.Some? <==> k in Keys(d)
  {
    var i := IndexOf(Keys(d), k);
    IndexOfMember(Keys(d), k);
    if i < |d| then Some(d[i].1) else None
  }

  /** In an object with distinct keys, the value at a position is what a lookup
      of that position's key returns. */
  lemma FindAt<V>(d: Entries<V>, i: nat)
    requires DistinctKeys(d)
    requires i < |d|
    ensures Find(d, d[i].0) == Some(d[i].1)
  {
    var j := IndexOf(Keys(d), d[i].0);
    assert Keys(d)[i] == d[i].0;
    assert j <= i;
    assert j < |d| && d[j].0 == d[i].0;
  }

  lemma {:induction false} IndexOfSnoc(ks: seq<string>, x: string, k: string)
    ensures IndexOf(ks + [x], k) ==
              if IndexOf(ks, k) < |ks| then IndexOf(ks, k) else if x == k then |ks| else |ks| + 1
  {
    if ks != [] {
      assert (ks + [x])[1..] == ks[1..] + [x];
      IndexOfSnoc(ks[1..], x, k);
    }
  }

  /** Overwriting the first entry of `k`, at position `i`. */
  lemma Overwrite<V>(d: Entries<V>, i: nat, k: string, v: V)
    requires i == IndexOf(Keys(d), k) && i < |d|
    ensures Keys(d[i := (k, v)]) == Keys(d)
    ensures Find(d[i := (k, v)], k) == Some(v)
    ensures forall k' {:trigger Find(d[i := (k, v)], k')} :: k' != k ==> Find(d[i := (k, v)], k') == Find(d, k')
    ensures DistinctKeys(d) ==> DistinctKeys(d[i := (k, v)])
  {
    var r := d[i := (k, v)];
    assert Keys(r) == Keys(d) by {
      assert forall x :: 0 <= x < |d| ==> Keys(r)[x] == Keys(d)[x];
    }
  }

  /** Appending a new key `k`. */
  lemma Append<V>(d: Entries<V>, k: string, v: V)
    requires k !in Keys(d)
    ensures Keys(d + [(k, v)]) == Keys(d) + [k]
    ensures Find(d + [(k, v)], k) == Some(v)
    ensures forall k' {:trigger Find(d + [(k, v)], k')} :: k' != k ==> Find(d + [(k, v)], k') == Find(d, k')
    ensures DistinctKeys(d) ==> DistinctKeys(d + [(k, v)])
  {
    var r := d + [(k, v)];
    assert Keys(r) == Keys(d) + [k] by {
      assert forall x :: 0 <= x < |d| ==> Keys(r)[x] == Keys(d)[x];
    }
    forall k' ensures IndexOf(Keys(r), k') ==
        if IndexOf(Keys(d), k') < |d| then IndexOf(Keys(d), k') else if k == k' then |d| else |d| + 1 {
      IndexOfSnoc(Keys(d), k, k');
    }
    IndexOfMember(Keys(d), k);
    if DistinctKeys(d) {
      forall a, b | 0 <= a < b < |r| ensures r[a].0 != r[b].0 {
        assert r[a] == d[a] && Keys(d)[a] == d[a].0;
        if b < |d| {
          assert r[b] == d[b];
        }
      }
    }
  }

  /** `d[k] = v`: overwrites `k` in place, or appends it when it is new. */
  function Put<V>(d: Entries<V>, k: string, v: V): (r: Entries<V>)
    ensures Find(r, k) == Some(v)
    ensures forall k' {:trigger Find(r, k')} :: k' != k ==> Find(r, k') == Find(d, k')
    ensures k in Keys(d) ==> Keys(r) == Keys(d)
    ensures k !in Keys(d) ==> Keys(r) == Keys(d) + [k]
    ensures DistinctKeys(d) ==> DistinctKeys(r)
  {
    var i := IndexOf(Keys(d), k);
    IndexOfMember(Keys(d), k);
    if i < |d| then
      Overwrite(d, i, k, v);
      d[i := (k, v)]
    else
      Append(d, k, v);
      d + [(k, v)]
  }

  /** Assigning a key the object does not have appends it. */
  lemma PutNew<V>(d: Entries<V>, k: string, v: V)
    requires k !in Keys(d)
    ensures Put(d, k, v) == d + [(k, v)]
  {
    IndexOfMember(Keys(d), k);
  }

  /** A second assignment to the same key overrides the first in place. */
  lemma PutTwice<V>(d: Entries<V>, k: string, v: V, w: V)
    ensures Put(Put(d, k, v), k, w) == Put(d, k, w)
  {
    var i := IndexOf(Keys(d), k);
    IndexOfMember(Keys(d), k);
    var d1 := Put(d, k, v);
    assert IndexOf(Keys(d1), k) == i by {
      assert forall x :: 0 <= x < |d| ==> Keys(d1)[x] == Keys(d)[x];
    }
  }

  /** `{...a, ...b}`: the properties of `a`, then those of `b` assigned over them
      in `b`'s order. */
  function Spread<V>(a: Entries<V>, b: Entries<V>): (r: Entries<V>)
    ensures DistinctKeys(a) ==> DistinctKeys(r)
  {
    if b == [] then a
    else Put(Spread(a, b[..|b| - 1]), b[|b| - 1].0, b[|b| - 1].1)
  }

  /** A property of `b` wins over the same property of `a`; every other
      property keeps its value in `a`. */
  lemma {:induction false} FindSpread<V>(a: Entries<V>, b: Entries<V>, k: string)
    requires DistinctKeys(b)
    ensures Find(Spread(a, b), k) == if k in Keys(b) then Find(b, k) else Find(a, k)
  {
    if b != [] {
      var b' := b[..|b| - 1];
      var last := b[|b| - 1];
      assert b == b' + [last];
      assert DistinctKeys(b');
      FindSpread(a, b', k);
      FindSnoc(b', last, k);
      assert Spread(a, b) == Put(Spread(a, b'), last.0, last.1);
    }
  }

  /** Looking a key up after one more entry is appended. */
  lemma FindSnoc<V>(d: Entries<V>, x: (string, V), k: string)
    requires DistinctKeys(d + [x])
    ensures Keys(d + [x]) == Keys(d) + [x.0]
    ensures k != x.0 ==> Find(d + [x], k) == Find(d, k)
    ensures k == x.0 ==> k !in Keys(d) && Find(d + [x], k) == Some(x.1)
  {
    var e := d + [x];
    assert Keys(e) == Keys(d) + [x.0] by {
      assert forall i :: 0 <= i < |d| ==> Keys(e)[i] == Keys(d)[i];
    }
    IndexOfSnoc(Keys(d), x.0, k);
    IndexOfMember(Keys(d), k);
    if k == x.0 {
      FindAt(e, |d|);
    }
  }

  /** `d[k] || 0`: the count stored under `k`, or 0 when there is none. */
  function Count(d: Entries<nat>, k: string): nat {
    if Find(d, k).Some? then Find(d, k).value else 0
  }

  /** `d[k]++` after `if (!d[k]) d[k] = 0`: one more occurrence of `k`. */
  function Bump(d: Entries<nat>, k: string): Entries<nat> {
    Put<nat>(d, k, Count(d, k) + 1)
  }

  /** The counting dictionary built by bumping each key of `ks` in turn. */
  function Tally(ks: seq<string>): Entries<nat> {
    if ks == [] then [] else Bump(Tally(ks[..|ks| - 1]), ks[|ks| - 1])
  }

  /** Counting one more element of a sequence is one more bump. */
  lemma TallyStep(ks: seq<string>, i: nat)
    requires i < |ks|
    ensures Tally(ks[..i + 1]) == Bump(Tally(ks[..i]), ks[i])
  {
    assert ks[..i + 1][..i] == ks[..i];
  }

  /** The keys of `ks` in order of first appearance. */
  function FirstAppearances(ks: seq<string>): (r: seq<string>)
    ensures forall k :: k in r <==> k in ks
  {
    if ks == [] then []
    else
      var init := FirstAppearances(ks[..|ks| - 1]);
      var k := ks[|ks| - 1];
      assert ks == ks[..|ks| - 1] + [k];
      if k in ks[..|ks| - 1] then init else init + [k]
  }

  /** The count of `k` in a non-empty sequence splits into that in its prefix and its last element. */
  lemma MultisetSnoc(ks: seq<string>, k: string)
    requires ks != []
    ensures multiset(ks)[k] == multiset(ks[..|ks| - 1])[k] + if k == ks[|ks| - 1] then 1 else 0
    ensures k in ks <==> k in ks[..|ks| - 1] || k == ks[|ks| - 1]
  {
    assert ks == ks[..|ks| - 1] + [ks[|ks| - 1]];
  }

  /** A bump adds one to the count of its key and leaves the other keys alone. */
  lemma BumpFind(d: Entries<nat>, k: string, k': string)
    ensures Find(Bump(d, k), k) == Some(Count(d, k) + 1)
    ensures k' != k ==> Find(Bump(d, k), k') == Find(d, k')
  {
    assert Bump(d, k) == Put<nat>(d, k, Count(d, k) + 1);
  }

  /** Each key of `ks` is counted exactly as often as it occurs; other keys are absent. */
  lemma {:induction false} TallyFind(ks: seq<string>, k: string)
    ensures Find(Tally(ks), k) == if k in ks then Some(multiset(ks)[k]) else None
  {
    if ks != [] {
      var init, last := ks[..|ks| - 1], ks[|ks| - 1];
      MultisetSnoc(ks, k);
      TallyFind(init, k);
      assert Tally(ks) == Bump(Tally(init), last);
      BumpFind(Tally(init), last, k);
      if k == last {
        assert Count(Tally(init), k) == multiset(init)[k];
      }
    }
  }

  /** The counting dictionary has one key per distinct element, in order of first appearance. */
  lemma {:induction false} TallyKeys(ks: seq<string>)
    ensures Keys(Tally(ks)) == FirstAppearances(ks)
    ensures DistinctKeys(Tally(ks))
  {
    if ks != [] {
      var init := ks[..|ks| - 1];
      var last := ks[|ks| - 1];
      assert ks == init + [last];
      TallyKeys(init);
      TallyFind(init, last);
    }
  }

  /** The sum of the values, in order. */
  function SumValues(d: Entries<nat>): nat {
    if d == [] then 0 else SumValues(d[..|d| - 1]) + d[|d| - 1].1
  }

  lemma {:induction false} SumValuesUpdate(d: Entries<nat>, i: nat, kv: (string, nat))
    requires i < |d|
    ensures SumValues(d[i := kv]) == SumValues(d) - d[i].1 + kv.1
  {
    var d' := d[i := kv];
    if i < |d| - 1 {
      assert d'[..|d'| - 1] == d[..|d| - 1][i := kv];
      SumValuesUpdate(d[..|d| - 1], i, kv);
    } else {
      assert d'[..|d'| - 1] == d[..|d| - 1];
    }
  }

  /** Where `Put` writes: over the first entry of the key, or at the end. */
  lemma PutAt<V>(d: Entries<V>, k: string, v: V)
    ensures IndexOf(Keys(d), k) < |d| ==> Put(d, k, v) == d[IndexOf(Keys(d), k) := (k, v)]
    ensures IndexOf(Keys(d), k) == |d| ==> Put(d, k, v) == d + [(k, v)]
  {
  }

  lemma FindAtFirstIndex<V>(d: Entries<V>, k: string)
    requires IndexOf(Keys(d), k) < |d|
    ensures Find(d, k) == Some(d[IndexOf(Keys(d), k)].1)
  {
  }

  /** A bump adds one to the total of the counts. */
  lemma BumpSum(d: Entries<nat>, k: string)
    ensures SumValues(Bump(d, k)) == SumValues(d) + 1
  {
    var i := IndexOf(Keys(d), k);
    IndexOfMember(Keys(d), k);
    PutAt<nat>(d, k, Count(d, k) + 1);
    if i < |d| {
      FindAtFirstIndex(d, k);
      SumValuesUpdate(d, i, (k, d[i].1 + 1));
    } else {
      var r := d + [(k, 1)];
      assert r[..|r| - 1] == d;
    }
  }

  /** Every element of `ks` adds exactly one to the total of the counts. */
  lemma {:induction false} TallySum(ks: seq<string>)
    ensures SumValues(Tally(ks)) == |ks|
  {
    if ks != [] {
      TallySum(ks[..|ks| - 1]);
      BumpSum(Tally(ks[..|ks| - 1]), ks[|ks| - 1]);
    }
  }

  /** `d[k]++` on a truthy `d[k]` is one bump of `k`. */
  lemma IncrementIsBump(d: Entries<nat>, k: string)
    requires Find(d, k).Some? && Find(d, k).value != 0
    ensures Put<nat>(d, k, Find(d, k).value + 1) == Bump(d, k)
  {
    assert Bump(d, k) == Put<nat>(d, k, Count(d, k) + 1);
  }

  /** `d[k] = 0; d[k]++` on a falsy `d[k]` is one bump of `k`. */
  lemma ZeroThenIncrementIsBump(d: Entries<nat>, k: string)
    requires Find(d, k).None? || Find(d, k).value == 0
    ensures Find(Put<nat>(d, k, 0), k).value == 0
    ensures Put<nat>(Put<nat>(d, k, 0), k, 1) == Bump(d, k)
  {
    assert Bump(d, k) == Put<nat>(d, k, Count(d, k) + 1);
    PutTwice<nat>(d, k, 0, 1);
  }
}
