/** `handleSubmit`: from the stripped reference, the comma-separated mutation
    text and the normalisation flag to the bucket dictionary, the output table
    and the `data` map handed to the chart. */
module Submit {
  import opened Wrappers
  import opened JsString
  import opened JsObject
  import opened Occurrences
  import opened Buckets
  import opened Ranking

  /** One line of the output text: the header `Context_Mutation\tPercentage`,
      or a row with its label and its rescaled percentage (digit formatting
      by `toFixed(2)` is not modelled). */
  datatype Line = Header | Row(caption: string, percentage: real)

  /** `{ context, mutationType, percentage }`, one entry of `data`. */
  datatype Datum = Datum(context: string, mutationType: string, percentage: real)

  /** The tokens of `mutations.split(',')` (trimmed later, one by one). */
  function Tokens(mutations: string): (tokens: seq<string>)
    ensures |tokens| >= 1
  {
    Split(mutations, ',')
  }

  /** A counting dictionary as buckets whose percentage is still 0. */
  function Zeroed(t: Entries<nat>): (d: seq<Bucket>)
    ensures Keys(d) == Keys(t)
  {
    seq(|t|, i requires 0 <= i < |t| => (t[i].0, Stats(t[i].1, 0.0)))
  }

  lemma ZeroedFind(t: Entries<nat>, k: string)
    ensures Find(Zeroed(t), k) == if Find(t, k).Some? then Some(Stats(Find(t, k).value, 0.0)) else None
  {
  }

  lemma ZeroedPut(t: Entries<nat>, k: string, v: nat)
    ensures Zeroed(Put(t, k, v)) == Put(Zeroed(t), k, Stats(v, 0.0))
  {
    IndexOfMember(Keys(t), k);
  }

  /** The bucket dictionary after the counting loop: one entry per distinct
      key, in order of first appearance, with its number of tokens and percentage 0. */
  function Counted(keys: seq<string>): seq<Bucket> {
    Zeroed(Tally(keys))
  }

  /** `contextOccurrences[context]` is truthy: present and not zero. */
  predicate HasOccurrences(occurrences: Option<Entries<nat>>, context: string) {
    occurrences.Some? && Find(occurrences.value, context).Some? &&
    Find(occurrences.value, context).value != 0
  }

  /** The percentage given to a bucket with `count` tokens and context half `context`. */
  function Percentage(isNormalized: bool, occurrences: Option<Entries<nat>>, context: string,
                      count: nat, totalMutations: nat): real
    requires totalMutations > 0
  {
    if isNormalized && HasOccurrences(occurrences, context) then
      count as real / Find(occurrences.value, context).value as real * 100.0
    else
      count as real / totalMutations as real * 100.0
  }

  /** The bucket dictionary after the percentage loop. */
  function Assigned(counted: seq<Bucket>, isNormalized: bool, occurrences: Option<Entries<nat>>,
                    totalMutations: nat): (d: seq<Bucket>)
    requires totalMutations > 0
    ensures |d| == |counted| && Keys(d) == Keys(counted)
    ensures forall i :: 0 <= i < |d| ==> d[i].1.count == counted[i].1.count
  {
    seq(|counted|, i requires 0 <= i < |counted| =>
      (counted[i].0, Stats(counted[i].1.count,
         Percentage(isNormalized, occurrences, KeyContext(counted[i].0), counted[i].1.count, totalMutations))))
  }

  /** The label of a bucket key: `${context} (${mutationType})` of its two halves. */
  function KeyLabel(key: string): string {
    Label(KeyContext(key), KeyMutationType(key))
  }

  /** `(stats.percentage / sumRawPercentages) * 100`. */
  function Rescaled(percentage: real, sumRawPercentages: real): real
    requires sumRawPercentages != 0.0
  {
    percentage / sumRawPercentages * 100.0
  }

  /** The output rows, one per sorted bucket. */
  function TableRows(sorted: seq<Bucket>, sumRawPercentages: real): (rows: seq<Line>)
    requires sumRawPercentages != 0.0
    ensures |rows| == |sorted|
  {
    seq(|sorted|, i requires 0 <= i < |sorted| =>
      Row(KeyLabel(sorted[i].0), Rescaled(sorted[i].1.percentage, sumRawPercentages)))
  }

  /** The `data` entries, one per sorted bucket. */
  function DataEntries(sorted: seq<Bucket>, sumRawPercentages: real): (d: Entries<Datum>)
    requires sumRawPercentages != 0.0
    ensures |d| == |sorted|
  {
    seq(|sorted|, i requires 0 <= i < |sorted| =>
      (sorted[i].0, Datum(KeyContext(sorted[i].0), KeyMutationType(sorted[i].0),
                          Rescaled(sorted[i].1.percentage, sumRawPercentages))))
  }

  /** The counting loop's body for one token with key `key`: creates the
      bucket `{ count: 0, percentage: 0 }` when there is none, then adds one
      to its count. `t` holds the counts so far. */
  method CountToken(mutationStats: seq<Bucket>, key: string, ghost t: Entries<nat>)
    returns (counted: seq<Bucket>)
    requires mutationStats == Zeroed(t)
    ensures counted == Zeroed(Bump(t, key))
  {
    ZeroedFind(t, key);
    ZeroedPut(t, key, Count(t, key) + 1);
    assert Bump(t, key) == Put<nat>(t, key, Count(t, key) + 1);
    counted := mutationStats;
    if Find(counted, key).None? {
      counted := Put(counted, key, Stats(0, 0.0));
    }
    var stats := Find(counted, key).value;
    counted := Put(counted, key, Stats(stats.count + 1, stats.percentage));
    if Find(mutationStats, key).None? {
      PutTwice(mutationStats, key, Stats(0, 0.0), Stats(1, 0.0));
    }
  }

  /** The counting loop: one bucket per distinct key, incremented once per token. */
  method CountBuckets(strippedSequence: string, mutationsList: seq<string>)
    returns (mutationStats: seq<Bucket>)
    ensures mutationStats == Counted(BucketKeys(strippedSequence, mutationsList))
  {
    ghost var keys := BucketKeys(strippedSequence, mutationsList);
    mutationStats := [];
    for i := 0 to |mutationsList|
      invariant mutationStats == Counted(keys[..i])
    {
      var mutation := Trim(mutationsList[i]);
      var position := Position(mutation);
      var window := ContextWindow(strippedSequence, position);
      var context := Render(CharAt(window, 0)) + Render(CharAt(window, 2));
      var mutationType := Render(CharAt(mutation, 0)) + ">" + Render(CharAt(mutation, |mutation| - 1));
      var key := BucketKey(context, mutationType);
      assert key == keys[i];
      TallyStep(keys, i);
      mutationStats := CountToken(mutationStats, key, Tally(keys[..i]));
    }
    assert keys[..|mutationsList|] == keys;
  }

  /** The percentage loop: gives each bucket its percentage, in entry order,
      and accumulates `sumRawPercentages`. */
  method AssignPercentages(mutationStats: seq<Bucket>, isNormalized: bool,
                           contextOccurrences: Option<Entries<nat>>, totalMutations: nat)
    returns (rated: seq<Bucket>, sumRawPercentages: real)
    requires totalMutations > 0
    ensures rated == Assigned(mutationStats, isNormalized, contextOccurrences, totalMutations)
    ensures sumRawPercentages == SumPercentages(rated)
  {
    ghost var target := Assigned(mutationStats, isNormalized, contextOccurrences, totalMutations);
    rated := mutationStats;
    sumRawPercentages := 0.0;
    for j := 0 to |mutationStats|
      invariant |rated| == |mutationStats|
      invariant rated[..j] == target[..j]
      invariant rated[j..] == mutationStats[j..]
      invariant sumRawPercentages == SumPercentages(rated[..j])
    {
      var (key, stats) := rated[j];
      assert rated[j] == mutationStats[j] by { assert rated[j..][0] == mutationStats[j..][0]; }
      var context := KeyContext(key);
      var percentage := Percentage(isNormalized, contextOccurrences, context, stats.count, totalMutations);
      rated := rated[j := (key, Stats(stats.count, percentage))];
      assert rated[..j + 1] == rated[..j] + [rated[j]];
      SumPercentagesSnoc(rated[..j], rated[j]);
      sumRawPercentages := sumRawPercentages + percentage;
      assert rated[j + 1..] == mutationStats[j + 1..] by {
        assert forall x :: j + 1 <= x < |rated| ==> rated[x] == mutationStats[j..][x - j];
      }
    }
    assert rated == rated[..|mutationStats|];
  }

  /** The output loop: one row and one `data` entry per sorted bucket, each
      with its percentage rescaled by `sumRawPercentages`. */
  method BuildTable(sorted: seq<Bucket>, sumRawPercentages: real)
    returns (outputList: seq<Line>, data: Entries<Datum>)
    requires sumRawPercentages != 0.0
    requires DistinctKeys(sorted)
    ensures outputList == [Header] + TableRows(sorted, sumRawPercentages)
    ensures data == DataEntries(sorted, sumRawPercentages)
  {
    outputList := [Header];
    data := [];
    for i := 0 to |sorted|
      invariant outputList == [Header] + TableRows(sorted[..i], sumRawPercentages)
      invariant data == DataEntries(sorted[..i], sumRawPercentages)
    {
      outputList, data := EmitBucket(sorted, sumRawPercentages, i, outputList, data);
    }
    assert sorted[..|sorted|] == sorted;
  }

  /** The output loop's body for the `i`-th sorted bucket. */
  method EmitBucket(sorted: seq<Bucket>, sumRawPercentages: real, i: nat,
                    outputList: seq<Line>, data: Entries<Datum>)
    returns (outputList': seq<Line>, data': Entries<Datum>)
    requires sumRawPercentages != 0.0
    requires DistinctKeys(sorted) && i < |sorted|
    requires outputList == [Header] + TableRows(sorted[..i], sumRawPercentages)
    requires data == DataEntries(sorted[..i], sumRawPercentages)
    ensures outputList' == [Header] + TableRows(sorted[..i + 1], sumRawPercentages)
    ensures data' == DataEntries(sorted[..i + 1], sumRawPercentages)
  {
    var (key, stats) := sorted[i];
    var context, mutationType := KeyContext(key), KeyMutationType(key);
    var normalizedPercentage := Rescaled(stats.percentage, sumRawPercentages);
    outputList' := outputList + [Row(Label(context, mutationType), normalizedPercentage)];
    assert key !in Keys(data) by {
      assert forall x :: 0 <= x < i ==> Keys(data)[x] == sorted[x].0;
    }
    PutNew(data, key, Datum(context, mutationType, normalizedPercentage));
    data' := Put(data, key, Datum(context, mutationType, normalizedPercentage));
    TableSnoc(sorted, sumRawPercentages, i);
  }

  /** One more sorted bucket is one more row and one more `data` entry. */
  lemma TableSnoc(sorted: seq<Bucket>, sumRawPercentages: real, i: nat)
    requires sumRawPercentages != 0.0 && i < |sorted|
    ensures TableRows(sorted[..i + 1], sumRawPercentages) ==
              TableRows(sorted[..i], sumRawPercentages) +
              [Row(KeyLabel(sorted[i].0), Rescaled(sorted[i].1.percentage, sumRawPercentages))]
    ensures DataEntries(sorted[..i + 1], sumRawPercentages) ==
              DataEntries(sorted[..i], sumRawPercentages) +
              [(sorted[i].0, Datum(KeyContext(sorted[i].0), KeyMutationType(sorted[i].0),
                                   Rescaled(sorted[i].1.percentage, sumRawPercentages)))]
  {
    var p, q := sorted[..i + 1], sorted[..i];
    assert forall x :: 0 <= x < i ==> p[x] == q[x];
  }

  /** The bucket dictionary `handleSubmit` computes: tokens counted per key,
      then each bucket given its percentage, with the occurrence map only in
      normalised mode. */
  function Spectrum(strippedSequence: string, mutations: string, isNormalized: bool): seq<Bucket> {
    var tokens := Tokens(mutations);
    var occurrences := if isNormalized then Some(Tally(Windows(strippedSequence))) else None;
    Assigned(Counted(BucketKeys(strippedSequence, tokens)), isNormalized, occurrences, |tokens|)
  }

  /** `handleSubmit()`: the bucket dictionary, the output lines and `data`. */
  method HandleSubmit(strippedSequence: string, mutations: string, isNormalized: bool)
    returns (mutationStats: seq<Bucket>, outputList: seq<Line>, data: Entries<Datum>)
    ensures mutationStats == Spectrum(strippedSequence, mutations, isNormalized)
    ensures SumPercentages(mutationStats) == 100.0
    ensures outputList == [Header] + TableRows(SortByPercentage(mutationStats), 100.0)
    ensures data == DataEntries(SortByPercentage(mutationStats), 100.0)
  {
    var mutationsList := Split(mutations, ',');
    mutationStats := CountBuckets(strippedSequence, mutationsList);
    var contextOccurrences: Option<Entries<nat>> := None;
    if isNormalized {
      var occurrences := GetContextOccurrences(strippedSequence);
      contextOccurrences := Some(occurrences);
    }
    var totalMutations := |mutationsList|;
    var sumRawPercentages;
    mutationStats, sumRawPercentages :=
      AssignPercentages(mutationStats, isNormalized, contextOccurrences, totalMutations);
    SpectrumTotals(strippedSequence, mutations, isNormalized);
    SpectrumKeys(strippedSequence, mutations, isNormalized);
    var sortedMutationStats := SortByPercentage(mutationStats);
    SortKeepsKeys(mutationStats);
    outputList, data := BuildTable(sortedMutationStats, sumRawPercentages);
  }

  /** The sum of the counts, in order. */
  function SumCounts(s: seq<Bucket>): nat {
    if s == [] then 0 else s[0].1.count + SumCounts(s[1..])
  }

  lemma {:induction false} SumCountsSnoc(s: seq<Bucket>, x: Bucket)
    ensures SumCounts(s + [x]) == SumCounts(s) + x.1.count
  {
    if s != [] {
      assert (s + [x])[1..] == s[1..] + [x];
      SumCountsSnoc(s[1..], x);
    }
  }

  lemma {:induction false} SumCountsOfZeroed(t: Entries<nat>)
    ensures SumCounts(Zeroed(t)) == SumValues(t)
  {
    if t != [] {
      var init := t[..|t| - 1];
      SumCountsOfZeroed(init);
      assert Zeroed(t) == Zeroed(init) + [(t[|t| - 1].0, Stats(t[|t| - 1].1, 0.0))];
      SumCountsSnoc(Zeroed(init), (t[|t| - 1].0, Stats(t[|t| - 1].1, 0.0)));
    }
  }

  lemma {:induction false} SumCountsSameCounts(a: seq<Bucket>, b: seq<Bucket>)
    requires |a| == |b|
    requires forall i :: 0 <= i < |a| ==> a[i].1.count == b[i].1.count
    ensures SumCounts(a) == SumCounts(b)
  {
    if a != [] {
      SumCountsSameCounts(a[1..], b[1..]);
    }
  }

  /** When every percentage is `count / total * 100`, so is their sum. */
  lemma {:induction false} SumOfRawPercentages(s: seq<Bucket>, total: nat)
    requires total > 0
    requires forall i :: 0 <= i < |s| ==> s[i].1.percentage == s[i].1.count as real / total as real * 100.0
    ensures SumPercentages(s) == SumCounts(s) as real / total as real * 100.0
  {
    if s != [] {
      SumOfRawPercentages(s[1..], total);
      AddShares(s[0].1.count as real, SumCounts(s[1..]) as real, total as real);
    }
  }

  /** The buckets are the distinct keys of the tokens, in order of first appearance. */
  lemma SpectrumKeys(strippedSequence: string, mutations: string, isNormalized: bool)
    ensures Keys(Spectrum(strippedSequence, mutations, isNormalized)) ==
            FirstAppearances(BucketKeys(strippedSequence, Tokens(mutations)))
    ensures DistinctKeys(Spectrum(strippedSequence, mutations, isNormalized))
  {
    var keys := BucketKeys(strippedSequence, Tokens(mutations));
    TallyKeys(keys);
    var d := Spectrum(strippedSequence, mutations, isNormalized);
    assert Keys(d) == Keys(Tally(keys));
    forall i, j | 0 <= i < j < |d| ensures d[i].0 != d[j].0 {
      assert Keys(d)[i] == Tally(keys)[i].0 && Keys(d)[j] == Tally(keys)[j].0;
    }
  }

  /** No context half of a token key is three characters long. */
  lemma TokenKeyContexts(strippedSequence: string, tokens: seq<string>)
    ensures forall k :: k in BucketKeys(strippedSequence, tokens) ==> |KeyContext(k)| != 3
  {
    var keys := BucketKeys(strippedSequence, tokens);
    forall k | k in keys ensures |KeyContext(k)| != 3 {
      var j :| 0 <= j < |keys| && keys[j] == k;
      KeyContextIsNeverThreeLong(strippedSequence, tokens[j]);
    }
  }

  /** When no context half has the length of an occurrence-map key, the
      normalised branch is never taken and both modes agree. */
  lemma UnmatchedContextsIgnoreOccurrences(c: seq<Bucket>, occurrences: Entries<nat>, total: nat)
    requires total > 0
    requires forall i :: 0 <= i < |c| ==> |KeyContext(c[i].0)| != 3
    requires forall k :: k in Keys(occurrences) ==> |k| == 3
    ensures Assigned(c, true, Some(occurrences), total) == Assigned(c, false, None, total)
  {
  }

  /** Every bucket of the counting loop is the key of some token. */
  lemma CountedKeysOccur(keys: seq<string>)
    ensures forall i :: 0 <= i < |Counted(keys)| ==> Counted(keys)[i].0 in keys
  {
    var c := Counted(keys);
    forall i | 0 <= i < |c| ensures c[i].0 in keys {
      assert c[i].0 == Keys(Tally(keys))[i];
      TallyFind(keys, c[i].0);
    }
  }

  /** Normalisation by context occurrence has no effect: both modes give every
      bucket `count / totalMutations * 100`. */
  lemma NormalisationHasNoEffect(strippedSequence: string, mutations: string)
    ensures Spectrum(strippedSequence, mutations, true) == Spectrum(strippedSequence, mutations, false)
  {
    var tokens := Tokens(mutations);
    var keys := BucketKeys(strippedSequence, tokens);
    TokenKeyContexts(strippedSequence, tokens);
    OccurrenceKeys(strippedSequence);
    CountedKeysOccur(keys);
    UnmatchedContextsIgnoreOccurrences(Counted(keys), Tally(Windows(strippedSequence)), |tokens|);
  }

  /** The counting loop counts each key as often as it occurs. */
  lemma CountedFind(keys: seq<string>, k: string)
    ensures Find(Counted(keys), k) == if k in keys then Some(Stats(multiset(keys)[k], 0.0)) else None
  {
    TallyFind(keys, k);
    ZeroedFind(Tally(keys), k);
  }

  /** The percentage loop keeps each bucket's count and sets its percentage. */
  lemma AssignedFind(c: seq<Bucket>, isNormalized: bool, occurrences: Option<Entries<nat>>, total: nat, k: string)
    requires total > 0
    ensures Find(Assigned(c, isNormalized, occurrences, total), k) ==
              if Find(c, k).Some? then
                Some(Stats(Find(c, k).value.count,
                  Percentage(isNormalized, occurrences, KeyContext(k), Find(c, k).value.count, total)))
              else None
  {
    IndexOfMember(Keys(c), k);
  }

  /** Raw mode: the bucket of each distinct key holds its number of
      occurrences and that number's share of `total`, as a percentage. */
  lemma RawBucket(keys: seq<string>, total: nat, k: string)
    requires total > 0
    ensures Find(Assigned(Counted(keys), false, None, total), k) ==
              if k in keys then Some(Stats(multiset(keys)[k], multiset(keys)[k] as real / total as real * 100.0))
              else None
  {
    CountedFind(keys, k);
    AssignedFind(Counted(keys), false, None, total, k);
  }

  /** Each bucket holds the number of tokens with its key, and the share of
      all tokens that this is, as a percentage. */
  lemma SpectrumBucket(strippedSequence: string, mutations: string, isNormalized: bool, k: string)
    ensures var keys := BucketKeys(strippedSequence, Tokens(mutations));
            Find(Spectrum(strippedSequence, mutations, isNormalized), k).Some? <==> k in keys
    ensures var tokens := Tokens(mutations);
            var keys := BucketKeys(strippedSequence, tokens);
            var bucket := Find(Spectrum(strippedSequence, mutations, isNormalized), k);
            k in keys ==>
              bucket.Some? &&
              bucket.value.count == multiset(keys)[k] &&
              bucket.value.percentage == multiset(keys)[k] as real / |tokens| as real * 100.0
  {
    var tokens := Tokens(mutations);
    var keys := BucketKeys(strippedSequence, tokens);
    SpectrumIsRaw(strippedSequence, mutations, isNormalized);
    RawBucket(keys, |tokens|, k);
    var d := Assigned(Counted(keys), false, None, |tokens|);
    assert Find(d, k).Some? == (k in keys);
    assert k in keys ==> Find(d, k).value.count == multiset(keys)[k];
    assert k in keys ==> Find(d, k).value.percentage == multiset(keys)[k] as real / |tokens| as real * 100.0;
    assert Spectrum(strippedSequence, mutations, isNormalized) == d;
  }

  /** Whatever the switch says, the dictionary is the raw one. */
  lemma SpectrumIsRaw(strippedSequence: string, mutations: string, isNormalized: bool)
    ensures |Tokens(mutations)| > 0
    ensures Spectrum(strippedSequence, mutations, isNormalized) ==
              Assigned(Counted(BucketKeys(strippedSequence, Tokens(mutations))), false, None, |Tokens(mutations)|)
  {
    NormalisationHasNoEffect(strippedSequence, mutations);
  }

  /** Two buckets have the same percentage exactly when they have the same
      count: every bucket's share is taken of the same total. */
  lemma EqualPercentagesEqualCounts(strippedSequence: string, mutations: string, isNormalized: bool, i: nat, j: nat)
    requires var d := Spectrum(strippedSequence, mutations, isNormalized); i < |d| && j < |d|
    ensures var d := Spectrum(strippedSequence, mutations, isNormalized);
            d[i].1.percentage == d[j].1.percentage <==> d[i].1.count == d[j].1.count
  {
    var total := |Tokens(mutations)|;
    var d := Spectrum(strippedSequence, mutations, isNormalized);
    SpectrumIsRaw(strippedSequence, mutations, isNormalized);
    assert d[i].1.percentage == Percentage(false, None, KeyContext(d[i].0), d[i].1.count, total);
    assert d[j].1.percentage == Percentage(false, None, KeyContext(d[j].0), d[j].1.count, total);
    ShareCancels(d[i].1.count, d[j].1.count, total);
  }

  /** Equal shares of the same total are shares of equal counts. */
  lemma ShareCancels(a: nat, b: nat, total: nat)
    requires total > 0
    ensures a as real / total as real * 100.0 == b as real / total as real * 100.0 ==> a == b
  {
    if a as real / total as real * 100.0 == b as real / total as real * 100.0 {
      assert a as real / total as real == b as real / total as real;
      assert a as real == a as real / total as real * total as real;
      assert b as real == b as real / total as real * total as real;
    }
  }

  /** The counting loop's counts add up to the number of keys. */
  lemma CountedTotal(keys: seq<string>)
    ensures SumCounts(Counted(keys)) == |keys|
  {
    TallySum(keys);
    SumCountsOfZeroed(Tally(keys));
  }

  /** Raw mode keeps the counts and gives percentages that add up to the
      total count's share of `total`. */
  lemma RawTotals(c: seq<Bucket>, total: nat)
    requires total > 0
    ensures SumCounts(Assigned(c, false, None, total)) == SumCounts(c)
    ensures SumPercentages(Assigned(c, false, None, total)) == SumCounts(c) as real / total as real * 100.0
  {
    var d := Assigned(c, false, None, total);
    SumCountsSameCounts(d, c);
    SumOfRawPercentages(d, total);
  }

  /** Every token adds exactly one to exactly one bucket: the counts add up to
      the number of tokens, and the percentages to 100. */
  lemma SpectrumTotals(strippedSequence: string, mutations: string, isNormalized: bool)
    ensures SumCounts(Spectrum(strippedSequence, mutations, isNormalized)) == |Tokens(mutations)|
    ensures SumPercentages(Spectrum(strippedSequence, mutations, isNormalized)) == 100.0
  {
    var tokens := Tokens(mutations);
    var keys := BucketKeys(strippedSequence, tokens);
    NormalisationHasNoEffect(strippedSequence, mutations);
    var d := Assigned(Counted(keys), false, None, |tokens|);
    assert Spectrum(strippedSequence, mutations, isNormalized) == d;
    CountedTotal(keys);
    RawTotals(Counted(keys), |tokens|);
    WholeShare(|tokens|);
  }

  lemma WholeShare(n: nat)
    requires n > 0
    ensures n as real / n as real * 100.0 == 100.0
  {
  }

  /** Every bucket has at least one token, so its share lies in (0, 100]. */
  lemma PercentagesInRange(strippedSequence: string, mutations: string, isNormalized: bool)
    ensures var d := Spectrum(strippedSequence, mutations, isNormalized);
            forall i :: 0 <= i < |d| ==>
              1 <= d[i].1.count <= |Tokens(mutations)| &&
              0.0 < d[i].1.percentage <= 100.0
  {
    SpectrumIsRaw(strippedSequence, mutations, isNormalized);
    RawInRange(BucketKeys(strippedSequence, Tokens(mutations)));
  }

  lemma RawInRange(keys: seq<string>)
    requires |keys| > 0
    ensures var d := Assigned(Counted(keys), false, None, |keys|);
            forall i :: 0 <= i < |d| ==>
              1 <= d[i].1.count <= |keys| &&
              0.0 < d[i].1.percentage <= 100.0
  {
    var c := Counted(keys);
    var d := Assigned(c, false, None, |keys|);
    TallyKeys(keys);
    assert Keys(c) == Keys(Tally(keys));
    assert DistinctKeys(c) by {
      assert forall x :: 0 <= x < |c| ==> c[x].0 == Tally(keys)[x].0;
    }
    forall i | 0 <= i < |d|
      ensures 1 <= d[i].1.count <= |keys| && 0.0 < d[i].1.percentage <= 100.0
    {
      var k := c[i].0;
      FindAt(c, i);
      CountedFind(keys, k);
      var n := multiset(keys)[k];
      assert d[i].1.count == c[i].1.count == n;
      MultiplicityBounds(keys, k);
      ShareInRange(n, |keys|);
    }
  }

  lemma MultiplicityBounds(keys: seq<string>, k: string)
    requires k in keys
    ensures 1 <= multiset(keys)[k] <= |keys|
  {
    assert multiset(keys)[k] <= |multiset(keys)|;
  }

  lemma ShareInRange(n: nat, total: nat)
    requires 1 <= n <= total
    ensures 0.0 < n as real / total as real * 100.0 <= 100.0
  {
    assert n as real / total as real <= 1.0;
  }

  /** The row percentages, added up (the header adds nothing). */
  function SumRows(rows: seq<Line>): real {
    if rows == [] then 0.0
    else (if rows[0].Row? then rows[0].percentage else 0.0) + SumRows(rows[1..])
  }

  lemma AddShares(p: real, q: real, total: real)
    requires total != 0.0
    ensures Rescaled(p, total) + Rescaled(q, total) == Rescaled(p + q, total)
  {
  }

  lemma RescaledKeepsOrder(p: real, q: real, total: real)
    requires total > 0.0 && p >= q
    ensures Rescaled(p, total) >= Rescaled(q, total)
  {
    assert p / total >= q / total;
  }

  /** The rows' rescaled percentages add up to the buckets' total share of `sumRawPercentages`. */
  lemma {:induction false} TableTotal(sorted: seq<Bucket>, sumRawPercentages: real)
    requires sumRawPercentages != 0.0
    ensures SumRows(TableRows(sorted, sumRawPercentages)) == Rescaled(SumPercentages(sorted), sumRawPercentages)
  {
    var rows := TableRows(sorted, sumRawPercentages);
    if sorted == [] {
    } else {
      assert rows[1..] == TableRows(sorted[1..], sumRawPercentages);
      TableTotal(sorted[1..], sumRawPercentages);
      AddShares(sorted[0].1.percentage, SumPercentages(sorted[1..]), sumRawPercentages);
    }
  }

  /** Rescaling by a positive total keeps the rows in the buckets' order. */
  lemma TableIsDescending(sorted: seq<Bucket>, sumRawPercentages: real)
    requires sumRawPercentages > 0.0
    requires NonIncreasing(sorted)
    ensures var rows := TableRows(sorted, sumRawPercentages);
            forall i, j :: 0 <= i < j < |rows| ==> rows[i].percentage >= rows[j].percentage
  {
    var rows := TableRows(sorted, sumRawPercentages);
    forall i, j | 0 <= i < j < |rows| ensures rows[i].percentage >= rows[j].percentage {
      RescaledKeepsOrder(sorted[i].1.percentage, sorted[j].1.percentage, sumRawPercentages);
    }
  }

  /** Each `data` entry sits under its bucket's key and carries the key's two
      halves and the bucket's rescaled percentage. */
  lemma DataFind(sorted: seq<Bucket>, sumRawPercentages: real, k: string)
    requires sumRawPercentages != 0.0
    requires DistinctKeys(sorted)
    ensures Keys(DataEntries(sorted, sumRawPercentages)) == Keys(sorted)
    ensures DistinctKeys(DataEntries(sorted, sumRawPercentages))
    ensures Find(DataEntries(sorted, sumRawPercentages), k) ==
              if Find(sorted, k).Some? then
                Some(Datum(KeyContext(k), KeyMutationType(k), Rescaled(Find(sorted, k).value.percentage, sumRawPercentages)))
              else None
  {
    var d := DataEntries(sorted, sumRawPercentages);
    assert Keys(d) == Keys(sorted);
    IndexOfMember(Keys(sorted), k);
  }

  /** Rescaling by a sum of exactly 100 changes nothing. */
  lemma RescaledByHundred(percentage: real)
    ensures Rescaled(percentage, 100.0) == percentage
  {
  }

  /** The table `handleSubmit` prints: a header, then one row per bucket from
      the largest share down, each share in (0, 100], adding up to 100. */
  lemma OutputTable(strippedSequence: string, mutations: string, isNormalized: bool)
    ensures var rows := TableRows(SortByPercentage(Spectrum(strippedSequence, mutations, isNormalized)), 100.0);
            |rows| == |Spectrum(strippedSequence, mutations, isNormalized)| &&
            SumRows(rows) == 100.0 &&
            (forall i, j :: 0 <= i < j < |rows| ==> rows[i].percentage >= rows[j].percentage) &&
            forall i :: 0 <= i < |rows| ==> 0.0 < rows[i].percentage <= 100.0
  {
    var d := Spectrum(strippedSequence, mutations, isNormalized);
    var sorted := SortByPercentage(d);
    SpectrumTotals(strippedSequence, mutations, isNormalized);
    SortKeepsSum(d);
    TableTotal(sorted, 100.0);
    SortIsOrdered(d);
    TableIsDescending(sorted, 100.0);
    PercentagesInRange(strippedSequence, mutations, isNormalized);
    SortedRowsInRange(d);
  }

  /** Sorting and rescaling by 100 keep every share in (0, 100]. */
  lemma SortedRowsInRange(d: seq<Bucket>)
    requires forall i :: 0 <= i < |d| ==> 0.0 < d[i].1.percentage <= 100.0
    ensures var rows := TableRows(SortByPercentage(d), 100.0);
            forall i :: 0 <= i < |rows| ==> 0.0 < rows[i].percentage <= 100.0
  {
    var sorted := SortByPercentage(d);
    var rows := TableRows(sorted, 100.0);
    forall i | 0 <= i < |rows| ensures 0.0 < rows[i].percentage <= 100.0 {
      assert sorted[i] in multiset(d);
      var j :| 0 <= j < |d| && d[j] == sorted[i];
      RescaledByHundred(sorted[i].1.percentage);
    }
  }

  /** A list without a comma is one token: a single bucket holding all of it. */
  lemma SingleToken(strippedSequence: string, mutations: string, isNormalized: bool)
    requires ',' !in mutations
    ensures Spectrum(strippedSequence, mutations, isNormalized) ==
              [(TokenKey(strippedSequence, mutations), Stats(1, 100.0))]
  {
    var k := TokenKey(strippedSequence, mutations);
    OneTokenKey(strippedSequence, mutations);
    SpectrumIsRaw(strippedSequence, mutations, isNormalized);
    OneKey(k);
  }

  /** A list without a comma is one token, and so one key. */
  lemma OneTokenKey(strippedSequence: string, mutations: string)
    requires ',' !in mutations
    ensures |Tokens(mutations)| == 1
    ensures BucketKeys(strippedSequence, Tokens(mutations)) == [TokenKey(strippedSequence, mutations)]
  {
    SplitWithoutSeparator(mutations, ',');
    assert Tokens(mutations) == [mutations];
  }

  /** Counting a single key gives one bucket holding the whole share. */
  lemma OneKey(k: string)
    ensures Assigned(Counted([k]), false, None, 1) == [(k, Stats(1, 100.0))]
  {
    var empty: Entries<nat> := [];
    assert [k][..0] == [];
    assert Tally([k]) == Bump(empty, k);
    assert Find(empty, k) == None;
    assert IndexOf(Keys(empty), k) == 0;
    assert Bump(empty, k) == [(k, 1)];
    var counted: seq<Bucket> := [(k, Stats(1, 0.0))];
    assert Counted([k]) == counted;
    WholeShare(1);
    assert Percentage(false, None, KeyContext(k), 1, 1) == 100.0;
  }

  /** `G3T` on `ACGTAC`: the context `CT` around the `G` at position 3. */
  lemma ExampleSpectrum(isNormalized: bool)
    ensures Spectrum("ACGTAC", "G3T", isNormalized) == [("CT_G>T", Stats(1, 100.0))]
  {
    SingleToken("ACGTAC", "G3T", isNormalized);
    ExampleKey();
  }

  /** An empty mutation list is not rejected: it is one empty token, counted
      in a single all-`undefined` bucket holding 100 percent. */
  lemma EmptyMutations(strippedSequence: string, isNormalized: bool)
    ensures Spectrum(strippedSequence, "", isNormalized) ==
              [(Undefined + Undefined + "_" + (Undefined + ">" + Undefined), Stats(1, 100.0))]
  {
    SingleToken(strippedSequence, "", isNormalized);
    EmptyTokenKey(strippedSequence);
  }
}
