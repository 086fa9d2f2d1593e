/** `PlotSpectrum`: the chart's data. Every canonical key `<context>_<type>`
    that `data` lacks is filled in with a zero bar, the fill-ins and `data`
    are merged, and each canonical bar is given its position `x` (mutation
    type major, context minor) and its `label`. */
module Plot {
  import opened Wrappers
  import opened JsObject
  import opened Constants
  import opened Buckets
  import opened Submit

  /** A bar of the chart: a `data` entry or a filled-in zero, with the `x`
      and `label` properties the index loop adds (`None` until it does). */
  datatype Bar = Bar(context: string, mutationType: string, percentage: real,
                     x: Option<int>, caption: Option<string>)

  /** `${context}_${mutation}` for context `c` and mutation type `t`. */
  function CanonicalKey(c: nat, t: nat): string
    requires c < |AllContexts| && t < |AllMutationTypes|
  {
    AllContexts[c] + "_" + AllMutationTypes[t]
  }

  /** Different (context, mutation type) pairs give different keys. */
  lemma CanonicalKeyInjective(c: nat, t: nat, c': nat, t': nat)
    requires c < |AllContexts| && t < |AllMutationTypes|
    requires c' < |AllContexts| && t' < |AllMutationTypes|
    ensures CanonicalKey(c, t) == CanonicalKey(c', t') ==> c == c' && t == t'
  {
    ContextsAreDistinctPairs();
    MutationTypesAreDistinctSubstitutions();
    var k, k' := CanonicalKey(c, t), CanonicalKey(c', t');
    assert k[..2] == AllContexts[c] && k[3..] == AllMutationTypes[t];
    assert k'[..2] == AllContexts[c'] && k'[3..] == AllMutationTypes[t'];
  }

  /** One of the 192 keys the chart lays out. */
  predicate IsCanonical(k: string) {
    exists c: nat, t: nat :: c < |AllContexts| && t < |AllMutationTypes| && k == CanonicalKey(c, t)
  }

  /** The zero entry filled in for a missing canonical key. */
  function Zero(c: nat, t: nat): Datum
    requires c < |AllContexts| && t < |AllMutationTypes|
  {
    Datum(AllContexts[c], AllMutationTypes[t], 0.0)
  }

  /** Whether the fill loop, context major, visits `(c', t')` before `(c, t)`. */
  predicate FillsBefore(c': nat, t': nat, c: nat, t: nat) {
    c' < c || (c' == c && t' < t)
  }

  /** `filledIn` once the fill loop has run through the contexts before `c`
      and, in context `c`, the mutation types before `t`: `!data[key]` holds
      exactly when `data` has no such key, since every entry of `data` is an
      object. */
  function Filled(data: Entries<Datum>, c: nat, t: nat): Entries<Datum>
    requires c <= |AllContexts| && t <= |AllMutationTypes|
    requires c == |AllContexts| ==> t == 0
    decreases c, t
  {
    if t == 0 then
      (if c == 0 then [] else Filled(data, c - 1, |AllMutationTypes|))
    else
      FillStep(data, Filled(data, c, t - 1), c, t - 1)
  }

  /** One pass of the fill loop's body: `(c, t)`'s key gets a zero entry
      when `data` lacks it. */
  function FillStep(data: Entries<Datum>, prev: Entries<Datum>, c: nat, t: nat): Entries<Datum>
    requires c < |AllContexts| && t < |AllMutationTypes|
  {
    var key := CanonicalKey(c, t);
    if key in Keys(data) then prev else Put(prev, key, Zero(c, t))
  }

  /** The body adds at most the key it visits, and keeps keys distinct. */
  lemma FillStepKeys(data: Entries<Datum>, prev: Entries<Datum>, c: nat, t: nat)
    requires c < |AllContexts| && t < |AllMutationTypes|
    ensures forall k :: k in Keys(FillStep(data, prev, c, t)) ==> k in Keys(prev) || k == CanonicalKey(c, t)
    ensures DistinctKeys(prev) ==> DistinctKeys(FillStep(data, prev, c, t))
  {
    var key := CanonicalKey(c, t);
    if key !in Keys(data) && key !in Keys(prev) {
      assert Keys(Put(prev, key, Zero(c, t))) == Keys(prev) + [key];
    }
  }

  /** `filledIn` never holds a key twice. */
  lemma {:induction false} FilledDistinct(data: Entries<Datum>, c: nat, t: nat)
    requires c <= |AllContexts| && t <= |AllMutationTypes|
    requires c == |AllContexts| ==> t == 0
    ensures DistinctKeys(Filled(data, c, t))
    decreases c, t
  {
    if t == 0 {
      if c > 0 {
        FilledDistinct(data, c - 1, |AllMutationTypes|);
      }
    } else {
      FilledDistinct(data, c, t - 1);
      FillStepKeys(data, Filled(data, c, t - 1), c, t - 1);
    }
  }

  /** The fill loop, context outer and mutation type inner. */
  method FillMissing(data: Entries<Datum>) returns (filledIn: Entries<Datum>)
    ensures filledIn == Filled(data, |AllContexts|, 0)
  {
    filledIn := [];
    for c := 0 to |AllContexts|
      invariant filledIn == Filled(data, c, 0)
    {
      filledIn := FillContext(data, filledIn, c);
    }
  }

  /** The inner fill loop, over the mutation types of context `c`. */
  method FillContext(data: Entries<Datum>, filledIn: Entries<Datum>, c: nat) returns (next: Entries<Datum>)
    requires c < |AllContexts|
    requires filledIn == Filled(data, c, 0)
    ensures next == Filled(data, c + 1, 0)
  {
    next := filledIn;
    for t := 0 to |AllMutationTypes|
      invariant next == Filled(data, c, t)
    {
      next := FillOne(data, next, c, t);
    }
  }

  /** The body of the fill loop for context `c` and mutation type `t`. */
  method FillOne(data: Entries<Datum>, filledIn: Entries<Datum>, c: nat, t: nat) returns (next: Entries<Datum>)
    requires c < |AllContexts| && t < |AllMutationTypes|
    requires filledIn == Filled(data, c, t)
    ensures next == Filled(data, c, t + 1)
  {
    next := filledIn;
    var context, mutation := AllContexts[c], AllMutationTypes[t];
    var key := context + "_" + mutation;
    if Find(data, key).None? {
      next := Put(next, key, Datum(context, mutation, 0.0));
    }
  }

  /** `filledIn[k]` once the fill loop has reached `(c, t)`. */
  function FilledAt(data: Entries<Datum>, c: nat, t: nat, k: string): Option<Datum>
    requires c <= |AllContexts| && t <= |AllMutationTypes|
    requires c == |AllContexts| ==> t == 0
  {
    Find(Filled(data, c, t), k)
  }

  /** One step of the inner fill loop touches only the key it visits, and
      fills that key in with a zero exactly when `data` lacks it. */
  lemma FilledStep(data: Entries<Datum>, c: nat, t: nat, k: string)
    requires c < |AllContexts| && 0 < t <= |AllMutationTypes|
    ensures k != CanonicalKey(c, t - 1) ==> FilledAt(data, c, t, k) == FilledAt(data, c, t - 1, k)
    ensures k == CanonicalKey(c, t - 1) && k in Keys(data) ==> FilledAt(data, c, t, k) == FilledAt(data, c, t - 1, k)
    ensures k == CanonicalKey(c, t - 1) && k !in Keys(data) ==> FilledAt(data, c, t, k) == Some(Zero(c, t - 1))
  {
    var prev := Filled(data, c, t - 1);
    var key := CanonicalKey(c, t - 1);
    assert Filled(data, c, t) == FillStep(data, prev, c, t - 1);
    if key !in Keys(data) {
      var next := Put(prev, key, Zero(c, t - 1));
      if k == key {
        assert Find(next, k) == Some(Zero(c, t - 1));
      } else {
        assert Find(next, k) == Find(prev, k);
      }
    }
  }

  /** A canonical key is filled in exactly when the loop has passed it and
      `data` lacks it. */
  lemma {:induction false} FilledCanonical(data: Entries<Datum>, c: nat, t: nat, c': nat, t': nat)
    requires c <= |AllContexts| && t <= |AllMutationTypes|
    requires c == |AllContexts| ==> t == 0
    requires c' < |AllContexts| && t' < |AllMutationTypes|
    ensures FillsBefore(c', t', c, t) && CanonicalKey(c', t') !in Keys(data) ==>
              FilledAt(data, c, t, CanonicalKey(c', t')) == Some(Zero(c', t'))
    ensures !(FillsBefore(c', t', c, t) && CanonicalKey(c', t') !in Keys(data)) ==>
              FilledAt(data, c, t, CanonicalKey(c', t')) == None
    decreases c, t
  {
    if t == 0 {
      if c > 0 {
        FilledCanonical(data, c - 1, |AllMutationTypes|, c', t');
        assert Filled(data, c, t) == Filled(data, c - 1, |AllMutationTypes|);
        assert FillsBefore(c', t', c, t) == FillsBefore(c', t', c - 1, |AllMutationTypes|);
      }
    } else {
      FilledCanonical(data, c, t - 1, c', t');
      CanonicalKeyInjective(c', t', c, t - 1);
      FilledStep(data, c, t, CanonicalKey(c', t'));
      assert FillsBefore(c', t', c, t) == (FillsBefore(c', t', c, t - 1) || (c' == c && t' == t - 1));
    }
  }

  /** Every key the fill loop adds is a canonical key. */
  lemma {:induction false} FilledKeysCanonical(data: Entries<Datum>, c: nat, t: nat)
    requires c <= |AllContexts| && t <= |AllMutationTypes|
    requires c == |AllContexts| ==> t == 0
    ensures forall k :: k in Keys(Filled(data, c, t)) ==> IsCanonical(k)
    decreases c, t
  {
    if t == 0 {
      if c > 0 {
        FilledKeysCanonical(data, c - 1, |AllMutationTypes|);
        assert Filled(data, c, t) == Filled(data, c - 1, |AllMutationTypes|);
      } else {
        assert Keys(Filled(data, c, t)) == [];
      }
    } else {
      var prev := Filled(data, c, t - 1);
      FilledKeysCanonical(data, c, t - 1);
      FillStepKeys(data, prev, c, t - 1);
      assert Filled(data, c, t) == FillStep(data, prev, c, t - 1);
      forall k | k in Keys(Filled(data, c, t)) ensures IsCanonical(k) {
        if k !in Keys(prev) {
          assert k == CanonicalKey(c, t - 1);
        }
      }
    }
  }

  /** Nothing but canonical keys is filled in. */
  lemma FilledOther(data: Entries<Datum>, c: nat, t: nat, k: string)
    requires c <= |AllContexts| && t <= |AllMutationTypes|
    requires c == |AllContexts| ==> t == 0
    requires !IsCanonical(k)
    ensures FilledAt(data, c, t, k) == None
  {
    FilledKeysCanonical(data, c, t);
  }

  /** A `data` entry as a bar that has no `x` or `label` yet. */
  function ToBar(d: Datum): Bar {
    Bar(d.context, d.mutationType, d.percentage, None, None)
  }

  function ToBars(e: Entries<Datum>): (r: Entries<Bar>)
    ensures Keys(r) == Keys(e)
    ensures DistinctKeys(e) ==> DistinctKeys(r)
  {
    seq(|e|, i requires 0 <= i < |e| => (e[i].0, ToBar(e[i].1)))
  }

  lemma ToBarsFind(e: Entries<Datum>, k: string)
    ensures Find(ToBars(e), k) == if Find(e, k).Some? then Some(ToBar(Find(e, k).value)) else None
  {
  }

  /** The canonical bar's entry after the merge: `data`'s when it has the key,
      the filled-in zero otherwise. */
  function MergedBar(data: Entries<Datum>, c: nat, t: nat): Bar
    requires c < |AllContexts| && t < |AllMutationTypes|
  {
    var key := CanonicalKey(c, t);
    if key in Keys(data) then ToBar(Find(data, key).value) else ToBar(Zero(c, t))
  }

  /** After the merge every canonical key is present: from `data` when it has
      it, as a zero otherwise. */
  lemma MergedCanonical(data: Entries<Datum>, c: nat, t: nat)
    requires DistinctKeys(data)
    requires c < |AllContexts| && t < |AllMutationTypes|
    ensures Find(Spread(ToBars(Filled(data, |AllContexts|, 0)), ToBars(data)), CanonicalKey(c, t)) ==
              Some(MergedBar(data, c, t))
  {
    var key := CanonicalKey(c, t);
    var filled := Filled(data, |AllContexts|, 0);
    FilledDistinct(data, |AllContexts|, 0);
    FindSpread(ToBars(filled), ToBars(data), key);
    ToBarsFind(data, key);
    ToBarsFind(filled, key);
    FilledCanonical(data, |AllContexts|, 0, c, t);
  }

  /** After the merge every other key is `data`'s. */
  lemma MergedOther(data: Entries<Datum>, k: string)
    requires DistinctKeys(data)
    requires !IsCanonical(k)
    ensures Find(Spread(ToBars(Filled(data, |AllContexts|, 0)), ToBars(data)), k) ==
              if k in Keys(data) then Some(ToBar(Find(data, k).value)) else None
  {
    var filled := Filled(data, |AllContexts|, 0);
    FilledDistinct(data, |AllContexts|, 0);
    FindSpread(ToBars(filled), ToBars(data), k);
    ToBarsFind(data, k);
    ToBarsFind(filled, k);
    FilledOther(data, |AllContexts|, 0, k);
  }

  /** `{...filledIn, ...data}`. */
  function Merged(data: Entries<Datum>): Entries<Bar> {
    Spread(ToBars(Filled(data, |AllContexts|, 0)), ToBars(data))
  }

  /** `label`: `${context} (${mutationType})` of a canonical key. */
  function CanonicalLabel(c: nat, t: nat): string
    requires c < |AllContexts| && t < |AllMutationTypes|
  {
    Label(AllContexts[c], AllMutationTypes[t])
  }

  /** The bar of canonical key `(c, t)` once the index loop has set its `x`
      to `16 t + c` and its `label`. */
  function Placed(b: Bar, c: nat, t: nat): Bar
    requires c < |AllContexts| && t < |AllMutationTypes|
  {
    b.(x := Some(16 * t + c), caption := Some(CanonicalLabel(c, t)))
  }

  /** Whether the index loop, mutation type major, visits `(c', t')` before `(c, t)`. */
  predicate IndexesBefore(c': nat, t': nat, c: nat, t: nat) {
    t' < t || (t' == t && c' < c)
  }

  /** `allData` once the index loop has run through the mutation types before
      `t` and, for type `t`, the contexts before `c`: the key visited `n`-th
      gets `x = n` and its label. A missing key would make the source throw
      a `TypeError`; here it is skipped, and `MergedCanonical` shows that the
      merge never lacks one. */
  function Marked(a: Entries<Bar>, t: nat, c: nat): (r: Entries<Bar>)
    requires t <= |AllMutationTypes| && c <= |AllContexts|
    requires t == |AllMutationTypes| ==> c == 0
    ensures Keys(r) == Keys(a)
    decreases t, c
  {
    if c == 0 then
      (if t == 0 then a else Marked(a, t - 1, |AllContexts|))
    else
      var prev := Marked(a, t, c - 1);
      var key := CanonicalKey(c - 1, t);
      if key in Keys(prev) then Put(prev, key, Placed(Find(prev, key).value, c - 1, t)) else prev
  }

  /** One step of the index loop, as the loop body writes it. */
  lemma MarkStep(a: Entries<Bar>, t: nat, c: nat)
    requires t < |AllMutationTypes| && c < |AllContexts|
    requires CanonicalKey(c, t) in Keys(a)
    ensures AllContexts[c] + "_" + AllMutationTypes[t] in Keys(Marked(a, t, c))
    ensures var prev := Marked(a, t, c);
            var key := AllContexts[c] + "_" + AllMutationTypes[t];
            Marked(a, t, c + 1) ==
              Put(prev, key, Find(prev, key).value.(x := Some(16 * t + c)).(caption := Some(Label(AllContexts[c], AllMutationTypes[t]))))
  {
  }

  /** One step of the inner index loop touches only the key it visits, and
      places that bar. */
  lemma MarkedStep(a: Entries<Bar>, t: nat, c: nat, k: string)
    requires t < |AllMutationTypes| && 0 < c <= |AllContexts|
    ensures k != CanonicalKey(c - 1, t) ==> Find(Marked(a, t, c), k) == Find(Marked(a, t, c - 1), k)
    ensures k == CanonicalKey(c - 1, t) && k in Keys(a) ==>
              Find(Marked(a, t, c), k) == Some(Placed(Find(Marked(a, t, c - 1), k).value, c - 1, t))
  {
    var prev := Marked(a, t, c - 1);
    var key := CanonicalKey(c - 1, t);
    if key in Keys(prev) {
      var bar := Placed(Find(prev, key).value, c - 1, t);
      assert Marked(a, t, c) == Put(prev, key, bar);
      if k == key {
        assert Find(Put(prev, key, bar), k) == Some(bar);
      } else {
        assert Find(Put(prev, key, bar), k) == Find(prev, k);
      }
    }
  }

  /** The index loop gives each canonical key it has passed its position and
      label, and leaves the rest of that bar as it was. */
  lemma {:induction false} MarkedCanonical(a: Entries<Bar>, t: nat, c: nat, c': nat, t': nat)
    requires t <= |AllMutationTypes| && c <= |AllContexts|
    requires t == |AllMutationTypes| ==> c == 0
    requires c' < |AllContexts| && t' < |AllMutationTypes|
    requires CanonicalKey(c', t') in Keys(a)
    ensures IndexesBefore(c', t', c, t) ==>
              Find(Marked(a, t, c), CanonicalKey(c', t')) == Some(Placed(Find(a, CanonicalKey(c', t')).value, c', t'))
    ensures !IndexesBefore(c', t', c, t) ==>
              Find(Marked(a, t, c), CanonicalKey(c', t')) == Find(a, CanonicalKey(c', t'))
    decreases t, c
  {
    if c == 0 {
      if t > 0 {
        MarkedCanonical(a, t - 1, |AllContexts|, c', t');
        assert Marked(a, t, c) == Marked(a, t - 1, |AllContexts|);
      }
    } else {
      MarkedCanonical(a, t, c - 1, c', t');
      CanonicalKeyInjective(c', t', c - 1, t);
      MarkedStep(a, t, c, CanonicalKey(c', t'));
    }
  }

  /** The index loop leaves every other key alone. */
  lemma {:induction false} MarkedOther(a: Entries<Bar>, t: nat, c: nat, k: string)
    requires t <= |AllMutationTypes| && c <= |AllContexts|
    requires t == |AllMutationTypes| ==> c == 0
    requires !IsCanonical(k)
    ensures Find(Marked(a, t, c), k) == Find(a, k)
    decreases t, c
  {
    if c == 0 {
      if t > 0 {
        MarkedOther(a, t - 1, |AllContexts|, k);
      }
    } else {
      MarkedOther(a, t, c - 1, k);
      assert k != CanonicalKey(c - 1, t);
    }
  }

  /** The index loop, mutation type outer and context inner, over the merged
      bars; `counter` is the position of the key being visited. */
  method IndexBars(merged: Entries<Bar>) returns (allData: Entries<Bar>)
    requires forall k {:trigger IsCanonical(k)} :: IsCanonical(k) ==> k in Keys(merged)
    ensures allData == Marked(merged, |AllMutationTypes|, 0)
  {
    allData := merged;
    var counter := 0;
    for t := 0 to |AllMutationTypes|
      invariant counter == 16 * t
      invariant allData == Marked(merged, t, 0)
    {
      for c := 0 to |AllContexts|
        invariant counter == 16 * t + c
        invariant allData == Marked(merged, t, c)
      {
        assert IsCanonical(CanonicalKey(c, t));
        allData := PlaceOne(allData, counter, t, c, merged);
        counter := counter + 1;
      }
      assert Marked(merged, t + 1, 0) == Marked(merged, t, |AllContexts|);
    }
  }

  /** The body of the index loop for mutation type `t` and context `c`. */
  method PlaceOne(allData: Entries<Bar>, counter: int, t: nat, c: nat, ghost merged: Entries<Bar>)
    returns (placed: Entries<Bar>)
    requires t < |AllMutationTypes| && c < |AllContexts|
    requires CanonicalKey(c, t) in Keys(merged)
    requires counter == 16 * t + c && allData == Marked(merged, t, c)
    ensures placed == Marked(merged, t, c + 1)
  {
    var context, mutationType := AllContexts[c], AllMutationTypes[t];
    var key := context + "_" + mutationType;
    MarkStep(merged, t, c);
    var bar := Find(allData, key).value;
    bar := bar.(x := Some(counter));
    bar := bar.(caption := Some(Label(context, mutationType)));
    placed := Put(allData, key, bar);
  }

  /** Every canonical key is in the merge. */
  lemma MergedHasCanonical(data: Entries<Datum>)
    requires DistinctKeys(data)
    ensures forall k {:trigger IsCanonical(k)} :: IsCanonical(k) ==> k in Keys(Merged(data))
  {
    forall k | IsCanonical(k) ensures k in Keys(Merged(data)) {
      var c: nat, t: nat :| c < |AllContexts| && t < |AllMutationTypes| && k == CanonicalKey(c, t);
      MergedCanonical(data, c, t);
    }
  }

  /** `PlotSpectrum({ data })`: the bars it hands to the chart. Each of the 192
      canonical bars takes `data`'s entry or a zero, position `16 t + c` and
      its label; any other key of `data` is passed through with no position. */
  method PlotSpectrum(data: Entries<Datum>) returns (allData: Entries<Bar>)
    requires DistinctKeys(data)
    ensures forall k :: k in Keys(allData) <==> k in Keys(data) || IsCanonical(k)
    ensures forall c: nat, t: nat {:trigger CanonicalKey(c, t)} ::
              c < |AllContexts| && t < |AllMutationTypes| ==>
                Find(allData, CanonicalKey(c, t)) == Some(Placed(MergedBar(data, c, t), c, t))
    ensures forall k :: !IsCanonical(k) ==>
              Find(allData, k) == if k in Keys(data) then Some(ToBar(Find(data, k).value)) else None
  {
    var filledIn := FillMissing(data);
    var merged := Spread(ToBars(filledIn), ToBars(data));
    MergedHasCanonical(data);
    allData := IndexBars(merged);
    PlotSpectrumBars(data);
  }

  /** What the index loop leaves, for `PlotSpectrum`'s postconditions. */
  lemma PlotSpectrumBars(data: Entries<Datum>)
    requires DistinctKeys(data)
    ensures forall k :: k in Keys(Marked(Merged(data), |AllMutationTypes|, 0)) <==> k in Keys(data) || IsCanonical(k)
    ensures forall c: nat, t: nat {:trigger CanonicalKey(c, t)} ::
              c < |AllContexts| && t < |AllMutationTypes| ==>
                Find(Marked(Merged(data), |AllMutationTypes|, 0), CanonicalKey(c, t)) ==
                  Some(Placed(MergedBar(data, c, t), c, t))
    ensures forall k :: !IsCanonical(k) ==>
              Find(Marked(Merged(data), |AllMutationTypes|, 0), k) ==
                if k in Keys(data) then Some(ToBar(Find(data, k).value)) else None
  {
    var m := Merged(data);
    var a := Marked(m, |AllMutationTypes|, 0);
    forall c: nat, t: nat | c < |AllContexts| && t < |AllMutationTypes|
      ensures Find(a, CanonicalKey(c, t)) ==
                Some(Placed(MergedBar(data, c, t), c, t))
    {
      MergedCanonical(data, c, t);
      MarkedCanonical(m, |AllMutationTypes|, 0, c, t);
    }
    forall k | !IsCanonical(k)
      ensures Find(a, k) == if k in Keys(data) then Some(ToBar(Find(data, k).value)) else None
    {
      MarkedOther(m, |AllMutationTypes|, 0, k);
      MergedOther(data, k);
    }
    forall k ensures k in Keys(a) <==> k in Keys(data) || IsCanonical(k) {
      if IsCanonical(k) {
        var c: nat, t: nat :| c < |AllContexts| && t < |AllMutationTypes| && k == CanonicalKey(c, t);
        MergedCanonical(data, c, t);
      } else {
        MergedOther(data, k);
      }
    }
  }

  /** The 192 canonical bars take the positions `0..191`, one each. */
  lemma PositionsAreDistinct(b: Bar, b': Bar, c: nat, t: nat, c': nat, t': nat)
    requires c < |AllContexts| && t < |AllMutationTypes|
    requires c' < |AllContexts| && t' < |AllMutationTypes|
    ensures Placed(b, c, t).x.Some?
    ensures 0 <= Placed(b, c, t).x.value < |AllContexts| * |AllMutationTypes|
    ensures (c, t) != (c', t') ==> Placed(b, c, t).x != Placed(b', c', t').x
  {
    var n, n' := 16 * t + c, 16 * t' + c';
    assert Placed(b, c, t).x == Some(n) && Placed(b', c', t').x == Some(n');
    assert |AllContexts| == 16 && |AllMutationTypes| == 12;
    if t < t' {
      assert n < 16 * (t + 1) <= n';
    } else if t' < t {
      assert n' < 16 * (t' + 1) <= n;
    }
  }
}
