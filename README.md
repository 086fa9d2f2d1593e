# Mutation spectrum: a verified model of the spectrum computation

The application computes a mutational spectrum from a reference genome and a
comma-separated list of point mutations such as `C241T`. Every mutation is
placed in a bucket `<context>_<ref>><alt>`. The context is the reference
base before the mutated position followed by the base after it. Each bucket
gets a percentage, the buckets are printed as a table sorted by decreasing
percentage, and a chart lays out all 16 × 12 = 192 canonical buckets.

This project models that computation from `src/pages/index.js` in Dafny and
proves properties of it:

- `Fasta`: `fastaToRaw`, which drops header lines and joins the remaining lines.
- `Occurrences`: `getContextOccurrences`, which counts every 3-base window of the reference.
- `Buckets`: how one mutation token becomes a bucket key, and how a key splits back into its halves.
- `Submit`: the body of `handleSubmit`, in four stages.
  - counting tokens per key;
  - giving each bucket its percentage;
  - a stable sort by decreasing percentage;
  - the output table and the `data` object.
- `Ranking`: that sort, and the sums it preserves.
- `Plot`: the fill and indexing loops of `PlotSpectrum`.
- `Constants`: `allMutationTypes`, `bases` and the loop that builds `allContexts`.
- `JsString` and `JsObject`: the JavaScript semantics the code depends on.
  - `JsString` covers indexing past the end, which gives `undefined` and renders as the text `undefined`. It also covers `slice` with negative and clamped bounds, `split`, `trim`, and the digit prefix that `parseInt` reads.
  - `JsObject` models plain objects as insertion-ordered association lists. Assigning an existing key keeps its place; a new key is appended. Every bucket key contains `_`, so it is never an integer-like key that JavaScript would order first. A key of the occurrence map can be integer-like (a window such as `123`), so there the insertion order may differ from JavaScript's; the code only looks keys up in that map and never observes its order. Properties inherited from `Object.prototype` (`constructor`, `toString`, `__proto__`, ...) are not modelled, and no lookup in the code can reach one: every key of `mutationStats` and `data` contains `>`, every occurrence key is 3 characters long, and a context half is 0, 1, 2, 10 or 18 characters long with no `_` (`Buckets.KeyContextLength`); no inherited property has such a name. `Buckets.KeyMutationType` gives the text `undefined` for a key without `_`, where JavaScript would give the value `undefined`; no key the code builds lacks `_` (`Buckets.TokenKeyHasTwoHalves`).

Loops become methods, each proved against a specification function on
values. `FastaToRaw`, `GetContextOccurrences`, `CountBuckets`,
`AssignPercentages`, `BuildTable`, `BuildAllContexts`, `FillMissing` and
`IndexBars` are written this way. Lemmas then state what those functions
mean.

A main result concerns the normalisation switch.

- In normalised mode a bucket's denominator is `contextOccurrences[context]`. Here `context` is the part of the key before the first `_`. It is 2 characters long, or 10 or 18 when bases render as `undefined`; when the reference itself contains `_` it can also be 0 or 1 characters long, but never 3 (`Buckets.KeyContextLength`).
- Every key of the occurrence map is 3 characters long, so the lookup never finds anything.
- Both modes therefore give every bucket `count / totalMutations × 100` (`Submit.NormalisationHasNoEffect`).
- The percentages always add up to exactly 100 in real arithmetic (`Submit.SpectrumTotals`).

The code raises no errors and keeps every bucket:

- Malformed tokens and out-of-range positions raise no error. An empty token, a non-numeric position or a position at either end of the reference still yields a key built from `undefined` pieces (`Submit.EmptyMutations`, `Buckets.CentreBaseKeptOnOneBaseReference`).
- An empty mutation list is one empty token, not an empty result.
- The normalised branch is never taken (see above).
- Every bucket appears in the table, including the ones from malformed tokens.

## Model

| member | source | states |
|---|---|---|
| JsString.CharAt | src/pages/index.js:83 | `s[i]` is the character when `0 <= i < |s|` and `undefined` otherwise |
| JsString.Render | src/pages/index.js:153-154 | a template renders a character as itself and `undefined` as the 9-letter text |
| JsString.Add | src/pages/index.js:151 | `NaN + k` stays `NaN`; otherwise the result differs from the number by exactly `k` |
| JsString.ToInteger | src/pages/index.js:151 | definition of ToIntegerOrInfinity on a `slice` bound (`NaN` becomes 0); `Buckets.ContextWindow` states its effect |
| JsString.RelativeIndex | src/pages/index.js:150-151 | a `slice` bound counts from the end when negative and is clamped to `0..len` |
| JsString.Slice | src/pages/index.js:133 | `slice` returns the in-range substring; the result is empty when the start is not below the end |
| JsString.Split | src/pages/index.js:80 | `split` gives at least one part and no part holds the separator |
| JsString.SplitCount | src/pages/index.js:80 | a split has one more part than the text has separators |
| JsString.JoinSplit | src/pages/index.js:143 | joining the parts of a split with the same separator gives the text back |
| JsString.SplitJoin | src/pages/index.js:143 | splitting a join of separator-free parts gives the parts back |
| JsString.SplitAtFirst | src/pages/index.js:168 | a split is the text before the first separator followed by the split of the rest |
| JsString.SplitFirstPart | src/pages/index.js:168 | the first part of a split is the text before the first separator, or the whole text without one; the other parts are the split of the rest |
| JsString.SplitWithoutSeparator | src/pages/index.js:143 | a text without the separator splits into itself alone |
| JsString.Trim | src/pages/index.js:149 | `trim` keeps a contiguous middle part that neither starts nor ends with white space, and drops only white space around it |
| JsString.ParseInt | src/pages/index.js:150 | `parseInt` yields a number exactly when the text starts with a digit |
| JsString.ParseIntDecimal | src/pages/index.js:150 | `parseInt` reads back the decimal digits of any natural number followed by a non-digit |
| JsString.ParseIntDigits | src/pages/index.js:150 | `parseInt` reads the value of any run of digits, leading zeros included, followed by a non-digit or the end |
| JsString.DigitsValueOfDecimal | src/pages/index.js:150 | the digit value of a number's decimal text is that number |
| JsString.LeadingDigitsOfPrefix | src/pages/index.js:150 | the digit prefix of digits followed by a non-digit is exactly those digits |
| JsObject.IndexOf | src/pages/index.js:134 | the first position holding a key, or the length when the key is absent |
| JsObject.Find | src/pages/index.js:134 | `d[k]` is defined exactly when `k` is a key of `d` |
| JsObject.FindAt | src/pages/index.js:167 | with distinct keys, the value at a position is what a lookup of its key returns |
| JsObject.Put | src/pages/index.js:135-137 | after `d[k] = v`, `d[k]` is `v` and every other key is unchanged; an existing key keeps its place, a new key is appended, keys stay distinct |
| JsObject.PutNew | src/pages/index.js:187 | assigning a key the object lacks appends it at the end |
| JsObject.PutTwice | src/pages/index.js:158-160 | a second assignment to a key replaces the first in place |
| JsObject.Spread | src/pages/index.js:32 | `{...a, ...b}` keeps keys distinct |
| JsObject.FindSpread | src/pages/index.js:32 | in `{...a, ...b}` a key of `b` takes `b`'s value and any other key keeps `a`'s |
| JsObject.FindSnoc | src/pages/index.js:32 | after appending an entry its key finds the new value and every other key keeps its lookup |
| JsObject.TallyStep | src/pages/index.js:132-138 | counting one more element is one more increment of its counter |
| JsObject.Bump | src/pages/index.js:134-137 | definition of `if (!d[k]) d[k] = 0; d[k]++`; `JsObject.BumpFind`, `JsObject.BumpSum`, `JsObject.IncrementIsBump` and `JsObject.ZeroThenIncrementIsBump` state its effect |
| JsObject.Tally | src/pages/index.js:130-139 | definition of a counting dictionary; `JsObject.TallyFind`, `JsObject.TallyKeys` and `JsObject.TallySum` state what it holds |
| JsObject.BumpFind | src/pages/index.js:134-137 | a bump adds one to the count of its key and leaves the other keys alone |
| JsObject.BumpSum | src/pages/index.js:137 | a bump adds one to the total of the counts |
| JsObject.IncrementIsBump | src/pages/index.js:137 | `d[k]++` on a truthy counter is one bump |
| JsObject.ZeroThenIncrementIsBump | src/pages/index.js:134-137 | `d[k] = 0; d[k]++` on a falsy counter is one bump |
| JsObject.TallyFind | src/pages/index.js:134-137 | the counter of each key is its number of occurrences, and absent keys have none |
| JsObject.TallyKeys | src/pages/index.js:134-137 | the counters are in order of first appearance, with no key twice |
| JsObject.FirstAppearances | src/pages/index.js:157-158 | the keys in order of first appearance are exactly the keys that occur |
| JsObject.TallySum | src/pages/index.js:132-138 | the counters add up to the number of elements counted |
| JsObject.SumValuesUpdate | src/pages/index.js:137 | replacing one value changes the sum by the difference |
| Fasta.SequenceLines | src/pages/index.js:82-86 | the kept lines are lines of the input that do not start with `>` |
| Fasta.IsSequenceLine | src/pages/index.js:83 | definition of `line[0] !== '>'`; `Fasta.ConcatOfSequenceLinesStart` states that kept lines never start with `>` |
| Fasta.Concat | src/pages/index.js:84 | definition of `sequence += line` over the kept lines; `Fasta.FastaToRaw` is proved to compute it |
| Fasta.Raw | src/pages/index.js:79-87 | definition of the result: the kept lines concatenated in order; `Fasta.FastaToRaw` is proved to return it and the lemmas below state its properties |
| Fasta.FastaToRaw | src/pages/index.js:79-90 | the loop returns the concatenation of the kept lines; the result has no `\n` and is no longer than the input |
| Fasta.RawHasNoNewline | src/pages/index.js:80-86 | the raw sequence contains no `\n` (a `\r` of a CRLF line ending is kept, as in the source) |
| Fasta.RawIsNoLonger | src/pages/index.js:80-86 | the raw sequence is no longer than the FASTA text |
| Fasta.RawIsIdempotent | src/pages/index.js:79-90 | converting an already raw sequence changes nothing |
| Fasta.ConcatOfSequenceLinesStart | src/pages/index.js:83 | a concatenation of non-header lines does not start with `>` |
| Fasta.KeptNoLongerThanJoin | src/pages/index.js:80-86 | the kept lines together are no longer than the text they were split from |
| Occurrences.Windows | src/pages/index.js:132-133 | there are `L - 2` windows (none when `L < 3`), window `i` being characters `i..i+2` |
| Occurrences.GetContextOccurrences | src/pages/index.js:130-140 | the loop builds the count of each 3-character window |
| Occurrences.CountContext | src/pages/index.js:134-137 | `if (!occ[k]) occ[k] = 0; occ[k]++` adds one occurrence of the window |
| Occurrences.OccurrenceKeys | src/pages/index.js:133 | every key of the occurrence map is 3 characters long |
| Occurrences.OccurrenceCount | src/pages/index.js:134-137 | each window maps to its number of occurrences, and a text that is not a window is absent |
| Occurrences.OccurrenceTotal | src/pages/index.js:132-138 | the counts add up to the number of windows |
| Occurrences.OccurrencesOfShortSequence | src/pages/index.js:132 | a reference shorter than 3 has an empty occurrence map |
| Constants.BuildAllContexts | src/pages/index.js:9-16 | the nested loop gives `allContexts`, whose entry `4i + j` is base `i` followed by base `j` |
| Constants.AllMutationTypes | src/pages/index.js:4 | definition of `allMutationTypes`; `Constants.MutationTypesAreDistinctSubstitutions` states its properties |
| Constants.Bases | src/pages/index.js:5 | definition of `bases`; `Constants.BuildAllContexts` builds the contexts from it |
| Constants.AllContexts | src/pages/index.js:9-16 | definition of `allContexts`; `Constants.BuildAllContexts` is proved to build it and `Constants.ContextsAreDistinctPairs` states its properties |
| Constants.ContextsAreDistinctPairs | src/pages/index.js:9-16 | the 16 contexts are distinct and 2 bases long |
| Constants.MutationTypesAreDistinctSubstitutions | src/pages/index.js:4 | the 12 types are distinct `R>A` substitutions between two different bases |
| Buckets.Position | src/pages/index.js:150 | a token has a position exactly when it has at least 3 characters and a digit in second place |
| Buckets.ContextWindow | src/pages/index.js:151 | the window is at most 3 characters, and empty when the position is `NaN` |
| Buckets.BucketKeys | src/pages/index.js:148-155 | one key per token, in token order |
| Buckets.TokenKey | src/pages/index.js:149-155 | definition of one token's key; `Buckets.TokenKeyInRange`, `Buckets.EmptyTokenKey` and `Buckets.TokenKeyHasTwoHalves` state what it is |
| Buckets.ContextOf | src/pages/index.js:151-153 | definition of the context half; `Buckets.ContextOfWindow` states what it is |
| Buckets.ContextOfWindow | src/pages/index.js:151-153 | the context half is the window's first and third characters, each `undefined` when the window is too short |
| Buckets.MutationTypeOf | src/pages/index.js:154 | definition of the mutation type; `Buckets.MutationTypeOfEnds` states what it is |
| Buckets.MutationTypeOfEnds | src/pages/index.js:154 | the mutation type is the token's first and last characters around `>`, both `undefined` for an empty token |
| Buckets.BucketKey | src/pages/index.js:155 | definition of a key from its halves; `Buckets.KeyRoundTrip` states that splitting gives the halves back |
| Buckets.KeyContext | src/pages/index.js:168 | definition of `key.split('_')[0]`; `Buckets.KeyHalves` states what it is |
| Buckets.KeyMutationType | src/pages/index.js:168 | definition of `key.split('_')[1]`; `Buckets.KeyHalves` states what it is |
| Buckets.KeyHalves | src/pages/index.js:168 | the context half is the text before the first `_` (the whole key without one); the type half is the text between the first and second `_`, or `undefined` without a `_` |
| Buckets.Label | src/pages/index.js:186 | definition of the label `context (mutationType)` of a row and a bar |
| Buckets.TokenKeyInRange | src/pages/index.js:149-155 | for `R<p>A` with `2 <= p < |s|` the key is `s[p-2] s[p] _ R>A`, the bases around the 1-based position `p` |
| Buckets.ExampleKey | src/pages/index.js:149-155 | `G3T` on `ACGTAC` gives `CT_G>T` |
| Buckets.LeadingZeroPosition | src/pages/index.js:150 | `G03T` has position 3: a leading zero does not change it |
| Buckets.CentreBaseIsDropped | src/pages/index.js:152-153 | changing the reference base at the mutated position does not change the key |
| Buckets.CentreBaseKeptOnOneBaseReference | src/pages/index.js:151-153 | on a 1-base reference the window is that base, so `A1T` on `A` gives `Aundefined_A>T` and on `C` gives `Cundefined_A>T`, two different keys |
| Buckets.EmptyTokenKey | src/pages/index.js:149-155 | an empty token gives `undefinedundefined_undefined>undefined` |
| Buckets.KeyRoundTrip | src/pages/index.js:155-168 | splitting a key at `_` gives back its context and mutation type when neither contains `_` |
| Buckets.TokenKeyHasTwoHalves | src/pages/index.js:155-168 | every token key splits into at least two parts at `_` |
| Buckets.KeyContextIsNeverThreeLong | src/pages/index.js:153-168 | the context half of a token key is never 3 characters long |
| Buckets.KeyContextLength | src/pages/index.js:151-168 | the context half of a token key is 0, 1, 2, 10 or 18 characters long |
| Ranking.Insert | src/pages/index.js:181 | insertion adds the entry to the multiset and the length by one |
| Ranking.SortByPercentage | src/pages/index.js:181 | the sort is a permutation of the entries |
| Ranking.SortIsOrdered | src/pages/index.js:181 | the sorted entries have non-increasing percentages |
| Ranking.SortIsStable | src/pages/index.js:181 | entries with equal percentages keep their relative order |
| Ranking.SortKeepsKeys | src/pages/index.js:181 | sorting keeps the set of keys and their distinctness |
| Ranking.SortKeepsSum | src/pages/index.js:181 | sorting keeps the sum of percentages |
| Ranking.InsertKeepsOrder | src/pages/index.js:181 | insertion into a non-increasing list keeps it non-increasing |
| Ranking.InsertIsStable | src/pages/index.js:181 | insertion puts the entry before the entries of equal percentage it precedes |
| Submit.Tokens | src/pages/index.js:143 | there is always at least one token |
| Submit.Assigned | src/pages/index.js:167-176 | the percentage loop keeps keys, order and counts |
| Submit.Percentage | src/pages/index.js:170-174 | definition of a bucket's percentage in each branch; `Submit.AssignedFind`, `Submit.RawBucket` and `Submit.NormalisationHasNoEffect` state which branch applies |
| Submit.HasOccurrences | src/pages/index.js:170 | definition of the truthiness test `contextOccurrences[context]`; `Submit.UnmatchedContextsIgnoreOccurrences` states that it never holds for a bucket key |
| Submit.CountBuckets | src/pages/index.js:145-162 | the counting loop builds one bucket per distinct key, in order of first appearance, holding its count and percentage 0 |
| Submit.Counted | src/pages/index.js:145-162 | definition of the dictionary after the counting loop; `Submit.CountBuckets` is proved to return it, and `Submit.CountedFind`, `Submit.CountedTotal` and `Submit.CountedKeysOccur` state what it holds |
| Submit.CountToken | src/pages/index.js:157-160 | creating a missing bucket and incrementing its count adds one occurrence of the key |
| Submit.AssignPercentages | src/pages/index.js:164-176 | the percentage loop sets every percentage in place and returns their sum |
| Submit.BuildTable | src/pages/index.js:178-193 | the output loop gives the header, one row per sorted bucket and one `data` entry per bucket, each rescaled by the sum |
| Submit.Rescaled | src/pages/index.js:185 | definition of the rescaling; `Submit.RescaledByHundred`, `Submit.TableTotal` and `Submit.TableIsDescending` state its properties |
| Submit.TableRows | src/pages/index.js:183-186 | one row per sorted bucket; `Submit.TableSnoc` and `Submit.OutputTable` give the contents |
| Submit.KeyLabel | src/pages/index.js:184-186 | definition of a row's label from its key's halves; `Submit.TableSnoc` states where it is used |
| Submit.DataEntries | src/pages/index.js:183-191 | one `data` entry per sorted bucket; `Submit.DataFind` gives the contents |
| Submit.EmitBucket | src/pages/index.js:184-191 | the output body for bucket `i` appends its row and its new `data` entry |
| Submit.TableSnoc | src/pages/index.js:183-191 | one more sorted bucket is one more row and one more `data` entry, in order |
| Submit.HandleSubmit | src/pages/index.js:142-199 | the submit handler computes the spectrum; its raw percentages sum to 100, and the table and `data` follow the sorted buckets |
| Submit.Spectrum | src/pages/index.js:142-176 | definition of the bucket dictionary; `Submit.SpectrumBucket`, `Submit.SpectrumKeys` and `Submit.SpectrumTotals` state what it holds |
| Submit.SpectrumKeys | src/pages/index.js:157-158 | the buckets are the distinct token keys, in order of first appearance, without repetition |
| Submit.NormalisationHasNoEffect | src/pages/index.js:146-174 | normalised and raw mode give the same buckets |
| Submit.EqualPercentagesEqualCounts | src/pages/index.js:168-173 | two buckets have the same percentage exactly when they have the same count |
| Submit.ShareCancels | src/pages/index.js:173 | equal shares of the same total are shares of equal counts |
| Submit.UnmatchedContextsIgnoreOccurrences | src/pages/index.js:170-173 | when no context half can be a key of the occurrence map, the normalised branch is never taken |
| Submit.TokenKeyContexts | src/pages/index.js:153-168 | no token key has a 3-character context half |
| Submit.CountedKeysOccur | src/pages/index.js:157-160 | every bucket is the key of some token |
| Submit.CountedFind | src/pages/index.js:157-160 | each key's bucket counts the tokens with that key |
| Submit.AssignedFind | src/pages/index.js:167-174 | each bucket keeps its count and gets the percentage of its branch |
| Submit.RawBucket | src/pages/index.js:172-173 | in raw mode a key's bucket holds its count and `count / total × 100` |
| Submit.SpectrumBucket | src/pages/index.js:148-176 | a key has a bucket exactly when some token has it; the bucket holds the token count and `count / tokens × 100` |
| Submit.SpectrumIsRaw | src/pages/index.js:164-176 | the computed buckets are the raw-mode buckets, with at least one token |
| Submit.CountedTotal | src/pages/index.js:157-160 | the counts add up to the number of tokens |
| Submit.RawTotals | src/pages/index.js:172-175 | in raw mode the percentages add up to the total count's share |
| Submit.SpectrumTotals | src/pages/index.js:164-176 | the counts add up to the number of tokens and `sumRawPercentages` is 100 |
| Submit.SumOfRawPercentages | src/pages/index.js:175 | a sum of `count / total × 100` terms is the summed count over total × 100 |
| Submit.PercentagesInRange | src/pages/index.js:157-176 | every bucket has between 1 and all of the tokens, and a percentage in (0, 100] |
| Submit.RawInRange | src/pages/index.js:172-173 | in raw mode every bucket's count is between 1 and the total, and its percentage in (0, 100] |
| Submit.TableTotal | src/pages/index.js:183-186 | the rescaled row percentages add up to the rescaled sum of percentages |
| Submit.TableIsDescending | src/pages/index.js:181-186 | rescaling by a positive sum keeps the rows in descending order |
| Submit.DataFind | src/pages/index.js:183-191 | `data` has the sorted buckets' keys, each with its two halves and its rescaled percentage |
| Submit.OutputTable | src/pages/index.js:178-193 | the table has one row per bucket, in descending order, each share in (0, 100], adding up to 100 |
| Submit.SortedRowsInRange | src/pages/index.js:181-186 | sorting and rescaling by 100 keep every share in (0, 100] |
| Submit.RescaledByHundred | src/pages/index.js:185 | rescaling by a sum of 100 leaves a percentage unchanged |
| Submit.SingleToken | src/pages/index.js:143-176 | a list without commas gives a single bucket with count 1 and 100 percent |
| Submit.OneTokenKey | src/pages/index.js:143-155 | a list without commas is one token with one key |
| Submit.ExampleSpectrum | src/pages/index.js:142-176 | `G3T` on `ACGTAC` gives the single bucket `CT_G>T` with 100 percent |
| Submit.EmptyMutations | src/pages/index.js:143-176 | an empty list gives one all-`undefined` bucket with 100 percent |
| Plot.CanonicalKeyInjective | src/pages/index.js:22 | different (context, type) pairs give different keys |
| Plot.CanonicalKey | src/pages/index.js:22 | definition of `${context}_${mutation}` for a pair of indices; `Plot.CanonicalKeyInjective` states that it is injective |
| Plot.Zero | src/pages/index.js:24-28 | definition of the zero entry; `Plot.FilledCanonical` states where it is filled in |
| Plot.Filled | src/pages/index.js:19-31 | definition of `filledIn` at each point of the fill loop; `Plot.FillMissing` is proved to return it, and `Plot.FilledDistinct`, `Plot.FilledCanonical` and `Plot.FilledOther` state what it holds |
| Plot.FillStep | src/pages/index.js:22-29 | definition of one pass of the fill body; `Plot.FillStepKeys` and `Plot.FilledStep` state its effect |
| Plot.FilledDistinct | src/pages/index.js:19-31 | the filled-in entries never repeat a key |
| Plot.FillStepKeys | src/pages/index.js:22-29 | one pass of the fill body adds at most the key it visits and keeps keys distinct |
| Plot.FilledStep | src/pages/index.js:22-29 | one pass of the fill body changes only the visited key, which gets a zero exactly when `data` lacks it |
| Plot.FilledKeysCanonical | src/pages/index.js:19-31 | every key of `filledIn` is a canonical key |
| Plot.FillMissing | src/pages/index.js:19-31 | the fill loop builds `filledIn` |
| Plot.FillContext | src/pages/index.js:21-30 | the inner fill loop takes `filledIn` from one context to the next |
| Plot.FillOne | src/pages/index.js:22-29 | the fill body for `(c, t)` advances `filledIn` by one step |
| Plot.FilledCanonical | src/pages/index.js:19-31 | a canonical key is filled in with a zero exactly when `data` lacks it |
| Plot.FilledOther | src/pages/index.js:19-31 | no other key is filled in |
| Plot.MergedCanonical | src/pages/index.js:32 | after the merge every canonical key has `data`'s entry or the zero |
| Plot.MergedOther | src/pages/index.js:32 | after the merge every other key is `data`'s |
| Plot.Merged | src/pages/index.js:32 | definition of `{...filledIn, ...data}`; `Plot.MergedCanonical`, `Plot.MergedOther` and `Plot.MergedHasCanonical` state what it holds |
| Plot.MergedHasCanonical | src/pages/index.js:32 | the merge holds every canonical key, so the index loop never reads a missing entry |
| Plot.Marked | src/pages/index.js:33-46 | the index loop keeps the keys |
| Plot.MarkStep | src/pages/index.js:36-39 | one step of the index loop assigns `x` and `label` to the visited key |
| Plot.Placed | src/pages/index.js:38-39 | definition of a bar after its `x` and `label` are set; `Plot.MarkStep` and `Plot.MarkedCanonical` state where it is applied |
| Plot.CanonicalLabel | src/pages/index.js:39 | definition of the label `${context} (${mutationType})` of a canonical bar |
| Plot.MarkedStep | src/pages/index.js:36-39 | one pass of the index body changes only the visited key, whose bar gets its position and label |
| Plot.MarkedCanonical | src/pages/index.js:33-46 | every visited canonical key gets `x = 16 t + c` and its label, and the rest of its entry is kept |
| Plot.MarkedOther | src/pages/index.js:33-46 | keys that are not canonical are left alone |
| Plot.IndexBars | src/pages/index.js:33-46 | the index loop builds `allData` |
| Plot.PlaceOne | src/pages/index.js:36-40 | the index body for `(t, c)` with `counter = 16 t + c` advances `allData` by one step |
| Plot.PlotSpectrum | src/pages/index.js:17-46 | the chart gets all 192 canonical bars, each from `data` or zero, with position `16 t + c` and its label; other `data` keys pass through with no position |
| Plot.PlotSpectrumBars | src/pages/index.js:17-46 | the same three facts, about the specification of the two loops |
| Plot.PositionsAreDistinct | src/pages/index.js:33-40 | the canonical bars take positions `0..191`, a different one each |

## Left out

- React state, effects, the FASTA `fetch`, `setOutput` and `setMutData`: these are I/O. `handleSubmit` takes the stripped reference, the mutation text and the switch as parameters, and returns the table lines and `data`.
- The chart's rendering, its colours (the `twelveColors` palette, looked up per mutation type), tooltip and JSX, and `console.log`: presentation only.
- The unused constants `mutationTypes` and `contexts`, and the commented-out code.
- `toFixed(2)` formatting and the text layout of the table. A row carries its label and its percentage as a real number.
- Floating point: percentages are exact reals. The promise that they sum to 100 holds exactly here, but only approximately in IEEE doubles.
- JsString.ParseInt: reads only a decimal digit prefix, with exact integer value. Where JavaScript's `parseInt` differs, the model gives another position: leading white space or a sign inside the token (`G 3T`, `G-3T`) gives `NaN` here but a number in JavaScript; a radix prefix is read as `0` here (`G0x3T` has position 0) while JavaScript reads `0x3` as 3; a value too large for a double keeps its exact value here but is rounded in JavaScript.
- JsString.Trim: covers the ECMAScript white-space and line-terminator characters.
- JsString: a string is a sequence of Dafny `char`, one per Unicode scalar value, while JavaScript counts UTF-16 code units. A character outside the Basic Multilingual Plane is one character here and two code units in JavaScript, so lengths, indices and `slice` differ on such text: `\U{1F600}3T` has position 3 here, while in JavaScript `slice(1, -1)` gives a lone surrogate followed by `3` and `parseInt` gives `NaN`.
- Plot.PlotSpectrum: models the bars as values. In the source, `{...filledIn, ...data}` copies references, so writing `x` and `label` also changes the objects in the caller's `data`. The model does not capture that aliasing.
- Plot.PlotSpectrum: requires `data` to have distinct keys, which every JavaScript object has. The order in which `Object.values` passes bars to the chart is left out; the chart places bars by `x`.
- Plot.Marked: a canonical key missing from the merge would make the source throw. The model skips it instead, and `Plot.MergedHasCanonical` shows that this never happens.
- Submit.BuildTable: requires a non-zero sum and distinct keys. `Submit.SpectrumTotals` and `Submit.SpectrumKeys` show that `handleSubmit` always satisfies both.
