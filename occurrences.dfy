/** `getContextOccurrences`: how often each 3-character window occurs in the
    stripped reference sequence. */
module Occurrences {
  import opened Wrappers
  import opened JsString
  import opened JsObject

  /** The sliding windows of length 3, stride 1, starting at `0..L-3`. */
  function Windows(s: string): (ws: seq<string>)
    ensures |ws| == if |s| < 3 then 0 else |s| - 2
    ensures forall i :: 0 <= i < |ws| ==> ws[i] == s[i..i + 3]
  {
    if |s| < 3 then [] else seq(|s| - 2, i requires 0 <= i < |s| - 2 => s[i..i + 3])
  }

  /** `getContextOccurrences()` over `strippedSequence`. */
  method GetContextOccurrences(strippedSequence: string) returns (occurrences: Entries<nat>)
    ensures occurrences == Tally(Windows(strippedSequence))
  {
    ghost var ws := Windows(strippedSequence);
    occurrences := [];
    var i := 0;
    while i < |strippedSequence| - 2
      invariant 0 <= i <= |ws|
      invariant occurrences == Tally(ws[..i])
    {
      var context := Slice(strippedSequence, i, i + 3);
      assert context == ws[i];
      TallyStep(ws, i);
      occurrences := CountContext(occurrences, context);
      i := i + 1;
    }
    assert ws[..i] == ws;
  }

  /** The loop body: `if (!occurrences[context]) occurrences[context] = 0;`
      then `occurrences[context]++`. */
  method CountContext(occurrences: Entries<nat>, context: string) returns (counted: Entries<nat>)
    ensures counted == Bump(occurrences, context)
  {
    counted := occurrences;
    var seen := Find(counted, context);
    if seen.None? || seen.value == 0 {
      ZeroThenIncrementIsBump(counted, context);
      counted := Put<nat>(counted, context, 0);
    } else {
      IncrementIsBump(counted, context);
    }
    counted := Put<nat>(counted, context, Find(counted, context).value + 1);
  }

  /** Every key of the occurrence map is a 3-character window of the sequence. */
  lemma OccurrenceKeys(s: string)
    ensures forall k :: k in Keys(Tally(Windows(s))) ==> |k| == 3
  {
    forall k | k in Keys(Tally(Windows(s))) ensures |k| == 3 {
      TallyFind(Windows(s), k);
    }
  }

  /** A window's count is the number of positions where it occurs; a text that
      is not a window of the sequence is absent. */
  lemma OccurrenceCount(s: string, w: string)
    ensures Find(Tally(Windows(s)), w) ==
            if w in Windows(s) then Some(multiset(Windows(s))[w]) else None
  {
    TallyFind(Windows(s), w);
  }

  /** The counts add up to the number of windows, `max(0, L - 2)`. */
  lemma OccurrenceTotal(s: string)
    ensures SumValues(Tally(Windows(s))) == if |s| < 3 then 0 else |s| - 2
  {
    TallySum(Windows(s));
  }

  /** A sequence shorter than three characters has no windows. */
  lemma OccurrencesOfShortSequence(s: string)
    requires |s| < 3
    ensures Tally(Windows(s)) == []
  {
  }
}
