/** The fixed enumerations the spectrum chart is laid out by. */
module Constants {

  /** `allMutationTypes`: the twelve substitution types in chart order. */
  const AllMutationTypes: seq<string> :=
    ["C>A", "C>G", "C>T", "T>A", "T>C", "T>G", "G>T", "G>C", "G>A", "A>T", "A>G", "A>C"]

  /** `bases`. */
  const Bases: seq<string> := ["A", "C", "G", "T"]

  /** `allContexts`: every ordered pair of bases, first base major. */
  const AllContexts: seq<string> :=
    ["AA", "AC", "AG", "AT", "CA", "CC", "CG", "CT",
     "GA", "GC", "GG", "GT", "TA", "TC", "TG", "TT"]

  /** The module-level loop that builds `allContexts` from `bases`. */
  method BuildAllContexts() returns (allContexts: seq<string>)
    ensures |allContexts| == |Bases| * |Bases|
    ensures forall i, j :: 0 <= i < |Bases| && 0 <= j < |Bases| ==>
              allContexts[|Bases| * i + j] == Bases[i] + Bases[j]
    ensures allContexts == AllContexts
  {
    allContexts := [];
    for i := 0 to |Bases|
      invariant allContexts == AllContexts[..4 * i]
    {
      for j := 0 to |Bases|
        invariant allContexts == AllContexts[..4 * i + j]
      {
        ContextAt(i, j);
        assert AllContexts[..4 * i + j + 1] == AllContexts[..4 * i + j] + [AllContexts[4 * i + j]];
        allContexts := allContexts + [Bases[i] + Bases[j]];
      }
    }
    assert allContexts == AllContexts;
    forall i, j | 0 <= i < 4 && 0 <= j < 4 ensures allContexts[4 * i + j] == Bases[i] + Bases[j] {
      ContextAt(i, j);
    }
  }

  /** Context `4 i + j` is base `i` followed by base `j`. */
  lemma ContextAt(i: nat, j: nat)
    requires i < 4 && j < 4
    ensures AllContexts[4 * i + j] == Bases[i] + Bases[j]
  {
  }

  /** Every context is two characters long and no context is listed twice. */
  lemma ContextsAreDistinctPairs()
    ensures forall j :: 0 <= j < |AllContexts| ==> |AllContexts[j]| == 2
    ensures forall j, j' :: 0 <= j < j' < |AllContexts| ==> AllContexts[j] != AllContexts[j']
  {
  }

  /** Every mutation type is `R>A` for two different bases, and none is listed twice. */
  lemma MutationTypesAreDistinctSubstitutions()
    ensures forall i :: 0 <= i < |AllMutationTypes| ==>
              |AllMutationTypes[i]| == 3 && AllMutationTypes[i][1] == '>' &&
              AllMutationTypes[i][0] != AllMutationTypes[i][2] &&
              [AllMutationTypes[i][0]] in Bases && [AllMutationTypes[i][2]] in Bases
    ensures forall i, i' :: 0 <= i < i' < |AllMutationTypes| ==> AllMutationTypes[i] != AllMutationTypes[i']
  {
  }
}
