/** How `handleSubmit` turns one mutation token into a bucket key
    `<context>_<ref>><alt>`, and how it splits a key back into its two halves. */
module Buckets {
  import opened Wrappers
  import opened JsString

  /** `parseInt(mutation.slice(1, -1))` on a trimmed token. */
  function Position(token: string): (p: Number)
    ensures p.Some? <==> |token| >= 3 && IsDigit(token[1])
  {
    match ParseInt(Slice(token, 1, -1))
    case Some(n) => Some(n)
    case None => None
  }

  /** `strippedSequence.slice(position - 2, position + 1)`; a `NaN` position
      gives `slice(NaN, NaN)`, which is `slice(0, 0)`. */
  function ContextWindow(s: string, position: Number): (w: string)
    ensures |w| <= 3
    ensures position.None? ==> w == ""
  {
    Slice(s, ToInteger(Add(position, -2)), ToInteger(Add(position, 1)))
  }

  /** `${context[0]}${context[2]}`: the window without its centre character. */
  function ContextOf(s: string, token: string): string {
    var w := ContextWindow(s, Position(token));
    Render(CharAt(w, 0)) + Render(CharAt(w, 2))
  }

  /** `${mutation[0]}>${mutation[mutation.length - 1]}`. */
  function MutationTypeOf(token: string): string {
    Render(CharAt(token, 0)) + ">" + Render(CharAt(token, |token| - 1))
  }

  /** `${context}_${mutationType}`. */
  function BucketKey(context: string, mutationType: string): string {
    context + "_" + mutationType
  }

  /** The bucket key of one raw token of the comma-separated list. */
  function TokenKey(s: string, rawToken: string): string {
    var token := Trim(rawToken);
    BucketKey(ContextOf(s, token), MutationTypeOf(token))
  }

  /** The bucket key of each token, in token order. */
  function BucketKeys(s: string, tokens: seq<string>): (keys: seq<string>)
    ensures |keys| == |tokens|
    ensures forall i :: 0 <= i < |tokens| ==> keys[i] == TokenKey(s, tokens[i])
  {
    seq(|tokens|, i requires 0 <= i < |tokens| => TokenKey(s, tokens[i]))
  }

  /** `key.split('_')[0]`, the context half of a key. */
  function KeyContext(key: string): string {
    Split(key, '_')[0]
  }

  /** `key.split('_')[1]`, the mutation-type half of a key (`undefined` when the key has no `_`). */
  function KeyMutationType(key: string): string {
    var parts := Split(key, '_');
    if |parts| >= 2 then parts[1] else Undefined
  }

  /** `${context} (${mutationType})`, the row and chart label of a key. */
  function Label(context: string, mutationType: string): string {
    context + " (" + mutationType + ")"
  }

  /** The context half is the window's first and third characters, each
      rendered as `undefined` when the window is too short. */
  lemma ContextOfWindow(s: string, token: string)
    ensures var w := ContextWindow(s, Position(token));
            var c := ContextOf(s, token);
            (|w| == 3 ==> c == [w[0], w[2]]) &&
            (0 < |w| < 3 ==> c == [w[0]] + Undefined) &&
            (w == "" ==> c == Undefined + Undefined)
  {
  }

  /** The mutation type is the token's first and last characters around `>`. */
  lemma MutationTypeOfEnds(token: string)
    ensures token != "" ==> MutationTypeOf(token) == [token[0], '>', token[|token| - 1]]
    ensures token == "" ==> MutationTypeOf(token) == Undefined + ">" + Undefined
  {
  }

  /** `key.split('_')` read as two halves: the context half is the text before
      the first `_` (the whole key when there is none); the mutation-type half
      is the text between the first and the second `_`, or `undefined` when the
      key has no `_`. */
  lemma KeyHalves(key: string)
    ensures '_' !in KeyContext(key) && KeyContext(key) <= key
    ensures '_' !in key ==> KeyContext(key) == key && KeyMutationType(key) == Undefined
    ensures '_' in key ==> '_' !in KeyMutationType(key) && KeyContext(key) + "_" + KeyMutationType(key) <= key
    ensures var n := |KeyContext(key)| + 1 + |KeyMutationType(key)|;
            '_' in key && n < |key| ==> key[n] == '_'
  {
    var p := KeyContext(key);
    SplitFirstPart(key, '_');
    if |p| == |key| {
      assert p == key;
      SplitWithoutSeparator(key, '_');
    } else {
      var b := key[|p| + 1..];
      assert key == p + "_" + b;
      assert KeyMutationType(key) == Split(b, '_')[0];
      SplitFirstPart(b, '_');
    }
  }

  /** A token `<ref><position><alt>` whose position has a base on both sides:
      the key is the two flanking reference bases, then `ref>alt` as written
      in the token; the reference base at the position plays no part. */
  lemma TokenKeyInRange(s: string, ref: char, p: nat, alt: char)
    requires 2 <= p < |s|
    requires !IsWhiteSpace(ref) && !IsWhiteSpace(alt)
    ensures TokenKey(s, [ref] + Decimal(p) + [alt]) == [s[p - 2], s[p]] + "_" + [ref, '>', alt]
  {
    var token := [ref] + Decimal(p) + [alt];
    TrimKeepsToken(ref, p, alt);
    assert Slice(token, 1, -1) == Decimal(p) + "";
    ParseIntDecimal(p, "");
    assert Position(token) == Some(p);
    var w := ContextWindow(s, Some(p));
    assert w == s[p - 2..p + 1];
    assert CharAt(w, 0) == Some(s[p - 2]) && CharAt(w, 2) == Some(s[p]);
    assert ContextOf(s, token) == [s[p - 2], s[p]];
    assert token[0] == ref && token[|token| - 1] == alt;
    assert MutationTypeOf(token) == [ref, '>', alt];
    assert TokenKey(s, token) == BucketKey(ContextOf(s, token), MutationTypeOf(token));
  }

  /** The worked example: reference `ACGTAC` and token `G3T` give `CT_G>T`. */
  lemma ExampleKey()
    ensures TokenKey("ACGTAC", "G3T") == "CT_G>T"
  {
    var s := "ACGTAC";
    assert Decimal(3) == "3";
    assert ['G'] + Decimal(3) + ['T'] == "G3T";
    TokenKeyInRange(s, 'G', 3, 'T');
    assert s[1] == 'C' && s[3] == 'T';
    assert [s[1], s[3]] + "_" + ['G', '>', 'T'] == "CT_G>T";
  }

  /** A leading zero does not change the position: `G03T` is at position 3. */
  lemma LeadingZeroPosition()
    ensures Position("G03T") == Some(3)
  {
    assert Slice("G03T", 1, -1) == "03" + "";
    ParseIntDigits("03", "");
    assert DigitsValue("03") == 3;
  }

  /** A key built from two halves without `_` splits back into those halves,
      so the label of a bucket is `<context> (<mutationType>)`. */
  lemma KeyRoundTrip(context: string, mutationType: string)
    requires '_' !in context && '_' !in mutationType
    ensures KeyContext(BucketKey(context, mutationType)) == context
    ensures KeyMutationType(BucketKey(context, mutationType)) == mutationType
  {
    SplitAtFirst(context, '_', mutationType);
    SplitWithoutSeparator(mutationType, '_');
  }

  /** Every token key contains `_`, so its split has a mutation-type half. */
  lemma TokenKeyHasTwoHalves(s: string, rawToken: string)
    ensures |Split(TokenKey(s, rawToken), '_')| >= 2
  {
    var token := Trim(rawToken);
    var key := TokenKey(s, rawToken);
    var c := ContextOf(s, token);
    assert key == c + ['_'] + MutationTypeOf(token);
    assert key[|c|] == '_';
    assert multiset(key)['_'] >= 1;
    SplitCount(key, '_');
  }

  /** The context half of a token key is 0, 1, 2, 10 or 18 characters long:
      empty when the window starts with `_`, one real character when its third
      character is `_`, and otherwise the two rendered characters. A lone
      `undefined` half cannot occur, since a third character needs a full
      window, whose first character is real. */
  lemma KeyContextLength(s: string, rawToken: string)
    ensures var n := |KeyContext(TokenKey(s, rawToken))|;
            n == 0 || n == 1 || n == 2 || n == 10 || n == 18
  {
    var token := Trim(rawToken);
    var w := ContextWindow(s, Position(token));
    var r0, r2 := Render(CharAt(w, 0)), Render(CharAt(w, 2));
    var m := MutationTypeOf(token);
    assert TokenKey(s, rawToken) == r0 + r2 + "_" + m;
    if '_' in r0 {
      assert r0 == "_";
      HalfAfterLeadingSeparator(r2, m);
    } else if '_' in r2 {
      assert CharAt(w, 2).Some?;
      assert CharAt(w, 0).Some?;
      HalfBeforeSecondSeparator(r0, m);
    } else {
      HalfWithoutSeparator(r0, r2, m);
    }
  }

  /** The context half of a token key is never three characters long, so it
      is never a key of the occurrence map. */
  lemma KeyContextIsNeverThreeLong(s: string, rawToken: string)
    ensures |KeyContext(TokenKey(s, rawToken))| != 3
  {
    KeyContextLength(s, rawToken);
  }

  lemma HalfAfterLeadingSeparator(r2: string, m: string)
    ensures Split("_" + r2 + "_" + m, '_')[0] == ""
  {
    assert "_" + r2 + "_" + m == "" + ['_'] + (r2 + "_" + m);
    SplitAtFirst("", '_', r2 + "_" + m);
  }

  lemma HalfBeforeSecondSeparator(r0: string, m: string)
    requires '_' !in r0
    ensures Split(r0 + "_" + "_" + m, '_')[0] == r0
  {
    assert r0 + "_" + "_" + m == r0 + ['_'] + ("_" + m);
    SplitAtFirst(r0, '_', "_" + m);
  }

  lemma HalfWithoutSeparator(r0: string, r2: string, m: string)
    requires '_' !in r0 && '_' !in r2
    ensures Split(r0 + r2 + "_" + m, '_')[0] == r0 + r2
  {
    assert r0 + r2 + "_" + m == (r0 + r2) + ['_'] + m;
    SplitAtFirst(r0 + r2, '_', m);
  }

  /** The reference base at the mutated position never enters the key, except
      for position 1 on a one-character reference, where `slice(-1, 2)` is the
      whole reference. */
  lemma CentreBaseIsDropped(s: string, rawToken: string, c: char)
    requires Position(Trim(rawToken)).Some?
    requires 1 <= Position(Trim(rawToken)).value <= |s|
    requires |s| >= 2
    ensures TokenKey(s[Position(Trim(rawToken)).value - 1 := c], rawToken) == TokenKey(s, rawToken)
  {
    var p := Position(Trim(rawToken)).value;
    var s' := s[p - 1 := c];
    var w, w' := ContextWindow(s, Some(p)), ContextWindow(s', Some(p));
    if p >= 2 {
      var from, to := RelativeIndex(|s|, p - 2), RelativeIndex(|s|, p + 1);
      if from < to {
        assert w == s[p - 2..to] && w' == s'[p - 2..to];
      }
    } else {
      assert w == Slice(s, -1, 2) && w' == Slice(s', -1, 2);
      if |s| == 2 {
        assert w == s[1..2] && w' == s'[1..2];
      }
    }
    assert CharAt(w, 0) == CharAt(w', 0) && CharAt(w, 2) == CharAt(w', 2);
  }

  /** On a one-character reference, position 1 keeps the mutated base as the
      left half of the context: `A1T` on `A` and on `C` land in different buckets. */
  lemma CentreBaseKeptOnOneBaseReference()
    ensures TokenKey("A", "A1T") == "A" + Undefined + "_" + "A>T"
    ensures TokenKey("C", "A1T") == "C" + Undefined + "_" + "A>T"
    ensures TokenKey("A", "A1T") != TokenKey("C", "A1T")
  {
    ReadA1T();
    OneBaseKey('A', "A1T");
    OneBaseKey('C', "A1T");
    assert TokenKey("A", "A1T")[0] != TokenKey("C", "A1T")[0];
  }

  lemma ReadA1T()
    ensures Trim("A1T") == "A1T" && Position("A1T") == Some(1) && MutationTypeOf("A1T") == "A>T"
  {
    assert Decimal(1) == "1";
    TrimKeepsToken('A', 1, 'T');
    assert ['A'] + "1" + ['T'] == "A1T";
    assert Slice("A1T", 1, -1) == "1";
    ParseIntDecimal(1, "");
    assert "1" + "" == "1";
  }

  lemma TrimKeepsToken(ref: char, p: nat, alt: char)
    requires !IsWhiteSpace(ref) && !IsWhiteSpace(alt)
    ensures Trim([ref] + Decimal(p) + [alt]) == [ref] + Decimal(p) + [alt]
  {
    var token := [ref] + Decimal(p) + [alt];
    assert LeadingWhiteSpace(token) == 0;
    assert TrailingWhiteSpace(token) == 0;
  }

  lemma OneBaseKey(base: char, token: string)
    requires Trim(token) == token && Position(token) == Some(1)
    ensures TokenKey([base], token) == [base] + Undefined + "_" + MutationTypeOf(token)
  {
    assert ContextWindow([base], Some(1)) == [base];
  }

  /** An empty token (as `"".split(',')` gives) has no position and no
      characters: every part of its key renders as `undefined`. */
  lemma EmptyTokenKey(s: string)
    ensures TokenKey(s, "") == Undefined + Undefined + "_" + (Undefined + ">" + Undefined)
  {
    assert Trim("") == "";
    assert Position("").None?;
    assert ContextOf(s, "") == Undefined + Undefined;
  }
}
