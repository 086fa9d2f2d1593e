/** The parts of JavaScript's string semantics that the spectrum code relies on:
    indexing past the end, template rendering of `undefined`, `slice` with
    negative and out-of-range bounds, `split` on one character, `trim` and a
    digit-prefix `parseInt`. A JavaScript string is modelled as a sequence of
    `char`, one per Unicode scalar value; text outside the Basic Multilingual
    Plane, two UTF-16 code units in JavaScript, is one `char` here. */
module JsString {
  import opened Wrappers

  /** `s[i]`: the character at `i`, or `undefined` outside the string. */
  function CharAt(s: string, i: int): (r: Option<char>)
    ensures r.Some? <==> 0 <= i < |s|
    ensures r.Some? ==> r.value == s[i]
  {
    if 0 <= i < |s| then Some(s[i]) else None
  }

  const Undefined: string := "undefined"

  /** `${c}` in a template literal: the character itself, or the text "undefined". */
  function Render(c: Option<char>): (r: string)
    ensures c.Some? ==> r == [c.value]
    ensures c.None? ==> r == Undefined
    ensures |r| == 1 || |r| == 9
  {
    match c
    case Some(ch) => [ch]
    case None => Undefined
  }

  /** A JavaScript number that is an integer or `NaN` (`None`). */
  type Number = Option<int>

  /** `n + k` on a number: `NaN` stays `NaN`. */
  function Add(n: Number, k: int): (r: Number)
    ensures r.Some? <==> n.Some?
    ensures n.Some? ==> r.value - n.value == k
  {
    match n
    case Some(v) => Some(v + k)
    case None => None
  }

  /** ToIntegerOrInfinity as `slice` applies it to its arguments: `NaN` becomes 0. */
  function ToInteger(n: Number): int {
    n.GetOr(0)
  }

  /** The index `slice` derives from one argument of a string of length `len`:
      a negative value counts from the end, and the result is clamped to `0..len`. */
  function RelativeIndex(len: nat, k: int): (r: nat)
    ensures r <= len
    ensures 0 <= k <= len ==> r == k
    ensures -(len as int) <= k < 0 ==> r == len + k
    ensures k < -(len as int) ==> r == 0
    ensures len < k ==> r == len
  {
    if k < 0 then (if len + k < 0 then 0 else len + k)
    else if k < len then k
    else len
  }

  /** `s.slice(start, end)`: the characters between the two relative indices,
      or the empty string when the start index is not before the end index. */
  function Slice(s: string, start: int, end: int): (r: string)
    ensures |r| <= |s|
    ensures 0 <= start <= end <= |s| ==> r == s[start..end]
    ensures RelativeIndex(|s|, start) >= RelativeIndex(|s|, end) ==> r == ""
    ensures RelativeIndex(|s|, start) < RelativeIndex(|s|, end) ==>
              r == s[RelativeIndex(|s|, start)..RelativeIndex(|s|, end)]
  {
    var from, to := RelativeIndex(|s|, start), RelativeIndex(|s|, end);
    if from < to then s[from..to] else ""
  }

  /** `s.split(sep)` for a one-character separator: the maximal runs between
      separators, in order; the empty string splits into one empty part. */
  function Split(s: string, sep: char): (parts: seq<string>)
    ensures |parts| >= 1
    ensures forall i :: 0 <= i < |parts| ==> sep !in parts[i]
  {
    if s == [] then [""]
    else
      var rest := Split(s[1..], sep);
      assert s == [s[0]] + s[1..];
      if s[0] == sep then [""] + rest
      else [[s[0]] + rest[0]] + rest[1..]
  }

  /** There is one more part than separators. */
  lemma {:induction false} SplitCount(s: string, sep: char)
    ensures |Split(s, sep)| == multiset(s)[sep] + 1
  {
    if s != [] {
      SplitCount(s[1..], sep);
      assert s == [s[0]] + s[1..];
    }
  }

  /** `parts.join(sep)`. */
  function Join(parts: seq<string>, sep: char): (s: string)
    requires |parts| >= 1
  {
    if |parts| == 1 then parts[0] else parts[0] + [sep] + Join(parts[1..], sep)
  }

  /** Joining the parts of a split gives the original string back. */
  lemma {:induction false} JoinSplit(s: string, sep: char)
    ensures Join(Split(s, sep), sep) == s
  {
    if s != [] {
      JoinSplit(s[1..], sep);
      var rest := Split(s[1..], sep);
      if s[0] == sep {
        JoinCons("", rest, sep);
      } else {
        JoinExtendFirst(s[0], rest, sep);
      }
      assert [s[0]] + s[1..] == s;
    }
  }

  lemma JoinCons(p: string, rest: seq<string>, sep: char)
    requires |rest| >= 1
    ensures Join([p] + rest, sep) == p + [sep] + Join(rest, sep)
  {
    assert ([p] + rest)[1..] == rest;
  }

  lemma JoinExtendFirst(c: char, rest: seq<string>, sep: char)
    requires |rest| >= 1
    ensures Join([[c] + rest[0]] + rest[1..], sep) == [c] + Join(rest, sep)
  {
    var parts := [[c] + rest[0]] + rest[1..];
    if |rest| > 1 {
      assert parts[1..] == rest[1..];
    }
  }

  /** Splitting at the first separator: the part before it comes first. */
  lemma {:induction false} SplitAtFirst(a: string, sep: char, b: string)
    requires sep !in a
    ensures Split(a + [sep] + b, sep) == [a] + Split(b, sep)
  {
    var s := a + [sep] + b;
    if a == [] {
      assert s == [sep] + b;
      assert s[1..] == b;
      assert Split(s, sep) == [""] + Split(s[1..], sep);
    } else {
      SplitAtFirst(a[1..], sep, b);
      assert s[0] == a[0] && s[0] != sep;
      assert s[1..] == a[1..] + [sep] + b;
      var rest := Split(s[1..], sep);
      assert rest[0] == a[1..] && rest[1..] == Split(b, sep);
      assert Split(s, sep) == [[s[0]] + rest[0]] + rest[1..];
      assert [a[0]] + a[1..] == a;
    }
  }

  /** The first part of a split is the text before the first separator (the
      whole text when there is none); the other parts are the split of the
      text after that separator. */
  lemma {:induction false} SplitFirstPart(s: string, sep: char)
    ensures var p := Split(s, sep)[0];
            p <= s && sep !in p &&
            (|p| < |s| ==> s[|p|] == sep && Split(s, sep) == [p] + Split(s[|p| + 1..], sep))
  {
    if s != [] && s[0] != sep {
      SplitFirstPart(s[1..], sep);
      var rest := Split(s[1..], sep);
      assert s == [s[0]] + s[1..];
      assert Split(s, sep) == [[s[0]] + rest[0]] + rest[1..];
      if |rest[0]| < |s| - 1 {
        assert s[1..][|rest[0]| + 1..] == s[|rest[0]| + 2..];
      }
    } else if s != [] {
      assert s == [s[0]] + s[1..];
    }
  }

  /** A string without the separator splits into itself alone. */
  lemma {:induction false} SplitWithoutSeparator(a: string, sep: char)
    requires sep !in a
    ensures Split(a, sep) == [a]
  {
    if a != [] {
      SplitWithoutSeparator(a[1..], sep);
      assert [a[0]] + a[1..] == a;
    }
  }

  /** Splitting the join of separator-free parts gives the parts back. */
  lemma {:induction false} SplitJoin(parts: seq<string>, sep: char)
    requires |parts| >= 1
    requires forall i :: 0 <= i < |parts| ==> sep !in parts[i]
    ensures Split(Join(parts, sep), sep) == parts
  {
    if |parts| == 1 {
      SplitWithoutSeparator(parts[0], sep);
    } else {
      SplitJoin(parts[1..], sep);
      SplitAtFirst(parts[0], sep, Join(parts[1..], sep));
      assert [parts[0]] + parts[1..] == parts;
    }
  }

  /** The WhiteSpace and LineTerminator code points that `trim` removes. */
  predicate IsWhiteSpace(ch: char) {
    ch == '\t' || ch == '\n' || ch == '\U{B}' || ch == '\U{C}' || ch == '\r' ||
    ch == ' ' || ch == '\U{A0}' || ch == '\U{1680}' ||
    ('\U{2000}' <= ch <= '\U{200A}') ||
    ch == '\U{2028}' || ch == '\U{2029}' || ch == '\U{202F}' || ch == '\U{205F}' ||
    ch == '\U{3000}' || ch == '\U{FEFF}'
  }

  /** The length of the longest all-whitespace prefix of `s`. */
  function LeadingWhiteSpace(s: string): (n: nat)
    ensures n <= |s|
    ensures forall i :: 0 <= i < n ==> IsWhiteSpace(s[i])
    ensures n < |s| ==> !IsWhiteSpace(s[n])
  {
    if s != [] && IsWhiteSpace(s[0]) then 1 + LeadingWhiteSpace(s[1..]) else 0
  }

  /** The length of the longest all-whitespace suffix of `s`. */
  function TrailingWhiteSpace(s: string): (n: nat)
    ensures n <= |s|
    ensures forall i :: |s| - n <= i < |s| ==> IsWhiteSpace(s[i])
    ensures n < |s| ==> !IsWhiteSpace(s[|s| - n - 1])
  {
    if s != [] && IsWhiteSpace(s[|s| - 1]) then 1 + TrailingWhiteSpace(s[..|s| - 1]) else 0
  }

  /** `s.trim()`: `s` without its leading and trailing whitespace. */
  function Trim(s: string): (r: string)
    ensures r == [] || (!IsWhiteSpace(r[0]) && !IsWhiteSpace(r[|r| - 1]))
    ensures LeadingWhiteSpace(s) + |r| <= |s|
    ensures r == s[LeadingWhiteSpace(s)..LeadingWhiteSpace(s) + |r|]
    ensures forall i :: LeadingWhiteSpace(s) + |r| <= i < |s| ==> IsWhiteSpace(s[i])
  {
    var t := s[LeadingWhiteSpace(s)..];
    t[..|t| - TrailingWhiteSpace(t)]
  }

  predicate IsDigit(ch: char) {
    '0' <= ch <= '9'
  }

  /** The length of the longest all-digit prefix of `s`. */
  function LeadingDigits(s: string): (n: nat)
    ensures n <= |s|
    ensures forall i :: 0 <= i < n ==> IsDigit(s[i])
    ensures n < |s| ==> !IsDigit(s[n])
  {
    if s != [] && IsDigit(s[0]) then 1 + LeadingDigits(s[1..]) else 0
  }

  /** The value of a string of decimal digits, most significant first. */
  function DigitsValue(ds: string): nat
    requires forall i :: 0 <= i < |ds| ==> IsDigit(ds[i])
  {
    if ds == [] then 0
    else
      assert IsDigit(ds[|ds| - 1]);
      DigitsValue(ds[..|ds| - 1]) * 10 + (ds[|ds| - 1] as int - '0' as int)
  }

  /** `parseInt(s)` restricted to its digit-prefix behaviour: the value of the
      leading run of digits, or `NaN` (`None`) when `s` does not start with one. */
  function ParseInt(s: string): (r: Option<nat>)
    ensures r.Some? <==> |s| > 0 && IsDigit(s[0])
  {
    var n := LeadingDigits(s);
    if n == 0 then None else Some(DigitsValue(s[..n]))
  }

  /** The decimal text of `n`, without leading zeros. */
  function Decimal(n: nat): (ds: string)
    ensures |ds| >= 1
    ensures forall i :: 0 <= i < |ds| ==> IsDigit(ds[i])
  {
    var d := ['0' + (n % 10) as char];
    if n < 10 then d else Decimal(n / 10) + d
  }

  lemma {:induction false} DigitsValueOfDecimal(n: nat)
    ensures DigitsValue(Decimal(n)) == n
  {
    var ds := Decimal(n);
    if n >= 10 {
      DigitsValueOfDecimal(n / 10);
      assert ds[..|ds| - 1] == Decimal(n / 10);
    }
  }

  /** `parseInt` reads the value of any run of digits, leading zeros
      included, whatever non-digit text follows it. */
  lemma ParseIntDigits(ds: string, rest: string)
    requires |ds| > 0 && forall i :: 0 <= i < |ds| ==> IsDigit(ds[i])
    requires rest == [] || !IsDigit(rest[0])
    ensures ParseInt(ds + rest) == Some(DigitsValue(ds))
  {
    LeadingDigitsOfPrefix(ds, rest);
    assert (ds + rest)[..|ds|] == ds;
  }

  /** `parseInt` reads back the decimal text of any natural number, whatever
      non-digit text follows it. */
  lemma ParseIntDecimal(n: nat, rest: string)
    requires rest == [] || !IsDigit(rest[0])
    ensures ParseInt(Decimal(n) + rest) == Some(n)
  {
    ParseIntDigits(Decimal(n), rest);
    DigitsValueOfDecimal(n);
  }

  lemma {:induction false} LeadingDigitsOfPrefix(ds: string, rest: string)
    requires forall i :: 0 <= i < |ds| ==> IsDigit(ds[i])
    requires rest == [] || !IsDigit(rest[0])
    ensures LeadingDigits(ds + rest) == |ds|
  {
    if ds != [] {
      LeadingDigitsOfPrefix(ds[1..], rest);
      assert (ds + rest)[1..] == ds[1..] + rest;
    } else {
      assert ds + rest == rest;
    }
  }
}
