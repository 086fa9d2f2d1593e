/** `fastaToRaw`: FASTA or plain text to one contiguous sequence string. */
module Fasta {
  import opened Wrappers
  import opened JsString

  /** A line is kept unless its first character is `>` (an empty line is kept). */
  predicate IsSequenceLine(line: string) {
    CharAt(line, 0) != Some('>')
  }

  /** The lines that are kept, in order. */
  function SequenceLines(lines: seq<string>): (kept: seq<string>)
    ensures |kept| <= |lines|
    ensures forall i :: 0 <= i < |kept| ==> kept[i] in lines && IsSequenceLine(kept[i])
  {
    if lines == [] then []
    else
      var init := SequenceLines(lines[..|lines| - 1]);
      var last := lines[|lines| - 1];
      if IsSequenceLine(last) then init + [last] else init
  }

  /** The lines glued together in order. */
  function Concat(lines: seq<string>): string {
    if lines == [] then "" else Concat(lines[..|lines| - 1]) + lines[|lines| - 1]
  }

  /** The result `fastaToRaw` promises: the concatenation, in order, of exactly
      those newline-separated lines of `fasta` that do not start with `>`. */
  function Raw(fasta: string): string {
    Concat(SequenceLines(Split(fasta, '\n')))
  }

  /** `fastaToRaw(fasta)`: appends every kept line to an accumulator. */
  method FastaToRaw(fasta: string) returns (sequence: string)
    ensures sequence == Raw(fasta)
    ensures '\n' !in sequence
    ensures |sequence| <= |fasta|
  {
    var lines := Split(fasta, '\n');
    sequence := "";
    for i := 0 to |lines|
      invariant sequence == Concat(SequenceLines(lines[..i]))
    {
      var line := lines[i];
      assert lines[..i + 1][..i] == lines[..i];
      if CharAt(line, 0) != Some('>') {
        sequence := sequence + line;
      }
    }
    assert lines[..|lines|] == lines;
    RawHasNoNewline(fasta);
    RawIsNoLonger(fasta);
  }

  lemma {:induction false} ConcatAvoids(lines: seq<string>, c: char)
    requires forall i :: 0 <= i < |lines| ==> c !in lines[i]
    ensures c !in Concat(lines)
  {
    if lines != [] {
      ConcatAvoids(lines[..|lines| - 1], c);
    }
  }

  /** The raw sequence never contains a `\n`. */
  lemma RawHasNoNewline(fasta: string)
    ensures '\n' !in Raw(fasta)
  {
    var kept := SequenceLines(Split(fasta, '\n'));
    ConcatAvoids(kept, '\n');
  }

  lemma {:induction false} ConcatFront(line: string, lines: seq<string>)
    ensures Concat([line] + lines) == line + Concat(lines)
  {
    if lines != [] {
      var all := [line] + lines;
      assert all[..|all| - 1] == [line] + lines[..|lines| - 1];
      ConcatFront(line, lines[..|lines| - 1]);
    }
  }

  lemma {:induction false} SequenceLinesFront(line: string, lines: seq<string>)
    ensures SequenceLines([line] + lines) ==
            (if IsSequenceLine(line) then [line] else []) + SequenceLines(lines)
  {
    if lines != [] {
      var all := [line] + lines;
      assert all[..|all| - 1] == [line] + lines[..|lines| - 1];
      SequenceLinesFront(line, lines[..|lines| - 1]);
    }
  }

  /** Dropping lines and separators never lengthens the text. */
  lemma {:induction false} KeptNoLongerThanJoin(lines: seq<string>, sep: char)
    requires |lines| >= 1
    ensures |Concat(SequenceLines(lines))| <= |Join(lines, sep)|
  {
    if |lines| == 1 {
      assert lines == [] + [lines[0]];
      assert SequenceLines(lines[..0]) == [];
    } else {
      var rest := lines[1..];
      KeptNoLongerThanJoin(rest, sep);
      assert lines == [lines[0]] + rest;
      SequenceLinesFront(lines[0], rest);
      ConcatFront(lines[0], SequenceLines(rest));
      assert [] + SequenceLines(rest) == SequenceLines(rest);
      assert |Join(lines, sep)| == |lines[0]| + 1 + |Join(rest, sep)|;
    }
  }

  /** The raw sequence is at most as long as the input text. */
  lemma RawIsNoLonger(fasta: string)
    ensures |Raw(fasta)| <= |fasta|
  {
    KeptNoLongerThanJoin(Split(fasta, '\n'), '\n');
    JoinSplit(fasta, '\n');
  }

  /** The first character of a concatenation of kept lines is never `>`. */
  lemma {:induction false} ConcatOfSequenceLinesStart(lines: seq<string>)
    requires forall i :: 0 <= i < |lines| ==> IsSequenceLine(lines[i])
    ensures IsSequenceLine(Concat(lines))
  {
    if lines != [] {
      var init := lines[..|lines| - 1];
      ConcatOfSequenceLinesStart(init);
      if Concat(init) == [] {
        assert Concat(lines) == lines[|lines| - 1];
      } else {
        assert Concat(lines)[0] == Concat(init)[0];
      }
    }
  }

  /** Stripping is idempotent: a raw sequence is already raw. */
  lemma RawIsIdempotent(fasta: string)
    ensures Raw(Raw(fasta)) == Raw(fasta)
  {
    var r := Raw(fasta);
    RawHasNoNewline(fasta);
    ConcatOfSequenceLinesStart(SequenceLines(Split(fasta, '\n')));
    SplitWithoutSeparator(r, '\n');
    assert SequenceLines([r]) == [r] by {
      assert [r][..0] == [];
    }
    assert Concat([r]) == r by {
      assert [r][..0] == [];
    }
  }
}
