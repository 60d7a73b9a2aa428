/**
 * The text both servers send to the model: the statement split on newlines,
 * each line trimmed, blank lines dropped, the rest joined with newlines
 * (`split("\n").map((line) => line.trim()).filter(Boolean).join("\n")`).
 */
module Lines {
  import opened Seqs
  import opened Strings

  const NEWLINE: char := '\n'

  /** `.map((line) => line.trim())`. */
  function TrimAll(lines: seq<string>): (r: seq<string>)
    ensures |r| == |lines| && forall i :: 0 <= i < |lines| ==> r[i] == Trim(lines[i])
  {
    seq(|lines|, i requires 0 <= i < |lines| => Trim(lines[i]))
  }

  /** `.filter(Boolean)` on strings: only the empty string is falsy. */
  predicate NonEmpty(line: string) {
    line != []
  }

  /** A line with no surrounding whitespace and no line break. */
  predicate Clean(line: string) {
    IsTrimmed(line) && NEWLINE !in line
  }

  /** The lines that survive normalisation. */
  function NormalisedLines(text: string): (lines: seq<string>)
    ensures forall i :: 0 <= i < |lines| ==> lines[i] != [] && IsTrimmed(lines[i]) && NEWLINE !in lines[i]
  {
    var pieces := Split(text, NEWLINE);
    var trimmed := TrimAll(pieces);
    var lines := Filter(trimmed, NonEmpty);
    TrimmedPieces(pieces);
    FilterKeepsAll(trimmed, NonEmpty, Clean);
    lines
  }

  /** Trimmed pieces of a split are trimmed and hold no separator. */
  lemma TrimmedPieces(pieces: seq<string>)
    requires forall i :: 0 <= i < |pieces| ==> NEWLINE !in pieces[i]
    ensures forall i :: 0 <= i < |TrimAll(pieces)| ==> Clean(TrimAll(pieces)[i])
  {
  }

  /** The normalised text itself. */
  function Normalise(text: string): string
  {
    Join(NormalisedLines(text), NEWLINE)
  }

  /**
   * The surviving lines are the trimmed lines of the input in their original
   * order, blanks left out: every non-blank trimmed line survives, as often as
   * it occurs.
   */
  lemma NormalisedLinesInOrder(text: string)
    ensures IsSubsequence(NormalisedLines(text), TrimAll(Split(text, NEWLINE)))
    ensures forall i :: 0 <= i < |Split(text, NEWLINE)| && Trim(Split(text, NEWLINE)[i]) != [] ==>
      Trim(Split(text, NEWLINE)[i]) in NormalisedLines(text)
    ensures forall l :: l != [] ==> multiset(NormalisedLines(text))[l] == multiset(TrimAll(Split(text, NEWLINE)))[l]
  {
    var trimmed := TrimAll(Split(text, NEWLINE));
    FilterSubsequence(trimmed, NonEmpty);
    FilterComplete(trimmed, NonEmpty);
    forall l | l != [] ensures multiset(NormalisedLines(text))[l] == multiset(trimmed)[l] {
      FilterCount(trimmed, NonEmpty, l);
    }
  }

  /** Trimming lines that are already trimmed changes nothing. */
  lemma TrimAllTrimmed(lines: seq<string>)
    requires forall i :: 0 <= i < |lines| ==> IsTrimmed(lines[i])
    ensures TrimAll(lines) == lines
  {
    forall i | 0 <= i < |lines| ensures TrimAll(lines)[i] == lines[i] {
      TrimTrimmed(lines[i]);
    }
  }

  /** Normalising normalised text finds the same lines again. */
  lemma {:induction false} NormalisedLinesOfNormalised(text: string)
    ensures NormalisedLines(Normalise(text)) == NormalisedLines(text)
  {
    var lines := NormalisedLines(text);
    if lines == [] {
      EmptyNormalised();
    } else {
      RejoinedLines(lines);
    }
  }

  lemma EmptyNormalised()
    ensures NormalisedLines("") == []
  {
    var pieces := Split("", NEWLINE);
    assert pieces == [""];
    EmptyLineTrimmed();
    EmptyLineDropped();
    assert NormalisedLines("") == Filter(TrimAll(pieces), NonEmpty);
  }

  /** The one piece of empty text trims to itself. */
  lemma EmptyLineTrimmed()
    ensures TrimAll([""]) == [""]
  {
    assert TrimStart("") == "" && TrimEnd("") == "";
    assert Trim("") == "";
  }

  /** The one piece of empty text is blank, so `filter(Boolean)` drops it. */
  lemma EmptyLineDropped()
    ensures Filter([""], NonEmpty) == []
  {
    assert !NonEmpty("");
    assert [""][1..] == [];
  }

  /** Joined non-blank trimmed lines normalise back to themselves. */
  lemma RejoinedLines(lines: seq<string>)
    requires |lines| >= 1
    requires forall i :: 0 <= i < |lines| ==> lines[i] != [] && IsTrimmed(lines[i]) && NEWLINE !in lines[i]
    ensures NormalisedLines(Join(lines, NEWLINE)) == lines
  {
    SplitJoin(lines, NEWLINE);
    TrimAllTrimmed(lines);
    FilterAll(lines, NonEmpty);
  }

  /** Normalisation is idempotent. */
  lemma NormaliseIdempotent(text: string)
    ensures Normalise(Normalise(text)) == Normalise(text)
  {
    NormalisedLinesOfNormalised(text);
  }

  /** The normalised text has no blank line: it neither starts nor ends with a newline and never holds two in a row. */
  lemma {:induction false} NormaliseNoBlankLines(text: string)
    ensures var out := Normalise(text);
      out == [] || (out[0] != NEWLINE && out[|out| - 1] != NEWLINE &&
                    forall i :: 0 <= i < |out| - 1 ==> !(out[i] == NEWLINE && out[i + 1] == NEWLINE))
  {
    var lines := NormalisedLines(text);
    assert Normalise(text) == Join(lines, NEWLINE);
    JoinNoBlankLines(lines);
  }

  lemma {:induction false} JoinNoBlankLines(lines: seq<string>)
    requires forall i :: 0 <= i < |lines| ==> lines[i] != [] && NEWLINE !in lines[i]
    ensures var out := Join(lines, NEWLINE);
      out == [] || (out[0] != NEWLINE && out[|out| - 1] != NEWLINE &&
                    forall i :: 0 <= i < |out| - 1 ==> !(out[i] == NEWLINE && out[i + 1] == NEWLINE))
  {
    if |lines| > 1 {
      var head, rest := lines[0], Join(lines[1..], NEWLINE);
      JoinNoBlankLines(lines[1..]);
      var out := head + [NEWLINE] + rest;
      assert out == Join(lines, NEWLINE);
      assert rest != [] by { JoinNonEmpty(lines[1..]); }
      forall i | 0 <= i < |out| - 1 ensures !(out[i] == NEWLINE && out[i + 1] == NEWLINE) {
        if i < |head| - 1 {
          assert out[i] == head[i];
        } else if i == |head| - 1 {
          assert out[i] == head[i];
        } else if i == |head| {
          assert out[i + 1] == rest[0];
        } else {
          assert out[i] == rest[i - |head| - 1] && out[i + 1] == rest[i - |head|];
        }
      }
      assert out[|out| - 1] == rest[|rest| - 1];
    }
  }

  lemma JoinNonEmpty(lines: seq<string>)
    requires |lines| >= 1 && lines[0] != []
    ensures Join(lines, NEWLINE) != []
  {
  }
}
