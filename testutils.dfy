/** `strip_leading_spaces`, the test suite's helper that removes a common
    indentation from a block of text: the indentation is that of the first
    non-blank line, and every line must start with that much whitespace (or
    be shorter and blank). */
module TestUtils {

  import opened Wrappers
  import opened PyValues
  import opened PyText

  /** `text.splitlines()`. */
  function Lines(text: string): seq<string> {
    SplitLines(text, CharIsLineBreak, '\r', '\n')
  }

  /** `not line.strip()`. */
  predicate Blank(line: string) {
    Strip(line, CharIsSpace) == []
  }

  /** The index of the first line that is not blank. */
  function FirstNonBlank(lines: seq<string>): (r: Option<nat>)
    ensures r.Some? ==> r.value < |lines| && !Blank(lines[r.value]) && forall k | 0 <= k < r.value :: Blank(lines[k])
    ensures r.None? ==> forall k | 0 <= k < |lines| :: Blank(lines[k])
  {
    FirstNonBlankFrom(lines, 0)
  }

  /** The index of the first line from `i` on that is not blank. */
  function FirstNonBlankFrom(lines: seq<string>, i: nat): (r: Option<nat>)
    requires i <= |lines|
    ensures r.Some? ==> i <= r.value < |lines| && !Blank(lines[r.value]) && forall k | i <= k < r.value :: Blank(lines[k])
    ensures r.None? ==> forall k | i <= k < |lines| :: Blank(lines[k])
    decreases |lines| - i
  {
    if i == |lines| then None
    else if !Blank(lines[i]) then Some(i)
    else FirstNonBlankFrom(lines, i + 1)
  }

  /** The first non-blank line is the one with only blank lines before it. */
  lemma FirstNonBlankAt(lines: seq<string>, f: nat)
    requires f < |lines| && !Blank(lines[f]) && forall k | 0 <= k < f :: Blank(lines[k])
    ensures FirstNonBlank(lines) == Some(f)
  {
  }

  function Min(a: nat, b: nat): nat {
    if a <= b then a else b
  }

  /** `line[:n]`. */
  function Left(line: string, n: nat): string {
    line[..Min(n, |line|)]
  }

  /** `line[n:]`: empty when the line is shorter than `n`. */
  function Right(line: string, n: nat): string {
    line[Min(n, |line|)..]
  }

  /** The second loop: every line loses its first `n` characters, and the
      first line whose first `n` characters are not all whitespace stops it
      with its index. */
  function Dedent(lines: seq<string>, n: nat): Result<seq<string>, nat> {
    if lines == [] then Ok([])
    else
      match Dedent(lines[..|lines| - 1], n)
      case Err(i) => Err(i)
      case Ok(result) =>
        var line := lines[|lines| - 1];
        if !Blank(Left(line, n)) then Err(|lines| - 1) else Ok(result + [Right(line, n)])
  }

  /** `Dedent` fails at the first line whose first `n` characters hold a
      non-whitespace character, and otherwise keeps every line, in order,
      without its first `n` characters. */
  lemma DedentAt(lines: seq<string>, n: nat)
    ensures Dedent(lines, n).Ok? <==> forall k | 0 <= k < |lines| :: Blank(Left(lines[k], n))
    ensures Dedent(lines, n).Ok? ==>
      |Dedent(lines, n).value| == |lines| && forall k | 0 <= k < |lines| :: Dedent(lines, n).value[k] == Right(lines[k], n)
    ensures Dedent(lines, n).Err? ==>
      Dedent(lines, n).error < |lines| && !Blank(Left(lines[Dedent(lines, n).error], n))
      && forall k | 0 <= k < Dedent(lines, n).error :: Blank(Left(lines[k], n))
  {
    DedentOkAt(lines, n);
    DedentErrAt(lines, n);
  }

  lemma {:induction false} DedentOkAt(lines: seq<string>, n: nat)
    ensures Dedent(lines, n).Ok? <==> forall k | 0 <= k < |lines| :: Blank(Left(lines[k], n))
    ensures Dedent(lines, n).Ok? ==>
      |Dedent(lines, n).value| == |lines| && forall k | 0 <= k < |lines| :: Dedent(lines, n).value[k] == Right(lines[k], n)
  {
    if lines != [] {
      var init := lines[..|lines| - 1];
      DedentOkAt(init, n);
      assert forall k | 0 <= k < |init| :: init[k] == lines[k];
    }
  }

  lemma {:induction false} DedentErrAt(lines: seq<string>, n: nat)
    ensures Dedent(lines, n).Err? ==>
      Dedent(lines, n).error < |lines| && !Blank(Left(lines[Dedent(lines, n).error], n))
      && forall k | 0 <= k < Dedent(lines, n).error :: Blank(Left(lines[k], n))
  {
    if lines != [] {
      var init := lines[..|lines| - 1];
      DedentOkAt(init, n);
      DedentErrAt(init, n);
      assert forall k | 0 <= k < |init| :: init[k] == lines[k];
    }
  }

  /** Once a line has failed, the lines after it are not looked at. */
  lemma {:induction false} DedentErrPrefix(lines: seq<string>, i: nat, n: nat)
    requires i <= |lines| && Dedent(lines[..i], n).Err?
    ensures Dedent(lines, n) == Dedent(lines[..i], n)
    decreases |lines|
  {
    if i < |lines| {
      var init := lines[..|lines| - 1];
      assert init[..i] == lines[..i];
      DedentErrPrefix(init, i, n);
    } else {
      assert lines[..i] == lines;
    }
  }

  /** `strip_leading_spaces(text)`. */
  function StripLeadingSpaces(text: string): Result<string, PyError> {
    var lines := Lines(text);
    match FirstNonBlank(lines)
    case None => Err(ValueError("Text has no non-empty lines"))
    case Some(f) =>
      match Dedent(lines, SpaceLen(lines[f], CharIsSpace))
      case Err(i) => Err(ValueError(NotIndented(i)))
      case Ok(result) => Ok(Join(result, "\n"))
  }

  /** The message for a line that is not indented properly (1-based). */
  function NotIndented(i: nat): string {
    "Line " + IntToDecimal(i + 1) + " is not indented properly"
  }

  /** The function as the source writes it: a search for the first
      non-blank line, then a loop that collects the dedented lines. */
  method StripLeadingSpacesLoop(text: string) returns (r: Result<string, PyError>)
    ensures r == StripLeadingSpaces(text)
  {
    var lines := Lines(text);
    var first := FindFirstNonBlank(lines);
    if first.None? {
      return Err(ValueError("Text has no non-empty lines"));
    }
    var indentation := SpaceLen(lines[first.value], CharIsSpace);
    var result := DedentLoop(lines, indentation);
    if result.Err? {
      return Err(ValueError(NotIndented(result.error)));
    }
    return Ok(Join(result.value, "\n"));
  }

  /** The second loop: the dedented lines, or the index of the line that
      raised. */
  method DedentLoop(lines: seq<string>, indentation: nat) returns (r: Result<seq<string>, nat>)
    ensures r == Dedent(lines, indentation)
  {
    var result: seq<string> := [];
    for i := 0 to |lines|
      invariant Dedent(lines[..i], indentation) == Ok(result)
    {
      var line := lines[i];
      assert lines[..i + 1][..i] == lines[..i];
      if !Blank(Left(line, indentation)) {
        DedentErrPrefix(lines, i + 1, indentation);
        return Err(i);
      }
      result := result + [Right(line, indentation)];
    }
    assert lines[..|lines|] == lines;
    return Ok(result);
  }

  /** The first loop: the first line that is not blank, if any. */
  method FindFirstNonBlank(lines: seq<string>) returns (first: Option<nat>)
    ensures first == FirstNonBlank(lines)
  {
    for i := 0 to |lines|
      invariant forall k | 0 <= k < i :: Blank(lines[k])
    {
      if !Blank(lines[i]) {
        return Some(i);
      }
    }
    return None;
  }

  /** The function fails with "no non-empty lines" exactly when every
      character of the text is whitespace. */
  lemma NoNonEmptyLines(text: string)
    ensures StripLeadingSpaces(text) == Err(ValueError("Text has no non-empty lines")) <==>
      forall k | 0 <= k < |Lines(text)| :: forall j | 0 <= j < |Lines(text)[k]| :: CharIsSpace(Lines(text)[k][j])
  {
    var lines := Lines(text);
    forall k | 0 <= k < |lines| {
      StripEmptyIffBlank(lines[k], CharIsSpace);
    }
    if FirstNonBlank(lines).Some? {
      var f := FirstNonBlank(lines).value;
      match Dedent(lines, SpaceLen(lines[f], CharIsSpace))
      case Err(i) =>
        assert NotIndented(i)[0] == 'L';
      case Ok(_) =>
    }
  }

  /** Each line of `ls` prefixed with `pad`. */
  function Padded(pad: string, ls: seq<string>): (r: seq<string>)
    ensures |r| == |ls| && forall k | 0 <= k < |ls| :: r[k] == pad + ls[k]
  {
    if ls == [] then [] else [pad + ls[0]] + Padded(pad, ls[1..])
  }

  /** Indenting every line of a text by the same number of spaces, when its
      first non-blank line starts with a non-space, is undone by
      `strip_leading_spaces`. */
  lemma DedentRoundTrip(pad: string, ls: seq<string>, f: nat)
    requires pad != [] && forall k | 0 <= k < |pad| :: pad[k] == ' '
    requires forall k | 0 <= k < |ls| :: NoneOf(ls[k], CharIsLineBreak)
    requires FirstNonBlank(ls) == Some(f) && !CharIsSpace(ls[f][0])
    ensures StripLeadingSpaces(Join(Padded(pad, ls), "\n")) == Ok(Join(ls, "\n"))
  {
    var lines := Padded(pad, ls);
    PaddedLines(pad, ls);
    PaddedBlank(pad, ls);
    FirstNonBlankAt(lines, f);
    PaddedIndentation(pad, ls[f]);
    PaddedDedent(pad, ls);
  }

  /** Padded lines joined by newlines split back into the padded lines. */
  lemma PaddedLines(pad: string, ls: seq<string>)
    requires pad != [] && forall k | 0 <= k < |pad| :: pad[k] == ' '
    requires forall k | 0 <= k < |ls| :: NoneOf(ls[k], CharIsLineBreak)
    ensures Lines(Join(Padded(pad, ls), "\n")) == Padded(pad, ls)
  {
    var lines := Padded(pad, ls);
    forall k | 0 <= k < |lines| ensures NoneOf(lines[k], CharIsLineBreak) {
      assert forall j | 0 <= j < |lines[k]| :: lines[k][j] == if j < |pad| then ' ' else ls[k][j - |pad|];
    }
    SplitLinesJoinRoundTrip(lines, CharIsLineBreak, '\r', '\n');
  }

  /** A line padded with spaces in front of a non-space is indented by the pad. */
  lemma PaddedIndentation(pad: string, l: string)
    requires forall k | 0 <= k < |pad| :: pad[k] == ' '
    requires l != [] && !CharIsSpace(l[0])
    ensures SpaceLen(pad + l, CharIsSpace) == |pad|
  {
    var s := pad + l;
    assert s[|pad|] == l[0];
    assert forall k | 0 <= k < |pad| :: s[k] == ' ';
  }

  /** Removing the pad's width from padded lines gives the lines back. */
  lemma PaddedDedent(pad: string, ls: seq<string>)
    requires forall k | 0 <= k < |pad| :: pad[k] == ' '
    ensures Dedent(Padded(pad, ls), |pad|) == Ok(ls)
  {
    var lines := Padded(pad, ls);
    var n := |pad|;
    forall k | 0 <= k < |lines| ensures Left(lines[k], n) == pad && Right(lines[k], n) == ls[k] {
    }
    assert forall k | 0 <= k < |pad| :: CharIsSpace(pad[k]);
    StripEmptyIffBlank(pad, CharIsSpace);
    DedentAt(lines, n);
    assert Dedent(lines, n).value == ls;
  }

  /** A padded line is blank exactly when the line itself is. */
  lemma PaddedBlank(pad: string, ls: seq<string>)
    requires forall k | 0 <= k < |pad| :: pad[k] == ' '
    ensures forall k | 0 <= k < |ls| :: Blank(pad + ls[k]) <==> Blank(ls[k])
  {
    forall k | 0 <= k < |ls| ensures Blank(pad + ls[k]) <==> Blank(ls[k]) {
      StripEmptyIffBlank(pad + ls[k], CharIsSpace);
      StripEmptyIffBlank(ls[k], CharIsSpace);
      assert forall j | 0 <= j < |ls[k]| :: (pad + ls[k])[|pad| + j] == ls[k][j];
    }
  }
}
