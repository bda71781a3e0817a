/** The few Python string and bytes primitives the library relies on:
    `split()` with and without `maxsplit`, `strip()`, `splitlines()` and
    `sep.join(...)`. They are written once over any element type, with the
    element's notion of whitespace or line break passed in, and instantiated
    for `str` (Unicode characters) and `bytes` (byte values). */
module PyText {

  newtype byte = x: int | 0 <= x < 256

  type Bytes = seq<byte>

  /** `bytes.isspace()` on one byte: space, \t, \n, \v, \f, \r. */
  predicate ByteIsSpace(b: byte) {
    b == 32 || 9 <= b <= 13
  }

  /** The line boundaries of `bytes.splitlines()`: \n and \r (\r\n is one boundary). */
  predicate ByteIsLineBreak(b: byte) {
    b == 10 || b == 13
  }

  /** `str.isspace()` on one character (also what `\s` matches in a `str` regex). */
  predicate CharIsSpace(c: char) {
    var n := c as int;
    (9 <= n <= 13) || (28 <= n <= 32) || n == 0x85 || n == 0xA0 || n == 0x1680
    || (0x2000 <= n <= 0x200A) || n == 0x2028 || n == 0x2029 || n == 0x202F
    || n == 0x205F || n == 0x3000
  }

  /** The line boundaries of `str.splitlines()`. */
  predicate CharIsLineBreak(c: char) {
    var n := c as int;
    (10 <= n <= 13) || (28 <= n <= 30) || n == 0x85 || n == 0x2028 || n == 0x2029
  }

  /** No element of `s` satisfies `p`. */
  ghost predicate NoneOf<C>(s: seq<C>, p: C -> bool) {
    forall i :: 0 <= i < |s| ==> !p(s[i])
  }

  /** A word as `split()` returns it: non-empty, without whitespace. */
  ghost predicate IsWord<C>(w: seq<C>, isSpace: C -> bool) {
    w != [] && NoneOf(w, isSpace)
  }

  /** `a` occurs in `s` followed only by whitespace. */
  ghost predicate EndsText<C>(a: seq<C>, s: seq<C>, isSpace: C -> bool) {
    exists j :: EndsAt(a, s, j, isSpace)
  }

  /** `a` occurs in `s` at position `j`, followed only by whitespace. */
  ghost predicate EndsAt<C>(a: seq<C>, s: seq<C>, j: int, isSpace: C -> bool) {
    0 <= j <= |s| - |a| && s[j..j + |a|] == a && forall i | j + |a| <= i < |s| :: isSpace(s[i])
  }

  /** Length of the longest prefix of `s` with no element satisfying `stop`. */
  function RunLen<C>(s: seq<C>, stop: C -> bool): (n: nat)
    ensures n <= |s|
    ensures forall i :: 0 <= i < n ==> !stop(s[i])
    ensures n < |s| ==> stop(s[n])
  {
    if s == [] || stop(s[0]) then 0 else 1 + RunLen(s[1..], stop)
  }

  /** Number of leading whitespace elements: what `re.search(r"^\s*", s)`
      matches, and what `s.lstrip()` removes. */
  function SpaceLen<C>(s: seq<C>, isSpace: C -> bool): (n: nat)
    ensures n <= |s|
    ensures forall i :: 0 <= i < n ==> isSpace(s[i])
    ensures n < |s| ==> !isSpace(s[n])
  {
    if s == [] || !isSpace(s[0]) then 0 else 1 + SpaceLen(s[1..], isSpace)
  }

  /** Number of trailing whitespace elements, what `s.rstrip()` removes. */
  function TrailLen<C>(s: seq<C>, isSpace: C -> bool): (n: nat)
    ensures n <= |s|
    ensures forall i :: |s| - n <= i < |s| ==> isSpace(s[i])
    ensures n < |s| ==> !isSpace(s[|s| - n - 1])
  {
    if s == [] || !isSpace(s[|s| - 1]) then 0 else 1 + TrailLen(s[..|s| - 1], isSpace)
  }

  /** `s.lstrip()`. */
  function LStrip<C>(s: seq<C>, isSpace: C -> bool): seq<C> {
    s[SpaceLen(s, isSpace)..]
  }

  /** `s.rstrip()`. */
  function RStrip<C>(s: seq<C>, isSpace: C -> bool): seq<C> {
    s[..|s| - TrailLen(s, isSpace)]
  }

  /** `s.strip()`. */
  function Strip<C>(s: seq<C>, isSpace: C -> bool): seq<C> {
    RStrip(LStrip(s, isSpace), isSpace)
  }

  /** `s.strip()` is empty exactly when every element of `s` is whitespace,
      which is how Python code tests a line for blankness. */
  lemma StripEmptyIffBlank<C>(s: seq<C>, isSpace: C -> bool)
    ensures Strip(s, isSpace) == [] <==> forall i :: 0 <= i < |s| ==> isSpace(s[i])
  {
  }

  /** A text that starts and ends with non-whitespace is its own `strip()`. */
  lemma StripUnchanged<C>(s: seq<C>, isSpace: C -> bool)
    requires s != [] && !isSpace(s[0]) && !isSpace(s[|s| - 1])
    ensures Strip(s, isSpace) == s
  {
  }

  /** First position at or after `i` that is not whitespace (or the end). */
  function SkipSpace<C>(s: seq<C>, i: nat, isSpace: C -> bool): (j: nat)
    requires i <= |s|
    ensures i <= j <= |s|
    ensures forall k | i <= k < j :: isSpace(s[k])
    ensures j < |s| ==> !isSpace(s[j])
    decreases |s| - i
  {
    if i == |s| || !isSpace(s[i]) then i else SkipSpace(s, i + 1, isSpace)
  }

  /** First position at or after `i` that is whitespace (or the end). */
  function SkipWord<C>(s: seq<C>, i: nat, isSpace: C -> bool): (j: nat)
    requires i <= |s|
    ensures i <= j <= |s|
    ensures forall k | i <= k < j :: !isSpace(s[k])
    ensures j < |s| ==> isSpace(s[j])
    decreases |s| - i
  {
    if i == |s| || isSpace(s[i]) then i else SkipWord(s, i + 1, isSpace)
  }

  /** The words of `s[i..]`, scanning as `split()` does. */
  function SplitFrom<C>(s: seq<C>, i: nat, isSpace: C -> bool): (words: seq<seq<C>>)
    requires i <= |s|
    ensures forall k | 0 <= k < |words| :: IsWord(words[k], isSpace)
    decreases |s| - i
  {
    var a := SkipSpace(s, i, isSpace);
    if a == |s| then []
    else
      var b := SkipWord(s, a, isSpace);
      [s[a..b]] + SplitFrom(s, b, isSpace)
  }

  /** `s.split()` (no separator, no limit): the maximal runs of non-whitespace. */
  function Split<C>(s: seq<C>, isSpace: C -> bool): seq<seq<C>> {
    SplitFrom(s, 0, isSpace)
  }

  /** The fields of `s[i..].split(maxsplit=m)`. */
  function SplitMaxFrom<C>(s: seq<C>, i: nat, isSpace: C -> bool, m: nat): (fields: seq<seq<C>>)
    requires i <= |s|
    decreases |s| - i
  {
    var a := SkipSpace(s, i, isSpace);
    if a == |s| then []
    else if m == 0 then [s[a..]]
    else
      var b := SkipWord(s, a, isSpace);
      [s[a..b]] + SplitMaxFrom(s, b, isSpace, m - 1)
  }

  /** `s.split(maxsplit=m)` for m >= 0: at most m cuts; once they are used up,
      the rest of the text, leading whitespace removed, is the last field. */
  function SplitMax<C>(s: seq<C>, isSpace: C -> bool, m: nat): seq<seq<C>> {
    SplitMaxFrom(s, 0, isSpace, m)
  }

  /** How `split(maxsplit=m)` relates to `split()`: it yields min(|words|, m + 1)
      fields, all but the last are exactly the first words, and without more
      than m + 1 words the two agree. */
  lemma {:induction false} SplitMaxFields<C>(s: seq<C>, i: nat, isSpace: C -> bool, m: nat)
    requires i <= |s|
    ensures var r, w := SplitMaxFrom(s, i, isSpace, m), SplitFrom(s, i, isSpace);
      && |r| == (if |w| <= m then |w| else m + 1)
      && (r != [] ==> r[..|r| - 1] == w[..|r| - 1])
      && (|w| <= m ==> r == w)
    decreases |s| - i
  {
    var a := SkipSpace(s, i, isSpace);
    if a < |s| && m > 0 {
      var b := SkipWord(s, a, isSpace);
      SplitMaxFields(s, b, isSpace, m - 1);
      var r', w' := SplitMaxFrom(s, b, isSpace, m - 1), SplitFrom(s, b, isSpace);
      var r, w := SplitMaxFrom(s, i, isSpace, m), SplitFrom(s, i, isSpace);
      if r' != [] {
        assert r[..|r| - 1] == [s[a..b]] + r'[..|r'| - 1];
        assert w[..|r| - 1] == [s[a..b]] + w'[..|r'| - 1];
      }
    }
  }

  /** The last field of `split(maxsplit=m)` absorbs the rest of the text: it
      starts at a non-whitespace position `j`, only whitespace follows it, and
      when all m cuts were made it is the whole remainder `s[j..]`. */
  lemma {:induction false} SplitMaxLastField<C>(s: seq<C>, i: nat, isSpace: C -> bool, m: nat) returns (j: nat)
    requires i <= |s| && SplitMaxFrom(s, i, isSpace, m) != []
    ensures var r := SplitMaxFrom(s, i, isSpace, m);
      && i <= j < |s| && !isSpace(s[j])
      && EndsAt(r[|r| - 1], s, j, isSpace)
      && (|r| == m + 1 ==> r[|r| - 1] == s[j..])
    decreases |s| - i
  {
    var a := SkipSpace(s, i, isSpace);
    if m == 0 {
      j := a;
    } else {
      var b := SkipWord(s, a, isSpace);
      if SplitMaxFrom(s, b, isSpace, m - 1) != [] {
        j := SplitMaxLastField(s, b, isSpace, m - 1);
      } else {
        j := a;
        var c := SkipSpace(s, b, isSpace);
      }
    }
  }

  /** `sep.join(parts)`. */
  function Join<C>(parts: seq<seq<C>>, sep: seq<C>): seq<C> {
    if |parts| == 0 then []
    else if |parts| == 1 then parts[0]
    else parts[0] + sep + Join(parts[1..], sep)
  }

  /** Words joined with one whitespace element split back into the same words. */
  lemma SplitJoinRoundTrip<C>(words: seq<seq<C>>, isSpace: C -> bool, space: C)
    requires isSpace(space)
    requires forall k | 0 <= k < |words| :: IsWord(words[k], isSpace)
    ensures Split(Join(words, [space]), isSpace) == words
  {
    var s := Join(words, [space]);
    SplitFromJoin(s, 0, words, isSpace, space);
  }

  /** `SplitJoinRoundTrip` for a text whose part from `i` on is the join. */
  lemma {:induction false} SplitFromJoin<C>(s: seq<C>, i: nat, words: seq<seq<C>>, isSpace: C -> bool, space: C)
    requires isSpace(space)
    requires forall k | 0 <= k < |words| :: IsWord(words[k], isSpace)
    requires i <= |s| && s[i..] == Join(words, [space])
    ensures SplitFrom(s, i, isSpace) == words
    decreases |words|
  {
    if words == [] {
      assert |s[i..]| == 0;
    } else if |words| == 1 {
      assert s[i..] == words[0];
      SplitFromWord(s, i, words[0], isSpace);
      assert SplitFrom(s, i + |words[0]|, isSpace) == [];
    } else {
      var rest := Join(words[1..], [space]);
      assert s[i..] == words[0] + [space] + rest;
      var e := SplitFromFirst(s, i, words[0], isSpace, space, rest);
      SplitFromJoin(s, e, words[1..], isSpace, space);
      assert words == [words[0]] + words[1..];
    }
  }

  /** One step of `SplitFromJoin`: the first word is split off, and the
      rest starts at the returned position. */
  lemma SplitFromFirst<C>(s: seq<C>, i: nat, w: seq<C>, isSpace: C -> bool, space: C, rest: seq<C>) returns (e: nat)
    requires isSpace(space) && IsWord(w, isSpace)
    requires i <= |s| && s[i..] == w + [space] + rest
    ensures e <= |s| && s[e..] == rest
    ensures SplitFrom(s, i, isSpace) == [w] + SplitFrom(s, e, isSpace)
  {
    e := SliceParts(s, i, w, space, rest);
    SplitFromWordSpace(s, i, w, isSpace);
  }

  /** A word followed by whitespace is the first word. */
  lemma SplitFromWordSpace<C>(s: seq<C>, i: nat, w: seq<C>, isSpace: C -> bool)
    requires IsWord(w, isSpace) && i + |w| < |s| && s[i..][..|w|] == w && isSpace(s[i + |w|])
    ensures SplitFrom(s, i, isSpace) == [w] + SplitFrom(s, i + |w| + 1, isSpace)
  {
    SplitFromWord(s, i, w, isSpace);
    SplitFromSpace(s, i + |w|, isSpace);
  }

  /** Where the parts of `s[i..] == w + [x] + rest` sit in `s`. */
  lemma SliceParts<C>(s: seq<C>, i: nat, w: seq<C>, x: C, rest: seq<C>) returns (e: nat)
    requires i <= |s| && s[i..] == w + [x] + rest
    ensures e == i + |w| + 1 && e <= |s|
    ensures s[i..][..|w|] == w && s[i + |w|] == x && s[e..] == rest
  {
    e := i + |w| + 1;
    assert s[i..][|w|] == x;
    assert s[i..][|w| + 1..] == rest;
  }

  lemma SplitFromSpace<C>(s: seq<C>, i: nat, isSpace: C -> bool)
    requires i < |s| && isSpace(s[i])
    ensures SplitFrom(s, i, isSpace) == SplitFrom(s, i + 1, isSpace)
  {
    assert SkipSpace(s, i, isSpace) == SkipSpace(s, i + 1, isSpace);
  }

  /** A word at `i` that is followed by whitespace or the end is the first word of `s[i..]`. */
  lemma SplitFromWord<C>(s: seq<C>, i: nat, w: seq<C>, isSpace: C -> bool)
    requires IsWord(w, isSpace) && i + |w| <= |s| && s[i..][..|w|] == w
    requires i + |w| < |s| ==> isSpace(s[i + |w|])
    ensures SplitFrom(s, i, isSpace) == [w] + SplitFrom(s, i + |w|, isSpace)
  {
    var e := i + |w|;
    assert s[i..e] == w;
    assert s[i] == w[0];
    forall k | i <= k < e ensures !isSpace(s[k]) {
      assert s[k] == w[k - i];
    }
    assert SkipSpace(s, i, isSpace) == i;
    assert SkipWord(s, i, isSpace) == e;
  }

  /** A run that stops at the first stop element following a stop-free prefix. */
  lemma {:induction false} RunLenPrefix<C>(a: seq<C>, b: seq<C>, stop: C -> bool)
    requires NoneOf(a, stop)
    requires b != [] && stop(b[0])
    ensures RunLen(a + b, stop) == |a|
    decreases |a|
  {
    if a != [] {
      assert (a + b)[1..] == a[1..] + b;
      RunLenPrefix(a[1..], b, stop);
    } else {
      assert a + b == b;
    }
  }

  /** `s.splitlines()`: the text cut at every line boundary, boundaries
      dropped; `cr` followed by `lf` counts as one boundary and a final
      boundary does not start an empty line. */
  function SplitLines<C(==)>(s: seq<C>, isBreak: C -> bool, cr: C, lf: C): (lines: seq<seq<C>>)
    ensures forall i :: 0 <= i < |lines| ==> NoneOf(lines[i], isBreak)
    decreases |s|
  {
    if s == [] then []
    else
      var n := RunLen(s, isBreak);
      if n == |s| then [s]
      else
        var k := if s[n] == cr && n + 1 < |s| && s[n + 1] == lf then n + 2 else n + 1;
        [s[..n]] + SplitLines(s[k..], isBreak, cr, lf)
  }

  /** Lines without boundaries, joined with `lf`, split back into the same
      lines, provided the last one is not empty (a trailing empty line leaves
      no trace in the joined text). */
  lemma {:induction false} SplitLinesJoinRoundTrip<C>(lines: seq<seq<C>>, isBreak: C -> bool, cr: C, lf: C)
    requires isBreak(lf) && cr != lf
    requires forall i :: 0 <= i < |lines| ==> NoneOf(lines[i], isBreak)
    requires lines == [] || lines[|lines| - 1] != []
    ensures SplitLines(Join(lines, [lf]), isBreak, cr, lf) == lines
  {
    if |lines| == 0 {
    } else if |lines| == 1 {
      var l := lines[0];
      assert RunLen(l, isBreak) == |l|;
    } else {
      var l, rest := lines[0], Join(lines[1..], [lf]);
      var s := l + [lf] + rest;
      assert Join(lines, [lf]) == s;
      assert RunLen(s, isBreak) == |l| by {
        RunLenPrefix(l, [lf] + rest, isBreak);
        assert s == l + ([lf] + rest);
      }
      assert s[..|l|] == l;
      assert s[|l| + 1..] == rest;
      SplitLinesJoinRoundTrip(lines[1..], isBreak, cr, lf);
    }
  }
}
