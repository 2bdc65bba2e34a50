/** The Python string operations the pipeline relies on: `strip`, `in`,
    `startswith`, `find`/`rfind`, `split`, `join`, `replace`, `str(int)` and
    `os.path.basename`, each with a contract that pins down its result. */
module Text {

  /** Python's `str.isspace` for one character: exactly the characters that
      `str.strip()` with no argument removes. */
  predicate IsSpace(c: char) {
    c == ' ' || '\t' <= c <= '\r' || '\U{1c}' <= c <= '\U{1f}'
    || c == '\U{85}' || c == '\U{a0}' || c == '\U{1680}'
    || '\U{2000}' <= c <= '\U{200a}' || c == '\U{2028}' || c == '\U{2029}'
    || c == '\U{202f}' || c == '\U{205f}' || c == '\U{3000}'
  }

  /* ---------------------------------------------------------------------- */
  /* Prefixes, suffixes, substrings                                          */
  /* ---------------------------------------------------------------------- */

  predicate StartsWith(s: string, prefix: string) {
    |prefix| <= |s| && s[..|prefix|] == prefix
  }

  lemma PrefixStartsWith(a: string, b: string)
    ensures StartsWith(a + b, a)
  {
    assert (a + b)[..|a|] == a;
  }

  predicate EndsWith(s: string, suffix: string) {
    |suffix| <= |s| && s[|s| - |suffix|..] == suffix
  }

  /** `needle` occurs in `s` at position `i`. */
  predicate OccursAt(s: string, needle: string, i: int) {
    0 <= i && i + |needle| <= |s| && s[i..i + |needle|] == needle
  }

  /** `needle` occurs somewhere in `s`. */
  ghost predicate Occurs(s: string, needle: string) {
    exists i :: OccursAt(s, needle, i)
  }

  /** Python's `needle in s` on strings. */
  predicate Contains(s: string, needle: string)
    ensures Contains(s, needle) <==> Occurs(s, needle)
    decreases |s|
  {
    if StartsWith(s, needle) then
      assert OccursAt(s, needle, 0);
      true
    else if s == [] then
      false
    else
      OccursInTail(s, needle);
      Contains(s[1..], needle)
  }

  /** Past a position where `needle` does not start, the occurrences of
      `needle` in `s` are those in `s[1..]`, shifted by one. */
  lemma OccursInTail(s: string, needle: string)
    requires s != [] && !StartsWith(s, needle)
    ensures (exists i :: OccursAt(s, needle, i)) <==> (exists i :: OccursAt(s[1..], needle, i))
  {
    if i :| OccursAt(s, needle, i) {
      assert i != 0;
      assert s[1..][i - 1..i - 1 + |needle|] == s[i..i + |needle|];
      assert OccursAt(s[1..], needle, i - 1);
    }
    if j :| OccursAt(s[1..], needle, j) {
      assert s[j + 1..j + 1 + |needle|] == s[1..][j..j + |needle|];
      assert OccursAt(s, needle, j + 1);
    }
  }

  /** Python's `s.find(c)` for one character, with `|s|` instead of -1 when
      `c` does not occur: the first position of `c`. */
  function IndexOf(s: string, c: char): (i: nat)
    ensures i <= |s|
    ensures i < |s| ==> s[i] == c
    ensures forall k :: 0 <= k < i ==> s[k] != c
  {
    if s == [] then 0
    else if s[0] == c then 0
    else 1 + IndexOf(s[1..], c)
  }

  /** The first `c` of `s` is the one at `i` when none comes before it. */
  lemma IndexOfIs(s: string, c: char, i: nat)
    requires i < |s| && s[i] == c
    requires forall k :: 0 <= k < i ==> s[k] != c
    ensures IndexOf(s, c) == i
  {
  }

  /** Python's `s.rfind(c)` for one character: the last position of `c`, or -1. */
  function LastIndexOf(s: string, c: char): (i: int)
    ensures -1 <= i < |s|
    ensures 0 <= i ==> s[i] == c
    ensures forall k :: i < k < |s| ==> s[k] != c
  {
    if s == [] then -1
    else if s[|s| - 1] == c then |s| - 1
    else LastIndexOf(s[..|s| - 1], c)
  }

  /** The last `c` of `s` is the one at `i` when none comes after it. */
  lemma LastIndexOfIs(s: string, c: char, i: nat)
    requires i < |s| && s[i] == c
    requires forall k :: i < k < |s| ==> s[k] != c
    ensures LastIndexOf(s, c) == i
  {
  }

  /* ---------------------------------------------------------------------- */
  /* strip                                                                   */
  /* ---------------------------------------------------------------------- */

  /** The characters a `strip` call removes: Python's whitespace when no
      argument is given, or the characters of the argument. */
  datatype CharSet = Whitespace | Chars(members: string)

  predicate Drops(chars: CharSet, c: char) {
    match chars
    case Whitespace => IsSpace(c)
    case Chars(members) => c in members
  }

  /** `r` is what is left of `s` once its first `i` characters and every
      character after `r` are removed, all of them in `chars`. */
  predicate TrimmedAt(s: string, r: string, i: int, chars: CharSet) {
    && 0 <= i <= |s| - |r|
    && r == s[i..i + |r|]
    && (forall k :: 0 <= k < i ==> Drops(chars, s[k]))
    && (forall k :: i + |r| <= k < |s| ==> Drops(chars, s[k]))
  }

  /** Python's `s.strip(chars)`: removes characters in `chars` from both
      ends, one at a time, until neither end has one. */
  function StripBy(s: string, chars: CharSet): (r: string)
    ensures |r| <= |s|
    ensures r != [] ==> !Drops(chars, r[0]) && !Drops(chars, r[|r| - 1])
    decreases |s|
  {
    if s == [] then s
    else if Drops(chars, s[0]) then StripBy(s[1..], chars)
    else if Drops(chars, s[|s| - 1]) then StripBy(s[..|s| - 1], chars)
    else s
  }

  lemma TrimmedAfterFront(s: string, r: string, i: int, chars: CharSet)
    requires s != [] && Drops(chars, s[0]) && TrimmedAt(s[1..], r, i, chars)
    ensures TrimmedAt(s, r, i + 1, chars)
  {
    assert s[i + 1..i + 1 + |r|] == s[1..][i..i + |r|];
    forall k | 1 <= k < i + 1
      ensures Drops(chars, s[k])
    {
      assert s[k] == s[1..][k - 1];
    }
    forall k | i + 1 + |r| <= k < |s|
      ensures Drops(chars, s[k])
    {
      assert s[k] == s[1..][k - 1];
    }
  }

  lemma TrimmedAfterBack(s: string, r: string, i: int, chars: CharSet)
    requires s != [] && Drops(chars, s[|s| - 1]) && TrimmedAt(s[..|s| - 1], r, i, chars)
    ensures TrimmedAt(s, r, i, chars)
  {
    var t := s[..|s| - 1];
    assert s[i..i + |r|] == t[i..i + |r|];
    forall k | 0 <= k < i
      ensures Drops(chars, s[k])
    {
      assert s[k] == t[k];
    }
    forall k | i + |r| <= k < |s|
      ensures Drops(chars, s[k])
    {
      if k < |t| {
        assert s[k] == t[k];
      }
    }
  }

  /** What `StripBy` leaves is the infix of `s` that remains once every
      leading and trailing character in `chars` is gone. */
  lemma {:induction false} StripByIsInfix(s: string, chars: CharSet)
    ensures exists i :: TrimmedAt(s, StripBy(s, chars), i, chars)
    decreases |s|
  {
    var r := StripBy(s, chars);
    if s == [] {
      assert TrimmedAt(s, r, 0, chars);
    } else if Drops(chars, s[0]) {
      StripByIsInfix(s[1..], chars);
      var i :| TrimmedAt(s[1..], r, i, chars);
      TrimmedAfterFront(s, r, i, chars);
    } else if Drops(chars, s[|s| - 1]) {
      StripByIsInfix(s[..|s| - 1], chars);
      var i :| TrimmedAt(s[..|s| - 1], r, i, chars);
      TrimmedAfterBack(s, r, i, chars);
    } else {
      assert TrimmedAt(s, r, 0, chars);
    }
  }

  /** Python's `s.strip()`. */
  function Strip(s: string): string {
    StripBy(s, Whitespace)
  }

  lemma {:induction false} StripByTrailing(s: string, trail: string, chars: CharSet)
    requires forall k :: 0 <= k < |trail| ==> Drops(chars, trail[k])
    requires s != [] && !Drops(chars, s[0]) && !Drops(chars, s[|s| - 1])
    ensures StripBy(s + trail, chars) == s
    decreases |trail|
  {
    var u := s + trail;
    assert u[0] == s[0];
    if trail == [] {
      assert u == s;
    } else {
      assert u[|u| - 1] == trail[|trail| - 1];
      assert u[..|u| - 1] == s + trail[..|trail| - 1];
      StripByTrailing(s, trail[..|trail| - 1], chars);
    }
  }

  /** Stripping a string already free of strippable ends changes nothing;
      stripping `lead + s + trail` whose outer parts are all strippable gives
      the same as stripping `s`. */
  lemma {:induction false} StripByPadded(lead: string, s: string, trail: string, chars: CharSet)
    requires forall k :: 0 <= k < |lead| ==> Drops(chars, lead[k])
    requires forall k :: 0 <= k < |trail| ==> Drops(chars, trail[k])
    requires s != [] && !Drops(chars, s[0]) && !Drops(chars, s[|s| - 1])
    ensures StripBy(lead + s + trail, chars) == s
    decreases |lead|
  {
    if lead == [] {
      assert lead + s + trail == s + trail;
      StripByTrailing(s, trail, chars);
    } else {
      var u := lead + s + trail;
      assert u[0] == lead[0];
      assert u[1..] == lead[1..] + s + trail;
      StripByPadded(lead[1..], s, trail, chars);
    }
  }

  /* ---------------------------------------------------------------------- */
  /* replace, split and join                                                 */
  /* ---------------------------------------------------------------------- */

  /** Python's `s.replace(a, b)` for single characters. */
  function ReplaceChar(s: string, a: char, b: char): (r: string)
    ensures |r| == |s|
    ensures forall k :: 0 <= k < |s| ==> r[k] == (if s[k] == a then b else s[k])
  {
    seq(|s|, k requires 0 <= k < |s| => if s[k] == a then b else s[k])
  }

  /** Python's `sep.join(parts)`. */
  function Join(parts: seq<string>, sep: string): string {
    if parts == [] then ""
    else if |parts| == 1 then parts[0]
    else parts[0] + sep + Join(parts[1..], sep)
  }

  /** Joining pieces that avoid `c` with a separator that avoids it gives a
      string that avoids it. */
  lemma {:induction false} JoinAvoids(parts: seq<string>, sep: string, c: char)
    requires c !in sep
    requires forall k :: 0 <= k < |parts| ==> c !in parts[k]
    ensures c !in Join(parts, sep)
    decreases |parts|
  {
    if |parts| > 1 {
      JoinAvoids(parts[1..], sep, c);
    }
  }

  /** With a non-empty separator the join is empty exactly when there is no
      piece or a single empty one. */
  lemma JoinEmptyIff(parts: seq<string>, sep: string)
    requires sep != ""
    ensures Join(parts, sep) == "" <==> |parts| == 0 || (|parts| == 1 && parts[0] == "")
  {
  }

  /** Replacing a character that does not occur changes nothing. */
  lemma ReplaceAbsent(s: string, a: char, b: char)
    requires a !in s
    ensures ReplaceChar(s, a, b) == s
  {
  }

  /** A line break as a text-mode file read sees one: '\n' or '\r'. */
  predicate IsLineBreak(c: char) {
    c == '\n' || c == '\r'
  }

  /** `p` holds no line break. */
  predicate NoBreak(p: string) {
    forall j :: 0 <= j < |p| ==> !IsLineBreak(p[j])
  }

  /** `r` with `c` put in front of its first piece. */
  function ConsFirst(c: char, r: seq<string>): (r': seq<string>)
    requires |r| >= 1
    ensures |r'| == |r| && r'[0] == [c] + r[0] && r'[1..] == r[1..]
  {
    [[c] + r[0]] + r[1..]
  }

  /** Splits `s` at every line break: always at least one piece, and no piece
      holds a break. On a string without '\r' this is Python's
      `s.split("\n")`. */
  function Lines(s: string): (r: seq<string>)
    ensures |r| >= 1
    decreases |s|
  {
    if s == [] then [""]
    else if IsLineBreak(s[0]) then [""] + Lines(s[1..])
    else ConsFirst(s[0], Lines(s[1..]))
  }

  /** No piece of `Lines(s)` holds a break. */
  lemma {:induction false} LinesHaveNoBreak(s: string)
    ensures forall k :: 0 <= k < |Lines(s)| ==> NoBreak(Lines(s)[k])
    decreases |s|
  {
    if s != [] {
      LinesHaveNoBreak(s[1..]);
    }
  }

  /** A string without breaks is a single line. */
  lemma {:induction false} LinesOfOne(s: string)
    requires NoBreak(s)
    ensures Lines(s) == [s]
    decreases |s|
  {
    if s != [] {
      LinesOfOne(s[1..]);
      assert [s[0]] + s[1..] == s;
    }
  }

  lemma ConsFirstAppend(c: char, x: seq<string>, y: seq<string>)
    requires |x| >= 1
    ensures ConsFirst(c, x + y) == ConsFirst(c, x) + y
  {
    assert (x + y)[0] == x[0];
    assert (x + y)[1..] == x[1..] + y;
  }

  /** A line break splits a string into the lines of its two sides. */
  lemma {:induction false} LinesAround(a: string, sep: char, b: string)
    requires IsLineBreak(sep)
    ensures Lines(a + [sep] + b) == Lines(a) + Lines(b)
    decreases |a|
  {
    var s := a + [sep] + b;
    if a == [] {
      assert s == [sep] + b;
      assert s[1..] == b;
    } else {
      assert s[0] == a[0];
      assert s[1..] == a[1..] + [sep] + b;
      LinesAround(a[1..], sep, b);
      if !IsLineBreak(a[0]) {
        ConsFirstAppend(a[0], Lines(a[1..]), Lines(b));
      }
    }
  }

  /** A line followed by a line feed is the first piece. */
  lemma LineThenRest(a: string, b: string)
    requires NoBreak(a)
    ensures Lines(a + ['\n'] + b) == [a] + Lines(b)
  {
    LinesAround(a, '\n', b);
    LinesOfOne(a);
  }

  /** Splitting undoes joining with a line break. */
  lemma {:induction false} LinesOfJoin(parts: seq<string>)
    requires |parts| >= 1
    requires forall k :: 0 <= k < |parts| ==> NoBreak(parts[k])
    ensures Lines(Join(parts, "\n")) == parts
    decreases |parts|
  {
    LinesOfOne(parts[0]);
    if |parts| > 1 {
      LinesAround(parts[0], '\n', Join(parts[1..], "\n"));
      LinesOfJoin(parts[1..]);
      assert parts == [parts[0]] + parts[1..];
    }
  }

  /** Joining with `c` put in front of the first piece puts `c` in front of
      the joined string. */
  lemma JoinConsFirst(c: char, r: seq<string>, sep: string)
    requires |r| >= 1
    ensures Join(ConsFirst(c, r), sep) == [c] + Join(r, sep)
  {
  }

  /** Joining the lines of a string without '\r' with '\n' restores it. */
  lemma {:induction false} JoinOfLines(s: string)
    requires '\r' !in s
    ensures Join(Lines(s), "\n") == s
    decreases |s|
  {
    if s != [] {
      assert s[0] in s;
      assert forall c :: c in s[1..] ==> c in s;
      JoinOfLines(s[1..]);
      if IsLineBreak(s[0]) {
        assert Join([""] + Lines(s[1..]), "\n") == "" + "\n" + Join(Lines(s[1..]), "\n");
      } else {
        JoinConsFirst(s[0], Lines(s[1..]), "\n");
      }
      assert [s[0]] + s[1..] == s;
    }
  }

  /* ---------------------------------------------------------------------- */
  /* str(int) and os.path.basename                                           */
  /* ---------------------------------------------------------------------- */

  predicate IsDigit(c: char) {
    '0' <= c <= '9'
  }

  function DigitChar(d: nat): (c: char)
    requires d < 10
    ensures IsDigit(c) && (c as int) - ('0' as int) == d
  {
    ['0', '1', '2', '3', '4', '5', '6', '7', '8', '9'][d]
  }

  /** Python's `str(n)` for a natural number: decimal digits, no leading zero. */
  function NatToString(n: nat): (r: string)
    ensures r != []
    ensures forall k :: 0 <= k < |r| ==> IsDigit(r[k])
    ensures r[0] == '0' ==> n == 0 && r == "0"
    decreases n
  {
    if n < 10 then [DigitChar(n)] else NatToString(n / 10) + [DigitChar(n % 10)]
  }

  /** Python's `str(i)` for an integer. */
  function IntToString(i: int): string {
    if i < 0 then "-" + NatToString(-i) else NatToString(i)
  }

  /** `os.path.basename` on a POSIX path: the longest suffix without '/'. */
  function Basename(path: string): string {
    path[LastIndexOf(path, '/') + 1..]
  }

  /** The base name is a suffix of the path without '/', and it is the whole
      path or comes right after a '/'. */
  lemma BasenameIsLastComponent(path: string)
    ensures var r := Basename(path);
      && '/' !in r
      && EndsWith(path, r)
      && (|r| < |path| ==> path[|path| - |r| - 1] == '/')
  {
  }
}
