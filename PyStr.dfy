/**
 * The Python 2 `str` built-ins that the command-line helpers rely on, stated on
 * `string` (a sequence of characters): the whitespace class, `lstrip`, `rstrip`,
 * `strip`, `expandtabs`, `splitlines`, `join`, `ljust` and slicing. `SplitOn` stands
 * for `split(sep)`, which the helpers never call: it is the inverse through which the
 * tab-separated listing line is read back into its columns.
 */
module PyStr {

  /** Whitespace as Python 2's `str.isspace` and the argument-less `strip` family see it:
      space, tab, newline, carriage return, vertical tab and form feed. */
  predicate IsSpace(c: char)
  {
    c == ' ' || c == '\t' || c == '\n' || c == '\r' || c == '\U{0B}' || c == '\U{0C}'
  }

  /** Every character is whitespace (the empty string included). */
  predicate IsBlank(s: string)
  {
    forall i :: 0 <= i < |s| ==> IsSpace(s[i])
  }

  predicate HasNoTab(s: string)
  {
    HasNo(s, '\t')
  }

  /** The characters `str.splitlines` breaks a Python 2 `str` at. */
  predicate IsLineBreak(c: char)
  {
    c == '\n' || c == '\r'
  }

  predicate HasNoLineBreak(s: string)
  {
    forall i :: 0 <= i < |s| ==> !IsLineBreak(s[i])
  }

  predicate HasNo(s: string, c: char)
  {
    forall i :: 0 <= i < |s| ==> s[i] != c
  }

  function Min(a: nat, b: nat): nat
  {
    if a <= b then a else b
  }

  function Max(a: nat, b: nat): nat
  {
    if a <= b then b else a
  }

  /** `' ' * n` */
  function Spaces(n: nat): (r: string)
    ensures |r| == n && forall i :: 0 <= i < n ==> r[i] == ' '
  {
    seq(n, _ => ' ')
  }

  /** `s[:n]`: at most the first `n` characters. */
  function Prefix(s: string, n: nat): (r: string)
    ensures |r| == Min(|s|, n) && r == s[..|r|]
  {
    s[..Min(|s|, n)]
  }

  /** `s[n:]`: everything after the first `n` characters, empty when `n` is past the end. */
  function DropPrefix(s: string, n: nat): (r: string)
    ensures n <= |s| ==> r == s[n..]
    ensures |s| < n ==> r == []
  {
    if n <= |s| then s[n..] else []
  }

  /** `len(s) - len(s.lstrip())`: the width of the leading whitespace. */
  function LeadingSpace(s: string): (n: nat)
    ensures n <= |s|
  {
    if s != [] && IsSpace(s[0]) then 1 + LeadingSpace(s[1..]) else 0
  }

  /** The width of the trailing whitespace. */
  function TrailingSpace(s: string): (n: nat)
    ensures n <= |s|
  {
    if s != [] && IsSpace(s[|s| - 1]) then 1 + TrailingSpace(s[..|s| - 1]) else 0
  }

  /** `s.lstrip()` */
  function LStrip(s: string): string
  {
    s[LeadingSpace(s)..]
  }

  /** `s.rstrip()` */
  function RStrip(s: string): string
  {
    s[..|s| - TrailingSpace(s)]
  }

  /** `s.strip()` */
  function Strip(s: string): string
  {
    RStrip(LStrip(s))
  }

  /** The leading whitespace is exactly the whitespace run `s` starts with, and it covers
      the whole string just when the string is blank. */
  lemma {:induction false} LeadingSpaceIsMaximal(s: string)
    ensures forall i :: 0 <= i < LeadingSpace(s) ==> IsSpace(s[i])
    ensures LeadingSpace(s) < |s| ==> !IsSpace(s[LeadingSpace(s)])
    ensures LeadingSpace(s) == |s| <==> IsBlank(s)
    decreases |s|
  {
    if s != [] && IsSpace(s[0]) {
      LeadingSpaceIsMaximal(s[1..]);
      assert forall i :: 1 <= i < |s| ==> s[1..][i - 1] == s[i];
    }
  }

  /** The trailing whitespace is exactly the whitespace run `s` ends with, and it covers
      the whole string just when the string is blank. */
  lemma {:induction false} TrailingSpaceIsMaximal(s: string)
    ensures forall i :: |s| - TrailingSpace(s) <= i < |s| ==> IsSpace(s[i])
    ensures TrailingSpace(s) < |s| ==> !IsSpace(s[|s| - TrailingSpace(s) - 1])
    ensures TrailingSpace(s) == |s| <==> IsBlank(s)
    decreases |s|
  {
    if s != [] && IsSpace(s[|s| - 1]) {
      TrailingSpaceIsMaximal(s[..|s| - 1]);
    }
  }

  /** `lstrip` removes leading whitespace only: the result is a suffix of `s`, empty exactly
      when `s` is blank, and otherwise starts with a character that is not whitespace. */
  lemma LStripSpec(s: string)
    ensures |LStrip(s)| <= |s| && LStrip(s) == s[|s| - |LStrip(s)|..]
    ensures LStrip(s) == [] <==> IsBlank(s)
    ensures LStrip(s) == [] || !IsSpace(LStrip(s)[0])
  {
    LeadingSpaceIsMaximal(s);
  }

  /** `rstrip` removes trailing whitespace only: the result is a prefix of `s`, empty exactly
      when `s` is blank, and otherwise ends with a character that is not whitespace. */
  lemma RStripSpec(s: string)
    ensures |RStrip(s)| <= |s| && RStrip(s) == s[..|RStrip(s)|]
    ensures forall i :: |RStrip(s)| <= i < |s| ==> IsSpace(s[i])
    ensures RStrip(s) == [] <==> IsBlank(s)
    ensures RStrip(s) == [] || !IsSpace(RStrip(s)[|RStrip(s)| - 1])
  {
    TrailingSpaceIsMaximal(s);
  }

  /** `strip` keeps the middle of `s`: empty exactly when `s` is blank, and otherwise neither
      starting nor ending with whitespace. */
  lemma StripSpec(s: string)
    ensures var n := LeadingSpace(s);
            n + |Strip(s)| <= |s| && Strip(s) == s[n..n + |Strip(s)|]
    ensures Strip(s) == [] <==> IsBlank(s)
    ensures Strip(s) == [] || (!IsSpace(Strip(s)[0]) && !IsSpace(Strip(s)[|Strip(s)| - 1]))
  {
    var l := LStrip(s);
    LStripSpec(s);
    RStripSpec(l);
    if l != [] && RStrip(l) != [] {
      assert RStrip(l)[0] == l[0];
    }
  }

  /** The default tab width of `expandtabs`. */
  const TabSize: nat := 8

  /** `s.expandtabs()` with the output already at `column`: each tab becomes the spaces
      that reach the next multiple of eight, and a newline or carriage return sends the
      column back to zero. */
  function ExpandTabsFrom(s: string, column: nat): (r: string)
    ensures HasNoTab(r)
    ensures r == [] <==> s == []
    ensures HasNoTab(s) ==> r == s
    decreases |s|
  {
    if s == [] then []
    else if s[0] == '\t' then
      var width := TabSize - column % TabSize;
      Spaces(width) + ExpandTabsFrom(s[1..], column + width)
    else
      [s[0]] + ExpandTabsFrom(s[1..], if IsLineBreak(s[0]) then 0 else column + 1)
  }

  /** `s.expandtabs()` */
  function ExpandTabs(s: string): string
  {
    ExpandTabsFrom(s, 0)
  }

  /** The length of the first line of `s`: the index of its first line break, or `|s|`. */
  function LineEnd(s: string): (k: nat)
    ensures k <= |s| && HasNoLineBreak(s[..k])
    ensures k < |s| ==> IsLineBreak(s[k])
  {
    if s == [] || IsLineBreak(s[0]) then 0 else 1 + LineEnd(s[1..])
  }

  /** `s.splitlines()` on a Python 2 `str`: lines end at `\n`, `\r` or `\r\n`, the breaks are
      dropped, and a break at the very end does not open one more (empty) line. */
  function SplitLines(s: string): (lines: seq<string>)
    ensures lines == [] <==> s == []
    decreases |s|
  {
    if s == [] then []
    else
      var k := LineEnd(s);
      var next := if k == |s| then k
                  else if s[k] == '\r' && k + 1 < |s| && s[k + 1] == '\n' then k + 2
                  else k + 1;
      [s[..k]] + SplitLines(s[next..])
  }

  /** `sep.join(parts)` for a one-character separator. */
  function JoinWith(parts: seq<string>, sep: char): string
  {
    if |parts| == 0 then []
    else if |parts| == 1 then parts[0]
    else parts[0] + [sep] + JoinWith(parts[1..], sep)
  }

  /** The index of the first `c` in `s`, or `|s|` when there is none. */
  function IndexOf(s: string, c: char): (k: nat)
    ensures k <= |s| && HasNo(s[..k], c)
    ensures k < |s| ==> s[k] == c
  {
    if s == [] || s[0] == c then 0 else 1 + IndexOf(s[1..], c)
  }

  /** `s.split(sep)` for a one-character separator: always at least one part. */
  function SplitOn(s: string, sep: char): (parts: seq<string>)
    ensures |parts| > 0
    ensures forall j :: 0 <= j < |parts| ==> HasNo(parts[j], sep)
    decreases |s|
  {
    var k := IndexOf(s, sep);
    if k == |s| then [s] else [s[..k]] + SplitOn(s[k + 1..], sep)
  }

  /** `s.ljust(width)`: `s` itself when it is already that wide, else `s` padded with spaces. */
  function LJust(s: string, width: nat): (r: string)
    ensures |r| == Max(|s|, width)
    ensures r[..|s|] == s
    ensures forall i :: |s| <= i < |r| ==> r[i] == ' '
  {
    if |s| >= width then s else s + Spaces(width - |s|)
  }

  lemma {:induction false} LineEndOf(a: string, b: string)
    requires HasNoLineBreak(a)
    requires b == [] || IsLineBreak(b[0])
    ensures LineEnd(a + b) == |a|
    decreases |a|
  {
    if a != [] {
      assert (a + b)[1..] == a[1..] + b;
      LineEndOf(a[1..], b);
    }
  }

  lemma {:induction false} IndexOfIn(a: string, b: string, c: char)
    requires HasNo(a, c)
    requires b == [] || b[0] == c
    ensures IndexOf(a + b, c) == |a|
    decreases |a|
  {
    if a != [] {
      assert (a + b)[1..] == a[1..] + b;
      IndexOfIn(a[1..], b, c);
    }
  }

  /** No line of `splitlines` holds a line break, and a text without tabs yields lines
      without tabs. */
  lemma {:induction false} SplitLinesParts(s: string)
    ensures forall j :: 0 <= j < |SplitLines(s)| ==> HasNoLineBreak(SplitLines(s)[j])
    ensures HasNoTab(s) ==> forall j :: 0 <= j < |SplitLines(s)| ==> HasNoTab(SplitLines(s)[j])
    decreases |s|
  {
    if s != [] {
      var k := LineEnd(s);
      var next := if k == |s| then k
                  else if s[k] == '\r' && k + 1 < |s| && s[k + 1] == '\n' then k + 2
                  else k + 1;
      SplitLinesParts(s[next..]);
      assert SplitLines(s) == [s[..k]] + SplitLines(s[next..]);
    }
  }

  /** `'\n'.join` is undone by `splitlines` when no line holds a break and the last line
      is not empty. */
  lemma {:induction false} SplitLinesOfJoin(ls: seq<string>)
    requires forall j :: 0 <= j < |ls| ==> HasNoLineBreak(ls[j])
    requires ls == [] || ls[|ls| - 1] != []
    ensures SplitLines(JoinWith(ls, '\n')) == ls
  {
    if |ls| == 1 {
      var s := ls[0];
      LineEndOf(s, []);
      assert s + [] == s;
      assert s[|s|..] == [];
    } else if |ls| > 1 {
      var rest := JoinWith(ls[1..], '\n');
      var s := ls[0] + ['\n'] + rest;
      assert s == ls[0] + (['\n'] + rest);
      LineEndOf(ls[0], ['\n'] + rest);
      assert s[..|ls[0]|] == ls[0];
      assert s[|ls[0]| + 1..] == rest;
      SplitLinesOfJoin(ls[1..]);
    }
  }

  /** `sep.join` is undone by `split(sep)` when no part holds the separator. */
  lemma {:induction false} SplitOfJoin(parts: seq<string>, sep: char)
    requires |parts| > 0
    requires forall j :: 0 <= j < |parts| ==> HasNo(parts[j], sep)
    ensures SplitOn(JoinWith(parts, sep), sep) == parts
  {
    if |parts| == 1 {
      var s := parts[0];
      IndexOfIn(s, [], sep);
      assert s + [] == s;
    } else {
      var rest := JoinWith(parts[1..], sep);
      var s := parts[0] + [sep] + rest;
      assert s == parts[0] + ([sep] + rest);
      IndexOfIn(parts[0], [sep] + rest, sep);
      assert s[..|parts[0]|] == parts[0];
      assert s[|parts[0]| + 1..] == rest;
      SplitOfJoin(parts[1..], sep);
    }
  }
}
