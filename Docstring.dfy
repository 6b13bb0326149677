/**
 * `trim`: the docstring-indentation algorithm of PEP 257, used by the client to clean up
 * usage text before it reaches the option parser. Tabs are expanded, the text is split
 * into lines, the common indentation of the lines after the first is removed, every line
 * loses its trailing whitespace (the first also its leading whitespace), and blank lines
 * at either end are dropped.
 */
module Docstring {
  import opened Wrappers
  import opened PyStr

  /** The smallest leading-whitespace width over the non-blank lines, `None` when every line
      is blank, folded in the order the source's loop visits the lines. */
  function MinIndent(lines: seq<string>): Option<nat>
    decreases |lines|
  {
    if lines == [] then None
    else
      var line := lines[|lines| - 1];
      var rest := MinIndent(lines[..|lines| - 1]);
      var stripped := LStrip(line);
      if stripped == [] then rest
      else if rest.None? then Some(|line| - |stripped|)
      else Some(Min(rest.value, |line| - |stripped|))
  }

  /** `MinIndent` is a minimum: `None` exactly when all lines are blank, otherwise no
      non-blank line is indented less, and some non-blank line is indented exactly that much. */
  lemma {:induction false} MinIndentIsMinimum(lines: seq<string>)
    ensures MinIndent(lines).None? <==> forall j :: 0 <= j < |lines| ==> IsBlank(lines[j])
    ensures MinIndent(lines).Some? ==>
              forall j :: 0 <= j < |lines| && !IsBlank(lines[j]) ==> MinIndent(lines).value <= LeadingSpace(lines[j])
    ensures MinIndent(lines).Some? ==>
              exists j :: 0 <= j < |lines| && !IsBlank(lines[j]) && LeadingSpace(lines[j]) == MinIndent(lines).value
    decreases |lines|
  {
    if lines != [] {
      var n := |lines| - 1;
      var init, last := lines[..n], lines[n];
      MinIndentIsMinimum(init);
      LeadingSpaceIsMaximal(last);
      assert forall j :: 0 <= j < n ==> init[j] == lines[j];
      var rest := MinIndent(init);
      if !IsBlank(last) && rest.Some? {
        var k :| 0 <= k < n && !IsBlank(init[k]) && LeadingSpace(init[k]) == rest.value;
        if rest.value <= LeadingSpace(last) {
          assert lines[k] == init[k];
        } else {
          assert MinIndent(lines).value == LeadingSpace(lines[n]);
        }
      }
    }
  }

  /** `line[indent:].rstrip()` */
  function Dedent(line: string, indent: nat): string
  {
    RStrip(DropPrefix(line, indent))
  }

  /** Every line of `lines` dedented by `indent`, in order. */
  function DedentEach(lines: seq<string>, indent: nat): (r: seq<string>)
    ensures |r| == |lines|
  {
    if lines == [] then []
    else DedentEach(lines[..|lines| - 1], indent) + [Dedent(lines[|lines| - 1], indent)]
  }

  lemma {:induction false} DedentEachAt(lines: seq<string>, indent: nat, j: nat)
    requires j < |lines|
    ensures DedentEach(lines, indent)[j] == Dedent(lines[j], indent)
  {
    if j < |lines| - 1 {
      DedentEachAt(lines[..|lines| - 1], indent, j);
    }
  }

  /** The list `trimmed` before blank lines are popped: the stripped first line, then, when
      some later line is not blank, every later line dedented by the common indentation. */
  function DedentLines(lines: seq<string>): (r: seq<string>)
    requires lines != []
  {
    var first := Strip(lines[0]);
    match MinIndent(lines[1..])
    case None => [first]
    case Some(indent) => [first] + DedentEach(lines[1..], indent)
  }

  lemma DedentLinesAt(lines: seq<string>, j: nat)
    requires 1 <= j < |lines|
    requires MinIndent(lines[1..]).Some?
    ensures |DedentLines(lines)| == |lines|
    ensures DedentLines(lines)[j] == Dedent(lines[j], MinIndent(lines[1..]).value)
  {
    DedentEachAt(lines[1..], MinIndent(lines[1..]).value, j - 1);
  }

  /** `ls` after `while ls and not ls[-1]: ls.pop()` */
  function DropTrailingEmpty(ls: seq<string>): seq<string>
  {
    if ls != [] && ls[|ls| - 1] == [] then DropTrailingEmpty(ls[..|ls| - 1]) else ls
  }

  /** `ls` after `while ls and not ls[0]: ls.pop(0)` */
  function DropLeadingEmpty(ls: seq<string>): seq<string>
  {
    if ls != [] && ls[0] == [] then DropLeadingEmpty(ls[1..]) else ls
  }

  /** Popping trailing empty lines keeps a prefix, removes only empty lines, and leaves a
      list that is empty or ends in a non-empty line. */
  lemma {:induction false} DropTrailingEmptySpec(ls: seq<string>)
    ensures var r := DropTrailingEmpty(ls);
            && |r| <= |ls| && r == ls[..|r|]
            && (forall j :: |r| <= j < |ls| ==> ls[j] == [])
            && (r == [] || r[|r| - 1] != [])
  {
    if ls != [] && ls[|ls| - 1] == [] {
      DropTrailingEmptySpec(ls[..|ls| - 1]);
    }
  }

  /** Popping leading empty lines keeps a suffix, removes only empty lines, and leaves a
      list that is empty or starts with a non-empty line. */
  lemma {:induction false} DropLeadingEmptySpec(ls: seq<string>)
    ensures var r := DropLeadingEmpty(ls);
            && |r| <= |ls| && r == ls[|ls| - |r|..]
            && (forall j :: 0 <= j < |ls| - |r| ==> ls[j] == [])
            && (r == [] || r[0] != [])
  {
    if ls != [] && ls[0] == [] {
      DropLeadingEmptySpec(ls[1..]);
      assert forall j :: 1 <= j < |ls| ==> ls[1..][j - 1] == ls[j];
    }
  }

  /** The lines `trim` joins into its result. */
  function TrimmedLines(docstring: string): seq<string>
  {
    if docstring == [] then []
    else DropLeadingEmpty(DropTrailingEmpty(DedentLines(SplitLines(ExpandTabs(docstring)))))
  }

  /** What `trim(docstring)` returns. */
  function Trimmed(docstring: string): string
  {
    JoinWith(TrimmedLines(docstring), '\n')
  }

  /** `trim(docstring)`, step by step as the source does it. */
  method Trim(docstring: string) returns (r: string)
    ensures r == Trimmed(docstring)
    ensures docstring == [] ==> r == []
  {
    if docstring == [] {
      return [];
    }
    var lines := SplitLines(ExpandTabs(docstring));
    // Determine the minimum indentation; the first line does not count.
    var indent: Option<nat> := None;
    for i := 1 to |lines|
      invariant indent == MinIndent(lines[1..i])
    {
      var line := lines[i];
      var stripped := LStrip(line);
      if stripped != [] {
        var width := |line| - |stripped|;
        indent := if indent.None? then Some(width) else Some(Min(indent.value, width));
      }
      MinIndentStep(lines, i);
    }
    assert lines[1..|lines|] == lines[1..];
    // Remove the indentation; the first line is special.
    var trimmed := [Strip(lines[0])];
    if indent.Some? {
      for i := 1 to |lines|
        invariant trimmed == [Strip(lines[0])] + DedentEach(lines[1..i], indent.value)
      {
        ghost var done := DedentEach(lines[1..i], indent.value);
        trimmed := trimmed + [RStrip(DropPrefix(lines[i], indent.value))];
        AppendAssoc([Strip(lines[0])], done, [Dedent(lines[i], indent.value)]);
        DedentEachStep(lines, i, indent.value);
      }
    }
    // Strip off trailing and leading blank lines.
    ghost var dedented := trimmed;
    while trimmed != [] && trimmed[|trimmed| - 1] == []
      invariant DropTrailingEmpty(trimmed) == DropTrailingEmpty(dedented)
    {
      trimmed := trimmed[..|trimmed| - 1];
    }
    ghost var kept := trimmed;
    while trimmed != [] && trimmed[0] == []
      invariant DropLeadingEmpty(trimmed) == DropLeadingEmpty(kept)
    {
      trimmed := trimmed[1..];
    }
    r := JoinWith(trimmed, '\n');
  }

  lemma MinIndentStep(lines: seq<string>, i: nat)
    requires 1 <= i < |lines|
    ensures MinIndent(lines[1..i + 1]) ==
            var stripped := LStrip(lines[i]);
            if stripped == [] then MinIndent(lines[1..i])
            else if MinIndent(lines[1..i]).None? then Some(|lines[i]| - |stripped|)
            else Some(Min(MinIndent(lines[1..i]).value, |lines[i]| - |stripped|))
  {
    assert lines[1..i + 1][..i - 1] == lines[1..i];
  }

  lemma AppendAssoc<T>(a: seq<T>, b: seq<T>, c: seq<T>)
    ensures (a + b) + c == a + (b + c)
  {
  }

  lemma DedentEachStep(lines: seq<string>, i: nat, indent: nat)
    requires 1 <= i < |lines|
    ensures DedentEach(lines[1..i + 1], indent) == DedentEach(lines[1..i], indent) + [Dedent(lines[i], indent)]
  {
    assert lines[1..i + 1][..i - 1] == lines[1..i];
  }

  /** What holds of every line of the result: no tab, no line break, no trailing whitespace. */
  predicate IsCleanLine(line: string)
  {
    HasNoTab(line) && HasNoLineBreak(line) && (line == [] || !IsSpace(line[|line| - 1]))
  }

  /** A slice of a line without tabs and line breaks has none either. */
  lemma SliceKeepsClean(s: string, a: nat, b: nat)
    requires a <= b <= |s| && HasNoTab(s) && HasNoLineBreak(s)
    ensures HasNoTab(s[a..b]) && HasNoLineBreak(s[a..b])
  {
    assert forall i :: 0 <= i < b - a ==> s[a..b][i] == s[a + i];
  }

  /** The stripped first line and every dedented later line are clean. */
  lemma DedentLinesClean(lines: seq<string>)
    requires lines != []
    requires forall j :: 0 <= j < |lines| ==> HasNoTab(lines[j]) && HasNoLineBreak(lines[j])
    ensures forall j :: 0 <= j < |DedentLines(lines)| ==> IsCleanLine(DedentLines(lines)[j])
  {
    var d := DedentLines(lines);
    forall j | 0 <= j < |d|
      ensures IsCleanLine(d[j])
    {
      if j == 0 {
        var n := LeadingSpace(lines[0]);
        StripSpec(lines[0]);
        SliceKeepsClean(lines[0], n, n + |Strip(lines[0])|);
      } else {
        var line := lines[j];
        var indent := MinIndent(lines[1..]).value;
        DedentLinesAt(lines, j);
        var rest := DropPrefix(line, indent);
        if indent <= |line| {
          SliceKeepsClean(line, indent, |line|);
        }
        RStripSpec(rest);
        SliceKeepsClean(rest, 0, |RStrip(rest)|);
      }
    }
  }

  /** Every line of a slice of a clean list is clean. */
  lemma SliceOfCleanLines(d: seq<string>, a: nat, b: nat)
    requires a <= b <= |d|
    requires forall j :: 0 <= j < |d| ==> IsCleanLine(d[j])
    ensures forall j :: 0 <= j < b - a ==> IsCleanLine(d[a..b][j])
  {
    assert forall j :: 0 <= j < b - a ==> d[a..b][j] == d[a + j];
  }

  /** Popping the empty lines at both ends of a clean list leaves a clean list whose first
      and last lines are not blank. */
  lemma DropEmptyEndsClean(d: seq<string>)
    requires forall j :: 0 <= j < |d| ==> IsCleanLine(d[j])
    ensures var ls := DropLeadingEmpty(DropTrailingEmpty(d));
            && (forall j :: 0 <= j < |ls| ==> IsCleanLine(ls[j]))
            && (ls == [] || (!IsBlank(ls[0]) && !IsBlank(ls[|ls| - 1])))
  {
    var t := DropTrailingEmpty(d);
    var ls := DropLeadingEmpty(t);
    DropTrailingEmptySpec(d);
    DropLeadingEmptySpec(t);
    SliceOfCleanLines(d, 0, |t|);
    SliceOfCleanLines(t, |t| - |ls|, |t|);
    if ls != [] {
      var first, last := ls[0], ls[|ls| - 1];
      assert last == t[|t| - 1];
      assert IsCleanLine(first) && first != [] && !IsSpace(first[|first| - 1]);
      assert IsCleanLine(last) && last != [] && !IsSpace(last[|last| - 1]);
    }
  }

  /** No line of the result holds a tab or a line break or ends in whitespace, and neither
      the first nor the last line is blank. */
  lemma TrimmedLinesClean(docstring: string)
    ensures forall j :: 0 <= j < |TrimmedLines(docstring)| ==> IsCleanLine(TrimmedLines(docstring)[j])
    ensures var ls := TrimmedLines(docstring);
            ls == [] || (!IsBlank(ls[0]) && !IsBlank(ls[|ls| - 1]))
  {
    if docstring != [] {
      var lines := SplitLines(ExpandTabs(docstring));
      SplitLinesParts(ExpandTabs(docstring));
      DedentLinesClean(lines);
      DropEmptyEndsClean(DedentLines(lines));
    }
  }

  /** The result read back with `splitlines` gives exactly the trimmed lines, so what
      `TrimmedLinesClean` says of the lines holds of the text `trim` returns. */
  lemma TrimmedSplitsBack(docstring: string)
    ensures SplitLines(Trimmed(docstring)) == TrimmedLines(docstring)
  {
    TrimmedLinesClean(docstring);
    SplitLinesOfJoin(TrimmedLines(docstring));
  }

  lemma {:induction false} JoinLast(ls: seq<string>, sep: char)
    requires ls != [] && ls[|ls| - 1] != []
    ensures var r := JoinWith(ls, sep);
            r != [] && r[|r| - 1] == ls[|ls| - 1][|ls[|ls| - 1]| - 1]
  {
    if |ls| > 1 {
      JoinLast(ls[1..], sep);
    }
  }

  /** `trim` of an empty docstring is empty; any other result ends in a character that is
      not whitespace and does not start with a line break. */
  lemma TrimmedEdges(docstring: string)
    ensures docstring == [] ==> Trimmed(docstring) == []
    ensures var r := Trimmed(docstring);
            r == [] || (!IsSpace(r[|r| - 1]) && !IsLineBreak(r[0]))
  {
    TrimmedLinesClean(docstring);
    var ls := TrimmedLines(docstring);
    if ls != [] {
      JoinLast(ls, '\n');
      assert |ls| > 1 ==> Trimmed(docstring) == ls[0] + ['\n'] + JoinWith(ls[1..], '\n');
    }
  }

  /** Each later line loses exactly the common indentation: a non-blank line loses only
      whitespace and keeps the rest of its text, right-stripped; a blank line becomes empty. */
  lemma DedentLine(lines: seq<string>, j: nat)
    requires 1 <= j < |lines|
    requires MinIndent(lines[1..]).Some?
    ensures var indent := MinIndent(lines[1..]).value;
            && |DedentLines(lines)| == |lines|
            && DedentLines(lines)[0] == Strip(lines[0])
            && (!IsBlank(lines[j]) ==>
                  && indent <= LeadingSpace(lines[j])
                  && IsBlank(lines[j][..indent])
                  && DedentLines(lines)[j] == RStrip(lines[j][indent..])
                  && DedentLines(lines)[j] != [])
            && (IsBlank(lines[j]) ==> DedentLines(lines)[j] == [])
  {
    var indent := MinIndent(lines[1..]).value;
    var line := lines[j];
    assert line == lines[1..][j - 1];
    MinIndentIsMinimum(lines[1..]);
    LeadingSpaceIsMaximal(line);
    var rest := DropPrefix(line, indent);
    RStripSpec(rest);
    DedentLinesAt(lines, j);
    if !IsBlank(line) {
      assert rest[LeadingSpace(line) - indent] == line[LeadingSpace(line)];
    } else {
      assert IsBlank(rest);
    }
  }

  /** No more than the common indentation is removed: some later line, once dedented,
      starts with a character that is not whitespace. */
  lemma DedentIsTight(lines: seq<string>)
    requires lines != [] && MinIndent(lines[1..]).Some?
    ensures exists j :: 1 <= j < |lines| && !IsBlank(lines[j]) &&
                        DedentLines(lines)[j] != [] && !IsSpace(DedentLines(lines)[j][0])
  {
    var indent := MinIndent(lines[1..]).value;
    MinIndentIsMinimum(lines[1..]);
    var k :| 0 <= k < |lines[1..]| && !IsBlank(lines[1..][k]) && LeadingSpace(lines[1..][k]) == indent;
    var line := lines[k + 1];
    DedentLine(lines, k + 1);
    LeadingSpaceIsMaximal(line);
    var rest := line[indent..];
    RStripSpec(rest);
    assert rest[0] == line[indent];
    assert RStrip(rest)[0] == rest[0];
  }

  /** When no line after the first has text, only the stripped first line remains. */
  lemma DedentWithoutLaterText(lines: seq<string>)
    requires lines != []
    requires forall j :: 1 <= j < |lines| ==> IsBlank(lines[j])
    ensures DedentLines(lines) == [Strip(lines[0])]
  {
    MinIndentIsMinimum(lines[1..]);
    assert forall j :: 0 <= j < |lines[1..]| ==> lines[1..][j] == lines[j + 1];
  }
}
