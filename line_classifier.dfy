/** The per-line classifier inside Parser.parseFile: two flags carried from
    line to line (inside a block comment, inside a doc comment) and four
    counters (total, blank, comment and doc lines). Code lines are not
    counted; they are derived as total - blank - comment - doc. */
module LineClassifier {
  import opened JavaString

  /** The counters parseFile bumps on a StatEntry. */
  datatype LineCounts = LineCounts(totalLines: int, blankLines: int, commentLines: int, docLines: int)

  /** The counters and the two flags: inBlock is the container's `first`
      (inside a block comment), inDoc its `second` (inside a doc comment). */
  datatype LineState = LineState(counts: LineCounts, inBlock: bool, inDoc: bool)

  function Start(): LineState
  {
    LineState(LineCounts(0, 0, 0, 0), false, false)
  }

  /** What the line lambda does with one line read from the file: it trims
      the line and classifies what is left. */
  function Step(s: LineState, rawLine: string): LineState
  {
    Classify(s, Trim(rawLine))
  }

  /** The classification of one trimmed line. */
  function Classify(s: LineState, line: string): LineState
  {
    var c := s.counts;
    var after :=
      if s.inBlock || s.inDoc then
        var docLines := if s.inDoc && StartsWith(line, "*") then c.docLines + 1 else c.docLines;
        var commentLines := if s.inBlock then c.commentLines + 1 else c.commentLines;
        var closes := Contains(line, "*/");
        LineState(c.(docLines := docLines, commentLines := commentLines),
                  s.inBlock && !closes, s.inDoc && !closes)
      else if line == "" then
        s.(counts := c.(blankLines := c.blankLines + 1))
      else if StartsWith(line, "//") || StartsWith(line, "#") then
        s.(counts := c.(commentLines := c.commentLines + 1))
      else if StartsWith(line, "/*") then
        if StartsWith(line, "/**") then LineState(c.(docLines := c.docLines + 1), false, true)
        else LineState(c.(commentLines := c.commentLines + 1), true, false)
      else s;
    after.(counts := after.counts.(totalLines := after.counts.totalLines + 1))
  }

  /** The state after the lambda has seen every line, first to last. */
  function Scan(lines: seq<string>): LineState
    decreases |lines|
  {
    if |lines| == 0 then Start() else Step(Scan(lines[..|lines| - 1]), lines[|lines| - 1])
  }

  /** The invariant of a well-formed state: the flags exclude each other,
      no counter is negative and no line is classified twice. */
  predicate Consistent(s: LineState)
  {
    && !(s.inBlock && s.inDoc)
    && s.counts.blankLines >= 0 && s.counts.commentLines >= 0 && s.counts.docLines >= 0
    && s.counts.blankLines + s.counts.commentLines + s.counts.docLines <= s.counts.totalLines
  }

  /** Every line bumps the total by exactly one and at most one of blank,
      comment and doc; the flags are never both set afterwards. */
  lemma StepKeepsConsistent(s: LineState, rawLine: string)
    requires Consistent(s)
    ensures Consistent(Step(s, rawLine))
    ensures Step(s, rawLine).counts.totalLines == s.counts.totalLines + 1
    ensures var d := Step(s, rawLine).counts;
      (d.blankLines - s.counts.blankLines) + (d.commentLines - s.counts.commentLines)
        + (d.docLines - s.counts.docLines) <= 1
  {
    ClassifyKeepsConsistent(s, Trim(rawLine));
  }

  lemma ClassifyKeepsConsistent(s: LineState, line: string)
    requires Consistent(s)
    ensures Consistent(Classify(s, line))
    ensures Classify(s, line).counts.totalLines == s.counts.totalLines + 1
    ensures var d := Classify(s, line).counts;
      (d.blankLines - s.counts.blankLines) + (d.commentLines - s.counts.commentLines)
        + (d.docLines - s.counts.docLines) <= 1
  {
    if s.inBlock || s.inDoc {
    } else if line == "" {
    } else if StartsWith(line, "//") || StartsWith(line, "#") {
    } else if StartsWith(line, "/*") {
    }
  }

  /** Over a whole file: the total is the number of lines, the flags are
      never both set, and blank + comment + doc never exceeds the total, so
      the derived code-line count is never negative. */
  lemma {:induction false} ScanConsistent(lines: seq<string>)
    ensures Consistent(Scan(lines))
    ensures Scan(lines).counts.totalLines == |lines|
    decreases |lines|
  {
    if |lines| > 0 {
      ScanConsistent(lines[..|lines| - 1]);
      StepKeepsConsistent(Scan(lines[..|lines| - 1]), lines[|lines| - 1]);
    }
  }

  // Outside any block: an empty trimmed line is blank, a line starting with
  // "//" or "#" is a comment, a line starting with "/**" is a doc line that
  // opens doc mode, one starting with "/*" (but not "/**") is a comment line
  // that opens block mode whatever else it contains, and anything else moves
  // no counter but the total.
  lemma StepOutsideBlock(s: LineState, rawLine: string)
    requires !s.inBlock && !s.inDoc
    ensures var line := Trim(rawLine);
      var r := Step(s, rawLine);
      && r.counts.blankLines == s.counts.blankLines + (if line == "" then 1 else 0)
      && r.counts.commentLines == s.counts.commentLines
           + (if StartsWith(line, "//") || StartsWith(line, "#")
                 || (StartsWith(line, "/*") && !StartsWith(line, "/**")) then 1 else 0)
      && r.counts.docLines == s.counts.docLines + (if StartsWith(line, "/**") then 1 else 0)
      && r.inDoc == StartsWith(line, "/**")
      && r.inBlock == (StartsWith(line, "/*") && !StartsWith(line, "/**"))
  {
    ClassifyOutsideBlock(s, Trim(rawLine));
  }

  lemma ClassifyOutsideBlock(s: LineState, line: string)
    requires !s.inBlock && !s.inDoc
    ensures var r := Classify(s, line);
      && r.counts.blankLines == s.counts.blankLines + (if line == "" then 1 else 0)
      && r.counts.commentLines == s.counts.commentLines
           + (if StartsWith(line, "//") || StartsWith(line, "#")
                 || (StartsWith(line, "/*") && !StartsWith(line, "/**")) then 1 else 0)
      && r.counts.docLines == s.counts.docLines + (if StartsWith(line, "/**") then 1 else 0)
      && r.inDoc == StartsWith(line, "/**")
      && r.inBlock == (StartsWith(line, "/*") && !StartsWith(line, "/**"))
  {
    if StartsWith(line, "/*") {
      assert line[..2] == "/*" && line[0] == '/' && line[1] == '*';
    }
    if StartsWith(line, "/**") {
      assert line[..3][..2] == "/*";
    }
  }

  /** Inside a block: in doc mode a line is a doc line only when it starts
      with *, in block mode every line is a comment line, no line is blank,
      and a line containing the closing marker clears both flags after it
      has been counted. */
  lemma StepInsideBlock(s: LineState, rawLine: string)
    requires s.inBlock || s.inDoc
    ensures var line := Trim(rawLine);
      var r := Step(s, rawLine);
      && r.counts.blankLines == s.counts.blankLines
      && r.counts.docLines == s.counts.docLines + (if s.inDoc && StartsWith(line, "*") then 1 else 0)
      && r.counts.commentLines == s.counts.commentLines + (if s.inBlock then 1 else 0)
      && (Contains(line, "*/") ==> !r.inBlock && !r.inDoc)
      && (!Contains(line, "*/") ==> r.inBlock == s.inBlock && r.inDoc == s.inDoc)
  {
  }

  /** A line of nothing but whitespace is blank when it is outside a block. */
  lemma WhitespaceLineIsBlank(s: LineState, rawLine: string)
    requires !s.inBlock && !s.inDoc
    requires forall k :: 0 <= k < |rawLine| ==> rawLine[k] <= ' '
    ensures Step(s, rawLine).counts.blankLines == s.counts.blankLines + 1
  {
    assert AllTrimmed(rawLine);
    TrimEmptyIffBlank(rawLine);
  }

  /** The body of the line lambda in Parser.parseFile: the captured flags
      and counters come in and go out as values. */
  method ApplyLine(first: bool, second: bool, c: LineCounts, rawLine: string)
      returns (first': bool, second': bool, c': LineCounts)
    ensures LineState(c', first', second') == Step(LineState(c, first, second), rawLine)
  {
    var line := Trim(rawLine);
    first', second', c' := ApplyTrimmed(first, second, c, line);
  }

  /** The lambda's body after `line = line.trim()`. */
  method ApplyTrimmed(first: bool, second: bool, c: LineCounts, line: string)
      returns (first': bool, second': bool, c': LineCounts)
    ensures LineState(c', first', second') == Classify(LineState(c, first, second), line)
  {
    var totalLines, blankLines, commentLines, docLines := c.totalLines, c.blankLines, c.commentLines, c.docLines;
    first', second' := first, second;
    if first' || second' {
      if second' && StartsWith(line, "*") {
        docLines := docLines + 1;
      }
      if first' {
        commentLines := commentLines + 1;
      }
      if Contains(line, "*/") {
        first' := false;
        second' := false;
      }
    } else {
      if line == "" {
        blankLines := blankLines + 1;
      } else if StartsWith(line, "//") || StartsWith(line, "#") {
        commentLines := commentLines + 1;
      } else if StartsWith(line, "/*") {
        first' := true;
        commentLines := commentLines + 1;
        if StartsWith(line, "/**") {
          second' := true;
          first' := false;
          commentLines := commentLines - 1;
          docLines := docLines + 1;
        }
      }
    }
    totalLines := totalLines + 1;
    c' := LineCounts(totalLines, blankLines, commentLines, docLines);
  }

  /** Parser.parseFile's forEach over the lines of a file, with the flag
      container and the counters carried from one line to the next. */
  method ClassifyLines(lines: seq<string>) returns (counts: LineCounts)
    ensures counts == Scan(lines).counts
    ensures counts.totalLines == |lines|
    ensures counts.blankLines >= 0 && counts.commentLines >= 0 && counts.docLines >= 0
    ensures counts.blankLines + counts.commentLines + counts.docLines <= counts.totalLines
  {
    var first, second := false, false;
    counts := LineCounts(0, 0, 0, 0);
    for i := 0 to |lines|
      invariant Scan(lines[..i]) == LineState(counts, first, second)
    {
      assert lines[..i + 1][..i] == lines[..i];
      first, second, counts := ApplyLine(first, second, counts, lines[i]);
    }
    assert lines[..|lines|] == lines;
    ScanConsistent(lines);
  }

  /** Scanning one more line is one more step. */
  lemma ScanSnoc(lines: seq<string>, line: string)
    ensures Scan(lines + [line]) == Step(Scan(lines), line)
  {
    assert (lines + [line])[..|lines|] == lines;
  }

  /** A string without '*' does not contain the closing marker. */
  lemma {:induction false} NoStar(s: string)
    requires '*' !in s
    ensures !Contains(s, "*/")
    decreases |s|
  {
    if |s| > 0 {
      assert s[0] != '*' && '*' !in s[1..];
      NoStar(s[1..]);
    }
  }

  // The one-line steps the scenarios below are made of: each literal line
  // has no whitespace at either end, so Step classifies it unchanged.

  lemma StepUntrimmed(s: LineState, line: string)
    requires |line| > 0 && !IsTrimmed(line[0]) && !IsTrimmed(line[|line| - 1])
    ensures Step(s, line) == Classify(s, line)
  {
    TrimKeeps(line);
  }

  lemma BlankStep(s: LineState)
    requires !s.inBlock && !s.inDoc
    ensures Step(s, "") == s.(counts := s.counts.(totalLines := s.counts.totalLines + 1, blankLines := s.counts.blankLines + 1))
  {
    assert Trim("") == "";
  }

  lemma LineCommentStep(s: LineState)
    requires !s.inBlock && !s.inDoc
    ensures Classify(s, "// hi") == s.(counts := s.counts.(totalLines := s.counts.totalLines + 1, commentLines := s.counts.commentLines + 1))
  {
    var line := "// hi";
    assert line[..2] == "//";
  }

  lemma CodeStep(s: LineState)
    requires !s.inBlock && !s.inDoc
    ensures Classify(s, "int x;") == s.(counts := s.counts.(totalLines := s.counts.totalLines + 1))
  {
    var line := "int x;";
    assert line[0] != '/' && line[0] != '#';
  }

  lemma BlockOpenStep(s: LineState)
    requires !s.inBlock && !s.inDoc
    ensures Classify(s, "/* note */")
      == LineState(s.counts.(totalLines := s.counts.totalLines + 1, commentLines := s.counts.commentLines + 1), true, false)
  {
    var line := "/* note */";
    assert line[..2] == "/*" && line[2] != '*' && line[1] != '/' && line[0] != '#';
  }

  lemma DocOpenStep(s: LineState, line: string)
    requires !s.inBlock && !s.inDoc
    requires line == "/**" || line == "/** doc */"
    ensures Classify(s, line)
      == LineState(s.counts.(totalLines := s.counts.totalLines + 1, docLines := s.counts.docLines + 1), false, true)
  {
    assert line[..3] == "/**" && line[..2] == "/*" && line[1] != '/' && line[0] != '#';
  }

  lemma BlockCodeStep(s: LineState)
    requires s.inBlock && !s.inDoc
    ensures Classify(s, "int x;")
      == LineState(s.counts.(totalLines := s.counts.totalLines + 1, commentLines := s.counts.commentLines + 1), true, false)
  {
    NoStar("int x;");
  }

  lemma StarStep(s: LineState)
    requires s.inDoc && !s.inBlock
    ensures Classify(s, "* hello")
      == LineState(s.counts.(totalLines := s.counts.totalLines + 1, docLines := s.counts.docLines + 1), false, true)
  {
    var line := "* hello";
    assert line[..1] == "*";
    assert line[1] != '/' && line[1..] == " hello";
    NoStar(" hello");
  }

  lemma TextStep(s: LineState)
    requires s.inDoc && !s.inBlock
    ensures Classify(s, "text") == LineState(s.counts.(totalLines := s.counts.totalLines + 1), false, true)
  {
    var line := "text";
    assert line[0] != '*';
    NoStar(line);
  }

  lemma CloseStep(s: LineState)
    requires s.inDoc && !s.inBlock
    ensures Classify(s, "*/")
      == LineState(s.counts.(totalLines := s.counts.totalLines + 1, docLines := s.counts.docLines + 1), false, false)
  {
    var line := "*/";
    assert line[..1] == "*" && line[..2] == "*/";
  }

  /** Scanning a short file is stepping through its lines in order. */
  lemma ScanTwo(a: string, b: string)
    ensures Scan([a, b]) == Step(Step(Start(), a), b)
  {
    ScanSnoc([], a);
    assert [] + [a] == [a];
    ScanSnoc([a], b);
    assert [a] + [b] == [a, b];
  }

  lemma ScanThree(a: string, b: string, c: string)
    ensures Scan([a, b, c]) == Step(Step(Step(Start(), a), b), c)
  {
    ScanTwo(a, b);
    ScanSnoc([a, b], c);
    assert [a, b] + [c] == [a, b, c];
  }

  lemma ScanFour(a: string, b: string, c: string, d: string)
    ensures Scan([a, b, c, d]) == Step(Step(Step(Step(Start(), a), b), c), d)
  {
    ScanThree(a, b, c);
    ScanSnoc([a, b, c], d);
    assert [a, b, c] + [d] == [a, b, c, d];
  }

  /** A one-line block comment leaves block mode set: the next line, whatever
      it holds, is counted as a comment line. */
  lemma OneLineBlockCommentStaysOpen(lines: seq<string>)
    requires lines == ["/* note */", "int x;"]
    ensures Scan(lines).counts == LineCounts(2, 0, 2, 0)
    ensures Scan(lines).inBlock
  {
    var s1 := LineState(LineCounts(1, 0, 1, 0), true, false);
    BlockOpenStep(Start());
    StepUntrimmed(Start(), lines[0]);
    assert Step(Start(), lines[0]) == s1;
    BlockCodeStep(s1);
    StepUntrimmed(s1, lines[1]);
    assert Step(s1, lines[1]) == LineState(LineCounts(2, 0, 2, 0), true, false);
    ScanTwo(lines[0], lines[1]);
    assert lines == [lines[0], lines[1]];
    assert Scan(lines) == Step(Step(Start(), lines[0]), lines[1]);
  }

  // The file "// hi", "", "int x;", "/** doc */": four lines, one blank,
  // one comment, one doc line, leaving one code line.
  lemma MixedFileScenario(lines: seq<string>)
    requires lines == ["// hi", "", "int x;", "/** doc */"]
    ensures var c := Scan(lines).counts;
      c == LineCounts(4, 1, 1, 1) && c.totalLines - c.blankLines - c.commentLines - c.docLines == 1
  {
    var s1 := LineState(LineCounts(1, 0, 1, 0), false, false);
    var s2 := LineState(LineCounts(2, 1, 1, 0), false, false);
    var s3 := LineState(LineCounts(3, 1, 1, 0), false, false);
    LineCommentStep(Start());
    StepUntrimmed(Start(), lines[0]);
    assert Step(Start(), lines[0]) == s1;
    BlankStep(s1);
    assert Step(s1, lines[1]) == s2;
    CodeStep(s2);
    StepUntrimmed(s2, lines[2]);
    assert Step(s2, lines[2]) == s3;
    DocOpenStep(s3, lines[3]);
    StepUntrimmed(s3, lines[3]);
    assert Step(s3, lines[3]).counts == LineCounts(4, 1, 1, 1);
    ScanFour(lines[0], lines[1], lines[2], lines[3]);
    assert lines == [lines[0], lines[1], lines[2], lines[3]];
    assert Scan(lines) == Step(Step(Step(Step(Start(), lines[0]), lines[1]), lines[2]), lines[3]);
  }

  /** In a doc block the closing line counts as doc when it starts with "*". */
  lemma DocBlockScenario(lines: seq<string>)
    requires lines == ["/**", "* hello", "*/"]
    ensures Scan(lines).counts == LineCounts(3, 0, 0, 3)
  {
    var s1 := LineState(LineCounts(1, 0, 0, 1), false, true);
    var s2 := LineState(LineCounts(2, 0, 0, 2), false, true);
    DocOpenStep(Start(), lines[0]);
    StepUntrimmed(Start(), lines[0]);
    assert Step(Start(), lines[0]) == s1;
    StarStep(s1);
    StepUntrimmed(s1, lines[1]);
    assert Step(s1, lines[1]) == s2;
    CloseStep(s2);
    StepUntrimmed(s2, lines[2]);
    assert Step(s2, lines[2]).counts == LineCounts(3, 0, 0, 3);
    ScanThree(lines[0], lines[1], lines[2]);
    assert lines == [lines[0], lines[1], lines[2]];
    assert Scan(lines) == Step(Step(Step(Start(), lines[0]), lines[1]), lines[2]);
  }

  /** In a doc block a line that does not start with "*" is not a doc line. */
  lemma DocBlockPlainLineScenario(lines: seq<string>)
    requires lines == ["/**", "text", "*/"]
    ensures Scan(lines).counts == LineCounts(3, 0, 0, 2)
  {
    var s1 := LineState(LineCounts(1, 0, 0, 1), false, true);
    var s2 := LineState(LineCounts(2, 0, 0, 1), false, true);
    DocOpenStep(Start(), lines[0]);
    StepUntrimmed(Start(), lines[0]);
    assert Step(Start(), lines[0]) == s1;
    TextStep(s1);
    StepUntrimmed(s1, lines[1]);
    assert Step(s1, lines[1]) == s2;
    CloseStep(s2);
    StepUntrimmed(s2, lines[2]);
    assert Step(s2, lines[2]).counts == LineCounts(3, 0, 0, 2);
    ScanThree(lines[0], lines[1], lines[2]);
    assert lines == [lines[0], lines[1], lines[2]];
    assert Scan(lines) == Step(Step(Step(Start(), lines[0]), lines[1]), lines[2]);
  }
}
