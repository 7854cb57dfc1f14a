/** split_md_by_words.py: pick the table rows out of a Markdown file, add a
    familiarity column and cut the rows into numbered part files. */
module SplitMarkdown {
  import opened Wrappers
  import opened Text
  import opened Sequences
  import opened Chunking
  import opened PipeTable

  /** A table line: its stripped form starts with a pipe, and it holds one. */
  predicate IsTableLine(line: string) {
    StartsWith(Trim(line), "|") && '|' in line
  }

  /** `set(t) == {'|', '-', ' '}`: the stripped line uses these three
      characters, each at least once, and no other. */
  predicate IsSeparator(t: string) {
    AllIn(t, {'|', '-', ' '}) && '|' in t && '-' in t && ' ' in t
  }

  function CharSet(s: string): set<char> {
    set i | 0 <= i < |s| :: s[i]
  }

  /** The test above is Python's set comparison. */
  lemma SeparatorIsCharSet(t: string)
    ensures IsSeparator(t) <==> CharSet(t) == {'|', '-', ' '}
  {
    var cs := CharSet(t);
    if IsSeparator(t) {
      forall c | c in cs ensures c in {'|', '-', ' '} {
        var i :| 0 <= i < |t| && t[i] == c;
      }
      assert cs == {'|', '-', ' '};
    }
    if cs == {'|', '-', ' '} {
      forall i | 0 <= i < |t| ensures t[i] in {'|', '-', ' '} {
        assert t[i] in cs;
      }
    }
  }

  /** What the first loop has gathered: the header, once one is seen, and the
      word lines. */
  datatype Scan = Scan(header: Option<string>, wordLines: seq<string>)

  /** One turn of the first loop. */
  function ScanStep(st: Scan, line: string): Scan {
    if !IsTableLine(line) then st
    else if st.header.None? then Scan(Some(Trim(line)), st.wordLines)
    else if IsSeparator(Trim(line)) then st
    else Scan(st.header, st.wordLines + [Trim(line)])
  }

  /** The state after the first loop has read `lines` in order. */
  function ScanLines(lines: seq<string>): Scan {
    if lines == [] then Scan(None, [])
    else ScanStep(ScanLines(lines[..|lines| - 1]), lines[|lines| - 1])
  }

  /** The first loop of `split_markdown_by_words`. */
  method CollectTableLines(lines: seq<string>) returns (header: Option<string>, wordLines: seq<string>)
    ensures Scan(header, wordLines) == ScanLines(lines)
  {
    header, wordLines := None, [];
    for i := 0 to |lines|
      invariant Scan(header, wordLines) == ScanLines(lines[..i])
    {
      var line := lines[i];
      assert lines[..i + 1][..i] == lines[..i];
      if StartsWith(Trim(line), "|") && '|' in line {
        if header.None? {
          header := Some(Trim(line));
          continue;
        }
        if IsSeparator(Trim(line)) {
          continue;
        }
        wordLines := wordLines + [Trim(line)];
      }
    }
    assert lines[..|lines|] == lines;
  }

  /** What one line after the header adds to the word lines. */
  function KeptLine(line: string): seq<string> {
    if IsTableLine(line) && !IsSeparator(Trim(line)) then [Trim(line)] else []
  }

  /** The scan described without a loop: the first table line, stripped,
      is the header; the word lines are the later table lines that are not
      separators, stripped, in order. */
  function ScanResult(lines: seq<string>): Scan {
    match FirstWhere(IsTableLine, lines) {
      case None => Scan(None, [])
      case Some(h) => ScanFrom(lines, h)
    }
  }

  /** The first loop computes exactly that. */
  lemma {:induction false} ScanSpec(lines: seq<string>)
    ensures ScanLines(lines) == ScanResult(lines)
  {
    if lines != [] {
      var n := |lines| - 1;
      SnocSplit(lines);
      ScanSpec(lines[..n]);
      ScanResultSnoc(lines[..n], lines[n]);
    }
  }

  /** Reading one more line changes the described result as one turn of
      the loop does. */
  lemma ScanResultSnoc(init: seq<string>, x: string)
    ensures ScanResult(init + [x]) == ScanStep(ScanResult(init), x)
  {
    if FirstWhere(IsTableLine, init).None? {
      SnocBeforeHeader(init, x);
    } else {
      var h := FirstWhere(IsTableLine, init).value;
      assert FirstWhere(IsTableLine, init + [x]) == Some(h) by {
        FirstWhereSnoc(IsTableLine, init, x);
      }
      SnocAfterHeader(init, x, h);
    }
  }

  /** No header yet: the line becomes the header if it is a table line. */
  lemma SnocBeforeHeader(init: seq<string>, x: string)
    requires FirstWhere(IsTableLine, init) == None
    ensures ScanResult(init + [x]) == ScanStep(ScanResult(init), x)
  {
    var lines := init + [x];
    assert FirstWhere(IsTableLine, lines) == (if IsTableLine(x) then Some(|init|) else None) by {
      FirstWhereSnoc(IsTableLine, init, x);
    }
    if IsTableLine(x) {
      assert lines[|init|] == x && lines[|init| + 1..] == [];
    }
  }

  /** After the header: the line is kept or dropped as a word line. */
  lemma SnocAfterHeader(init: seq<string>, x: string, h: nat)
    requires h < |init|
    ensures ScanFrom(init + [x], h) == ScanStep(ScanFrom(init, h), x)
  {
    ScanFromSnoc(init, x, h);
    StepAfterHeader(ScanFrom(init, h), x);
  }

  /** Once there is a header, a line adds what `KeptLine` says. */
  lemma StepAfterHeader(st: Scan, x: string)
    requires st.header.Some?
    ensures ScanStep(st, x) == Scan(st.header, st.wordLines + KeptLine(x))
  {
    if !(IsTableLine(x) && !IsSeparator(Trim(x))) {
      assert st.wordLines + KeptLine(x) == st.wordLines;
    }
  }

  /** The scan once the header is the line at position h. */
  function ScanFrom(lines: seq<string>, h: nat): Scan
    requires h < |lines|
  {
    Scan(Some(Trim(lines[h])), FlatMap(KeptLine, lines[h + 1..]))
  }

  lemma ScanFromSnoc(init: seq<string>, x: string, h: nat)
    requires h < |init|
    ensures ScanFrom(init + [x], h) == Scan(Some(Trim(init[h])), FlatMap(KeptLine, init[h + 1..]) + KeptLine(x))
  {
    assert (init + [x])[h] == init[h];
    FlatMapTail(KeptLine, init, x, h);
  }

  /** Without a header, every non-blank line counts, stripped. */
  function NonBlankLine(line: string): seq<string> {
    if Trim(line) != "" then [Trim(line)] else []
  }

  const FamiliarityHeading: string := "熟悉度(0/1/2)"

  /** The header with its closing pipes cut off and the familiarity column
      added. */
  function NewHeader(h: string): string {
    RStrip(h, Pipe) + " | " + FamiliarityHeading + " |\n"
  }

  /** `['---'] * (n - 1)` is empty when n - 1 is not positive. */
  function SeparatorCells(h: string): nat {
    if Count(h, '|') >= 1 then Count(h, '|') - 1 else 0
  }

  /** One `---` per pipe of the header but one, then one for the new column. */
  function NewSeparator(h: string): string {
    "| " + Join(" | ", Repeat("---", SeparatorCells(h))) + " | --- |\n"
  }

  const DefaultHeader: string := "| 单词 | " + FamiliarityHeading + " |\n"
  const DefaultSeparator: string := "| --- | --- |\n"

  /** A word line as written to a part: one more, empty cell. */
  function RewriteRow(line: string): string {
    if '|' in line then RStrip(line, Pipe) + " |   |\n" else "| " + line + " |   |\n"
  }

  /** The header, separator and word lines every part is made from. */
  datatype Layout = Layout(header: string, separator: string, wordLines: seq<string>)

  function Prepare(lines: seq<string>): Layout {
    var st := ScanLines(lines);
    if st.header.Some? && st.header.value != "" then
      Layout(NewHeader(st.header.value), NewSeparator(st.header.value), st.wordLines)
    else
      Layout(DefaultHeader, DefaultSeparator, FlatMap(NonBlankLine, lines))
  }

  datatype PartFile = PartFile(name: string, content: string)

  /** Parts are numbered from 1. */
  function PartName(prefix: string, i: nat): string {
    prefix + NatToString(i + 1) + ".md"
  }

  /** The text of a part: header, separator, then each word line rewritten. */
  function PartContent(layout: Layout, part: seq<string>): string {
    layout.header + layout.separator + FlatMap(RewriteRow, part)
  }

  /** `split_markdown_by_words` on the lines of the input file, returning the
      part files it writes. */
  method SplitMarkdownByWords(lines: seq<string>, wordsPerFile: nat, prefix: string)
    returns (files: seq<PartFile>)
    requires wordsPerFile >= 1
    ensures var layout := Prepare(lines);
      |files| == CeilDiv(|layout.wordLines|, wordsPerFile) &&
      forall i | 0 <= i < |files| ::
        files[i] == PartFile(PartName(prefix, i),
                             PartContent(layout, ChunkAt(layout.wordLines, wordsPerFile, i)))
  {
    var layout := PrepareLayout(lines);
    files := WriteParts(layout, wordsPerFile, prefix);
  }

  /** The second loop: part i holds the i-th group of word lines. */
  method WriteParts(layout: Layout, wordsPerFile: nat, prefix: string) returns (files: seq<PartFile>)
    requires wordsPerFile >= 1
    ensures |files| == CeilDiv(|layout.wordLines|, wordsPerFile)
    ensures forall i | 0 <= i < |files| ::
      files[i] == PartFile(PartName(prefix, i),
                           PartContent(layout, ChunkAt(layout.wordLines, wordsPerFile, i)))
  {
    var k := wordsPerFile;
    var total := |layout.wordLines|;
    var numFiles := (total + k - 1) / k;
    assert numFiles == CeilDiv(total, k);
    files := [];
    for i := 0 to numFiles
      invariant |files| == i
      invariant forall m | 0 <= m < i ::
        files[m] == PartFile(PartName(prefix, m), PartContent(layout, ChunkAt(layout.wordLines, k, m)))
    {
      var part := ChunkAt(layout.wordLines, k, i);
      var content := WritePart(layout.header, layout.separator, part);
      files := files + [PartFile(prefix + NatToString(i + 1) + ".md", content)];
    }
  }

  /** The first loop and the choice of header, separator and word lines. */
  method PrepareLayout(lines: seq<string>) returns (layout: Layout)
    ensures layout == Prepare(lines)
  {
    var header, wordLines := CollectTableLines(lines);
    if header.Some? && header.value != "" {
      layout := Layout(NewHeader(header.value), NewSeparator(header.value), wordLines);
    } else {
      layout := Layout(DefaultHeader, DefaultSeparator, FlatMap(NonBlankLine, lines));
    }
  }

  /** What one part file receives: the header, the separator, then each word
      line with one more, empty cell. */
  method WritePart(newHeader: string, sep: string, part: seq<string>) returns (content: string)
    ensures content == newHeader + sep + FlatMap(RewriteRow, part)
  {
    content := newHeader + sep;
    for j := 0 to |part|
      invariant content == newHeader + sep + FlatMap(RewriteRow, part[..j])
    {
      var line := part[j];
      if '|' in line {
        content := content + (RStrip(line, Pipe) + " |   |\n");
      } else {
        content := content + ("| " + line + " |   |\n");
      }
      FlatMapSnoc(RewriteRow, part, j);
    }
    assert part[..|part|] == part;
  }

  /** Every cell of a row as the table writers emit it. */
  predicate WellFormedCells(cells: seq<string>) {
    |cells| >= 1 && forall i | 0 <= i < |cells| :: '|' !in cells[i] && Bare(cells[i], Whitespace)
  }

  /** A table row kept as a word line (stripped) is rewritten with the same
      cells and one more, empty cell. */
  lemma RowGainsEmptyCell(cells: seq<string>)
    requires WellFormedCells(cells)
    ensures ParseCells(RewriteRow(Trim(Row(cells)))) == cells + [""]
  {
    var t := Trim(Row(cells));
    assert '|' in t by { RowOpensWithPipe(cells); }
    assert RewriteRow(t) == RStrip(t, Pipe) + " |" + "   " + "|\n" by {
      EmptyCellAssoc(RStrip(t, Pipe));
    }
    ExtraCell(cells, "   ");
    BlankTrims();
  }

  lemma RowOpensWithPipe(cells: seq<string>)
    requires WellFormedCells(cells)
    ensures Trim(Row(cells)) != [] && Trim(Row(cells))[0] == '|'
  {
    RowParsesBack(cells);
  }

  lemma EmptyCellAssoc(a: string)
    ensures a + " |   |\n" == a + " |" + "   " + "|\n"
  {
  }

  lemma BlankTrims()
    ensures Trim("   ") == ""
  {
    TrimPadded("", "   ", "");
    assert "   " + "" + "" == "   ";
  }

  /** The rebuilt header has the header's cells and the familiarity heading. */
  lemma HeaderGainsColumn(cells: seq<string>)
    requires WellFormedCells(cells)
    ensures ParseCells(NewHeader(Trim(Row(cells)))) == cells + [FamiliarityHeading]
  {
    var t := Trim(Row(cells));
    var piece := " " + FamiliarityHeading + " ";
    assert NewHeader(t) == RStrip(t, Pipe) + " |" + piece + "|\n" by {
      HeadingAssoc(RStrip(t, Pipe));
    }
    assert '|' !in piece && Trim(piece) == FamiliarityHeading by { HeadingTrims(); }
    ExtraCell(cells, piece);
  }

  lemma HeadingTrims()
    ensures '|' !in " " + FamiliarityHeading + " "
    ensures Trim(" " + FamiliarityHeading + " ") == FamiliarityHeading
  {
    TrimPadded(FamiliarityHeading, " ", " ");
  }

  lemma HeadingAssoc(a: string)
    ensures a + " | " + FamiliarityHeading + " |\n" == a + " |" + (" " + FamiliarityHeading + " ") + "|\n"
  {
  }

  /** The pipes of a written table line: one per cell and one more. */
  lemma RowPipeCount(cells: seq<string>)
    requires WellFormedCells(cells)
    ensures Count(Trim(Row(cells)), '|') == |cells| + 1
  {
    var ps := Padded(cells);
    RowParsesBack(cells);
    forall i | 0 <= i < |ps| ensures '|' !in ps[i] {
      assert ps[i] == " " + cells[i] + " ";
    }
    CountJoin(ps, '|');
    CountAppend("|", Join("|", ps), '|');
    CountAppend("|" + Join("|", ps), "|", '|');
  }

  /** For a header written as a table row, the rebuilt separator is exactly
      the separator row of the widened table. */
  lemma SeparatorMatchesHeader(cells: seq<string>)
    requires WellFormedCells(cells)
    ensures NewSeparator(Trim(Row(cells))) == SeparatorRow(|cells| + 1)
  {
    var h := Trim(Row(cells));
    assert Count(h, '|') == |cells| + 1 by { RowPipeCount(cells); }
    SeparatorForPipes(h, |cells|);
  }

  /** A header with n + 1 pipes gets the separator row of n + 1 columns. */
  lemma SeparatorForPipes(h: string, n: nat)
    requires n >= 1 && Count(h, '|') == n + 1
    ensures NewSeparator(h) == SeparatorRow(n + 1)
  {
    var j := Join(" | ", Repeat("---", n));
    assert NewSeparator(h) == "| " + j + " | --- |\n";
    assert Join(" | ", Repeat("---", n + 1)) == j + " | " + "---" by {
      RepeatSnoc("---", n);
      JoinSnoc(" | ", Repeat("---", n), "---");
    }
    SeparatorAssoc(j);
  }

  lemma SeparatorAssoc(j: string)
    ensures "| " + j + " | --- |\n" == "| " + (j + " | " + "---") + " |\n"
  {
  }

  /** The separator row written under a header is recognised as one and
      dropped. */
  lemma SeparatorRowDropped(n: nat)
    requires n >= 1
    ensures IsTableLine(SeparatorRow(n)) && IsSeparator(Trim(SeparatorRow(n)))
  {
    var t := SeparatorRowText(n);
    assert Trim(t + "\n") == t by {
      StripPadded("", t, "\n", Whitespace);
      assert "" + t + "\n" == t + "\n";
    }
  }

  /** The separator row without its newline: pipes, dashes and spaces, each
      at least once, opening with `| -`. */
  lemma SeparatorRowText(n: nat) returns (t: string)
    requires n >= 1
    ensures SeparatorRow(n) == t + "\n"
    ensures IsSeparator(t) && Bare(t, Whitespace)
    ensures StartsWith(t, "|")
  {
    var j := Join(" | ", Repeat("---", n));
    t := "| " + j + " |";
    assert AllIn(t, {'|', '-', ' '}) by {
      AllInJoin(" | ", Repeat("---", n), {'|', '-', ' '});
      AllInAppend("| ", j, {'|', '-', ' '});
      AllInAppend("| " + j, " |", {'|', '-', ' '});
    }
    assert t[2] == '-' by {
      JoinStart(" | ", Repeat("---", n));
    }
  }

  /** A separator written without spaces is not recognised, so it is kept as
      a word line. */
  lemma CompactSeparatorKept(st: Scan)
    requires st.header.Some?
    ensures ScanStep(st, "|---|---|") == Scan(st.header, st.wordLines + ["|---|---|"])
  {
    assert IsTableLine("|---|---|") && Trim("|---|---|") == "|---|---|" && !IsSeparator("|---|---|") by {
      CompactLine();
    }
  }

  lemma CompactLine()
    ensures IsTableLine("|---|---|") && Trim("|---|---|") == "|---|---|" && !IsSeparator("|---|---|")
  {
    assert Trim("|---|---|") == "|---|---|" by { CompactTrim(); }
  }

  lemma CompactTrim()
    ensures Trim("|---|---|") == "|---|---|"
  {
    var t := "|---|---|";
    StripPadded("", t, "", Whitespace);
    assert "" + t + "" == t;
  }

  /** A word line without pipes becomes a two-cell row: the line and an
      empty cell. */
  lemma PlainLineRow(l: string)
    requires '|' !in l && Bare(l, Whitespace)
    ensures ParseCells(RewriteRow(l)) == [l, ""]
  {
    var pieces := [" " + l + " ", "   "];
    assert ParseCells(RewriteRow(l)) == TrimAll(pieces) by {
      PlainParses(l);
    }
    assert TrimAll(pieces) == [l, ""] by {
      PlainTrims(l);
    }
  }

  lemma PlainParses(l: string)
    requires '|' !in l
    ensures ParseCells(RewriteRow(l)) == TrimAll([" " + l + " ", "   "])
  {
    var pieces := [" " + l + " ", "   "];
    assert RewriteRow(l) == "|" + Join("|", pieces) + "|" + "\n" by {
      PlainAssoc(l);
    }
    ParsePipes(pieces, "\n");
  }

  lemma PlainTrims(l: string)
    requires Bare(l, Whitespace)
    ensures TrimAll([" " + l + " ", "   "]) == [l, ""]
  {
    TrimPadded(l, " ", " ");
    BlankTrims();
  }

  lemma PlainAssoc(l: string)
    ensures "| " + l + " |   |\n" == "|" + (" " + l + " " + "|" + "   ") + "|" + "\n"
  {
  }

  /** The groups of word lines the parts are cut from. */
  function Parts(layout: Layout, k: nat): (ps: seq<seq<string>>)
    requires k >= 1
    ensures |ps| == CeilDiv(|layout.wordLines|, k)
    ensures Flatten(ps) == layout.wordLines
  {
    var ps := seq(CeilDiv(|layout.wordLines|, k), i requires 0 <= i < CeilDiv(|layout.wordLines|, k) =>
                  ChunkAt(layout.wordLines, k, i));
    ChunksReassemble(layout.wordLines, k, ps);
    ps
  }
}
