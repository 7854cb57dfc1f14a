/** a.py: the numbered rows of a vocabulary table become `###` heading
    blocks; headers, separators and other lines give nothing. */
module TableToHeadings {
  import opened Text
  import opened PipeTable
  import opened Sequences

  /** A line whose stripped form starts with `| ---`. */
  predicate IsSeparatorLine(line: string) {
    StartsWith(Trim(line), "| ---")
  }

  /** A table line that is not a separator: the only lines a.py parses. */
  predicate IsRowLine(line: string) {
    StartsWith(Trim(line), "|") && !IsSeparatorLine(line)
  }

  /** At least four cells, the first a non-empty run of digits. */
  predicate IsWordRow(cells: seq<string>) {
    |cells| >= 4 && IsDigits(cells[0])
  }

  /** The fifth cell (other spellings), or the empty string. */
  function Others(cells: seq<string>): string {
    if |cells| > 4 then cells[4] else ""
  }

  /** The spelling line is written for a non-empty value other than `none`
      in any letter case. */
  predicate ShowsSpelling(others: string) {
    others != "" && Lower(others) != "none"
  }

  const SpellingLabel: string := "其他拼写: "

  /** The lines one word row contributes. */
  function Block(cells: seq<string>): seq<string>
    requires IsWordRow(cells)
  {
    ["### " + cells[0] + " " + cells[2] + "\n", cells[3] + "\n"]
    + (if ShowsSpelling(Others(cells)) then [SpellingLabel + Others(cells) + "\n"] else [])
    + ["\n"]
  }

  /** The lines one input line contributes. */
  function LineOutput(line: string): seq<string> {
    if IsRowLine(line) && IsWordRow(ParseCells(line)) then Block(ParseCells(line)) else []
  }

  /** The output lines of a whole file: each line's output, in line order. */
  function Convert(lines: seq<string>): seq<string> {
    FlatMap(LineOutput, lines)
  }

  /** The loop of `convert_table_to_headings` over one file's lines. */
  method ConvertTableToHeadings(lines: seq<string>) returns (outLines: seq<string>)
    ensures outLines == Convert(lines)
  {
    outLines := [];
    for i := 0 to |lines|
      invariant outLines == Convert(lines[..i])
    {
      outLines := EmitLine(outLines, lines[i]);
      FlatMapSnoc(LineOutput, lines, i);
    }
    assert lines[..|lines|] == lines;
  }

  /** One turn of that loop: the lines appended to `out_lines` for `line`. */
  method EmitLine(before: seq<string>, line: string) returns (outLines: seq<string>)
    ensures outLines == before + LineOutput(line)
  {
    outLines := before;
    if IsRowLine(line) {
      var cols := ParseCells(line);
      if IsWordRow(cols) {
        var index, word, meaning := cols[0], cols[2], cols[3];
        var others := Others(cols);
        outLines := outLines + ["### " + index + " " + word + "\n"];
        outLines := outLines + [meaning + "\n"];
        if ShowsSpelling(others) {
          outLines := outLines + [SpellingLabel + others + "\n"];
        }
        outLines := outLines + ["\n"];
        BlockAppended(before, cols, outLines);
      }
    }
  }

  /** Appending the block's lines one at a time appends the block. */
  lemma BlockAppended(before: seq<string>, cells: seq<string>, after: seq<string>)
    requires IsWordRow(cells)
    requires var h, m := "### " + cells[0] + " " + cells[2] + "\n", cells[3] + "\n";
      if ShowsSpelling(Others(cells))
      then after == before + [h] + [m] + [SpellingLabel + Others(cells) + "\n"] + ["\n"]
      else after == before + [h] + [m] + ["\n"]
    ensures after == before + Block(cells)
  {
    var h, m := "### " + cells[0] + " " + cells[2] + "\n", cells[3] + "\n";
    if ShowsSpelling(Others(cells)) {
      Snoc4(before, h, m, SpellingLabel + Others(cells) + "\n", "\n");
    } else {
      Snoc3(before, h, m, "\n");
    }
  }

  lemma Snoc3<T>(s: seq<T>, a: T, b: T, c: T)
    ensures s + [a] + [b] + [c] == s + ([a, b] + [] + [c])
  {
  }

  lemma Snoc4<T>(s: seq<T>, a: T, b: T, c: T, d: T)
    ensures s + [a] + [b] + [c] + [d] == s + ([a, b] + [c] + [d])
  {
  }

  /** Blocks come out in input order: converting two runs of lines one
      after the other is converting their concatenation. */
  lemma ConvertAppend(a: seq<string>, b: seq<string>)
    ensures Convert(a + b) == Convert(a) + Convert(b)
  {
    FlatMapAppend(LineOutput, a, b);
  }

  /** A block is the heading `### n word`, the meaning, the spelling line
      exactly when a fifth cell is non-empty and not `none`, and a blank
      line; the second cell is never used. */
  lemma BlockShape(cells: seq<string>, x: string)
    requires IsWordRow(cells)
    ensures |Block(cells)| == 3 || |Block(cells)| == 4
    ensures |Block(cells)| == 4 <==> |cells| > 4 && cells[4] != "" && Lower(cells[4]) != "none"
    ensures Block(cells)[0] == "### " + cells[0] + " " + cells[2] + "\n"
    ensures Block(cells)[1] == cells[3] + "\n"
    ensures |Block(cells)| == 4 ==> Block(cells)[2] == SpellingLabel + cells[4] + "\n"
    ensures Block(cells)[|Block(cells)| - 1] == "\n"
    ensures Block(cells[1 := x]) == Block(cells)
  {
  }

  /** A line a.py skips contributes nothing. */
  lemma SkippedLines(line: string)
    requires IsSeparatorLine(line) || !StartsWith(Trim(line), "|")
    ensures LineOutput(line) == []
  {
  }

  /** A row written by the scripts' `Row` gives its block when its cells
      form a word row, and nothing otherwise. */
  lemma WrittenRowOutput(cells: seq<string>)
    requires |cells| >= 1
    requires forall i | 0 <= i < |cells| :: '|' !in cells[i] && Bare(cells[i], Whitespace)
    ensures LineOutput(Row(cells)) == if IsWordRow(cells) then Block(cells) else []
  {
    var ps := Padded(cells);
    var t := "|" + Join("|", ps) + "|";
    assert ParseCells(Row(cells)) == cells && Trim(Row(cells)) == t by {
      RowParsesBack(cells);
    }
    assert |t| >= 3 && t[0] == '|' && (cells[0] != [] ==> t[2] == cells[0][0]) by {
      PipedRowStart(ps, cells[0], " ");
    }
    RowLineOutput(Row(cells), cells);
  }

  /** A table line whose cells are known gives their block when they form a
      word row (a digit right after the opening pipe and space shows it is
      no separator), and nothing otherwise. */
  lemma RowLineOutput(line: string, cells: seq<string>)
    requires ParseCells(line) == cells
    requires |Trim(line)| >= 3 && Trim(line)[0] == '|'
    requires IsWordRow(cells) ==> IsDigit(Trim(line)[2])
    ensures LineOutput(line) == if IsWordRow(cells) then Block(cells) else []
  {
    if IsWordRow(cells) {
      NumberedLineIsRow(line);
      WordRowOutput(line, cells);
    }
  }

  lemma NumberedLineIsRow(line: string)
    requires |Trim(line)| >= 3 && Trim(line)[0] == '|' && IsDigit(Trim(line)[2])
    ensures IsRowLine(line)
  {
    var t := Trim(line);
    assert t[..1] == "|";
    NumberedRowIsNoSeparator(t);
  }

  lemma WordRowOutput(line: string, cells: seq<string>)
    requires IsRowLine(line) && ParseCells(line) == cells && IsWordRow(cells)
    ensures LineOutput(line) == Block(cells)
  {
  }

  /** A row of pipe-separated pieces, the first a space, c and more:
      its third character is c's first. */
  lemma PipedRowStart(ps: seq<string>, c: string, tail: string)
    requires |ps| >= 1 && ps[0] == " " + c + tail && |tail| >= 1
    ensures var t := "|" + Join("|", ps) + "|";
      |t| >= 3 && t[0] == '|' && (c != [] ==> t[2] == c[0])
  {
    JoinStart("|", ps);
    if c != [] {
      ThirdChar(Join("|", ps), ps[0]);
      assert ps[0][1] == c[0];
    }
  }

  lemma ThirdChar(j: string, p: string)
    requires 2 <= |p| <= |j| && j[..|p|] == p
    ensures ("|" + j + "|")[2] == p[1]
  {
    assert j[1] == j[..|p|][1];
  }

  /** A stripped line whose third character is a digit is not a separator. */
  lemma NumberedRowIsNoSeparator(t: string)
    requires |t| >= 3 && IsDigit(t[2])
    ensures !StartsWith(t, "| ---")
  {
    if |t| >= 5 {
      assert t[..5][2] == t[2];
    }
  }

  /** The stripped row starts with a pipe and its first padded cell. */
  lemma RowStart(cells: seq<string>) returns (t: string)
    requires |cells| >= 1
    requires forall i | 0 <= i < |cells| :: '|' !in cells[i] && Bare(cells[i], Whitespace)
    ensures t == Trim(Row(cells))
    ensures |t| >= |cells[0]| + 3 && t[..|cells[0]| + 3] == "| " + cells[0] + " "
  {
    RowParsesBack(cells);
    var ps := Padded(cells);
    var j := Join("|", ps);
    JoinStart("|", ps);
    PipePrefix(j, cells[0]);
    t := Trim(Row(cells));
  }

  lemma PipePrefix(j: string, c: string)
    requires |c| + 2 <= |j| && j[..|c| + 2] == " " + c + " "
    ensures |"|" + j + "|"| >= |c| + 3
    ensures ("|" + j + "|")[..|c| + 3] == "| " + c + " "
  {
    var t := "|" + j + "|";
    assert forall k | 1 <= k < |c| + 3 :: t[k] == j[k - 1];
  }

  /** The separator row of any width is skipped. */
  lemma SeparatorRowSkipped(n: nat)
    requires n >= 1
    ensures IsSeparatorLine(SeparatorRow(n))
    ensures LineOutput(SeparatorRow(n)) == []
  {
    var cells := Repeat("---", n);
    assert forall i | 0 <= i < n :: '|' !in cells[i] && Bare(cells[i], Whitespace);
    var t := RowStart(cells);
    assert t[..6] == "| --- ";
    assert t[..5] == t[..6][..5];
  }
}
