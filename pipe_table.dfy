/** Rows of pipe-delimited Markdown tables: how the scripts write a row and
    how a.py reads a row back into cells. */
module PipeTable {
  import opened Text

  const Pipe: set<char> := {'|'}

  /** `'| ' + ' | '.join(cells) + ' |\n'`: one table row. */
  function Row(cells: seq<string>): string {
    "| " + Join(" | ", cells) + " |\n"
  }

  /** The separator row under a header of n columns: every cell is `---`. */
  function SeparatorRow(n: nat): string {
    Row(Repeat("---", n))
  }

  /** `[c.strip() for c in line.strip().strip('|').split('|')]`: the cells of
      a row; none holds a pipe or has whitespace at either end. */
  function ParseCells(line: string): (cells: seq<string>)
    ensures |cells| == Count(Strip(Trim(line), Pipe), '|') + 1
    ensures forall i | 0 <= i < |cells| :: '|' !in cells[i] && Bare(cells[i], Whitespace)
  {
    var pieces := Split(Strip(Trim(line), Pipe), '|');
    var cells := TrimAll(pieces);
    assert forall i | 0 <= i < |cells| :: '|' !in cells[i] && Bare(cells[i], Whitespace) by {
      TrimKeepsPipes(pieces);
    }
    cells
  }

  function TrimAll(pieces: seq<string>): (r: seq<string>)
    ensures |r| == |pieces|
    ensures forall i | 0 <= i < |pieces| :: r[i] == Trim(pieces[i])
  {
    seq(|pieces|, i requires 0 <= i < |pieces| => Trim(pieces[i]))
  }

  lemma TrimKeepsPipes(pieces: seq<string>)
    requires forall i | 0 <= i < |pieces| :: '|' !in pieces[i]
    ensures forall i | 0 <= i < |pieces| :: '|' !in TrimAll(pieces)[i] && Bare(TrimAll(pieces)[i], Whitespace)
  {
    forall i | 0 <= i < |pieces| ensures '|' !in TrimAll(pieces)[i] && Bare(TrimAll(pieces)[i], Whitespace) {
      StripKeeps(pieces[i], Whitespace, '|');
    }
  }

  /** A line made of non-empty pipe-free pieces between pipes, followed by
      whitespace, parses into those pieces, trimmed. */
  lemma ParsePipes(pieces: seq<string>, tail: string)
    requires |pieces| >= 1
    requires forall i | 0 <= i < |pieces| :: pieces[i] != [] && '|' !in pieces[i]
    requires AllIn(tail, Whitespace)
    ensures Trim("|" + Join("|", pieces) + "|" + tail) == "|" + Join("|", pieces) + "|"
    ensures ParseCells("|" + Join("|", pieces) + "|" + tail) == TrimAll(pieces)
  {
    var j := Join("|", pieces);
    JoinBare(pieces);
    TrimPipes(j, tail);
    StripPadded("|", j, "|", Pipe);
    SplitJoin(pieces, '|');
  }

  /** The join of non-empty pipe-free pieces neither starts nor ends with a pipe. */
  lemma JoinBare(pieces: seq<string>)
    requires |pieces| >= 1
    requires forall i | 0 <= i < |pieces| :: pieces[i] != [] && '|' !in pieces[i]
    ensures Bare(Join("|", pieces), Pipe) && Join("|", pieces) != []
  {
    JoinEnds("|", pieces);
    var j := Join("|", pieces);
    assert j[0] == pieces[0][0];
    var last := pieces[|pieces| - 1];
    assert j[|j| - 1] == last[|last| - 1];
  }

  /** Trailing whitespace after the closing pipe is trimmed away. */
  lemma TrimPipes(j: string, tail: string)
    requires AllIn(tail, Whitespace)
    ensures Trim("|" + j + "|" + tail) == "|" + j + "|"
  {
    var c := "|" + j + "|";
    assert AllIn("", Whitespace);
    assert "" + c + tail == c + tail;
    StripPadded("", c, tail, Whitespace);
  }

  /** Every cell between spaces, as `Row` writes it. */
  function Padded(cells: seq<string>): (ps: seq<string>)
    ensures |ps| == |cells|
    ensures forall i | 0 <= i < |cells| :: ps[i] == " " + cells[i] + " "
  {
    seq(|cells|, i requires 0 <= i < |cells| => " " + cells[i] + " ")
  }

  lemma {:induction false} PadJoin(cells: seq<string>)
    requires |cells| >= 1
    ensures " " + Join(" | ", cells) + " " == Join("|", Padded(cells))
  {
    if |cells| > 1 {
      var j1 := Join(" | ", cells[1..]);
      PadJoin(cells[1..]);
      assert Padded(cells)[1..] == Padded(cells[1..]);
      calc {
        " " + Join(" | ", cells) + " ";
        " " + (cells[0] + " | " + j1) + " ";
        (" " + cells[0] + " ") + "|" + (" " + j1 + " ");
        Join("|", Padded(cells));
      }
    }
  }

  /** A row is its padded cells between pipes, then a newline. */
  lemma RowPipes(cells: seq<string>)
    requires |cells| >= 1
    ensures Row(cells) == "|" + Join("|", Padded(cells)) + "|" + "\n"
  {
    PadJoin(cells);
    var j := Join(" | ", cells);
    assert "| " + j + " |\n" == "|" + (" " + j + " ") + "|" + "\n";
  }

  /** Trimming a padded cell gives the cell back. */
  lemma TrimPadded(c: string, a: string, b: string)
    requires Bare(c, Whitespace) && AllIn(a, Whitespace) && AllIn(b, Whitespace)
    ensures Trim(a + c + b) == c
  {
    StripPadded(a, c, b, Whitespace);
  }

  /** Reading a written row gives its cells back, for cells without pipes
      and without surrounding whitespace. */
  lemma RowParsesBack(cells: seq<string>)
    requires |cells| >= 1
    requires forall i | 0 <= i < |cells| :: '|' !in cells[i] && Bare(cells[i], Whitespace)
    ensures Trim(Row(cells)) == "|" + Join("|", Padded(cells)) + "|"
    ensures ParseCells(Row(cells)) == cells
  {
    WrittenRowParses(cells);
    PaddedCellsTrim(cells);
  }

  lemma WrittenRowParses(cells: seq<string>)
    requires |cells| >= 1
    requires forall i | 0 <= i < |cells| :: '|' !in cells[i]
    ensures Trim(Row(cells)) == "|" + Join("|", Padded(cells)) + "|"
    ensures ParseCells(Row(cells)) == TrimAll(Padded(cells))
  {
    RowPipes(cells);
    ParsePipes(Padded(cells), "\n");
  }

  lemma PaddedCellsTrim(cells: seq<string>)
    requires forall i | 0 <= i < |cells| :: Bare(cells[i], Whitespace)
    ensures TrimAll(Padded(cells)) == cells
  {
    forall i | 0 <= i < |cells| ensures TrimAll(Padded(cells))[i] == cells[i] {
      TrimPadded(cells[i], " ", " ");
    }
  }

  /** The pieces of a written row whose closing pipe was cut off and which
      was continued with ` |`, one more piece and `|`. */
  function Extended(cells: seq<string>, piece: string): (qs: seq<string>)
    requires |cells| >= 1
    ensures |qs| == |cells| + 1
    ensures forall i | 0 <= i < |cells| - 1 :: qs[i] == " " + cells[i] + " "
    ensures qs[|cells| - 1] == " " + cells[|cells| - 1] + "  "
    ensures qs[|cells|] == piece
  {
    var ps := Padded(cells);
    var n := |ps| - 1;
    var qs := ps[..n] + [ps[n] + " "] + [piece];
    assert qs[n] == ps[n] + " ";
    qs
  }

  /** Cutting the closing pipe off a written row and appending ` |`, a
      pipe-free piece and `|\n` adds one cell: the piece, trimmed. */
  lemma ExtraCell(cells: seq<string>, piece: string)
    requires |cells| >= 1
    requires forall i | 0 <= i < |cells| :: '|' !in cells[i] && Bare(cells[i], Whitespace)
    requires piece != [] && '|' !in piece
    ensures RStrip(Trim(Row(cells)), Pipe) + " |" + piece + "|\n"
         == "|" + Join("|", Extended(cells, piece)) + "|" + "\n"
    ensures ParseCells(RStrip(Trim(Row(cells)), Pipe) + " |" + piece + "|\n")
         == cells + [Trim(piece)]
  {
    var qs := Extended(cells, piece);
    ExtendedJoin(cells, piece);
    ExtendedPieces(cells, piece);
    ExtendedTrims(cells, piece);
    ParsePipes(qs, "\n");
  }

  lemma ExtendedPieces(cells: seq<string>, piece: string)
    requires |cells| >= 1
    requires forall i | 0 <= i < |cells| :: '|' !in cells[i]
    requires piece != [] && '|' !in piece
    ensures forall i | 0 <= i < |cells| + 1 :: Extended(cells, piece)[i] != [] && '|' !in Extended(cells, piece)[i]
  {
    var qs := Extended(cells, piece);
    forall i | 0 <= i < |qs| ensures qs[i] != [] && '|' !in qs[i] {
      if i < |cells| - 1 {
        PadNoPipe(cells[i], " ");
      } else if i == |cells| - 1 {
        PadNoPipe(cells[i], "  ");
      }
    }
  }

  lemma PadNoPipe(c: string, b: string)
    requires '|' !in c && '|' !in b
    ensures " " + c + b != [] && '|' !in " " + c + b
  {
  }

  lemma ExtendedJoin(cells: seq<string>, piece: string)
    requires |cells| >= 1
    requires forall i | 0 <= i < |cells| :: '|' !in cells[i] && Bare(cells[i], Whitespace)
    ensures RStrip(Trim(Row(cells)), Pipe) + " |" + piece + "|\n"
         == "|" + Join("|", Extended(cells, piece)) + "|" + "\n"
  {
    CutRow(cells);
    JoinExtended(Padded(cells), piece);
  }

  /** A written row, stripped and without its closing pipe. */
  lemma CutRow(cells: seq<string>)
    requires |cells| >= 1
    requires forall i | 0 <= i < |cells| :: '|' !in cells[i] && Bare(cells[i], Whitespace)
    ensures RStrip(Trim(Row(cells)), Pipe) == "|" + Join("|", Padded(cells))
  {
    var ps := Padded(cells);
    assert Trim(Row(cells)) == "|" + Join("|", ps) + "|" by {
      RowParsesBack(cells);
    }
    assert forall i | 0 <= i < |ps| :: ps[i] != [] && ps[i][|ps[i]| - 1] == ' ' by {
      PaddedEnds(cells);
    }
    CutClosingPipe(ps);
  }

  lemma PaddedEnds(cells: seq<string>)
    ensures forall i | 0 <= i < |cells| :: Padded(cells)[i] != [] && Padded(cells)[i][|Padded(cells)[i]| - 1] == ' '
  {
    forall i | 0 <= i < |cells| ensures Padded(cells)[i] != [] && Padded(cells)[i][|Padded(cells)[i]| - 1] == ' ' {
      var p := Padded(cells)[i];
      assert p == " " + cells[i] + " ";
    }
  }

  lemma JoinExtended(ps: seq<string>, piece: string)
    requires |ps| >= 1
    ensures "|" + Join("|", ps) + " |" + piece + "|\n"
         == "|" + Join("|", ps[..|ps| - 1] + [ps[|ps| - 1] + " "] + [piece]) + "|" + "\n"
  {
    var n := |ps| - 1;
    var j := Join("|", ps);
    var q0 := ps[..n] + [ps[n] + " "];
    JoinExtendLast("|", ps, " ");
    JoinSnoc("|", q0, piece);
    ExtendAssoc(j, piece);
  }

  lemma CutClosingPipe(ps: seq<string>)
    requires |ps| >= 1
    requires forall i | 0 <= i < |ps| :: ps[i] != [] && ps[i][|ps[i]| - 1] == ' '
    ensures RStrip("|" + Join("|", ps) + "|", Pipe) == "|" + Join("|", ps)
  {
    var j := Join("|", ps);
    JoinEnds("|", ps);
    assert AllIn("|", Pipe);
    RStripSuffix("|" + j, "|", Pipe);
  }

  lemma ExtendAssoc(j: string, piece: string)
    ensures ("|" + j) + " |" + piece + "|\n" == "|" + (j + " " + "|" + piece) + "|" + "\n"
  {
  }

  lemma ExtendedTrims(cells: seq<string>, piece: string)
    requires |cells| >= 1
    requires forall i | 0 <= i < |cells| :: Bare(cells[i], Whitespace)
    ensures TrimAll(Extended(cells, piece)) == cells + [Trim(piece)]
  {
    var qs := Extended(cells, piece);
    var n := |cells| - 1;
    forall i | 0 <= i < |qs| ensures TrimAll(qs)[i] == (cells + [Trim(piece)])[i] {
      if i < n {
        TrimPadded(cells[i], " ", " ");
      } else if i == n {
        TrimPadded(cells[i], " ", "  ");
      }
    }
  }
}
