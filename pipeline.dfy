/** How the scripts compose: a table row that split_md_by_words.py
    rewrites (one more, empty cell) and that a.py then reads. */
module Pipeline {
  import opened Text
  import opened PipeTable
  import opened SplitMarkdown
  import opened TableToHeadings

  /** The rewritten row is a table line whose cells are the original cells
      and an empty one; a.py turns it into the block of those cells. */
  lemma RewrittenRowOutput(cells: seq<string>)
    requires WellFormedCells(cells)
    ensures LineOutput(RewriteRow(Trim(Row(cells))))
         == if IsWordRow(cells + [""]) then Block(cells + [""]) else []
  {
    var line := RewriteRow(Trim(Row(cells)));
    var w := cells + [""];
    var t := Trim(line);
    assert ParseCells(line) == w by {
      RowGainsEmptyCell(cells);
    }
    assert |t| >= 3 && t[0] == '|' && (cells[0] != [] ==> t[2] == cells[0][0]) by {
      RewrittenStart(cells);
    }
    assert IsWordRow(w) ==> IsDigit(t[2]) by {
      if IsWordRow(w) {
        assert w[0] == cells[0];
      }
    }
    RowLineOutput(line, w);
  }

  /** The stripped rewritten row opens with a pipe, a space and the first
      cell. */
  lemma RewrittenStart(cells: seq<string>)
    requires WellFormedCells(cells)
    ensures var t := Trim(RewriteRow(Trim(Row(cells))));
      |t| >= 3 && t[0] == '|' && (cells[0] != [] ==> t[2] == cells[0][0])
  {
    var line := RewriteRow(Trim(Row(cells)));
    var qs := Extended(cells, "   ");
    var j := Join("|", qs);
    assert line == "|" + j + "|" + "\n" by {
      RewrittenJoin(cells);
    }
    assert Trim(line) == "|" + j + "|" by {
      ExtendedPieces(cells, "   ");
      ParsePipes(qs, "\n");
    }
    assert |j| >= 1 && (cells[0] != [] ==> ("|" + j + "|")[2] == cells[0][0]) by {
      PipedRowStart(qs, cells[0], if |cells| > 1 then " " else "  ");
    }
  }

  lemma RewrittenJoin(cells: seq<string>)
    requires WellFormedCells(cells)
    ensures RewriteRow(Trim(Row(cells))) == "|" + Join("|", Extended(cells, "   ")) + "|" + "\n"
  {
    var t := Trim(Row(cells));
    assert '|' in t by {
      RowOpensWithPipe(cells);
    }
    assert RewriteRow(t) == RStrip(t, Pipe) + " |" + "   " + "|\n" by {
      EmptyCellAssoc(RStrip(t, Pipe));
    }
    ExtraCell(cells, "   ");
  }

  /** For rows of four or more cells, splitting the table into parts does
      not change what a.py makes of a row. */
  lemma RewrittenRowKeepsBlock(cells: seq<string>)
    requires WellFormedCells(cells) && |cells| >= 4
    ensures LineOutput(RewriteRow(Trim(Row(cells)))) == LineOutput(Row(cells))
  {
    RewrittenRowOutput(cells);
    WrittenRowOutput(cells);
    if IsWordRow(cells) {
      WiderBlock(cells);
    }
  }

  lemma WiderBlock(cells: seq<string>)
    requires IsWordRow(cells)
    ensures IsWordRow(cells + [""]) && Block(cells + [""]) == Block(cells)
  {
    var w := cells + [""];
    assert w[0] == cells[0] && w[2] == cells[2] && w[3] == cells[3];
    assert Others(w) == Others(cells);
  }

  /** A numbered row of three cells gives no block as written, but once the
      empty cell is added it gives a block whose heading word is the third
      cell and whose meaning line is empty. */
  lemma ThreeCellRowGainsBlock(cells: seq<string>)
    requires WellFormedCells(cells) && |cells| == 3 && IsDigits(cells[0])
    ensures LineOutput(Row(cells)) == []
    ensures LineOutput(RewriteRow(Trim(Row(cells))))
         == ["### " + cells[0] + " " + cells[2] + "\n", "\n", "\n"]
  {
    assert LineOutput(Row(cells)) == [] by {
      WrittenRowOutput(cells);
    }
    assert IsWordRow(cells + [""]) && Block(cells + [""]) == ["### " + cells[0] + " " + cells[2] + "\n", "\n", "\n"] by {
      ThreeCellBlock(cells);
    }
    assert LineOutput(RewriteRow(Trim(Row(cells)))) == Block(cells + [""]) by {
      RewrittenRowOutput(cells);
    }
  }

  lemma ThreeCellBlock(cells: seq<string>)
    requires |cells| == 3 && IsDigits(cells[0])
    ensures IsWordRow(cells + [""])
    ensures Block(cells + [""]) == ["### " + cells[0] + " " + cells[2] + "\n", "\n", "\n"]
  {
    var w := cells + [""];
    assert w[0] == cells[0] && w[2] == cells[2] && w[3] == "";
    assert Others(w) == "" && !ShowsSpelling(Others(w));
    assert w[3] + "\n" == "\n";
  }
}
