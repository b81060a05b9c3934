/**
 * checkWin: a card is won when some row (board.map(col => col[i])), some column, the
 * diagonal col[i] or the diagonal col[4 - i] has all its numbers in the marked set.
 */
module Win {
  import opened Board

  predicate RowMarked(board: seq<seq<int>>, marked: set<int>, i: int)
    requires IsCardShape(board) && 0 <= i < 5
  {
    forall c :: 0 <= c < 5 ==> board[c][i] in marked
  }

  predicate ColumnMarked(board: seq<seq<int>>, marked: set<int>, c: int)
    requires IsCardShape(board) && 0 <= c < 5
  {
    forall r :: 0 <= r < 5 ==> board[c][r] in marked
  }

  predicate MainDiagonalMarked(board: seq<seq<int>>, marked: set<int>)
    requires IsCardShape(board)
  {
    forall c :: 0 <= c < 5 ==> board[c][c] in marked
  }

  predicate AntiDiagonalMarked(board: seq<seq<int>>, marked: set<int>)
    requires IsCardShape(board)
  {
    forall c :: 0 <= c < 5 ==> board[c][4 - c] in marked
  }

  /** Some row, some column or one of the two diagonals is wholly marked. */
  predicate IsWinning(board: seq<seq<int>>, marked: set<int>)
    requires IsCardShape(board)
  {
    || (exists i :: 0 <= i < 5 && RowMarked(board, marked, i))
    || (exists c :: 0 <= c < 5 && ColumnMarked(board, marked, c))
    || MainDiagonalMarked(board, marked)
    || AntiDiagonalMarked(board, marked)
  }

  /** board.map(col => col[i]). */
  function Row(board: seq<seq<int>>, i: int): (row: seq<int>)
    requires IsCardShape(board) && 0 <= i < 5
    ensures |row| == 5 && forall c :: 0 <= c < 5 ==> row[c] == board[c][i]
  {
    seq(5, c requires 0 <= c < 5 => board[c][i])
  }

  /** board.map((col, i) => col[i]). */
  function MainDiagonal(board: seq<seq<int>>): (d: seq<int>)
    requires IsCardShape(board)
    ensures |d| == 5 && forall c :: 0 <= c < 5 ==> d[c] == board[c][c]
  {
    seq(5, c requires 0 <= c < 5 => board[c][c])
  }

  /** board.map((col, i) => col[4 - i]). */
  function AntiDiagonal(board: seq<seq<int>>): (d: seq<int>)
    requires IsCardShape(board)
    ensures |d| == 5 && forall c :: 0 <= c < 5 ==> d[c] == board[c][4 - c]
  {
    seq(5, c requires 0 <= c < 5 => board[c][4 - c])
  }

  /** The twelve lines of a card: five rows, five columns, two diagonals. */
  function Lines(board: seq<seq<int>>): (lines: seq<seq<int>>)
    requires IsCardShape(board)
    ensures |lines| == 12
  {
    [Row(board, 0), Row(board, 1), Row(board, 2), Row(board, 3), Row(board, 4)]
    + board + [MainDiagonal(board), AntiDiagonal(board)]
  }

  /** Every number of the line is marked: the set of the line is a subset of the marked set. */
  predicate Covers(marked: set<int>, line: seq<int>) {
    forall x :: x in line ==> x in marked
  }

  lemma CoversAt(marked: set<int>, line: seq<int>)
    ensures Covers(marked, line) <==> forall k :: 0 <= k < |line| ==> line[k] in marked
  {
    if Covers(marked, line) {
      forall k | 0 <= k < |line| ensures line[k] in marked {
        var x := line[k];
        assert x in line;
      }
    }
  }

  /** Row i, as checkWin builds it, is wholly marked exactly when RowMarked holds. */
  lemma RowCovered(board: seq<seq<int>>, marked: set<int>, i: int)
    requires IsCardShape(board) && 0 <= i < 5
    ensures Covers(marked, Row(board, i)) <==> RowMarked(board, marked, i)
  {
  }

  /** The diagonal col[i] is wholly marked exactly when MainDiagonalMarked holds. */
  lemma MainDiagonalCovered(board: seq<seq<int>>, marked: set<int>)
    requires IsCardShape(board)
    ensures Covers(marked, MainDiagonal(board)) <==> MainDiagonalMarked(board, marked)
  {
  }

  /** The diagonal col[4 - i] is wholly marked exactly when AntiDiagonalMarked holds. */
  lemma AntiDiagonalCovered(board: seq<seq<int>>, marked: set<int>)
    requires IsCardShape(board)
    ensures Covers(marked, AntiDiagonal(board)) <==> AntiDiagonalMarked(board, marked)
  {
  }

  /** A card is won exactly when the marked set contains one of its twelve lines. */
  lemma WinningIffSomeLineCovered(board: seq<seq<int>>, marked: set<int>)
    requires IsCardShape(board)
    ensures IsWinning(board, marked) <==> exists k :: 0 <= k < 12 && Covers(marked, Lines(board)[k])
  {
    var lines := Lines(board);
    forall k | 0 <= k < 12
      ensures Covers(marked, lines[k]) <==>
        (if k < 5 then RowMarked(board, marked, k)
         else if k < 10 then ColumnMarked(board, marked, k - 5)
         else if k == 10 then MainDiagonalMarked(board, marked)
         else AntiDiagonalMarked(board, marked))
    {
      CoversAt(marked, lines[k]);
    }
    if IsWinning(board, marked) {
      if i :| 0 <= i < 5 && RowMarked(board, marked, i) {
        assert Covers(marked, lines[i]);
      } else if c :| 0 <= c < 5 && ColumnMarked(board, marked, c) {
        assert Covers(marked, lines[c + 5]);
      } else if MainDiagonalMarked(board, marked) {
        assert Covers(marked, lines[10]);
      } else {
        assert Covers(marked, lines[11]);
      }
    }
    if k :| 0 <= k < 12 && Covers(marked, lines[k]) {
      if k < 5 {
        assert RowMarked(board, marked, k);
      } else if k < 10 {
        assert ColumnMarked(board, marked, k - 5);
      }
    }
  }

  /** Marking more numbers never loses a win. */
  lemma WinningIsMonotone(board: seq<seq<int>>, marked: set<int>, more: set<int>)
    requires IsCardShape(board) && marked <= more && IsWinning(board, marked)
    ensures IsWinning(board, more)
  {
    if i :| 0 <= i < 5 && RowMarked(board, marked, i) {
      assert RowMarked(board, more, i);
    } else if c :| 0 <= c < 5 && ColumnMarked(board, marked, c) {
      assert ColumnMarked(board, more, c);
    }
  }

  /** Every line of a card holds five different numbers, so one marked number wins nothing:
      a fresh card, whose only mark is the free cell, is not won. */
  lemma SingleMarkDoesNotWin(board: seq<seq<int>>, x: int)
    requires IsCard(board)
    ensures !IsWinning(board, {x})
  {
    forall i | 0 <= i < 5 ensures !RowMarked(board, {x}, i) {
      CardCellsDistinct(board, 0, i, 1, i);
    }
    forall c | 0 <= c < 5 ensures !ColumnMarked(board, {x}, c) {
      CardCellsDistinct(board, c, 0, c, 1);
    }
    CardCellsDistinct(board, 0, 0, 1, 1);
    CardCellsDistinct(board, 0, 4, 1, 3);
  }

  /** No mark wins nothing. */
  lemma EmptyMarksDoNotWin(board: seq<seq<int>>)
    requires IsCard(board)
    ensures !IsWinning(board, {})
  {
    if IsWinning(board, {}) {
      WinningIsMonotone(board, {}, {0});
      SingleMarkDoesNotWin(board, 0);
    }
  }

  /** line.every(num => selectedNumbers.has(num)): stops at the first unmarked number. */
  method AllMarked(line: seq<int>, marked: set<int>) returns (all: bool)
    ensures all <==> forall k :: 0 <= k < |line| ==> line[k] in marked
  {
    var k := 0;
    while k < |line|
      invariant 0 <= k <= |line|
      invariant forall m :: 0 <= m < k ==> line[m] in marked
    {
      if line[k] !in marked {
        return false;
      }
      k := k + 1;
    }
    return true;
  }

  /** The evaluation of checkWin: rows, then columns, then the two diagonals, returning at
      the first line that is wholly marked. */
  method EvaluateWin(board: seq<seq<int>>, marked: set<int>) returns (won: bool)
    requires IsCardShape(board)
    ensures won <==> IsWinning(board, marked)
  {
    for i := 0 to 5
      invariant forall i' :: 0 <= i' < i ==> !RowMarked(board, marked, i')
    {
      var row := Row(board, i);
      var all := AllMarked(row, marked);
      if all {
        assert RowMarked(board, marked, i);
        return true;
      }
    }
    for c := 0 to 5
      invariant forall c' :: 0 <= c' < c ==> !ColumnMarked(board, marked, c')
    {
      var all := AllMarked(board[c], marked);
      if all {
        assert ColumnMarked(board, marked, c);
        return true;
      }
    }
    var first := AllMarked(MainDiagonal(board), marked);
    if first {
      return true;
    }
    var second := AllMarked(AntiDiagonal(board), marked);
    if second {
      return true;
    }
    return false;
  }
}
