/**
 * Whole sessions driven through the handlers: the caller drawing the whole pool, and the
 * player completing a line with a click.
 */
module Scenarios {
  import opened Seqs
  import opened Board
  import opened Pool
  import opened Win
  import opened Session

  /** The caller presses Call Number 76 times without a reset, the k-th press drawing
      indices[k]: the first 75 presses call every number of 1..75 once, and the last
      press finds the pool empty and changes nothing. */
  method CallWholePool(choices: seq<seq<int>>, indices: seq<nat>)
    returns (calledNumbers: seq<int>, lastUnchanged: bool)
    requires ValidChoices(choices)
    requires |indices| == 76 && forall k :: 0 <= k < 75 ==> indices[k] < 75 - k
    ensures |calledNumbers| == 75 && Distinct(calledNumbers)
    ensures forall x :: x in calledNumbers <==> 1 <= x <= 75
    ensures lastUnchanged
  {
    var g := new BingoGame(choices);
    g.SelectRole(Caller, choices);
    for k := 0 to 75
      invariant g.Valid() && g.role == Caller
      invariant |g.called| == k && |g.remaining| == 75 - k
    {
      PoolFacts(g.called, g.remaining);
      g.CallNumber(indices[k]);
    }
    PoolFacts(g.called, g.remaining);
    PoolEmptyAfterAllDraws(g.called, g.remaining);
    calledNumbers := g.called;
    var before := g.called;
    g.CallNumber(indices[75]);
    lastUnchanged := g.called == before && g.remaining == [];
  }

  /** The free cell and the first four numbers of column B. */
  function FourOfColumnB(b: seq<seq<int>>): set<int>
    requires IsCardShape(b)
  {
    {b[2][2], b[0][0], b[0][1], b[0][2], b[0][3]}
  }

  /** A cell outside column B, other than the free cell, holds none of those numbers. */
  lemma OutsideFourOfColumnB(b: seq<seq<int>>, c: int, r: int)
    requires IsCard(b) && 0 < c < 5 && 0 <= r < 5 && (c, r) != (2, 2)
    ensures b[c][r] !in FourOfColumnB(b)
  {
    CardCellsDistinct(b, c, r, 2, 2);
    CardCellsDistinct(b, c, r, 0, 0);
    CardCellsDistinct(b, c, r, 0, 1);
    CardCellsDistinct(b, c, r, 0, 2);
    CardCellsDistinct(b, c, r, 0, 3);
  }

  /** The free cell and at most the first four numbers of column B hold no line. */
  lemma FourOfColumnBDoNotWin(b: seq<seq<int>>, marks: set<int>)
    requires IsCard(b) && marks <= FourOfColumnB(b)
    ensures !IsWinning(b, marks)
  {
    forall i | 0 <= i < 5 ensures !RowMarked(b, marks, i) {
      OutsideFourOfColumnB(b, 1, i);
    }
    forall c | 0 <= c < 5 ensures !ColumnMarked(b, marks, c) {
      if c == 0 {
        CardCellsDistinct(b, 0, 4, 2, 2);
        CardCellsDistinct(b, 0, 4, 0, 0);
        CardCellsDistinct(b, 0, 4, 0, 1);
        CardCellsDistinct(b, 0, 4, 0, 2);
        CardCellsDistinct(b, 0, 4, 0, 3);
      } else {
        OutsideFourOfColumnB(b, c, 0);
      }
    }
    OutsideFourOfColumnB(b, 1, 1);
    OutsideFourOfColumnB(b, 1, 3);
  }

  /** The marks after clicking the first r numbers of column B in a fresh player session. */
  function ColumnBPrefix(b: seq<seq<int>>, r: int): set<int>
    requires IsCardShape(b) && 0 <= r <= 5
    decreases r
  {
    if r == 0 then {b[2][2]} else ColumnBPrefix(b, r - 1) + {b[0][r - 1]}
  }

  /** The next number of column B is not marked yet, and at most four numbers of it are marked. */
  lemma {:induction false} ColumnBPrefixFacts(b: seq<seq<int>>, r: int)
    requires IsCard(b) && 0 <= r <= 5
    ensures r < 5 ==> b[0][r] !in ColumnBPrefix(b, r)
    ensures r < 5 ==> ColumnBPrefix(b, r) <= FourOfColumnB(b)
    ensures forall k :: 0 <= k < r ==> b[0][k] in ColumnBPrefix(b, r)
  {
    if r > 0 {
      ColumnBPrefixFacts(b, r - 1);
    }
    if r < 5 {
      CardCellsDistinct(b, 0, r, 2, 2);
      forall k | 0 <= k < r ensures b[0][r] != b[0][k] {
        CardCellsDistinct(b, 0, r, 0, k);
      }
    }
  }

  /** Marking the whole of column B is a win. */
  lemma ColumnBWins(b: seq<seq<int>>, marks: set<int>)
    requires IsCard(b) && {b[0][0], b[0][1], b[0][2], b[0][3], b[0][4]} <= marks
    ensures IsWinning(b, marks)
  {
    assert ColumnMarked(b, marks, 0);
  }

  /** In a fresh player session on any card, the player clicks the five numbers of column B
      from top to bottom with the handler as written: afterwards column B is wholly marked,
      yet no win is shown, because each click checks the marks from before it. */
  method StaleWinScenario(choices: seq<seq<int>>) returns (won: bool, lineMarked: bool)
    requires ValidChoices(choices)
    ensures !won && lineMarked
  {
    var g := new BingoGame(choices);
    var b := g.board;
    for r := 0 to 5
      invariant g.Valid() && g.board == b && g.role == Player && !g.hasWon
      invariant g.selected == ColumnBPrefix(b, r)
    {
      ColumnBPrefixFacts(b, r);
      FourOfColumnBDoNotWin(b, g.selected);
      g.HandleCellClick(b[0][r]);
    }
    ColumnBPrefixFacts(b, 5);
    ColumnBWins(b, g.selected);
    won := g.hasWon;
    lineMarked := IsWinning(g.board, g.selected);
  }

  /** The same clicks with the win check on the marks after each click: the fifth click
      shows the win. */
  method IntendedWinScenario(choices: seq<seq<int>>) returns (won: bool, lineMarked: bool)
    requires ValidChoices(choices)
    ensures won && lineMarked
  {
    var g := new BingoGame(choices);
    var b := g.board;
    for r := 0 to 5
      invariant g.Valid() && g.WinShown() && g.board == b && g.role == Player
      invariant g.selected == ColumnBPrefix(b, r)
    {
      ColumnBPrefixFacts(b, r);
      g.HandleCellClickIntended(b[0][r]);
    }
    ColumnBPrefixFacts(b, 5);
    ColumnBWins(b, g.selected);
    won := g.hasWon;
    lineMarked := IsWinning(g.board, g.selected);
  }
}
