/**
 * generateBoard: a card of five columns (B, I, N, G, O); column c is the first five numbers
 * of a shuffle of the range 15c+1..15c+15.
 */
module Board {
  import opened Seqs
  import opened Shuffle

  /** The `min` of the c-th entry of `ranges`. */
  function ColumnLow(c: int): int { 15 * c + 1 }

  /** The `max` of the c-th entry of `ranges`. */
  function ColumnHigh(c: int): int { 15 * c + 15 }

  /** Array.from({ length: max - min + 1 }, (_, i) => i + min). */
  function Span(lo: int, hi: int): (s: seq<int>)
    requires lo <= hi + 1
    ensures |s| == hi - lo + 1
    ensures forall k :: 0 <= k < |s| ==> s[k] == lo + k
    ensures Distinct(s)
    ensures forall x :: x in s <==> lo <= x <= hi
  {
    var s := seq(hi - lo + 1, k => k + lo);
    ConsecutiveFacts(s, lo);
    s
  }

  /** A sequence of consecutive numbers from lo holds each of them once and nothing else. */
  lemma ConsecutiveFacts(s: seq<int>, lo: int)
    requires forall k :: 0 <= k < |s| ==> s[k] == lo + k
    ensures Distinct(s)
    ensures forall x :: x in s <==> lo <= x < lo + |s|
  {
    forall x | lo <= x < lo + |s| ensures x in s {
      assert s[x - lo] == x;
    }
  }

  /** Five columns of five numbers, each column duplicate-free and inside its range. */
  predicate IsCard(board: seq<seq<int>>) {
    IsCardShape(board) &&
    forall c :: 0 <= c < 5 ==>
      Distinct(board[c]) &&
      forall r :: 0 <= r < 5 ==> ColumnLow(c) <= board[c][r] <= ColumnHigh(c)
  }

  /** Five columns of five numbers, whatever they hold. */
  predicate IsCardShape(board: seq<seq<int>>) {
    |board| == 5 && forall c :: 0 <= c < 5 ==> |board[c]| == 5
  }

  /** One random-index sequence per column; each column's shuffle runs over 15 numbers. */
  predicate ValidChoices(choices: seq<seq<int>>) {
    |choices| == 5 && forall c :: 0 <= c < 5 ==> ValidSwaps(15, choices[c])
  }

  /** shuffleArray(numbers).slice(0, 5) for the c-th range. */
  function GenerateColumn(c: int, js: seq<int>): (col: seq<int>)
    requires 0 <= c < 5 && ValidSwaps(15, js)
    ensures |col| == 5 && Distinct(col)
    ensures forall r :: 0 <= r < 5 ==> ColumnLow(c) <= col[r] <= ColumnHigh(c)
  {
    var numbers := Span(ColumnLow(c), ColumnHigh(c));
    ShuffledPermutes(numbers, js);
    var shuffled := Shuffled(numbers, js);
    assert forall r :: 0 <= r < 5 ==> shuffled[r] in numbers;
    shuffled[..5]
  }

  /** generateBoard(): ranges.map(range => shuffleArray(numbers).slice(0, 5)). */
  function GenerateBoard(choices: seq<seq<int>>): (board: seq<seq<int>>)
    requires ValidChoices(choices)
    ensures IsCard(board)
  {
    seq(5, c requires 0 <= c < 5 => GenerateColumn(c, choices[c]))
  }

  /** The ranges are disjoint, so every position of a card holds a different number. */
  lemma CardCellsDistinct(board: seq<seq<int>>, c1: int, r1: int, c2: int, r2: int)
    requires IsCard(board)
    requires 0 <= c1 < 5 && 0 <= r1 < 5 && 0 <= c2 < 5 && 0 <= r2 < 5
    ensures board[c1][r1] == board[c2][r2] <==> c1 == c2 && r1 == r2
  {
    if c1 != c2 {
      assert ColumnLow(c1) <= board[c1][r1] <= ColumnHigh(c1);
      assert ColumnLow(c2) <= board[c2][r2] <= ColumnHigh(c2);
    } else if r1 < r2 {
      assert Distinct(board[c1]);
    } else if r2 < r1 {
      assert Distinct(board[c1]);
    }
  }
}
