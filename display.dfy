/** The pure helpers the view uses: the B/I/N/G/O prefix of a number and the player-count clamp. */
module Display {
  import opened Wrappers
  import opened Board

  const Letters: string := "BINGO"

  /**
   * Math.floor((n - 1) / 15). Dafny's division by a positive divisor rounds down as
   * Math.floor does, also for n < 1. The result is the block of fifteen that holds n.
   */
  function LetterIndex(n: int): (k: int)
    ensures ColumnLow(k) <= n <= ColumnHigh(k)
  {
    (n - 1) / 15
  }

  /** The block holding n is unique, so the letter index is the column whose range holds n. */
  lemma LetterIndexIsColumn(n: int, c: int)
    ensures LetterIndex(n) == c <==> ColumnLow(c) <= n <= ColumnHigh(c)
  {
    var k := LetterIndex(n);
    assert ColumnLow(k) <= n <= ColumnHigh(k);
  }

  /** Exactly the numbers of the pool, 1..75, get one of the five letters. */
  lemma LetterIndexOfPoolNumber(n: int)
    ensures 0 <= LetterIndex(n) <= 4 <==> 1 <= n <= 75
  {
    var k := LetterIndex(n);
    assert ColumnLow(k) <= n <= ColumnHigh(k);
    if k < 0 {
      assert ColumnHigh(k) <= 0;
    } else if k > 4 {
      assert ColumnLow(k) >= 76;
    }
  }

  /** ['B', 'I', 'N', 'G', 'O'][index]; None stands for JavaScript's undefined. */
  function Letter(n: int): (r: Option<char>)
    ensures r.Some? <==> 1 <= n <= 75
  {
    var k := LetterIndex(n);
    LetterIndexOfPoolNumber(n);
    if 0 <= k < 5 then Some(Letters[k]) else None
  }

  /** The letter shown for a number of a card is the header of the column that holds it. */
  lemma CardCellLetter(board: seq<seq<int>>, c: int, r: int)
    requires IsCard(board) && 0 <= c < 5 && 0 <= r < 5
    ensures Letter(board[c][r]) == Some(Letters[c])
  {
    LetterIndexIsColumn(board[c][r], c);
  }

  /** parseInt(value) || 1: NaN (None) and 0 are falsy and become 1. */
  function ParsedOrOne(parsed: Option<int>): (v: int)
    ensures v != 0
    ensures parsed.None? || parsed == Some(0) ==> v == 1
    ensures parsed.Some? && parsed.value != 0 ==> v == parsed.value
  {
    if parsed.None? || parsed.value == 0 then 1 else parsed.value
  }

  /** Math.min(50, Math.max(1, parseInt(value) || 1)). */
  function ClampPlayers(parsed: Option<int>): (r: int)
    ensures 1 <= r <= 50
    ensures parsed.None? || parsed == Some(0) ==> r == 1
    ensures parsed.Some? && 1 <= parsed.value <= 50 ==> r == parsed.value
  {
    var v := ParsedOrOne(parsed);
    var low := if v < 1 then 1 else v;
    if low > 50 then 50 else low
  }

  /** The clamp picks the value of 1..50 nearest to the parsed number (NaN and 0 read as 1). */
  lemma ClampIsNearest(parsed: Option<int>, y: int)
    requires 1 <= y <= 50
    ensures var v := ParsedOrOne(parsed);
            var d := ClampPlayers(parsed) - v;
            var e := y - v;
            (if d < 0 then -d else d) <= (if e < 0 then -e else e)
  {
  }
}
