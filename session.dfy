/**
 * The state of the BingoGame component and its handlers. Each React state variable is a
 * field; each handler is a method that updates the fields in sequence. Random choices are
 * parameters: the shuffle indices of a new card and the index of the next call.
 */
module Session {
  import opened Wrappers
  import opened Seqs
  import opened Board
  import opened Display
  import opened Pool
  import opened Win

  datatype Role = Caller | Player

  /** The updater of handleCellClick: delete the number when present, add it otherwise. */
  function Toggled(marks: set<int>, n: int): (r: set<int>)
    ensures n in r <==> n !in marks
    ensures forall x :: x != n ==> (x in r <==> x in marks)
  {
    if n in marks then marks - {n} else marks + {n}
  }

  /** Clicking the same cell twice restores the marks. */
  lemma ToggleTwice(marks: set<int>, n: int)
    ensures Toggled(Toggled(marks, n), n) == marks
  {
  }

  class BingoGame {
    var role: Role
    var board: seq<seq<int>>
    var selected: set<int>
    var called: seq<int>
    var current: Option<int>
    var hasWon: bool
    var remaining: seq<int>
    var numPlayers: int

    /** The card is a card, called and remaining numbers partition 1..75, the current number
        is the last one called, and the player count is within its clamp. */
    ghost predicate Valid()
      reads this
    {
      && IsCard(board)
      && PoolInvariant(called, remaining)
      && (current.Some? <==> called != [])
      && (called != [] ==> current == Some(called[|called| - 1]))
      && 1 <= numPlayers <= 50
    }

    /** In the player role, a card whose marks hold a line shows the win banner. */
    ghost predicate WinShown()
      reads this
      requires Valid()
    {
      role == Player && IsWinning(board, selected) ==> hasWon
    }

    /**
     * Mounting the component: the initial useState values (role 'player', one player), the
     * mount effect that calls resetGame, then the free-cell effect that the new board triggers.
     */
    constructor (choices: seq<seq<int>>)
      requires ValidChoices(choices)
      ensures Valid() && WinShown()
      ensures role == Player && board == GenerateBoard(choices)
      ensures selected == {board[2][2]}
      ensures called == [] && current == None && remaining == FullPool()
      ensures !hasWon && numPlayers == 1
    {
      var card := GenerateBoard(choices);
      role := Player;
      board := card;
      selected := {card[2][2]};
      called := [];
      current := None;
      hasWon := false;
      remaining := FullPool();
      numPlayers := 1;
      FreshPool();
      SingleMarkDoesNotWin(card, card[2][2]);
    }

    /**
     * callNumber: nothing happens when no number remains; otherwise the number at the given
     * index leaves the pool, is appended to the called numbers and becomes the current one.
     */
    method CallNumber(index: nat)
      requires Valid()
      requires remaining != [] ==> index < |remaining|
      modifies this`current, this`called, this`remaining
      ensures Valid() && (old(WinShown()) ==> WinShown())
      ensures old(remaining) == [] ==>
        current == old(current) && called == old(called) && remaining == old(remaining)
      ensures old(remaining) != [] ==>
        && current == Some(old(remaining)[index])
        && called == old(called) + [old(remaining)[index]]
        && remaining == RemoveAt(old(remaining), index)
        && old(remaining)[index] !in old(called)
    {
      if |remaining| == 0 {
        return;
      }
      var number := remaining[index];
      PoolFacts(called, remaining);
      DrawKeepsPoolInvariant(called, remaining, index);
      current := Some(number);
      called := called + [number];
      remaining := RemoveAt(remaining, index);
    }

    /** checkWin: in the player role, raise hasWon when the current marks hold a line; it
        never lowers the flag. */
    method CheckWin()
      requires Valid()
      modifies this`hasWon
      ensures Valid() && WinShown()
      ensures hasWon == (old(hasWon) || (role == Player && IsWinning(board, selected)))
    {
      if role == Caller {
        return;
      }
      var won := EvaluateWin(board, selected);
      if won {
        hasWon := true;
      }
    }

    /**
     * handleCellClick as written: no effect in the caller role; in the player role the
     * clicked number changes its marked state, and the win check sees the marks as they were
     * BEFORE the click. React applies the setSelectedNumbers updater only after the handler
     * returns, so the checkWin() of the same handler reads the previous set; running the check
     * first and the toggle second gives the same final state because neither reads what the
     * other writes.
     */
    method HandleCellClick(number: int)
      requires Valid()
      modifies this`selected, this`hasWon
      ensures Valid()
      ensures role == Caller ==> selected == old(selected) && hasWon == old(hasWon)
      ensures role == Player ==> selected == Toggled(old(selected), number)
      ensures hasWon == (old(hasWon) || (role == Player && IsWinning(board, old(selected))))
    {
      if role == Caller {
        return;
      }
      CheckWin();
      selected := Toggled(selected, number);
    }

    /** handleCellClick with the win check on the marks after the click: the banner then
        shows as soon as a line is complete. */
    method HandleCellClickIntended(number: int)
      requires Valid()
      modifies this`selected, this`hasWon
      ensures Valid() && WinShown()
      ensures role == Caller ==> selected == old(selected) && hasWon == old(hasWon)
      ensures role == Player ==> selected == Toggled(old(selected), number)
      ensures hasWon == (old(hasWon) || (role == Player && IsWinning(board, selected)))
    {
      if role == Caller {
        return;
      }
      selected := Toggled(selected, number);
      CheckWin();
    }

    /** resetGame: a new card, no marks, no calls, no current number, no win, a full pool. */
    method ResetGame(choices: seq<seq<int>>)
      requires Valid() && ValidChoices(choices)
      modifies this`board, this`selected, this`called, this`current, this`hasWon, this`remaining
      ensures Valid() && WinShown()
      ensures board == GenerateBoard(choices) && selected == {}
      ensures called == [] && current == None && !hasWon && remaining == FullPool()
    {
      board := GenerateBoard(choices);
      selected := {};
      called := [];
      current := None;
      hasWon := false;
      remaining := FullPool();
      FreshPool();
      EmptyMarksDoNotWin(board);
    }

    /** The effect on [board, role]: in the player role the centre number board[2][2] is
        added to the marks. */
    method FreeCellEffect()
      requires Valid()
      modifies this`selected
      ensures Valid()
      ensures selected == if role == Player then old(selected) + {board[2][2]} else old(selected)
    {
      if |board| > 0 && role == Player {
        selected := selected + {board[2][2]};
      }
    }

    /** The New Game and New Card buttons: resetGame, then the free-cell effect that the new
        board triggers. The session then holds only the free cell, which wins nothing. */
    method NewGame(choices: seq<seq<int>>)
      requires Valid() && ValidChoices(choices)
      modifies this`board, this`selected, this`called, this`current, this`hasWon, this`remaining
      ensures Valid() && WinShown()
      ensures board == GenerateBoard(choices)
      ensures selected == if role == Player then {board[2][2]} else {}
      ensures called == [] && current == None && !hasWon && remaining == FullPool()
    {
      ResetGame(choices);
      FreeCellEffect();
      if role == Player {
        assert selected == {board[2][2]};
        SingleMarkDoesNotWin(board, board[2][2]);
      }
    }

    /** The Caller and Player buttons: set the role, then start a new game in it. */
    method SelectRole(r: Role, choices: seq<seq<int>>)
      requires Valid() && ValidChoices(choices)
      modifies this`role, this`board, this`selected, this`called, this`current, this`hasWon,
        this`remaining
      ensures Valid() && WinShown()
      ensures role == r && board == GenerateBoard(choices)
      ensures selected == if r == Player then {board[2][2]} else {}
      ensures called == [] && current == None && !hasWon && remaining == FullPool()
    {
      role := r;
      NewGame(choices);
    }

    /** The onChange of the player-count input, given what parseInt returned (None for NaN). */
    method SetNumPlayers(parsed: Option<int>)
      requires Valid()
      modifies this`numPlayers
      ensures Valid() && (old(WinShown()) ==> WinShown())
      ensures numPlayers == ClampPlayers(parsed)
    {
      numPlayers := ClampPlayers(parsed);
    }
  }
}
