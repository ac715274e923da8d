/** The game engine as the browser page keeps it: one object holding the
    player names, the board array, whose turn it is and whether the game is
    over, changed in place by the three event handlers. Each handler is
    proved to do what the pure rules of module Rules say. */
module Engine {
  import opened Wrappers
  import opened Grid
  import opened Names
  import opened Rules

  class Game {
    var player1: string
    var player2: string
    var isXTurn: bool
    var board: array<Cell>
    var gameOver: bool

    /** The board has nine cells and the state is one the rules can reach. */
    ghost predicate Valid()
      reads this, board
    {
      board.Length == 9 && Consistent(State())
    }

    /** The game state as a value. */
    ghost function State(): Play
      reads this, board
      requires board.Length == 9
    {
      Play(board[..], isXTurn, gameOver)
    }

    /** The state before any input: default names, an empty board, X to
        move. */
    constructor ()
      ensures Valid() && fresh(board)
      ensures State() == Initial()
      ensures player1 == DefaultName1 && player2 == DefaultName2
    {
      player1 := DefaultName1;
      player2 := DefaultName2;
      isXTurn := true;
      var cells := NewBoard();
      board := cells;
      gameOver := false;
      new;
      assert State() == Initial();
      InitialConsistent();
    }

    /** Starts a fresh game whatever the state before; the names stay. */
    method ResetBoard()
      modifies this
      ensures Valid() && fresh(board)
      ensures State() == Initial()
      ensures player1 == old(player1) && player2 == old(player2)
    {
      board := NewBoard();
      gameOver := false;
      isXTurn := true;
      assert State() == Initial();
      InitialConsistent();
    }

    /** A new array of nine empty cells. */
    static method NewBoard() returns (b: array<Cell>)
      ensures fresh(b) && b.Length == 9 && b[..] == EmptyBoard()
    {
      b := new Cell[9] [Empty, Empty, Empty, Empty, Empty, Empty, Empty, Empty, Empty];
      assert b[..] == EmptyBoard();
    }

    /** The start button: takes the names from the two inputs, starts a
        fresh game and returns the prompt for the first player. */
    method Submit(input1: Option<string>, input2: Option<string>) returns (message: string)
      modifies this
      ensures Valid() && fresh(board)
      ensures player1 == NameOrDefault(input1, DefaultName1)
      ensures player2 == NameOrDefault(input2, DefaultName2)
      ensures State() == Initial()
      ensures message == TurnText(player1)
    {
      player1 := NameOrDefault(input1, DefaultName1);
      player2 := NameOrDefault(input2, DefaultName2);
      ResetBoard();
      message := TurnMessage();
    }

    /** A click on cell `index`. Returns the text the page then shows, or
        None when the click is ignored and the text stays as it was. */
    method OnCellClick(index: Index) returns (message: Option<string>)
      requires Valid()
      modifies this, board
      ensures Valid() && board == old(board)
      ensures player1 == old(player1) && player2 == old(player2)
      ensures State() == Click(old(State()), index).after
      ensures message == Announce(Click(old(State()), index).outcome, State(), player1, player2)
    {
      ClickPreservesConsistent(State(), index);
      if gameOver {
        return None;
      }
      if board[index] != Empty {
        return None;
      }
      var mark := Mover(isXTurn);
      board[index] := mark;
      if CheckWin(board[..], mark) {
        message := Some(WinText(PlayerName(isXTurn, player1, player2)));
        gameOver := true;
        return;
      }
      if IsDraw(board[..]) {
        message := Some(DrawText);
        gameOver := true;
        return;
      }
      isXTurn := !isXTurn;
      message := Some(TurnMessage());
    }

    /** The prompt naming the player to move: while the game is on, that
        is player 1 exactly when X and O have placed as many marks. */
    function TurnMessage(): (text: string)
      reads this, board
      ensures Valid() && !gameOver ==>
                text == TurnText(if Count(board[..], X) == Count(board[..], O)
                                 then player1 else player2)
    {
      TurnText(PlayerName(isXTurn, player1, player2))
    }
  }
}
