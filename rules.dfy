/** The rules of one game as pure functions: the state the engine keeps,
    what a click on a cell does to it, and what is announced afterwards.
    The class in module Engine is proved to follow these functions; the
    lemmas here say what the rules guarantee. */
module Rules {
  import opened Wrappers
  import opened Grid
  import opened Names

  /** The engine's game state: the board, whose turn it is (X when
      `isXTurn`), and whether the game has ended. */
  datatype Play = Play(board: Board, isXTurn: bool, gameOver: bool)

  /** The mark of the player to move. */
  function Mover(isXTurn: bool): (m: Mark)
    ensures m == X <==> isXTurn
  {
    if isXTurn then X else O
  }

  /** A fresh game: empty board, X to move, not over. */
  function Initial(): (s: Play)
    ensures s.isXTurn && !s.gameOver
    ensures forall k: Index :: s.board[k] == Empty
  {
    Play(EmptyBoard(), true, false)
  }

  /** What a click led to. */
  datatype Outcome =
    | Ignored     // the game was over or the cell was taken
    | Won         // the mark just placed completed a line
    | Drawn       // the board filled up without a line
    | Continued   // the other player is to move

  datatype Transition = Transition(after: Play, outcome: Outcome)

  /** A click on cell `i`. */
  function Click(s: Play, i: Index): (t: Transition)
    // ignored exactly when the game is over or the cell is taken, and then
    // nothing changes
    ensures t.outcome == Ignored <==> s.gameOver || s.board[i] != Empty
    ensures t.outcome == Ignored ==> t.after == s
    // otherwise the mover's mark is written into cell i and no other cell changes
    ensures t.outcome != Ignored ==>
              t.after.board[i] == Mover(s.isXTurn) &&
              forall k: Index :: k != i ==> t.after.board[k] == s.board[k]
    // a completed line wins even when it also fills the board
    ensures t.outcome == Won <==>
              t.outcome != Ignored && CheckWin(t.after.board, Mover(s.isXTurn))
    ensures t.outcome == Drawn <==>
              t.outcome != Ignored && !CheckWin(t.after.board, Mover(s.isXTurn)) &&
              IsDraw(t.after.board)
    // the game ends on a win or a draw and never restarts by a click
    ensures t.after.gameOver <==> s.gameOver || t.outcome == Won || t.outcome == Drawn
    // the turn passes exactly when the game goes on
    ensures t.after.isXTurn != s.isXTurn <==> t.outcome == Continued
  {
    if s.gameOver || s.board[i] != Empty then
      Transition(s, Ignored)
    else
      var mark := Mover(s.isXTurn);
      var board := s.board[i := mark];
      if CheckWin(board, mark) then
        Transition(Play(board, s.isXTurn, true), Won)
      else if IsDraw(board) then
        Transition(Play(board, s.isXTurn, true), Drawn)
      else
        Transition(Play(board, !s.isXTurn, false), Continued)
  }

  /** The state reached by clicking the cells of `moves` in order. */
  function Run(s: Play, moves: seq<Index>): Play
    decreases |moves|
  {
    if moves == [] then s else Run(Click(s, moves[0]).after, moves[1..])
  }

  /** What every reachable state satisfies. While the game is on: X has
      placed as many marks as O when it is X's turn and one more otherwise,
      neither mark has a line, and some cell is free. Once it is over: the
      player named by `isXTurn` moved last, and either that player has a
      line or the board is full, while the other player has no line. */
  predicate Consistent(s: Play) {
    var x := Count(s.board, X);
    var o := Count(s.board, O);
    if !s.gameOver then
      x == o + (if s.isXTurn then 0 else 1) &&
      !CheckWin(s.board, X) && !CheckWin(s.board, O) && !IsDraw(s.board)
    else
      x == o + (if s.isXTurn then 1 else 0) &&
      (CheckWin(s.board, Mover(s.isXTurn)) || IsDraw(s.board)) &&
      !CheckWin(s.board, Other(Mover(s.isXTurn)))
  }

  /** A fresh game satisfies the invariant. */
  lemma InitialConsistent()
    ensures Consistent(Initial())
  {
    var b := Initial().board;
    assert forall k :: 0 <= k < |b| ==> b[k] == Empty;
    assert !IsDraw(b) by {
      assert b[0] == Empty;
    }
    assert !CheckWin(b, X) && !CheckWin(b, O) by {
      forall k | 0 <= k < |Wins| ensures !Completes(b, Wins[k], X) && !Completes(b, Wins[k], O) {
        assert b[Wins[k].a] == Empty;
      }
    }
  }

  /** A click keeps a consistent state consistent. */
  lemma ClickPreservesConsistent(s: Play, i: Index)
    requires Consistent(s)
    ensures Consistent(Click(s, i).after)
  {
    var t := Click(s, i);
    if t.outcome != Ignored {
      var m := Mover(s.isXTurn);
      var b := t.after.board;
      assert b == s.board[i := m];
      CountUpdate(s.board, i, m, X);
      CountUpdate(s.board, i, m, O);
      PlaceKeepsOtherLinesOpen(s.board, i, m, Other(m));
      if t.outcome == Continued {
        PlaceKeepsOtherLinesOpen(s.board, i, Other(m), m);
        assert !CheckWin(b, m);
      }
    }
  }

  /** A click that is not ignored fills exactly one more cell. */
  lemma ClickFillsOneCell(s: Play, i: Index)
    ensures var t := Click(s, i);
            Count(t.after.board, Empty)
            == Count(s.board, Empty) - (if t.outcome == Ignored then 0 else 1)
  {
    var t := Click(s, i);
    if t.outcome != Ignored {
      assert t.after.board == s.board[i := Mover(s.isXTurn)];
      CountUpdate(s.board, i, Mover(s.isXTurn), Empty);
    }
  }

  /** A winning click completes a line through the clicked cell, in the
      mark of the player who clicked. */
  lemma WinRunsThroughClick(s: Play, i: Index)
    requires Consistent(s) && Click(s, i).outcome == Won
    ensures var t := Click(s, i);
            exists k :: 0 <= k < |Wins| && Completes(t.after.board, Wins[k], Mover(s.isXTurn))
                        && i in {Wins[k].a, Wins[k].b, Wins[k].c}
  {
    var m := Mover(s.isXTurn);
    assert Click(s, i).after.board == s.board[i := m];
    NewLineRunsThroughMove(s.board, i, m);
  }

  /** Every state reached by clicks from a consistent state is consistent. */
  lemma {:induction false} RunPreservesConsistent(s: Play, moves: seq<Index>)
    requires Consistent(s)
    ensures Consistent(Run(s, moves))
    decreases |moves|
  {
    if moves != [] {
      ClickPreservesConsistent(s, moves[0]);
      RunPreservesConsistent(Click(s, moves[0]).after, moves[1..]);
    }
  }

  /** Every state reachable from a fresh game is consistent. */
  lemma ReachableIsConsistent(moves: seq<Index>)
    ensures Consistent(Run(Initial(), moves))
  {
    InitialConsistent();
    RunPreservesConsistent(Initial(), moves);
  }

  /** Once the game is over, no sequence of clicks changes anything. */
  lemma {:induction false} OverIsFinal(s: Play, moves: seq<Index>)
    requires s.gameOver
    ensures Run(s, moves) == s
    decreases |moves|
  {
    if moves != [] {
      OverIsFinal(Click(s, moves[0]).after, moves[1..]);
    }
  }

  /** The text shown after a click, if any: the congratulation names the
      player whose turn it still is (the one who just moved), the prompt
      names the player whose turn it now is. */
  function Announce(o: Outcome, after: Play, player1: string, player2: string): (text: Option<string>)
    ensures text.None? <==> o == Ignored
    ensures o == Won ==>
              text == Some(WinText(if after.isXTurn then player1 else player2))
    ensures o == Drawn ==> text == Some(DrawText)
    ensures o == Continued ==>
              text == Some(TurnText(if after.isXTurn then player1 else player2))
  {
    match o
    case Ignored => None
    case Won => Some(WinText(PlayerName(after.isXTurn, player1, player2)))
    case Drawn => Some(DrawText)
    case Continued => Some(TurnText(PlayerName(after.isXTurn, player1, player2)))
  }

  /** After a win exactly one mark has a line, and the congratulation names
      the player holding that mark: player 1 for X, player 2 for O. */
  lemma WinnerIsNamed(s: Play, i: Index, player1: string, player2: string)
    requires Consistent(s) && Click(s, i).outcome == Won
    ensures var t := Click(s, i);
            CheckWin(t.after.board, X) != CheckWin(t.after.board, O) &&
            Announce(t.outcome, t.after, player1, player2)
            == Some(WinText(if CheckWin(t.after.board, X) then player1 else player2))
  {
    ClickPreservesConsistent(s, i);
  }

  /** The prompt after an ordinary move names player 1 exactly when X and O
      have placed the same number of marks, so it always names the player
      whose mark is due. */
  lemma PromptNamesPlayerToMove(s: Play, i: Index, player1: string, player2: string)
    requires Consistent(s) && Click(s, i).outcome == Continued
    ensures var t := Click(s, i);
            Announce(t.outcome, t.after, player1, player2)
            == Some(TurnText(if Count(t.after.board, X) == Count(t.after.board, O)
                             then player1 else player2))
  {
    ClickPreservesConsistent(s, i);
  }

  /** X takes the top row (X 0, O 3, X 1, O 4, X 2): the fifth click wins
      and player 1 is congratulated. */
  lemma TopRowScenario(player1: string, player2: string)
    ensures var s1 := Click(Initial(), 0);
            var s2 := Click(s1.after, 3);
            var s3 := Click(s2.after, 1);
            var s4 := Click(s3.after, 4);
            var s5 := Click(s4.after, 2);
            s1.outcome == s2.outcome == s3.outcome == s4.outcome == Continued &&
            s5.outcome == Won &&
            Announce(s5.outcome, s5.after, player1, player2) == Some(WinText(player1))
  {
    var s1 := ClickContinues(Initial(), 0, 8);
    var s2 := ClickContinues(s1, 3, 8);
    var s3 := ClickContinues(s2, 1, 8);
    var s4 := ClickContinues(s3, 4, 8);
    CheckWinByLine(s4.board[2 := X], X);
  }

  /** A game filling all nine cells with no line (X 0, O 2, X 1, O 3, X 5,
      O 4, X 6, O 7, X 8): every click but the last passes the turn, and
      the last one ends the game in a draw. */
  lemma DrawScenario()
    ensures var s1 := Click(Initial(), 0);
            var s2 := Click(s1.after, 2);
            var s3 := Click(s2.after, 1);
            var s4 := Click(s3.after, 3);
            var s5 := Click(s4.after, 5);
            var s6 := Click(s5.after, 4);
            var s7 := Click(s6.after, 6);
            var s8 := Click(s7.after, 7);
            var s9 := Click(s8.after, 8);
            s1.outcome == s2.outcome == s3.outcome == s4.outcome == Continued &&
            s5.outcome == s6.outcome == s7.outcome == s8.outcome == Continued &&
            s9.outcome == Drawn && s9.after.gameOver
  {
    var s4 := DrawOpening();
    var s8 := DrawMiddle(s4);
    DrawEnding(s8);
  }

  /** The last click of the draw scenario fills the board without a line. */
  lemma DrawEnding(s8: Play)
    requires s8 == Play([X, X, O, O, O, X, X, O, Empty], true, false)
    ensures var t := Click(s8, 8);
            t.outcome == Drawn && t.after.gameOver
  {
    CheckWinByLine(s8.board[8 := X], X);
  }

  /** Clicks 5, 4, 6 and 7 of the draw scenario. */
  lemma DrawMiddle(s4: Play) returns (s8: Play)
    requires s4 == Play([X, X, O, O, Empty, Empty, Empty, Empty, Empty], true, false)
    ensures s8 == Play([X, X, O, O, O, X, X, O, Empty], true, false)
    ensures var s5 := Click(s4, 5);
            var s6 := Click(s5.after, 4);
            var s7 := Click(s6.after, 6);
            var t := Click(s7.after, 7);
            s5.outcome == s6.outcome == s7.outcome == t.outcome == Continued &&
            t.after == s8
  {
    var s5 := ClickContinues(s4, 5, 8);
    var s6 := ClickContinues(s5, 4, 8);
    var s7 := ClickContinues(s6, 6, 8);
    s8 := ClickContinues(s7, 7, 8);
  }

  /** The first four clicks of the draw scenario. */
  lemma DrawOpening() returns (s4: Play)
    ensures s4 == Play([X, X, O, O, Empty, Empty, Empty, Empty, Empty], true, false)
    ensures var s1 := Click(Initial(), 0);
            var s2 := Click(s1.after, 2);
            var s3 := Click(s2.after, 1);
            var t := Click(s3.after, 3);
            s1.outcome == s2.outcome == s3.outcome == t.outcome == Continued &&
            t.after == s4
  {
    var s1 := ClickContinues(Initial(), 0, 8);
    var s2 := ClickContinues(s1, 2, 8);
    var s3 := ClickContinues(s2, 1, 8);
    s4 := ClickContinues(s3, 3, 8);
  }

  /** Helper for the scenarios: clicking free cell `i` while cell `free`
      stays free and the mover completes no line passes the turn; the
      state reached is returned. */
  lemma ClickContinues(s: Play, i: Index, free: Index) returns (s': Play)
    requires !s.gameOver && s.board[i] == Empty
    requires free != i && s.board[free] == Empty
    requires !ScanLines(s.board[i := Mover(s.isXTurn)], Mover(s.isXTurn))
    ensures s' == Play(s.board[i := Mover(s.isXTurn)], !s.isXTurn, false)
    ensures Click(s, i) == Transition(s', Continued)
  {
    CheckWinByLine(s.board[i := Mover(s.isXTurn)], Mover(s.isXTurn));
    s' := Click(s, i).after;
  }
}
