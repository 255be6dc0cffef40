/** Sequences of clicks from the start of a game, and two concrete games. */
module Scenarios {
  import opened Squares
  import opened Engine
  import opened Display

  /** The state after clicking the squares of `moves` in order. */
  function Replay(s: GameState, moves: seq<nat>): (r: GameState)
    requires s.stepNumber < |s.history|
    requires forall k :: 0 <= k < |moves| ==> moves[k] < Size
    ensures r.stepNumber < |r.history|
    decreases |moves|
  {
    if moves == [] then s else Replay(AfterClick(s, moves[0]), moves[1..])
  }

  /** Every state reached by clicks from the initial state satisfies the
      invariant, so its history obeys the write-once rule. */
  lemma {:induction false} ReplayKeepsInvariant(s: GameState, moves: seq<nat>)
    requires Invariant(s)
    requires forall k :: 0 <= k < |moves| ==> moves[k] < Size
    ensures Invariant(Replay(s, moves))
    decreases |moves|
  {
    if moves != [] {
      ClickKeepsInvariant(s, moves[0]);
      ReplayKeepsInvariant(AfterClick(s, moves[0]), moves[1..]);
    }
  }

  /** Five clicks in a row. */
  lemma ReplayFive(s: GameState, m: seq<nat>)
    requires s.stepNumber < |s.history|
    requires |m| == 5 && forall k :: 0 <= k < 5 ==> m[k] < Size
    ensures Replay(s, m) ==
      AfterClick(AfterClick(AfterClick(AfterClick(AfterClick(s, m[0]), m[1]), m[2]), m[3]), m[4])
  {
    var s1 := AfterClick(s, m[0]);
    var s2 := AfterClick(s1, m[1]);
    var s3 := AfterClick(s2, m[2]);
    var s4 := AfterClick(s3, m[3]);
    assert Replay(s4, m[4..]) == AfterClick(s4, m[4]) by {
      assert m[4..][1..] == [];
    }
    assert Replay(s3, m[3..]) == Replay(s4, m[4..]) by {
      assert m[3..][1..] == m[4..];
    }
    assert Replay(s2, m[2..]) == Replay(s3, m[3..]) by {
      assert m[2..][1..] == m[3..];
    }
    assert Replay(s1, m[1..]) == Replay(s2, m[2..]) by {
      assert m[1..][1..] == m[2..];
    }
  }

  /** A legal click on the latest board of a game in progress. */
  lemma ClickOnLatest(h: seq<Board>, i: nat, before: Board, after: Board, h': seq<Board>)
    requires |h| >= 1 && i < Size && h[|h| - 1] == before
    requires Winner(before) == None && before[i] == Empty
    requires after == before[i := Taken(PlayerAt(|h| - 1))]
    requires h' == h + [after]
    ensures AfterClick(GameState(h, |h| - 1, (|h| - 1) % 2 == 0, false), i)
              == GameState(h', |h|, |h| % 2 == 0, false)
  {
    assert h[..|h|] == h;
  }

  const Diagonal1: Board := [Taken(X), Empty, Empty, Empty, Empty, Empty, Empty, Empty, Empty]
  const Diagonal2: Board := [Taken(X), Empty, Empty, Empty, Taken(O), Empty, Empty, Empty, Empty]
  const Diagonal3: Board := [Taken(X), Empty, Empty, Empty, Taken(O), Empty, Empty, Empty, Taken(X)]
  const Diagonal4: Board := [Taken(X), Taken(O), Empty, Empty, Taken(O), Empty, Empty, Empty, Taken(X)]
  const Diagonal5: Board := [Taken(X), Taken(O), Taken(X), Empty, Taken(O), Empty, Empty, Empty, Taken(X)]

  lemma DiagonalWinners()
    ensures Winner(EmptyBoard) == None && Winner(Diagonal1) == None && Winner(Diagonal2) == None
    ensures Winner(Diagonal3) == None && Winner(Diagonal4) == None && Winner(Diagonal5) == None
  {
  }

  lemma DiagonalClick1()
    ensures AfterClick(GameState([EmptyBoard], 0, true, false), 0) ==
      GameState([EmptyBoard, Diagonal1], 1, false, false)
  {
    DiagonalWinners();
    ClickOnLatest([EmptyBoard], 0, EmptyBoard, Diagonal1, [EmptyBoard, Diagonal1]);
  }

  lemma DiagonalClick2()
    ensures AfterClick(GameState([EmptyBoard, Diagonal1], 1, false, false), 4) ==
      GameState([EmptyBoard, Diagonal1, Diagonal2], 2, true, false)
  {
    DiagonalWinners();
    ClickOnLatest([EmptyBoard, Diagonal1], 4, Diagonal1, Diagonal2, [EmptyBoard, Diagonal1, Diagonal2]);
  }

  lemma DiagonalClick3()
    ensures AfterClick(GameState([EmptyBoard, Diagonal1, Diagonal2], 2, true, false), 8) ==
      GameState([EmptyBoard, Diagonal1, Diagonal2, Diagonal3], 3, false, false)
  {
    DiagonalWinners();
    ClickOnLatest([EmptyBoard, Diagonal1, Diagonal2], 8, Diagonal2, Diagonal3, [EmptyBoard, Diagonal1, Diagonal2, Diagonal3]);
  }

  lemma DiagonalClick4()
    ensures AfterClick(GameState([EmptyBoard, Diagonal1, Diagonal2, Diagonal3], 3, false, false), 1) ==
      GameState([EmptyBoard, Diagonal1, Diagonal2, Diagonal3, Diagonal4], 4, true, false)
  {
    DiagonalWinners();
    ClickOnLatest([EmptyBoard, Diagonal1, Diagonal2, Diagonal3], 1, Diagonal3, Diagonal4, [EmptyBoard, Diagonal1, Diagonal2, Diagonal3, Diagonal4]);
  }

  lemma DiagonalClick5()
    ensures AfterClick(GameState([EmptyBoard, Diagonal1, Diagonal2, Diagonal3, Diagonal4], 4, true, false), 2) ==
      GameState([EmptyBoard, Diagonal1, Diagonal2, Diagonal3, Diagonal4, Diagonal5], 5, false, false)
  {
    DiagonalWinners();
    ClickOnLatest([EmptyBoard, Diagonal1, Diagonal2, Diagonal3, Diagonal4], 2, Diagonal4, Diagonal5, [EmptyBoard, Diagonal1, Diagonal2, Diagonal3, Diagonal4, Diagonal5]);
  }

  lemma DiagonalReplay()
    ensures Replay(Initial(), [0, 4, 8, 1, 2]) ==
      GameState([EmptyBoard, Diagonal1, Diagonal2, Diagonal3, Diagonal4, Diagonal5], 5, false, false)
  {
    ReplayFive(Initial(), [0, 4, 8, 1, 2]);
    DiagonalClick1();
    DiagonalClick2();
    DiagonalClick3();
    DiagonalClick4();
    DiagonalClick5();
  }

  /** X plays 0, 8 and 2, O plays 4 and 1: no line is complete yet. */
  lemma NoWinnerGame()
    ensures var s := Replay(Initial(), [0, 4, 8, 1, 2]);
      && s.stepNumber == 5
      && s.history[5] == [Taken(X), Taken(O), Taken(X), Empty, Taken(O), Empty, Empty, Empty, Taken(X)]
      && Winner(s.history[5]) == None
      && StatusText(StatusOf(s)) == "Next player: O"
  {
    DiagonalReplay();
    DiagonalWinners();
  }

  const TopRow1: Board := [Taken(X), Empty, Empty, Empty, Empty, Empty, Empty, Empty, Empty]
  const TopRow2: Board := [Taken(X), Empty, Empty, Taken(O), Empty, Empty, Empty, Empty, Empty]
  const TopRow3: Board := [Taken(X), Taken(X), Empty, Taken(O), Empty, Empty, Empty, Empty, Empty]
  const TopRow4: Board := [Taken(X), Taken(X), Empty, Taken(O), Taken(O), Empty, Empty, Empty, Empty]
  const TopRow5: Board := [Taken(X), Taken(X), Taken(X), Taken(O), Taken(O), Empty, Empty, Empty, Empty]

  lemma TopRowWinners()
    ensures Winner(EmptyBoard) == None && Winner(TopRow1) == None && Winner(TopRow2) == None
    ensures Winner(TopRow3) == None && Winner(TopRow4) == None
    ensures Winner(TopRow5) == Some(X)
  {
  }

  lemma TopRowClick1()
    ensures AfterClick(GameState([EmptyBoard], 0, true, false), 0) ==
      GameState([EmptyBoard, TopRow1], 1, false, false)
  {
    TopRowWinners();
    ClickOnLatest([EmptyBoard], 0, EmptyBoard, TopRow1, [EmptyBoard, TopRow1]);
  }

  lemma TopRowClick2()
    ensures AfterClick(GameState([EmptyBoard, TopRow1], 1, false, false), 3) ==
      GameState([EmptyBoard, TopRow1, TopRow2], 2, true, false)
  {
    TopRowWinners();
    ClickOnLatest([EmptyBoard, TopRow1], 3, TopRow1, TopRow2, [EmptyBoard, TopRow1, TopRow2]);
  }

  lemma TopRowClick3()
    ensures AfterClick(GameState([EmptyBoard, TopRow1, TopRow2], 2, true, false), 1) ==
      GameState([EmptyBoard, TopRow1, TopRow2, TopRow3], 3, false, false)
  {
    TopRowWinners();
    ClickOnLatest([EmptyBoard, TopRow1, TopRow2], 1, TopRow2, TopRow3, [EmptyBoard, TopRow1, TopRow2, TopRow3]);
  }

  lemma TopRowClick4()
    ensures AfterClick(GameState([EmptyBoard, TopRow1, TopRow2, TopRow3], 3, false, false), 4) ==
      GameState([EmptyBoard, TopRow1, TopRow2, TopRow3, TopRow4], 4, true, false)
  {
    TopRowWinners();
    ClickOnLatest([EmptyBoard, TopRow1, TopRow2, TopRow3], 4, TopRow3, TopRow4, [EmptyBoard, TopRow1, TopRow2, TopRow3, TopRow4]);
  }

  lemma TopRowClick5()
    ensures AfterClick(GameState([EmptyBoard, TopRow1, TopRow2, TopRow3, TopRow4], 4, true, false), 2) ==
      GameState([EmptyBoard, TopRow1, TopRow2, TopRow3, TopRow4, TopRow5], 5, false, false)
  {
    TopRowWinners();
    ClickOnLatest([EmptyBoard, TopRow1, TopRow2, TopRow3, TopRow4], 2, TopRow4, TopRow5, [EmptyBoard, TopRow1, TopRow2, TopRow3, TopRow4, TopRow5]);
  }

  lemma TopRowReplay()
    ensures Replay(Initial(), [0, 3, 1, 4, 2]) ==
      GameState([EmptyBoard, TopRow1, TopRow2, TopRow3, TopRow4, TopRow5], 5, false, false)
  {
    ReplayFive(Initial(), [0, 3, 1, 4, 2]);
    TopRowClick1();
    TopRowClick2();
    TopRowClick3();
    TopRowClick4();
    TopRowClick5();
  }

  /** X completes the top row on the fifth move; the next click is ignored. */
  lemma TopRowGame()
    ensures var s := Replay(Initial(), [0, 3, 1, 4, 2]);
      && Winner(s.history[s.stepNumber]) == Some(X)
      && StatusText(StatusOf(s)) == "Winner:X"
      && AfterClick(s, 5) == s
  {
    TopRowReplay();
    TopRowWinners();
  }
}
