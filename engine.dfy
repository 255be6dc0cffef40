/** The game's state and its three state changes: playing a square,
    travelling back to an earlier step, and flipping the order of the move
    list. The transitions are first given as functions on a state value;
    the class `Game` holds the same state in fields and its methods are
    proved to perform exactly those transitions. */
module Engine {
  import opened Squares

  /** The number of squares the status line compares the step number with
      (the game state's `total`, which nothing ever changes). */
  const Total: nat := 9

  /** The mark placed by the move made from step `step`: X from even steps. */
  function PlayerAt(step: nat): Player {
    if step % 2 == 0 then X else O
  }

  /** The mark the `xIsNext` flag designates. */
  function MarkOf(xIsNext: bool): Player {
    if xIsNext then X else O
  }

  /** A snapshot of the game's fields: the boards after each move, the step
      being viewed, whose turn the flag says it is, and the move-list order. */
  datatype GameState = GameState(history: seq<Board>, stepNumber: nat, xIsNext: bool, desc: bool)

  function Initial(): GameState {
    GameState([EmptyBoard], 0, true, false)
  }

  /** A click on square `i` of `b` is accepted: nobody has won and the
      square is free. */
  predicate Legal(b: Board, i: nat)
    requires i < Size
  {
    Winner(b) == None && b[i] == Empty
  }

  /** The state after a click on square `i`. */
  function AfterClick(s: GameState, i: nat): (r: GameState)
    requires i < Size && s.stepNumber < |s.history|
    ensures r.stepNumber < |r.history|
    ensures !Legal(s.history[s.stepNumber], i) ==> r == s
    ensures Legal(s.history[s.stepNumber], i) ==>
              && |r.history| == s.stepNumber + 2
              && r.history[..s.stepNumber + 1] == s.history[..s.stepNumber + 1]
              && r.stepNumber == s.stepNumber + 1
              && r.xIsNext == !s.xIsNext
              && r.desc == s.desc
    ensures Legal(s.history[s.stepNumber], i) ==>
              && r.history[r.stepNumber][i] == Taken(MarkOf(s.xIsNext))
              && forall j :: 0 <= j < Size && j != i ==>
                   r.history[r.stepNumber][j] == s.history[s.stepNumber][j]
  {
    var history := s.history[..s.stepNumber + 1];
    var current := history[|history| - 1];
    if Winner(current) != None || current[i] != Empty then s
    else GameState(history + [current[i := Taken(MarkOf(s.xIsNext))]], |history|, !s.xIsNext, s.desc)
  }

  /** The state after travelling to step `step`. */
  function AfterJump(s: GameState, step: nat): (r: GameState)
    requires step < |s.history|
  {
    s.(stepNumber := step, xIsNext := step % 2 == 0)
  }

  /** The state after flipping the move-list order. */
  function AfterSort(s: GameState): (r: GameState) {
    s.(desc := !s.desc)
  }

  /** `after` is `before` with exactly one square changed, from empty to `p`. */
  ghost predicate OneMove(before: Board, after: Board, p: Player) {
    exists i :: 0 <= i < Size && before[i] == Empty && after[i] == Taken(p) &&
      forall j :: 0 <= j < Size && j != i ==> after[j] == before[j]
  }

  /** A history the game can produce: it starts from the empty board, each
      entry adds one mark to its predecessor, X and O alternating, and only
      the last entry may have a winner. */
  ghost predicate ValidHistory(h: seq<Board>) {
    && |h| >= 1
    && h[0] == EmptyBoard
    && (forall k :: 0 < k < |h| ==> OneMove(h[k - 1], h[k], PlayerAt(k - 1)))
    && (forall k :: 0 <= k < |h| - 1 ==> Winner(h[k]) == None)
  }

  /** The invariant of the game state. */
  ghost predicate Invariant(s: GameState) {
    && ValidHistory(s.history)
    && s.stepNumber < |s.history|
    && s.xIsNext == (s.stepNumber % 2 == 0)
  }

  lemma InitialInvariant()
    ensures Invariant(Initial())
  {
  }

  /** Truncating a valid history keeps it valid. */
  lemma PrefixValid(h: seq<Board>, n: nat)
    requires ValidHistory(h) && 1 <= n <= |h|
    ensures ValidHistory(h[..n])
  {
    var p := h[..n];
    assert forall k :: 0 <= k < n ==> p[k] == h[k];
  }

  /** Adding the next player's mark to a board without winner extends a
      valid history. */
  lemma AppendValid(h: seq<Board>, b: Board)
    requires ValidHistory(h)
    requires Winner(h[|h| - 1]) == None
    requires OneMove(h[|h| - 1], b, PlayerAt(|h| - 1))
    ensures ValidHistory(h + [b])
  {
    var e := h + [b];
    forall k | 0 < k < |e|
      ensures OneMove(e[k - 1], e[k], PlayerAt(k - 1))
    {
      if k < |h| {
        assert e[k - 1] == h[k - 1] && e[k] == h[k];
      }
    }
    forall k | 0 <= k < |e| - 1
      ensures Winner(e[k]) == None
    {
      assert e[k] == h[k];
    }
  }

  /** Writing `p` into an empty square is one move by `p`. */
  lemma MarkIsOneMove(b: Board, i: nat, p: Player)
    requires i < Size && b[i] == Empty
    ensures OneMove(b, b[i := Taken(p)], p)
  {
    assert b[i := Taken(p)][i] == Taken(p);
  }

  /** A click keeps the invariant: the appended board adds the mark of the
      player whose turn it is, and it is appended to a board without winner. */
  lemma ClickKeepsInvariant(s: GameState, i: nat)
    requires i < Size && Invariant(s)
    ensures Invariant(AfterClick(s, i))
  {
    var n := s.stepNumber;
    var current := s.history[n];
    if Legal(current, i) {
      var kept := s.history[..n + 1];
      PrefixValid(s.history, n + 1);
      assert kept[n] == current;
      var b := current[i := Taken(PlayerAt(n))];
      MarkIsOneMove(current, i, PlayerAt(n));
      AppendValid(kept, b);
      assert AfterClick(s, i).history == kept + [b];
    }
  }

  lemma JumpRestoresInvariant(s: GameState, step: nat)
    requires ValidHistory(s.history) && step < |s.history|
    ensures Invariant(AfterJump(s, step))
  {
  }

  /** Flipping the order twice restores the state. */
  lemma SortTwice(s: GameState)
    ensures AfterSort(AfterSort(s)) == s
    ensures Invariant(AfterSort(s)) == Invariant(s)
  {
  }

  /** A click after travelling back to step `k` discards the later entries. */
  lemma JumpThenClick(s: GameState, k: nat, i: nat)
    requires Invariant(s) && k < |s.history| && i < Size
    requires Legal(s.history[k], i)
    ensures var r := AfterClick(AfterJump(s, k), i);
      && |r.history| == k + 2
      && r.history[..k + 1] == s.history[..k + 1]
      && r.history[k + 1][i] == Taken(PlayerAt(k))
  {
  }

  /** The board at step `k` holds exactly `k` marks. */
  lemma {:induction false} MarksAtStep(h: seq<Board>, k: nat)
    requires ValidHistory(h) && k < |h|
    ensures CountMarks(h[k]) == k
  {
    if k == 0 {
      assert h[0] == EmptyBoard;
    } else {
      MarksAtStep(h, k - 1);
      var i :| 0 <= i < Size && h[k - 1][i] == Empty && h[k][i] == Taken(PlayerAt(k - 1)) &&
        forall j :: 0 <= j < Size && j != i ==> h[k][j] == h[k - 1][j];
      assert h[k] == h[k - 1][i := Taken(PlayerAt(k - 1))];
      CountMarksFill(h[k - 1], i, Taken(PlayerAt(k - 1)));
    }
  }

  /** A game has at most nine moves, so the history has at most ten boards. */
  lemma HistoryBounded(h: seq<Board>)
    requires ValidHistory(h)
    ensures |h| <= Size + 1
  {
    MarksAtStep(h, |h| - 1);
    CountMarksBounds(h[|h| - 1]);
  }

  /** The step counter reaches the number of squares exactly when the
      board is full. */
  lemma FullAtStep(h: seq<Board>, k: nat)
    requires ValidHistory(h) && k < |h|
    ensures Full(h[k]) <==> k == Total
  {
    MarksAtStep(h, k);
    CountMarksBounds(h[k]);
  }

  /** A mark, once placed, stays in every later entry. */
  lemma {:induction false} WriteOnce(h: seq<Board>, j: nat, k: nat, c: nat)
    requires ValidHistory(h) && j <= k < |h| && c < Size
    requires h[j][c] != Empty
    ensures h[k][c] == h[j][c]
  {
    if j < k {
      WriteOnce(h, j, k - 1, c);
      assert OneMove(h[k - 1], h[k], PlayerAt(k - 1));
    }
  }

  /** Whoever owns a line on a board of the history placed the last mark
      on it. */
  lemma OwnerIsLastMover(h: seq<Board>, k: nat, p: Player)
    requires ValidHistory(h) && k < |h|
    requires HasLine(h[k], p)
    ensures k > 0 && p == PlayerAt(k - 1)
  {
    var m :| 0 <= m < |Lines| && HeldBy(h[k], Lines[m], p);
    var l := Lines[m];
    if k > 0 {
      assert Winner(h[k - 1]) == None;
      WinnerNoneIff(h[k - 1]);
      assert !HeldBy(h[k - 1], l, p);
      var i :| 0 <= i < Size && h[k - 1][i] == Empty && h[k][i] == Taken(PlayerAt(k - 1)) &&
        forall j :: 0 <= j < Size && j != i ==> h[k][j] == h[k - 1][j];
      assert i == l.a || i == l.b || i == l.c;
    }
  }

  /** On a board of the history at most one player owns lines, so the
      winner does not depend on the order of the line table. */
  lemma WinnerIsLineOwner(h: seq<Board>, k: nat, p: Player)
    requires ValidHistory(h) && k < |h|
    requires HasLine(h[k], p)
    ensures Winner(h[k]) == Some(p)
  {
    forall q | HasLine(h[k], q)
      ensures q == p
    {
      OwnerIsLastMover(h, k, q);
      OwnerIsLastMover(h, k, p);
    }
    WinnerOfOnlyHolder(h[k], p);
  }

  /** The game's component: the fields the source keeps in its state,
      updated synchronously by each handler. */
  class Game {
    var history: seq<Board>
    var stepNumber: nat
    var xIsNext: bool
    var desc: bool

    function State(): GameState
      reads this
    {
      GameState(history, stepNumber, xIsNext, desc)
    }

    ghost predicate Valid()
      reads this
    {
      Invariant(State())
    }

    constructor ()
      ensures Valid()
      ensures State() == Initial()
    {
      history := [EmptyBoard];
      stepNumber := 0;
      xIsNext := true;
      desc := false;
    }

    /** Flips the order in which the move list is shown. */
    method HistorySort()
      modifies this
      ensures State() == AfterSort(old(State()))
      ensures Valid() == old(Valid())
    {
      desc := !desc;
    }

    /** Plays square `i` on the board being viewed; ignored when that board
        has a winner or the square is taken. */
    method HandleClick(i: nat)
      requires i < Size && Valid()
      modifies this
      ensures Valid()
      ensures State() == AfterClick(old(State()), i)
    {
      ghost var before := State();
      ghost var after := AfterClick(before, i);
      ClickKeepsInvariant(before, i);
      var h := history[..stepNumber + 1];
      var current := h[|h| - 1];
      assert current == before.history[before.stepNumber];
      var squares := new Cell[Size](k requires 0 <= k < Size => current[k]);
      assert squares[..] == current;
      var winner := CalculateWinner(squares[..]);
      if winner != None || squares[i] != Empty {
        assert !Legal(current, i);
        return;
      }
      var mark := if xIsNext then X else O;
      squares[i] := Taken(mark);
      ghost var next: Board := squares[..];
      assert next == current[i := Taken(mark)];
      history := h + [squares[..]];
      stepNumber := |h|;
      xIsNext := !xIsNext;
      assert State() == GameState(h + [next], |h|, !before.xIsNext, before.desc);
    }

    /** Views the board after `step` moves; the history is kept. */
    method JumpTo(step: nat)
      requires step < |history| && Valid()
      modifies this
      ensures Valid()
      ensures State() == AfterJump(old(State()), step)
    {
      stepNumber := step;
      xIsNext := step % 2 == 0;
    }
  }
}
