/** Cells, 3x3 boards, the table of winning lines and the winner check. */
module Squares {

  datatype Option<T> = None | Some(value: T)

  /** The two marks a player can place. */
  datatype Player = X | O

  /** A square is empty (`null` in the game) or holds one player's mark. */
  datatype Cell = Empty | Taken(owner: Player)

  /** Number of squares on the board; the game fixes it at 9. */
  const Size: nat := 9

  type Index = i: nat | i < Size

  /** A board is the 9 squares in row-major order. */
  type Board = b: seq<Cell> | |b| == Size
    witness [Empty, Empty, Empty, Empty, Empty, Empty, Empty, Empty, Empty]

  const EmptyBoard: Board := [Empty, Empty, Empty, Empty, Empty, Empty, Empty, Empty, Empty]

  /** Three square indices that form a row, a column or a diagonal. */
  datatype Line = Line(a: Index, b: Index, c: Index)

  /** The winning lines, in the order the winner check scans them. */
  const Lines: seq<Line> := [
    Line(0, 1, 2),
    Line(3, 4, 5),
    Line(6, 7, 8),
    Line(0, 3, 6),
    Line(1, 4, 7),
    Line(2, 5, 8),
    Line(0, 4, 8),
    Line(2, 4, 6)
  ]

  /** Player `p` owns all three squares of line `l`. */
  predicate HeldBy(b: Board, l: Line, p: Player) {
    b[l.a] == Taken(p) && b[l.b] == Taken(p) && b[l.c] == Taken(p)
  }

  /** `p` owns some line of the table. */
  ghost predicate HasLine(b: Board, p: Player) {
    exists k :: 0 <= k < |Lines| && HeldBy(b, Lines[k], p)
  }

  /** The outcome of scanning the table from line `k` on: the mark of the
      first line whose three squares are equal and non-empty. */
  function FirstWin(b: Board, k: nat): (r: Option<Player>)
    decreases |Lines| - k
  {
    if k >= |Lines| then None
    else
      var l := Lines[k];
      if b[l.a] != Empty && b[l.a] == b[l.b] && b[l.a] == b[l.c] then Some(b[l.a].owner)
      else FirstWin(b, k + 1)
  }

  /** The winner of a board, `None` when no line is complete. */
  function Winner(b: Board): (r: Option<Player>) {
    FirstWin(b, 0)
  }

  /** The winner check as the game runs it: a bounded search over the table
      with an early return. */
  method CalculateWinner(squares: Board) returns (w: Option<Player>)
    ensures w == Winner(squares)
  {
    var i := 0;
    while i < |Lines|
      invariant 0 <= i <= |Lines|
      invariant Winner(squares) == FirstWin(squares, i)
    {
      var l := Lines[i];
      if squares[l.a] != Empty && squares[l.a] == squares[l.b] && squares[l.a] == squares[l.c] {
        return Some(squares[l.a].owner);
      }
      i := i + 1;
    }
    return None;
  }

  lemma {:induction false} FirstWinCharacterised(b: Board, k: nat)
    requires k <= |Lines|
    ensures FirstWin(b, k) == None <==>
              forall j, p :: k <= j < |Lines| ==> !HeldBy(b, Lines[j], p)
    ensures forall p :: FirstWin(b, k) == Some(p) ==>
              exists j :: k <= j < |Lines| && HeldBy(b, Lines[j], p)
    decreases |Lines| - k
  {
    if k < |Lines| {
      FirstWinCharacterised(b, k + 1);
      var l := Lines[k];
      if b[l.a] != Empty && b[l.a] == b[l.b] && b[l.a] == b[l.c] {
        assert HeldBy(b, l, b[l.a].owner);
      }
    }
  }

  /** The winner check reports `p` only if `p` owns a whole line. */
  lemma WinnerSound(b: Board, p: Player)
    requires Winner(b) == Some(p)
    ensures HasLine(b, p)
  {
    FirstWinCharacterised(b, 0);
  }

  /** The winner check reports no winner exactly when no line is owned by
      either player. */
  lemma WinnerNoneIff(b: Board)
    ensures Winner(b) == None <==> !HasLine(b, X) && !HasLine(b, O)
  {
    FirstWinCharacterised(b, 0);
    if Winner(b).Some? {
      var p := Winner(b).value;
      WinnerSound(b, p);
      if p == X { assert HasLine(b, X); } else { assert HasLine(b, O); }
    }
  }

  /** When only one player owns lines, that player is the winner, whatever
      the scan order. */
  lemma WinnerOfOnlyHolder(b: Board, p: Player)
    requires HasLine(b, p)
    requires forall q :: HasLine(b, q) ==> q == p
    ensures Winner(b) == Some(p)
  {
    WinnerNoneIff(b);
    WinnerSound(b, Winner(b).value);
  }

  function Opponent(p: Player): Player {
    if p == X then O else X
  }

  function SwapCell(c: Cell): Cell {
    match c
    case Empty => Empty
    case Taken(p) => Taken(Opponent(p))
  }

  /** The board with every X replaced by O and every O by X. */
  function Swapped(b: Board): (r: Board)
    ensures forall i :: 0 <= i < Size ==> r[i] == SwapCell(b[i])
  {
    seq(Size, i requires 0 <= i < Size => SwapCell(b[i]))
  }

  /** A winner with the marks swapped. */
  function Relabel(w: Option<Player>): Option<Player> {
    if w.Some? then Some(Opponent(w.value)) else None
  }

  lemma {:induction false} FirstWinSwapped(b: Board, k: nat)
    ensures FirstWin(Swapped(b), k) == Relabel(FirstWin(b, k))
    decreases |Lines| - k
  {
    if k < |Lines| {
      FirstWinSwapped(b, k + 1);
    }
  }

  /** Relabelling the marks relabels the winner. */
  lemma WinnerSwapped(b: Board)
    ensures Winner(b) == None ==> Winner(Swapped(b)) == None
    ensures Winner(b) == Some(X) ==> Winner(Swapped(b)) == Some(O)
    ensures Winner(b) == Some(O) ==> Winner(Swapped(b)) == Some(X)
  {
    FirstWinSwapped(b, 0);
  }

  /** Number of squares holding a mark. */
  function CountMarks(s: seq<Cell>): (r: nat) {
    if s == [] then 0
    else (if s[0] != Empty then 1 else 0) + CountMarks(s[1..])
  }

  lemma {:induction false} CountMarksBounds(s: seq<Cell>)
    ensures CountMarks(s) <= |s|
    ensures CountMarks(s) == |s| <==> forall i :: 0 <= i < |s| ==> s[i] != Empty
  {
    if s != [] {
      CountMarksBounds(s[1..]);
      assert forall i :: 1 <= i < |s| ==> s[i] == s[1..][i - 1];
    }
  }

  /** Filling an empty square adds exactly one mark. */
  lemma {:induction false} CountMarksFill(s: seq<Cell>, i: nat, c: Cell)
    requires i < |s| && s[i] == Empty && c != Empty
    ensures CountMarks(s[i := c]) == CountMarks(s) + 1
  {
    if i == 0 {
      assert s[i := c][1..] == s[1..];
    } else {
      assert s[i := c][1..] == s[1..][i - 1 := c];
      CountMarksFill(s[1..], i - 1, c);
    }
  }

  /** Every square holds a mark. */
  predicate Full(b: Board) {
    forall i :: 0 <= i < Size ==> b[i] != Empty
  }
}
