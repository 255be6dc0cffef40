/** What the game shows beside the board: the status line and the labels
    of the move list. Both are computed from the state alone. */
module Display {
  import opened Squares
  import opened Engine

  /** The three kinds of status line. */
  datatype Status = Won(winner: Player) | Draw | NextPlayer(player: Player)

  /** The status of a state: a winner on the viewed board first, then a
      draw when the step counter has reached the number of squares, and
      otherwise whose turn the flag says it is. */
  function StatusOf(s: GameState): (r: Status)
    requires s.stepNumber < |s.history|
  {
    match Winner(s.history[s.stepNumber])
    case Some(w) => Won(w)
    case None => if s.stepNumber == Total then Draw else NextPlayer(MarkOf(s.xIsNext))
  }

  function PlayerName(p: Player): string {
    if p == X then "X" else "O"
  }

  /** The text of the status line. */
  function StatusText(st: Status): (r: string) {
    match st
    case Won(w) => "Winner:" + PlayerName(w)
    case Draw => "It ends in a draw"
    case NextPlayer(p) => "Next player: " + PlayerName(p)
  }

  /** Different statuses are shown as different texts. */
  lemma StatusTextInjective(a: Status, b: Status)
    requires StatusText(a) == StatusText(b)
    ensures a == b
  {
    var t := StatusText(a);
    if a.Won? {
      assert t[0] == 'W';
      assert t[7] == PlayerName(a.winner)[0];
      if b.Won? { assert t[7] == PlayerName(b.winner)[0]; }
    } else if a.Draw? {
      assert t[0] == 'I';
    } else {
      assert t[0] == 'N';
      assert t[13] == PlayerName(a.player)[0];
      if b.NextPlayer? { assert t[13] == PlayerName(b.player)[0]; }
    }
  }

  /** In a reachable state the game is declared drawn exactly when the
      viewed board is full and has no winner. */
  lemma DrawIffFullWithoutWinner(s: GameState)
    requires Invariant(s)
    ensures StatusOf(s) == Draw <==>
              Winner(s.history[s.stepNumber]) == None && Full(s.history[s.stepNumber])
  {
    FullAtStep(s.history, s.stepNumber);
  }

  /** A winner is only ever shown on the latest board, and it is the
      player who moved last. */
  lemma WonOnlyAtLatest(s: GameState)
    requires Invariant(s) && StatusOf(s).Won?
    ensures s.stepNumber == |s.history| - 1
    ensures s.stepNumber > 0 && StatusOf(s).winner == PlayerAt(s.stepNumber - 1)
  {
    var b := s.history[s.stepNumber];
    WinnerSound(b, Winner(b).value);
    OwnerIsLastMover(s.history, s.stepNumber, Winner(b).value);
  }

  /** "Next player" names the player whose turn it is by the step's parity,
      and the viewed board still has a free square, so a click can be
      accepted. */
  lemma NextPlayerCanMove(s: GameState)
    requires Invariant(s) && StatusOf(s).NextPlayer?
    ensures StatusOf(s).player == PlayerAt(s.stepNumber)
    ensures exists i :: 0 <= i < Size && Legal(s.history[s.stepNumber], i)
  {
    FullAtStep(s.history, s.stepNumber);
    var b := s.history[s.stepNumber];
    var i :| 0 <= i < Size && b[i] == Empty;
    assert Legal(b, i);
  }

  function DigitChar(d: nat): char
    requires d < 10
  {
    ('0' as int + d) as char
  }

  predicate IsDigit(c: char) {
    '0' <= c <= '9'
  }

  function DigitValue(c: char): nat
    requires IsDigit(c)
  {
    c as int - '0' as int
  }

  /** The decimal numeral of `n`, as the game prints a move number. */
  function Decimal(n: nat): (r: string)
    ensures |r| >= 1 && forall k :: 0 <= k < |r| ==> IsDigit(r[k])
    decreases n
  {
    if n < 10 then [DigitChar(n)] else Decimal(n / 10) + [DigitChar(n % 10)]
  }

  function ParseDecimal(s: string): nat
    requires forall k :: 0 <= k < |s| ==> IsDigit(s[k])
  {
    if s == [] then 0 else 10 * ParseDecimal(s[..|s| - 1]) + DigitValue(s[|s| - 1])
  }

  lemma {:induction false} DecimalRoundTrip(n: nat)
    ensures ParseDecimal(Decimal(n)) == n
    decreases n
  {
    var r := Decimal(n);
    if n >= 10 {
      DecimalRoundTrip(n / 10);
      assert r[..|r| - 1] == Decimal(n / 10);
    }
  }

  /** The label of the move-list entry for step `move`. */
  function MoveLabel(move: nat): (r: string) {
    if move == 0 then "Go to game start" else "Go to move #" + Decimal(move)
  }

  /** Step 0 is labelled "Go to game start"; every other step gets
      "Go to move #" followed by its decimal numeral. The seventh character
      alone tells the two kinds apart. */
  lemma MoveLabelKind(n: nat)
    ensures n == 0 ==> MoveLabel(n) == "Go to game start"
    ensures n > 0 ==> |MoveLabel(n)| > 12 && MoveLabel(n)[..12] == "Go to move #"
    ensures n > 0 ==> MoveLabel(n)[12..] == Decimal(n)
    ensures |MoveLabel(n)| > 6 && MoveLabel(n)[6] == if n == 0 then 'g' else 'm'
  {
  }

  /** Every step gets its own label. */
  lemma MoveLabelInjective(m: nat, n: nat)
    requires MoveLabel(m) == MoveLabel(n)
    ensures m == n
  {
    var t := MoveLabel(m);
    MoveLabelKind(m);
    MoveLabelKind(n);
    if m != 0 && n != 0 {
      assert t[12..] == Decimal(m);
      assert MoveLabel(n)[12..] == Decimal(n);
      DecimalRoundTrip(m);
      DecimalRoundTrip(n);
    }
  }
}
