/**
 * The guard walker of 2024/06_2024: a guard stands on a board of open
 * ('.'), blocked ('#') and visited ('x') cells.  Each tick it marks the
 * cell it stands on, looks for the first heading (straight on, then one,
 * two, three right turns) whose cell ahead is not blocked, turns to it
 * and steps; the walk ends when that look reaches a cell off the board
 * before any open one, without turning toward it.
 */
module GuardWalk {
  import opened Wrappers

  const GuardMark: char := '^'
  const Blocked: char := '#'
  const Visited: char := 'x'

  // ------------------------------------------------------------------
  // Headings and their cyclic arithmetic

  /** The four headings, in their clockwise order. */
  datatype Heading = North | East | South | West

  /** Position of a heading in the tuple ("North", "East", "South", "West"). */
  function Index(h: Heading): (i: nat)
    ensures i < 4
  {
    match h
    case North => 0
    case East => 1
    case South => 2
    case West => 3
  }

  function FromIndex(i: nat): (h: Heading)
    requires i < 4
    ensures Index(h) == i
  {
    if i == 0 then North else if i == 1 then East else if i == 2 then South else West
  }

  /** The heading `k` quarter turns clockwise of `h` (index (i + k) mod 4; `k` may be negative). */
  function Clockwise(h: Heading, k: int): Heading
  {
    FromIndex((Index(h) + k) % 4)
  }

  /** The heading `k` quarter turns counter-clockwise of `h` (index (i - k) mod 4). */
  function Counterclockwise(h: Heading, k: int): Heading
  {
    FromIndex((Index(h) - k) % 4)
  }

  lemma ModShift(x: int, q: int)
    ensures (x + 4 * q) % 4 == x % 4
  {
  }

  lemma ModCongruent(x: int, y: int)
    ensures (x % 4 + y) % 4 == (x + y) % 4
  {
    var q := x / 4;
    assert x == 4 * q + x % 4;
    ModShift(x % 4 + y, q);
  }

  /** Turning `a` then `b` quarter turns clockwise is turning `a + b`. */
  lemma TurnsCompose(h: Heading, a: int, b: int)
    ensures Clockwise(Clockwise(h, a), b) == Clockwise(h, a + b)
  {
    ModCongruent(Index(h) + a, b);
  }

  /** A right turn of `k` followed by a left turn of `k` restores the heading. */
  lemma RightThenLeft(h: Heading, k: int)
    ensures Counterclockwise(Clockwise(h, k), k) == h
  {
    ModCongruent(Index(h) + k, -k);
  }

  /** No turn, or four turns either way, leave the heading as it was. */
  lemma FullTurns(h: Heading)
    ensures Clockwise(h, 0) == h
    ensures Clockwise(h, 4) == h && Counterclockwise(h, 4) == h
  {
  }

  /** The turns of the source's own cases: three, four and seven right turns, two, four and seven left turns. */
  lemma TurnExamples()
    ensures Clockwise(West, 3) == South && Clockwise(South, 4) == South && Clockwise(South, 7) == East
    ensures Counterclockwise(East, 2) == West && Counterclockwise(West, 4) == West && Counterclockwise(West, 7) == North
  {
    assert (3 + 3) % 4 == 2 && (2 + 4) % 4 == 2 && (2 + 7) % 4 == 1;
    assert (1 - 2) % 4 == 3 && (3 - 4) % 4 == 3 && (3 - 7) % 4 == 0;
  }

  /** Row offset of one step: North decrements the row, South increments it. */
  function RowStep(h: Heading): int
  {
    match h
    case North => -1
    case South => 1
    case _ => 0
  }

  /** Column offset of one step: East increments the column, West decrements it. */
  function ColStep(h: Heading): int
  {
    match h
    case East => 1
    case West => -1
    case _ => 0
  }

  // ------------------------------------------------------------------
  // The board as a value

  /** Every row is as wide as the first one. */
  predicate Rectangular(b: seq<seq<char>>)
  {
    forall i | 0 <= i < |b| :: |b[i]| == |b[0]|
  }

  /** Number of visited cells in one row. */
  function CountRow(s: seq<char>): (n: nat)
    ensures n <= |s|
  {
    if s == [] then 0 else (if s[0] == Visited then 1 else 0) + CountRow(s[1..])
  }

  /** Number of visited cells on the whole board. */
  function CountVisited(b: seq<seq<char>>): nat
  {
    if b == [] then 0 else CountRow(b[0]) + CountVisited(b[1..])
  }

  /** The board with cell (r, c) marked visited. */
  function MarkCell(b: seq<seq<char>>, r: int, c: int): (m: seq<seq<char>>)
    requires 0 <= r < |b| && 0 <= c < |b[r]|
    ensures |m| == |b| && forall i | 0 <= i < |b| :: |m[i]| == |b[i]|
    ensures m[r][c] == Visited
    ensures forall i, j | 0 <= i < |b| && 0 <= j < |b[i]| && (i != r || j != c) :: m[i][j] == b[i][j]
  {
    b[r := b[r][c := Visited]]
  }

  lemma {:induction false} CountRowMark(s: seq<char>, c: int)
    requires 0 <= c < |s|
    ensures CountRow(s[c := Visited]) == CountRow(s) + (if s[c] == Visited then 0 else 1)
  {
    if c > 0 {
      CountRowMark(s[1..], c - 1);
      assert s[c := Visited][1..] == s[1..][c - 1 := Visited];
    } else {
      assert s[c := Visited][1..] == s[1..];
    }
  }

  /** Marking a cell raises the visited count by one exactly when the cell was not yet visited. */
  lemma {:induction false} MarkCellCount(b: seq<seq<char>>, r: int, c: int)
    requires 0 <= r < |b| && 0 <= c < |b[r]|
    ensures CountVisited(MarkCell(b, r, c)) == CountVisited(b) + (if b[r][c] == Visited then 0 else 1)
  {
    if r > 0 {
      MarkCellCount(b[1..], r - 1, c);
      assert MarkCell(b, r, c)[1..] == MarkCell(b[1..], r - 1, c);
    } else {
      CountRowMark(b[0], c);
      assert MarkCell(b, r, c)[1..] == b[1..];
    }
  }

  /** Marking is idempotent. */
  lemma MarkTwice(b: seq<seq<char>>, r: int, c: int)
    requires 0 <= r < |b| && 0 <= c < |b[r]|
    ensures MarkCell(MarkCell(b, r, c), r, c) == MarkCell(b, r, c)
    ensures CountVisited(MarkCell(MarkCell(b, r, c), r, c)) == CountVisited(MarkCell(b, r, c))
  {
    var m := MarkCell(b, r, c);
    assert m[r][c := Visited] == m[r];
    assert m[r := m[r]] == m;
  }

  /** Marking the cell the guard stands on, which is not blocked, extends its trail. */
  lemma TrailMark(start: seq<seq<char>>, b: seq<seq<char>>, r: int, c: int)
    requires Trail(start, b) && 0 <= r < |b| && 0 <= c < |b[r]| && b[r][c] != Blocked
    ensures Trail(start, MarkCell(b, r, c))
  {
  }

  /** A board never holds more visited cells than it has cells. */
  lemma {:induction false} CountVisitedBound(b: seq<seq<char>>, width: nat)
    requires forall i | 0 <= i < |b| :: |b[i]| == width
    ensures CountVisited(b) <= |b| * width
  {
    if b != [] {
      CountVisitedBound(b[1..], width);
      assert |b| * width == width + (|b| - 1) * width;
    }
  }

  /**
   * `after` is `before` with some cells that were not blocked marked
   * visited; nothing else differs.
   */
  ghost predicate Trail(before: seq<seq<char>>, after: seq<seq<char>>)
  {
    && |after| == |before|
    && (forall i | 0 <= i < |before| :: |after[i]| == |before[i]|)
    && forall i, j | 0 <= i < |before| && 0 <= j < |before[i]| ::
         after[i][j] == before[i][j] || (before[i][j] != Blocked && after[i][j] == Visited)
  }

  // ------------------------------------------------------------------
  // Finding the guard

  /** (r, c) holds the first '^' of the board in row-major order. */
  ghost predicate FirstGuardMark(board: seq<seq<char>>, r: int, c: int)
  {
    && 0 <= r < |board| && 0 <= c < |board[r]| && board[r][c] == GuardMark
    && (forall i, j | 0 <= i < r && 0 <= j < |board[i]| :: board[i][j] != GuardMark)
    && (forall j | 0 <= j < c :: board[r][j] != GuardMark)
  }

  /** Scans the board row by row for the guard's start marker; None stands for "Guard not found!". */
  method FindSelf(board: seq<seq<char>>) returns (pos: Option<(int, int)>)
    ensures pos.Some? ==> FirstGuardMark(board, pos.value.0, pos.value.1)
    ensures pos.None? ==> forall i, j | 0 <= i < |board| && 0 <= j < |board[i]| :: board[i][j] != GuardMark
  {
    var r := 0;
    while r < |board|
      invariant 0 <= r <= |board|
      invariant forall i, j | 0 <= i < r && 0 <= j < |board[i]| :: board[i][j] != GuardMark
    {
      var c := 0;
      while c < |board[r]|
        invariant 0 <= c <= |board[r]|
        invariant forall j | 0 <= j < c :: board[r][j] != GuardMark
      {
        if board[r][c] == GuardMark {
          return Some((r, c));
        }
        c := c + 1;
      }
      r := r + 1;
    }
    return None;
  }

  // ------------------------------------------------------------------
  // The walk as a value

  /** What a look around reports: the cell ahead is off the board, a clear heading `turns` right turns away, or none. */
  datatype PeekResult = Exit | Clear(turns: nat) | Enclosed

  /** How a march ends; Trapped stands for MapError, LimitReached for the implicit None. */
  datatype MarchOutcome = Exited(uniqueSteps: nat) | LimitReached | Trapped | OutOfFuel

  function Max(a: int, b: int): int
  {
    if a < b then b else a
  }

  /** A guard's state as a value: the board, the cell it stands on and the way it faces. */
  datatype Walker = Walker(board: seq<seq<char>>, row: int, col: int, heading: Heading)

  /** Row r and column c lie on the board; the width is taken from the first row. */
  predicate OnBoard(b: seq<seq<char>>, r: int, c: int)
  {
    0 <= r < |b| && 0 <= c < |b[0]|
  }

  /** The board is rectangular and the walker stands on it. */
  predicate Standing(w: Walker)
  {
    Rectangular(w.board) && OnBoard(w.board, w.row, w.col)
  }

  /** One quarter turn clockwise. */
  function Right(h: Heading): Heading
  {
    match h
    case North => East
    case East => South
    case South => West
    case West => North
  }

  /** A quarter turn on top of `k` quarter turns is `k + 1` quarter turns. */
  lemma RightIsOneMore(h: Heading, k: int)
    ensures Right(Clockwise(h, k)) == Clockwise(h, k + 1)
  {
    TurnsCompose(h, k, 1);
  }

  /** The cell one step from the walker toward heading `h`. */
  function Ahead(w: Walker, h: Heading): (int, int)
  {
    (w.row + RowStep(h), w.col + ColStep(h))
  }

  /** The cell toward `h` lies off the board. */
  predicate OffBoardToward(w: Walker, h: Heading)
  {
    !OnBoard(w.board, Ahead(w, h).0, Ahead(w, h).1)
  }

  /** The cell toward `h` is on the board and blocked. */
  predicate BlockedToward(w: Walker, h: Heading)
    requires Rectangular(w.board)
  {
    var a := Ahead(w, h);
    OnBoard(w.board, a.0, a.1) && w.board[a.0][a.1] == Blocked
  }

  /** The cell toward `h` is on the board and not blocked. */
  predicate OpenToward(w: Walker, h: Heading)
    requires Rectangular(w.board)
  {
    var a := Ahead(w, h);
    OnBoard(w.board, a.0, a.1) && w.board[a.0][a.1] != Blocked
  }

  /** The cells ahead after `from`, `from + 1`, ..., `to - 1` right turns are all blocked. */
  predicate BlockedFrom(w: Walker, from: int, to: int)
    requires Rectangular(w.board)
  {
    forall t | from <= t < to :: BlockedToward(w, Clockwise(w.heading, t))
  }

  /**
   * The look around from `turnCount` right turns on, `probe` being the
   * heading `turnCount` right turns away: the first heading whose cell
   * ahead is open gives Clear, one whose cell ahead is off the board gives
   * Exit, and four blocked headings give Enclosed.
   */
  function Look(w: Walker, turnCount: nat, probe: Heading): (p: PeekResult)
    requires Rectangular(w.board)
    ensures p.Clear? ==> turnCount <= p.turns < 4
    decreases 4 - turnCount
  {
    if turnCount >= 4 then Enclosed
    else if OffBoardToward(w, probe) then Exit
    else if BlockedToward(w, probe) then Look(w, turnCount + 1, Right(probe))
    else Clear(turnCount)
  }

  /** Clear names the first open heading: the headings before it are blocked. */
  lemma {:induction false} LookClear(w: Walker, turnCount: nat, probe: Heading)
    requires Rectangular(w.board) && probe == Clockwise(w.heading, turnCount) && Look(w, turnCount, probe).Clear?
    ensures var k := Look(w, turnCount, probe).turns;
      OpenToward(w, Clockwise(w.heading, k)) && BlockedFrom(w, turnCount, k)
    decreases 4 - turnCount
  {
    if BlockedToward(w, probe) {
      RightIsOneMore(w.heading, turnCount);
      LookClear(w, turnCount + 1, Right(probe));
    }
  }

  /** Exit comes from a heading whose cell ahead is off the board, after blocked ones only. */
  lemma {:induction false} LookExit(w: Walker, turnCount: nat, probe: Heading)
    requires Rectangular(w.board) && probe == Clockwise(w.heading, turnCount) && Look(w, turnCount, probe).Exit?
    ensures exists k | turnCount <= k < 4 :: OffBoardToward(w, Clockwise(w.heading, k)) && BlockedFrom(w, turnCount, k)
    decreases 4 - turnCount
  {
    if OffBoardToward(w, probe) {
      assert BlockedFrom(w, turnCount, turnCount);
    } else {
      RightIsOneMore(w.heading, turnCount);
      LookExit(w, turnCount + 1, Right(probe));
      var k :| turnCount + 1 <= k < 4 && OffBoardToward(w, Clockwise(w.heading, k)) && BlockedFrom(w, turnCount + 1, k);
      assert BlockedFrom(w, turnCount, k);
    }
  }

  /** Enclosed exactly when the cells ahead in all remaining headings are blocked. */
  lemma {:induction false} LookEnclosed(w: Walker, turnCount: nat, probe: Heading)
    requires Rectangular(w.board) && probe == Clockwise(w.heading, turnCount)
    ensures Look(w, turnCount, probe).Enclosed? <==> BlockedFrom(w, turnCount, 4)
    decreases 4 - turnCount
  {
    if turnCount < 4 {
      if OffBoardToward(w, probe) {
        assert !BlockedToward(w, probe);
      } else if BlockedToward(w, probe) {
        RightIsOneMore(w.heading, turnCount);
        LookEnclosed(w, turnCount + 1, Right(probe));
        assert BlockedFrom(w, turnCount, 4) <==> BlockedFrom(w, turnCount + 1, 4);
      } else {
        assert Look(w, turnCount, probe) == Clear(turnCount);
      }
    }
  }

  /** The walker after marking the cell it stands on, when that cell was not visited yet. */
  function Visit(w: Walker): (v: Walker)
    requires Standing(w)
    ensures Standing(v)
  {
    if w.board[w.row][w.col] != Visited then w.(board := MarkCell(w.board, w.row, w.col)) else w
  }

  /** The walker turned toward `h` and moved one cell, onto the open cell there. */
  function Advance(w: Walker, h: Heading): (a: Walker)
    requires Rectangular(w.board) && OpenToward(w, h)
    ensures Standing(a) && a.board == w.board && a.board[a.row][a.col] != Blocked
  {
    w.(heading := h, row := w.row + RowStep(h), col := w.col + ColStep(h))
  }

  /** The result of one pass of the march: the walker, the count of new cells, and how the march ended, if it did. */
  datatype Pass = Pass(walker: Walker, count: nat, stop: Option<MarchOutcome>)

  /**
   * One pass of the march: mark the cell if new (counting it), look
   * around, then leave (Exited), give up (Trapped) or turn and step.
   */
  function Tick(w: Walker, uniqueSteps: nat): (p: Pass)
    requires Standing(w)
    ensures Standing(p.walker)
  {
    var v := Visit(w);
    var u := if w.board[w.row][w.col] != Visited then uniqueSteps + 1 else uniqueSteps;
    match Look(v, 0, v.heading)
    case Exit => Pass(v, u, Some(Exited(u)))
    case Enclosed => Pass(v, u, Some(Trapped))
    case Clear(k) =>
      FullTurns(v.heading);
      LookClear(v, 0, v.heading);
      Pass(Advance(v, Clockwise(v.heading, k)), u, None)
  }

  /** A pass counts exactly the cell it marks, the one the walker stood on if it was new. */
  lemma TickCounts(w: Walker, u: nat)
    requires Standing(w)
    ensures var p := Tick(w, u);
      && (p.count == if w.board[w.row][w.col] != Visited then u + 1 else u)
      && CountVisited(p.walker.board) == CountVisited(w.board) + p.count - u
  {
    MarkCellCount(w.board, w.row, w.col);
  }

  /** A pass marks only the unblocked cell the walker stands on, and moves only onto an unblocked cell. */
  lemma TickTrail(w: Walker, u: nat)
    requires Standing(w) && w.board[w.row][w.col] != Blocked
    ensures var p := Tick(w, u);
      Trail(w.board, p.walker.board) && p.walker.board[p.walker.row][p.walker.col] != Blocked
  {
    TrailMark(w.board, w.board, w.row, w.col);
  }

  /**
   * A pass ends the march only with Exited, carrying the count, on a
   * visited cell whose look around reaches an off-board cell after blocked
   * ones only, or with Trapped, enclosed.
   */
  lemma TickEnds(w: Walker, u: nat)
    requires Standing(w)
    ensures var p := Tick(w, u);
      p.stop.Some? ==> p.stop == Some(Exited(p.count)) || p.stop == Some(Trapped)
    ensures var p := Tick(w, u);
      p.stop == Some(Exited(p.count)) ==> p.walker.board[p.walker.row][p.walker.col] == Visited && Look(p.walker, 0, p.walker.heading) == Exit
    ensures var p := Tick(w, u); p.stop == Some(Trapped) ==> Look(p.walker, 0, p.walker.heading) == Enclosed
  {
  }

  /**
   * The march as a function: while fewer than `limit` cells were newly
   * marked, make one pass; each pass costs one unit of `fuel`.  Returns
   * the outcome and the final walker.
   */
  function Run(w: Walker, uniqueSteps: nat, limit: int, fuel: nat): (MarchOutcome, Walker)
    requires Standing(w)
    decreases fuel
  {
    if uniqueSteps >= limit then (LimitReached, w)
    else if fuel == 0 then (OutOfFuel, w)
    else
      var p := Tick(w, uniqueSteps);
      if p.stop.Some? then (p.stop.value, p.walker) else Run(p.walker, p.count, limit, fuel - 1)
  }

  /** `r` is the result of the march from `w` with count `u`. */
  predicate IsRun(w: Walker, u: nat, limit: int, fuel: nat, r: (MarchOutcome, Walker))
    requires Standing(w)
  {
    r == Run(w, u, limit, fuel)
  }

  /** One pass of a march that has neither hit its limit nor run out of fuel. */
  lemma RunPass(w: Walker, u: nat, limit: int, fuel: nat)
    requires Standing(w) && u < limit && fuel > 0
    ensures var p := Tick(w, u);
      Run(w, u, limit, fuel) == if p.stop.Some? then (p.stop.value, p.walker) else Run(p.walker, p.count, limit, fuel - 1)
  {
  }

  lemma TrailTrans(a: seq<seq<char>>, b: seq<seq<char>>, c: seq<seq<char>>)
    requires Trail(a, b) && Trail(b, c)
    ensures Trail(a, c)
  {
  }

  /**
   * The walker only ever stands on cells that are not blocked, and only
   * ever marks such cells; `r` is the march's result.
   */
  lemma {:induction false} RunStaysOnTrail(w: Walker, u: nat, limit: int, fuel: nat, r: (MarchOutcome, Walker))
    requires Standing(w) && w.board[w.row][w.col] != Blocked && IsRun(w, u, limit, fuel, r)
    ensures Standing(r.1) && Trail(w.board, r.1.board)
    ensures r.1.board[r.1.row][r.1.col] != Blocked
    decreases fuel
  {
    if u < limit && fuel > 0 {
      var p := Tick(w, u);
      TickTrail(w, u);
      if p.stop.None? {
        RunStaysOnTrail(p.walker, p.count, limit, fuel - 1, r);
        TrailTrans(w.board, p.walker.board, r.1.board);
      }
    }
  }

  /**
   * The count starts at `u`, grows by one for each newly marked cell, and
   * never passes the limit; Exited reports it.
   */
  lemma {:induction false} RunCounts(w: Walker, u: nat, limit: int, fuel: nat, r: (MarchOutcome, Walker))
    requires Standing(w) && u <= Max(limit, 0) && IsRun(w, u, limit, fuel, r)
    ensures CountVisited(w.board) <= CountVisited(r.1.board) <= CountVisited(w.board) + Max(limit, 0) - u
    ensures r.0.Exited? ==> r.0.uniqueSteps == u + CountVisited(r.1.board) - CountVisited(w.board)
    decreases fuel
  {
    if u < limit && fuel > 0 {
      var p := Tick(w, u);
      TickCounts(w, u);
      if p.stop.None? {
        RunCounts(p.walker, p.count, limit, fuel - 1, r);
      }
    }
  }

  /** LimitReached means exactly `limit` cells were newly marked. */
  lemma {:induction false} RunReachesLimit(w: Walker, u: nat, limit: int, fuel: nat, r: (MarchOutcome, Walker))
    requires Standing(w) && u <= Max(limit, 0) && IsRun(w, u, limit, fuel, r)
    ensures r.0.LimitReached? ==> CountVisited(r.1.board) == CountVisited(w.board) + Max(limit, 0) - u
    decreases fuel
  {
    if u < limit && fuel > 0 {
      var p := Tick(w, u);
      TickCounts(w, u);
      if p.stop.None? {
        RunReachesLimit(p.walker, p.count, limit, fuel - 1, r);
      }
    }
  }

  /** A march that may count and starts on a cell not yet visited counts that cell. */
  lemma RunCountsFirstCell(w: Walker, u: nat, limit: int, fuel: nat, r: (MarchOutcome, Walker))
    requires Standing(w) && u < limit && w.board[w.row][w.col] != Visited && IsRun(w, u, limit, fuel, r)
    ensures r.0.Exited? ==> r.0.uniqueSteps > u
  {
    if fuel > 0 {
      var p := Tick(w, u);
      TickCounts(w, u);
      if p.stop.None? {
        RunCounts(p.walker, p.count, limit, fuel - 1, r);
      }
    }
  }

  /**
   * Exited leaves the walker on a visited cell whose look around reaches an
   * off-board cell after blocked ones only (it does not turn toward it);
   * Trapped leaves it enclosed.
   */
  lemma {:induction false} RunEnds(w: Walker, u: nat, limit: int, fuel: nat, r: (MarchOutcome, Walker))
    requires Standing(w) && IsRun(w, u, limit, fuel, r)
    ensures r.0.Exited? ==> Standing(r.1) && r.1.board[r.1.row][r.1.col] == Visited && Look(r.1, 0, r.1.heading) == Exit
    ensures r.0.Trapped? ==> Standing(r.1) && Look(r.1, 0, r.1.heading) == Enclosed
    decreases fuel
  {
    if u < limit && fuel > 0 {
      var p := Tick(w, u);
      TickEnds(w, u);
      if p.stop.None? {
        RunEnds(p.walker, p.count, limit, fuel - 1, r);
      }
    }
  }

  /** A march that exits never counts more cells than the board has. */
  lemma RunFitsBoard(w: Walker, limit: int, fuel: nat, r: (MarchOutcome, Walker))
    requires Standing(w) && w.board[w.row][w.col] != Blocked && IsRun(w, 0, limit, fuel, r)
    ensures r.0.Exited? ==> r.0.uniqueSteps <= |w.board| * |w.board[0]|
  {
    if r.0.Exited? {
      RunStaysOnTrail(w, 0, limit, fuel, r);
      RunCounts(w, 0, limit, fuel, r);
      CountVisitedBound(r.1.board, |w.board[0]|);
    }
  }

  /**
   * Fuel only cuts a march short: one that ended within `fuel` passes, with
   * result `r`, ends the same way given more fuel, with result `r'`.
   */
  lemma {:induction false} RunMoreFuel(w: Walker, u: nat, limit: int, fuel: nat, more: nat, r: (MarchOutcome, Walker), r': (MarchOutcome, Walker))
    requires Standing(w) && IsRun(w, u, limit, fuel, r) && !r.0.OutOfFuel? && IsRun(w, u, limit, fuel + more, r')
    ensures r' == r
    decreases fuel
  {
    if u < limit {
      var p := Tick(w, u);
      if p.stop.None? {
        RunMoreFuel(p.walker, p.count, limit, fuel - 1, more, r, r');
      }
    }
  }

  // ------------------------------------------------------------------
  // The guard

  class Guard {
    var board: seq<seq<char>>
    var row: int
    var col: int
    var heading: Heading

    ghost predicate Valid()
      reads this
    {
      |board| > 0 && Rectangular(board)
    }

    /** The guard's state as a value. */
    function Snapshot(): Walker
      reads this
    {
      Walker(board, row, col, heading)
    }

    constructor At(board: seq<seq<char>>, row: int, col: int)
      ensures this.board == board && this.row == row && this.col == col && heading == North
    {
      this.board := board;
      this.row := row;
      this.col := col;
      heading := North;
    }

    /** Places a guard, facing North, on the board's first '^'; None when there is none. */
    static method Create(board: seq<seq<char>>) returns (g: Option<Guard>)
      requires Rectangular(board)
      ensures g.None? <==> forall i, j | 0 <= i < |board| && 0 <= j < |board[i]| :: board[i][j] != GuardMark
      ensures g.Some? ==> fresh(g.value) && g.value.Valid() && g.value.board == board
      ensures g.Some? ==> g.value.heading == North && FirstGuardMark(board, g.value.row, g.value.col)
    {
      var pos := FindSelf(board);
      if pos.None? {
        return None;
      }
      var guard := new Guard.At(board, pos.value.0, pos.value.1);
      return Some(guard);
    }

    /** Row r and column c lie on the board; the width is taken from the first row. */
    function InBounds(r: int, c: int): (b: bool)
      reads this
      requires Valid()
      ensures b <==> 0 <= r < |board| && 0 <= c < |board[r]|
    {
      0 <= r < |board| && 0 <= c < |board[0]|
    }

    /** The heading `turnCount` right turns away, without turning. */
    function ShoulderCheckRight(turnCount: int): (h: Heading)
      reads this
      ensures h == Clockwise(heading, turnCount)
    {
      if turnCount == 0 then heading else FromIndex((Index(heading) + turnCount) % 4)
    }

    /** The heading `turnCount` left turns away, without turning. */
    function ShoulderCheckLeft(turnCount: int): (h: Heading)
      reads this
      ensures h == Counterclockwise(heading, turnCount)
    {
      if turnCount == 0 then heading else FromIndex((Index(heading) - turnCount) % 4)
    }

    method TurnRight(turnCount: int)
      modifies this`heading
      ensures heading == Clockwise(old(heading), turnCount)
    {
      if turnCount == 0 {
        return;
      }
      heading := FromIndex((Index(heading) + turnCount) % 4);
    }

    method TurnLeft(turnCount: int)
      modifies this`heading
      ensures heading == Counterclockwise(old(heading), turnCount)
    {
      if turnCount == 0 {
        return;
      }
      heading := FromIndex((Index(heading) - turnCount) % 4);
    }

    /** Moves `steps` cells along the heading; heading and board stay as they are. */
    method Step(steps: int)
      modifies this`row, this`col
      ensures row == old(row) + steps * RowStep(heading)
      ensures col == old(col) + steps * ColStep(heading)
    {
      match heading
      case North => row := row - steps;
      case East => col := col + steps;
      case South => row := row + steps;
      case West => col := col - steps;
    }

    /**
     * Probes the headings `turnCount`, `turnCount + 1`, ... right turns
     * away, in that order; `probe` is the heading being probed.
     */
    function Peek(turnCount: nat, probe: Heading): (p: PeekResult)
      reads this
      requires Valid() && probe == ShoulderCheckRight(turnCount)
      ensures p == Look(Snapshot(), turnCount, probe)
      decreases 4 - turnCount
    {
      if turnCount >= 4 then Enclosed
      else
        var nextRow := row + RowStep(probe);
        var nextCol := col + ColStep(probe);
        assert (nextRow, nextCol) == Ahead(Snapshot(), probe);
        if !InBounds(nextRow, nextCol) then
          Exit
        else if board[nextRow][nextCol] == Blocked then
          RightIsOneMore(heading, turnCount);
          Peek(turnCount + 1, ShoulderCheckRight(turnCount + 1))
        else
          Clear(turnCount)
    }

    /** The guard has not stood on cell (r, c) yet. */
    function IsCellNew(r: int, c: int): (isNew: bool)
      reads this
      requires Valid() && InBounds(r, c)
      ensures isNew <==> CountVisited(MarkCell(board, r, c)) == CountVisited(board) + 1
    {
      MarkCellCount(board, r, c);
      board[r][c] != Visited
    }

    method Mark(r: int, c: int)
      requires Valid() && InBounds(r, c)
      modifies this`board
      ensures Valid() && board == MarkCell(old(board), r, c)
    {
      board := board[r := board[r][c := Visited]];
    }

    /** Turns right `turnCount` times and steps onto the open cell that Peek found. */
    method TurnAndStep(turnCount: int)
      requires Valid() && OpenToward(Snapshot(), Clockwise(heading, turnCount))
      modifies this`heading, this`row, this`col
      ensures Snapshot() == Advance(old(Snapshot()), Clockwise(old(heading), turnCount))
    {
      TurnRight(turnCount);
      Step(1);
    }

    /**
     * Walks until the look around reaches an off-board cell, counting the cells it
     * marks.  `limit` caps the count; `fuel` caps the number of ticks,
     * since a guard circling over visited cells never stops.
     */
    method March(limit: int, fuel: nat) returns (outcome: MarchOutcome)
      requires Valid() && InBounds(row, col)
      modifies this
      ensures (outcome, Snapshot()) == Run(old(Snapshot()), 0, limit, fuel)
      ensures Valid() && InBounds(row, col)
    {
      ghost var result := Run(Snapshot(), 0, limit, fuel);
      var uniqueSteps := 0;
      var ticks := 0;
      while uniqueSteps < limit
        invariant Valid() && InBounds(row, col) && ticks <= fuel
        invariant IsRun(Snapshot(), uniqueSteps, limit, fuel - ticks, result)
        decreases fuel - ticks
      {
        if ticks == fuel {
          return OutOfFuel;
        }
        ghost var before, rest := Snapshot(), fuel - ticks;
        ghost var pass := Tick(before, uniqueSteps);
        RunPass(before, uniqueSteps, limit, rest);
        ticks := ticks + 1;
        var r, c := row, col;
        if IsCellNew(r, c) {
          uniqueSteps := uniqueSteps + 1;
          Mark(r, c);
        }
        assert board == Visit(before).board;
        assert Snapshot() == Visit(before) && uniqueSteps == pass.count;
        var p := Peek(0, heading);
        match p
        case Exit =>
          return Exited(uniqueSteps);
        case Enclosed =>
          return Trapped;
        case Clear(k) =>
          FullTurns(heading);
          LookClear(Snapshot(), 0, heading);
          TurnAndStep(k);
          assert Snapshot() == pass.walker && pass.stop.None?;
          assert IsRun(Snapshot(), uniqueSteps, limit, fuel - ticks, result);
          assert Valid() && InBounds(row, col);
      }
      return LimitReached;
    }
  }

  // ------------------------------------------------------------------
  // The source's own scenarios

  /** North, turn, East, turn, South, turn, West: the guard is back where it started. */
  method StepAroundSquare(g: Guard)
    requires g.heading == North
    modifies g
    ensures g.row == old(g.row) && g.col == old(g.col) && g.heading == West
    ensures g.board == old(g.board)
  {
    g.Step(1);
    g.TurnRight(1);
    g.Step(1);
    g.TurnRight(1);
    g.Step(1);
    g.TurnRight(1);
    g.Step(1);
  }

  /** Blocked ahead and to the right: the guard must turn twice. */
  lemma PeekTurnsTwice(g: Guard)
    requires g.board == [".#.", ".^#", "..."] && g.row == 1 && g.col == 1 && g.heading == North
    ensures g.Peek(0, North) == Clear(2)
  {
    assert g.ShoulderCheckRight(1) == East && g.ShoulderCheckRight(2) == South;
    assert g.Peek(2, South) == Clear(2) by { assert g.board[2][1] == '.'; }
    assert g.Peek(1, East) == g.Peek(2, South) by { assert g.board[1][2] == '#'; }
    assert g.Peek(0, North) == g.Peek(1, East) by { assert g.board[0][1] == '#'; }
  }

  /** Blocked on three sides: three turns. */
  lemma PeekTurnsThrice(g: Guard)
    requires g.board == [".#.", ".^#", ".#."] && g.row == 1 && g.col == 1 && g.heading == North
    ensures g.Peek(0, North) == Clear(3)
  {
    assert g.ShoulderCheckRight(1) == East && g.ShoulderCheckRight(2) == South && g.ShoulderCheckRight(3) == West;
    assert g.Peek(3, West) == Clear(3) by { assert g.board[1][0] == '.'; }
    assert g.Peek(2, South) == g.Peek(3, West) by { assert g.board[2][1] == '#'; }
    assert g.Peek(1, East) == g.Peek(2, South) by { assert g.board[1][2] == '#'; }
    assert g.Peek(0, North) == g.Peek(1, East) by { assert g.board[0][1] == '#'; }
  }

  /** Blocked on all four sides: MapError. */
  lemma PeekEnclosed(g: Guard)
    requires g.board == [".#.", "#^#", ".#."] && g.row == 1 && g.col == 1 && g.heading == North
    ensures g.Peek(0, North) == Enclosed
  {
    assert g.ShoulderCheckRight(1) == East && g.ShoulderCheckRight(2) == South && g.ShoulderCheckRight(3) == West;
    assert g.Peek(3, West) == g.Peek(4, North) by { assert g.board[1][0] == '#'; }
    assert g.Peek(2, South) == g.Peek(3, West) by { assert g.board[2][1] == '#'; }
    assert g.Peek(1, East) == g.Peek(2, South) by { assert g.board[1][2] == '#'; }
    assert g.Peek(0, North) == g.Peek(1, East) by { assert g.board[0][1] == '#'; }
  }
}
