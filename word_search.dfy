/**
 * The word search of 2024/04_2024.  A board is a list of equally long
 * rows of letters.  From a starting cell, eight direction checkers read
 * the letters along one direction; the single-word count adds up the
 * eight, and the cross matcher looks for the word on both diagonals
 * through a pivot cell.  `Wc` runs a matcher over every cell holding the
 * chosen letter of the word.
 */
module WordSearch {
  import opened Wrappers

  /** The eight directions, in the order the source lists its checkers. */
  datatype Direction = Right | RightDown | Down | DownLeft | Left | LeftUp | Up | UpRight

  const AllDirections: seq<Direction> := [Right, RightDown, Down, DownLeft, Left, LeftUp, Up, UpRight]

  function RowDelta(d: Direction): int
  {
    match d
    case Right => 0
    case RightDown => 1
    case Down => 1
    case DownLeft => 1
    case Left => 0
    case LeftUp => -1
    case Up => -1
    case UpRight => -1
  }

  function ColDelta(d: Direction): int
  {
    match d
    case Right => 1
    case RightDown => 1
    case Down => 0
    case DownLeft => -1
    case Left => -1
    case LeftUp => -1
    case Up => 0
    case UpRight => 1
  }

  /** The coordinate `i` cells from `x` in the direction given by the sign of `delta`. */
  function Along(x: int, i: int, delta: int): int
  {
    if delta > 0 then x + i else if delta < 0 then x - i else x
  }

  /** `rmx` rows, each `cmx` letters long. */
  predicate Board(board: seq<string>, rmx: int, cmx: int)
  {
    rmx == |board| && forall r | 0 <= r < |board| :: |board[r]| == cmx
  }

  /** The `wln` cells from (row, col) along `d` all lie on an rmx-by-cmx board. */
  predicate Inside(d: Direction, row: int, col: int, rmx: int, cmx: int, wln: int)
  {
    forall i | 0 <= i < wln ::
      0 <= Along(row, i, RowDelta(d)) < rmx && 0 <= Along(col, i, ColDelta(d)) < cmx
  }

  /** The bounds test each checker makes before it reads the board. */
  predicate Guard(d: Direction, row: int, col: int, rmx: int, cmx: int, wln: int)
  {
    match d
    case Right => cmx - col >= wln
    case RightDown => cmx - col >= wln && rmx - row >= wln
    case Down => rmx - row >= wln
    case DownLeft => col >= wln - 1 && rmx - row >= wln
    case Left => col >= wln - 1
    case LeftUp => col >= wln - 1 && row >= wln - 1
    case Up => row >= wln - 1
    case UpRight => cmx - col >= wln && row >= wln - 1
  }

  /** From a cell on the board, each guard passes exactly when the whole run fits. */
  lemma GuardIsInside(d: Direction, row: int, col: int, rmx: int, cmx: int, wln: int)
    requires 0 <= row < rmx && 0 <= col < cmx
    ensures Guard(d, row, col, rmx, cmx, wln) <==> Inside(d, row, col, rmx, cmx, wln)
  {
    if !Guard(d, row, col, rmx, cmx, wln) {
      var i := wln - 1;
      assert !(0 <= Along(row, i, RowDelta(d)) < rmx && 0 <= Along(col, i, ColDelta(d)) < cmx);
    }
  }

  /** The letters after the first: the cell `i` steps along `d` holds word[i], for i in 1..wln-1. */
  predicate Spells(d: Direction, word: string, board: seq<string>, row: int, col: int, rmx: int, cmx: int, wln: int)
    requires Board(board, rmx, cmx) && Inside(d, row, col, rmx, cmx, wln)
    requires wln <= |word| || wln <= 1
  {
    forall i | 1 <= i < wln ::
      board[Along(row, i, RowDelta(d))][Along(col, i, ColDelta(d))] == word[i]
  }

  /** The run along `d` fits on the board and spells the word after its first letter. */
  predicate Hits(d: Direction, word: string, board: seq<string>, row: int, col: int, rmx: int, cmx: int, wln: int)
    requires Board(board, rmx, cmx)
    requires wln <= |word| || wln <= 1
  {
    Inside(d, row, col, rmx, cmx, wln) && Spells(d, word, board, row, col, rmx, cmx, wln)
  }

  // ------------------------------------------------------------------
  // The eight checkers

  /**
   * The checker for direction `d`: 0 when the guard fails, otherwise 1
   * unless some letter after the first differs.  The letter at the
   * starting cell itself is not compared.
   */
  method Check(d: Direction, word: string, board: seq<string>, row: int, col: int, rmx: int, cmx: int, wln: int)
    returns (hit: int)
    requires Board(board, rmx, cmx) && 0 <= row < rmx && 0 <= col < cmx
    requires wln <= |word| || wln <= 1
    ensures hit == (if Hits(d, word, board, row, col, rmx, cmx, wln) then 1 else 0)
  {
    GuardIsInside(d, row, col, rmx, cmx, wln);
    if !Guard(d, row, col, rmx, cmx, wln) {
      return 0;
    }
    var i := 1;
    while i < wln
      invariant 1 <= i && (wln >= 1 ==> i <= wln)
      invariant forall k | 1 <= k < i && k < wln ::
        board[Along(row, k, RowDelta(d))][Along(col, k, ColDelta(d))] == word[k]
    {
      if board[Along(row, i, RowDelta(d))][Along(col, i, ColDelta(d))] != word[i] {
        return 0;
      }
      i := i + 1;
    }
    return 1;
  }

  // ------------------------------------------------------------------
  // The single-word count

  /** How many of the directions `ds` spell the whole word from (row, col). */
  function HitCount(ds: seq<Direction>, word: string, board: seq<string>, row: int, col: int, rmx: int, cmx: int): (n: nat)
    requires Board(board, rmx, cmx)
    ensures n <= |ds|
  {
    if ds == [] then 0
    else
      (if Hits(ds[0], word, board, row, col, rmx, cmx, |word|) then 1 else 0)
        + HitCount(ds[1..], word, board, row, col, rmx, cmx)
  }

  /** The score of a starting cell for the single-word count. */
  function SingleScore(word: string, board: seq<string>, row: int, col: int): (n: nat)
    requires |board| > 0 && Board(board, |board|, |board[0]|)
    ensures n <= 8
  {
    HitCount(AllDirections, word, board, row, col, |board|, |board[0]|)
  }

  /** Adds up the eight checkers for a whole-word match from (row, col). */
  method CheckSingle(word: string, board: seq<string>, row: int, col: int) returns (xCount: int)
    requires |board| > 0 && Board(board, |board|, |board[0]|)
    requires 0 <= row < |board| && 0 <= col < |board[0]|
    ensures xCount == SingleScore(word, board, row, col)
  {
    xCount := 0;
    var rmx := |board|;
    var cmx := |board[0]|;
    var wln := |word|;
    for j := 0 to |AllDirections|
      invariant xCount + HitCount(AllDirections[j..], word, board, row, col, rmx, cmx)
        == HitCount(AllDirections, word, board, row, col, rmx, cmx)
    {
      assert AllDirections[j..][1..] == AllDirections[j + 1..];
      var one := Check(AllDirections[j], word, board, row, col, rmx, cmx, wln);
      xCount := xCount + one;
    }
  }

  /** When every direction in `ds` spells the word, HitCount counts all of them. */
  lemma {:induction false} HitCountAllHit(ds: seq<Direction>, word: string, board: seq<string>, row: int, col: int, rmx: int, cmx: int)
    requires Board(board, rmx, cmx)
    requires forall k | 0 <= k < |ds| :: Hits(ds[k], word, board, row, col, rmx, cmx, |word|)
    ensures HitCount(ds, word, board, row, col, rmx, cmx) == |ds|
  {
    if ds != [] {
      HitCountAllHit(ds[1..], word, board, row, col, rmx, cmx);
    }
  }

  /** When no direction in `ds` spells the word, HitCount is 0. */
  lemma {:induction false} HitCountNoneHit(ds: seq<Direction>, word: string, board: seq<string>, row: int, col: int, rmx: int, cmx: int)
    requires Board(board, rmx, cmx)
    requires forall k | 0 <= k < |ds| :: !Hits(ds[k], word, board, row, col, rmx, cmx, |word|)
    ensures HitCount(ds, word, board, row, col, rmx, cmx) == 0
  {
    if ds != [] {
      HitCountNoneHit(ds[1..], word, board, row, col, rmx, cmx);
    }
  }

  /** A word longer than both sides of the board fits in no direction, so it scores 0. */
  lemma TooLongWordScoresZero(word: string, board: seq<string>, row: int, col: int)
    requires |board| > 0 && Board(board, |board|, |board[0]|)
    requires 0 <= row < |board| && 0 <= col < |board[0]|
    requires |word| > |board| && |word| > |board[0]|
    ensures SingleScore(word, board, row, col) == 0
  {
    var rmx, cmx, last := |board|, |board[0]|, |word| - 1;
    forall k | 0 <= k < |AllDirections| ensures !Inside(AllDirections[k], row, col, rmx, cmx, |word|) {
      var d := AllDirections[k];
      assert !(0 <= Along(row, last, RowDelta(d)) < rmx && 0 <= Along(col, last, ColDelta(d)) < cmx);
    }
    HitCountNoneHit(AllDirections, word, board, row, col, rmx, cmx);
  }

  /** A one-letter word is found in all eight directions from every cell holding it. */
  lemma OneLetterWordCountsEight(word: string, board: seq<string>, row: int, col: int)
    requires |board| > 0 && Board(board, |board|, |board[0]|)
    requires 0 <= row < |board| && 0 <= col < |board[0]|
    requires |word| == 1
    ensures SingleScore(word, board, row, col) == 8
  {
    HitCountAllHit(AllDirections, word, board, row, col, |board|, |board[0]|);
  }

  // ------------------------------------------------------------------
  // The cross matcher

  function Reversed(s: string): (r: string)
    ensures |r| == |s| && forall i | 0 <= i < |s| :: r[i] == s[|s| - 1 - i]
  {
    seq(|s|, i requires 0 <= i < |s| => s[|s| - 1 - i])
  }

  function Min(a: int, b: int): int
  {
    if a < b then a else b
  }

  /**
   * What `_check_candidates` returns: the other half when `prefix`
   * spells out along `d`, otherwise `prefix` when `postfix` does,
   * otherwise nothing.
   */
  function Candidate(prefix: string, postfix: string, d: Direction, board: seq<string>, row: int, col: int, rmx: int, cmx: int, wln: int): Option<string>
    requires Board(board, rmx, cmx)
    requires (wln <= |prefix| || wln <= 1) && (wln <= |postfix| || wln <= 1)
  {
    if Hits(d, prefix, board, row, col, rmx, cmx, wln) then Some(postfix)
    else if Hits(d, postfix, board, row, col, rmx, cmx, wln) then Some(prefix)
    else None
  }

  method CheckCandidates(prefix: string, postfix: string, d: Direction, board: seq<string>, row: int, col: int, rmx: int, cmx: int, wln: int)
    returns (r: Option<string>)
    requires Board(board, rmx, cmx) && 0 <= row < rmx && 0 <= col < cmx
    requires (wln <= |prefix| || wln <= 1) && (wln <= |postfix| || wln <= 1)
    ensures r == Candidate(prefix, postfix, d, board, row, col, rmx, cmx, wln)
  {
    var first := Check(d, prefix, board, row, col, rmx, cmx, wln);
    if first == 1 {
      return Some(postfix);
    }
    var second := Check(d, postfix, board, row, col, rmx, cmx, wln);
    if second == 1 {
      return Some(prefix);
    }
    return None;
  }

  /** A candidate Python treats as false: none at all, or the empty string. */
  predicate Falsy(c: Option<string>)
  {
    c.None? || c.value == []
  }

  /** The half-word length: half the word plus the pivot letter. */
  function HalfLength(word: string): nat
  {
    |word| / 2 + 1
  }

  /** word[:wln] reversed, so that its index i lies i cells away from the pivot. */
  function Prefix(word: string): (p: string)
    ensures |p| == Min(HalfLength(word), |word|)
  {
    Reversed(word[..Min(HalfLength(word), |word|)])
  }

  /** word[-wln:], the last wln letters (the whole word when it is shorter). */
  function Postfix(word: string): (p: string)
    ensures |p| == Min(HalfLength(word), |word|)
  {
    word[|word| - Min(HalfLength(word), |word|)..]
  }

  /** The score of a pivot cell for the cross matcher. */
  function CrossScore(word: string, board: seq<string>, row: int, col: int): (n: nat)
    requires |board| > 0 && Board(board, |board|, |board[0]|)
    ensures n <= 1
  {
    var rmx, cmx, wln := |board|, |board[0]|, HalfLength(word);
    var dr := Candidate(Prefix(word), Postfix(word), LeftUp, board, row, col, rmx, cmx, wln);
    if Falsy(dr) then 0
    else
      var dl := Candidate(Prefix(word), Postfix(word), UpRight, board, row, col, rmx, cmx, wln);
      if Falsy(dl) then 0
      else if Hits(DownLeft, dl.value, board, row, col, rmx, cmx, wln)
           && Hits(RightDown, dr.value, board, row, col, rmx, cmx, wln) then 1
      else 0
  }

  /**
   * Finds which half runs up-left and up-right from the pivot, then
   * confirms that the other half runs down-right and down-left.
   */
  method CheckCross(word: string, board: seq<string>, row: int, col: int) returns (hit: int)
    requires |board| > 0 && Board(board, |board|, |board[0]|)
    requires 0 <= row < |board| && 0 <= col < |board[0]|
    ensures hit == CrossScore(word, board, row, col)
  {
    var rmx := |board|;
    var cmx := |board[0]|;
    var wln := HalfLength(word);
    var prefix := Prefix(word);
    var postfix := Postfix(word);
    var dr := CheckCandidates(prefix, postfix, LeftUp, board, row, col, rmx, cmx, wln);
    if dr.None? || dr.value == [] {
      return 0;
    }
    var dl := CheckCandidates(prefix, postfix, UpRight, board, row, col, rmx, cmx, wln);
    if dl.None? || dl.value == [] {
      return 0;
    }
    var down := Check(DownLeft, dl.value, board, row, col, rmx, cmx, wln);
    if down == 1 {
      var across := Check(RightDown, dr.value, board, row, col, rmx, cmx, wln);
      if across == 1 {
        return 1;
      }
    }
    return 0;
  }

  /**
   * The cells `i` steps from the pivot along `up` and along the opposite
   * direction `down` hold the letters `i` before and `i` after the
   * middle of the word, in one orientation or the other.
   */
  predicate DiagonalReads(up: Direction, down: Direction, word: string, board: seq<string>, row: int, col: int)
    requires |board| > 0 && Board(board, |board|, |board[0]|)
    requires |word| % 2 == 1
  {
    var m, rmx, cmx := |word| / 2, |board|, |board[0]|;
    Inside(up, row, col, rmx, cmx, m + 1) && Inside(down, row, col, rmx, cmx, m + 1) &&
    ((forall i | 1 <= i <= m ::
        board[Along(row, i, RowDelta(up))][Along(col, i, ColDelta(up))] == word[m - i] &&
        board[Along(row, i, RowDelta(down))][Along(col, i, ColDelta(down))] == word[m + i]) ||
     (forall i | 1 <= i <= m ::
        board[Along(row, i, RowDelta(up))][Along(col, i, ColDelta(up))] == word[m + i] &&
        board[Along(row, i, RowDelta(down))][Along(col, i, ColDelta(down))] == word[m - i]))
  }

  /** The halves of an odd-length word, as the cross matcher reads them off the pivot. */
  lemma HalvesOfOddWord(word: string)
    requires |word| % 2 == 1
    ensures |Prefix(word)| == |Postfix(word)| == |word| / 2 + 1
    ensures forall i | 0 <= i <= |word| / 2 :: Prefix(word)[i] == word[|word| / 2 - i]
    ensures forall i | 0 <= i <= |word| / 2 :: Postfix(word)[i] == word[|word| / 2 + i]
  {
  }

  /** The candidate along `up`, when there is one, is the half that runs in the opposite direction. */
  lemma CandidateReads(up: Direction, down: Direction, word: string, board: seq<string>, row: int, col: int)
    requires |board| > 0 && Board(board, |board|, |board[0]|)
    requires |word| % 2 == 1
    requires (up, down) == (LeftUp, RightDown) || (up, down) == (UpRight, DownLeft)
    ensures var c := Candidate(Prefix(word), Postfix(word), up, board, row, col, |board|, |board[0]|, HalfLength(word));
      (!Falsy(c) && Hits(down, c.value, board, row, col, |board|, |board[0]|, HalfLength(word)))
      <==> DiagonalReads(up, down, word, board, row, col)
  {
    HalvesOfOddWord(word);
  }

  /** For an odd-length word the cross matcher scores 1 exactly when both diagonals through the pivot read the word, each in either orientation. */
  lemma CrossOfOddWord(word: string, board: seq<string>, row: int, col: int)
    requires |board| > 0 && Board(board, |board|, |board[0]|)
    requires |word| % 2 == 1
    ensures CrossScore(word, board, row, col) == 1
      <==> DiagonalReads(LeftUp, RightDown, word, board, row, col) && DiagonalReads(UpRight, DownLeft, word, board, row, col)
  {
    CandidateReads(LeftUp, RightDown, word, board, row, col);
    CandidateReads(UpRight, DownLeft, word, board, row, col);
  }

  // ------------------------------------------------------------------
  // Counting over the board

  /** The matcher handed to `_wc`. */
  datatype Matcher = Single | Cross

  /** Rows of one length, as the matchers assume when they take the width from the first row. */
  predicate Grid(board: seq<string>)
  {
    |board| > 0 ==> Board(board, |board|, |board[0]|)
  }

  /** The most a matcher can score at one cell. */
  function PerCell(fn: Matcher): nat
  {
    match fn
    case Single => 8
    case Cross => 1
  }

  function Score(fn: Matcher, word: string, board: seq<string>, row: int, col: int): (n: nat)
    requires |board| > 0 && Board(board, |board|, |board[0]|)
    ensures n <= PerCell(fn)
  {
    match fn
    case Single => SingleScore(word, board, row, col)
    case Cross => CrossScore(word, board, row, col)
  }

  /** Runs the chosen matcher at one cell, as `fn(word, board, row, col)` does. */
  method Apply(fn: Matcher, word: string, board: seq<string>, row: int, col: int) returns (n: int)
    requires |board| > 0 && Board(board, |board|, |board[0]|)
    requires 0 <= row < |board| && 0 <= col < |board[0]|
    ensures n == Score(fn, word, board, row, col)
  {
    match fn
    case Single =>
      n := CheckSingle(word, board, row, col);
    case Cross =>
      n := CheckCross(word, board, row, col);
  }

  /** What a cell adds: the matcher's score where the cell holds word[idx], nothing elsewhere. */
  function CellScore(board: seq<string>, word: string, fn: Matcher, idx: nat, r: int, c: int): nat
    requires Grid(board) && 0 <= r < |board| && 0 <= c < |board[r]| && idx < |word|
  {
    if board[r][c] == word[idx] then Score(fn, word, board, r, c) else 0
  }

  /** The scores of the first `n` cells of row `r`. */
  function RowTotal(board: seq<string>, word: string, fn: Matcher, idx: nat, r: int, n: nat): nat
    requires Grid(board) && 0 <= r < |board| && n <= |board[r]| && idx < |word|
  {
    if n == 0 then 0 else RowTotal(board, word, fn, idx, r, n - 1) + CellScore(board, word, fn, idx, r, n - 1)
  }

  /** The scores of all cells in the first `k` rows. */
  function Total(board: seq<string>, word: string, fn: Matcher, idx: nat, k: nat): nat
    requires Grid(board) && k <= |board| && idx < |word|
  {
    if k == 0 then 0 else Total(board, word, fn, idx, k - 1) + RowTotal(board, word, fn, idx, k - 1, |board[k - 1]|)
  }

  /** Sums the matcher's score over every cell that holds word[idx]. */
  method Wc(board: seq<string>, word: string, fn: Matcher, idx: nat) returns (counter: int)
    requires Grid(board) && idx < |word|
    ensures counter == Total(board, word, fn, idx, |board|)
  {
    counter := 0;
    for row := 0 to |board|
      invariant counter == Total(board, word, fn, idx, row)
    {
      for col := 0 to |board[row]|
        invariant counter == Total(board, word, fn, idx, row) + RowTotal(board, word, fn, idx, row, col)
      {
        if board[row][col] == word[idx] {
          var xCount := Apply(fn, word, board, row, col);
          counter := counter + xCount;
        }
      }
    }
  }

  /** The number of cells holding `ch` in the first `n` cells of row `r`. */
  function RowOccurrences(board: seq<string>, ch: char, r: int, n: nat): nat
    requires 0 <= r < |board| && n <= |board[r]|
  {
    if n == 0 then 0 else RowOccurrences(board, ch, r, n - 1) + (if board[r][n - 1] == ch then 1 else 0)
  }

  /** The number of cells holding `ch` in the first `k` rows. */
  function Occurrences(board: seq<string>, ch: char, k: nat): nat
    requires k <= |board|
  {
    if k == 0 then 0 else Occurrences(board, ch, k - 1) + RowOccurrences(board, ch, k - 1, |board[k - 1]|)
  }

  lemma {:induction false} RowTotalBound(board: seq<string>, word: string, fn: Matcher, idx: nat, r: int, n: nat)
    requires Grid(board) && 0 <= r < |board| && n <= |board[r]| && idx < |word|
    ensures RowTotal(board, word, fn, idx, r, n) <= PerCell(fn) * RowOccurrences(board, word[idx], r, n)
  {
    if n > 0 {
      RowTotalBound(board, word, fn, idx, r, n - 1);
      var before := RowOccurrences(board, word[idx], r, n - 1);
      assert PerCell(fn) * (before + 1) == PerCell(fn) * before + PerCell(fn);
    }
  }

  /** Only cells holding word[idx] score, each at most PerCell: 8 for a single word, 1 for a cross. */
  lemma {:induction false} TotalBound(board: seq<string>, word: string, fn: Matcher, idx: nat, k: nat)
    requires Grid(board) && k <= |board| && idx < |word|
    ensures Total(board, word, fn, idx, k) <= PerCell(fn) * Occurrences(board, word[idx], k)
  {
    if k > 0 {
      TotalBound(board, word, fn, idx, k - 1);
      RowTotalBound(board, word, fn, idx, k - 1, |board[k - 1]|);
      var before := Occurrences(board, word[idx], k - 1);
      var row := RowOccurrences(board, word[idx], k - 1, |board[k - 1]|);
      assert PerCell(fn) * (before + row) == PerCell(fn) * before + PerCell(fn) * row;
    }
  }

  // ------------------------------------------------------------------
  // Small boards

  /** From the top-left corner of the one-row board "XMAS", only the rightward reading fits. */
  lemma SingleRowCorner()
    ensures SingleScore("XMAS", ["XMAS"], 0, 0) == 1
  {
    var b := ["XMAS"];
    assert Hits(Right, "XMAS", b, 0, 0, 1, 4, 4);
    var rest := AllDirections[1..];
    forall k | 0 <= k < |rest| ensures !Inside(rest[k], 0, 0, 1, 4, 4) {
      GuardIsInside(rest[k], 0, 0, 1, 4, 4);
    }
    HitCountNoneHit(rest, "XMAS", b, 0, 0, 1, 4);
  }

  /** "XMAS" written once, left to right, on a one-row board: one find. */
  lemma SingleRowExample()
    ensures Total(["XMAS"], "XMAS", Single, 0, 1) == 1
  {
    var b := ["XMAS"];
    SingleRowCorner();
    assert RowTotal(b, "XMAS", Single, 0, 0, 1) == 1;
    assert RowTotal(b, "XMAS", Single, 0, 0, 2) == 1;
    assert RowTotal(b, "XMAS", Single, 0, 0, 3) == 1;
  }

  /** On the 3-by-3 board with "MAS" on both diagonals, the centre scores 1. */
  lemma CrossCentre()
    ensures CrossScore("MAS", ["M.S", ".A.", "M.S"], 1, 1) == 1
  {
    CrossOfOddWord("MAS", ["M.S", ".A.", "M.S"], 1, 1);
    CrossCentreReads(LeftUp, RightDown);
    CrossCentreReads(UpRight, DownLeft);
  }

  lemma CrossCentreReads(up: Direction, down: Direction)
    requires (up, down) == (LeftUp, RightDown) || (up, down) == (UpRight, DownLeft)
    ensures DiagonalReads(up, down, "MAS", ["M.S", ".A.", "M.S"], 1, 1)
  {
  }

  /** "MAS" crossed on a 3-by-3 board, pivot on the centre 'A': one find. */
  lemma CrossExample()
    ensures Total(["M.S", ".A.", "M.S"], "MAS", Cross, 1, 3) == 1
  {
    var b := ["M.S", ".A.", "M.S"];
    CrossCentre();
    assert RowTotal(b, "MAS", Cross, 1, 0, 3) == 0;
    assert RowTotal(b, "MAS", Cross, 1, 1, 3) == 1;
    assert RowTotal(b, "MAS", Cross, 1, 2, 3) == 0;
  }
}
