/**
 * The report checks of 2024/02_2024: a report is a row of levels, safe
 * when it moves in one direction by 1 to 3 at every step.  The tolerant
 * check also accepts a report that becomes safe once a single level is
 * taken out.  Indexing past the end of a short report is an `IndexError`
 * in the source; here it is an outcome of its own.
 */
module Reports {

  /** What a validator gives back: a verdict, or the IndexError it raises. */
  datatype Verdict = Ok(safe: bool) | IndexError

  function Abs(x: int): int
  {
    if x < 0 then -x else x
  }

  // ------------------------------------------------------------------
  // What "safe" means, stated without the source's sign trick

  /** Every level is 1 to 3 above the one before it. */
  predicate Rising(r: seq<int>)
  {
    forall n | 0 <= n < |r| - 1 :: 1 <= r[n + 1] - r[n] <= 3
  }

  /** Every level is 1 to 3 below the one before it. */
  predicate Falling(r: seq<int>)
  {
    forall n | 0 <= n < |r| - 1 :: 1 <= r[n] - r[n + 1] <= 3
  }

  /** A safe report: at least two levels, all rising or all falling gradually. */
  predicate Safe(r: seq<int>)
  {
    |r| >= 2 && (Rising(r) || Falling(r))
  }

  /** The report with the level at index `i` popped out. */
  function Remove(r: seq<int>, i: nat): (s: seq<int>)
    requires i < |r|
    ensures |s| == |r| - 1
    ensures forall k | 0 <= k < |s| :: s[k] == if k < i then r[k] else r[k + 1]
  {
    r[..i] + r[i + 1..]
  }

  /** Safe as it stands, or safe after one level is taken out. */
  predicate Tolerated(r: seq<int>)
  {
    Safe(r) || exists i | 0 <= i < |r| :: Safe(Remove(r, i))
  }

  // ------------------------------------------------------------------
  // The two validators

  /**
   * The exact check.  The direction is fixed by the first two levels,
   * then every adjacent step must be non-zero, keep that direction and
   * be at most 3 in size.  An empty report is unsafe; a single level
   * makes the source read past the end.
   */
  method ValidateExact(report: seq<int>) returns (v: Verdict)
    ensures v == IndexError <==> |report| == 1
    ensures v.Ok? ==> (v.safe <==> Safe(report))
  {
    if |report| == 0 {
      return Ok(false);
    }
    if |report| == 1 {
      return IndexError;
    }
    var increasing := report[0] - report[1] < 0;
    for n := 0 to |report| - 1
      invariant increasing ==> forall k | 0 <= k < n :: 1 <= report[k + 1] - report[k] <= 3
      invariant !increasing ==> forall k | 0 <= k < n :: 1 <= report[k] - report[k + 1] <= 3
    {
      var step := report[n] - report[n + 1];
      if step == 0 || (step < 0) != increasing || Abs(step) > 3 {
        assert !Rising(report) && !Falling(report) by {
          if increasing {
            assert !(1 <= report[1] - report[0] <= 3) || !(1 <= report[n + 1] - report[n] <= 3);
          } else {
            assert !(1 <= report[0] - report[1] <= 3) || !(1 <= report[n] - report[n + 1] <= 3);
          }
        }
        return Ok(false);
      }
    }
    return Ok(true);
  }

  /**
   * The tolerant check: the exact check on the report, then on a copy
   * with each index popped in turn.  The copy of a two-level report
   * has a single level, on which the exact check raises.
   */
  method ValidateTolerant(report: seq<int>) returns (v: Verdict)
    ensures v == IndexError <==> |report| == 1 || (|report| == 2 && !Safe(report))
    ensures v.Ok? ==> (v.safe <==> Tolerated(report))
  {
    var whole := ValidateExact(report);
    if whole == IndexError {
      return IndexError;
    }
    if whole.safe {
      return Ok(true);
    }
    for i := 0 to |report|
      invariant forall k | 0 <= k < i :: !Safe(Remove(report, k))
      invariant i > 0 ==> |report| >= 3
    {
      var copy := report;
      copy := copy[..i] + copy[i + 1..];
      assert copy == Remove(report, i);
      var part := ValidateExact(copy);
      if part == IndexError {
        return IndexError;
      }
      if part.safe {
        return Ok(true);
      }
    }
    return Ok(false);
  }

  // ------------------------------------------------------------------
  // Counting safe reports

  /** The validator handed to `safety_check`. */
  datatype Validator = Exact | Tolerant

  /** What a validator makes of one report, as the two methods above compute it. */
  function Judge(fn: Validator, report: seq<int>): Verdict
  {
    match fn
    case Exact =>
      if |report| == 1 then IndexError else Ok(Safe(report))
    case Tolerant =>
      if |report| == 1 || (|report| == 2 && !Safe(report)) then IndexError else Ok(Tolerated(report))
  }

  /** The tally of a list of reports: a count, or the error the first failing report raises. */
  datatype Tally = Counted(count: nat) | Raised

  /** The number of reports judged safe, unless some report raises. */
  function Count(fn: Validator, reports: seq<seq<int>>): (t: Tally)
    ensures t == Raised <==> exists k | 0 <= k < |reports| :: Judge(fn, reports[k]) == IndexError
    ensures t.Counted? ==> t.count <= |reports|
  {
    if reports == [] then Counted(0)
    else
      var last := |reports| - 1;
      var before := Count(fn, reports[..last]);
      assert forall k | 0 <= k < last :: reports[..last][k] == reports[k];
      match before
      case Raised => Raised
      case Counted(n) =>
        match Judge(fn, reports[last])
        case IndexError => Raised
        case Ok(safe) => Counted(if safe then n + 1 else n)
  }

  /** Runs the chosen validator, as `fn(report)` does. */
  method Apply(fn: Validator, report: seq<int>) returns (v: Verdict)
    ensures v == Judge(fn, report)
  {
    match fn
    case Exact =>
      v := ValidateExact(report);
    case Tolerant =>
      v := ValidateTolerant(report);
  }

  /** Counts the reports the validator accepts; an error from any report ends the count. */
  method SafetyCheck(reports: seq<seq<int>>, fn: Validator) returns (t: Tally)
    ensures t == Count(fn, reports)
  {
    var safeCount := 0;
    for i := 0 to |reports|
      invariant Count(fn, reports[..i]) == Counted(safeCount)
    {
      var v := Apply(fn, reports[i]);
      assert reports[..i + 1][..i] == reports[..i];
      if v == IndexError {
        return Raised;
      }
      if v.safe {
        safeCount := safeCount + 1;
      }
    }
    assert reports[..|reports|] == reports;
    return Counted(safeCount);
  }

  // ------------------------------------------------------------------
  // Properties

  /** The sign test of the source says the same as Rising/Falling. */
  lemma SignTestAgrees(r: seq<int>)
    requires |r| >= 2
    ensures Safe(r) <==> forall n | 0 <= n < |r| - 1 ::
      var step := r[n] - r[n + 1];
      step != 0 && (step < 0) == (r[0] - r[1] < 0) && Abs(step) <= 3
  {
  }

  /** Whatever the exact check accepts, the tolerant check accepts. */
  lemma ExactImpliesTolerant(report: seq<int>)
    requires Judge(Exact, report) == Ok(true)
    ensures Judge(Tolerant, report) == Ok(true)
  {
  }

  /** Taking an end level off a safe report of three or more levels leaves it safe. */
  lemma {:induction false} TrimEndsStaysSafe(r: seq<int>)
    requires Safe(r) && |r| >= 3
    ensures Safe(Remove(r, 0)) && Safe(Remove(r, |r| - 1))
  {
    var head, tail := Remove(r, 0), Remove(r, |r| - 1);
    assert forall k | 0 <= k < |head| :: head[k] == r[k + 1];
    assert forall k | 0 <= k < |tail| :: tail[k] == r[k];
  }

  /** The tolerant count is never below the exact count, and the exact check never raises where the tolerant one does not. */
  lemma {:induction false} ExactCountAtMostTolerant(reports: seq<seq<int>>)
    requires Count(Tolerant, reports).Counted?
    ensures Count(Exact, reports).Counted?
    ensures Count(Exact, reports).count <= Count(Tolerant, reports).count
  {
    if reports != [] {
      var last := |reports| - 1;
      ExactCountAtMostTolerant(reports[..last]);
    }
  }

  /** One step out of the 1..3 band, either way, rules out a gradual run that way. */
  lemma StepBreaks(r: seq<int>, n: nat)
    requires n + 1 < |r|
    ensures !(1 <= r[n + 1] - r[n] <= 3) ==> !Rising(r)
    ensures !(1 <= r[n] - r[n + 1] <= 3) ==> !Falling(r)
  {
  }

  /** Verdicts from the source's own cases: reports the exact check turns down. */
  lemma ExactExamplesRejected()
    ensures Judge(Exact, [44, 44, 47, 48, 30, 51]) == Ok(false)
    ensures Judge(Exact, [62, 59, 63, 65, 66, 68, 70, 67]) == Ok(false)
    ensures Judge(Exact, [25, 27, 30, 31, 37]) == Ok(false)
    ensures Judge(Exact, []) == Ok(false)
  {
    StepBreaks([44, 44, 47, 48, 30, 51], 0);
    StepBreaks([62, 59, 63, 65, 66, 68, 70, 67], 0);
    StepBreaks([62, 59, 63, 65, 66, 68, 70, 67], 1);
    StepBreaks([25, 27, 30, 31, 37], 0);
    StepBreaks([25, 27, 30, 31, 37], 3);
  }

  /** Verdicts from the source's own cases: reports the exact check accepts. */
  lemma ExactExamplesAccepted()
    ensures Judge(Exact, [7, 10, 13, 14, 17, 19]) == Ok(true)
    ensures Judge(Exact, [19, 17, 14, 13, 10, 7]) == Ok(true)
  {
  }

  /** A report of three or more levels that one removal makes safe passes the tolerant check. */
  lemma RescuedByRemoval(r: seq<int>, i: nat)
    requires |r| >= 3 && i < |r| && Safe(Remove(r, i))
    ensures Judge(Tolerant, r) == Ok(true)
  {
  }

  lemma TolerantExampleRemoveMiddle()
    ensures Judge(Tolerant, [1, 3, 5, 4, 7]) == Ok(true)
  {
    assert Remove([1, 3, 5, 4, 7], 3) == [1, 3, 5, 7];
    assert Rising([1, 3, 5, 7]);
    RescuedByRemoval([1, 3, 5, 4, 7], 3);
  }

  lemma TolerantExampleRemoveFirst()
    ensures Judge(Tolerant, [8, 9, 8, 6, 5]) == Ok(true)
  {
    assert Remove([8, 9, 8, 6, 5], 0) == [9, 8, 6, 5];
    assert Falling([9, 8, 6, 5]);
    RescuedByRemoval([8, 9, 8, 6, 5], 0);
  }

  /** No single removal rescues [1, 2, 3, 3, 9]. */
  lemma RejectedWithout(i: nat)
    requires i < 5
    ensures !Safe(Remove([1, 2, 3, 3, 9], i))
  {
    if i == 0 {
      assert Remove([1, 2, 3, 3, 9], 0) == [2, 3, 3, 9];
      StepBreaks([2, 3, 3, 9], 1);
    } else if i == 1 {
      assert Remove([1, 2, 3, 3, 9], 1) == [1, 3, 3, 9];
      StepBreaks([1, 3, 3, 9], 1);
    } else if i < 4 {
      assert Remove([1, 2, 3, 3, 9], i) == [1, 2, 3, 9];
      StepBreaks([1, 2, 3, 9], 0);
      StepBreaks([1, 2, 3, 9], 2);
    } else {
      assert Remove([1, 2, 3, 3, 9], 4) == [1, 2, 3, 3];
      StepBreaks([1, 2, 3, 3], 2);
    }
  }

  lemma TolerantExampleRejected()
    ensures Judge(Tolerant, [1, 2, 3, 3, 9]) == Ok(false)
  {
    StepBreaks([1, 2, 3, 3, 9], 2);
    forall i | 0 <= i < 5 ensures !Safe(Remove([1, 2, 3, 3, 9], i)) {
      RejectedWithout(i);
    }
  }
}
