/**
  Sub-block ranges such as "0001-0004" or "0005", and the index loop that
  walks them.
 */
module SubBlocks {
  import opened Common
  import opened Text

  datatype RangeError = NotAnInteger | WrongFormat | StartAfterEnd

  function ParseSubBlocks(subblocks: string): Result<(int, int), RangeError> {
    if '-' !in subblocks then
      match Atoi(subblocks)
      case None => Failure(NotAnInteger)
      case Some(start) => Success((start, start))
    else
      var parts := Split(subblocks, '-');
      if |parts| != 2 then Failure(WrongFormat)
      else
        match (Atoi(parts[0]), Atoi(parts[1]))
        case (Some(start), Some(end)) =>
          if start > end then Failure(StartAfterEnd) else Success((start, end))
        case _ => Failure(NotAnInteger)
  }

  /** What one end of a range may look like: digits after an optional plus sign. */
  ghost predicate Denotes(s: string, n: int) {
    var digits := if s != [] && s[0] == '+' then s[1..] else s;
    digits != [] && AllDigits(digits) && NumeralValue(digits) == n <= MAX_INT
  }

  lemma DashlessAtoi(s: string, n: int)
    requires '-' !in s
    ensures Atoi(s) == Some(n) <==> Denotes(s, n)
  {
    if s != [] {
      assert s[0] in s;
    }
  }

  lemma DenotesHasNoDash(s: string, n: int)
    requires Denotes(s, n)
    ensures '-' !in s
  {
    DigitsHoldNothingElse(if s[0] == '+' then s[1..] else s, '-');
    assert s == [s[0]] + s[1..];
  }

  ghost predicate DenotesRange(s: string, a: int, b: int) {
    || (Denotes(s, a) && a == b)
    || (a <= b && exists x, y :: s == x + "-" + y && Denotes(x, a) && Denotes(y, b))
  }

  lemma RangeText(x: string, y: string, a: int, b: int)
    requires Denotes(x, a) && Denotes(y, b) && a <= b
    ensures ParseSubBlocks(x + "-" + y) == Success((a, b))
  {
    DenotesHasNoDash(x, a);
    DenotesHasNoDash(y, b);
    SplitConcat(x, y, '-');
    assert Split(x + "-" + y, '-') == [x, y];
    DashlessAtoi(x, a);
    DashlessAtoi(y, b);
  }

  lemma ParsedRange(s: string, a: int, b: int)
    requires '-' in s && ParseSubBlocks(s) == Success((a, b))
    ensures exists x, y :: s == x + "-" + y && Denotes(x, a) && Denotes(y, b)
    ensures a <= b
  {
    SplitInTwo(s, '-');
    var x, y := Split(s, '-')[0], Split(s, '-')[1];
    DashlessAtoi(x, a);
    DashlessAtoi(y, b);
    assert s == x + "-" + y;
  }

  /** The parser accepts exactly the texts of a range, with the values they denote. */
  lemma ParsesExactlyRanges(s: string, a: int, b: int)
    ensures ParseSubBlocks(s) == Success((a, b)) <==> DenotesRange(s, a, b)
  {
    if DenotesRange(s, a, b) {
      if Denotes(s, a) && a == b {
        DenotesHasNoDash(s, a);
        DashlessAtoi(s, a);
      } else {
        var x, y :| s == x + "-" + y && Denotes(x, a) && Denotes(y, b);
        RangeText(x, y, a, b);
      }
    } else if ParseSubBlocks(s) == Success((a, b)) {
      if '-' in s {
        ParsedRange(s, a, b);
      } else {
        DashlessAtoi(s, a);
      }
    }
  }

  /** A sign cannot survive the split at dashes, so every accepted range is non-negative and ordered. */
  lemma AcceptedRangesAreOrdered(s: string)
    requires ParseSubBlocks(s).Success?
    ensures 0 <= ParseSubBlocks(s).value.0 <= ParseSubBlocks(s).value.1 <= MAX_INT
  {
    var (a, b) := ParseSubBlocks(s).value;
    ParsesExactlyRanges(s, a, b);
  }

  lemma FormatDenotes(a: nat)
    requires a <= MAX_INT
    ensures Denotes(FormatIndex(a), a)
  {
    assert IsDigit(FormatIndex(a)[0]);
  }

  /** Parsing undoes the %04d rendering of a range and of a single index. */
  lemma ParseUndoesPrinting(a: nat, b: nat)
    requires a <= b <= MAX_INT
    ensures ParseSubBlocks(FormatIndex(a) + "-" + FormatIndex(b)) == Success((a, b))
    ensures ParseSubBlocks(FormatIndex(a)) == Success((a, a))
  {
    FormatDenotes(a);
    FormatDenotes(b);
    ParsesExactlyRanges(FormatIndex(a) + "-" + FormatIndex(b), a, b);
    ParsesExactlyRanges(FormatIndex(a), a, a);
  }

  /* ---- for i := start; i <= end; i++ over a 64-bit int ---- */

  function Increment(i: int): int {
    if i == MAX_INT then MIN_INT else i + 1
  }

  /** The loop variable after `k` increments. */
  function IndexAfter(start: int, k: nat): int {
    if k == 0 then start else Increment(IndexAfter(start, k - 1))
  }

  /** Within the integer range the loop variable counts up from the start. */
  lemma {:induction false} IndexCountsUp(start: int, k: nat)
    requires start + k <= MAX_INT
    ensures IndexAfter(start, k) == start + k
  {
    if k > 0 {
      IndexCountsUp(start, k - 1);
    }
  }

  lemma {:induction false} IndexStaysInRange(start: int, k: nat)
    requires start <= MAX_INT
    ensures IndexAfter(start, k) <= MAX_INT
  {
    if k > 0 {
      IndexStaysInRange(start, k - 1);
    }
  }

  /** The index loop ends exactly when its bound is not the largest int, which no index exceeds. */
  lemma LoopEndsIffBoundBelowMaximum(start: int, end: int)
    requires start <= end <= MAX_INT
    ensures (exists k: nat :: IndexAfter(start, k) > end) <==> end < MAX_INT
    ensures end < MAX_INT ==>
              && IndexAfter(start, end - start + 1) > end
              && forall k: nat :: k <= end - start ==> IndexAfter(start, k) == start + k <= end
  {
    hide IndexAfter;
    forall k: nat ensures IndexAfter(start, k) <= MAX_INT {
      IndexStaysInRange(start, k);
    }
    forall k: nat | start + k <= MAX_INT ensures IndexAfter(start, k) == start + k {
      IndexCountsUp(start, k);
    }
    if end < MAX_INT {
      IndexCountsUp(start, end - start + 1);
    }
  }
}
