/** Business days as pandas' "B" frequency sees them: Monday to Friday, no
    holidays.  A date is a day number whose weekday is `d % 7`, with 0..4 standing
    for Monday..Friday and 5, 6 for Saturday and Sunday. */
module Calendar {

  predicate IsBusinessDay(d: int)
  {
    d % 7 < 5
  }

  /** The date itself when it is a business day, else the following Monday: where
      a business-day range that starts on `d` begins. */
  function RollForward(d: int): (r: int)
    ensures r >= d && IsBusinessDay(r)
    ensures forall x :: d <= x < r ==> !IsBusinessDay(x)
  {
    if IsBusinessDay(d) then d else if d % 7 == 5 then d + 2 else d + 1
  }

  /** The first business day strictly after `d`. */
  function NextBusinessDay(d: int): (r: int)
    ensures r > d && IsBusinessDay(r)
    ensures forall x :: d < x < r ==> !IsBusinessDay(x)
  {
    RollForward(d + 1)
  }

  /** `n` consecutive business days starting with `first`. */
  function BusinessDaysFrom(first: int, n: nat): (r: seq<int>)
    ensures |r| == n
    ensures n > 0 ==> r[0] == first
    decreases n
  {
    if n == 0 then [] else [first] + BusinessDaysFrom(NextBusinessDay(first), n - 1)
  }

  /** `pd.bdate_range(start=d, periods=n)`. */
  function BDateRange(d: int, n: nat): (r: seq<int>)
    ensures |r| == n
    ensures BusinessRun(r)
    ensures n > 0 ==> r[0] >= d && forall x :: d <= x < r[0] ==> !IsBusinessDay(x)
  {
    BusinessDaysFromRun(RollForward(d), n);
    BusinessDaysFrom(RollForward(d), n)
  }

  /** Consecutive business days: each one the business day after the one before. */
  predicate BusinessRun(r: seq<int>)
  {
    (forall k :: 0 <= k < |r| ==> IsBusinessDay(r[k])) &&
    (forall k :: 0 < k < |r| ==> r[k] == NextBusinessDay(r[k - 1]))
  }

  lemma {:induction false} BusinessDaysFromRun(first: int, n: nat)
    requires IsBusinessDay(first)
    ensures BusinessRun(BusinessDaysFrom(first, n))
    decreases n
  {
    if n > 0 {
      BusinessDaysFromRun(NextBusinessDay(first), n - 1);
    }
  }

  /** A business run increases strictly and leaves out no business day between
      its first and its last date. */
  lemma {:induction false} BusinessRunIncreasing(r: seq<int>)
    requires BusinessRun(r)
    ensures forall i, j :: 0 <= i < j < |r| ==> r[i] < r[j]
    ensures forall k, x :: 0 < k < |r| && r[k - 1] < x < r[k] ==> !IsBusinessDay(x)
  {
    if |r| > 1 {
      var init := r[..|r| - 1];
      assert BusinessRun(init);
      BusinessRunIncreasing(init);
      forall i | 0 <= i < |r| - 1 ensures r[i] < r[|r| - 1] {
        assert r[i] <= r[|r| - 2];
      }
    }
  }
}
