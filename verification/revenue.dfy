/** The revenue figures of the transactions hook: sums of successful payment
    amounts over all time, since the start of the current month, and over the
    last seven days. The clock is an input: `now` is the current instant and
    `monthStart` the first day of the current month at local midnight. */
module Revenue {
  import opened Database
  import opened Seqs

  datatype RevenueStats = RevenueStats(total: int, thisMonth: int, thisWeek: int)

  const NoRevenue := RevenueStats(0, 0, 0)

  /** Seven days of 24 hours, in milliseconds. */
  const WeekMillis: int := 7 * 24 * 60 * 60 * 1000

  predicate IsSuccessful(t: Transaction) {
    t.status == TransactionStatus.Success
  }

  function Amount(t: Transaction): int {
    t.amount
  }

  /** The test `new Date(t.created_at) >= cutoff`: inclusive. */
  function CreatedSince(cutoff: int): Transaction -> bool {
    (t: Transaction) => t.createdAt >= cutoff
  }

  function CreatedBefore(cutoff: int): Transaction -> bool {
    (t: Transaction) => t.createdAt < cutoff
  }

  /** The start of the rolling week window: exactly seven days before `now`. */
  function WeekStart(now: int): int {
    now - WeekMillis
  }

  /** The successful transactions created at or after `cutoff`. */
  function SuccessfulSince(ts: seq<Transaction>, cutoff: int): seq<Transaction> {
    Filter(Filter(ts, IsSuccessful), CreatedSince(cutoff))
  }

  /** `getRevenueStats()` */
  function GetRevenueStats(ts: seq<Transaction>, now: int, monthStart: int): (r: RevenueStats)
    ensures ts == [] ==> r == NoRevenue
  {
    if |ts| == 0 then NoRevenue
    else
      var successful := Filter(ts, IsSuccessful);
      RevenueStats(
        SumOf(successful, Amount),
        SumOf(SuccessfulSince(ts, monthStart), Amount),
        SumOf(SuccessfulSince(ts, WeekStart(now)), Amount))
  }

  // --------------------------------------------------- a one-pass reference

  /** The three sums without the empty-list shortcut. */
  function Sums(ts: seq<Transaction>, now: int, monthStart: int): RevenueStats {
    RevenueStats(
      SumOf(Filter(ts, IsSuccessful), Amount),
      SumOf(SuccessfulSince(ts, monthStart), Amount),
      SumOf(SuccessfulSince(ts, WeekStart(now)), Amount))
  }

  /** What one transaction adds to each of the three running sums. */
  function Step(acc: RevenueStats, t: Transaction, now: int, monthStart: int): RevenueStats {
    if t.status != TransactionStatus.Success then acc
    else RevenueStats(
      acc.total + t.amount,
      acc.thisMonth + (if t.createdAt >= monthStart then t.amount else 0),
      acc.thisWeek + (if t.createdAt >= WeekStart(now) then t.amount else 0))
  }

  /** The three sums computed in a single pass over the list, each
      transaction considered once; it agrees with the filter-and-reduce
      definition above on every input. */
  method ComputeRevenueStats(ts: seq<Transaction>, now: int, monthStart: int)
    returns (r: RevenueStats)
    ensures r == GetRevenueStats(ts, now, monthStart)
  {
    var acc := NoRevenue;
    var i := 0;
    while i < |ts|
      invariant 0 <= i <= |ts|
      invariant acc == Sums(ts[..i], now, monthStart)
    {
      assert ts[..i + 1] == ts[..i] + [ts[i]];
      SumsSnoc(ts[..i], ts[i], now, monthStart);
      acc := Step(acc, ts[i], now, monthStart);
      i := i + 1;
    }
    assert ts[..i] == ts;
    if |ts| == 0 {
      r := NoRevenue;
    } else {
      r := acc;
    }
  }

  /** Appending a transaction to the list steps the sums by it. */
  lemma SumsSnoc(ts: seq<Transaction>, t: Transaction, now: int, monthStart: int)
    ensures Sums(ts + [t], now, monthStart) == Step(Sums(ts, now, monthStart), t, now, monthStart)
  {
    SuccessfulSnoc(ts, t);
    SuccessfulSinceSnoc(ts, t, monthStart);
    SuccessfulSinceSnoc(ts, t, WeekStart(now));
  }

  /** Appending one transaction adds its amount to the total exactly when it
      succeeded. */
  lemma SuccessfulSnoc(ts: seq<Transaction>, t: Transaction)
    ensures SumOf(Filter(ts + [t], IsSuccessful), Amount)
         == SumOf(Filter(ts, IsSuccessful), Amount) + (if IsSuccessful(t) then t.amount else 0)
  {
    FilterConcat(ts, [t], IsSuccessful);
    SumConcat(Filter(ts, IsSuccessful), Filter([t], IsSuccessful), Amount);
    if IsSuccessful(t) {
      assert Filter([t], IsSuccessful) == [t];
      assert SumOf([t], Amount) == t.amount;
    } else {
      assert Filter([t], IsSuccessful) == [];
    }
  }

  /** Appending one transaction adds its amount to a window's sum exactly
      when it succeeded and falls inside the window. */
  lemma SuccessfulSinceSnoc(ts: seq<Transaction>, t: Transaction, cutoff: int)
    ensures SumOf(SuccessfulSince(ts + [t], cutoff), Amount)
         == SumOf(SuccessfulSince(ts, cutoff), Amount)
            + (if IsSuccessful(t) && t.createdAt >= cutoff then t.amount else 0)
  {
    FilterConcat(ts, [t], IsSuccessful);
    var s := Filter(ts, IsSuccessful);
    var st := Filter([t], IsSuccessful);
    FilterConcat(s, st, CreatedSince(cutoff));
    SumConcat(Filter(s, CreatedSince(cutoff)), Filter(st, CreatedSince(cutoff)), Amount);
    if IsSuccessful(t) {
      assert st == [t];
      if t.createdAt >= cutoff {
        assert Filter(st, CreatedSince(cutoff)) == [t];
        assert SumOf([t], Amount) == t.amount;
      } else {
        assert Filter(st, CreatedSince(cutoff)) == [];
      }
    } else {
      assert st == [];
    }
  }

  // ------------------------------------------------------------- properties

  /** A pending, failed or cancelled transaction changes none of the three
      figures, wherever it sits in the list. */
  lemma UnsuccessfulIgnored(a: seq<Transaction>, t: Transaction, b: seq<Transaction>, now: int, monthStart: int)
    requires t.status != TransactionStatus.Success
    ensures GetRevenueStats(a + [t] + b, now, monthStart) == GetRevenueStats(a + b, now, monthStart)
  {
    var x, y := a + [t] + b, a + b;
    FilterConcat(a + [t], b, IsSuccessful);
    FilterConcat(a, [t], IsSuccessful);
    FilterConcat(a, b, IsSuccessful);
    assert Filter([t], IsSuccessful) == [];
    assert Filter(a + [t], IsSuccessful) == Filter(a, IsSuccessful);
    assert Filter(x, IsSuccessful) == Filter(y, IsSuccessful);
    var sx := Filter(x, IsSuccessful);
    assert SuccessfulSince(x, monthStart) == Filter(sx, CreatedSince(monthStart));
    assert SuccessfulSince(x, monthStart) == SuccessfulSince(y, monthStart);
    assert SuccessfulSince(x, WeekStart(now)) == SuccessfulSince(y, WeekStart(now));
    if y == [] {
      assert sx == [];
      assert GetRevenueStats(y, now, monthStart) == NoRevenue;
      assert SumOf(sx, Amount) == 0;
      assert Filter(sx, CreatedSince(monthStart)) == [];
      assert Filter(sx, CreatedSince(WeekStart(now))) == [];
      assert GetRevenueStats(x, now, monthStart) == NoRevenue;
    } else {
      assert GetRevenueStats(x, now, monthStart) == GetRevenueStats(y, now, monthStart);
    }
  }

  /** The month and week figures sum sub-multisets of the successful
      transactions, so with non-negative amounts neither exceeds the total. */
  lemma WindowsWithinTotal(ts: seq<Transaction>, now: int, monthStart: int)
    requires forall i :: 0 <= i < |ts| ==> ts[i].amount >= 0
    ensures multiset(SuccessfulSince(ts, monthStart)) <= multiset(Filter(ts, IsSuccessful))
    ensures multiset(SuccessfulSince(ts, WeekStart(now))) <= multiset(Filter(ts, IsSuccessful))
    ensures 0 <= GetRevenueStats(ts, now, monthStart).thisMonth <= GetRevenueStats(ts, now, monthStart).total
    ensures 0 <= GetRevenueStats(ts, now, monthStart).thisWeek <= GetRevenueStats(ts, now, monthStart).total
  {
    var s := Filter(ts, IsSuccessful);
    FilterIsSubseq(s, CreatedSince(monthStart));
    FilterIsSubseq(s, CreatedSince(WeekStart(now)));
    SumFilterBound(ts, IsSuccessful, Amount);
    SumFilterBound(s, CreatedSince(monthStart), Amount);
    SumFilterBound(s, CreatedSince(WeekStart(now)), Amount);
  }

  /** When the rolling week lies inside the month (from the eighth day of the
      month on) the week's figure is at most the month's, and during the
      first seven days it is at least the month's: the two windows differ in
      kind, one calendar-based and one rolling. */
  lemma WeekAgainstMonth(ts: seq<Transaction>, now: int, monthStart: int)
    requires forall i :: 0 <= i < |ts| ==> ts[i].amount >= 0
    ensures monthStart <= WeekStart(now) ==>
      GetRevenueStats(ts, now, monthStart).thisWeek <= GetRevenueStats(ts, now, monthStart).thisMonth
    ensures WeekStart(now) <= monthStart ==>
      GetRevenueStats(ts, now, monthStart).thisMonth <= GetRevenueStats(ts, now, monthStart).thisWeek
  {
    var s := Filter(ts, IsSuccessful);
    assert forall i :: 0 <= i < |s| ==> s[i].amount >= 0;
    if monthStart <= WeekStart(now) {
      SumFilterMonotone(s, CreatedSince(WeekStart(now)), CreatedSince(monthStart), Amount);
    }
    if WeekStart(now) <= monthStart {
      SumFilterMonotone(s, CreatedSince(monthStart), CreatedSince(WeekStart(now)), Amount);
    }
  }

  /** The total is this month's figure plus the successful amounts from
      before the month started. */
  lemma TotalSplitsAtMonthStart(ts: seq<Transaction>, now: int, monthStart: int)
    ensures GetRevenueStats(ts, now, monthStart).total
         == GetRevenueStats(ts, now, monthStart).thisMonth
            + SumOf(Filter(Filter(ts, IsSuccessful), CreatedBefore(monthStart)), Amount)
  {
    SumPartition(Filter(ts, IsSuccessful), CreatedSince(monthStart), CreatedBefore(monthStart), Amount);
  }

  /** A successful payment made exactly at the start of the month counts for
      the month (the bound is inclusive); one made a millisecond earlier does
      not, but still counts for the total. */
  lemma MonthBoundaryInclusive(t: Transaction, now: int, monthStart: int)
    requires t.status == TransactionStatus.Success
    ensures t.createdAt == monthStart ==> GetRevenueStats([t], now, monthStart).thisMonth == t.amount
    ensures t.createdAt == monthStart - 1 ==>
      GetRevenueStats([t], now, monthStart).thisMonth == 0 &&
      GetRevenueStats([t], now, monthStart).total == t.amount
  {
    assert Filter([t], IsSuccessful) == [t];
    assert SumOf([t], Amount) == t.amount;
    if t.createdAt == monthStart {
      assert Filter([t], CreatedSince(monthStart)) == [t];
    }
    if t.createdAt == monthStart - 1 {
      assert Filter([t], CreatedSince(monthStart)) == [];
    }
  }
}
