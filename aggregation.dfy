/** The second stage of a pass, as values: the daily run-length grouping built oldest-first
    with a trailing current date, the hourly histogram of today's transactions, the recent
    list and the daily average. The dashboard's aggregation loop is proved against these. */
module Aggregation {
  import opened Types

  /** The initial current date; the date library never formats a real day like this. */
  const Sentinel: string := "0000-00-00"

  /** How many recent transactions the table shows. */
  const RecentLimit: nat := 5

  // ----- sequences -----

  function Sum(xs: seq<nat>): nat {
    if xs == [] then 0 else Sum(xs[..|xs| - 1]) + xs[|xs| - 1]
  }

  /** A reversed copy: the first element of the result is the last of the input. */
  function Reversed<T>(s: seq<T>): (r: seq<T>)
    ensures |r| == |s|
    ensures forall i :: 0 <= i < |s| ==> r[i] == s[|s| - 1 - i]
  {
    if s == [] then [] else [s[|s| - 1]] + Reversed(s[..|s| - 1])
  }

  /** Incrementing one entry in place adds one to the sum. */
  lemma {:induction false} SumIncrement(xs: seq<nat>, i: nat)
    requires i < |xs|
    ensures Sum(xs[i := xs[i] + 1]) == Sum(xs) + 1
  {
    var ys := xs[i := xs[i] + 1];
    var n := |xs| - 1;
    if i == n {
      assert ys[..n] == xs[..n];
    } else {
      SumIncrement(xs[..n], i);
      assert ys[..n] == xs[..n][i := xs[i] + 1];
    }
  }

  // ----- the daily grouping -----

  /** The daily series: the labels, the count of each, and the trailing current date. */
  datatype Daily = Daily(categories: seq<string>, data: seq<nat>, current: string)

  const Start: Daily := Daily([], [], Sentinel)

  /** One transaction's day: a day differing from the current date opens a new entry with
      count 0; then the last entry's count is incremented. On an empty series (possible only
      for a day equal to the sentinel) the increment `data[-1]++` touches no entry. */
  function Step(d: Daily, day: string): Daily {
    var started := if day != d.current then Daily(d.categories + [day], d.data + [0], day) else d;
    var n := |started.data|;
    if n == 0 then started else started.(data := started.data[n - 1 := started.data[n - 1] + 1])
  }

  /** The daily series after visiting `days` in order. */
  function Fold(days: seq<string>): Daily {
    if days == [] then Start else Step(Fold(days[..|days| - 1]), days[|days| - 1])
  }

  /** Visiting one more day is one more step. */
  lemma FoldNext(txs: seq<Transaction>, tx: Transaction, clock: Clock)
    ensures DaysOf(txs + [tx], clock) == DaysOf(txs, clock) + [clock(tx.timestamp).day]
    ensures Fold(DaysOf(txs + [tx], clock)) == Step(Fold(DaysOf(txs, clock)), clock(tx.timestamp).day)
  {
    assert (txs + [tx])[..|txs|] == txs;
    var days := DaysOf(txs + [tx], clock);
    assert days[..|days| - 1] == DaysOf(txs, clock);
  }

  /** The day of every transaction, in the order given. */
  function DaysOf(txs: seq<Transaction>, clock: Clock): (days: seq<string>)
    ensures |days| == |txs|
    ensures forall i :: 0 <= i < |txs| ==> days[i] == clock(txs[i].timestamp).day
  {
    if txs == [] then [] else DaysOf(txs[..|txs| - 1], clock) + [clock(txs[|txs| - 1].timestamp).day]
  }

  /** What holds of every daily series the fold can build: labels and counts pair up,
      every count is at least one, no two neighbouring labels are equal, and the current
      date is the last label, or still the sentinel while there is none. */
  ghost predicate WellFormed(d: Daily) {
    && |d.categories| == |d.data|
    && (forall k :: 0 <= k < |d.data| ==> d.data[k] >= 1)
    && (forall k :: 0 < k < |d.categories| ==> d.categories[k - 1] != d.categories[k])
    && (d.categories == [] ==> d.current == Sentinel)
    && (d.categories != [] ==> d.current == d.categories[|d.categories| - 1])
  }

  lemma {:induction false} StepWellFormed(d: Daily, day: string)
    requires WellFormed(d)
    ensures WellFormed(Step(d, day))
  {
  }

  /** Whatever the days, the fold builds a well-formed series. */
  lemma {:induction false} FoldWellFormed(days: seq<string>)
    ensures WellFormed(Fold(days))
  {
    if days != [] {
      FoldWellFormed(days[..|days| - 1]);
      StepWellFormed(Fold(days[..|days| - 1]), days[|days| - 1]);
    }
  }

  /** The first day is a real one, so it opens the first entry. */
  predicate RealStart(days: seq<string>) {
    days == [] || days[0] != Sentinel
  }

  /** `x` repeated `m` times. */
  function Repeat(x: string, m: nat): (r: seq<string>)
    ensures |r| == m && forall i :: 0 <= i < m ==> r[i] == x
  {
    seq(m, _ => x)
  }

  /** Run-length decoding: each label repeated as often as its count says. */
  function Expand(cats: seq<string>, data: seq<nat>): seq<string>
    requires |cats| == |data|
  {
    if cats == [] then []
    else Expand(cats[..|cats| - 1], data[..|data| - 1]) + Repeat(cats[|cats| - 1], data[|data| - 1])
  }

  lemma {:induction false} ExpandLength(cats: seq<string>, data: seq<nat>)
    requires |cats| == |data|
    ensures |Expand(cats, data)| == Sum(data)
  {
    if cats != [] {
      ExpandLength(cats[..|cats| - 1], data[..|data| - 1]);
    }
  }

  lemma {:induction false} ExpandBump(cats: seq<string>, data: seq<nat>)
    requires |cats| == |data| > 0
    ensures var n := |data| - 1;
      Expand(cats, data[n := data[n] + 1]) == Expand(cats, data) + [cats[n]]
  {
    var n := |data| - 1;
    var data' := data[n := data[n] + 1];
    assert data'[..n] == data[..n];
    assert Repeat(cats[n], data[n] + 1) == Repeat(cats[n], data[n]) + [cats[n]];
  }

  lemma {:induction false} ExpandOpen(cats: seq<string>, data: seq<nat>, day: string)
    requires |cats| == |data|
    ensures Expand(cats + [day], data + [0]) == Expand(cats, data)
  {
    assert (cats + [day])[..|cats|] == cats;
    assert (data + [0])[..|data|] == data;
  }

  /** One step keeps the series decoding to the days visited, extended by the new day. */
  lemma {:induction false} StepDecodes(d: Daily, day: string)
    requires WellFormed(d)
    requires d.categories == [] ==> day != Sentinel
    ensures var e := Step(d, day);
      |e.categories| == |e.data| && e.data != []
      && Expand(e.categories, e.data) == Expand(d.categories, d.data) + [day]
  {
    if day != d.current {
      ExpandOpen(d.categories, d.data, day);
      ExpandBump(d.categories + [day], d.data + [0]);
    } else {
      ExpandBump(d.categories, d.data);
    }
  }

  /** The daily series is the run-length encoding of the days: decoding it gives back
      exactly the days visited, in order. */
  lemma {:induction false} FoldDecodes(days: seq<string>)
    requires RealStart(days)
    ensures var d := Fold(days); |d.categories| == |d.data| && Expand(d.categories, d.data) == days
    ensures days != [] ==> Fold(days).data != []
  {
    if days != [] {
      var prev := days[..|days| - 1];
      var day := days[|days| - 1];
      assert days == prev + [day];
      FoldDecodes(prev);
      FoldDecodesStep(prev, day);
    }
  }

  lemma {:induction false} FoldDecodesStep(prev: seq<string>, day: string)
    requires RealStart(prev + [day])
    requires var d := Fold(prev); |d.categories| == |d.data| && Expand(d.categories, d.data) == prev
    ensures var e := Fold(prev + [day]);
      |e.categories| == |e.data| && e.data != [] && Expand(e.categories, e.data) == prev + [day]
  {
    FoldWellFormed(prev);
    var d := Fold(prev);
    if prev == [] {
      assert day == (prev + [day])[0];
    } else {
      assert d.categories != [];
    }
    StepDecodes(d, day);
    assert (prev + [day])[..|prev|] == prev;
  }

  /** The counts add up to the number of transactions visited. */
  lemma {:induction false} FoldCountsAll(days: seq<string>)
    requires RealStart(days)
    ensures Sum(Fold(days).data) == |days|
  {
    FoldDecodes(days);
    ExpandLength(Fold(days).categories, Fold(days).data);
  }

  /** After a step the current date is the day just visited. */
  lemma {:induction false} FoldCurrent(days: seq<string>)
    ensures Fold(days).current == if days == [] then Sentinel else days[|days| - 1]
  {
  }

  /** A transaction opens a new daily entry exactly when its day differs from the day of
      the transaction before it; the first one always opens one, since no real day equals
      the sentinel. The new entry is labelled with its day. */
  lemma {:induction false} StepOpensIffNewDay(days: seq<string>, day: string)
    requires RealStart(days + [day])
    ensures var before := Fold(days).categories; var after := Fold(days + [day]).categories;
      && (|after| == |before| + 1 <==> days == [] || days[|days| - 1] != day)
      && (|after| == |before| <==> days != [] && days[|days| - 1] == day)
      && (|after| == |before| + 1 ==> after[|after| - 1] == day)
  {
    var all := days + [day];
    assert all[..|all| - 1] == days;
    FoldCurrent(days);
    if days == [] {
      assert day == all[0];
    }
  }

  /** Runs of the same day that are not adjacent are not merged. */
  lemma SeparateRunsStaySeparate(a: string, b: string)
    requires a != b && a != Sentinel
    ensures Fold([a, b, a]) == Daily([a, b, a], [1, 1, 1], a)
  {
    assert [a, b, a][..2] == [a, b];
    assert [a, b][..1] == [a];
    assert [a][..0] == [];
    assert Fold([a]) == Daily([a], [1], a);
    assert Fold([a, b]) == Daily([a, b], [1, 1], b);
  }

  /** Two transactions on one day followed by one on the next give two entries, counts
      2 and 1, and an average of 1.5 per day. */
  lemma TwoDaysExample(a: string, b: string)
    requires a != b && a != Sentinel
    ensures Fold([a, a, b]) == Daily([a, b], [2, 1], b)
    ensures Average(Fold([a, a, b]).data) == 1.5
  {
    assert [a, a, b][..2] == [a, a];
    assert [a, a][..1] == [a];
    assert [a][..0] == [];
    assert Fold([a]) == Daily([a], [1], a);
    assert Fold([a, a]) == Daily([a], [2], a);
    assert [2, 1][..1] == [2];
    assert [2][..0] == [];
  }

  /** As written, a first day labelled like the sentinel opens no entry and its increment
      is lost: the series stays empty. */
  lemma SentinelDayIsLost()
    ensures Fold([Sentinel]) == Start
  {
    assert [Sentinel][..0] == [];
  }

  // ----- the hourly histogram -----

  /** The number of transactions on day `today`. */
  function TodayCount(txs: seq<Transaction>, today: string, clock: Clock): nat {
    if txs == [] then 0
    else TodayCount(txs[..|txs| - 1], today, clock)
         + (if clock(txs[|txs| - 1].timestamp).day == today then 1 else 0)
  }

  /** The number of transactions on day `today` at hour `h`. */
  function HourCount(txs: seq<Transaction>, today: string, clock: Clock, h: Hour): nat {
    if txs == [] then 0
    else
      var t := clock(txs[|txs| - 1].timestamp);
      HourCount(txs[..|txs| - 1], today, clock, h) + (if t.day == today && t.hour == h then 1 else 0)
  }

  /** The 24 hourly slots after visiting `txs`: they start at zero, and a transaction on
      day `today` increments the slot of its hour. */
  function Histogram(txs: seq<Transaction>, today: string, clock: Clock): (hist: seq<nat>)
    ensures |hist| == 24
  {
    if txs == [] then seq(24, _ => 0)
    else
      var prev := Histogram(txs[..|txs| - 1], today, clock);
      var t := clock(txs[|txs| - 1].timestamp);
      if t.day == today then prev[t.hour := prev[t.hour] + 1] else prev
  }

  /** Visiting one more transaction increments today's count and its hour's slot when it is
      on day `today`, and changes neither otherwise. */
  lemma HistogramNext(txs: seq<Transaction>, tx: Transaction, today: string, clock: Clock)
    ensures var t := clock(tx.timestamp); var h := Histogram(txs, today, clock);
      && Histogram(txs + [tx], today, clock) == (if t.day == today then h[t.hour := h[t.hour] + 1] else h)
      && TodayCount(txs + [tx], today, clock)
         == TodayCount(txs, today, clock) + (if t.day == today then 1 else 0)
  {
    assert (txs + [tx])[..|txs|] == txs;
  }

  /** The state the aggregation loop carries: the daily series, today's count and the 24
      hourly slots. */
  datatype Tallied = Tallied(daily: Daily, count: nat, hourly: seq<nat>)

  /** One iteration on the loop state for a transaction at local time `t`. */
  function Advance(s: Tallied, t: LocalTime, today: string): (r: Tallied)
    requires |s.hourly| == 24
    ensures |r.hourly| == 24
  {
    Tallied(Step(s.daily, t.day),
            s.count + (if t.day == today then 1 else 0),
            if t.day == today then s.hourly[t.hour := s.hourly[t.hour] + 1] else s.hourly)
  }

  /** The loop state after the first `i` transactions of `chron`, from the zeroed start. */
  function TallyUpTo(chron: seq<Transaction>, i: nat, today: string, clock: Clock): (r: Tallied)
    requires i <= |chron|
    ensures |r.hourly| == 24
  {
    if i == 0 then Tallied(Start, 0, seq(24, _ => 0))
    else Advance(TallyUpTo(chron, i - 1, today, clock), clock(chron[i - 1].timestamp), today)
  }

  /** After `i` transactions the loop's daily series is the fold of their days. */
  lemma {:induction false} TallyDaily(chron: seq<Transaction>, i: nat, today: string, clock: Clock)
    requires i <= |chron|
    ensures TallyUpTo(chron, i, today, clock).daily == Fold(DaysOf(chron[..i], clock))
  {
    if i == 0 {
      assert chron[..0] == [];
    } else {
      var pre, tx := chron[..i - 1], chron[i - 1];
      assert chron[..i] == pre + [tx];
      var prev := TallyUpTo(chron, i - 1, today, clock);
      assert TallyUpTo(chron, i, today, clock).daily == Step(prev.daily, clock(tx.timestamp).day);
      TallyDaily(chron, i - 1, today, clock);
      FoldNext(pre, tx, clock);
    }
  }

  /** After `i` transactions the loop's count is the number of them that fall on `today`. */
  lemma {:induction false} TallyCount(chron: seq<Transaction>, i: nat, today: string, clock: Clock)
    requires i <= |chron|
    ensures TallyUpTo(chron, i, today, clock).count == TodayCount(chron[..i], today, clock)
  {
    if i == 0 {
      assert chron[..0] == [];
    } else {
      var pre, tx := chron[..i - 1], chron[i - 1];
      assert chron[..i] == pre + [tx];
      TallyCount(chron, i - 1, today, clock);
      HistogramNext(pre, tx, today, clock);
    }
  }

  /** After `i` transactions the loop's 24 slots are the histogram of them. */
  lemma {:induction false} TallyHourly(chron: seq<Transaction>, i: nat, today: string, clock: Clock)
    requires i <= |chron|
    ensures TallyUpTo(chron, i, today, clock).hourly == Histogram(chron[..i], today, clock)
  {
    if i == 0 {
      assert chron[..0] == [];
    } else {
      var pre, tx := chron[..i - 1], chron[i - 1];
      assert chron[..i] == pre + [tx];
      var prev, t := TallyUpTo(chron, i - 1, today, clock), clock(tx.timestamp);
      assert TallyUpTo(chron, i, today, clock).hourly
        == if t.day == today then prev.hourly[t.hour := prev.hourly[t.hour] + 1] else prev.hourly;
      TallyHourly(chron, i - 1, today, clock);
      HistogramNext(pre, tx, today, clock);
    }
  }

  /** After all of `chron` the loop state is the specification of the whole pass. */
  lemma TallyComplete(chron: seq<Transaction>, today: string, clock: Clock)
    ensures TallyUpTo(chron, |chron|, today, clock)
      == Tallied(Fold(DaysOf(chron, clock)), TodayCount(chron, today, clock), Histogram(chron, today, clock))
  {
    assert chron[..|chron|] == chron;
    TallyDaily(chron, |chron|, today, clock);
    TallyCount(chron, |chron|, today, clock);
    TallyHourly(chron, |chron|, today, clock);
  }

  /** Slot `h` holds the number of today's transactions at hour `h`. */
  lemma {:induction false} HistogramCounts(txs: seq<Transaction>, today: string, clock: Clock, h: Hour)
    ensures Histogram(txs, today, clock)[h] == HourCount(txs, today, clock, h)
  {
    if txs != [] {
      HistogramCounts(txs[..|txs| - 1], today, clock, h);
    }
  }

  /** The slots add up to the number of today's transactions. */
  lemma {:induction false} HistogramSum(txs: seq<Transaction>, today: string, clock: Clock)
    ensures Sum(Histogram(txs, today, clock)) == TodayCount(txs, today, clock)
  {
    if txs == [] {
      var z: seq<nat> := seq(24, _ => 0);
      ZerosSum(z);
    } else {
      var prev := txs[..|txs| - 1];
      HistogramSum(prev, today, clock);
      var t := clock(txs[|txs| - 1].timestamp);
      if t.day == today {
        SumIncrement(Histogram(prev, today, clock), t.hour);
      }
    }
  }

  lemma {:induction false} ZerosSum(z: seq<nat>)
    requires forall i :: 0 <= i < |z| ==> z[i] == 0
    ensures Sum(z) == 0
  {
    if z != [] {
      ZerosSum(z[..|z| - 1]);
    }
  }

  /** Today's transactions are among all of them. */
  lemma {:induction false} TodayCountBound(txs: seq<Transaction>, today: string, clock: Clock)
    ensures TodayCount(txs, today, clock) <= |txs|
  {
    if txs != [] {
      TodayCountBound(txs[..|txs| - 1], today, clock);
    }
  }

  // ----- the recent list and the average -----

  /** The first `min(len, 5)` transactions of the newest-first list, in the same order. */
  function Recent(txs: seq<Transaction>): (r: seq<Transaction>)
    ensures |r| <= RecentLimit && |r| <= |txs|
    ensures |r| == |txs| || |r| == RecentLimit
    ensures forall k :: 0 <= k < |r| ==> r[k] == txs[k]
  {
    txs[..if |txs| < RecentLimit then |txs| else RecentLimit]
  }

  /** Seen from the oldest-first order the aggregation visits, the recent list is its last
      `min(len, 5)` transactions, newest first. */
  lemma {:induction false} RecentAreLatest(txs: seq<Transaction>)
    ensures var chron := Reversed(txs); var k := |Recent(txs)|;
      Recent(txs) == Reversed(chron[|chron| - k..])
  {
    var n := |txs|;
    var chron := Reversed(txs);
    var recent := Recent(txs);
    var k := |recent|;
    var tail := chron[n - k..];
    var r := Reversed(tail);
    assert |r| == k;
    forall i | 0 <= i < k
      ensures r[i] == recent[i]
    {
      assert r[i] == tail[k - 1 - i];
      assert tail[k - 1 - i] == chron[n - 1 - i];
      assert chron[n - 1 - i] == txs[i];
    }
  }

  /** The mean daily count; 0 when there are no days. */
  function Average(data: seq<nat>): (r: real)
    ensures data == [] ==> r == 0.0
    ensures data != [] ==> r * (|data| as real) == Sum(data) as real
  {
    if |data| == 0 then 0.0 else (Sum(data) as real) / (|data| as real)
  }

  /** The mean lies between the smallest and the largest count. */
  lemma {:induction false} AverageBetween(data: seq<nat>, lo: nat, hi: nat)
    requires data != []
    requires forall k :: 0 <= k < |data| ==> lo <= data[k] <= hi
    ensures lo as real <= Average(data) <= hi as real
  {
    SumAtLeast(data, lo);
    SumAtMost(data, hi);
    QuotientBetween(Sum(data) as real, |data| as real, lo as real, hi as real);
  }

  lemma QuotientBetween(a: real, n: real, lo: real, hi: real)
    requires n > 0.0 && lo * n <= a <= hi * n
    ensures lo <= a / n <= hi
  {
  }

  lemma MeanAtLeastOne(total: nat, n: nat)
    requires 0 < n <= total
    ensures (total as real) / (n as real) >= 1.0
  {
  }

  lemma {:induction false} SumAtLeast(data: seq<nat>, lo: nat)
    requires forall k :: 0 <= k < |data| ==> lo <= data[k]
    ensures lo * |data| <= Sum(data)
  {
    if data != [] {
      SumAtLeast(data[..|data| - 1], lo);
    }
  }

  lemma {:induction false} SumAtMost(data: seq<nat>, hi: nat)
    requires forall k :: 0 <= k < |data| ==> data[k] <= hi
    ensures Sum(data) <= hi * |data|
  {
    if data != [] {
      SumAtMost(data[..|data| - 1], hi);
    }
  }

  /** The average of the daily series of a pass is the number of transactions per day
      shown, and at least one as soon as there is a transaction. */
  lemma {:induction false} AverageOfPass(days: seq<string>)
    requires RealStart(days)
    ensures days == [] ==> Average(Fold(days).data) == 0.0
    ensures days != [] ==> |Fold(days).categories| == |Fold(days).data| > 0
    ensures days != [] ==> Average(Fold(days).data) == (|days| as real) / (|Fold(days).categories| as real)
    ensures days != [] ==> Average(Fold(days).data) >= 1.0
  {
    PassCounts(days);
    FoldDecodes(days);
    MeanOfCounts(Fold(days).data, |days|);
  }

  lemma {:induction false} PassCounts(days: seq<string>)
    requires RealStart(days)
    ensures Sum(Fold(days).data) == |days|
    ensures forall k :: 0 <= k < |Fold(days).data| ==> Fold(days).data[k] >= 1
    ensures days != [] ==> Fold(days).data != []
  {
    FoldCountsAll(days);
    FoldDecodes(days);
    FoldWellFormed(days);
  }

  lemma MeanOfCounts(data: seq<nat>, total: nat)
    requires Sum(data) == total
    requires forall k :: 0 <= k < |data| ==> data[k] >= 1
    requires total > 0 ==> data != []
    ensures data != [] ==> Average(data) == (total as real) / (|data| as real)
    ensures total > 0 ==> Average(data) >= 1.0
  {
    if data != [] {
      SumAtLeast(data, 1);
      MeanAtLeastOne(Sum(data), |data|);
    }
  }

  lemma AverageExamples()
    ensures Average([]) == 0.0
    ensures Average([3]) == 3.0
    ensures Average([1, 2, 3]) == 2.0
  {
    assert [1, 2, 3][..2] == [1, 2];
    assert [1, 2][..1] == [1];
    assert [3][..0] == [];
  }
}
