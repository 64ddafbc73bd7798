/** The dashboard page's state and the pass that refreshes it: parse the epoch adjustment,
    normalise one search page, then aggregate oldest-first into the daily series, the hourly
    histogram of today, today's count and the recent list. */
module Dashboard {
  import opened Types
  import opened Epoch
  import opened Normalize
  import opened Aggregation

  /** What a whole pass yields before any state is touched: the transactions to aggregate,
      or the failure that aborts it. */
  function Pass(epochField: Option<string>, page: seq<Record>): (r: Result<seq<Transaction>, Failure>)
    ensures ParseEpochAdjustment(epochField).Err? ==> r == Err(ParseEpochAdjustment(epochField).error)
    ensures ParseEpochAdjustment(epochField).Ok? ==>
      r == NormalizePage(page, ParseEpochAdjustment(epochField).value)
  {
    match ParseEpochAdjustment(epochField)
    case Err(f) => Err(f)
    case Ok(epoch) => NormalizePage(page, epoch)
  }

  /** The daily part of one iteration: a day that differs from the current date becomes
      the current date and opens a new entry with count 0; then the last entry's count is
      incremented. */
  method CountDay(cats: seq<string>, counts: seq<nat>, currentDate: string, yyyymmdd: string)
    returns (cats': seq<string>, counts': seq<nat>, currentDate': string)
    ensures Daily(cats', counts', currentDate') == Step(Daily(cats, counts, currentDate), yyyymmdd)
  {
    cats', counts', currentDate' := cats, counts, currentDate;
    if yyyymmdd != currentDate' {
      currentDate' := yyyymmdd;
      cats' := cats' + [yyyymmdd];
      counts' := counts' + [0];
    }
    if |counts'| > 0 {
      // on an empty array `data[-1]++` changes no element
      counts' := counts'[|counts'| - 1 := counts'[|counts'| - 1] + 1];
    }
  }

  /** The hourly part of one iteration: a transaction on day `today` increments today's
      count and, in place, the slot of its hour. */
  method CountHour(hourly: array<nat>, count: nat, local: LocalTime, today: string) returns (count': nat)
    requires hourly.Length == 24
    modifies hourly
    ensures count' == count + (if local.day == today then 1 else 0)
    ensures hourly[..] == if local.day == today then old(hourly[..])[local.hour := old(hourly[..])[local.hour] + 1]
                          else old(hourly[..])
  {
    count' := count;
    if local.day == today {
      count' := count' + 1;
      hourly[local.hour] := hourly[local.hour] + 1;
    }
  }

  /** One iteration of the loop: the hourly part, then the daily part, for the local time
      `local` of the transaction. */
  method CountTransaction(hourly: array<nat>, count: nat, cats: seq<string>, counts: seq<nat>,
                          currentDate: string, local: LocalTime, today: string)
    returns (count': nat, cats': seq<string>, counts': seq<nat>, currentDate': string)
    requires hourly.Length == 24
    modifies hourly
    ensures Tallied(Daily(cats', counts', currentDate'), count', hourly[..])
      == Advance(Tallied(Daily(cats, counts, currentDate), count, old(hourly[..])), local, today)
  {
    count' := CountHour(hourly, count, local, today);
    cats', counts', currentDate' := CountDay(cats, counts, currentDate, local.day);
  }

  /** The loop over the oldest-first transactions: counts today's transactions, in total
      and per hour in a fresh zeroed 24-slot array, and groups consecutive transactions of a
      day with a trailing current date that starts at the sentinel. Its result is the loop
      state after every transaction. */
  method Accumulate(chron: seq<Transaction>, today: string, clock: Clock)
    returns (count: nat, cats: seq<string>, counts: seq<nat>, hourly: array<nat>)
    ensures fresh(hourly) && hourly.Length == 24
    ensures exists currentDate ::
      TallyUpTo(chron, |chron|, today, clock) == Tallied(Daily(cats, counts, currentDate), count, hourly[..])
  {
    var currentDate := Sentinel;
    count := 0;
    cats := [];
    counts := [];
    hourly := new nat[24](_ => 0);
    var i := 0;
    while i < |chron|
      invariant 0 <= i <= |chron|
      invariant fresh(hourly) && hourly.Length == 24
      invariant TallyUpTo(chron, i, today, clock) == Tallied(Daily(cats, counts, currentDate), count, hourly[..])
    {
      var tx := chron[i];
      var local := clock(tx.timestamp);
      count, cats, counts, currentDate := CountTransaction(hourly, count, cats, counts, currentDate, local, today);
      i := i + 1;
    }
  }

  /** The aggregation loop against its specification: today's count, the hourly histogram
      of today and the daily series of the whole oldest-first list. */
  method Tally(chron: seq<Transaction>, today: string, clock: Clock)
    returns (count: nat, cats: seq<string>, counts: seq<nat>, hourly: array<nat>)
    ensures fresh(hourly) && hourly.Length == 24
    ensures count == TodayCount(chron, today, clock)
    ensures hourly[..] == Histogram(chron, today, clock)
    ensures cats == Fold(DaysOf(chron, clock)).categories && counts == Fold(DaysOf(chron, clock)).data
  {
    count, cats, counts, hourly := Accumulate(chron, today, clock);
    TallyComplete(chron, today, clock);
  }

  /** The view state of the page. */
  class Home {
    var todayCount: nat
    var data: seq<nat>
    var categories: seq<string>
    var countPerHour: array<nat>
    var recentTransactions: seq<Transaction>

    /** The initial state: nothing counted, and an empty hourly array. */
    constructor ()
      ensures todayCount == 0 && data == [] && categories == [] && recentTransactions == []
      ensures fresh(countPerHour) && countPerHour.Length == 0
    {
      todayCount := 0;
      data := [];
      categories := [];
      countPerHour := new nat[0];
      recentTransactions := [];
    }

    /** The state an aggregation of `transactions` leaves, given the day `today` and the
        local-time view `clock` of instants. */
    ghost predicate Shows(transactions: seq<Transaction>, today: string, clock: Clock)
      reads this, countPerHour
    {
      var chron := Reversed(transactions);
      var daily := Fold(DaysOf(chron, clock));
      && categories == daily.categories
      && data == daily.data
      && todayCount == TodayCount(chron, today, clock)
      && countPerHour[..] == Histogram(chron, today, clock)
      && recentTransactions == Recent(transactions)
    }

    /** The aggregation: resets the state, walks a reversed copy of the newest-first list
        (so oldest-first), and takes the recent list from the original order. */
    method Aggregate(transactions: seq<Transaction>, today: string, clock: Clock)
      modifies this
      ensures fresh(countPerHour) && countPerHour.Length == 24
      ensures Shows(transactions, today, clock)
    {
      var chron := Reversed(transactions);
      var count, cats, counts, hourly := Tally(chron, today, clock);
      todayCount, categories, data, countPerHour := count, cats, counts, hourly;
      recentTransactions := Recent(transactions);
    }

    /** One fetch-and-aggregate pass. A failure (no epoch adjustment, an adjustment that is
        not digits followed by a unit character, or a record without metadata anywhere in the
        page) aborts before any state is set, so the page keeps what it showed; otherwise the
        state shows the kept transactions. */
    method Load(epochField: Option<string>, page: seq<Record>, today: string, clock: Clock)
      returns (failure: Option<Failure>)
      modifies this
      ensures failure == None <==> Pass(epochField, page).Ok?
      ensures failure.Some? ==> failure.value == Pass(epochField, page).error && unchanged(this)
      ensures failure.None? ==>
        fresh(countPerHour) && countPerHour.Length == 24 && Shows(Pass(epochField, page).value, today, clock)
    {
      var epoch := ParseEpochAdjustment(epochField);
      if epoch.Err? {
        return Some(epoch.error);
      }
      var transactions := NormalizeRecords(page, epoch.value);
      if transactions.Err? {
        return Some(transactions.error);
      }
      Aggregate(transactions.value, today, clock);
      failure := None;
    }
  }
}
