/** The month performance series (`Performance`, `PerfAsync`) and the
    per-meta-symbol trading statistics (`MetaSymbolStatistics`): what the
    loops of the data service compute, as functions of the tables. */
module Performance {
  import opened Basics
  import opened Calendar
  import opened Entities
  import opened Decimals
  import opened Sorting
  import opened RateCache
  import opened AccountStates
  import opened Deals

  /** The tables the statistics read. */
  datatype Book = Book(
    accounts: seq<DBAccount>, terminals: seq<DBTerminal>, states: seq<DBAccountstate>,
    crates: map<string, Rates>)

  /** Year, month and last day of the series for `month` (0 for January):
      last year's month when it has not begun yet this year, up to today in
      the current month. None when that month or year cannot be built as a
      date (the constructor throws and the caught exception ends the run). */
  function Window(month: int, now: DateTime): (w: Option<(int, int, int)>)
    ensures w.Some? ==> 1 <= w.value.0 <= 9999 && w.value.1 == month + 1 && 1 <= w.value.1 <= 12
    ensures w.Some? ==> 1 <= w.value.2 <= DaysInMonth(w.value.0, w.value.1)
    ensures w.Some? && now.month == month + 1 ==> w.value.0 == now.year && w.value.2 == now.day
    ensures w.Some? && now.month < month + 1 ==> w.value.0 == now.year - 1
    ensures w.Some? && now.month != month + 1 ==> w.value.2 == DaysInMonth(w.value.0, w.value.1)
    ensures w.None? <==> !(0 <= month <= 11) || (now.month < month + 1 && now.year == 1)
  {
    var m := month + 1;
    var year := if now.month < m then now.year - 1 else now.year;
    if !(1 <= m <= 12 && 1 <= year <= 9999) then None
    else Some((year, m, if now.month == m then now.day else DaysInMonth(year, m)))
  }

  /** The account's terminal is a demo terminal (a missing terminal is not). */
  predicate OnDemo(acc: DBAccount, terminals: seq<DBTerminal>) {
    acc.terminal.Some? &&
    var t := TerminalById(terminals, acc.terminal.value);
    t.Some? && t.value.demo
  }

  /** The end-of-day and start-of-day balances in dollars that one account
      adds to a day, or None when it is skipped: demo accounts, and accounts
      without a snapshot at or before the end or at or before the start. */
  function DayBalances(acc: DBAccount, book: Book, start: DateTime, end: DateTime): Result<Option<(real, real)>> {
    if OnDemo(acc, book.terminals) then Ok(None)
    else
      var e := Latest(book.states, acc.id, Some(end));
      var s := Latest(book.states, acc.id, Some(start));
      if e.None? || s.None? then Ok(None)
      else if acc.currency.None? then Err(NullReference)
      else
        match ConvertToUSD(book.states[e.value].balance, acc.currency.value, book.crates)
        case Err(f) => Err(f)
        case Ok(bEnd) =>
          match ConvertToUSD(book.states[s.value].balance, acc.currency.value, book.crates)
          case Err(f) => Err(f)
          case Ok(bStart) => Ok(Some((bEnd, bStart)))
  }

  /** Running sums of a day: end and start balances of all accounts
      (checking) and of the investment accounts (investing). */
  datatype Sums = Sums(checkingEnd: real, investingEnd: real, checkingStart: real, investingStart: real)

  function Add(t: Sums, bEnd: real, bStart: real, investing: bool): Sums {
    Sums(t.checkingEnd + bEnd, if investing then t.investingEnd + bEnd else t.investingEnd,
         t.checkingStart + bStart, if investing then t.investingStart + bStart else t.investingStart)
  }

  /** The sums over `accs` in order; the first failure ends the day. */
  function DaySums(accs: seq<DBAccount>, book: Book, start: DateTime, end: DateTime): Result<Sums>
    decreases |accs|
  {
    if accs == [] then Ok(Sums(0.0, 0.0, 0.0, 0.0))
    else
      match DaySums(accs[..|accs| - 1], book, start, end)
      case Err(f) => Err(f)
      case Ok(t) =>
        var acc := accs[|accs| - 1];
        match DayBalances(acc, book, start, end)
        case Err(f) => Err(f)
        case Ok(None) => Ok(t)
        case Ok(Some(b)) => Ok(Add(t, b.0, b.1, acc.typ > 0))
  }

  /** The statistic of day `i`: changes are end minus start; a rise is a
      gain, anything else a loss of its size; every figure rounded to cents. */
  function MakeStat(i: int, date: DateTime, period: TimePeriod, t: Sums): (ts: TimeStat)
    ensures ts.x == i && ts.date == date && ts.period == period
    ensures ts.gains >= 0.0 && ts.losses >= 0.0
    ensures ts.gains == 0.0 || ts.losses == 0.0
    ensures ts.gains - ts.losses == ts.checkingChange
    ensures t.checkingEnd > t.checkingStart ==> ts.losses == 0.0
    ensures t.checkingEnd < t.checkingStart ==> ts.gains == 0.0
  {
    var change := t.checkingEnd - t.checkingStart;
    var gains := if change > 0.0 then change else 0.0;
    var losses := if change > 0.0 then 0.0 else -change;
    Round2Sign(gains);
    Round2Sign(losses);
    Round2Sign(0.0);
    Round2Odd(change);
    TimeStat(i, date, period, Round2(t.checkingEnd), Round2(change),
             Round2(t.investingEnd), Round2(t.investingEnd - t.investingStart),
             Round2(gains), Round2(losses))
  }

  function DayStart(y: int, m: int, i: int): DateTime
    requires 1 <= y <= 9999 && 1 <= m <= 12 && 1 <= i <= DaysInMonth(y, m)
  {
    Date(y, m, i)
  }

  /** 23:50 of the day: the bound for the end-of-day snapshot. */
  function DayEnd(y: int, m: int, i: int): DateTime
    requires 1 <= y <= 9999 && 1 <= m <= 12 && 1 <= i <= DaysInMonth(y, m)
  {
    Stamp(y, m, i, 23, 50, 0)
  }

  /** The balance sums of day `d` of month `m` of year `y`. */
  function DaySum(y: int, m: int, d: int, book: Book): Result<Sums>
    requires 1 <= y <= 9999 && 1 <= m <= 12 && 1 <= d <= DaysInMonth(y, m)
  {
    DaySums(book.accounts, book, DayStart(y, m, d), DayEnd(y, m, d))
  }

  /** The balance sums of days 1..`n`, one entry per day (entry `k` is day
      `k + 1`). */
  function MonthSums(y: int, m: int, n: int, book: Book): (r: seq<Result<Sums>>)
    requires 1 <= y <= 9999 && 1 <= m <= 12 && 0 <= n <= DaysInMonth(y, m)
    ensures |r| == n
    ensures forall d :: 1 <= d <= n ==> r[d - 1] == DaySum(y, m, d, book)
  {
    seq(n, k requires 0 <= k < n => DaySum(y, m, k + 1, book))
  }

  /** The statistics of days `d`..`|sums|` of month `m` of year `y`, in order,
      given each day's sums; the first day whose sums fail ends the run (no
      statistic for it or after). The source computes a day's sums only when
      it gets there; the sums being pure, that is the same series. */
  function DaysFrom(y: int, m: int, d: int, period: TimePeriod, sums: seq<Result<Sums>>): (r: seq<TimeStat>)
    requires 1 <= y <= 9999 && 1 <= m <= 12 && 1 <= d <= |sums| + 1 && |sums| <= DaysInMonth(y, m)
    ensures |r| <= |sums| - d + 1
    decreases |sums| - d
  {
    if d > |sums| then []
    else
      match sums[d - 1]
      case Err(_) => []
      case Ok(t) => [MakeStat(d, DayStart(y, m, d), period, t)] + DaysFrom(y, m, d + 1, period, sums)
  }

  /** One more day of the series after `acc`: the day's statistic, or the
      end of the series when its sums fail. */
  lemma DaysFromNext(y: int, m: int, d: int, period: TimePeriod, sums: seq<Result<Sums>>, acc: seq<TimeStat>)
    requires 1 <= y <= 9999 && 1 <= m <= 12 && 1 <= d <= |sums| && |sums| <= DaysInMonth(y, m)
    ensures sums[d - 1].Err? ==> acc + DaysFrom(y, m, d, period, sums) == acc
    ensures sums[d - 1].Ok? ==> acc + DaysFrom(y, m, d, period, sums) ==
                                 (acc + [MakeStat(d, DayStart(y, m, d), period, sums[d - 1].value)]) + DaysFrom(y, m, d + 1, period, sums)
  {
    assert acc + [] == acc;
  }

  /** `Performance(month, period)` as of `now`. */
  function PerformanceSeries(month: int, period: TimePeriod, now: DateTime, book: Book): seq<TimeStat> {
    match Window(month, now)
    case None => []
    case Some(w) => DaysFrom(w.0, w.1, 1, period, MonthSums(w.0, w.1, w.2, book))
  }

  /** The series is one statistic per day from the first of the month, in
      order, each made from that day's balance sums, and no longer than the
      month's days up to today. */
  lemma PerformanceSeriesShape(month: int, period: TimePeriod, now: DateTime, book: Book)
    ensures var s := PerformanceSeries(month, period, now, book);
            && (!(0 <= month <= 11) ==> s == [])
            && (forall i :: 0 <= i < |s| ==> s[i].x == i + 1 && s[i].date.month == month + 1 && s[i].date.day == i + 1)
            && (forall i :: 0 <= i < |s| ==> s[i].period == period)
            && (now.month == month + 1 ==> |s| <= now.day)
            && (forall i :: 0 <= i < |s| ==> s[i].gains >= 0.0 && s[i].losses >= 0.0 && (s[i].gains == 0.0 || s[i].losses == 0.0))
  {
    var s := PerformanceSeries(month, period, now, book);
    match Window(month, now)
    case None =>
    case Some(w) =>
      var sums := MonthSums(w.0, w.1, w.2, book);
      assert s == DaysFrom(w.0, w.1, 1, period, sums);
      DaysFromShape(w.0, w.1, period, sums);
  }

  /** The statistic at position `i` is of day `i + 1` of the month, with a
      gain or a loss but not both. */
  lemma DaysFromShape(y: int, m: int, period: TimePeriod, sums: seq<Result<Sums>>)
    requires 1 <= y <= 9999 && 1 <= m <= 12 && |sums| <= DaysInMonth(y, m)
    ensures var s := DaysFrom(y, m, 1, period, sums);
            forall i :: 0 <= i < |s| ==>
              && s[i].x == i + 1 && s[i].date.month == m && s[i].date.day == i + 1 && s[i].period == period
              && s[i].gains >= 0.0 && s[i].losses >= 0.0 && (s[i].gains == 0.0 || s[i].losses == 0.0)
  {
    var s := DaysFrom(y, m, 1, period, sums);
    forall i | 0 <= i < |s|
      ensures s[i].x == i + 1 && s[i].date.month == m && s[i].date.day == i + 1 && s[i].period == period
      ensures s[i].gains >= 0.0 && s[i].losses >= 0.0 && (s[i].gains == 0.0 || s[i].losses == 0.0)
    {
      DaysFromStats(y, m, 1, period, sums, i + 1);
      var st := MakeStat(i + 1, DayStart(y, m, i + 1), period, sums[i].value);
      assert s[i] == st;
      assert st.date == Date(y, m, i + 1);
    }
  }

  /** Each statistic of the series is a `MakeStat` of its day's sums: the
      statistic at position `j - d` is that of day `j`, whose sums succeeded. */
  lemma {:induction false} DaysFromStats(y: int, m: int, d: int, period: TimePeriod, sums: seq<Result<Sums>>, j: int)
    requires 1 <= y <= 9999 && 1 <= m <= 12 && 1 <= d <= j && d <= |sums| + 1 && |sums| <= DaysInMonth(y, m)
    requires j - d < |DaysFrom(y, m, d, period, sums)|
    ensures j <= |sums| && sums[j - 1].Ok?
    ensures DaysFrom(y, m, d, period, sums)[j - d] == MakeStat(j, DayStart(y, m, j), period, sums[j - 1].value)
    decreases j - d
  {
    if d < j {
      DaysFromStats(y, m, d + 1, period, sums, j);
      assert DaysFrom(y, m, d, period, sums)[j - d] == DaysFrom(y, m, d + 1, period, sums)[j - (d + 1)];
    }
  }

  /** When every day's sums succeed, the series covers every day up to
      today (or the whole month). */
  lemma {:induction false} DaysFromComplete(y: int, m: int, d: int, period: TimePeriod, sums: seq<Result<Sums>>)
    requires 1 <= y <= 9999 && 1 <= m <= 12 && 1 <= d <= |sums| + 1 && |sums| <= DaysInMonth(y, m)
    requires forall k :: d - 1 <= k < |sums| ==> sums[k].Ok?
    ensures |DaysFrom(y, m, d, period, sums)| == |sums| - d + 1
    decreases |sums| - d
  {
    if d <= |sums| {
      DaysFromComplete(y, m, d + 1, period, sums);
    }
  }

  /** A day whose sums fail ends the series before it: no statistic for
      that day or any later one. */
  lemma {:induction false} DaysFromEndsAtFailure(y: int, m: int, d: int, period: TimePeriod, sums: seq<Result<Sums>>, j: int)
    requires 1 <= y <= 9999 && 1 <= m <= 12 && 1 <= d <= j <= |sums| && |sums| <= DaysInMonth(y, m)
    requires sums[j - 1].Err?
    ensures |DaysFrom(y, m, d, period, sums)| <= j - d
    decreases j - d
  {
    if d < j {
      DaysFromEndsAtFailure(y, m, d + 1, period, sums, j);
    }
  }

  /** The day's checking change is the end balance sum minus the start
      balance sum, rounded; its gain or loss is the same amount. */
  lemma DayChange(i: int, date: DateTime, period: TimePeriod, t: Sums)
    ensures var ts := MakeStat(i, date, period, t);
            ts.checkingChange == Round2(t.checkingEnd - t.checkingStart) &&
            (t.checkingEnd > t.checkingStart ==> ts.gains == Round2(t.checkingEnd - t.checkingStart)) &&
            (t.checkingEnd <= t.checkingStart ==> ts.losses == Round2(t.checkingStart - t.checkingEnd))
  {
  }

  /** A demo account, or one with no snapshot before the day ends or none
      before it starts (a first snapshot taken during the day), adds nothing
      to the day's sums. */
  lemma SkippedAccountAddsNothing(accs: seq<DBAccount>, acc: DBAccount, book: Book, start: DateTime, end: DateTime)
    requires || OnDemo(acc, book.terminals)
             || Latest(book.states, acc.id, Some(end)).None?
             || Latest(book.states, acc.id, Some(start)).None?
    ensures DaySums(accs + [acc], book, start, end) == DaySums(accs, book, start, end)
  {
    assert (accs + [acc])[..|accs|] == accs;
  }

  /** A failure stays a failure: accounts after it are never read. */
  lemma {:induction false} DaySumsFailurePersists(accs: seq<DBAccount>, more: seq<DBAccount>, book: Book, start: DateTime, end: DateTime)
    requires DaySums(accs, book, start, end).Err?
    ensures DaySums(accs + more, book, start, end) == DaySums(accs, book, start, end)
    decreases |more|
  {
    if more != [] {
      var init := more[..|more| - 1];
      DaySumsFailurePersists(accs, init, book, start, end);
      assert (accs + more)[..|accs + more| - 1] == accs + init;
    } else {
      assert accs + more == accs;
    }
  }

  /** What `PerfAsync(month)` sends: the daily series as chart values, then
      the end marker, which is sent even when a failure cut the series. */
  function ChartMessages(month: int, now: DateTime, book: Book): (msgs: seq<ChartMessage>)
    ensures |msgs| == |PerformanceSeries(month, Daily, now, book)| + 1
    ensures msgs[|msgs| - 1] == ChartDone
    ensures forall i :: 0 <= i < |msgs| - 1 ==> msgs[i] == ChartValue(PerformanceSeries(month, Daily, now, book)[i])
  {
    var s := PerformanceSeries(month, Daily, now, book);
    seq(|s|, i requires 0 <= i < |s| => ChartValue(s[i])) + [ChartDone]
  }

  /** `PerfAsync` sends one chart value per day of the month from the first,
      each for its day and the daily period, and then exactly one end
      marker, which comes last even when a failure cut the series; a month
      outside 0..11 sends only the marker. */
  lemma ChartMessagesPerDay(month: int, now: DateTime, book: Book)
    ensures var msgs := ChartMessages(month, now, book);
            && msgs[|msgs| - 1] == ChartDone
            && (forall i :: 0 <= i < |msgs| - 1 ==>
                  && msgs[i].ChartValue?
                  && msgs[i].stat.x == i + 1 && msgs[i].stat.date.month == month + 1 && msgs[i].stat.date.day == i + 1
                  && msgs[i].stat.period == Daily)
            && (!(0 <= month <= 11) ==> msgs == [ChartDone])
            && (now.month == month + 1 ==> |msgs| <= now.day + 1)
  {
    PerformanceSeriesShape(month, Daily, now, book);
  }

  // ---- meta-symbol statistics ----

  /** The deals of meta-symbol `metaId` made on demo (or real) terminals;
      a deal without symbol or terminal matches nothing. */
  predicate OfMetaSymbol(d: DBDeals, symbols: seq<DBSymbol>, terminals: seq<DBTerminal>, metaId: int, isDemo: bool) {
    && d.symbol.Some? && d.terminal.Some?
    && var s := SymbolById(symbols, d.symbol.value);
    && var t := TerminalById(terminals, d.terminal.value);
    && s.Some? && s.value.metaSymbol == metaId
    && t.Some? && t.value.demo == isDemo
  }

  function AccountById(accounts: seq<DBAccount>, id: int): Option<DBAccount> {
    FirstWhere(accounts, (a: DBAccount) => a.id == id)
  }

  /** A deal's profit in dollars, in the currency of its terminal's account;
      a missing account or currency is a null reference. */
  function ProfitUSD(d: DBDeals, book: Book): Result<real> {
    var t := if d.terminal.Some? then TerminalById(book.terminals, d.terminal.value) else None;
    var a := if t.Some? && t.value.account.Some? then AccountById(book.accounts, t.value.account.value) else None;
    if a.None? || a.value.currency.None? then Err(NullReference)
    else ConvertToUSD(d.profit, a.value.currency.value, book.crates)
  }

  /** Sum and count of the dollar profits of `ds`. */
  function ProfitTotal(ds: seq<DBDeals>, book: Book): (r: Result<(real, nat)>)
    ensures r.Ok? ==> r.value.1 == |ds|
    decreases |ds|
  {
    if ds == [] then Ok((0.0, 0))
    else
      match ProfitTotal(ds[..|ds| - 1], book)
      case Err(f) => Err(f)
      case Ok(t) =>
        match ProfitUSD(ds[|ds| - 1], book)
        case Err(f) => Err(f)
        case Ok(p) => Ok((t.0 + p, t.1 + 1))
  }

  function FilterDeals(ds: seq<DBDeals>, symbols: seq<DBSymbol>, terminals: seq<DBTerminal>, metaId: int, isDemo: bool): (r: seq<DBDeals>)
    ensures forall d :: d in r <==> d in ds && OfMetaSymbol(d, symbols, terminals, metaId, isDemo)
    decreases |ds|
  {
    if ds == [] then []
    else
      var prev := FilterDeals(ds[..|ds| - 1], symbols, terminals, metaId, isDemo);
      var last := ds[|ds| - 1];
      assert ds == ds[..|ds| - 1] + [last];
      if OfMetaSymbol(last, symbols, terminals, metaId, isDemo) then prev + [last] else prev
  }

  /** A statistic over more than ten trades whose profit per trade times its
      trades is its total profit. */
  predicate WellFormedStat(s: MetaSymbolStat) {
    s.numOfTrades > 10 && s.profitPerTrade * s.numOfTrades as real == s.totalProfit
  }

  /** The statistic of one meta-symbol: none for ten trades or fewer. */
  function MetaStat(ms: DBMetasymbol, total: real, count: nat, now: DateTime): (r: Option<MetaSymbolStat>)
    ensures r.Some? <==> count > 10
    ensures r.Some? ==> (r.value.metaId == ms.id && r.value.numOfTrades == count &&
                         r.value.totalProfit == total && r.value.profitPerTrade * count as real == total)
    ensures r.Some? ==> WellFormedStat(r.value)
  {
    if count <= 10 then None
    else Some(MetaSymbolStat(ms.id, ms.name, ms.description, total, count, total / count as real, now))
  }

  /** The statistics of the non-retired meta-symbols of `metas` in order,
      and whether no failure cut the run short. */
  function CollectStats(metas: seq<DBMetasymbol>, deals: seq<DBDeals>, symbols: seq<DBSymbol>, isDemo: bool, now: DateTime, book: Book): (r: (seq<MetaSymbolStat>, bool))
    ensures forall s :: s in r.0 ==> WellFormedStat(s)
    ensures forall s :: s in r.0 ==> exists ms :: ms in metas && !ms.retired && ms.id == s.metaId
    decreases |metas|
  {
    if metas == [] then ([], true)
    else
      var prev := CollectStats(metas[..|metas| - 1], deals, symbols, isDemo, now, book);
      var ms := metas[|metas| - 1];
      assert forall x :: x in metas[..|metas| - 1] ==> x in metas;
      if !prev.1 || ms.retired then prev
      else
        match ProfitTotal(FilterDeals(deals, symbols, book.terminals, ms.id, isDemo), book)
        case Err(_) => (prev.0, false)
        case Ok(t) =>
          match MetaStat(ms, t.0, t.1, now)
          case None => prev
          case Some(st) =>
            assert ms in metas && !ms.retired && ms.id == st.metaId;
            assert forall s :: s in prev.0 + [st] ==> s in prev.0 || s == st;
            (prev.0 + [st], true)
  }

  /** One more meta-symbol while no failure has occurred: a retired one adds
      nothing, a failed sum ends the run, a well-traded one adds its
      statistic. */
  lemma CollectStatsStep(metas: seq<DBMetasymbol>, k: int, deals: seq<DBDeals>, symbols: seq<DBSymbol>, isDemo: bool, now: DateTime, book: Book)
    requires 0 <= k < |metas|
    requires CollectStats(metas[..k], deals, symbols, isDemo, now, book).1
    ensures var prev := CollectStats(metas[..k], deals, symbols, isDemo, now, book);
            var next := CollectStats(metas[..k + 1], deals, symbols, isDemo, now, book);
            var ms := metas[k];
            var total := ProfitTotal(FilterDeals(deals, symbols, book.terminals, ms.id, isDemo), book);
            && (ms.retired ==> next == prev)
            && (!ms.retired && total.Err? ==> next == (prev.0, false))
            && (!ms.retired && total.Ok? && MetaStat(ms, total.value.0, total.value.1, now).None? ==> next == prev)
            && (!ms.retired && total.Ok? && MetaStat(ms, total.value.0, total.value.1, now).Some? ==>
                  next == (prev.0 + [MetaStat(ms, total.value.0, total.value.1, now).value], true))
  {
    assert metas[..k + 1][..k] == metas[..k];
  }

  /** `OrderByDescending(x => x.ProfitPerTrade)`. */
  predicate ProfitDesc(a: MetaSymbolStat, b: MetaSymbolStat) {
    b.profitPerTrade <= a.profitPerTrade
  }

  /** `MetaSymbolStatistics(accountType)`: a positive account type selects
      the demo terminals. */
  function MetaSymbolStats(accountType: int, metas: seq<DBMetasymbol>, deals: seq<DBDeals>, symbols: seq<DBSymbol>, now: DateTime, book: Book): seq<MetaSymbolStat> {
    SortBy(CollectStats(metas, deals, symbols, accountType > 0, now, book).0, ProfitDesc)
  }

  /** The statistics come best profit per trade first; each is of a
      non-retired meta-symbol with more than ten trades, and its profit per
      trade times its trades is its total profit. */
  lemma MetaSymbolStatsProperties(accountType: int, metas: seq<DBMetasymbol>, deals: seq<DBDeals>, symbols: seq<DBSymbol>, now: DateTime, book: Book)
    ensures var r := MetaSymbolStats(accountType, metas, deals, symbols, now, book);
            && SortedBy(r, ProfitDesc)
            && forall s :: s in r ==>
                 && s.numOfTrades > 10
                 && s.profitPerTrade * s.numOfTrades as real == s.totalProfit
                 && exists ms :: ms in metas && !ms.retired && ms.id == s.metaId
  {
    var c := CollectStats(metas, deals, symbols, accountType > 0, now, book).0;
    assert TotalPreorder(ProfitDesc);
    SortByIsSorted(c, ProfitDesc);
    forall s | s in MetaSymbolStats(accountType, metas, deals, symbols, now, book) ensures s in c {
      SortByMembers(c, ProfitDesc, s);
    }
  }

  /** When no profit sum failed, every non-retired meta-symbol has a
      successful sum, and gets its statistic when it has more than ten
      matching trades. */
  lemma {:induction false} CollectStatsComplete(metas: seq<DBMetasymbol>, deals: seq<DBDeals>, symbols: seq<DBSymbol>, isDemo: bool, now: DateTime, book: Book, i: int)
    requires CollectStats(metas, deals, symbols, isDemo, now, book).1
    requires 0 <= i < |metas| && !metas[i].retired
    ensures var total := ProfitTotal(FilterDeals(deals, symbols, book.terminals, metas[i].id, isDemo), book);
            && total.Ok?
            && (total.value.1 > 10 ==>
                  MetaStat(metas[i], total.value.0, total.value.1, now).value in CollectStats(metas, deals, symbols, isDemo, now, book).0)
    decreases |metas|
  {
    var init := metas[..|metas| - 1];
    var prev := CollectStats(init, deals, symbols, isDemo, now, book);
    assert prev.1;
    if i < |init| {
      assert init[i] == metas[i];
      CollectStatsComplete(init, deals, symbols, isDemo, now, book, i);
    }
  }

  /** Conversely, when no profit sum failed, every non-retired meta-symbol
      with more than ten matching trades is listed, with its trade count and
      total profit. */
  lemma MetaSymbolStatsComplete(accountType: int, metas: seq<DBMetasymbol>, deals: seq<DBDeals>, symbols: seq<DBSymbol>, now: DateTime, book: Book)
    requires CollectStats(metas, deals, symbols, accountType > 0, now, book).1
    ensures var r := MetaSymbolStats(accountType, metas, deals, symbols, now, book);
            forall i :: 0 <= i < |metas| && !metas[i].retired &&
                        |FilterDeals(deals, symbols, book.terminals, metas[i].id, accountType > 0)| > 10 ==>
              exists s :: s in r && s.metaId == metas[i].id && s.name == metas[i].name &&
                          s.numOfTrades == |FilterDeals(deals, symbols, book.terminals, metas[i].id, accountType > 0)| &&
                          ProfitTotal(FilterDeals(deals, symbols, book.terminals, metas[i].id, accountType > 0), book) == Ok((s.totalProfit, s.numOfTrades))
  {
    var isDemo := accountType > 0;
    var c := CollectStats(metas, deals, symbols, isDemo, now, book).0;
    forall i | 0 <= i < |metas| && !metas[i].retired &&
               |FilterDeals(deals, symbols, book.terminals, metas[i].id, isDemo)| > 10
      ensures exists s :: s in MetaSymbolStats(accountType, metas, deals, symbols, now, book) &&
                s.metaId == metas[i].id && s.name == metas[i].name &&
                s.numOfTrades == |FilterDeals(deals, symbols, book.terminals, metas[i].id, isDemo)| &&
                ProfitTotal(FilterDeals(deals, symbols, book.terminals, metas[i].id, isDemo), book) == Ok((s.totalProfit, s.numOfTrades))
    {
      CollectStatsComplete(metas, deals, symbols, isDemo, now, book, i);
      var total := ProfitTotal(FilterDeals(deals, symbols, book.terminals, metas[i].id, isDemo), book);
      var st := MetaStat(metas[i], total.value.0, total.value.1, now).value;
      SortByMembers(c, ProfitDesc, st);
    }
  }

  /** Once a meta-symbol's deals fail to convert, the statistics end there. */
  lemma {:induction false} CollectStatsStops(metas: seq<DBMetasymbol>, k: int, deals: seq<DBDeals>, symbols: seq<DBSymbol>, isDemo: bool, now: DateTime, book: Book)
    requires 0 <= k <= |metas|
    requires !CollectStats(metas[..k], deals, symbols, isDemo, now, book).1
    ensures CollectStats(metas, deals, symbols, isDemo, now, book) == CollectStats(metas[..k], deals, symbols, isDemo, now, book)
    decreases |metas| - k
  {
    if k < |metas| {
      assert metas[..k + 1][..k] == metas[..k];
      CollectStatsStopsStep(metas[..k + 1], deals, symbols, isDemo, now, book);
      CollectStatsStops(metas, k + 1, deals, symbols, isDemo, now, book);
    } else {
      assert metas[..k] == metas;
    }
  }

  lemma CollectStatsStopsStep(metas: seq<DBMetasymbol>, deals: seq<DBDeals>, symbols: seq<DBSymbol>, isDemo: bool, now: DateTime, book: Book)
    requires metas != []
    requires !CollectStats(metas[..|metas| - 1], deals, symbols, isDemo, now, book).1
    ensures CollectStats(metas, deals, symbols, isDemo, now, book) == CollectStats(metas[..|metas| - 1], deals, symbols, isDemo, now, book)
  {
  }

  /** One more account: its balances are added to the sums so far. */
  lemma DaySumsStep(accs: seq<DBAccount>, j: int, book: Book, start: DateTime, end: DateTime, t: Sums)
    requires 0 <= j < |accs|
    requires DaySums(accs[..j], book, start, end) == Ok(t)
    ensures var b := DayBalances(accs[j], book, start, end);
            && (b.Err? ==> DaySums(accs[..j + 1], book, start, end) == Err(b.error))
            && (b == Ok(None) ==> DaySums(accs[..j + 1], book, start, end) == Ok(t))
            && (b.Ok? && b.value.Some? ==>
                  DaySums(accs[..j + 1], book, start, end) == Ok(Add(t, b.value.value.0, b.value.value.1, accs[j].typ > 0)))
  {
    assert accs[..j + 1][..j] == accs[..j];
  }

}
