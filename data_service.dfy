/** The data service: the tables it reads and writes and the rate cache it
    keeps, with the operations that change them step by step. Each method is
    proved to leave the state (or return the value) its specification
    function describes. */
module DataServices {
  import opened Basics
  import opened Calendar
  import opened Entities
  import opened Sorting
  import opened RateCache
  import opened Deals
  import opened AccountStates
  import opened Performance

  class DataService {
    /** The in-memory rate cache (`crates`), keyed by meta-symbol name. */
    var crates: map<string, Rates>
    /** The persisted tables, rows in table order. */
    var rates: seq<DBRates>
    var symbols: seq<DBSymbol>
    var metaSymbols: seq<DBMetasymbol>
    var terminals: seq<DBTerminal>
    var accounts: seq<DBAccount>
    var accstates: seq<DBAccountstate>
    var deals: seq<DBDeals>
    var advisers: set<int>

    /** A new service over the given tables starts with the cache read from
        the rates table. */
    constructor(rates0: seq<DBRates>, symbols0: seq<DBSymbol>, metaSymbols0: seq<DBMetasymbol>,
                terminals0: seq<DBTerminal>, accounts0: seq<DBAccount>, accstates0: seq<DBAccountstate>,
                deals0: seq<DBDeals>, advisers0: set<int>, utcNow: DateTime)
      ensures rates == rates0 && symbols == symbols0 && metaSymbols == metaSymbols0
      ensures terminals == terminals0 && accounts == accounts0 && accstates == accstates0
      ensures deals == deals0 && advisers == advisers0
      ensures crates == Refreshed(map[], rates0, utcNow)
    {
      rates, symbols, metaSymbols := rates0, symbols0, metaSymbols0;
      terminals, accounts, accstates := terminals0, accounts0, accstates0;
      deals, advisers := deals0, advisers0;
      crates := map[];
      new;
      var _ := GetRates(true, utcNow);
    }

    /** `GetRates`: a non-empty cache is returned as it is unless a re-read is
        asked for; otherwise every row of the rates table is written into it
        under its meta-symbol name. */
    method GetRates(isReread: bool, utcNow: DateTime) returns (r: map<string, Rates>)
      modifies this`crates
      ensures |old(crates)| > 0 && !isReread ==> crates == old(crates)
      ensures |old(crates)| == 0 || isReread ==> crates == Refreshed(old(crates), rates, utcNow)
      ensures r == crates
    {
      if |crates| > 0 && !isReread {
        return crates;
      }
      var i := 0;
      while i < |rates|
        invariant 0 <= i <= |rates|
        invariant crates == Refreshed(old(crates), rates[..i], utcNow)
      {
        var dto := RatesDTO(rates[i], utcNow);
        crates := crates[dto.metaSymbol := dto];
        assert rates[..i + 1][..i] == rates[..i];
        i := i + 1;
      }
      assert rates[..i] == rates;
      r := crates;
    }

    /** `UpdateRates`: every rates row with an incoming quote of its name takes
        that quote's ask and bid and the update time; then the cache is re-read.
        A missing list fails at the first row, and the failure is caught
        before anything changed. */
    method UpdateRates(rInfo: Option<seq<RatesInfo>>, utcNow: DateTime)
      modifies this`rates, this`crates
      ensures rInfo.None? && |old(rates)| > 0 ==> rates == old(rates) && crates == old(crates)
      ensures rInfo.None? && |old(rates)| == 0 ==> rates == old(rates) && crates == old(crates)
      ensures rInfo.Some? ==> rates == UpdatedRows(old(rates), rInfo.value, utcNow)
      ensures rInfo.Some? ==> crates == Refreshed(old(crates), rates, utcNow)
    {
      if rInfo.None? {
        if |rates| > 0 {
          return;
        }
        var _ := GetRates(true, utcNow);
        return;
      }
      var infos := rInfo.value;
      var i := 0;
      while i < |rates|
        invariant 0 <= i <= |rates| == |old(rates)|
        invariant rates[..i] == UpdatedRows(old(rates)[..i], infos, utcNow)
        invariant rates[i..] == old(rates)[i..]
        invariant crates == old(crates)
      {
        var row := rates[i];
        assert row == old(rates)[i] by { assert rates[i..][0] == old(rates)[i..][0]; }
        var current := FirstWhere(infos, (q: RatesInfo) => q.symbol == row.metaSymbol);
        if current.Some? {
          rates := rates[i := row.(rateask := current.value.ask, ratebid := current.value.bid, lastUpdate := Some(utcNow))];
        }
        assert rates[i] == UpdatedRow(old(rates)[i], infos, utcNow);
        assert old(rates)[..i + 1] == old(rates)[..i] + [old(rates)[i]];
        assert rates[..i + 1] == rates[..i] + [rates[i]];
        assert rates[i + 1..] == old(rates)[i + 1..] by {
          assert forall j :: i + 1 <= j < |rates| ==> rates[j] == rates[i..][j - i];
        }
        i := i + 1;
      }
      assert rates == rates[..i];
      assert old(rates)[..i] == old(rates);
      var _ := GetRates(true, utcNow);
    }

    /** `UpdateBalance`: sets the balance and equity of the account behind the
        first terminal with that account number and writes its daily
        snapshot; nothing changes without such a terminal or account. */
    method UpdateBalance(accountNumber: int, balance: real, equity: real, today: DateTime, utcNow: DateTime)
      modifies this`accounts, this`accstates
      ensures Ledger(accounts, accstates) ==
                BalanceUpdate(terminals, Ledger(old(accounts), old(accstates)), accountNumber, balance, equity, today, utcNow)
    {
      var terminal := FirstWhere(terminals, (t: DBTerminal) => t.accountNumber == accountNumber);
      if terminal.None? || terminal.value.account.None? {
        return;
      }
      var aid := terminal.value.account.value;
      var ai := FirstIndex(accounts, (a: DBAccount) => a.id == aid);
      if ai.None? {
        return;
      }
      accounts := accounts[ai.value := accounts[ai.value].(balance := balance, equity := equity, lastUpdate := utcNow)];
      var latest := Latest(accstates, aid, None);
      if latest.Some? {
        var state := accstates[latest.value];
        if DayOfYear(state.date) != DayOfYear(today) {
          accstates := accstates + [Autoupdate(aid, balance, utcNow)];
        } else {
          accstates := accstates[latest.value := Autoupdate(aid, balance, utcNow)];
        }
      }
    }

    /** `SaveDeals`: a missing or empty batch changes nothing; otherwise the
        deals are processed in close-time order, each inserted when its
        symbol is known, its ticket is not stored yet and the save succeeds;
        `saved` counts the insertions. */
    method SaveDeals(batch: Option<seq<DealInfo>>, parseDate: string -> Option<DateTime>, saves: DBDeals -> bool)
      returns (saved: nat)
      modifies this`deals
      ensures batch.None? || batch.value == [] ==> deals == old(deals) && saved == 0
      ensures batch.Some? ==>
                (deals, saved) == Ingest(Env(symbols, terminals, advisers, parseDate, saves), old(deals), ProcessingOrder(batch.value))
    {
      if batch.None? || |batch.value| == 0 {
        return 0;
      }
      var env := Env(symbols, terminals, advisers, parseDate, saves);
      deals, saved := IngestAll(env, deals, ProcessingOrder(batch.value));
    }

    /** `TodayDeals`: the deals closed on the day of `now`, latest first; the
        walk ends at the first deal without a close time. `nullsFirst` is
        where the database sorts those deals under a descending order. */
    method TodayDeals(now: DateTime, format: DateTime -> string, nullsFirst: bool) returns (result: seq<DealInfo>)
      ensures result == DTOs(TodayRows(deals, now, nullsFirst), symbols, terminals, format)
    {
      result := TodayList(SortBy(deals, ReadOrder(nullsFirst)), now, symbols, terminals, format);
    }

    /** `Performance(month, period)`: one statistic per day of the month up
        to today, from the snapshots of every account that is not on a demo
        terminal; a failure ends the series. */
    method Performance(month: int, period: TimePeriod, now: DateTime) returns (result: seq<TimeStat>)
      ensures result == PerformanceSeries(month, period, now, Book(accounts, terminals, accstates, crates))
    {
      result := [];
      var w := Window(month, now);
      if w.None? {
        return;
      }
      var book := Book(accounts, terminals, accstates, crates);
      result := DailyStats(w.value.0, w.value.1, w.value.2, period, book);
    }

    /** `PerfAsync(month)`: the daily series sent as chart values, then the end
        marker. */
    method PerfAsync(month: int, now: DateTime) returns (sent: seq<ChartMessage>)
      ensures sent == ChartMessages(month, now, Book(accounts, terminals, accstates, crates))
    {
      var stats := Performance(month, Daily, now);
      sent := [];
      var i := 0;
      while i < |stats|
        invariant 0 <= i <= |stats|
        invariant |sent| == i
        invariant forall k :: 0 <= k < i ==> sent[k] == ChartValue(stats[k])
      {
        sent := sent + [ChartValue(stats[i])];
        i := i + 1;
      }
      sent := sent + [ChartDone];
    }

    /** `MetaSymbolStatistics(accountType)`: per non-retired meta-symbol, the
        dollar profit and number of its deals on demo (positive type) or real
        terminals; meta-symbols with ten trades or fewer are left out; a
        failure ends the collection; best profit per trade first. */
    method MetaSymbolStatistics(accountType: int, now: DateTime) returns (result: seq<MetaSymbolStat>)
      ensures result == MetaSymbolStats(accountType, metaSymbols, deals, symbols, now, Book(accounts, terminals, accstates, crates))
    {
      var isDemo := accountType > 0;
      var book := Book(accounts, terminals, accstates, crates);
      var collected := CollectAll(metaSymbols, deals, symbols, isDemo, now, book);
      result := SortBy(collected, ProfitDesc);
    }
  }

  /** The loop of `MetaSymbolStatistics` over the meta-symbols: each one not
      retired has its deals' dollar profits summed; a failed sum ends the
      loop with what was collected so far. */
  method CollectAll(metas: seq<DBMetasymbol>, deals: seq<DBDeals>, symbols: seq<DBSymbol>, isDemo: bool, now: DateTime, book: Book)
    returns (collected: seq<MetaSymbolStat>)
    ensures collected == CollectStats(metas, deals, symbols, isDemo, now, book).0
  {
    collected := [];
    var k := 0;
    while k < |metas|
      invariant 0 <= k <= |metas|
      invariant CollectStats(metas[..k], deals, symbols, isDemo, now, book) == (collected, true)
    {
      var ms := metas[k];
      CollectStatsStep(metas, k, deals, symbols, isDemo, now, book);
      if !ms.retired {
        var ds := FilterDeals(deals, symbols, book.terminals, ms.id, isDemo);
        var total := SumProfits(ds, book);
        if total.Err? {
          CollectStatsStops(metas, k + 1, deals, symbols, isDemo, now, book);
          return;
        }
        var st := MetaStat(ms, total.value.0, total.value.1, now);
        if st.Some? {
          collected := collected + [st.value];
        }
      }
      k := k + 1;
    }
    assert metas[..k] == metas;
  }

  /** The loop of `SaveDeals` over the ordered batch: each deal of a known
      symbol whose ticket is not stored yet is saved and, when the save
      succeeds, appended to the table and counted. */
  method IngestAll(env: Env, rows: seq<DBDeals>, order: seq<DealInfo>) returns (table: seq<DBDeals>, saved: nat)
    ensures (table, saved) == Ingest(env, rows, order)
  {
    table, saved := rows, 0;
    var k := 0;
    while k < |order|
      invariant 0 <= k <= |order|
      invariant (table, saved) == Ingest(env, rows, order[..k])
    {
      var deal := order[k];
      IngestStep(env, rows, order, k);
      var sym := SymbolByName(env.symbols, deal.symbol);
      if sym.Some? {
        var stored := DealByKey(table, ToInt32(deal.ticket));
        if stored.None? && DealByDealId(table, deal.ticket).None? {
          var rec := NewRecord(env, deal, sym.value);
          if env.saves(rec) {
            table := table + [rec];
            saved := saved + 1;
          }
        }
      }
      k := k + 1;
    }
    assert order[..k] == order;
  }

  /** The loop of `TodayDeals` over the table read latest close first: the
      deals closed today are converted and listed; a deal without a close
      time ends the walk. */
  method TodayList(sorted: seq<DBDeals>, now: DateTime, symbols: seq<DBSymbol>, terminals: seq<DBTerminal>, format: DateTime -> string)
    returns (result: seq<DealInfo>)
    ensures result == DTOs(TodayScan(sorted, now).0, symbols, terminals, format)
  {
    result := [];
    var i := 0;
    while i < |sorted|
      invariant 0 <= i <= |sorted|
      invariant TodayScan(sorted[..i], now) == (TodayScan(sorted[..i], now).0, false)
      invariant result == DTOs(TodayScan(sorted[..i], now).0, symbols, terminals, format)
    {
      var d := sorted[i];
      assert sorted[..i + 1][..i] == sorted[..i];
      if d.closeTime.None? {
        TodayScanHalted(sorted, i + 1, now);
        assert sorted[..i + 1] == sorted[..i] + [d];
        return;
      }
      if IsSameDay(d.closeTime.value, now) {
        result := result + [DealDTO(d, symbols, terminals, format)];
      }
      i := i + 1;
    }
    assert sorted[..i] == sorted;
  }

  /** The outer loop of `Performance`: day by day from the first of the
      month, each day's statistic appended until a day's sums fail. */
  method DailyStats(year: int, m: int, dayTo: int, period: TimePeriod, book: Book) returns (result: seq<TimeStat>)
    requires 1 <= year <= 9999 && 1 <= m <= 12 && 0 <= dayTo <= DaysInMonth(year, m)
    ensures result == DaysFrom(year, m, 1, period, MonthSums(year, m, dayTo, book))
  {
    result := [];
    ghost var sumsOfDays := MonthSums(year, m, dayTo, book);
    var i := 1;
    while i <= dayTo
      invariant 1 <= i <= dayTo + 1
      invariant result + DaysFrom(year, m, i, period, sumsOfDays) == DaysFrom(year, m, 1, period, sumsOfDays)
    {
      var sums := SumOfDay(book, year, m, dayTo, i);
      DaysFromNext(year, m, i, period, sumsOfDays, result);
      if sums.Err? {
        return;
      }
      result := result + [MakeStat(i, DayStart(year, m, i), period, sums.value)];
      i := i + 1;
    }
    assert result + [] == result;
  }

  /** One pass of the outer loop of `Performance` before its statistic is
      made: the bounds of day `day` (midnight and 23:50) and the sums over
      the accounts between them. */
  method SumOfDay(book: Book, year: int, m: int, dayTo: int, day: int) returns (r: Result<Sums>)
    requires 1 <= year <= 9999 && 1 <= m <= 12 && 1 <= day <= dayTo <= DaysInMonth(year, m)
    ensures r == MonthSums(year, m, dayTo, book)[day - 1]
  {
    var forDate, forDateEnd := DayStart(year, m, day), DayEnd(year, m, day);
    r := SumDay(book, forDate, forDateEnd);
    assert r == DaySum(year, m, day, book);
  }

  /** The inner loop of `Performance` for one day: the end and start
      balances of every account added up; a failure ends the day. */
  method SumDay(book: Book, forDate: DateTime, forDateEnd: DateTime) returns (r: Result<Sums>)
    ensures r == DaySums(book.accounts, book, forDate, forDateEnd)
  {
    var accounts := book.accounts;
    var ts := Sums(0.0, 0.0, 0.0, 0.0);
    var j := 0;
    while j < |accounts|
      invariant 0 <= j <= |accounts|
      invariant DaySums(accounts[..j], book, forDate, forDateEnd) == Ok(ts)
    {
      var acc := accounts[j];
      var balances := DayBalances(acc, book, forDate, forDateEnd);
      DaySumsStep(accounts, j, book, forDate, forDateEnd, ts);
      if balances.Err? {
        DaySumsFailurePersists(accounts[..j + 1], accounts[j + 1..], book, forDate, forDateEnd);
        assert accounts[..j + 1] + accounts[j + 1..] == accounts;
        r := DaySums(accounts[..j + 1], book, forDate, forDateEnd);
        return;
      }
      if balances.value.Some? {
        var bEnd, bStart := balances.value.value.0, balances.value.value.1;
        ts := Add(ts, bEnd, bStart, acc.typ > 0);
      }
      j := j + 1;
    }
    assert accounts[..j] == accounts;
    r := Ok(ts);
  }

  /** The inner loop of `MetaSymbolStatistics`: the dollar profits of the
      deals summed and counted; a failure ends the sum. */
  method SumProfits(ds: seq<DBDeals>, book: Book) returns (r: Result<(real, nat)>)
    ensures r.Ok? <==> ProfitTotal(ds, book).Ok?
    ensures r.Ok? ==> r == ProfitTotal(ds, book)
  {
    r := Ok((0.0, 0));
    var j := 0;
    while j < |ds| && r.Ok?
      invariant 0 <= j <= |ds|
      invariant r.Ok? ==> ProfitTotal(ds[..j], book) == r
      invariant r.Err? ==> ProfitTotal(ds, book).Err?
    {
      r := AddProfit(ds, j, book, r.value.0, r.value.1);
      j := j + 1;
    }
    if r.Ok? {
      assert ds[..j] == ds;
    }
  }

  /** One pass of the inner loop: the deal's dollar profit added to the sum
      and the trade counted, or the failure that ends the sum. */
  method AddProfit(ds: seq<DBDeals>, j: int, book: Book, sum: real, count: nat) returns (r: Result<(real, nat)>)
    requires 0 <= j < |ds| && ProfitTotal(ds[..j], book) == Ok((sum, count))
    ensures r.Ok? ==> ProfitTotal(ds[..j + 1], book) == r
    ensures r.Err? ==> ProfitTotal(ds, book).Err?
  {
    var p := ProfitUSD(ds[j], book);
    if p.Err? {
      ProfitTotalFailurePersists(ds, j + 1, book);
      return Err(p.error);
    }
    ProfitTotalStep(ds, j, book, sum, count, p.value);
    r := Ok((sum + p.value, count + 1));
  }

  /** Once a deal of the walk lacks a close time, the walk over any longer
      prefix stops with the same list. */
  lemma {:induction false} TodayScanHalted(s: seq<DBDeals>, n: int, now: DateTime)
    requires 1 <= n <= |s| && s[n - 1].closeTime.None?
    ensures TodayScan(s, now) == (TodayScan(s[..n - 1], now).0, true)
    decreases |s| - n
  {
    if n < |s| {
      TodayScanHalted(s[..|s| - 1], n, now);
      assert s[..|s| - 1][..n - 1] == s[..n - 1];
    } else {
      assert s[..|s| - 1] == s[..n - 1];
    }
  }

  /** One more converted deal adds its profit and one trade to the sum. */
  lemma ProfitTotalStep(ds: seq<DBDeals>, j: int, book: Book, sum: real, count: nat, p: real)
    requires 0 <= j < |ds| && ProfitTotal(ds[..j], book) == Ok((sum, count)) && ProfitUSD(ds[j], book) == Ok(p)
    ensures ProfitTotal(ds[..j + 1], book) == Ok((sum + p, count + 1))
  {
    var q := ds[..j + 1];
    assert q[..|q| - 1] == ds[..j] && q[|q| - 1] == ds[j];
  }

  /** A deal whose profit cannot be converted fails the whole sum. */
  lemma {:induction false} ProfitTotalFailurePersists(ds: seq<DBDeals>, j: int, book: Book)
    requires 1 <= j <= |ds|
    requires ProfitTotal(ds[..j - 1], book).Ok? && ProfitUSD(ds[j - 1], book).Err?
    ensures ProfitTotal(ds, book).Err?
    decreases |ds| - j
  {
    if j < |ds| {
      assert ds[..|ds| - 1][..j - 1] == ds[..j - 1];
      assert ds[..|ds| - 1][j - 1] == ds[j - 1];
      ProfitTotalFailurePersists(ds[..|ds| - 1], j, book);
    } else {
      assert ds[..j] == ds;
      assert ds[..|ds| - 1] == ds[..j - 1];
    }
  }
}
