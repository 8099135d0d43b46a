/** The records the data service reads and writes: persisted rows (the `DB*`
    entities), the transfer objects terminals send (`DealInfo`, `RatesInfo`)
    and the derived statistics it returns. References between rows are ids;
    `None` stands for a null reference. */
module Entities {
  import opened Basics
  import opened Calendar

  /** A cached quote (`Rates`), keyed in the cache by its meta-symbol name. */
  datatype Rates = Rates(
    metaSymbol: string, c1: string, c2: string,
    ratebid: real, rateask: real, retired: bool, lastUpdate: DateTime)

  /** A row of the rates table together with its meta-symbol (`DBRates`). */
  datatype DBRates = DBRates(
    metaSymbol: string, c1: string, c2: string,
    ratebid: real, rateask: real, retired: bool, lastUpdate: Option<DateTime>)

  /** A quote as a terminal or the external feed reports it (`RatesInfo`). */
  datatype RatesInfo = RatesInfo(symbol: string, ask: real, bid: real)

  datatype DBSymbol = DBSymbol(id: int, name: string, metaSymbol: int)

  datatype DBMetasymbol = DBMetasymbol(id: int, name: string, description: string, retired: bool)

  datatype DBTerminal = DBTerminal(id: int, accountNumber: int, broker: string, demo: bool, account: Option<int>)

  /** `typ > 0` marks an investment account. */
  datatype DBAccount = DBAccount(
    id: int, balance: real, equity: real, lastUpdate: DateTime,
    currency: Option<string>, typ: int, terminal: Option<int>)

  /** A daily balance snapshot of one account. */
  datatype DBAccountstate = DBAccountstate(account: int, date: DateTime, balance: real, comment: string)

  /** A closed deal as a terminal reports it; times are still text. */
  datatype DealInfo = DealInfo(
    ticket: int, orderId: int, account: int, accountName: string, magic: int,
    symbol: string, typ: int, lots: real,
    openTime: string, closeTime: string, openPrice: real, closePrice: real,
    profit: real, commission: real, swapValue: real, comment: string)

  /** A persisted deal row. `openTime` is a non-nullable column and keeps
      `DateTime.MinValue` when the text did not parse; `closeTime` is nullable. */
  datatype DBDeals = DBDeals(
    id: int, dealid: int, orderid: Option<int>,
    symbol: Option<int>, terminal: Option<int>, adviser: Option<int>,
    openTime: DateTime, closeTime: Option<DateTime>,
    comment: string, commission: real, profit: real, price: real, swap: real,
    typ: int, volume: real)

  datatype TimePeriod = Daily | OtherPeriod(code: int)

  /** One point of the equity series of a month. */
  datatype TimeStat = TimeStat(
    x: int, date: DateTime, period: TimePeriod,
    checkingValue: real, checkingChange: real,
    investingValue: real, investingChange: real,
    gains: real, losses: real)

  datatype MetaSymbolStat = MetaSymbolStat(
    metaId: int, name: string, description: string,
    totalProfit: real, numOfTrades: int, profitPerTrade: real, date: DateTime)

  /** What the asynchronous performance run sends to the UI. */
  datatype ChartMessage = ChartValue(stat: TimeStat) | ChartDone
}
