/** The deal table: the lookups `SaveDeals` relies on, the specification of
    ingesting one batch of closed deals (`SaveDeals`), of reading back the
    deals closed today (`TodayDeals`) and the transfer object both use. */
module Deals {
  import opened Basics
  import opened Calendar
  import opened Entities
  import opened Sorting

  /** `getSymbolByName`: the first symbol row with that name. */
  function SymbolByName(symbols: seq<DBSymbol>, name: string): (r: Option<DBSymbol>)
    ensures r.Some? ==> r.value in symbols && r.value.name == name
    ensures r.None? ==> forall s :: s in symbols ==> s.name != name
    ensures r.Some? ==> exists k :: 0 <= k < |symbols| && symbols[k] == r.value && forall j :: 0 <= j < k ==> symbols[j].name != name
  {
    var named := (s: DBSymbol) => s.name == name;
    FirstWhereIsFirst(symbols, named);
    FirstWhere(symbols, named)
  }

  /** `getBDTerminalByNumber`: the account number, a `long`, is cast to `int`
      before the comparison. */
  function TerminalByNumber(terminals: seq<DBTerminal>, accountNumber: int): (r: Option<DBTerminal>)
    ensures r.Some? ==> r.value in terminals && r.value.accountNumber == ToInt32(accountNumber)
    ensures r.None? ==> forall t :: t in terminals ==> t.accountNumber != ToInt32(accountNumber)
    ensures r.Some? ==> exists k :: 0 <= k < |terminals| && terminals[k] == r.value &&
                         forall j :: 0 <= j < k ==> terminals[j].accountNumber != ToInt32(accountNumber)
  {
    var numbered := (t: DBTerminal) => t.accountNumber == ToInt32(accountNumber);
    FirstWhereIsFirst(terminals, numbered);
    FirstWhere(terminals, numbered)
  }

  /** `getDealById`: a deal whose `Dealid` is the (cast) ticket. */
  function DealByDealId(deals: seq<DBDeals>, dealId: int): (r: Option<DBDeals>)
    ensures r.Some? <==> exists d :: d in deals && d.dealid == ToInt32(dealId)
  {
    FirstWhere(deals, (d: DBDeals) => d.dealid == ToInt32(dealId))
  }

  /** `Session.Get<DBDeals>(id)`: the row with that primary key. */
  function DealByKey(deals: seq<DBDeals>, id: int): (r: Option<DBDeals>)
    ensures r.Some? <==> exists d :: d in deals && d.id == id
  {
    FirstWhere(deals, (d: DBDeals) => d.id == id)
  }

  function SymbolById(symbols: seq<DBSymbol>, id: int): Option<DBSymbol> {
    FirstWhere(symbols, (s: DBSymbol) => s.id == id)
  }

  function TerminalById(terminals: seq<DBTerminal>, id: int): Option<DBTerminal> {
    FirstWhere(terminals, (t: DBTerminal) => t.id == id)
  }

  /** What ingestion reads besides the deal table: the symbol and terminal
      tables, the ids of the advisers, `DateTime.TryParse`, and whether the
      database accepts a record (a failed save is caught, logged and skipped). */
  datatype Env = Env(
    symbols: seq<DBSymbol>, terminals: seq<DBTerminal>, advisers: set<int>,
    parseDate: string -> Option<DateTime>, saves: DBDeals -> bool)

  /** The record `SaveDeals` builds for a deal of a known symbol: primary key
      and `Dealid` are both the ticket cast to `int`; a time that does not
      parse stays unset (`MinValue` for the non-nullable open time). */
  function NewRecord(env: Env, deal: DealInfo, sym: DBSymbol): DBDeals {
    var terminal := TerminalByNumber(env.terminals, deal.account);
    var magic := ToInt32(deal.magic);
    DBDeals(
      id := ToInt32(deal.ticket), dealid := ToInt32(deal.ticket),
      orderid := Some(ToInt32(deal.orderId)),
      symbol := Some(sym.id),
      terminal := if terminal.Some? then Some(terminal.value.id) else None,
      adviser := if magic in env.advisers then Some(magic) else None,
      openTime := (match env.parseDate(deal.openTime) case Some(t) => t case None => MinValue),
      closeTime := env.parseDate(deal.closeTime),
      comment := deal.comment, commission := deal.commission, profit := deal.profit,
      price := deal.closePrice, swap := deal.swapValue, typ := deal.typ, volume := deal.lots)
  }

  /** Some row already holds the deal's ticket as key or as `Dealid`. */
  predicate Covered(rows: seq<DBDeals>, deal: DealInfo) {
    exists r :: r in rows && (r.id == ToInt32(deal.ticket) || r.dealid == ToInt32(deal.ticket))
  }

  /** The row one deal adds to the table, if any: none for an unknown symbol,
      for a ticket already stored, or when the save fails. */
  function Insertion(env: Env, rows: seq<DBDeals>, deal: DealInfo): (r: Option<DBDeals>)
    ensures r.Some? <==>
              && SymbolByName(env.symbols, deal.symbol).Some?
              && !Covered(rows, deal)
              && env.saves(NewRecord(env, deal, SymbolByName(env.symbols, deal.symbol).value))
    ensures r.Some? ==> r.value.id == r.value.dealid == ToInt32(deal.ticket)
    ensures r.Some? ==> r.value == NewRecord(env, deal, SymbolByName(env.symbols, deal.symbol).value)
  {
    match SymbolByName(env.symbols, deal.symbol)
    case None => None
    case Some(sym) =>
      if DealByKey(rows, ToInt32(deal.ticket)).Some? || DealByDealId(rows, deal.ticket).Some? then None
      else
        var rec := NewRecord(env, deal, sym);
        if env.saves(rec) then Some(rec) else None
  }

  /** The table and the insert counter after processing `batch` in order. */
  function Ingest(env: Env, rows: seq<DBDeals>, batch: seq<DealInfo>): (r: (seq<DBDeals>, nat))
    ensures |r.0| == |rows| + r.1
    ensures r.0[..|rows|] == rows
    decreases |batch|
  {
    if batch == [] then (rows, 0)
    else
      var prev := Ingest(env, rows, batch[..|batch| - 1]);
      match Insertion(env, prev.0, batch[|batch| - 1])
      case None => prev
      case Some(rec) => (prev.0 + [rec], prev.1 + 1)
  }

  /** One more deal of the batch: its row, if any, is appended and counted. */
  lemma IngestStep(env: Env, rows: seq<DBDeals>, batch: seq<DealInfo>, k: int)
    requires 0 <= k < |batch|
    ensures var prev := Ingest(env, rows, batch[..k]);
            Ingest(env, rows, batch[..k + 1]) ==
              match Insertion(env, prev.0, batch[k])
              case None => prev
              case Some(rec) => (prev.0 + [rec], prev.1 + 1)
  {
    assert batch[..k + 1][..k] == batch[..k];
  }

  /** `OrderBy(x => x.CloseTime)`: close times compared as text. */
  predicate CloseTimeLe(a: DealInfo, b: DealInfo) {
    StrLe(a.closeTime, b.closeTime)
  }

  function ProcessingOrder(batch: seq<DealInfo>): seq<DealInfo> {
    SortBy(batch, CloseTimeLe)
  }

  lemma CloseTimeLeTotal()
    ensures TotalPreorder(CloseTimeLe)
  {
    forall a: DealInfo, b: DealInfo ensures CloseTimeLe(a, b) || CloseTimeLe(b, a) {
      StrLeTotal(a.closeTime, b.closeTime);
    }
    forall a: DealInfo, b: DealInfo, c: DealInfo | CloseTimeLe(a, b) && CloseTimeLe(b, c)
      ensures CloseTimeLe(a, c)
    {
      StrLeTransitive(a.closeTime, b.closeTime, c.closeTime);
    }
  }

  /** The batch is processed in ascending close-time order, and every deal of
      the batch is processed exactly as often as it occurs. */
  lemma ProcessingOrderSorted(batch: seq<DealInfo>)
    ensures SortedBy(ProcessingOrder(batch), CloseTimeLe)
    ensures multiset(ProcessingOrder(batch)) == multiset(batch)
  {
    CloseTimeLeTotal();
    SortByIsSorted(batch, CloseTimeLe);
  }

  /** Every appended row is the record of a deal of the batch whose symbol is
      known, carrying its ticket as both key and `Dealid`. */
  lemma {:induction false} IngestAppendsBatchDeals(env: Env, rows: seq<DBDeals>, batch: seq<DealInfo>)
    ensures forall k :: |rows| <= k < |Ingest(env, rows, batch).0| ==>
              exists deal :: deal in batch && SymbolByName(env.symbols, deal.symbol).Some? &&
                Ingest(env, rows, batch).0[k] == NewRecord(env, deal, SymbolByName(env.symbols, deal.symbol).value) &&
                Ingest(env, rows, batch).0[k].id == ToInt32(deal.ticket) &&
                Ingest(env, rows, batch).0[k].dealid == ToInt32(deal.ticket)
    decreases |batch|
  {
    if batch != [] {
      var init, last := batch[..|batch| - 1], batch[|batch| - 1];
      IngestAppendsBatchDeals(env, rows, init);
      var prev := Ingest(env, rows, init);
      var res := Ingest(env, rows, batch);
      forall k | |rows| <= k < |res.0|
        ensures exists deal :: deal in batch && SymbolByName(env.symbols, deal.symbol).Some? &&
                  res.0[k] == NewRecord(env, deal, SymbolByName(env.symbols, deal.symbol).value) &&
                  res.0[k].id == ToInt32(deal.ticket) && res.0[k].dealid == ToInt32(deal.ticket)
      {
        if k < |prev.0| {
          assert res.0[k] == prev.0[k];
          var deal :| deal in init && SymbolByName(env.symbols, deal.symbol).Some? &&
            prev.0[k] == NewRecord(env, deal, SymbolByName(env.symbols, deal.symbol).value) &&
            prev.0[k].id == ToInt32(deal.ticket) && prev.0[k].dealid == ToInt32(deal.ticket);
          assert deal in batch;
        } else {
          var ins := Insertion(env, prev.0, last);
          assert ins.Some? && res.0 == prev.0 + [ins.value];
          assert res.0[k] == ins.value;
          assert last in batch;
        }
      }
    } else {
      assert Ingest(env, rows, batch).0 == rows;
    }
  }

  /** No appended row reuses a key or `Dealid` the table held before. */
  lemma {:induction false} IngestAppendsFresh(env: Env, rows: seq<DBDeals>, batch: seq<DealInfo>)
    ensures forall k, i :: |rows| <= k < |Ingest(env, rows, batch).0| && 0 <= i < |rows| ==>
              rows[i].id != Ingest(env, rows, batch).0[k].id && rows[i].dealid != Ingest(env, rows, batch).0[k].dealid
    decreases |batch|
  {
    if batch != [] {
      var init, last := batch[..|batch| - 1], batch[|batch| - 1];
      IngestAppendsFresh(env, rows, init);
      var prev := Ingest(env, rows, init).0;
      var res := Ingest(env, rows, batch).0;
      var ins := Insertion(env, prev, last);
      if ins.Some? {
        assert res == prev + [ins.value];
        forall k, i | |rows| <= k < |res| && 0 <= i < |rows|
          ensures rows[i].id != res[k].id && rows[i].dealid != res[k].dealid
        {
          if k == |prev| {
            assert prev[i] == rows[i];
            assert rows[i] in prev;
            assert res[k] == ins.value;
          } else {
            assert res[k] == prev[k];
          }
        }
      } else {
        assert res == prev;
      }
    }
  }

  /** No two rows share a primary key and no two share a `Dealid`. */
  predicate UniqueKeys(rows: seq<DBDeals>) {
    forall i, j :: 0 <= i < j < |rows| ==> rows[i].id != rows[j].id && rows[i].dealid != rows[j].dealid
  }

  /** Ingestion never stores a ticket twice. */
  lemma {:induction false} IngestKeepsKeysUnique(env: Env, rows: seq<DBDeals>, batch: seq<DealInfo>)
    requires UniqueKeys(rows)
    ensures UniqueKeys(Ingest(env, rows, batch).0)
    decreases |batch|
  {
    if batch != [] {
      var init, last := batch[..|batch| - 1], batch[|batch| - 1];
      IngestKeepsKeysUnique(env, rows, init);
      var prev := Ingest(env, rows, init).0;
      var ins := Insertion(env, prev, last);
      if ins.Some? {
        var next := prev + [ins.value];
        forall i, j | 0 <= i < j < |next| ensures next[i].id != next[j].id && next[i].dealid != next[j].dealid {
          if j == |prev| {
            assert next[i] in prev;
          }
        }
      }
    }
  }

  /** Growing the table never lets a deal in that it kept out. */
  lemma InsertionSettled(env: Env, rows: seq<DBDeals>, more: seq<DBDeals>, deal: DealInfo)
    requires Insertion(env, rows, deal).None?
    ensures Insertion(env, rows + more, deal).None?
  {
    if Covered(rows, deal) {
      var r :| r in rows && (r.id == ToInt32(deal.ticket) || r.dealid == ToInt32(deal.ticket));
      assert r in rows + more;
    }
  }

  /** After a batch, no deal of it would be inserted again. */
  lemma {:induction false} IngestSettlesBatch(env: Env, rows: seq<DBDeals>, batch: seq<DealInfo>)
    ensures forall deal :: deal in batch ==> Insertion(env, Ingest(env, rows, batch).0, deal).None?
    decreases |batch|
  {
    if batch != [] {
      var init, last := batch[..|batch| - 1], batch[|batch| - 1];
      IngestSettlesBatch(env, rows, init);
      var prev := Ingest(env, rows, init).0;
      var next := Ingest(env, rows, batch).0;
      var ins := Insertion(env, prev, last);
      var more := if ins.Some? then [ins.value] else [];
      assert next == prev + more;
      forall deal | deal in batch ensures Insertion(env, next, deal).None? {
        if deal in init {
          InsertionSettled(env, prev, more, deal);
        } else if ins.Some? {
          assert deal == last;
          assert next[|prev|] in next;
        } else {
          InsertionSettled(env, prev, [], deal);
          assert prev + [] == prev;
        }
      }
    }
  }

  /** A batch none of whose deals would be inserted leaves the table alone. */
  lemma {:induction false} IngestOfSettled(env: Env, rows: seq<DBDeals>, batch: seq<DealInfo>)
    requires forall deal :: deal in batch ==> Insertion(env, rows, deal).None?
    ensures Ingest(env, rows, batch) == (rows, 0)
    decreases |batch|
  {
    if batch != [] {
      IngestOfSettled(env, rows, batch[..|batch| - 1]);
      assert batch[|batch| - 1] in batch;
    }
  }

  /** Replaying a batch while the database accepts the same records inserts
      nothing and changes nothing. */
  lemma ReplayInsertsNothing(env: Env, rows: seq<DBDeals>, batch: seq<DealInfo>)
    ensures var once := Ingest(env, rows, batch).0;
            Ingest(env, once, batch) == (once, 0)
  {
    IngestSettlesBatch(env, rows, batch);
    IngestOfSettled(env, Ingest(env, rows, batch).0, batch);
  }

  /** Replaying a batch while the database accepts other records (`saves2`):
      no ticket stored by the first upload is stored again; what the replay
      adds are the records of batch deals the first upload did not store,
      and the counter counts exactly them. */
  lemma ReplayStoresOnlyNewTickets(env: Env, saves2: DBDeals -> bool, rows: seq<DBDeals>, batch: seq<DealInfo>)
    ensures var once := Ingest(env, rows, batch).0;
            var twice := Ingest(env.(saves := saves2), once, batch);
            && twice.0[..|once|] == once
            && twice.1 == |twice.0| - |once|
            && (forall k, i :: |once| <= k < |twice.0| && 0 <= i < |once| ==>
                  once[i].id != twice.0[k].id && once[i].dealid != twice.0[k].dealid)
            && (forall k :: |once| <= k < |twice.0| ==>
                  exists deal :: deal in batch && SymbolByName(env.symbols, deal.symbol).Some? &&
                    twice.0[k] == NewRecord(env, deal, SymbolByName(env.symbols, deal.symbol).value))
  {
    var once := Ingest(env, rows, batch).0;
    var env2 := env.(saves := saves2);
    IngestAppendsFresh(env2, once, batch);
    IngestAppendsBatchDeals(env2, once, batch);
    assert forall deal: DealInfo, sym :: NewRecord(env2, deal, sym) == NewRecord(env, deal, sym);
  }

  /** A deal of a known symbol, with an unseen ticket, that the database
      accepts is inserted, and the counter counts it. */
  lemma IngestInsertsFreshDeal(env: Env, rows: seq<DBDeals>, deal: DealInfo)
    requires SymbolByName(env.symbols, deal.symbol).Some?
    requires forall r :: r in rows ==> r.id != ToInt32(deal.ticket) && r.dealid != ToInt32(deal.ticket)
    requires env.saves(NewRecord(env, deal, SymbolByName(env.symbols, deal.symbol).value))
    ensures Ingest(env, rows, [deal]) == (rows + [NewRecord(env, deal, SymbolByName(env.symbols, deal.symbol).value)], 1)
  {
    assert [deal][..0] == [];
  }

  // ---- reading deals back ----

  /** `OrderByDescending(x => x.Closetime)`: later close times first, deals
      without a close time last. */
  predicate CloseTimeDesc(a: DBDeals, b: DBDeals) {
    match b.closeTime
    case None => true
    case Some(tb) => a.closeTime.Some? && Ticks(tb) <= Ticks(a.closeTime.value)
  }

  lemma CloseTimeDescTotal()
    ensures TotalPreorder(CloseTimeDesc)
  {
  }

  /** The same descending order with the deals without a close time first,
      where a database that sorts NULL as the largest value puts them. */
  predicate CloseTimeDescNullsFirst(a: DBDeals, b: DBDeals) {
    match a.closeTime
    case None => true
    case Some(ta) => b.closeTime.Some? && Ticks(b.closeTime.value) <= Ticks(ta)
  }

  lemma CloseTimeDescNullsFirstTotal()
    ensures TotalPreorder(CloseTimeDescNullsFirst)
  {
  }

  /** The order the deal table is read in for `TodayDeals`: where deals
      without a close time go under a descending order is the database's
      choice, first when `nullsFirst`. */
  function ReadOrder(nullsFirst: bool): (DBDeals, DBDeals) -> bool {
    if nullsFirst then CloseTimeDescNullsFirst else CloseTimeDesc
  }

  /** `toDTO(DBDeals)`: the symbol's name, the terminal's account number and
      broker, the adviser as magic number, times as text in the terminal
      format, and the order id as ticket. Unset references leave defaults. */
  function DealDTO(d: DBDeals, symbols: seq<DBSymbol>, terminals: seq<DBTerminal>, format: DateTime -> string): DealInfo {
    var sym := if d.symbol.Some? then SymbolById(symbols, d.symbol.value) else None;
    var term := if d.terminal.Some? then TerminalById(terminals, d.terminal.value) else None;
    DealInfo(
      ticket := if d.orderid.Some? then d.orderid.value else 0,
      orderId := 0,
      account := if term.Some? then term.value.accountNumber else 0,
      accountName := if term.Some? then term.value.broker else "",
      magic := if d.adviser.Some? then d.adviser.value else 0,
      symbol := if sym.Some? then sym.value.name else "",
      typ := ToInt8(d.typ),
      lots := d.volume,
      openTime := format(d.openTime),
      closeTime := if d.closeTime.Some? then format(d.closeTime.value) else "",
      openPrice := d.price, closePrice := 0.0,
      profit := d.profit, commission := d.commission, swapValue := d.swap,
      comment := d.comment)
  }

  predicate UniqueSymbolIds(symbols: seq<DBSymbol>) {
    forall i, j :: 0 <= i < j < |symbols| ==> symbols[i].id != symbols[j].id
  }

  predicate UniqueTerminalIds(terminals: seq<DBTerminal>) {
    forall i, j :: 0 <= i < j < |terminals| ==> terminals[i].id != terminals[j].id
  }

  lemma SymbolByIdFinds(symbols: seq<DBSymbol>, s: DBSymbol)
    requires UniqueSymbolIds(symbols) && s in symbols
    ensures SymbolById(symbols, s.id) == Some(s)
  {
    var k :| 0 <= k < |symbols| && symbols[k] == s;
    var r := FirstIndex(symbols, (x: DBSymbol) => x.id == s.id);
    assert r.Some? && symbols[r.value].id == s.id;
  }

  lemma TerminalByIdFinds(terminals: seq<DBTerminal>, t: DBTerminal)
    requires UniqueTerminalIds(terminals) && t in terminals
    ensures TerminalById(terminals, t.id) == Some(t)
  {
    var k :| 0 <= k < |terminals| && terminals[k] == t;
    var r := FirstIndex(terminals, (x: DBTerminal) => x.id == t.id);
    assert r.Some? && terminals[r.value].id == t.id;
  }

  /** Storing a deal and reading it back: the symbol, amounts, comment, the
      account and its broker keep their values, and the magic number when
      its adviser exists; the ticket read back is the ORDER id, the
      close price comes back as the open price, and an unparsed close time
      as empty text. */
  lemma StoredDealReadsBack(env: Env, deal: DealInfo, format: DateTime -> string)
    requires UniqueSymbolIds(env.symbols) && UniqueTerminalIds(env.terminals)
    requires SymbolByName(env.symbols, deal.symbol).Some?
    ensures var rec := NewRecord(env, deal, SymbolByName(env.symbols, deal.symbol).value);
            var dto := DealDTO(rec, env.symbols, env.terminals, format);
            && dto.symbol == deal.symbol
            && dto.ticket == ToInt32(deal.orderId)
            && dto.profit == deal.profit && dto.commission == deal.commission
            && dto.swapValue == deal.swapValue && dto.lots == deal.lots
            && dto.openPrice == deal.closePrice && dto.comment == deal.comment
            && dto.typ == ToInt8(deal.typ)
            && (TerminalByNumber(env.terminals, deal.account).Some? ==> dto.account == ToInt32(deal.account))
            && (TerminalByNumber(env.terminals, deal.account).None? ==> dto.account == 0)
            && (env.parseDate(deal.closeTime).None? ==> dto.closeTime == "")
            && (env.parseDate(deal.closeTime).Some? ==> dto.closeTime == format(env.parseDate(deal.closeTime).value))
            && (TerminalByNumber(env.terminals, deal.account).Some? ==>
                  dto.accountName == TerminalByNumber(env.terminals, deal.account).value.broker)
            && (TerminalByNumber(env.terminals, deal.account).None? ==> dto.accountName == "")
            && dto.magic == (if ToInt32(deal.magic) in env.advisers then ToInt32(deal.magic) else 0)
  {
    var sym := SymbolByName(env.symbols, deal.symbol).value;
    SymbolByIdFinds(env.symbols, sym);
    var term := TerminalByNumber(env.terminals, deal.account);
    if term.Some? {
      TerminalByIdFinds(env.terminals, term.value);
    }
  }

  /** The deals `TodayDeals` lists from the table in its read order, and
      whether the walk stopped at a deal without close time (reading its
      close time raises; the caught exception ends the walk). */
  function TodayScan(s: seq<DBDeals>, now: DateTime): (r: (seq<DBDeals>, bool))
    decreases |s|
  {
    if s == [] then ([], false)
    else
      var prev := TodayScan(s[..|s| - 1], now);
      var last := s[|s| - 1];
      if prev.1 || last.closeTime.None? then (prev.0, true)
      else if IsSameDay(last.closeTime.value, now) then (prev.0 + [last], false)
      else prev
  }

  predicate ClosedOn(d: DBDeals, now: DateTime) {
    d.closeTime.Some? && IsSameDay(d.closeTime.value, now)
  }

  /** The walk stops exactly when some deal lacks a close time. */
  lemma {:induction false} TodayScanStops(s: seq<DBDeals>, now: DateTime)
    ensures TodayScan(s, now).1 <==> exists k :: 0 <= k < |s| && s[k].closeTime.None?
    decreases |s|
  {
    if s != [] {
      var init := s[..|s| - 1];
      TodayScanStops(init, now);
      if TodayScan(init, now).1 {
        var k :| 0 <= k < |init| && init[k].closeTime.None?;
        assert s[k].closeTime.None?;
      } else {
        assert forall k :: 0 <= k < |init| ==> s[k] == init[k];
      }
    }
  }

  /** No deal before position `k` lacks a close time. */
  predicate TimedBefore(s: seq<DBDeals>, k: int)
    requires k <= |s|
  {
    forall m :: 0 <= m < k ==> s[m].closeTime.Some?
  }

  /** A deal the walk lists closed today, and no deal without a close time
      comes before it. */
  lemma {:induction false} TodayScanListed(s: seq<DBDeals>, now: DateTime, d: DBDeals)
    requires d in TodayScan(s, now).0
    ensures exists k :: 0 <= k < |s| && s[k] == d && ClosedOn(d, now) && TimedBefore(s, k)
    decreases |s|
  {
    var init := s[..|s| - 1];
    var prev := TodayScan(init, now);
    if d in prev.0 {
      TodayScanListed(init, now, d);
      var k :| 0 <= k < |init| && init[k] == d && ClosedOn(d, now) && TimedBefore(init, k);
      assert s[k] == d && TimedBefore(s, k);
    } else {
      assert !prev.1 && d == s[|s| - 1];
      TodayScanStops(init, now);
      forall j | 0 <= j < |s| - 1 ensures s[j].closeTime.Some? {
        assert s[j] == init[j];
      }
    }
  }

  /** A deal closed today with no deal lacking a close time before it is
      listed by the walk. */
  lemma {:induction false} TodayScanLists(s: seq<DBDeals>, now: DateTime, d: DBDeals, k: int)
    requires 0 <= k < |s| && s[k] == d && ClosedOn(d, now) && TimedBefore(s, k)
    ensures d in TodayScan(s, now).0
    decreases |s|
  {
    var init := s[..|s| - 1];
    if k < |init| {
      assert init[k] == d && TimedBefore(init, k);
      TodayScanLists(init, now, d, k);
    } else {
      TodayScanStops(init, now);
      assert !TodayScan(init, now).1 by {
        forall j | 0 <= j < |init| ensures init[j].closeTime.Some? {
          assert s[j] == init[j];
        }
      }
    }
  }

  /** The walk lists a deal exactly when it closed today and no deal without a
      close time comes before it. */
  lemma TodayScanMembers(s: seq<DBDeals>, now: DateTime, d: DBDeals)
    ensures d in TodayScan(s, now).0 <==>
              exists k :: 0 <= k < |s| && s[k] == d && ClosedOn(d, now) && TimedBefore(s, k)
  {
    if d in TodayScan(s, now).0 {
      TodayScanListed(s, now, d);
    }
    if exists k :: 0 <= k < |s| && s[k] == d && ClosedOn(d, now) && TimedBefore(s, k) {
      var k :| 0 <= k < |s| && s[k] == d && ClosedOn(d, now) && TimedBefore(s, k);
      TodayScanLists(s, now, d, k);
    }
  }

  /** On a table read in `OrderByDescending(Closetime)` order, `TodayDeals`
      lists exactly the deals closed today. */
  lemma TodayScanSelectsToday(s: seq<DBDeals>, now: DateTime, d: DBDeals)
    requires SortedBy(s, CloseTimeDesc)
    ensures d in TodayScan(s, now).0 <==> d in s && ClosedOn(d, now)
  {
    TodayScanMembers(s, now, d);
    if d in s && ClosedOn(d, now) {
      var k :| 0 <= k < |s| && s[k] == d;
      forall m | 0 <= m < k ensures s[m].closeTime.Some? {
        assert CloseTimeDesc(s[m], s[k]);
      }
      assert TimedBefore(s, k);
    }
  }

  /** What `TodayDeals` lists keeps the read order: latest close first. */
  lemma {:induction false} TodayScanSorted(s: seq<DBDeals>, now: DateTime)
    requires SortedBy(s, CloseTimeDesc)
    ensures SortedBy(TodayScan(s, now).0, CloseTimeDesc)
    decreases |s|
  {
    if s != [] {
      var init, last := s[..|s| - 1], s[|s| - 1];
      assert SortedBy(init, CloseTimeDesc) by {
        forall i, j | 0 <= i < j < |init| ensures CloseTimeDesc(init[i], init[j]) {
          assert s[i] == init[i] && s[j] == init[j];
        }
      }
      TodayScanSorted(init, now);
      var prev := TodayScan(init, now);
      var r := TodayScan(s, now);
      if r.0 != prev.0 {
        assert r.0 == prev.0 + [last];
        forall i, j | 0 <= i < j < |r.0| ensures CloseTimeDesc(r.0[i], r.0[j]) {
          if j == |prev.0| {
            TodayScanMembers(init, now, r.0[i]);
            assert r.0[i] in prev.0;
            var k :| 0 <= k < |init| && init[k] == r.0[i];
            assert CloseTimeDesc(s[k], s[|s| - 1]);
          }
        }
      }
    }
  }

  /** The transfer objects of `rows`, in order. */
  function DTOs(rows: seq<DBDeals>, symbols: seq<DBSymbol>, terminals: seq<DBTerminal>, format: DateTime -> string): (r: seq<DealInfo>)
    ensures |r| == |rows|
    ensures forall i :: 0 <= i < |rows| ==> r[i] == DealDTO(rows[i], symbols, terminals, format)
  {
    seq(|rows|, i requires 0 <= i < |rows| => DealDTO(rows[i], symbols, terminals, format))
  }

  /** The deals `TodayDeals` reads back, before conversion: the table read
      latest close first, walked until a deal without close time. */
  function TodayRows(deals: seq<DBDeals>, now: DateTime, nullsFirst: bool): seq<DBDeals> {
    TodayScan(SortBy(deals, ReadOrder(nullsFirst)), now).0
  }

  /** With the deals without a close time read last, `TodayDeals` lists
      exactly the deals of the table closed on the same calendar day as
      `now`, latest first. */
  lemma TodayRowsSelectsToday(deals: seq<DBDeals>, now: DateTime, d: DBDeals)
    ensures d in TodayRows(deals, now, false) <==> d in deals && ClosedOn(d, now)
    ensures SortedBy(TodayRows(deals, now, false), CloseTimeDesc)
  {
    var sorted := SortBy(deals, CloseTimeDesc);
    CloseTimeDescTotal();
    SortByIsSorted(deals, CloseTimeDesc);
    SortByMembers(deals, CloseTimeDesc, d);
    TodayScanSelectsToday(sorted, now, d);
    TodayScanSorted(sorted, now);
  }

  /** When every deal has a close time, the placement of the others does not
      matter: `TodayDeals` lists exactly the deals closed today. */
  lemma TodayRowsAllTimed(deals: seq<DBDeals>, now: DateTime, nullsFirst: bool, d: DBDeals)
    requires forall x :: x in deals ==> x.closeTime.Some?
    ensures d in TodayRows(deals, now, nullsFirst) <==> d in deals && ClosedOn(d, now)
  {
    var sorted := SortBy(deals, ReadOrder(nullsFirst));
    SortByMembers(deals, ReadOrder(nullsFirst), d);
    TodayScanMembers(sorted, now, d);
    if d in deals && ClosedOn(d, now) {
      var k :| 0 <= k < |sorted| && sorted[k] == d;
      forall m | 0 <= m < k ensures sorted[m].closeTime.Some? {
        SortByMembers(deals, ReadOrder(nullsFirst), sorted[m]);
      }
      assert TimedBefore(sorted, k);
    }
  }

  /** A walk whose first deal lacks a close time stops at once. */
  lemma {:induction false} TodayScanUntimedHead(s: seq<DBDeals>, now: DateTime)
    requires s != [] && s[0].closeTime.None?
    ensures TodayScan(s, now).0 == [] && TodayScan(s, now).1
    decreases |s|
  {
    if |s| > 1 {
      TodayScanUntimedHead(s[..|s| - 1], now);
    }
  }

  /** With the deals without a close time read first, one such deal in the
      table makes `TodayDeals` list nothing. */
  lemma TodayRowsNullsFirstUntimed(deals: seq<DBDeals>, now: DateTime, x: DBDeals)
    requires x in deals && x.closeTime.None?
    ensures TodayRows(deals, now, true) == []
  {
    var sorted := SortBy(deals, CloseTimeDescNullsFirst);
    CloseTimeDescNullsFirstTotal();
    SortByIsSorted(deals, CloseTimeDescNullsFirst);
    SortByMembers(deals, CloseTimeDescNullsFirst, x);
    var kx :| 0 <= kx < |sorted| && sorted[kx] == x;
    assert sorted[0].closeTime.None? by {
      if kx > 0 {
        assert CloseTimeDescNullsFirst(sorted[0], sorted[kx]);
      }
    }
    TodayScanUntimedHead(sorted, now);
  }
}
