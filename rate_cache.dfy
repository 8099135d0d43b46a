/** The in-memory rate cache of the data service: conversion of an amount to
    US dollars, and the specifications of refreshing the cache from the rates
    table and of applying incoming quotes to that table. */
module RateCache {
  import opened Basics
  import opened Calendar
  import opened Entities

  /** `ConvertToUSD`: identity for dollars and for zero; otherwise multiply by
      the bid of `<cur>USD`, or failing that divide by the ask of `USD<cur>`
      (a zero ask raises, as decimal division does); identity when the cache
      knows neither pair. */
  function ConvertToUSD(value: real, valueCurrency: string, crates: map<string, Rates>): Result<real> {
    if valueCurrency == "USD" || value == 0.0 then Ok(value)
    else if valueCurrency + "USD" in crates then Ok(value * crates[valueCurrency + "USD"].ratebid)
    else if "USD" + valueCurrency in crates then
      var ask := crates["USD" + valueCurrency].rateask;
      if ask == 0.0 then Err(DivideByZero) else Ok(value / ask)
    else Ok(value)
  }

  /** Dollars, zero, and currencies without any quote pass through unchanged. */
  lemma ConvertToUSDIdentity(value: real, cur: string, crates: map<string, Rates>)
    requires cur == "USD" || value == 0.0 || (cur + "USD" !in crates && "USD" + cur !in crates)
    ensures ConvertToUSD(value, cur, crates) == Ok(value)
  {
  }

  /** A direct quote `<cur>USD` decides alone: whatever the cache holds under
      `USD<cur>` (or whether it holds anything) does not matter. */
  lemma ConvertToUSDDirectQuoteWins(value: real, cur: string, crates: map<string, Rates>, q: Rates)
    requires cur != "USD" && value != 0.0
    requires cur + "USD" in crates
    requires cur + "USD" != "USD" + cur
    ensures ConvertToUSD(value, cur, crates) == Ok(value * crates[cur + "USD"].ratebid)
    ensures ConvertToUSD(value, cur, crates["USD" + cur := q]) == ConvertToUSD(value, cur, crates)
    ensures ConvertToUSD(value, cur, crates - {"USD" + cur}) == ConvertToUSD(value, cur, crates)
  {
    var direct := cur + "USD";
    var bid := crates[direct].ratebid;
    var r0 := ConvertToUSD(value, cur, crates);
    var r1 := ConvertToUSD(value, cur, crates["USD" + cur := q]);
    var r2 := ConvertToUSD(value, cur, crates - {"USD" + cur});
    assert r0.Ok? && r0.value == value * bid;
    assert r1.Ok? && r1.value == value * bid;
    assert r2.Ok? && r2.value == value * bid;
  }

  /** Without a direct quote, the inverse quote `USD<cur>` divides by its ask. */
  lemma ConvertToUSDInverseQuote(value: real, cur: string, crates: map<string, Rates>)
    requires cur != "USD" && value != 0.0
    requires cur + "USD" !in crates && "USD" + cur in crates
    ensures crates["USD" + cur].rateask != 0.0 ==>
              ConvertToUSD(value, cur, crates) == Ok(value / crates["USD" + cur].rateask)
    ensures crates["USD" + cur].rateask == 0.0 ==> ConvertToUSD(value, cur, crates) == Err(DivideByZero)
  {
  }

  /** Two caches agree on key `k`: both lack it, or both hold the same quote. */
  predicate AgreeOn(c1: map<string, Rates>, c2: map<string, Rates>, k: string) {
    (k in c1 <==> k in c2) && (k in c1 ==> c1[k] == c2[k])
  }

  /** The conversion reads only the two pairs of its currency. */
  lemma ConvertToUSDReadsTwoPairs(value: real, cur: string, c1: map<string, Rates>, c2: map<string, Rates>)
    requires AgreeOn(c1, c2, cur + "USD") && AgreeOn(c1, c2, "USD" + cur)
    ensures ConvertToUSD(value, cur, c1) == ConvertToUSD(value, cur, c2)
  {
    var r1, r2 := ConvertToUSD(value, cur, c1), ConvertToUSD(value, cur, c2);
    if cur == "USD" || value == 0.0 {
    } else if cur + "USD" in c1 {
      assert c1[cur + "USD"] == c2[cur + "USD"];
      assert r1.Ok? && r1.value == value * c1[cur + "USD"].ratebid;
      assert r2.Ok? && r2.value == value * c2[cur + "USD"].ratebid;
      assert r1.value == r2.value;
    } else if "USD" + cur in c1 {
      var ask := c1["USD" + cur].rateask;
      assert c2["USD" + cur].rateask == ask;
      if ask != 0.0 {
        assert r1.Ok? && r1.value == value / ask;
        assert r2.Ok? && r2.value == value / ask;
      }
    }
  }

  /** The conversion is linear: converting a sum is summing the conversions. */
  lemma ConvertToUSDAdditive(a: real, b: real, cur: string, crates: map<string, Rates>)
    requires ConvertToUSD(a, cur, crates).Ok? && ConvertToUSD(b, cur, crates).Ok?
    ensures ConvertToUSD(a + b, cur, crates).Ok?
    ensures ConvertToUSD(a + b, cur, crates).value == ConvertToUSD(a, cur, crates).value + ConvertToUSD(b, cur, crates).value
  {
    var k := RateFactor(cur, crates);
    FactorApplies(a, cur, crates);
    FactorApplies(b, cur, crates);
    FactorApplies(a + b, cur, crates);
    assert (a + b) * k == a * k + b * k;
  }

  /** The factor a successful conversion multiplies by (1 when it passes through). */
  function RateFactor(cur: string, crates: map<string, Rates>): real {
    if cur == "USD" then 1.0
    else if cur + "USD" in crates then crates[cur + "USD"].ratebid
    else if "USD" + cur in crates && crates["USD" + cur].rateask != 0.0 then 1.0 / crates["USD" + cur].rateask
    else 1.0
  }

  lemma FactorApplies(v: real, cur: string, crates: map<string, Rates>)
    requires ConvertToUSD(v, cur, crates).Ok?
    ensures ConvertToUSD(v, cur, crates).value == v * RateFactor(cur, crates)
  {
    var r := ConvertToUSD(v, cur, crates);
    if cur == "USD" || v == 0.0 {
      assert r.value == v;
    } else if cur + "USD" in crates {
      assert r.value == v * crates[cur + "USD"].ratebid;
    } else if "USD" + cur in crates {
      var ask := crates["USD" + cur].rateask;
      assert r.value == v / ask;
      assert v / ask == v * (1.0 / ask);
    } else {
      assert r.value == v;
    }
  }

  /** `toDTO(DBRates)`: a missing update time reads as "now". */
  function RatesDTO(row: DBRates, utcNow: DateTime): (r: Rates)
    ensures r.metaSymbol == row.metaSymbol && r.ratebid == row.ratebid && r.rateask == row.rateask
  {
    Rates(row.metaSymbol, row.c1, row.c2, row.ratebid, row.rateask, row.retired,
          match row.lastUpdate case Some(t) => t case None => utcNow)
  }

  /** The cache after `crates[r.MetaSymbol] = r` for every row, in order. */
  function Refreshed(crates: map<string, Rates>, rows: seq<DBRates>, utcNow: DateTime): map<string, Rates>
    decreases |rows|
  {
    if rows == [] then crates
    else
      var last := rows[|rows| - 1];
      Refreshed(crates, rows[..|rows| - 1], utcNow)[last.metaSymbol := RatesDTO(last, utcNow)]
  }

  function Names(rows: seq<DBRates>): set<string> {
    set r | r in rows :: r.metaSymbol
  }

  /** Refreshing adds the names of the rows and removes nothing. */
  lemma {:induction false} RefreshedKeys(crates: map<string, Rates>, rows: seq<DBRates>, utcNow: DateTime)
    ensures Refreshed(crates, rows, utcNow).Keys == crates.Keys + Names(rows)
    decreases |rows|
  {
    if rows != [] {
      var init := rows[..|rows| - 1];
      RefreshedKeys(crates, init, utcNow);
      assert rows == init + [rows[|rows| - 1]];
      assert Names(rows) == Names(init) + {rows[|rows| - 1].metaSymbol};
    }
  }

  /** A key no row names keeps its old quote. */
  lemma {:induction false} RefreshedKeepsOthers(crates: map<string, Rates>, rows: seq<DBRates>, utcNow: DateTime, k: string)
    requires k in crates && k !in Names(rows)
    ensures k in Refreshed(crates, rows, utcNow) && Refreshed(crates, rows, utcNow)[k] == crates[k]
    decreases |rows|
  {
    if rows != [] {
      var init := rows[..|rows| - 1];
      assert forall r :: r in init ==> r in rows;
      assert rows[|rows| - 1] in rows;
      RefreshedKeepsOthers(crates, init, utcNow, k);
    }
  }

  /** A row that no later row shadows decides the quote cached under its
      name: the cache keeps the quote of the LAST row with that name. */
  lemma {:induction false} RefreshedLastRow(crates: map<string, Rates>, rows: seq<DBRates>, utcNow: DateTime, i: int)
    requires 0 <= i < |rows|
    requires forall j :: i < j < |rows| ==> rows[j].metaSymbol != rows[i].metaSymbol
    ensures rows[i].metaSymbol in Refreshed(crates, rows, utcNow)
    ensures Refreshed(crates, rows, utcNow)[rows[i].metaSymbol] == RatesDTO(rows[i], utcNow)
    decreases |rows|
  {
    if i < |rows| - 1 {
      var init := rows[..|rows| - 1];
      assert init[i] == rows[i];
      assert forall j :: i < j < |init| ==> init[j] == rows[j];
      RefreshedLastRow(crates, init, utcNow, i);
    }
  }

  /** The quote `UpdateRates` copies onto a table row: the first incoming
      quote whose symbol is the row's meta-symbol name. */
  function MatchingQuote(row: DBRates, infos: seq<RatesInfo>): Option<RatesInfo> {
    FirstWhere(infos, (q: RatesInfo) => q.symbol == row.metaSymbol)
  }

  /** One row after `UpdateRates`: ask, bid and update time taken from the
      matching quote, unchanged when no quote matches. */
  function UpdatedRow(row: DBRates, infos: seq<RatesInfo>, utcNow: DateTime): DBRates {
    match MatchingQuote(row, infos)
    case None => row
    case Some(q) => row.(rateask := q.ask, ratebid := q.bid, lastUpdate := Some(utcNow))
  }

  function UpdatedRows(rows: seq<DBRates>, infos: seq<RatesInfo>, utcNow: DateTime): (r: seq<DBRates>)
    ensures |r| == |rows|
    ensures forall i :: 0 <= i < |rows| ==> r[i] == UpdatedRow(rows[i], infos, utcNow)
  {
    seq(|rows|, i requires 0 <= i < |rows| => UpdatedRow(rows[i], infos, utcNow))
  }

  /** `UpdateRates` on the table: no row is added, removed or moved; each row
      keeps its meta-symbol, currencies and retired flag; a row no quote
      names is unchanged; a named row takes ask and bid from the first quote
      naming it, and the update time. */
  lemma UpdatedRowsFields(rows: seq<DBRates>, infos: seq<RatesInfo>, utcNow: DateTime)
    ensures var r := UpdatedRows(rows, infos, utcNow);
            && |r| == |rows|
            && (forall i :: 0 <= i < |rows| ==>
                  r[i].(rateask := rows[i].rateask, ratebid := rows[i].ratebid, lastUpdate := rows[i].lastUpdate) == rows[i])
            && (forall i :: 0 <= i < |rows| && (forall q :: q in infos ==> q.symbol != rows[i].metaSymbol) ==> r[i] == rows[i])
            && (forall i, k ::
                  0 <= i < |rows| && 0 <= k < |infos| && infos[k].symbol == rows[i].metaSymbol &&
                  (forall j :: 0 <= j < k ==> infos[j].symbol != rows[i].metaSymbol)
                  ==> r[i].rateask == infos[k].ask && r[i].ratebid == infos[k].bid && r[i].lastUpdate == Some(utcNow))
  {
    var r := UpdatedRows(rows, infos, utcNow);
    forall i, k | 0 <= i < |rows| && 0 <= k < |infos| && infos[k].symbol == rows[i].metaSymbol &&
                  (forall j :: 0 <= j < k ==> infos[j].symbol != rows[i].metaSymbol)
      ensures r[i].rateask == infos[k].ask && r[i].ratebid == infos[k].bid && r[i].lastUpdate == Some(utcNow)
    {
      var m := MatchingQuote(rows[i], infos);
      assert m.Some?;
      var k' :| 0 <= k' < |infos| && infos[k'] == m.value && forall j :: 0 <= j < k' ==> infos[j].symbol != rows[i].metaSymbol;
      assert k' == k;
    }
  }

  /** After applying quotes and refreshing, a meta-symbol that has a table row
      and an incoming quote is cached with that quote's bid and ask, and
      `ConvertToUSD` through that pair uses them. */
  lemma UpdateThenRefreshPublishesQuote(crates: map<string, Rates>, rows: seq<DBRates>, infos: seq<RatesInfo>, utcNow: DateTime, name: string, q: RatesInfo)
    requires name in Names(rows)
    requires FirstWhere(infos, (x: RatesInfo) => x.symbol == name) == Some(q)
    ensures var c := Refreshed(crates, UpdatedRows(rows, infos, utcNow), utcNow);
            name in c && c[name].ratebid == q.bid && c[name].rateask == q.ask
  {
    var updated := UpdatedRows(rows, infos, utcNow);
    var i0 :| 0 <= i0 < |rows| && rows[i0].metaSymbol == name;
    var i := LastWithName(rows, name, i0);
    assert updated[i].metaSymbol == name;
    forall j | i < j < |updated| ensures updated[j].metaSymbol != name {
      assert rows[j].metaSymbol != name;
    }
    RefreshedLastRow(crates, updated, utcNow, i);
  }

  /** The index of the last row with a given name at or after a known one. */
  lemma LastWithName(rows: seq<DBRates>, name: string, i0: int) returns (i: int)
    requires 0 <= i0 < |rows| && rows[i0].metaSymbol == name
    ensures i0 <= i < |rows| && rows[i].metaSymbol == name
    ensures forall j :: i < j < |rows| ==> rows[j].metaSymbol != name
    decreases |rows| - i0
  {
    if exists j :: i0 < j < |rows| && rows[j].metaSymbol == name {
      var j :| i0 < j < |rows| && rows[j].metaSymbol == name;
      i := LastWithName(rows, name, j);
    } else {
      i := i0;
    }
  }
}
