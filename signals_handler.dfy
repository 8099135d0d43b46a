/** `ServerSignalsHandler`: dispatching a terminal signal to the service that
    handles its kind, routing a UI message, and reading the USD/BYN official
    rate from the national bank's feed. The collaborators (JSON binding, the
    HTTP fetch, the main service's answers) are parameters; what the handler
    does with them is the list of calls it makes, in order, and the exception
    that escapes, if any. */
module SignalsHandler {
  import opened Basics
  import opened Calendar
  import opened Entities
  import opened Decimals
  import opened Parsing
  import opened Protocol

  // ---------------------------------------------------------------------
  // The USD/BYN official rate (GetBYNRates)
  // ---------------------------------------------------------------------

  /** The national bank's currency id of the US dollar. */
  const UsdCurrencyId: int := 145

  /** A row of the feed whose `Cur_ID` unboxes to the dollar's id. */
  predicate IsUsdRow(item: map<string, Json>) {
    "Cur_ID" in item && item["Cur_ID"] == JInt(UsdCurrencyId)
  }

  /** A row the scan reads and moves past: no `Cur_ID`, or one that unboxes
      to a 64-bit integer other than the dollar's id. */
  predicate PassesOver(item: map<string, Json>) {
    "Cur_ID" !in item ||
    (item["Cur_ID"].JInt? && InInt64(item["Cur_ID"].i) && item["Cur_ID"].i != UsdCurrencyId)
  }

  /** `(double)item["Cur_OfficialRate"]`: the key must be there and hold a
      boxed double. */
  function OfficialRate(item: map<string, Json>): (r: Result<real>)
    ensures r.Ok? <==> "Cur_OfficialRate" in item && item["Cur_OfficialRate"].JFloat?
    ensures r.Ok? ==> r.value == item["Cur_OfficialRate"].f
    ensures "Cur_OfficialRate" !in item ==> r == Err(KeyNotFound)
  {
    if "Cur_OfficialRate" !in item then Err(KeyNotFound)
    else match item["Cur_OfficialRate"]
      case JFloat(x) => Ok(x)
      case JNull => Err(NullReference)
      case _ => Err(InvalidCast)
  }

  /** The scan over the feed's rows: the first row whose `Cur_ID` is the
      dollar's gives the official rate; a `Cur_ID` that is not a boxed 64-bit
      integer throws; no dollar row gives 0. */
  function FindOfficialRate(items: seq<map<string, Json>>): Result<real>
    decreases |items|
  {
    if items == [] then Ok(0.0)
    else
      var item := items[0];
      if "Cur_ID" !in item then FindOfficialRate(items[1..])
      else match item["Cur_ID"]
        case JInt(v) =>
          if !InInt64(v) then Err(InvalidCast)
          else if v == UsdCurrencyId then OfficialRate(item)
          else FindOfficialRate(items[1..])
        case JNull => Err(NullReference)
        case _ => Err(InvalidCast)
  }

  /** `GetBYNRates()` as a value: a failed fetch or a page that does not bind
      throws; a `null` page gives 0. */
  function BynRate(feed: Result<Decoded<seq<map<string, Json>>>>): Result<real> {
    match feed
    case Err(e) => Err(e)
    case Ok(Malformed) => Err(Deserialization)
    case Ok(NullValue) => Ok(0.0)
    case Ok(Value(items)) => FindOfficialRate(items)
  }

  /** `GetBYNRates`: fetch the day's rates and return the dollar's official
      rate. The HTTP fetch and the JSON binding are `feed`. */
  method GetBYNRates(feed: Result<Decoded<seq<map<string, Json>>>>) returns (r: Result<real>)
    ensures r == BynRate(feed)
  {
    if feed.Err? {
      return Err(feed.error);
    }
    match feed.value
    case Malformed =>
      return Err(Deserialization);
    case NullValue =>
      return Ok(0.0);
    case Value(items) =>
      var i := 0;
      while i < |items|
        invariant 0 <= i <= |items|
        invariant FindOfficialRate(items[i..]) == FindOfficialRate(items)
      {
        var item := items[i];
        assert items[i..][0] == item && items[i..][1..] == items[i + 1..];
        if "Cur_ID" in item {
          match item["Cur_ID"]
          case JInt(v) =>
            if !InInt64(v) {
              return Err(InvalidCast);
            }
            if v == UsdCurrencyId {
              if "Cur_OfficialRate" !in item {
                return Err(KeyNotFound);
              }
              match item["Cur_OfficialRate"]
              case JFloat(x) =>
                return Ok(x);
              case JNull =>
                return Err(NullReference);
              case _ =>
                return Err(InvalidCast);
            }
          case JNull =>
            return Err(NullReference);
          case _ =>
            return Err(InvalidCast);
        }
        i := i + 1;
      }
      return Ok(0.0);
  }

  /** The first dollar row decides, whatever follows it. */
  lemma {:induction false} FirstUsdRowDecides(items: seq<map<string, Json>>, k: nat)
    requires k < |items| && IsUsdRow(items[k])
    requires forall j :: 0 <= j < k ==> PassesOver(items[j])
    ensures FindOfficialRate(items) == OfficialRate(items[k])
    decreases k
  {
    if k > 0 {
      FirstUsdRowDecides(items[1..], k - 1);
    }
  }

  /** A feed without a dollar row, every `Cur_ID` of which is a 64-bit
      integer, gives 0. */
  lemma {:induction false} NoUsdRowGivesZero(items: seq<map<string, Json>>)
    requires forall j :: 0 <= j < |items| ==> PassesOver(items[j])
    ensures FindOfficialRate(items) == Ok(0.0)
    decreases |items|
  {
    if items != [] {
      NoUsdRowGivesZero(items[1..]);
    }
  }

  /** A non-zero rate is the official rate of a dollar row of the feed. */
  lemma {:induction false} NonZeroRateComesFromUsdRow(items: seq<map<string, Json>>)
    requires FindOfficialRate(items).Ok? && FindOfficialRate(items).value != 0.0
    ensures exists k :: 0 <= k < |items| && IsUsdRow(items[k]) && "Cur_OfficialRate" in items[k] &&
              items[k]["Cur_OfficialRate"] == JFloat(FindOfficialRate(items).value)
    decreases |items|
  {
    var item := items[0];
    if "Cur_ID" in item && item["Cur_ID"] == JInt(UsdCurrencyId) {
      assert IsUsdRow(items[0]);
    } else {
      NonZeroRateComesFromUsdRow(items[1..]);
      var k :| 0 <= k < |items[1..]| && IsUsdRow(items[1..][k]) && "Cur_OfficialRate" in items[1..][k] &&
               items[1..][k]["Cur_OfficialRate"] == JFloat(FindOfficialRate(items[1..]).value);
      assert items[k + 1] == items[1..][k];
    }
  }

  /** An official rate written as an integer literal does not unbox to a
      double and throws. */
  lemma IntegralRateThrows(item: map<string, Json>, items: seq<map<string, Json>>, n: int)
    requires IsUsdRow(item) && "Cur_OfficialRate" in item && item["Cur_OfficialRate"] == JInt(n)
    ensures FindOfficialRate([item] + items) == Err(InvalidCast)
  {
    assert ([item] + items)[0] == item;
  }

  // ---------------------------------------------------------------------
  // Terminal signals (PostSignal)
  // ---------------------------------------------------------------------

  /** What the handler asks of others: JSON binding of a signal's data, the
      official rate `GetBYNRates` yields, and the main service's answers. */
  datatype Collaborators = Collaborators(
    decodeDeals: Json -> Decoded<seq<DealInfo>>,
    decodeRates: Json -> Decoded<seq<RatesInfo>>,
    decodePositions: Json -> Decoded<seq<PositionInfo>>,
    decodeExpert: Json -> Decoded<ExpertInfo>,
    parseDecimal: string -> Option<real>,
    bynRate: Result<real>,
    levels: string -> string,
    createSignal: (SignalFlags, int, SignalKind, int) -> SignalInfo,
    sendSignal: SignalInfo -> Option<SignalInfo>)

  /** The calls a signal led to, in order, and the exception that escaped. */
  datatype Dispatched = Dispatched(effects: seq<Effect>, raised: Option<Failure>)

  /** `token[key]`: a missing key of an object reads as null; an array refuses
      a string key; a plain value has no children. */
  function Child(token: Json, key: string): (r: Result<Json>)
    ensures r.Ok? <==> token.JObj?
    ensures token.JObj? && key !in token.fields ==> r == Ok(JNull)
  {
    match token
    case JObj(fields) => Ok(if key in fields then fields[key] else JNull)
    case JArr(_) => Err(Argument)
    case _ => Err(InvalidOperation)
  }

  /** `Value<decimal?>() ?? 0`: null is 0, a boolean is 0 or 1, numbers
      convert, text is parsed, a container does not convert. */
  function DecimalOrZero(v: Json, parseDecimal: string -> Option<real>): (r: Result<real>)
    ensures v == JNull ==> r == Ok(0.0)
    ensures v.JFloat? ==> r == Ok(v.f)
    ensures v.JInt? && InInt64(v.i) ==> r == Ok(v.i as real)
    ensures v.JArr? || v.JObj? ==> r == Err(InvalidCast)
  {
    match v
    case JNull => Ok(0.0)
    case JBool(b) => Ok(if b then 1.0 else 0.0)
    case JInt(i) => if InInt64(i) then Ok(i as real) else Err(InvalidCast)
    case JFloat(f) => Ok(f)
    case JStr(s) =>
      (match parseDecimal(s)
       case Some(x) => Ok(x)
       case None => Err(FormatError))
    case _ => Err(InvalidCast)
  }

  /** `Value<int?>() ?? 0`: as `DecimalOrZero`, but a value outside 32 bits
      overflows and a fraction is rounded half to even. */
  function Int32OrZero(v: Json): (r: Result<int>)
    ensures r.Ok? ==> InInt32(r.value)
    ensures v == JNull ==> r == Ok(0)
    ensures v.JInt? && InInt32(v.i) ==> r == Ok(v.i)
    ensures v.JInt? && InInt64(v.i) && !InInt32(v.i) ==> r == Err(Overflow)
    ensures v.JArr? || v.JObj? ==> r == Err(InvalidCast)
  {
    match v
    case JNull => Ok(0)
    case JBool(b) => Ok(if b then 1 else 0)
    case JInt(i) =>
      if !InInt64(i) then Err(InvalidCast)
      else if InInt32(i) then Ok(i)
      else Err(Overflow)
    case JFloat(f) =>
      var n := RoundHalfEven(f);
      if InInt32(n) then Ok(n) else Err(Overflow)
    case JStr(s) => ParseInt32(s)
    case _ => Err(InvalidCast)
  }

  /** Balance, equity and account number read from the first row of a
      balance report, in that order. */
  function ReadBalance(first: Json, parseDecimal: string -> Option<real>): Result<(int, real, real)> {
    match Child(first, "Balance")
    case Err(e) => Err(e)
    case Ok(b) =>
      match DecimalOrZero(b, parseDecimal)
      case Err(e) => Err(e)
      case Ok(balance) =>
        match DecimalOrZero(Child(first, "Equity").value, parseDecimal)
        case Err(e) => Err(e)
        case Ok(equity) =>
          match Int32OrZero(Child(first, "Account").value)
          case Err(e) => Err(e)
          case Ok(account) => Ok((account, balance, equity))
  }

  /** `SIGNAL_CHECK_BALANCE`: no data, or an empty array, is ignored; data
      that is not an array fails the cast. */
  function BalanceCheck(data: Json, c: Collaborators): Dispatched {
    match data
    case JNull => Dispatched([], None)
    case JArr(items) =>
      if items == [] then Dispatched([], None)
      else
        (match ReadBalance(items[0], c.parseDecimal)
         case Err(e) => Dispatched([], Some(e))
         case Ok((account, balance, equity)) => Dispatched([UpdateBalance(account, balance, equity)], None))
    case _ => Dispatched([], Some(InvalidCast))
  }

  /** `SIGNAL_UPDATE_RATES`: every failure is caught and ends the branch; the
      dollar's official rate is added as `USDBYN` when it is positive. */
  function RatesUpdate(data: Json, c: Collaborators): Dispatched {
    if data == JNull then Dispatched([UpdateRates(None)], None)
    else match c.decodeRates(data)
      case Malformed => Dispatched([], None)
      case NullValue => Dispatched([UpdateRates(None)], None)
      case Value(rates) =>
        match c.bynRate
        case Err(_) => Dispatched([], None)
        case Ok(r) =>
          var all := if r > 0.0 then rates + [RatesInfo("USDBYN", r, r)] else rates;
          Dispatched([UpdateRates(Some(all))], None)
  }

  /** The reply to a levels request: an expert signal for the same object,
      kind and chart, carrying the symbol and its levels. */
  function LevelsReply(s: SignalInfo, c: Collaborators): SignalInfo {
    c.createSignal(Expert, s.objectId, s.kind, s.chartId).(sym := s.sym, data := JStr(c.levels(s.sym)))
  }

  /** Which calls a signal may lead to: each is tied to the signal's kind and
      passes on what the signal carries. */
  predicate Permitted(s: SignalInfo, e: Effect) {
    match e
    case PostSignalTo(x) => s.flags == Cluster && x == s
    case DoLog(x) => s.flags != Cluster && s.kind == PostLog && x == s
    case SaveDeals(_) => s.flags != Cluster && s.kind == DealsHistory
    case UpdateBalance(_, _, _) => s.flags != Cluster && s.kind == CheckBalance
    case UpdateRates(_) => s.flags != Cluster && s.kind == UpdateRatesSignal
    case UpdatePositions(o, v, _) => s.flags != Cluster && s.kind == ActiveOrders && o == s.objectId && v == s.value
    case DeInitExpert(_) => s.flags != Cluster && s.kind == DeinitExpert
    case DeInitTerminal(_) => s.flags != Cluster && s.kind == DeinitTerminal
    case AskLevels(sym) => s.flags != Cluster && s.kind == Levels4Symbol && sym == s.sym
    case SendSignal(x) => s.flags != Cluster && s.kind.Unclassified? && x == s
    case Multicast(w) => s.flags != Cluster && w.SignalWire? && (s.kind == Levels4Symbol || s.kind.Unclassified?)
  }

  /** The kinds whose handling can let an exception escape. */
  predicate MayRaise(k: SignalKind) {
    k == DealsHistory || k == CheckBalance || k == ActiveOrders || k == DeinitExpert || k == DeinitTerminal
  }

  /** `PostSignal(signal, server)`: cluster signals are relayed untouched;
      the others are dispatched on their kind. `hasServer` says whether a
      messaging server was passed. */
  function PostSignal(s: SignalInfo, hasServer: bool, c: Collaborators): (r: Dispatched)
    ensures forall e :: e in r.effects ==> Permitted(s, e)
    ensures r.raised.Some? ==> r.effects == [] && s.flags != Cluster && MayRaise(s.kind)
    ensures !hasServer ==> forall e :: e in r.effects ==> !e.Multicast?
    ensures |r.effects| <= 2
  {
    if s.flags == Cluster then Dispatched([PostSignalTo(s)], None)
    else match s.kind
      case PostLog => if s.data == JNull then Dispatched([], None) else Dispatched([DoLog(s)], None)
      case CheckHealth => Dispatched([], None)
      case DealsHistory =>
        if s.data == JNull then Dispatched([SaveDeals(Some([]))], None)
        else
          (match c.decodeDeals(s.data)
           case Malformed => Dispatched([], Some(Deserialization))
           case NullValue => Dispatched([SaveDeals(None)], None)
           case Value(ds) => Dispatched([SaveDeals(Some(ds))], None))
      case CheckBalance => BalanceCheck(s.data, c)
      case UpdateRatesSignal => RatesUpdate(s.data, c)
      case ActiveOrders =>
        if s.data == JNull then Dispatched([UpdatePositions(s.objectId, s.value, Some([]))], None)
        else
          (match c.decodePositions(s.data)
           case Malformed => Dispatched([], Some(Deserialization))
           case NullValue => Dispatched([UpdatePositions(s.objectId, s.value, None)], None)
           case Value(ps) => Dispatched([UpdatePositions(s.objectId, s.value, Some(ps))], None))
      case WarnNews => Dispatched([], None)
      case DeinitExpert =>
        if s.data == JNull then Dispatched([], Some(NullReference))
        else
          (match c.decodeExpert(s.data)
           case Malformed => Dispatched([], Some(Deserialization))
           case NullValue => Dispatched([DeInitExpert(None)], None)
           case Value(x) => Dispatched([DeInitExpert(Some(x))], None))
      case DeinitTerminal =>
        if s.data == JNull then Dispatched([], Some(NullReference))
        else
          (match c.decodeExpert(s.data)
           case Malformed => Dispatched([], Some(Deserialization))
           case NullValue => Dispatched([DeInitTerminal(None)], None)
           case Value(x) => Dispatched([DeInitTerminal(Some(x))], None))
      case Levels4Symbol =>
        if hasServer then Dispatched([AskLevels(s.sym), Multicast(SignalWire(LevelsReply(s, c)))], None)
        else Dispatched([AskLevels(s.sym)], None)
      case Unclassified(_) =>
        if !hasServer then Dispatched([], None)
        else
          (match c.sendSignal(s)
           case None => Dispatched([SendSignal(s)], None)
           case Some(reply) => Dispatched([SendSignal(s), Multicast(SignalWire(reply))], None))
  }

  /** A cluster signal is handed to the cluster and nothing else happens,
      whatever its kind. */
  lemma ClusterSignalIsOnlyRelayed(s: SignalInfo, hasServer: bool, c: Collaborators)
    requires s.flags == Cluster
    ensures PostSignal(s, hasServer, c) == Dispatched([PostSignalTo(s)], None)
  {
  }

  /** A rates update never lets an exception escape, and calls the rate
      store at most once. */
  lemma RatesUpdateNeverRaises(s: SignalInfo, hasServer: bool, c: Collaborators)
    requires s.flags != Cluster && s.kind == UpdateRatesSignal
    ensures PostSignal(s, hasServer, c).raised.None?
    ensures |PostSignal(s, hasServer, c).effects| <= 1
  {
  }

  /** Deal history without data saves an empty list; with data that binds,
      the bound deals, unchanged. */
  lemma DealsHistorySavesBoundDeals(s: SignalInfo, hasServer: bool, c: Collaborators)
    requires s.flags != Cluster && s.kind == DealsHistory
    ensures s.data == JNull ==> PostSignal(s, hasServer, c).effects == [SaveDeals(Some([]))]
    ensures s.data != JNull && c.decodeDeals(s.data).Value? ==>
              PostSignal(s, hasServer, c) == Dispatched([SaveDeals(Some(c.decodeDeals(s.data).value))], None)
  {
  }

  /** A balance report whose first row carries the balance and equity as
      doubles and the account as a 32-bit integer updates exactly that
      account with exactly those figures; the rows after the first are
      ignored. */
  lemma CheckBalanceReadsFirstRow(s: SignalInfo, hasServer: bool, c: Collaborators,
                                  fields: map<string, Json>, rest: seq<Json>, balance: real, equity: real, account: int)
    requires s.flags != Cluster && s.kind == CheckBalance
    requires s.data == JArr([JObj(fields)] + rest)
    requires "Balance" in fields && fields["Balance"] == JFloat(balance)
    requires "Equity" in fields && fields["Equity"] == JFloat(equity)
    requires "Account" in fields && fields["Account"] == JInt(account) && InInt32(account)
    ensures PostSignal(s, hasServer, c) == Dispatched([UpdateBalance(account, balance, equity)], None)
  {
    assert ([JObj(fields)] + rest)[0] == JObj(fields);
  }

  /** A balance check without data, or with an empty array, calls nothing. */
  lemma CheckBalanceWithoutRowsDoesNothing(s: SignalInfo, hasServer: bool, c: Collaborators)
    requires s.flags != Cluster && s.kind == CheckBalance
    requires s.data == JNull || s.data == JArr([])
    ensures PostSignal(s, hasServer, c) == Dispatched([], None)
  {
  }

  /** Missing figures default to zero: a first row without any of the three
      keys reports account 0 with zero balance and equity. */
  lemma CheckBalanceDefaultsToZero(s: SignalInfo, hasServer: bool, c: Collaborators, rest: seq<Json>)
    requires s.flags != Cluster && s.kind == CheckBalance
    requires s.data == JArr([JObj(map[])] + rest)
    ensures PostSignal(s, hasServer, c) == Dispatched([UpdateBalance(0, 0.0, 0.0)], None)
  {
    assert ([JObj(map[])] + rest)[0] == JObj(map[]);
  }

  /** A balance report whose first row is not an object lets an exception
      escape and updates nothing. */
  lemma CheckBalanceRejectsNonObjectRow(s: SignalInfo, hasServer: bool, c: Collaborators, row: Json, rest: seq<Json>)
    requires s.flags != Cluster && s.kind == CheckBalance
    requires s.data == JArr([row] + rest) && !row.JObj?
    ensures PostSignal(s, hasServer, c).raised.Some?
    ensures PostSignal(s, hasServer, c).effects == []
  {
    assert ([row] + rest)[0] == row;
  }

  /** Rates that bind are passed on with the official dollar rate of the
      feed added as `USDBYN`, when the feed's first dollar row carries a
      positive rate. */
  lemma RatesUpdateAddsUsdByn(s: SignalInfo, hasServer: bool, c: Collaborators,
                              items: seq<map<string, Json>>, k: nat, rate: real)
    requires s.flags != Cluster && s.kind == UpdateRatesSignal && s.data != JNull
    requires c.decodeRates(s.data).Value?
    requires c.bynRate == BynRate(Ok(Value(items)))
    requires k < |items| && IsUsdRow(items[k]) && forall j :: 0 <= j < k ==> PassesOver(items[j])
    requires "Cur_OfficialRate" in items[k] && items[k]["Cur_OfficialRate"] == JFloat(rate) && rate > 0.0
    ensures PostSignal(s, hasServer, c).effects ==
              [UpdateRates(Some(c.decodeRates(s.data).value + [RatesInfo("USDBYN", rate, rate)]))]
  {
    FirstUsdRowDecides(items, k);
  }

  /** When the feed cannot be read, the rates of the signal are not stored
      at all. */
  lemma RatesUpdateSkippedWithoutFeed(s: SignalInfo, hasServer: bool, c: Collaborators)
    requires s.flags != Cluster && s.kind == UpdateRatesSignal && s.data != JNull
    requires c.decodeRates(s.data).Value? && c.bynRate.Err?
    ensures PostSignal(s, hasServer, c) == Dispatched([], None)
  {
  }

  /** A rates update whose dollar rate is not positive stores the bound rates
      as they are, without a USDBYN quote. */
  lemma RatesUpdateWithoutPositiveRate(s: SignalInfo, hasServer: bool, c: Collaborators, r: real)
    requires s.flags != Cluster && s.kind == UpdateRatesSignal && s.data != JNull
    requires c.decodeRates(s.data).Value? && c.bynRate == Ok(r) && r <= 0.0
    ensures PostSignal(s, hasServer, c) == Dispatched([UpdateRates(Some(c.decodeRates(s.data).value))], None)
  {
  }

  /** In particular, a feed without a dollar row leaves the bound rates as
      they are. */
  lemma RatesUpdateWithoutUsdRow(s: SignalInfo, hasServer: bool, c: Collaborators, items: seq<map<string, Json>>)
    requires s.flags != Cluster && s.kind == UpdateRatesSignal && s.data != JNull
    requires c.decodeRates(s.data).Value? && c.bynRate == BynRate(Ok(Value(items)))
    requires forall j :: 0 <= j < |items| ==> PassesOver(items[j])
    ensures PostSignal(s, hasServer, c) == Dispatched([UpdateRates(Some(c.decodeRates(s.data).value))], None)
  {
    NoUsdRowGivesZero(items);
  }

  /** Without a list of rates the feed is not read: the rate store is called
      with no list, whatever the feed would give. */
  lemma RatesUpdateNullListSkipsFeed(s: SignalInfo, hasServer: bool, c: Collaborators)
    requires s.flags != Cluster && s.kind == UpdateRatesSignal
    requires s.data == JNull || c.decodeRates(s.data).NullValue?
    ensures PostSignal(s, hasServer, c) == Dispatched([UpdateRates(None)], None)
  {
  }

  /** A levels request asks the service for the symbol's levels and, with a
      server, broadcasts them to every session as an expert signal for the
      requesting object and chart. */
  lemma LevelsAreBroadcast(s: SignalInfo, c: Collaborators)
    requires s.flags != Cluster && s.kind == Levels4Symbol
    ensures var r := PostSignal(s, true, c);
            && r.raised.None? && |r.effects| == 2 && r.effects[0] == AskLevels(s.sym)
            && r.effects[1].Multicast? && r.effects[1].payload.SignalWire?
            && var reply := r.effects[1].payload.signal;
               reply.sym == s.sym && reply.data == JStr(c.levels(s.sym))
               && reply == c.createSignal(Expert, s.objectId, Levels4Symbol, s.chartId).(sym := s.sym, data := JStr(c.levels(s.sym)))
  {
  }

  /** A log post with data is handed to the main service's log. */
  lemma PostLogLogs(s: SignalInfo, hasServer: bool, c: Collaborators)
    requires s.flags != Cluster && s.kind == PostLog && s.data != JNull
    ensures PostSignal(s, hasServer, c) == Dispatched([DoLog(s)], None)
  {
  }

  /** Open orders go to the terminal events service for the signal's object
      and value: an empty list without data, the bound positions with data
      that binds; data that does not bind escapes as an exception. */
  lemma ActiveOrdersUpdatesPositions(s: SignalInfo, hasServer: bool, c: Collaborators)
    requires s.flags != Cluster && s.kind == ActiveOrders
    ensures s.data == JNull ==>
              PostSignal(s, hasServer, c) == Dispatched([UpdatePositions(s.objectId, s.value, Some([]))], None)
    ensures s.data != JNull && c.decodePositions(s.data).Value? ==>
              PostSignal(s, hasServer, c) ==
                Dispatched([UpdatePositions(s.objectId, s.value, Some(c.decodePositions(s.data).value))], None)
    ensures s.data != JNull && c.decodePositions(s.data).Malformed? ==>
              PostSignal(s, hasServer, c) == Dispatched([], Some(Deserialization))
  {
  }

  /** A deinit signal hands its bound expert to the main service, the expert
      or the terminal variant by kind; without data the call goes through a
      null reference and nothing is called. */
  lemma DeinitCallsMainService(s: SignalInfo, hasServer: bool, c: Collaborators)
    requires s.flags != Cluster && (s.kind == DeinitExpert || s.kind == DeinitTerminal)
    ensures s.data == JNull ==> PostSignal(s, hasServer, c) == Dispatched([], Some(NullReference))
    ensures s.data != JNull && c.decodeExpert(s.data).Value? && s.kind == DeinitExpert ==>
              PostSignal(s, hasServer, c) == Dispatched([DeInitExpert(Some(c.decodeExpert(s.data).value))], None)
    ensures s.data != JNull && c.decodeExpert(s.data).Value? && s.kind == DeinitTerminal ==>
              PostSignal(s, hasServer, c) == Dispatched([DeInitTerminal(Some(c.decodeExpert(s.data).value))], None)
  {
  }

  /** A signal of any other kind goes to the main service only when there is
      a server, and its reply is broadcast exactly when there is one. */
  lemma UnclassifiedRelaysReply(s: SignalInfo, hasServer: bool, c: Collaborators)
    requires s.flags != Cluster && s.kind.Unclassified?
    ensures !hasServer ==> PostSignal(s, hasServer, c) == Dispatched([], None)
    ensures hasServer && c.sendSignal(s).None? ==> PostSignal(s, hasServer, c) == Dispatched([SendSignal(s)], None)
    ensures hasServer && c.sendSignal(s).Some? ==>
              PostSignal(s, hasServer, c) == Dispatched([SendSignal(s), Multicast(SignalWire(c.sendSignal(s).value))], None)
    ensures (exists e :: e in PostSignal(s, hasServer, c).effects && e.Multicast?) <==> hasServer && c.sendSignal(s).Some?
  {
    var r := PostSignal(s, hasServer, c);
    if hasServer && c.sendSignal(s).Some? {
      assert r.effects[1].Multicast?;
    }
  }

  /** The kinds that carry no work: nothing is called. */
  lemma QuietKinds(s: SignalInfo, hasServer: bool, c: Collaborators)
    requires s.flags != Cluster
    requires s.kind == CheckHealth || s.kind == WarnNews || (s.kind == PostLog && s.data == JNull)
    ensures PostSignal(s, hasServer, c) == Dispatched([], None)
  {
  }

  // ---------------------------------------------------------------------
  // UI messages (ProcessMessage)
  // ---------------------------------------------------------------------

  /** What a UI message asks of others: the log's text, the terminals' open
      positions serialised, JSON binding of the message text, date parsing
      and the levels of a symbol. */
  datatype UiCollaborators = UiCollaborators(
    allText: string,
    positionsJson: string,
    decodeDict: string -> Decoded<map<string, string>>,
    parseDate: string -> Option<DateTime>,
    decodePosition: string -> Decoded<PositionInfo>,
    levels: string -> string)

  /** The message after routing, the calls made, in order, and the exception
      that escaped. */
  datatype Routed = Routed(msg: Message, effects: seq<UiEffect>, raised: Option<Failure>)

  /** Wallet id and the two dates of a capital request, read in that order. */
  function CapitalRequest(d: map<string, string>, parseDate: string -> Option<DateTime>): (r: Result<(int, DateTime, DateTime)>)
    ensures r.Ok? ==> "WalletId" in d && "from" in d && "to" in d
    ensures r.Ok? ==> ParseInt32(d["WalletId"]) == Ok(r.value.0)
    ensures r.Ok? ==> parseDate(d["from"]) == Some(r.value.1) && parseDate(d["to"]) == Some(r.value.2)
    ensures "WalletId" !in d ==> r == Err(KeyNotFound)
  {
    if "WalletId" !in d then Err(KeyNotFound)
    else match ParseInt32(d["WalletId"])
      case Err(e) => Err(e)
      case Ok(wallet) =>
        if "from" !in d then Err(KeyNotFound)
        else match parseDate(d["from"])
          case None => Err(FormatError)
          case Some(from) =>
            if "to" !in d then Err(KeyNotFound)
            else match parseDate(d["to"])
              case None => Err(FormatError)
              case Some(to) => Ok((wallet, from, to))
  }

  /** Broadcasting `m`: without a server the call goes through a null
      reference. */
  function Broadcast(m: Message, before: seq<UiEffect>, hasServer: bool): Routed {
    if hasServer then Routed(m, before + [MulticastMessage(m)], None)
    else Routed(m, before, Some(NullReference))
  }

  /** Routing a UI message: what it becomes, what is called and what escapes.
      Replies keep the request's type, and its sender except for levels,
      which come from the server. */
  function Route(m: Message, hasServer: bool, ui: UiCollaborators): (r: Routed)
    ensures r.msg.typ == m.typ
    ensures m.typ != GetLevels ==> r.msg.from == m.from
    ensures m.typ != GetAllText && m.typ != GetLevels ==> r.msg == m
    ensures forall e :: e in r.effects && e.MulticastMessage? ==>
              e.msg.typ == m.typ && e.msg.from == (if m.typ == GetLevels then "Server" else m.from)
    ensures !hasServer ==> forall e :: e in r.effects ==> !e.MulticastMessage?
    ensures r.raised.Some? ==> forall e :: e in r.effects ==> !e.MulticastMessage?
  {
    match m.typ
    case GetAllText =>
      var n := m.(message := ui.allText);
      Broadcast(n, [], hasServer)
    case ClearLog => Routed(m, [ClearTheLog], None)
    case WriteLog => Routed(m, [WriteToLog(m.message)], None)
    case GetAllPositions =>
      var reply := Message(GetAllPositions, m.from, ui.positionsJson);
      var b := Broadcast(reply, [], hasServer);
      Routed(m, b.effects, b.raised)
    case GetAllPerformance =>
      (match ParseInt32(m.message)
       case Err(e) => Routed(m, [], Some(e))
       case Ok(month) =>
         var b := Broadcast(Message(GetAllPerformance, m.from, "[]"), [StartPerf(month)], hasServer);
         Routed(m, b.effects, b.raised))
    case GetAllCapital =>
      (match ui.decodeDict(m.message)
       case Malformed => Routed(m, [], Some(Deserialization))
       case NullValue => Routed(m, [], Some(NullReference))
       case Value(d) =>
         match CapitalRequest(d, ui.parseDate)
         case Err(e) => Routed(m, [], Some(e))
         case Ok((wallet, from, to)) =>
           var b := Broadcast(Message(GetAllCapital, m.from, "[]"), [WalletBalanceRange(wallet, from, to)], hasServer);
           Routed(m, b.effects, b.raised))
    case UpdatePosition =>
      (match ui.decodePosition(m.message)
       case Malformed => Routed(m, [], Some(Deserialization))
       case NullValue => Routed(m, [], None)
       case Value(p) => Routed(m, [UpdatePositionFromClient(p)], None))
    case GetLevels =>
      var n := Message(GetLevels, "Server", ui.levels(m.message));
      Broadcast(n, [AskLevelsFor(m.message)], hasServer)
    case _ => Routed(m, [WriteToLog("Undefined Message")], None)
  }

  /** `ProcessMessage(wsMessage, server)`: the message object is updated in
      place where the source reuses it as the reply. */
  method ProcessMessage(msg: WsMessage, hasServer: bool, ui: UiCollaborators)
    returns (effects: seq<UiEffect>, raised: Option<Failure>)
    modifies msg
    ensures Routed(msg.Snapshot(), effects, raised) == Route(old(msg.Snapshot()), hasServer, ui)
  {
    effects, raised := [], None;
    match msg.Type
    case GetAllText =>
      msg.Text := ui.allText;
      msg.Type := GetAllText;
      if hasServer {
        effects := [MulticastMessage(msg.Snapshot())];
      } else {
        raised := Some(NullReference);
      }
    case ClearLog =>
      effects := [ClearTheLog];
    case WriteLog =>
      effects := [WriteToLog(msg.Text)];
    case GetAllPositions =>
      var reply := new WsMessage(GetAllPositions, msg.From, ui.positionsJson);
      if hasServer {
        effects := [MulticastMessage(reply.Snapshot())];
      } else {
        raised := Some(NullReference);
      }
    case GetAllPerformance =>
      var reply := new WsMessage(GetAllPerformance, msg.From, "[]");
      var month := ParseInt32(msg.Text);
      if month.Err? {
        raised := Some(month.error);
        return;
      }
      effects := [StartPerf(month.value)];
      if hasServer {
        effects := effects + [MulticastMessage(reply.Snapshot())];
      } else {
        raised := Some(NullReference);
      }
    case GetAllCapital =>
      var reply := new WsMessage(GetAllCapital, msg.From, "[]");
      var decoded := ui.decodeDict(msg.Text);
      if decoded.Malformed? {
        raised := Some(Deserialization);
        return;
      }
      if decoded.NullValue? {
        raised := Some(NullReference);
        return;
      }
      var request := CapitalRequest(decoded.value, ui.parseDate);
      if request.Err? {
        raised := Some(request.error);
        return;
      }
      var (wallet, from, to) := request.value;
      effects := [WalletBalanceRange(wallet, from, to)];
      if hasServer {
        effects := effects + [MulticastMessage(reply.Snapshot())];
      } else {
        raised := Some(NullReference);
      }
    case UpdatePosition =>
      var decoded := ui.decodePosition(msg.Text);
      if decoded.Malformed? {
        raised := Some(Deserialization);
      } else if decoded.Value? {
        effects := [UpdatePositionFromClient(decoded.value)];
      }
    case GetLevels =>
      var symbol := msg.Text;
      msg.From := "Server";
      msg.Text := ui.levels(symbol);
      msg.Type := GetLevels;
      effects := [AskLevelsFor(symbol)];
      if hasServer {
        effects := effects + [MulticastMessage(msg.Snapshot())];
      } else {
        raised := Some(NullReference);
      }
    case _ =>
      effects := [WriteToLog("Undefined Message")];
  }

  /** Log commands, position updates and messages of any other type change
      nothing about the message and broadcast nothing: the log is cleared or
      written, a bound position is passed on, and an unknown type is logged
      as undefined. */
  lemma QuietMessagesMulticastNothing(m: Message, hasServer: bool, ui: UiCollaborators)
    requires m.typ == ClearLog || m.typ == WriteLog || m.typ == UpdatePosition || m.typ == ChartValueMessage ||
             m.typ == ChartDoneMessage || m.typ.OtherMessage?
    ensures var r := Route(m, hasServer, ui);
            && r.msg == m
            && (forall e :: e in r.effects ==> !e.MulticastMessage?)
            && (m.typ == ClearLog ==> r == Routed(m, [ClearTheLog], None))
            && (m.typ == WriteLog ==> r == Routed(m, [WriteToLog(m.message)], None))
            && (m.typ == UpdatePosition && ui.decodePosition(m.message).Value? ==>
                  r == Routed(m, [UpdatePositionFromClient(ui.decodePosition(m.message).value)], None))
            && (m.typ == UpdatePosition && ui.decodePosition(m.message).NullValue? ==> r == Routed(m, [], None))
            && (m.typ != ClearLog && m.typ != WriteLog && m.typ != UpdatePosition ==>
                  r == Routed(m, [WriteToLog("Undefined Message")], None))
  {
  }

  /** A performance request for any 32-bit month number starts the
      computation for exactly that month and answers the sender with an
      empty list of the same type. */
  lemma PerformanceRequestStartsMonth(from: string, month: int, ui: UiCollaborators)
    requires InInt32(month)
    ensures Route(Message(GetAllPerformance, from, IntToString(month)), true, ui) ==
              Routed(Message(GetAllPerformance, from, IntToString(month)),
                     [StartPerf(month), MulticastMessage(Message(GetAllPerformance, from, "[]"))], None)
  {
    ParseInt32RoundTrip(month);
  }

  /** A performance request whose text is not a number starts nothing and
      answers nobody. */
  lemma MalformedPerformanceRequestDoesNothing(m: Message, hasServer: bool, ui: UiCollaborators)
    requires m.typ == GetAllPerformance && ParseInt32(m.message).Err?
    ensures Route(m, hasServer, ui).effects == [] && Route(m, hasServer, ui).raised.Some?
  {
  }

  /** A capital request with a wallet id, two dates that parse and a server
      asks for that wallet's balances over that range, then answers the
      sender. */
  lemma CapitalRequestAsksWallet(m: Message, ui: UiCollaborators, d: map<string, string>, wallet: int)
    requires m.typ == GetAllCapital && ui.decodeDict(m.message) == Value(d)
    requires "WalletId" in d && d["WalletId"] == IntToString(wallet) && InInt32(wallet)
    requires "from" in d && ui.parseDate(d["from"]).Some?
    requires "to" in d && ui.parseDate(d["to"]).Some?
    ensures Route(m, true, ui).raised.None?
    ensures Route(m, true, ui).effects ==
              [WalletBalanceRange(wallet, ui.parseDate(d["from"]).value, ui.parseDate(d["to"]).value),
               MulticastMessage(Message(GetAllCapital, m.from, "[]"))]
  {
    ParseInt32RoundTrip(wallet);
  }

  /** A levels request becomes the server's reply carrying the levels of the
      requested symbol. */
  lemma LevelsRequestIsAnswered(m: Message, ui: UiCollaborators)
    requires m.typ == GetLevels
    ensures Route(m, true, ui).msg == Message(GetLevels, "Server", ui.levels(m.message))
    ensures Route(m, true, ui).effects ==
              [AskLevelsFor(m.message), MulticastMessage(Message(GetLevels, "Server", ui.levels(m.message)))]
  {
  }
}
