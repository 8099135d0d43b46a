/** What terminals and the UI exchange with the server: signals with their
    JSON payload, UI messages, and the effects dispatching them has on the
    collaborators (the main service, the terminal events, the log and the
    messaging server). */
module Protocol {
  import opened Basics
  import opened Calendar
  import opened Entities

  /** A JSON value as the JSON library materialises it: integer literals and
      literals with a fraction are distinct token kinds. */
  datatype Json =
    | JNull
    | JBool(b: bool)
    | JInt(i: int)
    | JFloat(f: real)
    | JStr(s: string)
    | JArr(items: seq<Json>)
    | JObj(fields: map<string, Json>)

  /** The routing flag of a signal. */
  datatype SignalFlags = Cluster | Expert | OtherFlags(code: int)

  /** The kinds the dispatcher tells apart; any other id is `Unclassified`. */
  datatype SignalKind =
    | PostLog | CheckHealth | DealsHistory | CheckBalance | UpdateRatesSignal
    | ActiveOrders | WarnNews | DeinitExpert | DeinitTerminal | Levels4Symbol
    | Unclassified(code: int)

  /** `SignalInfo`; a null `Data` is `JNull`. */
  datatype SignalInfo = SignalInfo(
    flags: SignalFlags, kind: SignalKind, objectId: int, chartId: int, value: int,
    sym: string, data: Json)

  /** An open position as a terminal reports it; only passed on. */
  datatype PositionInfo = PositionInfo(ticket: int, symbol: string, lots: real, profit: real)

  /** The expert descriptor a deinit signal carries; only passed on. */
  datatype ExpertInfo = ExpertInfo(account: int, magic: int, symbol: string)

  /** A JSON deserialisation: the payload did not bind, it was the literal
      `null`, or it bound to a value. */
  datatype Decoded<+T> = Malformed | NullValue | Value(value: T)

  datatype WsMessageType =
    | GetAllText | ClearLog | WriteLog | GetAllPositions | GetAllPerformance
    | GetAllCapital | UpdatePosition | GetLevels | ChartValueMessage | ChartDoneMessage
    | OtherMessage(code: int)

  /** The fields of a UI message at one moment (what serialising it sends). */
  datatype Message = Message(typ: WsMessageType, from: string, message: string)

  /** A UI message object; the router updates it in place. */
  class WsMessage {
    var Type: WsMessageType
    var From: string
    var Text: string

    constructor(typ: WsMessageType, from: string, text: string)
      ensures Type == typ && From == from && Text == text
    {
      Type, From, Text := typ, from, text;
    }

    function Snapshot(): (m: Message)
      reads this
      ensures m.typ == Type && m.from == From && m.message == Text
    {
      Message(Type, From, Text)
    }
  }

  /** What is serialised and sent to every connected session. */
  datatype Wire = SignalWire(signal: SignalInfo) | MessageWire(msg: Message)

  /** Calls a signal makes on the collaborators, in order. */
  datatype Effect =
    | PostSignalTo(signal: SignalInfo)
    | DoLog(signal: SignalInfo)
    | SaveDeals(deals: Option<seq<DealInfo>>)
    | UpdateBalance(account: int, balance: real, equity: real)
    | UpdateRates(rates: Option<seq<RatesInfo>>)
    | UpdatePositions(objectId: int, value: int, positions: Option<seq<PositionInfo>>)
    | DeInitExpert(expert: Option<ExpertInfo>)
    | DeInitTerminal(expert: Option<ExpertInfo>)
    | AskLevels(sym: string)
    | SendSignal(signal: SignalInfo)
    | Multicast(payload: Wire)

  /** Calls a UI message makes on the collaborators, in order. */
  datatype UiEffect =
    | ClearTheLog
    | WriteToLog(text: string)
    | StartPerf(month: int)
    | WalletBalanceRange(wallet: int, from: DateTime, to: DateTime)
    | UpdatePositionFromClient(position: PositionInfo)
    | AskLevelsFor(sym: string)
    | MulticastMessage(msg: Message)
}
