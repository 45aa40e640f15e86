/** The services as objects, proved to behave as the functions in Services.dfy say. */
module Processors {
  import opened Types
  import opened Sequences
  import opened Codec
  import opened Messages
  import opened ByteIO
  import opened Frames
  import opened Exchange
  import opened Risk
  import opened Services
  import opened EngineTables

  method WrapAck(id: nat, trades: seq<Trade>) returns (bytes: Bytes)
    ensures bytes == Wrap(AckMsg(id, trades))
  {
    var w := new ByteWriter();
    WriteOrderAck(w, id, trades);
    assert [] + Put(AckMsg(id, trades), []) == Put(AckMsg(id, trades), []);
    bytes := EncodeFrameBytes(Frame(ORDER_ACK, w.buffer));
  }

  method WrapReject(id: nat, reason: Bytes) returns (bytes: Bytes)
    ensures bytes == Wrap(RejectMsg(id, reason))
  {
    var w := new ByteWriter();
    WriteOrderReject(w, id, reason);
    assert [] + Put(RejectMsg(id, reason), []) == Put(RejectMsg(id, reason), []);
    bytes := EncodeFrameBytes(Frame(ORDER_REJECT, w.buffer));
  }

  method WrapSnapshot(symbol: Symbol, bids: seq<LevelSnapshot>, asks: seq<LevelSnapshot>) returns (bytes: Bytes)
    ensures bytes == Wrap(SnapshotMsg(symbol, bids, asks))
  {
    var w := new ByteWriter();
    WriteBookSnapshot(w, symbol, bids, asks);
    assert [] + Put(SnapshotMsg(symbol, bids, asks), []) == Put(SnapshotMsg(symbol, bids, asks), []);
    bytes := EncodeFrameBytes(Frame(BOOK_SNAPSHOT, w.buffer));
  }

  /** Encodes a processor's result; only these three kinds occur. */
  method EncodeResult(m: Message) returns (bytes: Bytes)
    requires m.AckMsg? || m.RejectMsg? || m.SnapshotMsg?
    ensures bytes == Wrap(m)
  {
    hide Wrap;
    match m
    case AckMsg(id, trades) => bytes := WrapAck(id, trades);
    case RejectMsg(id, reason) => bytes := WrapReject(id, reason);
    case SnapshotMsg(symbol, bids, asks) => bytes := WrapSnapshot(symbol, bids, asks);
  }

  /** Reads the request in a frame of one of the four request types. */
  method ReadRequest(f: Frame) returns (m: Option<Message>)
    requires IsRequestType(f.kind)
    ensures m == ParseRequest(f)
  {
    hide GetOrder, GetCancel, GetModify, GetQuery, GetAck, GetReject, GetSnapshot, GetTrade, ByteReader.Rest,
        ByteReader.Valid;
    var reader := new ByteReader(f.payload);
    if f.kind == NEW_ORDER {
      var order :- ReadOrderFrom(reader);
      m := Some(NewOrderMsg(order));
    } else if f.kind == CANCEL_ORDER {
      m := ReadCancelOrder(reader);
    } else if f.kind == MODIFY_ORDER {
      m := ReadModifyOrder(reader);
    } else {
      m := ReadBookQuery(reader);
    }
  }

  // ---------- In process ----------

  class InProcessOrderProcessor {
    const checker: RiskChecker
    const account: Account
    const table: EngineTable

    constructor (config: RiskConfig, accountId: Bytes, buyingPower: Int64)
      ensures Valid() && fresh(account) && fresh(table.Repr)
      ensures checker.config == config && account.buyingPower == buyingPower && table.View() == map[]
    {
      checker := new RiskChecker(config);
      account := new Account(accountId, buyingPower);
      table := new EngineTable();
    }

    ghost predicate Valid()
      reads table, table.Repr
    {
      table.Valid() && account !in table.Repr
    }

    method SubmitOrder(o: OrderData, clock: Clock) returns (result: Message)
      requires Valid() && FreshRequest(table.View(), NewOrderMsg(o))
      modifies account, table.Repr
      ensures Valid() && fresh(table.Repr - old(table.Repr))
      ensures (account.buyingPower, table.View(), result)
           == Process(checker.config, old(account.buyingPower), old(table.View()), NewOrderMsg(o), clock)
    {
      hide EngineTable.Valid, EngineTable.View, Serve, CheckOrder, Text;
      var outcome := checker.Check(o, account);
      if outcome != Accepted {
        return RejectMsg(o.id, Text(ToString(outcome)));
      }
      var trades := table.SubmitOrder(o, clock);
      return AckMsg(o.id, trades);
    }

    method CancelOrder(id: nat, ghost clock: Clock) returns (result: Message)
      requires Valid()
      modifies table.Repr
      ensures Valid() && fresh(table.Repr - old(table.Repr))
      ensures (account.buyingPower, table.View(), result)
           == Process(checker.config, old(account.buyingPower), old(table.View()), CancelMsg(id), clock)
    {
      hide EngineTable.Valid, EngineTable.View, Serve, Text;
      var cancelled := table.CancelOrder(id, clock);
      return if cancelled then AckMsg(id, []) else RejectMsg(id, Text("order not found"));
    }

    method ModifyOrder(id: nat, newPrice: int, newQuantity: int, clock: Clock) returns (result: Message)
      requires Valid()
      modifies table.Repr
      ensures Valid() && fresh(table.Repr - old(table.Repr))
      ensures (account.buyingPower, table.View(), result)
           == Process(checker.config, old(account.buyingPower),
               old(table.View()), ModifyMsg(id, newPrice, newQuantity), clock)
    {
      hide EngineTable.Valid, EngineTable.View, Serve, Text;
      var trades := table.ModifyOrder(id, newPrice, newQuantity, clock);
      return if trades.Some? then AckMsg(id, trades.value) else RejectMsg(id, Text("order not found"));
    }

    method QueryBook(symbol: Symbol, ghost clock: Clock) returns (result: Message)
      requires Valid()
      ensures (account.buyingPower, table.View(), result)
           == Process(checker.config, account.buyingPower, table.View(), QueryMsg(symbol), clock)
    {
      var bids, asks := table.QueryBook(symbol);
      return SnapshotMsg(symbol, bids, asks);
    }
  }

  // ---------- Matching Engine service ----------

  class MatchingDispatcher {
    const table: EngineTable
    /** Every trade handed to the sink, in order. */
    var published: seq<Trade>

    constructor ()
      ensures Valid() && fresh(table.Repr) && table.View() == map[] && published == []
    {
      table := new EngineTable();
      published := [];
    }

    ghost predicate Valid()
      reads table, table.Repr
    {
      table.Valid() && this !in table.Repr
    }

    method PublishAll(trades: seq<Trade>)
      modifies this
      ensures published == old(published) + trades
    {
      for i := 0 to |trades|
        invariant published == old(published) + trades[..i]
      {
        published := published + [trades[i]];
      }
      assert trades[..|trades|] == trades;
    }

    method Handle(f: Frame, clock: Clock) returns (response: Bytes)
      requires Valid() && FreshFrame(table.View(), f)
      modifies this, table.Repr
      ensures Valid() && fresh(table.Repr - old(table.Repr))
      ensures (table.View(), response) == MatchingHandle(old(table.View()), f, clock)
      ensures published == old(published) + MatchingPublishes(old(table.View()), f, clock)
    {
      hide EngineTable.Valid, EngineTable.View, Serve, Text, Wrap, ParseRequest;
      if !IsRequestType(f.kind) {
        response := WrapReject(0, Text("unknown message type"));
        return;
      }
      var request := ReadRequest(f);
      if request.None? {
        response := WrapReject(0, Text("malformed message payload"));
        return;
      }
      RequestKinds(f);
      response := Answer(request.value, clock);
    }

    method Answer(request: Message, clock: Clock) returns (response: Bytes)
      requires Valid() && FreshRequest(table.View(), request)
      requires request.NewOrderMsg? || request.CancelMsg? || request.ModifyMsg? || request.QueryMsg?
      modifies this, table.Repr
      ensures Valid() && fresh(table.Repr - old(table.Repr))
      ensures table.View() == Serve(old(table.View()), request, clock).0
      ensures response == Wrap(Serve(old(table.View()), request, clock).1)
      ensures published == old(published) + TradesOf(Serve(old(table.View()), request, clock).1)
    {
      hide EngineTable.Sound, EngineTable.View, Serve, Text, Wrap, ExchangeOk;
      match request
      case NewOrderMsg(o) =>
        var trades := table.SubmitOrder(o, clock);
        PublishAll(trades);
        response := WrapAck(o.id, trades);
      case ModifyMsg(id, newPrice, newQuantity) =>
        var trades := table.ModifyOrder(id, newPrice, newQuantity, clock);
        if trades.Some? {
          PublishAll(trades.value);
          response := WrapAck(id, trades.value);
        } else {
          response := WrapReject(id, Text("order not found"));
        }
      case CancelMsg(id) =>
        var cancelled := table.CancelOrder(id, clock);
        if cancelled {
          response := WrapAck(id, []);
        } else {
          response := WrapReject(id, Text("order not found"));
        }
      case QueryMsg(symbol) =>
        var bids, asks := table.QueryBook(symbol);
        Queries(table.View(), symbol, clock);
        response := WrapSnapshot(symbol, bids, asks);
    }
  }

  /** A request frame holds one of the four requests. */
  lemma RequestKinds(f: Frame)
    requires IsRequestType(f.kind) && ParseRequest(f).Some?
    ensures var m := ParseRequest(f).value;
            m.NewOrderMsg? || m.CancelMsg? || m.ModifyMsg? || m.QueryMsg?
    ensures TypeOf(ParseRequest(f).value) == f.kind
  {
  }

  lemma Queries(es: Engines, symbol: Symbol, clock: Clock)
    ensures Serve(es, QueryMsg(symbol), clock) == (es, SnapshotOf(es, symbol))
  {
  }

  // ---------- Risk service ----------

  /** How the network cuts a response into reads. */
  type Splitter = Bytes -> seq<Bytes>

  ghost predicate Faithful(split: Splitter) {
    forall bytes: Bytes :: Concat(split(bytes)) == bytes
  }

  /** The client's side of one hop: the response is received whole, however it was cut. */
  method Receive(client: SyncTcpClient, split: Splitter, bytes: Bytes) returns (response: Frame)
    requires client.inbox == [] && Faithful(split) && Delivered(bytes).Some?
    modifies client
    ensures Delivered(bytes) == Some(response) && client.inbox == []
  {
    assert client.inbox + Concat(split(bytes)) == bytes;
    var used;
    response, used := client.SendAndReceive(split(bytes));
  }

  /** The server's side of one hop: its session decodes the one frame that was sent. */
  method Arrive(bytes: Bytes) returns (f: Frame)
    requires Delivered(bytes).Some?
    ensures Delivered(bytes) == Some(f)
  {
    var decoded := TryDecodeFrame(bytes);
    f := decoded.value.frame;
  }

  class RiskDispatcher {
    const checker: RiskChecker
    const account: Account
    const engine: MatchingDispatcher
    const client: SyncTcpClient
    const split: Splitter

    constructor (config: RiskConfig, accountId: Bytes, buyingPower: Int64, split: Splitter)
      requires Faithful(split)
      ensures Valid() && fresh(account) && fresh(engine) && fresh(client) && fresh(engine.table.Repr)
      ensures checker.config == config && account.buyingPower == buyingPower && engine.table.View() == map[]
    {
      checker := new RiskChecker(config);
      account := new Account(accountId, buyingPower);
      engine := new MatchingDispatcher();
      client := new SyncTcpClient();
      this.split := split;
    }

    ghost predicate Valid()
      reads client, engine.table, engine.table.Repr
    {
      && engine.Valid()
      && account !in engine.table.Repr && client !in engine.table.Repr
      && client.inbox == []
      && Faithful(split)
    }

    method ForwardToMatchingEngine(f: Frame, clock: Clock) returns (response: Bytes)
      requires Valid() && FrameFits(f) && FreshFrame(engine.table.View(), f)
      requires Forward(engine.table.View(), f, clock).Some?
      modifies engine, engine.table.Repr, client
      ensures Valid() && fresh(engine.table.Repr - old(engine.table.Repr))
      ensures Some((engine.table.View(), response)) == Forward(old(engine.table.View()), f, clock)
    {
      hide EngineTable.Valid, EngineTable.View, MatchingHandle, Delivered, EncodeFrame, FreshFrame;
      DeliveredWhole(f);
      var requestFrame := EncodeFrameBytes(f);
      var arrived := Arrive(requestFrame);
      var bytes := engine.Handle(arrived, clock);
      var decoded := Receive(client, split, bytes);
      response := EncodeFrameBytes(decoded);
    }

    method Handle(f: Frame, clock: Clock) returns (response: Bytes)
      requires Valid() && FrameFits(f) && FreshFrame(engine.table.View(), f)
      requires RiskHandle(checker.config, account.buyingPower, engine.table.View(), f, clock).Some?
      modifies account, engine, engine.table.Repr, client
      ensures Valid() && fresh(engine.table.Repr - old(engine.table.Repr))
      ensures Some((account.buyingPower, engine.table.View(), response))
           == RiskHandle(checker.config, old(account.buyingPower), old(engine.table.View()), f, clock)
    {
      hide EngineTable.Valid, EngineTable.View, Forward, FreshFrame, CheckOrder, Wrap, Text, GetOrder, Faithful,
           FrameFits, ByteReader.Rest, ByteReader.Valid;
      if !IsRequestType(f.kind) {
        response := WrapReject(0, Text("unknown message type"));
      } else if f.kind != NEW_ORDER {
        response := ForwardToMatchingEngine(f, clock);
      } else {
        var reader := new ByteReader(f.payload);
        var order := ReadOrderFrom(reader);
        if order.None? {
          response := WrapReject(0, Text("malformed message payload"));
          return;
        }
        var outcome := checker.Check(order.value, account);
        if outcome != Accepted {
          response := WrapReject(order.value.id, Text(ToString(outcome)));
          return;
        }
        response := ForwardToMatchingEngine(f, clock);
      }
    }
  }

  // ---------- The remote processor ----------

  /** A request message that fits a frame and is read back from it as itself. */
  ghost predicate Sendable(m: Message) {
    && IsRequestType(TypeOf(m))
    && FrameFits(FrameOf(m))
    && Get(TypeOf(m), Put(m, [])) == Some((m, []))
  }

  class RemoteOrderProcessor {
    const risk: RiskDispatcher
    const client: SyncTcpClient
    const split: Splitter

    constructor (risk: RiskDispatcher, split: Splitter)
      requires risk.Valid() && Faithful(split)
      ensures Valid() && this.risk == risk && fresh(client)
    {
      this.risk := risk;
      client := new SyncTcpClient();
      this.split := split;
    }

    ghost predicate Valid()
      reads client, risk.client, risk.engine.table, risk.engine.table.Repr
    {
      && risk.Valid()
      && client != risk.client && client !in risk.engine.table.Repr
      && client.inbox == []
      && Faithful(split)
    }

    /** One framed request to Risk and its framed answer. */
    method Call(requestFrame: Bytes, ghost m: Message, clock: Clock) returns (response: Frame)
      requires Valid() && Sendable(m) && requestFrame == Wrap(m) && FreshRequest(risk.engine.table.View(), m)
      requires RemoteCall(risk.checker.config, risk.account.buyingPower, risk.engine.table.View(), m, clock).Some?
      modifies client, risk.account, risk.engine, risk.engine.table.Repr, risk.client
      ensures Valid() && fresh(risk.engine.table.Repr - old(risk.engine.table.Repr))
      ensures Some((risk.account.buyingPower, risk.engine.table.View(), response))
           == RemoteCall(risk.checker.config, old(risk.account.buyingPower), old(risk.engine.table.View()), m, clock)
    {
      hide EngineTable.Valid, EngineTable.View, RiskHandle, Delivered, EncodeFrame, FrameFits, Faithful, Get, Put;
      DeliveredWhole(FrameOf(m));
      var arrived := Arrive(requestFrame);
      var bytes := risk.Handle(arrived, clock);
      response := Receive(client, split, bytes);
    }

    method ReadResult(response: Frame) returns (result: Option<Message>)
      ensures result == DecodeResult(response)
    {
      var reader := new ByteReader(response.payload);
      if response.kind == ORDER_ACK {
        result := ReadOrderAck(reader);
      } else {
        result := ReadOrderReject(reader);
      }
    }

    method SubmitOrder(o: OrderData, clock: Clock) returns (result: Option<Message>)
      requires Valid() && Sendable(NewOrderMsg(o)) && FreshRequest(risk.engine.table.View(), NewOrderMsg(o))
      requires RemoteCall(risk.checker.config, risk.account.buyingPower, risk.engine.table.View(),
          NewOrderMsg(o), clock).Some?
      modifies client, risk.account, risk.engine, risk.engine.table.Repr, risk.client
      ensures Valid() && fresh(risk.engine.table.Repr - old(risk.engine.table.Repr))
      ensures var (left, es', response) :=
                RemoteCall(risk.checker.config, old(risk.account.buyingPower),
                    old(risk.engine.table.View()), NewOrderMsg(o), clock).value;
              (risk.account.buyingPower, risk.engine.table.View()) == (left, es') && result == DecodeResult(response)
    {
      hide EngineTable.Valid, EngineTable.View, RemoteCall, Faithful, DecodeResult, Sendable, EncodeFrame, FreshRequest,
           PutU64, PutI64, PutString, GetSnapshot;
      var w := new ByteWriter();
      WriteOrder(w, o, []);
      assert w.buffer == Put(NewOrderMsg(o), []) by {
        assert w.buffer + [] == w.buffer && [] + PutOrder(o, []) == PutOrder(o, []);
      }
      var frame := EncodeFrameBytes(Frame(NEW_ORDER, w.buffer));
      var response := Call(frame, NewOrderMsg(o), clock);
      result := ReadResult(response);
    }

    method CancelOrder(id: nat, clock: Clock) returns (result: Option<Message>)
      requires Valid() && Sendable(CancelMsg(id)) && FreshRequest(risk.engine.table.View(), CancelMsg(id))
      requires RemoteCall(risk.checker.config, risk.account.buyingPower, risk.engine.table.View(),
          CancelMsg(id), clock).Some?
      modifies client, risk.account, risk.engine, risk.engine.table.Repr, risk.client
      ensures Valid() && fresh(risk.engine.table.Repr - old(risk.engine.table.Repr))
      ensures var (left, es', response) :=
                RemoteCall(risk.checker.config, old(risk.account.buyingPower),
                    old(risk.engine.table.View()), CancelMsg(id), clock).value;
              (risk.account.buyingPower, risk.engine.table.View()) == (left, es') && result == DecodeResult(response)
    {
      hide EngineTable.Valid, EngineTable.View, RemoteCall, Faithful, DecodeResult, Sendable, EncodeFrame, FreshRequest,
           PutU64, PutI64, PutString, GetSnapshot;
      var w := new ByteWriter();
      WriteCancelOrder(w, id);
      assert [] + Put(CancelMsg(id), []) == Put(CancelMsg(id), []);
      var frame := EncodeFrameBytes(Frame(CANCEL_ORDER, w.buffer));
      var response := Call(frame, CancelMsg(id), clock);
      result := ReadResult(response);
    }

    method ModifyOrder(id: nat, newPrice: int, newQuantity: int, clock: Clock) returns (result: Option<Message>)
      requires Valid() && Sendable(ModifyMsg(id, newPrice, newQuantity))
          && FreshRequest(risk.engine.table.View(), ModifyMsg(id, newPrice, newQuantity))
      requires RemoteCall(risk.checker.config, risk.account.buyingPower, risk.engine.table.View(),
          ModifyMsg(id, newPrice, newQuantity), clock).Some?
      modifies client, risk.account, risk.engine, risk.engine.table.Repr, risk.client
      ensures Valid() && fresh(risk.engine.table.Repr - old(risk.engine.table.Repr))
      ensures var (left, es', response) :=
                RemoteCall(risk.checker.config, old(risk.account.buyingPower),
                    old(risk.engine.table.View()), ModifyMsg(id, newPrice, newQuantity), clock).value;
              (risk.account.buyingPower, risk.engine.table.View()) == (left, es') && result == DecodeResult(response)
    {
      hide EngineTable.Valid, EngineTable.View, RemoteCall, Faithful, DecodeResult, Sendable, EncodeFrame, FreshRequest,
           PutU64, PutI64, PutString, GetSnapshot;
      ghost var m := ModifyMsg(id, newPrice, newQuantity);
      var w := new ByteWriter();
      WriteModifyOrder(w, id, newPrice, newQuantity);
      assert [] + Put(m, []) == Put(m, []);
      var frame := EncodeFrameBytes(Frame(MODIFY_ORDER, w.buffer));
      var response := Call(frame, m, clock);
      result := ReadResult(response);
    }

    /** Some(None) is the nullopt of a wrong answer type; None is a malformed snapshot. */
    method QueryBook(symbol: Symbol, clock: Clock) returns (result: Option<Option<Message>>)
      requires Valid() && Sendable(QueryMsg(symbol)) && FreshRequest(risk.engine.table.View(), QueryMsg(symbol))
      requires RemoteCall(risk.checker.config, risk.account.buyingPower, risk.engine.table.View(),
          QueryMsg(symbol), clock).Some?
      modifies client, risk.account, risk.engine, risk.engine.table.Repr, risk.client
      ensures Valid() && fresh(risk.engine.table.Repr - old(risk.engine.table.Repr))
      ensures var (left, es', response) :=
                RemoteCall(risk.checker.config, old(risk.account.buyingPower),
                    old(risk.engine.table.View()), QueryMsg(symbol), clock).value;
              (risk.account.buyingPower, risk.engine.table.View()) == (left, es')
                  && (result == if response.kind != BOOK_SNAPSHOT then Some(None)
                           else (var snapshot :- DecodeSnapshot(response); Some(Some(snapshot))))
    {
      hide EngineTable.Valid, EngineTable.View, RemoteCall, Faithful, DecodeResult, Sendable, EncodeFrame, FreshRequest,
           PutU64, PutI64, PutString, GetSnapshot;
      var w := new ByteWriter();
      WriteBookQuery(w, symbol);
      assert [] + Put(QueryMsg(symbol), []) == Put(QueryMsg(symbol), []);
      var frame := EncodeFrameBytes(Frame(BOOK_QUERY, w.buffer));
      var response := Call(frame, QueryMsg(symbol), clock);
      if response.kind != BOOK_SNAPSHOT {
        return Some(None);
      }
      var reader := new ByteReader(response.payload);
      var snapshot :- ReadBookSnapshot(reader);
      return Some(Some(snapshot));
    }
  }

  // ---------- The gateway ----------

  /** Either implementation of the processor interface. */
  datatype OrderProcessor =
    | InProcess(local: InProcessOrderProcessor)
    | Remote(remote: RemoteOrderProcessor)
  {
    ghost function Account(): Account {
      if InProcess? then local.account else remote.risk.account
    }

    ghost function Table(): EngineTable {
      if InProcess? then local.table else remote.risk.engine.table
    }

    ghost function Config(): RiskConfig {
      if InProcess? then local.checker.config else remote.risk.checker.config
    }

    /** Everything a request may change. */
    ghost function Footprint(): set<object>
      reads Table()
    {
      {Account()} + Table().Repr
      + if InProcess? then {} else {remote.client, remote.risk.client, remote.risk.engine}
    }

    ghost predicate Valid()
      reads Table(), Footprint()
      ensures Valid() ==> Table() in Footprint()
    {
      && Table() in Footprint()
      && if InProcess? then local.Valid() else remote.Valid()
    }
  }

  /** The answer of the gateway: the response bytes and the state behind it, as in one process. */
  ghost predicate AnswersAs(
    config: RiskConfig, buyingPower: int, es: Engines, m: Message, clock: Clock, left: int, es': Engines, bytes: Bytes)
  {
    var (l, e, response) := Process(config, buyingPower, es, m, clock);
    left == l && es' == e && bytes == Wrap(response)
  }

  class MessageDispatcher {
    const processor: OrderProcessor

    constructor (processor: OrderProcessor)
      requires processor.Valid()
      ensures this.processor == processor
    {
      this.processor := processor;
    }

    /** The gateway over the in-process processor. */
    method HandleLocal(p: InProcessOrderProcessor, m: Message, clock: Clock) returns (response: Bytes)
      requires p.Valid() && FreshRequest(p.table.View(), m)
      requires m.NewOrderMsg? || m.CancelMsg? || m.ModifyMsg? || m.QueryMsg?
      modifies p.account, p.table.Repr
      ensures p.Valid() && fresh(p.table.Repr - old(p.table.Repr))
      ensures AnswersAs(p.checker.config, old(p.account.buyingPower), old(p.table.View()), m, clock,
                        p.account.buyingPower, p.table.View(), response)
    {
      hide EngineTable.Sound, EngineTable.View, ExchangeOk, Wrap, Process, FreshRequest;
      ResponseKind(p.checker.config, p.account.buyingPower, p.table.View(), m, clock);
      var result: Message;
      match m {
        case NewOrderMsg(o) => result := p.SubmitOrder(o, clock);
        case CancelMsg(id) => result := p.CancelOrder(id, clock);
        case ModifyMsg(id, newPrice, newQuantity) => result := p.ModifyOrder(id, newPrice, newQuantity, clock);
        case QueryMsg(symbol) => result := p.QueryBook(symbol, clock);
      }
      response := EncodeResult(result);
    }

    method EncodeOr(m: Option<Message>) returns (response: Bytes)
      requires m.Some? ==> m.value.AckMsg? || m.value.RejectMsg? || m.value.SnapshotMsg?
      ensures response == EncodeOutcome(m)
    {
      hide Wrap, Text;
      if m.None? {
        response := WrapReject(0, Text("malformed message payload"));
      } else {
        response := EncodeResult(m.value);
      }
    }

    /** The gateway over the remote processor; a reader that throws is caught here. */
    method HandleRemote(p: RemoteOrderProcessor, m: Message, clock: Clock) returns (response: Bytes)
      requires p.Valid() && Sendable(m) && FreshRequest(p.risk.engine.table.View(), m)
      requires RemoteCall(p.risk.checker.config, p.risk.account.buyingPower, p.risk.engine.table.View(), m, clock).Some?
      modifies p.client, p.risk.account, p.risk.engine, p.risk.engine.table.Repr, p.risk.client
      ensures p.Valid() && fresh(p.risk.engine.table.Repr - old(p.risk.engine.table.Repr))
      ensures var (left, es', answer) :=
                RemoteCall(p.risk.checker.config, old(p.risk.account.buyingPower),
                           old(p.risk.engine.table.View()), m, clock).value;
              && (p.risk.account.buyingPower, p.risk.engine.table.View()) == (left, es')
              && response == Relay(m, answer)
    {
      hide EngineTable.Sound, EngineTable.View, ExchangeOk, RemoteCall, FreshRequest, Faithful, Wrap, Text,
           Get, Put, FrameFits, GetAck, GetReject, GetSnapshot;
      match m {
        case NewOrderMsg(o) =>
          var result := p.SubmitOrder(o, clock);
          response := EncodeOr(result);
        case CancelMsg(id) =>
          var result := p.CancelOrder(id, clock);
          response := EncodeOr(result);
        case ModifyMsg(id, newPrice, newQuantity) =>
          var result := p.ModifyOrder(id, newPrice, newQuantity, clock);
          response := EncodeOr(result);
        case QueryMsg(symbol) =>
          var snapshot := p.QueryBook(symbol, clock);
          if snapshot == Some(None) {
            response := WrapReject(0, Text("book query failed"));
          } else {
            response := EncodeOr(if snapshot.None? then None else snapshot.value);
          }
      }
    }

    /**
      One frame from a client. Whichever processor is behind the gateway, the response and the new
      state are those of the single process.
     */
    method Handle(f: Frame, clock: Clock) returns (response: Bytes)
      requires processor.Valid() && FrameFits(f) && FreshFrame(processor.Table().View(), f)
      requires |GatewayInProcess(processor.Config(), processor.Account().buyingPower,
                                 processor.Table().View(), f, clock).2| < U32 + 4
      modifies processor.Footprint()
      ensures processor.Valid() && fresh(processor.Footprint() - old(processor.Footprint()))
      ensures (processor.Account().buyingPower, processor.Table().View(), response)
           == GatewayInProcess(processor.Config(), old(processor.Account().buyingPower),
                               old(processor.Table().View()), f, clock)
    {
      hide EngineTable.Sound, EngineTable.View, ExchangeOk, Faithful, Wrap, Text, Process, RemoteCall, ParseRequest,
           FrameFits, Get, Put, FreshRequest, Relay;
      if !IsRequestType(f.kind) {
        response := WrapReject(0, Text("unknown message type"));
        return;
      }
      var request := ReadRequest(f);
      if request.None? {
        response := WrapReject(0, Text("malformed message payload"));
        return;
      }
      RequestKinds(f);
      match processor
      case InProcess(local) =>
        response := HandleLocal(local, request.value, clock);
      case Remote(remote) =>
        ChainStep(processor.Config(), processor.Account().buyingPower, processor.Table().View(), f, clock);
        RequestSurvives(f);
        response := HandleRemote(remote, request.value, clock);
    }
  }
}
