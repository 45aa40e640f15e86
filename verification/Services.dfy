/**
  The request path twice: a gateway with everything in one process, and the chain Gateway, Risk,
  Matching Engine connected by frames. The chain answers every request with the same bytes.
 */
module Services {
  import opened Types
  import opened Codec
  import opened Messages
  import opened Frames
  import opened Exchange
  import opened Risk

  /** A message in its frame. */
  function FrameOf(m: Message): Frame {
    Frame(TypeOf(m), Put(m, []))
  }

  function Wrap(m: Message): Bytes {
    EncodeFrame(FrameOf(m))
  }

  function Refusal(reason: string): Bytes {
    Wrap(RejectMsg(0, Text(reason)))
  }

  /** Requests are the four message types the dispatchers switch on. */
  predicate IsRequestType(kind: Byte) {
    kind == NEW_ORDER || kind == CANCEL_ORDER || kind == MODIFY_ORDER || kind == BOOK_QUERY
  }

  function ParseRequest(f: Frame): Option<Message>
    requires IsRequestType(f.kind)
  {
    var (m, rest) :- Get(f.kind, f.payload);
    Some(m)
  }

  // ---------- Matching Engine service ----------

  ghost function MatchingHandle(es: Engines, f: Frame, clock: Clock): (Engines, Bytes) {
    if !IsRequestType(f.kind) then (es, Refusal("unknown message type"))
    else
      var request := ParseRequest(f);
      if request.None? then (es, Refusal("malformed message payload"))
      else
        var (es', response) := Serve(es, request.value, clock);
        (es', Wrap(response))
  }

  /** The trades handed to the sink while a frame is handled. */
  ghost function MatchingPublishes(es: Engines, f: Frame, clock: Clock): seq<Trade> {
    if !IsRequestType(f.kind) || ParseRequest(f).None? then []
    else TradesOf(Serve(es, ParseRequest(f).value, clock).1)
  }

  // ---------- Risk service ----------

  /** What arrives at the other end of a connection; None if the bytes never make up exactly one frame. */
  function Delivered(bytes: Bytes): Option<Frame> {
    if !Defined(bytes) then None
    else
      var d := TryDecodeFrame(bytes);
      if d.None? || d.value.bytesConsumed != |bytes| then None else Some(d.value.frame)
  }

  /** Sends a frame on and passes the answer back, both re-encoded. */
  ghost function Forward(es: Engines, f: Frame, clock: Clock): Option<(Engines, Bytes)> {
    var request :- Delivered(EncodeFrame(f));
    var (es', bytes) := MatchingHandle(es, request, clock);
    var response :- Delivered(bytes);
    Some((es', EncodeFrame(response)))
  }

  ghost function RiskHandle(
    config: RiskConfig, buyingPower: int, es: Engines, f: Frame, clock: Clock): Option<(int, Engines, Bytes)>
  {
    if !IsRequestType(f.kind) then Some((buyingPower, es, Refusal("unknown message type")))
    else if f.kind != NEW_ORDER then
      var (es', bytes) :- Forward(es, f, clock);
      Some((buyingPower, es', bytes))
    else
      var parsed := GetOrder(f.payload);
      if parsed.None? then Some((buyingPower, es, Refusal("malformed message payload")))
      else
        var (outcome, left) := CheckOrder(config, parsed.value.0, buyingPower);
        if outcome != Accepted then
          Some((buyingPower, es, Wrap(RejectMsg(parsed.value.0.id, Text(ToString(outcome))))))
        else
          var (es', bytes) :- Forward(es, f, clock);
          Some((left, es', bytes))
  }

  // ---------- Gateway ----------

  ghost function GatewayInProcess(
    config: RiskConfig, buyingPower: int, es: Engines, f: Frame, clock: Clock): (int, Engines, Bytes)
  {
    if !IsRequestType(f.kind) then (buyingPower, es, Refusal("unknown message type"))
    else
      var request := ParseRequest(f);
      if request.None? then (buyingPower, es, Refusal("malformed message payload"))
      else
        var (left, es', response) := Process(config, buyingPower, es, request.value, clock);
        (left, es', Wrap(response))
  }

  /** The remote processor's reading of an answer; None where the reader throws. */
  function DecodeResult(response: Frame): (result: Option<Message>)
    ensures result.Some? ==> result.value.AckMsg? || result.value.RejectMsg?
  {
    var (m, rest) :- if response.kind == ORDER_ACK then GetAck(response.payload) else GetReject(response.payload);
    Some(m)
  }

  function DecodeSnapshot(response: Frame): (result: Option<Message>)
    ensures result.Some? ==> result.value.SnapshotMsg?
  {
    var (m, rest) :- GetSnapshot(response.payload);
    Some(m)
  }

  /** The gateway's encoding of what its processor returned or threw. */
  function EncodeOutcome(m: Option<Message>): Bytes {
    if m.None? then Refusal("malformed message payload") else Wrap(m.value)
  }

  function Relay(request: Message, response: Frame): Bytes {
    if !request.QueryMsg? then EncodeOutcome(DecodeResult(response))
    else if response.kind != BOOK_SNAPSHOT then Refusal("book query failed")
    else EncodeOutcome(DecodeSnapshot(response))
  }

  /** One request from the remote processor to Risk and back. */
  ghost function RemoteCall(
    config: RiskConfig, buyingPower: int, es: Engines, request: Message, clock: Clock): Option<(int, Engines, Frame)>
  {
    var arrived :- Delivered(Wrap(request));
    var (left, es', bytes) :- RiskHandle(config, buyingPower, es, arrived, clock);
    var response :- Delivered(bytes);
    Some((left, es', response))
  }

  ghost function GatewayRemote(
    config: RiskConfig, buyingPower: int, es: Engines, f: Frame, clock: Clock): Option<(int, Engines, Bytes)>
  {
    if !IsRequestType(f.kind) then Some((buyingPower, es, Refusal("unknown message type")))
    else
      var request := ParseRequest(f);
      if request.None? then Some((buyingPower, es, Refusal("malformed message payload")))
      else
        var (left, es', response) :- RemoteCall(config, buyingPower, es, request.value, clock);
        Some((left, es', Relay(request.value, response)))
  }

  // ---------- The chain is the single process ----------

  lemma DeliveredWhole(f: Frame)
    requires FrameFits(f)
    ensures Delivered(EncodeFrame(f)) == Some(f)
  {
    FrameRoundTrip(f, []);
    assert EncodeFrame(f) + [] == EncodeFrame(f);
  }

  /** A request that was read from a frame fits a frame again, and is read back as itself. */
  lemma {:induction false} RequestSurvives(f: Frame)
    requires FrameFits(f) && IsRequestType(f.kind) && ParseRequest(f).Some?
    ensures var m := ParseRequest(f).value;
            && TypeOf(m) == f.kind
            && FrameFits(FrameOf(m))
            && Get(f.kind, Put(m, [])) == Some((m, []))
  {
    hide Get, Put, Fits, TypeOf;
    var (m, rest) := Get(f.kind, f.payload).value;
    Canonical(f.kind, f.payload);
    Append(m, [], rest);
    assert [] + rest == rest;
    FitsCountable(m);
    ReadBack(m, []);
  }

  lemma {:induction false} TradesShort(ts: seq<Trade>, rest: Bytes)
    ensures |PutTrades(ts, rest)| >= |ts| + |rest|
    ensures forall t <- ts :: |PutTrades(ts, rest)| > |t.symbol| + |rest|
  {
    if ts != [] {
      TradesShort(ts[1..], rest);
    }
  }

  lemma {:induction false} LevelsShort(ls: seq<LevelSnapshot>, rest: Bytes)
    ensures |PutLevels(ls, rest)| >= |ls| + |rest|
  {
    if ls != [] {
      LevelsShort(ls[1..], rest);
    }
  }

  /** A message that fits a frame has strings and lists short enough to be counted. */
  lemma FramedIsCountable(m: Message)
    requires FrameFits(FrameOf(m))
    ensures Countable(m)
  {
    match m
    case NewOrderMsg(_) =>
    case CancelMsg(_) =>
    case ModifyMsg(_, _, _) =>
    case AckMsg(_, trades) => TradesShort(trades, []);
    case RejectMsg(_, _) =>
    case QueryMsg(_) =>
    case SnapshotMsg(_, bids, asks) =>
      LevelsShort(asks, []);
      LevelsShort(bids, PutU32(|asks|, PutLevels(asks, [])));
    case TradeMsg(_) =>
  }

  /** An answer that fits a frame is relayed byte for byte, even where a field wraps around. */
  lemma {:induction false} AnswerSurvives(request: Message, m: Message)
    requires FrameFits(FrameOf(m))
    requires if request.QueryMsg? then m.SnapshotMsg? else m.AckMsg? || m.RejectMsg?
    ensures Relay(request, FrameOf(m)) == Wrap(m)
  {
    hide Put, Fits, EncodeFrame, FrameFits, Countable, GetAck, GetReject, GetSnapshot;
    FramedIsCountable(m);
    ReadBack(m, []);
    Canonical(TypeOf(m), Put(m, []));
  }

  lemma {:induction false} MatchingAnswers(es: Engines, m: Message, clock: Clock)
    requires IsRequestType(TypeOf(m)) && FrameFits(FrameOf(m))
    requires Get(TypeOf(m), Put(m, [])) == Some((m, []))
    requires FrameFits(FrameOf(Serve(es, m, clock).1))
    ensures Forward(es, FrameOf(m), clock) == Some((Serve(es, m, clock).0, Wrap(Serve(es, m, clock).1)))
  {
    hide Put, Get, Serve, FrameFits, EncodeFrame, Delivered;
    DeliveredWhole(FrameOf(m));
    DeliveredWhole(FrameOf(Serve(es, m, clock).1));
  }

  lemma {:induction false} RiskAnswers(config: RiskConfig, buyingPower: int, es: Engines, m: Message, clock: Clock)
    requires IsRequestType(TypeOf(m)) && FrameFits(FrameOf(m))
    requires Get(TypeOf(m), Put(m, [])) == Some((m, []))
    requires FrameFits(FrameOf(Process(config, buyingPower, es, m, clock).2))
    ensures var (left, es', response) := Process(config, buyingPower, es, m, clock);
            RiskHandle(config, buyingPower, es, FrameOf(m), clock) == Some((left, es', Wrap(response)))
  {
    hide Put, Serve, FrameFits, EncodeFrame, Forward, GetOrder, CheckOrder;
    if !m.NewOrderMsg? || CheckOrder(config, m.order, buyingPower).0 == Accepted {
      MatchingAnswers(es, m, clock);
    }
  }

  /**
    One request through the whole chain: same response bytes, same account, same engines as in one
    process. The response must fit a frame, as the protocol requires.
   */
  lemma {:induction false} ChainStep(config: RiskConfig, buyingPower: int, es: Engines, f: Frame, clock: Clock)
    requires FrameFits(f)
    requires |GatewayInProcess(config, buyingPower, es, f, clock).2| < U32 + 4
    ensures GatewayRemote(config, buyingPower, es, f, clock)
         == Some(GatewayInProcess(config, buyingPower, es, f, clock))
  {
    hide Get, Put, Process, RiskHandle, Relay, Delivered, EncodeFrame, FrameFits, Text;
    if IsRequestType(f.kind) && ParseRequest(f).Some? {
      var m := ParseRequest(f).value;
      RequestSurvives(f);
      DeliveredWhole(FrameOf(m));
      var (left, es', response) := Process(config, buyingPower, es, m, clock);
      WrappedFits(response);
      ResponseKind(config, buyingPower, es, m, clock);
      RiskAnswers(config, buyingPower, es, m, clock);
      DeliveredWhole(FrameOf(response));
      AnswerSurvives(m, response);
    }
  }

  lemma WrappedFits(m: Message)
    requires |Wrap(m)| < U32 + 4
    ensures FrameFits(FrameOf(m))
  {
  }

  lemma ResponseKind(config: RiskConfig, buyingPower: int, es: Engines, m: Message, clock: Clock)
    requires IsRequestType(TypeOf(m))
    ensures var response := Process(config, buyingPower, es, m, clock).2;
            if m.QueryMsg? then response.SnapshotMsg? else response.AckMsg? || response.RejectMsg?
  {
  }

  /** The code relies on clients for this: a new order's id rests nowhere. */
  ghost predicate FreshFrame(es: Engines, f: Frame) {
    IsRequestType(f.kind) && ParseRequest(f).Some? ==> FreshRequest(es, ParseRequest(f).value)
  }

  /** A frame as the gateway's session decodes it, with the clock readings made while serving it. */
  datatype Call = Call(frame: Frame, clock: Clock)

  ghost function RunInProcess(
    config: RiskConfig, buyingPower: int, es: Engines, calls: seq<Call>): (run: (int, Engines, seq<Bytes>))
    ensures |run.2| == |calls|
    decreases |calls|
  {
    if calls == [] then (buyingPower, es, [])
    else
      var (bp', es', bytes) := GatewayInProcess(config, buyingPower, es, calls[0].frame, calls[0].clock);
      var (bp'', es'', more) := RunInProcess(config, bp', es', calls[1..]);
      (bp'', es'', [bytes] + more)
  }

  ghost function RunRemote(
    config: RiskConfig, buyingPower: int, es: Engines, calls: seq<Call>): Option<(int, Engines, seq<Bytes>)>
    decreases |calls|
  {
    if calls == [] then Some((buyingPower, es, []))
    else
      var (bp', es', bytes) :- GatewayRemote(config, buyingPower, es, calls[0].frame, calls[0].clock);
      var (bp'', es'', more) :- RunRemote(config, bp', es', calls[1..]);
      Some((bp'', es'', [bytes] + more))
  }

  /**
    The distributed deployment refines the single process: for every sequence of frames, well-formed
    or not, it sends byte-identical responses and ends with the same account and engines.
   */
  lemma {:induction false} ChainRefinesProcess(config: RiskConfig, buyingPower: int, es: Engines, calls: seq<Call>)
    requires forall c <- calls :: FrameFits(c.frame)
    requires forall bytes <- RunInProcess(config, buyingPower, es, calls).2 :: |bytes| < U32 + 4
    ensures RunRemote(config, buyingPower, es, calls) == Some(RunInProcess(config, buyingPower, es, calls))
    decreases |calls|
  {
    hide GatewayInProcess, GatewayRemote, FrameFits;
    if calls != [] {
      var (bp', es', bytes) := GatewayInProcess(config, buyingPower, es, calls[0].frame, calls[0].clock);
      assert RunInProcess(config, buyingPower, es, calls).2[0] == bytes;
      ChainStep(config, buyingPower, es, calls[0].frame, calls[0].clock);
      ChainRefinesProcess(config, bp', es', calls[1..]);
    }
  }

  /** The frames of a connection, each with the clock readings made while it is served. */
  ghost function Calls(frames: seq<Frame>, clocks: nat -> Clock): seq<Call> {
    seq(|frames|, i requires 0 <= i < |frames| => Call(frames[i], clocks(i)))
  }

  /** The requests that reach the processor: those in frames it can read. */
  function EventsOf(calls: seq<Call>): seq<Event>
    decreases |calls|
  {
    if calls == [] then []
    else
      var f := calls[0].frame;
      var rest := EventsOf(calls[1..]);
      if !IsRequestType(f.kind) || ParseRequest(f).None? then rest
      else [Event(ParseRequest(f).value, calls[0].clock)] + rest
  }
}
