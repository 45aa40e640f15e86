/**
  Whole runs of the objects: frames and byte streams through the gateway, the engines' published
  trades, and the account, each tied to the run of functions that the guarantees are proved about.
 */
module Deployments {
  import opened Types
  import opened Sequences
  import opened Frames
  import opened Codec
  import opened Exchange
  import opened Risk
  import opened Services
  import opened EngineTables
  import opened Accounting
  import opened Solvency
  import opened Processors

  // ---------- Frames ----------

  /** Fresh ids, and answers that fit a frame, all along. */
  ghost predicate Servable(config: RiskConfig, buyingPower: int, es: Engines, calls: seq<Call>)
    decreases |calls|
  {
    calls != [] ==>
      var (left, es', bytes) := GatewayInProcess(config, buyingPower, es, calls[0].frame, calls[0].clock);
      && FrameFits(calls[0].frame)
      && FreshFrame(es, calls[0].frame)
      && |bytes| < U32 + 4
      && Servable(config, left, es', calls[1..])
  }

  /** Any frames, one after another: over either processor, the answers of one process. */
  method HandleAll(gateway: MessageDispatcher, calls: seq<Call>) returns (responses: seq<Bytes>)
    requires gateway.processor.Valid()
    requires Servable(gateway.processor.Config(), gateway.processor.Account().buyingPower,
                      gateway.processor.Table().View(), calls)
    modifies gateway.processor.Footprint()
    ensures gateway.processor.Valid()
    ensures (gateway.processor.Account().buyingPower, gateway.processor.Table().View(), responses)
         == RunInProcess(gateway.processor.Config(), old(gateway.processor.Account().buyingPower),
                         old(gateway.processor.Table().View()), calls)
  {
    hide EngineTable.Sound, EngineTable.View, ExchangeOk, GatewayInProcess, FreshFrame, FrameFits;
    ghost var p := gateway.processor;
    ghost var config, before := p.Config(), p.Footprint();
    ghost var all := RunInProcess(config, p.Account().buyingPower, p.Table().View(), calls);
    responses := [];
    assert calls[0..] == calls && [] + all.2 == all.2;
    for i := 0 to |calls|
      invariant p.Valid() && fresh(p.Footprint() - before)
      invariant Servable(config, p.Account().buyingPower, p.Table().View(), calls[i..])
      invariant var rest := RunInProcess(config, p.Account().buyingPower, p.Table().View(), calls[i..]);
                all == (rest.0, rest.1, responses + rest.2)
    {
      assert calls[i..][1..] == calls[i + 1..];
      var response := gateway.Handle(calls[i].frame, calls[i].clock);
      ghost var rest := RunInProcess(config, p.Account().buyingPower, p.Table().View(), calls[i + 1..]).2;
      assert responses + ([response] + rest) == (responses + [response]) + rest;
      responses := responses + [response];
    }
    assert calls[|calls|..] == [] && responses + [] == responses;
  }

  // ---------- Byte streams ----------

  /** The next frame of a stream whose later bytes have not arrived. */
  lemma NextFrame(inbox: Bytes, later: Bytes)
    requires WellFormedStream(inbox + later)
    ensures Defined(inbox)
    ensures var d := TryDecodeFrame(inbox);
            d.Some? ==>
              var n := d.value.bytesConsumed;
              && 0 < n <= |inbox|
              && WellFormedStream(inbox[n..] + later)
              && SplitStream(inbox + later)
                 == ([d.value.frame] + SplitStream(inbox[n..] + later).0, SplitStream(inbox[n..] + later).1)
  {
    DecodeExtends(inbox, later);
    if TryDecodeFrame(inbox).Some? {
      FrameCanonical(inbox);
      var n := TryDecodeFrame(inbox).value.bytesConsumed;
      assert (inbox + later)[n..] == inbox[n..] + later;
    }
  }

  /** The session of one client, whose handler is the gateway's. */
  class GatewaySession {
    const gateway: MessageDispatcher
    var inbox: Bytes
    /** Frames handled, and the responses written back, in order. */
    var served: nat
    var written: seq<Bytes>

    constructor (gateway: MessageDispatcher)
      ensures this.gateway == gateway && inbox == [] && served == 0 && written == []
    {
      this.gateway := gateway;
      inbox, served, written := [], 0, [];
    }

    ghost predicate Valid()
      reads gateway.processor.Table(), gateway.processor.Footprint()
      ensures Valid() ==> this !in gateway.processor.Footprint()
      ensures Valid() ==> gateway.processor.Table() in gateway.processor.Footprint()
    {
      gateway.processor.Valid() && this !in gateway.processor.Footprint()
    }

    /** What one process would answer and be left with, these calls being still to come. */
    ghost function Outcome(calls: seq<Call>): (int, Engines, seq<Bytes>)
      requires Valid()
      reads this`written, gateway.processor.Table(), gateway.processor.Footprint()
    {
      var run := RunInProcess(gateway.processor.Config(), gateway.processor.Account().buyingPower,
                              gateway.processor.Table().View(), calls);
      (run.0, run.1, written + run.2)
    }

    /** With nothing written yet, and with nothing left to come. */
    lemma ReadOutcome()
      requires Valid()
      ensures gateway.processor.Table().Sound()
      ensures written == [] ==>
                forall calls ::
                  Outcome(calls)
                  == RunInProcess(gateway.processor.Config(), gateway.processor.Account().buyingPower,
                                  gateway.processor.Table().View(), calls)
      ensures Outcome([]) == (gateway.processor.Account().buyingPower, gateway.processor.Table().View(), written)
    {
      hide RunInProcess, EngineTable.View, EngineTable.Sound;
      NothingToAnswer(gateway.processor.Config(), gateway.processor.Account().buyingPower,
                      gateway.processor.Table().View());
      assert written + [] == written;
      assert forall answers: seq<Bytes> :: [] + answers == answers;
    }

    ghost predicate Ready(calls: seq<Call>)
      requires Valid()
      reads gateway.processor.Table(), gateway.processor.Footprint()
    {
      Servable(gateway.processor.Config(), gateway.processor.Account().buyingPower,
               gateway.processor.Table().View(), calls)
    }

    /** One frame through the gateway. */
    method HandleNext(frame: Frame, clock: Clock, ghost rest: seq<Call>)
      requires Valid() && Ready([Call(frame, clock)] + rest)
      modifies this`written, gateway.processor.Footprint()
      ensures Valid() && fresh(gateway.processor.Footprint() - old(gateway.processor.Footprint()))
      ensures Ready(rest)
      ensures Outcome(rest) == old(Outcome([Call(frame, clock)] + rest))
    {
      hide EngineTable.Sound, EngineTable.View, ExchangeOk, GatewayInProcess, FreshFrame, FrameFits;
      ghost var calls := [Call(frame, clock)] + rest;
      assert calls[0] == Call(frame, clock) && calls[1..] == rest;
      ghost var before := written;
      var response := gateway.Handle(frame, clock);
      written := written + [response];
      ghost var later := RunInProcess(gateway.processor.Config(), gateway.processor.Account().buyingPower,
                                      gateway.processor.Table().View(), rest).2;
      assert before + ([response] + later) == (before + [response]) + later;
    }

    /** What is buffered, and what is still to arrive, hold the frames from the next one on. */
    ghost predicate OnTrack(frames: seq<Frame>, left: Bytes, clocks: nat -> Clock, later: Bytes)
      reads this, gateway.processor.Table(), gateway.processor.Footprint()
    {
      && Valid()
      && WellFormedStream(inbox + later)
      && served <= |frames|
      && SplitStream(inbox + later) == (frames[served..], left)
      && Ready(Calls(frames, clocks)[served..])
    }

    /** Handles every complete frame in the inbox. */
    method ProcessCompleteFrames(
        clocks: nat -> Clock, ghost frames: seq<Frame>, ghost left: Bytes, ghost later: Bytes)
      requires OnTrack(frames, left, clocks, later)
      modifies this, gateway.processor.Footprint()
      ensures OnTrack(frames, left, clocks, later)
      ensures fresh(gateway.processor.Footprint() - old(gateway.processor.Footprint()))
      ensures Outcome(Calls(frames, clocks)[served..]) == old(Outcome(Calls(frames, clocks)[served..]))
      ensures Defined(inbox) && TryDecodeFrame(inbox).None?
    {
      hide GatewaySession.Valid, GatewaySession.Ready, GatewaySession.Outcome, SplitStream, WellFormedStream,
           TryDecodeFrame, Defined;
      while true
        invariant OnTrack(frames, left, clocks, later)
        invariant fresh(gateway.processor.Footprint() - old(gateway.processor.Footprint()))
        invariant Outcome(Calls(frames, clocks)[served..]) == old(Outcome(Calls(frames, clocks)[served..]))
        decreases |inbox|
      {
        NextFrame(inbox, later);
        var decoded := TryDecodeFrame(inbox);
        if decoded.None? {
          break;
        }
        ghost var calls := Calls(frames, clocks);
        ghost var behind := SplitStream(inbox[decoded.value.bytesConsumed..] + later).0;
        assert frames[served..] == [decoded.value.frame] + behind;
        assert |frames[served..]| > 0;
        assert frames[served..][0] == frames[served] && frames[served..][1..] == frames[served + 1..];
        assert calls[served..] == [Call(decoded.value.frame, clocks(served))] + calls[served + 1..];
        HandleNext(decoded.value.frame, clocks(served), calls[served + 1..]);
        inbox := inbox[decoded.value.bytesConsumed..];
        served := served + 1;
      }
    }

    /**
      A whole connection: however the client's bytes are cut into reads, the session writes exactly the
      answers of one process to the frames they hold, and keeps exactly the bytes behind them.
     */
    method Serve(chunks: seq<Bytes>, clocks: nat -> Clock)
      requires Valid() && inbox == [] && written == [] && served == 0
      requires WellFormedStream(Concat(chunks)) && Ready(Calls(SplitStream(Concat(chunks)).0, clocks))
      modifies this, gateway.processor.Footprint()
      ensures Valid()
      ensures inbox == SplitStream(Concat(chunks)).1
      ensures (gateway.processor.Account().buyingPower, gateway.processor.Table().View(), written)
           == RunInProcess(gateway.processor.Config(), old(gateway.processor.Account().buyingPower),
                           old(gateway.processor.Table().View()), Calls(SplitStream(Concat(chunks)).0, clocks))
    {
      hide GatewaySession.Valid, GatewaySession.Ready, GatewaySession.Outcome, SplitStream, WellFormedStream,
           TryDecodeFrame, Defined, RunInProcess, EngineTable.View, EngineTable.Sound, ExchangeOk;
      ReadOutcome();
      ghost var frames, left := SplitStream(Concat(chunks)).0, SplitStream(Concat(chunks)).1;
      ghost var calls := Calls(frames, clocks);
      assert chunks[0..] == chunks && [] + Concat(chunks) == Concat(chunks);
      assert frames[0..] == frames && calls[0..] == calls;
      NothingBuffered();
      for i := 0 to |chunks|
        invariant OnTrack(frames, left, clocks, Concat(chunks[i..]))
        invariant fresh(gateway.processor.Footprint() - old(gateway.processor.Footprint()))
        invariant Outcome(calls[served..]) == old(Outcome(calls))
        invariant Defined(inbox) && TryDecodeFrame(inbox).None?
      {
        ghost var later := Concat(chunks[i + 1..]);
        assert chunks[i..][1..] == chunks[i + 1..];
        assert inbox + Concat(chunks[i..]) == (inbox + chunks[i]) + later;
        inbox := inbox + chunks[i];
        ProcessCompleteFrames(clocks, frames, left, later);
      }
      assert inbox + Concat(chunks[|chunks|..]) == inbox;
      Undecodable(inbox);
      assert calls[served..] == [];
      ReadOutcome();
    }
  }

  lemma NothingBuffered()
    ensures Defined([]) && TryDecodeFrame([]).None?
  {
  }

  lemma NothingToAnswer(config: RiskConfig, buyingPower: int, es: Engines)
    ensures RunInProcess(config, buyingPower, es, []) == (buyingPower, es, [])
  {
  }

  // ---------- Deployments ----------

  /**
    The whole deployment: gateway, risk and matching engine as three services, from their
    construction on. For any bytes of a client, cut in any way, it writes the answers of one process.
   */
  method ServeRemotely(
      config: RiskConfig, accountId: Bytes, buyingPower: Int64, split: Splitter,
      chunks: seq<Bytes>, clocks: nat -> Clock)
    returns (written: seq<Bytes>)
    requires Faithful(split) && WellFormedStream(Concat(chunks))
    requires Servable(config, buyingPower, map[], Calls(SplitStream(Concat(chunks)).0, clocks))
    ensures written == RunInProcess(config, buyingPower, map[], Calls(SplitStream(Concat(chunks)).0, clocks)).2
  {
    hide EngineTable.Sound, EngineTable.View, ExchangeOk, Faithful, Servable, RunInProcess, SplitStream,
         WellFormedStream;
    var risk := new RiskDispatcher(config, accountId, buyingPower, split);
    var remote := new RemoteOrderProcessor(risk, split);
    var gateway := new MessageDispatcher(Remote(remote));
    var session := new GatewaySession(gateway);
    session.Serve(chunks, clocks);
    written := session.written;
  }

  /** The same bytes to a gateway with everything in its own process. */
  method ServeLocally(
      config: RiskConfig, accountId: Bytes, buyingPower: Int64, chunks: seq<Bytes>, clocks: nat -> Clock)
    returns (written: seq<Bytes>)
    requires WellFormedStream(Concat(chunks))
    requires Servable(config, buyingPower, map[], Calls(SplitStream(Concat(chunks)).0, clocks))
    ensures written == RunInProcess(config, buyingPower, map[], Calls(SplitStream(Concat(chunks)).0, clocks)).2
  {
    hide EngineTable.Sound, EngineTable.View, ExchangeOk, Servable, RunInProcess, SplitStream, WellFormedStream;
    var local := new InProcessOrderProcessor(config, accountId, buyingPower);
    var gateway := new MessageDispatcher(InProcess(local));
    var session := new GatewaySession(gateway);
    session.Serve(chunks, clocks);
    written := session.written;
  }

  // ---------- The account ----------

  /** The process's run is the run of the ledger: same buying power, same engines. */
  lemma {:induction false} RunSettles(config: RiskConfig, b: Books, calls: seq<Call>)
    ensures var run := RunInProcess(config, b.buyingPower, b.engines, calls);
            var settled := SettleAll(config, b, EventsOf(calls));
            run.0 == settled.buyingPower && run.1 == settled.engines
    decreases |calls|
  {
    hide ParseRequest, Process, Wrap, Slip;
    if calls != [] {
      var f := calls[0].frame;
      if !IsRequestType(f.kind) || ParseRequest(f).None? {
        RunSettles(config, b, calls[1..]);
      } else {
        var event := Event(ParseRequest(f).value, calls[0].clock);
        RunSettles(config, Settle(config, b, event), calls[1..]);
        assert EventsOf(calls)[0] == event && EventsOf(calls)[1..] == EventsOf(calls[1..]);
      }
    }
  }

  /** Over prudent requests the account object never overspends. */
  method HandlePrudently(gateway: MessageDispatcher, calls: seq<Call>) returns (responses: seq<Bytes>)
    requires gateway.processor.Valid() && gateway.processor.Table().View() == map[]
    requires gateway.processor.Account().buyingPower >= 0
    requires Servable(gateway.processor.Config(), gateway.processor.Account().buyingPower, map[], calls)
    requires AllPrudent(gateway.processor.Config(), Opening(gateway.processor.Account().buyingPower), EventsOf(calls))
    modifies gateway.processor.Footprint()
    ensures gateway.processor.Valid()
    ensures var initial := old(gateway.processor.Account().buyingPower);
            var settled := SettleAll(gateway.processor.Config(), Opening(initial), EventsOf(calls));
            && gateway.processor.Account().buyingPower == settled.buyingPower >= 0
            && gateway.processor.Table().View() == settled.engines
            && Exposure(settled) <= initial
  {
    hide EngineTable.Sound, EngineTable.View, ExchangeOk, Servable, AllPrudent, RunInProcess, SettleAll, Exposure;
    ghost var initial: Int64 := gateway.processor.Account().buyingPower;
    assert initial < I64 by { assert IsI64(initial); }
    RunSettles(gateway.processor.Config(), Opening(initial), calls);
    EveryPrudentRunIsSolvent(gateway.processor.Config(), initial, EventsOf(calls));
    responses := HandleAll(gateway, calls);
  }

  // ---------- The published trades ----------

  /** A frame serves its request, if it holds one that can be read. */
  lemma FrameServes(v: Service, call: Call, calls: seq<Call>)
    requires AllFresh(v, EventsOf([call] + calls))
    ensures FreshFrame(v.engines, call.frame)
    ensures var v' := Service(MatchingHandle(v.engines, call.frame, call.clock).0,
                              v.published + MatchingPublishes(v.engines, call.frame, call.clock), []);
            && AllFresh(v', EventsOf(calls))
            && ServeAll(v, EventsOf([call] + calls)).engines == ServeAll(v', EventsOf(calls)).engines
            && ServeAll(v, EventsOf([call] + calls)).published == ServeAll(v', EventsOf(calls)).published
  {
    hide ParseRequest, Serve, Wrap, Text, FreshRequest;
    var f := call.frame;
    assert ([call] + calls)[0] == call && ([call] + calls)[1..] == calls;
    assert v.published + [] == v.published;
    var events := EventsOf(calls);
    if !IsRequestType(f.kind) || ParseRequest(f).None? {
      ResponsesAside(v, Service(v.engines, v.published, []), events);
    } else {
      var event := Event(ParseRequest(f).value, call.clock);
      assert ([event] + events)[0] == event && ([event] + events)[1..] == events;
      var served := ServeEvent(v, event);
      ResponsesAside(served, Service(served.engines, served.published, []), events);
    }
  }

  /** The responses recorded so far have no bearing on what follows. */
  lemma {:induction false} ResponsesAside(v: Service, w: Service, events: seq<Event>)
    requires v.engines == w.engines && v.published == w.published
    ensures AllFresh(v, events) <==> AllFresh(w, events)
    ensures ServeAll(v, events).engines == ServeAll(w, events).engines
    ensures ServeAll(v, events).published == ServeAll(w, events).published
    decreases |events|
  {
    hide Serve, FreshRequest;
    if events != [] {
      ResponsesAside(ServeEvent(v, events[0]), ServeEvent(w, events[0]), events[1..]);
    }
  }

  /**
    Any frames, one after another, through the matching service object: its engines and the trades it
    handed to the sink are those of the service run, about which the numbering is proved.
   */
  method PublishAlong(service: MatchingDispatcher, calls: seq<Call>)
    requires service.Valid()
    requires AllFresh(Service(service.table.View(), service.published, []), EventsOf(calls))
    modifies service, service.table.Repr
    ensures service.Valid()
    ensures var run := ServeAll(old(Service(service.table.View(), service.published, [])), EventsOf(calls));
            service.table.View() == run.engines && service.published == run.published
  {
    hide EngineTable.Sound, EngineTable.View, ExchangeOk, ServeAll, AllFresh, EventsOf, MatchingHandle,
         MatchingPublishes, FreshFrame;
    ghost var start := Service(service.table.View(), service.published, []);
    assert calls[0..] == calls;
    for i := 0 to |calls|
      invariant service.Valid() && fresh(service.table.Repr - old(service.table.Repr))
      invariant AllFresh(Service(service.table.View(), service.published, []), EventsOf(calls[i..]))
      invariant var now := Service(service.table.View(), service.published, []);
                && ServeAll(now, EventsOf(calls[i..])).engines == ServeAll(start, EventsOf(calls)).engines
                && ServeAll(now, EventsOf(calls[i..])).published == ServeAll(start, EventsOf(calls)).published
    {
      assert calls[i..] == [calls[i]] + calls[i + 1..];
      FrameServes(Service(service.table.View(), service.published, []), calls[i], calls[i + 1..]);
      var response := service.Handle(calls[i].frame, calls[i].clock);
    }
    assert calls[|calls|..] == [];
    NothingToServe(Service(service.table.View(), service.published, []));
  }

  lemma NothingToServe(v: Service)
    ensures ServeAll(v, EventsOf([])) == v
  {
  }
}
