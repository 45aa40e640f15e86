/** Length-prefixed frames, their reassembly from a byte stream, and the two ends of a connection. */
module Frames {
  import opened Types
  import opened Sequences
  import opened Codec
  import opened ByteIO

  datatype Frame = Frame(kind: Byte, payload: Bytes)

  datatype Decoded = Decoded(frame: Frame, bytesConsumed: nat)

  /** The length covers the type byte and the payload, cast to 32 bits. */
  function EncodeFrame(f: Frame): Bytes {
    PutU32(|f.payload| + 1, PutU8(f.kind, f.payload))
  }

  /** Payloads whose length field does not wrap. */
  predicate FrameFits(f: Frame) {
    |f.payload| + 1 < U32
  }

  method EncodeFrameBytes(f: Frame) returns (bytes: Bytes)
    ensures bytes == EncodeFrame(f)
  {
    var header := new ByteWriter();
    hide BigEndian;
    header.WriteUInt32((|f.payload| + 1) % U32, PutU8(f.kind, f.payload));
    header.WriteUInt8(f.kind, f.payload);
    bytes := header.buffer + f.payload;
  }

  /** A zero length prefix makes the decoder read outside the frame: the code relies on never seeing one. */
  predicate Defined(buffer: Bytes) {
    |buffer| >= 4 ==> FromBigEndian(buffer[..4]) >= 1
  }

  /** One complete frame from the front of the buffer; None while it has not all arrived. */
  function TryDecodeFrame(buffer: Bytes): Option<Decoded>
    requires Defined(buffer)
  {
    if |buffer| < 4 then None
    else
      var total := 4 + FromBigEndian(buffer[..4]);
      if |buffer| < total then None
      else Some(Decoded(Frame(buffer[4], buffer[5..total]), total))
  }

  // ---------- One frame ----------

  lemma FrameRoundTrip(f: Frame, rest: Bytes)
    requires FrameFits(f)
    ensures Defined(EncodeFrame(f) + rest)
    ensures TryDecodeFrame(EncodeFrame(f) + rest) == Some(Decoded(f, |EncodeFrame(f)|))
  {
    var s := EncodeFrame(f);
    ReadU32(|f.payload| + 1, PutU8(f.kind, f.payload));
    assert (s + rest)[..4] == s[..4];
    assert s[4..] == [f.kind] + f.payload;
    assert (s + rest)[5..|s|] == f.payload;
  }

  /** What is decoded is exactly what the sender would encode again. */
  lemma FrameCanonical(buffer: Bytes)
    requires Defined(buffer) && TryDecodeFrame(buffer).Some?
    ensures var d := TryDecodeFrame(buffer).value;
            && FrameFits(d.frame)
            && 0 < d.bytesConsumed <= |buffer|
            && buffer[..d.bytesConsumed] == EncodeFrame(d.frame)
  {
    CanonU32(buffer);
    var d := TryDecodeFrame(buffer).value;
    assert buffer[..d.bytesConsumed] == buffer[..4] + [buffer[4]] + buffer[5..d.bytesConsumed];
    CanonU32(buffer[..4]);
  }

  /** A frame survives exactly when its length field does not wrap around. */
  lemma FrameRoundTripIff(f: Frame, rest: Bytes)
    ensures var s := EncodeFrame(f) + rest;
            Defined(s) && TryDecodeFrame(s) == Some(Decoded(f, |EncodeFrame(f)|)) <==> FrameFits(f)
  {
    hide EncodeFrame, FrameFits, Defined, TryDecodeFrame;
    var s := EncodeFrame(f) + rest;
    if FrameFits(f) {
      FrameRoundTrip(f, rest);
    } else if Defined(s) && TryDecodeFrame(s).Some? {
      FrameCanonical(s);
    }
  }

  lemma PartialFrameWaits(f: Frame, p: Bytes)
    requires FrameFits(f) && p < EncodeFrame(f)
    ensures Defined(p) && TryDecodeFrame(p) == None
  {
    FrameRoundTrip(f, []);
    var s := EncodeFrame(f);
    assert s + [] == s;
    if |p| >= 4 {
      assert p[..4] == s[..4];
    }
  }

  // ---------- A stream of frames ----------

  ghost predicate WellFormedStream(s: Bytes)
    decreases |s|
  {
    && Defined(s)
    && (TryDecodeFrame(s).Some? ==> WellFormedStream(s[TryDecodeFrame(s).value.bytesConsumed..]))
  }

  /** All complete frames of a stream, and the bytes of the incomplete one behind them. */
  ghost function SplitStream(s: Bytes): (seq<Frame>, Bytes)
    requires WellFormedStream(s)
    decreases |s|
  {
    var d := TryDecodeFrame(s);
    if d.None? then ([], s)
    else
      var (frames, left) := SplitStream(s[d.value.bytesConsumed..]);
      ([d.value.frame] + frames, left)
  }

  lemma DecodeExtends(a: Bytes, b: Bytes)
    requires Defined(a + b)
    ensures Defined(a)
    ensures TryDecodeFrame(a).Some? ==> TryDecodeFrame(a + b) == TryDecodeFrame(a)
  {
    if |a| >= 4 {
      assert (a + b)[..4] == a[..4];
      var total := 4 + FromBigEndian(a[..4]);
      if |a| >= total {
        assert (a + b)[5..total] == a[5..total];
      }
    }
  }

  /** Decoding what has arrived, then the leftover with what comes next, is decoding the whole. */
  lemma {:induction false} SplitAppend(a: Bytes, b: Bytes)
    requires WellFormedStream(a + b)
    ensures WellFormedStream(a)
    ensures WellFormedStream(SplitStream(a).1 + b)
    ensures SplitStream(a + b)
         == (SplitStream(a).0 + SplitStream(SplitStream(a).1 + b).0, SplitStream(SplitStream(a).1 + b).1)
    decreases |a|
  {
    hide TryDecodeFrame, Defined, EncodeFrame;
    DecodeExtends(a, b);
    if TryDecodeFrame(a).Some? {
      FrameCanonical(a);
      var n := TryDecodeFrame(a).value.bytesConsumed;
      assert (a + b)[n..] == a[n..] + b;
      SplitAppend(a[n..], b);
      var f := TryDecodeFrame(a).value.frame;
      var (fa, la) := SplitStream(a[n..]);
      assert ([f] + fa) + SplitStream(la + b).0 == [f] + (fa + SplitStream(la + b).0);
    } else {
      assert [] + SplitStream(a + b).0 == SplitStream(a + b).0;
    }
  }

  /** A stream of encoded frames splits into those frames, with nothing left over. */
  lemma {:induction false} SplitEncoded(frames: seq<Frame>, rest: Bytes)
    requires forall f <- frames :: FrameFits(f)
    requires Defined(rest) && TryDecodeFrame(rest) == None
    ensures WellFormedStream(EncodeAll(frames) + rest)
    ensures SplitStream(EncodeAll(frames) + rest) == (frames, rest)
  {
    if frames == [] {
      assert EncodeAll(frames) + rest == rest;
    } else {
      var tail := EncodeAll(frames[1..]) + rest;
      assert EncodeAll(frames) + rest == EncodeFrame(frames[0]) + tail;
      FrameRoundTrip(frames[0], tail);
      assert [frames[0]] + frames[1..] == frames;
      SplitEncoded(frames[1..], rest);
      assert (EncodeFrame(frames[0]) + tail)[|EncodeFrame(frames[0])|..] == tail;
    }
  }

  function EncodeAll(frames: seq<Frame>): Bytes {
    if frames == [] then [] else EncodeFrame(frames[0]) + EncodeAll(frames[1..])
  }

  // ---------- The server end ----------

  /** A handler may keep state: its answer can depend on every frame it was called with before. */
  type Handler = (seq<Frame>, Frame) -> Bytes

  function Answers(handler: Handler, past: seq<Frame>, frames: seq<Frame>): seq<Bytes>
    decreases |frames|
  {
    if frames == [] then []
    else [handler(past, frames[0])] + Answers(handler, past + [frames[0]], frames[1..])
  }

  lemma NoAnswers(handler: Handler, past: seq<Frame>)
    ensures Answers(handler, past, []) == []
  {
  }

  lemma OneAnswer(handler: Handler, past: seq<Frame>, f: Frame)
    ensures Answers(handler, past, [f]) == [handler(past, f)]
  {
    assert Answers(handler, past + [f], []) == [];
  }

  lemma {:induction false} AnswersConcat(handler: Handler, past: seq<Frame>, a: seq<Frame>, b: seq<Frame>)
    ensures Answers(handler, past, a + b) == Answers(handler, past, a) + Answers(handler, past + a, b)
    decreases |a|
  {
    if a == [] {
      assert a + b == b && past + a == past;
    } else {
      assert (a + b)[1..] == a[1..] + b;
      assert (past + [a[0]]) + a[1..] == past + a;
      AnswersConcat(handler, past + [a[0]], a[1..], b);
    }
  }

  class FrameSession {
    const handler: Handler
    var inbox: Bytes
    /** The frames the handler was called with, and the responses written back, in order. */
    var handled: seq<Frame>
    var written: seq<Bytes>

    constructor (handler: Handler)
      ensures this.handler == handler && inbox == [] && handled == [] && written == []
    {
      this.handler := handler;
      inbox, handled, written := [], [], [];
    }

    method ProcessCompleteFrames()
      requires WellFormedStream(inbox)
      modifies this
      ensures handled == old(handled) + SplitStream(old(inbox)).0
      ensures inbox == SplitStream(old(inbox)).1
      ensures written == old(written) + Answers(handler, old(handled), SplitStream(old(inbox)).0)
    {
      hide TryDecodeFrame, Defined, Answers, EncodeFrame, FrameFits;
      ghost var all := SplitStream(inbox).0;
      ghost var done: seq<Frame> := [];
      assert handled + done == handled && done + all == all;
      NoAnswers(handler, handled);
      while true
        invariant WellFormedStream(inbox)
        invariant all == done + SplitStream(inbox).0
        invariant SplitStream(inbox).1 == SplitStream(old(inbox)).1
        invariant handled == old(handled) + done
        invariant written == old(written) + Answers(handler, old(handled), done)
        decreases |inbox|
      {
        var decoded := TryDecodeFrame(inbox);
        if decoded.None? {
          assert done + [] == done;
          break;
        }
        FrameCanonical(inbox);
        var frame := decoded.value.frame;
        var response := handler(handled, frame);
        OneAnswer(handler, handled, frame);
        inbox := inbox[decoded.value.bytesConsumed..];
        AnswersConcat(handler, old(handled), done, [frame]);
        written := written + [response];
        handled := handled + [frame];
        done := done + [frame];
      }
    }

    /** One read: the bytes are appended, then every complete frame is handled. */
    method Receive(chunk: Bytes)
      requires WellFormedStream(inbox + chunk)
      modifies this
      ensures var (frames, left) := SplitStream(old(inbox) + chunk);
              && handled == old(handled) + frames
              && inbox == left
              && written == old(written) + Answers(handler, old(handled), frames)
    {
      inbox := inbox + chunk;
      ProcessCompleteFrames();
    }

    /** However the stream is cut into reads, the same frames are handled and the same answers written. */
    method ReadLoop(chunks: seq<Bytes>)
      requires WellFormedStream(inbox + Concat(chunks))
      requires Defined(inbox) && TryDecodeFrame(inbox).None?
      modifies this
      ensures Defined(inbox) && TryDecodeFrame(inbox).None?
      ensures var (frames, left) := SplitStream(old(inbox) + Concat(chunks));
              && handled == old(handled) + frames
              && inbox == left
              && written == old(written) + Answers(handler, old(handled), frames)
    {
      hide TryDecodeFrame, Defined, SplitStream, WellFormedStream, Answers;
      ghost var stream := inbox + Concat(chunks);
      Undecodable(inbox);
      ghost var all, left := SplitStream(stream).0, SplitStream(stream).1;
      ghost var done: seq<Frame> := [];
      assert handled + done == handled && done + all == all;
      NoAnswers(handler, handled);
      assert written + [] == written;
      assert chunks[0..] == chunks;
      for i := 0 to |chunks|
        invariant WellFormedStream(inbox + Concat(chunks[i..]))
        invariant all == done + SplitStream(inbox + Concat(chunks[i..])).0
        invariant left == SplitStream(inbox + Concat(chunks[i..])).1
        invariant Defined(inbox) && TryDecodeFrame(inbox).None?
        invariant handled == old(handled) + done
        invariant written == old(written) + Answers(handler, old(handled), done)
      {
        ghost var next := inbox + chunks[i];
        ghost var later := Concat(chunks[i + 1..]);
        assert chunks[i..][1..] == chunks[i + 1..];
        assert inbox + Concat(chunks[i..]) == next + later;
        SplitAppend(next, later);
        ghost var frames := SplitStream(next).0;
        AnswersConcat(handler, old(handled), done, frames);
        LeftoverIsIncomplete(next);
        Undecodable(SplitStream(next).1);
        Receive(chunks[i]);
        assert (done + frames) + SplitStream(inbox + later).0 == done + (frames + SplitStream(inbox + later).0);
        done := done + frames;
      }
      assert inbox + Concat(chunks[|chunks|..]) == inbox;
      Undecodable(inbox);
      assert done + [] == done;
    }
  }

  lemma {:induction false} LeftoverIsIncomplete(s: Bytes)
    requires WellFormedStream(s)
    ensures Defined(SplitStream(s).1) && TryDecodeFrame(SplitStream(s).1).None?
    decreases |s|
  {
    if TryDecodeFrame(s).Some? {
      LeftoverIsIncomplete(s[TryDecodeFrame(s).value.bytesConsumed..]);
    }
  }

  lemma Undecodable(s: Bytes)
    requires Defined(s) && TryDecodeFrame(s).None?
    ensures WellFormedStream(s) && SplitStream(s) == ([], s)
  {
  }

  // ---------- The client end ----------

  class SyncTcpClient {
    var inbox: Bytes

    constructor ()
      ensures inbox == []
    {
      inbox := [];
    }

    /**
      Reads until one full response is buffered. `arrivals` are the successive results of read_some; the
      call blocks for ever unless a full response arrives, so that is required here.
     */
    method SendAndReceive(arrivals: seq<Bytes>) returns (response: Frame, used: nat)
      requires Defined(inbox + Concat(arrivals)) && TryDecodeFrame(inbox + Concat(arrivals)).Some?
      modifies this
      ensures used <= |arrivals|
      ensures var d := TryDecodeFrame(old(inbox) + Concat(arrivals)).value;
              && response == d.frame
              && inbox + Concat(arrivals[used..]) == (old(inbox) + Concat(arrivals))[d.bytesConsumed..]
    {
      ghost var stream := inbox + Concat(arrivals);
      used := 0;
      while true
        invariant used <= |arrivals|
        invariant inbox + Concat(arrivals[used..]) == stream
        decreases |arrivals| - used
      {
        DecodeExtends(inbox, Concat(arrivals[used..]));
        if used == |arrivals| {
          assert inbox + Concat(arrivals[used..]) == inbox;
        }
        var decoded := TryDecodeFrame(inbox);
        if decoded.Some? {
          inbox := inbox[decoded.value.bytesConsumed..];
          return decoded.value.frame, used;
        }
        assert arrivals[used..][1..] == arrivals[used + 1..];
        inbox := inbox + arrivals[used];
        used := used + 1;
      }
    }
  }
}
