/** The objects that drive one end of a serial link. */
module SerialLink {
  import opened Bytes
  import opened LinkFrames
  import opened FrameCodec
  import opened Reliability
  import opened Messages
  import ByteStream

  /** Receiving frames one after another. */
  ghost function ReceiveFrames(s: State, frames: seq<Frame>, now: int): Received
    decreases frames
  {
    if frames == [] then Received(s, [], [])
    else
      var first := OnReceive(s, frames[0], now);
      var rest := ReceiveFrames(first.state, frames[1..], now);
      Received(rest.state, first.responses + rest.responses, first.delivered + rest.delivered)
  }

  /** `r` after `first` has been dealt with. */
  ghost predicate Continues(r: Received, responses: seq<Frame>, delivered: seq<bytes>, rest: Received) {
    r == Received(rest.state, responses + rest.responses, delivered + rest.delivered)
  }

  lemma ContinueWithFrame(r: Received, responses: seq<Frame>, delivered: seq<bytes>, s: State,
          frames: seq<Frame>, now: int)
    requires frames != [] && Continues(r, responses, delivered, ReceiveFrames(s, frames, now))
    ensures var first := OnReceive(s, frames[0], now);
      Continues(r, responses + first.responses, delivered + first.delivered,
                ReceiveFrames(first.state, frames[1..], now))
  {
    var first := OnReceive(s, frames[0], now);
    var rest := ReceiveFrames(first.state, frames[1..], now);
    Reassociate(responses, first.responses, rest.responses);
    Reassociate(delivered, first.delivered, rest.delivered);
  }

  /** Collects bytes, cuts frames out of them and feeds the reliability layer. */
  class SerialReader {
    const reliability: ReliabilityLayer
    var rxBuffer: bytes

    constructor (rto: nat, windowSize: nat)
      ensures fresh(reliability) && rxBuffer == []
      ensures reliability.St() == NewState(rto, windowSize)
    {
      reliability := new ReliabilityLayer(rto, windowSize);
      rxBuffer := [];
    }

    /** The next non-empty segment, if a delimiter has arrived for it. */
    method ExtractFrame() returns (frame: Option<bytes>)
      modifies this`rxBuffer
      ensures frame.None? ==> ByteStream.Segments(old(rxBuffer)) == ([], rxBuffer)
      ensures frame.Some? ==>
        && |rxBuffer| < |old(rxBuffer)|
        && ByteStream.Segments(old(rxBuffer))
           == ([frame.value] + ByteStream.Segments(rxBuffer).0, ByteStream.Segments(rxBuffer).1)
    {
      while 0 in rxBuffer
        invariant ByteStream.Segments(rxBuffer) == ByteStream.Segments(old(rxBuffer))
        invariant |rxBuffer| <= |old(rxBuffer)|
        decreases |rxBuffer|
      {
        var pos := ByteStream.FirstZero(rxBuffer);
        var segment := rxBuffer[..pos];
        ghost var rest := ByteStream.Segments(rxBuffer[pos + 1..]).0;
        assert [] + rest == rest;
        rxBuffer := rxBuffer[pos + 1..];
        if segment != [] {
          return Some(segment);
        }
      }
      return None;
    }

    /** What the frames in the buffer and the new bytes make of the layer's state. */
    ghost function Effect(data: bytes, now: int): Received
      reads this, reliability
    {
      ReceiveFrames(reliability.St(), ByteStream.DecodeAll(ByteStream.Feed(rxBuffer, data).0), now)
    }

    method Feed(data: bytes, now: int)
      returns (delivered: seq<bytes>, responses: seq<Frame>, retransmits: seq<Frame>, ghost order: seq<u16>)
      modifies this`rxBuffer, reliability
      ensures var r := old(Effect(data, now));
        && responses == r.responses && delivered == r.delivered
        && Lists(order, r.state.inflight.Keys)
        && reliability.St() == AfterPoll(r.state, now)
        && retransmits == Resent(r.state, now, order)
      ensures rxBuffer == ByteStream.Feed(old(rxBuffer), data).1
    {
      delivered, responses := Receive(data, now);
      retransmits, order := reliability.PollRetransmits(now);
    }

    method Receive(data: bytes, now: int) returns (delivered: seq<bytes>, responses: seq<Frame>)
      modifies this`rxBuffer, reliability
      ensures Received(reliability.St(), responses, delivered) == old(Effect(data, now))
      ensures rxBuffer == ByteStream.Feed(old(rxBuffer), data).1
    {
      Append(data);
      ghost var r, kept := Rest(now), ByteStream.Segments(rxBuffer).1;
      delivered, responses := [], [];
      assert Continues(r, responses, delivered, Rest(now));
      var segment := ExtractFrame();
      while segment.Some?
        invariant segment.Some? ==> Continues(r, responses, delivered, After(segment.value, now))
        invariant segment.None? ==> r == Received(reliability.St(), responses, delivered) && rxBuffer == kept
        invariant kept == ByteStream.Segments(rxBuffer).1
        decreases segment.Some?, |rxBuffer|
      {
        var payloads, answers := ReceiveSegment(segment.value, now, r, responses, delivered);
        delivered, responses := delivered + payloads, responses + answers;
        segment := ExtractFrame();
      }
    }

    method Append(data: bytes)
      modifies this`rxBuffer
      ensures ByteStream.Segments(rxBuffer) == ByteStream.Feed(old(rxBuffer), data)
    {
      rxBuffer := rxBuffer + data;
      if |rxBuffer| > ByteStream.GARBAGE_LIMIT && 0 !in rxBuffer {
        rxBuffer := [];
      }
    }

    /** What the frames still in the buffer will do. */
    ghost function Rest(now: int): Received
      reads this, reliability
    {
      ReceiveFrames(reliability.St(), ByteStream.DecodeAll(ByteStream.Segments(rxBuffer).0), now)
    }

    ghost function After(segment: bytes, now: int): Received
      reads this, reliability
    {
      ReceiveFrames(reliability.St(), ByteStream.DecodeAll([segment] + ByteStream.Segments(rxBuffer).0), now)
    }

    method ReceiveSegment(segment: bytes, now: int, ghost r: Received, ghost sofar: seq<Frame>, ghost got: seq<bytes>)
      returns (payloads: seq<bytes>, answers: seq<Frame>)
      requires Continues(r, sofar, got, After(segment, now))
      modifies reliability
      ensures Continues(r, sofar + answers, got + payloads, Rest(now))
    {
      payloads, answers := [], [];
      ghost var frames := ByteStream.DecodeAll(ByteStream.Segments(rxBuffer).0);
      FirstDecoded(segment, ByteStream.Segments(rxBuffer).0);
      var decoded := DecodeFrame(segment);
      if decoded.Ok? {
        ContinueWithFrame(r, sofar, got, reliability.St(), [decoded.frame] + frames, now);
        answers, payloads := reliability.Receive(decoded.frame, now);
        assert ([decoded.frame] + frames)[1..] == frames;
      } else {
        assert [] + frames == frames && sofar + [] == sofar && got + [] == got;
      }
    }
  }

  lemma FirstDecoded(segment: bytes, rest: seq<bytes>)
    ensures var r := DecodeFrame(segment);
      ByteStream.DecodeAll([segment] + rest) == (if r.Ok? then [r.frame] else []) + ByteStream.DecodeAll(rest)
  {
    assert ([segment] + rest)[1..] == rest;
  }

  /** Accepting pending fragments while the window has room. */
  function PumpAll(s: State, pending: seq<bytes>, now: int): (State, seq<bytes>, seq<Frame>)
    decreases pending
  {
    if pending == [] || !Accepts(s, pending[0]) then (s, pending, [])
    else
      var (t, left, frames) := PumpAll(AfterSend(s, pending[0], now), pending[1..], now);
      (t, left, [SentFrame(s, pending[0])] + frames)
  }

  /** One end of the link: its layer, the bytes not yet cut into frames, the fragments not yet sent, and
      the message not yet complete. */
  datatype Task = Task(st: State, window: nat, rx: bytes, pending: seq<bytes>, partial: bytes)

  /** What the task makes of an event: its new state, the frames it writes, the messages it emits. */
  datatype Outcome = Outcome(task: Task, frames: seq<Frame>, messages: seq<bytes>)

  function Pumped(t: Task, now: int): Outcome {
    var (st, left, frames) := PumpAll(t.st, t.pending, now);
    Outcome(t.(st := st, pending := left), frames, [])
  }

  /** What the frames completed by some bytes make of the layer. */
  ghost function Heard(t: Task, raw: bytes, now: int): Received {
    ReceiveFrames(t.st, ByteStream.DecodeAll(ByteStream.Feed(t.rx, raw).0), now)
  }

  /** `order` is the order in which the table is walked for retransmissions. */
  ghost predicate Walks(st: State, order: seq<u16>) {
    Lists(order, st.inflight.Keys)
  }

  ghost function Read(t: Task, raw: bytes, now: int, order: seq<u16>): Outcome
    requires Walks(Heard(t, raw, now).state, order)
  {
    var r := Heard(t, raw, now);
    var joined := Join(t.partial, r.delivered);
    Outcome(t.(st := AfterPoll(r.state, now), rx := ByteStream.Feed(t.rx, raw).1, partial := joined.partial),
            r.responses + Resent(r.state, now, order), joined.messages)
  }

  function Queued(t: Task, msg: bytes): Task {
    if |t.pending| < t.window * 4 then t.(pending := t.pending + Fragments(msg)) else t
  }

  ghost function Ticked(t: Task, now: int, order: seq<u16>): Outcome
    requires Walks(t.st, order)
  {
    Outcome(t.(st := AfterPoll(t.st, now)), Resent(t.st, now, order), [])
  }

  /** The state of the link task. */
  class LinkTask {
    const reader: SerialReader
    const window: nat
    var pending: seq<bytes>
    var reassembly: bytes

    ghost function St(): Task
      reads this, reader, reader.reliability
    {
      Task(reader.reliability.St(), window, reader.rxBuffer, pending, reassembly)
    }

    constructor (rto: nat, window: nat)
      ensures fresh(reader) && fresh(reader.reliability)
      ensures St() == Task(NewState(rto, window), window, [], [], [])
    {
      reader := new SerialReader(rto, window);
      this.window := window;
      pending, reassembly := [], [];
    }

    /** The frames to write before waiting for the next event. */
    method Pump(now: int) returns (frames: seq<Frame>)
      modifies this`pending, reader.reliability
      ensures Outcome(St(), frames, []) == Pumped(old(St()), now)
    {
      frames := [];
      ghost var all := PumpAll(reader.reliability.St(), pending, now);
      assert [] + all.2 == all.2;
      while pending != []
        invariant var (s, left, more) := PumpAll(reader.reliability.St(), pending, now);
          all == (s, left, frames + more)
        decreases |pending|
      {
        ghost var more := PumpAll(reader.reliability.St(), pending, now).2;
        var frame := reader.reliability.PrepareSend(pending[0], now);
        if frame.None? {
          break;
        }
        Reassociate(frames, [frame.value], more[1..]);
        frames := frames + [frame.value];
        pending := pending[1..];
      }
      assert frames + [] == frames;
    }

    /** Bytes from the port: what to write, and the messages completed. */
    method OnRaw(raw: bytes, now: int) returns (frames: seq<Frame>, messages: seq<bytes>, ghost order: seq<u16>)
      modifies this`reassembly, reader`rxBuffer, reader.reliability
      ensures Walks(old(Heard(St(), raw, now)).state, order)
      ensures Outcome(St(), frames, messages) == Read(old(St()), raw, now, order)
    {
      var delivered, responses, retransmits;
      delivered, responses, retransmits, order := reader.Feed(raw, now);
      frames := responses + retransmits;
      messages := JoinPayloads(delivered);
    }

    method JoinPayloads(delivered: seq<bytes>) returns (messages: seq<bytes>)
      modifies this`reassembly
      ensures Joined(reassembly, messages) == Join(old(reassembly), delivered)
    {
      messages := [];
      ghost var all := Join(reassembly, delivered);
      assert delivered[0..] == delivered;
      for i := 0 to |delivered|
        invariant var rest := Join(reassembly, delivered[i..]);
          all == Joined(rest.partial, messages + rest.messages)
      {
        var payload := delivered[i];
        assert delivered[i..][0] == payload && delivered[i..][1..] == delivered[i + 1..];
        ghost var first := Join1(reassembly, payload);
        Reassociate(messages, first.messages, Join(first.partial, delivered[i + 1..]).messages);
        if payload == [] {
          assert messages + [] == messages;
          continue;
        }
        var flag, data := payload[0], payload[1..];
        if |reassembly| + |data| > MAX_MESSAGE_BYTES {
          assert messages + [] == messages;
          reassembly := [];
          continue;
        }
        reassembly := reassembly + data;
        if flag == FRAG_LAST {
          messages := messages + [reassembly];
          reassembly := [];
        } else {
          assert messages + [] == messages;
        }
      }
      assert messages + [] == messages;
    }

    /** A message from the application, taken only while the backlog is short. */
    method OnOutbound(msg: bytes) returns (taken: bool)
      modifies this`pending
      ensures taken <==> old(|pending|) < window * 4
      ensures St() == Queued(old(St()), msg)
    {
      taken := |pending| < window * 4;
      if taken {
        pending := pending + Fragments(msg);
      }
    }

    /** The periodic tick: retransmissions, and whether the link is lost. */
    method OnTick(now: int) returns (frames: seq<Frame>, lost: bool, ghost order: seq<u16>)
      modifies reader.reliability
      ensures Walks(old(reader.reliability.St()), order)
      ensures Outcome(St(), frames, []) == Ticked(old(St()), now, order)
      ensures lost == St().st.failed
    {
      frames, order := reader.reliability.PollRetransmits(now);
      lost := reader.reliability.failed;
    }
  }
}
