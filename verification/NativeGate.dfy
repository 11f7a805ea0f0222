/** The gate as the relay runs it: an object that edits its buffer, its fragment list and a
    pending set shared with the gate of the opposite direction. */
module NativeGate {
  import opened Bytes
  import opened GateSpec
  import GateLaws

  class PendingIds {
    var ids: set<int>

    constructor ()
      ensures ids == {}
    {
      ids := {};
    }
  }

  datatype Fed = Released(out: bytes) | Rejected(reason: Reason)

  class NativeWebSocketGate {
    const gate: Gate
    const pending: PendingIds
    var buffer: bytes
    var handshakeDone: bool
    var fragmentPayload: bytes
    var fragmentFrames: seq<bytes>

    constructor (gate: Gate, pending: PendingIds)
      ensures this.gate == gate && this.pending == pending && State() == INITIAL
    {
      this.gate, this.pending := gate, pending;
      buffer, handshakeDone, fragmentPayload, fragmentFrames := [], false, [], [];
    }

    ghost function State(): GateState
      reads this
    {
      GateState(buffer, handshakeDone, fragmentPayload, fragmentFrames)
    }

    /** Takes one complete frame off the buffer, if there is one. */
    method TakeFrame() returns (parsed: Parsed)
      modifies this`buffer
      ensures parsed == ParseFrame(gate.server, old(buffer))
      ensures buffer == if parsed.Complete? then old(buffer)[|parsed.frame.raw|..] else old(buffer)
    {
      parsed := ParseFrame(gate.server, buffer);
      if parsed.Complete? {
        buffer := buffer[|parsed.frame.raw|..];
      }
    }

    /** Validates the held message, settles its id and hands its frames over. */
    method Finish() returns (r: Fed)
      modifies this, pending
      ensures var spec := CompleteMessage(gate, old(State()), old(pending.ids));
              && State() == spec.st && pending.ids == spec.pending
              && r == if spec.failure.Some? then Rejected(spec.failure.value) else Released(spec.output)
    {
      var verdict := gate.classify(fragmentPayload);
      if verdict.Invalid? { return Rejected(MessageRejected); }
      if verdict.WithId? {
        var id := verdict.id;
        if gate.server {
          if id !in pending.ids { return Rejected(ResponseIdMismatch); }
          pending.ids := pending.ids - {id};
        } else {
          if id in pending.ids { return Rejected(RpcIdReused); }
          pending.ids := pending.ids + {id};
        }
      }
      var frames := fragmentFrames;
      fragmentFrames, fragmentPayload := [], [];
      r := Released(Join(frames));
    }

    /** One frame: hold it, and finish the message when it is the last fragment. */
    method Take(f: Frame) returns (r: Fed)
      modifies this, pending
      ensures var spec := AcceptFrame(gate, old(State()), old(pending.ids), f);
              && State() == spec.st && pending.ids == spec.pending
              && r == if spec.failure.Some? then Rejected(spec.failure.value) else Released(spec.output)
    {
      if f.opcode == 1 {
        if fragmentFrames != [] { return Rejected(FragmentStart); }
        assert fragmentFrames + [f.raw] == [f.raw];
        fragmentPayload, fragmentFrames := fragmentPayload + f.payload, [f.raw];
      } else if f.opcode == 0 {
        if fragmentFrames == [] { return Rejected(FragmentContinuation); }
        fragmentPayload, fragmentFrames := fragmentPayload + f.payload, fragmentFrames + [f.raw];
        if |fragmentPayload| > MAX_PAYLOAD { return Rejected(MessageTooLarge); }
      } else {
        return Rejected(FrameOpcode);
      }
      if f.fin {
        r := Finish();
      } else {
        r := Released([]);
      }
    }

    /** The frame loop of one call. */
    method TakeFrames() returns (r: Fed)
      modifies this, pending
      ensures var spec := Drain(gate, old(State()), old(pending.ids));
              && State() == spec.st && pending.ids == spec.pending
              && r == if spec.failure.Some? then Rejected(spec.failure.value) else Released(spec.output)
    {
      hide ParseFrame, AcceptFrame, CompleteMessage;
      var output: bytes := [];
      ghost var messages: seq<bytes> := [];
      ghost var goal := Drain(gate, State(), pending.ids);
      assert Prepend(Outcome(State(), {}, [], [], None), goal) == goal;
      while true
        invariant goal == Prepend(Outcome(State(), {}, output, messages, None), Drain(gate, State(), pending.ids))
        decreases |buffer|
      {
        ghost var before := State();
        ghost var ids := pending.ids;
        var parsed := TakeFrame();
        match parsed
        case NeedMore => assert before == State(); return Released(output);
        case Bad(reason) => assert before == State(); return Rejected(reason);
        case Complete(f) =>
          assert State() == Behind(before, f);
          ghost var one := AcceptFrame(gate, State(), ids, f);
          var released := Take(f);
          if released.Rejected? {
            return released;
          }
          GateLaws.PrependAssociative(Outcome(before, {}, output, messages, None), one,
                                      Drain(gate, one.st, one.pending));
          output := output + released.out;
          messages := messages + one.messages;
      }
    }

    /** One call of the gate. A rejection leaves the object as the exception left it. */
    method Feed(data: bytes) returns (r: Fed)
      modifies this, pending
      ensures var spec := GateSpec.Feed(gate, old(State()), old(pending.ids), data);
              && State() == spec.st && pending.ids == spec.pending
              && r == if spec.failure.Some? then Rejected(spec.failure.value) else Released(spec.output)
      ensures old(Sound(gate, State())) && r.Released? ==>
                && Sound(gate, State())
                && r.out + Retained(State()) == old(Retained(State())) + data
    {
      hide Drain, HeaderEndFrom, Sound, Retained;
      ghost var was, ids := State(), pending.ids;
      if |data| > MAX_CHUNK { return Rejected(WireChunk); }
      buffer := buffer + data;
      var output: bytes := [];
      if !handshakeDone {
        var marker := HeaderEnd(buffer);
        if marker.None? {
          if |buffer| > MAX_HEADER { return Rejected(HandshakeSize); }
          if Sound(gate, was) { GateLaws.FeedKeeps(gate, was, ids, data); }
          return Released([]);
        }
        output := buffer[..marker.value];
        buffer, handshakeDone := buffer[marker.value..], true;
      }
      r := TakeFrames();
      if r.Released? {
        r := Released(output + r.out);
        if Sound(gate, was) { GateLaws.FeedKeeps(gate, was, ids, data); }
      }
    }
  }
}
