/** The byte gate of the owner helper: frame recognition, fragment holding and the
    shared set of pending request ids, as one pure specification. */
module GateSpec {
  import opened Bytes

  const MAX_PAYLOAD := 65535
  const MAX_HEADER := 65536
  const MAX_CHUNK := 4 * 1024 * 1024

  datatype Reason =
    | WireChunk | HandshakeSize
    | Reserved | MaskDirection | BadLength | FrameTooLarge
    | FragmentStart | FragmentContinuation | MessageTooLarge | FrameOpcode
    | MessageRejected | ResponseIdMismatch | RpcIdReused

  /** What JSON decoding and the owner-thread contract say of one payload. */
  datatype Verdict = Invalid | WithoutId | WithId(id: int)

  datatype Gate = Gate(server: bool, classify: bytes -> Verdict)

  datatype Frame = Frame(fin: bool, opcode: nat, payload: bytes, raw: bytes)

  datatype Parsed = NeedMore | Bad(reason: Reason) | Complete(frame: Frame)

  /** The header of a frame: payload length and header size, or the reason to stop. */
  datatype Sized = SizeUnknown | SizeBad(why: Reason) | Size(length: nat, header: nat)

  function FrameSize(buf: bytes): (r: Sized)
    requires |buf| >= 2
    ensures r.Size? ==> r.length <= MAX_PAYLOAD && r.header in {2, 4, 10} && r.header <= |buf|
  {
    var code := buf[1] as int % 128;
    if code == 126 then
      if |buf| < 4 then SizeUnknown
      else
        var n := BigEndian(buf[2..4]);
        if n > MAX_PAYLOAD then SizeBad(FrameTooLarge) else Size(n, 4)
    else if code == 127 then
      if |buf| < 10 then SizeUnknown
      else if buf[2] >= 128 then SizeBad(BadLength)
      else
        var n := BigEndian(buf[2..10]);
        if n > MAX_PAYLOAD then SizeBad(FrameTooLarge) else Size(n, 10)
    else Size(code, 2)
  }

  /** Recognises one frame at the front of the buffer. */
  function ParseFrame(server: bool, buf: bytes): (r: Parsed)
    ensures r.Complete? ==>
              && 2 <= |r.frame.raw| <= |buf|
              && r.frame.raw == buf[..|r.frame.raw|]
              && |r.frame.payload| <= MAX_PAYLOAD
    ensures r.NeedMore? ==> |buf| < MAX_PAYLOAD + 14
  {
    if |buf| < 2 then NeedMore
    else if buf[0] as int / 16 % 8 != 0 then Bad(Reserved)
    else
      var masked := buf[1] >= 128;
      if masked == server then Bad(MaskDirection)
      else
        match FrameSize(buf)
        case SizeUnknown => NeedMore
        case SizeBad(why) => Bad(why)
        case Size(length, header) =>
          var start := header + if masked then 4 else 0;
          var total := start + length;
          if |buf| < total then NeedMore
          else
            var payload := if masked then Masked(buf[start..total], buf[header..start]) else buf[start..total];
            Complete(Frame(buf[0] >= 128, buf[0] as int % 16, payload, buf[..total]))
  }

  datatype GateState = GateState(
    buffer: bytes, handshakeDone: bool, fragmentPayload: bytes, fragmentFrames: seq<bytes>)

  const INITIAL := GateState([], false, [], [])

  /** The effect of a call: new gate state and pending ids, bytes released, and the
      payloads accepted on the way. A failure discards the output, not the rest. */
  datatype Outcome = Outcome(
    st: GateState, pending: set<int>, output: bytes, messages: seq<bytes>, failure: Option<Reason>)

  function Prepend(first: Outcome, second: Outcome): (r: Outcome) {
    second.(output := first.output + second.output, messages := first.messages + second.messages)
  }

  function Quiet(st: GateState, pending: set<int>, failure: Option<Reason>): Outcome {
    Outcome(st, pending, [], [], failure)
  }

  /** A complete message: validate, settle its id, release the held frames. */
  function CompleteMessage(g: Gate, st: GateState, pending: set<int>): (r: Outcome) {
    var payload := st.fragmentPayload;
    var released := Outcome(st.(fragmentPayload := [], fragmentFrames := []), pending,
                            Join(st.fragmentFrames), [payload], None);
    match g.classify(payload)
    case Invalid => Quiet(st, pending, Some(MessageRejected))
    case WithoutId => released
    case WithId(id) =>
      if g.server then
        if id !in pending then Quiet(st, pending, Some(ResponseIdMismatch))
        else released.(pending := pending - {id})
      else
        if id in pending then Quiet(st, pending, Some(RpcIdReused))
        else released.(pending := pending + {id})
  }

  /** One frame, already removed from the buffer. */
  function AcceptFrame(g: Gate, st: GateState, pending: set<int>, f: Frame): (r: Outcome)
    ensures r.st.buffer == st.buffer && r.st.handshakeDone == st.handshakeDone
  {
    var held := st.(fragmentPayload := st.fragmentPayload + f.payload,
                    fragmentFrames := st.fragmentFrames + [f.raw]);
    if f.opcode == 1 then
      if st.fragmentFrames != [] then Quiet(st, pending, Some(FragmentStart))
      else if f.fin then CompleteMessage(g, held, pending)
      else Quiet(held, pending, None)
    else if f.opcode == 0 then
      if st.fragmentFrames == [] then Quiet(st, pending, Some(FragmentContinuation))
      else if |held.fragmentPayload| > MAX_PAYLOAD then Quiet(held, pending, Some(MessageTooLarge))
      else if f.fin then CompleteMessage(g, held, pending)
      else Quiet(held, pending, None)
    else Quiet(st, pending, Some(FrameOpcode))
  }

  function Behind(st: GateState, f: Frame): (r: GateState)
    requires |f.raw| <= |st.buffer|
  {
    st.(buffer := st.buffer[|f.raw|..])
  }

  /** Every frame that the buffer completes, in order, up to the first failure. */
  function Drain(g: Gate, st: GateState, pending: set<int>): (r: Outcome)
    decreases |st.buffer|
  {
    match ParseFrame(g.server, st.buffer)
    case NeedMore => Quiet(st, pending, None)
    case Bad(reason) => Quiet(st, pending, Some(reason))
    case Complete(f) =>
      var one := AcceptFrame(g, Behind(st, f), pending, f);
      if one.failure.Some? then one else Prepend(one, Drain(g, one.st, one.pending))
  }

  predicate MarkerAt(b: bytes, i: int) {
    0 <= i && i + 4 <= |b| && b[i] == 13 && b[i + 1] == 10 && b[i + 2] == 13 && b[i + 3] == 10
  }

  /** Where the upgrade header ends: just behind the first blank line. */
  function HeaderEndFrom(b: bytes, i: nat): (r: Option<nat>)
    ensures r.Some? ==> 4 + i <= r.value <= |b| && MarkerAt(b, r.value - 4)
    ensures r.Some? ==> forall j :: i <= j < r.value - 4 ==> !MarkerAt(b, j)
    ensures r.None? ==> forall j :: i <= j ==> !MarkerAt(b, j)
    decreases |b| - i
  {
    if i + 4 > |b| then None
    else if MarkerAt(b, i) then Some(i + 4)
    else HeaderEndFrom(b, i + 1)
  }

  function HeaderEnd(b: bytes): (r: Option<nat>) {
    HeaderEndFrom(b, 0)
  }

  function AfterHeader(st: GateState, end: nat): (r: GateState)
    requires end <= |st.buffer|
  {
    st.(buffer := st.buffer[end..], handshakeDone := true)
  }

  /** One call of the gate. */
  function Feed(g: Gate, st: GateState, pending: set<int>, data: bytes): (r: Outcome) {
    if |data| > MAX_CHUNK then Quiet(st, pending, Some(WireChunk))
    else
      var fed := st.(buffer := st.buffer + data);
      if st.handshakeDone then Drain(g, fed, pending)
      else
        match HeaderEnd(fed.buffer)
        case None =>
          Quiet(fed, pending, if |fed.buffer| > MAX_HEADER then Some(HandshakeSize) else None)
        case Some(end) =>
          var rest := Drain(g, AfterHeader(fed, end), pending);
          rest.(output := fed.buffer[..end] + rest.output)
  }

  /** Successive calls, up to the first rejection. */
  function FeedAll(g: Gate, st: GateState, pending: set<int>, chunks: seq<bytes>): (r: Outcome)
    decreases |chunks|
  {
    if chunks == [] then Quiet(st, pending, None)
    else
      var one := Feed(g, st, pending, chunks[0]);
      if one.failure.Some? then one else Prepend(one, FeedAll(g, one.st, one.pending, chunks[1..]))
  }

  // ---------- what every call keeps ----------

  /** The held raw frames decode to exactly the held payload. */
  predicate Holds(server: bool, frames: seq<bytes>, payload: bytes)
    decreases |frames|
  {
    if frames == [] then payload == []
    else
      var last := ParseFrame(server, frames[|frames| - 1]);
      && last.Complete?
      && last.frame.raw == frames[|frames| - 1]
      && |last.frame.payload| <= |payload|
      && last.frame.payload == payload[|payload| - |last.frame.payload|..]
      && Holds(server, frames[..|frames| - 1], payload[..|payload| - |last.frame.payload|])
  }

  predicate Bounded(st: GateState) {
    && |st.fragmentPayload| <= MAX_PAYLOAD
    && (st.handshakeDone ==> |st.buffer| < MAX_PAYLOAD + 14)
    && (!st.handshakeDone ==> |st.buffer| <= MAX_HEADER && st.fragmentFrames == [])
  }

  predicate Sound(g: Gate, st: GateState) {
    Bounded(st) && Holds(g.server, st.fragmentFrames, st.fragmentPayload)
  }

  /** Bytes taken in and not yet released. */
  function Retained(st: GateState): bytes {
    Join(st.fragmentFrames) + st.buffer
  }
}
