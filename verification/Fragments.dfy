/** What the gate admits: streams of text messages, each cut into frames in any way that RFC 6455
    section 5 allows, in either direction. */
module Fragments {
  import opened Bytes
  import opened GateSpec
  import GateLaws

  /** The three ways to write a payload length: 7 bits, 2 octets, 8 octets. */
  datatype Form = Short | Medium | Long

  /** One frame's share of a message; only clients use the mask. */
  datatype Piece = Piece(part: bytes, mask: bytes, form: Form)

  predicate PieceOk(p: Piece) {
    |p.mask| == 4 && |p.part| <= MAX_PAYLOAD && (p.form.Short? ==> |p.part| < 126)
  }

  predicate PiecesOk(pieces: seq<Piece>) {
    forall i :: 0 <= i < |pieces| ==> PieceOk(pieces[i])
  }

  /** The length field, without the mask bit of its first octet. */
  function LengthField(p: Piece): (r: bytes)
    requires PieceOk(p)
  {
    var hi, lo := (|p.part| / 256) as byte, (|p.part| % 256) as byte;
    match p.form
    case Short => [|p.part| as byte]
    case Medium => [126, hi, lo]
    case Long => [127, 0, 0, 0, 0, 0, 0, hi, lo]
  }

  function FirstOctet(fin: bool, opcode: nat): (b: byte)
    requires opcode < 16
  {
    ((if fin then 128 else 0) + opcode) as byte
  }

  function Head(server: bool, fin: bool, opcode: nat, p: Piece): (r: bytes)
    requires PieceOk(p) && opcode < 16
  {
    var field := LengthField(p);
    [FirstOctet(fin, opcode), if server then field[0] else field[0] + 128] + field[1..]
  }

  /** The frame on the wire, section 5.2. */
  function Wire(server: bool, fin: bool, opcode: nat, p: Piece): (r: bytes)
    requires PieceOk(p) && opcode < 16
  {
    Head(server, fin, opcode, p) + if server then p.part else p.mask + Masked(p.part, p.mask)
  }

  lemma HeadRead(server: bool, fin: bool, opcode: nat, p: Piece, rest: bytes)
    requires PieceOk(p) && opcode < 16
    ensures var head := Head(server, fin, opcode, p);
            && |head| >= 2 && FrameSize(head + rest) == Size(|p.part|, |head|)
            && head[0] as int / 16 % 8 == 0 && head[0] as int % 16 == opcode
            && (head[0] >= 128 <==> fin) && (head[1] >= 128 <==> !server)
  {
    var head := Head(server, fin, opcode, p);
    var hi, lo := (|p.part| / 256) as byte, (|p.part| % 256) as byte;
    match p.form
    case Short =>
    case Medium =>
      FrontSlice(head, rest, 2, 4);
      assert head[2..4] == [hi, lo];
      BigEndianTwo(hi, lo);
    case Long =>
      FrontSlice(head, rest, 2, 10);
      assert head[2..10] == [0, 0, 0, 0, 0, 0, hi, lo];
      BigEndianEight([0, 0, 0, 0, 0, 0, hi, lo]);
  }

  /** A frame that is all there, by its header. */
  lemma AllThere(server: bool, raw: bytes, header: nat, n: nat)
    requires |raw| >= 2 && raw[0] as int / 16 % 8 == 0 && (raw[1] >= 128 <==> !server)
    requires FrameSize(raw) == Size(n, header) && |raw| == header + (if server then 0 else 4) + n
    ensures var start := header + if server then 0 else 4;
            ParseFrame(server, raw) ==
            Complete(Frame(raw[0] >= 128, raw[0] as int % 16,
                           if server then raw[start..] else Masked(raw[start..], raw[header..start]), raw))
  {
    hide FrameSize, Masked;
    assert raw[..|raw|] == raw;
    var start := header + if server then 0 else 4;
    assert raw[start..|raw|] == raw[start..];
  }

  /** The gate of the right direction reads every frame back, whatever follows it. */
  lemma WireParsed(server: bool, fin: bool, opcode: nat, p: Piece, rest: bytes)
    requires PieceOk(p) && opcode < 16
    ensures var raw := Wire(server, fin, opcode, p);
            ParseFrame(server, raw + rest) == Complete(Frame(fin, opcode, p.part, raw))
  {
    hide Masked, FrameSize, Head, ParseFrame;
    var head, raw := Head(server, fin, opcode, p), Wire(server, fin, opcode, p);
    var body := if server then p.part else p.mask + Masked(p.part, p.mask);
    HeadRead(server, fin, opcode, p, body);
    AllThere(server, raw, |head|, |p.part|);
    assert raw[|head|..] == body;
    if !server {
      MaskedInvolutive(p.part, p.mask);
      assert raw[|head|..|head| + 4] == p.mask;
      assert raw[|head| + 4..] == Masked(p.part, p.mask);
    }
    GateLaws.ParsePrefix(server, raw, rest);
  }

  // ---------- one message ----------

  function Payload(pieces: seq<Piece>): (r: bytes) {
    if pieces == [] then [] else pieces[0].part + Payload(pieces[1..])
  }

  /** The frames of a message: text first, continuations behind, the last one final. */
  function Raws(server: bool, started: bool, pieces: seq<Piece>): (r: seq<bytes>)
    requires PiecesOk(pieces)
    decreases |pieces|
  {
    if pieces == [] then []
    else [Wire(server, |pieces| == 1, if started then 0 else 1, pieces[0])] + Raws(server, true, pieces[1..])
  }

  function Taken(server: bool, st: GateState, pieces: seq<Piece>): (r: GateState)
    requires PiecesOk(pieces)
  {
    st.(fragmentPayload := st.fragmentPayload + Payload(pieces),
        fragmentFrames := st.fragmentFrames + Raws(server, st.fragmentFrames != [], pieces))
  }

  /** However a message is cut, the gate holds its frames until the last one and then judges the
      whole payload. */
  lemma {:induction false} MessageDrained(g: Gate, st: GateState, pending: set<int>, pieces: seq<Piece>, more: bytes)
    requires PiecesOk(pieces) && pieces != [] && (st.fragmentFrames == [] ==> st.fragmentPayload == [])
    requires |st.fragmentPayload| + |Payload(pieces)| <= MAX_PAYLOAD
    requires st.buffer == Join(Raws(g.server, st.fragmentFrames != [], pieces)) + more
    ensures var done := CompleteMessage(g, Taken(g.server, st, pieces).(buffer := more), pending);
            Drain(g, st, pending) == if done.failure.Some? then done else Prepend(done, Drain(g, done.st, done.pending))
    decreases |pieces|
  {
    hide ParseFrame, CompleteMessage, Wire;
    var p, rest := pieces[0], pieces[1..];
    var started := st.fragmentFrames != [];
    var opcode := if started then 0 else 1;
    var raw := Wire(g.server, |pieces| == 1, opcode, p);
    var raws := Raws(g.server, started, pieces);
    assert raws[0] == raw && raws[1..] == Raws(g.server, true, rest);
    var behind := Join(Raws(g.server, true, rest)) + more;
    Regroup(raw, Join(Raws(g.server, true, rest)), more);
    WireParsed(g.server, |pieces| == 1, opcode, p, behind);
    var f := Frame(|pieces| == 1, opcode, p.part, raw);
    assert st.buffer[|raw|..] == behind;
    assert Behind(st, f) == st.(buffer := behind);
    var held := st.(buffer := behind, fragmentPayload := st.fragmentPayload + p.part, fragmentFrames := st.fragmentFrames + [raw]);
    Regroup(st.fragmentPayload, p.part, Payload(rest));
    Regroup(st.fragmentFrames, [raw], Raws(g.server, true, rest));
    if rest == [] {
      assert behind == more;
      assert st.fragmentPayload + p.part == st.fragmentPayload + Payload(pieces);
      assert held == Taken(g.server, st, pieces).(buffer := more);
    } else {
      assert AcceptFrame(g, Behind(st, f), pending, f) == Quiet(held, pending, None);
      var tail := Drain(g, held, pending);
      assert Prepend(Quiet(held, pending, None), tail) == tail;
      MessageDrained(g, held, pending, rest, more);
      assert Taken(g.server, held, rest).(buffer := more) == Taken(g.server, st, pieces).(buffer := more);
    }
  }

  // ---------- a stream of messages ----------

  predicate MessageOk(pieces: seq<Piece>) {
    pieces != [] && PiecesOk(pieces) && |Payload(pieces)| <= MAX_PAYLOAD
  }

  predicate MessagesOk(ms: seq<seq<Piece>>) {
    forall i :: 0 <= i < |ms| ==> MessageOk(ms[i])
  }

  function Stream(server: bool, ms: seq<seq<Piece>>): (r: bytes)
    requires MessagesOk(ms)
  {
    if ms == [] then [] else Join(Raws(server, false, ms[0])) + Stream(server, ms[1..])
  }

  function Payloads(ms: seq<seq<Piece>>): (r: seq<bytes>)
    ensures |r| == |ms|
  {
    if ms == [] then [] else [Payload(ms[0])] + Payloads(ms[1..])
  }

  /** The pending ids behind these messages: a client's request adds its id, an answer of the
      server removes it. */
  function PendingAfter(g: Gate, pending: set<int>, payloads: seq<bytes>): (r: set<int>) {
    if payloads == [] then pending
    else
      var before := PendingAfter(g, pending, payloads[..|payloads| - 1]);
      match g.classify(payloads[|payloads| - 1])
      case WithId(id) => if g.server then before - {id} else before + {id}
      case _ => before
  }

  /** The contract admits a payload if it is valid and its id, if it has one, is pending on the
      server's side and not pending on the client's. */
  predicate Admits(g: Gate, pending: set<int>, payload: bytes) {
    match g.classify(payload)
    case Invalid => false
    case WithoutId => true
    case WithId(id) => id in pending <==> g.server
  }

  /** k is the length of the longest prefix of which every payload is admitted in its turn. */
  ghost predicate Admitted(g: Gate, pending: set<int>, payloads: seq<bytes>, k: nat) {
    && k <= |payloads|
    && (forall i :: 0 <= i < k ==> Admits(g, PendingAfter(g, pending, payloads[..i]), payloads[i]))
    && (k < |payloads| ==> !Admits(g, PendingAfter(g, pending, payloads[..k]), payloads[k]))
  }

  lemma {:induction false} PendingAfterFirst(g: Gate, pending: set<int>, first: bytes, rest: seq<bytes>)
    ensures PendingAfter(g, pending, [first] + rest) == PendingAfter(g, PendingAfter(g, pending, [first]), rest)
    decreases |rest|
  {
    var all := [first] + rest;
    if rest == [] {
      assert all == [first];
    } else {
      assert all[..|all| - 1] == [first] + rest[..|rest| - 1];
      PendingAfterFirst(g, pending, first, rest[..|rest| - 1]);
    }
  }

  lemma AdmittedNone(g: Gate, pending: set<int>, payloads: seq<bytes>)
    requires payloads != [] && !Admits(g, pending, payloads[0])
    ensures Admitted(g, pending, payloads, 0)
  {
    assert payloads[..0] == [];
  }

  lemma AdmittedMore(g: Gate, pending: set<int>, payloads: seq<bytes>, k: nat)
    requires payloads != [] && Admits(g, pending, payloads[0])
    requires Admitted(g, PendingAfter(g, pending, [payloads[0]]), payloads[1..], k)
    ensures Admitted(g, pending, payloads, k + 1)
  {
    hide Admits;
    var next, rest := PendingAfter(g, pending, [payloads[0]]), payloads[1..];
    forall i | 0 <= i < |payloads|
      ensures i == 0 ==> PendingAfter(g, pending, payloads[..i]) == pending
      ensures i > 0 ==> PendingAfter(g, pending, payloads[..i]) == PendingAfter(g, next, rest[..i - 1]) && payloads[i] == rest[i - 1]
    {
      if i > 0 {
        assert payloads[..i] == [payloads[0]] + rest[..i - 1];
        PendingAfterFirst(g, pending, payloads[0], rest[..i - 1]);
      }
    }
  }

  lemma CompletedExactly(g: Gate, st: GateState, pending: set<int>)
    ensures var done := CompleteMessage(g, st, pending);
            && (done.failure.None? <==> Admits(g, pending, st.fragmentPayload))
            && (if done.failure.Some? then done.messages == [] && done.pending == pending
                else done == Outcome(st.(fragmentPayload := [], fragmentFrames := []),
                                     PendingAfter(g, pending, [st.fragmentPayload]), Join(st.fragmentFrames), [st.fragmentPayload], None))
  {
    assert [st.fragmentPayload][..0] == [];
    hide Join;
  }

  /** One message at the front of an idle gate: released whole, with its id settled, or refused. */
  lemma OneMessage(g: Gate, st: GateState, pending: set<int>, pieces: seq<Piece>, more: bytes)
    requires MessageOk(pieces) && st.fragmentFrames == [] && st.fragmentPayload == []
    requires st.buffer == Join(Raws(g.server, false, pieces)) + more
    ensures var o, payload, behind := Drain(g, st, pending), Payload(pieces), st.(buffer := more);
            var next := PendingAfter(g, pending, [payload]);
            if Admits(g, pending, payload) then
              o == Prepend(Outcome(behind, next, Join(Raws(g.server, false, pieces)), [payload], None), Drain(g, behind, next))
            else o.failure.Some? && o.messages == [] && o.pending == pending
  {
    hide Drain, Join, Raws, Payload, CompleteMessage, Admits, PendingAfter;
    MessageDrained(g, st, pending, pieces, more);
    var full := Taken(g.server, st, pieces).(buffer := more);
    assert full.fragmentPayload == Payload(pieces) && full.fragmentFrames == Raws(g.server, false, pieces);
    CompletedExactly(g, full, pending);
  }

  lemma NothingToDrain(g: Gate, st: GateState, pending: set<int>)
    requires st.buffer == []
    ensures Drain(g, st, pending) == Quiet(st, pending, None)
  {
  }

  /** Exactly what the gate admits, in both directions and for every cutting of the messages into
      frames: it reads back the longest prefix of admitted payloads and settles their ids; and if
      all are admitted it releases the stream byte for byte and holds nothing back. */
  lemma {:induction false} AdmitsExactly(g: Gate, st: GateState, pending: set<int>, ms: seq<seq<Piece>>) returns (k: nat)
    requires MessagesOk(ms) && st.fragmentFrames == [] && st.fragmentPayload == [] && st.buffer == Stream(g.server, ms)
    ensures Admitted(g, pending, Payloads(ms), k)
    ensures var o := Drain(g, st, pending);
            && o.messages == Payloads(ms)[..k] && o.pending == PendingAfter(g, pending, Payloads(ms)[..k])
            && (o.failure.None? <==> k == |ms|)
            && (o.failure.None? ==> o.output == st.buffer && o.st == st.(buffer := []))
    decreases |ms|
  {
    if ms == [] {
      NothingToDrain(g, st, pending);
      k := 0;
    } else {
      var payloads, first, rest := Payloads(ms), ms[0], ms[1..];
      var behind := st.(buffer := Stream(g.server, rest));
      var raw := Join(Raws(g.server, false, first));
      assert st.buffer == raw + behind.buffer;
      assert payloads == [Payload(first)] + Payloads(rest);
      hide Drain, Join, Raws, Payload, Payloads, Admits, Admitted, PendingAfter, Stream;
      OneMessage(g, st, pending, first, behind.buffer);
      if Admits(g, pending, payloads[0]) {
        var next := PendingAfter(g, pending, [payloads[0]]);
        var j := AdmitsExactly(g, behind, next, rest);
        k := j + 1;
        AdmittedWithin(g, next, Payloads(rest), j);
        assert payloads[1..] == Payloads(rest);
        AdmittedMore(g, pending, payloads, j);
        assert payloads[..k] == [payloads[0]] + Payloads(rest)[..j];
        PendingAfterFirst(g, pending, payloads[0], Payloads(rest)[..j]);
      } else {
        k := 0;
        AdmittedNone(g, pending, payloads);
        NoneAfter(g, pending);
        assert payloads[..0] == [];
      }
    }
  }

  lemma AdmittedWithin(g: Gate, pending: set<int>, payloads: seq<bytes>, k: nat)
    requires Admitted(g, pending, payloads, k)
    ensures k <= |payloads|
  {
  }

  lemma NoneAfter(g: Gate, pending: set<int>)
    ensures PendingAfter(g, pending, []) == pending
  {
  }

  /** The same from the first byte on, however the transport cuts the stream into calls: an upgrade
      header that no cutting makes too long, and the messages behind it. */
  lemma StreamAdmitted(g: Gate, pending: set<int>, head: bytes, ms: seq<seq<Piece>>, chunks: seq<bytes>) returns (k: nat)
    requires MessagesOk(ms) && GateLaws.Deliverable(chunks)
    requires HeaderEnd(head) == Some(|head|) && |head| <= MAX_HEADER + 1 && Join(chunks) == head + Stream(g.server, ms)
    ensures Admitted(g, pending, Payloads(ms), k)
    ensures var o := FeedAll(g, INITIAL, pending, chunks);
            && o.messages == Payloads(ms)[..k] && o.pending == PendingAfter(g, pending, Payloads(ms)[..k])
            && (o.failure.None? <==> k == |ms|)
            && (o.failure.None? ==> o.output == Join(chunks) && o.st == INITIAL.(handshakeDone := true))
  {
    hide Drain, Admitted, PendingAfter, Payloads, HeaderEndFrom, FeedAll;
    var stream := Join(chunks);
    GateLaws.HeaderEndExtends(head, Stream(g.server, ms));
    GateLaws.CutExactly(g, pending, chunks);
    GateLaws.LateNeedsRoom(0, chunks, HeaderEnd(stream));
    var inside := GateLaws.Ideal(g, pending, stream);
    var st := AfterHeader(INITIAL.(buffer := stream), |head|);
    assert stream[|head|..] == Stream(g.server, ms) && stream[..|head|] == head;
    k := AdmitsExactly(g, st, pending, ms);
  }
}
