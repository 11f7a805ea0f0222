/** What the gate accepts is nothing but messages: every byte it releases, holds or waits on
    belongs to frames that section 5.2 of RFC 6455 allows, in their order. */
module GateReading {
  import opened Bytes
  import opened GateSpec
  import opened Fragments
  import GateLaws

  // ---------- one frame ----------

  /** The form of length field that a header of this size has. */
  function FormOf(header: nat): Form {
    if header == 2 then Short else if header == 4 then Medium else Long
  }

  lemma FirstIs(b: byte)
    requires b as int / 16 % 8 == 0
    ensures b as int % 16 < 16 && FirstOctet(b >= 128, b as int % 16) == b
  {
  }

  /** The length octets say the length, and nothing else does. */
  lemma FieldIs(raw: bytes, p: Piece)
    requires |raw| >= 2 && PieceOk(p) && FrameSize(raw).Size? && FrameSize(raw).length == |p.part| && p.form == FormOf(FrameSize(raw).header)
    ensures var field, header := LengthField(p), FrameSize(raw).header;
            |field| == header - 1 && raw[2..header] == field[1..] && raw[1] as int % 128 == field[0] as int
  {
    var header := FrameSize(raw).header;
    if header == 4 {
      assert raw[2..4] == [raw[2], raw[3]];
      BigEndianTwo(raw[2], raw[3]);
    } else if header == 10 {
      LongFieldIs(raw, |p.part|);
    }
  }

  lemma LongFieldIs(raw: bytes, n: nat)
    requires |raw| >= 10 && BigEndian(raw[2..10]) == n <= MAX_PAYLOAD
    ensures raw[2..10] == [0, 0, 0, 0, 0, 0, (n / 256) as byte, (n % 256) as byte]
  {
    hide BigEndian;
    var b := raw[2..10];
    BigEndianEight(b);
    assert b[0] == 0 && b[1] == 0 && b[2] == 0 && b[3] == 0 && b[4] == 0 && b[5] == 0;
  }

  /** The octets in front of mask and payload are exactly those of the length and the marks. */
  lemma HeadIs(server: bool, raw: bytes, p: Piece)
    requires |raw| >= 2 && PieceOk(p) && raw[0] as int / 16 % 8 == 0 && (raw[1] >= 128 <==> !server)
    requires FrameSize(raw).Size? && FrameSize(raw).length == |p.part| && p.form == FormOf(FrameSize(raw).header)
    ensures raw[..FrameSize(raw).header] == Head(server, raw[0] >= 128, raw[0] as int % 16, p)
  {
    hide FrameSize, LengthField, FirstOctet;
    FirstIs(raw[0]);
    FieldIs(raw, p);
    var header, field := FrameSize(raw).header, LengthField(p);
    assert raw[..header] == [raw[0], raw[1]] + raw[2..header];
  }

  /** Whatever the gate takes for a frame was written as one, with exactly these octets: the
      converse of reading back every frame. */
  lemma ParsedIsWire(server: bool, buf: bytes) returns (p: Piece)
    requires ParseFrame(server, buf).Complete?
    ensures var f := ParseFrame(server, buf).frame;
            f.opcode < 16 && PieceOk(p) && p.part == f.payload && f.raw == Wire(server, f.fin, f.opcode, p)
  {
    hide Masked, FrameSize, ParseFrame, Wire;
    var f := ParseFrame(server, buf).frame;
    ParsedParts(server, buf);
    var header := FrameSize(f.raw).header;
    var start := header + if server then 0 else 4;
    p := Piece(f.payload, if server then [0, 0, 0, 0] else f.raw[header..start], FormOf(header));
    WireOfParts(server, f.raw, p);
  }

  /** What a frame read off the buffer consists of. */
  lemma ParsedParts(server: bool, buf: bytes)
    requires ParseFrame(server, buf).Complete?
    ensures var f := ParseFrame(server, buf).frame;
            && |f.raw| >= 2 && f.raw[0] as int / 16 % 8 == 0 && (f.raw[1] >= 128 <==> !server)
            && f.fin == (f.raw[0] >= 128) && f.opcode == f.raw[0] as int % 16 && FrameSize(f.raw).Size?
            && var header, n := FrameSize(f.raw).header, FrameSize(f.raw).length;
               var start := header + if server then 0 else 4;
               && |f.raw| == start + n && (header == 2 ==> n < 126) && |f.payload| == n
               && f.payload == if server then f.raw[start..] else Masked(f.raw[start..], f.raw[header..start])
  {
    hide Masked, FrameSize;
    var header, n := FrameSize(buf).header, FrameSize(buf).length;
    var start := header + if server then 0 else 4;
    var raw := buf[..start + n];
    assert raw[start..] == buf[start..start + n] && raw[header..start] == buf[header..start];
    SameHeader(buf, start + n);
  }

  /** Head, mask and body together are the frame as written. */
  lemma WireOfParts(server: bool, raw: bytes, p: Piece)
    requires |raw| >= 2 && PieceOk(p) && raw[0] as int / 16 % 8 == 0 && (raw[1] >= 128 <==> !server)
    requires FrameSize(raw).Size? && FrameSize(raw).length == |p.part| && p.form == FormOf(FrameSize(raw).header)
    requires var header := FrameSize(raw).header;
             var start := header + if server then 0 else 4;
             && |raw| == start + |p.part|
             && if server then p.part == raw[start..] else p.mask == raw[header..start] && p.part == Masked(raw[start..], p.mask)
    ensures raw == Wire(server, raw[0] >= 128, raw[0] as int % 16, p)
  {
    hide Masked, FrameSize, Head, PieceOk;
    var header := FrameSize(raw).header;
    var start := header + if server then 0 else 4;
    HeadIs(server, raw, p);
    if server {
      assert raw == raw[..header] + raw[header..];
    } else {
      MaskedInvolutive(raw[start..], p.mask);
      assert raw == raw[..header] + (raw[header..start] + raw[start..]);
    }
  }

  lemma SameHeader(buf: bytes, total: nat)
    requires |buf| >= 2 && FrameSize(buf).Size? && FrameSize(buf).header <= total <= |buf|
    ensures total >= 2 && FrameSize(buf[..total]) == FrameSize(buf) && buf[..total][0] == buf[0] && buf[..total][1] == buf[1]
    ensures FrameSize(buf).header == 2 ==> FrameSize(buf).length < 126
  {
    var raw := buf[..total];
    if FrameSize(buf).header == 4 {
      assert raw[2..4] == buf[2..4];
    } else if FrameSize(buf).header == 10 {
      assert raw[2..10] == buf[2..10];
    }
  }

  /** What the gate refuses as a frame is none, nor the beginning of one, whatever follows. */
  lemma BadIsNone(server: bool, buf: bytes, fin: bool, opcode: nat, p: Piece, more: bytes, rest: bytes)
    requires ParseFrame(server, buf).Bad? && PieceOk(p) && opcode < 16
    ensures buf + more != Wire(server, fin, opcode, p) + rest
  {
    hide ParseFrame, Wire;
    GateLaws.ParsePrefix(server, buf, more);
    WireParsed(server, fin, opcode, p, rest);
  }

  // ---------- a message that is not finished ----------

  /** The frames of a message begun: text first, continuations behind, none of them final. */
  function Unfinished(server: bool, started: bool, pieces: seq<Piece>): (r: seq<bytes>)
    requires PiecesOk(pieces)
    decreases |pieces|
  {
    if pieces == [] then []
    else [Wire(server, false, if started then 0 else 1, pieces[0])] + Unfinished(server, true, pieces[1..])
  }

  lemma {:induction false} PayloadMore(pieces: seq<Piece>, p: Piece)
    ensures Payload(pieces + [p]) == Payload(pieces) + p.part
  {
    if pieces == [] {
      assert [p][1..] == [];
    } else {
      assert (pieces + [p])[1..] == pieces[1..] + [p];
      PayloadMore(pieces[1..], p);
      Regroup(pieces[0].part, Payload(pieces[1..]), p.part);
    }
  }

  /** A message is its beginning and one final frame. */
  lemma {:induction false} RawsMore(server: bool, started: bool, pieces: seq<Piece>, p: Piece)
    requires PiecesOk(pieces + [p])
    ensures PiecesOk(pieces) && PieceOk(p)
    ensures Raws(server, started, pieces + [p]) ==
            Unfinished(server, started, pieces) + [Wire(server, true, if started || pieces != [] then 0 else 1, p)]
    decreases |pieces|
  {
    hide Wire;
    PiecesMore(pieces, p);
    if pieces == [] {
      assert ([] + [p]) == [p] && [p][1..] == [];
      assert Raws(server, true, []) == [];
    } else {
      assert (pieces + [p])[1..] == pieces[1..] + [p];
      RawsMore(server, true, pieces[1..], p);
    }
  }

  lemma PiecesMore(pieces: seq<Piece>, p: Piece)
    ensures PiecesOk(pieces + [p]) <==> PiecesOk(pieces) && PieceOk(p)
    ensures PiecesOk(pieces) && pieces != [] ==> PiecesOk(pieces[1..]) && PieceOk(pieces[0])
  {
    hide PieceOk;
    var all := pieces + [p];
    assert all[|pieces|] == p && forall i :: 0 <= i < |pieces| ==> all[i] == pieces[i];
  }

  lemma {:induction false} UnfinishedMore(server: bool, started: bool, pieces: seq<Piece>, p: Piece)
    requires PiecesOk(pieces + [p])
    ensures PiecesOk(pieces) && PieceOk(p)
    ensures Unfinished(server, started, pieces + [p]) ==
            Unfinished(server, started, pieces) + [Wire(server, false, if started || pieces != [] then 0 else 1, p)]
    decreases |pieces|
  {
    hide Wire;
    PiecesMore(pieces, p);
    if pieces == [] {
      assert ([] + [p]) == [p] && [p][1..] == [];
    } else {
      assert (pieces + [p])[1..] == pieces[1..] + [p];
      UnfinishedMore(server, true, pieces[1..], p);
    }
  }

  // ---------- everything that was accepted ----------

  /** The gate holds exactly the frames and the payload of these pieces. */
  predicate HeldAs(server: bool, st: GateState, pieces: seq<Piece>) {
    && PiecesOk(pieces) && |Payload(pieces)| <= MAX_PAYLOAD
    && st.fragmentFrames == Unfinished(server, false, pieces) && st.fragmentPayload == Payload(pieces)
  }

  /** One more frame joins what is held, or completes the message. */
  lemma FrameJoins(server: bool, st: GateState, begun: seq<Piece>, f: Frame, p: Piece)
    requires HeldAs(server, st, begun) && PieceOk(p) && p.part == f.payload && |st.fragmentPayload + f.payload| <= MAX_PAYLOAD
    requires f.opcode == (if st.fragmentFrames == [] then 1 else 0) && f.raw == Wire(server, f.fin, f.opcode, p)
    ensures var m, held := begun + [p], st.(fragmentPayload := st.fragmentPayload + f.payload, fragmentFrames := st.fragmentFrames + [f.raw]);
            && MessageOk(m) && held.fragmentPayload == Payload(m)
            && (if f.fin then held.fragmentFrames == Raws(server, false, m) else HeldAs(server, held, m))
            && Join(held.fragmentFrames) == Join(Unfinished(server, false, begun)) + f.raw
  {
    hide Wire, Join;
    PiecesMore(begun, p);
    PayloadMore(begun, p);
    RawsMore(server, false, begun, p);
    UnfinishedMore(server, false, begun, p);
    assert Unfinished(server, false, begun) == [] <==> begun == [];
    JoinAppend(st.fragmentFrames, [f.raw]);
    JoinOne(f.raw);
  }

  /** The outcome `o` of draining `st` behind the frames of `begun` has read these messages, and holds
      the beginning of one more. */
  ghost predicate ReadAs(g: Gate, st: GateState, pending: set<int>, begun: seq<Piece>, o: Outcome, ms: seq<seq<Piece>>, last: seq<Piece>)
    requires PiecesOk(begun)
  {
    && MessagesOk(ms) && HeldAs(g.server, o.st, last) && ParseFrame(g.server, o.st.buffer).NeedMore?
    && Join(Unfinished(g.server, false, begun)) + st.buffer ==
       Stream(g.server, ms) + Join(Unfinished(g.server, false, last)) + o.st.buffer
    && o.messages == Payloads(ms) && o.output == Stream(g.server, ms)
    && Admitted(g, pending, Payloads(ms), |ms|) && o.pending == PendingAfter(g, pending, Payloads(ms))
  }

  /** What a drain without failure has read: the messages of a stream, each whole and admitted in
      its turn, the beginning of one more, and bytes that are not a frame yet. It has released
      exactly the messages' frames and holds exactly those of the beginning. */
  lemma {:induction false} AcceptedIsStream(g: Gate, st: GateState, pending: set<int>, begun: seq<Piece>)
    returns (ms: seq<seq<Piece>>, last: seq<Piece>)
    requires HeldAs(g.server, st, begun) && Drain(g, st, pending).failure.None?
    ensures ReadAs(g, st, pending, begun, Drain(g, st, pending), ms, last)
    decreases |st.buffer|
  {
    hide ParseFrame, Wire, Join, Unfinished, Raws, Payload, CompleteMessage, Admits, PendingAfter, PieceOk, ReadAs, HeldAs;
    match ParseFrame(g.server, st.buffer)
    case NeedMore =>
      ms, last := [], begun;
      NothingRead(g, st, pending, begun);
    case Complete(f) =>
      var p := ParsedIsWire(g.server, st.buffer);
      var one := AcceptFrame(g, Behind(st, f), pending, f);
      FrameTaken(g.server, st.buffer);
      HeldBehind(g.server, st, begun, f);
      if f.fin {
        FinalFrame(g, Behind(st, f), pending, begun, f, p);
        var rest;
        rest, last := AcceptedIsStream(g, one.st, one.pending, []);
        ms := [begun + [p]] + rest;
        FinalRead(g, st, pending, begun, f, p, rest, last);
      } else {
        OpenFrame(g, Behind(st, f), pending, begun, f, p);
        ms, last := AcceptedIsStream(g, one.st, pending, begun + [p]);
        OpenRead(g, st, pending, begun, f, p, ms, last);
      }
  }

  lemma HeldBehind(server: bool, st: GateState, begun: seq<Piece>, f: Frame)
    requires HeldAs(server, st, begun) && |f.raw| <= |st.buffer|
    ensures PiecesOk(begun) && HeldAs(server, Behind(st, f), begun)
  {
  }

  lemma NothingRead(g: Gate, st: GateState, pending: set<int>, begun: seq<Piece>)
    requires HeldAs(g.server, st, begun) && ParseFrame(g.server, st.buffer).NeedMore?
    ensures ReadAs(g, st, pending, begun, Quiet(st, pending, None), [], begun)
  {
    hide ParseFrame, Join, Unfinished;
    NothingAdmitted(g, pending);
  }

  /** The frame read from the front, with what it was written from. */
  ghost predicate Reads(server: bool, f: Frame, p: Piece) {
    PieceOk(p) && p.part == f.payload && f.opcode < 16 && f.raw == Wire(server, f.fin, f.opcode, p) && |f.payload| <= MAX_PAYLOAD
  }

  /** A frame that is accepted has its place: text first, continuations behind. */
  lemma InPlace(g: Gate, st: GateState, pending: set<int>, begun: seq<Piece>, f: Frame)
    requires HeldAs(g.server, st, begun) && AcceptFrame(g, st, pending, f).failure.None? && |f.payload| <= MAX_PAYLOAD
    ensures f.opcode == (if st.fragmentFrames == [] then 1 else 0) && |st.fragmentPayload + f.payload| <= MAX_PAYLOAD
  {
    hide CompleteMessage;
    EmptyHeld(g.server, st, begun);
  }

  lemma OpenFrame(g: Gate, st: GateState, pending: set<int>, begun: seq<Piece>, f: Frame, p: Piece)
    requires HeldAs(g.server, st, begun) && Reads(g.server, f, p) && !f.fin && AcceptFrame(g, st, pending, f).failure.None?
    ensures var one := AcceptFrame(g, st, pending, f);
            && HeldAs(g.server, one.st, begun + [p]) && one.pending == pending && one.output == [] && one.messages == []
            && Join(Unfinished(g.server, false, begun + [p])) == Join(Unfinished(g.server, false, begun)) + f.raw
  {
    hide Wire, Join, Unfinished, Raws, Payload;
    InPlace(g, st, pending, begun, f);
    FrameJoins(g.server, st, begun, f, p);
  }

  lemma OpenRead(
    g: Gate, st: GateState, pending: set<int>, begun: seq<Piece>, f: Frame, p: Piece, ms: seq<seq<Piece>>, last: seq<Piece>)
    requires PiecesOk(begun) && PiecesOk(begun + [p]) && ParseFrame(g.server, st.buffer) == Complete(f)
    requires var one := AcceptFrame(g, Behind(st, f), pending, f);
             && one.failure.None? && one.output == [] && one.messages == [] && one.pending == pending
             && Join(Unfinished(g.server, false, begun + [p])) == Join(Unfinished(g.server, false, begun)) + f.raw
             && ReadAs(g, one.st, pending, begun + [p], Drain(g, one.st, pending), ms, last)
    ensures ReadAs(g, st, pending, begun, Drain(g, st, pending), ms, last)
  {
    hide ParseFrame, Join, Unfinished, AcceptFrame, PendingAfter, Admitted, HeldAs, PiecesOk;
    FrameTaken(g.server, st.buffer);
    Regroup(Join(Unfinished(g.server, false, begun)), f.raw, Behind(st, f).buffer);
    SameBuffer(g, Behind(st, f), pending, f);
  }

  lemma SameBuffer(g: Gate, st: GateState, pending: set<int>, f: Frame)
    ensures AcceptFrame(g, st, pending, f).st.buffer == st.buffer
  {
  }

  lemma FinalFrame(g: Gate, st: GateState, pending: set<int>, begun: seq<Piece>, f: Frame, p: Piece)
    requires HeldAs(g.server, st, begun) && Reads(g.server, f, p) && f.fin && AcceptFrame(g, st, pending, f).failure.None?
    ensures var one, m := AcceptFrame(g, st, pending, f), begun + [p];
            && MessageOk(m) && HeldAs(g.server, one.st, []) && Admits(g, pending, Payload(m))
            && one == Outcome(one.st, PendingAfter(g, pending, [Payload(m)]), Join(Raws(g.server, false, m)), [Payload(m)], None)
            && Join(Raws(g.server, false, m)) == Join(Unfinished(g.server, false, begun)) + f.raw
  {
    hide Wire, Join, Unfinished, Raws, Payload, CompleteMessage, Admits, PendingAfter;
    InPlace(g, st, pending, begun, f);
    FrameJoins(g.server, st, begun, f, p);
    var full := st.(fragmentPayload := st.fragmentPayload + f.payload, fragmentFrames := st.fragmentFrames + [f.raw]);
    CompletedExactly(g, full, pending);
    NothingHeld(g.server, AcceptFrame(g, st, pending, f).st);
  }

  lemma FinalRead(
    g: Gate, st: GateState, pending: set<int>, begun: seq<Piece>, f: Frame, p: Piece, rest: seq<seq<Piece>>, last: seq<Piece>)
    requires PiecesOk(begun) && MessageOk(begun + [p]) && ParseFrame(g.server, st.buffer) == Complete(f)
    requires Admits(g, pending, Payload(begun + [p]))
    requires var one, m := AcceptFrame(g, Behind(st, f), pending, f), begun + [p];
             && one == Outcome(one.st, PendingAfter(g, pending, [Payload(m)]), Join(Raws(g.server, false, m)), [Payload(m)], None)
             && Join(Raws(g.server, false, m)) == Join(Unfinished(g.server, false, begun)) + f.raw
             && ReadAs(g, one.st, one.pending, [], Drain(g, one.st, one.pending), rest, last)
    ensures ReadAs(g, st, pending, begun, Drain(g, st, pending), [begun + [p]] + rest, last)
  {
    hide ParseFrame, Join, Unfinished, Raws, AcceptFrame, PendingAfter, Admitted, Admits, Payload, PiecesOk, Stream, Payloads;
    var m, one := begun + [p], AcceptFrame(g, Behind(st, f), pending, f);
    FrameTaken(g.server, st.buffer);
    Regroup(Join(Unfinished(g.server, false, begun)), f.raw, Behind(st, f).buffer);
    SameBuffer(g, Behind(st, f), pending, f);
    NoFrames(g.server);
    OneMoreMessage(g, pending, m, rest);
    var o := Drain(g, one.st, one.pending);
    Split(Join(Raws(g.server, false, m)), Stream(g.server, rest), Join(Unfinished(g.server, false, last)), o.st.buffer, one.st.buffer);
  }

  lemma NoFrames(server: bool)
    ensures Join(Unfinished(server, false, [])) == []
  {
  }

  lemma EmptyHeld(server: bool, st: GateState, begun: seq<Piece>)
    requires HeldAs(server, st, begun)
    ensures st.fragmentFrames == [] ==> begun == [] && st.fragmentPayload == []
  {
  }

  lemma FrameTaken(server: bool, buf: bytes)
    requires ParseFrame(server, buf).Complete?
    ensures var f := ParseFrame(server, buf).frame;
            |f.payload| <= MAX_PAYLOAD && |f.raw| <= |buf| && buf == f.raw + buf[|f.raw|..]
  {
  }

  lemma Split(a: bytes, b: bytes, c: bytes, d: bytes, all: bytes)
    requires [] + all == b + c + d
    ensures a + all == a + b + c + d
  {
    assert all == b + c + d;
  }

  lemma NothingAdmitted(g: Gate, pending: set<int>)
    ensures Admitted(g, pending, [], 0) && PendingAfter(g, pending, []) == pending
  {
  }

  lemma NothingHeld(server: bool, st: GateState)
    requires st.fragmentFrames == [] && st.fragmentPayload == []
    ensures HeldAs(server, st, []) && Join(Unfinished(server, false, [])) == []
  {
  }

  lemma OneMoreMessage(g: Gate, pending: set<int>, m: seq<Piece>, rest: seq<seq<Piece>>)
    requires MessageOk(m) && MessagesOk(rest) && Admits(g, pending, Payload(m))
    requires Admitted(g, PendingAfter(g, pending, [Payload(m)]), Payloads(rest), |rest|)
    ensures var ms, next := [m] + rest, PendingAfter(g, pending, [Payload(m)]);
            && MessagesOk(ms) && Stream(g.server, ms) == Join(Raws(g.server, false, m)) + Stream(g.server, rest)
            && Payloads(ms) == [Payload(m)] + Payloads(rest)
            && Admitted(g, pending, Payloads(ms), |ms|) && PendingAfter(g, pending, Payloads(ms)) == PendingAfter(g, next, Payloads(rest))
  {
    hide Join, Raws, Payload, Admits, Admitted, PendingAfter;
    var ms := [m] + rest;
    assert ms[1..] == rest && ms[0] == m;
    var payloads := Payloads(ms);
    assert payloads[1..] == Payloads(rest) && payloads[0] == Payload(m);
    AdmittedMore(g, pending, payloads, |rest|);
    PendingAfterFirst(g, pending, Payload(m), Payloads(rest));
  }

  /** The same from the first byte on, under every cutting into calls: an accepted stream is an
      upgrade header, messages admitted in their turn, the beginning of one more, and bytes that are
      not a frame yet; exactly header and messages were released. */
  lemma StreamAccepted(g: Gate, pending: set<int>, chunks: seq<bytes>) returns (ms: seq<seq<Piece>>, last: seq<Piece>)
    requires GateLaws.Deliverable(chunks) && HeaderEnd(Join(chunks)).Some? && FeedAll(g, INITIAL, pending, chunks).failure.None?
    ensures MessagesOk(ms)
    ensures var o, head := FeedAll(g, INITIAL, pending, chunks), Join(chunks)[..HeaderEnd(Join(chunks)).value];
            && HeldAs(g.server, o.st, last) && ParseFrame(g.server, o.st.buffer).NeedMore?
            && Join(chunks) == head + (Stream(g.server, ms) + Join(Unfinished(g.server, false, last)) + o.st.buffer)
            && o.messages == Payloads(ms) && o.output == head + Stream(g.server, ms)
            && Admitted(g, pending, Payloads(ms), |ms|) && o.pending == PendingAfter(g, pending, Payloads(ms))
  {
    hide Drain, Admitted, PendingAfter, Payloads, HeaderEndFrom, FeedAll, HeldAs, ParseFrame, Unfinished, Stream, Join;
    var stream := Join(chunks);
    var end := HeaderEnd(stream).value;
    GateLaws.CutExactly(g, pending, chunks);
    var inside := GateLaws.Ideal(g, pending, stream);
    var st := AfterHeader(INITIAL.(buffer := stream), end);
    NothingHeld(g.server, st);
    ms, last := AcceptedIsStream(g, st, pending, []);
    assert stream == stream[..end] + st.buffer;
    assert [] + st.buffer == st.buffer;
  }
}
