/** The client encoder against the client gate. */
module Codec {
  import opened Bytes
  import opened GateSpec
  import opened Fragments

  /** `_websocket_frame` with its random mask made a parameter. */
  function Encode(payload: bytes, mask: bytes): (r: Option<bytes>)
    requires |mask| == 4
    ensures r.Some? <==> |payload| <= MAX_PAYLOAD
  {
    if |payload| > MAX_PAYLOAD then None
    else Some(Header(|payload|) + mask + Masked(payload, mask))
  }

  function Header(n: nat): (r: bytes)
    requires n <= MAX_PAYLOAD
  {
    if n < 126 then [0x81, (0x80 + n) as byte]
    else [0x81, 0xfe, (n / 256) as byte, (n % 256) as byte]
  }

  /** The encoder writes one final text frame, with the shortest length field that fits. */
  function Single(payload: bytes, mask: bytes): (p: Piece) {
    Piece(payload, mask, if |payload| < 126 then Short else Medium)
  }

  lemma EncodeIsWire(payload: bytes, mask: bytes)
    requires |mask| == 4 && |payload| <= MAX_PAYLOAD
    ensures PieceOk(Single(payload, mask)) && Encode(payload, mask) == Some(Wire(false, true, 1, Single(payload, mask)))
  {
    hide Masked;
    var p := Single(payload, mask);
    assert Header(|payload|) == Head(false, true, 1, p);
    assert Header(|payload|) + mask + Masked(payload, mask) == Header(|payload|) + (mask + Masked(payload, mask));
  }

  /** Round trip: whatever follows, the client gate recognises exactly the encoded frame, as one
      final text frame with the original payload. */
  lemma RoundTrip(payload: bytes, mask: bytes, rest: bytes)
    requires |mask| == 4 && |payload| <= MAX_PAYLOAD
    ensures var raw := Encode(payload, mask).value;
            ParseFrame(false, raw + rest) == Complete(Frame(true, 1, payload, raw))
  {
    hide Encode, Wire, ParseFrame;
    EncodeIsWire(payload, mask);
    WireParsed(false, true, 1, Single(payload, mask), rest);
  }

  // ---------- a stream of encoded frames ----------

  predicate Encodable(payloads: seq<bytes>, masks: seq<bytes>) {
    && |payloads| == |masks|
    && (forall i :: 0 <= i < |masks| ==> |masks[i]| == 4)
    && (forall i :: 0 <= i < |payloads| ==> |payloads[i]| <= MAX_PAYLOAD)
  }

  function EncodeAll(payloads: seq<bytes>, masks: seq<bytes>): (r: bytes)
    requires Encodable(payloads, masks)
  {
    if payloads == [] then []
    else Encode(payloads[0], masks[0]).value + EncodeAll(payloads[1..], masks[1..])
  }

  function Singles(payloads: seq<bytes>, masks: seq<bytes>): (r: seq<seq<Piece>>)
    requires |payloads| == |masks|
    ensures |r| == |payloads|
  {
    if payloads == [] then [] else [[Single(payloads[0], masks[0])]] + Singles(payloads[1..], masks[1..])
  }

  lemma {:induction false} EncodedIsStream(payloads: seq<bytes>, masks: seq<bytes>)
    requires Encodable(payloads, masks)
    ensures var ms := Singles(payloads, masks);
            MessagesOk(ms) && Payloads(ms) == payloads && Stream(false, ms) == EncodeAll(payloads, masks)
    decreases |payloads|
  {
    if payloads != [] {
      var ms, p := Singles(payloads, masks), Single(payloads[0], masks[0]);
      EncodedIsStream(payloads[1..], masks[1..]);
      EncodeIsWire(payloads[0], masks[0]);
      hide Encode, Wire;
      var raw := Wire(false, true, 1, p);
      assert ms[0] == [p] && ms[1..] == Singles(payloads[1..], masks[1..]);
      assert Payload([p]) == payloads[0] by { assert [p][1..] == [] && payloads[0] + [] == payloads[0]; }
      assert Raws(false, false, [p]) == [raw] by { assert [p][1..] == [] && [raw] + [] == [raw]; }
      JoinOne(raw);
      assert MessagesOk(ms) by {
        forall i | 0 <= i < |ms| ensures MessageOk(ms[i]) {
          if i > 0 { assert ms[i] == ms[1..][i - 1]; }
        }
      }
    }
  }

  /** The gate reads back exactly the admitted payloads; when all are admitted it releases the
      stream byte for byte and holds nothing back. */
  lemma StreamRoundTrip(g: Gate, st: GateState, pending: set<int>, payloads: seq<bytes>, masks: seq<bytes>) returns (k: nat)
    requires !g.server && Encodable(payloads, masks)
    requires st.fragmentFrames == [] && st.fragmentPayload == [] && st.buffer == EncodeAll(payloads, masks)
    ensures Admitted(g, pending, payloads, k)
    ensures var o := Drain(g, st, pending);
            && o.messages == payloads[..k] && (o.failure.None? <==> k == |payloads|)
            && (o.failure.None? ==> o.output == st.buffer && o.st == st.(buffer := []))
  {
    hide Drain, Admitted, PendingAfter, Stream, EncodeAll;
    EncodedIsStream(payloads, masks);
    k := AdmitsExactly(g, st, pending, Singles(payloads, masks));
  }
}
