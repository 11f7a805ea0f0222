/** The observer's frame decoder against the gate's, on everything the gate lets through. */
module Agreement {
  import opened Bytes
  import G = GateSpec
  import opened ObserverSpec
  import L = GateLaws
  import S = ObserverSplit

  /** Hands text messages over one by one while the connection's evidence stands. */
  function ProcessAll(cfg: Config, t: Track, d: Direction, messages: seq<bytes>): (r: Track)
    decreases |messages|
  {
    if messages == [] || !t.conn.valid then t
    else ProcessAll(cfg, ProcessText(cfg, t, d, messages[0]), d, messages[1..])
  }

  /** The parser of an observer that stands where the gate stands. */
  function View(st: G.GateState): (p: Parser) {
    Parser(st.buffer, true, if st.fragmentFrames == [] then None else Some(1), st.fragmentPayload)
  }

  const EMPTY := Parser([], true, None, [])

  /** An incomplete frame that the observer already refuses, and the gate will. */
  predicate DoomedTail(s: bytes) {
    && |s| >= 2 && MeasureFrame(s).Measure?
    && var opcode := s[0] as int % 16;
       opcode >= 11 || (opcode >= 8 && (s[0] < 128 || MeasureFrame(s).length > 125))
  }

  predicate Roomy(cfg: Config) {
    cfg.maxFrame >= G.MAX_PAYLOAD && cfg.maxMessage >= G.MAX_PAYLOAD
  }

  lemma SameSize(s: bytes)
    requires |s| >= 2
    ensures match G.FrameSize(s)
            case SizeUnknown => MeasureFrame(s).Unmeasured?
            case Size(length, header) => MeasureFrame(s) == Measure(length, header)
            case SizeBad(_) => true
  {
  }

  /** Frame by frame, the observer sees what the server gate sees. */
  lemma SameFrame(cfg: Config, s: bytes)
    requires Roomy(cfg)
    ensures match G.ParseFrame(true, s)
            case NeedMore => if DoomedTail(s) then SeeFrame(cfg, Server, s).Broken? else SeeFrame(cfg, Server, s).Wait?
            case Complete(f) => f.opcode <= 1 ==> SeeFrame(cfg, Server, s) == Whole(f.fin, f.opcode, f.payload, |f.raw|)
            case Bad(_) => true
  {
    if |s| >= 2 {
      SameSize(s);
      hide MeasureFrame;
      hide G.FrameSize;
    }
  }

  lemma EmitKeepsConn(cfg: Config, t: Track, d: Option<Direction>, e: Event)
    ensures t.conn.valid && Emit(cfg, t, d, e).conn.valid ==> Emit(cfg, t, d, e).conn == t.conn
  {
  }

  lemma TextKeepsParsers(cfg: Config, t: Track, d: Direction, payload: bytes)
    requires t.conn.valid
    ensures var r := ProcessText(cfg, t, d, payload);
            r.conn.valid ==> r.conn.client == t.conn.client && r.conn.server == t.conn.server
  {
    var m := cfg.decode(payload);
    match m
    case Malformed(text) =>
    case Request(_, _, _, _) => RequestKeepsParsers(cfg, t, d, m);
    case Response(_, _, _, _) => ResponseKeepsParsers(cfg, t, d, m);
  }

  lemma RequestKeepsParsers(cfg: Config, t: Track, d: Direction, m: Rpc)
    requires t.conn.valid && m.Request?
    ensures var r := ProcessRequest(cfg, t, d, m);
            r.conn.valid ==> r.conn.client == t.conn.client && r.conn.server == t.conn.server
  {
    forall t: Track, d, e ensures t.conn.valid && Emit(cfg, t, d, e).conn.valid ==> Emit(cfg, t, d, e).conn == t.conn {
      EmitKeepsConn(cfg, t, d, e);
    }
    hide Emit;
    GapEnds(cfg, t, d, PendingTooMany);
    GapEnds(cfg, t, d, DuplicateRequest);
  }

  lemma ResponseKeepsParsers(cfg: Config, t: Track, d: Direction, m: Rpc)
    requires t.conn.valid && m.Response?
    ensures var r := ProcessResponse(cfg, t, d, m);
            r.conn.valid ==> r.conn.client == t.conn.client && r.conn.server == t.conn.server
  {
    forall t: Track, d, e ensures t.conn.valid && Emit(cfg, t, d, e).conn.valid ==> Emit(cfg, t, d, e).conn == t.conn {
      EmitKeepsConn(cfg, t, d, e);
    }
    hide Emit;
  }

  /** What the gate's acceptance of one frame means for the message under assembly. */
  lemma AcceptShape(g: G.Gate, st: G.GateState, pending: set<int>, f: G.Frame)
    requires G.AcceptFrame(g, st, pending, f).failure.None?
    requires st.fragmentFrames == [] ==> st.fragmentPayload == []
    requires |st.fragmentPayload| <= G.MAX_PAYLOAD && |f.payload| <= G.MAX_PAYLOAD
    ensures var one := G.AcceptFrame(g, st, pending, f);
            var payload := st.fragmentPayload + f.payload;
            && f.opcode <= 1 && (f.opcode == 1 <==> st.fragmentFrames == []) && |payload| <= G.MAX_PAYLOAD
            && (one.st.fragmentFrames == [] <==> f.fin)
            && one.st.fragmentPayload == (if f.fin then [] else payload)
            && one.messages == (if f.fin then [payload] else [])
            && one.st.handshakeDone == st.handshakeDone && one.st.buffer == st.buffer
  {
    hide Join;
  }

  /** A frame that the gate accepts, in the observer. */
  lemma HandleShape(cfg: Config, t: Track, st: G.GateState, f: G.Frame)
    requires Roomy(cfg) && t.conn.valid && t.conn.server == View(st)
    requires st.fragmentFrames == [] ==> st.fragmentPayload == []
    requires f.opcode <= 1 && (f.opcode == 1 <==> st.fragmentFrames == [])
    requires |st.fragmentPayload + f.payload| <= G.MAX_PAYLOAD
    ensures var payload := st.fragmentPayload + f.payload;
            var r := HandleFrame(cfg, t, Server, f.fin, f.opcode, f.payload);
            if f.fin then r == ProcessText(cfg, WithParser(t, Server, Parser(st.buffer, true, None, [])), Server, payload)
            else r == WithParser(t, Server, Parser(st.buffer, true, Some(1), payload))
  {
    hide ProcessText, GapNow, Emit;
    var p := t.conn.server;
    if f.opcode == 1 {
      assert [] + f.payload == f.payload;
      assert WithParser(t, Server, Parser(st.buffer, true, None, [])) == t;
    } else {
      assert p.(fragmentOpcode := None, fragmentPayload := []) == Parser(st.buffer, true, None, []);
    }
  }

  /** On every server stream the gate accepts, the observer processes exactly the messages that
      the gate accepted, in order, for as long as processing them does not end its evidence; only
      then does it look at the incomplete tail. */
  lemma {:induction false} ObserverAgrees(cfg: Config, t: Track, g: G.Gate, st: G.GateState, pending: set<int>)
    requires Roomy(cfg) && t.conn.valid && t.conn.server == View(st)
    requires g.server && st.handshakeDone && (st.fragmentFrames == [] ==> st.fragmentPayload == [])
    requires |st.fragmentPayload| <= G.MAX_PAYLOAD
    requires G.Drain(g, st, pending).failure.None?
    ensures var o := G.Drain(g, st, pending);
            var r := ProcessAll(cfg, WithParser(t, Server, EMPTY), Server, o.messages);
            && (r.conn.valid ==> r.conn.server == EMPTY)
            && Frames(cfg, t, Server) ==
               (if !r.conn.valid then r
                else if DoomedTail(o.st.buffer) then Frames(cfg, WithParser(r, Server, View(o.st)), Server)
                else WithParser(r, Server, View(o.st)))
    decreases |st.buffer|
  {
    hide G.ParseFrame;
    hide G.AcceptFrame;
    hide SeeFrame, HandleFrame, ProcessText, DoomedTail;
    SameFrame(cfg, st.buffer);
    match G.ParseFrame(true, st.buffer)
    case NeedMore =>
      assert WithParser(WithParser(t, Server, EMPTY), Server, View(st)) == t;
    case Bad(_) =>
    case Complete(f) =>
      var behind := G.Behind(st, f);
      AcceptShape(g, behind, pending, f);
      var one := G.AcceptFrame(g, behind, pending, f);
      var t1 := WithBuffer(t, Server, st.buffer[|f.raw|..]);
      assert t1.conn.server == View(behind);
      HandleShape(cfg, t1, behind, f);
      HandleKeepsBuffer(cfg, t1, Server, f.fin, f.opcode, f.payload);
      var t2 := HandleFrame(cfg, t1, Server, f.fin, f.opcode, f.payload);
      assert Frames(cfg, t, Server) == Frames(cfg, t2, Server);
      var rest := G.Drain(g, one.st, one.pending).messages;
      if f.fin {
        MessageStep(cfg, t, behind, f, rest);
        assert G.Drain(g, st, pending).messages == [st.fragmentPayload + f.payload] + rest;
        if t2.conn.valid {
          ObserverAgrees(cfg, t2, g, one.st, one.pending);
        } else {
          FramesOver(cfg, t2, Server);
        }
      } else {
        assert [] + rest == rest;
        assert t2.conn.server == View(one.st);
        assert WithParser(t2, Server, EMPTY) == WithParser(t, Server, EMPTY);
        ObserverAgrees(cfg, t2, g, one.st, one.pending);
      }
  }

  /** Processing one message with bytes still unread is processing it without. */
  lemma MessageStep(cfg: Config, t: Track, behind: G.GateState, f: G.Frame, rest: seq<bytes>)
    requires t.conn.valid
    ensures var m := behind.fragmentPayload + f.payload;
            var empty := WithParser(t, Server, EMPTY);
            var r := ProcessText(cfg, WithParser(t, Server, Parser(behind.buffer, true, None, [])), Server, m);
            && ProcessAll(cfg, empty, Server, [m] + rest) ==
               (if r.conn.valid then ProcessAll(cfg, WithParser(r, Server, EMPTY), Server, rest) else r)
            && (r.conn.valid ==> r.conn.server == Parser(behind.buffer, true, None, []))
  {
    hide ProcessText;
    var m := behind.fragmentPayload + f.payload;
    var empty := WithParser(t, Server, EMPTY);
    var full := WithParser(t, Server, Parser(behind.buffer, true, None, []));
    assert WithBuffer(empty, Server, behind.buffer) == full;
    TextParallel(cfg, empty, Server, behind.buffer, m);
    TextKeepsParsers(cfg, empty, Server, m);
    var pe := ProcessText(cfg, empty, Server, m);
    assert ([m] + rest)[0] == m && ([m] + rest)[1..] == rest;
    assert ProcessAll(cfg, empty, Server, [m] + rest) == ProcessAll(cfg, pe, Server, rest);
    if pe.conn.valid {
      assert WithParser(ProcessText(cfg, full, Server, m), Server, EMPTY) == pe;
    }
  }

  // ---------- end to end ----------

  lemma SameHeaderEnd(b: bytes)
    ensures HeaderEnd(b, 0) == G.HeaderEnd(b)
  {
    assert forall j :: BlankLineAt(b, j) <==> G.MarkerAt(b, j);
    if HeaderEnd(b, 0).Some? { assert G.MarkerAt(b, HeaderEnd(b, 0).value - 4); }
    if G.HeaderEnd(b).Some? { assert BlankLineAt(b, G.HeaderEnd(b).value - 4); }
  }

  /** The observer behind an accepted upgrade, before any frame. */
  function AfterUpgrade(cfg: Config, t: Track): (r: Track) {
    Emit(cfg, WithParser(t, Server, EMPTY), Some(Server), Upgraded)
  }

  lemma UpgradeThenRest(cfg: Config, t: Track, stream: bytes, end: nat)
    requires t.conn.valid && t.conn.server == FRESH && G.HeaderEnd(stream) == Some(end) && end <= cfg.maxHeader && end <= |stream|
    requires cfg.upgrade(Server, stream[..end], t.conn.clientKey).GoodUpgrade?
    ensures Parallel(AfterUpgrade(cfg, t), ParseUpgrade(cfg, WithBuffer(t, Server, stream), Server), Server, stream[end..])
    ensures ParserOf(ParseUpgrade(cfg, WithBuffer(t, Server, stream), Server).conn, Server).handshakeDone
    ensures AfterUpgrade(cfg, t).conn.valid ==> AfterUpgrade(cfg, t).conn.server == EMPTY
  {
    SameHeaderEnd(stream);
    hide HeaderEnd;
    hide G.HeaderEnd;
    var plain := WithParser(t, Server, EMPTY);
    EmitParallel(cfg, plain, Server, stream[end..], Upgraded);
    EmitKeepsConn(cfg, plain, Some(Server), Upgraded);
    var fed := WithBuffer(t, Server, stream);
    var t1 := WithBuffer(fed, Server, stream[end..]);
    assert WithParser(t1, Server, ParserOf(t1.conn, Server).(handshakeDone := true)) == WithBuffer(plain, Server, stream[end..]);
  }

  /** What the observer makes of the gate's messages and of the bytes the gate still holds. */
  function Follows(cfg: Config, start: Track, o: G.Outcome): (r: Track) {
    var p := ProcessAll(cfg, start, Server, o.messages);
    if !p.conn.valid then p
    else if DoomedTail(o.st.buffer) then Frames(cfg, WithParser(p, Server, View(o.st)), Server)
    else WithParser(p, Server, View(o.st))
  }

  /** End to end: one server stream, cut in one way for the gate and in any other for the
      observer. If the gate accepts it and the observer accepts the upgrade and is never given
      more than its buffer holds, then the observer processes exactly the messages that the gate
      let through, in order, until processing one of them ends its evidence. */
  lemma EndToEnd(cfg: Config, t: Track, g: G.Gate, pending: set<int>, gateCuts: seq<bytes>, cuts: seq<bytes>)
    requires Roomy(cfg) && g.server && t.conn.valid && t.conn.server == FRESH
    requires L.Deliverable(gateCuts) && cuts != [] && Join(cuts) == Join(gateCuts) && S.Within(cfg, t, Server, cuts)
    requires G.FeedAll(g, G.INITIAL, pending, gateCuts).failure.None?
    requires var end := G.HeaderEnd(Join(cuts));
             && end.Some? && end.value <= cfg.maxHeader
             && cfg.upgrade(Server, Join(cuts)[..end.value], t.conn.clientKey).GoodUpgrade?
    ensures var start := AfterUpgrade(cfg, t);
            S.FeedEach(cfg, t, Server, cuts) ==
            if start.conn.valid then Follows(cfg, start, G.FeedAll(g, G.INITIAL, pending, gateCuts)) else start
  {
    var stream := Join(cuts);
    var end := G.HeaderEnd(stream).value;
    L.CutExactly(g, pending, gateCuts);
    S.CutsEquivalent(cfg, t, Server, cuts);
    UpgradeThenRest(cfg, t, stream, end);
    hide G.FeedAll;
    hide S.FeedEach;
    hide S.Within;
    hide ParseUpgrade, Emit;
    hide G.HeaderEnd;
    assert [] + stream == stream;
    var start := AfterUpgrade(cfg, t);
    var t1 := ParseUpgrade(cfg, WithBuffer(t, Server, stream), Server);
    if start.conn.valid {
      var st := G.AfterHeader(G.INITIAL.(buffer := stream), end);
      assert t1.conn.server == View(st);
      assert WithParser(t1, Server, EMPTY) == start;
      ObserverAgrees(cfg, t1, g, st, pending);
    } else {
      FramesOver(cfg, t1, Server);
    }
  }
}
