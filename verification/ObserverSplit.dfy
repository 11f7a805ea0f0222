/** The observer sees a byte stream, not the callbacks that happened to deliver it. */
module ObserverSplit {
  import opened Bytes
  import opened ObserverSpec

  function Extend(t: Track, d: Direction, more: bytes): (r: Track) {
    WithBuffer(t, d, Buffer(t, d) + more)
  }

  lemma MeasurePrefix(buf: bytes, more: bytes)
    requires |buf| >= 2 && !MeasureFrame(buf).Unmeasured?
    ensures MeasureFrame(buf + more) == MeasureFrame(buf)
  {
    if |buf| >= 4 { FrontSlice(buf, more, 2, 4); }
    if |buf| >= 10 { FrontSlice(buf, more, 2, 10); }
  }

  lemma SeePrefix(cfg: Config, d: Direction, buf: bytes, more: bytes)
    requires !SeeFrame(cfg, d, buf).Wait?
    ensures SeeFrame(cfg, d, buf + more) == SeeFrame(cfg, d, buf)
  {
    hide MeasureFrame, Masked;
    var masked := buf[1] >= 128;
    if buf[0] as int / 16 % 8 == 0 && masked == (d == Client) {
      MeasurePrefix(buf, more);
      if MeasureFrame(buf).Measure? {
        var offset := MeasureFrame(buf).offset;
        var start := offset + if masked then 4 else 0;
        var total := start + MeasureFrame(buf).length;
        if total <= |buf| {
          FrontSlice(buf, more, start, total);
          FrontSlice(buf, more, offset, start);
        }
      }
    }
  }

  lemma SliceAppend(a: bytes, b: bytes, n: nat)
    requires n <= |a|
    ensures (a + b)[n..] == a[n..] + b
  {
  }

  /** Scanning more bytes is scanning what there was and then going on, unless that already
      ended the connection's evidence. */
  lemma {:induction false} FramesExtend(cfg: Config, t: Track, d: Direction, more: bytes)
    requires t.conn.valid
    ensures var early := Frames(cfg, t, d);
            Frames(cfg, Extend(t, d, more), d) ==
            if early.conn.valid then Frames(cfg, Extend(early, d, more), d) else early
    decreases |Buffer(t, d)|
  {
    hide SeeFrame, HandleFrame, GapNow;
    var buf := Buffer(t, d);
    var all := Extend(t, d, more);
    match SeeFrame(cfg, d, buf)
    case Wait =>
    case Broken(why) =>
      SeePrefix(cfg, d, buf, more);
      GapParallel(cfg, t, d, buf + more, why);
      GapEnds(cfg, t, d, why);
    case Whole(fin, opcode, payload, size) =>
      SeePrefix(cfg, d, buf, more);
      SliceAppend(buf, more, size);
      var t1 := WithBuffer(t, d, buf[size..]);
      var all1 := WithBuffer(all, d, (buf + more)[size..]);
      assert all1 == WithBuffer(t1, d, buf[size..] + more);
      HandleParallel(cfg, t1, d, buf[size..] + more, fin, opcode, payload);
      HandleKeepsBuffer(cfg, t1, d, fin, opcode, payload);
      var t2 := HandleFrame(cfg, t1, d, fin, opcode, payload);
      var all2 := HandleFrame(cfg, all1, d, fin, opcode, payload);
      assert Frames(cfg, t, d) == Frames(cfg, t2, d);
      HandleKeepsBuffer(cfg, all1, d, fin, opcode, payload);
      assert Frames(cfg, all, d) == Frames(cfg, all2, d);
      if t2.conn.valid {
        assert all2 == Extend(t2, d, more);
        FramesExtend(cfg, t2, d, more);
      }
  }

  lemma {:induction false} FramesShrink(cfg: Config, t: Track, d: Direction)
    ensures |Buffer(Frames(cfg, t, d), d)| <= |Buffer(t, d)|
    ensures SameShape(Frames(cfg, t, d), t)
    decreases |Buffer(t, d)|
  {
    if t.conn.valid {
      hide SeeFrame, HandleFrame, GapNow;
      match SeeFrame(cfg, d, Buffer(t, d))
      case Wait =>
      case Broken(why) =>
        GapClears(cfg, t, d, why);
        GapKeepsShape(cfg, t, d, why);
      case Whole(fin, opcode, payload, size) =>
        var t1 := WithBuffer(t, d, Buffer(t, d)[size..]);
        HandleKeepsBuffer(cfg, t1, d, fin, opcode, payload);
        HandleKeepsShape(cfg, t1, d, fin, opcode, payload);
        FramesShrink(cfg, HandleFrame(cfg, t1, d, fin, opcode, payload), d);
    }
  }

  lemma GapClears(cfg: Config, t: Track, d: Direction, why: Why)
    requires t.conn.valid
    ensures Buffer(GapNow(cfg, t, d, why), d) == []
  {
  }

  /** Same epoch, same life, same finished upgrades. */
  predicate SameShape(a: Track, b: Track) {
    && a.conn.epoch == b.conn.epoch
    && a.conn.closed == b.conn.closed
    && a.conn.client.handshakeDone == b.conn.client.handshakeDone
    && a.conn.server.handshakeDone == b.conn.server.handshakeDone
  }

  lemma EmitKeepsShape(cfg: Config, t: Track, d: Option<Direction>, e: Event)
    ensures SameShape(Emit(cfg, t, d, e), t)
  {
  }

  lemma GapKeepsShape(cfg: Config, t: Track, d: Direction, why: Why)
    ensures SameShape(GapNow(cfg, t, d, why), t)
  {
  }

  lemma RequestKeepsShape(cfg: Config, t: Track, d: Direction, m: Rpc)
    requires m.Request?
    ensures SameShape(ProcessRequest(cfg, t, d, m), t)
  {
    hide Emit, GapNow;
    GapKeepsShape(cfg, t, d, PendingTooMany);
    GapKeepsShape(cfg, t, d, DuplicateRequest);
    var t1 := if m.id.Some? then t.(conn := t.conn.(pending := t.conn.pending[(d, m.id.value) := m.verb])) else t;
    EmitKeepsShape(cfg, t1, Some(d), RpcSeen(m.id, m.verb, m.params, m.thread));
    EmitKeepsShape(cfg, t1, Some(d), RpcUnknown(m.id, Some(m.verb), false));
  }

  lemma ResponseKeepsShape(cfg: Config, t: Track, d: Direction, m: Rpc)
    requires m.Response?
    ensures SameShape(ProcessResponse(cfg, t, d, m), t)
  {
    hide Emit;
    forall t: Track, d, e ensures SameShape(Emit(cfg, t, d, e), t) { EmitKeepsShape(cfg, t, d, e); }
  }

  lemma TextKeepsShape(cfg: Config, t: Track, d: Direction, payload: bytes)
    ensures SameShape(ProcessText(cfg, t, d, payload), t)
  {
    hide GapNow, ProcessRequest, ProcessResponse;
    var m := cfg.decode(payload);
    match m
    case Malformed(text) => GapKeepsShape(cfg, t, d, BadMessage(text));
    case Request(_, _, _, _) => RequestKeepsShape(cfg, t, d, m);
    case Response(_, _, _, _) => ResponseKeepsShape(cfg, t, d, m);
  }

  lemma HandleKeepsShape(cfg: Config, t: Track, d: Direction, fin: bool, opcode: nat, payload: bytes)
    ensures SameShape(HandleFrame(cfg, t, d, fin, opcode, payload), t)
  {
    hide Emit, GapNow, ProcessText;
    EmitKeepsShape(cfg, t, Some(d), Control(opcode));
    forall t: Track, why ensures SameShape(GapNow(cfg, t, d, why), t) { GapKeepsShape(cfg, t, d, why); }
    forall t: Track, m ensures SameShape(ProcessText(cfg, t, d, m), t) { TextKeepsShape(cfg, t, d, m); }
  }

  // ---------- the upgrade header ----------

  lemma HeaderEndExtends(b: bytes, more: bytes)
    ensures HeaderEnd(b, 0).Some? ==> HeaderEnd(b + more, 0) == HeaderEnd(b, 0)
    ensures HeaderEnd(b, 0).None? && HeaderEnd(b + more, 0).Some? ==> HeaderEnd(b + more, 0).value > |b|
  {
    var all := b + more;
    assert forall j :: 0 <= j && j + 4 <= |b| ==> (BlankLineAt(all, j) <==> BlankLineAt(b, j));
    if HeaderEnd(b, 0).Some? {
      assert BlankLineAt(all, HeaderEnd(b, 0).value - 4);
    }
    if HeaderEnd(all, 0).Some? {
      assert BlankLineAt(all, HeaderEnd(all, 0).value - 4);
    }
  }

  /** The upgrade step depends on the bytes behind the header no more than a frame does. */
  lemma UpgradeExtend(cfg: Config, t: Track, d: Direction, more: bytes)
    requires t.conn.valid && !ParserOf(t.conn, d).handshakeDone
    ensures var early := ParseUpgrade(cfg, t, d);
            var late := ParseUpgrade(cfg, Extend(t, d, more), d);
            && (!early.conn.valid ==> late == early && Buffer(early, d) == [])
            && (early.conn.valid && ParserOf(early.conn, d).handshakeDone ==> late == Extend(early, d, more))
            && (early.conn.valid && !ParserOf(early.conn, d).handshakeDone ==> early == t)
            && |Buffer(early, d)| <= |Buffer(t, d)|
  {
    hide HeaderEnd, GapNow, Emit;
    var buf := Buffer(t, d);
    HeaderEndExtends(buf, more);
    GapParallel(cfg, t, d, buf + more, HeaderTooLarge);
    GapEnds(cfg, t, d, HeaderTooLarge);
    GapClears(cfg, t, d, HeaderTooLarge);
    if HeaderEnd(buf, 0).Some? && HeaderEnd(buf, 0).value <= cfg.maxHeader {
      var end := HeaderEnd(buf, 0).value;
      SliceAppend(buf, more, end);
      FrontSlice(buf, more, 0, end);
      assert (buf + more)[..end] == (buf + more)[0..end] == buf[0..end] == buf[..end];
      var t1 := WithBuffer(t, d, buf[end..]);
      match cfg.upgrade(d, buf[..end], t.conn.clientKey)
      case BadUpgrade(text) =>
        GapParallel(cfg, t1, d, buf[end..] + more, BadHandshake(text));
        GapEnds(cfg, t1, d, BadHandshake(text));
        GapClears(cfg, t1, d, BadHandshake(text));
      case GoodUpgrade(key) =>
        var t2 := if d == Client then t1.(conn := t1.conn.(clientKey := key)) else t1;
        var t3 := WithParser(t2, d, ParserOf(t2.conn, d).(handshakeDone := true));
        EmitParallel(cfg, t3, d, buf[end..], Upgraded);
        EmitParallel(cfg, t3, d, buf[end..] + more, Upgraded);
        EmitKeepsShape(cfg, t3, Some(d), Upgraded);
    }
  }

  lemma AdvanceExtend(cfg: Config, t: Track, d: Direction, more: bytes)
    requires t.conn.valid
    ensures var early := Advance(cfg, t, d);
            && Advance(cfg, Extend(t, d, more), d) ==
               (if early.conn.valid then Advance(cfg, Extend(early, d, more), d) else early)
            && |Buffer(early, d)| <= |Buffer(t, d)|
  {
    hide Frames, ParseUpgrade;
    if ParserOf(t.conn, d).handshakeDone {
      FramesExtend(cfg, t, d, more);
      FramesShrink(cfg, t, d);
    } else {
      UpgradeExtend(cfg, t, d, more);
      var t1 := ParseUpgrade(cfg, t, d);
      if t1.conn.valid {
        if ParserOf(t1.conn, d).handshakeDone {
          FramesExtend(cfg, t1, d, more);
          FramesShrink(cfg, t1, d);
        }
      } else {
        FramesOver(cfg, t1, d);
      }
    }
  }

  /** Split equivalence: within the buffer limit, delivering a and then b is delivering a ++ b:
      the same records, sequence numbers, queue and connection state, also when a gap or a queue
      overflow happens midway. */
  lemma SplitEquivalence(cfg: Config, t: Track, d: Direction, a: bytes, b: bytes)
    requires |Buffer(t, d)| + |a| + |b| <= BufferLimit(cfg)
    ensures FeedTrack(cfg, FeedTrack(cfg, t, d, a), d, b) == FeedTrack(cfg, t, d, a + b)
  {
    hide Advance;
    if t.conn.valid {
      var fed := Extend(t, d, a);
      AdvanceExtend(cfg, fed, d, b);
      assert Buffer(t, d) + (a + b) == (Buffer(t, d) + a) + b;
      assert Extend(fed, d, b) == Extend(t, d, a + b);
    }
  }

  function FeedEach(cfg: Config, t: Track, d: Direction, chunks: seq<bytes>): (r: Track)
    decreases |chunks|
  {
    if chunks == [] then t else FeedEach(cfg, FeedTrack(cfg, t, d, chunks[0]), d, chunks[1..])
  }

  /** No call finds more bytes than the buffer may hold. */
  predicate Within(cfg: Config, t: Track, d: Direction, chunks: seq<bytes>)
    decreases |chunks|
  {
    chunks == [] ||
    (&& (t.conn.valid ==> |Buffer(t, d)| + |chunks[0]| <= BufferLimit(cfg))
     && Within(cfg, FeedTrack(cfg, t, d, chunks[0]), d, chunks[1..]))
  }

  lemma {:induction false} NothingMore(cfg: Config, t: Track, d: Direction, chunks: seq<bytes>)
    requires !t.conn.valid
    ensures FeedEach(cfg, t, d, chunks) == t
    decreases |chunks|
  {
    if chunks != [] { NothingMore(cfg, t, d, chunks[1..]); }
  }

  /** Split equivalence for any number of calls: as long as no call exceeds the buffer limit, and
      however long the whole stream is, every cutting ends where the stream in one piece ends. */
  lemma {:induction false} CutsEquivalent(cfg: Config, t: Track, d: Direction, chunks: seq<bytes>)
    requires t.conn.valid && chunks != [] && Within(cfg, t, d, chunks)
    ensures FeedEach(cfg, t, d, chunks) == Advance(cfg, Extend(t, d, Join(chunks)), d)
    decreases |chunks|
  {
    hide Advance;
    var first, rest := chunks[0], chunks[1..];
    var fed := Extend(t, d, first);
    var t1 := FeedTrack(cfg, t, d, first);
    assert t1 == Advance(cfg, fed, d);
    AdvanceExtend(cfg, fed, d, Join(rest));
    Regroup(Buffer(t, d), first, Join(rest));
    assert Extend(fed, d, Join(rest)) == Extend(t, d, Join(chunks));
    if !t1.conn.valid {
      NothingMore(cfg, t1, d, rest);
    } else if rest == [] {
      assert first + [] == first;
    } else {
      CutsEquivalent(cfg, t1, d, rest);
    }
  }

  /** The same for the observer as a whole, on any open connection. */
  lemma FeedTwice(cfg: Config, o: Observer, c: int, d: Direction, a: bytes, b: bytes)
    requires c in o.conns && !o.conns[c].closed
    requires |ParserOf(o.conns[c], d).buffer| + |a| + |b| <= BufferLimit(cfg)
    ensures Apply(cfg, Apply(cfg, o, Feed(c, d, a)), Feed(c, d, b)) == Apply(cfg, o, Feed(c, d, a + b))
  {
    hide FeedTrack;
    var t := Track(o.conns[c], o.out);
    SplitEquivalence(cfg, t, d, a, b);
    FeedNeverCloses(cfg, t, d, a);
    var t1 := FeedTrack(cfg, t, d, a);
    var o1 := Put(o, c, t1);
    assert Apply(cfg, o, Feed(c, d, a)) == o1;
    assert Track(o1.conns[c], o1.out) == t1;
    assert o.conns[c := t1.conn][c := FeedTrack(cfg, t1, d, b).conn] == o.conns[c := FeedTrack(cfg, t1, d, b).conn];
  }

  predicate SameLife(a: Track, b: Track) {
    a.conn.closed == b.conn.closed && a.conn.epoch == b.conn.epoch
  }

  /** Feeding never closes a connection and never changes its epoch. */
  lemma FeedNeverCloses(cfg: Config, t: Track, d: Direction, data: bytes)
    ensures SameLife(FeedTrack(cfg, t, d, data), t)
  {
    hide Emit, GapNow, Frames, HeaderEnd;
    forall t: Track, why ensures SameShape(GapNow(cfg, t, d, why), t) { GapKeepsShape(cfg, t, d, why); }
    forall t: Track, d, e ensures SameShape(Emit(cfg, t, d, e), t) { EmitKeepsShape(cfg, t, d, e); }
    forall t: Track, d ensures SameShape(Frames(cfg, t, d), t) { FramesShrink(cfg, t, d); }
  }
}
