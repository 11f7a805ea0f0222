/** More facts about what the observer emits: an epoch reports each side's upgrade at most once
    and before anything that side says, and a home report tells the truth about the home
    expected at that moment. */
module ObserverMarks {
  import opened Bytes
  import opened ObserverSpec
  import opened ObserverTrace
  import opened ObserverRuns

  predicate UpgradeOf(r: Record, epoch: nat, d: Direction) {
    r.epoch == Some(epoch) && r.direction == Some(d) && r.event.Upgraded?
  }

  ghost predicate UpgradedBefore(h: seq<Record>, i: nat, epoch: nat, d: Direction)
    requires i <= |h|
  {
    exists j :: 0 <= j < i && UpgradeOf(h[j], epoch, d)
  }

  /** Records that stand for something one side said. */
  predicate Speech(e: Event) {
    e.RpcSeen? || e.RpcAnswered? || e.RpcUnknown? || e.InitializeHome?
  }

  predicate HomeHonest(cfg: Config, r: Record) {
    r.event.InitializeHome? ==>
      r.epoch.Some? && (r.event.matches <==> r.event.home.Some? && r.event.home == cfg.expectedHome(r.epoch.value))
  }

  predicate SameHandshakes(a: Conn, b: Conn) {
    a.client.handshakeDone == b.client.handshakeDone && a.server.handshakeDone == b.server.handshakeDone
  }

  /** A record that may appear while only `speaker`, if anyone, is being read. */
  predicate Fair(cfg: Config, speaker: Option<Direction>, epoch: nat, r: Record) {
    && HomeHonest(cfg, r) && !r.event.Upgraded? && r.epoch == Some(epoch)
    && (Speech(r.event) ==> speaker.Some? && r.direction == speaker)
  }

  /** r grew from t by fair records, with the handshakes where they were. */
  predicate Plain(cfg: Config, speaker: Option<Direction>, t: Track, r: Track) {
    && SameHandshakes(t.conn, r.conn) && r.conn.epoch == t.conn.epoch && (r.conn.valid ==> t.conn.valid)
    && t.out.trace <= r.out.trace
    && forall i :: |t.out.trace| <= i < |r.out.trace| ==> Fair(cfg, speaker, t.conn.epoch, r.out.trace[i])
  }

  lemma PlainTwice(cfg: Config, speaker: Option<Direction>, a: Track, b: Track, c: Track)
    requires Plain(cfg, speaker, a, b) && Plain(cfg, speaker, b, c)
    ensures Plain(cfg, speaker, a, c)
  {
    hide Fair;
    forall i | |a.out.trace| <= i < |c.out.trace| ensures Fair(cfg, speaker, a.conn.epoch, c.out.trace[i]) {
      if i < |b.out.trace| { assert b.out.trace[i] == c.out.trace[i]; }
    }
  }

  lemma EmitPlain(cfg: Config, speaker: Option<Direction>, t: Track, d: Option<Direction>, e: Event)
    requires Fair(cfg, speaker, t.conn.epoch, Record(e, Some(t.conn.epoch), t.out.nextSeq, d))
    ensures Plain(cfg, speaker, t, Emit(cfg, t, d, e))
  {
  }

  lemma GapPlain(cfg: Config, speaker: Option<Direction>, t: Track, d: Direction, why: Why)
    ensures Plain(cfg, speaker, t, GapNow(cfg, t, d, why))
  {
    EmitPlain(cfg, speaker, t.(conn := Invalidate(t.conn)), Some(d), Gap(why));
    hide Emit;
  }

  lemma RequestPlain(cfg: Config, t: Track, d: Direction, m: Rpc)
    requires m.Request?
    ensures Plain(cfg, Some(d), t, ProcessRequest(cfg, t, d, m))
  {
    GapPlain(cfg, Some(d), t, d, PendingTooMany);
    GapPlain(cfg, Some(d), t, d, DuplicateRequest);
    var t1 := if m.id.Some? then t.(conn := t.conn.(pending := t.conn.pending[(d, m.id.value) := m.verb])) else t;
    EmitPlain(cfg, Some(d), t1, Some(d), RpcSeen(m.id, m.verb, m.params, m.thread));
    EmitPlain(cfg, Some(d), t1, Some(d), RpcUnknown(m.id, Some(m.verb), false));
    hide Emit, GapNow;
  }

  lemma ResponsePlain(cfg: Config, t: Track, d: Direction, m: Rpc)
    requires m.Response?
    ensures Plain(cfg, Some(d), t, ProcessResponse(cfg, t, d, m))
  {
    var key := (Opposite(d), m.rid);
    var asked := if key in t.conn.pending then Some(t.conn.pending[key]) else None;
    var t1 := t.(conn := t.conn.(pending := t.conn.pending - {key}));
    EmitPlain(cfg, Some(d), t1, Some(d), RpcUnknown(Some(m.rid), asked, true));
    if asked.Some? {
      var e := RpcAnswered(m.rid, asked.value, Opposite(d), m.ok, if m.ok then m.rthread else Info(None, None));
      EmitPlain(cfg, Some(d), t1, Some(d), e);
      hide Emit;
      var t2 := Emit(cfg, t1, Some(d), e);
      var home := InitializeHome(m.rid, m.home.Some? && m.home == cfg.expectedHome(t2.conn.epoch), m.home);
      EmitPlain(cfg, Some(d), t2, Some(d), home);
      PlainTwice(cfg, Some(d), t1, t2, Emit(cfg, t2, Some(d), home));
    }
  }

  lemma TextPlain(cfg: Config, t: Track, d: Direction, payload: bytes)
    ensures Plain(cfg, Some(d), t, ProcessText(cfg, t, d, payload))
  {
    hide Plain, ProcessRequest, ProcessResponse, GapNow;
    var m := cfg.decode(payload);
    match m
    case Malformed(text) => GapPlain(cfg, Some(d), t, d, BadMessage(text));
    case Request(_, _, _, _) => RequestPlain(cfg, t, d, m);
    case Response(_, _, _, _) => ResponsePlain(cfg, t, d, m);
  }

  /** Only the handshake flags of the parsers matter here. */
  lemma ParserPlain(cfg: Config, t: Track, d: Direction, p: Parser)
    requires p.handshakeDone == ParserOf(t.conn, d).handshakeDone
    ensures Plain(cfg, Some(d), t, WithParser(t, d, p))
    ensures forall r :: Plain(cfg, Some(d), WithParser(t, d, p), r) ==> Plain(cfg, Some(d), t, r)
  {
  }

  lemma HandlePlain(cfg: Config, t: Track, d: Direction, fin: bool, opcode: nat, payload: bytes)
    ensures Plain(cfg, Some(d), t, HandleFrame(cfg, t, d, fin, opcode, payload))
  {
    var p := ParserOf(t.conn, d);
    assert Fair(cfg, Some(d), t.conn.epoch, Record(Control(opcode), Some(t.conn.epoch), t.out.nextSeq, Some(d)));
    hide Plain, GapNow, ProcessText, Emit, Fair;
    forall why ensures Plain(cfg, Some(d), t, GapNow(cfg, t, d, why)) {
      GapPlain(cfg, Some(d), t, d, why);
    }
    if opcode >= 8 {
      EmitPlain(cfg, Some(d), t, Some(d), Control(opcode));
    } else if opcode == 0 {
      ParserPlain(cfg, t, d, p.(fragmentPayload := p.fragmentPayload + payload));
      var done := p.(fragmentOpcode := None, fragmentPayload := []);
      ParserPlain(cfg, t, d, done);
      GapPlain(cfg, Some(d), WithParser(t, d, done), d, BinaryMessage);
      TextPlain(cfg, WithParser(t, d, done), d, p.fragmentPayload + payload);
    } else {
      ParserPlain(cfg, t, d, p.(fragmentOpcode := Some(opcode), fragmentPayload := payload));
      TextPlain(cfg, t, d, payload);
    }
  }

  lemma {:induction false} FramesPlain(cfg: Config, t: Track, d: Direction)
    ensures Plain(cfg, Some(d), t, Frames(cfg, t, d))
    decreases |Buffer(t, d)|
  {
    assert Plain(cfg, Some(d), t, t);
    hide Plain, SeeFrame, HandleFrame, GapNow;
    if t.conn.valid {
      match SeeFrame(cfg, d, Buffer(t, d))
      case Wait =>
      case Broken(why) => GapPlain(cfg, Some(d), t, d, why);
      case Whole(fin, opcode, payload, size) =>
        ParserPlain(cfg, t, d, ParserOf(t.conn, d).(buffer := Buffer(t, d)[size..]));
        var t1 := WithBuffer(t, d, Buffer(t, d)[size..]);
        HandleKeepsBuffer(cfg, t1, d, fin, opcode, payload);
        HandlePlain(cfg, t1, d, fin, opcode, payload);
        var t2 := HandleFrame(cfg, t1, d, fin, opcode, payload);
        FramesPlain(cfg, t2, d);
        PlainTwice(cfg, Some(d), t1, t2, Frames(cfg, t2, d));
    }
  }

  // ---------- upgrades ----------

  ghost predicate Once(h: seq<Record>) {
    forall i, j, e, d :: 0 <= i < j < |h| && UpgradeOf(h[i], e, d) ==> !UpgradeOf(h[j], e, d)
  }

  /** Nobody speaks before upgrading. */
  ghost predicate Introduced(h: seq<Record>) {
    forall i :: 0 <= i < |h| && Speech(h[i].event) ==>
                  h[i].epoch.Some? && h[i].direction.Some? && UpgradedBefore(h, i, h[i].epoch.value, h[i].direction.value)
  }

  /** The records and a connection's handshakes agree: who reported an upgrade is through, and
      who is through on a valid connection has reported it. */
  ghost predicate Behind(c: Conn, h: seq<Record>) {
    && (forall i, d :: 0 <= i < |h| && UpgradeOf(h[i], c.epoch, d) ==> ParserOf(c, d).handshakeDone)
    && (forall d :: c.valid && ParserOf(c, d).handshakeDone ==> UpgradedBefore(h, |h|, c.epoch, d))
  }

  ghost predicate Orderly(h: seq<Record>) {
    Once(h) && Introduced(h)
  }

  ghost predicate Marked(t: Track) {
    Orderly(t.out.trace) && Behind(t.conn, t.out.trace)
  }

  /** Everything new is honest. */
  predicate Truthful(cfg: Config, h: seq<Record>, g: seq<Record>) {
    h <= g && forall i :: |h| <= i < |g| ==> HomeHonest(cfg, g[i])
  }

  lemma UpgradedLater(h: seq<Record>, i: nat, g: seq<Record>, k: nat, epoch: nat, d: Direction)
    requires i <= |h| && i <= k <= |g| && h <= g && UpgradedBefore(h, i, epoch, d)
    ensures UpgradedBefore(g, k, epoch, d)
  {
    var j :| 0 <= j < i && UpgradeOf(h[j], epoch, d);
    assert UpgradeOf(g[j], epoch, d);
  }

  lemma BehindMoves(a: Conn, h: seq<Record>, b: Conn, g: seq<Record>)
    requires Behind(a, h) && a.epoch == b.epoch && h <= g && SameHandshakes(a, b) && (b.valid ==> a.valid)
    requires forall i, d :: |h| <= i < |g| ==> !UpgradeOf(g[i], a.epoch, d)
    ensures Behind(b, g)
  {
    forall i, d | 0 <= i < |g| && UpgradeOf(g[i], b.epoch, d) ensures ParserOf(b, d).handshakeDone {
      assert UpgradeOf(h[i], a.epoch, d);
      assert ParserOf(a, d).handshakeDone;
    }
    forall d | b.valid && ParserOf(b, d).handshakeDone ensures UpgradedBefore(g, |g|, b.epoch, d) {
      assert ParserOf(a, d).handshakeDone;
      UpgradedLater(h, |h|, g, |g|, b.epoch, d);
    }
  }

  lemma OrderlyMoves(h: seq<Record>, g: seq<Record>)
    requires Orderly(h) && h <= g
    requires forall j, e, d :: |h| <= j < |g| && UpgradeOf(g[j], e, d) ==> !UpgradedBefore(g, j, e, d)
    requires forall j :: |h| <= j < |g| && Speech(g[j].event) ==>
                           g[j].epoch.Some? && g[j].direction.Some? &&
                           UpgradedBefore(g, j, g[j].epoch.value, g[j].direction.value)
    ensures Orderly(g)
  {
    forall i, j, e, d | 0 <= i < j < |g| && UpgradeOf(g[i], e, d) ensures !UpgradeOf(g[j], e, d) {
      if j < |h| {
        assert UpgradeOf(h[i], e, d);
        assert g[j] == h[j];
      } else {
        assert UpgradedBefore(g, j, e, d);
      }
    }
    forall i | 0 <= i < |g| && Speech(g[i].event)
      ensures g[i].epoch.Some? && g[i].direction.Some? && UpgradedBefore(g, i, g[i].epoch.value, g[i].direction.value)
    {
      if i < |h| {
        assert g[i] == h[i];
        UpgradedLater(h, i, g, i, h[i].epoch.value, h[i].direction.value);
      }
    }
  }

  lemma PlainMarks(cfg: Config, speaker: Option<Direction>, t: Track, r: Track)
    requires Marked(t) && Plain(cfg, speaker, t, r)
    requires speaker.Some? ==> UpgradedBefore(t.out.trace, |t.out.trace|, t.conn.epoch, speaker.value)
    ensures Marked(r) && Truthful(cfg, t.out.trace, r.out.trace)
  {
    hide HomeHonest;
    var h, g := t.out.trace, r.out.trace;
    forall j | |h| <= j < |g| && Speech(g[j].event)
      ensures && g[j].epoch == Some(t.conn.epoch) && g[j].direction.Some?
              && UpgradedBefore(g, j, t.conn.epoch, g[j].direction.value)
    {
      assert Fair(cfg, speaker, t.conn.epoch, g[j]);
      UpgradedLater(h, |h|, g, j, t.conn.epoch, speaker.value);
    }
    hide Behind, Orderly, UpgradedBefore;
    BehindMoves(t.conn, h, r.conn, g);
    OrderlyMoves(h, g);
  }

  lemma UpgradeMarks(cfg: Config, t: Track, d: Direction)
    requires Marked(t) && !ParserOf(t.conn, d).handshakeDone && (t.conn.valid ==> !t.conn.overflowed)
    ensures var r := ParseUpgrade(cfg, t, d); Marked(r) && Truthful(cfg, t.out.trace, r.out.trace)
  {
    var buf := Buffer(t, d);
    GapPlain(cfg, None, t, d, HeaderTooLarge);
    PlainMarks(cfg, None, t, GapNow(cfg, t, d, HeaderTooLarge));
    if HeaderEnd(buf, 0).Some? && HeaderEnd(buf, 0).value <= cfg.maxHeader {
      var end := HeaderEnd(buf, 0).value;
      var t1 := WithBuffer(t, d, buf[end..]);
      BehindMoves(t.conn, t.out.trace, t1.conn, t1.out.trace);
      match cfg.upgrade(d, buf[..end], t.conn.clientKey)
      case BadUpgrade(text) =>
        GapPlain(cfg, None, t1, d, BadHandshake(text));
        PlainMarks(cfg, None, t1, GapNow(cfg, t1, d, BadHandshake(text)));
      case GoodUpgrade(key) =>
        var t2 := if d == Client then t1.(conn := t1.conn.(clientKey := key)) else t1;
        hide Emit;
        UpgradedMarks(cfg, t, t2, d);
    }
  }

  lemma UpgradedMarks(cfg: Config, t: Track, t2: Track, d: Direction)
    requires Marked(t) && !ParserOf(t.conn, d).handshakeDone && (t2.conn.valid ==> !t2.conn.overflowed)
    requires t2.out == t.out && SameHandshakes(t.conn, t2.conn) && t2.conn.epoch == t.conn.epoch && t2.conn.valid == t.conn.valid
    ensures var r := Emit(cfg, WithParser(t2, d, ParserOf(t2.conn, d).(handshakeDone := true)), Some(d), Upgraded);
            Marked(r) && Truthful(cfg, t.out.trace, r.out.trace)
  {
    var r := Emit(cfg, WithParser(t2, d, ParserOf(t2.conn, d).(handshakeDone := true)), Some(d), Upgraded);
    var h, g := t.out.trace, r.out.trace;
    assert forall i :: 0 <= i < |h| ==> g[i] == h[i];
    assert forall i :: 0 <= i < |h| ==> !UpgradeOf(h[i], t.conn.epoch, d);
    OrderlyMoves(h, g);
    hide Emit, Orderly;
    forall i, o | 0 <= i < |g| && UpgradeOf(g[i], t.conn.epoch, o) ensures ParserOf(r.conn, o).handshakeDone {
      if i < |h| {
        assert UpgradeOf(h[i], t.conn.epoch, o);
        assert ParserOf(t.conn, o).handshakeDone;
      }
    }
    forall o | r.conn.valid && ParserOf(r.conn, o).handshakeDone ensures UpgradedBefore(g, |g|, t.conn.epoch, o) {
      if o == d {
        assert UpgradeOf(g[|h|], t.conn.epoch, d);
      } else {
        assert ParserOf(t.conn, o).handshakeDone;
        UpgradedLater(h, |h|, g, |g|, t.conn.epoch, o);
      }
    }
  }

  lemma FeedMarks(cfg: Config, t: Track, d: Direction, data: bytes)
    requires Marked(t) && (t.conn.valid ==> !t.conn.overflowed)
    ensures var r := FeedTrack(cfg, t, d, data); Marked(r) && Truthful(cfg, t.out.trace, r.out.trace)
  {
    hide Frames, GapNow, ParseUpgrade, HomeHonest, Orderly;
    if t.conn.valid {
      GapPlain(cfg, None, t, d, InputTooLarge);
      PlainMarks(cfg, None, t, GapNow(cfg, t, d, InputTooLarge));
      var fed := WithBuffer(t, d, Buffer(t, d) + data);
      BehindMoves(t.conn, t.out.trace, fed.conn, fed.out.trace);
      if ParserOf(t.conn, d).handshakeDone {
        FramesMark(cfg, fed, d);
      } else {
        UpgradeMarks(cfg, fed, d);
        var t1 := ParseUpgrade(cfg, fed, d);
        if ParserOf(t1.conn, d).handshakeDone {
          FramesMark(cfg, t1, d);
          TruthfulTwice(cfg, t.out.trace, t1.out.trace, Frames(cfg, t1, d).out.trace);
        }
      }
    }
  }

  lemma FramesMark(cfg: Config, t: Track, d: Direction)
    requires Marked(t) && ParserOf(t.conn, d).handshakeDone
    ensures var r := Frames(cfg, t, d); Marked(r) && Truthful(cfg, t.out.trace, r.out.trace)
  {
    if t.conn.valid {
      hide Frames;
      FramesPlain(cfg, t, d);
      PlainMarks(cfg, Some(d), t, Frames(cfg, t, d));
    }
  }

  lemma TruthfulTwice(cfg: Config, a: seq<Record>, b: seq<Record>, c: seq<Record>)
    requires Truthful(cfg, a, b) && Truthful(cfg, b, c)
    ensures Truthful(cfg, a, c)
  {
    hide HomeHonest;
    forall i | |a| <= i < |c| ensures HomeHonest(cfg, c[i]) {
      if i < |b| { assert b[i] == c[i]; }
    }
  }

  // ---------- the whole observer ----------

  ghost predicate AllMarked(o: Observer) {
    Orderly(o.out.trace) && forall c :: c in o.conns ==> Behind(o.conns[c], o.out.trace)
  }

  lemma PutMarks(o: Observer, c: int, r: Track)
    requires Consistent(o) && AllMarked(o) && c in o.conns && Marked(r)
    requires Grown(Track(o.conns[c], o.out).(conn := o.conns[c].(closed := r.conn.closed)), r)
    ensures AllMarked(Put(o, c, r))
  {
    var h, g := o.out.trace, r.out.trace;
    assert forall i :: 0 <= i < |h| ==> g[i] == h[i];
    hide ConnOk, OutOk, Orderly, Behind;
    forall k | k in o.conns && k != c ensures Behind(o.conns[k], g) {
      BehindMoves(o.conns[k], h, o.conns[k], g);
    }
  }

  lemma CloseMarks(cfg: Config, t: Track)
    requires Marked(t)
    ensures Marked(CloseTrack(cfg, t)) && Truthful(cfg, t.out.trace, CloseTrack(cfg, t).out.trace)
  {
    var t1 := BeforeClose(cfg, t);
    assert Plain(cfg, None, t, t);
    hide UnfinishedIn, GapNow, Marked;
    forall d, why ensures Plain(cfg, None, t, GapNow(cfg, t, d, why)) { GapPlain(cfg, None, t, d, why); }
    var t2 := t1.(conn := t1.conn.(closed := true, valid := false));
    EmitPlain(cfg, None, t2, None, ConnectionClose);
    hide Emit;
    PlainTwice(cfg, None, t, t2, Emit(cfg, t2, None, ConnectionClose));
    PlainMarks(cfg, None, t, CloseTrack(cfg, t));
  }

  lemma RetireMarks(cfg: Config, t: Track)
    requires Marked(t)
    ensures Marked(Retire(cfg, t)) && Truthful(cfg, t.out.trace, Retire(cfg, t).out.trace)
  {
    var t1 := BeforeRetire(cfg, t);
    assert Plain(cfg, None, t, t);
    EmitPlain(cfg, None, t.(conn := Invalidate(t.conn)), None, Gap(Reopened));
    var t2 := t1.(conn := t1.conn.(closed := true));
    EmitPlain(cfg, None, t2, None, ConnectionClose);
    hide Emit, Marked;
    PlainTwice(cfg, None, t, t2, Emit(cfg, t2, None, ConnectionClose));
    PlainMarks(cfg, None, t, Retire(cfg, t));
  }

  lemma FreshMarks(cfg: Config, o: Observer, c: int, epoch: nat)
    requires Consistent(o) && AllMarked(o) && epoch > o.maxEpoch
    ensures var t := Track(Conn(epoch, true, false, false, None, FRESH, FRESH, map[]), o.out);
            var r := Emit(cfg, t, None, ConnectionOpen);
            Truthful(cfg, o.out.trace, r.out.trace) && AllMarked(Put(o, c, r))
  {
    hide ConnOk, OutOk, Orderly;
    var t := Track(Conn(epoch, true, false, false, None, FRESH, FRESH, map[]), o.out);
    EmitPlain(cfg, None, t, None, ConnectionOpen);
    hide Emit;
    var r := Emit(cfg, t, None, ConnectionOpen);
    var h, g := o.out.trace, r.out.trace;
    assert Marked(t);
    PlainMarks(cfg, None, t, r);
    hide Behind;
    forall k | k in o.conns ensures Behind(o.conns[k], g) {
      BehindMoves(o.conns[k], h, o.conns[k], g);
    }
  }

  lemma OpenMarks(cfg: Config, o: Observer, c: int, epoch: nat)
    requires Consistent(o) && AllMarked(o) && epoch > o.maxEpoch
    ensures var r := OpenAt(cfg, o, c, epoch); AllMarked(r) && Truthful(cfg, o.out.trace, r.out.trace)
  {
    var o1 := if c in o.conns && !o.conns[c].closed then Put(o, c, Retire(cfg, Track(o.conns[c], o.out))) else o;
    if c in o.conns && !o.conns[c].closed {
      var t := Track(o.conns[c], o.out);
      RetireKeeps(cfg, t);
      RetireMarks(cfg, t);
      hide Retire;
      PutKeeps(o, c, Retire(cfg, t));
      PutMarks(o, c, Retire(cfg, t));
    }
    hide Retire, Consistent, HomeHonest, Orderly, Behind, Emit;
    FreshMarks(cfg, o1, c, epoch);
    TruthfulTwice(cfg, o.out.trace, o1.out.trace, OpenAt(cfg, o, c, epoch).out.trace);
  }

  lemma ApplyMarks(cfg: Config, o: Observer, op: Op)
    requires Consistent(o) && AllMarked(o)
    ensures var r := Apply(cfg, o, op); AllMarked(r) && Truthful(cfg, o.out.trace, r.out.trace)
  {
    hide Orderly;
    match op
    case Open(c, wanted) =>
      var epoch := if wanted.Some? then wanted.value else o.nextEpoch;
      if epoch > o.maxEpoch { OpenMarks(cfg, o, c, epoch); }
    case SetPending(c) =>
      if c in o.conns { BehindMoves(o.conns[c], o.out.trace, o.conns[c].(valid := false), o.out.trace); }
    case Feed(c, d, data) =>
      if c in o.conns && !o.conns[c].closed {
        var t := Track(o.conns[c], o.out);
        FeedKeeps(cfg, t, d, data);
        FeedMarks(cfg, t, d, data);
        hide FeedTrack;
        PutMarks(o, c, FeedTrack(cfg, t, d, data));
      } else {
        UnknownMarks(cfg, o, Some(d));
      }
    case Close(c) =>
      if c !in o.conns {
        UnknownMarks(cfg, o, None);
      } else if !o.conns[c].closed {
        var t := Track(o.conns[c], o.out);
        CloseKeeps(cfg, t);
        CloseMarks(cfg, t);
        hide CloseTrack;
        PutMarks(o, c, CloseTrack(cfg, t));
      }
    case DrainEvents =>
  }

  lemma UnknownMarks(cfg: Config, o: Observer, d: Option<Direction>)
    requires AllMarked(o)
    ensures var r := o.(out := EmitUnknown(cfg, o.out, d)); AllMarked(r) && Truthful(cfg, o.out.trace, r.out.trace)
  {
    var h, g := o.out.trace, EmitUnknown(cfg, o.out, d).trace;
    OrderlyMoves(h, g);
    hide Orderly, Behind;
    forall k | k in o.conns ensures Behind(o.conns[k], g) {
      BehindMoves(o.conns[k], h, o.conns[k], g);
    }
  }
}
