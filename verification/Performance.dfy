/** The script is enough: a connection that does what it says, byte by byte and call by call, is
    announced, whatever its lease. */
module Performance {
  import opened Bytes
  import opened ObserverSpec
  import opened Readiness
  import opened ReadinessRuns
  import R = ReadinessRuns

  type Requests = map<(Direction, Id), Method>

  const NOTHING := Info(None, None)

  const ZEROS: bytes := [0, 0, 0, 0]

  const BLANK: bytes := [13, 10, 13, 10]

  /** The message number `code` of a session. */
  function Message(l: Lease, s: Session, code: byte): (m: Rpc) {
    var verb := if l.resume.Some? then ThreadResume else ThreadStart;
    match code as int
    case 1 => Request(Some(s.greeting), Initialize, NOTHING, NOTHING)
    case 2 => Response(s.greeting, true, NOTHING, l.home)
    case 3 => Request(None, Initialized, NOTHING, NOTHING)
    case 4 => Request(Some(s.opening), verb, Info(Some(s.thread), l.cwd), NOTHING)
    case 5 => Response(s.opening, true, Info(Some(s.thread), l.cwd), None)
    case 6 => Request(None, ThreadStarted, NOTHING, Info(Some(s.thread), None))
    case 7 => if s.proof.SkillsListed? then Request(Some(s.proof.id), SkillsList, NOTHING, NOTHING) else Malformed("")
    case 8 => if s.proof.SkillsListed? then Response(s.proof.id, true, NOTHING, None) else Malformed("")
    case _ => Malformed("")
  }

  /** A decoder that knows this session, and every limit at its default. */
  function Stagehand(l: Lease, s: Session): (cfg: Config) {
    Config(65536, 0x10_0000, 0x20_0000, 4096,
           (payload: bytes) => if |payload| == 1 then Message(l, s, payload[0]) else Malformed(""),
           (d: Direction, header: bytes, key: Option<bytes>) => GoodUpgrade(None),
           (payload: bytes) => true, true, (epoch: nat) => None)
  }

  /** One final text frame of one byte, masked if the client sends it. */
  function Line(d: Direction, code: byte): (b: bytes) {
    if d == Client then [129, 129] + ZEROS + Masked([code], ZEROS) else [129, 1, code]
  }

  // ---------- one line, as the observer reads it ----------

  /** What the observer needs of its limits here, and how it decodes. */
  ghost predicate Prompts(cfg: Config, l: Lease, s: Session) {
    && cfg.maxHeader >= 4 && cfg.maxFrame >= 1 && cfg.maxMessage >= 1 && cfg.maxEvents >= 64 && cfg.activation
    && (forall code: byte :: cfg.decode([code]) == Message(l, s, code))
    && (forall d, key :: cfg.upgrade(d, BLANK, key) == GoodUpgrade(None))
  }

  function Quiet(done: bool): Parser {
    Parser([], done, None, [])
  }

  /** Between two frames, with these requests open and room in the queue. */
  predicate Between(t: Track, epoch: nat, client: bool, server: bool, pending: Requests, room: nat) {
    && t.conn.epoch == epoch && t.conn.valid && !t.conn.closed && !t.conn.overflowed
    && t.conn.client == Quiet(client) && t.conn.server == Quiet(server) && t.conn.pending == pending
    && |t.out.queue| <= 32 - room
  }

  lemma SeeLine(cfg: Config, d: Direction, code: byte)
    requires cfg.maxFrame >= 1
    ensures SeeFrame(cfg, d, Line(d, code)) == Whole(true, 1, [code], |Line(d, code)|)
  {
    var b := Line(d, code);
    if d == Client {
      assert b[2..6] == ZEROS && b[6..7] == Masked([code], ZEROS);
      MaskedInvolutive([code], ZEROS);
      hide Masked;
    } else {
      assert b[2..3] == [code];
    }
  }

  lemma LineFed(cfg: Config, l: Lease, s: Session, t: Track, epoch: nat, pending: Requests, d: Direction, code: byte)
    requires Prompts(cfg, l, s) && Between(t, epoch, true, true, pending, 1)
    ensures FeedTrack(cfg, t, d, Line(d, code)) == ProcessText(cfg, t, d, [code])
  {
    var b := Line(d, code);
    SeeLine(cfg, d, code);
    assert |b| <= 7;
    hide Line, SeeFrame, ProcessText;
    assert [] + b == b && b[|b|..] == [];
    var fed := WithBuffer(t, d, b);
    assert WithBuffer(fed, d, []) == t;
    HandleKeepsBuffer(cfg, t, d, true, 1, [code]);
    var r := ProcessText(cfg, t, d, [code]);
    assert HandleFrame(cfg, t, d, true, 1, [code]) == r;
    NoMoreFrames(cfg, r, d);
  }

  lemma NoMoreFrames(cfg: Config, t: Track, d: Direction)
    requires Buffer(t, d) == []
    ensures Frames(cfg, t, d) == t
  {
  }

  // ---------- what it emits ----------

  function Noted(t: Track, d: Direction, e: Event): (r: Track) {
    t.(out := Append(t.out, Record(e, Some(t.conn.epoch), t.out.nextSeq, Some(d)), t.out.nextSeq + 1))
  }

  lemma RoomToEmit(cfg: Config, t: Track, d: Direction, e: Event)
    requires cfg.maxEvents >= 64 && !t.conn.overflowed && |t.out.queue| <= 32
    ensures Emit(cfg, t, Some(d), e) == Noted(t, d, e)
  {
  }

  lemma AskNoted(cfg: Config, t: Track, epoch: nat, pending: Requests, d: Direction, m: Rpc)
    requires cfg.maxEvents >= 64 && Between(t, epoch, true, true, pending, 1) && m.Request? && Known(m.verb)
    requires m.id.Some? ==> |pending| < MAX_PENDING && (d, m.id.value) !in pending
    ensures var open := if m.id.Some? then pending[(d, m.id.value) := m.verb] else pending;
            ProcessRequest(cfg, t, d, m) ==
            Noted(t.(conn := t.conn.(pending := open)), d, RpcSeen(m.id, m.verb, m.params, m.thread))
  {
    var open := if m.id.Some? then pending[(d, m.id.value) := m.verb] else pending;
    RoomToEmit(cfg, t.(conn := t.conn.(pending := open)), d, RpcSeen(m.id, m.verb, m.params, m.thread));
    hide Emit;
    assert t.(conn := t.conn.(pending := pending)) == t;
  }

  lemma ReplyNoted(cfg: Config, t: Track, epoch: nat, verb: Method, m: Rpc)
    requires cfg.maxEvents >= 64 && m.Response? && m.ok && Known(verb)
    requires Between(t, epoch, true, true, map[(Client, m.rid) := verb], 2)
    ensures var t1 := Noted(t.(conn := t.conn.(pending := map[])), Server, RpcAnswered(m.rid, verb, Client, true, m.rthread));
            ProcessResponse(cfg, t, Server, m) ==
            (if cfg.activation && verb == Initialize then
               Noted(t1, Server, InitializeHome(m.rid, m.home.Some? && m.home == cfg.expectedHome(epoch), m.home))
             else t1)
  {
    var t0 := t.(conn := t.conn.(pending := map[]));
    assert t.conn.pending - {(Client, m.rid)} == map[];
    var e := RpcAnswered(m.rid, verb, Client, true, m.rthread);
    RoomToEmit(cfg, t0, Server, e);
    var t1 := Noted(t0, Server, e);
    RoomToEmit(cfg, t1, Server, InitializeHome(m.rid, m.home.Some? && m.home == cfg.expectedHome(epoch), m.home));
    hide Emit;
  }

  // ---------- the sink ----------

  function Sides(client: bool, server: bool): (r: set<Option<Direction>>) {
    (if client then {Some(Client)} else {}) + (if server then {Some(Server)} else {})
  }

  /** A spotless state that has heard exactly this much. */
  predicate Spotless(p: Protocol, conn: int, l: Lease, upgrades: set<Option<Direction>>, k: Talk, rows: nat) {
    && p.conn == conn && p.lease == l && p.valid && !p.closed && !p.published
    && p.upgrades == upgrades && p.talk == k && p.turns == Turns(0, 0) && |p.rpcs| <= rows
  }

  ghost predicate Stage(
    sink: Sink, conn: int, epoch: nat, l: Lease, client: bool, server: bool, pending: Requests, k: Talk, room: nat)
  {
    && conn in sink.observer.conns
    && Between(Track(sink.observer.conns[conn], sink.observer.out), epoch, client, server, pending, room)
    && epoch in sink.protocols
    && Spotless(sink.protocols[epoch], conn, l, Sides(client, server), k, 64 - room)
  }

  predicate TalkReady(k: Talk) {
    && k.initialized && k.homeMatch == Some(true) && k.thread.id.Some?
    && (k.thread.id == k.thread.startedId || k.thread.barrier)
  }

  lemma AbsorbOne(ps: map<nat, Protocol>, r: Record)
    ensures Absorb(ps, [r]) == TakeRow(ps, r)
  {
    assert [r][..0] == [];
  }

  lemma AbsorbTwo(ps: map<nat, Protocol>, r: Record, q: Record)
    ensures Absorb(ps, [r, q]) == TakeRow(TakeRow(ps, r), q)
  {
    assert [r, q][..1] == [r];
    AbsorbOne(ps, r);
    hide TakeRow;
  }

  /** One acceptable row of speech. */
  lemma RowHeard(p: Protocol, conn: int, l: Lease, up: set<Option<Direction>>, k: Talk, rows: nat, r: Record)
    requires Spotless(p, conn, l, up, k, rows) && rows < 64 && Hear(l, k, r).fine
    requires (r.event.RpcSeen? && Known(r.event.verb)) || r.event.RpcAnswered? || r.event.InitializeHome?
    ensures Spotless(Take(p, r), conn, l, up, Hear(l, k, r).talk, rows + 1)
  {
    hide Hear;
  }

  /** One call that feeds a line: the observer's records reach the state, and it is announced as
      soon as it is ready. */
  ghost predicate Moved(cfg: Config, sink: Sink, call: Call, conn: int, epoch: nat, l: Lease, pending: Requests, k: Talk, room: nat)
    requires call.DataSeen?
  {
    var next := R.Apply(cfg, sink, call);
    if TalkReady(k) then
      |next.milestones| == |sink.milestones| + 1 && next.milestones[|sink.milestones|].epoch == epoch
      && next.milestones[|sink.milestones|].lease == l && next.milestones[|sink.milestones|].delivered == call.delivered
    else next.milestones == sink.milestones && Stage(next, conn, epoch, l, true, true, pending, k, room)
  }

  lemma HomesPrompt(cfg: Config, l: Lease, s: Session, homes: map<nat, Option<string>>)
    requires Prompts(cfg, l, s)
    ensures Prompts(WithHomes(cfg, homes), l, s)
  {
  }

  /** From the observer's new records to the call's outcome. */
  lemma Delivered(
    cfg: Config, sink: Sink, call: Call, conn: int, epoch: nat, l: Lease, pending: Requests, k: Talk, room: nat, t: Track, rows: seq<Record>)
    requires call.DataSeen? && call.conn == conn && call.epoch == epoch
    requires epoch in sink.protocols && sink.protocols[epoch].conn == conn
    requires ObserverSpec.Apply(WithHomes(cfg, Homes(sink.protocols)), sink.observer, Feed(conn, call.direction, call.data))
          == Put(sink.observer, conn, t)
    requires t.out.trace == sink.observer.out.trace + rows && Between(t, epoch, true, true, pending, room)
    requires var ps := Absorb(sink.protocols, rows);
             epoch in ps && Spotless(ps[epoch], conn, l, Sides(true, true), k, 64 - room)
    ensures Moved(cfg, sink, call, conn, epoch, l, pending, k, room)
  {
    hide ObserverSpec.Apply;
    hide WithHomes, Homes, Absorb;
    assert Rows(sink.observer.out.trace, t.out.trace) == rows;
    var s1 := Observe(cfg, sink, Feed(conn, call.direction, call.data));
    assert s1.protocols == Absorb(sink.protocols, rows);
    assert Boundary(s1.observer, conn);
    assert Sides(true, true) == {Some(Client), Some(Server)};
    assert Ready(s1.protocols[epoch]) <==> TalkReady(k);
  }

  lemma AskMoves(
    cfg: Config, l: Lease, s: Session, sink: Sink, conn: int, epoch: nat, pending: Requests, k: Talk, room: nat, d: Direction, code: byte)
    requires Prompts(cfg, l, s) && Stage(sink, conn, epoch, l, true, true, pending, k, room) && 1 <= room <= 32
    requires var m := Message(l, s, code);
             && m.Request? && Known(m.verb) && (m.id.Some? ==> |pending| < MAX_PENDING && (d, m.id.value) !in pending)
             && Hear(l, k, Row(sink, epoch, d, m)).fine
    ensures var m := Message(l, s, code);
            Moved(cfg, sink, DataSeen(conn, epoch, d, Line(d, code), true), conn, epoch, l,
                  if m.id.Some? then pending[(d, m.id.value) := m.verb] else pending, Hear(l, k, Row(sink, epoch, d, m)).talk, room - 1)
  {
    var homes := WithHomes(cfg, Homes(sink.protocols));
    HomesPrompt(cfg, l, s, Homes(sink.protocols));
    var m, t, row := Message(l, s, code), Track(sink.observer.conns[conn], sink.observer.out), Row(sink, epoch, d, Message(l, s, code));
    LineFed(homes, l, s, t, epoch, pending, d, code);
    AskNoted(homes, t, epoch, pending, d, m);
    hide Line, Hear, WithHomes, Homes, FeedTrack, ProcessRequest, Message, Known;
    var open := if m.id.Some? then pending[(d, m.id.value) := m.verb] else pending;
    var t2 := Noted(t.(conn := t.conn.(pending := open)), d, row.event);
    AbsorbOne(sink.protocols, row);
    RowHeard(sink.protocols[epoch], conn, l, Sides(true, true), k, 64 - room, row);
    hide Take, Absorb, Spotless;
    Delivered(cfg, sink, DataSeen(conn, epoch, d, Line(d, code), true), conn, epoch, l, open, Hear(l, k, row).talk, room - 1, t2, [row]);
  }

  function Row(sink: Sink, epoch: nat, d: Direction, m: Rpc): (r: Record)
    requires m.Request?
  {
    Record(RpcSeen(m.id, m.verb, m.params, m.thread), Some(epoch), sink.observer.out.nextSeq, Some(d))
  }

  function AnswerRow(sink: Sink, epoch: nat, verb: Method, m: Rpc): (r: Record)
    requires m.Response?
  {
    Record(RpcAnswered(m.rid, verb, Client, true, m.rthread), Some(epoch), sink.observer.out.nextSeq, Some(Server))
  }

  lemma ReplyMoves(
    cfg: Config, l: Lease, s: Session, sink: Sink, conn: int, epoch: nat, verb: Method, k: Talk, room: nat, code: byte)
    requires var m := Message(l, s, code);
             && m.Response? && m.ok && Known(verb) && verb != Initialize && 2 <= room <= 32
             && Prompts(cfg, l, s) && Stage(sink, conn, epoch, l, true, true, map[(Client, m.rid) := verb], k, room)
             && Hear(l, k, AnswerRow(sink, epoch, verb, m)).fine
    ensures Moved(cfg, sink, DataSeen(conn, epoch, Server, Line(Server, code), true), conn, epoch, l,
                  map[], Hear(l, k, AnswerRow(sink, epoch, verb, Message(l, s, code))).talk, room - 1)
  {
    var homes := WithHomes(cfg, Homes(sink.protocols));
    HomesPrompt(cfg, l, s, Homes(sink.protocols));
    var m, t := Message(l, s, code), Track(sink.observer.conns[conn], sink.observer.out);
    var row := AnswerRow(sink, epoch, verb, m);
    LineFed(homes, l, s, t, epoch, map[(Client, m.rid) := verb], Server, code);
    ReplyNoted(homes, t, epoch, verb, m);
    hide Line, Hear, WithHomes, Homes, FeedTrack, ProcessResponse, Message, Known;
    var t2 := Noted(t.(conn := t.conn.(pending := map[])), Server, row.event);
    AbsorbOne(sink.protocols, row);
    RowHeard(sink.protocols[epoch], conn, l, Sides(true, true), k, 64 - room, row);
    hide Take, Absorb, Spotless;
    Delivered(cfg, sink, DataSeen(conn, epoch, Server, Line(Server, code), true), conn, epoch, l, map[], Hear(l, k, row).talk, room - 1, t2, [row]);
  }

  function HomeRow(sink: Sink, epoch: nat, m: Rpc): (r: Record)
    requires m.Response?
  {
    Record(InitializeHome(m.rid, true, m.home), Some(epoch), sink.observer.out.nextSeq + 1, Some(Server))
  }

  /** The answer to initialize, with the leased home in it. */
  lemma WelcomeMoves(cfg: Config, l: Lease, s: Session, sink: Sink, conn: int, epoch: nat, k: Talk, room: nat)
    requires Prompts(cfg, l, s) && l.home.Some? && 3 <= room <= 32 && !k.initialized
    requires Stage(sink, conn, epoch, l, true, true, map[(Client, s.greeting) := Initialize], k, room)
    ensures Moved(cfg, sink, DataSeen(conn, epoch, Server, Line(Server, 2), true), conn, epoch, l,
                  map[], k.(initialize := Some(Some(s.greeting)), homeMatch := Some(true)), room - 2)
  {
    hide FeedTrack, ProcessResponse, Line, Absorb;
    var homes := WithHomes(cfg, Homes(sink.protocols));
    HomesPrompt(cfg, l, s, Homes(sink.protocols));
    var m, t := Message(l, s, 2), Track(sink.observer.conns[conn], sink.observer.out);
    var row, home := AnswerRow(sink, epoch, Initialize, m), HomeRow(sink, epoch, m);
    assert homes.expectedHome(epoch) == l.home;
    LineFed(homes, l, s, t, epoch, map[(Client, m.rid) := Initialize], Server, 2);
    ReplyNoted(homes, t, epoch, Initialize, m);
    assert Hear(l, k, row) == Heard(k, true);
    assert Hear(l, k, home) == Heard(k.(initialize := Some(Some(s.greeting)), homeMatch := Some(true)), true);
    hide Hear, WithHomes, Homes, Message;
    var t1 := Noted(t.(conn := t.conn.(pending := map[])), Server, row.event);
    var t2 := Noted(t1, Server, home.event);
    AbsorbTwo(sink.protocols, row, home);
    RowHeard(sink.protocols[epoch], conn, l, Sides(true, true), k, 64 - room, row);
    RowHeard(Take(sink.protocols[epoch], row), conn, l, Sides(true, true), k, 65 - room, home);
    hide Take, Spotless;
    assert t2.out.trace == sink.observer.out.trace + [row, home];
    Delivered(cfg, sink, DataSeen(conn, epoch, Server, Line(Server, 2), true), conn, epoch, l, map[],
              Hear(l, k, home).talk, room - 2, t2, [row, home]);
  }

  // ---------- opening ----------

  const K0 := Talk(None, None, false, NO_THREAD, {})

  lemma UpgradeFed(cfg: Config, l: Lease, s: Session, t: Track, epoch: nat, client: bool, server: bool, d: Direction, room: nat)
    requires Prompts(cfg, l, s) && Between(t, epoch, client, server, map[], room) && 1 <= room <= 32
    requires if d == Client then !client else !server
    ensures var r := FeedTrack(cfg, t, d, BLANK);
            && Between(r, epoch, client || d == Client, server || d == Server, map[], room - 1)
            && r.out.trace == t.out.trace + [Record(Upgraded, Some(epoch), t.out.nextSeq, Some(d))]
            && r.out.nextSeq == t.out.nextSeq + 1
  {
    assert [] + BLANK == BLANK && BLANK[..4] == BLANK && BLANK[4..] == [];
    assert BlankLineAt(BLANK, 0);
    assert HeaderEnd(BLANK, 0) == Some(4);
    var fed := WithBuffer(t, d, BLANK);
    var t1 := WithBuffer(fed, d, []);
    var t2 := if d == Client then t1.(conn := t1.conn.(clientKey := None)) else t1;
    var t3 := WithParser(t2, d, ParserOf(t2.conn, d).(handshakeDone := true));
    assert cfg.upgrade(d, BLANK, t.conn.clientKey) == GoodUpgrade(None);
    RoomToEmit(cfg, t3, d, Upgraded);
    hide Emit, HeaderEnd, Frames;
    assert ParseUpgrade(cfg, fed, d) == Noted(t3, d, Upgraded);
    NoMoreFrames(cfg, Noted(t3, d, Upgraded), d);
  }

  lemma UpgradeMoves(
    cfg: Config, l: Lease, s: Session, sink: Sink, conn: int, epoch: nat, client: bool, server: bool, d: Direction, room: nat)
    requires Prompts(cfg, l, s) && Stage(sink, conn, epoch, l, client, server, map[], K0, room) && 1 <= room <= 32
    requires if d == Client then !client else !server
    ensures var next := R.Apply(cfg, sink, DataSeen(conn, epoch, d, BLANK, true));
            && Stage(next, conn, epoch, l, client || d == Client, server || d == Server, map[], K0, room - 1)
            && next.milestones == sink.milestones
  {
    hide FeedTrack, Homes, Absorb;
    var homes := WithHomes(cfg, Homes(sink.protocols));
    HomesPrompt(cfg, l, s, Homes(sink.protocols));
    var t := Track(sink.observer.conns[conn], sink.observer.out);
    UpgradeFed(homes, l, s, t, epoch, client, server, d, room);
    hide WithHomes;
    var row := Record(Upgraded, Some(epoch), t.out.nextSeq, Some(d));
    AbsorbOne(sink.protocols, row);
    assert Sides(client, server) + {Some(d)} == Sides(client || d == Client, server || d == Server);
    var o := ObserverSpec.Apply(homes, sink.observer, Feed(conn, d, BLANK));
    assert Rows(sink.observer.out.trace, o.out.trace) == [row];
  }

  /** Connecting, whether the observer takes the epoch or refuses it as used. */
  lemma ReconnectMoves(cfg: Config, l: Lease, sink: Sink, conn: int, epoch: nat, room: nat)
    requires conn in sink.observer.conns && sink.observer.maxEpoch >= epoch && room <= 32
    requires Between(Track(sink.observer.conns[conn], sink.observer.out), epoch, false, false, map[], room)
    ensures var next := R.Apply(cfg, sink, Connected(conn, epoch, Some(l)));
            Stage(next, conn, epoch, l, false, false, map[], K0, room) && next.milestones == sink.milestones
  {
    var r := Restart(sink, conn, epoch, Some(l));
    assert ObserverSpec.Apply(WithHomes(cfg, Homes(r.protocols)), sink.observer, Open(conn, Some(epoch))) == sink.observer;
    assert Rows(sink.observer.out.trace, sink.observer.out.trace) == [];
    hide WithHomes, Homes;
    hide ObserverSpec.Apply;
    assert Absorb(r.protocols, []) == r.protocols;
    assert Sides(false, false) == {};
  }

  lemma ConnectMoves(cfg: Config, l: Lease, conn: int, epoch: nat)
    requires cfg.maxEvents >= 64 && epoch > 0
    ensures var next := R.Apply(cfg, SILENT, Connected(conn, epoch, Some(l)));
            && Stage(next, conn, epoch, l, false, false, map[], K0, 31) && next.milestones == []
            && next.observer.maxEpoch == epoch
  {
    hide ObserverSpec.Apply;
    hide WithHomes, Homes, Take;
    var r := Restart(SILENT, conn, epoch, Some(l));
    var row := Record(ConnectionOpen, Some(epoch), 1, None);
    HomesRoom(cfg, Homes(r.protocols));
    FirstOpen(WithHomes(cfg, Homes(r.protocols)), conn, epoch);
    AbsorbOne(r.protocols, row);
    OpenIgnored(r.protocols[epoch], row);
    hide Absorb;
    assert [row][0..] == [row];
    assert Sides(false, false) == {};
  }

  lemma HomesRoom(cfg: Config, homes: map<nat, Option<string>>)
    ensures WithHomes(cfg, homes).maxEvents == cfg.maxEvents
  {
  }

  lemma OpenIgnored(p: Protocol, row: Record)
    requires row.event.ConnectionOpen?
    ensures Take(p, row) == p
  {
  }

  lemma FirstOpen(cfg: Config, conn: int, epoch: nat)
    requires cfg.maxEvents >= 64 && epoch > 0
    ensures var o := ObserverSpec.Apply(cfg, IDLE, Open(conn, Some(epoch)));
            var row := Record(ConnectionOpen, Some(epoch), 1, None);
            && o.conns == map[conn := Conn(epoch, true, false, false, None, FRESH, FRESH, map[])]
            && o.out == Out(2, [row], [row]) && o.maxEpoch == epoch
  {
  }

  // ---------- the acts ----------

  function Play(cfg: Config, sink: Sink, calls: seq<Call>): (r: Sink) {
    if calls == [] then sink else R.Apply(cfg, Play(cfg, sink, calls[..|calls| - 1]), calls[|calls| - 1])
  }

  lemma {:induction false} PlayIsRun(cfg: Config, a: seq<Call>, b: seq<Call>)
    ensures R.Run(cfg, a + b) == Play(cfg, R.Run(cfg, a), b)
    decreases |b|
  {
    hide R.Apply;
    if b == [] {
      assert a + b == a;
    } else {
      assert (a + b)[..|a + b| - 1] == a + b[..|b| - 1];
      PlayIsRun(cfg, a, b[..|b| - 1]);
    }
  }

  lemma {:induction false} PlayOn(cfg: Config, sink: Sink, a: seq<Call>, b: seq<Call>)
    ensures Play(cfg, sink, a + b) == Play(cfg, Play(cfg, sink, a), b)
    decreases |b|
  {
    hide R.Apply;
    if b == [] {
      assert a + b == a;
    } else {
      assert (a + b)[..|a + b| - 1] == a + b[..|b| - 1];
      PlayOn(cfg, sink, a, b[..|b| - 1]);
    }
  }

  lemma PlayTwo(cfg: Config, sink: Sink, a: Call, b: Call)
    ensures Play(cfg, sink, [a]) == R.Apply(cfg, sink, a)
    ensures Play(cfg, sink, [a, b]) == R.Apply(cfg, R.Apply(cfg, sink, a), b)
  {
    hide R.Apply;
    assert [a][..0] == [] && [a, b][..1] == [a];
  }

  function Spoken(conn: int, epoch: nat, d: Direction, code: byte): (c: Call) {
    DataSeen(conn, epoch, d, Line(d, code), true)
  }

  function Handshakes(conn: int, epoch: nat): (r: seq<Call>) {
    [DataSeen(conn, epoch, Client, BLANK, true), DataSeen(conn, epoch, Server, BLANK, true)]
  }

  function Welcome(conn: int, epoch: nat): (r: seq<Call>) {
    [Spoken(conn, epoch, Client, 1), Spoken(conn, epoch, Server, 2)] + [Spoken(conn, epoch, Client, 3)]
  }

  function Threads(conn: int, epoch: nat): (r: seq<Call>) {
    [Spoken(conn, epoch, Client, 4), Spoken(conn, epoch, Server, 5)]
  }

  function Finale(conn: int, epoch: nat, s: Session): (r: seq<Call>) {
    if s.proof.Announced? then [Spoken(conn, epoch, Server, 6)]
    else [Spoken(conn, epoch, Client, 7), Spoken(conn, epoch, Server, 8)]
  }

  /** The whole session, one call per frame. */
  function Scenes(conn: int, epoch: nat, s: Session): (r: seq<Call>) {
    Handshakes(conn, epoch) + Welcome(conn, epoch) + Threads(conn, epoch) + Finale(conn, epoch, s)
  }

  function K1(s: Session): (k: Talk) {
    Talk(Some(Some(s.greeting)), Some(true), true, NO_THREAD, {})
  }

  function K2(l: Lease, s: Session): (k: Talk) {
    K1(s).(thread := if l.resume.Some? then Thread(None, Some(Some(s.opening)), None, Some(s.thread), None, true, false)
                     else Thread(Some(Some(s.opening)), None, None, Some(s.thread), None, false, false))
  }

  lemma HandshakesPlayed(cfg: Config, l: Lease, s: Session, sink: Sink, conn: int, epoch: nat)
    requires Prompts(cfg, l, s) && Stage(sink, conn, epoch, l, false, false, map[], K0, 31)
    ensures var r := Play(cfg, sink, Handshakes(conn, epoch));
            Stage(r, conn, epoch, l, true, true, map[], K0, 29) && r.milestones == sink.milestones
  {
    hide R.Apply;
    hide Prompts, Stage;
    UpgradeMoves(cfg, l, s, sink, conn, epoch, false, false, Client, 31);
    var s1 := R.Apply(cfg, sink, DataSeen(conn, epoch, Client, BLANK, true));
    UpgradeMoves(cfg, l, s, s1, conn, epoch, true, false, Server, 30);
    PlayTwo(cfg, sink, DataSeen(conn, epoch, Client, BLANK, true), DataSeen(conn, epoch, Server, BLANK, true));
  }

  lemma WelcomePlayed(cfg: Config, l: Lease, s: Session, sink: Sink, conn: int, epoch: nat)
    requires Prompts(cfg, l, s) && l.home.Some? && Stage(sink, conn, epoch, l, true, true, map[], K0, 29)
    ensures var r := Play(cfg, sink, Welcome(conn, epoch));
            Stage(r, conn, epoch, l, true, true, map[], K1(s), 25) && r.milestones == sink.milestones
  {
    hide R.Apply;
    hide Prompts, Stage, Line;
    AskMoves(cfg, l, s, sink, conn, epoch, map[], K0, 29, Client, 1);
    var s1 := R.Apply(cfg, sink, Spoken(conn, epoch, Client, 1));
    WelcomeMoves(cfg, l, s, s1, conn, epoch, K0.(initialize := Some(Some(s.greeting))), 28);
    var s2 := R.Apply(cfg, s1, Spoken(conn, epoch, Server, 2));
    PlayTwo(cfg, sink, Spoken(conn, epoch, Client, 1), Spoken(conn, epoch, Server, 2));
    AskMoves(cfg, l, s, s2, conn, epoch, map[], K1(s).(initialized := false), 26, Client, 3);
    PlayOn(cfg, sink, [Spoken(conn, epoch, Client, 1), Spoken(conn, epoch, Server, 2)], [Spoken(conn, epoch, Client, 3)]);
    PlayTwo(cfg, s2, Spoken(conn, epoch, Client, 3), Spoken(conn, epoch, Client, 3));
  }

  lemma ThreadsPlayed(cfg: Config, l: Lease, s: Session, sink: Sink, conn: int, epoch: nat)
    requires Prompts(cfg, l, s) && SessionFits(l, s) && Stage(sink, conn, epoch, l, true, true, map[], K1(s), 25)
    ensures var r := Play(cfg, sink, Threads(conn, epoch));
            Stage(r, conn, epoch, l, true, true, map[], K2(l, s), 23) && r.milestones == sink.milestones
  {
    hide R.Apply;
    hide Prompts, Stage, Line, ThreadId;
    var verb := if l.resume.Some? then ThreadResume else ThreadStart;
    var asked := K1(s).(thread := if l.resume.Some? then NO_THREAD.(resumeKey := Some(Some(s.opening)))
                                  else NO_THREAD.(startKey := Some(Some(s.opening))));
    AskMoves(cfg, l, s, sink, conn, epoch, map[], K1(s), 25, Client, 4);
    var s1 := R.Apply(cfg, sink, Spoken(conn, epoch, Client, 4));
    assert Stage(s1, conn, epoch, l, true, true, map[(Client, s.opening) := verb], asked, 24);
    ReplyMoves(cfg, l, s, s1, conn, epoch, verb, asked, 24, 5);
    PlayTwo(cfg, sink, Spoken(conn, epoch, Client, 4), Spoken(conn, epoch, Server, 5));
  }

  /** Exactly one announcement more, and it is this epoch's. */
  ghost predicate OneMilestoneMore(sink: Sink, next: Sink, epoch: nat, l: Lease) {
    |next.milestones| == |sink.milestones| + 1 &&
    var m := next.milestones[|sink.milestones|];
    m.epoch == epoch && m.lease == l && m.delivered
  }

  lemma FinalePlayed(cfg: Config, l: Lease, s: Session, sink: Sink, conn: int, epoch: nat)
    requires Prompts(cfg, l, s) && SessionFits(l, s) && Stage(sink, conn, epoch, l, true, true, map[], K2(l, s), 23)
    ensures OneMilestoneMore(sink, Play(cfg, sink, Finale(conn, epoch, s)), epoch, l)
  {
    hide R.Apply;
    hide Prompts, Stage, Line, ThreadId;
    match s.proof
    case Announced =>
      AskMoves(cfg, l, s, sink, conn, epoch, map[], K2(l, s), 23, Server, 6);
      PlayTwo(cfg, sink, Spoken(conn, epoch, Server, 6), Spoken(conn, epoch, Server, 6));
    case SkillsListed(id) =>
      AskMoves(cfg, l, s, sink, conn, epoch, map[], K2(l, s), 23, Client, 7);
      var s1 := R.Apply(cfg, sink, Spoken(conn, epoch, Client, 7));
      var asked := K2(l, s).(skillsPending := {Some(id)}, thread := K2(l, s).thread.(skillsKey := Some(Some(id))));
      assert Stage(s1, conn, epoch, l, true, true, map[(Client, id) := SkillsList], asked, 22);
      ReplyMoves(cfg, l, s, s1, conn, epoch, SkillsList, asked, 22, 8);
      PlayTwo(cfg, sink, Spoken(conn, epoch, Client, 7), Spoken(conn, epoch, Server, 8));
  }

  lemma ScenesPlayed(cfg: Config, l: Lease, s: Session, sink: Sink, conn: int, epoch: nat)
    requires Prompts(cfg, l, s) && SessionFits(l, s) && l.home.Some?
    requires Stage(sink, conn, epoch, l, false, false, map[], K0, 31)
    ensures OneMilestoneMore(sink, Play(cfg, sink, Scenes(conn, epoch, s)), epoch, l)
  {
    hide Play, Prompts, Stage, SessionFits, Handshakes, Welcome, Threads, Finale;
    var a, b, c, d := Handshakes(conn, epoch), Welcome(conn, epoch), Threads(conn, epoch), Finale(conn, epoch, s);
    HandshakesPlayed(cfg, l, s, sink, conn, epoch);
    var s1 := Play(cfg, sink, a);
    WelcomePlayed(cfg, l, s, s1, conn, epoch);
    var s2 := Play(cfg, s1, b);
    ThreadsPlayed(cfg, l, s, s2, conn, epoch);
    var s3 := Play(cfg, s2, c);
    FinalePlayed(cfg, l, s, s3, conn, epoch);
    PlayOn(cfg, sink, a, b);
    PlayOn(cfg, sink, a + b, c);
    PlayOn(cfg, sink, a + b + c, d);
  }

  lemma StagehandPrompts(l: Lease, s: Session)
    ensures Prompts(Stagehand(l, s), l, s)
  {
  }

  /** The script is enough: for every lease with a home and every session that fits it, the run
      of calls that performs it ends with the one milestone of its epoch. */
  lemma ScriptIsEnough(l: Lease, s: Session, conn: int, epoch: nat)
    requires SessionFits(l, s) && l.home.Some? && epoch > 0
    ensures var r := R.Run(Stagehand(l, s), [Connected(conn, epoch, Some(l))] + Scenes(conn, epoch, s));
            |r.milestones| == 1 && r.milestones[0].epoch == epoch && r.milestones[0].lease == l && r.milestones[0].delivered
  {
    var cfg, first := Stagehand(l, s), [Connected(conn, epoch, Some(l))];
    StagehandPrompts(l, s);
    ConnectMoves(cfg, l, conn, epoch);
    assert first[..0] == [];
    assert R.Run(cfg, first) == R.Apply(cfg, SILENT, first[0]);
    hide Play, Stage, Scenes, Prompts, SessionFits, Stagehand;
    hide R.Apply;
    ScenesPlayed(cfg, l, s, R.Run(cfg, first), conn, epoch);
    PlayIsRun(cfg, first, Scenes(conn, epoch, s));
  }

  lemma GapKeepsObserver(cfg: Config, sink: Sink, epoch: nat)
    ensures var r := R.Apply(cfg, sink, GapReported(epoch)); r.observer == sink.observer && r.milestones == sink.milestones
  {
  }

  /** A relay gap can be forgotten: a second connect of the same epoch, which the observer refuses
      as used, starts the state afresh all the same, and the epoch is then announced. */
  lemma GapForgotten(l: Lease, s: Session, conn: int, epoch: nat)
    requires SessionFits(l, s) && l.home.Some? && epoch > 0
    ensures var again := [Connected(conn, epoch, Some(l)), GapReported(epoch), Connected(conn, epoch, Some(l))];
            var r := R.Run(Stagehand(l, s), again + Scenes(conn, epoch, s));
            |r.milestones| == 1 && r.milestones[0].epoch == epoch && r.milestones[0].lease == l && r.milestones[0].delivered
  {
    var cfg, connect := Stagehand(l, s), Connected(conn, epoch, Some(l));
    var again := [connect, GapReported(epoch), connect];
    StagehandPrompts(l, s);
    ConnectMoves(cfg, l, conn, epoch);
    var s1 := R.Apply(cfg, SILENT, connect);
    var s2 := R.Apply(cfg, s1, GapReported(epoch));
    GapKeepsObserver(cfg, s1, epoch);
    hide R.Apply;
    hide Stagehand, Scenes, SessionFits, Prompts;
    ReconnectMoves(cfg, l, s2, conn, epoch, 31);
    var s3 := R.Apply(cfg, s2, connect);
    assert again[..2] == [connect, GapReported(epoch)] && again[..2][..1] == [connect] && [connect][..0] == [];
    assert R.Run(cfg, [connect]) == s1 && R.Run(cfg, again[..2]) == s2 && R.Run(cfg, again) == s3;
    hide Play, Stage;
    ScenesPlayed(cfg, l, s, s3, conn, epoch);
    PlayIsRun(cfg, again, Scenes(conn, epoch, s));
  }
}
