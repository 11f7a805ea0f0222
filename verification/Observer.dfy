/** The side-channel observer: one connection's parsers, pending requests and emitted records,
    as pure functions over everything one callback can touch. */
module ObserverSpec {
  import opened Bytes

  datatype Direction = Client | Server

  function Opposite(d: Direction): Direction {
    if d == Client then Server else Client
  }

  datatype Id = Number(n: int) | Name(s: string)

  datatype Method =
    | Initialize | Initialized | ThreadStart | ThreadResume | ThreadStarted | SkillsList
    | OtherKnown(known: string)
    | TurnStart | TurnSteer | Opaque(name: string)

  predicate Known(m: Method) {
    !m.TurnStart? && !m.TurnSteer? && !m.Opaque?
  }

  /** The two metadata fields that anything downstream looks at. */
  datatype Info = Info(thread: Option<string>, cwd: Option<string>)

  /** What JSON decoding and the shape checks make of one text message. */
  datatype Rpc =
    | Malformed(text: string)
    | Request(id: Option<Id>, verb: Method, params: Info, thread: Info)
    | Response(rid: Id, ok: bool, rthread: Info, home: Option<string>)

  datatype Why =
    | InputTooLarge | HeaderTooLarge | BadHandshake(text: string)
    | ReservedBits | MaskDirection | BadLength | UnsupportedOpcode | BadControl | FrameTooLarge | BadClose
    | UnexpectedContinuation | MessageTooLarge | NewDataDuringFragment | BinaryMessage
    | BadMessage(text: string) | PendingTooMany | DuplicateRequest
    | Reopened | IncompleteMessage | IncompleteUpgrade | IncompleteFrame
    | UnknownConnection | QueueOverflow

  datatype Event =
    | ConnectionOpen | ConnectionClose | Gap(why: Why) | Upgraded | Control(opcode: nat)
    | RpcSeen(id: Option<Id>, verb: Method, params: Info, thread: Info)
    | RpcAnswered(rid: Id, answered: Method, asker: Direction, ok: bool, rthread: Info)
    | RpcUnknown(uid: Option<Id>, umethod: Option<Method>, response: bool)
    | InitializeHome(hid: Id, matches: bool, home: Option<string>)

  datatype Record = Record(event: Event, epoch: Option<nat>, localSeq: nat, direction: Option<Direction>)

  datatype Upgrade = BadUpgrade(text: string) | GoodUpgrade(key: Option<bytes>)

  datatype Config = Config(
    maxHeader: nat, maxFrame: nat, maxMessage: nat, maxEvents: nat,
    decode: bytes -> Rpc,
    upgrade: (Direction, bytes, Option<bytes>) -> Upgrade,
    closeOk: bytes -> bool,
    activation: bool, expectedHome: nat -> Option<string>)

  const MAX_PENDING := 256

  datatype Parser = Parser(buffer: bytes, handshakeDone: bool, fragmentOpcode: Option<nat>, fragmentPayload: bytes)

  const FRESH := Parser([], false, None, [])

  datatype Conn = Conn(
    epoch: nat, valid: bool, closed: bool, overflowed: bool, clientKey: Option<bytes>,
    client: Parser, server: Parser, pending: map<(Direction, Id), Method>)

  /** Sequence counter, event queue, and every record ever appended to it. */
  datatype Out = Out(nextSeq: nat, queue: seq<Record>, trace: seq<Record>)

  /** Everything a callback on one connection touches. */
  datatype Track = Track(conn: Conn, out: Out)

  function ParserOf(c: Conn, d: Direction): (p: Parser) {
    if d == Client then c.client else c.server
  }

  function WithParser(t: Track, d: Direction, p: Parser): (r: Track) {
    t.(conn := if d == Client then t.conn.(client := p) else t.conn.(server := p))
  }

  function Buffer(t: Track, d: Direction): bytes {
    ParserOf(t.conn, d).buffer
  }

  function WithBuffer(t: Track, d: Direction, b: bytes): (r: Track) {
    WithParser(t, d, ParserOf(t.conn, d).(buffer := b))
  }

  function Append(o: Out, r: Record, next: nat): (o': Out) {
    Out(next, o.queue + [r], o.trace + [r])
  }

  function Cleared(p: Parser): Parser {
    p.(buffer := [], fragmentOpcode := None, fragmentPayload := [])
  }

  function Invalidate(c: Conn): (r: Conn) {
    c.(valid := false, client := Cleared(c.client), server := Cleared(c.server), pending := map[])
  }

  /** The last queue slot is kept for an overflow gap, which also ends the connection's evidence. */
  function Emit(cfg: Config, t: Track, d: Option<Direction>, e: Event): (r: Track) {
    if t.conn.overflowed then t
    else if |t.out.queue| + 1 >= cfg.maxEvents then
      Track(Invalidate(t.conn).(overflowed := true),
            Append(t.out, Record(Gap(QueueOverflow), Some(t.conn.epoch), t.out.nextSeq + 1, d), t.out.nextSeq + 2))
    else
      t.(out := Append(t.out, Record(e, Some(t.conn.epoch), t.out.nextSeq, d), t.out.nextSeq + 1))
  }

  function GapNow(cfg: Config, t: Track, d: Direction, why: Why): (r: Track) {
    if t.conn.valid then Emit(cfg, t.(conn := Invalidate(t.conn)), Some(d), Gap(why)) else t
  }

  // ---------- frames ----------

  datatype Seen = Wait | Broken(why: Why) | Whole(fin: bool, opcode: nat, payload: bytes, size: nat)

  datatype Measured = Unmeasured | Mismeasured | Measure(length: nat, offset: nat)

  function MeasureFrame(buf: bytes): (r: Measured)
    requires |buf| >= 2
    ensures r.Measure? ==> 2 <= r.offset <= |buf|
  {
    var code := buf[1] as int % 128;
    if code < 126 then Measure(code, 2)
    else if code == 126 then
      if |buf| < 4 then Unmeasured else Measure(BigEndian(buf[2..4]), 4)
    else if |buf| < 10 then Unmeasured
    else if buf[2] >= 128 then Mismeasured
    else Measure(BigEndian(buf[2..10]), 10)
  }

  function SeeFrame(cfg: Config, d: Direction, buf: bytes): (r: Seen)
    ensures r.Whole? ==> 2 <= r.size <= |buf|
  {
    if |buf| < 2 then Wait
    else
      var fin, opcode, masked := buf[0] >= 128, buf[0] as int % 16, buf[1] >= 128;
      if buf[0] as int / 16 % 8 != 0 then Broken(ReservedBits)
      else if masked != (d == Client) then Broken(MaskDirection)
      else
        match MeasureFrame(buf)
        case Unmeasured => Wait
        case Mismeasured => Broken(BadLength)
        case Measure(length, offset) =>
          if opcode >= 11 then Broken(UnsupportedOpcode)
          else if opcode >= 8 && (!fin || length > 125) then Broken(BadControl)
          else if length > cfg.maxFrame then Broken(FrameTooLarge)
          else
            var start := offset + if masked then 4 else 0;
            var total := start + length;
            if |buf| < total then Wait
            else
              Whole(fin, opcode,
                    if masked then Masked(buf[start..total], buf[offset..start]) else buf[start..total], total)
  }

  // ---------- messages ----------

  function ProcessRequest(cfg: Config, t: Track, d: Direction, m: Rpc): (r: Track)
    requires m.Request?
  {
    if m.id.Some? && |t.conn.pending| >= MAX_PENDING then GapNow(cfg, t, d, PendingTooMany)
    else if m.id.Some? && (d, m.id.value) in t.conn.pending then GapNow(cfg, t, d, DuplicateRequest)
    else
      var t1 := if m.id.Some? then t.(conn := t.conn.(pending := t.conn.pending[(d, m.id.value) := m.verb])) else t;
      if Known(m.verb) then Emit(cfg, t1, Some(d), RpcSeen(m.id, m.verb, m.params, m.thread))
      else Emit(cfg, t1, Some(d), RpcUnknown(m.id, Some(m.verb), false))
  }

  function ProcessResponse(cfg: Config, t: Track, d: Direction, m: Rpc): (r: Track)
    requires m.Response?
  {
    var key := (Opposite(d), m.rid);
    var asked := if key in t.conn.pending then Some(t.conn.pending[key]) else None;
    var t1 := t.(conn := t.conn.(pending := t.conn.pending - {key}));
    if asked.None? || !Known(asked.value) then Emit(cfg, t1, Some(d), RpcUnknown(Some(m.rid), asked, true))
    else
      var t2 := Emit(cfg, t1, Some(d),
                     RpcAnswered(m.rid, asked.value, Opposite(d), m.ok, if m.ok then m.rthread else Info(None, None)));
      if cfg.activation && d == Server && asked.value == Initialize && t2.conn.valid && m.ok then
        Emit(cfg, t2, Some(d),
             InitializeHome(m.rid, m.home.Some? && m.home == cfg.expectedHome(t2.conn.epoch), m.home))
      else t2
  }

  function ProcessText(cfg: Config, t: Track, d: Direction, payload: bytes): (r: Track) {
    var m := cfg.decode(payload);
    match m
    case Malformed(text) => GapNow(cfg, t, d, BadMessage(text))
    case Request(_, _, _, _) => ProcessRequest(cfg, t, d, m)
    case Response(_, _, _, _) => ProcessResponse(cfg, t, d, m)
  }

  function HandleFrame(cfg: Config, t: Track, d: Direction, fin: bool, opcode: nat, payload: bytes): (r: Track) {
    var p := ParserOf(t.conn, d);
    if opcode >= 8 then
      if opcode == 8 && !cfg.closeOk(payload) then GapNow(cfg, t, d, BadClose)
      else Emit(cfg, t, Some(d), Control(opcode))
    else if opcode == 0 then
      if p.fragmentOpcode.None? then GapNow(cfg, t, d, UnexpectedContinuation)
      else if |p.fragmentPayload| + |payload| > cfg.maxMessage then GapNow(cfg, t, d, MessageTooLarge)
      else if !fin then WithParser(t, d, p.(fragmentPayload := p.fragmentPayload + payload))
      else
        var t1 := WithParser(t, d, p.(fragmentOpcode := None, fragmentPayload := []));
        if p.fragmentOpcode == Some(1) then ProcessText(cfg, t1, d, p.fragmentPayload + payload)
        else GapNow(cfg, t1, d, BinaryMessage)
    else if opcode == 1 || opcode == 2 then
      if p.fragmentOpcode.Some? then GapNow(cfg, t, d, NewDataDuringFragment)
      else if |payload| > cfg.maxMessage then GapNow(cfg, t, d, MessageTooLarge)
      else if !fin then WithParser(t, d, p.(fragmentOpcode := Some(opcode), fragmentPayload := payload))
      else if opcode == 1 then ProcessText(cfg, t, d, payload)
      else GapNow(cfg, t, d, BinaryMessage)
    else GapNow(cfg, t, d, UnsupportedOpcode)
  }

  // ---------- what is behind a frame does not matter while it is handled ----------

  /** Two results on tracks that differ only in unread bytes: the same, with those bytes still
      unread, or both invalidated and then exactly the same. */
  predicate Parallel(plain: Track, other: Track, d: Direction, rest: bytes) {
    if plain.conn.valid then other == WithBuffer(plain, d, rest)
    else other == plain && Buffer(plain, d) == []
  }

  lemma EmitParallel(cfg: Config, t: Track, d: Direction, rest: bytes, e: Event)
    requires t.conn.valid
    ensures Parallel(Emit(cfg, t, Some(d), e), Emit(cfg, WithBuffer(t, d, rest), Some(d), e), d, rest)
  {
  }

  lemma GapParallel(cfg: Config, t: Track, d: Direction, rest: bytes, why: Why)
    requires t.conn.valid
    ensures Parallel(GapNow(cfg, t, d, why), GapNow(cfg, WithBuffer(t, d, rest), d, why), d, rest)
  {
    assert Invalidate(WithBuffer(t, d, rest).conn) == Invalidate(t.conn);
  }

  lemma RequestParallel(cfg: Config, t: Track, d: Direction, rest: bytes, m: Rpc)
    requires t.conn.valid && m.Request?
    ensures Parallel(ProcessRequest(cfg, t, d, m), ProcessRequest(cfg, WithBuffer(t, d, rest), d, m), d, rest)
  {
    hide Emit, GapNow;
    GapParallel(cfg, t, d, rest, PendingTooMany);
    GapParallel(cfg, t, d, rest, DuplicateRequest);
    var t1 := if m.id.Some? then t.(conn := t.conn.(pending := t.conn.pending[(d, m.id.value) := m.verb])) else t;
    var e := if Known(m.verb) then RpcSeen(m.id, m.verb, m.params, m.thread) else RpcUnknown(m.id, Some(m.verb), false);
    EmitParallel(cfg, t1, d, rest, e);
  }

  lemma ResponseParallel(cfg: Config, t: Track, d: Direction, rest: bytes, m: Rpc)
    requires t.conn.valid && m.Response?
    ensures Parallel(ProcessResponse(cfg, t, d, m), ProcessResponse(cfg, WithBuffer(t, d, rest), d, m), d, rest)
  {
    hide Emit;
    var key := (Opposite(d), m.rid);
    var asked := if key in t.conn.pending then Some(t.conn.pending[key]) else None;
    var t1 := t.(conn := t.conn.(pending := t.conn.pending - {key}));
    EmitParallel(cfg, t1, d, rest, RpcUnknown(Some(m.rid), asked, true));
    if asked.Some? {
      var e := RpcAnswered(m.rid, asked.value, Opposite(d), m.ok, if m.ok then m.rthread else Info(None, None));
      EmitParallel(cfg, t1, d, rest, e);
      var t2 := Emit(cfg, t1, Some(d), e);
      if t2.conn.valid {
        EmitParallel(cfg, t2, d, rest,
                     InitializeHome(m.rid, m.home.Some? && m.home == cfg.expectedHome(t2.conn.epoch), m.home));
      }
    }
  }

  lemma TextParallel(cfg: Config, t: Track, d: Direction, rest: bytes, payload: bytes)
    requires t.conn.valid
    ensures Parallel(ProcessText(cfg, t, d, payload), ProcessText(cfg, WithBuffer(t, d, rest), d, payload), d, rest)
  {
    hide GapNow, ProcessRequest, ProcessResponse, Parallel, WithBuffer;
    var m := cfg.decode(payload);
    match m
    case Malformed(text) => GapParallel(cfg, t, d, rest, BadMessage(text));
    case Request(_, _, _, _) => RequestParallel(cfg, t, d, rest, m);
    case Response(_, _, _, _) => ResponseParallel(cfg, t, d, rest, m);
  }

  lemma HandleParallel(
    cfg: Config, t: Track, d: Direction, rest: bytes, fin: bool, opcode: nat, payload: bytes)
    requires t.conn.valid
    ensures Parallel(HandleFrame(cfg, t, d, fin, opcode, payload),
                     HandleFrame(cfg, WithBuffer(t, d, rest), d, fin, opcode, payload), d, rest)
  {
    hide Emit, GapNow, ProcessText;
    var p := ParserOf(t.conn, d);
    forall why ensures Parallel(GapNow(cfg, t, d, why), GapNow(cfg, WithBuffer(t, d, rest), d, why), d, rest) {
      GapParallel(cfg, t, d, rest, why);
    }
    if opcode >= 8 {
      EmitParallel(cfg, t, d, rest, Control(opcode));
    } else if opcode == 0 {
      var t1 := WithParser(t, d, p.(fragmentOpcode := None, fragmentPayload := []));
      GapParallel(cfg, t1, d, rest, BinaryMessage);
      TextParallel(cfg, t1, d, rest, p.fragmentPayload + payload);
    } else if opcode == 1 {
      TextParallel(cfg, t, d, rest, payload);
    }
  }

  /** Handling a frame leaves the bytes behind it alone, or drops them all with the connection. */
  lemma HandleKeepsBuffer(cfg: Config, t: Track, d: Direction, fin: bool, opcode: nat, payload: bytes)
    requires t.conn.valid
    ensures var r := HandleFrame(cfg, t, d, fin, opcode, payload);
            Buffer(r, d) == if r.conn.valid then Buffer(t, d) else []
  {
    assert WithBuffer(t, d, Buffer(t, d)) == t;
    HandleParallel(cfg, t, d, Buffer(t, d), fin, opcode, payload);
    hide HandleFrame;
  }

  function Frames(cfg: Config, t: Track, d: Direction): (r: Track)
    decreases |Buffer(t, d)|
  {
    if !t.conn.valid then t
    else
      match SeeFrame(cfg, d, Buffer(t, d))
      case Wait => t
      case Broken(why) => GapNow(cfg, t, d, why)
      case Whole(fin, opcode, payload, size) =>
        var t1 := WithBuffer(t, d, Buffer(t, d)[size..]);
        HandleKeepsBuffer(cfg, t1, d, fin, opcode, payload);
        Frames(cfg, HandleFrame(cfg, t1, d, fin, opcode, payload), d)
  }

  lemma GapEnds(cfg: Config, t: Track, d: Direction, why: Why)
    ensures !GapNow(cfg, t, d, why).conn.valid
  {
  }

  lemma FramesOver(cfg: Config, t: Track, d: Direction)
    requires !t.conn.valid
    ensures Frames(cfg, t, d) == t
  {
  }

  // ---------- the upgrade ----------

  predicate BlankLineAt(b: bytes, i: int) {
    0 <= i && i + 4 <= |b| && b[i] == 13 && b[i + 1] == 10 && b[i + 2] == 13 && b[i + 3] == 10
  }

  function HeaderEnd(b: bytes, from: nat): (r: Option<nat>)
    ensures r.Some? ==> 4 + from <= r.value <= |b| && BlankLineAt(b, r.value - 4)
    ensures r.Some? ==> forall j :: from <= j < r.value - 4 ==> !BlankLineAt(b, j)
    ensures r.None? ==> forall j :: from <= j ==> !BlankLineAt(b, j)
    decreases |b| - from
  {
    if from + 4 > |b| then None else if BlankLineAt(b, from) then Some(from + 4) else HeaderEnd(b, from + 1)
  }

  function ParseUpgrade(cfg: Config, t: Track, d: Direction): (r: Track) {
    var buf := Buffer(t, d);
    match HeaderEnd(buf, 0)
    case None => if |buf| > cfg.maxHeader then GapNow(cfg, t, d, HeaderTooLarge) else t
    case Some(end) =>
      if end > cfg.maxHeader then GapNow(cfg, t, d, HeaderTooLarge)
      else
        var t1 := WithBuffer(t, d, buf[end..]);
        match cfg.upgrade(d, buf[..end], t.conn.clientKey)
        case BadUpgrade(text) => GapNow(cfg, t1, d, BadHandshake(text))
        case GoodUpgrade(key) =>
          var t2 := if d == Client then t1.(conn := t1.conn.(clientKey := key)) else t1;
          Emit(cfg, WithParser(t2, d, ParserOf(t2.conn, d).(handshakeDone := true)), Some(d), Upgraded)
  }

  function BufferLimit(cfg: Config): nat {
    cfg.maxMessage + cfg.maxHeader + 32
  }

  /** The part of `feed` behind the connection lookup. */
  function FeedTrack(cfg: Config, t: Track, d: Direction, data: bytes): (r: Track) {
    if !t.conn.valid then t
    else if |Buffer(t, d)| + |data| > BufferLimit(cfg) then GapNow(cfg, t, d, InputTooLarge)
    else Advance(cfg, WithBuffer(t, d, Buffer(t, d) + data), d)
  }

  function Advance(cfg: Config, t: Track, d: Direction): (r: Track) {
    var t1 := if ParserOf(t.conn, d).handshakeDone then t else ParseUpgrade(cfg, t, d);
    if ParserOf(t1.conn, d).handshakeDone then Frames(cfg, t1, d) else t1
  }

  // ---------- the observer as a whole ----------

  datatype Observer = Observer(conns: map<int, Conn>, maxEpoch: nat, nextEpoch: nat, out: Out)

  const IDLE := Observer(map[], 0, 1, Out(1, [], []))

  datatype Op =
    | Open(conn: int, epoch: Option<nat>)
    | SetPending(conn: int)
    | Feed(conn: int, direction: Direction, data: bytes)
    | Close(conn: int)
    | DrainEvents

  function Put(o: Observer, c: int, t: Track): (r: Observer) {
    o.(conns := o.conns[c := t.conn], out := t.out)
  }

  function EmitUnknown(cfg: Config, out: Out, d: Option<Direction>): (r: Out) {
    if |out.queue| + 1 >= cfg.maxEvents then
      Append(out, Record(Gap(QueueOverflow), None, out.nextSeq + 1, d), out.nextSeq + 2)
    else Append(out, Record(Gap(UnknownConnection), None, out.nextSeq, d), out.nextSeq + 1)
  }

  /** Ends whatever the name was used for before. */
  function Retire(cfg: Config, t: Track): (r: Track) {
    var t1 := if t.conn.valid then Emit(cfg, t.(conn := Invalidate(t.conn)), None, Gap(Reopened)) else t;
    Emit(cfg, t1.(conn := t1.conn.(closed := true)), None, ConnectionClose)
  }

  function OpenAt(cfg: Config, o: Observer, c: int, epoch: nat): (r: Observer) {
    var o1 := if c in o.conns && !o.conns[c].closed then Put(o, c, Retire(cfg, Track(o.conns[c], o.out))) else o;
    var t := Emit(cfg, Track(Conn(epoch, true, false, false, None, FRESH, FRESH, map[]), o1.out), None, ConnectionOpen);
    Put(o1, c, t).(maxEpoch := epoch, nextEpoch := if epoch + 1 > o.nextEpoch then epoch + 1 else o.nextEpoch)
  }

  function UnfinishedIn(c: Conn, d: Direction): (r: Option<Why>) {
    var p := ParserOf(c, d);
    if p.fragmentOpcode.Some? then Some(IncompleteMessage)
    else if !p.handshakeDone && (p.buffer != [] || c.client.handshakeDone || c.server.handshakeDone) then Some(IncompleteUpgrade)
    else if p.buffer != [] then Some(IncompleteFrame)
    else None
  }

  function CloseTrack(cfg: Config, t: Track): (r: Track) {
    var t1 :=
      if !t.conn.valid then t
      else if UnfinishedIn(t.conn, Client).Some? then GapNow(cfg, t, Client, UnfinishedIn(t.conn, Client).value)
      else if UnfinishedIn(t.conn, Server).Some? then GapNow(cfg, t, Server, UnfinishedIn(t.conn, Server).value)
      else t;
    Emit(cfg, t1.(conn := t1.conn.(closed := true, valid := false)), None, ConnectionClose)
  }

  /** One call. An epoch that is not newer than all before raises and changes nothing. */
  function Apply(cfg: Config, o: Observer, op: Op): (r: Observer) {
    match op
    case Open(c, wanted) =>
      var epoch := if wanted.Some? then wanted.value else o.nextEpoch;
      if epoch <= o.maxEpoch then o else OpenAt(cfg, o, c, epoch)
    case SetPending(c) =>
      if c in o.conns && !o.conns[c].closed then o.(conns := o.conns[c := o.conns[c].(valid := false)]) else o
    case Feed(c, d, data) =>
      if c !in o.conns || o.conns[c].closed then o.(out := EmitUnknown(cfg, o.out, Some(d)))
      else Put(o, c, FeedTrack(cfg, Track(o.conns[c], o.out), d, data))
    case Close(c) =>
      if c !in o.conns then o.(out := EmitUnknown(cfg, o.out, None))
      else if o.conns[c].closed then o
      else Put(o, c, CloseTrack(cfg, Track(o.conns[c], o.out)))
    case DrainEvents => o.(out := o.out.(queue := []))
  }

  function Run(cfg: Config, ops: seq<Op>): (r: Observer) {
    if ops == [] then IDLE else Apply(cfg, Run(cfg, ops[..|ops| - 1]), ops[|ops| - 1])
  }
}
