/** Exactly what keeps a connection's evidence alive: which bytes the observer can read, what it
    then records, and that anything else is reported as a gap. */
module ObserverReading {
  import opened Bytes
  import opened ObserverSpec
  import opened ObserverSplit

  // ---------- the rules of section 5.2 of RFC 6455, octet by octet ----------

  datatype Frame = Frame(fin: bool, opcode: nat, payload: bytes)

  /** Reserved bits clear, and masked exactly if a client sends it. */
  predicate Marked(d: Direction, b: bytes)
    requires |b| >= 2
  {
    b[0] as int / 16 % 8 == 0 && (b[1] >= 128 <==> d == Client)
  }

  /** Octets of an extended length field. */
  function Extra(b: bytes): nat
    requires |b| >= 2
  {
    var code := b[1] as int % 128;
    if code == 126 then 2 else if code == 127 then 8 else 0
  }

  predicate Sized(b: bytes)
    requires |b| >= 2
  {
    2 + Extra(b) <= |b|
  }

  function Length(b: bytes): (n: int)
    requires |b| >= 2 && Sized(b)
    ensures n >= 0
  {
    match Extra(b)
    case 0 => b[1] as int % 128
    case 2 => b[2] as int * 256 + b[3] as int
    case _ =>
      b[2] as int * 0x100_0000_0000_0000 + b[3] as int * 0x1_0000_0000_0000 + b[4] as int * 0x100_0000_0000
      + b[5] as int * 0x1_0000_0000 + b[6] as int * 0x100_0000 + b[7] as int * 0x1_0000 + b[8] as int * 0x100 + b[9] as int
  }

  /** Top bit of a long length clear, opcode known, control frames whole and short, size within
      the limit. */
  predicate Legal(cfg: Config, b: bytes)
    requires |b| >= 2 && Sized(b)
  {
    && (Extra(b) == 8 ==> b[2] < 128)
    && b[0] as int % 16 <= 10
    && (b[0] as int % 16 >= 8 ==> b[0] >= 128 && Length(b) <= 125)
    && Length(b) <= cfg.maxFrame
  }

  function Start(d: Direction, b: bytes): nat
    requires |b| >= 2
  {
    2 + Extra(b) + if d == Client then 4 else 0
  }

  /** A whole legal frame stands in front. */
  predicate Complete(cfg: Config, d: Direction, b: bytes) {
    |b| >= 2 && Marked(d, b) && Sized(b) && Legal(cfg, b) && Start(d, b) + Length(b) <= |b|
  }

  /** What is there of the first frame already breaks a rule. */
  predicate Offends(cfg: Config, d: Direction, b: bytes) {
    |b| >= 2 && (!Marked(d, b) || (Sized(b) && !Legal(cfg, b)))
  }

  function FrameSize(cfg: Config, d: Direction, b: bytes): (n: nat)
    requires Complete(cfg, d, b)
    ensures 2 <= n <= |b|
  {
    Start(d, b) + Length(b)
  }

  /** The payload octet by octet, with the mask of section 5.3 undone. */
  function Octets(d: Direction, b: bytes, start: nat, n: nat): (r: bytes)
    requires 4 <= start || d == Server
    requires start + n <= |b|
  {
    seq(n, i requires 0 <= i < n => if d == Client then Xor(b[start + i], b[start - 4 + i % 4]) else b[start + i])
  }

  function FrameOf(cfg: Config, d: Direction, b: bytes): (f: Frame)
    requires Complete(cfg, d, b)
  {
    Frame(b[0] >= 128, b[0] as int % 16, Octets(d, b, Start(d, b), Length(b)))
  }

  lemma OctetsExactly(d: Direction, b: bytes, start: nat, n: nat)
    requires 4 <= start || d == Server
    requires start + n <= |b|
    ensures Octets(d, b, start, n) == if d == Client then Masked(b[start..start + n], b[start - 4..start]) else b[start..start + n]
  {
    hide Xor;
    var octets, body := Octets(d, b, start, n), b[start..start + n];
    if d == Client {
      var mask := b[start - 4..start];
      forall i | 0 <= i < n ensures Masked(body, mask)[i] == octets[i] {
        SliceAt(b, start, start + n, i);
        SliceAt(b, start - 4, start, i % 4);
      }
      assert Masked(body, mask) == octets;
    } else {
      forall i | 0 <= i < n ensures body[i] == octets[i] {
        SliceAt(b, start, start + n, i);
      }
      assert body == octets;
    }
  }

  lemma SliceAt(b: bytes, from: nat, to: nat, i: nat)
    requires from <= to <= |b| && i < to - from
    ensures b[from..to][i] == b[from + i]
  {
  }

  /** The recogniser against the rules: broken, whole and waiting, each exactly. */
  lemma SeeExactly(cfg: Config, d: Direction, b: bytes)
    ensures SeeFrame(cfg, d, b).Broken? <==> Offends(cfg, d, b)
    ensures SeeFrame(cfg, d, b).Whole? <==> Complete(cfg, d, b)
    ensures Complete(cfg, d, b) ==>
              var f := FrameOf(cfg, d, b);
              SeeFrame(cfg, d, b) == Whole(f.fin, f.opcode, f.payload, FrameSize(cfg, d, b))
  {
    hide MeasureFrame, Length, Extra, Masked, Octets;
    if |b| >= 2 {
      MeasureExactly(b);
      if Complete(cfg, d, b) {
        OctetsExactly(d, b, Start(d, b), Length(b));
      }
    }
  }

  lemma MeasureExactly(b: bytes)
    requires |b| >= 2
    ensures Extra(b) <= 8
    ensures MeasureFrame(b).Unmeasured? <==> !Sized(b)
    ensures MeasureFrame(b).Mismeasured? <==> Sized(b) && Extra(b) == 8 && b[2] >= 128
    ensures MeasureFrame(b).Measure? ==> MeasureFrame(b) == Measure(Length(b), 2 + Extra(b))
  {
    if Sized(b) && Extra(b) == 2 {
      assert b[2..4] == [b[2], b[3]];
      BigEndianTwo(b[2], b[3]);
    } else if Sized(b) && Extra(b) == 8 {
      BigEndianEight(b[2..10]);
    }
  }

  // ---------- frames and messages in a stretch of bytes ----------

  function FramesOf(cfg: Config, d: Direction, b: bytes): (fs: seq<Frame>)
    decreases |b|
  {
    if Complete(cfg, d, b) then [FrameOf(cfg, d, b)] + FramesOf(cfg, d, b[FrameSize(cfg, d, b)..]) else []
  }

  /** What is left behind the last complete frame. */
  function Unread(cfg: Config, d: Direction, b: bytes): (r: bytes)
    decreases |b|
  {
    if Complete(cfg, d, b) then Unread(cfg, d, b[FrameSize(cfg, d, b)..]) else b
  }

  /** Between two frames: the message begun, if any, and the requests without an answer. */
  datatype Standing = Standing(open: Option<nat>, partial: bytes, pending: map<(Direction, Id), Method>)

  /** The payload of the message that this frame continues or makes up. */
  function Text(st: Standing, f: Frame): bytes {
    if f.opcode == 0 then st.partial + f.payload else f.payload
  }

  function Kind(st: Standing, f: Frame): nat {
    if f.opcode == 0 && st.open.Some? then st.open.value else f.opcode
  }

  /** The frame fits what came before it: closes are well-formed, continuations continue something,
      new messages interrupt nothing, and no message is too long. */
  predicate InPlace(cfg: Config, st: Standing, f: Frame) {
    if f.opcode >= 8 then f.opcode == 8 ==> cfg.closeOk(f.payload)
    else
      && f.opcode <= 2 && (f.opcode == 0 <==> st.open.Some?)
      && |Text(st, f)| <= cfg.maxMessage
  }

  /** A message that can be taken down: not malformed, and a request's id neither over the limit
      nor in use. */
  predicate Sensible(m: Rpc, pending: map<(Direction, Id), Method>, d: Direction) {
    !m.Malformed? && (m.Request? && m.id.Some? ==> |pending| < 256 && (d, m.id.value) !in pending)
  }

  predicate FrameFine(cfg: Config, st: Standing, d: Direction, f: Frame) {
    && InPlace(cfg, st, f)
    && (f.opcode < 8 && f.fin ==> Kind(st, f) == 1 && Sensible(cfg.decode(Text(st, f)), st.pending, d))
  }

  function Answered(pending: map<(Direction, Id), Method>, m: Rpc, d: Direction): map<(Direction, Id), Method> {
    match m
    case Request(id, verb, _, _) => if id.Some? then pending[(d, id.value) := verb] else pending
    case Response(rid, _, _, _) => pending - {(Opposite(d), rid)}
    case Malformed(_) => pending
  }

  function Next(cfg: Config, st: Standing, d: Direction, f: Frame): (r: Standing) {
    if f.opcode >= 8 then st
    else if !f.fin then st.(open := Some(Kind(st, f)), partial := Text(st, f))
    else Standing(None, if f.opcode == 0 then [] else st.partial, Answered(st.pending, cfg.decode(Text(st, f)), d))
  }

  /** What a readable message leaves on record. */
  function Note(cfg: Config, epoch: nat, pending: map<(Direction, Id), Method>, d: Direction, m: Rpc): (es: seq<Event>) {
    match m
    case Request(id, verb, params, thread) =>
      [if Known(verb) then RpcSeen(id, verb, params, thread) else RpcUnknown(id, Some(verb), false)]
    case Response(rid, ok, rthread, home) =>
      var asked := if (Opposite(d), rid) in pending then Some(pending[(Opposite(d), rid)]) else None;
      if asked.None? || !Known(asked.value) then [RpcUnknown(Some(rid), asked, true)]
      else
        [RpcAnswered(rid, asked.value, Opposite(d), ok, if ok then rthread else Info(None, None))] +
        (if cfg.activation && d == Server && asked.value == Initialize && ok
         then [InitializeHome(rid, home.Some? && home == cfg.expectedHome(epoch), home)] else [])
    case Malformed(_) => []
  }

  function Says(cfg: Config, epoch: nat, st: Standing, d: Direction, f: Frame): (es: seq<Event>) {
    if f.opcode >= 8 then [Control(f.opcode)]
    else if !f.fin then []
    else Note(cfg, epoch, st.pending, d, cfg.decode(Text(st, f)))
  }

  function After(cfg: Config, st: Standing, d: Direction, fs: seq<Frame>): (r: Standing) {
    if fs == [] then st else Next(cfg, After(cfg, st, d, fs[..|fs| - 1]), d, fs[|fs| - 1])
  }

  /** Every frame is fine where it stands. */
  predicate Fine(cfg: Config, st: Standing, d: Direction, fs: seq<Frame>) {
    forall i :: 0 <= i < |fs| ==> FrameFine(cfg, After(cfg, st, d, fs[..i]), d, fs[i])
  }

  function Events(cfg: Config, epoch: nat, st: Standing, d: Direction, fs: seq<Frame>): (es: seq<Event>) {
    if fs == [] then []
    else
      var front := fs[..|fs| - 1];
      Events(cfg, epoch, st, d, front) + Says(cfg, epoch, After(cfg, st, d, front), d, fs[|fs| - 1])
  }

  lemma {:induction false} AfterFirst(cfg: Config, st: Standing, d: Direction, f: Frame, fs: seq<Frame>)
    ensures After(cfg, st, d, [f] + fs) == After(cfg, Next(cfg, st, d, f), d, fs)
    decreases |fs|
  {
    hide Next;
    var all := [f] + fs;
    if fs == [] {
      assert all[..0] == [] && all == [f];
    } else {
      assert all[..|all| - 1] == [f] + fs[..|fs| - 1];
      AfterFirst(cfg, st, d, f, fs[..|fs| - 1]);
    }
  }

  lemma FineFirst(cfg: Config, st: Standing, d: Direction, f: Frame, fs: seq<Frame>)
    ensures Fine(cfg, st, d, [f] + fs) <==> FrameFine(cfg, st, d, f) && Fine(cfg, Next(cfg, st, d, f), d, fs)
  {
    hide FrameFine, Next;
    var all, next := [f] + fs, Next(cfg, st, d, f);
    assert all[..0] == [] && all[0] == f;
    forall i | 1 <= i < |all|
      ensures After(cfg, st, d, all[..i]) == After(cfg, next, d, fs[..i - 1]) && all[i] == fs[i - 1]
    {
      assert all[..i] == [f] + fs[..i - 1];
      AfterFirst(cfg, st, d, f, fs[..i - 1]);
    }
    hide After;
    if Fine(cfg, st, d, all) {
      assert FrameFine(cfg, After(cfg, st, d, all[..0]), d, all[0]);
      forall i | 0 <= i < |fs| ensures FrameFine(cfg, After(cfg, next, d, fs[..i]), d, fs[i]) {
        assert FrameFine(cfg, After(cfg, st, d, all[..i + 1]), d, all[i + 1]);
      }
      assert FrameFine(cfg, st, d, f) by { Nothing(cfg, st, d); }
    }
    if FrameFine(cfg, st, d, f) && Fine(cfg, next, d, fs) {
      forall i | 0 <= i < |all| ensures FrameFine(cfg, After(cfg, st, d, all[..i]), d, all[i]) {
        if i == 0 { Nothing(cfg, st, d); }
      }
    }
  }

  lemma Nothing(cfg: Config, st: Standing, d: Direction)
    ensures After(cfg, st, d, []) == st
  {
  }

  lemma {:induction false} EventsFirst(cfg: Config, epoch: nat, st: Standing, d: Direction, f: Frame, fs: seq<Frame>)
    ensures Events(cfg, epoch, st, d, [f] + fs) ==
            Says(cfg, epoch, st, d, f) + Events(cfg, epoch, Next(cfg, st, d, f), d, fs)
    decreases |fs|
  {
    hide Next, Says;
    var all, next := [f] + fs, Next(cfg, st, d, f);
    if fs == [] {
      assert all[..0] == [] && all == [f];
    } else {
      var front, last := fs[..|fs| - 1], fs[|fs| - 1];
      assert all[..|all| - 1] == [f] + front && all[|all| - 1] == last;
      EventsFirst(cfg, epoch, st, d, f, front);
      AfterFirst(cfg, st, d, f, front);
      hide After;
      Regroup(Says(cfg, epoch, st, d, f), Events(cfg, epoch, next, d, front), Says(cfg, epoch, After(cfg, next, d, front), d, last));
    }
  }

  // ---------- putting events on record ----------

  function Recorded(o: Out, epoch: nat, d: Direction, es: seq<Event>): (r: Out) {
    if es == [] then o
    else
      var o1 := Recorded(o, epoch, d, es[..|es| - 1]);
      Append(o1, Record(es[|es| - 1], Some(epoch), o1.nextSeq, Some(d)), o1.nextSeq + 1)
  }

  lemma {:induction false} RecordedSize(o: Out, epoch: nat, d: Direction, es: seq<Event>)
    ensures |Recorded(o, epoch, d, es).queue| == |o.queue| + |es| && o.trace <= Recorded(o, epoch, d, es).trace
  {
    if es != [] { RecordedSize(o, epoch, d, es[..|es| - 1]); }
  }

  lemma {:induction false} RecordedTwice(o: Out, epoch: nat, d: Direction, a: seq<Event>, b: seq<Event>)
    ensures Recorded(Recorded(o, epoch, d, a), epoch, d, b) == Recorded(o, epoch, d, a + b)
    decreases |b|
  {
    if b == [] {
      assert a + b == a;
    } else {
      assert (a + b)[..|a + b| - 1] == a + b[..|b| - 1];
      RecordedTwice(o, epoch, d, a, b[..|b| - 1]);
    }
  }

  /** The queue takes n more records and still keeps its last slot free. */
  predicate Room(cfg: Config, o: Out, n: nat) {
    n == 0 || |o.queue| + n < cfg.maxEvents
  }

  // ---------- one frame ----------

  function StandingOf(c: Conn, d: Direction): (st: Standing) {
    var p := ParserOf(c, d);
    Standing(p.fragmentOpcode, p.fragmentPayload, c.pending)
  }

  function Stands(t: Track, d: Direction, st: Standing): (r: Track) {
    var r := WithParser(t, d, ParserOf(t.conn, d).(fragmentOpcode := st.open, fragmentPayload := st.partial));
    r.(conn := r.conn.(pending := st.pending))
  }

  /** The trace went on, and a gap of the connection's epoch is among what is new. */
  ghost predicate GapAdded(t: Track, r: Track) {
    && t.out.trace <= r.out.trace && r.conn.epoch == t.conn.epoch
    && exists i :: |t.out.trace| <= i < |r.out.trace| && r.out.trace[i].epoch == Some(t.conn.epoch) && r.out.trace[i].event.Gap?
  }

  /** What reading leads to: alive exactly under the condition, and then exactly this; otherwise
      silenced with a gap. */
  ghost predicate Leads(t: Track, r: Track, fine: bool, good: Track) {
    && (r.conn.valid <==> fine) && (fine ==> r == good && !r.conn.overflowed) && (!fine ==> GapAdded(t, r))
  }

  lemma GapLeads(cfg: Config, t: Track, d: Direction, why: Why)
    requires t.conn.valid && !t.conn.overflowed
    ensures !GapNow(cfg, t, d, why).conn.valid && GapAdded(t, GapNow(cfg, t, d, why))
  {
    var r := GapNow(cfg, t, d, why);
    assert r.out.trace[|t.out.trace|].event.Gap? && r.out.trace[|t.out.trace|].epoch == Some(t.conn.epoch);
  }

  lemma EmitLeads(cfg: Config, t: Track, d: Direction, e: Event)
    requires t.conn.valid && !t.conn.overflowed
    ensures Leads(t, Emit(cfg, t, Some(d), e), Room(cfg, t.out, 1), t.(out := Recorded(t.out, t.conn.epoch, d, [e])))
  {
    var r := Emit(cfg, t, Some(d), e);
    assert [e][..0] == [];
    if !Room(cfg, t.out, 1) {
      assert r.out.trace[|t.out.trace|].event.Gap? && r.out.trace[|t.out.trace|].epoch == Some(t.conn.epoch);
    }
  }

  lemma RequestLeads(cfg: Config, t: Track, d: Direction, m: Rpc)
    requires t.conn.valid && !t.conn.overflowed && m.Request?
    ensures Leads(t, ProcessRequest(cfg, t, d, m), Sensible(m, t.conn.pending, d) && Room(cfg, t.out, 1),
                  t.(conn := t.conn.(pending := Answered(t.conn.pending, m, d)),
                     out := Recorded(t.out, t.conn.epoch, d, Note(cfg, t.conn.epoch, t.conn.pending, d, m))))
  {
    hide Emit, GapNow, Recorded;
    GapLeads(cfg, t, d, PendingTooMany);
    GapLeads(cfg, t, d, DuplicateRequest);
    var t1 := t.(conn := t.conn.(pending := Answered(t.conn.pending, m, d)));
    EmitLeads(cfg, t1, d, Note(cfg, t.conn.epoch, t.conn.pending, d, m)[0]);
  }

  lemma GapAddedLater(t: Track, u: Track, r: Track)
    requires t.out.trace <= u.out.trace && u.conn.epoch == t.conn.epoch && GapAdded(u, r)
    ensures GapAdded(t, r)
  {
  }

  lemma GapAddedEarlier(t: Track, u: Track, r: Track)
    requires GapAdded(t, u) && u.out.trace <= r.out.trace && r.conn.epoch == u.conn.epoch
    ensures GapAdded(t, r)
  {
    var i :| |t.out.trace| <= i < |u.out.trace| && u.out.trace[i].epoch == Some(t.conn.epoch) && u.out.trace[i].event.Gap?;
    assert r.out.trace[i] == u.out.trace[i];
  }

  lemma ResponseLeads(cfg: Config, t: Track, d: Direction, m: Rpc)
    requires t.conn.valid && !t.conn.overflowed && m.Response?
    ensures var es := Note(cfg, t.conn.epoch, t.conn.pending, d, m);
            Leads(t, ProcessResponse(cfg, t, d, m), Room(cfg, t.out, |es|),
                  t.(conn := t.conn.(pending := Answered(t.conn.pending, m, d)), out := Recorded(t.out, t.conn.epoch, d, es)))
  {
    hide Emit, Recorded, GapAdded;
    var es := Note(cfg, t.conn.epoch, t.conn.pending, d, m);
    var t1 := t.(conn := t.conn.(pending := Answered(t.conn.pending, m, d)));
    EmitLeads(cfg, t1, d, es[0]);
    var t2 := Emit(cfg, t1, Some(d), es[0]);
    assert !t2.conn.valid ==> GapAdded(t, t2) by { if !t2.conn.valid { GapAddedLater(t, t1, t2); } }
    RecordedSize(t1.out, t.conn.epoch, d, [es[0]]);
    if |es| == 2 {
      if t2.conn.valid {
        EmitLeads(cfg, t2, d, es[1]);
        var t3 := Emit(cfg, t2, Some(d), es[1]);
        RecordedTwice(t1.out, t.conn.epoch, d, [es[0]], [es[1]]);
        assert es == [es[0]] + [es[1]];
        if !t3.conn.valid { GapAddedLater(t, t2, t3); }
      }
    } else {
      assert es == [es[0]];
    }
  }

  lemma TextLeads(cfg: Config, t: Track, d: Direction, payload: bytes)
    requires t.conn.valid && !t.conn.overflowed
    ensures var m := cfg.decode(payload);
            var es := Note(cfg, t.conn.epoch, t.conn.pending, d, m);
            Leads(t, ProcessText(cfg, t, d, payload), Sensible(m, t.conn.pending, d) && Room(cfg, t.out, |es|),
                  t.(conn := t.conn.(pending := Answered(t.conn.pending, m, d)), out := Recorded(t.out, t.conn.epoch, d, es)))
  {
    hide Leads, GapNow, ProcessRequest, ProcessResponse, Recorded;
    var m := cfg.decode(payload);
    match m
    case Malformed(text) =>
      GapLeads(cfg, t, d, BadMessage(text));
      RefusedLeads(t, GapNow(cfg, t, d, BadMessage(text)));
    case Request(_, _, _, _) => RequestLeads(cfg, t, d, m);
    case Response(_, _, _, _) => ResponseLeads(cfg, t, d, m);
  }

  lemma RefusedLeads(t: Track, r: Track)
    requires !r.conn.valid && GapAdded(t, r)
    ensures forall good :: Leads(t, r, false, good)
  {
  }

  /** One frame: it keeps the evidence alive exactly when it is fine where it stands and its
      records have room; then it leaves exactly the stated standing and records. */
  lemma HandleExactly(cfg: Config, t: Track, d: Direction, f: Frame)
    requires t.conn.valid && !t.conn.overflowed
    ensures var st := StandingOf(t.conn, d);
            var es := Says(cfg, t.conn.epoch, st, d, f);
            Leads(t, HandleFrame(cfg, t, d, f.fin, f.opcode, f.payload), FrameFine(cfg, st, d, f) && Room(cfg, t.out, |es|),
                  Stands(t, d, Next(cfg, st, d, f)).(out := Recorded(t.out, t.conn.epoch, d, es)))
  {
    hide GapNow, ProcessText, Emit, Note, Sensible, Recorded, GapAdded;
    var p, st := ParserOf(t.conn, d), StandingOf(t.conn, d);
    forall why ensures !GapNow(cfg, t, d, why).conn.valid && GapAdded(t, GapNow(cfg, t, d, why)) {
      GapLeads(cfg, t, d, why);
    }
    assert Recorded(t.out, t.conn.epoch, d, []) == t.out by { RecordedNone(t.out, t.conn.epoch, d); }
    if f.opcode >= 8 {
      EmitLeads(cfg, t, d, Control(f.opcode));
    } else if f.opcode == 0 && st.open.Some? && f.fin {
      var t1 := WithParser(t, d, p.(fragmentOpcode := None, fragmentPayload := []));
      TextLeads(cfg, t1, d, Text(st, f));
      GapLeads(cfg, t1, d, BinaryMessage);
      SameStart(t, t1);
    } else if f.opcode == 1 && f.fin {
      TextLeads(cfg, t, d, f.payload);
    }
  }

  lemma SameStart(t: Track, u: Track)
    requires t.out == u.out && t.conn.epoch == u.conn.epoch
    ensures forall r :: GapAdded(u, r) ==> GapAdded(t, r)
  {
  }

  lemma RecordedNone(o: Out, epoch: nat, d: Direction)
    ensures Recorded(o, epoch, d, []) == o
  {
  }

  // ---------- all frames in hand ----------

  predicate FramesFine(cfg: Config, t: Track, d: Direction, b: bytes) {
    var st, fs := StandingOf(t.conn, d), FramesOf(cfg, d, b);
    && Fine(cfg, st, d, fs) && !Offends(cfg, d, Unread(cfg, d, b))
    && Room(cfg, t.out, |Events(cfg, t.conn.epoch, st, d, fs)|)
  }

  function FramesRead(cfg: Config, t: Track, d: Direction, b: bytes): (r: Track) {
    var st, fs := StandingOf(t.conn, d), FramesOf(cfg, d, b);
    WithBuffer(Stands(t, d, After(cfg, st, d, fs)), d, Unread(cfg, d, b)).
      (out := Recorded(t.out, t.conn.epoch, d, Events(cfg, t.conn.epoch, st, d, fs)))
  }

  /** The frame in front, and the track behind it if it is fine. */
  function FirstSays(cfg: Config, t: Track, d: Direction, b: bytes): (es: seq<Event>)
    requires Complete(cfg, d, b)
  {
    Says(cfg, t.conn.epoch, StandingOf(t.conn, d), d, FrameOf(cfg, d, b))
  }

  function FirstRead(cfg: Config, t: Track, d: Direction, b: bytes): (r: Track)
    requires Complete(cfg, d, b)
  {
    var t1 := WithBuffer(t, d, b[FrameSize(cfg, d, b)..]);
    Stands(t1, d, Next(cfg, StandingOf(t.conn, d), d, FrameOf(cfg, d, b))).
      (out := Recorded(t.out, t.conn.epoch, d, FirstSays(cfg, t, d, b)))
  }

  lemma StandsThere(t: Track, d: Direction, st: Standing, b: bytes, o: Out)
    ensures var r := Stands(WithBuffer(t, d, b), d, st).(out := o);
            StandingOf(r.conn, d) == st && Buffer(r, d) == b && r.out == o && r.conn.epoch == t.conn.epoch
    ensures forall st', b', o' :: WithBuffer(Stands(Stands(WithBuffer(t, d, b), d, st).(out := o), d, st'), d, b').(out := o') ==
                                  WithBuffer(Stands(t, d, st'), d, b').(out := o')
  {
  }

  lemma FirstFine(cfg: Config, t: Track, d: Direction, b: bytes)
    requires Complete(cfg, d, b)
    ensures var t2, rest := FirstRead(cfg, t, d, b), b[FrameSize(cfg, d, b)..];
            && Buffer(t2, d) == rest
            && (FramesFine(cfg, t, d, b) <==>
                && FrameFine(cfg, StandingOf(t.conn, d), d, FrameOf(cfg, d, b)) && Room(cfg, t.out, |FirstSays(cfg, t, d, b)|)
                && FramesFine(cfg, t2, d, rest))
            && FramesRead(cfg, t, d, b) == FramesRead(cfg, t2, d, rest)
  {
    var st, f, rest := StandingOf(t.conn, d), FrameOf(cfg, d, b), b[FrameSize(cfg, d, b)..];
    var next, fs, es := Next(cfg, st, d, f), FramesOf(cfg, d, rest), FirstSays(cfg, t, d, b);
    assert FramesOf(cfg, d, b) == [f] + fs && Unread(cfg, d, b) == Unread(cfg, d, rest);
    hide Complete, FrameOf, FramesOf, Unread, FrameFine, Offends, Next, Says, After, Events, Fine, Recorded, Stands, StandingOf, WithBuffer, Buffer;
    var o := Recorded(t.out, t.conn.epoch, d, es);
    StandsThere(t, d, next, rest, o);
    FineFirst(cfg, st, d, f, fs);
    AfterFirst(cfg, st, d, f, fs);
    EventsFirst(cfg, t.conn.epoch, st, d, f, fs);
    RecordedSize(t.out, t.conn.epoch, d, es);
    RecordedTwice(t.out, t.conn.epoch, d, es, Events(cfg, t.conn.epoch, next, d, fs));
  }

  lemma NoneLeft(cfg: Config, t: Track, d: Direction, b: bytes)
    requires !Complete(cfg, d, b) && b == Buffer(t, d)
    ensures FramesFine(cfg, t, d, b) <==> !Offends(cfg, d, b)
    ensures FramesRead(cfg, t, d, b) == t
  {
    assert FramesOf(cfg, d, b) == [] && Unread(cfg, d, b) == b;
    hide Complete, Offends, FramesOf, Unread;
    RecordedNone(t.out, t.conn.epoch, d);
  }

  lemma LeadsOn(t: Track, u: Track, v: Track, r: Track, first: bool, fine: bool, good: Track)
    requires Leads(u, v, first, v) && u.out == t.out && u.conn.epoch == t.conn.epoch
    requires first ==> Leads(v, r, fine, good) && t.out.trace <= v.out.trace && v.conn.epoch == t.conn.epoch
    requires !first ==> r == v
    ensures Leads(t, r, first && fine, good)
  {
    hide GapAdded;
    SameStart(t, u);
    if first && !fine { GapAddedLater(t, v, r); }
  }

  /** All complete frames in hand: alive exactly when every frame is fine where it stands, the
      bytes behind them offend no rule, and the queue has room; then exactly this is read. */
  lemma {:induction false} FramesExactly(cfg: Config, t: Track, d: Direction)
    requires t.conn.valid && !t.conn.overflowed
    ensures Leads(t, Frames(cfg, t, d), FramesFine(cfg, t, d, Buffer(t, d)), FramesRead(cfg, t, d, Buffer(t, d)))
    decreases |Buffer(t, d)|
  {
    var b := Buffer(t, d);
    hide SeeFrame, Complete, Offends, HandleFrame, GapNow, FramesFine, FramesRead, FrameFine, Stands, Recorded, FrameOf, Next, Says, GapAdded;
    SeeExactly(cfg, d, b);
    if Complete(cfg, d, b) {
      var f, rest := FrameOf(cfg, d, b), b[FrameSize(cfg, d, b)..];
      var t1 := WithBuffer(t, d, rest);
      assert StandingOf(t1.conn, d) == StandingOf(t.conn, d);
      HandleExactly(cfg, t1, d, f);
      HandleKeepsBuffer(cfg, t1, d, f.fin, f.opcode, f.payload);
      var t2 := HandleFrame(cfg, t1, d, f.fin, f.opcode, f.payload);
      assert Frames(cfg, t, d) == Frames(cfg, t2, d);
      FirstFine(cfg, t, d, b);
      var good := FirstRead(cfg, t, d, b);
      var first := FrameFine(cfg, StandingOf(t.conn, d), d, f) && Room(cfg, t.out, |FirstSays(cfg, t, d, b)|);
      assert Leads(t1, t2, first, good);
      if first {
        RecordedSize(t.out, t.conn.epoch, d, FirstSays(cfg, t, d, b));
        assert t2.conn.epoch == t.conn.epoch by { HandleKeepsShape(cfg, t1, d, f.fin, f.opcode, f.payload); }
        FramesExactly(cfg, t2, d);
      } else {
        FramesOver(cfg, t2, d);
      }
      LeadsOn(t, t1, t2, Frames(cfg, t, d), first, FramesFine(cfg, t2, d, rest), FramesRead(cfg, t2, d, rest));
    } else {
      NoneLeft(cfg, t, d, b);
      if Offends(cfg, d, b) { GapLeads(cfg, t, d, SeeFrame(cfg, d, b).why); }
    }
  }

  // ---------- the upgrade ----------

  function Upgraded(t: Track, d: Direction): bool {
    ParserOf(t.conn, d).handshakeDone
  }

  /** The upgrade is done, or its header is short enough so far and acceptable once complete. */
  predicate Welcome(cfg: Config, t: Track, d: Direction, x: bytes) {
    Upgraded(t, d) ||
    match HeaderEnd(x, 0)
    case None => |x| <= cfg.maxHeader
    case Some(end) => end <= cfg.maxHeader && cfg.upgrade(d, x[..end], t.conn.clientKey).GoodUpgrade?
  }

  /** Behind these bytes the direction is upgraded. */
  predicate Entering(t: Track, d: Direction, x: bytes) {
    Upgraded(t, d) || HeaderEnd(x, 0).Some?
  }

  /** The bytes x in hand, the header taken off and put on record if this completes it. */
  function Entered(cfg: Config, t: Track, d: Direction, x: bytes): (r: Track)
    requires Welcome(cfg, t, d, x)
  {
    if Upgraded(t, d) || HeaderEnd(x, 0).None? then WithBuffer(t, d, x)
    else
      var end := HeaderEnd(x, 0).value;
      var key := cfg.upgrade(d, x[..end], t.conn.clientKey).key;
      var t1 := WithParser(t, d, ParserOf(t.conn, d).(buffer := x[end..], handshakeDone := true));
      t1.(conn := if d == Client then t1.conn.(clientKey := key) else t1.conn,
          out := Recorded(t.out, t.conn.epoch, d, [Event.Upgraded]))
  }

  lemma UpgradeLeads(cfg: Config, t: Track, d: Direction)
    requires t.conn.valid && !t.conn.overflowed && !Upgraded(t, d)
    ensures var x := Buffer(t, d);
            var fine := Welcome(cfg, t, d, x) && (HeaderEnd(x, 0).Some? ==> Room(cfg, t.out, 1));
            && Leads(t, ParseUpgrade(cfg, t, d), fine, if fine then Entered(cfg, t, d, x) else t)
            && (!Entering(t, d, x) ==> !Upgraded(ParseUpgrade(cfg, t, d), d))
  {
    hide HeaderEnd, GapNow, Emit, Recorded, GapAdded;
    var x := Buffer(t, d);
    forall why, u: Track | u.conn.valid && !u.conn.overflowed
      ensures !GapNow(cfg, u, d, why).conn.valid && GapAdded(u, GapNow(cfg, u, d, why)) && SameShape(GapNow(cfg, u, d, why), u)
    {
      GapLeads(cfg, u, d, why);
      GapKeepsShape(cfg, u, d, why);
    }
    if HeaderEnd(x, 0).Some? && HeaderEnd(x, 0).value <= cfg.maxHeader {
      var end := HeaderEnd(x, 0).value;
      var t1 := WithBuffer(t, d, x[end..]);
      SameStart(t, t1);
      match cfg.upgrade(d, x[..end], t.conn.clientKey)
      case BadUpgrade(text) =>
      case GoodUpgrade(key) =>
        var t2 := if d == Client then t1.(conn := t1.conn.(clientKey := key)) else t1;
        var t3 := WithParser(t2, d, ParserOf(t2.conn, d).(handshakeDone := true));
        EmitLeads(cfg, t3, d, Event.Upgraded);
        SameStart(t, t3);
    }
  }

  // ---------- one call ----------

  /** These bytes, the ones in hand and the new ones together, can be read from here. */
  predicate Readable(cfg: Config, t: Track, d: Direction, x: bytes) {
    && Welcome(cfg, t, d, x)
    && (Entering(t, d, x) ==>
          var t1 := Entered(cfg, t, d, x);
          (Upgraded(t, d) || Room(cfg, t.out, 1)) && FramesFine(cfg, t1, d, Buffer(t1, d)))
  }

  function ReadOf(cfg: Config, t: Track, d: Direction, x: bytes): (r: Track)
    requires Welcome(cfg, t, d, x)
  {
    var t1 := Entered(cfg, t, d, x);
    if Entering(t, d, x) then FramesRead(cfg, t1, d, Buffer(t1, d)) else t1
  }

  lemma AdvanceExactly(cfg: Config, t: Track, d: Direction)
    requires t.conn.valid && !t.conn.overflowed
    ensures var x := Buffer(t, d);
            Leads(t, Advance(cfg, t, d), Readable(cfg, t, d, x), if Readable(cfg, t, d, x) then ReadOf(cfg, t, d, x) else t)
  {
    hide Frames, ParseUpgrade, HeaderEnd, FramesFine, FramesRead, GapAdded, Recorded;
    var x := Buffer(t, d);
    assert WithBuffer(t, d, x) == t;
    if Upgraded(t, d) {
      FramesExactly(cfg, t, d);
    } else {
      UpgradeLeads(cfg, t, d);
      var t1 := ParseUpgrade(cfg, t, d);
      if t1.conn.valid {
        if HeaderEnd(x, 0).Some? {
          RecordedSize(t.out, t.conn.epoch, d, [Event.Upgraded]);
          FramesExactly(cfg, t1, d);
          assert t1 == Entered(cfg, t, d, x);
          LeadsOn(t, t, t1, Frames(cfg, t1, d), true, FramesFine(cfg, t1, d, Buffer(t1, d)), FramesRead(cfg, t1, d, Buffer(t1, d)));
        }
      } else {
        FramesOver(cfg, t1, d);
      }
    }
  }

  /** The bytes in hand before do not matter once they are part of x. */
  lemma BufferFree(cfg: Config, t: Track, d: Direction, y: bytes, x: bytes)
    ensures Readable(cfg, WithBuffer(t, d, y), d, x) <==> Readable(cfg, t, d, x)
    ensures Readable(cfg, t, d, x) ==> ReadOf(cfg, WithBuffer(t, d, y), d, x) == ReadOf(cfg, t, d, x)
  {
    hide FramesFine, FramesRead, HeaderEnd, Recorded;
    assert WithBuffer(WithBuffer(t, d, y), d, x) == WithBuffer(t, d, x);
  }

  /** One call, exactly: a valid connection stays valid if and only if the bytes fit the buffer and
      can be read: the upgrade is acceptable, every complete frame keeps the rules and fits where
      it stands, every completed message is sensible text, what is left breaks no rule yet, and
      the queue has room. Then the connection stands, and the records are, exactly as stated.
      Otherwise a gap of its epoch is on record. */
  lemma FeedExactly(cfg: Config, t: Track, d: Direction, data: bytes)
    requires t.conn.valid && !t.conn.overflowed
    ensures var r, x := FeedTrack(cfg, t, d, data), Buffer(t, d) + data;
            && (r.conn.valid <==> |x| <= BufferLimit(cfg) && Readable(cfg, t, d, x))
            && (r.conn.valid ==> r == ReadOf(cfg, t, d, x) && !r.conn.overflowed)
            && (!r.conn.valid ==> GapAdded(t, r))
  {
    hide Advance, GapNow, Readable, ReadOf, GapAdded;
    var x := Buffer(t, d) + data;
    if |x| > BufferLimit(cfg) {
      GapLeads(cfg, t, d, InputTooLarge);
    } else {
      var fed := WithBuffer(t, d, x);
      AdvanceExactly(cfg, fed, d);
      BufferFree(cfg, t, d, x, x);
      SameStart(t, fed);
    }
  }

  // ---------- any number of calls ----------

  /** What is in hand behind the first k chunks, if they could be read. */
  function InHand(cfg: Config, t: Track, d: Direction, chunks: seq<bytes>, k: nat): (n: nat)
    requires k <= |chunks|
  {
    var x := Buffer(t, d) + Join(chunks[..k]);
    if k == 0 then |Buffer(t, d)| else if Readable(cfg, t, d, x) then |Buffer(ReadOf(cfg, t, d, x), d)| else 0
  }

  predicate NeverFull(cfg: Config, t: Track, d: Direction, chunks: seq<bytes>) {
    forall k :: 0 <= k < |chunks| ==> InHand(cfg, t, d, chunks, k) + |chunks[k]| <= BufferLimit(cfg)
  }

  lemma {:induction false} FeedLast(cfg: Config, t: Track, d: Direction, chunks: seq<bytes>, last: bytes)
    ensures FeedEach(cfg, t, d, chunks + [last]) == FeedTrack(cfg, FeedEach(cfg, t, d, chunks), d, last)
    decreases |chunks|
  {
    hide FeedTrack;
    var all := chunks + [last];
    if chunks == [] {
      assert all == [last] && all[1..] == [];
    } else {
      assert all[1..] == chunks[1..] + [last];
      FeedLast(cfg, FeedTrack(cfg, t, d, chunks[0]), d, chunks[1..], last);
    }
  }

  lemma {:induction false} WithinLast(cfg: Config, t: Track, d: Direction, chunks: seq<bytes>, last: bytes)
    ensures Within(cfg, t, d, chunks + [last]) <==>
            Within(cfg, t, d, chunks) &&
            var r := FeedEach(cfg, t, d, chunks);
            (r.conn.valid ==> |Buffer(r, d)| + |last| <= BufferLimit(cfg))
    decreases |chunks|
  {
    hide FeedTrack;
    var all := chunks + [last];
    if chunks == [] {
      assert all == [last] && all[1..] == [];
    } else {
      assert all[1..] == chunks[1..] + [last];
      WithinLast(cfg, FeedTrack(cfg, t, d, chunks[0]), d, chunks[1..], last);
    }
  }

  /** The whole condition on a stretch of calls. */
  predicate AllReadable(cfg: Config, t: Track, d: Direction, chunks: seq<bytes>) {
    NeverFull(cfg, t, d, chunks) && (chunks != [] ==> Readable(cfg, t, d, Buffer(t, d) + Join(chunks)))
  }

  /** All bytes at once, with no regard to the buffer limit. */
  lemma WholeExactly(cfg: Config, t: Track, d: Direction, more: bytes)
    requires t.conn.valid && !t.conn.overflowed
    ensures var r, x := Advance(cfg, Extend(t, d, more), d), Buffer(t, d) + more;
            (r.conn.valid <==> Readable(cfg, t, d, x)) && (r.conn.valid ==> r == ReadOf(cfg, t, d, x))
  {
    hide Advance, Readable, ReadOf, GapAdded;
    AdvanceExactly(cfg, Extend(t, d, more), d);
    BufferFree(cfg, t, d, Buffer(t, d) + more, Buffer(t, d) + more);
  }

  lemma JoinLast(front: seq<bytes>, last: bytes)
    ensures Join(front + [last]) == Join(front) + last
  {
    JoinAppend(front, [last]);
    JoinOne(last);
  }

  /** What cannot be read does not become readable by what follows. */
  lemma StaysUnreadable(cfg: Config, t: Track, d: Direction, x: bytes, more: bytes)
    requires t.conn.valid && !t.conn.overflowed && !Readable(cfg, t, d, Buffer(t, d) + x)
    ensures !Readable(cfg, t, d, Buffer(t, d) + (x + more))
  {
    hide Advance, Readable, ReadOf;
    WholeExactly(cfg, t, d, x);
    WholeExactly(cfg, t, d, x + more);
    AdvanceExtend(cfg, Extend(t, d, x), d, more);
    Regroup(Buffer(t, d), x, more);
    assert Extend(Extend(t, d, x), d, more) == Extend(t, d, x + more);
  }

  lemma NeverFullLast(cfg: Config, t: Track, d: Direction, front: seq<bytes>, last: bytes)
    ensures NeverFull(cfg, t, d, front + [last]) <==>
            NeverFull(cfg, t, d, front) && InHand(cfg, t, d, front, |front|) + |last| <= BufferLimit(cfg)
  {
    hide Readable, ReadOf;
    var all := front + [last];
    forall k | 0 <= k <= |front| ensures InHand(cfg, t, d, all, k) == InHand(cfg, t, d, front, k) {
      assert all[..k] == front[..k];
    }
    hide InHand;
    if NeverFull(cfg, t, d, all) {
      assert InHand(cfg, t, d, all, |front|) + |all[|front|]| <= BufferLimit(cfg);
      forall k | 0 <= k < |front| ensures InHand(cfg, t, d, front, k) + |front[k]| <= BufferLimit(cfg) {
        assert InHand(cfg, t, d, all, k) + |all[k]| <= BufferLimit(cfg);
      }
    }
  }

  /** Any number of calls, exactly: the connection stays valid if and only if no call finds the
      buffer too full and the bytes, all together, can be read; then it stands as if they had come
      at once. Otherwise a gap of its epoch is on record. */
  lemma {:induction false} FeedEachExactly(cfg: Config, t: Track, d: Direction, chunks: seq<bytes>)
    requires t.conn.valid && !t.conn.overflowed
    ensures var r, x := FeedEach(cfg, t, d, chunks), Buffer(t, d) + Join(chunks);
            && (r.conn.valid <==> AllReadable(cfg, t, d, chunks))
            && (r.conn.valid ==> !r.conn.overflowed && (chunks != [] ==> r == ReadOf(cfg, t, d, x)))
            && (!r.conn.valid ==> GapAdded(t, r))
            && (r.conn.valid ==> Within(cfg, t, d, chunks) && t.out.trace <= r.out.trace && r.conn.epoch == t.conn.epoch)
    decreases |chunks|
  {
    hide FeedTrack, Readable, ReadOf, GapAdded, Advance;
    if chunks != [] {
      var front, last := chunks[..|chunks| - 1], chunks[|chunks| - 1];
      assert chunks == front + [last];
      FeedEachExactly(cfg, t, d, front);
      FeedLast(cfg, t, d, front, last);
      WithinLast(cfg, t, d, front, last);
      var t1, r := FeedEach(cfg, t, d, front), FeedEach(cfg, t, d, chunks);
      JoinLast(front, last);
      NeverFullLast(cfg, t, d, front, last);
      if t1.conn.valid {
        assert front[..|front|] == front;
        assert InHand(cfg, t, d, front, |front|) == |Buffer(t1, d)|;
        FeedExactly(cfg, t1, d, last);
        if r.conn.valid || Within(cfg, t, d, chunks) {
          CutsEquivalent(cfg, t, d, chunks);
          WholeExactly(cfg, t, d, Join(chunks));
        }
        if r.conn.valid {
          FeedGrows(cfg, t1, d, last);
        } else {
          GapAddedLater(t, t1, r);
        }
      } else {
        assert r == t1 by { SilentFeed(cfg, t1, d, last); }
        if front != [] && !Readable(cfg, t, d, Buffer(t, d) + Join(front)) {
          StaysUnreadable(cfg, t, d, Join(front), last);
        }
      }
    }
  }

  lemma SilentFeed(cfg: Config, t: Track, d: Direction, data: bytes)
    requires !t.conn.valid
    ensures FeedTrack(cfg, t, d, data) == t
  {
  }

  /** A call that keeps the connection valid only adds to the trace. */
  lemma FeedGrows(cfg: Config, t: Track, d: Direction, data: bytes)
    requires t.conn.valid && !t.conn.overflowed && FeedTrack(cfg, t, d, data).conn.valid
    ensures t.out.trace <= FeedTrack(cfg, t, d, data).out.trace && FeedTrack(cfg, t, d, data).conn.epoch == t.conn.epoch
  {
    hide FeedTrack, HeaderEnd, FramesFine, FramesOf, Unread, After, Events, Recorded;
    FeedExactly(cfg, t, d, data);
    FeedNeverCloses(cfg, t, d, data);
    var x := Buffer(t, d) + data;
    var t1 := Entered(cfg, t, d, x);
    RecordedSize(t.out, t.conn.epoch, d, [Event.Upgraded]);
    var b := Buffer(t1, d);
    RecordedSize(t1.out, t1.conn.epoch, d, Events(cfg, t1.conn.epoch, StandingOf(t1.conn, d), d, FramesOf(cfg, d, b)));
  }
}
