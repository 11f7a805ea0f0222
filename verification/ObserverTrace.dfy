/** The law of everything the observer ever emits, over every run of its calls. */
module ObserverTrace {
  import opened Bytes
  import opened ObserverSpec

  /** Records after which an epoch is silent. */
  predicate Terminal(e: Event) {
    e.ConnectionClose? || e == Gap(QueueOverflow)
  }

  predicate Asks(r: Record, epoch: nat, d: Direction, id: Id, m: Method) {
    r.epoch == Some(epoch) && r.direction == Some(d) && r.event.RpcSeen? && r.event.id == Some(id) && r.event.verb == m
  }

  predicate Answers(r: Record, epoch: nat, asker: Direction, id: Id) {
    r.epoch == Some(epoch) && r.event.RpcAnswered? && r.event.asker == asker && r.event.rid == id
  }

  /** A request of this epoch, direction, id and method that nothing has answered since. */
  ghost predicate Awaiting(h: seq<Record>, epoch: nat, d: Direction, id: Id, m: Method) {
    exists i :: 0 <= i < |h| && Asks(h[i], epoch, d, id, m) && forall k :: i < k < |h| ==> !Answers(h[k], epoch, d, id)
  }

  ghost predicate Begun(h: seq<Record>, epoch: nat) {
    exists i :: 0 <= i < |h| && h[i].epoch == Some(epoch)
  }

  /** The epoch has its last record. */
  ghost predicate Ended(h: seq<Record>, epoch: nat) {
    exists i :: 0 <= i < |h| && h[i].epoch == Some(epoch) && Terminal(h[i].event)
  }

  predicate Above(h: seq<Record>, epoch: nat) {
    forall i :: 0 <= i < |h| && h[i].epoch.Some? ==> h[i].epoch.value < epoch
  }

  /** What record r must satisfy behind history h. Whatever it is, the first record of an epoch
      is above every epoch before it. */
  ghost predicate Follows(h: seq<Record>, r: Record) {
    && (forall i :: 0 <= i < |h| ==> h[i].localSeq < r.localSeq)
    && (r.event.ConnectionOpen? ==> r.epoch.Some? && Above(h, r.epoch.value))
    && (r.epoch.Some? ==> Begun(h, r.epoch.value) || Above(h, r.epoch.value))
    && (r.epoch.Some? ==>
          forall i :: 0 <= i < |h| && h[i].epoch == r.epoch ==>
                        !Terminal(h[i].event) && (h[i].event.Gap? ==> Terminal(r.event)))
    && (r.event.RpcAnswered? ==>
          && r.epoch.Some? && r.direction == Some(Opposite(r.event.asker))
          && Awaiting(h, r.epoch.value, r.event.asker, r.event.rid, r.event.answered))
    && (r.event.InitializeHome? ==>
          && h != [] && r.epoch.Some? && r.direction == Some(Server)
          && var before := h[|h| - 1];
             && before.epoch == r.epoch && before.direction == r.direction
             && before.event.RpcAnswered? && before.event.answered == Initialize && before.event.ok
             && before.event.asker == Client && before.event.rid == r.event.hid)
  }

  ghost predicate Law(h: seq<Record>) {
    forall j :: 0 <= j < |h| ==> Follows(h[..j], h[j])
  }

  lemma LawAppend(h: seq<Record>, r: Record)
    requires Law(h) && Follows(h, r)
    ensures Law(h + [r])
  {
    hide Follows;
    var all := h + [r];
    forall j | 0 <= j < |all| ensures Follows(all[..j], all[j]) {
      if j < |h| {
        assert all[..j] == h[..j];
      } else {
        assert all[..j] == h;
      }
    }
  }

  // ---------- one connection ----------

  predicate NoTerminal(h: seq<Record>, epoch: nat) {
    forall i :: 0 <= i < |h| && h[i].epoch == Some(epoch) ==> !Terminal(h[i].event)
  }

  predicate NoGap(h: seq<Record>, epoch: nat) {
    forall i :: 0 <= i < |h| && h[i].epoch == Some(epoch) ==> !h[i].event.Gap?
  }

  ghost predicate PendingOk(c: Conn, h: seq<Record>) {
    && |c.pending| <= MAX_PENDING
    && forall k :: k in c.pending && Known(c.pending[k]) ==> Awaiting(h, c.epoch, k.0, k.1, c.pending[k])
  }

  predicate OneGap(h: seq<Record>, epoch: nat) {
    forall i, j :: 0 <= i < j < |h| && h[i].epoch == Some(epoch) && h[j].epoch == Some(epoch) ==>
                     !(h[i].event.Gap? && h[j].event.Gap?)
  }

  predicate Quietable(c: Conn, h: seq<Record>) {
    && (c.overflowed || c.closed || NoTerminal(h, c.epoch))
    && (c.closed || OneGap(h, c.epoch))
    && (c.valid ==> !c.overflowed && NoGap(h, c.epoch))
    && (c.overflowed ==> c.pending == map[])
  }

  ghost predicate ConnOk(c: Conn, h: seq<Record>) {
    Begun(h, c.epoch) && (c.overflowed || c.closed ==> Ended(h, c.epoch)) && Quietable(c, h) && PendingOk(c, h)
  }

  ghost predicate OutOk(o: Out) {
    Law(o.trace) && forall i :: 0 <= i < |o.trace| ==> o.trace[i].localSeq < o.nextSeq
  }

  ghost predicate TrackOk(t: Track) {
    OutOk(t.out) && ConnOk(t.conn, t.out.trace)
  }

  /** r grew from t by records of its own epoch only. */
  predicate Grown(t: Track, r: Track) {
    && r.conn.epoch == t.conn.epoch && r.conn.closed == t.conn.closed
    && t.out.trace <= r.out.trace
    && forall i :: |t.out.trace| <= i < |r.out.trace| ==> r.out.trace[i].epoch == Some(t.conn.epoch)
  }

  lemma BegunGrows(h: seq<Record>, g: seq<Record>, epoch: nat)
    requires Begun(h, epoch) && h <= g
    ensures Begun(g, epoch)
  {
    var i :| 0 <= i < |h| && h[i].epoch == Some(epoch);
    assert g[i] == h[i];
  }

  lemma EndedGrows(h: seq<Record>, g: seq<Record>, epoch: nat)
    requires Ended(h, epoch) && h <= g
    ensures Ended(g, epoch)
  {
    var i :| 0 <= i < |h| && h[i].epoch == Some(epoch) && Terminal(h[i].event);
    assert g[i] == h[i];
  }

  lemma GrownTwice(a: Track, b: Track, c: Track)
    requires Grown(a, b) && Grown(b, c)
    ensures Grown(a, c)
  {
    forall i | |a.out.trace| <= i < |c.out.trace| ensures c.out.trace[i].epoch == Some(a.conn.epoch) {
      if i < |b.out.trace| { assert b.out.trace[i] == c.out.trace[i]; }
    }
  }

  lemma AwaitingAppend(h: seq<Record>, r: Record, epoch: nat, d: Direction, id: Id, m: Method)
    requires Awaiting(h, epoch, d, id, m) && !Answers(r, epoch, d, id)
    ensures Awaiting(h + [r], epoch, d, id, m)
  {
    var i :| 0 <= i < |h| && Asks(h[i], epoch, d, id, m) && forall k :: i < k < |h| ==> !Answers(h[k], epoch, d, id);
    var all := h + [r];
    assert Asks(all[i], epoch, d, id, m);
    assert forall k :: i < k < |all| ==> !Answers(all[k], epoch, d, id);
  }

  lemma PendingAppend(c: Conn, h: seq<Record>, r: Record)
    requires PendingOk(c, h)
    requires forall k :: k in c.pending ==> !Answers(r, c.epoch, k.0, k.1)
    ensures PendingOk(c, h + [r])
  {
    forall k | k in c.pending && Known(c.pending[k]) ensures Awaiting(h + [r], c.epoch, k.0, k.1, c.pending[k]) {
      AwaitingAppend(h, r, c.epoch, k.0, k.1, c.pending[k]);
    }
  }

  /** May the connection emit e now? */
  ghost predicate MayEmit(t: Track, e: Event, d: Option<Direction>) {
    t.conn.overflowed ||
    var h := t.out.trace;
    && NoTerminal(h, t.conn.epoch)
    && (Terminal(e) || NoGap(h, t.conn.epoch))
    && (if e.ConnectionOpen? then Above(h, t.conn.epoch) else Begun(h, t.conn.epoch))
    && (e.RpcAnswered? ==> d == Some(Opposite(e.asker)) && Awaiting(h, t.conn.epoch, e.asker, e.rid, e.answered))
    && (e.InitializeHome? ==>
          && h != [] && d == Some(Server)
          && var before := h[|h| - 1];
             && before.epoch == Some(t.conn.epoch) && before.direction == d
             && before.event.RpcAnswered? && before.event.answered == Initialize && before.event.ok
             && before.event.asker == Client && before.event.rid == e.hid)
  }

  lemma EmitLawful(cfg: Config, t: Track, d: Option<Direction>, e: Event)
    requires OutOk(t.out) && MayEmit(t, e, d)
    ensures var r := Emit(cfg, t, d, e);
            && OutOk(r.out) && Grown(t, r)
            && (!t.conn.overflowed ==>
                  && r.out.trace == t.out.trace + [Emitted(cfg, t, d, e)] && Begun(r.out.trace, t.conn.epoch)
                  && (r.conn.overflowed || Terminal(e) ==> Ended(r.out.trace, t.conn.epoch)))
            && (if t.conn.overflowed then r == t
                else if r.conn.overflowed then r.conn == Invalidate(t.conn).(overflowed := true)
                else r.conn == t.conn && r.out.trace == t.out.trace + [Record(e, Some(t.conn.epoch), t.out.nextSeq, d)])
  {
    if !t.conn.overflowed {
      var h := t.out.trace;
      var r := Emitted(cfg, t, d, e);
      MayFollow(cfg, t, d, e);
      hide Follows, Awaiting, MayEmit, Above;
      LawAppend(h, r);
      hide Law;
      assert Emit(cfg, t, d, e).out.trace == h + [r];
      assert (h + [r])[|h|] == r;
    }
  }

  /** The record that an emission really appends. */
  function Emitted(cfg: Config, t: Track, d: Option<Direction>, e: Event): (r: Record) {
    if |t.out.queue| + 1 >= cfg.maxEvents then Record(Gap(QueueOverflow), Some(t.conn.epoch), t.out.nextSeq + 1, d)
    else Record(e, Some(t.conn.epoch), t.out.nextSeq, d)
  }

  lemma MayFollow(cfg: Config, t: Track, d: Option<Direction>, e: Event)
    requires OutOk(t.out) && MayEmit(t, e, d) && !t.conn.overflowed
    ensures Follows(t.out.trace, Emitted(cfg, t, d, e))
  {
    hide Awaiting, Law, Begun, Above;
  }

  /** An ordinary event of a live connection that answers nothing pending. */
  lemma EmitKeeps(cfg: Config, t: Track, d: Option<Direction>, e: Event)
    requires OutOk(t.out) && MayEmit(t, e, d) && PendingOk(t.conn, t.out.trace) && t.conn.valid && !t.conn.overflowed && !t.conn.closed
    requires !Terminal(e) && !e.Gap?
    requires forall k :: k in t.conn.pending && e.RpcAnswered? ==> k != (e.asker, e.rid)
    ensures TrackOk(Emit(cfg, t, d, e)) && Grown(t, Emit(cfg, t, d, e))
  {
    hide Emit, OutOk, Awaiting, Begun, Ended;
    EmitLawful(cfg, t, d, e);
    var r := Emit(cfg, t, d, e);
    if !r.conn.overflowed {
      PendingAppend(t.conn, t.out.trace, Record(e, Some(t.conn.epoch), t.out.nextSeq, d));
    }
  }

  /** Ends the evidence of a valid connection, with a record or with an overflow. */
  lemma EndKeeps(cfg: Config, t: Track, d: Option<Direction>, why: Why)
    requires TrackOk(t) && t.conn.valid && !t.conn.closed && why != QueueOverflow
    ensures var r := Emit(cfg, t.(conn := Invalidate(t.conn)), d, Gap(why));
            TrackOk(r) && Grown(t, r) && !r.conn.valid
  {
    hide Emit, OutOk, Begun, Ended, Awaiting;
    EmitLawful(cfg, t.(conn := Invalidate(t.conn)), d, Gap(why));
  }

  lemma GapKeeps(cfg: Config, t: Track, d: Direction, why: Why)
    requires TrackOk(t) && !t.conn.closed && why != QueueOverflow
    ensures TrackOk(GapNow(cfg, t, d, why)) && Grown(t, GapNow(cfg, t, d, why))
  {
    if t.conn.valid {
      EndKeeps(cfg, t, Some(d), why);
    }
  }

  // ---------- messages ----------

  lemma RequestKeeps(cfg: Config, t: Track, d: Direction, m: Rpc)
    requires TrackOk(t) && t.conn.valid && !t.conn.closed && m.Request?
    ensures TrackOk(ProcessRequest(cfg, t, d, m)) && Grown(t, ProcessRequest(cfg, t, d, m))
  {
    var known := Known(m.verb);
    var e := if known then RpcSeen(m.id, m.verb, m.params, m.thread) else RpcUnknown(m.id, Some(m.verb), false);
    if m.id.None? {
      EmitKeeps(cfg, t, Some(d), e);
    } else if |t.conn.pending| >= MAX_PENDING {
      GapKeeps(cfg, t, d, PendingTooMany);
    } else if (d, m.id.value) in t.conn.pending {
      GapKeeps(cfg, t, d, DuplicateRequest);
    } else {
      AskKeeps(cfg, t, d, m.id.value, m.verb, e);
    }
  }

  /** A new request: its own record is what makes it answerable. */
  lemma AskKeeps(cfg: Config, t: Track, d: Direction, id: Id, verb: Method, e: Event)
    requires TrackOk(t) && t.conn.valid && !t.conn.closed
    requires |t.conn.pending| < MAX_PENDING && (d, id) !in t.conn.pending
    requires if Known(verb) then e.RpcSeen? && e.id == Some(id) && e.verb == verb else e.RpcUnknown?
    ensures var t1 := t.(conn := t.conn.(pending := t.conn.pending[(d, id) := verb]));
            TrackOk(Emit(cfg, t1, Some(d), e)) && Grown(t, Emit(cfg, t1, Some(d), e))
  {
    var t1 := t.(conn := t.conn.(pending := t.conn.pending[(d, id) := verb]));
    hide Emit, OutOk, Awaiting, Begun, Ended;
    EmitLawful(cfg, t1, Some(d), e);
    var r := Emit(cfg, t1, Some(d), e);
    if !r.conn.overflowed {
      var rec := Record(e, Some(t.conn.epoch), t.out.nextSeq, Some(d));
      PendingAppend(t.conn, t.out.trace, rec);
      if Known(verb) { JustAsked(t.out.trace, rec, t.conn.epoch, d, id, verb); }
      PendingAdd(t.conn, r.out.trace, d, id, verb);
      hide PendingOk;
    }
  }

  lemma JustAsked(h: seq<Record>, r: Record, epoch: nat, d: Direction, id: Id, verb: Method)
    requires Asks(r, epoch, d, id, verb)
    ensures Awaiting(h + [r], epoch, d, id, verb)
  {
    assert Asks((h + [r])[|h|], epoch, d, id, verb);
  }

  lemma PendingAdd(c: Conn, h: seq<Record>, d: Direction, id: Id, verb: Method)
    requires PendingOk(c, h) && |c.pending| < MAX_PENDING && (d, id) !in c.pending
    requires Known(verb) ==> Awaiting(h, c.epoch, d, id, verb)
    ensures PendingOk(c.(pending := c.pending[(d, id) := verb]), h)
  {
    hide Awaiting;
    assert c.pending[(d, id) := verb].Keys == c.pending.Keys + {(d, id)};
  }

  lemma ResponseKeeps(cfg: Config, t: Track, d: Direction, m: Rpc)
    requires TrackOk(t) && t.conn.valid && !t.conn.closed && m.Response?
    ensures TrackOk(ProcessResponse(cfg, t, d, m)) && Grown(t, ProcessResponse(cfg, t, d, m))
  {
    var key := (Opposite(d), m.rid);
    var asked := if key in t.conn.pending then Some(t.conn.pending[key]) else None;
    var t1 := t.(conn := t.conn.(pending := t.conn.pending - {key}));
    hide Emit, TrackOk, Awaiting, Grown, Known;
    ForgetKeeps(t, key);
    if asked.None? || !Known(asked.value) {
      UnaskedKeeps(cfg, t1, d, RpcUnknown(Some(m.rid), asked, true));
    } else {
      WasAsked(t, key);
      AnsweredKeeps(cfg, t1, d, m, asked.value);
    }
  }

  /** A response to nothing known is reported as such, and as nothing else. */
  lemma UnaskedReported(cfg: Config, t: Track, d: Direction, m: Rpc)
    requires TrackOk(t) && t.conn.valid && !t.conn.closed && m.Response?
    requires (Opposite(d), m.rid) in t.conn.pending ==> !Known(t.conn.pending[(Opposite(d), m.rid)])
    ensures var key := (Opposite(d), m.rid);
            var asked := if key in t.conn.pending then Some(t.conn.pending[key]) else None;
            ProcessResponse(cfg, t, d, m).out.trace == t.out.trace + [Emitted(cfg, t, Some(d), RpcUnknown(Some(m.rid), asked, true))]
  {
    hide OutOk, PendingOk, Begun, Ended;
  }

  lemma WasAsked(t: Track, key: (Direction, Id))
    requires TrackOk(t) && key in t.conn.pending && Known(t.conn.pending[key])
    ensures Awaiting(t.out.trace, t.conn.epoch, key.0, key.1, t.conn.pending[key])
  {
  }

  lemma UnaskedKeeps(cfg: Config, t: Track, d: Direction, e: Event)
    requires TrackOk(t) && t.conn.valid && !t.conn.closed && e.RpcUnknown?
    ensures var r := Emit(cfg, t, Some(d), e);
            TrackOk(r) && Grown(t, r) && r.out.trace == t.out.trace + [Emitted(cfg, t, Some(d), e)]
  {
    hide Emit, OutOk, Awaiting, PendingOk, Begun, Ended;
    EmitKeeps(cfg, t, Some(d), e);
    EmitLawful(cfg, t, Some(d), e);
  }

  lemma ForgetKeeps(t: Track, key: (Direction, Id))
    requires TrackOk(t)
    ensures var t1 := t.(conn := t.conn.(pending := t.conn.pending - {key}));
            TrackOk(t1) && Grown(t, t1) && forall r :: Grown(t1, r) ==> Grown(t, r)
  {
    hide OutOk, Awaiting, Begun;
    var rest := t.conn.pending - {key};
    assert rest.Keys <= t.conn.pending.Keys;
    SubsetIsSmaller(rest.Keys, t.conn.pending.Keys);
  }

  lemma AnsweredKeeps(cfg: Config, t: Track, d: Direction, m: Rpc, verb: Method)
    requires TrackOk(t) && t.conn.valid && !t.conn.closed && m.Response? && (Opposite(d), m.rid) !in t.conn.pending
    requires Awaiting(t.out.trace, t.conn.epoch, Opposite(d), m.rid, verb)
    ensures var e := RpcAnswered(m.rid, verb, Opposite(d), m.ok, if m.ok then m.rthread else Info(None, None));
            var t2 := Emit(cfg, t, Some(d), e);
            var home := InitializeHome(m.rid, m.home.Some? && m.home == cfg.expectedHome(t2.conn.epoch), m.home);
            && TrackOk(t2) && Grown(t, t2)
            && (d == Server && verb == Initialize && t2.conn.valid && m.ok ==>
                  TrackOk(Emit(cfg, t2, Some(d), home)) && Grown(t, Emit(cfg, t2, Some(d), home)))
  {
    hide Emit, TrackOk, Awaiting;
    var e := RpcAnswered(m.rid, verb, Opposite(d), m.ok, if m.ok then m.rthread else Info(None, None));
    var t2 := Emit(cfg, t, Some(d), e);
    AnswerKeeps(cfg, t, d, e);
    if d == Server && verb == Initialize && t2.conn.valid && m.ok {
      var matches := m.home.Some? && m.home == cfg.expectedHome(t2.conn.epoch);
      HomeKeeps(cfg, t2, m.rid, matches, m.home);
      GrownTwice(t, t2, Emit(cfg, t2, Some(d), InitializeHome(m.rid, matches, m.home)));
    }
  }

  lemma AnswerKeeps(cfg: Config, t: Track, d: Direction, e: Event)
    requires TrackOk(t) && t.conn.valid && !t.conn.closed && e.RpcAnswered? && e.asker == Opposite(d)
    requires (e.asker, e.rid) !in t.conn.pending
    requires Awaiting(t.out.trace, t.conn.epoch, e.asker, e.rid, e.answered)
    ensures var t2 := Emit(cfg, t, Some(d), e);
            && TrackOk(t2) && Grown(t, t2)
            && (t2.conn.valid ==> t2.out.trace == t.out.trace + [Record(e, Some(t.conn.epoch), t.out.nextSeq, Some(d))])
  {
    hide Emit, OutOk, Awaiting, PendingOk, Begun;
    EmitKeeps(cfg, t, Some(d), e);
    EmitLawful(cfg, t, Some(d), e);
  }

  /** The home report, right behind the answer to initialize. */
  lemma HomeKeeps(cfg: Config, t: Track, id: Id, matches: bool, home: Option<string>)
    requires TrackOk(t) && t.conn.valid && !t.conn.closed && t.out.trace != []
    requires var before := t.out.trace[|t.out.trace| - 1];
             && before.epoch == Some(t.conn.epoch) && before.direction == Some(Server)
             && before.event.RpcAnswered? && before.event.answered == Initialize && before.event.ok
             && before.event.asker == Client && before.event.rid == id
    ensures var r := Emit(cfg, t, Some(Server), InitializeHome(id, matches, home)); TrackOk(r) && Grown(t, r)
  {
    hide Emit, OutOk, Awaiting, PendingOk, Begun;
    EmitKeeps(cfg, t, Some(Server), InitializeHome(id, matches, home));
  }

  lemma TextKeeps(cfg: Config, t: Track, d: Direction, payload: bytes)
    requires TrackOk(t) && t.conn.valid && !t.conn.closed
    ensures TrackOk(ProcessText(cfg, t, d, payload)) && Grown(t, ProcessText(cfg, t, d, payload))
  {
    hide TrackOk, Grown, ProcessRequest, ProcessResponse, GapNow;
    var m := cfg.decode(payload);
    match m
    case Malformed(text) => GapKeeps(cfg, t, d, BadMessage(text));
    case Request(_, _, _, _) => RequestKeeps(cfg, t, d, m);
    case Response(_, _, _, _) => ResponseKeeps(cfg, t, d, m);
  }

  /** The parsers are no part of the law. */
  lemma ParserFree(t: Track, d: Direction, p: Parser)
    requires TrackOk(t)
    ensures TrackOk(WithParser(t, d, p)) && Grown(t, WithParser(t, d, p))
    ensures forall r :: Grown(WithParser(t, d, p), r) ==> Grown(t, r)
  {
  }

  lemma HandleKeeps(cfg: Config, t: Track, d: Direction, fin: bool, opcode: nat, payload: bytes)
    requires TrackOk(t) && t.conn.valid && !t.conn.closed
    ensures TrackOk(HandleFrame(cfg, t, d, fin, opcode, payload)) && Grown(t, HandleFrame(cfg, t, d, fin, opcode, payload))
  {
    hide TrackOk, Grown, GapNow, ProcessText, Emit;
    var p := ParserOf(t.conn, d);
    forall why | why != QueueOverflow
      ensures TrackOk(GapNow(cfg, t, d, why)) && Grown(t, GapNow(cfg, t, d, why))
    {
      GapKeeps(cfg, t, d, why);
    }
    if opcode >= 8 {
      ControlKeeps(cfg, t, d, opcode);
    } else if opcode == 0 {
      ParserFree(t, d, p.(fragmentPayload := p.fragmentPayload + payload));
      var done := p.(fragmentOpcode := None, fragmentPayload := []);
      ParserFree(t, d, done);
      GapKeeps(cfg, WithParser(t, d, done), d, BinaryMessage);
      TextKeeps(cfg, WithParser(t, d, done), d, p.fragmentPayload + payload);
    } else {
      ParserFree(t, d, p.(fragmentOpcode := Some(opcode), fragmentPayload := payload));
      TextKeeps(cfg, t, d, payload);
    }
  }

  lemma ControlKeeps(cfg: Config, t: Track, d: Direction, opcode: nat)
    requires TrackOk(t) && t.conn.valid && !t.conn.closed
    ensures TrackOk(Emit(cfg, t, Some(d), Control(opcode))) && Grown(t, Emit(cfg, t, Some(d), Control(opcode)))
  {
    EmitKeeps(cfg, t, Some(d), Control(opcode));
  }

  lemma {:induction false} FramesKeep(cfg: Config, t: Track, d: Direction)
    requires TrackOk(t) && !t.conn.closed
    ensures TrackOk(Frames(cfg, t, d)) && Grown(t, Frames(cfg, t, d))
    decreases |Buffer(t, d)|
  {
    assert Grown(t, t);
    hide TrackOk, SeeFrame, HandleFrame, GapNow;
    if t.conn.valid {
      match SeeFrame(cfg, d, Buffer(t, d))
      case Wait =>
      case Broken(why) => SeeNeverOverflows(cfg, d, Buffer(t, d)); GapKeeps(cfg, t, d, why);
      case Whole(fin, opcode, payload, size) =>
        ParserFree(t, d, ParserOf(t.conn, d).(buffer := Buffer(t, d)[size..]));
        var t1 := WithBuffer(t, d, Buffer(t, d)[size..]);
        HandleKeepsBuffer(cfg, t1, d, fin, opcode, payload);
        HandleKeeps(cfg, t1, d, fin, opcode, payload);
        var t2 := HandleFrame(cfg, t1, d, fin, opcode, payload);
        FramesKeep(cfg, t2, d);
        GrownTwice(t1, t2, Frames(cfg, t2, d));
    }
  }

  lemma SeeNeverOverflows(cfg: Config, d: Direction, buf: bytes)
    ensures SeeFrame(cfg, d, buf).Broken? ==> SeeFrame(cfg, d, buf).why != QueueOverflow
  {
  }

  lemma UpgradeKeeps(cfg: Config, t: Track, d: Direction)
    requires TrackOk(t) && t.conn.valid && !t.conn.closed
    ensures TrackOk(ParseUpgrade(cfg, t, d)) && Grown(t, ParseUpgrade(cfg, t, d))
  {
    var buf := Buffer(t, d);
    assert Grown(t, t);
    GapKeeps(cfg, t, d, HeaderTooLarge);
    if HeaderEnd(buf, 0).Some? && HeaderEnd(buf, 0).value <= cfg.maxHeader {
      var end := HeaderEnd(buf, 0).value;
      var t1 := WithBuffer(t, d, buf[end..]);
      ParserFree(t, d, ParserOf(t.conn, d).(buffer := buf[end..]));
      match cfg.upgrade(d, buf[..end], t.conn.clientKey)
      case BadUpgrade(text) => GapKeeps(cfg, t1, d, BadHandshake(text));
      case GoodUpgrade(key) =>
        var t2 := if d == Client then t1.(conn := t1.conn.(clientKey := key)) else t1;
        var t3 := WithParser(t2, d, ParserOf(t2.conn, d).(handshakeDone := true));
        assert t3.out == t.out && t3.conn.pending == t.conn.pending;
        EmitKeeps(cfg, t3, Some(d), Upgraded);
    }
  }

  lemma FeedKeeps(cfg: Config, t: Track, d: Direction, data: bytes)
    requires TrackOk(t) && !t.conn.closed
    ensures TrackOk(FeedTrack(cfg, t, d, data)) && Grown(t, FeedTrack(cfg, t, d, data))
  {
    assert Grown(t, t);
    hide TrackOk, Frames, GapNow, ParseUpgrade;
    if t.conn.valid {
      GapKeeps(cfg, t, d, InputTooLarge);
      ParserFree(t, d, ParserOf(t.conn, d).(buffer := Buffer(t, d) + data));
      var fed := WithBuffer(t, d, Buffer(t, d) + data);
      if ParserOf(t.conn, d).handshakeDone {
        FramesKeep(cfg, fed, d);
      } else {
        UpgradeKeeps(cfg, fed, d);
        var t1 := ParseUpgrade(cfg, fed, d);
        FramesKeep(cfg, t1, d);
        GrownTwice(fed, t1, Frames(cfg, t1, d));
      }
    }
  }
}
