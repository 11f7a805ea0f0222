/** The metadata sink over whole runs: whatever happens on its connections, every milestone it
    announces has the whole story behind it, and an epoch is announced successfully at most once. */
module ReadinessRuns {
  import opened Bytes
  import opened ObserverSpec
  import opened ObserverTrace
  import opened ObserverRuns
  import opened ObserverMarks
  import opened Readiness

  /** An announcement: made by call number `step`, with `at` records in the trace. */
  datatype Milestone = Milestone(epoch: nat, lease: Lease, at: nat, step: nat, delivered: bool)

  /** `since` is where in the trace each epoch's state was last started afresh, `step` the number
      of calls so far. */
  datatype Sink = Sink(
    observer: Observer, protocols: map<nat, Protocol>, since: map<nat, nat>, milestones: seq<Milestone>, step: nat)

  const SILENT := Sink(IDLE, map[], map[], [], 0)

  /** `delivered` says whether publishing, if it comes to that, returns normally. */
  datatype Call =
    | Connected(conn: int, epoch: nat, lease: Option<Lease>)
    | DataSeen(conn: int, epoch: nat, direction: Direction, data: bytes, delivered: bool)
    | Ended(conn: int)
    | GapReported(epoch: nat)

  function TakeRow(ps: map<nat, Protocol>, r: Record): (qs: map<nat, Protocol>) {
    if r.epoch.Some? && r.epoch.value in ps then ps[r.epoch.value := Take(ps[r.epoch.value], r)] else ps
  }

  function Absorb(ps: map<nat, Protocol>, rows: seq<Record>): (qs: map<nat, Protocol>) {
    if rows == [] then ps else TakeRow(Absorb(ps, rows[..|rows| - 1]), rows[|rows| - 1])
  }

  function Homes(ps: map<nat, Protocol>): (r: map<nat, Option<string>>) {
    map e | e in ps :: ps[e].lease.home
  }

  function HomeOf(homes: map<nat, Option<string>>, epoch: nat): (r: Option<string>) {
    if epoch in homes then homes[epoch] else None
  }

  function WithHomes(cfg: Config, homes: map<nat, Option<string>>): (r: Config) {
    cfg.(activation := true, expectedHome := (epoch: nat) => HomeOf(homes, epoch))
  }

  function Rows(before: seq<Record>, after: seq<Record>): (r: seq<Record>) {
    if |before| <= |after| then after[|before|..] else []
  }

  /** One call of the observer; each row it emits is taken at once. */
  function Observe(cfg: Config, s: Sink, op: Op): (r: Sink) {
    var o := ObserverSpec.Apply(WithHomes(cfg, Homes(s.protocols)), s.observer, op);
    s.(observer := o, protocols := Absorb(s.protocols, Rows(s.observer.out.trace, o.out.trace)))
  }

  /** Both directions stand between two frames and between two messages. */
  predicate Boundary(o: Observer, c: int) {
    c in o.conns && o.conns[c].valid && !o.conns[c].closed &&
    forall d :: var p := ParserOf(o.conns[c], d); p.handshakeDone && p.buffer == [] && p.fragmentOpcode.None?
  }

  function Announce(s: Sink, epoch: nat, delivered: bool): (r: Sink)
    requires epoch in s.protocols
  {
    var p := s.protocols[epoch];
    s.(milestones := s.milestones + [Milestone(epoch, p.lease, |s.observer.out.trace|, s.step, delivered)],
       protocols := if delivered then s.protocols[epoch := p.(published := true)] else s.protocols)
  }

  function Restart(s: Sink, conn: int, epoch: nat, lease: Option<Lease>): (r: Sink) {
    s.(protocols := s.protocols[epoch := Opening(conn, lease)], since := s.since[epoch := |s.observer.out.trace|])
  }

  function Apply(cfg: Config, s: Sink, call: Call): (r: Sink) {
    Act(cfg, s, call).(step := s.step + 1)
  }

  function Act(cfg: Config, s: Sink, call: Call): (r: Sink) {
    match call
    case Connected(conn, epoch, lease) => Observe(cfg, Restart(s, conn, epoch, lease), Open(conn, Some(epoch)))
    case DataSeen(conn, epoch, direction, data, delivered) =>
      if epoch !in s.protocols || s.protocols[epoch].conn != conn then s
      else
        var s1 := Observe(cfg, s, Feed(conn, direction, data));
        if epoch in s1.protocols && Ready(s1.protocols[epoch]) && Boundary(s1.observer, conn) then
          Announce(s1, epoch, delivered)
        else s1
    case Ended(conn) => Observe(cfg, s, Close(conn))
    case GapReported(epoch) =>
      if epoch in s.protocols then s.(protocols := s.protocols[epoch := s.protocols[epoch].(valid := false)]) else s
  }

  function Run(cfg: Config, calls: seq<Call>): (r: Sink) {
    if calls == [] then SILENT else Apply(cfg, Run(cfg, calls[..|calls| - 1]), calls[|calls| - 1])
  }

  // ---------- what a milestone rests on ----------

  /** How the opened thread showed that it is live. */
  datatype Proof = Announced | SkillsListed(id: Id)

  datatype Session = Session(greeting: Id, opening: Id, thread: string, proof: Proof)

  function LastAct(s: Session): (r: seq<Clue>) {
    if s.proof.Announced? then [AnnouncesThread(s.thread)] else [ListsSkills(s.proof.id), SkillsAnswered(s.proof.id)]
  }

  /** The whole script: greeting with the leased home, initialized, thread opened as the lease
      says, and its sign of life. */
  function Script(l: Lease, s: Session): (r: seq<Clue>) {
    Greeting(s.greeting, l) + (Opened(l, s.opening, s.thread) + LastAct(s))
  }

  predicate SessionFits(l: Lease, s: Session) {
    && ThreadId(s.thread) && (l.resume.Some? ==> l.resume == Some(s.thread))
    && (s.proof.SkillsListed? ==> l.resume.Some?)
  }

  ghost predicate Sound(h: seq<Record>, epoch: nat, l: Lease) {
    && UpgradedBefore(h, |h|, epoch, Client) && UpgradedBefore(h, |h|, epoch, Server)
    && (forall i :: 0 <= i < |h| && h[i].epoch == Some(epoch) ==> !Unwanted(h[i].event))
    && exists s :: SessionFits(l, s) && InOrder(h, epoch, Script(l, s))
  }

  // ---------- the invariant ----------

  ghost predicate ProtocolOk(p: Protocol, epoch: nat, since: nat, h: seq<Record>) {
    since <= |h| && Told(p.lease, p.talk, p.valid, epoch, h) && Unspoiled(p, epoch, since, h)
  }

  ghost predicate ProtocolsOk(ps: map<nat, Protocol>, since: map<nat, nat>, h: seq<Record>) {
    ps.Keys == since.Keys && forall e :: e in ps ==> ProtocolOk(ps[e], e, since[e], h)
  }

  ghost predicate MilestoneOk(m: Milestone, h: seq<Record>) {
    m.at <= |h| && Sound(h[..m.at], m.epoch, m.lease)
  }

  /** A successful announcement is remembered, or lies behind a fresh start of its epoch. */
  ghost predicate Remembered(m: Milestone, ps: map<nat, Protocol>, since: map<nat, nat>) {
    m.delivered ==> m.epoch in ps && m.epoch in since && (ps[m.epoch].published || m.at <= since[m.epoch])
  }

  predicate OnePerEpoch(ms: seq<Milestone>) {
    forall i, j :: 0 <= i < j < |ms| && ms[i].delivered && ms[j].delivered ==> ms[i].epoch != ms[j].epoch
  }

  ghost predicate SinkOk(s: Sink) {
    && Consistent(s.observer) && AllMarked(s.observer)
    && ProtocolsOk(s.protocols, s.since, s.observer.out.trace)
    && (forall i :: 0 <= i < |s.milestones| ==>
                      MilestoneOk(s.milestones[i], s.observer.out.trace) && Remembered(s.milestones[i], s.protocols, s.since))
    && OnePerEpoch(s.milestones)
  }

  // ---------- rows ----------

  lemma LawCut(h: seq<Record>, k: nat)
    requires Law(h) && k <= |h|
    ensures Law(h[..k]) && (k < |h| ==> Follows(h[..k], h[k]))
  {
    hide Follows;
    forall j | 0 <= j < k ensures Follows(h[..k][..j], h[..k][j]) {
      assert h[..k][..j] == h[..j];
    }
  }

  /** Leases, names and flags that rows cannot change, and validity, which they cannot restore. */
  ghost predicate SameFrame(ps: map<nat, Protocol>, qs: map<nat, Protocol>) {
    && ps.Keys == qs.Keys
    && forall e :: e in ps ==>
                     && qs[e].lease == ps[e].lease && qs[e].conn == ps[e].conn && qs[e].published == ps[e].published
                     && (qs[e].valid ==> ps[e].valid)
  }

  lemma SameHomes(ps: map<nat, Protocol>, qs: map<nat, Protocol>)
    requires SameFrame(ps, qs)
    ensures Homes(ps) == Homes(qs)
  {
  }

  lemma SameFrameTwice(a: map<nat, Protocol>, b: map<nat, Protocol>, c: map<nat, Protocol>)
    requires SameFrame(a, b) && SameFrame(b, c)
    ensures SameFrame(a, c)
  {
  }

  predicate HomesTrue(ps: map<nat, Protocol>, r: Record) {
    r.event.InitializeHome? ==>
      r.epoch.Some? && (r.event.matches <==> r.event.home.Some? && r.event.home == HomeOf(Homes(ps), r.epoch.value))
  }

  lemma TakeRowKeeps(ps: map<nat, Protocol>, since: map<nat, nat>, h: seq<Record>, r: Record)
    requires ProtocolsOk(ps, since, h) && Law(h) && Follows(h, r) && HomesTrue(ps, r)
    ensures ProtocolsOk(TakeRow(ps, r), since, h + [r]) && SameFrame(ps, TakeRow(ps, r))
  {
    var qs := TakeRow(ps, r);
    hide Law, Follows, Told, Unspoiled, Take;
    if r.epoch.Some? && r.epoch.value in ps { TakeChanges(ps[r.epoch.value], r); }
    forall e | e in qs ensures ProtocolOk(qs[e], e, since[e], h + [r]) {
      TakeUnspoiled(ps[e], e, since[e], h, r);
      if r.epoch == Some(e) {
        TakeTold(ps[e], e, h, r);
      } else {
        ToldGrows(ps[e].lease, ps[e].talk, ps[e].valid, e, h, r);
      }
    }
  }

  lemma TakeTold(p: Protocol, epoch: nat, h: seq<Record>, r: Record)
    requires Told(p.lease, p.talk, p.valid, epoch, h) && r.epoch == Some(epoch) && Law(h) && Follows(h, r)
    requires r.event.InitializeHome? && r.event.matches ==> r.event.home == p.lease.home && p.lease.home.Some?
    ensures var q := Take(p, r); Told(q.lease, q.talk, q.valid, epoch, h + [r])
  {
    HearKeeps(p.lease, p.talk, p.valid, epoch, h, r);
    ToldGrows(p.lease, p.talk, p.valid, epoch, h, r);
    hide Law, Follows, Acceptable, Tells, Hear;
  }

  lemma {:induction false} AbsorbKeeps(ps: map<nat, Protocol>, since: map<nat, nat>, h: seq<Record>, rows: seq<Record>)
    requires ProtocolsOk(ps, since, h) && Law(h + rows)
    requires forall i :: 0 <= i < |rows| ==> HomesTrue(ps, rows[i])
    ensures ProtocolsOk(Absorb(ps, rows), since, h + rows) && SameFrame(ps, Absorb(ps, rows))
    decreases |rows|
  {
    if rows == [] {
      assert h + rows == h;
    } else {
      var n := |rows| - 1;
      var g, qs := h + rows[..n], Absorb(ps, rows[..n]);
      assert (h + rows)[..|g|] == g && (h + rows)[|g|] == rows[n] && g + [rows[n]] == h + rows;
      LawCut(h + rows, |g|);
      hide Law, Follows, ProtocolsOk, TakeRow;
      AbsorbKeeps(ps, since, h, rows[..n]);
      SameHomes(ps, qs);
      hide Homes;
      TakeRowKeeps(qs, since, g, rows[n]);
      SameFrameTwice(ps, qs, TakeRow(qs, rows[n]));
    }
  }

  lemma ObserveKeeps(cfg: Config, s: Sink, op: Op)
    requires SinkOk(s)
    ensures var r := Observe(cfg, s, op);
            && SinkOk(r) && SameFrame(s.protocols, r.protocols) && r.since == s.since && r.milestones == s.milestones
            && r.step == s.step
  {
    hide Consistent, AllMarked, ProtocolsOk, ObserverSpec.Apply, Sound, Law;
    var homes := WithHomes(cfg, Homes(s.protocols));
    ObserverRuns.ApplyKeeps(homes, s.observer, op);
    ApplyMarks(homes, s.observer, op);
    var r := Observe(cfg, s, op);
    var h, g := s.observer.out.trace, r.observer.out.trace;
    var rows := Rows(h, g);
    RowsHonest(cfg, s.protocols, h, g);
    ConsistentLaw(r.observer);
    AbsorbKeeps(s.protocols, s.since, h, rows);
    forall i | 0 <= i < |s.milestones| ensures MilestoneOk(s.milestones[i], g) {
      var m := s.milestones[i];
      assert MilestoneOk(m, h);
      assert g[..m.at] == h[..m.at];
    }
  }

  lemma ConsistentLaw(o: Observer)
    requires Consistent(o)
    ensures Law(o.out.trace)
  {
  }

  lemma RowsHonest(cfg: Config, ps: map<nat, Protocol>, h: seq<Record>, g: seq<Record>)
    requires Truthful(WithHomes(cfg, Homes(ps)), h, g)
    ensures g == h + Rows(h, g) && forall i :: 0 <= i < |Rows(h, g)| ==> HomesTrue(ps, Rows(h, g)[i])
  {
    forall i | 0 <= i < |Rows(h, g)| ensures HomesTrue(ps, Rows(h, g)[i]) {
      assert HomeHonest(WithHomes(cfg, Homes(ps)), g[|h| + i]);
    }
  }

  // ---------- announcing ----------

  /** Since both sides upgraded after the fresh start, nothing of the epoch lies before it that
      could matter. */
  lemma NothingBefore(o: Observer, p: Protocol, epoch: nat, since: nat)
    requires Consistent(o) && AllMarked(o) && since <= |o.out.trace| && Unspoiled(p, epoch, since, o.out.trace) && Ready(p)
    ensures forall i :: 0 <= i < |o.out.trace| && o.out.trace[i].epoch == Some(epoch) ==> !Unwanted(o.out.trace[i].event)
  {
    var h := o.out.trace;
    forall i | 0 <= i < |h| && h[i].epoch == Some(epoch) ensures !Unwanted(h[i].event) {
      if i < since {
        assert Some(Client) in p.upgrades;
        var k :| since <= k < |h| && UpgradeOf(h[k], epoch, Client);
        assert Follows(h[..k], h[k]);
        assert h[..k][i] == h[i];
      }
      if TurnAsked(h[i].event).Some? {
        assert Some(Client) in p.upgrades && Some(Server) in p.upgrades;
        SpeechSince(h, epoch, i, since);
      }
    }
  }

  lemma SpeechSince(h: seq<Record>, epoch: nat, i: nat, since: nat)
    requires Orderly(h) && since <= |h| && i < |h| && h[i].epoch == Some(epoch) && Speech(h[i].event)
    requires exists k :: since <= k < |h| && UpgradeOf(h[k], epoch, Client)
    requires exists k :: since <= k < |h| && UpgradeOf(h[k], epoch, Server)
    ensures since <= i
  {
    var d := h[i].direction.value;
    assert d.Client? || d.Server?;
    var j :| 0 <= j < i && UpgradeOf(h[j], epoch, d);
    var k :| since <= k < |h| && UpgradeOf(h[k], epoch, d);
  }

  lemma ReadyStory(p: Protocol, epoch: nat, h: seq<Record>)
    requires Told(p.lease, p.talk, p.valid, epoch, h) && Ready(p)
    ensures exists s :: SessionFits(p.lease, s) && InOrder(h, epoch, Script(p.lease, s))
  {
    hide ThreadId;
    var l, t := p.lease, p.talk.thread;
    var opening, thread := Get(OpenKey(l, t)).value, t.id.value;
    if t.id == t.startedId {
      var id :| InOrder(h, epoch, Greeting(id, l) + (Opened(l, opening, thread) + [AnnouncesThread(thread)]));
      var s := Session(id, opening, thread, Announced);
      assert InOrder(h, epoch, Script(l, s)) && SessionFits(l, s);
    } else {
      var k :| Tells(h, epoch, l, Opened(l, opening, thread) + [ListsSkills(k), SkillsAnswered(k)]);
      var id :| InOrder(h, epoch, Greeting(id, l) + (Opened(l, opening, thread) + [ListsSkills(k), SkillsAnswered(k)]));
      var s := Session(id, opening, thread, SkillsListed(k));
      assert InOrder(h, epoch, Script(l, s)) && SessionFits(l, s);
    }
  }

  lemma ReadySound(s: Sink, epoch: nat)
    requires SinkOk(s) && epoch in s.protocols && Ready(s.protocols[epoch])
    ensures Sound(s.observer.out.trace, epoch, s.protocols[epoch].lease)
  {
    var p, h, since := s.protocols[epoch], s.observer.out.trace, s.since[epoch];
    assert ProtocolOk(p, epoch, since, h);
    ReadyStory(p, epoch, h);
    NothingBefore(s.observer, p, epoch, since);
    hide Consistent, AllMarked, Told, InOrder;
    assert Some(Client) in p.upgrades && Some(Server) in p.upgrades;
    assert UpgradedBefore(h, |h|, epoch, Client);
    assert UpgradedBefore(h, |h|, epoch, Server);
  }

  /** Nobody announced this epoch before: the flag says not since the fresh start, and both
      upgrades behind an earlier milestone would have to repeat after it. */
  lemma NotBefore(s: Sink, epoch: nat, m: Milestone)
    requires SinkOk(s) && epoch in s.protocols && Ready(s.protocols[epoch])
    requires MilestoneOk(m, s.observer.out.trace) && Remembered(m, s.protocols, s.since) && m.delivered
    ensures m.epoch != epoch
  {
    assert ProtocolOk(s.protocols[epoch], epoch, s.since[epoch], s.observer.out.trace);
    assert Some(Client) in s.protocols[epoch].upgrades;
  }

  lemma AnnounceKeeps(s: Sink, epoch: nat, delivered: bool)
    requires SinkOk(s) && epoch in s.protocols && Ready(s.protocols[epoch])
    ensures SinkOk(Announce(s, epoch, delivered))
  {
    hide Consistent, AllMarked, ProtocolsOk, Ready, Sound;
    var r, h, p, n := Announce(s, epoch, delivered), s.observer.out.trace, s.protocols[epoch], |s.milestones|;
    ReadySound(s, epoch);
    PublishedOk(s.protocols, s.since, h, epoch);
    assert h[..|h|] == h;
    forall i | 0 <= i <= n ensures MilestoneOk(r.milestones[i], h) && Remembered(r.milestones[i], r.protocols, r.since) {
      if i < n { assert r.milestones[i] == s.milestones[i]; }
    }
    forall i | 0 <= i < n && s.milestones[i].delivered ensures s.milestones[i].epoch != epoch {
      NotBefore(s, epoch, s.milestones[i]);
    }
  }

  lemma PublishedOk(ps: map<nat, Protocol>, since: map<nat, nat>, h: seq<Record>, epoch: nat)
    requires ProtocolsOk(ps, since, h) && epoch in ps
    ensures ProtocolsOk(ps[epoch := ps[epoch].(published := true)], since, h) && epoch in since
  {
    hide Told;
    assert ProtocolOk(ps[epoch].(published := true), epoch, since[epoch], h) by {
      assert ProtocolOk(ps[epoch], epoch, since[epoch], h);
    }
    hide ProtocolOk;
  }

  lemma RestartKeeps(s: Sink, conn: int, epoch: nat, lease: Option<Lease>)
    requires SinkOk(s)
    ensures SinkOk(Restart(s, conn, epoch, lease))
  {
    var r, h := Restart(s, conn, epoch, lease), s.observer.out.trace;
    hide Sound, Consistent, AllMarked, Tells;
    assert ProtocolOk(Opening(conn, lease), epoch, |h|, h);
    hide ProtocolOk;
  }

  lemma SpoilKeeps(s: Sink, epoch: nat)
    requires SinkOk(s) && epoch in s.protocols
    ensures SinkOk(s.(protocols := s.protocols[epoch := s.protocols[epoch].(valid := false)]))
  {
    var p, h := s.protocols[epoch], s.observer.out.trace;
    hide Sound, Consistent, AllMarked, Tells;
    assert ProtocolOk(p, epoch, s.since[epoch], h);
    assert ProtocolOk(p.(valid := false), epoch, s.since[epoch], h);
    hide ProtocolOk;
  }

  lemma ApplyKeepsSink(cfg: Config, s: Sink, call: Call)
    requires SinkOk(s)
    ensures SinkOk(Apply(cfg, s, call))
  {
    ActKeeps(cfg, s, call);
    hide Act, Sound, Consistent, AllMarked, ProtocolsOk;
  }

  lemma ActKeeps(cfg: Config, s: Sink, call: Call)
    requires SinkOk(s)
    ensures SinkOk(Act(cfg, s, call))
  {
    hide SinkOk, Observe, Restart, Announce, Ready;
    match call
    case Connected(conn, epoch, lease) =>
      RestartKeeps(s, conn, epoch, lease);
      ObserveKeeps(cfg, Restart(s, conn, epoch, lease), Open(conn, Some(epoch)));
    case DataSeen(conn, epoch, direction, data, delivered) =>
      if epoch in s.protocols && s.protocols[epoch].conn == conn {
        ObserveKeeps(cfg, s, Feed(conn, direction, data));
        var s1 := Observe(cfg, s, Feed(conn, direction, data));
        if epoch in s1.protocols && Ready(s1.protocols[epoch]) {
          AnnounceKeeps(s1, epoch, delivered);
        }
      }
    case Ended(conn) => ObserveKeeps(cfg, s, Close(conn));
    case GapReported(epoch) => if epoch in s.protocols { SpoilKeeps(s, epoch); }
  }

  // ---------- relay gaps ----------

  predicate Starts(call: Call, epoch: nat) {
    call.Connected? && call.epoch == epoch
  }

  /** The relay reported a gap of this epoch, and nothing has started the epoch afresh since. */
  predicate GapSince(calls: seq<Call>, epoch: nat) {
    calls != [] &&
    var call := calls[|calls| - 1];
    call == GapReported(epoch) || (!Starts(call, epoch) && GapSince(calls[..|calls| - 1], epoch))
  }

  /** The milestone was announced by its call, for that call's epoch, with no relay gap of the
      epoch since the epoch was last started. */
  predicate Unspoilt(m: Milestone, calls: seq<Call>) {
    && m.step < |calls| && calls[m.step].DataSeen? && calls[m.step].epoch == m.epoch
    && !GapSince(calls[..m.step], m.epoch)
  }

  ghost predicate GapsKept(s: Sink, calls: seq<Call>) {
    && s.step == |calls|
    && (forall e :: e in s.protocols && s.protocols[e].valid ==> !GapSince(calls, e))
    && (forall i :: 0 <= i < |s.milestones| ==> Unspoilt(s.milestones[i], calls))
  }

  lemma UnspoiltStays(m: Milestone, calls: seq<Call>, call: Call)
    requires Unspoilt(m, calls)
    ensures Unspoilt(m, calls + [call])
  {
    assert (calls + [call])[..m.step] == calls[..m.step];
  }

  lemma ApplyGaps(cfg: Config, s: Sink, calls: seq<Call>, call: Call)
    requires SinkOk(s) && GapsKept(s, calls)
    ensures GapsKept(Apply(cfg, s, call), calls + [call])
  {
    hide SinkOk, Observe, Boundary;
    var all, t := calls + [call], Apply(cfg, s, call);
    assert all[..|calls|] == calls;
    forall i | 0 <= i < |s.milestones| ensures Unspoilt(s.milestones[i], all) {
      UnspoiltStays(s.milestones[i], calls, call);
    }
    match call
    case Connected(conn, epoch, lease) =>
      RestartKeeps(s, conn, epoch, lease);
      ObserveKeeps(cfg, Restart(s, conn, epoch, lease), Open(conn, Some(epoch)));
    case DataSeen(conn, epoch, direction, data, delivered) =>
      ObserveKeeps(cfg, s, Feed(conn, direction, data));
      hide Unspoilt;
      assert epoch in s.protocols && s.protocols[epoch].valid ==>
               forall lease, at :: Unspoilt(Milestone(epoch, lease, at, s.step, delivered), all) by {
        DataUnspoilt(calls, call);
      }
    case Ended(conn) => ObserveKeeps(cfg, s, Close(conn));
    case GapReported(epoch) =>
  }

  lemma DataUnspoilt(calls: seq<Call>, call: Call)
    requires call.DataSeen?
    ensures !GapSince(calls, call.epoch) ==>
              forall lease, at :: Unspoilt(Milestone(call.epoch, lease, at, |calls|, call.delivered), calls + [call])
  {
    assert (calls + [call])[..|calls|] == calls;
  }

  // ---------- the frame boundary ----------

  /** Nothing half-read in one direction: upgraded, no bytes in hand, no message begun. */
  predicate AtRest(p: Parser) {
    p.handshakeDone && p.buffer == [] && p.fragmentOpcode.None?
  }

  /** Behind the call that made the milestone, both directions of that call's connection are at
      rest, and the milestone covers all records up to then. */
  predicate Settled(cfg: Config, calls: seq<Call>, m: Milestone) {
    && m.step < |calls| && calls[m.step].DataSeen? && calls[m.step].epoch == m.epoch
    && var o := Run(cfg, calls[..m.step + 1]).observer;
       var c := calls[m.step].conn;
       && c in o.conns && o.conns[c].valid && !o.conns[c].closed
       && AtRest(o.conns[c].client) && AtRest(o.conns[c].server)
       && m.at == |o.out.trace|
  }

  lemma SettledStays(cfg: Config, calls: seq<Call>, call: Call, m: Milestone)
    requires Settled(cfg, calls, m)
    ensures Settled(cfg, calls + [call], m)
  {
    assert (calls + [call])[..m.step + 1] == calls[..m.step + 1];
  }

  lemma BoundaryRests(o: Observer, c: int)
    ensures Boundary(o, c) <==> c in o.conns && o.conns[c].valid && !o.conns[c].closed
                                && AtRest(o.conns[c].client) && AtRest(o.conns[c].server)
  {
    if c in o.conns {
      assert ParserOf(o.conns[c], Client) == o.conns[c].client && ParserOf(o.conns[c], Server) == o.conns[c].server;
    }
  }

  /** Data announces its epoch if and only if the epoch's state is, behind the whole chunk, ready
      and not yet published, and both directions of the connection are at rest. */
  lemma AnnouncedExactly(cfg: Config, s: Sink, call: Call)
    requires SinkOk(s) && call.DataSeen?
    ensures var t := Apply(cfg, s, call);
            var c, e := call.conn, call.epoch;
            var due := && e in s.protocols && s.protocols[e].conn == c
                       && e in t.protocols && Ready(t.protocols[e].(published := s.protocols[e].published))
                       && c in t.observer.conns && t.observer.conns[c].valid && !t.observer.conns[c].closed
                       && AtRest(t.observer.conns[c].client) && AtRest(t.observer.conns[c].server);
            t.milestones == s.milestones + if due then [Milestone(e, t.protocols[e].lease, |t.observer.out.trace|, s.step, call.delivered)] else []
  {
    hide SinkOk, Observe, Boundary, Ready;
    var op := Feed(call.conn, call.direction, call.data);
    ObserveKeeps(cfg, s, op);
    var s1 := Observe(cfg, s, op);
    BoundaryRests(s1.observer, call.conn);
    if call.epoch in s1.protocols {
      var p := s1.protocols[call.epoch];
      assert p.(published := p.published) == p;
      assert p.(published := true).(published := p.published) == p;
    }
  }

  lemma NewSettled(cfg: Config, calls: seq<Call>, call: Call)
    requires SinkOk(Run(cfg, calls)) && Run(cfg, calls).step == |calls|
    ensures var s, t := Run(cfg, calls), Run(cfg, calls + [call]);
            t == Apply(cfg, s, call) && s.milestones <= t.milestones &&
            forall i :: |s.milestones| <= i < |t.milestones| ==> Settled(cfg, calls + [call], t.milestones[i])
  {
    hide SinkOk, Observe, Restart, Ready;
    var all := calls + [call];
    assert all[..|calls|] == calls && all[..|calls| + 1] == all;
    if call.DataSeen? {
      AnnouncedExactly(cfg, Run(cfg, calls), call);
      hide Apply;
    } else {
      QuietCall(cfg, Run(cfg, calls), call);
      hide Apply;
    }
  }

  lemma QuietCall(cfg: Config, s: Sink, call: Call)
    requires !call.DataSeen?
    ensures Apply(cfg, s, call).milestones == s.milestones
  {
    hide ObserverSpec.Apply;
    hide Absorb, Rows;
  }

  lemma SilentOk()
    ensures SinkOk(SILENT) && GapsKept(SILENT, [])
  {
  }

  /** Readiness is sound: in every run, each announced epoch has, at that moment, no gap, no
      close and no turn in its records, both sides upgraded, and the whole script in order; the
      relay reported no gap of it since it was last started; behind the announcing call both
      directions of the connection are at rest; and at most one announcement per epoch succeeds. */
  lemma {:induction false} ReadinessSound(cfg: Config, calls: seq<Call>)
    ensures var s := Run(cfg, calls);
            && SinkOk(s) && GapsKept(s, calls) && OnePerEpoch(s.milestones)
            && forall i :: 0 <= i < |s.milestones| ==>
                             && MilestoneOk(s.milestones[i], s.observer.out.trace) && Unspoilt(s.milestones[i], calls)
                             && Settled(cfg, calls, s.milestones[i])
    decreases |calls|
  {
    hide Apply, Unspoilt, GapSince, Sound, Consistent, AllMarked, ProtocolsOk, Remembered, Settled;
    if calls != [] {
      var front, call := calls[..|calls| - 1], calls[|calls| - 1];
      ReadinessSound(cfg, front);
      ApplyKeepsSink(cfg, Run(cfg, front), call);
      ApplyGaps(cfg, Run(cfg, front), front, call);
      assert front + [call] == calls;
      NewSettled(cfg, front, call);
      var s := Run(cfg, front);
      forall i | 0 <= i < |s.milestones| ensures Settled(cfg, calls, s.milestones[i]) {
        SettledStays(cfg, front, call, s.milestones[i]);
      }
    } else {
      SilentOk();
    }
  }
}
