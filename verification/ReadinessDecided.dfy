/** The announcement decided from the calls and the records alone, over every run. */
module ReadinessDecided {
  import opened Bytes
  import opened ObserverSpec
  import opened Readiness
  import opened ReadinessRuns
  import R = ReadinessRuns
  import E = ReadinessExact
  import opened ReadinessSilence

  /** The records of one epoch. */
  function Own(rows: seq<Record>, epoch: nat): (h: seq<Record>) {
    if rows == [] then []
    else
      var h := Own(rows[..|rows| - 1], epoch);
      if rows[|rows| - 1].epoch == Some(epoch) then h + [rows[|rows| - 1]] else h
  }

  /** The call that last started the epoch. */
  function LastStart(calls: seq<Call>, epoch: nat): (r: Option<Call>)
    ensures r.Some? ==> Starts(r.value, epoch)
  {
    if calls == [] then None
    else if Starts(calls[|calls| - 1], epoch) then Some(calls[|calls| - 1])
    else LastStart(calls[..|calls| - 1], epoch)
  }

  /** How many records there were when the epoch was last started. */
  function StartedAt(cfg: Config, calls: seq<Call>, epoch: nat): (n: nat) {
    if calls == [] then 0
    else if Starts(calls[|calls| - 1], epoch) then |R.Run(cfg, calls[..|calls| - 1]).observer.out.trace|
    else StartedAt(cfg, calls[..|calls| - 1], epoch)
  }

  // ---------- marks that rows do not touch ----------

  /** A state with the relay's verdict and the published mark put on it. */
  function Marked(p: Protocol, gap: bool, published: bool): Protocol {
    p.(valid := p.valid && !gap, published := published)
  }

  lemma TakeMarked(p: Protocol, gap: bool, published: bool, r: Record)
    ensures Take(Marked(p, gap, published), r) == Marked(Take(p, r), gap, published)
  {
    hide Hear, Listen, Count;
    ListenMarked(p, gap, published, r);
    if E.Speech(r) {
      var q, m := Take(p, r), Marked(p, gap, published);
      if |p.rpcs| < MAX_ROWS {
        var heard := Listen(p, r);
        assert Take(m, r) == Marked(heard, gap, published).(rpcs := p.rpcs + [r], turns := Count(p.turns, r.event));
      }
    }
  }

  lemma ListenMarked(p: Protocol, gap: bool, published: bool, r: Record)
    ensures Listen(Marked(p, gap, published), r) == Marked(Listen(p, r), gap, published)
  {
    hide Hear;
  }

  lemma {:induction false} OwnTwice(a: seq<Record>, b: seq<Record>, epoch: nat)
    ensures Own(a + b, epoch) == Own(a, epoch) + Own(b, epoch)
    decreases |b|
  {
    if b == [] {
      assert a + b == a;
    } else {
      assert (a + b)[..|a + b| - 1] == a + b[..|b| - 1];
      OwnTwice(a, b[..|b| - 1], epoch);
    }
  }

  /** Taking rows keeps the state of an epoch that of its own rows. */
  lemma {:induction false} AbsorbTaking(
    ps: map<nat, Protocol>, epoch: nat, conn: int, lease: Option<Lease>, h: seq<Record>, gap: bool, published: bool, rows: seq<Record>)
    requires epoch in ps && ps[epoch] == Marked(E.Taking(conn, lease, h), gap, published)
    ensures epoch in Absorb(ps, rows)
    ensures Absorb(ps, rows)[epoch] == Marked(E.Taking(conn, lease, h + Own(rows, epoch)), gap, published)
    decreases |rows|
  {
    hide Take, Marked;
    if rows == [] {
      assert h + [] == h;
    } else {
      var front, r := rows[..|rows| - 1], rows[|rows| - 1];
      AbsorbTaking(ps, epoch, conn, lease, h, gap, published, front);
      if r.epoch == Some(epoch) {
        var g := h + Own(front, epoch);
        assert h + Own(rows, epoch) == g + [r] && (g + [r])[..|g|] == g;
        TakeMarked(E.Taking(conn, lease, g), gap, published, r);
      }
    }
  }

  // ---------- over the calls ----------

  /** The sink's state of an epoch is that of the records since `from`, marked. */
  predicate Stands(s: Sink, epoch: nat, conn: int, lease: Option<Lease>, from: nat, gap: bool) {
    && epoch in s.protocols && from <= |s.observer.out.trace|
    && s.protocols[epoch] ==
       Marked(E.Taking(conn, lease, Own(s.observer.out.trace[from..], epoch)), gap, s.protocols[epoch].published)
  }

  lemma ObserveStands(cfg: Config, s: Sink, op: Op, epoch: nat, conn: int, lease: Option<Lease>, from: nat, gap: bool)
    requires SinkOk(s) && Stands(s, epoch, conn, lease, from, gap)
    ensures Stands(Observe(cfg, s, op), epoch, conn, lease, from, gap)
    ensures Observe(cfg, s, op).protocols[epoch].published == s.protocols[epoch].published
  {
    hide SinkOk, Absorb, ObserverSpec.Apply;
    ObserveGrows(cfg, s, op);
    var before, after := s.observer.out.trace, Observe(cfg, s, op).observer.out.trace;
    var rows := Rows(before, after);
    AbsorbTaking(s.protocols, epoch, conn, lease, Own(before[from..], epoch), gap, s.protocols[epoch].published, rows);
    assert after[from..] == before[from..] + rows;
    OwnTwice(before[from..], rows, epoch);
  }

  /** Every epoch the sink knows stands as its calls and records say. */
  ghost predicate Decided(cfg: Config, calls: seq<Call>, s: Sink) {
    forall e :: e in s.protocols ==>
                  && LastStart(calls, e).Some?
                  && var start := LastStart(calls, e).value;
                     Stands(s, e, start.conn, start.lease, StartedAt(cfg, calls, e), GapSince(calls, e))
  }

  lemma {:induction false} AbsorbKnows(ps: map<nat, Protocol>, rows: seq<Record>)
    ensures Absorb(ps, rows).Keys == ps.Keys
  {
    if rows != [] { AbsorbKnows(ps, rows[..|rows| - 1]); }
  }

  lemma ObserveKnows(cfg: Config, s: Sink, op: Op)
    ensures Observe(cfg, s, op).protocols.Keys == s.protocols.Keys
  {
    hide ObserverSpec.Apply, Absorb;
    AbsorbKnows(s.protocols, Rows(s.observer.out.trace, Observe(cfg, s, op).observer.out.trace));
  }

  /** An epoch that this call does not start has its start where it was. */
  lemma SameStart(cfg: Config, calls: seq<Call>, call: Call, e: nat)
    ensures (calls + [call])[..|calls|] == calls
    ensures !Starts(call, e) ==>
              && LastStart(calls + [call], e) == LastStart(calls, e)
              && StartedAt(cfg, calls + [call], e) == StartedAt(cfg, calls, e)
    ensures Starts(call, e) ==>
              && LastStart(calls + [call], e) == Some(call)
              && StartedAt(cfg, calls + [call], e) == |R.Run(cfg, calls).observer.out.trace|
    ensures GapSince(calls + [call], e) <==> call == GapReported(e) || (!Starts(call, e) && GapSince(calls, e))
  {
    assert (calls + [call])[..|calls|] == calls;
  }

  lemma ObserveDecides(cfg: Config, calls: seq<Call>, s: Sink, op: Op)
    requires SinkOk(s) && Decided(cfg, calls, s)
    ensures Decided(cfg, calls, Observe(cfg, s, op))
  {
    hide SinkOk, Observe, Stands;
    ObserveKnows(cfg, s, op);
    forall e | e in s.protocols
      ensures var start := LastStart(calls, e).value;
              Stands(Observe(cfg, s, op), e, start.conn, start.lease, StartedAt(cfg, calls, e), GapSince(calls, e))
    {
      var start := LastStart(calls, e).value;
      ObserveStands(cfg, s, op, e, start.conn, start.lease, StartedAt(cfg, calls, e), GapSince(calls, e));
    }
  }

  lemma RestartDecides(cfg: Config, calls: seq<Call>, call: Call)
    requires var s := R.Run(cfg, calls); Decided(cfg, calls, s) && call.Connected?
    ensures Decided(cfg, calls + [call], Restart(R.Run(cfg, calls), call.conn, call.epoch, call.lease))
  {
    var s := R.Run(cfg, calls);
    var r := Restart(s, call.conn, call.epoch, call.lease);
    hide R.Run, LastStart, StartedAt, GapSince;
    forall e | e in r.protocols
      ensures LastStart(calls + [call], e).Some?
      ensures var start := LastStart(calls + [call], e).value;
              Stands(r, e, start.conn, start.lease, StartedAt(cfg, calls + [call], e), GapSince(calls + [call], e))
    {
      SameStart(cfg, calls, call, e);
      if e == call.epoch {
        var h := r.observer.out.trace;
        assert h[|h|..] == [] && Own([], e) == [];
      } else {
        assert e in s.protocols;
      }
    }
  }

  lemma OtherDecides(cfg: Config, calls: seq<Call>, call: Call, s: Sink)
    requires Decided(cfg, calls, s) && (call.DataSeen? || call.Ended?)
    ensures Decided(cfg, calls + [call], s)
  {
    hide LastStart, StartedAt, GapSince, Stands;
    forall e | e in s.protocols
      ensures LastStart(calls + [call], e).Some?
      ensures var start := LastStart(calls + [call], e).value;
              Stands(s, e, start.conn, start.lease, StartedAt(cfg, calls + [call], e), GapSince(calls + [call], e))
    {
      SameStart(cfg, calls, call, e);
    }
  }

  lemma GapDecides(cfg: Config, calls: seq<Call>, call: Call, s: Sink)
    requires Decided(cfg, calls, s) && call.GapReported?
    ensures Decided(cfg, calls + [call],
                    if call.epoch in s.protocols then s.(protocols := s.protocols[call.epoch := s.protocols[call.epoch].(valid := false)]) else s)
  {
    hide LastStart, StartedAt, GapSince;
    var r := if call.epoch in s.protocols then s.(protocols := s.protocols[call.epoch := s.protocols[call.epoch].(valid := false)]) else s;
    forall e | e in r.protocols
      ensures LastStart(calls + [call], e).Some?
      ensures var start := LastStart(calls + [call], e).value;
              Stands(r, e, start.conn, start.lease, StartedAt(cfg, calls + [call], e), GapSince(calls + [call], e))
    {
      SameStart(cfg, calls, call, e);
    }
  }

  lemma AnnounceDecides(cfg: Config, calls: seq<Call>, s: Sink, epoch: nat, delivered: bool)
    requires Decided(cfg, calls, s) && epoch in s.protocols
    ensures Decided(cfg, calls, Announce(s, epoch, delivered))
  {
    hide LastStart, StartedAt, GapSince;
  }

  lemma ApplyDecides(cfg: Config, calls: seq<Call>, call: Call)
    requires SinkOk(R.Run(cfg, calls)) && Decided(cfg, calls, R.Run(cfg, calls))
    ensures Decided(cfg, calls + [call], R.Apply(cfg, R.Run(cfg, calls), call))
  {
    hide SinkOk, R.Run, Observe, Announce, Restart, Decided, Ready, Boundary;
    var s, all := R.Run(cfg, calls), calls + [call];
    StepApart(cfg, all, R.Act(cfg, s, call), s.step + 1);
    match call
    case Connected(conn, epoch, lease) =>
      RestartDecides(cfg, calls, call);
      RestartKeeps(s, conn, epoch, lease);
      ObserveDecides(cfg, all, Restart(s, conn, epoch, lease), Open(conn, Some(epoch)));
    case DataSeen(conn, epoch, direction, data, delivered) =>
      OtherDecides(cfg, calls, call, s);
      ObserveDecides(cfg, all, s, Feed(conn, direction, data));
      var s1 := Observe(cfg, s, Feed(conn, direction, data));
      if epoch in s1.protocols { AnnounceDecides(cfg, all, s1, epoch, delivered); }
    case Ended(conn) =>
      OtherDecides(cfg, calls, call, s);
      ObserveDecides(cfg, all, s, Close(conn));
    case GapReported(epoch) => GapDecides(cfg, calls, call, s);
  }

  lemma StepApart(cfg: Config, calls: seq<Call>, s: Sink, step: nat)
    ensures Decided(cfg, calls, s) <==> Decided(cfg, calls, s.(step := step))
  {
    hide LastStart, StartedAt, GapSince;
  }

  lemma SinkHolds(cfg: Config, calls: seq<Call>)
    ensures SinkOk(R.Run(cfg, calls))
  {
    ReadinessSound(cfg, calls);
  }

  lemma {:induction false} StepsCounted(cfg: Config, calls: seq<Call>)
    ensures R.Run(cfg, calls).step == |calls|
  {
    hide R.Act;
    if calls != [] { StepsCounted(cfg, calls[..|calls| - 1]); }
  }

  lemma NothingDecided(cfg: Config)
    ensures Decided(cfg, [], SILENT)
  {
  }

  lemma {:induction false} RunDecided(cfg: Config, calls: seq<Call>)
    ensures Decided(cfg, calls, R.Run(cfg, calls))
    decreases |calls|
  {
    hide SinkOk, Decided, R.Apply;
    if calls == [] {
      NothingDecided(cfg);
    } else {
      var front, call := calls[..|calls| - 1], calls[|calls| - 1];
      RunDecided(cfg, front);
      SinkHolds(cfg, front);
      ApplyDecides(cfg, front, call);
      assert front + [call] == calls;
    }
  }

  // ---------- what the sink knows and has published ----------

  predicate Delivered(ms: seq<Milestone>, epoch: nat) {
    exists i :: 0 <= i < |ms| && ms[i].delivered && ms[i].epoch == epoch
  }

  /** The sink knows exactly the epochs that were started, and has published none that was not
      announced successfully. */
  ghost predicate Known(calls: seq<Call>, s: Sink) {
    && (forall e :: e in s.protocols <==> LastStart(calls, e).Some?)
    && (forall e :: e in s.protocols && s.protocols[e].published ==> Delivered(s.milestones, e))
  }

  lemma ObservePublishes(cfg: Config, s: Sink, op: Op)
    requires SinkOk(s)
    ensures forall e :: e in s.protocols ==>
                          e in Observe(cfg, s, op).protocols && Observe(cfg, s, op).protocols[e].published == s.protocols[e].published
    ensures Observe(cfg, s, op).milestones == s.milestones
  {
    hide SinkOk, ObserverSpec.Apply, Absorb;
    AbsorbPublishes(s.protocols, Rows(s.observer.out.trace, Observe(cfg, s, op).observer.out.trace));
  }

  lemma {:induction false} AbsorbPublishes(ps: map<nat, Protocol>, rows: seq<Record>)
    ensures forall e :: e in ps ==> e in Absorb(ps, rows) && Absorb(ps, rows)[e].published == ps[e].published
  {
    if rows != [] {
      var front, r := rows[..|rows| - 1], rows[|rows| - 1];
      AbsorbPublishes(ps, front);
      if r.epoch.Some? && r.epoch.value in Absorb(ps, front) { TakeChanges(Absorb(ps, front)[r.epoch.value], r); }
      hide Take;
    }
  }

  lemma ApplyKnows(cfg: Config, calls: seq<Call>, call: Call, s: Sink)
    requires SinkOk(s) && Known(calls, s)
    ensures Known(calls + [call], R.Apply(cfg, s, call))
  {
    hide SinkOk, Observe, Ready, Boundary, LastStart;
    forall e ensures LastStart(calls + [call], e) == if Starts(call, e) then Some(call) else LastStart(calls, e) {
      SameStart(cfg, calls, call, e);
    }
    match call
    case Connected(conn, epoch, lease) =>
      var r := Restart(s, conn, epoch, lease);
      RestartKeeps(s, conn, epoch, lease);
      ObserveKnows(cfg, r, Open(conn, Some(epoch)));
      ObservePublishes(cfg, r, Open(conn, Some(epoch)));
    case DataSeen(conn, epoch, direction, data, delivered) =>
      ObserveKnows(cfg, s, Feed(conn, direction, data));
      ObservePublishes(cfg, s, Feed(conn, direction, data));
      var s1 := Observe(cfg, s, Feed(conn, direction, data));
      if epoch in s1.protocols { DeliveredGrows(s1, epoch, delivered); }
    case Ended(conn) =>
      ObserveKnows(cfg, s, Close(conn));
      ObservePublishes(cfg, s, Close(conn));
    case GapReported(epoch) =>
  }

  lemma DeliveredGrows(s: Sink, epoch: nat, delivered: bool)
    requires epoch in s.protocols
    ensures var ms := Announce(s, epoch, delivered).milestones;
            && (forall e :: Delivered(s.milestones, e) ==> Delivered(ms, e))
            && (delivered ==> Delivered(ms, epoch))
  {
    var ms := Announce(s, epoch, delivered).milestones;
    assert ms[|s.milestones|].epoch == epoch && ms[|s.milestones|].delivered == delivered;
    assert forall i :: 0 <= i < |s.milestones| ==> ms[i] == s.milestones[i];
  }

  lemma NothingKnown()
    ensures Known([], SILENT)
  {
  }

  lemma {:induction false} RunKnows(cfg: Config, calls: seq<Call>)
    ensures Known(calls, R.Run(cfg, calls))
    decreases |calls|
  {
    hide SinkOk, Known, R.Apply;
    if calls == [] {
      NothingKnown();
    } else {
      var front, call := calls[..|calls| - 1], calls[|calls| - 1];
      RunKnows(cfg, front);
      SinkHolds(cfg, front);
      ApplyKnows(cfg, front, call, R.Run(cfg, front));
      assert front + [call] == calls;
    }
  }

  /** A ready epoch was never announced successfully before. */
  lemma ReadyIsNew(cfg: Config, s: Sink, call: Call)
    requires SinkOk(s) && call.DataSeen? && call.epoch in s.protocols && s.protocols[call.epoch].conn == call.conn
    requires var t := R.Apply(cfg, s, call);
             call.epoch in t.protocols && Ready(t.protocols[call.epoch].(published := s.protocols[call.epoch].published))
    ensures !Delivered(s.milestones, call.epoch)
  {
    hide SinkOk, Observe, Ready, Boundary;
    var op := Feed(call.conn, call.direction, call.data);
    ObserveKeeps(cfg, s, op);
    ObservePublishes(cfg, s, op);
    var s1 := Observe(cfg, s, op);
    var p := s1.protocols[call.epoch];
    assert p.(published := true).(published := p.published) == p && p.(published := p.published) == p;
    forall i | 0 <= i < |s.milestones| && s.milestones[i].delivered ensures s.milestones[i].epoch != call.epoch {
      NotAgain(s1, call.epoch, i);
    }
  }

  lemma NotAgain(s: Sink, epoch: nat, i: nat)
    requires SinkOk(s) && epoch in s.protocols && Ready(s.protocols[epoch]) && i < |s.milestones| && s.milestones[i].delivered
    ensures s.milestones[i].epoch != epoch
  {
    hide Ready, MilestoneOk, Remembered, ProtocolsOk;
    NotBefore(s, epoch, s.milestones[i]);
  }

  /** The announcement, decided: over every run, data announces its epoch if and only if the epoch
      was last started for this connection and with a lease, the relay reported no gap of it since,
      no announcement of it succeeded before, its records since that start show everything they
      must, and both directions of the connection are at rest behind the chunk. */
  lemma AnnouncedIff(cfg: Config, calls: seq<Call>, call: Call)
    requires call.DataSeen?
    ensures var s, t := R.Run(cfg, calls), R.Run(cfg, calls + [call]);
            var c, e, start := call.conn, call.epoch, LastStart(calls, call.epoch);
            var trace := t.observer.out.trace;
            var from := StartedAt(cfg, calls, e);
            var due := && start.Some? && start.value.conn == c && start.value.lease.Some?
                       && !GapSince(calls, e) && !Delivered(s.milestones, e)
                       && from <= |trace| && E.Shows(start.value.lease.value, Own(trace[from..], e))
                       && c in t.observer.conns && t.observer.conns[c].valid && !t.observer.conns[c].closed
                       && AtRest(t.observer.conns[c].client) && AtRest(t.observer.conns[c].server);
            t.milestones == s.milestones + if due then [Milestone(e, start.value.lease.value, |trace|, |calls|, call.delivered)] else []
  {
    hide SinkOk, R.Apply, Stands, E.Shows, E.Taking, Ready;
    var all := calls + [call];
    var s := R.Run(cfg, calls);
    SameStart(cfg, calls, call, call.epoch);
    assert R.Run(cfg, all) == R.Apply(cfg, s, call);
    SinkHolds(cfg, calls);
    StepsCounted(cfg, calls);
    RunDecided(cfg, calls);
    RunDecided(cfg, all);
    RunKnows(cfg, calls);
    AnnouncedExactly(cfg, s, call);
    var t, e := R.Run(cfg, all), call.epoch;
    hide R.Run, Delivered;
    KnowsSame(cfg, s, call);
    if e in s.protocols {
      var start := LastStart(calls, e).value;
      StandsReady(t, e, start.conn, start.lease, StartedAt(cfg, calls, e), GapSince(calls, e), s.protocols[e].published);
      StandsConn(s, e, start.conn, start.lease, StartedAt(cfg, calls, e), GapSince(calls, e));
      if s.protocols[e].conn == call.conn && Ready(t.protocols[e].(published := s.protocols[e].published)) {
        ReadyIsNew(cfg, s, call);
      }
    }
  }

  lemma KnowsSame(cfg: Config, s: Sink, call: Call)
    requires call.DataSeen?
    ensures R.Apply(cfg, s, call).protocols.Keys == s.protocols.Keys
  {
    hide Observe;
    ObserveKnows(cfg, s, Feed(call.conn, call.direction, call.data));
  }

  lemma StandsReady(s: Sink, e: nat, conn: int, lease: Option<Lease>, from: nat, gap: bool, published: bool)
    requires Stands(s, e, conn, lease, from, gap)
    ensures Ready(s.protocols[e].(published := published)) <==>
            !gap && !published && lease.Some? && E.Shows(lease.value, Own(s.observer.out.trace[from..], e))
    ensures from <= |s.observer.out.trace| && (lease.Some? ==> s.protocols[e].lease == lease.value)
  {
    hide E.Shows, E.Taking;
    var h := Own(s.observer.out.trace[from..], e);
    E.ReadyExactly(conn, lease, h);
    E.TakingMirrors(conn, lease, h);
    hide E.TalkMirrors, E.AllWelcome, E.Ever;
  }

  lemma StandsConn(s: Sink, e: nat, conn: int, lease: Option<Lease>, from: nat, gap: bool)
    requires Stands(s, e, conn, lease, from, gap)
    ensures s.protocols[e].conn == conn
  {
    TakingConn(conn, lease, Own(s.observer.out.trace[from..], e));
    hide E.Taking;
  }

  lemma {:induction false} TakingConn(conn: int, lease: Option<Lease>, h: seq<Record>)
    ensures E.Taking(conn, lease, h).conn == conn
  {
    if h != [] {
      TakingConn(conn, lease, h[..|h| - 1]);
      TakeChanges(E.Taking(conn, lease, h[..|h| - 1]), h[|h| - 1]);
      hide Take;
    }
  }
}
