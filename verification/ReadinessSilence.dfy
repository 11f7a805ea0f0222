/** What ends the evidence of an epoch ends its chance to be announced. */
module ReadinessSilence {
  import opened Bytes
  import opened ObserverSpec
  import opened ObserverTrace
  import opened ObserverRuns
  import opened ObserverMarks
  import opened ObserverReading
  import opened Readiness
  import opened ReadinessRuns
  import R = ReadinessRuns

  lemma CallGrows(cfg: Config, s: Sink, call: Call)
    requires SinkOk(s)
    ensures s.observer.out.trace <= R.Apply(cfg, s, call).observer.out.trace
  {
    hide SinkOk, Restart, Ready, Boundary, Observe;
    match call
    case Connected(conn, epoch, lease) =>
      RestartKeeps(s, conn, epoch, lease);
      assert Restart(s, conn, epoch, lease).observer == s.observer by { RestartQuiet(s, conn, epoch, lease); }
      ObserveGrows(cfg, Restart(s, conn, epoch, lease), Open(conn, Some(epoch)));
    case DataSeen(conn, _, direction, data, _) => ObserveGrows(cfg, s, Feed(conn, direction, data));
    case Ended(conn) => ObserveGrows(cfg, s, Close(conn));
    case GapReported(_) =>
  }

  lemma RestartQuiet(s: Sink, conn: int, epoch: nat, lease: Option<Lease>)
    ensures Restart(s, conn, epoch, lease).observer == s.observer
  {
  }

  lemma ObserveGrows(cfg: Config, s: Sink, op: Op)
    requires SinkOk(s)
    ensures s.observer.out.trace <= Observe(cfg, s, op).observer.out.trace
  {
    hide Consistent, AllMarked, ProtocolsOk, ObserverSpec.Apply, Sound;
    var homes := WithHomes(cfg, Homes(s.protocols));
    ApplyMarks(homes, s.observer, op);
    RowsHonest(cfg, s.protocols, s.observer.out.trace, Observe(cfg, s, op).observer.out.trace);
  }

  lemma {:induction false} RunGrows(cfg: Config, a: seq<Call>, b: seq<Call>)
    ensures R.Run(cfg, a).observer.out.trace <= R.Run(cfg, a + b).observer.out.trace
    decreases |b|
  {
    hide SinkOk, R.Apply;
    if b == [] {
      assert a + b == a;
    } else {
      var front, call := b[..|b| - 1], b[|b| - 1];
      RunGrows(cfg, a, front);
      assert (a + b)[..|a + b| - 1] == a + front;
      ReadinessSound(cfg, a + front);
      CallGrows(cfg, R.Run(cfg, a + front), call);
    }
  }

  /** Once a gap, a close or a turn of an epoch is on record, no announcement of the epoch is made by
      that call or any later one, whatever comes. */
  lemma RecordSilences(cfg: Config, calls: seq<Call>, more: seq<Call>, epoch: nat, i: nat, k: nat)
    requires var h := R.Run(cfg, calls).observer.out.trace; i < |h| && h[i].epoch == Some(epoch) && Unwanted(h[i].event)
    requires k < |R.Run(cfg, calls + more).milestones| && R.Run(cfg, calls + more).milestones[k].step + 1 >= |calls|
    ensures R.Run(cfg, calls + more).milestones[k].epoch != epoch
  {
    hide R.Run, SinkOk, GapsKept, Unspoilt, MilestoneOk, Settled, Unwanted;
    var all := calls + more;
    ReadinessSound(cfg, all);
    var m, g := R.Run(cfg, all).milestones[k], R.Run(cfg, all).observer.out.trace;
    MadeAt(cfg, all, m);
    var later := all[..m.step + 1];
    assert later == calls + all[|calls|..m.step + 1] && all == later + all[m.step + 1..];
    RunGrows(cfg, calls, all[|calls|..m.step + 1]);
    RunGrows(cfg, later, all[m.step + 1..]);
    if m.epoch == epoch { Clean(m, g, i); }
  }

  lemma MadeAt(cfg: Config, calls: seq<Call>, m: Milestone)
    requires Settled(cfg, calls, m)
    ensures m.step < |calls| && m.at == |R.Run(cfg, calls[..m.step + 1]).observer.out.trace|
  {
  }

  lemma Clean(m: Milestone, h: seq<Record>, i: nat)
    requires MilestoneOk(m, h) && i < m.at <= |h| && h[i].epoch == Some(m.epoch)
    ensures !Unwanted(h[i].event)
  {
    assert h[..m.at][i] == h[i];
    hide Unwanted, UpgradedBefore, InOrder;
  }

  /** Data that cannot be read silences its connection's epoch for good: neither this call nor any
      later one announces it. */
  lemma UnreadableSilences(cfg: Config, calls: seq<Call>, call: Call, more: seq<Call>, k: nat)
    requires var s := R.Run(cfg, calls);
             && call.DataSeen? && call.epoch in s.protocols && s.protocols[call.epoch].conn == call.conn
             && call.conn in s.observer.conns && s.observer.conns[call.conn].valid && !s.observer.conns[call.conn].closed
             && var t := Track(s.observer.conns[call.conn], s.observer.out);
                var x := Buffer(t, call.direction) + call.data;
                !(|x| <= BufferLimit(cfg) && Readable(WithHomes(cfg, Homes(s.protocols)), t, call.direction, x))
    requires k < |R.Run(cfg, calls + [call] + more).milestones| && R.Run(cfg, calls + [call] + more).milestones[k].step >= |calls|
    ensures R.Run(cfg, calls + [call] + more).milestones[k].epoch != R.Run(cfg, calls).observer.conns[call.conn].epoch
  {
    hide Readable, R.Run, SinkOk, FeedTrack, Observe;
    var s, homes := R.Run(cfg, calls), WithHomes(cfg, Homes(R.Run(cfg, calls).protocols));
    ReadinessSound(cfg, calls);
    var t := Track(s.observer.conns[call.conn], s.observer.out);
    NotOverflowed(s, call.conn);
    FeedExactly(homes, t, call.direction, call.data);
    var r := FeedTrack(homes, t, call.direction, call.data);
    var i :| |t.out.trace| <= i < |r.out.trace| && r.out.trace[i].epoch == Some(t.conn.epoch) && r.out.trace[i].event.Gap?;
    var next := calls + [call];
    FedTrace(cfg, calls, call);
    RecordSilences(cfg, next, more, t.conn.epoch, i, k);
  }

  lemma NotOverflowed(s: Sink, c: int)
    requires SinkOk(s) && c in s.observer.conns && s.observer.conns[c].valid
    ensures !s.observer.conns[c].overflowed
  {
    assert ConnOk(s.observer.conns[c], s.observer.out.trace);
  }

  lemma FedTrace(cfg: Config, calls: seq<Call>, call: Call)
    requires var s := R.Run(cfg, calls);
             && call.DataSeen? && call.epoch in s.protocols && s.protocols[call.epoch].conn == call.conn
             && call.conn in s.observer.conns && !s.observer.conns[call.conn].closed
    ensures var s := R.Run(cfg, calls);
            R.Run(cfg, calls + [call]).observer.out ==
            FeedTrack(WithHomes(cfg, Homes(s.protocols)), Track(s.observer.conns[call.conn], s.observer.out), call.direction, call.data).out
  {
    hide FeedTrack, Absorb, Ready, Boundary;
    assert (calls + [call])[..|calls|] == calls;
  }

  /** The end of a connection ends its epoch: the close, or the overflow in its place, is on record,
      and neither this call nor any later one announces the epoch. */
  lemma CloseSilences(cfg: Config, calls: seq<Call>, conn: int, more: seq<Call>)
    requires var o := R.Run(cfg, calls).observer; conn in o.conns && !o.conns[conn].closed
    ensures var s, t, epoch := R.Run(cfg, calls), R.Run(cfg, calls + [Call.Ended(conn)]), R.Run(cfg, calls).observer.conns[conn].epoch;
            && conn in t.observer.conns && t.observer.conns[conn].closed && ObserverTrace.Ended(t.observer.out.trace, epoch)
            && var last := R.Run(cfg, calls + [Call.Ended(conn)] + more).milestones;
               forall k :: 0 <= k < |last| && last[k].step >= |calls| ==> last[k].epoch != epoch
  {
    hide R.Run, SinkOk, CloseTrack, Unwanted;
    var s, next := R.Run(cfg, calls), calls + [Call.Ended(conn)];
    ReadinessSound(cfg, calls);
    var homes := WithHomes(cfg, Homes(s.protocols));
    var t := Track(s.observer.conns[conn], s.observer.out);
    StandingOk(s, conn);
    CloseKeeps(homes, t);
    ClosedTrack(cfg, calls, conn);
    var h := R.Run(cfg, next).observer.out.trace;
    var i :| 0 <= i < |h| && h[i].epoch == Some(t.conn.epoch) && Terminal(h[i].event);
    TerminalUnwanted(h[i].event);
    var last := R.Run(cfg, next + more).milestones;
    forall k | 0 <= k < |last| && last[k].step >= |calls| ensures last[k].epoch != t.conn.epoch {
      RecordSilences(cfg, next, more, t.conn.epoch, i, k);
    }
  }

  lemma TerminalUnwanted(e: Event)
    requires Terminal(e)
    ensures Unwanted(e)
  {
  }

  lemma StandingOk(s: Sink, c: int)
    requires SinkOk(s) && c in s.observer.conns
    ensures TrackOk(Track(s.observer.conns[c], s.observer.out))
  {
    assert ConnOk(s.observer.conns[c], s.observer.out.trace);
  }

  lemma ClosedTrack(cfg: Config, calls: seq<Call>, conn: int)
    requires var o := R.Run(cfg, calls).observer; conn in o.conns && !o.conns[conn].closed
    ensures var s, o := R.Run(cfg, calls), R.Run(cfg, calls + [Call.Ended(conn)]).observer;
            var r := CloseTrack(WithHomes(cfg, Homes(s.protocols)), Track(s.observer.conns[conn], s.observer.out));
            conn in o.conns && o.conns[conn] == r.conn && o.out == r.out
  {
    hide CloseTrack, Absorb;
    assert (calls + [Call.Ended(conn)])[..|calls|] == calls;
  }
}
