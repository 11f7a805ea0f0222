/** What a gap reported by the relay does, and what undoes it: an epoch is announced exactly when
    it would be without any such report and none came since the epoch was last started. */
module RelayGaps {
  import opened Bytes
  import opened ObserverSpec
  import opened Readiness
  import opened ReadinessRuns
  import R = ReadinessRuns

  /** The call makes an announcement. */
  predicate Announces(cfg: Config, s: Sink, call: Call) {
    |R.Apply(cfg, s, call).milestones| > |s.milestones|
  }

  /** The same calls without the relay's gaps of one epoch. */
  function Erase(calls: seq<Call>, epoch: nat): (r: seq<Call>) {
    if calls == [] then []
    else
      var call := calls[|calls| - 1];
      var front := Erase(calls[..|calls| - 1], epoch);
      if call == GapReported(epoch) then front else front + [call]
  }

  lemma {:induction false} GapSinceMeans(calls: seq<Call>, epoch: nat)
    ensures GapSince(calls, epoch) <==>
            exists i :: 0 <= i < |calls| && calls[i] == GapReported(epoch) &&
                        forall j :: i < j < |calls| ==> !Starts(calls[j], epoch)
  {
    if calls != [] {
      var n := |calls| - 1;
      var front := calls[..n];
      GapSinceMeans(front, epoch);
      assert forall i :: 0 <= i < n ==> front[i] == calls[i];
      if GapSince(calls, epoch) && calls[n] != GapReported(epoch) {
        var i :| 0 <= i < n && front[i] == GapReported(epoch) && forall j :: i < j < n ==> !Starts(front[j], epoch);
        assert calls[i] == GapReported(epoch) && forall j :: i < j < |calls| ==> !Starts(calls[j], epoch);
      }
      if i :| 0 <= i < |calls| && calls[i] == GapReported(epoch) && forall j :: i < j < |calls| ==> !Starts(calls[j], epoch) {
        if i < n {
          assert front[i] == GapReported(epoch) && forall j :: i < j < n ==> !Starts(front[j], epoch);
        }
      }
    }
  }

  // ---------- two sinks that differ in the gaps of one epoch ----------

  /** p is q, or q spoilt by a relay gap; what q announced meanwhile, p could not. */
  predicate Matches(p: Protocol, q: Protocol, gap: bool) {
    if gap then p == q.(valid := false, published := p.published) else p == q
  }

  ghost predicate TwinStates(ps: map<nat, Protocol>, qs: map<nat, Protocol>, epoch: nat, gap: bool) {
    && ps.Keys == qs.Keys
    && forall k :: k in ps ==> Matches(ps[k], qs[k], k == epoch && gap)
  }

  ghost predicate Twins(s: Sink, t: Sink, epoch: nat, gap: bool) {
    s.observer == t.observer && TwinStates(s.protocols, t.protocols, epoch, gap)
  }

  /** Nothing that a row does to a state depends on its validity. */
  lemma TakeBlind(p: Protocol, r: Record, published: bool)
    ensures Take(p.(valid := false, published := published), r) == Take(p, r).(valid := false, published := published)
  {
    hide Hear, Count;
    match r.event
    case Gap(_) =>
    case ConnectionClose =>
    case Upgraded =>
    case InitializeHome(_, _, _) =>
    case _ =>
  }

  lemma TakeMatches(p: Protocol, q: Protocol, gap: bool, r: Record)
    requires Matches(p, q, gap)
    ensures Matches(Take(p, r), Take(q, r), gap)
  {
    if gap {
      TakeBlind(q, r, p.published);
      hide Take;
    }
  }

  lemma {:induction false} AbsorbTwins(ps: map<nat, Protocol>, qs: map<nat, Protocol>, epoch: nat, gap: bool, rows: seq<Record>)
    requires TwinStates(ps, qs, epoch, gap)
    ensures TwinStates(Absorb(ps, rows), Absorb(qs, rows), epoch, gap)
  {
    if rows != [] {
      var front, r := rows[..|rows| - 1], rows[|rows| - 1];
      AbsorbTwins(ps, qs, epoch, gap, front);
      var a, b := Absorb(ps, front), Absorb(qs, front);
      hide Take, Matches;
      if r.epoch.Some? && r.epoch.value in a {
        var k := r.epoch.value;
        TakeMatches(a[k], b[k], k == epoch && gap, r);
      }
    }
  }

  lemma ObserveTwins(cfg: Config, s: Sink, t: Sink, epoch: nat, gap: bool, op: Op)
    requires Twins(s, t, epoch, gap)
    ensures Twins(Observe(cfg, s, op), Observe(cfg, t, op), epoch, gap)
  {
    TwinHomes(s.protocols, t.protocols, epoch, gap);
    hide ObserverSpec.Apply;
    var o := ObserverSpec.Apply(WithHomes(cfg, Homes(s.protocols)), s.observer, op);
    AbsorbTwins(s.protocols, t.protocols, epoch, gap, Rows(s.observer.out.trace, o.out.trace));
  }

  lemma TwinHomes(ps: map<nat, Protocol>, qs: map<nat, Protocol>, epoch: nat, gap: bool)
    requires TwinStates(ps, qs, epoch, gap)
    ensures Homes(ps) == Homes(qs)
  {
  }

  lemma RestartTwins(s: Sink, t: Sink, epoch: nat, gap: bool, conn: int, k: nat, lease: Option<Lease>)
    requires Twins(s, t, epoch, gap)
    ensures Twins(Restart(s, conn, k, lease), Restart(t, conn, k, lease), epoch, gap && k != epoch)
  {
  }

  /** Behind the feed: the spoilt twin stays silent, any other does what its twin does. */
  lemma FedTwins(s: Sink, t: Sink, epoch: nat, gap: bool, conn: int, k: nat, delivered: bool)
    requires Twins(s, t, epoch, gap)
    ensures var ready := k in s.protocols && Ready(s.protocols[k]) && Boundary(s.observer, conn);
            var wouldBe := k in t.protocols && Ready(t.protocols[k]) && Boundary(t.observer, conn);
            && (ready <==> wouldBe && !(k == epoch && gap))
            && Twins(if ready then Announce(s, k, delivered) else s, if wouldBe then Announce(t, k, delivered) else t, epoch, gap)
  {
    hide Boundary;
    if k in s.protocols {
      assert Matches(s.protocols[k], t.protocols[k], k == epoch && gap);
    }
  }

  lemma DataTwins(cfg: Config, s: Sink, t: Sink, epoch: nat, gap: bool, call: Call)
    requires Twins(s, t, epoch, gap) && call.DataSeen?
    ensures Twins(R.Apply(cfg, s, call), R.Apply(cfg, t, call), epoch, gap)
    ensures Announces(cfg, s, call) <==> Announces(cfg, t, call) && !(call.epoch == epoch && gap)
  {
    var op := Feed(call.conn, call.direction, call.data);
    ObserveTwins(cfg, s, t, epoch, gap, op);
    FedTwins(Observe(cfg, s, op), Observe(cfg, t, op), epoch, gap, call.conn, call.epoch, call.delivered);
    if call.epoch in s.protocols {
      assert Matches(s.protocols[call.epoch], t.protocols[call.epoch], call.epoch == epoch && gap);
    }
    ObserveSilent(cfg, s, op);
    ObserveSilent(cfg, t, op);
    hide Observe, Boundary, Ready;
  }

  lemma ObserveSilent(cfg: Config, s: Sink, op: Op)
    ensures Observe(cfg, s, op).milestones == s.milestones
  {
  }

  lemma {:induction false} RunTwins(cfg: Config, calls: seq<Call>, epoch: nat)
    ensures Twins(R.Run(cfg, calls), R.Run(cfg, Erase(calls, epoch)), epoch, GapSince(calls, epoch))
    decreases |calls|
  {
    if calls != [] {
      var front, call := calls[..|calls| - 1], calls[|calls| - 1];
      var kept := Erase(front, epoch);
      RunTwins(cfg, front, epoch);
      assert call != GapReported(epoch) ==> (kept + [call])[..|kept|] == kept;
      hide Erase;
      StepTwins(cfg, R.Run(cfg, front), R.Run(cfg, kept), epoch, GapSince(front, epoch), call);
      EraseLast(calls, epoch);
      hide R.Apply;
      hide Twins;
    }
  }

  lemma EraseLast(calls: seq<Call>, epoch: nat)
    requires calls != []
    ensures var front, call := calls[..|calls| - 1], calls[|calls| - 1];
            Erase(calls, epoch) == if call == GapReported(epoch) then Erase(front, epoch) else Erase(front, epoch) + [call]
  {
  }

  lemma StepTwins(cfg: Config, s: Sink, t: Sink, epoch: nat, gap: bool, call: Call)
    requires Twins(s, t, epoch, gap)
    ensures Twins(R.Apply(cfg, s, call), if call == GapReported(epoch) then t else R.Apply(cfg, t, call), epoch,
                  call == GapReported(epoch) || (!Starts(call, epoch) && gap))
  {
    hide Observe, Restart, TwinStates, Announce, Ready, Boundary;
    match call
    case Connected(conn, k, lease) =>
      RestartTwins(s, t, epoch, gap, conn, k, lease);
      ObserveTwins(cfg, Restart(s, conn, k, lease), Restart(t, conn, k, lease), epoch, gap && k != epoch, Open(conn, Some(k)));
    case DataSeen(_, _, _, _, _) => DataTwins(cfg, s, t, epoch, gap, call);
    case Ended(conn) => ObserveTwins(cfg, s, t, epoch, gap, Close(conn));
    case GapReported(k) => SpoilTwins(s.protocols, t.protocols, epoch, gap, k);
  }

  function Spoil(ps: map<nat, Protocol>, k: nat): (r: map<nat, Protocol>) {
    if k in ps then ps[k := ps[k].(valid := false)] else ps
  }

  lemma SpoilTwins(ps: map<nat, Protocol>, qs: map<nat, Protocol>, epoch: nat, gap: bool, k: nat)
    requires TwinStates(ps, qs, epoch, gap)
    ensures if k == epoch then TwinStates(Spoil(ps, k), qs, epoch, true) else TwinStates(Spoil(ps, k), Spoil(qs, k), epoch, gap)
  {
  }

  /** Exactly when a relay gap keeps an epoch from being announced: data announces its epoch if and
      only if it would in the same run without the relay's gaps of that epoch, and the relay
      reported none since the epoch was last started. */
  lemma RelayGapExactly(cfg: Config, calls: seq<Call>, call: Call)
    requires call.DataSeen?
    ensures Announces(cfg, R.Run(cfg, calls), call) <==>
            Announces(cfg, R.Run(cfg, Erase(calls, call.epoch)), call) && !GapSince(calls, call.epoch)
  {
    RunTwins(cfg, calls, call.epoch);
    hide Announces, Twins, Erase, GapSince;
    hide R.Run;
    DataTwins(cfg, R.Run(cfg, calls), R.Run(cfg, Erase(calls, call.epoch)), call.epoch, GapSince(calls, call.epoch), call);
  }
}
