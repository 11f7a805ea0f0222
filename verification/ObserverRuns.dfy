/** The trace law over whole runs of the observer, and exactly when an epoch has two gaps. */
module ObserverRuns {
  import opened Bytes
  import opened ObserverSpec
  import opened ObserverTrace

  ghost predicate Consistent(o: Observer) {
    && OutOk(o.out)
    && (forall i :: 0 <= i < |o.out.trace| && o.out.trace[i].epoch.Some? ==> o.out.trace[i].epoch.value <= o.maxEpoch)
    && (forall c :: c in o.conns ==> ConnOk(o.conns[c], o.out.trace) && o.conns[c].epoch <= o.maxEpoch)
    && (forall a, b :: a in o.conns && b in o.conns && a != b ==> o.conns[a].epoch != o.conns[b].epoch)
  }

  /** Records of other epochs leave a connection's standing alone. */
  lemma OtherKeeps(c: Conn, t: Track, r: Track)
    requires Grown(t, r) && ConnOk(c, t.out.trace) && c.epoch != t.conn.epoch
    ensures ConnOk(c, r.out.trace)
  {
    var h, g := t.out.trace, r.out.trace;
    assert forall i :: 0 <= i < |h| ==> g[i] == h[i];
    forall k | k in c.pending && Known(c.pending[k]) ensures Awaiting(g, c.epoch, k.0, k.1, c.pending[k]) {
      var i :| 0 <= i < |h| && Asks(h[i], c.epoch, k.0, k.1, c.pending[k]) &&
               forall j :: i < j < |h| ==> !Answers(h[j], c.epoch, k.0, k.1);
      assert Asks(g[i], c.epoch, k.0, k.1, c.pending[k]);
      assert forall j :: i < j < |g| ==> !Answers(g[j], c.epoch, k.0, k.1);
    }
  }

  lemma PutKeeps(o: Observer, c: int, r: Track)
    requires Consistent(o) && c in o.conns && TrackOk(r) && Grown(Track(o.conns[c], o.out).(conn := o.conns[c].(closed := r.conn.closed)), r)
    ensures Consistent(Put(o, c, r))
  {
    var t := Track(o.conns[c], o.out).(conn := o.conns[c].(closed := r.conn.closed));
    var o' := Put(o, c, r);
    hide OutOk, ConnOk;
    forall k | k in o'.conns ensures ConnOk(o'.conns[k], r.out.trace) {
      if k != c { OtherKeeps(o.conns[k], t, r); }
    }
    forall i | 0 <= i < |r.out.trace| && r.out.trace[i].epoch.Some? ensures r.out.trace[i].epoch.value <= o.maxEpoch {
      if i < |o.out.trace| { assert r.out.trace[i] == o.out.trace[i]; }
    }
  }

  /** Ends a connection: marks it closed and says so, once. */
  lemma FarewellKeeps(cfg: Config, t: Track, c: Conn)
    requires TrackOk(t) && !t.conn.closed && (c == t.conn.(closed := true) || c == t.conn.(closed := true, valid := false))
    requires !t.conn.valid || !c.valid
    ensures var r := Emit(cfg, t.(conn := c), None, ConnectionClose);
            TrackOk(r) && Grown(t.(conn := t.conn.(closed := true)), r)
  {
    EmitLawful(cfg, t.(conn := c), None, ConnectionClose);
    hide Emit, OutOk, Awaiting;
    var r := Emit(cfg, t.(conn := c), None, ConnectionClose);
    if !r.conn.overflowed {
      PendingAppend(c, t.out.trace, Record(ConnectionClose, Some(c.epoch), t.out.nextSeq, None));
    }
  }

  lemma GrownThenClosed(t: Track, t1: Track, r: Track)
    requires Grown(t, t1) && Grown(t1.(conn := t1.conn.(closed := true)), r)
    ensures Grown(t.(conn := t.conn.(closed := true)), r)
  {
    GrownTwice(t.(conn := t.conn.(closed := true)), t1.(conn := t1.conn.(closed := true)), r);
  }

  /** The direction that ends the evidence of a closing connection, the client's first. */
  function FirstUnfinished(c: Conn): (r: Option<(Direction, Why)>) {
    if UnfinishedIn(c, Client).Some? then Some((Client, UnfinishedIn(c, Client).value))
    else if UnfinishedIn(c, Server).Some? then Some((Server, UnfinishedIn(c, Server).value))
    else None
  }

  lemma CloseKeeps(cfg: Config, t: Track)
    requires TrackOk(t) && !t.conn.closed
    ensures TrackOk(CloseTrack(cfg, t)) && Grown(t.(conn := t.conn.(closed := true)), CloseTrack(cfg, t)) && CloseTrack(cfg, t).conn.closed
    ensures Ended(CloseTrack(cfg, t).out.trace, t.conn.epoch)
    ensures t.conn.valid && FirstUnfinished(t.conn).Some? ==>
              var (d, why) := FirstUnfinished(t.conn).value;
              t.out.trace + [Emitted(cfg, t, Some(d), Gap(why))] <= CloseTrack(cfg, t).out.trace
  {
    hide TrackOk, Grown, Ended, GapNow, UnfinishedIn, Emitted;
    var t1 := BeforeClose(cfg, t);
    LastGapKeeps(cfg, t);
    var c := t1.conn.(closed := true, valid := false);
    FarewellKeeps(cfg, t1, c);
    var r := Emit(cfg, t1.(conn := c), None, ConnectionClose);
    GrownThenClosed(t, t1, r);
    hide Emit;
    ClosedHasEnded(r);
    GrownPrefix(t1.(conn := t1.conn.(closed := true)), r);
  }

  lemma ClosedHasEnded(t: Track)
    requires TrackOk(t) && t.conn.closed
    ensures Ended(t.out.trace, t.conn.epoch)
  {
  }

  lemma GrownPrefix(t: Track, r: Track)
    requires Grown(t, r)
    ensures t.out.trace <= r.out.trace && r.conn.epoch == t.conn.epoch
  {
  }

  /** The gap in front of the close record, if something is unfinished. */
  lemma LastGapKeeps(cfg: Config, t: Track)
    requires TrackOk(t) && !t.conn.closed
    ensures var t1 := BeforeClose(cfg, t);
            && TrackOk(t1) && Grown(t, t1) && !t1.conn.closed && t1.conn.epoch == t.conn.epoch
            && (t.conn.valid && FirstUnfinished(t.conn).Some? ==>
                  var (d, why) := FirstUnfinished(t.conn).value;
                  t1.out.trace == t.out.trace + [Emitted(cfg, t, Some(d), Gap(why))])
  {
    assert Grown(t, t);
    UnfinishedNever(t.conn);
    hide UnfinishedIn;
    if t.conn.valid && FirstUnfinished(t.conn).Some? {
      var (d, why) := FirstUnfinished(t.conn).value;
      GapKeeps(cfg, t, d, why);
      GapReported(cfg, t, d, why);
      hide GapNow, TrackOk;
    }
  }

  lemma GapReported(cfg: Config, t: Track, d: Direction, why: Why)
    requires TrackOk(t) && t.conn.valid
    ensures GapNow(cfg, t, d, why).out.trace == t.out.trace + [Emitted(cfg, t, Some(d), Gap(why))]
  {
    hide OutOk, PendingOk;
  }

  function BeforeClose(cfg: Config, t: Track): (r: Track) {
    if !t.conn.valid then t
    else if UnfinishedIn(t.conn, Client).Some? then GapNow(cfg, t, Client, UnfinishedIn(t.conn, Client).value)
    else if UnfinishedIn(t.conn, Server).Some? then GapNow(cfg, t, Server, UnfinishedIn(t.conn, Server).value)
    else t
  }

  lemma UnfinishedNever(c: Conn)
    ensures UnfinishedIn(c, Client) != Some(QueueOverflow) && UnfinishedIn(c, Server) != Some(QueueOverflow)
  {
  }

  function BeforeRetire(cfg: Config, t: Track): (r: Track) {
    if t.conn.valid then Emit(cfg, t.(conn := Invalidate(t.conn)), None, Gap(Reopened)) else t
  }

  lemma RetireKeeps(cfg: Config, t: Track)
    requires TrackOk(t) && !t.conn.closed
    ensures TrackOk(Retire(cfg, t)) && Grown(t.(conn := t.conn.(closed := true)), Retire(cfg, t)) && Retire(cfg, t).conn.closed
    ensures Ended(Retire(cfg, t).out.trace, t.conn.epoch)
  {
    assert Grown(t, t);
    if t.conn.valid { EndKeeps(cfg, t, None, Reopened); }
    hide TrackOk;
    var t1 := BeforeRetire(cfg, t);
    var c := t1.conn.(closed := true);
    FarewellKeeps(cfg, t1, c);
    GrownThenClosed(t, t1, Emit(cfg, t1.(conn := c), None, ConnectionClose));
  }

  lemma UnknownKeeps(cfg: Config, o: Observer, d: Option<Direction>)
    requires Consistent(o)
    ensures Consistent(o.(out := EmitUnknown(cfg, o.out, d)))
  {
    var out := EmitUnknown(cfg, o.out, d);
    var r := out.trace[|out.trace| - 1];
    assert out.trace == o.out.trace + [r];
    assert OutOk(out) by { LawAppend(o.out.trace, r); }
    hide OutOk, ConnOk;
    forall c | c in o.conns ensures ConnOk(o.conns[c], out.trace) {
      StrangerKeeps(o.conns[c], o.out.trace, r);
    }
  }

  lemma StrangerKeeps(c: Conn, h: seq<Record>, r: Record)
    requires ConnOk(c, h) && r.epoch.None?
    ensures ConnOk(c, h + [r])
  {
    BegunGrows(h, h + [r], c.epoch);
    PendingAppend(c, h, r);
    hide PendingOk;
  }

  lemma OpenKeeps(cfg: Config, o: Observer, c: int, epoch: nat)
    requires Consistent(o) && epoch > o.maxEpoch
    ensures Consistent(OpenAt(cfg, o, c, epoch))
    ensures c in o.conns ==> Ended(OpenAt(cfg, o, c, epoch).out.trace, o.conns[c].epoch)
  {
    hide Consistent, Retire, Ended, Emit;
    var o1 := if c in o.conns && !o.conns[c].closed then Put(o, c, Retire(cfg, Track(o.conns[c], o.out))) else o;
    if c in o.conns {
      var t := Track(o.conns[c], o.out);
      StandsOrEnded(o, c);
      if !t.conn.closed {
        RetireKeeps(cfg, t);
        PutKeeps(o, c, Retire(cfg, t));
      }
      FreshKeeps(cfg, o1, c, epoch);
      EndedGrows(o1.out.trace, OpenAt(cfg, o, c, epoch).out.trace, t.conn.epoch);
    }
    FreshKeeps(cfg, o1, c, epoch);
  }

  lemma StandsOrEnded(o: Observer, c: int)
    requires Consistent(o) && c in o.conns
    ensures TrackOk(Track(o.conns[c], o.out)) && (o.conns[c].closed ==> Ended(o.out.trace, o.conns[c].epoch))
  {
  }

  lemma FirstRecord(cfg: Config, o: Observer, epoch: nat)
    requires Consistent(o) && epoch > o.maxEpoch
    ensures var t := Track(Conn(epoch, true, false, false, None, FRESH, FRESH, map[]), o.out);
            TrackOk(Emit(cfg, t, None, ConnectionOpen)) && Grown(t, Emit(cfg, t, None, ConnectionOpen))
  {
    hide Emit, OutOk, Begun, Ended, ConnOk;
    EmitFirst(cfg, Track(Conn(epoch, true, false, false, None, FRESH, FRESH, map[]), o.out));
  }

  lemma EmitFirst(cfg: Config, t: Track)
    requires OutOk(t.out) && Above(t.out.trace, t.conn.epoch)
    requires t.conn.valid && !t.conn.overflowed && !t.conn.closed && t.conn.pending == map[]
    ensures TrackOk(Emit(cfg, t, None, ConnectionOpen)) && Grown(t, Emit(cfg, t, None, ConnectionOpen))
  {
    hide Emit, OutOk, Begun, Ended;
    EmitLawful(cfg, t, None, ConnectionOpen);
  }

  lemma FreshKeeps(cfg: Config, o: Observer, c: int, epoch: nat)
    requires Consistent(o) && epoch > o.maxEpoch
    ensures var t := Track(Conn(epoch, true, false, false, None, FRESH, FRESH, map[]), o.out);
            && o.out.trace <= Emit(cfg, t, None, ConnectionOpen).out.trace
            && forall next :: Consistent(Put(o, c, Emit(cfg, t, None, ConnectionOpen)).(maxEpoch := epoch, nextEpoch := next))
  {
    var t := Track(Conn(epoch, true, false, false, None, FRESH, FRESH, map[]), o.out);
    FirstRecord(cfg, o, epoch);
    hide Emit, OutOk, ConnOk;
    var r := Emit(cfg, t, None, ConnectionOpen);
    forall k | k in o.conns && k != c ensures ConnOk(o.conns[k], r.out.trace) {
      OtherKeeps(o.conns[k], t, r);
    }
    forall i | 0 <= i < |r.out.trace| && r.out.trace[i].epoch.Some? ensures r.out.trace[i].epoch.value <= epoch {
      if i < |o.out.trace| { assert r.out.trace[i] == o.out.trace[i]; }
    }
  }

  lemma ApplyKeeps(cfg: Config, o: Observer, op: Op)
    requires Consistent(o)
    ensures Consistent(Apply(cfg, o, op))
  {
    match op
    case Open(c, wanted) =>
      var epoch := if wanted.Some? then wanted.value else o.nextEpoch;
      if epoch > o.maxEpoch { OpenKeeps(cfg, o, c, epoch); }
    case SetPending(c) =>
    case Feed(c, d, data) =>
      if c !in o.conns || o.conns[c].closed {
        UnknownKeeps(cfg, o, Some(d));
      } else {
        var t := Track(o.conns[c], o.out);
        FeedKeeps(cfg, t, d, data);
        hide FeedTrack;
        PutKeeps(o, c, FeedTrack(cfg, t, d, data));
      }
    case Close(c) =>
      if c !in o.conns {
        UnknownKeeps(cfg, o, None);
      } else if !o.conns[c].closed {
        var t := Track(o.conns[c], o.out);
        CloseKeeps(cfg, t);
        hide CloseTrack;
        PutKeeps(o, c, CloseTrack(cfg, t));
      }
    case DrainEvents =>
  }

  /** The first record of every epoch, whatever it says, is above all epochs before it. */
  predicate EpochsIncrease(h: seq<Record>) {
    forall i, j :: 0 <= i < j < |h| && h[i].epoch.Some? && h[j].epoch.Some? && FirstOf(h, j) ==>
                     h[i].epoch.value < h[j].epoch.value
  }

  predicate FirstOf(h: seq<Record>, j: nat)
    requires j < |h|
  {
    forall k :: 0 <= k < j ==> h[k].epoch != h[j].epoch
  }

  lemma LawIncreases(h: seq<Record>)
    requires Law(h)
    ensures EpochsIncrease(h)
  {
    forall i, j | 0 <= i < j < |h| && h[i].epoch.Some? && h[j].epoch.Some? && FirstOf(h, j)
      ensures h[i].epoch.value < h[j].epoch.value
    {
      assert Follows(h[..j], h[j]);
      assert h[..j][i] == h[i];
      assert forall k :: 0 <= k < j ==> h[..j][k] == h[k];
    }
  }

  /** Every run obeys the trace law: sequence numbers strictly increase, every epoch begins above
      all epochs before it, an epoch is silent behind its close or overflow and says nothing else
      behind a gap, every response answers one open request of the opposite direction, and no
      connection has more than 256 requests pending. */
  lemma {:induction false} RunLawful(cfg: Config, ops: seq<Op>)
    ensures Consistent(Run(cfg, ops)) && EpochsIncrease(Run(cfg, ops).out.trace)
    decreases |ops|
  {
    if ops != [] {
      RunLawful(cfg, ops[..|ops| - 1]);
      ApplyKeeps(cfg, Run(cfg, ops[..|ops| - 1]), ops[|ops| - 1]);
      hide Apply, ConnOk, EpochsIncrease;
      LawIncreases(Run(cfg, ops).out.trace);
    }
  }
}
