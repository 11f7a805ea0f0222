/** An epoch can have two gaps after all: the queue may overflow on the close record that
    follows the first one. This module says exactly when. */
module ObserverGaps {
  import opened Bytes
  import opened ObserverSpec
  import opened ObserverTrace
  import opened ObserverRuns

  predicate OneGapEach(h: seq<Record>) {
    forall i, j :: 0 <= i < j < |h| && h[i].epoch.Some? && h[i].epoch == h[j].epoch ==>
                     !(h[i].event.Gap? && h[j].event.Gap?)
  }

  /** The open connection that this call is about to end, if any. */
  function Ends(o: Observer, op: Op): (r: Option<Conn>) {
    match op
    case Close(c) => if c in o.conns && !o.conns[c].closed then Some(o.conns[c]) else None
    case Open(c, wanted) =>
      var epoch := if wanted.Some? then wanted.value else o.nextEpoch;
      if epoch > o.maxEpoch && c in o.conns && !o.conns[c].closed then Some(o.conns[c]) else None
    case _ => None
  }

  /** Will ending the connection report a gap of its own first? */
  predicate EndsWithGap(c: Conn, op: Op) {
    c.valid && (op.Close? ==> UnfinishedIn(c, Client).Some? || UnfinishedIn(c, Server).Some?)
  }

  /** The close record finds the queue full behind a gap of the same epoch. */
  predicate Crowded(cfg: Config, o: Observer, op: Op) {
    Ends(o, op).Some? &&
    var c := Ends(o, op).value;
    !c.overflowed &&
    if EndsWithGap(c, op) then |o.out.queue| + 1 < cfg.maxEvents <= |o.out.queue| + 2
    else !NoGap(o.out.trace, c.epoch) && cfg.maxEvents <= |o.out.queue| + 1
  }

  lemma GrowthGaps(t: Track, r: Track)
    requires Grown(t, r)
    ensures OneGapEach(r.out.trace) <==> OneGapEach(t.out.trace) && OneGap(r.out.trace, t.conn.epoch)
  {
    var h, g := t.out.trace, r.out.trace;
    assert forall i :: 0 <= i < |h| ==> g[i] == h[i];
    if OneGapEach(t.out.trace) && OneGap(g, t.conn.epoch) {
      forall i, j | 0 <= i < j < |g| && g[i].epoch.Some? && g[i].epoch == g[j].epoch
        ensures !(g[i].event.Gap? && g[j].event.Gap?)
      {
        if g[i].epoch != Some(t.conn.epoch) {
          assert j < |h|;
        }
      }
    }
  }

  lemma FarewellGaps(cfg: Config, t: Track, c: Conn)
    requires OneGap(t.out.trace, t.conn.epoch) && c.epoch == t.conn.epoch && c.overflowed == t.conn.overflowed
    ensures var r := Emit(cfg, t.(conn := c), None, ConnectionClose);
            OneGap(r.out.trace, t.conn.epoch) <==>
            t.conn.overflowed || |t.out.queue| + 1 < cfg.maxEvents || NoGap(t.out.trace, t.conn.epoch)
  {
    var h := t.out.trace;
    var r := Emit(cfg, t.(conn := c), None, ConnectionClose);
    if !t.conn.overflowed && |t.out.queue| + 1 >= cfg.maxEvents {
      var g := r.out.trace;
      assert g[|h|].event.Gap?;
      assert forall i :: 0 <= i < |h| ==> g[i] == h[i];
    }
  }

  /** The gap in front of the close record, and what it leaves for it. */
  lemma FirstGap(cfg: Config, t: Track, d: Option<Direction>, why: Why)
    requires TrackOk(t) && t.conn.valid && !t.conn.closed
    ensures var t1 := Emit(cfg, t.(conn := Invalidate(t.conn)), d, Gap(why));
            && (t1.conn.overflowed <==> |t.out.queue| + 1 >= cfg.maxEvents)
            && !NoGap(t1.out.trace, t.conn.epoch)
            && |t1.out.queue| == |t.out.queue| + 1
  {
    var t1 := Emit(cfg, t.(conn := Invalidate(t.conn)), d, Gap(why));
    assert t1.out.trace[|t.out.trace|].event.Gap?;
    assert t1.out.trace[|t.out.trace|].epoch == Some(t.conn.epoch);
  }

  lemma CloseGaps(cfg: Config, o: Observer, c: int)
    requires Consistent(o) && c in o.conns && !o.conns[c].closed
    ensures var r := CloseTrack(cfg, Track(o.conns[c], o.out));
            OneGap(r.out.trace, o.conns[c].epoch) <==> !Crowded(cfg, o, Close(c))
  {
    var t := Track(o.conns[c], o.out);
    var t1 := BeforeClose(cfg, t);
    var last := t1.conn.(closed := true, valid := false);
    UnfinishedNever(t.conn);
    if EndsWithGap(t.conn, Close(c)) {
      var d := if UnfinishedIn(t.conn, Client).Some? then Client else Server;
      var why := UnfinishedIn(t.conn, d).value;
      FirstGap(cfg, t, Some(d), why);
      EndKeeps(cfg, t, Some(d), why);
    }
    hide Emit, OutOk, UnfinishedIn, PendingOk;
    FarewellGaps(cfg, t1, last);
  }

  lemma RetireGaps(cfg: Config, o: Observer, c: int, op: Op)
    requires Consistent(o) && c in o.conns && !o.conns[c].closed && Ends(o, op) == Some(o.conns[c]) && op.Open?
    ensures var r := Retire(cfg, Track(o.conns[c], o.out));
            OneGap(r.out.trace, o.conns[c].epoch) <==> !Crowded(cfg, o, op)
  {
    var t := Track(o.conns[c], o.out);
    var t1 := BeforeRetire(cfg, t);
    var last := t1.conn.(closed := true);
    if t.conn.valid {
      FirstGap(cfg, t, None, Reopened);
      EndKeeps(cfg, t, None, Reopened);
    }
    hide Emit, OutOk, PendingOk;
    FarewellGaps(cfg, t1, last);
  }

  lemma UnknownGaps(cfg: Config, out: Out, d: Option<Direction>)
    ensures OneGapEach(EmitUnknown(cfg, out, d).trace) <==> OneGapEach(out.trace)
  {
    var h, g := out.trace, EmitUnknown(cfg, out, d).trace;
    assert forall i :: 0 <= i < |h| ==> g[i] == h[i];
  }

  lemma FreshGaps(cfg: Config, o: Observer, epoch: nat)
    requires Consistent(o) && epoch > o.maxEpoch
    ensures var t := Track(Conn(epoch, true, false, false, None, FRESH, FRESH, map[]), o.out);
            OneGapEach(Emit(cfg, t, None, ConnectionOpen).out.trace) <==> OneGapEach(o.out.trace)
  {
    var t := Track(Conn(epoch, true, false, false, None, FRESH, FRESH, map[]), o.out);
    EmitLawful(cfg, t, None, ConnectionOpen);
    GrowthGaps(t, Emit(cfg, t, None, ConnectionOpen));
  }

  lemma ApplyGaps(cfg: Config, o: Observer, op: Op)
    requires Consistent(o)
    ensures OneGapEach(Apply(cfg, o, op).out.trace) <==> OneGapEach(o.out.trace) && !Crowded(cfg, o, op)
  {
    match op
    case Open(c, wanted) => OpenGaps(cfg, o, c, wanted);
    case SetPending(c) =>
    case Feed(c, d, data) =>
      if c !in o.conns || o.conns[c].closed {
        UnknownGaps(cfg, o.out, Some(d));
      } else {
        var t := Track(o.conns[c], o.out);
        FeedKeeps(cfg, t, d, data);
        hide FeedTrack;
        GrowthGaps(t, FeedTrack(cfg, t, d, data));
      }
    case Close(c) =>
      if c !in o.conns {
        UnknownGaps(cfg, o.out, None);
      } else if !o.conns[c].closed {
        var t := Track(o.conns[c], o.out);
        CloseKeeps(cfg, t);
        CloseGaps(cfg, o, c);
        hide CloseTrack, Crowded;
        GrowthGaps(t.(conn := t.conn.(closed := true)), CloseTrack(cfg, t));
      }
    case DrainEvents =>
  }

  lemma OpenGaps(cfg: Config, o: Observer, c: int, wanted: Option<nat>)
    requires Consistent(o)
    ensures OneGapEach(Apply(cfg, o, Open(c, wanted)).out.trace) <==>
            OneGapEach(o.out.trace) && !Crowded(cfg, o, Open(c, wanted))
  {
    var epoch := if wanted.Some? then wanted.value else o.nextEpoch;
    if epoch > o.maxEpoch {
      if c in o.conns && !o.conns[c].closed {
        var t := Track(o.conns[c], o.out);
        RetireKeeps(cfg, t);
        RetireGaps(cfg, o, c, Open(c, wanted));
        hide Retire, Crowded, Emit;
        var r := Retire(cfg, t);
        GrowthGaps(t.(conn := t.conn.(closed := true)), r);
        PutKeeps(o, c, r);
        FreshGaps(cfg, Put(o, c, r), epoch);
      } else {
        hide Emit;
        FreshGaps(cfg, o, epoch);
      }
    }
  }

  /** No close record of the run ever finds the queue full behind a gap of its own epoch. */
  predicate NeverCrowded(cfg: Config, ops: seq<Op>) {
    ops != [] ==>
      var front := ops[..|ops| - 1];
      NeverCrowded(cfg, front) && !Crowded(cfg, Run(cfg, front), ops[|ops| - 1])
  }

  /** Over every run, each epoch has at most one gap exactly when it is never crowded. */
  lemma {:induction false} OneGapExactly(cfg: Config, ops: seq<Op>)
    ensures OneGapEach(Run(cfg, ops).out.trace) <==> NeverCrowded(cfg, ops)
    decreases |ops|
  {
    if ops != [] {
      var front := ops[..|ops| - 1];
      OneGapExactly(cfg, front);
      RunLawful(cfg, front);
      hide Crowded, Apply, OneGapEach, Consistent;
      ApplyGaps(cfg, Run(cfg, front), ops[|ops| - 1]);
    }
  }

  /** A run with two gaps in one epoch: an oversized header, then a close into a full queue. */
  lemma TwoGaps(decode: bytes -> Rpc, upgrade: (Direction, bytes, Option<bytes>) -> Upgrade, closeOk: bytes -> bool,
                home: nat -> Option<string>)
    ensures var cfg := Config(1, 1, 1, 3, decode, upgrade, closeOk, false, home);
            var trace := Run(cfg, [Open(0, None), Feed(0, Client, [0, 0]), Close(0)]).out.trace;
            && !OneGapEach(trace)
            && |trace| == 3 && trace[1].event == Gap(HeaderTooLarge) && trace[2].event == Gap(QueueOverflow)
            && trace[1].epoch == trace[2].epoch == Some(1)
  {
    var cfg := Config(1, 1, 1, 3, decode, upgrade, closeOk, false, home);
    var first, second, third := Open(0, None), Feed(0, Client, [0, 0]), Close(0);
    assert [first, second, third][..2] == [first, second] && [first, second][..1] == [first] && [first][..0] == [];
    var o1 := Apply(cfg, IDLE, first);
    assert Run(cfg, [first]) == o1;
    var o2 := Apply(cfg, o1, second);
    assert Run(cfg, [first, second]) == o2;
    assert HeaderEnd([0, 0], 0).None?;
    assert [] + [0, 0] == [0, 0];
    var trace := Run(cfg, [first, second, third]).out.trace;
    assert trace == Apply(cfg, o2, third).out.trace;
    assert trace[1].event.Gap? && trace[2].event.Gap?;
  }
}
