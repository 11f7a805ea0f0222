/** What each call of the observer does to the connections and to the record, exactly. */
module ObserverCalls {
  import opened Bytes
  import opened ObserverSpec
  import opened ObserverTrace
  import opened ObserverRuns
  import opened ObserverReading

  // ---------- putting a list of events on record ----------

  datatype Entry = Entry(epoch: nat, direction: Option<Direction>, event: Event)

  /** The entries as records, numbered from `seqNo` on. */
  function Numbered(es: seq<Entry>, seqNo: nat): (rs: seq<Record>) {
    seq(|es|, i requires 0 <= i < |es| => Record(es[i].event, Some(es[i].epoch), seqNo + i, es[i].direction))
  }

  /** Queue and history went on by exactly these entries. */
  predicate Wrote(o: Out, es: seq<Entry>, r: Out) {
    && r.queue == o.queue + Numbered(es, o.nextSeq) && r.trace == o.trace + Numbered(es, o.nextSeq)
    && r.nextSeq == o.nextSeq + |es|
  }

  lemma WroteTwice(a: Out, x: seq<Entry>, b: Out, y: seq<Entry>, c: Out)
    requires Wrote(a, x, b) && Wrote(b, y, c)
    ensures Wrote(a, x + y, c)
  {
    assert Numbered(x + y, a.nextSeq) == Numbered(x, a.nextSeq) + Numbered(y, b.nextSeq);
    Regroup(a.queue, Numbered(x, a.nextSeq), Numbered(y, b.nextSeq));
    Regroup(a.trace, Numbered(x, a.nextSeq), Numbered(y, b.nextSeq));
  }

  lemma EmitWrites(cfg: Config, t: Track, d: Option<Direction>, e: Event)
    requires !t.conn.overflowed && Room(cfg, t.out, 1)
    ensures Emit(cfg, t, d, e).conn == t.conn
    ensures Wrote(t.out, [Entry(t.conn.epoch, d, e)], Emit(cfg, t, d, e).out)
  {
    assert Numbered([Entry(t.conn.epoch, d, e)], t.out.nextSeq) == [Record(e, Some(t.conn.epoch), t.out.nextSeq, d)];
  }

  lemma WroteRoom(cfg: Config, a: Out, es: seq<Entry>, b: Out, n: nat)
    requires Wrote(a, es, b) && Room(cfg, a, |es| + n)
    ensures Room(cfg, b, n)
  {
  }

  // ---------- opening ----------

  function EpochOf(o: Observer, wanted: Option<nat>): nat {
    if wanted.Some? then wanted.value else o.nextEpoch
  }

  /** What is said of the connection whose name is taken over. */
  function Farewell(o: Observer, c: int): (es: seq<Entry>) {
    if c !in o.conns || o.conns[c].closed || o.conns[c].overflowed then []
    else
      (if o.conns[c].valid then [Entry(o.conns[c].epoch, None, Gap(Reopened))] else [])
      + [Entry(o.conns[c].epoch, None, ConnectionClose)]
  }

  lemma RetireWrites(cfg: Config, o: Observer, c: int)
    requires Consistent(o) && c in o.conns && !o.conns[c].closed && Room(cfg, o.out, |Farewell(o, c)|)
    ensures Wrote(o.out, Farewell(o, c), Retire(cfg, Track(o.conns[c], o.out)).out)
  {
    var t := Track(o.conns[c], o.out);
    var t1 := BeforeRetire(cfg, t);
    if t.conn.overflowed {
      assert ConnOk(t.conn, o.out.trace);
      hide Consistent;
      assert Numbered([], o.out.nextSeq) == [];
    } else {
      hide Consistent, Emit;
      var c1 := if t.conn.valid then Invalidate(t.conn) else t.conn;
      if t.conn.valid {
        EmitWrites(cfg, t.(conn := c1), None, Gap(Reopened));
        WroteRoom(cfg, o.out, [Entry(c1.epoch, None, Gap(Reopened))], t1.out, 1);
      }
      var t2 := t1.(conn := t1.conn.(closed := true));
      EmitWrites(cfg, t2, None, ConnectionClose);
      if t.conn.valid {
        WroteTwice(o.out, [Entry(c1.epoch, None, Gap(Reopened))], t1.out,
                   [Entry(c1.epoch, None, ConnectionClose)], Emit(cfg, t2, None, ConnectionClose).out);
      } else {
        assert Farewell(o, c) == [Entry(c1.epoch, None, ConnectionClose)];
      }
    }
  }

  /** Opening under a newer epoch: the name's former use is ended on record, then the new epoch
      begins with nothing received, nothing pending and no upgrade; every other connection stays
      as it was. A stale epoch changes nothing. */
  lemma OpenExactly(cfg: Config, o: Observer, c: int, wanted: Option<nat>)
    requires Consistent(o)
    ensures var epoch, r := EpochOf(o, wanted), Apply(cfg, o, Open(c, wanted));
            if epoch <= o.maxEpoch then r == o
            else
              && r.conns.Keys == o.conns.Keys + {c} && r.maxEpoch == epoch && r.nextEpoch > epoch && r.nextEpoch >= o.nextEpoch
              && (forall k :: k in o.conns && k != c ==> r.conns[k] == o.conns[k])
              && r.conns[c].epoch == epoch && !r.conns[c].closed
              && (Room(cfg, o.out, |Farewell(o, c)| + 1) ==>
                    && r.conns[c] == Conn(epoch, true, false, false, None, FRESH, FRESH, map[])
                    && Wrote(o.out, Farewell(o, c) + [Entry(epoch, None, ConnectionOpen)], r.out))
  {
    var epoch := EpochOf(o, wanted);
    if epoch > o.maxEpoch && Room(cfg, o.out, |Farewell(o, c)| + 1) {
      var standing := c in o.conns && !o.conns[c].closed;
      if standing {
        RetireWrites(cfg, o, c);
      }
      hide Consistent, Retire, Emit;
      var o1 := if standing then Put(o, c, Retire(cfg, Track(o.conns[c], o.out))) else o;
      assert Wrote(o.out, Farewell(o, c), o1.out) by {
        if !standing { assert Numbered([], o.out.nextSeq) == []; }
      }
      WroteRoom(cfg, o.out, Farewell(o, c), o1.out, 1);
      var t := Track(Conn(epoch, true, false, false, None, FRESH, FRESH, map[]), o1.out);
      EmitWrites(cfg, t, None, ConnectionOpen);
      WroteTwice(o.out, Farewell(o, c), o1.out, [Entry(epoch, None, ConnectionOpen)], Emit(cfg, t, None, ConnectionOpen).out);
    }
  }

  /** Left to itself the observer always finds a fresh epoch: over every run the next number is
      above all that were used. */
  lemma {:induction false} NextIsFree(cfg: Config, ops: seq<Op>)
    ensures Run(cfg, ops).maxEpoch < Run(cfg, ops).nextEpoch
  {
    if ops != [] {
      NextIsFree(cfg, ops[..|ops| - 1]);
    }
  }

  // ---------- closing ----------

  function LastWords(c: Conn): (es: seq<Entry>) {
    if c.overflowed then []
    else
      (if c.valid && FirstUnfinished(c).Some? then [Entry(c.epoch, Some(FirstUnfinished(c).value.0), Gap(FirstUnfinished(c).value.1))] else [])
      + [Entry(c.epoch, None, ConnectionClose)]
  }

  /** Nothing received in this direction, not even part of an upgrade. */
  predicate Untouched(p: Parser) {
    !p.handshakeDone && p.buffer == [] && p.fragmentOpcode.None?
  }

  /** Nothing is unfinished exactly if both sides have upgraded and stand between two messages, or
      neither side has begun; and a message begun is reported as such before anything else is. */
  lemma UnfinishedExactly(c: Conn)
    ensures FirstUnfinished(c).None? <==>
            || (Untouched(c.client) && Untouched(c.server))
            || (c.client.handshakeDone && c.client.buffer == [] && c.client.fragmentOpcode.None?
                && c.server.handshakeDone && c.server.buffer == [] && c.server.fragmentOpcode.None?)
    ensures FirstUnfinished(c).Some? ==>
              var (d, why) := FirstUnfinished(c).value;
              var p := ParserOf(c, d);
              && (d == Server ==> c.client.fragmentOpcode.None? && c.client.buffer == [])
              && (why == IncompleteMessage <==> p.fragmentOpcode.Some?)
              && (why == IncompleteUpgrade <==> p.fragmentOpcode.None? && !p.handshakeDone)
              && (why == IncompleteFrame <==> p.fragmentOpcode.None? && p.handshakeDone && p.buffer != [])
  {
  }

  /** Closing a standing connection: what is unfinished is reported as a gap, then the close, and
      nothing else. */
  lemma CloseExactly(cfg: Config, o: Observer, c: int)
    requires Consistent(o) && c in o.conns && !o.conns[c].closed && Room(cfg, o.out, |LastWords(o.conns[c])|)
    ensures var r := Apply(cfg, o, Close(c));
            && Wrote(o.out, LastWords(o.conns[c]), r.out) && r.conns.Keys == o.conns.Keys
            && r.conns[c].closed && !r.conns[c].valid && r.conns[c].epoch == o.conns[c].epoch
            && (forall k :: k in o.conns && k != c ==> r.conns[k] == o.conns[k])
  {
    var t := Track(o.conns[c], o.out);
    var t1 := BeforeClose(cfg, t);
    if t.conn.overflowed {
      assert ConnOk(t.conn, o.out.trace);
      hide Consistent;
      assert Numbered([], o.out.nextSeq) == [];
    } else {
      hide Consistent, Emit, UnfinishedIn;
      var gap := t.conn.valid && FirstUnfinished(t.conn).Some?;
      if gap {
        var (d, why) := FirstUnfinished(t.conn).value;
        EmitWrites(cfg, t.(conn := Invalidate(t.conn)), Some(d), Gap(why));
        WroteRoom(cfg, o.out, [Entry(t.conn.epoch, Some(d), Gap(why))], t1.out, 1);
      }
      var t2 := t1.(conn := t1.conn.(closed := true, valid := false));
      EmitWrites(cfg, t2, None, ConnectionClose);
      if gap {
        var (d, why) := FirstUnfinished(t.conn).value;
        WroteTwice(o.out, [Entry(t.conn.epoch, Some(d), Gap(why))], t1.out,
                   [Entry(t.conn.epoch, None, ConnectionClose)], Emit(cfg, t2, None, ConnectionClose).out);
      } else {
        assert LastWords(t.conn) == [Entry(t.conn.epoch, None, ConnectionClose)];
      }
    }
  }

  // ---------- what a call leaves alone ----------

  /** A call touches only the connection it names, and bytes or a close for a name nobody has open
      touch none: they are reported as one gap without an epoch, or as the overflow in its place. */
  lemma OthersUntouched(cfg: Config, o: Observer, op: Op)
    ensures var r := Apply(cfg, o, op);
            && (forall k :: k in o.conns && (op.DrainEvents? || k != op.conn) ==> k in r.conns && r.conns[k] == o.conns[k])
            && ((op.Feed? && (op.conn !in o.conns || o.conns[op.conn].closed)) || (op.Close? && op.conn !in o.conns) ==>
                  && r.conns == o.conns
                  && var n := |o.out.trace|;
                     && |r.out.trace| == n + 1 && r.out.trace[..n] == o.out.trace && r.out.trace[n].epoch.None?
                     && r.out.trace[n].event == Gap(if |o.out.queue| + 1 < cfg.maxEvents then UnknownConnection else QueueOverflow)
                     && r.out.trace[n].direction == (if op.Feed? then Some(op.direction) else None))
  {
    hide FeedTrack, CloseTrack, Retire, Emit;
  }

  /** A standing connection set pending is deaf: whatever it is fed leaves no trace, and no other
      connection notices. */
  lemma PendingIsDeaf(cfg: Config, o: Observer, c: int, d: Direction, data: bytes)
    requires c in o.conns && !o.conns[c].closed
    ensures var r := Apply(cfg, o, SetPending(c));
            && Apply(cfg, r, Feed(c, d, data)) == r && r.out == o.out && r.conns.Keys == o.conns.Keys
            && r.conns[c] == o.conns[c].(valid := false)
            && (forall k :: k in o.conns && k != c ==> r.conns[k] == o.conns[k])
  {
    var r := Apply(cfg, o, SetPending(c));
    assert r.conns[c := r.conns[c]] == r.conns;
  }
}
