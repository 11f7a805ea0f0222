/** The observer as an object: connections, epochs, sequence numbers and the event queue are
    fields that every callback updates in place. */
module ObserverObject {
  import opened Bytes
  import opened ObserverSpec
  import opened ObserverRuns

  /** The decoder's loop: one frame after another until bytes run out or the connection breaks. */
  method ParseFrames(cfg: Config, start: Track, d: Direction) returns (t: Track)
    ensures t == Frames(cfg, start, d)
  {
    t := start;
    while t.conn.valid
      invariant Frames(cfg, t, d) == Frames(cfg, start, d)
      decreases t.conn.valid, |Buffer(t, d)|
    {
      hide HandleFrame, SeeFrame, GapNow;
      match SeeFrame(cfg, d, Buffer(t, d))
      case Wait => return;
      case Broken(why) =>
        t := GapNow(cfg, t, d, why);
        return;
      case Whole(fin, opcode, payload, size) =>
        t := WithBuffer(t, d, Buffer(t, d)[size..]);
        HandleKeepsBuffer(cfg, t, d, fin, opcode, payload);
        t := HandleFrame(cfg, t, d, fin, opcode, payload);
    }
  }

  /** Searches for the blank line that ends the upgrade header. */
  method FindHeaderEnd(b: bytes) returns (r: Option<nat>)
    ensures r == HeaderEnd(b, 0)
  {
    var i := 0;
    while i + 4 <= |b|
      invariant HeaderEnd(b, i) == HeaderEnd(b, 0)
    {
      if BlankLineAt(b, i) {
        return Some(i + 4);
      }
      i := i + 1;
    }
    r := None;
  }

  class ObserverState {
    const cfg: Config
    var conns: map<int, Conn>
    var maxEpoch: nat
    var nextEpoch: nat
    var out: Out

    ghost function Contents(): (o: Observer)
      reads this
    {
      Observer(conns, maxEpoch, nextEpoch, out)
    }

    /** The trace law holds of everything emitted so far. */
    ghost predicate Valid()
      reads this
    {
      Consistent(Contents())
    }

    constructor (cfg: Config)
      ensures this.cfg == cfg && Contents() == IDLE && Valid()
    {
      this.cfg := cfg;
      conns, maxEpoch, nextEpoch, out := map[], 0, 1, Out(1, [], []);
    }

    method Open(c: int, wanted: Option<nat>) returns (epoch: Option<nat>)
      requires Valid()
      modifies this
      ensures Valid() && Contents() == Apply(cfg, old(Contents()), Op.Open(c, wanted))
      ensures epoch.None? <==> (if wanted.Some? then wanted.value else old(nextEpoch)) <= old(maxEpoch)
      ensures epoch.None? ==> Contents() == old(Contents())
      ensures epoch.Some? ==>
                && epoch.value == (if wanted.Some? then wanted.value else old(nextEpoch))
                && c in conns && conns[c].epoch == epoch.value
    {
      hide Consistent, Retire, Emit;
      ApplyKeeps(cfg, Contents(), Op.Open(c, wanted));
      var latest := if wanted.Some? then wanted.value else nextEpoch;
      if latest <= maxEpoch {
        return None;
      }
      maxEpoch := latest;
      if c in conns && !conns[c].closed {
        Keep(c, Retire(cfg, Track(conns[c], out)));
      }
      nextEpoch := if latest + 1 > nextEpoch then latest + 1 else nextEpoch;
      var t := Track(Conn(latest, true, false, false, None, FRESH, FRESH, map[]), out);
      EmitKeepsEpoch(cfg, t, None, ConnectionOpen);
      Keep(c, Emit(cfg, t, None, ConnectionOpen));
      epoch := Some(latest);
    }

    method Keep(c: int, t: Track)
      modifies this`conns, this`out
      ensures conns == old(conns)[c := t.conn] && out == t.out
    {
      conns, out := conns[c := t.conn], t.out;
    }

    method SetPending(c: int)
      requires Valid()
      modifies this`conns
      ensures Valid() && Contents() == Apply(cfg, old(Contents()), Op.SetPending(c))
    {
      ApplyKeeps(cfg, Contents(), Op.SetPending(c));
      hide Consistent;
      if c in conns && !conns[c].closed {
        conns := conns[c := conns[c].(valid := false)];
      }
    }

    method Feed(c: int, d: Direction, data: bytes)
      requires Valid()
      modifies this`conns, this`out
      ensures Valid() && Contents() == Apply(cfg, old(Contents()), Op.Feed(c, d, data))
    {
      ApplyKeeps(cfg, Contents(), Op.Feed(c, d, data));
      hide Consistent, FeedTrack;
      if c !in conns || conns[c].closed {
        out := EmitUnknown(cfg, out, Some(d));
      } else {
        var t := FeedOne(cfg, Track(conns[c], out), d, data);
        Keep(c, t);
      }
    }

    method Close(c: int)
      requires Valid()
      modifies this`conns, this`out
      ensures Valid() && Contents() == Apply(cfg, old(Contents()), Op.Close(c))
    {
      ApplyKeeps(cfg, Contents(), Op.Close(c));
      hide Consistent, CloseTrack;
      if c !in conns {
        out := EmitUnknown(cfg, out, None);
      } else if !conns[c].closed {
        var t := CloseOne(cfg, Track(conns[c], out));
        Keep(c, t);
      }
    }

    method DrainEvents() returns (events: seq<Record>)
      requires Valid()
      modifies this`out
      ensures Valid() && events == old(out.queue) && Contents() == Apply(cfg, old(Contents()), Op.DrainEvents)
    {
      ApplyKeeps(cfg, Contents(), Op.DrainEvents);
      hide Consistent;
      events := out.queue;
      out := out.(queue := []);
    }
  }

  lemma EmitKeepsEpoch(cfg: Config, t: Track, d: Option<Direction>, e: Event)
    ensures Emit(cfg, t, d, e).conn.epoch == t.conn.epoch
  {
  }

  method FeedOne(cfg: Config, start: Track, d: Direction, data: bytes) returns (t: Track)
    ensures t == FeedTrack(cfg, start, d, data)
  {
    hide Frames, GapNow;
    t := start;
    if !t.conn.valid {
      return;
    }
    if |Buffer(t, d)| + |data| > BufferLimit(cfg) {
      t := GapNow(cfg, t, d, InputTooLarge);
      return;
    }
    t := WithBuffer(t, d, Buffer(t, d) + data);
    if !ParserOf(t.conn, d).handshakeDone {
      t := UpgradeOne(cfg, t, d);
    }
    if ParserOf(t.conn, d).handshakeDone {
      t := ParseFrames(cfg, t, d);
    }
  }

  method UpgradeOne(cfg: Config, start: Track, d: Direction) returns (t: Track)
    ensures t == ParseUpgrade(cfg, start, d)
  {
    hide GapNow, Emit, HeaderEnd;
    t := start;
    var buf := Buffer(t, d);
    var end := FindHeaderEnd(buf);
    if end.None? {
      if |buf| > cfg.maxHeader {
        t := GapNow(cfg, t, d, HeaderTooLarge);
      }
      return;
    }
    if end.value > cfg.maxHeader {
      t := GapNow(cfg, t, d, HeaderTooLarge);
      return;
    }
    var verdict := cfg.upgrade(d, buf[..end.value], t.conn.clientKey);
    t := WithBuffer(t, d, buf[end.value..]);
    if verdict.BadUpgrade? {
      t := GapNow(cfg, t, d, BadHandshake(verdict.text));
      return;
    }
    if d == Client {
      t := t.(conn := t.conn.(clientKey := verdict.key));
    }
    t := WithParser(t, d, ParserOf(t.conn, d).(handshakeDone := true));
    t := Emit(cfg, t, Some(d), Upgraded);
  }

  /** The first direction with something unfinished ends the evidence; then the close record. */
  method CloseOne(cfg: Config, start: Track) returns (t: Track)
    ensures t == CloseTrack(cfg, start)
  {
    hide GapNow, Emit, UnfinishedIn;
    t := start;
    if t.conn.valid {
      var first := UnfinishedIn(t.conn, Client);
      if first.Some? {
        t := GapNow(cfg, t, Client, first.value);
      } else {
        var second := UnfinishedIn(t.conn, Server);
        if second.Some? {
          t := GapNow(cfg, t, Server, second.value);
        }
      }
    }
    t := t.(conn := t.conn.(closed := true, valid := false));
    t := Emit(cfg, t, None, ConnectionClose);
  }
}
