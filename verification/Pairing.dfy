/** Requests and responses across the two gates of one connection. */
module Pairing {
  import opened Bytes
  import opened GateSpec

  datatype Exchange = Asked(id: int) | Answered(id: int)

  /** The id traffic of the payloads one gate has accepted. */
  function Traffic(g: Gate, messages: seq<bytes>): (r: seq<Exchange>) {
    if messages == [] then []
    else
      var last := messages[|messages| - 1];
      Traffic(g, messages[..|messages| - 1]) +
      match g.classify(last)
      case WithId(id) => if g.server then [Answered(id)] else [Asked(id)]
      case _ => []
  }

  /** Ids asked and not yet answered. */
  function Unanswered(log: seq<Exchange>): (r: set<int>) {
    if log == [] then {}
    else
      var before := Unanswered(log[..|log| - 1]);
      match log[|log| - 1]
      case Asked(id) => before + {id}
      case Answered(id) => before - {id}
  }

  /** No id is asked while unanswered, none is answered unasked. */
  predicate Paired(log: seq<Exchange>) {
    log != [] ==>
      var before := log[..|log| - 1];
      && Paired(before)
      && match log[|log| - 1]
         case Asked(id) => id !in Unanswered(before)
         case Answered(id) => id in Unanswered(before)
  }

  predicate Settled(log: seq<Exchange>, pending: set<int>) {
    Paired(log) && Unanswered(log) == pending
  }

  lemma TrafficAppend(g: Gate, messages: seq<bytes>, m: bytes)
    ensures Traffic(g, messages + [m]) ==
            Traffic(g, messages) + Traffic(g, [m])
  {
    assert (messages + [m])[..|messages|] == messages;
    assert [m][..0] == [];
  }

  lemma {:induction false} TrafficJoin(g: Gate, a: seq<bytes>, b: seq<bytes>)
    ensures Traffic(g, a + b) == Traffic(g, a) + Traffic(g, b)
    decreases |b|
  {
    if b == [] {
      assert a + b == a;
    } else {
      var front, m := b[..|b| - 1], b[|b| - 1];
      assert b == front + [m] && a + b == (a + front) + [m];
      TrafficAppend(g, a + front, m);
      TrafficJoin(g, a, front);
      TrafficAppend(g, front, m);
    }
  }

  lemma SettledAppend(log: seq<Exchange>, pending: set<int>, e: Exchange)
    requires Settled(log, pending)
    requires if e.Asked? then e.id !in pending else e.id in pending
    ensures Settled(log + [e], if e.Asked? then pending + {e.id} else pending - {e.id})
  {
    assert (log + [e])[..|log|] == log;
  }

  /** A frame settles the id of the message it completes, and no other. */
  lemma AcceptSettles(g: Gate, st: GateState, pending: set<int>, f: Frame, log: seq<Exchange>)
    requires Settled(log, pending)
    ensures var one := AcceptFrame(g, st, pending, f);
            Settled(log + Traffic(g, one.messages), one.pending)
  {
    hide Settled;
    var one := AcceptFrame(g, st, pending, f);
    if one.messages == [] {
      assert log + [] == log;
    } else {
      var m := one.messages[0];
      assert one.messages == [m] && [m][..0] == [];
      match g.classify(m)
      case WithId(id) =>
        var e := if g.server then Answered(id) else Asked(id);
        assert Traffic(g, [m]) == [] + [e] == [e];
        SettledAppend(log, pending, e);
      case _ =>
        assert Traffic(g, [m]) == [] + [];
        assert log + [] == log;
    }
  }

  /** Accepted or rejected, a call settles exactly the ids of the messages it accepted. */
  lemma {:induction false} DrainSettles(g: Gate, st: GateState, pending: set<int>, log: seq<Exchange>)
    requires Settled(log, pending)
    ensures var o := Drain(g, st, pending);
            Settled(log + Traffic(g, o.messages), o.pending)
    decreases |st.buffer|
  {
    hide ParseFrame, AcceptFrame, Settled;
    assert log + Traffic(g, []) == log;
    hide Traffic;
    match ParseFrame(g.server, st.buffer)
    case NeedMore =>
    case Bad(_) =>
    case Complete(f) =>
      var behind := Behind(st, f);
      AcceptSettles(g, behind, pending, f, log);
      var one := AcceptFrame(g, behind, pending, f);
      if one.failure.None? {
        DrainSettles(g, one.st, one.pending, log + Traffic(g, one.messages));
        var o := Drain(g, one.st, one.pending);
        TrafficJoin(g, one.messages, o.messages);
        Regroup(log, Traffic(g, one.messages), Traffic(g, o.messages));
      }
  }

  /** Two gates, one pending set, and everything they have accepted so far. */
  datatype Relay = Relay(client: GateState, server: GateState, pending: set<int>, log: seq<Exchange>)

  datatype Call = Call(server: bool, data: bytes)

  function RelayFeed(client: Gate, server: Gate, r: Relay, c: Call): (r': Relay) {
    var g := if c.server then server else client;
    var o := Feed(g, if c.server then r.server else r.client, r.pending, c.data);
    Relay(if c.server then r.client else o.st, if c.server then o.st else r.server,
          o.pending, r.log + Traffic(g, o.messages))
  }

  function RelayRun(client: Gate, server: Gate, calls: seq<Call>): (r: Relay) {
    if calls == [] then Relay(INITIAL, INITIAL, {}, [])
    else RelayFeed(client, server, RelayRun(client, server, calls[..|calls| - 1]), calls[|calls| - 1])
  }

  /** Under every interleaving of calls on the two gates, rejected ones included, the pending
      set is exactly the ids with an accepted and unanswered request. */
  lemma {:induction false} RelayPairs(client: Gate, server: Gate, calls: seq<Call>)
    requires !client.server && server.server
    ensures var r := RelayRun(client, server, calls);
            Settled(r.log, r.pending)
    decreases |calls|
  {
    if calls != [] {
      var before := RelayRun(client, server, calls[..|calls| - 1]);
      var c := calls[|calls| - 1];
      RelayPairs(client, server, calls[..|calls| - 1]);
      FeedSettles(if c.server then server else client, if c.server then before.server else before.client,
                  before.pending, c.data, before.log);
    }
  }

  lemma FeedSettles(g: Gate, st: GateState, pending: set<int>, data: bytes, log: seq<Exchange>)
    requires Settled(log, pending)
    ensures var o := Feed(g, st, pending, data);
            Settled(log + Traffic(g, o.messages), o.pending)
  {
    hide Drain, Settled, HeaderEndFrom;
    assert log + Traffic(g, []) == log;
    var fed := st.(buffer := st.buffer + data);
    if st.handshakeDone {
      DrainSettles(g, fed, pending, log);
    } else if HeaderEnd(fed.buffer).Some? {
      DrainSettles(g, AfterHeader(fed, HeaderEnd(fed.buffer).value), pending, log);
    }
  }

  // ---------- what pairing says about the order of the log ----------

  /** The latest entry for an id, or -1. */
  function Latest(log: seq<Exchange>, id: int): (i: int)
    ensures -1 <= i < |log|
    ensures i >= 0 ==> log[i].id == id
    ensures forall j :: i < j < |log| ==> log[j].id != id
  {
    if log == [] then -1
    else if log[|log| - 1].id == id then |log| - 1
    else
      assert forall j :: 0 <= j < |log| - 1 ==> log[..|log| - 1][j] == log[j];
      Latest(log[..|log| - 1], id)
  }

  lemma {:induction false} UnansweredIsLatest(log: seq<Exchange>, id: int)
    ensures id in Unanswered(log) <==> Latest(log, id) >= 0 && log[Latest(log, id)].Asked?
    decreases |log|
  {
    if log != [] {
      UnansweredIsLatest(log[..|log| - 1], id);
    }
  }

  lemma {:induction false} PairedPrefix(log: seq<Exchange>, n: nat)
    requires Paired(log) && n <= |log|
    ensures Paired(log[..n])
    decreases |log|
  {
    if n < |log| {
      PairedPrefix(log[..|log| - 1], n);
      assert log[..|log| - 1][..n] == log[..n];
    } else {
      assert log[..n] == log;
    }
  }

  /** Strict alternation: for each id, an answer follows a request and a request follows an
      answer or nothing, with entries of other ids in between. */
  lemma Alternation(log: seq<Exchange>, k: nat)
    requires Paired(log) && k < |log|
    ensures var i := Latest(log[..k], log[k].id);
            if log[k].Answered? then i >= 0 && log[i].Asked? else i < 0 || log[i].Answered?
  {
    PairedPrefix(log, k + 1);
    assert log[..k + 1][..k] == log[..k];
    UnansweredIsLatest(log[..k], log[k].id);
  }
}
