/** The metadata sink as an object: its callbacks update the per-epoch states in place. */
module MetadataSinks {
  import opened Bytes
  import opened ObserverSpec
  import opened Readiness
  import opened ReadinessRuns

  class MetadataSink {
    const cfg: Config
    var observer: Observer
    var protocols: map<nat, Protocol>
    ghost var since: map<nat, nat>
    ghost var milestones: seq<Milestone>
    ghost var step: nat

    ghost function Contents(): (s: Sink)
      reads this
    {
      Sink(observer, protocols, since, milestones, step)
    }

    /** Every milestone so far has its story, and no epoch was announced twice. */
    ghost predicate Valid()
      reads this
    {
      SinkOk(Contents())
    }

    constructor (cfg: Config)
      ensures Valid() && Contents() == SILENT && this.cfg == cfg
    {
      this.cfg := cfg;
      observer, protocols, since, milestones, step := IDLE, map[], map[], [], 0;
    }

    /** The observer's callback: one row, one state updated. */
    method ProtocolEvent(row: Record)
      modifies this`protocols
      ensures protocols == TakeRow(old(protocols), row)
    {
      if row.epoch.None? || row.epoch.value !in protocols {
        return;
      }
      var state := protocols[row.epoch.value];
      match row.event {
        case Gap(_) => state := state.(valid := false);
        case ConnectionClose => state := state.(closed := true);
        case Upgraded => state := state.(upgrades := state.upgrades + {row.direction});
        case InitializeHome(_, _, _) =>
          var heard := Hear(state.lease, state.talk, row);
          state := state.(talk := heard.talk);
          if !heard.fine { state := state.(valid := false); }
        case ConnectionOpen =>
        case Control(_) =>
        case _ =>
          if |state.rpcs| >= MAX_ROWS {
            state := state.(valid := false);
          } else {
            state := state.(rpcs := state.rpcs + [row], turns := Count(state.turns, row.event));
            var heard := Hear(state.lease, state.talk, row);
            state := state.(talk := heard.talk);
            if !heard.fine { state := state.(valid := false); }
          }
      }
      protocols := protocols[row.epoch.value := state];
    }

    /** Runs one observer call and hands over its rows in order. */
    method Run(op: Op)
      modifies this`observer, this`protocols
      ensures Contents() == Observe(cfg, old(Contents()), op)
    {
      hide ObserverSpec.Apply;
      hide TakeRow, WithHomes, Rows;
      ghost var was := protocols;
      var before := observer.out.trace;
      observer := ObserverSpec.Apply(WithHomes(cfg, Homes(protocols)), observer, op);
      var rows := Rows(before, observer.out.trace);
      for i := 0 to |rows|
        invariant observer == ObserverSpec.Apply(WithHomes(cfg, Homes(was)), old(observer), op)
        invariant protocols == Absorb(was, rows[..i])
      {
        assert rows[..i + 1][..i] == rows[..i];
        ProtocolEvent(rows[i]);
      }
      assert rows[..|rows|] == rows;
    }

    method OnConnect(conn: int, epoch: nat, lease: Option<Lease>)
      requires Valid()
      modifies this
      ensures Valid() && Contents() == ReadinessRuns.Apply(cfg, old(Contents()), Connected(conn, epoch, lease))
    {
      hide SinkOk, Observe;
      ghost var call := Connected(conn, epoch, lease);
      ApplyKeepsSink(cfg, Contents(), call);
      protocols := protocols[epoch := Opening(conn, lease)];
      since := since[epoch := |observer.out.trace|];
      Run(Open(conn, Some(epoch)));
      step := step + 1;
    }

    /** Feeds the observer; only behind the whole chunk may the epoch be announced. `delivered`
        tells whether publishing returns normally. */
    method OnData(conn: int, epoch: nat, direction: Direction, data: bytes, delivered: bool)
      requires Valid()
      modifies this
      ensures Valid()
      ensures Contents() == ReadinessRuns.Apply(cfg, old(Contents()), DataSeen(conn, epoch, direction, data, delivered))
      ensures milestones != old(milestones) ==>
                && conn in observer.conns && observer.conns[conn].valid && !observer.conns[conn].closed
                && AtRest(observer.conns[conn].client) && AtRest(observer.conns[conn].server)
    {
      hide SinkOk, Observe, Ready, Boundary, Announce;
      ghost var call := DataSeen(conn, epoch, direction, data, delivered);
      ApplyKeepsSink(cfg, Contents(), call);
      AnnouncedExactly(cfg, Contents(), call);
      if epoch in protocols && protocols[epoch].conn == conn {
        Run(Feed(conn, direction, data));
        if epoch in protocols && Ready(protocols[epoch]) && Boundary(observer, conn) {
          Publish(epoch, delivered);
        }
      }
      step := step + 1;
    }

    method Publish(epoch: nat, delivered: bool)
      requires epoch in protocols
      modifies this`protocols, this`milestones
      ensures Contents() == Announce(old(Contents()), epoch, delivered)
    {
      milestones := milestones + [Milestone(epoch, protocols[epoch].lease, |observer.out.trace|, step, delivered)];
      if delivered {
        protocols := protocols[epoch := protocols[epoch].(published := true)];
      }
    }

    method OnLifecycle(conn: int)
      requires Valid()
      modifies this
      ensures Valid() && Contents() == ReadinessRuns.Apply(cfg, old(Contents()), Ended(conn))
    {
      hide SinkOk, Observe;
      ApplyKeepsSink(cfg, Contents(), Ended(conn));
      Run(Close(conn));
      step := step + 1;
    }

    method OnGap(epoch: nat)
      requires Valid()
      modifies this
      ensures Valid() && Contents() == ReadinessRuns.Apply(cfg, old(Contents()), GapReported(epoch))
      ensures epoch in protocols ==> !Ready(protocols[epoch])
    {
      hide SinkOk;
      ApplyKeepsSink(cfg, Contents(), GapReported(epoch));
      if epoch in protocols {
        protocols := protocols[epoch := protocols[epoch].(valid := false)];
      }
      step := step + 1;
    }
  }
}
