/** Exactly which commands change the ledger and what they write, and exactly what a report holds,
    said from the command and the records alone. */
module LedgerExact {
  import opened Bytes
  import opened LedgerSpec
  import opened LedgerLaws

  /** Well formed, by the owner, for this task at its current revision, and not cancelled. */
  predicate Addressed(led: Ledger, cmd: Command)
    requires ControlOk(led)
  {
    && ValidArgs(cmd) && !cmd.Status? && !ControlOf(led).cancelled
    && cmd.nonce == ControlOf(led).nonce && cmd.owner == ControlOf(led).controller && cmd.revision == ControlOf(led).revision
  }

  predicate Current(led: Ledger)
    requires ControlOk(led)
  {
    IntentFile in led && led[IntentFile].IntentRec? && led[IntentFile].intent.revision == ControlOf(led).revision
  }

  predicate Names(cmd: Command, e: Event)
    requires cmd.Acknowledge?
  {
    && e.eventId == cmd.eventId && e.eventRevision == cmd.eventRevision
    && e.payloadHash == cmd.eventHash && e.actionSlot == cmd.actionSlot
  }

  /** What each command asks of the records. */
  predicate Granted(led: Ledger, jobBound: bool, cmd: Command)
    requires ControlOk(led)
  {
    match cmd
    case Status(_) => false
    case Prepare(_, _, _, _, events) => IntentFile !in led && 1 <= |events| <= 8 && ValidEvents(events)
    case TakeClaim(_, _, _) =>
      && Current(led) && !led[IntentFile].intent.uncertain && ClaimFile !in led
      && exists k :: 0 <= k < |led[IntentFile].intent.events| && AckFile(led[IntentFile].intent.events[k].eventId) !in led
    case MarkUncertain(_, _, _) => Current(led)
    case Acknowledge(_, _, _, id, _, _, _, _, _) =>
      && Current(led) && AckFile(id) !in led
      && exists k :: 0 <= k < |led[IntentFile].intent.events| && Names(cmd, led[IntentFile].intent.events[k])
    case Revise(_, _, revision, _) => jobBound && revision < 1000000
  }

  /** The one record a granted command adds or replaces, from its own arguments. */
  function Written(led: Ledger, cmd: Command): (r: Ledger)
    requires ControlOk(led) && (cmd.TakeClaim? || cmd.MarkUncertain? || cmd.Acknowledge? ==> Current(led))
  {
    match cmd
    case Status(_) => led
    case Prepare(nonce, owner, revision, id, events) =>
      led[IntentFile := IntentRec(Intent(id, nonce, owner, 1, revision, false, events,
                                         Digest(id, nonce, owner, 1, revision, events)))]
    case TakeClaim(nonce, owner, revision) =>
      led[ClaimFile := ClaimRec(Claim(led[IntentFile].intent.deliveryId, nonce, owner, revision))]
    case MarkUncertain(_, _, _) => led[IntentFile := IntentRec(led[IntentFile].intent.(uncertain := true))]
    case Acknowledge(nonce, owner, revision, id, eventRevision, hash, slot, command, decision) =>
      led[AckFile(id) := AckRec(Ack(led[IntentFile].intent.deliveryId, nonce, owner, 1, revision, id, eventRevision, hash,
                                    slot, command, decision, 1, if decision == Handled then 1 else 0))]
    case Revise(nonce, owner, revision, cancel) =>
      led[ControlFile := ControlRec(Control(nonce, owner, revision + 1, cancel))]
  }

  /** The record a commit wrote is also its answer. */
  predicate AnswersItself(plan: Plan) {
    plan.Commit? ==>
      match plan.rec
      case ControlRec(c) => plan.output == Revised(c)
      case IntentRec(i) => plan.output == Prepared(i)
      case ClaimRec(cl) => plan.output == Claimed(cl)
      case AckRec(a) => plan.output == Acked(a)
  }

  /** A command commits if and only if it is addressed rightly and granted; it then writes exactly
      that record and answers with it, and otherwise nothing changes. */
  lemma CommitsExactly(led: Ledger, jobBound: bool, cmd: Command)
    requires WellKept(led)
    ensures Decide(led, jobBound, cmd).Commit? <==> Addressed(led, cmd) && Granted(led, jobBound, cmd)
    ensures Committed(led, Decide(led, jobBound, cmd)) ==
            if Addressed(led, cmd) && Granted(led, jobBound, cmd) then Written(led, cmd) else led
    ensures AnswersItself(Decide(led, jobBound, cmd))
  {
    if Addressed(led, cmd) {
      match cmd
      case Prepare(_, _, _, _, _) => PrepareExactly(led, jobBound, cmd);
      case TakeClaim(_, _, _) => ClaimExactly(led, jobBound, cmd);
      case MarkUncertain(_, _, _) => UncertainExactly(led, jobBound, cmd);
      case Acknowledge(_, _, _, _, _, _, _, _, _) => AckExactly(led, jobBound, cmd);
      case Revise(_, _, _, _) => ReviseExactly(led, jobBound, cmd);
      hide Decide, WellKept;
    } else {
      hide WellKept, Granted;
      KeptControl(led);
      if Decide(led, jobBound, cmd).Commit? { DecidesCurrent(led, jobBound, cmd); }
    }
  }

  lemma PrepareExactly(led: Ledger, jobBound: bool, cmd: Command)
    requires WellKept(led) && Addressed(led, cmd) && cmd.Prepare?
    ensures Decide(led, jobBound, cmd).Commit? <==> Granted(led, jobBound, cmd)
    ensures Committed(led, Decide(led, jobBound, cmd)) == if Granted(led, jobBound, cmd) then Written(led, cmd) else led
    ensures AnswersItself(Decide(led, jobBound, cmd))
  {
    hide Safe, ValidEvents;
  }

  lemma ReviseExactly(led: Ledger, jobBound: bool, cmd: Command)
    requires WellKept(led) && Addressed(led, cmd) && cmd.Revise?
    ensures Decide(led, jobBound, cmd).Commit? <==> Granted(led, jobBound, cmd)
    ensures Committed(led, Decide(led, jobBound, cmd)) == if Granted(led, jobBound, cmd) then Written(led, cmd) else led
    ensures AnswersItself(Decide(led, jobBound, cmd))
  {
    hide Safe, ValidEvents;
  }

  lemma ClaimExactly(led: Ledger, jobBound: bool, cmd: Command)
    requires WellKept(led) && Addressed(led, cmd) && cmd.TakeClaim?
    ensures Decide(led, jobBound, cmd).Commit? <==> Granted(led, jobBound, cmd)
    ensures Committed(led, Decide(led, jobBound, cmd)) == if Granted(led, jobBound, cmd) then Written(led, cmd) else led
    ensures AnswersItself(Decide(led, jobBound, cmd))
  {
    ClaimableExactly(led, jobBound);
    SendAllowedMeans(led);
    if IntentFile in led {
      var i := led[IntentFile].intent;
      AcksExactly(led, i, |i.events|);
      assert i.events[..|i.events|] == i.events;
      AllAcked(led, i, |i.events|);
    }
    hide Safe, ValidEvents, AcksOf, SendAllowed, AckOk, AckedEvents, InEventOrder;
  }

  lemma UncertainExactly(led: Ledger, jobBound: bool, cmd: Command)
    requires WellKept(led) && Addressed(led, cmd) && cmd.MarkUncertain?
    ensures Decide(led, jobBound, cmd).Commit? <==> Granted(led, jobBound, cmd)
    ensures Committed(led, Decide(led, jobBound, cmd)) == if Granted(led, jobBound, cmd) then Written(led, cmd) else led
    ensures AnswersItself(Decide(led, jobBound, cmd))
  {
    hide Safe, ValidEvents, AckOk;
  }

  lemma AckExactly(led: Ledger, jobBound: bool, cmd: Command)
    requires WellKept(led) && Addressed(led, cmd) && cmd.Acknowledge?
    ensures Decide(led, jobBound, cmd).Commit? <==> Granted(led, jobBound, cmd)
    ensures Committed(led, Decide(led, jobBound, cmd)) == if Granted(led, jobBound, cmd) then Written(led, cmd) else led
    ensures AnswersItself(Decide(led, jobBound, cmd))
  {
    if Current(led) {
      FoundExactly(led[IntentFile].intent.events, cmd);
      assert AckOk(led, cmd.eventId);
    }
    hide Safe, ValidEvents, FindEvent;
  }

  /** Among events with distinct ids, looking up the id finds the named event or none is named. */
  lemma FoundExactly(events: seq<Event>, cmd: Command)
    requires Distinct(events) && cmd.Acknowledge?
    ensures (exists k :: 0 <= k < |events| && Names(cmd, events[k])) <==>
            FindEvent(events, cmd.eventId).Some? && Names(cmd, FindEvent(events, cmd.eventId).value)
  {
    if k :| 0 <= k < |events| && Names(cmd, events[k]) {
      FindUnique(events, k);
    }
  }

  // ---------- what a report holds ----------

  /** The first n events that have an acknowledgement. */
  function AckedEvents(led: Ledger, i: Intent, n: nat): (r: set<int>)
    requires n <= |i.events|
  {
    set k | 0 <= k < n && AckFile(i.events[k].eventId) in led
  }

  /** The records in `acks` are those of the acknowledged events, each at its event's rank. */
  ghost predicate InEventOrder(led: Ledger, i: Intent, n: nat, acks: seq<Ack>)
    requires n <= |i.events|
  {
    && |acks| == |AckedEvents(led, i, n)|
    && forall k :: k in AckedEvents(led, i, n) ==>
                     && |AckedEvents(led, i, k)| < |acks|
                     && led[AckFile(i.events[k].eventId)] == AckRec(acks[|AckedEvents(led, i, k)|])
  }

  lemma OneMoreAcked(led: Ledger, i: Intent, n: nat)
    requires n < |i.events|
    ensures AckedEvents(led, i, n + 1) ==
            if AckFile(i.events[n].eventId) in led then AckedEvents(led, i, n) + {n} else AckedEvents(led, i, n)
    ensures n !in AckedEvents(led, i, n)
  {
  }

  lemma {:induction false} AllAcked(led: Ledger, i: Intent, n: nat)
    requires n <= |i.events|
    ensures |AckedEvents(led, i, n)| <= n
    ensures |AckedEvents(led, i, n)| < n <==> exists k :: 0 <= k < n && AckFile(i.events[k].eventId) !in led
  {
    if n > 0 {
      AllAcked(led, i, n - 1);
      OneMoreAcked(led, i, n - 1);
      hide AckedEvents;
      if k :| 0 <= k < n - 1 && AckFile(i.events[k].eventId) !in led {
        assert AckFile(i.events[k].eventId) !in led;
      } else if AckFile(i.events[n - 1].eventId) !in led {
        assert 0 <= n - 1 < n;
      }
    }
  }

  /** One more event, with its record or without. */
  lemma OneMoreInOrder(led: Ledger, i: Intent, n: nat, acks: seq<Ack>)
    requires n < |i.events| && InEventOrder(led, i, n, acks)
    ensures AckFile(i.events[n].eventId) !in led ==> InEventOrder(led, i, n + 1, acks)
    ensures AckFile(i.events[n].eventId) in led && led[AckFile(i.events[n].eventId)].AckRec? ==>
              InEventOrder(led, i, n + 1, acks + [led[AckFile(i.events[n].eventId)].ack])
  {
    OneMoreAcked(led, i, n);
    hide AckedEvents;
  }

  /** The reading of the acknowledgements: every stored record once and in event order, and the
      number of events without one. */
  lemma {:induction false} AcksExactly(led: Ledger, i: Intent, n: nat)
    requires WellKept(led) && IntentFile in led && led[IntentFile] == IntentRec(i) && n <= |i.events|
    ensures AcksOf(led, i, i.events[..n]).Ok?
    ensures var (acks, pending) := AcksOf(led, i, i.events[..n]).value;
            InEventOrder(led, i, n, acks) && pending == n - |AckedEvents(led, i, n)|
  {
    hide WellKept, InEventOrder, ReadAck, AckedEvents;
    if n == 0 {
      NoneInOrder(led, i);
    } else {
      AcksExactly(led, i, n - 1);
      StoredRead(led, i, n - 1);
      OneMoreRead(led, i, n - 1);
      OneMoreAcked(led, i, n - 1);
      hide AcksOf;
      OneMoreInOrder(led, i, n - 1, AcksOf(led, i, i.events[..n - 1]).value.0);
    }
  }

  lemma NoneInOrder(led: Ledger, i: Intent)
    ensures AckedEvents(led, i, 0) == {} && InEventOrder(led, i, 0, [])
  {
  }

  /** Reading one more event reads what comes before it first. */
  lemma OneMoreRead(led: Ledger, i: Intent, n: nat)
    requires n < |i.events| && AcksOf(led, i, i.events[..n]).Ok?
    ensures var (acks, pending) := AcksOf(led, i, i.events[..n]).value;
            AcksOf(led, i, i.events[..n + 1]) ==
            match ReadAck(led, i, i.events[n])
            case Err(e) => Err(e)
            case Ok(None) => Ok((acks, pending + 1))
            case Ok(Some(a)) => Ok((acks + [a], pending))
  {
    hide ReadAck;
    assert i.events[..n + 1][..n] == i.events[..n];
  }

  lemma StoredRead(led: Ledger, i: Intent, k: nat)
    requires WellKept(led) && IntentFile in led && led[IntentFile] == IntentRec(i) && k < |i.events|
    ensures var file := AckFile(i.events[k].eventId);
            && (file in led ==> led[file].AckRec?)
            && ReadAck(led, i, i.events[k]) == Ok(if file in led then Some(led[file].ack) else None)
  {
    FindUnique(i.events, k);
    assert AckOk(led, i.events[k].eventId);
    hide FindEvent, Safe, SafeHash;
  }

  /** A status call reports, for whoever knows the nonce and once there is an intent: the records in
      event order, the number of events still without one, and sending as allowed exactly while the
      intent is certain, current, unclaimed and not finished, in a task that is not cancelled. */
  lemma ReportExactly(led: Ledger, jobBound: bool, nonce: string)
    requires WellKept(led)
    ensures var plan, c := Decide(led, jobBound, Status(nonce)), ControlOf(led);
            && (plan.Answer? <==> IntentFile in led && nonce == c.nonce) && !plan.Commit?
            && (plan.Answer? ==>
                  var i := led[IntentFile].intent;
                  && plan.output.Reported?
                  && var r := plan.output.report;
                     && r.deliveryId == i.deliveryId && r.revision == i.revision && r.ready == !i.uncertain
                     && (r.claimed <==> ClaimFile in led) && r.cancelled == c.cancelled && (r.stale <==> c.revision != i.revision)
                     && InEventOrder(led, i, |i.events|, r.acks) && r.pending == |i.events| - |AckedEvents(led, i, |i.events|)|
                     && (r.sendAllowed <==> r.ready && !r.claimed && !r.cancelled && !r.stale && |r.acks| < |i.events|))
  {
    if IntentFile in led {
      var i := led[IntentFile].intent;
      AcksExactly(led, i, |i.events|);
      assert i.events[..|i.events|] == i.events;
    }
    hide Safe, SafeHash, ValidEvents, AcksOf, AckOk, AckedEvents;
  }
}
