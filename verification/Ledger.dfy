/** The batch ledger: one intent, at most one send claim and one decision per event, every
    command decided from the published records under the control lock. */
module LedgerSpec {
  import opened Bytes

  datatype Kind = Progress | Question | Outcome | OtherKind(text: string)

  datatype Decision = Handled | WaitingUser | Stale | Rejected | OtherDecision(text: string)

  datatype Event = Event(eventId: string, eventRevision: int, kind: Kind, payloadHash: string, actionSlot: string)

  /** SHA-256 over the canonical fields, taken as injective: state and hash are left out of it. */
  datatype Digest = Digest(
    deliveryId: string, nonce: string, controller: string, epoch: int, revision: int, events: seq<Event>)

  datatype Intent = Intent(
    deliveryId: string, nonce: string, controller: string, epoch: int, revision: int, uncertain: bool,
    events: seq<Event>, hash: Digest)

  datatype Ack = Ack(
    deliveryId: string, nonce: string, controller: string, epoch: int, revision: int, eventId: string,
    eventRevision: int, eventHash: string, actionSlot: string, commandId: string, decision: Decision,
    decisionCount: int, effectCount: int)

  datatype Claim = Claim(deliveryId: string, nonce: string, controller: string, revision: int)

  datatype Control = Control(nonce: string, controller: string, revision: int, cancelled: bool)

  datatype Rec = ControlRec(control: Control) | IntentRec(intent: Intent) | ClaimRec(claim: Claim) | AckRec(ack: Ack)

  datatype Name = ControlFile | ControlRevise | IntentFile | ClaimFile | AckFile(eventId: string)

  /** The published records of one task directory. */
  type Ledger = map<Name, Rec>

  datatype Error =
    | ControlMissing | NonceMismatch | InvalidArtifact | OwnerMismatch | Cancelled | StaleRevision
    | InvalidArgs | IntentExists | IntentMissing | TransportUncertain | ClaimExists | BatchComplete
    | EventMismatch | DecisionConflict | RevisionLimit | JobMissing

  datatype Command =
    | Status(nonce: string)
    | Prepare(nonce: string, owner: string, revision: int, deliveryId: string, events: seq<Event>)
    | TakeClaim(nonce: string, owner: string, revision: int)
    | MarkUncertain(nonce: string, owner: string, revision: int)
    | Acknowledge(nonce: string, owner: string, revision: int, eventId: string, eventRevision: int,
                  eventHash: string, actionSlot: string, commandId: string, decision: Decision)
    | Revise(nonce: string, owner: string, revision: int, cancel: bool)

  datatype StatusReport = StatusReport(
    deliveryId: string, revision: int, ready: bool, claimed: bool, pending: nat, acks: seq<Ack>,
    cancelled: bool, stale: bool, sendAllowed: bool)

  datatype Output =
    | Reported(report: StatusReport) | Prepared(intent: Intent) | Claimed(claim: Claim)
    | Acked(ack: Ack) | Revised(control: Control)

  /** What a command decides to do: refuse, answer, or commit one record and answer. */
  datatype Plan = Refuse(error: Error) | Answer(output: Output) | Commit(name: Name, rec: Rec, output: Output)

  // ---------- validity ----------

  predicate SafeChar(c: char) {
    'a' <= c <= 'z' || 'A' <= c <= 'Z' || '0' <= c <= '9' || c == '_' || c == '-'
  }

  predicate Safe(s: string) {
    1 <= |s| <= 64 && forall i :: 0 <= i < |s| ==> SafeChar(s[i])
  }

  predicate SafeHash(s: string) {
    |s| == 64 && forall i :: 0 <= i < |s| ==> '0' <= s[i] <= '9' || 'a' <= s[i] <= 'f'
  }

  predicate ValidRevision(n: int) {
    1 <= n <= 1000000
  }

  predicate ValidDecision(d: Decision) {
    !d.OtherDecision?
  }

  function EffectCount(d: Decision): int {
    if d == Handled then 1 else 0
  }

  predicate ValidEvent(e: Event) {
    Safe(e.eventId) && ValidRevision(e.eventRevision) && !e.kind.OtherKind? && SafeHash(e.payloadHash) && Safe(e.actionSlot)
  }

  predicate Distinct(events: seq<Event>) {
    forall i, j :: 0 <= i < j < |events| ==>
                     events[i].eventId != events[j].eventId && events[i].actionSlot != events[j].actionSlot
  }

  predicate ValidEvents(events: seq<Event>) {
    (forall i :: 0 <= i < |events| ==> ValidEvent(events[i])) && Distinct(events)
  }

  /** `validateBatchEvents`: one pass with the two sets of what was seen. */
  method CheckEvents(events: seq<Event>) returns (ok: bool)
    ensures ok <==> ValidEvents(events)
  {
    var ids: set<string>, slots: set<string> := {}, {};
    for k := 0 to |events|
      invariant ids == set i | 0 <= i < k :: events[i].eventId
      invariant slots == set i | 0 <= i < k :: events[i].actionSlot
      invariant ValidEvents(events[..k])
    {
      var e := events[k];
      assert events[..k + 1] == events[..k] + [e];
      if !ValidEvent(e) || e.eventId in ids || e.actionSlot in slots {
        if !ValidEvent(e) {
          assert !ValidEvents(events);
        } else if e.eventId in ids {
          var i :| 0 <= i < k && events[i].eventId == e.eventId;
        } else {
          var i :| 0 <= i < k && events[i].actionSlot == e.actionSlot;
        }
        return false;
      }
      ids, slots := ids + {e.eventId}, slots + {e.actionSlot};
    }
    assert events[..|events|] == events;
    ok := true;
  }

  function BatchHash(i: Intent): Digest {
    Digest(i.deliveryId, i.nonce, i.controller, i.epoch, i.revision, i.events)
  }

  predicate ValidIntent(c: Control, i: Intent) {
    && Safe(i.deliveryId) && i.nonce == c.nonce && i.controller == c.controller && i.epoch == 1
    && ValidRevision(i.revision) && i.hash == BatchHash(i) && 1 <= |i.events| <= 8 && ValidEvents(i.events)
  }

  predicate ValidAck(i: Intent, e: Event, a: Ack) {
    && a.deliveryId == i.deliveryId && a.nonce == i.nonce && a.controller == i.controller && a.epoch == i.epoch
    && a.revision == i.revision && a.eventId == e.eventId && a.eventRevision == e.eventRevision
    && a.eventHash == e.payloadHash && a.actionSlot == e.actionSlot && Safe(a.commandId)
    && ValidDecision(a.decision) && a.decisionCount == 1 && a.effectCount == EffectCount(a.decision)
  }

  predicate ValidClaim(i: Intent, cl: Claim) {
    cl == Claim(i.deliveryId, i.nonce, i.controller, i.revision)
  }

  /** Bounds that argument parsing enforces. */
  predicate ValidArgs(cmd: Command) {
    match cmd
    case Status(_) => true
    case Prepare(_, _, revision, id, _) => ValidRevision(revision) && Safe(id)
    case TakeClaim(_, _, revision) => ValidRevision(revision)
    case MarkUncertain(_, _, revision) => ValidRevision(revision)
    case Acknowledge(_, _, revision, id, er, hash, slot, command, decision) =>
      && ValidRevision(revision) && Safe(id) && ValidRevision(er) && SafeHash(hash) && Safe(slot) && Safe(command)
      && ValidDecision(decision)
    case Revise(_, _, revision, _) => ValidRevision(revision)
  }

  // ---------- reading ----------

  datatype Result<T> = Ok(value: T) | Err(error: Error)

  function ReadControl(led: Ledger, nonce: string): (r: Result<Control>) {
    if ControlFile !in led then Err(ControlMissing)
    else
      match led[ControlFile]
      case ControlRec(c) =>
        if c.nonce != nonce then Err(NonceMismatch)
        else if !Safe(c.controller) || !ValidRevision(c.revision) then Err(InvalidArtifact)
        else Ok(c)
      case _ => Err(InvalidArtifact)
  }

  function ReadIntent(led: Ledger, c: Control): (r: Result<Intent>) {
    if IntentFile !in led then Err(IntentMissing)
    else
      match led[IntentFile]
      case IntentRec(i) => if ValidIntent(c, i) then Ok(i) else Err(InvalidArtifact)
      case _ => Err(InvalidArtifact)
  }

  /** Present and valid, absent, or present and invalid. */
  function ReadAck(led: Ledger, i: Intent, e: Event): (r: Result<Option<Ack>>) {
    if AckFile(e.eventId) !in led then Ok(None)
    else
      match led[AckFile(e.eventId)]
      case AckRec(a) => if ValidAck(i, e, a) then Ok(Some(a)) else Err(InvalidArtifact)
      case _ => Err(InvalidArtifact)
  }

  function ReadClaim(led: Ledger, i: Intent): (r: Result<Option<Claim>>) {
    if ClaimFile !in led then Ok(None)
    else
      match led[ClaimFile]
      case ClaimRec(cl) => if ValidClaim(i, cl) then Ok(Some(cl)) else Err(InvalidArtifact)
      case _ => Err(InvalidArtifact)
  }

  /** The acknowledged records in event order and the number of events without one. */
  function AcksOf(led: Ledger, i: Intent, events: seq<Event>): (r: Result<(seq<Ack>, nat)>) {
    if events == [] then Ok(([], 0))
    else
      match AcksOf(led, i, events[..|events| - 1])
      case Err(e) => Err(e)
      case Ok((acks, pending)) =>
        match ReadAck(led, i, events[|events| - 1])
        case Err(e) => Err(e)
        case Ok(None) => Ok((acks, pending + 1))
        case Ok(Some(a)) => Ok((acks + [a], pending))
  }

  /** `batchAcks`, as the loop it is. */
  method BatchAcks(led: Ledger, i: Intent) returns (r: Result<(seq<Ack>, nat)>)
    ensures r == AcksOf(led, i, i.events)
    ensures r.Ok? ==> |r.value.0| + r.value.1 == |i.events|
  {
    var acks: seq<Ack>, pending: nat := [], 0;
    for k := 0 to |i.events|
      invariant AcksOf(led, i, i.events[..k]) == Ok((acks, pending))
      invariant |acks| + pending == k
    {
      var next := ReadAck(led, i, i.events[k]);
      assert i.events[..k + 1][..k] == i.events[..k] && i.events[..k + 1][k] == i.events[k];
      if next.Err? {
        FirstError(led, i, k + 1, |i.events|);
        assert i.events[..|i.events|] == i.events;
        return Err(next.error);
      }
      if next.value.None? { pending := pending + 1; } else { acks := acks + [next.value.value]; }
    }
    assert i.events[..|i.events|] == i.events;
    r := Ok((acks, pending));
  }

  lemma {:induction false} FirstError(led: Ledger, i: Intent, k: nat, n: nat)
    requires k <= n <= |i.events| && AcksOf(led, i, i.events[..k]).Err?
    ensures AcksOf(led, i, i.events[..n]) == AcksOf(led, i, i.events[..k])
    decreases n - k
  {
    if k < n {
      FirstError(led, i, k, n - 1);
      assert i.events[..n][..n - 1] == i.events[..n - 1];
    }
  }

  // ---------- deciding ----------

  function FindEvent(events: seq<Event>, id: string): (r: Option<Event>)
    ensures r.Some? ==> r.value in events && r.value.eventId == id
    ensures r.None? ==> forall e :: e in events ==> e.eventId != id
  {
    if events == [] then None
    else if events[0].eventId == id then Some(events[0])
    else FindEvent(events[1..], id)
  }

  function DecideStatus(led: Ledger, c: Control): (r: Plan) {
    match ReadIntent(led, c)
    case Err(e) => Refuse(e)
    case Ok(i) =>
      match AcksOf(led, i, i.events)
      case Err(e) => Refuse(e)
      case Ok((acks, pending)) =>
        match ReadClaim(led, i)
        case Err(e) => Refuse(e)
        case Ok(cl) =>
          Answer(Reported(StatusReport(
                            i.deliveryId, i.revision, !i.uncertain, cl.Some?, pending, acks, c.cancelled, c.revision != i.revision,
                            !i.uncertain && cl.None? && pending > 0 && !c.cancelled && c.revision == i.revision)))
  }

  function DecidePrepare(led: Ledger, c: Control, deliveryId: string, events: seq<Event>): (r: Plan) {
    if IntentFile in led then Refuse(IntentExists)
    else if !(1 <= |events| <= 8) || !ValidEvents(events) || !Safe(deliveryId) then Refuse(InvalidArgs)
    else
      var bare := Intent(deliveryId, c.nonce, c.controller, 1, c.revision, false, events,
                         Digest(deliveryId, c.nonce, c.controller, 1, c.revision, events));
      Commit(IntentFile, IntentRec(bare), Prepared(bare))
  }

  function DecideClaim(led: Ledger, i: Intent): (r: Plan) {
    if i.uncertain then Refuse(TransportUncertain)
    else
      match ReadClaim(led, i)
      case Err(e) => Refuse(e)
      case Ok(Some(_)) => Refuse(ClaimExists)
      case Ok(None) =>
        match AcksOf(led, i, i.events)
        case Err(e) => Refuse(e)
        case Ok((_, pending)) =>
          if pending == 0 then Refuse(BatchComplete)
          else
            var cl := Claim(i.deliveryId, i.nonce, i.controller, i.revision);
            Commit(ClaimFile, ClaimRec(cl), Claimed(cl))
  }

  function DecideAck(led: Ledger, i: Intent, cmd: Command): (r: Plan)
    requires cmd.Acknowledge?
  {
    var found := FindEvent(i.events, cmd.eventId);
    if found.None? || found.value.eventRevision != cmd.eventRevision || found.value.payloadHash != cmd.eventHash
       || found.value.actionSlot != cmd.actionSlot then Refuse(EventMismatch)
    else
      var e := found.value;
      match ReadAck(led, i, e)
      case Err(err) => Refuse(err)
      case Ok(Some(a)) => if a.decision != cmd.decision then Refuse(DecisionConflict) else Answer(Acked(a))
      case Ok(None) =>
        var a := Ack(i.deliveryId, i.nonce, i.controller, i.epoch, i.revision, e.eventId, e.eventRevision,
                     e.payloadHash, e.actionSlot, cmd.commandId, cmd.decision, 1, EffectCount(cmd.decision));
        Commit(AckFile(e.eventId), AckRec(a), Acked(a))
  }

  function DecideRevise(jobBound: bool, c: Control, cancel: bool): (r: Plan) {
    if !jobBound then Refuse(JobMissing)
    else if !ValidRevision(c.revision + 1) then Refuse(RevisionLimit)
    else
      var next := c.(revision := c.revision + 1, cancelled := cancel);
      Commit(ControlFile, ControlRec(next), Revised(next))
  }

  /** One command under the lock; `jobBound` says whether the task's own job record is in place. */
  function Decide(led: Ledger, jobBound: bool, cmd: Command): (r: Plan) {
    if !ValidArgs(cmd) then Refuse(InvalidArgs)
    else
      match ReadControl(led, cmd.nonce)
      case Err(e) => Refuse(e)
      case Ok(c) =>
        if cmd.Status? then DecideStatus(led, c)
        else if c.controller != cmd.owner then Refuse(OwnerMismatch)
        else if c.cancelled then Refuse(Cancelled)
        else if c.revision != cmd.revision then Refuse(StaleRevision)
        else if cmd.Revise? then DecideRevise(jobBound, c, cmd.cancel)
        else if cmd.Prepare? then DecidePrepare(led, c, cmd.deliveryId, cmd.events)
        else
          match ReadIntent(led, c)
          case Err(e) => Refuse(e)
          case Ok(i) =>
            if i.revision != c.revision then Refuse(StaleRevision)
            else if cmd.TakeClaim? then DecideClaim(led, i)
            else if cmd.MarkUncertain? then
              var j := i.(uncertain := true);
              Commit(IntentFile, IntentRec(j), Prepared(j))
            else DecideAck(led, i, cmd)
  }

  function Committed(led: Ledger, plan: Plan): (r: Ledger) {
    if plan.Commit? then led[plan.name := plan.rec] else led
  }

  /** A process may die before its one commit, or after it and before its answer. */
  datatype Fate = Finishes | DiesBefore | DiesAfter

  function Execute(led: Ledger, jobBound: bool, cmd: Command, fate: Fate): (r: Ledger) {
    if fate == DiesBefore then led else Committed(led, Decide(led, jobBound, cmd))
  }
}
