/** Write-once decisions, a single claim, and a permission to send that never comes back, over
    every run of commands with death before or after any commit. */
module LedgerLaws {
  import opened Bytes
  import opened LedgerSpec

  // ---------- the invariant ----------

  function ControlOf(led: Ledger): (c: Control)
    requires ControlFile in led && led[ControlFile].ControlRec?
  {
    led[ControlFile].control
  }

  predicate ControlOk(led: Ledger) {
    ControlFile in led && led[ControlFile].ControlRec? &&
    Safe(ControlOf(led).controller) && ValidRevision(ControlOf(led).revision)
  }

  predicate IntentOk(led: Ledger)
    requires ControlOk(led)
  {
    IntentFile in led ==>
      led[IntentFile].IntentRec? && ValidIntent(ControlOf(led), led[IntentFile].intent)
      && led[IntentFile].intent.revision <= ControlOf(led).revision
  }

  predicate ClaimOk(led: Ledger) {
    ClaimFile in led ==>
      && IntentFile in led && led[IntentFile].IntentRec? && led[ClaimFile].ClaimRec?
      && ValidClaim(led[IntentFile].intent, led[ClaimFile].claim)
  }

  predicate AckOk(led: Ledger, id: string) {
    AckFile(id) in led ==>
      && IntentFile in led && led[IntentFile].IntentRec? && led[AckFile(id)].AckRec?
      && var found := FindEvent(led[IntentFile].intent.events, id);
         found.Some? && ValidAck(led[IntentFile].intent, found.value, led[AckFile(id)].ack)
  }

  ghost predicate WellKept(led: Ledger) {
    && ControlOk(led) && IntentOk(led) && ClaimOk(led)
    && forall id :: AckOk(led, id)
  }

  function Opened(nonce: string, controller: string): Ledger {
    map[ControlFile := ControlRec(Control(nonce, controller, 1, false))]
  }

  lemma OpenedWellKept(nonce: string, controller: string)
    requires Safe(controller)
    ensures WellKept(Opened(nonce, controller))
  {
  }

  lemma {:induction false} FindUnique(events: seq<Event>, k: nat)
    requires Distinct(events) && k < |events|
    ensures FindEvent(events, events[k].eventId) == Some(events[k])
  {
    if k > 0 {
      assert events[0].eventId != events[k].eventId;
      FindUnique(events[1..], k - 1);
    }
  }

  /** In a well-kept ledger no reading fails. */
  lemma {:induction false} AcksReadable(led: Ledger, i: Intent, n: nat)
    requires WellKept(led) && IntentFile in led && led[IntentFile] == IntentRec(i) && n <= |i.events|
    ensures AcksOf(led, i, i.events[..n]).Ok?
    ensures |AcksOf(led, i, i.events[..n]).value.0| + AcksOf(led, i, i.events[..n]).value.1 == n
  {
    if n > 0 {
      AcksReadable(led, i, n - 1);
      assert i.events[..n][..n - 1] == i.events[..n - 1];
      FindUnique(i.events, n - 1);
      assert AckOk(led, i.events[n - 1].eventId);
    }
  }

  lemma AllAcksReadable(led: Ledger, i: Intent)
    requires WellKept(led) && IntentFile in led && led[IntentFile] == IntentRec(i)
    ensures AcksOf(led, i, i.events).Ok?
    ensures |AcksOf(led, i, i.events).value.0| + AcksOf(led, i, i.events).value.1 == |i.events|
  {
    AcksReadable(led, i, |i.events|);
    assert i.events[..|i.events|] == i.events;
  }

  // ---------- what one command may change ----------

  predicate SameIntent(a: Intent, b: Intent) {
    b == a || b == a.(uncertain := true)
  }

  /** Claims and acknowledgements stay as they are, the intent may only turn uncertain, the
      revision only rises, and cancellation is final. */
  ghost predicate Extends(a: Ledger, b: Ledger)
    requires ControlOk(a) && ControlOk(b)
  {
    && (forall n :: n in a && (n.ClaimFile? || n.AckFile?) ==> n in b && b[n] == a[n])
    && (IntentFile in a && a[IntentFile].IntentRec? ==>
          IntentFile in b && b[IntentFile].IntentRec? && SameIntent(a[IntentFile].intent, b[IntentFile].intent))
    && ControlOf(a).nonce == ControlOf(b).nonce && ControlOf(a).controller == ControlOf(b).controller
    && ControlOf(a).revision <= ControlOf(b).revision
    && (ControlOf(a).cancelled ==> ControlOf(b) == ControlOf(a))
  }

  lemma ExtendsTwice(a: Ledger, b: Ledger, c: Ledger)
    requires ControlOk(a) && ControlOk(b) && ControlOk(c) && Extends(a, b) && Extends(b, c)
    ensures Extends(a, c)
  {
  }

  /** A command that is not refused has read a valid, current control record. */
  lemma DecidesCurrent(led: Ledger, jobBound: bool, cmd: Command)
    requires ControlOk(led) && Decide(led, jobBound, cmd).Commit?
    ensures var c := ControlOf(led);
            && !cmd.Status? && !c.cancelled && c.controller == cmd.owner && c.revision == cmd.revision && c.nonce == cmd.nonce
            && ReadControl(led, cmd.nonce) == Ok(c) && ValidArgs(cmd)
            && (cmd.TakeClaim? || cmd.MarkUncertain? || cmd.Acknowledge? ==>
                  ReadIntent(led, c).Ok? && ReadIntent(led, c).value.revision == c.revision)
  {
    hide ValidIntent, ValidArgs, DecideStatus, DecidePrepare, DecideRevise, DecideClaim, DecideAck;
    StatusNeverCommits(led, ControlOf(led));
  }

  lemma StatusNeverCommits(led: Ledger, c: Control)
    ensures !DecideStatus(led, c).Commit?
  {
    hide ValidIntent, ReadClaim, AcksOf;
  }

  lemma ExecuteKeeps(led: Ledger, jobBound: bool, cmd: Command, fate: Fate)
    requires WellKept(led)
    ensures WellKept(Execute(led, jobBound, cmd, fate)) && Extends(led, Execute(led, jobBound, cmd, fate))
  {
    var plan := Decide(led, jobBound, cmd);
    if fate != DiesBefore && plan.Commit? {
      DecidesCurrent(led, jobBound, cmd);
      match cmd
      case Prepare(_, _, _, id, events) => PrepareKeeps(led, id, events);
      case TakeClaim(_, _, _) => ClaimKeeps(led, jobBound, cmd);
      case MarkUncertain(_, _, _) => UncertainKeeps(led, jobBound, cmd);
      case Acknowledge(_, _, _, _, _, _, _, _, _) => AckKeeps(led, jobBound, cmd);
      case Revise(_, _, _, cancel) => ReviseKeeps(led, jobBound, cancel);
      hide Decide, WellKept;
    }
  }

  lemma PrepareKeeps(led: Ledger, id: string, events: seq<Event>)
    requires WellKept(led) && !ControlOf(led).cancelled && DecidePrepare(led, ControlOf(led), id, events).Commit?
    ensures var next := Committed(led, DecidePrepare(led, ControlOf(led), id, events));
            WellKept(next) && Extends(led, next)
  {
    hide Safe, SafeHash, ValidEvents;
    var next := Committed(led, DecidePrepare(led, ControlOf(led), id, events));
    forall x ensures AckOk(next, x) { assert AckOk(led, x); }
  }

  lemma ReviseKeeps(led: Ledger, jobBound: bool, cancel: bool)
    requires WellKept(led) && !ControlOf(led).cancelled && DecideRevise(jobBound, ControlOf(led), cancel).Commit?
    ensures var next := Committed(led, DecideRevise(jobBound, ControlOf(led), cancel));
            && WellKept(next) && Extends(led, next) && next - {ControlFile} == led - {ControlFile}
            && ControlOf(next).revision == ControlOf(led).revision + 1 && ControlOf(next).cancelled == cancel
  {
    hide Safe, SafeHash, ValidEvents;
    var next := Committed(led, DecideRevise(jobBound, ControlOf(led), cancel));
    forall x ensures AckOk(next, x) { assert AckOk(led, x); }
  }

  lemma ClaimKeeps(led: Ledger, jobBound: bool, cmd: Command)
    requires WellKept(led) && cmd.TakeClaim? && Decide(led, jobBound, cmd).Commit? && !ControlOf(led).cancelled
    requires ReadControl(led, cmd.nonce) == Ok(ControlOf(led)) && ReadIntent(led, ControlOf(led)).Ok?
    ensures var next := Committed(led, Decide(led, jobBound, cmd));
            WellKept(next) && Extends(led, next) && ClaimFile !in led && ClaimFile in next
  {
    var i := ReadIntent(led, ControlOf(led)).value;
    assert Decide(led, jobBound, cmd) == DecideClaim(led, i);
    hide Safe, SafeHash, ValidEvents, ValidIntent, Decide, AcksOf;
    var next := Committed(led, DecideClaim(led, i));
    forall x ensures AckOk(next, x) { assert AckOk(led, x); }
  }

  lemma UncertainKeeps(led: Ledger, jobBound: bool, cmd: Command)
    requires WellKept(led) && cmd.MarkUncertain? && Decide(led, jobBound, cmd).Commit? && !ControlOf(led).cancelled
    requires ReadControl(led, cmd.nonce) == Ok(ControlOf(led)) && ReadIntent(led, ControlOf(led)).Ok?
    ensures var next := Committed(led, Decide(led, jobBound, cmd));
            && WellKept(next) && Extends(led, next)
            && next == led[IntentFile := IntentRec(led[IntentFile].intent.(uncertain := true))]
            && next[IntentFile].intent.hash == led[IntentFile].intent.hash
  {
    var i := ReadIntent(led, ControlOf(led)).value;
    assert Decide(led, jobBound, cmd) == Commit(IntentFile, IntentRec(i.(uncertain := true)), Prepared(i.(uncertain := true)));
    hide Safe, SafeHash, ValidEvents, Decide;
    var next := led[IntentFile := IntentRec(i.(uncertain := true))];
    forall x ensures AckOk(next, x) { assert AckOk(led, x); }
  }

  lemma AckKeeps(led: Ledger, jobBound: bool, cmd: Command)
    requires WellKept(led) && cmd.Acknowledge? && Decide(led, jobBound, cmd).Commit? && !ControlOf(led).cancelled
    requires ReadControl(led, cmd.nonce) == Ok(ControlOf(led)) && ReadIntent(led, ControlOf(led)).Ok? && ValidArgs(cmd)
    ensures var next := Committed(led, Decide(led, jobBound, cmd));
            WellKept(next) && Extends(led, next) && AckFile(cmd.eventId) !in led
  {
    var i := ReadIntent(led, ControlOf(led)).value;
    assert Decide(led, jobBound, cmd) == DecideAck(led, i, cmd);
    hide Safe, SafeHash, ValidEvents, ValidIntent, Decide, FindEvent;
    var next := Committed(led, DecideAck(led, i, cmd));
    forall x ensures AckOk(next, x) { assert AckOk(led, x); }
  }

  // ---------- runs ----------

  datatype Step = Step(cmd: Command, fate: Fate, jobBound: bool)

  function Run(led: Ledger, steps: seq<Step>): (r: Ledger) {
    if steps == [] then led
    else
      var s := steps[|steps| - 1];
      Execute(Run(led, steps[..|steps| - 1]), s.jobBound, s.cmd, s.fate)
  }

  /** Over every run: records stay valid, and what was decided, claimed or cancelled stays so. */
  lemma {:induction false} RunKeeps(led: Ledger, steps: seq<Step>)
    requires WellKept(led)
    ensures WellKept(Run(led, steps)) && Extends(led, Run(led, steps))
    decreases |steps|
  {
    if steps != [] {
      var front, s := steps[..|steps| - 1], steps[|steps| - 1];
      RunKeeps(led, front);
      ExecuteKeeps(Run(led, front), s.jobBound, s.cmd, s.fate);
      hide Execute, AckOk, IntentOk, ClaimOk;
      ExtendsTwice(led, Run(led, front), Run(led, steps));
    }
  }

  /** Write once: an acknowledged event keeps its record and its decision for good. */
  lemma {:induction false} WriteOnce(led: Ledger, steps: seq<Step>, id: string)
    requires WellKept(led) && AckFile(id) in led
    ensures AckFile(id) in Run(led, steps) && Run(led, steps)[AckFile(id)] == led[AckFile(id)]
  {
    RunKeeps(led, steps);
    hide AckOk, IntentOk, ClaimOk;
  }

  /** Acknowledging again: the same decision returns the stored record, another one is refused,
      and neither writes anything. */
  lemma AcknowledgeAgain(led: Ledger, jobBound: bool, cmd: Command)
    requires WellKept(led) && cmd.Acknowledge? && ValidArgs(cmd)
    requires AckFile(cmd.eventId) in led && AckOk(led, cmd.eventId)
    requires var c := ControlOf(led);
             cmd.nonce == c.nonce && cmd.owner == c.controller && cmd.revision == c.revision && !c.cancelled
    requires led[IntentFile].intent.revision == ControlOf(led).revision
    requires var a := led[AckFile(cmd.eventId)].ack;
             cmd.eventRevision == a.eventRevision && cmd.eventHash == a.eventHash && cmd.actionSlot == a.actionSlot
    ensures Decide(led, jobBound, cmd) ==
            if cmd.decision == led[AckFile(cmd.eventId)].ack.decision then Answer(Acked(led[AckFile(cmd.eventId)].ack))
            else Refuse(DecisionConflict)
  {
    assert AckOk(led, cmd.eventId);
    hide Safe, SafeHash, ValidEvents;
  }

  /** What the command at position i of a run answers to an acknowledgement, if it lives to. */
  function AnswerAt(led: Ledger, steps: seq<Step>, i: nat): (r: Option<Ack>)
    requires i < |steps|
  {
    var s := steps[i];
    if !s.cmd.Acknowledge? || s.fate != Finishes then None
    else
      match Decide(Run(led, steps[..i]), s.jobBound, s.cmd)
      case Answer(Acked(a)) => Some(a)
      case Commit(_, _, Acked(a)) => Some(a)
      case _ => None
  }

  /** An answer is the stored record, stored before or by this command. */
  lemma AnswerIsStored(led: Ledger, jobBound: bool, cmd: Command, a: Ack)
    requires WellKept(led) && cmd.Acknowledge?
    requires var plan := Decide(led, jobBound, cmd); (plan.Answer? || plan.Commit?) && plan.output == Acked(a)
    ensures var next := Committed(led, Decide(led, jobBound, cmd));
            AckFile(cmd.eventId) in next && next[AckFile(cmd.eventId)] == AckRec(a)
    ensures AckFile(cmd.eventId) in led ==> led[AckFile(cmd.eventId)] == AckRec(a)
  {
    hide Safe, SafeHash, ValidEvents, ValidIntent, WellKept;
  }

  lemma {:induction false} RunOn(led: Ledger, a: seq<Step>, b: seq<Step>)
    ensures Run(led, a + b) == Run(Run(led, a), b)
    decreases |b|
  {
    hide Execute;
    if b == [] {
      assert a + b == a;
    } else {
      assert (a + b)[..|a + b| - 1] == a + b[..|b| - 1];
      RunOn(led, a, b[..|b| - 1]);
    }
  }

  /** Any two answers to acknowledgements of one event, at any two moments of any run, carry the
      same record, whoever asked, under whatever command id and with whatever death in between. */
  lemma {:induction false} OneAnswer(led: Ledger, steps: seq<Step>, i: nat, j: nat)
    requires WellKept(led) && i < j < |steps|
    requires AnswerAt(led, steps, i).Some? && AnswerAt(led, steps, j).Some?
    requires steps[i].cmd.eventId == steps[j].cmd.eventId
    ensures AnswerAt(led, steps, i) == AnswerAt(led, steps, j)
  {
    hide WellKept, Decide, Extends, AnswerAt, Execute;
    StoredByAnswer(led, steps, i);
    StoredByAnswer(led, steps, j);
    var after := Run(led, steps[..i + 1]);
    RunKeeps(led, steps[..i + 1]);
    assert steps[..j] == steps[..i + 1] + steps[i + 1..j];
    RunOn(led, steps[..i + 1], steps[i + 1..j]);
    WriteOnce(after, steps[i + 1..j], steps[i].cmd.eventId);
  }

  /** Behind an answer the record is stored, and if it was there before, it is the same. */
  lemma StoredByAnswer(led: Ledger, steps: seq<Step>, i: nat)
    requires WellKept(led) && i < |steps| && AnswerAt(led, steps, i).Some?
    ensures steps[i].cmd.Acknowledge?
    ensures var file, a := AckFile(steps[i].cmd.eventId), AckRec(AnswerAt(led, steps, i).value);
            && file in Run(led, steps[..i + 1]) && Run(led, steps[..i + 1])[file] == a
            && (file in Run(led, steps[..i]) ==> Run(led, steps[..i])[file] == a)
  {
    hide WellKept, Decide, Extends;
    RunKeeps(led, steps[..i]);
    AnswerIsStored(Run(led, steps[..i]), steps[i].jobBound, steps[i].cmd, AnswerAt(led, steps, i).value);
    assert steps[..i + 1][..i] == steps[..i];
  }

  /** The effects of the acknowledged events, each worth what its record says. */
  function EffectTotal(led: Ledger, i: Intent, n: nat): (r: int)
    requires n <= |i.events|
  {
    if n == 0 then 0
    else
      EffectTotal(led, i, n - 1) +
      match ReadAck(led, i, i.events[n - 1])
      case Ok(Some(a)) => a.effectCount
      case _ => 0
  }

  /** The indices of the events acknowledged as handled. */
  function HandledEvents(led: Ledger, i: Intent, n: nat): (r: set<int>)
    requires n <= |i.events|
  {
    set k | 0 <= k < n && AckFile(i.events[k].eventId) in led && led[AckFile(i.events[k].eventId)].AckRec? &&
            led[AckFile(i.events[k].eventId)].ack.decision == Handled
  }

  /** Conservation: the effects add up to exactly the number of events acknowledged as handled. */
  lemma {:induction false} EffectsAreHandled(led: Ledger, i: Intent, n: nat)
    requires WellKept(led) && IntentFile in led && led[IntentFile] == IntentRec(i) && n <= |i.events|
    ensures EffectTotal(led, i, n) == |HandledEvents(led, i, n)|
  {
    if n > 0 {
      hide HandledEvents, ReadAck, WellKept;
      EffectsAreHandled(led, i, n - 1);
      OneMoreHandled(led, i, n);
      AckWorth(led, i, n - 1);
    }
  }

  lemma OneMoreHandled(led: Ledger, i: Intent, n: nat)
    requires 0 < n <= |i.events|
    ensures |HandledEvents(led, i, n)| == |HandledEvents(led, i, n - 1)| + if n - 1 in HandledEvents(led, i, n) then 1 else 0
  {
    var before, now := HandledEvents(led, i, n - 1), HandledEvents(led, i, n);
    assert now == before + if n - 1 in now then {n - 1} else {};
  }

  /** One event's record is worth one effect exactly when it says handled. */
  lemma AckWorth(led: Ledger, i: Intent, k: nat)
    requires WellKept(led) && IntentFile in led && led[IntentFile] == IntentRec(i) && k < |i.events|
    ensures var worth := match ReadAck(led, i, i.events[k])
                         case Ok(Some(a)) => a.effectCount
                         case _ => 0;
            worth == if k in HandledEvents(led, i, k + 1) then 1 else 0
  {
    FindUnique(i.events, k);
    assert AckOk(led, i.events[k].eventId);
    hide FindEvent, Safe, SafeHash;
  }

  // ---------- permission to send ----------

  predicate SendAllowed(led: Ledger)
    requires ControlOk(led)
  {
    match Decide(led, true, Status(ControlOf(led).nonce))
    case Answer(Reported(r)) => r.sendAllowed
    case _ => false
  }

  predicate Sendable(led: Ledger, i: Intent, c: Control) {
    && !i.uncertain && ClaimFile !in led && !c.cancelled && c.revision == i.revision
    && AcksOf(led, i, i.events).Ok? && AcksOf(led, i, i.events).value.1 > 0
  }

  lemma SendAllowedMeans(led: Ledger)
    requires WellKept(led)
    ensures SendAllowed(led) <==> IntentFile in led && Sendable(led, led[IntentFile].intent, ControlOf(led))
  {
    if IntentFile in led {
      AllAcksReadable(led, led[IntentFile].intent);
    }
    hide Safe, SafeHash, ValidEvents, AcksOf, AckOk;
  }

  /** The claim is granted exactly when status would report that sending is allowed. */
  lemma ClaimableExactly(led: Ledger, jobBound: bool)
    requires WellKept(led)
    ensures var c := ControlOf(led);
            Decide(led, jobBound, TakeClaim(c.nonce, c.controller, c.revision)).Commit? <==> SendAllowed(led)
  {
    SendAllowedMeans(led);
    if IntentFile in led {
      AllAcksReadable(led, led[IntentFile].intent);
    }
    hide Safe, SafeHash, ValidEvents, AcksOf, AckOk, SendAllowed;
  }

  /** Of any two readings, the later one has no more events pending. */
  lemma {:induction false} PendingShrinks(a: Ledger, b: Ledger, i: Intent, j: Intent, n: nat)
    requires WellKept(a) && WellKept(b) && Extends(a, b) && IntentFile in a && IntentFile in b
    requires a[IntentFile] == IntentRec(i) && b[IntentFile] == IntentRec(j) && n <= |i.events|
    ensures j.events == i.events
    ensures AcksOf(a, i, i.events[..n]).Ok? && AcksOf(b, j, i.events[..n]).Ok?
    ensures AcksOf(b, j, i.events[..n]).value.1 <= AcksOf(a, i, i.events[..n]).value.1
  {
    AcksReadable(a, i, n);
    AcksReadable(b, j, n);
    hide Safe, SafeHash, Distinct, AckOk, ValidIntent, ValidAck;
    if n > 0 {
      PendingShrinks(a, b, i, j, n - 1);
      assert i.events[..n][..n - 1] == i.events[..n - 1];
    }
  }

  /** Send permission only decreases: once an intent exists and sending is not allowed, no run of
      commands makes it allowed again. */
  lemma NeverAllowedAgain(led: Ledger, steps: seq<Step>)
    requires WellKept(led) && IntentFile in led && !SendAllowed(led)
    ensures ControlOk(Run(led, steps)) && !SendAllowed(Run(led, steps))
  {
    var next := Run(led, steps);
    RunKeeps(led, steps);
    SendAllowedMeans(led);
    SendAllowedMeans(next);
    var i, j := led[IntentFile].intent, next[IntentFile].intent;
    PendingShrinks(led, next, i, j, |i.events|);
    assert i.events[..|i.events|] == i.events;
    hide SendAllowed, AcksOf, Run, AckOk, ClaimOk;
  }

  // ---------- what ends it all ----------

  /** Marking uncertain takes hold for good: the intent stays uncertain over every later run, and
      sending is never allowed again. */
  lemma UncertainIsFinal(led: Ledger, jobBound: bool, cmd: Command, steps: seq<Step>)
    requires WellKept(led) && cmd.MarkUncertain? && Decide(led, jobBound, cmd).Commit?
    ensures var last := Run(Execute(led, jobBound, cmd, Finishes), steps);
            && ControlOk(last) && !SendAllowed(last)
            && IntentFile in last && last[IntentFile] == IntentRec(led[IntentFile].intent.(uncertain := true))
  {
    hide WellKept, Decide, Run, SendAllowed;
    KeptControl(led);
    DecidesCurrent(led, jobBound, cmd);
    UncertainKeeps(led, jobBound, cmd);
    var next := Execute(led, jobBound, cmd, Finishes);
    SendAllowedMeans(next);
    NeverAllowedAgain(next, steps);
    RunKeeps(next, steps);
  }

  lemma KeptControl(led: Ledger)
    requires WellKept(led)
    ensures ControlOk(led)
  {
  }

  /** A cancelled ledger is frozen: no command of any run changes a record any more. */
  lemma {:induction false} CancelledIsFrozen(led: Ledger, steps: seq<Step>)
    requires WellKept(led) && ControlOf(led).cancelled
    ensures Run(led, steps) == led && !SendAllowed(led)
    decreases |steps|
  {
    if steps == [] {
      SendAllowedMeans(led);
    } else {
      var front, s := steps[..|steps| - 1], steps[|steps| - 1];
      CancelledIsFrozen(led, front);
      hide WellKept, Decide;
      KeptControl(led);
      if Decide(led, s.jobBound, s.cmd).Commit? {
        DecidesCurrent(led, s.jobBound, s.cmd);
      }
    }
  }

  /** A revision with cancel cancels, and nothing after it changes anything. */
  lemma CancelTakesHold(led: Ledger, jobBound: bool, cmd: Command, steps: seq<Step>)
    requires WellKept(led) && cmd.Revise? && cmd.cancel && Decide(led, jobBound, cmd).Commit?
    ensures var next := Execute(led, jobBound, cmd, Finishes);
            && ControlOk(next) && ControlOf(next).cancelled && next - {ControlFile} == led - {ControlFile}
            && Run(next, steps) == next && !SendAllowed(next)
  {
    hide WellKept, Run, SendAllowed;
    KeptControl(led);
    DecidesCurrent(led, jobBound, cmd);
    assert Decide(led, jobBound, cmd) == DecideRevise(jobBound, ControlOf(led), true);
    hide Decide;
    ReviseKeeps(led, jobBound, true);
    CancelledIsFrozen(Execute(led, jobBound, cmd, Finishes), steps);
  }
}
