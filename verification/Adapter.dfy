/** Delivery adapters on one task directory: any number of processes, crashing and starting at
    will, with anyone running ledger commands in between. */
module Adapter {
  import opened Bytes
  import opened LedgerSpec
  import opened LedgerLaws
  import opened LedgerExact

  datatype Binding = Binding(owner: string, epoch: int, nonce: string, revision: int)

  datatype Capability = Capability(binding: Binding, intent: Intent, sendDisabled: bool)

  /** One adapter process: what it prepared, what it holds, and which deliveries it has sent. */
  datatype Process = Process(held: Option<(Binding, Intent)>, capabilities: map<nat, Capability>, sent: set<string>)

  datatype World = World(led: Ledger, processes: map<nat, Process>, nextCapability: nat, turnsStarted: nat)

  datatype Action =
    | Spawn(pid: nat)
    | Crash(pid: nat)
    | Command(cmd: Command, fate: Fate, jobBound: bool)
    | PrepareCall(pid: nat, binding: Binding, deliveryId: string, events: seq<Event>, fate: Fate, jobBound: bool)
    | ClaimCall(pid: nat, fate: Fate, jobBound: bool, checked: bool)
    | ReconcileCall(pid: nat, binding: Binding, deliveryId: string)
    | SendCall(pid: nat, capability: nat)

  /** The adapter's own check of an intent against its binding. */
  predicate IntentFits(i: Intent, b: Binding, uncertainToo: bool) {
    && i.nonce == b.nonce && i.controller == b.owner && b.epoch > 0 && i.epoch == b.epoch && i.revision == b.revision
    && (uncertainToo || !i.uncertain) && 1 <= |i.events| <= 8 && ValidEvents(i.events) && i.hash == BatchHash(i)
  }

  function ReportOf(led: Ledger, nonce: string): (r: Option<StatusReport>) {
    match Decide(led, true, Status(nonce))
    case Answer(Reported(report)) => Some(report)
    case _ => None
  }

  function Mint(w: World, pid: nat, c: Capability): (r: World)
    requires pid in w.processes
  {
    var p := w.processes[pid];
    w.(processes := w.processes[pid := p.(capabilities := p.capabilities[w.nextCapability := c])],
       nextCapability := w.nextCapability + 1)
  }

  /** First half of `prepare_and_claim`: the intent, if the command answers. */
  function AfterPrepare(w: World, a: Action): (r: World)
    requires a.PrepareCall? && a.pid in w.processes
  {
    var cmd := Prepare(a.binding.nonce, a.binding.owner, a.binding.revision, a.deliveryId, a.events);
    var plan := Decide(w.led, a.jobBound, cmd);
    var w1 := w.(led := Execute(w.led, a.jobBound, cmd, a.fate));
    if a.fate == Finishes && plan.Commit? && plan.output.Prepared? && IntentFits(plan.output.intent, a.binding, false)
       && plan.output.intent.deliveryId == a.deliveryId then
      w1.(processes := w.processes[a.pid := w.processes[a.pid].(held := Some((a.binding, plan.output.intent)))])
    else w1
  }

  /** Second half: only a claim command that answers yields a capability that can send. `checked`
      stands for the later checks of the claim file, which may still fail. */
  function AfterClaim(w: World, a: Action): (r: World)
    requires a.ClaimCall? && a.pid in w.processes
  {
    var p := w.processes[a.pid];
    if p.held.None? then w
    else
      var (b, i) := p.held.value;
      var cmd := TakeClaim(b.nonce, b.owner, b.revision);
      var plan := Decide(w.led, a.jobBound, cmd);
      var w1 := w.(led := Execute(w.led, a.jobBound, cmd, a.fate),
                   processes := w.processes[a.pid := p.(held := None)]);
      if a.fate == Finishes && plan.Commit? && plan.output.Claimed? && plan.output.claim.deliveryId == i.deliveryId
         && plan.output.claim.controller == b.owner && plan.output.claim.revision == b.revision && a.checked then
        Mint(w1, a.pid, Capability(b, i, false))
      else w1
  }

  function AfterReconcile(w: World, a: Action): (r: World)
    requires a.ReconcileCall? && a.pid in w.processes
  {
    var report := ReportOf(w.led, a.binding.nonce);
    if report.None? || report.value.deliveryId != a.deliveryId || report.value.revision != a.binding.revision
       || !report.value.claimed || report.value.cancelled || report.value.stale
       || IntentFile !in w.led || !w.led[IntentFile].IntentRec? then w
    else
      var i := w.led[IntentFile].intent;
      if i.deliveryId == a.deliveryId && IntentFits(i, a.binding, true) then Mint(w, a.pid, Capability(a.binding, i, true)) else w
  }

  /** `send_tool_output_once` up to the request on the wire: the id is marked before any I/O. */
  function AfterSend(w: World, a: Action): (r: World)
    requires a.SendCall? && a.pid in w.processes
  {
    var p := w.processes[a.pid];
    if a.capability !in p.capabilities || p.capabilities[a.capability].sendDisabled then w
    else
      var c := p.capabilities[a.capability];
      var report := ReportOf(w.led, c.binding.nonce);
      if report.None? || !report.value.claimed || report.value.deliveryId != c.intent.deliveryId
         || report.value.revision != c.binding.revision || !report.value.ready || report.value.cancelled || report.value.stale
         || !IntentFits(c.intent, c.binding, false) || c.intent.deliveryId in p.sent then w
      else
        w.(processes := w.processes[a.pid := p.(sent := p.sent + {c.intent.deliveryId})],
           turnsStarted := w.turnsStarted + 1)
  }

  function Apply(w: World, a: Action): (r: World) {
    match a
    case Spawn(pid) => if pid in w.processes then w else w.(processes := w.processes[pid := Process(None, map[], {})])
    case Crash(pid) => w.(processes := w.processes - {pid})
    case Command(cmd, fate, jobBound) => w.(led := Execute(w.led, jobBound, cmd, fate))
    case PrepareCall(pid, _, _, _, _, _) => if pid in w.processes then AfterPrepare(w, a) else w
    case ClaimCall(pid, _, _, _) => if pid in w.processes then AfterClaim(w, a) else w
    case ReconcileCall(pid, _, _) => if pid in w.processes then AfterReconcile(w, a) else w
    case SendCall(pid, _) => if pid in w.processes then AfterSend(w, a) else w
  }

  function Run(led: Ledger, actions: seq<Action>): (r: World) {
    if actions == [] then World(led, map[], 0, 0)
    else Apply(Run(led, actions[..|actions| - 1]), actions[|actions| - 1])
  }

  // ---------- at most one send ----------

  predicate CanSend(w: World, pid: nat, k: nat) {
    pid in w.processes && k in w.processes[pid].capabilities && !w.processes[pid].capabilities[k].sendDisabled
  }

  /** One send-enabled capability at most, none without a claim, and none unused after a send. */
  ghost predicate Single(w: World) {
    && WellKept(w.led) && w.turnsStarted <= 1
    && (ClaimFile !in w.led ==> w.turnsStarted == 0 && forall p, k :: !CanSend(w, p, k))
    && (forall p, k, q, l :: CanSend(w, p, k) && CanSend(w, q, l) ==> p == q && k == l)
    && (w.turnsStarted == 1 ==>
          forall p, k :: CanSend(w, p, k) ==>
                           w.processes[p].capabilities[k].intent.deliveryId in w.processes[p].sent)
    && (forall p, k :: p in w.processes && k in w.processes[p].capabilities ==> k < w.nextCapability)
  }

  /** A ledger command alone neither grants nor uses the power to send. */
  lemma LedgerOnly(w: World, cmd: LedgerSpec.Command, fate: Fate, jobBound: bool)
    requires Single(w)
    ensures Single(w.(led := Execute(w.led, jobBound, cmd, fate)))
    ensures ClaimFile in w.led ==> ClaimFile in Execute(w.led, jobBound, cmd, fate)
  {
    ExecuteKeeps(w.led, jobBound, cmd, fate);
    hide WellKept, Execute;
    var next := w.(led := Execute(w.led, jobBound, cmd, fate));
    assert forall p, k :: CanSend(next, p, k) <==> CanSend(w, p, k);
  }

  /** A process that only changes what it holds. */
  lemma HoldingOnly(w: World, pid: nat, held: Option<(Binding, Intent)>)
    requires Single(w) && pid in w.processes
    ensures Single(w.(processes := w.processes[pid := w.processes[pid].(held := held)]))
  {
    hide WellKept;
    var next := w.(processes := w.processes[pid := w.processes[pid].(held := held)]);
    assert forall p, k :: CanSend(next, p, k) <==> CanSend(w, p, k);
  }

  lemma MintDisabled(w: World, pid: nat, c: Capability)
    requires Single(w) && pid in w.processes && c.sendDisabled
    ensures Single(Mint(w, pid, c))
  {
    hide WellKept;
    var next := Mint(w, pid, c);
    assert w.nextCapability !in w.processes[pid].capabilities;
    assert forall p, k :: CanSend(next, p, k) <==> CanSend(w, p, k);
  }

  /** The only way to the power to send: before it there was no claim, hence no other. */
  lemma MintEnabled(w: World, pid: nat, c: Capability)
    requires Single(w) && pid in w.processes && ClaimFile in w.led && w.turnsStarted == 0
    requires forall p, k :: !CanSend(w, p, k)
    ensures Single(Mint(w, pid, c))
  {
    hide WellKept;
    var next := Mint(w, pid, c);
    forall p, k | CanSend(next, p, k) ensures p == pid && k == w.nextCapability {
      assert !CanSend(w, p, k);
    }
  }

  lemma ClaimKeepsSingle(w: World, a: Action)
    requires Single(w) && a.ClaimCall? && a.pid in w.processes
    ensures Single(AfterClaim(w, a))
    ensures forall p, k :: CanSend(AfterClaim(w, a), p, k) && !CanSend(w, p, k) ==>
                             ClaimFile !in w.led && ClaimFile in AfterClaim(w, a).led && p == a.pid
  {
    var p := w.processes[a.pid];
    if p.held.Some? {
      var (b, i) := p.held.value;
      var cmd := TakeClaim(b.nonce, b.owner, b.revision);
      var plan := Decide(w.led, a.jobBound, cmd);
      LedgerOnly(w, cmd, a.fate, a.jobBound);
      var w1 := w.(led := Execute(w.led, a.jobBound, cmd, a.fate));
      HoldingOnly(w1, a.pid, None);
      if plan.Commit? {
        DecidesCurrent(w.led, a.jobBound, cmd);
        LedgerLaws.ClaimKeeps(w.led, a.jobBound, cmd);
        hide Decide, WellKept, Mint, IntentOk, ClaimOk;
        var w2 := w1.(processes := w.processes[a.pid := p.(held := None)]);
        if a.fate == Finishes {
          assert forall q, k :: CanSend(w2, q, k) <==> CanSend(w, q, k);
          MintEnabled(w2, a.pid, Capability(b, i, false));
        }
      }
    }
  }

  lemma PrepareKeepsSingle(w: World, a: Action)
    requires Single(w) && a.PrepareCall? && a.pid in w.processes
    ensures Single(AfterPrepare(w, a))
  {
    var cmd := Prepare(a.binding.nonce, a.binding.owner, a.binding.revision, a.deliveryId, a.events);
    LedgerOnly(w, cmd, a.fate, a.jobBound);
    hide Decide, Execute, IntentFits;
    var plan := Decide(w.led, a.jobBound, cmd);
    if plan.Commit? && plan.output.Prepared? {
      HoldingOnly(w.(led := Execute(w.led, a.jobBound, cmd, a.fate)), a.pid, Some((a.binding, plan.output.intent)));
    }
    hide Single;
  }

  lemma SendKeepsSingle(w: World, a: Action)
    requires Single(w) && a.SendCall? && a.pid in w.processes
    ensures Single(AfterSend(w, a))
    ensures AfterSend(w, a).turnsStarted > w.turnsStarted ==>
              && CanSend(w, a.pid, a.capability)
              && var id := w.processes[a.pid].capabilities[a.capability].intent.deliveryId;
                 id !in w.processes[a.pid].sent && id in AfterSend(w, a).processes[a.pid].sent
  {
    hide WellKept, ReportOf, IntentFits;
    var next := AfterSend(w, a);
    assert forall p, k :: CanSend(next, p, k) <==> CanSend(w, p, k);
    if next != w {
      assert CanSend(w, a.pid, a.capability);
    }
  }

  lemma ApplyKeepsSingle(w: World, a: Action)
    requires Single(w)
    ensures Single(Apply(w, a))
  {
    match a
    case Spawn(pid) => SpawnKeeps(w, pid);
    case Crash(pid) => CrashKeeps(w, pid);
    case Command(cmd, fate, jobBound) => LedgerOnly(w, cmd, fate, jobBound);
    case PrepareCall(pid, _, _, _, _, _) => if pid in w.processes { PrepareKeepsSingle(w, a); }
    case ClaimCall(pid, _, _, _) => if pid in w.processes { ClaimKeepsSingle(w, a); }
    case ReconcileCall(pid, _, _) => if pid in w.processes { ReconcileKeeps(w, a); }
    case SendCall(pid, _) => if pid in w.processes { SendKeepsSingle(w, a); }
    hide Single, AfterPrepare, AfterClaim, AfterReconcile, AfterSend;
  }

  lemma SpawnKeeps(w: World, pid: nat)
    requires Single(w)
    ensures Single(Apply(w, Spawn(pid)))
  {
    hide WellKept;
    var next := Apply(w, Spawn(pid));
    assert forall p, k :: CanSend(next, p, k) <==> CanSend(w, p, k);
  }

  lemma CrashKeeps(w: World, pid: nat)
    requires Single(w)
    ensures Single(Apply(w, Crash(pid)))
  {
    hide WellKept;
    var next := Apply(w, Crash(pid));
    assert forall p, k :: CanSend(next, p, k) ==> CanSend(w, p, k);
  }

  lemma ReconcileKeeps(w: World, a: Action)
    requires Single(w) && a.ReconcileCall? && a.pid in w.processes
    ensures Single(AfterReconcile(w, a))
  {
    hide ReportOf, IntentFits, Mint;
    if IntentFile in w.led && w.led[IntentFile].IntentRec? {
      MintDisabled(w, a.pid, Capability(a.binding, w.led[IntentFile].intent, true));
    }
    hide Single;
  }

  /** The only source of the power to send is a claim command that found no claim and answered;
      and only a send starts a turn. */
  lemma PowerComesFromClaims(w: World, a: Action)
    requires Single(w)
    ensures forall p, k :: CanSend(Apply(w, a), p, k) && !CanSend(w, p, k) ==>
                             a.ClaimCall? && p == a.pid && ClaimFile !in w.led && ClaimFile in Apply(w, a).led
    ensures Apply(w, a).turnsStarted != w.turnsStarted ==> a.SendCall? && CanSend(w, a.pid, a.capability)
  {
    hide Single, WellKept, Execute, Decide, ReportOf, IntentFits;
    match a
    case ClaimCall(pid, _, _, _) => if pid in w.processes { ClaimKeepsSingle(w, a); }
    case _ =>
  }

  /** At most once: over every run of any number of adapter processes and crashes on one task
      directory, with any other ledger commands in between, at most one turn is ever started. */
  lemma {:induction false} AtMostOneSend(led: Ledger, actions: seq<Action>)
    requires WellKept(led)
    ensures Run(led, actions).turnsStarted <= 1 && Single(Run(led, actions))
    decreases |actions|
  {
    if actions != [] {
      AtMostOneSend(led, actions[..|actions| - 1]);
      ApplyKeepsSingle(Run(led, actions[..|actions| - 1]), actions[|actions| - 1]);
      hide Apply, WellKept;
    }
  }

  /** The claim is spent and nobody alive holds the power that went with it. */
  ghost predicate Spent(w: World) {
    Single(w) && ClaimFile in w.led && w.turnsStarted == 0 && forall p, k :: !CanSend(w, p, k)
  }

  lemma ApplyKeepsSpent(w: World, a: Action)
    requires Spent(w)
    ensures Spent(Apply(w, a))
  {
    ApplyKeepsSingle(w, a);
    var next := Apply(w, a);
    match a
    case Spawn(pid) => hide WellKept; assert forall p, k :: CanSend(next, p, k) ==> CanSend(w, p, k);
    case Crash(pid) => hide WellKept; assert forall p, k :: CanSend(next, p, k) ==> CanSend(w, p, k);
    case Command(cmd, fate, jobBound) =>
      LedgerOnly(w, cmd, fate, jobBound);
      hide WellKept, Execute;
      assert forall p, k :: CanSend(next, p, k) ==> CanSend(w, p, k);
    case PrepareCall(pid, binding, id, events, fate, jobBound) =>
      LedgerOnly(w, Prepare(binding.nonce, binding.owner, binding.revision, id, events), fate, jobBound);
      hide WellKept, Execute, Decide, IntentFits;
      assert forall p, k :: CanSend(next, p, k) ==> CanSend(w, p, k);
    case ClaimCall(pid, fate, jobBound, _) =>
      if pid in w.processes && w.processes[pid].held.Some? {
        var (b, i) := w.processes[pid].held.value;
        SpentClaim(w, pid, TakeClaim(b.nonce, b.owner, b.revision), fate, jobBound);
      }
      hide WellKept, Execute, Decide;
      assert forall p, k :: CanSend(next, p, k) ==> CanSend(w, p, k);
    case ReconcileCall(pid, _, _) =>
      hide WellKept, ReportOf, IntentFits;
      forall p, k ensures !CanSend(next, p, k) { assert !CanSend(w, p, k); }
    case SendCall(pid, k) =>
      hide WellKept, ReportOf, IntentFits;
      assert !CanSend(w, pid, k);
  }

  lemma SpentClaim(w: World, pid: nat, cmd: LedgerSpec.Command, fate: Fate, jobBound: bool)
    requires Spent(w) && pid in w.processes && cmd.TakeClaim?
    ensures ClaimFile in Execute(w.led, jobBound, cmd, fate)
    ensures !Decide(w.led, jobBound, cmd).Commit?
  {
    LedgerOnly(w, cmd, fate, jobBound);
    if Decide(w.led, jobBound, cmd).Commit? {
      DecidesCurrent(w.led, jobBound, cmd);
      LedgerLaws.ClaimKeeps(w.led, jobBound, cmd);
    }
  }

  /** A directory whose claim was already taken stays silent: whoever held the power died with it,
      and no later process, however it asks, starts a turn. */
  lemma {:induction false} ClaimedStaysSilent(led: Ledger, actions: seq<Action>)
    requires WellKept(led) && ClaimFile in led
    ensures Run(led, actions).turnsStarted == 0 && Spent(Run(led, actions))
    decreases |actions|
  {
    if actions != [] {
      ClaimedStaysSilent(led, actions[..|actions| - 1]);
      ApplyKeepsSpent(Run(led, actions[..|actions| - 1]), actions[|actions| - 1]);
      hide Apply, WellKept;
    }
  }

  // ---------- exactly when a send starts a turn ----------

  /** The ledger still stands behind a capability: the same delivery and revision, claimed, certain,
      current and not cancelled. */
  predicate Stands(led: Ledger, c: Capability) {
    && ControlOk(led) && ControlOf(led).nonce == c.binding.nonce && !ControlOf(led).cancelled
    && ClaimFile in led && IntentFile in led && led[IntentFile].IntentRec?
    && var i := led[IntentFile].intent;
       && i.deliveryId == c.intent.deliveryId && i.revision == c.binding.revision == ControlOf(led).revision && !i.uncertain
  }

  lemma ReportMeans(led: Ledger, nonce: string)
    requires WellKept(led)
    ensures var report := ReportOf(led, nonce);
            && (report.Some? <==> IntentFile in led && nonce == ControlOf(led).nonce)
            && (report.Some? ==>
                  var i := led[IntentFile].intent;
                  && report.value.deliveryId == i.deliveryId && report.value.revision == i.revision && report.value.ready == !i.uncertain
                  && (report.value.claimed <==> ClaimFile in led) && report.value.cancelled == ControlOf(led).cancelled
                  && (report.value.stale <==> ControlOf(led).revision != i.revision))
  {
    hide Decide, WellKept, InEventOrder;
    ReportExactly(led, true, nonce);
  }

  /** A send call starts a turn if and only if the process holds the capability with the power to
      send, has not sent this delivery before, and the ledger still stands behind it; the delivery
      is then marked, and nothing else changes. */
  lemma SendExactly(w: World, pid: nat, k: nat)
    requires WellKept(w.led) && pid in w.processes
    ensures var p, next := w.processes[pid], AfterSend(w, SendCall(pid, k));
            if CanSend(w, pid, k) && Stands(w.led, p.capabilities[k]) && IntentFits(p.capabilities[k].intent, p.capabilities[k].binding, false)
               && p.capabilities[k].intent.deliveryId !in p.sent
            then
              next == w.(processes := w.processes[pid := p.(sent := p.sent + {p.capabilities[k].intent.deliveryId})],
                         turnsStarted := w.turnsStarted + 1)
            else next == w
  {
    if k in w.processes[pid].capabilities {
      ReportMeans(w.led, w.processes[pid].capabilities[k].binding.nonce);
    }
    hide ReportOf, IntentFits, IntentOk, AckOk;
  }

  /** What a claim must find to be adopted: the delivery of this binding, claimed and current. */
  predicate Adoptable(led: Ledger, b: Binding, deliveryId: string)
    requires ControlOk(led)
  {
    && ControlOf(led).nonce == b.nonce && ControlOf(led).controller == b.owner && ControlOf(led).revision == b.revision
    && !ControlOf(led).cancelled && b.epoch == 1 && ClaimFile in led
    && IntentFile in led && led[IntentFile].IntentRec?
    && led[IntentFile].intent.deliveryId == deliveryId && led[IntentFile].intent.revision == b.revision
  }

  /** Reconciling adopts exactly the current claim of the caller's own delivery, uncertain or not,
      and what it yields cannot send. */
  lemma ReconcileExactly(w: World, pid: nat, b: Binding, deliveryId: string)
    requires WellKept(w.led) && pid in w.processes
    ensures AfterReconcile(w, ReconcileCall(pid, b, deliveryId)) ==
            if Adoptable(w.led, b, deliveryId) then Mint(w, pid, Capability(b, w.led[IntentFile].intent, true)) else w
  {
    ReportMeans(w.led, b.nonce);
    hide ReportOf, AckOk, Mint, Safe, ValidEvents;
  }

  /** A claim call yields the power to send exactly when it lives to its answer, the ledger grants
      the claim for the delivery that was prepared, and the claim file passes its check. */
  lemma ClaimCallExactly(w: World, a: Action)
    requires WellKept(w.led) && a.ClaimCall? && a.pid in w.processes && w.processes[a.pid].held.Some?
    ensures var (b, i) := w.processes[a.pid].held.value;
            var cmd := TakeClaim(b.nonce, b.owner, b.revision);
            var granted := Addressed(w.led, cmd) && Granted(w.led, a.jobBound, cmd);
            var let := w.(led := if granted && a.fate != DiesBefore then Written(w.led, cmd) else w.led,
                          processes := w.processes[a.pid := w.processes[a.pid].(held := None)]);
            AfterClaim(w, a) ==
            if granted && a.fate == Finishes && a.checked && w.led[IntentFile].intent.deliveryId == i.deliveryId
            then Mint(let, a.pid, Capability(b, i, false)) else let
  {
    var (b, i) := w.processes[a.pid].held.value;
    hide WellKept, Decide, Granted, Addressed, Mint;
    CommitsExactly(w.led, a.jobBound, TakeClaim(b.nonce, b.owner, b.revision));
  }

  /** A prepare call holds an intent exactly when it lives to its answer and the ledger grants it
      under the owner epoch of the binding, and that intent is what the ledger then has. */
  lemma PrepareCallExactly(w: World, a: Action)
    requires WellKept(w.led) && a.PrepareCall? && a.pid in w.processes
    ensures var b, p := a.binding, w.processes[a.pid];
            var cmd := Prepare(b.nonce, b.owner, b.revision, a.deliveryId, a.events);
            var granted := Addressed(w.led, cmd) && Granted(w.led, a.jobBound, cmd);
            var led := if granted && a.fate != DiesBefore then Written(w.led, cmd) else w.led;
            && (granted && a.fate != DiesBefore ==> IntentFile in led && led[IntentFile].IntentRec?)
            && AfterPrepare(w, a) ==
               w.(led := led,
                  processes := if granted && a.fate == Finishes && b.epoch == 1
                               then w.processes[a.pid := p.(held := Some((b, led[IntentFile].intent)))] else w.processes)
  {
    var b := a.binding;
    var cmd := Prepare(b.nonce, b.owner, b.revision, a.deliveryId, a.events);
    CommitsExactly(w.led, a.jobBound, cmd);
    hide WellKept, ValidEvents, Safe;
  }

  // ---------- the one send happens ----------

  predicate Deliverable(b: Binding, deliveryId: string, events: seq<Event>) {
    b.epoch == 1 && b.revision == 1 && Safe(b.owner) && Safe(deliveryId) && 1 <= |events| <= 8 && ValidEvents(events)
  }

  function IntentOf(b: Binding, deliveryId: string, events: seq<Event>): (i: Intent) {
    Intent(deliveryId, b.nonce, b.owner, 1, 1, false, events, Digest(deliveryId, b.nonce, b.owner, 1, 1, events))
  }

  lemma PreparedFresh(b: Binding, deliveryId: string, events: seq<Event>, w: World, pid: nat)
    requires Deliverable(b, deliveryId, events) && w.led == Opened(b.nonce, b.owner) && pid in w.processes
    ensures AfterPrepare(w, PrepareCall(pid, b, deliveryId, events, Finishes, true)) ==
            w.(led := w.led[IntentFile := IntentRec(IntentOf(b, deliveryId, events))],
               processes := w.processes[pid := w.processes[pid].(held := Some((b, IntentOf(b, deliveryId, events))))])
  {
    hide Safe, ValidEvents;
  }

  lemma {:induction false} NoneAcked(led: Ledger, i: Intent, events: seq<Event>)
    requires forall n :: n in led ==> !n.AckFile?
    ensures AcksOf(led, i, events).Ok? && AcksOf(led, i, events).value.1 == |events|
  {
    if events != [] { NoneAcked(led, i, events[..|events| - 1]); }
  }

  lemma ClaimedFresh(b: Binding, deliveryId: string, events: seq<Event>, w: World, pid: nat)
    requires Deliverable(b, deliveryId, events) && pid in w.processes
    requires w.led == Opened(b.nonce, b.owner)[IntentFile := IntentRec(IntentOf(b, deliveryId, events))]
    requires w.processes[pid].held == Some((b, IntentOf(b, deliveryId, events)))
    ensures var i, p := IntentOf(b, deliveryId, events), w.processes[pid];
            AfterClaim(w, ClaimCall(pid, Finishes, true, true)) ==
            Mint(w.(led := w.led[ClaimFile := ClaimRec(Claim(deliveryId, b.nonce, b.owner, 1))],
                    processes := w.processes[pid := p.(held := None)]), pid, Capability(b, i, false))
  {
    var i := IntentOf(b, deliveryId, events);
    NoneAcked(w.led, i, i.events);
    hide Safe, ValidEvents, AcksOf, Mint;
    assert ValidIntent(Control(b.nonce, b.owner, 1, false), i);
  }

  lemma SingleKept(w: World)
    requires Single(w)
    ensures WellKept(w.led)
  {
  }

  /** At most once is also once: prepared, claimed and sent by one process on a fresh directory,
      every admissible delivery starts its turn. */
  lemma OneSend(b: Binding, deliveryId: string, events: seq<Event>, pid: nat)
    requires Deliverable(b, deliveryId, events)
    ensures var actions := [Spawn(pid), PrepareCall(pid, b, deliveryId, events, Finishes, true),
                            ClaimCall(pid, Finishes, true, true), SendCall(pid, 0)];
            Run(Opened(b.nonce, b.owner), actions).turnsStarted == 1
  {
    hide Decide, Execute, AfterPrepare, AfterClaim, AfterSend, ValidEvents, Safe, WellKept, Single;
    var a0, a1 := Spawn(pid), PrepareCall(pid, b, deliveryId, events, Finishes, true);
    var a2, a3 := ClaimCall(pid, Finishes, true, true), SendCall(pid, 0);
    assert [a0, a1, a2, a3][..3] == [a0, a1, a2] && [a0, a1, a2][..2] == [a0, a1] && [a0, a1][..1] == [a0] && [a0][..0] == [];
    var led := Opened(b.nonce, b.owner);
    var w0 := Run(led, [a0]);
    assert Run(led, []) == World(led, map[], 0, 0);
    PreparedFresh(b, deliveryId, events, w0, pid);
    var w1 := Run(led, [a0, a1]);
    assert w1 == Apply(w0, a1);
    ClaimedFresh(b, deliveryId, events, w1, pid);
    var w2 := Run(led, [a0, a1, a2]);
    assert w2 == Apply(w1, a2);
    OpenedWellKept(b.nonce, b.owner);
    AtMostOneSend(led, [a0, a1, a2]);
    SingleKept(w2);
    SendExactly(w2, pid, 0);
    assert Run(led, [a0, a1, a2, a3]) == Apply(w2, a3);
  }
}
