/** The retained task: a numbered sequence of effects that survives being killed between any two
    file operations and is resumed under a new segment number. */
module RetainedSpec {
  import opened Bytes
  import opened FileSystem

  datatype Task = Task(nonce: string, controller: string, total: int, interval: int)

  datatype Status = Running | Interrupted | Completed

  /** The task hash, nonce, owner and revision of a record are all carried by `task`. */
  datatype State = State(
    status: Status, task: Task, segment: int, completed: int, pid: int, startedAt: int, updatedAt: int)

  datatype Step = Step(task: Task, segment: int, step: int, completedAt: int)

  datatype Rec = TaskRec(task: Task) | StateRec(state: State) | StepRec(step: Step)

  datatype Name = TaskFile | StateFile | StepFile(n: nat)

  type Dir = Fs<Name, Rec>

  function Get(fs: Dir, n: Name): (r: Option<Rec>)
    requires FsOk(fs)
  {
    Read(fs, n)
  }

  datatype Error =
    | Missing | InvalidArtifact | UnexpectedArtifact | Untrusted | SnapshotChanged
    | NonceMismatch | OwnerMismatch | StaleRevision | StaleSegment | SegmentLimit

  datatype Result<T> = Ok(value: T) | Err(error: Error)

  predicate ValidBounds(steps: int, interval: int) {
    1 <= steps <= 32 && 100 <= interval <= 120000 / steps
  }

  predicate ValidRevision(n: int) {
    1 <= n <= 1000000
  }

  predicate ValidState(task: Task, st: State) {
    && st.task == task && ValidRevision(st.segment) && st.pid > 0
    && 0 <= st.completed <= task.total
    && st.startedAt <= st.updatedAt
    && (st.status == Completed ==> st.completed == task.total)
  }

  function Later(a: int, b: int): int {
    if b > a then b else a
  }

  // ---------- reading back ----------

  /** The step loop of `retainedReadState`: count, last segment, gap flag, newest time. */
  datatype Scan = Scan(count: int, previous: int, gap: bool, updatedAt: int, failed: Option<Error>)

  predicate GoodStep(task: Task, segment: int, s: Scan, n: int, x: Step) {
    !s.gap && x.task == task && 1 <= x.segment <= segment && s.previous <= x.segment && x.step == n
  }

  function ScanOne(task: Task, segment: int, s: Scan, n: int, found: Option<Rec>): (r: Scan) {
    if s.failed.Some? then s
    else
      match found
      case None => s.(gap := true)
      case Some(StepRec(x)) =>
        if GoodStep(task, segment, s, n, x) then Scan(n, x.segment, false, Later(s.updatedAt, x.completedAt), None)
        else s.(failed := Some(InvalidArtifact))
      case Some(_) => s.(failed := Some(InvalidArtifact))
  }

  /** What the scan and the re-read state amount to. */
  function Settle(task: Task, st: State, s: Scan): (r: Result<State>) {
    if s.failed.Some? then Err(s.failed.value)
    else if st.completed > s.count then Err(InvalidArtifact)
    else Ok(st.(completed := s.count, updatedAt := s.updatedAt,
                status := if s.count == task.total then Completed else st.status))
  }

  predicate AllowedPath(task: Task, p: Path<Name>) {
    p.name.StepFile? ==> 1 <= p.name.n <= task.total
  }

  predicate NamesOk(task: Task, fs: Dir) {
    forall p :: p in fs.dir ==> AllowedPath(task, p)
  }

  function ScanAll(fs: Dir, task: Task, st: State, n: nat): (r: Scan)
    requires FsOk(fs)
  {
    if n == 0 then Scan(0, 0, false, st.updatedAt, None)
    else ScanOne(task, st.segment, ScanAll(fs, task, st, n - 1), n, Get(fs, StepFile(n)))
  }

  /** The same reading with nobody else writing: what the lock holder obtains. */
  function ReadState(fs: Dir, task: Task): (r: Result<State>)
    requires FsOk(fs) && task.total >= 0
  {
    match Get(fs, StateFile)
    case None => Err(Missing)
    case Some(StateRec(st)) =>
      if !ValidState(task, st) then Err(InvalidArtifact)
      else if !NamesOk(task, fs) then Err(UnexpectedArtifact)
      else Settle(task, st, ScanAll(fs, task, st, task.total))
    case Some(_) => Err(InvalidArtifact)
  }

  function ReadTask(fs: Dir, nonce: string): (r: Result<Task>)
    requires FsOk(fs)
    ensures r.Ok? ==> ValidBounds(r.value.total, r.value.interval)
  {
    match Get(fs, TaskFile)
    case None => Err(Missing)
    case Some(TaskRec(t)) =>
      if t.nonce != nonce then Err(NonceMismatch)
      else if !ValidBounds(t.total, t.interval) then Err(InvalidArtifact)
      else Ok(t)
    case Some(_) => Err(InvalidArtifact)
  }

  // ---------- the snapshot contract ----------

  datatype Snapshot = Snapshot(
    status: Status, nonce: string, controller: string, revision: int, segment: int, completed: int,
    total: int, interval: int, pid: int, startedAt: int, updatedAt: int, effects: int, livenessChecked: bool)

  function SnapshotOf(task: Task, st: State): Snapshot {
    Snapshot(st.status, task.nonce, task.controller, 1, st.segment, st.completed, task.total, task.interval,
             st.pid, st.startedAt, st.updatedAt, st.completed, false)
  }

  /** The consumer's checker, at a time of its own. */
  predicate ValidSnapshot(v: Snapshot, controller: string, nonce: string, now: int) {
    && v.nonce == nonce && v.controller == controller
    && v.revision == 1 && 1 <= v.segment <= 1000000
    && 1 <= v.total <= 32 && 0 <= v.completed <= v.total
    && v.interval >= 100 && v.interval * v.total <= 120000
    && 0 < v.pid < 0x8000_0000 && v.effects == v.completed && !v.livenessChecked
    && ((v.status == Completed) == (v.completed == v.total))
    && v.startedAt <= v.updatedAt <= now
  }

  /** The producer divides, the consumer multiplies: they draw the same line. */
  lemma SameBounds(steps: int, interval: int)
    ensures ValidBounds(steps, interval) <==> 1 <= steps <= 32 && 100 <= interval && interval * steps <= 120000
  {
    if steps >= 1 { QuotientBound(steps, interval); }
  }

  lemma QuotientBound(steps: int, interval: int)
    requires steps >= 1
    ensures interval <= 120000 / steps <==> interval * steps <= 120000
  {
    var q := 120000 / steps;
    assert q * steps <= 120000 < (q + 1) * steps;
    if interval <= q {
      assert interval * steps <= q * steps;
    } else {
      assert (q + 1) * steps <= interval * steps;
    }
  }

  // ---------- the system: lock, files, clock and the one process that holds the lock ----------

  datatype LockFile = NoLock | HalfLock | Lock

  datatype Phase = PClear | PCreate | PFill | PCommit | PDrop

  datatype After = EnterSegment | NextStep | Leave

  datatype Pc =
    | PublishTask(ph: Phase)
    | Reading
    | Cleaning
    | Saving(ph: Phase, after: After)
    | Entering
    | Looping
    | PublishStep(ph: Phase, next: Step)
    | Emitting

  datatype Request = Request(nonce: string, controller: string, revision: int, segment: int)

  datatype Proc = Proc(exec: nat, pid: int, request: Request, task: Task, st: State, pc: Pc)

  /** A published step and the execution that published it. */
  datatype Effect = Effect(exec: nat, step: Step)

  datatype Emission = Emission(snapshot: Snapshot, at: int)

  datatype Sys = Sys(
    lock: LockFile, starter: bool, fs: Dir, clock: int, holder: Option<Proc>,
    execs: nat, log: seq<Effect>, owner: nat, emitted: seq<Emission>)

  const INIT := Sys(NoLock, false, Empty(), 0, None, 0, [], 0, [])

  datatype Choice = Go | Halt(said: bool) | Sweep(n: Name)

  datatype Action =
    | Tick(delta: nat)
    | CreateLock
    | FillLock
    | StarterDies
    | AcquireStart(task: Task, pid: int)
    | AcquireResume(pid: int, request: Request)
    | Proceed(choice: Choice)
    | Fail
    | Die

  const NOBODY := State(Running, Task("", "", 0, 0), 0, 0, 0, 0, 0)

  function Released(s: Sys): Sys {
    s.(holder := None)
  }

  function At(s: Sys, p: Proc, pc: Pc): Sys {
    s.(holder := Some(p.(pc := pc)))
  }

  function FirstState(p: Proc, clock: int): State {
    State(Running, p.task, 1, 0, p.pid, clock, clock)
  }

  /** `stop`: the state that is written on the way out. */
  function Stopped(p: Proc, clock: int): State {
    if p.st.completed == p.task.total then p.st.(status := Completed)
    else p.st.(status := Interrupted, updatedAt := clock)
  }

  function Say(s: Sys, p: Proc): Sys {
    s.(emitted := s.emitted + [Emission(SnapshotOf(p.task, p.st), s.clock)])
  }

  function Halted(s: Sys, p: Proc, said: bool): Sys {
    At(if said then Say(s, p) else s, p.(st := Stopped(p, s.clock)), Saving(PClear, Leave))
  }

  /** Publication of one record by link, in the process's own steps up to the link. */
  function Stageward(fs: Dir, n: Name, rec: Rec, ph: Phase): (r: Dir)
  {
    match ph
    case PClear => Clear(fs, n)
    case PCreate => Create(fs, n)
    case PFill => if Stage(n) in fs.dir then Fill(fs, n, rec) else fs
    case _ => fs
  }

  function NextPhase(ph: Phase): Phase {
    match ph
    case PClear => PCreate
    case PCreate => PFill
    case PFill => PCommit
    case PCommit => PDrop
    case PDrop => PDrop
  }

  function AfterTask(s: Sys, p: Proc, ph: Phase): (r: Sys) {
    if ph.PCommit? then
      if Final(TaskFile) in s.fs.dir || Stage(TaskFile) !in s.fs.dir then Released(s.(fs := Clear(s.fs, TaskFile)))
      else At(s.(fs := Link(s.fs, TaskFile)), p, PublishTask(PDrop))
    else if ph.PDrop? then
      At(s.(fs := Clear(s.fs, TaskFile)), p.(st := FirstState(p, s.clock)), Saving(PClear, EnterSegment))
    else At(s.(fs := Stageward(s.fs, TaskFile, TaskRec(p.task), ph)), p, PublishTask(NextPhase(ph)))
  }

  function AfterReading(s: Sys, p: Proc): (r: Sys)
    requires FsOk(s.fs)
  {
    match ReadTask(s.fs, p.request.nonce)
    case Err(_) => Released(s)
    case Ok(task) =>
      match ReadState(s.fs, task)
      case Err(_) => Released(s)
      case Ok(st) =>
        if task.controller != p.request.controller || p.request.revision != 1 || st.segment != p.request.segment then Released(s)
        else At(s, p.(task := task, st := st), Cleaning)
  }

  predicate NoStages(fs: Dir) {
    forall p :: p in fs.dir ==> p.Final?
  }

  function AfterCleaning(s: Sys, p: Proc, choice: Choice): (r: Sys)
    requires FsOk(s.fs)
  {
    if choice.Sweep? then s.(fs := Clear(s.fs, choice.n))
    else if !NoStages(s.fs) then s
    else if p.st.status == Completed then
      At(s, p, if Get(s.fs, StateFile) == Some(StateRec(p.st)) then Entering else Saving(PClear, EnterSegment))
    else if !ValidRevision(p.st.segment + 1) then Released(s)
    else
      At(s, p.(st := p.st.(status := Running, segment := p.st.segment + 1, pid := p.pid,
                           startedAt := s.clock, updatedAt := s.clock)), Saving(PClear, EnterSegment))
  }

  /** The segment number that the state file shows, 0 before there is one. */
  function FileSegment(fs: Dir): int
    requires FsOk(fs)
  {
    match Get(fs, StateFile)
    case Some(StateRec(st)) => st.segment
    case _ => 0
  }

  function AfterSaving(s: Sys, p: Proc, ph: Phase, after: After): (r: Sys)
    requires FsOk(s.fs)
  {
    if ph.PCommit? then
      if Stage(StateFile) !in s.fs.dir then Released(s)
      else
        var s1 := s.(fs := Rename(s.fs, StateFile, StateFile),
                     owner := if FileSegment(s.fs) != p.st.segment then p.exec else s.owner);
        match after
        case EnterSegment => At(s1, p, Entering)
        case NextStep => At(s1, p, Looping)
        case Leave => Released(s1)
    else At(s.(fs := Stageward(s.fs, StateFile, StateRec(p.st), ph)), p, Saving(NextPhase(ph), after))
  }

  function AfterLooping(s: Sys, p: Proc, choice: Choice): (r: Sys) {
    if p.st.completed >= p.task.total then Released(s)
    else if choice.Halt? then Halted(s, p, false)
    else At(s, p, PublishStep(PClear, Step(p.task, p.st.segment, p.st.completed + 1, s.clock)))
  }

  function AfterStep(s: Sys, p: Proc, ph: Phase, x: Step): (r: Sys) {
    if x.step < 0 then Released(s)
    else
      var n := StepFile(x.step);
      if ph.PCommit? then
        if Final(n) in s.fs.dir || Stage(n) !in s.fs.dir then Released(s.(fs := Clear(s.fs, n)))
        else At(s.(fs := Link(s.fs, n), log := s.log + [Effect(p.exec, x)]), p, PublishStep(PDrop, x))
      else if ph.PDrop? then
        At(s.(fs := Clear(s.fs, n)),
           p.(st := p.st.(completed := x.step, updatedAt := x.completedAt,
                          status := if x.step == p.task.total then Completed else p.st.status)), Emitting)
      else At(s.(fs := Stageward(s.fs, n, StepRec(x), ph)), p, PublishStep(NextPhase(ph), x))
  }

  function Advance(s: Sys, p: Proc, choice: Choice): (r: Sys)
    requires FsOk(s.fs)
  {
    match p.pc
    case PublishTask(ph) => AfterTask(s, p, ph)
    case Reading => AfterReading(s, p)
    case Cleaning => AfterCleaning(s, p, choice)
    case Saving(ph, after) => AfterSaving(s, p, ph, after)
    case Entering => if choice.Halt? then Halted(s, p, choice.said) else At(Say(s, p), p, Looping)
    case Looping => AfterLooping(s, p, choice)
    case PublishStep(ph, x) => AfterStep(s, p, ph, x)
    case Emitting => if choice.Halt? then Halted(s, p, choice.said) else At(Say(s, p), p, Saving(PClear, NextStep))
  }

  /** The stage that a failing publication or checkpoint removes on its way out. */
  function StageOf(pc: Pc): Option<Name> {
    match pc
    case PublishTask(_) => Some(TaskFile)
    case Saving(_, _) => Some(StateFile)
    case PublishStep(_, x) => if x.step >= 0 then Some(StepFile(x.step)) else None
    case _ => None
  }

  function Failed(s: Sys, p: Proc): (r: Sys) {
    Released(if StageOf(p.pc).Some? then s.(fs := Clear(s.fs, StageOf(p.pc).value)) else s)
  }

  function Apply(s: Sys, a: Action): (r: Sys)
    requires FsOk(s.fs)
  {
    match a
    case Tick(delta) => s.(clock := s.clock + delta)
    case CreateLock => if s.lock.NoLock? && s.fs.dir == map[] then s.(lock := HalfLock, starter := true) else s
    case FillLock => if s.starter && s.lock.HalfLock? then s.(lock := Lock) else s
    case StarterDies => s.(starter := false)
    case AcquireStart(task, pid) =>
      if s.starter && s.lock == Lock && s.holder.None? && ValidBounds(task.total, task.interval) && 0 < pid < 0x8000_0000 then
        s.(starter := false, execs := s.execs + 1,
           holder := Some(Proc(s.execs, pid, Request("", "", 0, 0), task, NOBODY, PublishTask(PClear))))
      else s
    case AcquireResume(pid, request) =>
      if s.lock == Lock && s.holder.None? && 0 < pid < 0x8000_0000 then
        s.(execs := s.execs + 1, holder := Some(Proc(s.execs, pid, request, NOBODY.task, NOBODY, Reading)))
      else s
    case Proceed(choice) => if s.holder.Some? then Advance(s, s.holder.value, choice) else s
    case Fail => if s.holder.Some? then Failed(s, s.holder.value) else s
    case Die => Released(s)
  }
}
