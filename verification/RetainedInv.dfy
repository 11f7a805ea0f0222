/** What every step of every process keeps, with death between any two file operations. */
module RetainedInv {
  import opened Bytes
  import opened FileSystem
  import opened RetainedSpec

  const PID_LIMIT := 0x8000_0000

  function TaskOf(fs: Dir): (r: Option<Task>)
    requires FsOk(fs)
  {
    match Get(fs, TaskFile)
    case Some(TaskRec(t)) => Some(t)
    case _ => None
  }

  function StateOf(fs: Dir): (r: Option<State>)
    requires FsOk(fs)
  {
    match Get(fs, StateFile)
    case Some(StateRec(st)) => Some(st)
    case _ => None
  }

  predicate Typed(fs: Dir)
    requires FsOk(fs)
  {
    && (Get(fs, TaskFile).Some? ==> Get(fs, TaskFile).value.TaskRec?)
    && (Get(fs, StateFile).Some? ==> Get(fs, StateFile).value.StateRec?)
  }

  /** The published step files are exactly 1..n and hold exactly what was published. */
  ghost predicate StepsAre(fs: Dir, log: seq<Effect>)
    requires FsOk(fs)
  {
    forall n: nat :: Get(fs, StepFile(n)) == if 1 <= n <= |log| then Some(StepRec(log[n - 1].step)) else None
  }

  /** Segments never decrease, never exceed the state file's, and belong to one execution each. */
  predicate LogOk(log: seq<Effect>, task: Task, segment: int, owner: nat, clock: int) {
    && |log| <= task.total
    && (forall i :: 0 <= i < |log| ==>
          && log[i].step.task == task && log[i].step.step == i + 1
          && 1 <= log[i].step.segment <= segment && log[i].step.completedAt <= clock
          && (log[i].step.segment == segment ==> log[i].exec == owner))
    && (forall i, j :: 0 <= i < j < |log| ==> log[i].step.segment <= log[j].step.segment)
    && (forall i, j :: 0 <= i < |log| && 0 <= j < |log| && log[i].step.segment == log[j].step.segment ==>
          log[i].exec == log[j].exec)
  }

  predicate StateOk(log: seq<Effect>, owner: nat, clock: int, task: Task, f: State) {
    && ValidState(task, f) && f.pid < PID_LIMIT && f.updatedAt <= clock
    && f.completed <= |log| <= f.completed + 1
    && LogOk(log, task, f.segment, owner, clock)
  }

  predicate FilesOk(fs: Dir, log: seq<Effect>, owner: nat, clock: int)
    requires FsOk(fs)
  {
    match TaskOf(fs)
    case None => StateOf(fs).None? && log == [] && forall p :: p in fs.dir ==> p == Stage(TaskFile)
    case Some(task) =>
      && ValidBounds(task.total, task.interval) && NamesOk(task, fs)
      && match StateOf(fs)
         case None => log == []
         case Some(f) => StateOk(log, owner, clock, task, f)
  }

  predicate StageReady(fs: Dir, n: Name, rec: Rec, ph: Phase) {
    match ph
    case PCreate => Stage(n) !in fs.dir
    case PFill => Staged(fs, n, Partial)
    case PCommit => Staged(fs, n, Whole(rec))
    case _ => true
  }

  /** The process's own state is valid and in step with the published effects. */
  predicate Ready(s: Sys, p: Proc)
    requires FsOk(s.fs)
  {
    && TaskOf(s.fs) == Some(p.task) && ValidState(p.task, p.st)
    && p.st.completed == |s.log| && p.st.updatedAt <= s.clock && p.st.pid < PID_LIMIT
  }

  predicate StatusExact(p: Proc) {
    p.st.status == Completed <==> p.st.completed == p.task.total
  }

  predicate Savable(s: Sys, p: Proc)
    requires FsOk(s.fs)
  {
    match StateOf(s.fs)
    case None => p.st.segment == 1 && Fresh(p)
    case Some(f) =>
      && f.segment <= p.st.segment <= f.segment + 1
      && (f.segment == p.st.segment ==>
            && (s.owner == p.exec || |s.log| == p.task.total) && f.pid == p.st.pid && f.startedAt == p.st.startedAt)
      && (f.segment < p.st.segment ==> Fresh(p))
  }

  /** A segment about to begin: it names its own worker and its own start. */
  predicate Fresh(p: Proc) {
    p.st.status == Running && p.st.pid == p.pid && p.st.startedAt == p.st.updatedAt
  }

  predicate InSegment(s: Sys, p: Proc)
    requires FsOk(s.fs)
  {
    && Ready(s, p) && StateOf(s.fs) == Some(p.st) && StatusExact(p)
    && (p.st.completed < p.task.total ==> s.owner == p.exec)
  }

  predicate Stepping(s: Sys, p: Proc, ph: Phase, x: Step)
    requires FsOk(s.fs)
  {
    && TaskOf(s.fs) == Some(p.task) && StateOf(s.fs) == Some(p.st) && StatusExact(p)
    && p.st.completed < p.task.total && s.owner == p.exec
    && x == Step(p.task, p.st.segment, p.st.completed + 1, x.completedAt)
    && p.st.startedAt <= x.completedAt <= s.clock
    && x.step >= 0 && StageReady(s.fs, StepFile(x.step), StepRec(x), ph)
    && (if ph.PDrop? then |s.log| == x.step && x.step > 0 && s.log[|s.log| - 1] == Effect(p.exec, x) else |s.log| == p.st.completed)
  }

  /** The process's state carries the time of the last published step. */
  predicate Stamped(s: Sys, p: Proc) {
    s.log != [] && p.st.updatedAt == s.log[|s.log| - 1].step.completedAt
  }

  predicate HolderOk(s: Sys, p: Proc)
    requires FsOk(s.fs)
  {
    0 < p.pid < PID_LIMIT &&
    match p.pc
    case PublishTask(ph) =>
      && ValidBounds(p.task.total, p.task.interval) && StateOf(s.fs).None?
      && StageReady(s.fs, TaskFile, TaskRec(p.task), ph)
      && TaskOf(s.fs) == if ph.PDrop? then Some(p.task) else None
    case Reading => true
    case Cleaning =>
      && Ready(s, p) && StatusExact(p) && StateOf(s.fs).Some? && SameSegment(StateOf(s.fs).value, p.st)
    case Saving(ph, after) =>
      && !ph.PDrop? && Ready(s, p) && Savable(s, p) && (!after.Leave? ==> StatusExact(p)) && (after.NextStep? ==> Stamped(s, p))
      && StageReady(s.fs, StateFile, StateRec(p.st), ph)
    case Entering => InSegment(s, p)
    case Looping => InSegment(s, p)
    case PublishStep(ph, x) => Stepping(s, p, ph, x)
    case Emitting =>
      && Ready(s, p) && StatusExact(p) && Stamped(s, p) && s.owner == p.exec
      && StateOf(s.fs).Some? && SameSegment(StateOf(s.fs).value, p.st)
  }

  predicate SameSegment(f: State, st: State) {
    f.segment == st.segment && f.pid == st.pid && f.startedAt == st.startedAt
  }

  predicate SaidOk(task: Option<Task>, emitted: seq<Emission>, clock: int) {
    emitted != [] ==>
      task.Some? &&
      forall i :: 0 <= i < |emitted| ==>
                    && ValidSnapshot(emitted[i].snapshot, task.value.controller, task.value.nonce, emitted[i].at)
                    && emitted[i].at <= clock
  }

  predicate LockOk(s: Sys) {
    && (s.lock.NoLock? ==> !s.starter) && (s.lock != Lock ==> s.fs.dir == map[] && s.holder.None?)
    && (s.starter ==> s.fs.dir == map[] && (s.holder.Some? ==> s.holder.value.pc.Reading?))
  }

  ghost predicate Inv(s: Sys) {
    && FsOk(s.fs) && Typed(s.fs) && StepsAre(s.fs, s.log)
    && FilesOk(s.fs, s.log, s.owner, s.clock) && SaidOk(TaskOf(s.fs), s.emitted, s.clock) && LockOk(s)
    && (s.holder.Some? ==> HolderOk(s, s.holder.value))
  }

  lemma InvFiles(s: Sys)
    requires Inv(s)
    ensures FsOk(s.fs)
  {
  }

  lemma InitInv()
    ensures Inv(INIT)
  {
  }

  // ---------- reading back what is there ----------

  /** The newest of a time and the times of the first n effects. */
  function Newest(log: seq<Effect>, n: nat, first: int): (r: int)
    requires n <= |log|
  {
    if n == 0 then first else Later(Newest(log, n - 1, first), log[n - 1].step.completedAt)
  }

  /** It is the maximum: at least every one of them, and one of them. */
  lemma {:induction false} NewestIs(log: seq<Effect>, n: nat, first: int)
    requires n <= |log|
    ensures first <= Newest(log, n, first)
    ensures forall i :: 0 <= i < n ==> log[i].step.completedAt <= Newest(log, n, first)
    ensures Newest(log, n, first) == first || exists i :: 0 <= i < n && log[i].step.completedAt == Newest(log, n, first)
  {
    if n > 0 {
      NewestIs(log, n - 1, first);
    }
  }

  lemma {:induction false} NewestStays(a: seq<Effect>, b: seq<Effect>, n: nat, first: int)
    requires n <= |a| && a <= b
    ensures Newest(a, n, first) == Newest(b, n, first)
  {
    if n > 0 {
      NewestStays(a, b, n - 1, first);
      assert a[n - 1] == b[n - 1];
    }
  }

  predicate ScanIs(s: Sys, task: Task, f: State, r: Scan, n: nat)
    requires StateOk(s.log, s.owner, s.clock, task, f)
  {
    && r.failed.None? && r.gap == (n > |s.log|)
    && r.count == (if n <= |s.log| then n else |s.log|)
    && r.previous == (if r.count == 0 then 0 else s.log[r.count - 1].step.segment)
    && r.updatedAt == Newest(s.log, r.count, f.updatedAt)
  }

  lemma {:induction false} ScanReads(s: Sys, task: Task, f: State, n: nat)
    requires FsOk(s.fs) && StepsAre(s.fs, s.log) && StateOk(s.log, s.owner, s.clock, task, f) && n <= task.total
    ensures ScanIs(s, task, f, ScanAll(s.fs, task, f, n), n)
  {
    if n > 0 {
      ScanReads(s, task, f, n - 1);
      assert Get(s.fs, StepFile(n)) == if n <= |s.log| then Some(StepRec(s.log[n - 1].step)) else None;
    }
  }

  /** With nobody else writing, reading back never fails, whatever the dead left behind. It returns
      the state file with the number of published steps and the newest of their times, and the
      file's own status unless every step is published. */
  lemma ReadsBack(s: Sys, task: Task, f: State)
    requires FsOk(s.fs) && StepsAre(s.fs, s.log) && FilesOk(s.fs, s.log, s.owner, s.clock)
    requires TaskOf(s.fs) == Some(task) && StateOf(s.fs) == Some(f)
    ensures var r := ReadState(s.fs, task);
            && r.Ok? && ValidState(task, r.value)
            && r.value.completed == |s.log| && r.value.segment == f.segment && r.value.pid == f.pid
            && r.value.startedAt == f.startedAt && f.updatedAt <= r.value.updatedAt <= s.clock
            && r.value.updatedAt == Newest(s.log, |s.log|, f.updatedAt)
            && (|s.log| == task.total ==> r.value.status == Completed)
            && (|s.log| < task.total ==> r.value.status == f.status && f.status != Completed)
  {
    ScanReads(s, task, f, task.total);
    NewestIs(s.log, |s.log|, f.updatedAt);
  }
}
