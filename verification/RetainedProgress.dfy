/** An undisturbed segment does its work: nothing but a finished task, a stop, a failure or death
    makes a process let go of the lock, and from wherever the system stands it can still finish. */
module RetainedProgress {
  import opened Bytes
  import opened FileSystem
  import opened RetainedSpec
  import opened RetainedInv
  import opened RetainedRuns
  import opened RetainedLaws

  /** A process that starts the task or runs its segment, and is not on its way out. */
  predicate Working(pc: Pc) {
    match pc
    case Reading => false
    case Cleaning => false
    case Saving(_, after) => !after.Leave?
    case _ => true
  }

  /** Every step is published and the state file says so. */
  predicate Finished(s: Sys, task: Task)
    requires FsOk(s.fs)
  {
    && TaskOf(s.fs) == Some(task) && |s.log| == task.total
    && StateOf(s.fs).Some? && StateOf(s.fs).value.status == Completed && StateOf(s.fs).value.completed == task.total
  }

  // ---------- one operation ----------

  function Done(ph: Phase): nat {
    match ph
    case PClear => 0
    case PCreate => 1
    case PFill => 2
    case PCommit => 3
    case PDrop => 4
  }

  /** The operations still ahead of a working process: eleven for each step, one to leave the loop. */
  function Ahead(p: Proc): int {
    var loop := 11 * (p.task.total - p.st.completed) + 1;
    match p.pc
    case PublishTask(ph) => (5 - Done(ph)) + 4 + 1 + 11 * p.task.total + 1
    case Saving(ph, EnterSegment) => (4 - Done(ph)) + 1 + loop
    case Saving(ph, _) => (4 - Done(ph)) + loop
    case Entering => 1 + loop
    case PublishStep(ph, _) => loop - 1 - Done(ph)
    case Emitting => 5 + loop
    case _ => loop
  }

  /** The first count that the process has yet to print. */
  function Owed(p: Proc): int {
    match p.pc
    case PublishTask(_) => 0
    case Saving(_, EnterSegment) => p.st.completed
    case Entering => p.st.completed
    case Emitting => p.st.completed
    case _ => p.st.completed + 1
  }

  /** What is printed names the worker, segment and start that the state file shows. */
  predicate ShownBy(f: State, v: Snapshot) {
    && v.nonce == f.task.nonce && v.controller == f.task.controller && v.total == f.task.total && v.interval == f.task.interval
    && v.segment == f.segment && v.pid == f.pid && v.startedAt == f.startedAt
  }

  /** A step is stamped with the moment its publication begins; what is printed and then saved behind
      it carries that stamp. */
  predicate Timely(s: Sys, p: Proc, t: Sys, q: Proc)
    requires FsOk(t.fs)
  {
    && (p.pc.Looping? ==> q.pc.PublishStep? && q.pc.next.completedAt == s.clock)
    && (p.pc.PublishStep? && q.pc.PublishStep? ==> q.pc.next == p.pc.next)
    && (p.pc.Emitting? ==>
          && t.emitted != [] && t.log != []
          && t.emitted[|t.emitted| - 1].snapshot.updatedAt == t.log[|t.log| - 1].step.completedAt)
    && (p.pc.Saving? && p.pc.after.NextStep? && q.pc.Looping? ==>
          && StateOf(t.fs).Some? && t.log != []
          && StateOf(t.fs).value.updatedAt == t.log[|t.log| - 1].step.completedAt)
  }

  /** What one undisturbed operation leads to: one operation less ahead, with what is owed printed,
      or the finished task and the free lock. */
  ghost predicate GoesOn(s: Sys, p: Proc, t: Sys)
    requires FsOk(t.fs)
  {
    && Ahead(p) >= 1 && (t.holder.None? <==> Ahead(p) == 1)
    && (t.holder.None? ==> Finished(t, p.task) && t.emitted == s.emitted && Owed(p) == p.task.total + 1)
    && (t.holder.Some? ==>
          var q := t.holder.value;
          && Working(q.pc) && q.task == p.task && q.exec == p.exec && Ahead(q) == Ahead(p) - 1 && Timely(s, p, t, q)
          && (if Owed(q) == Owed(p) then t.emitted == s.emitted
              else && Owed(q) == Owed(p) + 1 && |t.emitted| == |s.emitted| + 1 && s.emitted <= t.emitted
                   && t.emitted[|s.emitted|].snapshot.completed == Owed(p)
                   && StateOf(t.fs).Some? && ShownBy(StateOf(t.fs).value, t.emitted[|s.emitted|].snapshot)))
  }

  /** One undisturbed operation of a working process: it lets go of the lock exactly when nothing is
      ahead but leaving the loop, and then the task is finished. */
  lemma GoOn(s: Sys, p: Proc)
    requires Inv(s) && s.holder == Some(p) && Working(p.pc)
    ensures Inv(Apply(s, Proceed(Go))) && GoesOn(s, p, Apply(s, Proceed(Go)))
  {
    hide Inv, FsOk, AfterTask, AfterStep, AfterSaving, AfterLooping, AfterCleaning, AfterReading, GoesOn;
    InvFiles(s);
    ApplyKeeps(s, Proceed(Go));
    InvFiles(Apply(s, Proceed(Go)));
    match p.pc
    case PublishTask(ph) => GoTask(s, p, ph);
    case PublishStep(ph, x) => GoStep(s, p, ph, x);
    case Saving(ph, after) => GoSave(s, p, ph, after);
    case _ => GoLoop(s, p);
  }

  lemma GoLoop(s: Sys, p: Proc)
    requires Inv(s) && s.holder == Some(p) && (p.pc.Entering? || p.pc.Looping? || p.pc.Emitting?)
    ensures GoesOn(s, p, Advance(s, p, Go))
  {
    assert StateOf(s.fs).Some? && StateOf(s.fs).value.task == p.task;
    hide FsOk, StepsAre, FilesOk, SaidOk, Typed, LockOk;
  }

  lemma GoSave(s: Sys, p: Proc, ph: Phase, after: After)
    requires Inv(s) && s.holder == Some(p) && p.pc == Saving(ph, after) && !after.Leave?
    requires FsOk(AfterSaving(s, p, ph, after).fs)
    ensures GoesOn(s, p, AfterSaving(s, p, ph, after))
  {
    hide FsOk, StepsAre, FilesOk, SaidOk, Typed, LockOk, Stageward, Rename, FileSegment, Savable, StateOf, TaskOf;
    SaveView(s, p, ph, after);
  }

  lemma GoTask(s: Sys, p: Proc, ph: Phase)
    requires Inv(s) && s.holder == Some(p) && p.pc == PublishTask(ph)
    requires FsOk(AfterTask(s, p, ph).fs)
    ensures GoesOn(s, p, AfterTask(s, p, ph))
  {
    hide Inv, FsOk, Stageward, Link, Clear;
    TaskFree(s, p, ph);
  }

  lemma GoStep(s: Sys, p: Proc, ph: Phase, x: Step)
    requires Inv(s) && s.holder == Some(p) && p.pc == PublishStep(ph, x)
    requires FsOk(AfterStep(s, p, ph, x).fs)
    ensures GoesOn(s, p, AfterStep(s, p, ph, x))
  {
    hide Inv, FsOk, Stageward, Link, Clear, Finished;
    StepFree(s, p, ph, x);
  }

  lemma TaskFree(s: Sys, p: Proc, ph: Phase)
    requires Inv(s) && s.holder == Some(p) && p.pc == PublishTask(ph)
    ensures p.task.total >= 1
    ensures ph.PCommit? ==> Final(TaskFile) !in s.fs.dir && Stage(TaskFile) in s.fs.dir
  {
    assert !ph.PDrop? ==> Get(s.fs, TaskFile).None?;
  }

  lemma StepFree(s: Sys, p: Proc, ph: Phase, x: Step)
    requires Inv(s) && s.holder == Some(p) && p.pc == PublishStep(ph, x)
    ensures x.step == p.st.completed + 1 && 0 <= p.st.completed < p.task.total
    ensures ph.PCommit? ==> Final(StepFile(x.step)) !in s.fs.dir && Stage(StepFile(x.step)) in s.fs.dir
  {
    if ph.PCommit? {
      StepFilePublished(s, p, x);
    }
  }

  // ---------- whole segments ----------

  /** n operations of the holder, without a stop, a failure or death. */
  function Undisturbed(n: nat): (r: seq<Action>)
    ensures |r| == n
  {
    seq(n, _ => Proceed(Go))
  }

  /** What was printed since: the counts from `first` to the total, in order. */
  predicate Printed(before: seq<Emission>, after: seq<Emission>, first: int, total: int) {
    && before <= after && |after| == |before| + (total + 1 - first)
    && forall i :: |before| <= i < |after| ==> after[i].snapshot.completed == first + (i - |before|)
  }

  /** From every reachable state with a working holder, undisturbed operations lead to the finished
      task: all steps published, each count printed, and the lock free, not earlier. */
  lemma {:induction false} RunsToCompletion(actions: seq<Action>, p: Proc)
    requires Run(actions).holder == Some(p) && Working(p.pc)
    ensures Ahead(p) >= 1
    ensures var t := Run(actions + Undisturbed(Ahead(p)));
            && t.holder.None? && Finished(t, p.task)
            && Printed(Run(actions).emitted, t.emitted, Owed(p), p.task.total)
    ensures forall n: nat :: n < Ahead(p) ==> Run(actions + Undisturbed(n)).holder.Some?
    decreases Ahead(p)
  {
    hide Inv, Apply, FsOk, Finished;
    var s := Run(actions);
    GoOn(s, p);
    InvFiles(s);
    var next := actions + [Proceed(Go)];
    assert next[..|next| - 1] == actions;
    var t := Run(next);
    assert t == Apply(s, Proceed(Go));
    if t.holder.None? {
      assert actions + Undisturbed(1) == next;
    } else {
      RunsToCompletion(next, t.holder.value);
      assert actions + Undisturbed(Ahead(p)) == next + Undisturbed(Ahead(p) - 1);
    }
    forall n: nat | n < Ahead(p) ensures Run(actions + Undisturbed(n)).holder.Some? {
      if n == 0 {
        assert actions + Undisturbed(0) == actions;
      } else {
        assert actions + Undisturbed(n) == next + Undisturbed(n - 1);
      }
    }
  }

  /** An undisturbed operation frees the lock of a working process only over a finished task. */
  lemma LetsGoOnlyFinished(actions: seq<Action>, p: Proc)
    requires Run(actions).holder == Some(p) && Working(p.pc)
    requires Run(actions + [Proceed(Go)]).holder.None?
    ensures Finished(Run(actions + [Proceed(Go)]), p.task)
    ensures forall n: nat :: Final(StepFile(n)) in Run(actions + [Proceed(Go)]).fs.dir <==> 1 <= n <= p.task.total
  {
    hide Inv, Apply, FsOk;
    var next := actions + [Proceed(Go)];
    assert next[..|next| - 1] == actions;
    GoOn(Run(actions), p);
    InvFiles(Run(actions));
    ExactlyOnce(next);
  }

  // ---------- stopping ----------

  /** One snapshot more, of what is published. */
  predicate OneSaid(s: Sys, t: Sys) {
    && |t.emitted| == |s.emitted| + 1 && s.emitted <= t.emitted
    && t.emitted[|s.emitted|].snapshot.completed == |s.log|
  }

  /** A stop, at a moment when a snapshot is due and gets out or does not: the last checkpoint shows every published step under the same worker, segment and
      start; it says Interrupted, at the time of the stop, exactly when some step is missing. */
  lemma StopsInOrder(actions: seq<Action>, p: Proc, said: bool)
    requires Run(actions).holder == Some(p) && (p.pc.Entering? || p.pc.Looping? || p.pc.Emitting?)
    requires p.pc.Looping? ==> |Run(actions).log| < p.task.total
    ensures var t := Run(actions + [Proceed(Halt(said))] + Undisturbed(4));
            && t.holder.None? && t.log == Run(actions).log && TaskOf(t.fs) == Some(p.task)
            && StateOf(t.fs).Some? && StateOf(t.fs).value.completed == |t.log|
            && StateOf(Run(actions).fs).Some? && SameSegment(StateOf(Run(actions).fs).value, StateOf(t.fs).value)
            && (if |t.log| == p.task.total then StateOf(t.fs).value.status == Completed
                else StateOf(t.fs).value.status == Interrupted && StateOf(t.fs).value.updatedAt == Run(actions).clock)
            && (if said && !p.pc.Looping? then OneSaid(Run(actions), t) else t.emitted == Run(actions).emitted)
  {
    hide Inv, Apply, FsOk, TaskOf, StateOf;
    var s := Run(actions);
    var next := actions + [Proceed(Halt(said))];
    assert next[..|next| - 1] == actions;
    InvFiles(s);
    var t := Run(next);
    HaltSaves(s, p, said);
    Leaves(next, t.holder.value);
  }

  lemma HaltSaves(s: Sys, p: Proc, said: bool)
    requires Inv(s) && s.holder == Some(p) && (p.pc.Entering? || p.pc.Looping? || p.pc.Emitting?)
    requires p.pc.Looping? ==> |s.log| < p.task.total
    ensures var t := Apply(s, Proceed(Halt(said)));
            && (if said && !p.pc.Looping? then OneSaid(s, t) else t.emitted == s.emitted)
            && t.holder.Some? && t.log == s.log && TaskOf(t.fs) == Some(p.task)
            && var q := t.holder.value;
               && q.pc == Saving(PClear, Leave) && q.task == p.task && q.st.completed == |s.log|
               && StateOf(s.fs).Some? && SameSegment(StateOf(s.fs).value, q.st)
               && (if |s.log| == p.task.total then q.st.status == Completed
                   else q.st.status == Interrupted && q.st.updatedAt == s.clock)
  {
  }

  lemma {:induction false} Leaves(actions: seq<Action>, p: Proc)
    requires Run(actions).holder == Some(p) && p.pc.Saving? && p.pc.after.Leave? && !p.pc.ph.PDrop?
    ensures var t := Run(actions + Undisturbed(4 - Done(p.pc.ph)));
            && t.holder.None? && t.log == Run(actions).log && TaskOf(t.fs) == TaskOf(Run(actions).fs)
            && StateOf(t.fs) == Some(p.st) && t.emitted == Run(actions).emitted
    decreases 4 - Done(p.pc.ph)
  {
    hide Inv, FsOk, TaskOf, StateOf, Stageward, Rename, FileSegment;
    var s := Run(actions);
    var next := actions + [Proceed(Go)];
    assert next[..|next| - 1] == actions;
    InvFiles(s);
    StageThere(s, p);
    SaveView(s, p, p.pc.ph, p.pc.after);
    if p.pc.ph.PCommit? {
      assert actions + Undisturbed(1) == next;
    } else {
      Leaves(next, Run(next).holder.value);
      assert actions + Undisturbed(4 - Done(p.pc.ph)) == next + Undisturbed(3 - Done(p.pc.ph));
    }
  }

  lemma StageThere(s: Sys, p: Proc)
    requires Inv(s) && s.holder == Some(p) && p.pc.Saving?
    ensures p.pc.ph.PCommit? ==> Stage(StateFile) in s.fs.dir
  {
  }

  // ---------- recovery to the end ----------

  /** Every stage can be swept away, one after the other. */
  function StagesOf(fs: Dir): (r: set<Path<Name>>) {
    set p | p in fs.dir && p.Stage?
  }

  lemma FewerStages(fs: Dir, q: Path<Name>)
    requires q in fs.dir && q.Stage?
    ensures |StagesOf(Clear(fs, q.name))| < |StagesOf(fs)|
  {
    assert StagesOf(Clear(fs, q.name)) == StagesOf(fs) - {q};
    assert q in StagesOf(fs);
  }

  lemma {:induction false} SweptClean(actions: seq<Action>, p: Proc) returns (more: seq<Action>)
    requires Run(actions).holder == Some(p) && p.pc.Cleaning?
    ensures var t := Run(actions + more);
            && t.holder == Some(p) && NoStages(t.fs) && t.log == Run(actions).log && t.lock == Run(actions).lock
            && TaskOf(t.fs) == TaskOf(Run(actions).fs) && StateOf(t.fs) == StateOf(Run(actions).fs)
    decreases |StagesOf(Run(actions).fs)|
  {
    hide Inv, FsOk, TaskOf, StateOf, SameReads, Clear;
    var s := Run(actions);
    InvFiles(s);
    if NoStages(s.fs) {
      more := [];
      assert actions + more == actions;
    } else {
      var q :| q in s.fs.dir && !q.Final?;
      var sweep := Proceed(Sweep(q.name));
      var next := actions + [sweep];
      assert next[..|next| - 1] == actions;
      ClearedKeys(s.fs, q.name);
      SameView(s.fs, Clear(s.fs, q.name));
      var t := Run(next);
      assert t == s.(fs := Clear(s.fs, q.name));
      FewerStages(s.fs, q);
      var rest := SweptClean(next, p);
      more := [sweep] + rest;
      assert actions + more == next + rest;
    }
  }

  /** Whatever has died and whatever it left behind: as long as there is a task with a state file
      and the last segment number is not used up, some way leads to the finished task. */
  lemma AlwaysFinishable(actions: seq<Action>) returns (more: seq<Action>)
    requires TaskOf(Run(actions).fs).Some? && StateOf(Run(actions).fs).Some?
    requires StateOf(Run(actions).fs).value.segment < 1000000
    ensures Finished(Run(actions + more), TaskOf(Run(actions).fs).value) && Run(actions + more).holder.None?
  {
    hide Inv, FsOk, TaskOf, StateOf, Finished, Apply, Run, AfterReading, NoStages;
    var s := Run(actions);
    InvFiles(s);
    var task, segment := TaskOf(s.fs).value, StateOf(s.fs).value.segment;
    var resume := AcquireResume(1, Request(task.nonce, task.controller, 1, segment));
    var a1 := actions + [Die, resume];
    Admitted(actions, resume, task, segment);
    var a2 := a1 + [Proceed(Go)];
    var p := Run(a2).holder.value;
    var sweeps := SweptClean(a2, p);
    var a3 := a2 + sweeps;
    var a4 := a3 + [Proceed(Go)];
    Entered(a3, p);
    var q := Run(a4).holder.value;
    RunsToCompletion(a4, q);
    more := [Die, resume] + [Proceed(Go)] + sweeps + [Proceed(Go)] + Undisturbed(Ahead(q));
    assert actions + more == a4 + Undisturbed(Ahead(q));
  }

  lemma RunLast(actions: seq<Action>, a: Action)
    ensures Inv(Run(actions)) && FsOk(Run(actions).fs) && Run(actions + [a]) == Apply(Run(actions), a)
  {
    assert (actions + [a])[..|actions + [a]| - 1] == actions;
    hide Inv, Apply;
    InvFiles(Run(actions));
  }

  lemma Locked(s: Sys)
    requires Inv(s) && TaskOf(s.fs).Some?
    ensures s.lock == Lock
  {
    assert Final(TaskFile) in s.fs.dir;
  }

  lemma Admitted(actions: seq<Action>, resume: Action, task: Task, segment: int)
    requires TaskOf(Run(actions).fs) == Some(task) && StateOf(Run(actions).fs).Some? && StateOf(Run(actions).fs).value.segment == segment
    requires resume == AcquireResume(1, Request(task.nonce, task.controller, 1, segment))
    ensures var t := Run(actions + [Die, resume] + [Proceed(Go)]);
            && t.holder.Some? && t.holder.value.pc == Cleaning && t.holder.value.pid == 1 && t.holder.value.task == task
            && t.holder.value.st.segment == segment
            && TaskOf(t.fs) == Some(task) && StateOf(t.fs) == StateOf(Run(actions).fs)
  {
    hide Inv, FsOk, TaskOf, StateOf, Run, ReadTask, ReadState;
    RunLast(actions, Die);
    Locked(Run(actions));
    var dead := actions + [Die];
    RunLast(dead, resume);
    assert dead + [resume] == actions + [Die, resume];
    var a1 := actions + [Die, resume];
    RunLast(a1, Proceed(Go));
    var p := Run(a1).holder.value;
    ResumeExactly(a1, p);
  }

  lemma Entered(actions: seq<Action>, p: Proc)
    requires Run(actions).holder == Some(p) && p.pc == Cleaning && NoStages(Run(actions).fs) && p.st.segment < 1000000
    ensures var t := Run(actions + [Proceed(Go)]);
            t.holder.Some? && Working(t.holder.value.pc) && t.holder.value.task == p.task
  {
    RunLast(actions, Proceed(Go));
    Cleaned(Run(actions), p);
  }

  lemma Cleaned(s: Sys, p: Proc)
    requires Inv(s) && s.holder == Some(p) && p.pc == Cleaning && NoStages(s.fs) && p.st.segment < 1000000
    ensures var t := Apply(s, Proceed(Go));
            t.holder.Some? && Working(t.holder.value.pc) && t.holder.value.task == p.task
  {
    hide FsOk, StepsAre, LogOk, SaidOk, NamesOk, Typed, NoStages;
  }

  /** A start in an empty directory: for every task within the consumer's bounds it obtains the
      lock, and undisturbed it publishes every step, prints every count from 0 on, and ends. */
  lemma StartsAndFinishes(task: Task, pid: int)
    requires 1 <= task.total <= 32 && 100 <= task.interval && task.interval * task.total <= 120000 && 0 < pid < 0x8000_0000
    ensures var start := [CreateLock, FillLock, AcquireStart(task, pid)];
            && Run(start).holder.Some?
            && var p := Run(start).holder.value;
               && Ahead(p) >= 1 && p.pid == pid && p.task == task
               && var t := Run(start + Undisturbed(Ahead(p)));
                  && t.holder.None? && Finished(t, task) && Printed([], t.emitted, 0, task.total)
  {
    hide Inv, Finished, Run, ValidBounds;
    SameBounds(task.total, task.interval);
    var a0, a1, a2 := [CreateLock], [CreateLock, FillLock], [CreateLock, FillLock, AcquireStart(task, pid)];
    RunLast([], CreateLock);
    assert [] + [CreateLock] == a0 && a0 + [FillLock] == a1 && a1 + [AcquireStart(task, pid)] == a2;
    FreshSystem();
    RunLast(a0, FillLock);
    RunLast(a1, AcquireStart(task, pid));
    RunsToCompletion(a2, Run(a2).holder.value);
  }

  lemma FreshSystem()
    ensures Run([]) == INIT
  {
  }
}
