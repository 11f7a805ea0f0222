/** Exactly-once effects, one execution per segment, and recovery, over every run. */
module RetainedLaws {
  import opened Bytes
  import opened FileSystem
  import opened RetainedSpec
  import opened RetainedInv
  import opened RetainedRuns

  /** Any interleaving of starts, resumes, deaths and failures. */
  ghost function Run(actions: seq<Action>): (s: Sys)
    ensures Inv(s)
  {
    if actions == [] then
      InitInv();
      INIT
    else
      var s := Run(actions[..|actions| - 1]);
      ApplyKeeps(s, actions[|actions| - 1]);
      Apply(s, actions[|actions| - 1])
  }

  /** Exactly once: the published step files are exactly 1..n, each holds its own number, segments
      never decrease nor pass the state file's, and the cached count is at most one behind. */
  lemma ExactlyOnce(actions: seq<Action>)
    ensures var s := Run(actions);
            && (forall n: nat :: Final(StepFile(n)) in s.fs.dir <==> 1 <= n <= |s.log|)
            && (forall n: nat :: 1 <= n <= |s.log| ==>
                  && Get(s.fs, StepFile(n)) == Some(StepRec(s.log[n - 1].step)) && s.log[n - 1].step.step == n)
            && (s.log != [] ==>
                  && StateOf(s.fs).Some?
                  && (forall i :: 0 <= i < |s.log| ==> s.log[i].step.segment <= StateOf(s.fs).value.segment)
                  && (forall i, j :: 0 <= i < j < |s.log| ==> s.log[i].step.segment <= s.log[j].step.segment))
            && (StateOf(s.fs).Some? ==> StateOf(s.fs).value.completed <= |s.log| <= StateOf(s.fs).value.completed + 1)
  {
    var s := Run(actions);
    forall n: nat ensures Final(StepFile(n)) in s.fs.dir <==> 1 <= n <= |s.log| {
      assert Get(s.fs, StepFile(n)).Some? <==> 1 <= n <= |s.log|;
    }
  }

  // ---------- single actions ----------

  /** What one action does to the effects: nothing, or one more of them, published by the holder
      under the segment that the state file shows and that this same execution put there. */
  lemma EffectStep(s: Sys, a: Action)
    requires Inv(s)
    ensures var t := Apply(s, a);
            t.log == s.log ||
            (&& s.holder.Some? && StateOf(s.fs).Some?
             && t.log == s.log + [Effect(s.holder.value.exec, t.log[|t.log| - 1].step)]
             && t.log[|t.log| - 1].step.segment == StateOf(s.fs).value.segment
             && s.owner == s.holder.value.exec)
  {
    hide FsOk, StepsAre, FilesOk, SaidOk, Typed, ReadState, Stageward;
    if a.Proceed? && s.holder.Some? {
      var p := s.holder.value;
      if p.pc.PublishStep? && p.pc.ph.PCommit? {
        var t := Apply(s, a);
        assert t.log == s.log || t.log == s.log + [Effect(p.exec, p.pc.next)];
      }
    }
  }

  /** Segment numbers move only up, by one; the execution that raises them owns the new one, and the
      state file then says that its worker is running, since then, with every published step. */
  lemma SegmentStep(s: Sys, a: Action)
    requires Inv(s)
    ensures var t := Apply(s, a);
            && Inv(t)
            && (FileSegment(t.fs) == FileSegment(s.fs) || FileSegment(t.fs) == FileSegment(s.fs) + 1)
            && (FileSegment(t.fs) != FileSegment(s.fs) ==> s.holder.Some? && t.owner == s.holder.value.exec && t.log == s.log)
            && (t.owner != s.owner ==> FileSegment(t.fs) == FileSegment(s.fs) + 1)
            && (FileSegment(t.fs) != FileSegment(s.fs) ==> StateOf(t.fs).Some? && Began(StateOf(t.fs).value, s))
  {
    hide Inv, FileSegment, TaskOf, StateOf, Advance, Failed;
    InvFiles(s);
    ApplyKeeps(s, a);
    SegmentOf(s);
    SegmentOf(Apply(s, a));
    if a.Proceed? && s.holder.Some? {
      SegmentAdvance(s, s.holder.value, a.choice);
    } else if a.Fail? && s.holder.Some? {
      FailView(s, s.holder.value);
    }
  }

  /** The first state of a segment, as the lock holder of s writes it. */
  predicate Began(f: State, s: Sys) {
    && s.holder.Some? && f.status == Running && f.pid == s.holder.value.pid
    && f.startedAt == f.updatedAt <= s.clock && f.completed == |s.log|
  }

  lemma SegmentOf(s: Sys)
    requires Inv(s)
    ensures FileSegment(s.fs) == if StateOf(s.fs).Some? then StateOf(s.fs).value.segment else 0
  {
  }

  lemma FailView(s: Sys, p: Proc)
    requires Inv(s) && s.holder == Some(p)
    ensures var t := Failed(s, p);
            FsOk(t.fs) && StateOf(t.fs) == StateOf(s.fs) && TaskOf(t.fs) == TaskOf(s.fs) && t.log == s.log && t.owner == s.owner
  {
    if StageOf(p.pc).Some? {
      ClearedKeys(s.fs, StageOf(p.pc).value);
      SameView(s.fs, Clear(s.fs, StageOf(p.pc).value));
      hide FsOk, SameReads;
    }
  }

  /** Only a checkpoint changes what the state file shows; then it shows the holder's state. */
  lemma ViewStep(s: Sys, p: Proc, choice: Choice)
    requires Inv(s) && s.holder == Some(p)
    ensures var t := Advance(s, p, choice);
            && FsOk(t.fs)
            && (if p.pc.Saving? && p.pc.ph.PCommit? then
                  && StateOf(t.fs) == Some(p.st) && t.log == s.log
                  && t.owner == (if FileSegment(s.fs) != p.st.segment then p.exec else s.owner)
                else StateOf(t.fs) == StateOf(s.fs) && t.owner == s.owner)
            && (TaskOf(s.fs).Some? ==> TaskOf(t.fs) == TaskOf(s.fs))
  {
    assert FsOk(s.fs);
    hide Inv, FsOk, ReadState, ReadTask, FileSegment, TaskOf, StateOf, SameReads, AfterTask, AfterSaving, AfterStep, NoStages;
    match p.pc
    case PublishTask(ph) => TaskView(s, p, ph);
    case Reading =>
    case Cleaning =>
      if choice.Sweep? {
        ClearedKeys(s.fs, choice.n);
        SameView(s.fs, Clear(s.fs, choice.n));
      }
    case Saving(ph, after) => SaveView(s, p, ph, after);
    case Entering =>
    case Looping =>
    case PublishStep(ph, x) => StepView(s, p, ph, x);
    case Emitting =>
  }

  lemma TaskView(s: Sys, p: Proc, ph: Phase)
    requires Inv(s) && s.holder == Some(p) && p.pc == PublishTask(ph)
    ensures var t := AfterTask(s, p, ph);
            FsOk(t.fs) && StateOf(t.fs) == StateOf(s.fs) && t.owner == s.owner && (TaskOf(s.fs).Some? ==> TaskOf(t.fs) == TaskOf(s.fs))
  {
    TaskKeeps(s, p, ph);
    if ph.PDrop? {
      ClearedKeys(s.fs, TaskFile);
      SameView(s.fs, Clear(s.fs, TaskFile));
    }
    hide FsOk, StepsAre, SaidOk, Stageward, Link, Clear, StateOk, NamesOk;
  }

  lemma SaveView(s: Sys, p: Proc, ph: Phase, after: After)
    requires Inv(s) && s.holder == Some(p) && p.pc == Saving(ph, after)
    ensures var t := AfterSaving(s, p, ph, after);
            && FsOk(t.fs) && t.log == s.log && TaskOf(t.fs) == TaskOf(s.fs)
            && (if ph.PCommit? then StateOf(t.fs) == Some(p.st) && t.owner == (if FileSegment(s.fs) != p.st.segment then p.exec else s.owner)
                else StateOf(t.fs) == StateOf(s.fs) && t.owner == s.owner)
  {
    if ph.PCommit? {
      hide FsOk, StepsAre, LogOk, SaidOk, NamesOk, Typed;
      var fs := Rename(s.fs, StateFile, StateFile);
      RenameReplaces(s.fs, StateFile, StateFile, StateRec(p.st));
      assert fs.dir.Keys <= s.fs.dir.Keys + {Final(StateFile)};
      hide Rename, FileSegment;
      RenamedView(s, fs, p.st);
    } else {
      StagewardKeeps(s.fs, StateFile, StateRec(p.st), ph);
      SameView(s.fs, Stageward(s.fs, StateFile, StateRec(p.st), ph));
      hide FsOk, StepsAre, SameReads, Stageward;
    }
  }

  lemma StepView(s: Sys, p: Proc, ph: Phase, x: Step)
    requires Inv(s) && s.holder == Some(p) && p.pc == PublishStep(ph, x)
    ensures var t := AfterStep(s, p, ph, x);
            FsOk(t.fs) && StateOf(t.fs) == StateOf(s.fs) && t.owner == s.owner && TaskOf(t.fs) == TaskOf(s.fs)
  {
    var n := StepFile(x.step);
    if ph.PCommit? {
      StepFilePublished(s, p, x);
    } else if ph.PDrop? {
      ClearedKeys(s.fs, n);
      SameView(s.fs, Clear(s.fs, n));
    } else {
      StagewardKeeps(s.fs, n, StepRec(x), ph);
      SameView(s.fs, Stageward(s.fs, n, StepRec(x), ph));
    }
    hide FsOk, StepsAre, SameReads, Stageward, Clear, Link, StageReady;
  }

  lemma SegmentAdvance(s: Sys, p: Proc, choice: Choice)
    requires Inv(s) && s.holder == Some(p) && Inv(Advance(s, p, choice))
    ensures var t := Advance(s, p, choice);
            && (FileSegment(t.fs) == FileSegment(s.fs) || FileSegment(t.fs) == FileSegment(s.fs) + 1)
            && (FileSegment(t.fs) != FileSegment(s.fs) ==> t.owner == p.exec && t.log == s.log)
            && (t.owner != s.owner ==> FileSegment(t.fs) == FileSegment(s.fs) + 1)
            && (FileSegment(t.fs) != FileSegment(s.fs) ==> StateOf(t.fs).Some? && Began(StateOf(t.fs).value, s))
  {
    ViewStep(s, p, choice);
    SegmentOf(s);
    SegmentOf(Advance(s, p, choice));
    hide Advance, FsOk, StepsAre, FilesOk, SaidOk, Typed, FileSegment;
  }

  // ---------- whole runs ----------

  lemma {:induction false} LogOnlyGrows(a: seq<Action>, b: seq<Action>)
    ensures Run(a).log <= Run(a + b).log
    decreases |b|
  {
    hide Inv, Apply;
    if b == [] {
      assert a + b == a;
    } else {
      var front := b[..|b| - 1];
      LogOnlyGrows(a, front);
      assert (a + b)[..|a + b| - 1] == a + front;
      EffectStep(Run(a + front), b[|b| - 1]);
      InvFiles(Run(a + front));
      assert Run(a + b) == Apply(Run(a + front), b[|b| - 1]);
    }
  }

  /** No effect is ever rewritten or withdrawn: a longer run has all the effects of a shorter one,
      in the same files. */
  lemma {:induction false} NeverRewritten(a: seq<Action>, b: seq<Action>)
    ensures Run(a).log <= Run(a + b).log
    ensures forall n: nat :: 1 <= n <= |Run(a).log| ==> Get(Run(a + b).fs, StepFile(n)) == Get(Run(a).fs, StepFile(n))
  {
    hide Inv, Get, StateOf, Run;
    LogOnlyGrows(a, b);
    ExactlyOnce(a);
    ExactlyOnce(a + b);
  }

  /** Each admitted process is an execution of its own: its number is new when it takes the lock. */
  lemma {:induction false} ExecutionsDistinct(actions: seq<Action>)
    ensures var s := Run(actions);
            && (forall i :: 0 <= i < |s.log| ==> s.log[i].exec < s.execs)
            && (s.holder.Some? ==> s.holder.value.exec < s.execs)
    decreases |actions|
  {
    if actions != [] {
      var front, a := actions[..|actions| - 1], actions[|actions| - 1];
      ExecutionsDistinct(front);
      EffectStep(Run(front), a);
      SameExecution(Run(front), a);
      hide Inv, Apply;
    }
  }

  lemma SameExecution(s: Sys, a: Action)
    requires FsOk(s.fs)
    ensures var t := Apply(s, a);
            && t.execs >= s.execs
            && (t.holder.Some? ==> (s.holder.Some? && t.holder.value.exec == s.holder.value.exec) ||
                                   (s.holder.None? && t.holder.value.exec == s.execs < t.execs))
  {
    hide FsOk, ReadState, ReadTask, Stageward, FileSegment, Advance, Failed;
    if a.Proceed? && s.holder.Some? {
      AdvanceSame(s, s.holder.value, a.choice);
    } else if a.Fail? && s.holder.Some? {
      assert Failed(s, s.holder.value).execs == s.execs && Failed(s, s.holder.value).holder.None? by { FailedSame(s, s.holder.value); }
    }
  }

  lemma FailedSame(s: Sys, p: Proc)
    ensures Failed(s, p).execs == s.execs && Failed(s, p).holder.None?
  {
    hide Clear;
  }

  lemma AdvanceSame(s: Sys, p: Proc, choice: Choice)
    requires FsOk(s.fs) && s.holder == Some(p)
    ensures var t := Advance(s, p, choice);
            t.execs == s.execs && (t.holder.Some? ==> t.holder.value.exec == p.exec)
  {
    hide FsOk, ReadState, ReadTask, Stageward, FileSegment, Clear, Link, Rename, NoStages, Get, ValidBounds;
  }

  /** Segment exclusivity: two steps under one segment number come from one execution. */
  lemma SegmentExclusive(actions: seq<Action>, i: nat, j: nat)
    requires i < |Run(actions).log| && j < |Run(actions).log|
    requires Run(actions).log[i].step.segment == Run(actions).log[j].step.segment
    ensures Run(actions).log[i].exec == Run(actions).log[j].exec
  {
    assert LogOk(Run(actions).log, TaskOf(Run(actions).fs).value, StateOf(Run(actions).fs).value.segment,
                 Run(actions).owner, Run(actions).clock);
  }

  /** Recovery: whatever died and whatever it left behind, a resume is admitted if and only if it
      names the task's nonce, owner, revision and the state file's segment; it then knows the exact
      number of published steps and finds every file trusted. Any other resume lets go of the lock
      and touches nothing. */
  lemma ResumeExactly(actions: seq<Action>, p: Proc)
    ensures var s := Run(actions);
            var t := AfterReading(s, p);
            if TaskOf(s.fs).Some? && StateOf(s.fs).Some? &&
               p.request == Request(TaskOf(s.fs).value.nonce, TaskOf(s.fs).value.controller, 1, StateOf(s.fs).value.segment)
            then
              && t == s.(holder := t.holder) && t.holder.Some? && t.holder.value.pc == Cleaning
              && t.holder.value.task == TaskOf(s.fs).value
              && t.holder.value.st.segment == p.request.segment && t.holder.value.st.completed == |s.log|
              && (forall q :: q in t.fs.dir ==> Trusted(t.fs, q))
            else t == s.(holder := None)
  {
    var s := Run(actions);
    if TaskOf(s.fs).Some? && StateOf(s.fs).Some? {
      ReadsBack(s, TaskOf(s.fs).value, StateOf(s.fs).value);
      forall q | q in s.fs.dir ensures Trusted(s.fs, q) {
        AlwaysTrusted(s.fs, q);
      }
    }
    hide FsOk, StepsAre, SaidOk, NamesOk, LogOk, Trusted, ScanAll;
  }

  /** Every snapshot a running segment printed satisfies the consumer's checker, then and later. */
  lemma EmittedValid(actions: seq<Action>, i: nat, now: int)
    requires i < |Run(actions).emitted| && Run(actions).emitted[i].at <= now
    ensures TaskOf(Run(actions).fs).Some?
    ensures var task := TaskOf(Run(actions).fs).value;
            ValidSnapshot(Run(actions).emitted[i].snapshot, task.controller, task.nonce, now)
  {
    assert SaidOk(TaskOf(Run(actions).fs), Run(actions).emitted, Run(actions).clock);
  }
}
