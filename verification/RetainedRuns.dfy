/** The invariant over every run, and what it says about effects and segments. */
module RetainedRuns {
  import opened Bytes
  import opened FileSystem
  import opened RetainedSpec
  import opened RetainedInv

  // ---------- file operations that readers cannot see ----------

  lemma SameView(a: Dir, b: Dir)
    requires FsOk(a) && FsOk(b) && SameReads(a, b)
    ensures TaskOf(a) == TaskOf(b) && StateOf(a) == StateOf(b) && Typed(a) == Typed(b)
    ensures forall log :: StepsAre(a, log) <==> StepsAre(b, log)
  {
    assert Get(a, TaskFile) == Read(a, TaskFile) == Read(b, TaskFile);
    assert Get(a, StateFile) == Read(a, StateFile) == Read(b, StateFile);
    forall log ensures StepsAre(a, log) <==> StepsAre(b, log) {
      assert forall n: nat :: Get(a, StepFile(n)) == Get(b, StepFile(n));
    }
  }

  lemma StagewardKeeps(fs: Dir, n: Name, rec: Rec, ph: Phase)
    requires FsOk(fs) && StageReady(fs, n, rec, ph) && (ph.PClear? || ph.PCreate? || ph.PFill?)
    ensures var r := Stageward(fs, n, rec, ph);
            && FsOk(r) && SameReads(fs, r) && StageReady(r, n, rec, NextPhase(ph))
            && r.dir.Keys <= fs.dir.Keys + {Stage(n)}
  {
    match ph
    case PClear => ClearKeeps(fs, n);
    case PCreate => CreateKeeps(fs, n);
    case PFill => FillKeeps(fs, n, rec);
    case _ =>
  }

  /** A change that no reader sees keeps everything but the holder's own claim. */
  lemma Unseen(s: Sys, fs: Dir, n: Name)
    requires Inv(s) && FsOk(fs) && SameReads(s.fs, fs) && fs.dir.Keys <= s.fs.dir.Keys + {Stage(n)}
    requires Stage(n) in fs.dir && Stage(n) !in s.fs.dir ==>
               if TaskOf(s.fs).None? then n == TaskFile else AllowedPath(TaskOf(s.fs).value, Stage(n))
    ensures && Typed(fs) && StepsAre(fs, s.log) && FilesOk(fs, s.log, s.owner, s.clock)
            && TaskOf(fs) == TaskOf(s.fs) && StateOf(fs) == StateOf(s.fs)
  {
    SameView(s.fs, fs);
    hide FsOk, StepsAre, StateOk, SaidOk;
    assert forall p :: p in fs.dir ==> p in s.fs.dir.Keys + {Stage(n)};
  }

  lemma ClearedKeys(fs: Dir, n: Name)
    requires FsOk(fs)
    ensures FsOk(Clear(fs, n)) && SameReads(fs, Clear(fs, n)) && Stage(n) !in Clear(fs, n).dir
    ensures Clear(fs, n).dir.Keys <= fs.dir.Keys + {Stage(n)}
  {
    ClearKeeps(fs, n);
  }

  // ---------- starting ----------

  lemma TaskKeeps(s: Sys, p: Proc, ph: Phase)
    requires Inv(s) && s.holder == Some(p) && p.pc == PublishTask(ph)
    ensures Inv(AfterTask(s, p, ph))
  {
    hide FsOk, StepsAre, StateOk, SaidOk, Stageward, Clear, SameReads;
    if ph.PCommit? {
      TaskLinked(s, p);
    } else if ph.PDrop? {
      ClearedKeys(s.fs, TaskFile);
      Unseen(s, Clear(s.fs, TaskFile), TaskFile);
    } else {
      StagewardKeeps(s.fs, TaskFile, TaskRec(p.task), ph);
      Unseen(s, Stageward(s.fs, TaskFile, TaskRec(p.task), ph), TaskFile);
    }
  }

  lemma TaskLinked(s: Sys, p: Proc)
    requires Inv(s) && s.holder == Some(p) && p.pc == PublishTask(PCommit)
    ensures Inv(AfterTask(s, p, PCommit))
  {
    assert Get(s.fs, TaskFile).None?;
    LinkPublishes(s.fs, TaskFile, TaskRec(p.task));
    var fs := Link(s.fs, TaskFile);
    assert Get(fs, TaskFile) == Some(TaskRec(p.task)) && Get(fs, StateFile) == Get(s.fs, StateFile);
    assert forall n: nat :: Get(fs, StepFile(n)) == Get(s.fs, StepFile(n));
    assert forall q :: q in fs.dir ==> q.name == TaskFile;
  }

  // ---------- resuming ----------

  lemma ReadingKeeps(s: Sys, p: Proc)
    requires Inv(s) && s.holder == Some(p) && p.pc == Reading
    ensures Inv(AfterReading(s, p))
  {
    if TaskOf(s.fs).Some? && StateOf(s.fs).Some? {
      ReadsBack(s, TaskOf(s.fs).value, StateOf(s.fs).value);
    }
    hide FsOk, StepsAre, ReadState, SaidOk, NamesOk, LogOk;
  }

  lemma CleaningKeeps(s: Sys, p: Proc, choice: Choice)
    requires Inv(s) && s.holder == Some(p) && p.pc == Cleaning
    ensures Inv(AfterCleaning(s, p, choice))
  {
    if choice.Sweep? {
      ClearedKeys(s.fs, choice.n);
      Unseen(s, Clear(s.fs, choice.n), choice.n);
    }
    hide FsOk, StepsAre, SaidOk, NamesOk, LogOk;
  }

  // ---------- the checkpoint ----------

  lemma SavingKeeps(s: Sys, p: Proc, ph: Phase, after: After)
    requires Inv(s) && s.holder == Some(p) && p.pc == Saving(ph, after) && !ph.PDrop?
    ensures Inv(AfterSaving(s, p, ph, after))
  {
    if ph.PCommit? {
      hide AfterSaving, Inv;
      Saved(s, p, after);
    } else {
      Staged(s, p, ph, after);
    }
  }

  lemma Staged(s: Sys, p: Proc, ph: Phase, after: After)
    requires Inv(s) && s.holder == Some(p) && p.pc == Saving(ph, after) && !ph.PDrop? && !ph.PCommit?
    ensures Inv(AfterSaving(s, p, ph, after))
  {
    hide FsOk, StepsAre, StateOk, SaidOk, NamesOk, Stageward, ValidState, Savable;
    StagewardKeeps(s.fs, StateFile, StateRec(p.st), ph);
    Unseen(s, Stageward(s.fs, StateFile, StateRec(p.st), ph), StateFile);
    SavableThere(s, p, Stageward(s.fs, StateFile, StateRec(p.st), ph));
  }

  lemma SavableThere(s: Sys, p: Proc, fs: Dir)
    requires FsOk(s.fs) && FsOk(fs) && StateOf(fs) == StateOf(s.fs)
    ensures forall pc :: Savable(s.(fs := fs, holder := Some(p.(pc := pc))), p.(pc := pc)) <==> Savable(s, p)
  {
    hide FsOk, StateOf;
  }

  lemma Saved(s: Sys, p: Proc, after: After)
    requires Inv(s) && s.holder == Some(p) && p.pc == Saving(PCommit, after)
    ensures Inv(AfterSaving(s, p, PCommit, after))
  {
    hide FsOk, StepsAre, LogOk, SaidOk, NamesOk, Typed;
    var fs := Rename(s.fs, StateFile, StateFile);
    RenameReplaces(s.fs, StateFile, StateFile, StateRec(p.st));
    assert fs.dir.Keys <= s.fs.dir.Keys + {Final(StateFile)};
    hide Rename;
    RenamedView(s, fs, p.st);
    var owner := if FileSegment(s.fs) != p.st.segment then p.exec else s.owner;
    LogReowned(s, p, owner);
    hide FileSegment;
  }

  lemma RenamedView(s: Sys, fs: Dir, st: State)
    requires FsOk(s.fs) && FsOk(fs) && Typed(s.fs) && StepsAre(s.fs, s.log)
    requires Read(fs, StateFile) == Some(StateRec(st)) && forall m :: m != StateFile ==> Read(fs, m) == Read(s.fs, m)
    requires fs.dir.Keys <= s.fs.dir.Keys + {Final(StateFile)}
    ensures TaskOf(fs) == TaskOf(s.fs) && StateOf(fs) == Some(st) && Typed(fs) && StepsAre(fs, s.log)
    ensures forall task :: NamesOk(task, s.fs) ==> NamesOk(task, fs)
  {
    assert Get(fs, TaskFile) == Get(s.fs, TaskFile) && Get(fs, StateFile) == Some(StateRec(st));
    assert forall n: nat :: Get(fs, StepFile(n)) == Get(s.fs, StepFile(n));
    forall task | NamesOk(task, s.fs) ensures NamesOk(task, fs) {
      forall q | q in fs.dir ensures AllowedPath(task, q) {
        assert q in s.fs.dir.Keys + {Final(StateFile)};
      }
    }
  }

  /** A fresh segment number belongs to the execution that writes it first. */
  lemma LogReowned(s: Sys, p: Proc, owner: nat)
    requires FsOk(s.fs) && FilesOk(s.fs, s.log, s.owner, s.clock) && Ready(s, p) && Savable(s, p)
    requires owner == if FileSegment(s.fs) != p.st.segment then p.exec else s.owner
    ensures LogOk(s.log, p.task, p.st.segment, owner, s.clock)
    ensures p.st.completed < p.task.total ==> owner == p.exec
  {
  }

  // ---------- the loop ----------

  lemma SayKeeps(s: Sys, p: Proc)
    requires Inv(s) && Ready(s, p) && StatusExact(p)
    ensures SaidOk(TaskOf(s.fs), Say(s, p).emitted, s.clock) && ValidSnapshot(SnapshotOf(p.task, p.st), p.task.controller, p.task.nonce, s.clock)
  {
    SameBounds(p.task.total, p.task.interval);
  }

  lemma HaltedKeeps(s: Sys, p: Proc, said: bool)
    requires Inv(s) && s.holder == Some(p) && Ready(s, p) && StatusExact(p) && 0 < p.pid < PID_LIMIT && !s.starter
    requires StateOf(s.fs).Some? && SameSegment(StateOf(s.fs).value, p.st) && (s.owner == p.exec || |s.log| == p.task.total)
    ensures Inv(Halted(s, p, said))
  {
    SayKeeps(s, p);
    hide FsOk, StepsAre, NamesOk, LogOk, SaidOk, ValidSnapshot;
  }

  lemma LoopingKeeps(s: Sys, p: Proc, choice: Choice)
    requires Inv(s) && s.holder == Some(p) && p.pc == Looping
    ensures Inv(AfterLooping(s, p, choice))
  {
    if p.st.completed < p.task.total && choice.Halt? {
      HaltedKeeps(s, p, false);
    }
    hide FsOk, StepsAre, NamesOk, LogOk, SaidOk;
  }

  lemma StepKeeps(s: Sys, p: Proc, ph: Phase, x: Step)
    requires Inv(s) && s.holder == Some(p) && p.pc == PublishStep(ph, x)
    ensures Inv(AfterStep(s, p, ph, x))
  {
    if ph.PCommit? {
      StepLinked(s, p, x);
    } else if ph.PDrop? {
      StepDropped(s, p, x);
    } else {
      StepStaged(s, p, ph, x);
    }
  }

  lemma StepStaged(s: Sys, p: Proc, ph: Phase, x: Step)
    requires Inv(s) && s.holder == Some(p) && p.pc == PublishStep(ph, x) && !ph.PCommit? && !ph.PDrop?
    ensures Inv(AfterStep(s, p, ph, x))
  {
    hide FsOk, StepsAre, NamesOk, LogOk, SaidOk, Stageward, StageReady, Typed, SameReads;
    var n := StepFile(x.step);
    StagewardKeeps(s.fs, n, StepRec(x), ph);
    Unseen(s, Stageward(s.fs, n, StepRec(x), ph), n);
  }

  lemma StepDropped(s: Sys, p: Proc, x: Step)
    requires Inv(s) && s.holder == Some(p) && p.pc == PublishStep(PDrop, x)
    ensures Inv(AfterStep(s, p, PDrop, x))
  {
    hide FsOk, StepsAre, NamesOk, LogOk, SaidOk, Clear, Typed, SameReads;
    var n := StepFile(x.step);
    ClearedKeys(s.fs, n);
    Unseen(s, Clear(s.fs, n), n);
  }

  /** The effect itself: one more step file, one more entry, nothing rewritten. */
  lemma StepLinked(s: Sys, p: Proc, x: Step)
    requires Inv(s) && s.holder == Some(p) && p.pc == PublishStep(PCommit, x)
    ensures Inv(AfterStep(s, p, PCommit, x))
    ensures AfterStep(s, p, PCommit, x).log == s.log + [Effect(p.exec, x)]
  {
    hide FsOk, StepsAre, LogOk, SaidOk, NamesOk, Typed, Link;
    StepFilePublished(s, p, x);
    LogGrows(s, p, x);
  }

  lemma StepFilePublished(s: Sys, p: Proc, x: Step)
    requires Inv(s) && Stepping(s, p, PCommit, x)
    ensures var fs := Link(s.fs, StepFile(x.step));
            && Final(StepFile(x.step)) !in s.fs.dir && Stage(StepFile(x.step)) in s.fs.dir
            && FsOk(fs) && TaskOf(fs) == TaskOf(s.fs) && StateOf(fs) == StateOf(s.fs) && Typed(fs)
            && StepsAre(fs, s.log + [Effect(p.exec, x)]) && NamesOk(p.task, fs)
  {
    var n := StepFile(x.step);
    assert Get(s.fs, n).None?;
    hide FsOk, StepsAre, LogOk, SaidOk, NamesOk, Typed;
    LinkPublishes(s.fs, n, StepRec(x));
    var fs := Link(s.fs, n);
    assert fs.dir.Keys <= s.fs.dir.Keys + {Final(n)};
    hide Link;
    LinkedView(s, fs, p, x);
  }

  lemma LinkedView(s: Sys, fs: Dir, p: Proc, x: Step)
    requires FsOk(s.fs) && FsOk(fs) && Typed(s.fs) && StepsAre(s.fs, s.log)
    requires x.step == |s.log| + 1 && 1 <= x.step <= p.task.total && NamesOk(p.task, s.fs)
    requires Read(fs, StepFile(x.step)) == Some(StepRec(x))
    requires forall m :: m != StepFile(x.step) ==> Read(fs, m) == Read(s.fs, m)
    requires fs.dir.Keys <= s.fs.dir.Keys + {Final(StepFile(x.step))}
    ensures TaskOf(fs) == TaskOf(s.fs) && StateOf(fs) == StateOf(s.fs) && Typed(fs)
    ensures StepsAre(fs, s.log + [Effect(p.exec, x)]) && NamesOk(p.task, fs)
  {
    assert Get(fs, TaskFile) == Get(s.fs, TaskFile) && Get(fs, StateFile) == Get(s.fs, StateFile);
    var log := s.log + [Effect(p.exec, x)];
    forall n: nat ensures Get(fs, StepFile(n)) == if 1 <= n <= |log| then Some(StepRec(log[n - 1].step)) else None {
      if n != x.step {
        assert Get(fs, StepFile(n)) == Get(s.fs, StepFile(n));
      }
    }
    forall q | q in fs.dir ensures AllowedPath(p.task, q) {
      assert q in s.fs.dir.Keys + {Final(StepFile(x.step))};
    }
  }

  lemma LogGrows(s: Sys, p: Proc, x: Step)
    requires FsOk(s.fs) && FilesOk(s.fs, s.log, s.owner, s.clock) && Stepping(s, p, PCommit, x)
    ensures LogOk(s.log + [Effect(p.exec, x)], p.task, p.st.segment, s.owner, s.clock)
  {
    var log := s.log + [Effect(p.exec, x)];
    forall i, j | 0 <= i < |log| && 0 <= j < |log| && log[i].step.segment == log[j].step.segment
      ensures log[i].exec == log[j].exec
    {
    }
  }

  // ---------- every action ----------

  lemma AdvanceKeeps(s: Sys, p: Proc, choice: Choice)
    requires Inv(s) && s.holder == Some(p)
    ensures Inv(Advance(s, p, choice))
  {
    match p.pc
    case PublishTask(ph) => TaskKeeps(s, p, ph);
    case Reading => ReadingKeeps(s, p);
    case Cleaning => CleaningKeeps(s, p, choice);
    case Saving(ph, after) => SavingKeeps(s, p, ph, after);
    case Entering => EnteringKeeps(s, p, choice);
    case Looping => LoopingKeeps(s, p, choice);
    case PublishStep(ph, x) => StepKeeps(s, p, ph, x);
    case Emitting => EmittingKeeps(s, p, choice);
  }

  lemma EnteringKeeps(s: Sys, p: Proc, choice: Choice)
    requires Inv(s) && s.holder == Some(p) && p.pc == Entering
    ensures Inv(Advance(s, p, choice))
  {
    if choice.Halt? {
      HaltedKeeps(s, p, choice.said);
    } else {
      SayKeeps(s, p);
      hide FsOk, StepsAre, NamesOk, LogOk, SaidOk;
    }
  }

  lemma EmittingKeeps(s: Sys, p: Proc, choice: Choice)
    requires Inv(s) && s.holder == Some(p) && p.pc == Emitting
    ensures Inv(Advance(s, p, choice))
  {
    if choice.Halt? {
      HaltedKeeps(s, p, choice.said);
    } else {
      SayKeeps(s, p);
      hide FsOk, StepsAre, NamesOk, LogOk, SaidOk;
    }
  }

  lemma FailedKeeps(s: Sys, p: Proc)
    requires Inv(s) && s.holder == Some(p)
    ensures Inv(Failed(s, p))
  {
    if StageOf(p.pc).Some? {
      var n := StageOf(p.pc).value;
      ClearedKeys(s.fs, n);
      Unseen(s, Clear(s.fs, n), n);
    }
    hide FsOk, StepsAre, StateOk, SaidOk;
  }

  lemma ApplyKeeps(s: Sys, a: Action)
    requires Inv(s)
    ensures Inv(Apply(s, a))
  {
    match a
    case Proceed(choice) => if s.holder.Some? { AdvanceKeeps(s, s.holder.value, choice); }
    case Fail => if s.holder.Some? { FailedKeeps(s, s.holder.value); }
    case _ => OtherwiseKeeps(s, a);
  }

  lemma OtherwiseKeeps(s: Sys, a: Action)
    requires Inv(s) && !a.Proceed? && !a.Fail?
    ensures Inv(Apply(s, a))
  {
    hide FsOk, StepsAre, NamesOk;
  }
}
