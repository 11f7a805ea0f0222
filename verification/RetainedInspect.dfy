/** The lock-free inspector: it reads file by file while a writer runs, dies and is resumed, and
    still reports the state of one single moment. */
module RetainedInspect {
  import opened Bytes
  import opened FileSystem
  import opened RetainedSpec
  import opened RetainedInv
  import opened RetainedRuns
  import opened RetainedLaws

  ghost predicate StepAt(trace: seq<Sys>, i: nat)
    requires i + 1 < |trace|
  {
    FsOk(trace[i].fs) && exists a :: trace[i + 1] == Apply(trace[i], a)
  }

  /** The states that the system goes through, one action at a time. */
  ghost predicate IsRun(trace: seq<Sys>) {
    && trace != [] && trace[0] == INIT
    && forall i :: 0 <= i < |trace| - 1 ==> StepAt(trace, i)
  }

  /** The states that any sequence of actions goes through. */
  ghost function StatesOf(actions: seq<Action>): (trace: seq<Sys>) {
    seq(|actions| + 1, i requires 0 <= i <= |actions| => Run(actions[..i]))
  }

  /** Every run of actions is such a trace, so what holds of the inspector beside every trace
      holds of it beside every run. */
  lemma EveryRunIsOne(actions: seq<Action>)
    ensures IsRun(StatesOf(actions)) && StatesOf(actions)[|actions|] == Run(actions)
  {
    hide Inv, Apply;
    var trace := StatesOf(actions);
    assert actions[..|actions|] == actions;
    forall i | 0 <= i < |trace| - 1 ensures StepAt(trace, i) {
      assert actions[..i + 1][..i] == actions[..i];
      InvFiles(Run(actions[..i]));
      assert trace[i + 1] == Apply(trace[i], actions[i]);
    }
  }

  lemma {:induction false} RunKeeps(trace: seq<Sys>, i: nat)
    requires IsRun(trace) && i < |trace|
    ensures Inv(trace[i])
  {
    if i == 0 {
      InitInv();
    } else {
      RunKeeps(trace, i - 1);
      assert StepAt(trace, i - 1);
      hide Apply, FsOk, StepsAre, Typed, FilesOk, SaidOk, HolderOk;
      var a :| trace[i] == Apply(trace[i - 1], a);
      ApplyKeeps(trace[i - 1], a);
    }
  }

  /** What can only grow: effects, the clock, the segment number, and the files themselves. */
  ghost predicate Grows(s: Sys, t: Sys)
    requires Inv(s) && Inv(t)
  {
    && s.log <= t.log && s.clock <= t.clock && FileSegment(s.fs) <= FileSegment(t.fs)
    && (TaskOf(s.fs).Some? ==> TaskOf(t.fs) == TaskOf(s.fs))
    && (StateOf(s.fs).Some? ==> StateOf(t.fs).Some?)
  }

  lemma StepGrows(s: Sys, a: Action)
    requires Inv(s)
    ensures Inv(Apply(s, a)) && Grows(s, Apply(s, a))
  {
    hide Inv, Advance, Failed, FileSegment, TaskOf, StateOf;
    EffectStep(s, a);
    SegmentStep(s, a);
    if a.Proceed? && s.holder.Some? {
      ViewStep(s, s.holder.value, a.choice);
      ClockStill(s, s.holder.value, a.choice);
    } else if a.Fail? && s.holder.Some? {
      FailView(s, s.holder.value);
      assert Failed(s, s.holder.value).clock == s.clock by { FailStill(s, s.holder.value); }
    }
  }

  lemma FailStill(s: Sys, p: Proc)
    ensures Failed(s, p).clock == s.clock
  {
  }

  lemma ClockStill(s: Sys, p: Proc, choice: Choice)
    requires Inv(s)
    ensures Advance(s, p, choice).clock == s.clock
  {
    hide FsOk, ReadState, ReadTask, Stageward, FileSegment, Typed, StepsAre, FilesOk, SaidOk, LockOk, HolderOk;
  }

  lemma GrowsTwice(a: Sys, b: Sys, c: Sys)
    requires Inv(a) && Inv(b) && Inv(c) && Grows(a, b) && Grows(b, c)
    ensures Grows(a, c)
  {
    hide Inv, FileSegment, TaskOf, StateOf;
  }

  lemma {:induction false} RunGrows(trace: seq<Sys>, i: nat, j: nat)
    requires IsRun(trace) && i <= j < |trace|
    ensures Inv(trace[i]) && Inv(trace[j]) && Grows(trace[i], trace[j])
    decreases j - i
  {
    hide Inv, Apply, FileSegment, TaskOf, StateOf;
    RunKeeps(trace, i);
    RunKeeps(trace, j);
    if i < j {
      RunGrows(trace, i, j - 1);
      InvFiles(trace[j - 1]);
      assert StepAt(trace, j - 1);
      var a :| trace[j] == Apply(trace[j - 1], a);
      StepGrows(trace[j - 1], a);
      hide Grows;
      GrowsTwice(trace[i], trace[j - 1], trace[j]);
    }
  }

  // ---------- one read ----------

  datatype Fate = Sound | Shaken | Replaced

  method AnyFate() returns (f: Fate) {
    f := *;
  }

  /** One `retainedReadJSON` at some later moment: the record that the name showed then, or one of
      the failures of a file that changes under the reader. */
  method Glance(trace: seq<Sys>, since: nat, n: Name) returns (r: Result<Rec>, now: nat)
    requires IsRun(trace) && since < |trace|
    ensures since <= now < |trace| && Inv(trace[now])
    ensures r.Ok? ==> Get(trace[now].fs, n) == Some(r.value)
    ensures r.Err? ==> r.error in {Missing, Untrusted, SnapshotChanged}
    ensures r == Err(Missing) ==> Get(trace[now].fs, n).None?
  {
    now :| since <= now < |trace|;
    RunKeeps(trace, now);
    var fate := AnyFate();
    var found := Get(trace[now].fs, n);
    if found.None? {
      r := Err(Missing);
    } else {
      match fate
      case Sound => r := Ok(found.value);
      case Shaken => r := Err(Untrusted);
      case Replaced => r := Err(SnapshotChanged);
    }
  }

  // ---------- one attempt ----------

  /** The state file still says the same segment, and at most one step has appeared since. */
  predicate Calm(s: Sys, original: State)
    requires FsOk(s.fs)
  {
    FileSegment(s.fs) == original.segment && |s.log| <= original.completed + 1
  }

  /** The scan of steps 1..n agrees with the effects of one moment. */
  predicate Agrees(log: seq<Effect>, seen: int, original: State, r: Scan, n: int, clock: int) {
    && original.completed <= seen <= |log|
    && r.count == (if n <= original.completed || n <= seen then n else seen)
    && r.gap == (n > original.completed && n > seen)
    && 0 <= r.count <= |log|
    && r.previous == (if r.count == 0 then 0 else log[r.count - 1].step.segment)
    && r.updatedAt == Newest(log, r.count, original.updatedAt)
  }

  lemma ScanStays(a: Sys, b: Sys, task: Task, original: State, seen: int, r: Scan, n: int)
    requires Inv(a) && Inv(b) && Grows(a, b) && Agrees(a.log, seen, original, r, n, a.clock)
    ensures Agrees(b.log, seen, original, r, n, b.clock)
  {
    assert forall i :: 0 <= i < |a.log| ==> a.log[i] == b.log[i];
    NewestStays(a.log, b.log, r.count, original.updatedAt);
  }

  /** Reading step n while nothing but at most the next step can appear: the check passes, and the
      scan agrees with a moment that is this one if n is the step in question. */
  lemma ScanAdvances(s: Sys, task: Task, original: State, seen: int, r: Scan, n: nat, found: Option<Rec>)
    requires Inv(s) && Calm(s, original) && TaskOf(s.fs) == Some(task) && StateOf(s.fs).Some?
    requires 0 <= original.completed && r.failed.None? && 1 <= n <= task.total
    requires Agrees(s.log, seen, original, r, n - 1, s.clock) && found == Get(s.fs, StepFile(n))
    requires seen <= original.completed + 1
    ensures var now := if n == original.completed + 1 then |s.log| else seen;
            var next := ScanOne(task, original.segment, r, n, found);
            && next.failed.None? && Agrees(s.log, now, original, next, n, s.clock) && now <= original.completed + 1
  {
    SegmentOf(s);
    assert StateOk(s.log, s.owner, s.clock, task, StateOf(s.fs).value);
    assert found == if n <= |s.log| then Some(StepRec(s.log[n - 1].step)) else None;
    hide FsOk, StepsAre, Typed, SaidOk, HolderOk;
  }

  /** The result reports the effects of the moment s, and otherwise the state file f: its worker,
      segment and start, and its status unless every step is published. */
  ghost predicate Shows(s: Sys, task: Task, f: State, st: State, now: int)
    requires Inv(s)
  {
    && st.completed == |s.log| && st.updatedAt == Newest(s.log, |s.log|, f.updatedAt)
    && st.task == f.task && st.pid == f.pid && st.startedAt == f.startedAt && st.segment == f.segment
    && (if |s.log| == task.total then st.status == Completed else st.status == f.status)
    && StateOf(s.fs).Some? && StateOf(s.fs).value.segment == f.segment
    && ValidSnapshot(SnapshotOf(task, st), task.controller, task.nonce, now)
  }

  lemma ResultShows(s: Sys, t: Sys, task: Task, original: State, r: Scan)
    requires Inv(s) && Inv(t) && Grows(s, t) && TaskOf(s.fs) == Some(task) && StateOf(s.fs).Some?
    requires StateOf(t.fs) == Some(original) && FileSegment(s.fs) == original.segment
    requires r.failed.None? && Agrees(t.log, |s.log|, original, r, task.total, t.clock)
    ensures Settle(task, original, r).Ok?
    ensures Shows(s, task, original, Settle(task, original, r).value, t.clock)
  {
    SegmentOf(s);
    OriginalOk(t, task, original);
    OriginalOk(s, task, StateOf(s.fs).value);
    assert ValidBounds(task.total, task.interval);
    hide Inv, FileSegment, TaskOf, StateOf, Newest;
    assert r.count == |s.log|;
    NewestStays(s.log, t.log, |s.log|, original.updatedAt);
    NewestIs(t.log, r.count, original.updatedAt);
    NewestBound(t, task, original, r.count);
    SameBounds(task.total, task.interval);
  }

  lemma NewestBound(s: Sys, task: Task, f: State, n: nat)
    requires StateOk(s.log, s.owner, s.clock, task, f) && n <= |s.log|
    ensures Newest(s.log, n, f.updatedAt) <= s.clock
  {
    NewestIs(s.log, n, f.updatedAt);
  }

  /** One more step file read, at a later moment. */
  lemma StepRead(trace: seq<Sys>, first: nat, was: nat, before: nat, now: nat, task: Task, original: State,
                 r: Scan, n: nat, found: Option<Rec>)
    requires IsRun(trace) && first <= was <= before <= now < |trace|
    requires Inv(trace[first]) && Inv(trace[before]) && Inv(trace[now])
    requires TaskOf(trace[first].fs) == Some(task) && StateOf(trace[first].fs) == Some(original)
    requires 1 <= n <= task.total && r.failed.None? && found == Get(trace[now].fs, StepFile(n))
    requires Calm(trace[before], original) ==>
               && |trace[was].log| <= original.completed + 1
               && Agrees(trace[before].log, |trace[was].log|, original, r, n - 1, trace[before].clock)
    ensures var seen := if n == original.completed + 1 then now else was;
            var next := ScanOne(task, original.segment, r, n, found);
            Calm(trace[now], original) ==>
              && next.failed.None? && |trace[seen].log| <= original.completed + 1
              && Agrees(trace[now].log, |trace[seen].log|, original, next, n, trace[now].clock)
  {
    if Calm(trace[now], original) {
      RunGrows(trace, before, now);
      RunGrows(trace, first, before);
      RunGrows(trace, first, now);
      SegmentOf(trace[first]);
      assert original.completed >= 0 by { OriginalOk(trace[first], task, original); }
      hide Inv, FileSegment, Agrees, Get, IsRun;
      CalmEarlier(trace[before], trace[now], original);
      ScanStays(trace[before], trace[now], task, original, |trace[was].log|, r, n - 1);
      ScanAdvances(trace[now], task, original, |trace[was].log|, r, n, found);
    }
  }

  lemma OriginalOk(s: Sys, task: Task, original: State)
    requires Inv(s) && TaskOf(s.fs) == Some(task) && StateOf(s.fs) == Some(original)
    ensures StateOk(s.log, s.owner, s.clock, task, original)
  {
  }

  /** The step loop of one attempt, reading at later and later moments. */
  method ScanSteps(trace: seq<Sys>, first: nat, task: Task, original: State) returns (r: Scan, ghost seen: nat, now: nat)
    requires IsRun(trace) && first < |trace| && Inv(trace[first])
    requires TaskOf(trace[first].fs) == Some(task) && StateOf(trace[first].fs) == Some(original)
    ensures first <= seen <= now < |trace| && Inv(trace[now])
    ensures r.failed.Some? && r.failed.value !in {Untrusted, SnapshotChanged} ==> !Calm(trace[now], original)
    ensures r.failed.None? && Calm(trace[now], original) ==>
              Agrees(trace[now].log, |trace[seen].log|, original, r, task.total, trace[now].clock)
  {
    hide Inv, Calm, Agrees, Get, IsRun, ScanOne, TaskOf, StateOf;
    r, seen, now := Scan(0, 0, false, original.updatedAt, None), first, first;
    FirstAgrees(trace[first], task, original, r);
    InvFiles(trace[first]);
    var n := 1;
    while n <= task.total && r.failed.None?
      invariant 1 <= n <= task.total + 1 && first <= seen <= now < |trace| && Inv(trace[now]) && FsOk(trace[now].fs)
      invariant r.failed.Some? && r.failed.value !in {Untrusted, SnapshotChanged} ==> !Calm(trace[now], original)
      invariant r.failed.None? && Calm(trace[now], original) ==>
                  && |trace[seen].log| <= original.completed + 1
                  && Agrees(trace[now].log, |trace[seen].log|, original, r, n - 1, trace[now].clock)
      decreases task.total + 1 - n, r.failed.None?
    {
      var glance, at := Glance(trace, now, StepFile(n));
      InvFiles(trace[at]);
      if glance.Err? && glance.error != Missing {
        r, now := r.(failed := Some(glance.error)), at;
      } else {
        var found := if glance.Ok? then Some(glance.value) else None;
        StepRead(trace, first, seen, now, at, task, original, r, n, found);
        r, now := ScanOne(task, original.segment, r, n, found), at;
        if n == original.completed + 1 { seen := now; }
        n := n + 1;
      }
    }
  }

  lemma CalmEarlier(a: Sys, b: Sys, original: State)
    requires Inv(a) && Inv(b) && Grows(a, b) && Calm(b, original) && FileSegment(a.fs) >= original.segment
    ensures Calm(a, original)
  {
  }

  lemma FirstAgrees(s: Sys, task: Task, original: State, r: Scan)
    requires Inv(s) && TaskOf(s.fs) == Some(task) && StateOf(s.fs) == Some(original)
    requires r == Scan(0, 0, false, original.updatedAt, None)
    ensures task.total >= 1
    ensures Agrees(s.log, |s.log|, original, r, 0, s.clock) && |s.log| <= original.completed + 1
  {
    assert StateOk(s.log, s.owner, s.clock, task, original);
  }

  // ---------- the inspector ----------

  lemma StateFound(s: Sys, task: Task, rec: Rec)
    requires Inv(s) && TaskOf(s.fs) == Some(task) && Get(s.fs, StateFile) == Some(rec)
    ensures rec.StateRec? && StateOf(s.fs) == Some(rec.state) && ValidState(task, rec.state)
  {
  }

  lemma NamesAlways(s: Sys, task: Task)
    requires Inv(s) && TaskOf(s.fs) == Some(task)
    ensures NamesOk(task, s.fs)
  {
  }

  lemma StateOfGet(s: Sys)
    requires Inv(s)
    ensures StateOf(s.fs).Some? <==> Get(s.fs, StateFile).Some?
  {
  }

  /** Unchanged at the end of an attempt means calm all along, and the scan's moment is real. */
  lemma AttemptShows(trace: seq<Sys>, first: nat, seen: nat, now: nat, last: nat, task: Task, original: State, r: Scan)
    requires IsRun(trace) && first <= seen <= now <= last < |trace| && Inv(trace[first]) && Inv(trace[now]) && Inv(trace[last])
    requires TaskOf(trace[first].fs) == Some(task) && StateOf(trace[first].fs) == Some(original) == StateOf(trace[last].fs)
    requires r.failed.Some? && r.failed.value !in {Untrusted, SnapshotChanged} ==> !Calm(trace[now], original)
    requires r.failed.None? && Calm(trace[now], original) ==>
               Agrees(trace[now].log, |trace[seen].log|, original, r, task.total, trace[now].clock)
    ensures Inv(trace[seen])
    ensures r.failed.Some? ==> r.failed.value in {Untrusted, SnapshotChanged}
    ensures r.failed.None? ==> Settle(task, original, r).Ok? && Shows(trace[seen], task, original, Settle(task, original, r).value, trace[last].clock)
  {
    RunGrows(trace, first, seen);
    RunGrows(trace, first, now);
    RunGrows(trace, seen, now);
    RunGrows(trace, now, last);
    RunGrows(trace, seen, last);
    RunGrows(trace, first, last);
    SegmentOf(trace[first]);
    SegmentOf(trace[last]);
    OriginalOk(trace[last], task, original);
    hide Inv, FileSegment, Agrees, IsRun;
    CalmEarlier(trace[now], trace[last], original);
    if r.failed.None? {
      ScanStays(trace[now], trace[last], task, original, |trace[seen].log|, r, task.total);
      ResultShows(trace[seen], trace[last], task, original, r);
    }
  }

  /** `retainedReadState` without the lock. Whenever it succeeds, it reports the number of steps
      published at one moment inside the call, and the worker, segment, start and status that the
      state file showed at one, as a snapshot the consumer accepts; and no interleaving makes the
      gap, segment, count or name checks fail. */
  method ReadStateLive(trace: seq<Sys>, start: nat, task: Task) returns (r: Result<State>, ghost moment: nat, ghost read: nat, end: nat)
    requires IsRun(trace) && start < |trace| && Inv(trace[start]) && TaskOf(trace[start].fs) == Some(task)
    ensures start <= moment <= end < |trace| && Inv(trace[moment])
    ensures start <= read <= moment && FsOk(trace[read].fs)
    ensures r.Ok? ==> StateOf(trace[read].fs).Some? && Shows(trace[moment], task, StateOf(trace[read].fs).value, r.value, trace[end].clock)
    ensures r.Err? ==> r.error in {Missing, Untrusted, SnapshotChanged}
    ensures r == Err(Missing) ==> StateOf(trace[start].fs).None?
  {
    end, moment, read := start, start, start;
    InvFiles(trace[start]);
    var attempt := 0;
    hide Inv, Calm, Agrees, Get, IsRun, Settle, Shows;
    while attempt < 3
      invariant start <= end < |trace| && moment == read == start && attempt <= 3
    {
      attempt := attempt + 1;
      var glance, first := Glance(trace, end, StateFile);
      end := first;
      RunGrows(trace, start, first);
      StateOfGet(trace[first]);
      if glance.Err? {
        if glance.error == SnapshotChanged { continue; }
        return Err(glance.error), start, start, end;
      }
      StateFound(trace[first], task, glance.value);
      if !glance.value.StateRec? || !ValidState(task, glance.value.state) { return Err(InvalidArtifact), start, start, end; }
      var listed: nat :| first <= listed < |trace|;
      RunGrows(trace, start, listed);
      NamesAlways(trace[listed], task);
      if !NamesOk(task, trace[listed].fs) { return Err(UnexpectedArtifact), start, start, end; }
      var original := glance.value.state;
      var scan; ghost var seen; var now;
      scan, seen, now := ScanSteps(trace, first, task, original);
      var again, last := Glance(trace, now, StateFile);
      end := last;
      RunGrows(trace, start, last);
      StateOfGet(trace[last]);
      if again.Err? {
        if again.error == SnapshotChanged { continue; }
        return Err(again.error), start, start, end;
      }
      StateFound(trace[last], task, again.value);
      if again.value != StateRec(original) { continue; }
      AttemptShows(trace, first, seen, now, last, task, original, scan);
      if scan.failed.Some? { return Err(scan.failed.value), start, start, end; }
      return Settle(task, original, scan), seen, first, end;
    }
    r := Err(SnapshotChanged);
  }
}
