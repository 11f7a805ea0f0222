/** Which directories the retained reader accepts at all, whoever filled them. */
module RetainedReading {
  import opened Bytes
  import opened FileSystem
  import opened RetainedSpec

  /** Step file n holds a step of this task under its own number, of a segment begun by then. */
  predicate StepAt(fs: Dir, task: Task, segment: int, n: nat)
    requires FsOk(fs)
  {
    match Get(fs, StepFile(n))
    case Some(StepRec(x)) => x.task == task && x.step == n && 1 <= x.segment <= segment
    case _ => false
  }

  function SegmentAt(fs: Dir, n: nat): int
    requires FsOk(fs)
  {
    match Get(fs, StepFile(n))
    case Some(StepRec(x)) => x.segment
    case _ => 0
  }

  /** The steps up to `total` are exactly 1..count, with segments that never decrease. */
  ghost predicate Prefix(fs: Dir, task: Task, segment: int, total: nat, count: nat)
    requires FsOk(fs)
  {
    && count <= total
    && (forall n: nat :: 1 <= n <= count ==> StepAt(fs, task, segment, n))
    && (forall n: nat :: 2 <= n <= count ==> SegmentAt(fs, n - 1) <= SegmentAt(fs, n))
    && (forall n: nat :: count < n <= total ==> Get(fs, StepFile(n)).None?)
  }

  lemma PrefixShorter(fs: Dir, task: Task, segment: int, total: nat, count: nat)
    requires FsOk(fs) && total > 0 && Prefix(fs, task, segment, total, count)
    ensures Prefix(fs, task, segment, total - 1, if count < total then count else count - 1)
  {
    hide StepAt, SegmentAt, Get;
  }

  /** The step loop fails on anything but such a prefix, and counts it. */
  lemma {:induction false} ScanExactly(fs: Dir, task: Task, st: State, n: nat)
    requires FsOk(fs)
    ensures var r := ScanAll(fs, task, st, n);
            && (r.failed.None? ==>
                  && r.count >= 0 && Prefix(fs, task, st.segment, n, r.count) && r.gap == (r.count < n)
                  && r.previous == (if r.count == 0 then 0 else SegmentAt(fs, r.count)))
            && (r.failed.Some? ==> r.failed == Some(InvalidArtifact) && forall count: nat :: !Prefix(fs, task, st.segment, n, count))
  {
    hide Get, FsOk;
    if n > 0 {
      ScanExactly(fs, task, st, n - 1);
      var before, r := ScanAll(fs, task, st, n - 1), ScanAll(fs, task, st, n);
      if r.failed.Some? {
        forall count: nat ensures !Prefix(fs, task, st.segment, n, count) {
          if Prefix(fs, task, st.segment, n, count) {
            var shorter := if count < n then count else count - 1;
            PrefixShorter(fs, task, st.segment, n, count);
            if before.failed.None? {
              PrefixUnique(fs, task, st.segment, n - 1, shorter, before.count);
              ScanFits(fs, task, st, n, before, count);
            }
          }
        }
      }
    }
  }

  lemma PrefixUnique(fs: Dir, task: Task, segment: int, total: nat, a: nat, b: nat)
    requires FsOk(fs) && Prefix(fs, task, segment, total, a) && Prefix(fs, task, segment, total, b)
    ensures a == b
  {
    assert a > 0 ==> StepAt(fs, task, segment, a);
    assert b > 0 ==> StepAt(fs, task, segment, b);
  }

  /** One more file of a prefix passes the loop's check. */
  lemma ScanFits(fs: Dir, task: Task, st: State, n: nat, before: Scan, count: nat)
    requires FsOk(fs) && n > 0 && Prefix(fs, task, st.segment, n, count) && before.failed.None? && before.gap == (before.count < n - 1)
    requires before.count == (if count < n then count else count - 1)
    requires before.previous == (if before.count <= 0 then 0 else SegmentAt(fs, before.count))
    ensures ScanOne(task, st.segment, before, n, Get(fs, StepFile(n))).failed.None?
  {
    if count == n {
      assert StepAt(fs, task, st.segment, n);
      if n >= 2 { assert SegmentAt(fs, n - 1) <= SegmentAt(fs, n); }
    } else {
      assert Get(fs, StepFile(n)).None?;
    }
  }

  /** The whole reading, exactly: it succeeds if and only if there is a valid state record, every
      name is one of the task's, and the steps are a prefix that has caught up with the state; it
      then reports that state with the length of the prefix, completed once the prefix is whole. */
  lemma ReadsExactly(fs: Dir, task: Task)
    requires FsOk(fs) && task.total >= 0
    ensures var r := ReadState(fs, task);
            && (r.Ok? <==>
                && Get(fs, StateFile).Some? && Get(fs, StateFile).value.StateRec? && ValidFor(task, Get(fs, StateFile).value.state)
                && (forall p :: p in fs.dir && p.name.StepFile? ==> 1 <= p.name.n <= task.total)
                && exists count: nat :: Prefix(fs, task, Get(fs, StateFile).value.state.segment, task.total, count)
                                        && Get(fs, StateFile).value.state.completed <= count)
            && (r.Ok? ==>
                  var f := Get(fs, StateFile).value.state;
                  && r.value.completed >= 0 && Prefix(fs, task, f.segment, task.total, r.value.completed)
                  && r.value == f.(completed := r.value.completed, updatedAt := r.value.updatedAt,
                                   status := if r.value.completed == task.total then Completed else f.status))
  {
    match Get(fs, StateFile)
    case Some(StateRec(f)) =>
      ScanExactly(fs, task, f, task.total);
      var r := ScanAll(fs, task, f, task.total);
      hide Get, FsOk, Prefix;
      if r.failed.None? {
        forall count: nat | Prefix(fs, task, f.segment, task.total, count) ensures count == r.count {
          PrefixUnique(fs, task, f.segment, task.total, count, r.count);
        }
      }
    case _ =>
  }

  /** A state record that belongs to the task and makes sense by itself. */
  predicate ValidFor(task: Task, f: State) {
    && f.task == task && 1 <= f.segment <= 1000000 && f.pid > 0 && 0 <= f.completed <= task.total
    && f.startedAt <= f.updatedAt && (f.status == Completed ==> f.completed == task.total)
  }

  /** The task record, exactly. */
  lemma ReadsTaskExactly(fs: Dir, nonce: string)
    requires FsOk(fs)
    ensures var r := ReadTask(fs, nonce);
            r.Ok? <==> && Get(fs, TaskFile).Some? && Get(fs, TaskFile).value.TaskRec?
                       && var t := Get(fs, TaskFile).value.task;
                          t.nonce == nonce && 1 <= t.total <= 32 && 100 <= t.interval && t.interval * t.total <= 120000
    ensures ReadTask(fs, nonce).Ok? ==> Get(fs, TaskFile) == Some(TaskRec(ReadTask(fs, nonce).value))
  {
    match Get(fs, TaskFile)
    case Some(TaskRec(t)) => SameBounds(t.total, t.interval);
    case _ =>
  }
}
