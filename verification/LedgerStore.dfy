/** The ledger on disk: each command as file operations, with the process dying after any of
    them, refines the one-commit command of the specification. */
module LedgerStore {
  import opened Bytes
  import F = FileSystem
  import opened LedgerSpec

  type Dir = F.Fs<Name, Rec>

  /** The published records, stages aside. */
  function View(fs: Dir): (led: Ledger)
    requires F.FsOk(fs)
    ensures forall n :: n in led <==> F.Read(fs, n).Some?
    ensures forall n :: n in led ==> led[n] == F.Read(fs, n).value
  {
    map p | p in fs.dir && p.Final? :: p.name := fs.body[fs.dir[p]].rec
  }

  lemma SameView(a: Dir, b: Dir)
    requires F.FsOk(a) && F.FsOk(b) && forall m :: F.Read(a, m) == F.Read(b, m)
    ensures View(a) == View(b)
  {
    hide View;
    hide F.FsOk;
    hide F.Read;
    assert forall n :: n in View(a) <==> n in View(b);
    assert forall n :: n in View(a) ==> View(a)[n] == View(b)[n];
  }

  lemma OneMore(a: Dir, b: Dir, n: Name, rec: Rec)
    requires F.FsOk(a) && F.FsOk(b) && F.Read(b, n) == Some(rec)
    requires forall m :: m != n ==> F.Read(b, m) == F.Read(a, m)
    ensures View(b) == View(a)[n := rec]
  {
    hide View;
    hide F.FsOk;
    hide F.Read;
    var after := View(a)[n := rec];
    assert forall m :: m in View(b) <==> m in after;
    assert forall m :: m in View(b) ==> View(b)[m] == after[m];
  }

  /** One record published or not: the view is that of before or that of after. */
  lemma OneWay(a: Dir, b: Dir, n: Name, rec: Rec)
    requires F.FsOk(a) && F.FsOk(b) && (F.Read(b, n) == F.Read(a, n) || F.Read(b, n) == Some(rec))
    requires forall m :: m != n ==> F.Read(b, m) == F.Read(a, m)
    ensures View(b) == View(a) || View(b) == View(a)[n := rec]
    ensures F.Read(b, n) == Some(rec) ==> View(b) == View(a)[n := rec]
  {
    hide View;
    hide F.FsOk;
    hide F.Read;
    if F.Read(b, n) == Some(rec) {
      OneMore(a, b, n, rec);
    } else {
      SameView(a, b);
    }
  }

  datatype Reply = Refused(error: Error) | Answered(output: Output) | Killed

  /** The stage a record goes through: control.json has one of its own. */
  function StageName(n: Name): Name {
    if n == ControlFile then ControlRevise else n
  }

  class TaskDirectory {
    const disk: F.Directory<Name, Rec>

    constructor (disk: F.Directory<Name, Rec>)
      ensures this.disk == disk
    {
      this.disk := disk;
    }

    /** Runs one command for as long as `ops` file operations allow. Whatever the moment of death,
        the published records are those of before or those of after, never anything else; an
        answer is given only after the commit, and a refusal changes nothing. */
    method BatchCommand(cmd: Command, jobBound: bool, ops: nat) returns (reply: Reply)
      requires F.FsOk(disk.fs)
      modifies disk
      ensures F.FsOk(disk.fs)
      ensures var led := old(View(disk.fs));
              var plan := Decide(led, jobBound, cmd);
              && (View(disk.fs) == led || View(disk.fs) == Committed(led, plan))
              && (reply.Answered? ==>
                    && (plan.Answer? || plan.Commit?) && reply.output == plan.output
                    && View(disk.fs) == Committed(led, plan))
              && (reply.Refused? ==> plan == Refuse(reply.error) && View(disk.fs) == led)
              && (reply.Killed? ==> plan.Commit? && ops < 5)
    {
      var led := View(disk.fs);
      var plan := Decide(led, jobBound, cmd);
      hide Decide, View;
      hide F.FsOk;
      hide F.Read;
      match plan
      case Refuse(error) => return Refused(error);
      case Answer(output) => return Answered(output);
      case Commit(name, rec, output) =>
        ghost var before := disk.fs;
        var outcome;
        if name in led || name == ControlFile {
          outcome := disk.Replace(StageName(name), name, rec, ops);
        } else {
          outcome := disk.Publish(name, rec, ops);
        }
        OneWay(before, disk.fs, name, rec);
        return if outcome.Done? then Answered(output) else Killed;
    }
  }
}
