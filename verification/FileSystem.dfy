/** A private directory: names, inodes and complete or partial contents, with the file
    operations that every durable record goes through. A process may die between any two. */
module FileSystem {
  import opened Bytes

  /** A record is published under its final name; its stage is ".name.tmp". */
  datatype Path<N> = Final(name: N) | Stage(name: N)

  datatype Body<R> = Partial | Whole(rec: R)

  datatype Fs<N(==), R> = Fs(dir: map<Path<N>, nat>, body: map<nat, Body<R>>, next: nat)

  function Empty<N(==), R>(): (fs: Fs<N, R>)
    ensures FsOk(fs)
  {
    Fs(map[], map[], 0)
  }

  /** Published names hold complete records, and only a record's own stage can share its inode. */
  predicate FsOk<N(==), R>(fs: Fs<N, R>) {
    && (forall p :: p in fs.dir ==> fs.dir[p] in fs.body && fs.dir[p] < fs.next)
    && (forall p :: p in fs.dir && p.Final? ==> fs.body[fs.dir[p]].Whole?)
    && (forall p, q :: p in fs.dir && q in fs.dir && fs.dir[p] == fs.dir[q] ==> p.name == q.name)
  }

  /** What a reader of the final name obtains. */
  function Read<N(==), R>(fs: Fs<N, R>, n: N): (r: Option<R>)
    requires FsOk(fs)
    ensures r.None? <==> Final(n) !in fs.dir
  {
    if Final(n) in fs.dir then Some(fs.body[fs.dir[Final(n)]].rec) else None
  }

  // ---------- single file operations ----------

  function Clear<N(==), R>(fs: Fs<N, R>, n: N): (r: Fs<N, R>) {
    fs.(dir := fs.dir - {Stage(n)})
  }

  function Create<N(==), R>(fs: Fs<N, R>, n: N): (r: Fs<N, R>) {
    Fs(fs.dir[Stage(n) := fs.next], fs.body[fs.next := Partial], fs.next + 1)
  }

  function Fill<N(==), R>(fs: Fs<N, R>, n: N, rec: R): (r: Fs<N, R>)
    requires Stage(n) in fs.dir
  {
    fs.(body := fs.body[fs.dir[Stage(n)] := Whole(rec)])
  }

  function Link<N(==), R>(fs: Fs<N, R>, n: N): (r: Fs<N, R>)
    requires Stage(n) in fs.dir
  {
    fs.(dir := fs.dir[Final(n) := fs.dir[Stage(n)]])
  }

  function Rename<N(==), R>(fs: Fs<N, R>, n: N, target: N): (r: Fs<N, R>)
    requires Stage(n) in fs.dir
  {
    fs.(dir := (fs.dir - {Stage(n)})[Final(target) := fs.dir[Stage(n)]])
  }

  /** The stage is our own unpublished file holding b. */
  predicate Staged<N(==), R(==)>(fs: Fs<N, R>, n: N, b: Body<R>) {
    && Stage(n) in fs.dir && fs.dir[Stage(n)] in fs.body && fs.body[fs.dir[Stage(n)]] == b
    && (forall q :: q in fs.dir && fs.dir[q] == fs.dir[Stage(n)] ==> q == Stage(n))
  }

  ghost predicate SameReads<N(!new), R>(a: Fs<N, R>, b: Fs<N, R>)
    requires FsOk(a) && FsOk(b)
  {
    forall m :: Read(a, m) == Read(b, m)
  }

  lemma ClearKeeps<N(!new), R>(fs: Fs<N, R>, n: N)
    requires FsOk(fs)
    ensures FsOk(Clear(fs, n)) && SameReads(fs, Clear(fs, n)) && Stage(n) !in Clear(fs, n).dir
  {
  }

  lemma CreateKeeps<N(!new), R>(fs: Fs<N, R>, n: N)
    requires FsOk(fs) && Stage(n) !in fs.dir
    ensures FsOk(Create(fs, n)) && SameReads(fs, Create(fs, n)) && Staged(Create(fs, n), n, Partial)
  {
  }

  lemma FillKeeps<N(!new), R>(fs: Fs<N, R>, n: N, rec: R)
    requires FsOk(fs) && Staged(fs, n, Partial)
    ensures FsOk(Fill(fs, n, rec)) && SameReads(fs, Fill(fs, n, rec)) && Staged(Fill(fs, n, rec), n, Whole(rec))
  {
  }

  lemma LinkPublishes<N(!new), R>(fs: Fs<N, R>, n: N, rec: R)
    requires FsOk(fs) && Staged(fs, n, Whole(rec)) && Final(n) !in fs.dir
    ensures FsOk(Link(fs, n)) && Read(Link(fs, n), n) == Some(rec)
    ensures forall m :: m != n ==> Read(Link(fs, n), m) == Read(fs, m)
  {
  }

  lemma RenameReplaces<N(!new), R>(fs: Fs<N, R>, n: N, target: N, rec: R)
    requires FsOk(fs) && Staged(fs, n, Whole(rec))
    ensures FsOk(Rename(fs, n, target)) && Read(Rename(fs, n, target), target) == Some(rec)
    ensures forall m :: m != target ==> Read(Rename(fs, n, target), m) == Read(fs, m)
    ensures Stage(n) !in Rename(fs, n, target).dir
  {
  }

  // ---------- trust ----------

  function Links<N(==), R>(fs: Fs<N, R>, p: Path<N>): (s: set<Path<N>>)
    requires p in fs.dir
  {
    set q | q in fs.dir && fs.dir[q] == fs.dir[p]
  }

  function Partner<N>(p: Path<N>): Path<N> {
    if p.Final? then Stage(p.name) else Final(p.name)
  }

  /** The check that a file has one link, or two of which the other is its own stage or record. */
  predicate Trusted<N(==), R>(fs: Fs<N, R>, p: Path<N>)
    requires p in fs.dir
  {
    |Links(fs, p)| == 1 ||
    (|Links(fs, p)| == 2 && Partner(p) in fs.dir && fs.dir[Partner(p)] == fs.dir[p])
  }

  /** In a well-kept directory the link check never fails, whatever a dead process left behind. */
  lemma AlwaysTrusted<N, R>(fs: Fs<N, R>, p: Path<N>)
    requires FsOk(fs) && p in fs.dir
    ensures Trusted(fs, p)
  {
    var links := Links(fs, p);
    assert p in links;
    forall q | q in links ensures q == p || q == Partner(p) {
      assert q.name == p.name;
    }
    if Partner(p) in links {
      assert links == {p, Partner(p)};
    } else {
      assert links == {p};
    }
  }

  // ---------- the two ways to make a record durable ----------

  datatype Outcome = Done | Exists | Died

  class Directory<N(==, !new), R(!new)> {
    var fs: Fs<N, R>

    constructor ()
      ensures fs == Empty()
    {
      fs := Empty();
    }

    /** `publish`: write a stage, link it without replacing, drop the stage. The process lives for
        `ops` more file operations. */
    method Publish(n: N, rec: R, ops: nat) returns (outcome: Outcome)
      requires FsOk(fs)
      modifies this
      ensures FsOk(fs)
      ensures forall m :: m != n ==> Read(fs, m) == old(Read(fs, m))
      ensures Read(fs, n) == old(Read(fs, n)) || (old(Read(fs, n)).None? && Read(fs, n) == Some(rec))
      ensures outcome.Done? ==> old(Read(fs, n)).None? && Read(fs, n) == Some(rec) && Stage(n) !in fs.dir
      ensures outcome.Exists? ==> old(Read(fs, n)).Some? && Stage(n) !in fs.dir
      ensures outcome.Died? ==> ops < 5
    {
      if ops < 1 { return Died; }
      ClearKeeps(fs, n);
      fs := Clear(fs, n);
      if ops < 2 { return Died; }
      CreateKeeps(fs, n);
      fs := Create(fs, n);
      if ops < 3 { return Died; }
      FillKeeps(fs, n, rec);
      fs := Fill(fs, n, rec);
      if ops < 4 { return Died; }
      if Final(n) in fs.dir {
        ClearKeeps(fs, n);
        fs := Clear(fs, n);
        return Exists;
      }
      LinkPublishes(fs, n, rec);
      fs := Link(fs, n);
      if ops < 5 { return Died; }
      ClearKeeps(fs, n);
      fs := Clear(fs, n);
      outcome := Done;
    }

    /** Stage and rename, for the few records that may change. */
    method Replace(n: N, target: N, rec: R, ops: nat) returns (outcome: Outcome)
      requires FsOk(fs)
      modifies this
      ensures FsOk(fs)
      ensures forall m :: m != target ==> Read(fs, m) == old(Read(fs, m))
      ensures Read(fs, target) == old(Read(fs, target)) || Read(fs, target) == Some(rec)
      ensures outcome.Done? ==> Read(fs, target) == Some(rec) && Stage(n) !in fs.dir
      ensures !outcome.Exists? && (outcome.Died? ==> ops < 4)
    {
      if ops < 1 { return Died; }
      ClearKeeps(fs, n);
      fs := Clear(fs, n);
      if ops < 2 { return Died; }
      CreateKeeps(fs, n);
      fs := Create(fs, n);
      if ops < 3 { return Died; }
      FillKeeps(fs, n, rec);
      fs := Fill(fs, n, rec);
      if ops < 4 { return Died; }
      RenameReplaces(fs, n, target, rec);
      fs := Rename(fs, n, target);
      outcome := Done;
    }
  }
}
