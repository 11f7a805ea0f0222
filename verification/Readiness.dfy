/** What the metadata sink keeps about one connection epoch, row by row, and the story that a
    ready state tells. */
module Readiness {
  import opened Bytes
  import opened ObserverSpec
  import opened ObserverTrace
  import opened ObserverMarks

  datatype Lease = Lease(home: Option<string>, cwd: Option<string>, resume: Option<string>)

  /** A dictionary entry for a request: absent, or the request's id, which a notification lacks. */
  type Key = Option<Option<Id>>

  /** The thread dictionary. */
  datatype Thread = Thread(
    startKey: Key, resumeKey: Key, skillsKey: Key, id: Option<string>, startedId: Option<string>, resumed: bool, barrier: bool)

  const NO_THREAD := Thread(None, None, None, None, None, false, false)

  /** What was said so far: greeting, thread, and skill lists still unanswered. */
  datatype Talk = Talk(
    initialize: Key, homeMatch: Option<bool>, initialized: bool, thread: Thread, skillsPending: set<Option<Id>>)

  datatype Turns = Turns(start: nat, steer: nat)

  datatype Protocol = Protocol(
    conn: int, lease: Lease, valid: bool, closed: bool, upgrades: set<Option<Direction>>, talk: Talk, turns: Turns,
    rpcs: seq<Record>, published: bool)

  const NO_LEASE := Lease(None, None, None)

  const MAX_ROWS := 4096

  function Opening(conn: int, lease: Option<Lease>): (p: Protocol) {
    Protocol(conn, if lease.Some? then lease.value else NO_LEASE, lease.Some?, false, {},
             Talk(None, None, false, NO_THREAD, {}), Turns(0, 0), [], false)
  }

  /** Canonical text of a UUID: lower-case hexadecimal digits in groups of 8, 4, 4, 4 and 12. */
  predicate ThreadId(s: string) {
    |s| == 36 && forall i :: 0 <= i < 36 ==>
                               if i in {8, 13, 18, 23} then s[i] == '-' else '0' <= s[i] <= '9' || 'a' <= s[i] <= 'f'
  }

  predicate Named(s: Option<string>) {
    s.Some? && ThreadId(s.value)
  }

  function Get(k: Key): Option<Id> {
    if k.Some? then k.value else None
  }

  /** The new talk, and whether the row was acceptable. */
  datatype Heard = Heard(talk: Talk, fine: bool)

  function ClientSays(l: Lease, k: Talk, id: Option<Id>, verb: Method, params: Info): (r: Heard) {
    var t := k.thread;
    match verb
    case Initialize => Heard(k.(initialize := Some(id)), k.initialize.None?)
    case Initialized => Heard(k.(initialized := true), !k.initialized && k.homeMatch == Some(true))
    case ThreadResume =>
      Heard(k.(thread := t.(resumeKey := Some(id))),
            k.initialized && t == NO_THREAD && Named(l.resume) && params.thread == l.resume)
    case SkillsList =>
      if t.resumed then Heard(k.(skillsPending := k.skillsPending + {id}, thread := t.(skillsKey := Some(id))), true)
      else Heard(k, true)
    case ThreadStart =>
      Heard(k.(thread := t.(startKey := Some(id))),
            l.resume.None? && k.initialized && t.id.None? && params.cwd == l.cwd)
    case _ => Heard(k, true)
  }

  function Answered(l: Lease, k: Talk, d: Option<Direction>, e: Event): (r: Heard)
    requires e.RpcAnswered?
  {
    var t, fromServer := k.thread, d == Some(Server) && e.asker == Client;
    match e.answered
    case ThreadResume =>
      if e.ok && fromServer && Get(t.resumeKey) == Some(e.rid) && !t.resumed && Named(l.resume)
         && e.rthread.thread == l.resume && e.rthread.cwd == l.cwd then
        Heard(k.(thread := t.(id := l.resume, resumed := true)), true)
      else Heard(k, false)
    case SkillsList =>
      if t.resumed && Some(e.rid) in k.skillsPending then
        var rest := k.(skillsPending := k.skillsPending - {Some(e.rid)});
        if e.ok && fromServer then Heard(rest.(thread := t.(barrier := true)), true) else Heard(rest, false)
      else Heard(k, true)
    case ThreadStart =>
      if !e.ok then Heard(k, true)
      else if fromServer && Get(t.startKey) == Some(e.rid) && Named(e.rthread.thread)
              && e.rthread.cwd == l.cwd && t.id.None? then Heard(k.(thread := t.(id := e.rthread.thread)), true)
      else Heard(k, false)
    case _ => Heard(k, true)
  }

  function StartedNotice(k: Talk, d: Option<Direction>, thread: Option<string>): (r: Heard) {
    if d == Some(Server) && Named(thread) && k.thread.id == thread && k.thread.startedId.None? then
      Heard(k.(thread := k.thread.(startedId := thread)), true)
    else Heard(k, false)
  }

  /** The sink's handling of one row of speech. */
  function Hear(l: Lease, k: Talk, r: Record): (q: Heard) {
    match r.event
    case RpcSeen(id, verb, params, thread) =>
      if r.direction == Some(Client) then ClientSays(l, k, id, verb, params)
      else if verb == ThreadStarted then StartedNotice(k, r.direction, thread.thread)
      else Heard(k, true)
    case RpcAnswered(_, _, _, _, _) => Answered(l, k, r.direction, r.event)
    case RpcUnknown(_, verb, response) => Heard(k, !(response && verb.None?))
    case InitializeHome(id, matches, _) => Heard(k.(initialize := Some(Some(id)), homeMatch := Some(matches)), matches)
    case _ => Heard(k, true)
  }

  /** A turn asked for, not an answer to one. */
  function TurnAsked(e: Event): (r: Option<Method>) {
    match e
    case RpcSeen(_, verb, _, _) => if verb.TurnStart? || verb.TurnSteer? then Some(verb) else None
    case RpcUnknown(_, verb, response) =>
      if !response && (verb == Some(TurnStart) || verb == Some(TurnSteer)) then verb else None
    case _ => None
  }

  function Count(t: Turns, e: Event): (r: Turns) {
    match TurnAsked(e)
    case Some(TurnStart) => t.(start := t.start + 1)
    case Some(_) => t.(steer := t.steer + 1)
    case None => t
  }

  /** The sink's handling of one row of this epoch. */
  function Take(p: Protocol, r: Record): (q: Protocol) {
    match r.event
    case Gap(_) => p.(valid := false)
    case ConnectionClose => p.(closed := true)
    case Upgraded => p.(upgrades := p.upgrades + {r.direction})
    case InitializeHome(_, _, _) => Listen(p, r)
    case ConnectionOpen => p
    case Control(_) => p
    case _ =>
      if |p.rpcs| >= MAX_ROWS then p.(valid := false)
      else Listen(p, r).(rpcs := p.rpcs + [r], turns := Count(p.turns, r.event))
  }

  function Listen(p: Protocol, r: Record): (q: Protocol) {
    var heard := Hear(p.lease, p.talk, r);
    p.(talk := heard.talk, valid := p.valid && heard.fine)
  }

  predicate Ready(p: Protocol) {
    var t := p.talk.thread;
    && p.valid && !p.closed && !p.published && p.upgrades == {Some(Client), Some(Server)}
    && p.talk.initialized && p.talk.homeMatch == Some(true) && t.id.Some?
    && (t.id == t.startedId || t.barrier)
    && p.turns == Turns(0, 0)
  }

  // ---------- stories ----------

  /** One thing that must have happened. */
  datatype Clue =
    | Initializes(id: Id)
    | InitializeAnswered(id: Id)
    | HomeConfirmed(id: Id, home: Option<string>)
    | SaysInitialized
    | StartsThread(id: Id, cwd: Option<string>)
    | StartAnswered(id: Id, thread: string, cwd: Option<string>)
    | ResumesThread(id: Id, thread: string)
    | ResumeAnswered(id: Id, thread: string, cwd: Option<string>)
    | AnnouncesThread(thread: string)
    | ListsSkills(id: Id)
    | SkillsAnswered(id: Id)

  predicate Asking(e: Event, id: Id, verb: Method) {
    e.RpcSeen? && e.id == Some(id) && e.verb == verb
  }

  predicate Answering(e: Event, id: Id, verb: Method) {
    e.RpcAnswered? && e.rid == id && e.answered == verb && e.asker == Client && e.ok
  }

  predicate Fits(r: Record, epoch: nat, c: Clue) {
    var e := r.event;
    && r.epoch == Some(epoch)
    && match c
       case Initializes(id) => r.direction == Some(Client) && Asking(e, id, Initialize)
       case InitializeAnswered(id) => r.direction == Some(Server) && Answering(e, id, Initialize)
       case HomeConfirmed(id, home) =>
         r.direction == Some(Server) && e.InitializeHome? && e.hid == id && e.matches && e.home == home && home.Some?
       case SaysInitialized => r.direction == Some(Client) && e.RpcSeen? && e.verb == Initialized
       case StartsThread(id, cwd) => r.direction == Some(Client) && Asking(e, id, ThreadStart) && e.params.cwd == cwd
       case StartAnswered(id, thread, cwd) =>
         r.direction == Some(Server) && Answering(e, id, ThreadStart) && e.rthread == Info(Some(thread), cwd)
       case ResumesThread(id, thread) =>
         r.direction == Some(Client) && Asking(e, id, ThreadResume) && e.params.thread == Some(thread)
       case ResumeAnswered(id, thread, cwd) =>
         r.direction == Some(Server) && Answering(e, id, ThreadResume) && e.rthread == Info(Some(thread), cwd)
       case AnnouncesThread(thread) =>
         r.direction == Some(Server) && e.RpcSeen? && e.verb == ThreadStarted && e.thread.thread == Some(thread)
       case ListsSkills(id) => r.direction == Some(Client) && Asking(e, id, SkillsList)
       case SkillsAnswered(id) => r.direction == Some(Server) && Answering(e, id, SkillsList)
  }

  /** The history holds records for all these clues, in this order. */
  ghost predicate InOrder(h: seq<Record>, epoch: nat, clues: seq<Clue>)
    decreases |clues|
  {
    clues == [] ||
    exists i :: 0 <= i < |h| && Fits(h[i], epoch, clues[|clues| - 1]) && InOrder(h[..i], epoch, clues[..|clues| - 1])
  }

  lemma InOrderGrows(h: seq<Record>, r: Record, epoch: nat, clues: seq<Clue>)
    requires InOrder(h, epoch, clues)
    ensures InOrder(h + [r], epoch, clues)
  {
    if clues != [] {
      var i :| 0 <= i < |h| && Fits(h[i], epoch, clues[|clues| - 1]) && InOrder(h[..i], epoch, clues[..|clues| - 1]);
      assert (h + [r])[..i] == h[..i];
      assert Fits((h + [r])[i], epoch, clues[|clues| - 1]);
    }
  }

  lemma InOrderNext(h: seq<Record>, r: Record, epoch: nat, clues: seq<Clue>, c: Clue)
    requires InOrder(h, epoch, clues) && Fits(r, epoch, c)
    ensures InOrder(h + [r], epoch, clues + [c])
  {
    var all := clues + [c];
    assert all[..|all| - 1] == clues;
    assert (h + [r])[..|h|] == h;
    assert Fits((h + [r])[|h|], epoch, all[|all| - 1]);
  }

  function Greeting(id: Id, l: Lease): (s: seq<Clue>) {
    [Initializes(id), InitializeAnswered(id), HomeConfirmed(id, l.home)]
  }

  /** A greeting whose home is the leased one, then whatever the rest of the story says. */
  ghost predicate Tells(h: seq<Record>, epoch: nat, l: Lease, rest: seq<Clue>) {
    exists id :: InOrder(h, epoch, Greeting(id, l) + rest)
  }

  lemma TellsGrows(h: seq<Record>, r: Record, epoch: nat, l: Lease, rest: seq<Clue>)
    requires Tells(h, epoch, l, rest)
    ensures Tells(h + [r], epoch, l, rest)
  {
    var id :| InOrder(h, epoch, Greeting(id, l) + rest);
    InOrderGrows(h, r, epoch, Greeting(id, l) + rest);
  }

  lemma TellsNext(h: seq<Record>, r: Record, epoch: nat, l: Lease, rest: seq<Clue>, c: Clue)
    requires Tells(h, epoch, l, rest) && Fits(r, epoch, c)
    ensures Tells(h + [r], epoch, l, rest + [c])
  {
    hide Fits;
    var id :| InOrder(h, epoch, Greeting(id, l) + rest);
    InOrderNext(h, r, epoch, Greeting(id, l) + rest, c);
    assert Greeting(id, l) + rest + [c] == Greeting(id, l) + (rest + [c]);
  }

  /** Opening the thread: started afresh, or resumed as leased. */
  function Ask(l: Lease, id: Id): (c: Clue) {
    if l.resume.Some? then ResumesThread(id, l.resume.value) else StartsThread(id, l.cwd)
  }

  function Reply(l: Lease, id: Id, thread: string): (c: Clue) {
    if l.resume.Some? then ResumeAnswered(id, thread, l.cwd) else StartAnswered(id, thread, l.cwd)
  }

  function Opened(l: Lease, id: Id, thread: string): (s: seq<Clue>) {
    [SaysInitialized, Ask(l, id), Reply(l, id, thread)]
  }

  // ---------- what every field of a valid state rests on ----------

  function OpenKey(l: Lease, t: Thread): Key {
    if l.resume.Some? then t.resumeKey else t.startKey
  }

  ghost predicate KeysTold(l: Lease, t: Thread, epoch: nat, h: seq<Record>) {
    && (t.startKey.Some? ==> l.resume.None?)
    && (t.resumeKey.Some? ==> Named(l.resume))
    && (forall id :: OpenKey(l, t) == Some(Some(id)) ==> Tells(h, epoch, l, [SaysInitialized, Ask(l, id)]))
  }

  ghost predicate ThreadTold(l: Lease, t: Thread, epoch: nat, h: seq<Record>) {
    && (t.id.Some? ==>
          && Get(OpenKey(l, t)).Some? && ThreadId(t.id.value) && (l.resume.Some? ==> l.resume == t.id && t.resumed)
          && Tells(h, epoch, l, Opened(l, Get(OpenKey(l, t)).value, t.id.value)))
    && (t.resumed ==> l.resume.Some? && t.id == l.resume)
  }

  ghost predicate StartedTold(l: Lease, t: Thread, epoch: nat, h: seq<Record>) {
    t.startedId.Some? ==>
      t.startedId == t.id && Get(OpenKey(l, t)).Some? &&
      Tells(h, epoch, l, Opened(l, Get(OpenKey(l, t)).value, t.startedId.value) + [AnnouncesThread(t.startedId.value)])
  }

  ghost predicate SkillsTold(l: Lease, t: Thread, pending: set<Option<Id>>, epoch: nat, h: seq<Record>) {
    && (pending != {} || t.barrier ==> t.resumed && l.resume.Some? && Get(OpenKey(l, t)).Some?)
    && (forall id :: Some(id) in pending ==>
                       Tells(h, epoch, l, Opened(l, Get(OpenKey(l, t)).value, l.resume.value) + [ListsSkills(id)]))
    && (t.barrier ==>
          exists id :: Tells(h, epoch, l, Opened(l, Get(OpenKey(l, t)).value, l.resume.value) + [ListsSkills(id), SkillsAnswered(id)]))
  }

  ghost predicate Acceptable(l: Lease, k: Talk, epoch: nat, h: seq<Record>) {
    && (k.initialized ==> Tells(h, epoch, l, [SaysInitialized]))
    && KeysTold(l, k.thread, epoch, h) && ThreadTold(l, k.thread, epoch, h) && StartedTold(l, k.thread, epoch, h)
    && SkillsTold(l, k.thread, k.skillsPending, epoch, h)
  }

  ghost predicate Told(l: Lease, k: Talk, valid: bool, epoch: nat, h: seq<Record>) {
    && (k.homeMatch == Some(true) ==> Tells(h, epoch, l, []))
    && (valid ==> Acceptable(l, k, epoch, h))
  }

  lemma ToldGrows(l: Lease, k: Talk, valid: bool, epoch: nat, h: seq<Record>, r: Record)
    requires Told(l, k, valid, epoch, h)
    ensures Told(l, k, valid, epoch, h + [r])
  {
    hide Tells;
    forall rest | Tells(h, epoch, l, rest) ensures Tells(h + [r], epoch, l, rest) {
      TellsGrows(h, r, epoch, l, rest);
    }
  }

  /** The observer's own law turns a home report into a whole greeting. */
  lemma GreetingTold(h: seq<Record>, r: Record, epoch: nat, l: Lease)
    requires Law(h) && Follows(h, r) && r.epoch == Some(epoch)
    requires r.event.InitializeHome? && r.event.matches && r.event.home == l.home && l.home.Some?
    ensures Tells(h + [r], epoch, l, [])
  {
    hide Law, Follows;
    var id := r.event.hid;
    var i := HomeRests(h, r, epoch);
    assert Fits(r, epoch, HomeConfirmed(id, l.home));
    hide Fits;
    var n := |h| - 1;
    var g := h[..n];
    assert g[..i] + [g[i]] == g[..i + 1];
    InOrderNext(g[..i], g[i], epoch, [], Initializes(id));
    InOrderFurther(g, i + 1, epoch, [Initializes(id)]);
    InOrderNext(g, h[n], epoch, [Initializes(id)], InitializeAnswered(id));
    assert g + [h[n]] == h;
    InOrderNext(h, r, epoch, [Initializes(id), InitializeAnswered(id)], HomeConfirmed(id, l.home));
    assert Greeting(id, l) + [] == [Initializes(id), InitializeAnswered(id)] + [HomeConfirmed(id, l.home)];
  }

  /** Behind a home report: the answer right before it, and the request before that. */
  lemma HomeRests(h: seq<Record>, r: Record, epoch: nat) returns (i: nat)
    requires Law(h) && Follows(h, r) && r.epoch == Some(epoch) && r.event.InitializeHome?
    ensures i < |h| - 1 && r.direction == Some(Server)
    ensures Fits(h[i], epoch, Initializes(r.event.hid)) && Fits(h[|h| - 1], epoch, InitializeAnswered(r.event.hid))
  {
    var n := |h| - 1;
    assert Follows(h[..n], h[n]);
    i :| 0 <= i < n && Asks(h[..n][i], epoch, Client, r.event.hid, Initialize);
  }

  lemma InOrderFurther(h: seq<Record>, k: nat, epoch: nat, clues: seq<Clue>)
    requires k <= |h| && InOrder(h[..k], epoch, clues)
    ensures InOrder(h, epoch, clues)
  {
    if clues != [] {
      var i :| 0 <= i < k && Fits(h[..k][i], epoch, clues[|clues| - 1]) && InOrder(h[..k][..i], epoch, clues[..|clues| - 1]);
      assert h[..k][..i] == h[..i];
      assert Fits(h[i], epoch, clues[|clues| - 1]);
    }
  }

  // ---------- every row keeps it ----------

  lemma SaysInitializedKeeps(l: Lease, k: Talk, valid: bool, epoch: nat, h: seq<Record>, r: Record)
    requires Told(l, k, valid, epoch, h) && r.epoch == Some(epoch) && r.direction == Some(Client)
    requires r.event.RpcSeen? && r.event.verb == Initialized
    ensures var q := Hear(l, k, r); Told(l, q.talk, valid && q.fine, epoch, h + [r])
  {
    ToldGrows(l, k, valid, epoch, h, r);
    hide Tells;
    if k.homeMatch == Some(true) {
      TellsNext(h, r, epoch, l, [], SaysInitialized);
      assert [] + [SaysInitialized] == [SaysInitialized];
    }
  }

  lemma AskKeeps(l: Lease, k: Talk, valid: bool, epoch: nat, h: seq<Record>, r: Record)
    requires Told(l, k, valid, epoch, h) && r.epoch == Some(epoch) && r.direction == Some(Client)
    requires r.event.RpcSeen? && (r.event.verb == ThreadStart || r.event.verb == ThreadResume)
    ensures var q := Hear(l, k, r); Told(l, q.talk, valid && q.fine, epoch, h + [r])
  {
    ToldGrows(l, k, valid, epoch, h, r);
    hide Tells, ThreadId;
    if valid && Hear(l, k, r).fine && r.event.id.Some? {
      var id := r.event.id.value;
      TellsNext(h, r, epoch, l, [SaysInitialized], Ask(l, id));
      assert [SaysInitialized] + [Ask(l, id)] == [SaysInitialized, Ask(l, id)];
    }
  }

  lemma ListKeeps(l: Lease, k: Talk, valid: bool, epoch: nat, h: seq<Record>, r: Record)
    requires Told(l, k, valid, epoch, h) && r.epoch == Some(epoch) && r.direction == Some(Client)
    requires r.event.RpcSeen? && r.event.verb == SkillsList
    ensures var q := Hear(l, k, r); Told(l, q.talk, valid && q.fine, epoch, h + [r])
  {
    ToldGrows(l, k, valid, epoch, h, r);
    hide Tells, ThreadId;
    if valid && k.thread.resumed && r.event.id.Some? {
      TellsNext(h, r, epoch, l, Opened(l, Get(OpenKey(l, k.thread)).value, l.resume.value), ListsSkills(r.event.id.value));
    }
  }

  lemma ThreadAnswerKeeps(l: Lease, k: Talk, valid: bool, epoch: nat, h: seq<Record>, r: Record)
    requires Told(l, k, valid, epoch, h) && r.epoch == Some(epoch)
    requires r.event.RpcAnswered? && (r.event.answered == ThreadStart || r.event.answered == ThreadResume)
    ensures var q := Hear(l, k, r); Told(l, q.talk, valid && q.fine, epoch, h + [r])
  {
    var e, q := r.event, Hear(l, k, r);
    ToldGrows(l, k, valid, epoch, h, r);
    hide Tells, ThreadId;
    if valid && q.fine && q.talk != k {
      var t := e.rthread.thread.value;
      TellsNext(h, r, epoch, l, [SaysInitialized, Ask(l, e.rid)], Reply(l, e.rid, t));
      assert [SaysInitialized, Ask(l, e.rid)] + [Reply(l, e.rid, t)] == Opened(l, e.rid, t);
    }
  }

  lemma SkillsAnswerKeeps(l: Lease, k: Talk, valid: bool, epoch: nat, h: seq<Record>, r: Record)
    requires Told(l, k, valid, epoch, h) && r.epoch == Some(epoch) && r.event.RpcAnswered? && r.event.answered == SkillsList
    ensures var q := Hear(l, k, r); Told(l, q.talk, valid && q.fine, epoch, h + [r])
  {
    var e, q := r.event, Hear(l, k, r);
    ToldGrows(l, k, valid, epoch, h, r);
    hide Tells, ThreadId;
    if valid && q.fine && q.talk != k {
      var story := Opened(l, Get(OpenKey(l, k.thread)).value, l.resume.value);
      TellsNext(h, r, epoch, l, story + [ListsSkills(e.rid)], SkillsAnswered(e.rid));
      assert story + [ListsSkills(e.rid)] + [SkillsAnswered(e.rid)] == story + [ListsSkills(e.rid), SkillsAnswered(e.rid)];
    }
  }

  lemma NoticeKeeps(l: Lease, k: Talk, valid: bool, epoch: nat, h: seq<Record>, r: Record)
    requires Told(l, k, valid, epoch, h) && r.epoch == Some(epoch) && r.event.RpcSeen? && r.event.verb == ThreadStarted
    ensures var q := StartedNotice(k, r.direction, r.event.thread.thread);
            Told(l, q.talk, valid && q.fine, epoch, h + [r])
  {
    var thread := r.event.thread.thread;
    var q := StartedNotice(k, r.direction, thread);
    ToldGrows(l, k, valid, epoch, h, r);
    hide Tells, ThreadId;
    if valid && q.fine {
      TellsNext(h, r, epoch, l, Opened(l, Get(OpenKey(l, k.thread)).value, thread.value), AnnouncesThread(thread.value));
    }
  }

  lemma HomeKeeps(l: Lease, k: Talk, valid: bool, epoch: nat, h: seq<Record>, r: Record)
    requires Told(l, k, valid, epoch, h) && r.epoch == Some(epoch) && Law(h) && Follows(h, r) && r.event.InitializeHome?
    requires r.event.matches ==> r.event.home == l.home && l.home.Some?
    ensures var q := Hear(l, k, r); Told(l, q.talk, valid && q.fine, epoch, h + [r])
  {
    ToldGrows(l, k, valid, epoch, h, r);
    if r.event.matches { GreetingTold(h, r, epoch, l); }
    hide Tells, Law, Follows;
  }

  /** One row: whatever an accepted talk then claims has its records, in order. */
  lemma HearKeeps(l: Lease, k: Talk, valid: bool, epoch: nat, h: seq<Record>, r: Record)
    requires Told(l, k, valid, epoch, h) && r.epoch == Some(epoch) && Law(h) && Follows(h, r)
    requires r.event.InitializeHome? && r.event.matches ==> r.event.home == l.home && l.home.Some?
    ensures var q := Hear(l, k, r); Told(l, q.talk, valid && q.fine, epoch, h + [r])
  {
    hide Law, Follows, Acceptable, Tells;
    ToldGrows(l, k, valid, epoch, h, r);
    match r.event
    case RpcSeen(id, verb, params, thread) =>
      if r.direction == Some(Client) {
        if verb == Initialized {
          SaysInitializedKeeps(l, k, valid, epoch, h, r);
        } else if verb == ThreadStart || verb == ThreadResume {
          AskKeeps(l, k, valid, epoch, h, r);
        } else if verb == SkillsList {
          ListKeeps(l, k, valid, epoch, h, r);
        } else {
          GreetKeeps(l, k, valid, epoch, h + [r], Some(id), k.initialize.None?);
        }
      } else if verb == ThreadStarted {
        NoticeKeeps(l, k, valid, epoch, h, r);
      }
    case RpcAnswered(_, verb, _, _, _) =>
      if verb == ThreadStart || verb == ThreadResume {
        ThreadAnswerKeeps(l, k, valid, epoch, h, r);
      } else if verb == SkillsList {
        SkillsAnswerKeeps(l, k, valid, epoch, h, r);
      }
    case InitializeHome(_, _, _) => HomeKeeps(l, k, valid, epoch, h, r);
    case _ =>
  }

  lemma GreetKeeps(l: Lease, k: Talk, valid: bool, epoch: nat, g: seq<Record>, key: Key, fine: bool)
    requires Told(l, k, valid, epoch, g)
    ensures Told(l, k.(initialize := key), valid && fine, epoch, g)
  {
    hide Tells;
  }

  // ---------- what a valid state has not seen ----------

  /** Records an epoch must be free of when it is announced. */
  predicate Unwanted(e: Event) {
    e.Gap? || e.ConnectionClose? || TurnAsked(e).Some?
  }

  ghost predicate Unspoiled(p: Protocol, epoch: nat, since: nat, h: seq<Record>)
    requires since <= |h|
  {
    && (p.valid && !p.closed && p.turns == Turns(0, 0) ==>
          forall i :: since <= i < |h| && h[i].epoch == Some(epoch) ==> !Unwanted(h[i].event))
    && (forall d :: Some(d) in p.upgrades ==> exists i :: since <= i < |h| && UpgradeOf(h[i], epoch, d))
  }

  lemma TakeUnspoiled(p: Protocol, epoch: nat, since: nat, h: seq<Record>, r: Record)
    requires since <= |h| && Unspoiled(p, epoch, since, h)
    ensures Unspoiled(if r.epoch == Some(epoch) then Take(p, r) else p, epoch, since, h + [r])
  {
    var q, g := if r.epoch == Some(epoch) then Take(p, r) else p, h + [r];
    if r.epoch == Some(epoch) { TakeChanges(p, r); }
    hide Take;
    assert forall i :: 0 <= i < |h| ==> g[i] == h[i];
    forall d | Some(d) in q.upgrades ensures exists i :: since <= i < |g| && UpgradeOf(g[i], epoch, d) {
      if Some(d) in p.upgrades {
        var i :| since <= i < |h| && UpgradeOf(h[i], epoch, d);
        assert UpgradeOf(g[i], epoch, d);
      } else {
        assert UpgradeOf(g[|h|], epoch, d);
      }
    }
  }

  /** Validity and openness only get lost, turn counts only grow, and what must not be there
      leaves its mark. */
  lemma TakeChanges(p: Protocol, r: Record)
    ensures var q := Take(p, r);
            && (q.valid ==> p.valid) && (p.closed ==> q.closed) && (q.turns == Turns(0, 0) ==> p.turns == Turns(0, 0))
            && (Unwanted(r.event) ==> !q.valid || q.closed || q.turns != Turns(0, 0))
            && q.upgrades == (if r.event.Upgraded? then p.upgrades + {r.direction} else p.upgrades)
            && q.lease == p.lease && q.conn == p.conn && q.published == p.published
  {
    hide Hear;
  }
}
