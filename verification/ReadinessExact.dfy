/** Exactly when an epoch is ready, said of its records alone: which rows are welcome where they
    stand, and what must be among them. */
module ReadinessExact {
  import opened Bytes
  import opened ObserverSpec
  import opened Readiness

  // ---------- looking back over the rows of one epoch ----------

  predicate Ever(h: seq<Record>, such: Record -> bool) {
    exists i :: 0 <= i < |h| && such(h[i])
  }

  /** What the latest row that says anything about it says. */
  function Latest<T>(h: seq<Record>, says: Record -> Option<T>): (r: Option<T>) {
    if h == [] then None
    else if says(h[|h| - 1]).Some? then says(h[|h| - 1])
    else Latest(h[..|h| - 1], says)
  }

  predicate ClientAsks(r: Record, verb: Method) {
    r.event.RpcSeen? && r.event.verb == verb && r.direction == Some(Client)
  }

  predicate Answer(r: Record, verb: Method) {
    r.event.RpcAnswered? && r.event.answered == verb
  }

  predicate FromServer(r: Record) {
    r.event.RpcAnswered? && r.event.ok && r.direction == Some(Server) && r.event.asker == Client
  }

  predicate Speech(r: Record) {
    r.event.RpcSeen? || r.event.RpcAnswered? || r.event.RpcUnknown?
  }

  predicate Notice(r: Record) {
    r.event.RpcSeen? && r.event.verb == ThreadStarted && r.direction != Some(Client)
  }

  predicate Farewell(r: Record) {
    r.event.ConnectionClose?
  }

  predicate Turning(r: Record) {
    TurnAsked(r.event).Some?
  }

  /** An upgrade of neither side; no observer reports one. */
  predicate Sideless(r: Record) {
    r.event.Upgraded? && r.direction.None?
  }

  predicate HomeRow(r: Record) {
    r.event.InitializeHome?
  }

  predicate Asked(h: seq<Record>, verb: Method) {
    Ever(h, r => ClientAsks(r, verb))
  }

  /** The id of the latest such request of the client. */
  function LatestAsk(h: seq<Record>, verb: Method): (r: Key) {
    Latest(h, r => if ClientAsks(r, verb) then Some(r.event.id) else None)
  }

  predicate Greeted(h: seq<Record>) {
    Ever(h, r => ClientAsks(r, Initialize) || r.event.InitializeHome?)
  }

  predicate HomeTold(h: seq<Record>) {
    Ever(h, HomeRow)
  }

  predicate Resumed(h: seq<Record>) {
    Ever(h, r => Answer(r, ThreadResume))
  }

  /** The thread that the latest successful answer opened. */
  function OpenThread(h: seq<Record>): (r: Option<string>) {
    var found := Latest(h, r => if Answer(r, ThreadResume) || (Answer(r, ThreadStart) && r.event.ok) then Some(r.event.rthread.thread) else None);
    if found.Some? then found.value else None
  }

  function Announced(h: seq<Record>): (r: Option<string>) {
    var found := Latest(h, r => if Notice(r) then Some(r.event.thread.thread) else None);
    if found.Some? then found.value else None
  }

  predicate ListAnswered(r: Record, id: Id) {
    Answer(r, SkillsList) && r.event.rid == id
  }

  /** The client asked for the skills under this id behind the resumed thread, and nothing answered. */
  predicate Waiting(h: seq<Record>, id: Id) {
    exists i :: 0 <= i < |h| && ClientAsks(h[i], SkillsList) && h[i].event.id == Some(id) && Resumed(h[..i])
                && forall j :: i < j < |h| ==> !ListAnswered(h[j], id)
  }

  /** Some such request was answered. */
  predicate Listed(h: seq<Record>) {
    exists j :: 0 <= j < |h| && Answer(h[j], SkillsList) && Waiting(h[..j], h[j].event.rid)
  }

  function Talking(h: seq<Record>): (n: nat)
    ensures n <= |h|
  {
    if h == [] then 0 else Talking(h[..|h| - 1]) + if Speech(h[|h| - 1]) then 1 else 0
  }

  // ---------- welcome rows ----------

  predicate RequestWelcome(l: Lease, h: seq<Record>, r: Record)
    requires r.event.RpcSeen? && r.direction == Some(Client)
  {
    match r.event.verb
    case Initialize => !Greeted(h)
    case Initialized => HomeTold(h) && !Asked(h, Initialized)
    case ThreadResume =>
      && Asked(h, Initialized) && !Asked(h, ThreadResume) && !Asked(h, ThreadStart)
      && Named(l.resume) && r.event.params.thread == l.resume
    case ThreadStart => Asked(h, Initialized) && l.resume.None? && OpenThread(h).None? && r.event.params.cwd == l.cwd
    case _ => true
  }

  predicate AnswerWelcome(l: Lease, h: seq<Record>, r: Record)
    requires r.event.RpcAnswered?
  {
    match r.event.answered
    case ThreadResume =>
      && FromServer(r) && LatestAsk(h, ThreadResume) == Some(Some(r.event.rid)) && !Resumed(h)
      && r.event.rthread == Info(l.resume, l.cwd)
    case ThreadStart =>
      r.event.ok ==>
        && FromServer(r) && LatestAsk(h, ThreadStart) == Some(Some(r.event.rid)) && OpenThread(h).None?
        && Named(r.event.rthread.thread) && r.event.rthread.cwd == l.cwd
    case SkillsList => Waiting(h, r.event.rid) ==> FromServer(r)
    case _ => true
  }

  /** The row `r` behind the rows `h` does no harm. */
  predicate Welcome(l: Lease, h: seq<Record>, r: Record) {
    match r.event
    case Gap(_) => false
    case InitializeHome(_, matches, _) => matches
    case RpcSeen(_, _, _, thread) =>
      && Talking(h) < 4096
      && (r.direction == Some(Client) ==> RequestWelcome(l, h, r))
      && (Notice(r) ==> r.direction == Some(Server) && Named(thread.thread) && OpenThread(h) == thread.thread && !Ever(h, Notice))
    case RpcAnswered(_, _, _, _, _) => Talking(h) < 4096 && AnswerWelcome(l, h, r)
    case RpcUnknown(_, verb, response) => Talking(h) < 4096 && (response ==> verb.Some?)
    case _ => true
  }

  predicate AllWelcome(l: Lease, h: seq<Record>) {
    forall i :: 0 <= i < |h| ==> Welcome(l, h[..i], h[i])
  }

  predicate UpgradedBy(h: seq<Record>, d: Direction) {
    Ever(h, (r: Record) => r.event.Upgraded? && r.direction == Some(d))
  }

  /** Everything that a ready epoch's rows show: no row is unwelcome, both sides have upgraded and
      neither closed nor asked for a turn, the client has said that it is initialized, and a thread
      is open that was announced or whose skills were listed. */
  predicate Shows(l: Lease, h: seq<Record>) {
    && AllWelcome(l, h)
    && UpgradedBy(h, Client) && UpgradedBy(h, Server)
    && !Ever(h, Sideless)
    && !Ever(h, Farewell) && !Ever(h, Turning)
    && Asked(h, Initialized) && OpenThread(h).Some?
    && (Announced(h).Some? || Listed(h))
  }

  // ---------- the sink against its rows ----------

  /** The sink's state behind these rows. */
  function Taking(conn: int, lease: Option<Lease>, h: seq<Record>): (p: Protocol) {
    if h == [] then Opening(conn, lease) else Take(Taking(conn, lease, h[..|h| - 1]), h[|h| - 1])
  }

  /** The thread dictionary against the rows. */
  predicate ThreadMirrors(l: Lease, t: Thread, h: seq<Record>) {
    && t.startKey == LatestAsk(h, ThreadStart) && t.resumeKey == LatestAsk(h, ThreadResume)
    && t.id == OpenThread(h) && t.startedId == Announced(h)
    && (t.startedId.Some? <==> Ever(h, Notice)) && (t.startedId.Some? ==> t.startedId == t.id)
    && (t.resumed <==> Resumed(h)) && (t.barrier <==> Listed(h))
    && (t.id.Some? ==> t.startKey.Some? || t.resumed) && (t.resumed ==> t.id.Some? && t.resumeKey.Some?)
    && (t.startKey.Some? ==> l.resume.None?)
    && (t.skillsKey.Some? || t.barrier ==> t.resumed) && (t.resumeKey.Some? ==> Named(l.resume))
  }

  ghost predicate TalkMirrors(l: Lease, k: Talk, h: seq<Record>) {
    && (k.initialize.Some? <==> Greeted(h))
    && k.homeMatch == (if HomeTold(h) then Some(true) else None)
    && (k.initialized <==> Asked(h, Initialized)) && (k.initialized ==> HomeTold(h))
    && ThreadMirrors(l, k.thread, h)
    && (forall id :: Some(id) in k.skillsPending <==> Waiting(h, id)) && (k.skillsPending != {} ==> k.thread.resumed)
  }

  ghost predicate Mirrors(lease: Option<Lease>, p: Protocol, h: seq<Record>) {
    && p.lease == (if lease.Some? then lease.value else NO_LEASE) && !p.published
    && (p.valid <==> lease.Some? && AllWelcome(p.lease, h))
    && (p.closed <==> Ever(h, Farewell))
    && (forall d :: Some(d) in p.upgrades <==> UpgradedBy(h, d))
    && (None in p.upgrades <==> Ever(h, Sideless))
    && (p.valid ==>
          && TalkMirrors(p.lease, p.talk, h) && |p.rpcs| == Talking(h)
          && (p.turns == Turns(0, 0) <==> !Ever(h, Turning)))
  }

  // ---------- one more row ----------

  lemma EverMore(h: seq<Record>, r: Record)
    ensures forall such: Record -> bool :: Ever(h + [r], such) <==> Ever(h, such) || such(r)
  {
    forall such: Record -> bool ensures Ever(h + [r], such) <==> Ever(h, such) || such(r) {
      if Ever(h, such) {
        var i :| 0 <= i < |h| && such(h[i]);
        assert (h + [r])[i] == h[i];
      }
      if such(r) { assert (h + [r])[|h|] == r; }
    }
  }

  lemma LatestMore<T>(h: seq<Record>, r: Record)
    ensures forall says: Record -> Option<T> :: Latest(h + [r], says) == if says(r).Some? then says(r) else Latest(h, says)
  {
    assert (h + [r])[..|h|] == h;
  }

  lemma AllWelcomeMore(l: Lease, h: seq<Record>, r: Record)
    ensures AllWelcome(l, h + [r]) <==> AllWelcome(l, h) && Welcome(l, h, r)
  {
    hide Welcome;
    var g := h + [r];
    assert g[..|h|] == h && g[|h|] == r;
    assert forall i :: 0 <= i < |h| ==> g[..i] == h[..i] && g[i] == h[i];
  }

  lemma WaitingMore(h: seq<Record>, r: Record, id: Id)
    ensures Waiting(h + [r], id) <==>
            !ListAnswered(r, id) && (Waiting(h, id) || (ClientAsks(r, SkillsList) && r.event.id == Some(id) && Resumed(h)))
  {
    hide Resumed;
    var g := h + [r];
    assert g[..|h|] == h && g[|h|] == r;
    assert forall i :: 0 <= i < |h| ==> g[..i] == h[..i] && g[i] == h[i];
  }

  lemma ListedMore(h: seq<Record>, r: Record)
    ensures Listed(h + [r]) <==> Listed(h) || (Answer(r, SkillsList) && Waiting(h, r.event.rid))
  {
    hide Waiting;
    var g := h + [r];
    assert g[..|h|] == h && g[|h|] == r;
    assert forall i :: 0 <= i < |h| ==> g[..i] == h[..i] && g[i] == h[i];
  }

  lemma {:induction false} LatestOrNever(h: seq<Record>, verb: Method)
    ensures LatestAsk(h, verb).Some? <==> Asked(h, verb)
  {
    if h != [] {
      var front, r := h[..|h| - 1], h[|h| - 1];
      assert front + [r] == h;
      LatestOrNever(front, verb);
      EverMore(front, r);
      LatestMore<Option<Id>>(front, r);
    }
  }

  /** Everything that looks back, one row further on. */
  lemma OneMore(h: seq<Record>, r: Record)
    ensures var g := h + [r];
            && (forall verb :: Asked(g, verb) <==> Asked(h, verb) || ClientAsks(r, verb))
            && (forall verb :: LatestAsk(g, verb) == if ClientAsks(r, verb) then Some(r.event.id) else LatestAsk(h, verb))
            && (Greeted(g) <==> Greeted(h) || ClientAsks(r, Initialize) || HomeRow(r))
            && (HomeTold(g) <==> HomeTold(h) || HomeRow(r))
            && (Resumed(g) <==> Resumed(h) || Answer(r, ThreadResume))
            && OpenThread(g) == (if Answer(r, ThreadResume) || (Answer(r, ThreadStart) && r.event.ok) then r.event.rthread.thread else OpenThread(h))
            && Announced(g) == (if Notice(r) then r.event.thread.thread else Announced(h))
            && (Ever(g, Notice) <==> Ever(h, Notice) || Notice(r))
  {
    EverMore(h, r);
    LatestMore<Option<Id>>(h, r);
    LatestMore<Option<string>>(h, r);
    hide Ever, Latest;
  }

  lemma TalkingMore(h: seq<Record>, r: Record)
    ensures Talking(h + [r]) == Talking(h) + if Speech(r) then 1 else 0
  {
    assert (h + [r])[..|h|] == h;
  }

  lemma ListsMore(h: seq<Record>, r: Record)
    ensures var g := h + [r];
            && (forall id :: Waiting(g, id) <==>
                             !ListAnswered(r, id) && (Waiting(h, id) || (ClientAsks(r, SkillsList) && r.event.id == Some(id) && Resumed(h))))
            && (Listed(g) <==> Listed(h) || (Answer(r, SkillsList) && Waiting(h, r.event.rid)))
  {
    hide Waiting, Listed;
    forall id ensures Waiting(h + [r], id) <==>
                      !ListAnswered(r, id) && (Waiting(h, id) || (ClientAsks(r, SkillsList) && r.event.id == Some(id) && Resumed(h)))
    {
      WaitingMore(h, r, id);
    }
    ListedMore(h, r);
  }

  /** Looking back one row further, with the ways of looking back folded. */
  lemma LookBack(l: Lease, k: Talk, h: seq<Record>, r: Record)
    requires TalkMirrors(l, k, h)
    ensures k.thread.startKey.Some? <==> Asked(h, ThreadStart)
    ensures k.thread.resumeKey.Some? <==> Asked(h, ThreadResume)
  {
    LatestOrNever(h, ThreadStart);
    LatestOrNever(h, ThreadResume);
  }

  lemma AskMirrors(l: Lease, k: Talk, h: seq<Record>, r: Record)
    requires TalkMirrors(l, k, h) && r.event.RpcSeen? && r.direction == Some(Client)
    ensures Hear(l, k, r).fine <==> RequestWelcome(l, h, r)
    ensures Hear(l, k, r).fine ==> TalkMirrors(l, Hear(l, k, r).talk, h + [r])
  {
    hide Ever, Waiting, Listed, Asked, LatestAsk, Greeted, HomeTold, Resumed, OpenThread, Announced, ThreadId;
    LookBack(l, k, h, r);
    OneMore(h, r);
    ListsMore(h, r);
  }

  lemma AnswerMirrors(l: Lease, k: Talk, h: seq<Record>, r: Record)
    requires TalkMirrors(l, k, h) && r.event.RpcAnswered?
    ensures Hear(l, k, r).fine <==> AnswerWelcome(l, h, r)
    ensures Hear(l, k, r).fine ==> TalkMirrors(l, Hear(l, k, r).talk, h + [r])
  {
    hide Ever, Waiting, Listed, Asked, LatestAsk, Greeted, HomeTold, Resumed, OpenThread, Announced, ThreadId;
    OneMore(h, r);
    ListsMore(h, r);
  }

  /** One request, answer or notice: fine exactly when it is welcome, and the talk goes on mirroring
      the rows. */
  lemma HearMirrors(l: Lease, k: Talk, h: seq<Record>, r: Record)
    requires TalkMirrors(l, k, h) && (HomeRow(r) || (Speech(r) && Talking(h) < MAX_ROWS))
    ensures Hear(l, k, r).fine <==> Welcome(l, h, r)
    ensures Hear(l, k, r).fine ==> TalkMirrors(l, Hear(l, k, r).talk, h + [r])
  {
    hide Ever, Waiting, Listed, Asked, LatestAsk, Greeted, HomeTold, Resumed, OpenThread, Announced, Talking, ThreadId;
    if r.event.RpcAnswered? {
      AnswerMirrors(l, k, h, r);
      hide TalkMirrors, Hear, AnswerWelcome;
    } else if r.event.RpcSeen? && r.direction == Some(Client) {
      AskMirrors(l, k, h, r);
      hide TalkMirrors, Hear, RequestWelcome;
    } else {
      OneMore(h, r);
      ListsMore(h, r);
    }
  }

  lemma OtherRow(l: Lease, k: Talk, h: seq<Record>, r: Record)
    requires TalkMirrors(l, k, h) && !Speech(r) && !HomeRow(r)
    ensures TalkMirrors(l, k, h + [r])
  {
    OneMore(h, r);
    ListsMore(h, r);
    hide Ever, Latest, Waiting, Listed, Asked, LatestAsk, Greeted, HomeTold, Resumed, OpenThread, Announced, ThreadId;
  }

  lemma TakeMirrors(lease: Option<Lease>, p: Protocol, h: seq<Record>, r: Record)
    requires Mirrors(lease, p, h)
    ensures Mirrors(lease, Take(p, r), h + [r])
  {
    hide TalkMirrors, Hear, AllWelcome, Ever, Talking, RequestWelcome, AnswerWelcome;
    AllWelcomeMore(p.lease, h, r);
    EverMore(h, r);
    TalkingMore(h, r);
    if p.valid {
      if HomeRow(r) || (Speech(r) && Talking(h) < MAX_ROWS) {
        HearMirrors(p.lease, p.talk, h, r);
      } else if !Speech(r) {
        OtherRow(p.lease, p.talk, h, r);
      }
    }
  }

  lemma {:induction false} TakingMirrors(conn: int, lease: Option<Lease>, h: seq<Record>)
    ensures Mirrors(lease, Taking(conn, lease, h), h)
  {
    if h != [] {
      var front, r := h[..|h| - 1], h[|h| - 1];
      assert front + [r] == h;
      hide Mirrors, Take;
      TakingMirrors(conn, lease, front);
      TakeMirrors(lease, Taking(conn, lease, front), front, r);
    }
  }

  /** For every sequence of rows: the epoch is ready behind them if and only if it was leased and
      the rows show everything they must, each row welcome where it stands. */
  lemma ReadyExactly(conn: int, lease: Option<Lease>, h: seq<Record>)
    ensures Ready(Taking(conn, lease, h)) <==> lease.Some? && Shows(lease.value, h)
  {
    hide Taking, Take, Ever, Waiting, Listed, Asked, LatestAsk, Greeted, Resumed, OpenThread, Announced, AllWelcome;
    TakingMirrors(conn, lease, h);
    var p := Taking(conn, lease, h);
    assert p.upgrades == {Some(Client), Some(Server)} <==> UpgradedBy(h, Client) && UpgradedBy(h, Server) && !Ever(h, Sideless) by {
      BothSides(p.upgrades);
    }
  }

  lemma BothSides(s: set<Option<Direction>>)
    ensures s == {Some(Client), Some(Server)} <==> Some(Client) in s && Some(Server) in s && None !in s
  {
    if Some(Client) in s && Some(Server) in s && None !in s {
      forall x | x in s ensures x in {Some(Client), Some(Server)} {
        assert x.Some? && (x.value == Client || x.value == Server);
      }
    }
  }
}
