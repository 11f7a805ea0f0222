/** The offline delivery audit: what a capture of history reads and acknowledgements says, as
    statements over the whole capture. */
module AuditSpec {
  import opened Bytes
  import opened LedgerSpec

  /** SHA-256 over the canonical body, taken as injective. */
  datatype Sum = Sum(deliveryId: string, controller: string, epoch: int, events: seq<Event>)

  datatype Envelope = Envelope(
    version: int, deliveryId: string, controller: string, epoch: int, events: seq<Event>, hash: Sum)

  /** An output that is no text, no JSON object or not of the envelope's shape is `NoEnvelope`. */
  datatype Body = NoEnvelope | Carries(envelope: Envelope)

  datatype ItemKind = FunctionOutput | Compaction | OtherItem(text: string)

  datatype ItemName = DeliveryName | OtherName(text: string)

  datatype Space = Orchestration | OtherSpace(text: string)

  datatype Item = Item(id: string, kind: ItemKind, name: Option<ItemName>, space: Option<Space>, body: Body)

  datatype View = Full | Summary | NotLoaded | OtherView(text: string)

  datatype Status = InProgress | Completed | Failed | Interrupted | OtherStatus(text: string)

  datatype Sort = Ascending | Descending | OtherSort(text: string)

  datatype Turn = Turn(id: string, status: Status, view: Option<View>, items: seq<Item>)

  datatype Entry = Entry(turn: string, item: Item)

  datatype Page = Page(cursor: Option<string>, limit: Option<int>, sort: Option<Sort>, next: Option<string>, back: Option<string>)

  datatype Read =
    | ThreadRead(requestId: int, responseId: int, thread: string, includeTurns: bool, answered: string,
                 paginated: bool, turns: seq<Turn>)
    | TurnsList(requestId: int, responseId: int, thread: string, page: Page, itemsView: Option<View>, listed: seq<Turn>)
    | ItemsList(requestId: int, responseId: int, thread: string, page: Page, turnId: Option<string>, entries: seq<Entry>)

  datatype AckRecord = AckRecord(
    deliveryId: string, controller: string, epoch: int, eventId: string, eventRevision: int, eventHash: string,
    actionSlot: string, decision: Decision, commandId: string, decisionCount: int, effectCount: int)

  datatype Capture = Capture(version: int, intent: Envelope, history: seq<Read>, acks: seq<AckRecord>)

  datatype Report = Report(
    marker: bool, matched: nat, duplicates: nat, complete: bool, compaction: bool,
    acknowledged: seq<string>, pending: seq<string>, waiting: seq<string>, slots: nat, ackComplete: bool)

  // ---------- envelopes ----------

  predicate ValidEnvelope(v: Envelope) {
    && v.version == 1 && Safe(v.deliveryId) && Safe(v.controller) && ValidRevision(v.epoch)
    && 1 <= |v.events| <= 8 && ValidEvents(v.events)
    && v.hash == Sum(v.deliveryId, v.controller, v.epoch, v.events)
  }

  // ---------- what was scanned ----------

  type Place = (string, string)

  function PlaceOf(e: Entry): Place {
    (e.turn, e.item.id)
  }

  function Identity(i: Item): (ItemKind, Option<ItemName>, Option<Space>) {
    (i.kind, i.name, i.space)
  }

  predicate IsDelivery(i: Item) {
    i.kind == FunctionOutput && i.name == Some(DeliveryName)
  }

  /** An item that may stand in a capture for this intent: a delivery under the intent's own id
      must be the intent, to the last field. */
  predicate ItemOk(i: Item, intent: Envelope) {
    && Safe(i.id)
    && (IsDelivery(i) ==>
          && i.space == Some(Orchestration) && i.body.Carries? && ValidEnvelope(i.body.envelope)
          && (i.body.envelope.deliveryId == intent.deliveryId ==> i.body.envelope == intent))
  }

  predicate Marks(i: Item, intent: Envelope) {
    IsDelivery(i) && i.body == Carries(intent)
  }

  /** The places that show the intent. */
  function Marked(xs: seq<Entry>, intent: Envelope): (s: set<Place>) {
    set i | 0 <= i < |xs| && Marks(xs[i].item, intent) :: PlaceOf(xs[i])
  }

  /** What is shown twice is the same thing. */
  predicate Stable(xs: seq<Entry>) {
    forall i, j :: 0 <= i < j < |xs| && PlaceOf(xs[i]) == PlaceOf(xs[j]) ==>
                     && Identity(xs[i].item) == Identity(xs[j].item)
                     && (IsDelivery(xs[i].item) ==> xs[i].item.body == xs[j].item.body)
  }

  predicate Coherent(xs: seq<Entry>, intent: Envelope) {
    && (forall i :: 0 <= i < |xs| ==> ItemOk(xs[i].item, intent))
    && Stable(xs) && |Marked(xs, intent)| <= 32
  }

  predicate FullTurn(t: Turn) {
    t.view.None? || t.view == Some(Full)
  }

  function EntriesOf(turn: string, items: seq<Item>): (r: seq<Entry>) {
    seq(|items|, i requires 0 <= i < |items| => Entry(turn, items[i]))
  }

  function ScannedTurn(t: Turn, full: bool): (r: seq<Entry>) {
    if full && FullTurn(t) then EntriesOf(t.id, t.items) else []
  }

  function ScannedTurns(ts: seq<Turn>, full: bool): (r: seq<Entry>) {
    if ts == [] then [] else ScannedTurns(ts[..|ts| - 1], full) + ScannedTurn(ts[|ts| - 1], full)
  }

  function ScannedRead(r: Read): (s: seq<Entry>) {
    match r
    case ThreadRead(_, _, _, _, _, _, turns) => ScannedTurns(turns, true)
    case TurnsList(_, _, _, _, view, turns) => ScannedTurns(turns, view == Some(Full))
    case ItemsList(_, _, _, _, _, entries) => entries
  }

  function Scanned(rs: seq<Read>): (s: seq<Entry>) {
    if rs == [] then [] else Scanned(rs[..|rs| - 1]) + ScannedRead(rs[|rs| - 1])
  }

  // ---------- what a read must be ----------

  predicate TurnOk(t: Turn) {
    && Safe(t.id) && !t.status.OtherStatus? && |t.items| <= 64
    && (t.view.Some? ==> !t.view.value.OtherView?)
  }

  predicate TurnsOk(ts: seq<Turn>) {
    |ts| <= 64 && forall i :: 0 <= i < |ts| ==> TurnOk(ts[i])
  }

  predicate CursorOk(c: Option<string>) {
    c.Some? ==> 0 < |c.value| <= 256
  }

  predicate PageOk(p: Page) {
    && CursorOk(p.cursor) && CursorOk(p.next) && CursorOk(p.back)
    && (p.limit.Some? ==> 1 <= p.limit.value <= 64) && (p.sort.Some? ==> !p.sort.value.OtherSort?)
  }

  predicate EntryOk(e: Entry, turnId: Option<string>) {
    Safe(e.turn) && (turnId.Some? ==> turnId.value == e.turn)
  }

  predicate ReadOk(r: Read, intent: Envelope) {
    && ValidRevision(r.requestId) && r.requestId == r.responseId && r.thread == intent.controller
    && match r
       case ThreadRead(_, _, _, includeTurns, answered, _, turns) =>
         includeTurns && answered == intent.controller && TurnsOk(turns)
       case TurnsList(_, _, _, page, view, turns) =>
         PageOk(page) && (view.Some? ==> !view.value.OtherView?) && TurnsOk(turns)
       case ItemsList(_, _, _, page, turnId, entries) =>
         && PageOk(page) && |entries| <= 64 && (turnId.Some? ==> Safe(turnId.value))
         && forall i :: 0 <= i < |entries| ==> EntryOk(entries[i], turnId)
  }

  predicate ReadsOk(rs: seq<Read>, intent: Envelope) {
    && (forall i :: 0 <= i < |rs| ==> ReadOk(rs[i], intent))
    && forall i, j :: 0 <= i < j < |rs| ==> rs[i].requestId != rs[j].requestId
  }

  // ---------- complete chains ----------

  predicate AllFull(ts: seq<Turn>) {
    forall i :: 0 <= i < |ts| ==> FullTurn(ts[i])
  }

  /** Nothing of the page was withheld. */
  predicate FullView(r: Read) {
    match r
    case ThreadRead(_, _, _, _, _, _, turns) => AllFull(turns)
    case TurnsList(_, _, _, _, view, turns) => view == Some(Full) && AllFull(turns)
    case ItemsList(_, _, _, _, _, _) => true
  }

  datatype Query = Query(turns: bool, sort: Option<Sort>, turnId: Option<string>, view: Option<View>)

  function QueryOf(r: Read): (q: Query)
    requires !r.ThreadRead?
  {
    if r.TurnsList? then Query(true, r.page.sort, None, r.itemsView) else Query(false, r.page.sort, r.turnId, None)
  }

  /** Page i asks the same question and goes on where page i - 1 stopped. */
  predicate TakesUp(rs: seq<Read>, i: nat)
    requires 0 < i < |rs| && !rs[i].ThreadRead? && !rs[i - 1].ThreadRead?
  {
    QueryOf(rs[i]) == QueryOf(rs[i - 1]) && rs[i - 1].page.next.Some? && rs[i].page.cursor == rs[i - 1].page.next
  }

  /** One whole thread read, or the pages of one query from no cursor to no next cursor, each
      taking up where the one before left off; and everything in full view. */
  predicate ChainComplete(rs: seq<Read>) {
    || (|rs| == 1 && rs[0].ThreadRead? && !rs[0].paginated && FullView(rs[0]))
    || (&& |rs| >= 1 && (forall i :: 0 <= i < |rs| ==> !rs[i].ThreadRead? && FullView(rs[i]))
        && rs[0].page.cursor.None? && rs[|rs| - 1].page.next.None?
        && forall i :: 0 < i < |rs| ==> TakesUp(rs, i))
  }

  /** The last page before position j, which is all the scan remembers of the pages. */
  function LastPage(rs: seq<Read>): (r: Option<Read>)
    ensures r.Some? ==> !r.value.ThreadRead?
  {
    if rs == [] then None
    else if !rs[|rs| - 1].ThreadRead? then Some(rs[|rs| - 1])
    else LastPage(rs[..|rs| - 1])
  }

  function NextOf(r: Option<Read>): (c: Option<string>)
    requires r.Some? ==> !r.value.ThreadRead?
  {
    if r.Some? then r.value.page.next else None
  }

  /** Does read j keep the chain together, among `total` reads? */
  predicate Links(before: seq<Read>, r: Read, total: nat) {
    FullView(r) &&
    if r.ThreadRead? then !r.paginated && total == 1
    else
      var last := LastPage(before);
      r.page.cursor == NextOf(last) && (last.Some? ==> QueryOf(r) == QueryOf(last.value) && last.value.page.next.Some?)
  }

  predicate AllLink(rs: seq<Read>, n: nat)
    requires n <= |rs|
  {
    forall j :: 0 <= j < n ==> Links(rs[..j], rs[j], |rs|)
  }

  lemma OnlyPages(rs: seq<Read>, j: nat)
    requires 0 < j <= |rs| && !rs[j - 1].ThreadRead?
    ensures LastPage(rs[..j]) == Some(rs[j - 1])
  {
    assert rs[..j][|rs[..j]| - 1] == rs[j - 1];
  }

  /** Remembering only the last page is enough to recognise exactly the complete chains. */
  lemma ChainExactly(rs: seq<Read>)
    ensures rs != [] && AllLink(rs, |rs|) && NextOf(LastPage(rs)).None? <==> ChainComplete(rs)
  {
    if |rs| >= 1 {
      assert rs[..|rs|] == rs;
      forall j | 0 < j <= |rs| && !rs[j - 1].ThreadRead? ensures LastPage(rs[..j]) == Some(rs[j - 1]) {
        OnlyPages(rs, j);
      }
      assert rs[..0] == [] && LastPage(rs[..0]).None?;
      hide FullView;
      if rs[0].ThreadRead? {
        SingleRead(rs);
      } else {
        PagesExactly(rs);
      }
    }
  }

  lemma SingleRead(rs: seq<Read>)
    requires |rs| >= 1 && rs[0].ThreadRead?
    ensures AllLink(rs, |rs|) && NextOf(LastPage(rs)).None? <==> ChainComplete(rs)
  {
    hide FullView;
    if AllLink(rs, |rs|) {
      assert Links(rs[..0], rs[0], |rs|);
      assert LastPage(rs[..0]).None?;
    }
    if ChainComplete(rs) {
      assert rs[..|rs| - 1] == [];
    }
  }

  lemma PagesExactly(rs: seq<Read>)
    requires |rs| >= 1 && !rs[0].ThreadRead?
    requires forall j :: 0 < j <= |rs| && !rs[j - 1].ThreadRead? ==> LastPage(rs[..j]) == Some(rs[j - 1])
    ensures AllLink(rs, |rs|) && NextOf(LastPage(rs)).None? <==> ChainComplete(rs)
  {
    hide FullView, LastPage;
    assert rs[..|rs|] == rs;
    assert NextOf(LastPage(rs[..0])).None? && LastPage(rs[..0]).None? by { NoPage(rs[..0]); }
    if AllLink(rs, |rs|) && NextOf(LastPage(rs)).None? {
      forall i | 0 <= i < |rs| ensures !rs[i].ThreadRead? && FullView(rs[i]) {
        assert Links(rs[..0], rs[0], |rs|) && Links(rs[..i], rs[i], |rs|);
      }
      assert Links(rs[..0], rs[0], |rs|);
      forall i | 0 < i < |rs| ensures TakesUp(rs, i) {
        assert Links(rs[..i], rs[i], |rs|);
      }
    }
    if ChainComplete(rs) {
      forall j | 0 <= j < |rs| ensures Links(rs[..j], rs[j], |rs|) {
        if j > 0 { assert TakesUp(rs, j) && LastPage(rs[..j]) == Some(rs[j - 1]); }
      }
    }
  }

  lemma NoPage(rs: seq<Read>)
    requires rs == []
    ensures LastPage(rs).None?
  {
  }

  // ---------- acknowledgements ----------

  predicate AckFits(intent: Envelope, e: Event, a: AckRecord) {
    && a.deliveryId == intent.deliveryId && a.controller == intent.controller && a.epoch == intent.epoch
    && ValidRevision(a.epoch) && a.eventId == e.eventId && ValidRevision(a.eventRevision)
    && a.eventRevision == e.eventRevision && a.eventHash == e.payloadHash && a.actionSlot == e.actionSlot
    && ValidDecision(a.decision) && Safe(a.commandId) && a.decisionCount == 1 && a.effectCount == EffectCount(a.decision)
  }

  predicate AckOk(intent: Envelope, a: AckRecord) {
    exists i :: 0 <= i < |intent.events| && AckFits(intent, intent.events[i], a)
  }

  predicate AcksOk(intent: Envelope, acks: seq<AckRecord>) {
    && (forall i :: 0 <= i < |acks| ==> AckOk(intent, acks[i]))
    && forall i, j :: 0 <= i < j < |acks| && acks[i].eventId == acks[j].eventId ==> acks[i].decision == acks[j].decision
  }

  predicate IsAcked(acks: seq<AckRecord>, id: string) {
    exists i :: 0 <= i < |acks| && acks[i].eventId == id
  }

  predicate AckedAs(acks: seq<AckRecord>, id: string, d: Decision) {
    exists i :: 0 <= i < |acks| && acks[i].eventId == id && acks[i].decision == d
  }

  // ---------- the whole capture ----------

  predicate Acceptable(c: Capture) {
    && c.version == 1 && ValidEnvelope(c.intent) && |c.history| <= 16 && |c.acks| <= 32
    && ReadsOk(c.history, c.intent) && Coherent(Scanned(c.history), c.intent) && AcksOk(c.intent, c.acks)
  }

  predicate Compacted(xs: seq<Entry>) {
    exists i :: 0 <= i < |xs| && xs[i].item.kind == Compaction
  }

  function Ids(events: seq<Event>): (r: seq<string>) {
    seq(|events|, i requires 0 <= i < |events| => events[i].eventId)
  }

  function Among<T(==)>(ids: seq<T>, keys: set<T>): (r: seq<T>) {
    if ids == [] then []
    else Among(ids[..|ids| - 1], keys) + (if ids[|ids| - 1] in keys then [ids[|ids| - 1]] else [])
  }

  function Outside<T(==)>(ids: seq<T>, keys: set<T>): (r: seq<T>) {
    if ids == [] then []
    else Outside(ids[..|ids| - 1], keys) + (if ids[|ids| - 1] in keys then [] else [ids[|ids| - 1]])
  }

  function AckedIds(acks: seq<AckRecord>): (r: set<string>) {
    set i | 0 <= i < |acks| :: acks[i].eventId
  }

  function WaitingIds(acks: seq<AckRecord>): (r: set<string>) {
    set i | 0 <= i < |acks| && acks[i].decision == WaitingUser :: acks[i].eventId
  }

  /** What an accepted capture's report must say. The ids come in the order of the events. */
  ghost predicate Reports(c: Capture, r: Report) {
    var xs, ids := Scanned(c.history), Ids(c.intent.events);
    && (r.marker <==> exists i :: 0 <= i < |xs| && Marks(xs[i].item, c.intent))
    && r.matched == |Marked(xs, c.intent)| && r.duplicates == (if r.matched == 0 then 0 else r.matched - 1)
    && (r.complete <==> ChainComplete(c.history))
    && (r.compaction <==> Compacted(xs))
    && r.acknowledged == Among(ids, AckedIds(c.acks)) && r.pending == Outside(ids, AckedIds(c.acks))
    && r.waiting == Among(ids, WaitingIds(c.acks))
    && multiset(r.acknowledged) + multiset(r.pending) == multiset(ids)
    && (forall id :: id in r.acknowledged ==> IsAcked(c.acks, id))
    && (forall id :: id in r.pending ==> !IsAcked(c.acks, id))
    && (forall id :: id in r.waiting <==> AckedAs(c.acks, id, WaitingUser))
    && r.slots == |r.acknowledged| && (r.ackComplete <==> r.pending == [])
  }
}
