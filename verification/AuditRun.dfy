/** The audit itself: one pass over the reads with what was seen so far, one over the
    acknowledgements. */
module AuditRun {
  import opened Bytes
  import opened LedgerSpec
  import opened AuditSpec

  lemma MarkedGrows(xs: seq<Entry>, e: Entry, intent: Envelope)
    ensures Marked(xs + [e], intent) == Marked(xs, intent) + (if Marks(e.item, intent) then {PlaceOf(e)} else {})
  {
    hide Marks;
    var all := xs + [e];
    forall p ensures p in Marked(all, intent) <==> p in Marked(xs, intent) || (Marks(e.item, intent) && p == PlaceOf(e)) {
      if p in Marked(all, intent) {
        var i :| 0 <= i < |all| && Marks(all[i].item, intent) && PlaceOf(all[i]) == p;
        if i < |xs| { assert xs[i] == all[i]; }
      }
      if p in Marked(xs, intent) {
        var i :| 0 <= i < |xs| && Marks(xs[i].item, intent) && PlaceOf(xs[i]) == p;
        assert all[i] == xs[i];
      }
      if Marks(e.item, intent) && p == PlaceOf(e) { assert all[|xs|] == e; }
    }
  }

  /** A capture that went wrong stays wrong. */
  lemma CoherentCut(xs: seq<Entry>, ys: seq<Entry>, intent: Envelope)
    requires Coherent(xs + ys, intent)
    ensures Coherent(xs, intent)
  {
    hide ItemOk, Marks, Identity, IsDelivery;
    var all := xs + ys;
    assert forall i :: 0 <= i < |xs| ==> all[i] == xs[i];
    forall p | p in Marked(xs, intent) ensures p in Marked(all, intent) {
      var i :| 0 <= i < |xs| && Marks(xs[i].item, intent) && PlaceOf(xs[i]) == p;
      assert Marks(all[i].item, intent);
    }
    SubsetIsSmaller(Marked(xs, intent), Marked(all, intent));
  }

  // ---------- one item against everything before it ----------

  predicate Agrees(xs: seq<Entry>, e: Entry) {
    forall i :: 0 <= i < |xs| && PlaceOf(xs[i]) == PlaceOf(e) ==>
                  && Identity(xs[i].item) == Identity(e.item)
                  && (IsDelivery(xs[i].item) ==> xs[i].item.body == e.item.body)
  }

  lemma NextExactly(xs: seq<Entry>, e: Entry, intent: Envelope)
    requires Coherent(xs, intent)
    ensures Coherent(xs + [e], intent) <==>
            ItemOk(e.item, intent) && Agrees(xs, e) &&
            |Marked(xs, intent) + (if Marks(e.item, intent) then {PlaceOf(e)} else {})| <= 32
  {
    MarkedGrows(xs, e, intent);
    hide Marked, Marks, ItemOk, IsDelivery;
    var all := xs + [e];
    assert forall i :: 0 <= i < |xs| ==> all[i] == xs[i];
    assert all[|xs|] == e;
    if Stable(all) {
      forall i | 0 <= i < |xs| && PlaceOf(xs[i]) == PlaceOf(e)
        ensures && Identity(xs[i].item) == Identity(e.item)
                && (IsDelivery(xs[i].item) ==> xs[i].item.body == e.item.body)
      {
        assert PlaceOf(all[i]) == PlaceOf(all[|xs|]);
      }
    }
  }

  type Identities = map<Place, (ItemKind, Option<ItemName>, Option<Space>)>

  ghost predicate ReflectsIdentities(xs: seq<Entry>, identities: Identities) {
    && (forall i :: 0 <= i < |xs| ==>
                      PlaceOf(xs[i]) in identities && identities[PlaceOf(xs[i])] == Identity(xs[i].item))
    && (forall p :: p in identities ==> exists i :: 0 <= i < |xs| && PlaceOf(xs[i]) == p)
  }

  ghost predicate ReflectsOutputs(xs: seq<Entry>, observed: map<Place, Envelope>) {
    && (forall i :: 0 <= i < |xs| && IsDelivery(xs[i].item) ==>
                      PlaceOf(xs[i]) in observed && Carries(observed[PlaceOf(xs[i])]) == xs[i].item.body)
    && (forall p :: p in observed ==> exists i :: 0 <= i < |xs| && PlaceOf(xs[i]) == p && IsDelivery(xs[i].item))
  }

  /** The two dictionaries are exactly what the scanned items say. */
  ghost predicate Reflects(xs: seq<Entry>, identities: Identities, observed: map<Place, Envelope>) {
    ReflectsIdentities(xs, identities) && ReflectsOutputs(xs, observed)
  }

  lemma LooksUp(xs: seq<Entry>, e: Entry, identities: Identities, observed: map<Place, Envelope>)
    requires Reflects(xs, identities, observed)
    ensures Agrees(xs, e) <==> Known(e, identities, observed)
  {
    var p := PlaceOf(e);
    if Agrees(xs, e) && p in identities {
      var i :| 0 <= i < |xs| && PlaceOf(xs[i]) == p;
    }
    if Agrees(xs, e) && p in observed {
      var i :| 0 <= i < |xs| && PlaceOf(xs[i]) == p && IsDelivery(xs[i].item);
    }
  }

  lemma IdentitiesNext(xs: seq<Entry>, e: Entry, identities: Identities)
    requires ReflectsIdentities(xs, identities) && Agrees(xs, e)
    ensures ReflectsIdentities(xs + [e], identities[PlaceOf(e) := Identity(e.item)])
  {
    hide Identity, IsDelivery;
    var all, p := xs + [e], PlaceOf(e);
    var ids := identities[p := Identity(e.item)];
    assert forall i :: 0 <= i < |xs| ==> all[i] == xs[i];
    assert all[|xs|] == e;
    forall q | q in ids ensures exists i :: 0 <= i < |all| && PlaceOf(all[i]) == q {
      if q != p {
        var i :| 0 <= i < |xs| && PlaceOf(xs[i]) == q;
        assert PlaceOf(all[i]) == q;
      }
    }
  }

  lemma OutputsNext(xs: seq<Entry>, e: Entry, observed: map<Place, Envelope>)
    requires ReflectsOutputs(xs, observed) && Agrees(xs, e) && (IsDelivery(e.item) ==> e.item.body.Carries?)
    ensures ReflectsOutputs(xs + [e], WithOutput(observed, e))
  {
    hide IsDelivery, Identity;
    var all, p := xs + [e], PlaceOf(e);
    var obs := WithOutput(observed, e);
    assert forall i :: 0 <= i < |xs| ==> all[i] == xs[i];
    assert all[|xs|] == e;
    forall q | q in obs ensures exists i :: 0 <= i < |all| && PlaceOf(all[i]) == q && IsDelivery(all[i].item) {
      if q in observed {
        var i :| 0 <= i < |xs| && PlaceOf(xs[i]) == q && IsDelivery(xs[i].item);
        assert PlaceOf(all[i]) == q;
      }
    }
  }

  lemma CompactedNext(xs: seq<Entry>, e: Entry)
    ensures Compacted(xs + [e]) <==> Compacted(xs) || e.item.kind == Compaction
  {
    var all := xs + [e];
    assert forall i :: 0 <= i < |xs| ==> all[i] == xs[i];
    assert all[|xs|] == e;
  }

  /** The part of `ItemOk` that only deliveries have to pass. */
  predicate DeliveryOk(i: Item, intent: Envelope) {
    && i.space == Some(Orchestration) && i.body.Carries? && ValidEnvelope(i.body.envelope)
    && (i.body.envelope.deliveryId == intent.deliveryId ==> i.body.envelope == intent)
  }

  /** The check of an item against the dictionaries. */
  predicate Known(e: Entry, identities: Identities, observed: map<Place, Envelope>) {
    && (PlaceOf(e) in identities ==> identities[PlaceOf(e)] == Identity(e.item))
    && (IsDelivery(e.item) && PlaceOf(e) in observed ==> Carries(observed[PlaceOf(e)]) == e.item.body)
  }

  function WithOutput(observed: map<Place, Envelope>, e: Entry): map<Place, Envelope> {
    if IsDelivery(e.item) && e.item.body.Carries? then observed[PlaceOf(e) := e.item.body.envelope] else observed
  }

  function WithMark(matches: set<Place>, e: Entry, intent: Envelope): set<Place> {
    if Marks(e.item, intent) then matches + {PlaceOf(e)} else matches
  }

  lemma CoherentMarks(xs: seq<Entry>, intent: Envelope)
    requires Coherent(xs, intent)
    ensures |Marked(xs, intent)| <= 32
  {
  }

  lemma DeliveryCarries(i: Item, intent: Envelope)
    ensures ItemOk(i, intent) && IsDelivery(i) ==> i.body.Carries?
  {
  }

  /** Everything about one more item, in terms of what the scan remembers. */
  lemma ItemStep(xs: seq<Entry>, e: Entry, intent: Envelope, identities: Identities, observed: map<Place, Envelope>)
    requires Coherent(xs, intent) && Reflects(xs, identities, observed)
    ensures Coherent(xs + [e], intent) <==>
            ItemOk(e.item, intent) && Known(e, identities, observed) && |WithMark(Marked(xs, intent), e, intent)| <= 32
    ensures Coherent(xs + [e], intent) ==>
              Reflects(xs + [e], identities[PlaceOf(e) := Identity(e.item)], WithOutput(observed, e))
    ensures Marked(xs + [e], intent) == WithMark(Marked(xs, intent), e, intent)
    ensures Compacted(xs + [e]) <==> Compacted(xs) || e.item.kind == Compaction
    ensures |Marked(xs, intent)| <= 32
  {
    hide Marks, Agrees, Compacted, Coherent, Marked, Known, ReflectsIdentities, ReflectsOutputs, ItemOk, IsDelivery, WithOutput, Identity;
    NextExactly(xs, e, intent);
    LooksUp(xs, e, identities, observed);
    MarkedGrows(xs, e, intent);
    CompactedNext(xs, e);
    CoherentMarks(xs, intent);
    DeliveryCarries(e.item, intent);
    assert Marked(xs, intent) + {} == Marked(xs, intent);
    if ItemOk(e.item, intent) && Agrees(xs, e) {
      IdentitiesNext(xs, e, identities);
      OutputsNext(xs, e, observed);
    }
  }

  class Scanner {
    const intent: Envelope
    var matches: set<Place>
    var identities: Identities
    var observed: map<Place, Envelope>
    var complete: bool
    var compaction: bool
    ghost var seen: seq<Entry>

    ghost predicate Valid()
      reads this
    {
      && Coherent(seen, intent) && matches == Marked(seen, intent) && compaction == Compacted(seen)
      && Reflects(seen, identities, observed)
    }

    constructor (intent: Envelope, complete: bool)
      ensures Valid() && this.intent == intent && this.complete == complete && seen == []
    {
      this.intent, this.complete := intent, complete;
      matches, identities, observed, compaction, seen := {}, map[], map[], false, [];
    }

    method ScanItem(item: Item, turnId: string) returns (ok: bool)
      requires Valid()
      modifies this`matches, this`identities, this`observed, this`compaction, this`seen
      ensures seen == old(seen) + [Entry(turnId, item)]
      ensures ok <==> Coherent(seen, intent)
      ensures ok ==> Valid()
    {
      var place := (turnId, item.id);
      ghost var e := Entry(turnId, item);
      hide Coherent, Marked, Reflects, Compacted, Safe, ValidEnvelope;
      ItemStep(seen, e, intent, identities, observed);
      seen := seen + [e];
      ok := false;
      if Safe(item.id) && (place in identities ==> identities[place] == Identity(item)) {
        identities := identities[place := Identity(item)];
        compaction := compaction || item.kind == Compaction;
        ok := true;
        if IsDelivery(item) {
          ok := ScanDelivery(item, turnId);
        }
      }
    }

    /** The rest of it, for an item under the delivery's name. */
    method ScanDelivery(item: Item, turnId: string) returns (ok: bool)
      requires IsDelivery(item)
      modifies this`matches, this`observed
      ensures ok ==> observed == WithOutput(old(observed), Entry(turnId, item))
      ensures ok ==> matches == WithMark(old(matches), Entry(turnId, item), intent)
      ensures ok <==>
              && DeliveryOk(item, intent)
              && ((turnId, item.id) in old(observed) ==> Carries(old(observed)[(turnId, item.id)]) == item.body)
              && (Marks(item, intent) ==> |WithMark(old(matches), Entry(turnId, item), intent)| <= 32)
    {
      hide Safe, ValidEnvelope;
      var place := (turnId, item.id);
      if item.space != Some(Orchestration) || item.body.NoEnvelope? || !ValidEnvelope(item.body.envelope)
         || (place in observed && observed[place] != item.body.envelope) {
        return false;
      }
      observed := observed[place := item.body.envelope];
      if item.body.envelope.deliveryId != intent.deliveryId {
        return true;
      }
      if item.body.envelope != intent {
        return false;
      }
      matches := matches + {place};
      return |matches| <= 32;
    }

    /** Items in order; one bad item spoils the rest. */
    method ScanEntries(entries: seq<Entry>) returns (ok: bool)
      requires Valid()
      modifies this`matches, this`identities, this`observed, this`compaction, this`seen
      ensures ok <==> Coherent(old(seen) + entries, intent)
      ensures ok ==> Valid() && seen == old(seen) + entries
    {
      hide Coherent, Marked, Reflects, Compacted;
      assert entries[..|entries|] == entries;
      for i := 0 to |entries|
        invariant Valid() && seen == old(seen) + entries[..i]
      {
        ok := ScanItem(entries[i].item, entries[i].turn);
        assert entries[..i + 1] == entries[..i] + [entries[i]];
        assert seen == old(seen) + entries[..i + 1];
        if !ok {
          SpoiltStays(seen, entries[i + 1..], intent);
          assert seen + entries[i + 1..] == old(seen) + entries;
          return;
        }
      }
      ok := true;
    }

    method ScanTurn(turn: Turn, full: bool) returns (ok: bool)
      requires Valid()
      modifies this`matches, this`identities, this`observed, this`compaction, this`seen, this`complete
      ensures ok <==> TurnOk(turn) && Coherent(old(seen) + ScannedTurn(turn, full), intent)
      ensures ok ==> Valid() && seen == old(seen) + ScannedTurn(turn, full)
      ensures ok ==> complete == (old(complete) && full && FullTurn(turn))
    {
      hide Coherent, Marked, Reflects, Compacted, TurnOk;
      if !TurnOk(turn) {
        return false;
      }
      if !full || !FullTurn(turn) {
        complete := false;
        assert seen + [] == seen;
        return true;
      }
      ok := ScanEntries(EntriesOf(turn.id, turn.items));
    }

    method ScanTurns(turns: seq<Turn>, full: bool) returns (ok: bool)
      requires Valid()
      modifies this`matches, this`identities, this`observed, this`compaction, this`seen, this`complete
      ensures ok <==> (forall i :: 0 <= i < |turns| ==> TurnOk(turns[i])) && Coherent(old(seen) + ScannedTurns(turns, full), intent)
      ensures ok ==> Valid() && seen == old(seen) + ScannedTurns(turns, full)
      ensures ok ==> complete == (old(complete) && (full || turns == []) && AllFull(turns))
    {
      hide Coherent, Marked, Reflects, Compacted, TurnOk, FullTurn, ScannedTurn, ScannedTurns, AllFull;
      NoTurns(old(seen), turns, full);
      assert turns[..|turns|] == turns;
      for i := 0 to |turns|
        invariant Valid() && seen == old(seen) + ScannedTurns(turns[..i], full)
        invariant forall j :: 0 <= j < i ==> TurnOk(turns[j])
        invariant complete == (old(complete) && (full || i == 0) && AllFull(turns[..i]))
      {
        TurnStep(old(seen), turns, i, full);
        ok := ScanTurn(turns[i], full);
        if !ok {
          if TurnOk(turns[i]) { TurnsSpoilt(old(seen), turns, i + 1, full, intent); }
          return;
        }
      }
      ok := true;
    }

    /** One read; `previousNext` and `previousQuery` are what the last page left behind. */
    method ScanRead(r: Read, total: nat, previousNext: Option<string>, previousQuery: Option<Query>) returns (ok: bool)
      requires Valid()
      modifies this`matches, this`identities, this`observed, this`compaction, this`seen, this`complete
      ensures ok <==> ReadOk(r, intent) && Coherent(old(seen) + ScannedRead(r), intent)
      ensures ok ==> Valid() && seen == old(seen) + ScannedRead(r)
      ensures ok ==> complete == (old(complete) && Joins(r, total, previousNext, previousQuery))
    {
      hide Coherent, Marked, Reflects, Compacted, TurnOk, AllFull, ScannedTurns, Safe, CursorOk, ValidEnvelope;
      if !HeadOk(r, intent) {
        return false;
      }
      match r
      case ThreadRead(_, _, _, _, _, paginated, turns) =>
        if paginated || total != 1 {
          complete := false;
        }
        ok := ScanTurns(turns, true);
      case TurnsList(_, _, _, page, view, turns) =>
        if page.cursor != previousNext || (previousQuery.Some? && (QueryOf(r) != previousQuery.value || previousNext.None?))
           || view != Some(Full) {
          complete := false;
        }
        ok := ScanTurns(turns, view == Some(Full));
      case ItemsList(_, _, _, page, _, entries) =>
        if page.cursor != previousNext || (previousQuery.Some? && (QueryOf(r) != previousQuery.value || previousNext.None?)) {
          complete := false;
        }
        ok := ScanEntries(entries);
    }
  }

  /** `ReadOk` without what the turns inside must be. */
  predicate HeadOk(r: Read, intent: Envelope) {
    && ValidRevision(r.requestId) && r.requestId == r.responseId && r.thread == intent.controller
    && match r
       case ThreadRead(_, _, _, includeTurns, answered, _, turns) => includeTurns && answered == intent.controller && |turns| <= 64
       case TurnsList(_, _, _, page, view, turns) =>
         PageOk(page) && (view.Some? ==> !view.value.OtherView?) && |turns| <= 64
       case ItemsList(_, _, _, _, _, _) => ReadOk(r, intent)
  }

  predicate Joins(r: Read, total: nat, previousNext: Option<string>, previousQuery: Option<Query>) {
    FullView(r) &&
    if r.ThreadRead? then !r.paginated && total == 1
    else r.page.cursor == previousNext && (previousQuery.Some? ==> QueryOf(r) == previousQuery.value && previousNext.Some?)
  }

  lemma SpoiltStays(xs: seq<Entry>, ys: seq<Entry>, intent: Envelope)
    requires !Coherent(xs, intent)
    ensures !Coherent(xs + ys, intent)
  {
    hide Coherent;
    if Coherent(xs + ys, intent) { CoherentCut(xs, ys, intent); }
  }

  lemma NoTurns(xs: seq<Entry>, turns: seq<Turn>, full: bool)
    ensures xs + ScannedTurns(turns[..0], full) == xs && AllFull(turns[..0])
  {
  }

  lemma TurnStep(xs: seq<Entry>, turns: seq<Turn>, i: nat, full: bool)
    requires i < |turns|
    ensures xs + ScannedTurns(turns[..i + 1], full) == xs + ScannedTurns(turns[..i], full) + ScannedTurn(turns[i], full)
    ensures AllFull(turns[..i + 1]) <==> AllFull(turns[..i]) && FullTurn(turns[i])
  {
    hide FullTurn, ScannedTurn;
    assert turns[..i + 1][..i] == turns[..i];
    assert turns[..i + 1] == turns[..i] + [turns[i]];
  }

  lemma TurnsSpoilt(xs: seq<Entry>, turns: seq<Turn>, k: nat, full: bool, intent: Envelope)
    requires k <= |turns| && !Coherent(xs + ScannedTurns(turns[..k], full), intent)
    ensures !Coherent(xs + ScannedTurns(turns, full), intent)
  {
    hide Coherent, ScannedTurn;
    TurnsGoOn(turns, k, full);
    var rest := TurnsAfter(turns, k, full);
    SpoiltStays(xs + ScannedTurns(turns[..k], full), rest, intent);
    assert xs + ScannedTurns(turns[..k], full) + rest == xs + ScannedTurns(turns, full);
  }

  function TurnsAfter(ts: seq<Turn>, k: nat, full: bool): (r: seq<Entry>)
    requires k <= |ts|
    decreases |ts|
  {
    if k == |ts| then [] else TurnsAfter(ts[..|ts| - 1], k, full) + ScannedTurn(ts[|ts| - 1], full)
  }

  lemma {:induction false} TurnsGoOn(ts: seq<Turn>, k: nat, full: bool)
    requires k <= |ts|
    ensures ScannedTurns(ts, full) == ScannedTurns(ts[..k], full) + TurnsAfter(ts, k, full)
    decreases |ts|
  {
    hide ScannedTurn;
    if k == |ts| {
      assert ts[..k] == ts;
    } else {
      var most := ts[..|ts| - 1];
      TurnsGoOn(most, k, full);
      assert most[..k] == ts[..k];
    }
  }

  // ---------- the whole history ----------

  function ReadsAfter(rs: seq<Read>, k: nat): (r: seq<Entry>)
    requires k <= |rs|
    decreases |rs|
  {
    if k == |rs| then [] else ReadsAfter(rs[..|rs| - 1], k) + ScannedRead(rs[|rs| - 1])
  }

  lemma {:induction false} ReadsGoOn(rs: seq<Read>, k: nat)
    requires k <= |rs|
    ensures Scanned(rs) == Scanned(rs[..k]) + ReadsAfter(rs, k)
    decreases |rs|
  {
    hide ScannedRead;
    if k == |rs| {
      assert rs[..k] == rs;
    } else {
      var most := rs[..|rs| - 1];
      ReadsGoOn(most, k);
      assert most[..k] == rs[..k];
    }
  }

  function LastQuery(rs: seq<Read>): Option<Query> {
    if LastPage(rs).Some? then Some(QueryOf(LastPage(rs).value)) else None
  }

  lemma ReadStep(rs: seq<Read>, i: nat)
    requires i < |rs|
    ensures Scanned(rs[..i + 1]) == Scanned(rs[..i]) + ScannedRead(rs[i])
    ensures AllLink(rs, i + 1) <==>
            AllLink(rs, i) && Joins(rs[i], |rs|, NextOf(LastPage(rs[..i])), LastQuery(rs[..i]))
    ensures LastPage(rs[..i + 1]) == if rs[i].ThreadRead? then LastPage(rs[..i]) else Some(rs[i])
  {
    hide ScannedRead, FullView;
    assert rs[..i + 1][..i] == rs[..i];
  }

  lemma NoReads(rs: seq<Read>, intent: Envelope)
    ensures Scanned(rs[..0]) == [] && AllLink(rs, 0) && LastPage(rs[..0]).None? && ReadsOk(rs[..0], intent)
  {
  }

  lemma ReadsOkStep(rs: seq<Read>, i: nat, intent: Envelope)
    requires i < |rs| && ReadsOk(rs[..i], intent)
    ensures var again := exists j :: 0 <= j < i && rs[j].requestId == rs[i].requestId;
            && (ReadsOk(rs[..i + 1], intent) <==> !again && ReadOk(rs[i], intent))
            && (ReadsOk(rs, intent) ==> !again && ReadOk(rs[i], intent))
  {
    hide ReadOk;
    assert rs[..i + 1] == rs[..i] + [rs[i]];
  }

  lemma ReadsSpoilt(rs: seq<Read>, k: nat, intent: Envelope)
    requires k <= |rs| && !Coherent(Scanned(rs[..k]), intent)
    ensures !Coherent(Scanned(rs), intent)
  {
    hide Coherent, Scanned;
    ReadsGoOn(rs, k);
    SpoiltStays(Scanned(rs[..k]), ReadsAfter(rs, k), intent);
  }

  method ScanHistory(history: seq<Read>, intent: Envelope) returns (ok: bool, matched: set<Place>, complete: bool, compaction: bool)
    ensures ok <==> ReadsOk(history, intent) && Coherent(Scanned(history), intent)
    ensures ok ==> matched == Marked(Scanned(history), intent) && (compaction <==> Compacted(Scanned(history)))
    ensures ok ==> (complete <==> ChainComplete(history))
  {
    hide Coherent, Marked, Reflects, Compacted, ReadOk, ReadsOk, Scanned, ScannedRead, Joins, ChainComplete, LastPage, AllLink;
    NoReads(history, intent);
    var scan := new Scanner(intent, history != []);
    var ids: set<int> := {};
    var previousNext: Option<string>, previousQuery: Option<Query> := None, None;
    matched, complete, compaction := {}, false, false;
    assert history[..|history|] == history;
    for i := 0 to |history|
      invariant scan.intent == intent && scan.Valid() && fresh(scan)
      invariant scan.seen == Scanned(history[..i])
      invariant ids == set j | 0 <= j < i :: history[j].requestId
      invariant ReadsOk(history[..i], intent)
      invariant previousNext == NextOf(LastPage(history[..i])) && previousQuery == LastQuery(history[..i])
      invariant scan.complete <==> history != [] && AllLink(history, i)
    {
      var r := history[i];
      ReadStep(history, i);
      ReadsOkStep(history, i, intent);
      if r.requestId in ids {
        return false, {}, false, false;
      }
      ids := ids + {r.requestId};
      ok := scan.ScanRead(r, |history|, previousNext, previousQuery);
      if !ok {
        if ReadOk(r, intent) { ReadsSpoilt(history, i + 1, intent); }
        return false, {}, false, false;
      }
      if !r.ThreadRead? {
        previousNext, previousQuery := r.page.next, Some(QueryOf(r));
      }
    }
    ChainExactly(history);
    ok, matched, compaction := true, scan.matches, scan.compaction;
    complete := scan.complete && previousNext.None?;
  }

  // ---------- acknowledgements ----------

  lemma FindExactly(intent: Envelope, a: AckRecord)
    requires Distinct(intent.events)
    ensures AckOk(intent, a) <==>
            FindEvent(intent.events, a.eventId).Some? && AckFits(intent, FindEvent(intent.events, a.eventId).value, a)
  {
    hide Safe;
    var found := FindEvent(intent.events, a.eventId);
    if AckOk(intent, a) {
      var i :| 0 <= i < |intent.events| && AckFits(intent, intent.events[i], a);
      assert found.Some?;
      var j :| 0 <= j < |intent.events| && intent.events[j] == found.value;
      assert i == j;
    }
  }

  /** The decisions are exactly those of the records. */
  ghost predicate Decided(acks: seq<AckRecord>, decisions: map<string, Decision>) {
    && (forall i :: 0 <= i < |acks| ==> acks[i].eventId in decisions && decisions[acks[i].eventId] == acks[i].decision)
    && (forall id :: id in decisions ==> AckedAs(acks, id, decisions[id]))
  }

  lemma DecidedNext(acks: seq<AckRecord>, a: AckRecord, decisions: map<string, Decision>)
    requires Decided(acks, decisions) && (a.eventId in decisions ==> decisions[a.eventId] == a.decision)
    ensures Decided(acks + [a], decisions[a.eventId := a.decision])
  {
    var all := acks + [a];
    assert all[|acks|] == a && forall i :: 0 <= i < |acks| ==> all[i] == acks[i];
    forall id | id in decisions ensures AckedAs(all, id, decisions[id]) {
      var i :| 0 <= i < |acks| && acks[i].eventId == id && acks[i].decision == decisions[id];
      assert all[i].eventId == id;
    }
  }

  method CheckAcks(intent: Envelope, acks: seq<AckRecord>) returns (ok: bool, decisions: map<string, Decision>)
    requires Distinct(intent.events)
    ensures ok <==> AcksOk(intent, acks)
    ensures ok ==> Decided(acks, decisions)
  {
    hide AckOk, AckFits, Distinct, FindEvent;
    decisions := map[];
    assert acks[..|acks|] == acks;
    for k := 0 to |acks|
      invariant Decided(acks[..k], decisions) && AcksOk(intent, acks[..k])
    {
      var a := acks[k];
      FindExactly(intent, a);
      assert acks[..k + 1] == acks[..k] + [a];
      var event := FindEvent(intent.events, a.eventId);
      if event.None? || !AckFits(intent, event.value, a) {
        return false, decisions;
      }
      if a.eventId in decisions && decisions[a.eventId] != a.decision {
        var i :| 0 <= i < k && acks[i].eventId == a.eventId && acks[i].decision == decisions[a.eventId];
        return false, decisions;
      }
      DecidedNext(acks[..k], a, decisions);
      decisions := decisions[a.eventId := a.decision];
    }
    ok := true;
  }

  // ---------- the report ----------

  lemma {:induction false} Sorted<T>(ids: seq<T>, keys: set<T>, id: T)
    ensures id in Among(ids, keys) <==> id in ids && id in keys
    ensures id in Outside(ids, keys) <==> id in ids && id !in keys
  {
    if ids != [] {
      Sorted(ids[..|ids| - 1], keys, id);
      assert ids == ids[..|ids| - 1] + [ids[|ids| - 1]];
    }
  }

  lemma {:induction false} Partition<T>(ids: seq<T>, keys: set<T>)
    ensures multiset(Among(ids, keys)) + multiset(Outside(ids, keys)) == multiset(ids)
    ensures |Among(ids, keys)| + |Outside(ids, keys)| == |ids|
  {
    if ids != [] {
      var most, last := ids[..|ids| - 1], ids[|ids| - 1];
      Partition(most, keys);
      OneMore(Among(most, keys), Outside(most, keys), most, last);
      assert Among(most, keys) + [] == Among(most, keys) && Outside(most, keys) + [] == Outside(most, keys);
      assert ids == most + [last];
    }
  }

  lemma OneMore<T>(a: seq<T>, b: seq<T>, all: seq<T>, x: T)
    requires multiset(a) + multiset(b) == multiset(all)
    ensures multiset(a + [x]) + multiset(b) == multiset(all + [x])
    ensures multiset(a) + multiset(b + [x]) == multiset(all + [x])
  {
  }

  predicate NoTwins<T(==)>(ids: seq<T>) {
    forall i, j :: 0 <= i < j < |ids| ==> ids[i] != ids[j]
  }

  lemma {:induction false} AmongCounts<T>(ids: seq<T>, keys: set<T>)
    requires NoTwins(ids) && forall id :: id in keys ==> id in ids
    ensures |Among(ids, keys)| == |keys|
    decreases |ids|
  {
    if ids == [] {
      assert keys == {};
    } else {
      var most, last := ids[..|ids| - 1], ids[|ids| - 1];
      assert ids == most + [last] && last !in most;
      AmongCounts(most, keys - {last});
      SameAmong(most, keys, last);
    }
  }

  lemma {:induction false} SameAmong<T>(ids: seq<T>, keys: set<T>, x: T)
    requires x !in ids
    ensures Among(ids, keys - {x}) == Among(ids, keys)
  {
    if ids != [] { SameAmong(ids[..|ids| - 1], keys, x); }
  }

  lemma IdsOfDistinct(events: seq<Event>)
    requires Distinct(events)
    ensures NoTwins(Ids(events))
  {
  }

  /** Every acknowledged id is one of the intent's. */
  lemma AckedKnown(intent: Envelope, acks: seq<AckRecord>, decisions: map<string, Decision>)
    requires AcksOk(intent, acks) && Decided(acks, decisions)
    ensures forall id :: id in decisions ==> id in Ids(intent.events)
    ensures forall id :: id in decisions <==> IsAcked(acks, id)
    ensures forall id :: (id in decisions && decisions[id] == WaitingUser) <==> AckedAs(acks, id, WaitingUser)
  {
    hide Safe;
    forall id | id in decisions ensures id in Ids(intent.events) {
      var i :| 0 <= i < |acks| && acks[i].eventId == id && acks[i].decision == decisions[id];
      var j :| 0 <= j < |intent.events| && AckFits(intent, intent.events[j], acks[i]);
      assert Ids(intent.events)[j] == id;
    }
  }

  lemma DecidedKeys(acks: seq<AckRecord>, decisions: map<string, Decision>)
    requires Decided(acks, decisions)
    ensures decisions.Keys == AckedIds(acks)
    ensures (set id | id in decisions && decisions[id] == WaitingUser) == WaitingIds(acks)
  {
    forall id | id in decisions ensures id in AckedIds(acks) && (decisions[id] == WaitingUser ==> id in WaitingIds(acks)) {
      var i :| 0 <= i < |acks| && acks[i].eventId == id && acks[i].decision == decisions[id];
    }
  }

  /** What the acknowledgements make of the ids. */
  ghost predicate AckReport(c: Capture, acknowledged: seq<string>, pending: seq<string>, waiting: seq<string>) {
    && acknowledged == Among(Ids(c.intent.events), AckedIds(c.acks)) && pending == Outside(Ids(c.intent.events), AckedIds(c.acks))
    && waiting == Among(Ids(c.intent.events), WaitingIds(c.acks))
    && multiset(acknowledged) + multiset(pending) == multiset(Ids(c.intent.events))
    && (forall id :: id in acknowledged ==> IsAcked(c.acks, id))
    && (forall id :: id in pending ==> !IsAcked(c.acks, id))
    && (forall id :: id in waiting <==> AckedAs(c.acks, id, WaitingUser))
  }

  lemma AcksReported(c: Capture, decisions: map<string, Decision>, waiting: set<string>)
    requires Distinct(c.intent.events) && AcksOk(c.intent, c.acks) && Decided(c.acks, decisions)
    requires waiting == set id | id in decisions && decisions[id] == WaitingUser
    ensures var ids := Ids(c.intent.events);
            && AckReport(c, Among(ids, decisions.Keys), Outside(ids, decisions.Keys), Among(ids, waiting))
            && |decisions| == |Among(ids, decisions.Keys)|
            && (|decisions| == |c.intent.events| <==> Outside(ids, decisions.Keys) == [])
  {
    hide IsAcked, AckedAs, AcksOk, Decided, Distinct, NoTwins, Among, Outside;
    var ids := Ids(c.intent.events);
    IdsOfDistinct(c.intent.events);
    AckedKnown(c.intent, c.acks, decisions);
    DecidedKeys(c.acks, decisions);
    forall id
      ensures id in Among(ids, decisions.Keys) <==> id in decisions
      ensures id in Outside(ids, decisions.Keys) ==> id !in decisions
      ensures id in Among(ids, waiting) <==> id in waiting
    {
      Sorted(ids, decisions.Keys, id);
      Sorted(ids, waiting, id);
    }
    Partition(ids, decisions.Keys);
    AmongCounts(ids, decisions.Keys);
  }

  /** The audit: accepts exactly the captures that make sense as a whole, and reports exactly
      what they show. */
  method Audit(c: Capture) returns (r: Option<Report>)
    ensures r.Some? <==> Acceptable(c)
    ensures r.Some? ==> Reports(c, r.value)
  {
    hide Coherent, Marked, Compacted, ReadsOk, Scanned, ChainComplete, Distinct, ValidEvent, AcksOk, Decided, IsAcked, AckedAs, Among, Outside, Marks;
    if c.version != 1 || !ValidEnvelope(c.intent) || |c.history| > 16 || |c.acks| > 32 {
      return None;
    }
    var scanned, matched, complete, compaction := ScanHistory(c.history, c.intent);
    if !scanned {
      return None;
    }
    var ok, decisions := CheckAcks(c.intent, c.acks);
    if !ok {
      return None;
    }
    var ids := Ids(c.intent.events);
    var waiting := set id | id in decisions && decisions[id] == WaitingUser;
    r := Some(Report(matched != {}, |matched|, if |matched| == 0 then 0 else |matched| - 1, complete, compaction,
                     Among(ids, decisions.Keys), Outside(ids, decisions.Keys), Among(ids, waiting), |decisions|, |decisions| == |ids|));
    AcksReported(c, decisions, waiting);
    MarkedSome(Scanned(c.history), c.intent);
  }

  lemma MarkedSome(xs: seq<Entry>, intent: Envelope)
    ensures Marked(xs, intent) != {} <==> exists i :: 0 <= i < |xs| && Marks(xs[i].item, intent)
  {
    hide Marks;
    if i :| 0 <= i < |xs| && Marks(xs[i].item, intent) {
      assert PlaceOf(xs[i]) in Marked(xs, intent);
    }
  }
}
