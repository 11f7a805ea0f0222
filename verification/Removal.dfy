/** Removing the public socket while other processes may replace or remove its name between any
    two calls: there is no conditional unlink, so the entry is first moved aside. */
module Removal {
  import opened Bytes

  datatype Kind = Socket | Symlink | OtherFile

  datatype Identity = Identity(dev: int, ino: int, uid: int, mode: int)

  /** A directory entry, by what it leads to. */
  datatype Entry = Entry(kind: Kind, identity: Identity)

  predicate Owned(e: Entry, frozen: Identity) {
    e.kind == Socket && e.identity == frozen
  }

  /** What another process does to the public name before a call. */
  datatype Move = Keep | Put(entry: Entry) | Clear

  /** What the removal itself did or saw, in order. */
  datatype Act = SawAbsent | MovedAside(entry: Entry) | Deleted(entry: Entry) | LinkedBack(entry: Entry)

  datatype Found = Absent | Present(entry: Entry) | Unreadable

  datatype Outcome =
    | Removed | IdentityMissing | ParentChanged | Replaced | QuarantineFailed | QuarantineUnreadable
    | RecheckFailed | Reappeared | RestoreFailed | OtherError

  // ---------- what may be in the record of a call ----------

  /** Nothing is deleted but the frozen socket, or what was linked back before. */
  ghost predicate Careful(acts: seq<Act>, frozen: Identity) {
    forall i :: 0 <= i < |acts| && acts[i].Deleted? ==>
                  Owned(acts[i].entry, frozen) || exists j :: 0 <= j < i && acts[j] == LinkedBack(acts[i].entry)
  }

  /** Nothing moved aside is lost: it was the frozen socket and is gone, was linked back, or is
      still where it was put, and that place is on record. */
  ghost predicate Accounted(acts: seq<Act>, frozen: Identity, kept: Option<Entry>, onRecord: bool) {
    forall i :: 0 <= i < |acts| && acts[i].MovedAside? ==>
                  || (Owned(acts[i].entry, frozen) && Deleted(acts[i].entry) in acts)
                  || LinkedBack(acts[i].entry) in acts
                  || (kept == Some(acts[i].entry) && onRecord)
  }

  /** A foreign entry is only ever linked back, an owned one only ever deleted. */
  ghost predicate Fair(acts: seq<Act>, frozen: Identity) {
    forall i :: 0 <= i < |acts| && acts[i].LinkedBack? ==> !Owned(acts[i].entry, frozen)
  }

  class World {
    const env: nat -> Move
    const faulty: nat -> bool
    var public: Option<Entry>
    var quarantines: map<nat, Option<Entry>>
    var calls: nat
    ghost var acts: seq<Act>

    constructor (env: nat -> Move, faulty: nat -> bool, public: Option<Entry>)
      ensures this.env == env && this.faulty == faulty && this.public == public
      ensures quarantines == map[] && calls == 0 && acts == []
    {
      this.env, this.faulty, this.public := env, faulty, public;
      quarantines, calls, acts := map[], 0, [];
    }

    /** What stands at the public name once the others have made their move before the next call. */
    function Standing(): (e: Option<Entry>)
      reads this`public, this`calls
    {
      match env(calls)
      case Keep => public
      case Put(e) => Some(e)
      case Clear => None
    }

    /** From this call on no call fails and the others keep still. */
    ghost predicate Undisturbed(from: nat) {
      forall n :: n >= from ==> env(n) == Keep && !faulty(n)
    }

    /** Every call begins with the others' move, and may fail. */
    method Begin() returns (fault: bool)
      modifies this`public, this`calls
      ensures calls == old(calls) + 1 && fault == faulty(old(calls)) && public == old(Standing())
    {
      match env(calls) {
        case Keep =>
        case Put(e) => public := Some(e);
        case Clear => public := None;
      }
      fault := faulty(calls);
      calls := calls + 1;
    }

    /** Any call that touches neither name: opening, checking or syncing a directory. */
    method Touch() returns (ok: bool)
      modifies this`public, this`calls
      ensures calls == old(calls) + 1 && ok == !old(faulty(calls)) && public == old(Standing())
    {
      var fault := Begin();
      ok := !fault;
    }

    method StatPublic() returns (r: Found)
      modifies this`public, this`calls, this`acts
      ensures acts == if r.Absent? then old(acts) + [SawAbsent] else old(acts)
      ensures calls == old(calls) + 1 && public == old(Standing())
      ensures r == if old(faulty(calls)) then Unreadable else if public.None? then Absent else Present(public.value)
    {
      var fault := Begin();
      if fault {
        r := Unreadable;
      } else if public.None? {
        acts := acts + [SawAbsent];
        r := Absent;
      } else {
        r := Present(public.value);
      }
    }

    method MakeQuarantine(name: nat) returns (ok: bool)
      modifies this`public, this`calls, this`quarantines
      ensures calls == old(calls) + 1 && public == old(Standing())
      ensures ok <==> !old(faulty(calls)) && name !in old(quarantines)
      ensures quarantines == if ok then old(quarantines)[name := None] else old(quarantines)
    {
      var fault := Begin();
      ok := !fault && name !in quarantines;
      if ok {
        quarantines := quarantines[name := None];
      }
    }

    /** Atomically takes whatever is at the public name, whoever put it there. */
    method MoveAside(name: nat) returns (r: Found)
      requires name in quarantines
      modifies this`public, this`calls, this`quarantines, this`acts
      ensures calls == old(calls) + 1
      ensures r == if old(faulty(calls)) then Unreadable
                   else if old(Standing()).None? then Absent else Present(old(Standing()).value)
      ensures r.Present? ==>
                && public.None? && quarantines == old(quarantines)[name := Some(r.entry)]
                && acts == old(acts) + [MovedAside(r.entry)]
      ensures !r.Present? ==> quarantines == old(quarantines) && public == old(Standing())
      ensures r.Absent? ==> acts == old(acts) + [SawAbsent]
      ensures r.Unreadable? ==> acts == old(acts)
    {
      var fault := Begin();
      if fault {
        return Unreadable;
      }
      if public.None? {
        acts := acts + [SawAbsent];
        return Absent;
      }
      acts := acts + [MovedAside(public.value)];
      r := Present(public.value);
      quarantines := quarantines[name := public];
      public := None;
    }

    method StatAside(name: nat) returns (r: Option<Entry>)
      requires name in quarantines
      modifies this`public, this`calls
      ensures calls == old(calls) + 1 && public == old(Standing())
      ensures r == if old(faulty(calls)) then None else quarantines[name]
    {
      var fault := Begin();
      r := if fault then None else quarantines[name];
    }

    method DeleteAside(name: nat) returns (ok: bool)
      requires name in quarantines && quarantines[name].Some?
      modifies this`public, this`calls, this`quarantines, this`acts
      ensures calls == old(calls) + 1 && public == old(Standing()) && ok == !old(faulty(calls))
      ensures ok ==> quarantines == old(quarantines)[name := None] && acts == old(acts) + [Deleted(old(quarantines)[name].value)]
      ensures !ok ==> quarantines == old(quarantines) && acts == old(acts)
    {
      var fault := Begin();
      ok := !fault;
      if ok {
        acts := acts + [Deleted(quarantines[name].value)];
        quarantines := quarantines[name := None];
      }
    }

    method RemoveQuarantine(name: nat) returns (ok: bool)
      requires name in quarantines
      modifies this`public, this`calls, this`quarantines
      ensures calls == old(calls) + 1 && public == old(Standing())
      ensures ok <==> !old(faulty(calls)) && old(quarantines)[name].None?
      ensures quarantines == if ok then old(quarantines) - {name} else old(quarantines)
    {
      var fault := Begin();
      ok := !fault && quarantines[name].None?;
      if ok {
        quarantines := quarantines - {name};
      }
    }

    /** A second name for the entry, only where there is none. */
    method LinkBack(name: nat) returns (ok: bool)
      requires name in quarantines && quarantines[name].Some?
      modifies this`public, this`calls, this`acts
      ensures calls == old(calls) + 1
      ensures ok <==> !old(faulty(calls)) && old(Standing()).None?
      ensures !ok ==> public == old(Standing())
      ensures ok ==> public == quarantines[name] && acts == old(acts) + [LinkedBack(quarantines[name].value)]
      ensures !ok ==> acts == old(acts)
    {
      var fault := Begin();
      ok := !fault && public.None?;
      if ok {
        public := quarantines[name];
        acts := acts + [LinkedBack(quarantines[name].value)];
      }
    }
  }

  class Transaction {
    const frozen: Option<Identity>
    var quarantinePath: Option<nat>

    constructor (frozen: Option<Identity>)
      ensures this.frozen == frozen && quarantinePath.None?
    {
      this.frozen, quarantinePath := frozen, None;
    }

    /** What one removal did: careful, nothing lost, other quarantines untouched; and success
        means that the public name was seen absent and only the frozen socket was taken. */
    ghost predicate Proper(w: World, name: nat, acts: seq<Act>, before: map<nat, Option<Entry>>, outcome: Outcome)
      reads this, w
    {
      && (frozen.None? ==> acts == [] && !outcome.Removed?)
      && (frozen.Some? ==>
            && Careful(acts, frozen.value) && Fair(acts, frozen.value)
            && Accounted(acts, frozen.value, if name in w.quarantines then w.quarantines[name] else None, quarantinePath == Some(name))
            && (outcome.Removed? ==>
                  && acts != [] && acts[|acts| - 1] == SawAbsent && name !in w.quarantines
                  && forall e :: MovedAside(e) in acts ==> Owned(e, frozen.value) && Deleted(e) in acts))
      && (forall k :: k in before ==> k in w.quarantines && w.quarantines[k] == before[k])
      && (forall k :: k in w.quarantines ==> k in before || k == name)
    }

    /** `name` is the fresh name of the quarantine directory. */
    method RemoveOwnedPublicSocket(w: World, name: nat) returns (outcome: Outcome)
      requires name !in w.quarantines
      modifies this`quarantinePath, w`public, w`calls, w`quarantines, w`acts
      ensures old(w.acts) <= w.acts
      ensures Proper(w, name, w.acts[|old(w.acts)|..], old(w.quarantines), outcome)
      ensures w.Undisturbed(old(w.calls)) && frozen.Some? ==>
                && (outcome.Removed? <==> old(w.public).None? || Owned(old(w.public).value, frozen.value))
                && (if outcome.Removed? then w.public.None? else outcome == Replaced && w.public == old(w.public))
                && w.quarantines == old(w.quarantines)
    {
      hide Careful, Fair, Accounted, Settled;
      ghost var start := w.acts;
      if frozen.None? {
        return IdentityMissing;
      }
      NothingTaken(frozen.value);
      assert start[|start|..] == [] && (start + [SawAbsent])[|start|..] == [SawAbsent];
      var ok := w.Touch();
      if !ok {
        return ParentChanged;
      }
      var seen := w.StatPublic();
      if !seen.Present? {
        return if seen.Absent? then Removed else OtherError;
      }
      if !Owned(seen.entry, frozen.value) {
        return Replaced;
      }
      hide Proper;
      outcome := Take(w, name);
    }

    /** The name was seen to lead to the frozen socket: from here on into the quarantine. */
    method Take(w: World, name: nat) returns (outcome: Outcome)
      requires frozen.Some? && name !in w.quarantines
      modifies this`quarantinePath, w`public, w`calls, w`quarantines, w`acts
      ensures old(w.acts) <= w.acts
      ensures Proper(w, name, w.acts[|old(w.acts)|..], old(w.quarantines), outcome)
      ensures w.Undisturbed(old(w.calls)) && old(w.public).Some? && Owned(old(w.public).value, frozen.value) ==>
                outcome.Removed? && w.public.None? && w.quarantines == old(w.quarantines)
    {
      hide Careful, Fair, Accounted, Settled, Owned;
      ghost var before, start := w.quarantines, w.acts;
      NothingTaken(frozen.value);
      assert start[|start|..] == [] && (start + [SawAbsent])[|start|..] == [SawAbsent];
      quarantinePath := Some(name);
      var ok := w.MakeQuarantine(name);
      if !ok {
        return OtherError;
      }
      ok := w.Touch();
      if !ok {
        return QuarantineFailed;
      }
      var moved := w.MoveAside(name);
      if moved.Unreadable? {
        return OtherError;
      }
      if moved.Absent? {
        outcome := Leave(w, name);
        return;
      }
      assert w.acts == start + [MovedAside(moved.entry)];
      ghost var aside := w.quarantines;
      outcome := Settle(w, name);
      ghost var rest := w.acts[|start| + 1..];
      assert w.acts[|start|..] == [MovedAside(moved.entry)] + rest;
      SettledProper(frozen.value, moved.entry, rest, outcome,
                    if name in w.quarantines then w.quarantines[name] else None, quarantinePath == Some(name));
      OthersKept(before, aside, w.quarantines, name);
    }

    /** Nothing was moved: the public name was already gone. */
    method Leave(w: World, name: nat) returns (outcome: Outcome)
      requires name in w.quarantines && w.quarantines[name].None?
      modifies this`quarantinePath, w`public, w`calls, w`quarantines
      ensures outcome.Removed? ==> w.quarantines == old(w.quarantines) - {name} && quarantinePath.None?
      ensures !outcome.Removed? ==> quarantinePath == old(quarantinePath)
      ensures w.quarantines == old(w.quarantines) || w.quarantines == old(w.quarantines) - {name}
      ensures w.Undisturbed(old(w.calls)) ==> outcome.Removed? && w.public == old(w.public)
    {
      var ok := w.RemoveQuarantine(name);
      if ok {
        ok := w.Touch();
      }
      if ok {
        quarantinePath := None;
        return Removed;
      }
      return OtherError;
    }

    /** Something was moved: the frozen socket goes, anything else goes back. */
    method Settle(w: World, name: nat) returns (outcome: Outcome)
      requires frozen.Some? && name in w.quarantines && w.quarantines[name].Some? && quarantinePath == Some(name)
      modifies this`quarantinePath, w`public, w`calls, w`quarantines, w`acts
      ensures old(w.acts) <= w.acts
      ensures Settled(frozen.value, old(w.quarantines)[name].value, w.acts[|old(w.acts)|..], outcome,
                      if name in w.quarantines then w.quarantines[name] else None, quarantinePath == Some(name))
      ensures w.quarantines - {name} == old(w.quarantines) - {name}
      ensures outcome.Removed? ==> name !in w.quarantines
      ensures w.Undisturbed(old(w.calls)) && old(w.public).None? && Owned(old(w.quarantines)[name].value, frozen.value) ==>
                outcome.Removed? && w.public.None?
    {
      var aside := w.StatAside(name);
      if aside.None? {
        return QuarantineUnreadable;
      }
      if Owned(aside.value, frozen.value) {
        outcome := Delete(w, name);
      } else {
        outcome := Restore(w, name);
      }
    }

    method Delete(w: World, name: nat) returns (outcome: Outcome)
      requires frozen.Some? && name in w.quarantines && w.quarantines[name].Some? && quarantinePath == Some(name)
      requires Owned(w.quarantines[name].value, frozen.value)
      modifies this`quarantinePath, w`public, w`calls, w`quarantines, w`acts
      ensures old(w.acts) <= w.acts
      ensures Settled(frozen.value, old(w.quarantines)[name].value, w.acts[|old(w.acts)|..], outcome,
                      if name in w.quarantines then w.quarantines[name] else None, quarantinePath == Some(name))
      ensures w.quarantines - {name} == old(w.quarantines) - {name}
      ensures outcome.Removed? ==> name !in w.quarantines
      ensures w.Undisturbed(old(w.calls)) && old(w.public).None? && Owned(old(w.quarantines)[name].value, frozen.value) ==>
                outcome.Removed? && w.public.None?
    {
      var ok := w.DeleteAside(name);
      if !ok {
        return OtherError;
      }
      ok := w.Touch();
      if ok {
        ok := w.RemoveQuarantine(name);
      }
      if ok {
        ok := w.Touch();
      }
      if !ok {
        return OtherError;
      }
      var seen := w.StatPublic();
      if seen.Absent? {
        quarantinePath := None;
        return Removed;
      }
      return if seen.Unreadable? then RecheckFailed else Reappeared;
    }

    method Restore(w: World, name: nat) returns (outcome: Outcome)
      requires frozen.Some? && name in w.quarantines && w.quarantines[name].Some? && quarantinePath == Some(name)
      requires !Owned(w.quarantines[name].value, frozen.value)
      modifies this`quarantinePath, w`public, w`calls, w`quarantines, w`acts
      ensures old(w.acts) <= w.acts
      ensures Settled(frozen.value, old(w.quarantines)[name].value, w.acts[|old(w.acts)|..], outcome,
                      if name in w.quarantines then w.quarantines[name] else None, quarantinePath == Some(name))
      ensures w.quarantines - {name} == old(w.quarantines) - {name}
      ensures !outcome.Removed?
    {
      var ok := w.LinkBack(name);
      if !ok {
        return Replaced;
      }
      ok := w.DeleteAside(name);
      if ok {
        ok := w.Touch();
      }
      if ok {
        ok := w.RemoveQuarantine(name);
      }
      if ok {
        ok := w.Touch();
      }
      if !ok {
        return RestoreFailed;
      }
      quarantinePath := None;
      return Replaced;
    }
  }

  /** The ways in which an entry moved aside can end. */
  ghost predicate Settled(
    frozen: Identity, e: Entry, acts: seq<Act>, outcome: Outcome, kept: Option<Entry>, onRecord: bool)
  {
    if Owned(e, frozen) then
      || (acts == [] && kept == Some(e) && onRecord && !outcome.Removed?)
      || (acts == [Deleted(e)] && !outcome.Removed?)
      || (acts == [Deleted(e), SawAbsent] && outcome.Removed?)
    else
      && !outcome.Removed?
      && (|| (acts == [] && kept == Some(e) && onRecord)
          || (acts == [LinkedBack(e)] && kept == Some(e) && onRecord)
          || acts == [LinkedBack(e), Deleted(e)])
  }

  /** However it ends, nothing was deleted that should not be, and nothing is lost. */
  lemma SettledProper(frozen: Identity, e: Entry, rest: seq<Act>, outcome: Outcome, kept: Option<Entry>, onRecord: bool)
    requires Settled(frozen, e, rest, outcome, kept, onRecord)
    ensures var acts := [MovedAside(e)] + rest;
            && Careful(acts, frozen) && Fair(acts, frozen) && Accounted(acts, frozen, kept, onRecord)
            && (outcome.Removed? ==>
                  && acts[|acts| - 1] == SawAbsent
                  && forall x :: MovedAside(x) in acts ==> Owned(x, frozen) && Deleted(x) in acts)
  {
    var acts := [MovedAside(e)] + rest;
    hide Owned;
    if rest == [LinkedBack(e), Deleted(e)] {
      assert acts[1] == LinkedBack(e) && acts[2] == Deleted(e);
    } else if rest == [LinkedBack(e)] {
      assert acts[1] == LinkedBack(e);
    } else if rest != [] {
      assert acts[1] == Deleted(e);
    }
  }

  lemma NothingTaken(frozen: Identity)
    ensures Careful([], frozen) && Fair([], frozen) && Careful([SawAbsent], frozen) && Fair([SawAbsent], frozen)
    ensures forall kept, onRecord :: Accounted([], frozen, kept, onRecord)
    ensures forall kept, onRecord :: Accounted([SawAbsent], frozen, kept, onRecord)
  {
  }

  lemma OthersKept(before: map<nat, Option<Entry>>, aside: map<nat, Option<Entry>>, after: map<nat, Option<Entry>>, name: nat)
    requires name !in before && aside - {name} == before && after - {name} == aside - {name}
    ensures forall k :: k in before ==> k in after && after[k] == before[k]
    ensures forall k :: k in after ==> k in before || k == name
    ensures name !in after ==> after == before
  {
    assert forall k :: k in before ==> k in after - {name};
    assert forall k :: k in after && k != name ==> k in after - {name};
  }
}
