/**
 AutoscanDirectory and AutoscanList as objects: directories carry a scan ID and a timer
 parameter that may be shared with a copy; the list changes its slots and the IDs of its
 directories in place.
 */
module AutoscanLists {
  import opened Wrappers
  import opened SlotTable

  class TimerParameter {
    var id: int

    constructor (id: int)
      ensures this.id == id
    {
      this.id := id;
    }
  }

  class AutoscanDirectory {
    var location: Option<string>
    var persistent: bool
    var objectID: int
    var scanID: int
    var timer: TimerParameter

    constructor Blank()
      ensures location == None && scanID == INVALID_SCAN_ID && fresh(timer) && timer.id == INVALID_SCAN_ID
    {
      location, persistent, objectID, scanID := None, false, -1, INVALID_SCAN_ID;
      timer := new TimerParameter(INVALID_SCAN_ID);
    }

    constructor (location: string, persistent: bool, objectID: int)
      ensures this.location == Some(location) && this.persistent == persistent && this.objectID == objectID
      ensures scanID == INVALID_SCAN_ID && fresh(timer) && timer.id == INVALID_SCAN_ID
    {
      this.location, this.persistent, this.objectID, scanID := Some(location), persistent, objectID, INVALID_SCAN_ID;
      timer := new TimerParameter(INVALID_SCAN_ID);
    }

    /** The location can be set once; a second attempt throws and changes nothing. */
    method SetLocation(l: string) returns (ok: bool)
      modifies this`location
      ensures ok <==> old(location) == None
      ensures location == if ok then Some(l) else old(location)
    {
      ok := location.None?;
      if ok { location := Some(l); }
    }

    method SetScanID(id: int)
      modifies this`scanID, timer
      ensures scanID == id && timer.id == id
    {
      scanID := id;
      timer.id := id;
    }

    /** Every property is copied; the timer parameter is shared. */
    method CopyTo(copy: AutoscanDirectory)
      requires copy != this
      modifies copy
      ensures copy.location == location && copy.persistent == persistent && copy.objectID == objectID
      ensures copy.scanID == scanID && copy.timer == timer
    {
      copy.location := location;
      copy.persistent := persistent;
      copy.scanID := scanID;
      copy.objectID := objectID;
      copy.timer := timer;
    }

    ghost function AsEntry(): Entry
      reads this
      requires location.Some?
    {
      Entry(location.value, objectID, persistent)
    }
  }

  class AutoscanList {
    var list: seq<AutoscanDirectory?>

    /** Every directory in the list has a location. */
    ghost predicate Located()
      reads this, list
    {
      forall i :: 0 <= i < |list| && list[i] != null ==> list[i].location.Some?
    }

    ghost function TheSlots(): (r: Slots)
      reads this, list
      requires Located()
      ensures |r| == |list|
      ensures forall i :: 0 <= i < |r| ==> r[i] == if list[i] == null then None else Some(list[i].AsEntry())
    {
      seq(|list|, i requires 0 <= i < |list| reads this, list =>
        if list[i] == null || list[i].location.None? then None else Some(list[i].AsEntry()))
    }

    /** The list alone owns its directories and their timer parameters. */
    ghost predicate Owned()
      reads this, list
    {
      forall i, j :: 0 <= i < j < |list| && list[i] != null && list[j] != null
                     ==> list[i] != list[j] && list[i].timer != list[j].timer
    }

    /** Each directory and its timer parameter carry the index of the slot. */
    ghost predicate Numbered()
      reads this, list, set i | 0 <= i < |list| && list[i] != null :: list[i].timer
    {
      forall i :: 0 <= i < |list| && list[i] != null ==> list[i].scanID == i && list[i].timer.id == i
    }

    ghost predicate Valid()
      reads this, list, set i | 0 <= i < |list| && list[i] != null :: list[i].timer
    {
      Located() && Owned() && Numbered() && DistinctLocations(TheSlots())
    }

    constructor ()
      ensures Valid() && TheSlots() == []
    {
      list := [];
    }

    /** _add: a location that is in the list already is rejected and nothing changes; else the
        directory goes to the last hole, or to the end, and gets that index as its ID. */
    method Add(dir: AutoscanDirectory) returns (id: int)
      requires Located() && dir.location.Some?
      modifies this, dir`scanID, dir.timer
      ensures Located()
      ensures id == INVALID_SCAN_ID <==> HasLocation(old(TheSlots()), dir.location.value)
      ensures TheSlots() == SlotTable.Add(old(TheSlots()), dir.AsEntry())
      ensures id == INVALID_SCAN_ID ==>
                list == old(list) && dir.scanID == old(dir.scanID) && dir.timer.id == old(dir.timer.id)
      ensures id != INVALID_SCAN_ID ==>
                && id == NextId(old(TheSlots())) && dir.scanID == id && dir.timer.id == id
                && list == if id < |old(list)| then old(list)[id := dir] else old(list) + [dir]
    {
      ghost var slots := TheSlots();
      var nilIndex := -1;
      for i := 0 to |list|
        invariant nilIndex == LastHole(slots[..i])
        invariant forall j :: 0 <= j < i ==> !LocationAt(slots, j, dir.location.value)
      {
        assert slots[..i + 1][..i] == slots[..i];
        if list[i] == null {
          nilIndex := i;
        } else if dir.location == list[i].location {
          assert LocationAt(slots, i, dir.location.value);
          return INVALID_SCAN_ID;
        }
      }
      assert slots[..|slots|] == slots;
      assert !HasLocation(slots, dir.location.value);
      if nilIndex != -1 {
        dir.SetScanID(nilIndex);
        list := list[nilIndex := dir];
        id := nilIndex;
      } else {
        dir.SetScanID(|list|);
        list := list + [dir];
        id := |list| - 1;
      }
      assert TheSlots() == Put(slots, dir.AsEntry());
    }

    /** Adding a directory that shares nothing with the list keeps the list in order. */
    method AddOwned(dir: AutoscanDirectory) returns (id: int)
      requires Valid() && dir.location.Some?
      requires forall i :: 0 <= i < |list| && list[i] != null && list[i] != dir ==> list[i].timer != dir.timer
      modifies this, dir`scanID, dir.timer
      ensures Valid() && TheSlots() == Apply(old(TheSlots()), AddOp(dir.AsEntry()))
      ensures id >= 0 ==> id < |list| && list == (if id < |old(list)| then old(list)[id := dir] else old(list) + [dir])
      ensures id == INVALID_SCAN_ID <==> HasLocation(old(TheSlots()), dir.location.value)
      ensures if id == INVALID_SCAN_ID then list == old(list) else id >= 0
      ensures 0 <= id < |old(list)| ==> old(list)[id] == null
      ensures id == INVALID_SCAN_ID ==> dir.scanID == old(dir.scanID) && dir.timer.id == old(dir.timer.id)
    {
      ghost var slots := TheSlots();
      ghost var before := list;
      ApplyDistinct(slots, AddOp(dir.AsEntry()));
      if dir in before {
        var i :| 0 <= i < |before| && before[i] == dir;
        assert LocationAt(slots, i, dir.location.value);
      }
      id := Add(dir);
    }

    /** What every removal does to slot i. */
    method FreeSlot(i: nat, dir: AutoscanDirectory)
      requires Located() && i < |list| && list[i] == dir
      modifies this, dir`scanID, dir.timer
      ensures Located() && TheSlots() == Free(old(TheSlots()), i)
      ensures list == if i == |old(list)| - 1 then old(list)[..i] else old(list)[i := null]
      ensures dir.scanID == INVALID_SCAN_ID && dir.timer.id == INVALID_SCAN_ID
    {
      ghost var slots := TheSlots();
      dir.SetScanID(INVALID_SCAN_ID);
      if i == |list| - 1 {
        list := list[..i];
      } else {
        list := list[i := null];
      }
      assert TheSlots() == Free(slots, i);
    }

    method FreeOwned(i: nat, dir: AutoscanDirectory)
      requires Valid() && i < |list| && list[i] == dir
      modifies this, dir`scanID, dir.timer
      ensures Valid() && TheSlots() == Free(old(TheSlots()), i)
      ensures list == if i == |old(list)| - 1 then old(list)[..i] else old(list)[i := null]
      ensures dir.scanID == INVALID_SCAN_ID && dir.timer.id == INVALID_SCAN_ID
    {
      ApplyDistinct(TheSlots(), RemoveIdOp(i));
      FreeSlot(i, dir);
    }

    /** remove(id). The program dereferences nil, and this returns false, exactly if id is a hole. */
    method RemoveId(id: int) returns (ok: bool)
      requires Valid()
      modifies this, list, set i | 0 <= i < |list| && list[i] != null :: list[i].timer
      ensures Valid() && ok == !Crashes(old(TheSlots()), RemoveIdOp(id))
      ensures ok ==> TheSlots() == Apply(old(TheSlots()), RemoveIdOp(id))
      ensures !ok ==> TheSlots() == old(TheSlots()) && list == old(list)
    {
      if id < 0 || id >= |list| { return true; }
      if list[id] == null { return false; }
      FreeOwned(id, list[id]);
      ok := true;
    }

    // ----- addList -----

    /** The directories of other from slot i on share nothing with this list and still carry their IDs;
        those before are in this list too. */
    ghost predicate Joining(other: AutoscanList, i: nat)
      reads this, other, list, other.list, TimersOf(other.list)
    {
      && other.Located() && other.Owned()
      && (forall j, k :: i <= j < |other.list| && 0 <= k < |list| && other.list[j] != null && list[k] != null
                         ==> list[k] != other.list[j] && list[k].timer != other.list[j].timer)
      && (forall j :: i <= j < |other.list| && other.list[j] != null ==>
                        other.list[j].scanID == j && other.list[j].timer.id == j)
      && (forall j :: 0 <= j < i && j < |other.list| && other.list[j] != null ==> other.list[j] in list)
    }

    method Join(other: AutoscanList, i: nat, dir: AutoscanDirectory) returns (ok: bool)
      requires other != this && Valid() && Joining(other, i) && i < |other.list| && other.list[i] == dir
      modifies this, dir`scanID, dir.timer
      ensures Valid() && other.list == old(other.list)
      ensures if ok then Joining(other, i + 1) else list == old(list) && Joining(other, i)
      ensures ok <==> dir.location.Some? && !HasLocation(old(TheSlots()), dir.location.value)
      ensures dir.location.Some? && TheSlots() == SlotTable.Add(old(TheSlots()), dir.AsEntry())
    {
      hide DistinctLocations, HasLocation;
      ghost var before := list;
      var id := AddOwned(dir);
      if id == INVALID_SCAN_ID { return false; }
      MembersStay(before, id, dir, list);
      ok := true;
    }

    lemma MembersStay(before: seq<AutoscanDirectory?>, id: nat, dir: AutoscanDirectory, after: seq<AutoscanDirectory?>)
      requires id < |before| ==> before[id] == null
      requires after == if id < |before| then before[id := dir] else before + [dir]
      ensures dir in after && forall d :: d in before && d != null ==> d in after
    {
      if id < |before| { assert after[id] == dir; }
      forall d | d in before && d != null ensures d in after {
        var k :| 0 <= k < |before| && before[k] == d;
        assert after[k] == d;
      }
    }

    /** One slot of the other list. */
    method TakeNext(other: AutoscanList, i: nat, ghost slots: Slots, ghost more: Slots) returns (ok: bool)
      requires other != this && Valid() && Joining(other, i) && i < |other.list|
      requires other.TheSlots() == more && DistinctLocations(more) && TheSlots() == AddAll(slots, more, i)
      modifies this, other.list, TimersOf(other.list)
      ensures Valid() && other.list == old(other.list) && TimersOf(other.list) == old(TimersOf(other.list))
      ensures Joining(other, if ok then i + 1 else i) && other.TheSlots() == more
      ensures TheSlots() == AddAll(slots, more, if ok then i + 1 else i) && ok == !Known(slots, more, i)
    {
      hide AddAll, HasLocation, DistinctLocations;
      AddOneMore(slots, more, i);
      if other.list[i] == null {
        return true;
      }
      AddAllLocations(slots, more, i, i);
      ok := Join(other, i, other.list[i]);
      assert other.TheSlots() == more;
    }

    /** addList: this list takes the directories of other into its own slots, without copying them, up to the
        first whose location it had before; that one is rejected. This list stays numbered. The other one does
        exactly if every directory it shares now has the same slot in both. */
    method AddList(other: AutoscanList) returns (ok: bool, ghost taken: nat)
      requires other != this && Valid() && other.Valid() && Joining(other, 0)
      modifies this, other.list, TimersOf(other.list)
      ensures Valid() && other.list == old(other.list) && other.Located() && other.Owned()
      ensures taken <= |other.list| && (ok <==> taken == |other.list|)
      ensures TheSlots() == AddAll(old(TheSlots()), old(other.TheSlots()), taken)
      ensures forall j :: 0 <= j < taken && other.list[j] != null ==>
                            other.list[j] in list && !Known(old(TheSlots()), old(other.TheSlots()), j)
      ensures !ok ==> Known(old(TheSlots()), old(other.TheSlots()), taken)
      ensures other.Numbered() <==>
              forall j :: 0 <= j < |other.list| && other.list[j] != null && other.list[j] in list ==>
                            j < |list| && list[j] == other.list[j]
    {
      hide AddAll, Known, HasLocation;
      ghost var slots, more := TheSlots(), other.TheSlots();
      NoneTaken(slots, more);
      var i := 0;
      ok := true;
      while i < |other.list| && ok
        invariant 0 <= i <= |other.list| && other.list == old(other.list)
        invariant Valid() && Joining(other, i) && TimersOf(other.list) == old(TimersOf(other.list))
        invariant other.TheSlots() == more && TheSlots() == AddAll(slots, more, i)
        invariant forall j :: 0 <= j < i ==> !Known(slots, more, j)
        invariant !ok ==> i < |other.list| && Known(slots, more, i)
        decreases |other.list| - i, ok
      {
        ok := TakeNext(other, i, slots, more);
        if ok { i := i + 1; }
      }
      taken := i;
      SharedNumbers(other, i);
    }

    lemma SharedNumbers(other: AutoscanList, i: nat)
      requires other != this && Valid() && Joining(other, i) && i <= |other.list|
      ensures other.Numbered() <==>
              forall j :: 0 <= j < |other.list| && other.list[j] != null && other.list[j] in list ==>
                            j < |list| && list[j] == other.list[j]
    {
      forall j | 0 <= j < |other.list| && other.list[j] != null && other.list[j] in list
        ensures j < i && (other.list[j].scanID == j && other.list[j].timer.id == j <==>
                          j < |list| && list[j] == other.list[j])
      {
        var k :| 0 <= k < |list| && list[k] == other.list[j];
      }
    }

    method RemoveByObjectID(objectID: int) returns (id: int)
      requires Valid()
      modifies this, list, set i | 0 <= i < |list| && list[i] != null :: list[i].timer
      ensures Valid() && TheSlots() == Apply(old(TheSlots()), RemoveObjectOp(objectID))
      ensures id == INVALID_SCAN_ID <==> forall i :: !ObjectAt(old(TheSlots()), i, objectID)
      ensures id != INVALID_SCAN_ID ==> ObjectAt(old(TheSlots()), id, objectID)
    {
      ghost var slots := TheSlots();
      for i := 0 to |list|
        invariant Valid() && TheSlots() == slots && list == old(list)
        invariant forall j :: 0 <= j < i ==> !ObjectAt(slots, j, objectID)
      {
        if list[i] != null && objectID == list[i].objectID {
          assert ObjectAt(slots, i, objectID);
          FreeOwned(i, list[i]);
          return i;
        }
      }
      return INVALID_SCAN_ID;
    }

    method RemoveLocation(location: string) returns (id: int)
      requires Valid()
      modifies this, list, set i | 0 <= i < |list| && list[i] != null :: list[i].timer
      ensures Valid() && TheSlots() == Apply(old(TheSlots()), RemoveLocationOp(location))
      ensures id == INVALID_SCAN_ID <==> !HasLocation(old(TheSlots()), location)
      ensures id != INVALID_SCAN_ID ==> LocationAt(old(TheSlots()), id, location)
    {
      ghost var slots := TheSlots();
      for i := 0 to |list|
        invariant Valid() && TheSlots() == slots && list == old(list)
        invariant forall j :: 0 <= j < i ==> !LocationAt(slots, j, location)
      {
        if list[i] != null && list[i].location == Some(location) {
          assert LocationAt(slots, i, location);
          FreeOwned(i, list[i]);
          return i;
        }
      }
      return INVALID_SCAN_ID;
    }

    /** One selected directory leaves: its copy joins the result with the old ID, the original gets
        the invalid ID, and so does the timer parameter the two share. The add never throws. */
    method TakeOut(i: nat, dir: AutoscanDirectory, rm: AutoscanList) returns (copy: AutoscanDirectory)
      requires Valid() && i < |list| && list[i] == dir && rm != this
      requires rm.Located() && dir !in rm.list && (forall k :: 0 <= k < |rm.list| ==> rm.list[k] != null)
      requires !HasLocation(rm.TheSlots(), dir.location.value)
      modifies this, rm, dir`scanID, dir.timer
      ensures Valid() && TheSlots() == Free(old(TheSlots()), i)
      ensures list == if i == |old(list)| - 1 then old(list)[..i] else old(list)[i := null]
      ensures dir.scanID == INVALID_SCAN_ID && dir.timer.id == INVALID_SCAN_ID
      ensures fresh(copy) && copy.scanID == i && copy.timer == dir.timer
      ensures copy.location == dir.location && copy.AsEntry() == dir.AsEntry()
      ensures rm.list == old(rm.list) + [copy]
    {
      copy := rm.AddCopy(dir);
      FreeOwned(i, dir);
    }

    /** A copy of dir is added; the shared timer parameter ends up with dir's own ID again. */
    method AddCopy(dir: AutoscanDirectory) returns (copy: AutoscanDirectory)
      requires Located() && dir.location.Some? && dir !in list && (forall k :: 0 <= k < |list| ==> list[k] != null)
      requires !HasLocation(TheSlots(), dir.location.value)
      modifies this, dir.timer
      ensures fresh(copy) && copy.scanID == dir.scanID && copy.timer == dir.timer && dir.timer.id == dir.scanID
      ensures copy.location == dir.location && copy.AsEntry() == dir.AsEntry()
      ensures list == old(list) + [copy]
    {
      copy := new AutoscanDirectory.Blank();
      dir.CopyTo(copy);
      assert LastHole(TheSlots()) == -1;
      var _ := Add(copy);
      copy.SetScanID(dir.scanID);
    }

    /** removeIfSubdir: the selected directories leave and the others keep their slots, although the
        list may shrink under the loop. The result holds copies in slot order with their old IDs; the
        originals, and the timer parameters they share with the copies, get the invalid ID. */
    method RemoveIfSubdir(parent: string, persistent: bool) returns (rm: AutoscanList)
      requires Valid()
      modifies this, list, TimersOf(list)
      ensures Valid() && TheSlots() == Apply(old(TheSlots()), RemoveSubdirsOp(parent, persistent))
      ensures var ids := SelectedIds(old(TheSlots()), parent, persistent, |old(list)|);
              && fresh(rm) && rm.Copies(old(list), old(TimersOf(list)), old(TheSlots()), ids)
              && Invalidated(old(list), old(TimersOf(list)), ids)
    {
      rm := new AutoscanList();
      ghost var before, timers, slots := list, TimersOf(list), TheSlots();
      assert Apply(slots, RemoveSubdirsOp(parent, persistent)) == Survivors(slots, parent, persistent);
      hide *;
      MoveSubdirs(parent, persistent, rm, before, timers, slots);
    }

    /** The loop of removeIfSubdir. */
    method MoveSubdirs(parent: string, persistent: bool, rm: AutoscanList,
                       ghost before: seq<AutoscanDirectory?>, ghost timers: seq<TimerParameter?>, ghost slots: Slots)
      requires rm != this && rm.list == [] && before == list && Valid()
      requires timers == TimersOf(list) && slots == TheSlots()
      modifies this, rm, before, timers
      ensures Valid() && TheSlots() == Survivors(slots, parent, persistent)
      ensures rm.Copies(before, timers, slots, SelectedIds(slots, parent, persistent, |before|))
      ensures Invalidated(before, timers, SelectedIds(slots, parent, persistent, |before|))
    {
      var i := 0;
      Begin(before, timers, slots, parent, persistent);
      while i < |list|
        invariant i <= |before|
        invariant Sources(before, timers, slots)
        invariant Halfway(before, slots, i, parent, persistent)
        invariant rm.Copies(before, timers, slots, SelectedIds(slots, parent, persistent, i))
        invariant Invalidated(before, timers, SelectedIds(slots, parent, persistent, i))
        decreases |before| - i
      {
        Consider(i, parent, persistent, rm, before, timers, slots);
        i := i + 1;
      }
      Done(before, timers, slots, i, parent, persistent);
    }

    /** The loop body of removeIfSubdir. */
    method Consider(i: nat, parent: string, persistent: bool, rm: AutoscanList,
                    ghost before: seq<AutoscanDirectory?>, ghost timers: seq<TimerParameter?>, ghost slots: Slots)
      requires i < |list| && rm != this && |slots| == |before| == |timers| && i <= |before|
      requires Sources(before, timers, slots) && Halfway(before, slots, i, parent, persistent)
      requires rm.Copies(before, timers, slots, SelectedIds(slots, parent, persistent, i))
      requires Invalidated(before, timers, SelectedIds(slots, parent, persistent, i))
      modifies this, rm, before, timers
      ensures i < |before| && Sources(before, timers, slots) && Halfway(before, slots, i + 1, parent, persistent)
      ensures rm.Copies(before, timers, slots, SelectedIds(slots, parent, persistent, i + 1))
      ensures Invalidated(before, timers, SelectedIds(slots, parent, persistent, i + 1))
    {
      AtSlot(i, before, timers, slots, parent, persistent);
      hide *;
      if list[i] != null && parent <= list[i].location.value && !(list[i].persistent && !persistent) {
        TakeAway(i, list[i], rm, parent, persistent, before, timers, slots);
      }
    }

    /** The test at slot i, and what passing the slot by means. */
    lemma AtSlot(i: nat, before: seq<AutoscanDirectory?>, timers: seq<TimerParameter?>, slots: Slots,
                 parent: string, persistent: bool)
      requires |slots| == |before| == |timers| && i < |list|
      requires Sources(before, timers, slots) && Halfway(before, slots, i, parent, persistent)
      ensures i < |before| && list[i] == before[i]
      ensures list[i] != null ==> list[i].location.Some? && list[i].timer == timers[i]
      ensures Selected(slots[i], parent, persistent) <==>
              list[i] != null && parent <= list[i].location.value && !(list[i].persistent && !persistent)
      ensures !Selected(slots[i], parent, persistent) ==>
                && Halfway(before, slots, i + 1, parent, persistent)
                && SelectedIds(slots, parent, persistent, i + 1) == SelectedIds(slots, parent, persistent, i)
    {
    }

    /** TakeOut, seen in the loop: the originals are one more. */
    method TakeAway(i: nat, dir: AutoscanDirectory, rm: AutoscanList, ghost parent: string, ghost persistent: bool,
                    ghost before: seq<AutoscanDirectory?>, ghost timers: seq<TimerParameter?>, ghost slots: Slots)
      requires |slots| == |before| == |timers|
      requires Sources(before, timers, slots) && Halfway(before, slots, i, parent, persistent)
      requires i < |list| && i < |before| && list[i] == dir == before[i] && rm != this
      requires Selected(slots[i], parent, persistent)
      requires rm.Copies(before, timers, slots, SelectedIds(slots, parent, persistent, i))
      requires Invalidated(before, timers, SelectedIds(slots, parent, persistent, i))
      modifies this, rm, dir`scanID, dir.timer
      ensures Sources(before, timers, slots) && Halfway(before, slots, i + 1, parent, persistent)
      ensures rm.Copies(before, timers, slots, SelectedIds(slots, parent, persistent, i + 1))
      ensures Invalidated(before, timers, SelectedIds(slots, parent, persistent, i + 1))
    {
      ghost var ids := SelectedIds(slots, parent, persistent, i);
      OthersApart(before, timers, slots, ids, i);
      hide *;
      TakeCopied(i, dir, rm, parent, persistent, before, timers, slots);
      forall k | 0 <= k < |ids| ensures NoId(before[ids[k]], timers[ids[k]]) {
      }
      OneMoreInvalidated(before, timers, slots, i, parent, persistent, ids);
    }

    /** TakeOut, seen in the loop: the copies are one more. */
    method TakeCopied(i: nat, dir: AutoscanDirectory, rm: AutoscanList, ghost parent: string, ghost persistent: bool,
                      ghost before: seq<AutoscanDirectory?>, ghost timers: seq<TimerParameter?>, ghost slots: Slots)
      requires |slots| == |before| == |timers|
      requires Sources(before, timers, slots) && Halfway(before, slots, i, parent, persistent)
      requires i < |list| && i < |before| && list[i] == dir == before[i] && rm != this
      requires Selected(slots[i], parent, persistent)
      requires rm.Copies(before, timers, slots, SelectedIds(slots, parent, persistent, i))
      modifies this, rm, dir`scanID, dir.timer
      ensures Sources(before, timers, slots) && Halfway(before, slots, i + 1, parent, persistent)
      ensures dir.scanID == INVALID_SCAN_ID && dir.timer.id == INVALID_SCAN_ID
      ensures rm.Copies(before, timers, slots, SelectedIds(slots, parent, persistent, i + 1))
    {
      ghost var ids := SelectedIds(slots, parent, persistent, i);
      NotTaken(slots, ids, i, rm.TheSlots());
      var copy := TakeSelected(i, dir, rm, parent, persistent, before, timers, slots);
    }

    /** TakeOut, seen in the loop: this list is one slot further. */
    method TakeSelected(i: nat, dir: AutoscanDirectory, rm: AutoscanList, ghost parent: string, ghost persistent: bool,
                        ghost before: seq<AutoscanDirectory?>, ghost timers: seq<TimerParameter?>, ghost slots: Slots)
      returns (copy: AutoscanDirectory)
      requires |slots| == |before| && Sources(before, timers, slots) && Halfway(before, slots, i, parent, persistent)
      requires i < |list| && list[i] == dir && rm != this && Selected(slots[i], parent, persistent)
      requires rm.Located() && dir !in rm.list && (forall k :: 0 <= k < |rm.list| ==> rm.list[k] != null)
      requires !HasLocation(rm.TheSlots(), dir.location.value)
      modifies this, rm, dir`scanID, dir.timer
      ensures Sources(before, timers, slots) && Halfway(before, slots, i + 1, parent, persistent)
      ensures dir.scanID == INVALID_SCAN_ID && dir.timer.id == INVALID_SCAN_ID
      ensures fresh(copy) && copy.scanID == i && copy.timer == dir.timer
      ensures copy.location == dir.location && copy.AsEntry() == dir.AsEntry()
      ensures rm.list == old(rm.list) + [copy]
    {
      copy := TakeOut(i, dir, rm);
    }

    lemma Begin(before: seq<AutoscanDirectory?>, timers: seq<TimerParameter?>, slots: Slots,
                parent: string, persistent: bool)
      requires Valid() && before == list && timers == TimersOf(list) && slots == TheSlots()
      ensures |slots| == |before| && Sources(before, timers, slots) && Halfway(before, slots, 0, parent, persistent)
    {
    }

    lemma Done(before: seq<AutoscanDirectory?>, timers: seq<TimerParameter?>, slots: Slots, i: nat,
               parent: string, persistent: bool)
      requires |slots| == |before| && Sources(before, timers, slots)
      requires Halfway(before, slots, i, parent, persistent) && |list| <= i <= |before|
      ensures i == |before| && Valid() && TheSlots() == Survivors(slots, parent, persistent)
    {
    }

    /** The list with the first i slots dealt with. */
    ghost predicate Halfway(before: seq<AutoscanDirectory?>, slots: Slots, i: nat, parent: string, persistent: bool)
      reads this, list, set j | 0 <= j < |list| && list[j] != null :: list[j].timer
      requires |slots| == |before|
    {
      && i <= |before| && Valid()
      && |list| == |before| - (if i == |before| && i > 0 && Selected(slots[i - 1], parent, persistent) then 1 else 0)
      && (forall j :: 0 <= j < |list| ==>
            list[j] == if j < i && Selected(slots[j], parent, persistent) then null else before[j])
    }

    /** This list holds one new object per ID, in order: each with the entry and the ID of its slot and
        the timer parameter of the original. */
    ghost predicate Copies(before: seq<AutoscanDirectory?>, timers: seq<TimerParameter?>, slots: Slots, ids: seq<nat>)
      reads this, list
    {
      && |list| == |ids| && |slots| == |before| == |timers|
      && forall k :: 0 <= k < |list| ==>
           && ids[k] < |slots| && list[k] != null && list[k] !in before
           && list[k].location.Some? && Some(list[k].AsEntry()) == slots[ids[k]]
           && list[k].scanID == ids[k] && list[k].timer == timers[ids[k]]
    }
  }

  /** The location of the entry in slot j of `more` is among `slots`. */
  ghost predicate Known(slots: Slots, more: Slots, j: int) {
    0 <= j < |more| && more[j].Some? && HasLocation(slots, more[j].value.location)
  }

  lemma NoneTaken(slots: Slots, more: Slots)
    ensures AddAll(slots, more, 0) == slots
  {
  }

  lemma AddOneMore(slots: Slots, more: Slots, i: nat)
    requires i < |more|
    ensures AddAll(slots, more, i + 1) ==
            if more[i].Some? then SlotTable.Add(AddAll(slots, more, i), more[i].value) else AddAll(slots, more, i)
  {
  }

  ghost function TimersOf(list: seq<AutoscanDirectory?>): (r: seq<TimerParameter?>)
    reads list
    ensures |r| == |list|
    ensures forall j :: 0 <= j < |r| ==> r[j] == if list[j] == null then null else list[j].timer
  {
    seq(|list|, j requires 0 <= j < |list| reads list => if list[j] == null then null else list[j].timer)
  }

  /** The originals with these IDs, and their timer parameters, have the invalid ID. */
  ghost predicate Invalidated(before: seq<AutoscanDirectory?>, timers: seq<TimerParameter?>, ids: seq<nat>)
    reads before, timers
  {
    forall k :: 0 <= k < |ids| ==>
      ids[k] < |before| && ids[k] < |timers| && NoId(before[ids[k]], timers[ids[k]])
  }

  ghost predicate NoId(dir: AutoscanDirectory?, timer: TimerParameter?)
    reads dir, timer
  {
    dir != null && dir.scanID == INVALID_SCAN_ID && timer != null && timer.id == INVALID_SCAN_ID
  }

  lemma OthersApart(before: seq<AutoscanDirectory?>, timers: seq<TimerParameter?>, slots: Slots, ids: seq<nat>, i: nat)
    requires Sources(before, timers, slots) && Invalidated(before, timers, ids) && i < |before| && before[i] != null
    requires forall k :: 0 <= k < |ids| ==> ids[k] < i
    ensures |before| == |timers| && timers[i] == before[i].timer
    ensures forall k :: 0 <= k < |ids| ==> before[ids[k]] != before[i] && timers[ids[k]] != timers[i]
    ensures forall k :: 0 <= k < |ids| ==> NoId(before[ids[k]], timers[ids[k]])
  {
  }

  lemma OneMoreInvalidated(before: seq<AutoscanDirectory?>, timers: seq<TimerParameter?>, slots: Slots, i: nat,
                           parent: string, persistent: bool, ids: seq<nat>)
    requires i < |slots| == |before| == |timers| && Selected(slots[i], parent, persistent)
    requires ids == SelectedIds(slots, parent, persistent, i)
    requires forall k :: 0 <= k < |ids| ==> NoId(before[ids[k]], timers[ids[k]])
    requires before[i] != null && before[i].scanID == INVALID_SCAN_ID
    requires timers[i] == before[i].timer && before[i].timer.id == INVALID_SCAN_ID
    ensures Invalidated(before, timers, SelectedIds(slots, parent, persistent, i + 1))
  {
    var more := SelectedIds(slots, parent, persistent, i + 1);
    assert more == ids + [i];
    forall k | 0 <= k < |more| ensures NoId(before[more[k]], timers[more[k]]) {
      if k < |ids| { assert NoId(before[ids[k]], timers[ids[k]]); }
    }
  }

  /** The directories the list held at first: what they are does not change, only their IDs do. */
  ghost predicate Sources(before: seq<AutoscanDirectory?>, timers: seq<TimerParameter?>, slots: Slots)
    reads before
  {
    && |slots| == |before| == |timers| && DistinctLocations(slots)
    && (forall j :: 0 <= j < |before| ==> (before[j] == null <==> slots[j].None?))
    && (forall j :: 0 <= j < |before| && before[j] != null ==>
          before[j].location.Some? && Some(before[j].AsEntry()) == slots[j] && before[j].timer == timers[j])
    && (forall i, j :: 0 <= i < j < |before| && before[i] != null && before[j] != null ==>
          before[i] != before[j] && timers[i] != timers[j])
  }

  /** Locations are distinct, so one still in the list has not been copied before. */
  lemma NotTaken(slots: Slots, ids: seq<nat>, i: nat, taken: Slots)
    requires DistinctLocations(slots) && i < |slots| && slots[i].Some? && |taken| == |ids|
    requires forall k :: 0 <= k < |ids| ==> ids[k] < i && taken[k] == slots[ids[k]]
    ensures !HasLocation(taken, slots[i].value.location)
  {
    forall k | 0 <= k < |taken| ensures !LocationAt(taken, k, slots[i].value.location) {
      assert taken[k] == slots[ids[k]];
    }
  }
}
