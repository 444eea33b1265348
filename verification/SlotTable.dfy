/**
 The slots of an AutoscanList as values: an ID allocator with holes. A directory's scan ID
 is the index of its slot.
 */
module SlotTable {
  import opened Wrappers

  const INVALID_SCAN_ID := -1

  datatype Entry = Entry(location: string, objectID: int, persistent: bool)

  type Slots = seq<Option<Entry>>

  predicate LocationAt(slots: Slots, i: int, location: string) {
    0 <= i < |slots| && slots[i].Some? && slots[i].value.location == location
  }

  predicate ObjectAt(slots: Slots, i: int, objectID: int) {
    0 <= i < |slots| && slots[i].Some? && slots[i].value.objectID == objectID
  }

  predicate HasLocation(slots: Slots, location: string) {
    exists i :: 0 <= i < |slots| && LocationAt(slots, i, location)
  }

  ghost predicate DistinctLocations(slots: Slots) {
    forall i, j :: 0 <= i < j < |slots| && slots[i].Some? && slots[j].Some?
                   ==> slots[i].value.location != slots[j].value.location
  }

  /** The last hole, or -1: the scan remembers the last nil it passes. */
  function LastHole(slots: Slots): (r: int)
    ensures -1 <= r < |slots|
    ensures r >= 0 ==> slots[r].None?
    ensures forall i :: r < i < |slots| ==> slots[i].Some?
  {
    if slots == [] then -1
    else if slots[|slots| - 1].None? then |slots| - 1
    else LastHole(slots[..|slots| - 1])
  }

  /** The slot the next directory gets. */
  function NextId(slots: Slots): (r: nat)
    ensures r <= |slots|
  {
    if LastHole(slots) >= 0 then LastHole(slots) else |slots|
  }

  function Put(slots: Slots, e: Entry): Slots {
    var i := NextId(slots);
    if i < |slots| then slots[i := Some(e)] else slots + [Some(e)]
  }

  /** add: nothing changes when the location is there already. */
  function Add(slots: Slots, e: Entry): Slots {
    if HasLocation(slots, e.location) then slots else Put(slots, e)
  }

  /** Every removal: the last slot is dropped, another one becomes a hole. */
  function Free(slots: Slots, i: nat): Slots
    requires i < |slots|
  {
    if i == |slots| - 1 then slots[..i] else slots[i := None]
  }

  predicate Selected(o: Option<Entry>, parent: string, persistent: bool) {
    o.Some? && parent <= o.value.location && !(o.value.persistent && !persistent)
  }

  /** removeIfSubdir on the slots: selected entries become holes, a selected last slot is dropped. */
  function Survivors(slots: Slots, parent: string, persistent: bool): (r: Slots)
    ensures |r| == |slots| - (if slots != [] && Selected(slots[|slots| - 1], parent, persistent) then 1 else 0)
    ensures forall i :: 0 <= i < |r| ==> r[i] == if Selected(slots[i], parent, persistent) then None else slots[i]
  {
    var n := |slots| - (if slots != [] && Selected(slots[|slots| - 1], parent, persistent) then 1 else 0);
    seq(n, i requires 0 <= i < n => if Selected(slots[i], parent, persistent) then None else slots[i])
  }

  /** The scan IDs of the selected entries among the first n slots, in slot order. */
  function SelectedIds(slots: Slots, parent: string, persistent: bool, n: nat): (r: seq<nat>)
    requires n <= |slots|
    ensures forall k :: 0 <= k < |r| ==> r[k] < n && Selected(slots[r[k]], parent, persistent)
    ensures forall k, l :: 0 <= k < l < |r| ==> r[k] < r[l]
    ensures forall i :: 0 <= i < n && Selected(slots[i], parent, persistent) ==> i in r
  {
    if n == 0 then []
    else
      var r := SelectedIds(slots, parent, persistent, n - 1);
      if Selected(slots[n - 1], parent, persistent) then r + [n - 1] else r
  }

  /** The first slot that holds the object ID, or the length. */
  function FirstObject(slots: Slots, objectID: int, i: nat): (r: nat)
    requires i <= |slots|
    ensures i <= r <= |slots|
    ensures forall j :: i <= j < r ==> !ObjectAt(slots, j, objectID)
    ensures r < |slots| ==> ObjectAt(slots, r, objectID)
    decreases |slots| - i
  {
    if i == |slots| || ObjectAt(slots, i, objectID) then i else FirstObject(slots, objectID, i + 1)
  }

  function FirstLocation(slots: Slots, location: string, i: nat): (r: nat)
    requires i <= |slots|
    ensures i <= r <= |slots|
    ensures forall j :: i <= j < r ==> !LocationAt(slots, j, location)
    ensures r < |slots| ==> LocationAt(slots, r, location)
    decreases |slots| - i
  {
    if i == |slots| || LocationAt(slots, i, location) then i else FirstLocation(slots, location, i + 1)
  }

  datatype Op =
    | AddOp(entry: Entry)
    | RemoveIdOp(id: int)
    | RemoveObjectOp(objectID: int)
    | RemoveLocationOp(location: string)
    | RemoveSubdirsOp(parent: string, persistent: bool)

  /** remove(id) dereferences nil when the ID names a hole. */
  predicate Crashes(slots: Slots, op: Op) {
    op.RemoveIdOp? && 0 <= op.id < |slots| && slots[op.id].None?
  }

  /** The operation takes the entry of slot i out of the list. */
  predicate Removes(slots: Slots, op: Op, i: nat)
    requires i < |slots|
  {
    match op
    case AddOp(_) => false
    case RemoveIdOp(id) => i == id
    case RemoveObjectOp(o) => i == FirstObject(slots, o, 0)
    case RemoveLocationOp(loc) => i == FirstLocation(slots, loc, 0)
    case RemoveSubdirsOp(parent, persistent) => Selected(slots[i], parent, persistent)
  }

  function Apply(slots: Slots, op: Op): Slots
    requires !Crashes(slots, op)
  {
    match op
    case AddOp(e) => Add(slots, e)
    case RemoveIdOp(id) => if 0 <= id < |slots| then Free(slots, id) else slots
    case RemoveObjectOp(o) => var i := FirstObject(slots, o, 0); if i < |slots| then Free(slots, i) else slots
    case RemoveLocationOp(loc) => var i := FirstLocation(slots, loc, 0); if i < |slots| then Free(slots, i) else slots
    case RemoveSubdirsOp(parent, persistent) => Survivors(slots, parent, persistent)
  }

  /** How an operation ends: with new slots, or with a crash of the program. */
  datatype Outcome = Done(slots: Slots) | Crashed

  /** The operation as carried out. remove(id) calls setScanID on whatever the slot holds. */
  function Perform(slots: Slots, op: Op): (r: Outcome)
    ensures r.Crashed? <==> op.RemoveIdOp? && exists hole: nat :: hole < |slots| && slots[hole].None? && op.id == hole
    ensures r.Done? ==> !Crashes(slots, op) && r.slots == Apply(slots, op)
  {
    if op.RemoveIdOp? then
      if op.id < 0 || op.id >= |slots| then Done(slots)
      else if slots[op.id].None? then Crashed
      else Done(Free(slots, op.id))
    else
      Done(Apply(slots, op))
  }

  /** A whole history, up to the first crash. */
  function PerformAll(slots: Slots, ops: seq<Op>): Outcome
    decreases |ops|
  {
    if ops == [] then Done(slots)
    else
      var r := Perform(slots, ops[0]);
      if r.Crashed? then Crashed else PerformAll(r.slots, ops[1..])
  }

  // ----- what every operation keeps -----

  /** Locations stay distinct. */
  lemma ApplyDistinct(slots: Slots, op: Op)
    requires DistinctLocations(slots) && !Crashes(slots, op)
    ensures DistinctLocations(Apply(slots, op))
  {
    if op.AddOp? && !HasLocation(slots, op.entry.location) {
      forall i | 0 <= i < |slots| && slots[i].Some? ensures slots[i].value.location != op.entry.location {
        assert !LocationAt(slots, i, op.entry.location);
      }
    }
  }

  /** An entry keeps its slot, and so its scan ID, through every operation that does not remove it;
      and one that removes it leaves the slot without it. */
  lemma ApplyKeepsId(slots: Slots, op: Op, i: nat)
    requires !Crashes(slots, op) && i < |slots| && slots[i].Some?
    ensures !Removes(slots, op, i) ==> i < |Apply(slots, op)| && Apply(slots, op)[i] == slots[i]
    ensures Removes(slots, op, i) ==> i >= |Apply(slots, op)| || Apply(slots, op)[i].None?
  {
  }

  /** An add of a known location changes nothing. Any other entry goes to the last hole, or behind all slots if
      there is none, and no other slot changes. */
  lemma AddedExactly(slots: Slots, e: Entry)
    ensures (exists i :: 0 <= i < |slots| && slots[i].Some? && slots[i].value.location == e.location) <==>
            Add(slots, e) == slots
    ensures forall r: Slots :: r == Add(slots, e) && r != slots ==>
              exists i :: 0 <= i < |r| && r[i] == Some(e) && (forall j :: i < j < |slots| ==> slots[j].Some?)
                          && if i < |slots| then slots[i].None? && r == slots[i := Some(e)]
                             else r == slots + [Some(e)] && forall j :: 0 <= j < i ==> slots[j].Some?
  {
    if i :| 0 <= i < |slots| && slots[i].Some? && slots[i].value.location == e.location {
      assert LocationAt(slots, i, e.location);
    }
    if !HasLocation(slots, e.location) {
      var i, r := NextId(slots), Put(slots, e);
      assert r[i] == Some(e);
    }
  }

  /** The entry of slot i is one that the operation is to remove. */
  predicate Names(op: Op, i: nat, e: Entry) {
    match op
    case RemoveIdOp(id) => i == id
    case RemoveObjectOp(o) => e.objectID == o
    case RemoveLocationOp(l) => e.location == l
    case _ => false
  }

  /** Such an operation removes the first entry that it names: the last slot is taken off, another one becomes a
      hole. If it names none it changes nothing. */
  lemma RemovedExactly(slots: Slots, op: Op) returns (i: int)
    requires !Crashes(slots, op) && !op.AddOp? && !op.RemoveSubdirsOp?
    ensures -1 <= i < |slots|
    ensures forall j :: 0 <= j < (if i < 0 then |slots| else i) && slots[j].Some? ==> !Names(op, j, slots[j].value)
    ensures if i < 0 then Apply(slots, op) == slots
            else
              && slots[i].Some? && Names(op, i, slots[i].value)
              && Apply(slots, op) == if i == |slots| - 1 then slots[..i] else slots[i := None]
  {
    i := match op
         case RemoveIdOp(id) => id
         case RemoveObjectOp(o) => FirstObject(slots, o, 0)
         case RemoveLocationOp(l) => FirstLocation(slots, l, 0)
         case _ => -1;
    forall j | 0 <= j < |slots| && slots[j].Some? && Names(op, j, slots[j].value)
      ensures op.RemoveObjectOp? ==> ObjectAt(slots, j, op.objectID)
      ensures op.RemoveLocationOp? ==> LocationAt(slots, j, op.location)
    {
    }
    if i < 0 || i >= |slots| { i := -1; }
  }

  /** The operations in sequence. */
  ghost predicate Runs(slots: Slots, ops: seq<Op>)
    decreases |ops|
  {
    ops == [] || (!Crashes(slots, ops[0]) && Runs(Apply(slots, ops[0]), ops[1..]))
  }

  function Run(slots: Slots, ops: seq<Op>): Slots
    requires Runs(slots, ops)
    decreases |ops|
  {
    if ops == [] then slots else Run(Apply(slots, ops[0]), ops[1..])
  }

  /** A history crashes exactly when, at some point of it, the ID of a hole is removed; otherwise it ends
      in the slots of the run. */
  lemma {:induction false} CrashesExactlyAtAHole(slots: Slots, ops: seq<Op>)
    ensures PerformAll(slots, ops).Crashed? <==>
            exists k: nat :: k < |ops| && Runs(slots, ops[..k]) && Crashes(Run(slots, ops[..k]), ops[k])
    ensures PerformAll(slots, ops).Done? ==> Runs(slots, ops) && PerformAll(slots, ops).slots == Run(slots, ops)
    decreases |ops|
  {
    if ops != [] {
      var op, rest := ops[0], ops[1..];
      if Crashes(slots, op) {
        assert ops[..0] == [];
        assert Runs(slots, ops[..0]) && Crashes(Run(slots, ops[..0]), ops[0]);
      } else {
        CrashesExactlyAtAHole(Apply(slots, op), rest);
        CrashMovesOn(slots, ops);
      }
    }
  }

  /** The crash of the rest is the crash of the whole, one operation later. */
  lemma CrashMovesOn(slots: Slots, ops: seq<Op>)
    requires ops != [] && !Crashes(slots, ops[0])
    ensures (exists k: nat :: k < |ops| && Runs(slots, ops[..k]) && Crashes(Run(slots, ops[..k]), ops[k])) <==>
            (exists k: nat :: k < |ops| - 1 && Runs(Apply(slots, ops[0]), ops[1..][..k])
                              && Crashes(Run(Apply(slots, ops[0]), ops[1..][..k]), ops[1..][k]))
  {
    var t, rest := Apply(slots, ops[0]), ops[1..];
    if k: nat :| k < |ops| && Runs(slots, ops[..k]) && Crashes(Run(slots, ops[..k]), ops[k]) {
      assert ops[..0] == [];
      assert k > 0;
      assert ops[..k][1..] == rest[..k - 1] && ops[k] == rest[k - 1];
      assert Runs(t, rest[..k - 1]) && Crashes(Run(t, rest[..k - 1]), rest[k - 1]);
    }
    if k: nat :| k < |rest| && Runs(t, rest[..k]) && Crashes(Run(t, rest[..k]), rest[k]) {
      assert ops[..k + 1][1..] == rest[..k] && ops[k + 1] == rest[k];
      assert Runs(slots, ops[..k + 1]) && Crashes(Run(slots, ops[..k + 1]), ops[k + 1]);
    }
  }

  /** Two directories are added and the first is removed twice: from the empty list the program gets to
      the ID of a hole. */
  lemma RemovedTwiceCrashes(e: Entry, f: Entry)
    requires e.location != f.location
    ensures PerformAll([], [AddOp(e), AddOp(f), RemoveIdOp(0), RemoveIdOp(0)]).Crashed?
  {
    var ops := [AddOp(e), AddOp(f), RemoveIdOp(0), RemoveIdOp(0)];
    PerformFirst([], ops, [Some(e)]);
    SecondAdded(e, f);
    hide Perform;
    assert ops[1..] == [AddOp(f), RemoveIdOp(0), RemoveIdOp(0)];
    PerformFirst([Some(e)], ops[1..], [Some(e), Some(f)]);
    assert ops[1..][1..] == [RemoveIdOp(0), RemoveIdOp(0)];
    PerformFirst([Some(e), Some(f)], ops[1..][1..], [None, Some(f)]);
  }

  lemma SecondAdded(e: Entry, f: Entry)
    requires e.location != f.location
    ensures Perform([Some(e)], AddOp(f)) == Done([Some(e), Some(f)])
    ensures Perform([Some(e), Some(f)], RemoveIdOp(0)) == Done([None, Some(f)])
  {
    assert !LocationAt([Some(e)], 0, f.location);
    assert LastHole([Some(e)]) == -1 by { assert [Some(e)][..0] == []; }
  }

  lemma PerformFirst(slots: Slots, ops: seq<Op>, next: Slots)
    requires ops != [] && Perform(slots, ops[0]) == Done(next)
    ensures PerformAll(slots, ops) == PerformAll(next, ops[1..])
  {
  }

  ghost predicate NeverRemoved(slots: Slots, ops: seq<Op>, i: nat)
    requires Runs(slots, ops)
    decreases |ops|
  {
    ops == [] || (i < |slots| && !Removes(slots, ops[0], i) && NeverRemoved(Apply(slots, ops[0]), ops[1..], i))
  }

  /** Over any history an entry's ID never changes until its own removal. */
  lemma {:induction false} IdIsStable(slots: Slots, ops: seq<Op>, i: nat)
    requires Runs(slots, ops) && i < |slots| && slots[i].Some? && NeverRemoved(slots, ops, i)
    ensures i < |Run(slots, ops)| && Run(slots, ops)[i] == slots[i]
    decreases |ops|
  {
    if ops != [] {
      ApplyKeepsId(slots, ops[0], i);
      IdIsStable(Apply(slots, ops[0]), ops[1..], i);
    }
  }

  lemma {:induction false} RunDistinct(slots: Slots, ops: seq<Op>)
    requires DistinctLocations(slots) && Runs(slots, ops)
    ensures DistinctLocations(Run(slots, ops))
    decreases |ops|
  {
    if ops != [] {
      ApplyDistinct(slots, ops[0]);
      RunDistinct(Apply(slots, ops[0]), ops[1..]);
    }
  }

  // ----- the slot bound -----

  function Live(slots: Slots): (n: nat)
    ensures n <= |slots|
  {
    if slots == [] then 0 else Live(slots[..|slots| - 1]) + (if slots[|slots| - 1].Some? then 1 else 0)
  }

  lemma {:induction false} LiveWhenNoHole(slots: Slots)
    requires forall i :: 0 <= i < |slots| ==> slots[i].Some?
    ensures Live(slots) == |slots|
  {
    if slots != [] { LiveWhenNoHole(slots[..|slots| - 1]); }
  }

  function Max(a: nat, b: nat): nat {
    if a < b then b else a
  }

  /** The largest number of entries alive at once, from the given slots on. */
  function Peak(slots: Slots, ops: seq<Op>): nat
    requires Runs(slots, ops)
    decreases |ops|
  {
    if ops == [] then Live(slots) else Max(Live(slots), Peak(Apply(slots, ops[0]), ops[1..]))
  }

  /** The list grows only by an add that finds no hole, and then every slot is in use. */
  lemma GrowsOnlyWhenFull(slots: Slots, op: Op)
    requires !Crashes(slots, op)
    ensures |Apply(slots, op)| <= |slots| || Live(Apply(slots, op)) == |Apply(slots, op)|
  {
    if op.AddOp? && !HasLocation(slots, op.entry.location) && LastHole(slots) < 0 {
      LiveWhenNoHole(slots);
    }
  }

  /** The number of slots never exceeds the largest number of entries alive at once so far
      (or the number there was at the start). */
  lemma {:induction false} SlotBound(slots: Slots, ops: seq<Op>)
    requires Runs(slots, ops)
    ensures |Run(slots, ops)| <= Max(|slots|, Peak(slots, ops))
    decreases |ops|
  {
    if ops != [] {
      GrowsOnlyWhenFull(slots, ops[0]);
      SlotBound(Apply(slots, ops[0]), ops[1..]);
    }
  }

  /** For a list that starts empty the bound is the peak alone. */
  lemma SlotBoundFromEmpty(ops: seq<Op>)
    requires Runs([], ops)
    ensures |Run([], ops)| <= Peak([], ops)
  {
    SlotBound([], ops);
  }

  // ----- addList -----

  /** The first n entries of another list added one after the other. */
  function AddAll(slots: Slots, more: Slots, n: nat): Slots
    requires n <= |more|
  {
    if n == 0 then slots
    else
      var s := AddAll(slots, more, n - 1);
      if more[n - 1].Some? then Add(s, more[n - 1].value) else s
  }

  /** Adding an entry makes its location known and no other. */
  lemma AddLocations(slots: Slots, e: Entry, location: string)
    ensures HasLocation(Add(slots, e), location) <==> HasLocation(slots, location) || location == e.location
  {
    if !HasLocation(slots, e.location) {
      var i, r := NextId(slots), Put(slots, e);
      assert LocationAt(r, i, e.location);
      forall j | 0 <= j < |slots| && LocationAt(slots, j, location) ensures HasLocation(r, location) {
        assert LocationAt(r, j, location);
      }
      forall j | 0 <= j < |r| && LocationAt(r, j, location) && j != i ensures HasLocation(slots, location) {
        assert LocationAt(slots, j, location);
      }
    }
  }

  /** Locations of the other list clash with those here before, never with one another. */
  lemma {:induction false} AddAllLocations(slots: Slots, more: Slots, n: nat, k: nat)
    requires DistinctLocations(more) && n <= k < |more| && more[k].Some?
    ensures HasLocation(AddAll(slots, more, n), more[k].value.location) <==>
            HasLocation(slots, more[k].value.location)
  {
    if n > 0 {
      AddAllLocations(slots, more, n - 1, k);
      if more[n - 1].Some? {
        AddLocations(AddAll(slots, more, n - 1), more[n - 1].value, more[k].value.location);
      }
    }
  }

  // ----- removeIfSubdir -----

  /** The partition is exact: an entry survives in its slot or its ID is listed, never both. */
  lemma SubdirPartition(slots: Slots, parent: string, persistent: bool, i: nat)
    requires i < |slots| && slots[i].Some?
    ensures var kept := Survivors(slots, parent, persistent);
            var ids := SelectedIds(slots, parent, persistent, |slots|);
            && (i in ids <==> !(i < |kept| && kept[i] == slots[i]))
            && (i in ids <==> parent <= slots[i].value.location && (persistent || !slots[i].value.persistent))
  {
  }
}
