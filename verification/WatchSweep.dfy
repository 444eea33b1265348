/**
 Removal with Array::removeUnordered: what one removal does to an entry, and exactly
 what the loops that remove and then advance leave behind.
 */
module WatchSweep {
  import opened WatchTable

  /** At most one regular autoscan watch per location. */
  ghost predicate OneRegular(ws: seq<Watch>) {
    forall i, j :: 0 <= i < j < |ws| && ws[i].Regular() && ws[j].Regular()
                   ==> ws[i].adir.location != ws[j].adir.location
  }

  lemma RemoveUnorderedContents(ws: seq<Watch>, i: nat)
    requires i < |ws|
    ensures multiset(RemoveUnordered(ws, i)) == multiset(ws) - multiset{ws[i]}
  {
    var last := ws[|ws| - 1];
    var u := ws[i := last];
    assert u == RemoveUnordered(ws, i) + [last];
    forall v ensures multiset(RemoveUnordered(ws, i))[v] == (multiset(ws) - multiset{ws[i]})[v] {
      assert multiset(u)[v] == multiset(RemoveUnordered(ws, i))[v] + multiset{last}[v];
      assert multiset(u)[v] == (multiset(ws) - multiset{ws[i]} + multiset{last})[v];
    }
  }

  /** The elements already passed stay where they are. */
  lemma {:induction false} SweepKeepsPassed(ws: seq<Watch>, w: Watch, i: nat)
    requires i <= |ws|
    ensures ws[..i] <= Sweep(ws, w, i)
    decreases |ws| - i
  {
    if i < |ws| {
      if ws[i] == w {
        var u := RemoveUnordered(ws, i);
        assert u[..i] == ws[..i];
        if i + 1 <= |u| {
          SweepKeepsPassed(u, w, i + 1);
          assert u[..i] <= u[..i + 1];
        }
      } else {
        SweepKeepsPassed(ws, w, i + 1);
        assert ws[..i] <= ws[..i + 1];
      }
    }
  }

  /** Only the swept watch is dropped. */
  lemma {:induction false} SweepDropsOnlyTarget(ws: seq<Watch>, w: Watch, i: nat, v: Watch)
    ensures multiset(Sweep(ws, w, i))[v] <= multiset(ws)[v]
    ensures v != w ==> multiset(Sweep(ws, w, i))[v] == multiset(ws)[v]
    decreases |ws| - i
  {
    if i < |ws| {
      if ws[i] == w {
        RemoveUnorderedContents(ws, i);
        SweepDropsOnlyTarget(RemoveUnordered(ws, i), w, i + 1, v);
      } else {
        SweepDropsOnlyTarget(ws, w, i + 1, v);
      }
    }
  }

  lemma {:induction false} SweepRegular(ws: seq<Watch>, w: Watch, i: nat)
    requires OneRegular(ws)
    ensures OneRegular(Sweep(ws, w, i))
    decreases |ws| - i
  {
    if i < |ws| {
      if ws[i] == w {
        SweepRegular(RemoveUnordered(ws, i), w, i + 1);
      } else {
        SweepRegular(ws, w, i + 1);
      }
    }
  }

  /** A list of two or more never becomes empty. */
  lemma SweepNeverEmpties(ws: seq<Watch>, w: Watch)
    requires ws != [] && ws != [w]
    ensures Sweep(ws, w, 0) != []
  {
    var u := if ws[0] == w then RemoveUnordered(ws, 0) else ws;
    assert |ws| == 1 ==> ws == [ws[0]];
    assert |u| >= 1;
    SweepKeepsPassed(u, w, 1);
    assert Sweep(ws, w, 0) == Sweep(u, w, 1);
  }

  /** How often w occurs from index i on. */
  function Occurrences(ws: seq<Watch>, w: Watch, i: nat): nat
    requires i <= |ws|
  {
    multiset(ws[i..])[w]
  }

  lemma SplitOccurrences(ws: seq<Watch>, w: Watch, i: nat)
    requires i < |ws|
    ensures Occurrences(ws, w, i) == (if ws[i] == w then 1 else 0) + Occurrences(ws, w, i + 1)
    ensures Occurrences(ws, w, i) <= |ws| - i
    ensures w in ws[i..] <==> Occurrences(ws, w, i) > 0
  {
    assert ws[i..] == [ws[i]] + ws[i + 1..];
  }

  /** The sweep removes every w from index i on exactly when, with m of them there,
      none lies among the last m - 1 elements: those are the ones swapped in and skipped. */
  lemma {:induction false} SweepComplete(ws: seq<Watch>, w: Watch, i: nat)
    requires i <= |ws| && w !in ws[..i]
    ensures var m := Occurrences(ws, w, i);
            m <= |ws| && (w !in Sweep(ws, w, i) <==> m == 0 || w !in ws[|ws| - m + 1..])
    decreases |ws| - i
  {
    if i < |ws| {
      SplitOccurrences(ws, w, i);
      var m := Occurrences(ws, w, i);
      if ws[i] != w {
        assert ws[..i + 1] == ws[..i] + [ws[i]];
        SweepComplete(ws, w, i + 1);
      } else if i == |ws| - 1 {
        assert RemoveUnordered(ws, i) == ws[..i];
        assert ws[|ws| - m + 1..] == [];
      } else if ws[|ws| - 1] == w {
        SkippedSurvives(ws, w, i);
        assert ws[i + 1..][|ws| - i - 2] == w;
        assert ws[|ws| - m + 1..][m - 2] == w;
      } else {
        var u := RemoveUnordered(ws, i);
        assert u[..i + 1] == ws[..i] + [ws[|ws| - 1]];
        SweepComplete(u, w, i + 1);
        SwapShifts(ws, w, i, m);
      }
    } else {
      assert ws[i..] == [];
    }
  }

  /** Dropping a non-match from the end shortens the tail in question by that element. */
  lemma SwapShifts(ws: seq<Watch>, w: Watch, i: nat, m: nat)
    requires i < |ws| - 1 && ws[i] == w && ws[|ws| - 1] != w && m == Occurrences(ws, w, i) >= 1 && m <= |ws|
    ensures var u := RemoveUnordered(ws, i);
            && Occurrences(u, w, i + 1) == m - 1
            && (m >= 2 ==> (w in ws[|ws| - m + 1..] <==> w in u[|u| - (m - 1) + 1..]))
            && (m == 1 ==> w !in ws[|ws| - m + 1..])
  {
    var u := RemoveUnordered(ws, i);
    var last := [ws[|ws| - 1]];
    assert ws[i..] == [w] + (u[i + 1..] + last);
    if m >= 2 {
      assert ws[|ws| - m + 1..] == u[|u| - (m - 1) + 1..] + last;
    }
  }

  lemma SkippedSurvives(ws: seq<Watch>, w: Watch, i: nat)
    requires i < |ws| - 1 && ws[i] == w && ws[|ws| - 1] == w
    ensures w in Sweep(ws, w, i)
  {
    var u := RemoveUnordered(ws, i);
    SweepKeepsPassed(u, w, i + 1);
    assert u[..i + 1][i] == w;
  }

  /** One move watch is always found and dropped; two at the ends are not both. */
  lemma SweepOnce(ws: seq<Watch>, w: Watch)
    requires multiset(ws)[w] == 1
    ensures w !in Sweep(ws, w, 0)
  {
    assert ws[0..] == ws;
    SweepComplete(ws, w, 0);
    assert ws[|ws| - 1 + 1..] == [];
  }

  lemma SweepSkipsSwappedIn()
    ensures MoveWatch(7) in Sweep([MoveWatch(7), MoveWatch(3), MoveWatch(7)], MoveWatch(7), 0)
  {
    SkippedSurvives([MoveWatch(7), MoveWatch(3), MoveWatch(7)], MoveWatch(7), 0);
  }
}
