/** The frozen-order walk of one Back/Forward gesture. `Walk` is its value; the class is the object
    the coordinator owns and mutates. */
module TraversalController {
  import opened Common
  import opened Mru

  datatype Walk = Walk(order: seq<Uid>, landable: seq<bool>, cursor: int, active: bool) {
    predicate Valid() {
      && |order| == |landable|
      && (0 <= cursor < |order| || (order == [] && cursor == 0))
    }
  }

  const IDLE := Walk([], [], 0, false)

  /** The landable index a Back steps to: the smallest one after `index`, or -1. */
  function NextLandable(landable: seq<bool>, index: int): (j: int)
    requires -1 <= index
    ensures j == -1 || index < j < |landable|
    ensures j != -1 ==> landable[j] && forall k :: index < k < j ==> !landable[k]
    ensures j == -1 ==> forall k :: index < k < |landable| ==> !landable[k]
    decreases |landable| - index
  {
    if index + 1 >= |landable| then -1
    else if landable[index + 1] then index + 1
    else NextLandable(landable, index + 1)
  }

  /** The landable index a Forward steps to: the largest one before `index`, or -1. */
  function PrevLandable(landable: seq<bool>, index: int): (j: int)
    requires index <= |landable|
    ensures -1 <= j && (j != -1 ==> j < index)
    ensures j != -1 ==> landable[j] && forall k :: j < k < index ==> !landable[k]
    ensures j == -1 ==> forall k :: 0 <= k < index ==> !landable[k]
    decreases index
  {
    if index <= 0 then -1
    else if landable[index - 1] then index - 1
    else PrevLandable(landable, index - 1)
  }

  function Begin(w: Walk, log: seq<Uid>, reachable: set<Uid>): Walk {
    if w.active then w
    else Walk(MruOf(log), Landability(MruOf(log), reachable), 0, true)
  }

  function Landability(order: seq<Uid>, reachable: set<Uid>): (r: seq<bool>)
    ensures |r| == |order| && forall i :: 0 <= i < |r| ==> r[i] == (order[i] in reachable)
  {
    seq(|order|, i requires 0 <= i < |order| => order[i] in reachable)
  }

  function Back(w: Walk): (Walk, Option<Uid>)
    requires w.Valid()
  {
    var j := NextLandable(w.landable, w.cursor);
    if j == -1 then (w, None) else (w.(cursor := j), Some(w.order[j]))
  }

  function Forward(w: Walk): (Walk, Option<Uid>)
    requires w.Valid()
  {
    var j := PrevLandable(w.landable, w.cursor);
    if j == -1 then (w, None) else (w.(cursor := j), Some(w.order[j]))
  }

  function Current(w: Walk): Option<Uid>
    requires w.Valid()
  {
    if w.order == [] || !w.landable[w.cursor] then None else Some(w.order[w.cursor])
  }

  class TabTraversalController {
    var frozenOrder: seq<Uid>
    var landable: seq<bool>
    var cursor: int
    var active: bool

    function Value(): Walk
      reads this
    {
      Walk(frozenOrder, landable, cursor, active)
    }

    constructor ()
      ensures Value() == IDLE
    {
      frozenOrder, landable, cursor, active := [], [], 0, false;
    }

    method BeginGesture(log: seq<Uid>, reachable: set<Uid>)
      requires Value().Valid()
      modifies this
      ensures Value() == Begin(old(Value()), log, reachable) && Value().Valid()
    {
      if active {
        return;
      }
      frozenOrder := DeriveMruOrder(log);
      landable := seq(|frozenOrder|, _ => false);
      var i := 0;
      while i < |frozenOrder|
        invariant 0 <= i <= |frozenOrder| == |landable|
        invariant frozenOrder == MruOf(log) && !active
        invariant forall k :: 0 <= k < i ==> landable[k] == (frozenOrder[k] in reachable)
      {
        landable := landable[i := frozenOrder[i] in reachable];
        i := i + 1;
      }
      cursor := 0;
      active := true;
    }

    method NextLandableAfter(index: int) returns (j: int)
      requires -1 <= index
      ensures j == NextLandable(landable, index)
    {
      j := index + 1;
      while j < |landable|
        invariant index < j
        invariant NextLandable(landable, j - 1) == NextLandable(landable, index)
        decreases |landable| - j
      {
        if landable[j] {
          return;
        }
        j := j + 1;
      }
      j := -1;
    }

    method PrevLandableBefore(index: int) returns (j: int)
      requires index <= |landable|
      ensures j == PrevLandable(landable, index)
    {
      j := index - 1;
      while j >= 0
        invariant j < |landable|
        invariant PrevLandable(landable, j + 1) == PrevLandable(landable, index)
        decreases j
      {
        if landable[j] {
          return;
        }
        j := j - 1;
      }
      j := -1;
    }

    method CanGoBack() returns (r: bool)
      requires Value().Valid()
      ensures r <==> exists k :: cursor < k < |landable| && landable[k]
    {
      var j := NextLandableAfter(cursor);
      r := j != -1;
    }

    method CanGoForward() returns (r: bool)
      requires Value().Valid()
      ensures r <==> exists k :: 0 <= k < cursor && landable[k]
    {
      var j := PrevLandableBefore(cursor);
      r := j != -1;
    }

    method StepBack() returns (uid: Option<Uid>)
      requires Value().Valid()
      modifies this
      ensures (Value(), uid) == Back(old(Value())) && Value().Valid()
    {
      var j := NextLandableAfter(cursor);
      if j == -1 {
        return None;
      }
      cursor := j;
      return Some(frozenOrder[j]);
    }

    method StepForward() returns (uid: Option<Uid>)
      requires Value().Valid()
      modifies this
      ensures (Value(), uid) == Forward(old(Value())) && Value().Valid()
    {
      var j := PrevLandableBefore(cursor);
      if j == -1 {
        return None;
      }
      cursor := j;
      return Some(frozenOrder[j]);
    }

    method Settle() returns (uid: Option<Uid>)
      requires Value().Valid()
      modifies this
      ensures uid == Current(old(Value())) && Value() == IDLE
    {
      uid := None;
      if frozenOrder != [] && 0 <= cursor < |frozenOrder| && landable[cursor] {
        uid := Some(frozenOrder[cursor]);
      }
      frozenOrder, landable, cursor, active := [], [], 0, false;
    }
  }

  /** Pre-gesture Back enablement: something reachable is older than the tail. */
  method CanBeginBackTraversal(log: seq<Uid>, reachable: set<Uid>) returns (r: bool)
    ensures r == CanBegin(log, reachable)
  {
    var mru := DeriveMruOrder(log);
    var i := 1;
    while i < |mru|
      invariant 1 <= i
      invariant forall k :: 1 <= k < i && k < |mru| ==> mru[k] !in reachable
    {
      if mru[i] in reachable {
        return true;
      }
      i := i + 1;
    }
    return false;
  }

  predicate CanBegin(log: seq<Uid>, reachable: set<Uid>) {
    exists i :: 1 <= i < |MruOf(log)| && MruOf(log)[i] in reachable
  }

  /** Pre-gesture enablement agrees with the gesture it would open. */
  lemma CanBeginMeansBackLands(w: Walk, log: seq<Uid>, reachable: set<Uid>)
    requires !w.active
    ensures Begin(w, log, reachable).Valid()
    ensures CanBegin(log, reachable) <==> Back(Begin(w, log, reachable)).1.Some?
  {
    var b := Begin(w, log, reachable);
    var j := NextLandable(b.landable, 0);
    if j != -1 {
      assert MruOf(log)[j] in reachable;
    }
    if i :| 1 <= i < |MruOf(log)| && MruOf(log)[i] in reachable {
      assert b.landable[i];
    }
  }

  // ---- The walk ----

  /** Every landable index after `from`, nearest first. */
  function Stops(landable: seq<bool>, from: int): (s: seq<int>)
    requires -1 <= from
    ensures forall i :: 0 <= i < |s| ==> 0 <= s[i] < |landable|
    decreases |landable| - from
  {
    var j := NextLandable(landable, from);
    if j == -1 then [] else [j] + Stops(landable, j)
  }

  lemma {:induction false} StopsAreTheLandables(landable: seq<bool>, from: int)
    requires -1 <= from
    ensures forall k :: k in Stops(landable, from) <==> from < k < |landable| && landable[k]
    ensures forall i, j :: 0 <= i < j < |Stops(landable, from)| ==> Stops(landable, from)[i] < Stops(landable, from)[j]
    decreases |landable| - from
  {
    var j, s := NextLandable(landable, from), Stops(landable, from);
    if j != -1 {
      var rest := Stops(landable, j);
      StopsAreTheLandables(landable, j);
      assert s == [j] + rest;
      forall a, b | 0 <= a < b < |s| ensures s[a] < s[b] {
        assert s[b] == rest[b - 1] && rest[b - 1] in rest;
        assert a > 0 ==> s[a] == rest[a - 1];
      }
    }
  }

  function BackTimes(w: Walk, n: nat): (r: Walk)
    requires w.Valid()
    ensures r.Valid()
  {
    if n == 0 then w else Back(BackTimes(w, n - 1)).0
  }

  function ForwardTimes(w: Walk, n: nat): (r: Walk)
    requires w.Valid()
    ensures r.Valid()
  {
    if n == 0 then w else Forward(ForwardTimes(w, n - 1)).0
  }

  /** Where `n` Backs leave the cursor: the n-th stop, and the last stop from then on. */
  function CursorAfter(w: Walk, n: nat): int
    requires w.Valid()
  {
    var s := Stops(w.landable, w.cursor);
    if n == 0 || s == [] then w.cursor else if n <= |s| then s[n - 1] else Last(s)
  }

  /** Repeated Back visits exactly the landable indices after the anchor, in order, once each. */
  lemma {:induction false} BackVisitsTheStops(w: Walk, n: nat)
    requires w.Valid()
    ensures BackTimes(w, n) == w.(cursor := CursorAfter(w, n))
  {
    if n > 0 {
      BackVisitsTheStops(w, n - 1);
      OneMoreStop(w, n - 1);
    }
  }

  lemma OneMoreStop(w: Walk, n: nat)
    requires w.Valid() && w.(cursor := CursorAfter(w, n)).Valid()
    ensures var j := NextLandable(w.landable, CursorAfter(w, n));
      CursorAfter(w, n + 1) == if j == -1 then CursorAfter(w, n) else j
  {
    var s := Stops(w.landable, w.cursor);
    if n > 0 && s != [] {
      var i := if n <= |s| then n - 1 else |s| - 1;
      StopsAfterAStop(w.landable, w.cursor, i);
    }
  }

  lemma {:induction false} StopsAfterAStop(landable: seq<bool>, from: int, i: nat)
    requires -1 <= from
    requires i < |Stops(landable, from)|
    ensures Stops(landable, Stops(landable, from)[i]) == Stops(landable, from)[i + 1..]
    ensures NextLandable(landable, Stops(landable, from)[i])
         == (if i + 1 < |Stops(landable, from)| then Stops(landable, from)[i + 1] else -1)
    decreases i
  {
    var j := NextLandable(landable, from);
    var s := Stops(landable, from);
    assert s == [j] + Stops(landable, j);
    if i > 0 {
      StopsAfterAStop(landable, j, i - 1);
      assert s[i] == Stops(landable, j)[i - 1];
      assert s[i + 1..] == Stops(landable, j)[i..];
    } else {
      assert s[1..] == Stops(landable, j);
    }
  }

  /** Forward undoes a landing Back exactly from a landable cursor. From a non-landable anchor the
      Forward finds nothing newer and stays on the landing. */
  lemma ForwardUndoesBackIff(w: Walk)
    requires w.Valid() && Back(w).1.Some?
    requires w.cursor == 0 || w.landable[w.cursor]
    ensures Forward(Back(w).0).0 == w <==> w.landable[w.cursor]
    ensures !w.landable[w.cursor] ==> Forward(Back(w).0) == (Back(w).0, None)
  {
    var j := NextLandable(w.landable, w.cursor);
    var k := PrevLandable(w.landable, j);
    if w.landable[w.cursor] {
      assert k == w.cursor;
    }
  }

  /** Any number of Backs that all land is undone by as many Forwards, from a landable cursor. */
  lemma {:induction false} ForwardsUndoBacks(w: Walk, n: nat)
    requires w.Valid() && w.order != [] && w.landable[w.cursor]
    requires n <= |Stops(w.landable, w.cursor)|
    ensures ForwardTimes(BackTimes(w, n), n) == w
    decreases n
  {
    if n > 0 {
      var v := FirstBack(w);
      BackTimesShift(w, n - 1);
      var x := BackTimes(v, n - 1);
      assert BackTimes(w, n) == x;
      assert ForwardTimes(x, n - 1) == v by {
        ForwardsUndoBacks(v, n - 1);
      }
      ForwardOnce(x, n - 1, v);
    }
  }

  lemma ForwardOnce(x: Walk, n: nat, v: Walk)
    requires x.Valid() && v.Valid() && ForwardTimes(x, n) == v
    ensures ForwardTimes(x, n + 1) == Forward(v).0
  {
  }

  lemma FirstBack(w: Walk) returns (v: Walk)
    requires w.Valid() && w.order != [] && w.landable[w.cursor] && Stops(w.landable, w.cursor) != []
    ensures v == Back(w).0 && v.Valid() && v.order == w.order && v.landable == w.landable && w.landable[v.cursor]
    ensures |Stops(w.landable, w.cursor)| == 1 + |Stops(w.landable, v.cursor)|
    ensures Forward(v).0 == w
  {
    v := Back(w).0;
    ForwardUndoesBackIff(w);
  }

  lemma {:induction false} BackTimesShift(w: Walk, n: nat)
    requires w.Valid()
    ensures BackTimes(w, n + 1) == BackTimes(Back(w).0, n)
  {
    if n > 0 {
      BackTimesShift(w, n - 1);
    }
  }

  lemma {:induction false} BackTimesAdd(w: Walk, m: nat, n: nat)
    requires w.Valid()
    ensures BackTimes(BackTimes(w, m), n) == BackTimes(w, m + n)
  {
    if n > 0 {
      BackTimesAdd(w, m, n - 1);
    }
  }

  /** A step's enablement test is exactly "the step lands", in both directions. */
  lemma EnabledIffLands(w: Walk)
    requires w.Valid()
    ensures Back(w).1.Some? <==> exists k :: w.cursor < k < |w.landable| && w.landable[k]
    ensures Forward(w).1.Some? <==> exists k :: 0 <= k < w.cursor && w.landable[k]
    ensures Back(w).1.Some? ==> Current(Back(w).0) == Back(w).1
    ensures Forward(w).1.Some? ==> Current(Forward(w).0) == Forward(w).1
  {
    var j, i := NextLandable(w.landable, w.cursor), PrevLandable(w.landable, w.cursor);
    assert j != -1 ==> w.cursor < j < |w.landable| && w.landable[j];
    assert i != -1 ==> 0 <= i < w.cursor && w.landable[i];
  }
}
