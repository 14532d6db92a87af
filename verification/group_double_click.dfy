/** Double-clicking a tab group header collapses or expands every group of the window. */
module GroupDoubleClick {
  import opened Common

  type GroupId = int

  datatype GroupState = GroupState(id: GroupId, collapsed: bool, active: bool)

  type Snapshot = seq<GroupState>

  datatype Plan = Plan(target: bool, toToggle: seq<GroupId>)

  datatype PassResult = Completed | Stopped | IgnoredNested

  function FindGroup(groups: Snapshot, id: GroupId): (g: Option<GroupState>)
    ensures g.Some? ==> g.value in groups && g.value.id == id
    ensures g.None? ==> forall h :: h in groups ==> h.id != id
  {
    if groups == [] then None
    else if groups[0].id == id then Some(groups[0])
    else
      assert groups == [groups[0]] + groups[1..];
      FindGroup(groups[1..], id)
  }

  predicate Distinct(groups: Snapshot) {
    forall i, j :: 0 <= i < j < |groups| ==> groups[i].id != groups[j].id
  }

  function Ids(groups: Snapshot): set<GroupId> {
    set g | g in groups :: g.id
  }

  lemma FoundIsMember(groups: Snapshot, g: GroupState)
    requires Distinct(groups) && g in groups
    ensures FindGroup(groups, g.id) == Some(g)
  {
  }

  // ---- The window is as the first click left it ----

  predicate Expected(b: GroupState, now: Snapshot, clicked: GroupId) {
    var n := FindGroup(now, b.id);
    n.Some? && n.value.collapsed == if b.id == clicked then !b.collapsed else b.collapsed
  }

  predicate Matches(before: Snapshot, now: Snapshot, clicked: GroupId) {
    |before| == |now| && forall b :: b in before ==> Expected(b, now, clicked)
  }

  method EqualExceptClickedFlipped(before: Snapshot, now: Snapshot, clicked: GroupId) returns (equal: bool)
    ensures equal == Matches(before, now, clicked)
  {
    if |before| != |now| {
      return false;
    }
    for i := 0 to |before|
      invariant forall b :: b in before[..i] ==> Expected(b, now, clicked)
    {
      var b := before[i];
      assert b in before;
      var n := FindGroup(now, b.id);
      if n.None? {
        return false;
      }
      var expected := if b.id == clicked then !b.collapsed else b.collapsed;
      if n.value.collapsed != expected {
        return false;
      }
      assert before[..i + 1] == before[..i] + [b];
    }
    assert before[..|before|] == before;
    return true;
  }

  lemma {:induction false} IdsCount(groups: Snapshot)
    requires Distinct(groups)
    ensures |Ids(groups)| == |groups|
  {
    if groups != [] {
      var rest := Init(groups);
      IdsCount(rest);
      assert groups == rest + [Last(groups)];
      assert Ids(groups) == Ids(rest) + {Last(groups).id};
    }
  }

  /** Equal sizes and one-way inclusion of distinct ids give equality both ways. */
  lemma MatchesBothWays(before: Snapshot, now: Snapshot, clicked: GroupId)
    requires Distinct(before) && Distinct(now)
    ensures Matches(before, now, clicked)
            <==> Ids(before) == Ids(now)
                 && forall b, n :: b in before && n in now && b.id == n.id ==>
                      n.collapsed == if b.id == clicked then !b.collapsed else b.collapsed
  {
    IdsCount(before);
    IdsCount(now);
    if Matches(before, now, clicked) {
      forall id | id in Ids(before)
        ensures id in Ids(now)
      {
        var b :| b in before && b.id == id;
        assert Expected(b, now, clicked);
      }
      SameSize(Ids(before), Ids(now));
      forall b, n | b in before && n in now && b.id == n.id
        ensures n.collapsed == if b.id == clicked then !b.collapsed else b.collapsed
      {
        assert Expected(b, now, clicked);
        FoundIsMember(now, n);
      }
    }
    if Ids(before) == Ids(now)
       && forall b, n :: b in before && n in now && b.id == n.id ==>
             n.collapsed == if b.id == clicked then !b.collapsed else b.collapsed
    {
      forall b | b in before
        ensures Expected(b, now, clicked)
      {
        assert b.id in Ids(now);
      }
    }
  }

  /** Without distinct ids the test accepts a window with other groups. */
  lemma DuplicateIdsBreakTheTest()
    ensures var a, b := GroupState(1, true, false), GroupState(2, true, false);
            Matches([a, a], [a, b], 3) && Ids([a, a]) != Ids([a, b])
  {
    var a, b := GroupState(1, true, false), GroupState(2, true, false);
    assert b in [a, b];
    assert 2 in Ids([a, b]);
  }

  // ---- The plan ----

  function PreGesture(g: GroupState, clicked: GroupId, clickedPre: bool): bool {
    if g.id == clicked then clickedPre else g.collapsed
  }

  predicate AllExpandedBefore(groups: Snapshot, clicked: GroupId, clickedPre: bool) {
    forall g :: g in groups ==> !PreGesture(g, clicked, clickedPre)
  }

  function IdOf(g: Option<GroupId>): seq<GroupId> {
    if g.Some? then [g.value] else []
  }

  /** The groups off target, in order, without those the collapse pass keeps for last. */
  function Ordinary(groups: Snapshot, target: bool): seq<GroupId> {
    if groups == [] then []
    else
      var g := Last(groups);
      Ordinary(Init(groups), target) + if g.collapsed != target && !(target && g.active) then [g.id] else []
  }

  /** The last off-target group that holds the active tab. */
  function ActiveLast(groups: Snapshot, target: bool): Option<GroupId> {
    if groups == [] then None
    else
      var g := Last(groups);
      if g.collapsed != target && target && g.active then Some(g.id) else ActiveLast(Init(groups), target)
  }

  method PlanDoubleClickAll(groups: Snapshot, clicked: GroupId, clickedPre: bool) returns (plan: Plan)
    ensures plan.target == AllExpandedBefore(groups, clicked, clickedPre)
    ensures plan.toToggle == Ordinary(groups, plan.target) + IdOf(ActiveLast(groups, plan.target))
  {
    var target := true;
    for i := 0 to |groups|
      invariant target == AllExpandedBefore(groups[..i], clicked, clickedPre)
    {
      assert groups[..i + 1] == groups[..i] + [groups[i]];
      if PreGesture(groups[i], clicked, clickedPre) {
        target := false;
        assert groups[i] in groups;
        break;
      }
    }
    assert groups[..|groups|] == groups;
    var toToggle: seq<GroupId> := [];
    var activeLast: Option<GroupId> := None;
    for i := 0 to |groups|
      invariant toToggle == Ordinary(groups[..i], target) && activeLast == ActiveLast(groups[..i], target)
    {
      var g := groups[i];
      assert Init(groups[..i + 1]) == groups[..i];
      if g.collapsed == target {
        continue;
      }
      if target && g.active {
        activeLast := Some(g.id);
        continue;
      }
      toToggle := toToggle + [g.id];
    }
    if activeLast.Some? {
      toToggle := toToggle + [activeLast.value];
    }
    plan := Plan(target, toToggle);
  }

  predicate OneActive(groups: Snapshot) {
    forall g, h :: g in groups && h in groups && g.active && h.active ==> g == h
  }

  function PlanIds(groups: Snapshot, target: bool): seq<GroupId> {
    Ordinary(groups, target) + IdOf(ActiveLast(groups, target))
  }

  lemma {:induction false} OrdinaryLists(groups: Snapshot, target: bool)
    requires Distinct(groups)
    ensures NoDup(Ordinary(groups, target))
    ensures forall id :: id in Ordinary(groups, target)
                         <==> exists g :: g in groups && g.id == id && g.collapsed != target && !(target && g.active)
  {
    if groups != [] {
      var rest, g := Init(groups), Last(groups);
      OrdinaryLists(rest, target);
      assert groups == rest + [g];
      assert forall h :: h in rest ==> h.id != g.id;
      assert g.id !in Ordinary(rest, target);
      forall id
        ensures id in Ordinary(groups, target)
                <==> exists h :: h in groups && h.id == id && h.collapsed != target && !(target && h.active)
      {
        if id in Ordinary(rest, target) {
          var h :| h in rest && h.id == id && h.collapsed != target && !(target && h.active);
          assert h in groups;
        }
        if id == g.id && g.collapsed != target && !(target && g.active) {
          assert g in groups;
        }
      }
    }
  }

  lemma {:induction false} ActiveLastIs(groups: Snapshot, target: bool)
    requires OneActive(groups)
    ensures forall g :: g in groups && g.collapsed != target && target && g.active ==>
              ActiveLast(groups, target) == Some(g.id)
    ensures ActiveLast(groups, target).Some? ==>
              exists g ::
                g in groups && g.id == ActiveLast(groups, target).value && g.collapsed != target && target && g.active
  {
    if groups != [] {
      var rest, g := Init(groups), Last(groups);
      assert groups == rest + [g];
      ActiveLastIs(rest, target);
      assert g in groups;
    }
  }

  /** The plan holds exactly the groups off target, once each; on a collapse pass the active group comes last. */
  lemma PlanListsTheDifferences(groups: Snapshot, target: bool)
    requires Distinct(groups) && OneActive(groups)
    ensures NoDup(PlanIds(groups, target))
    ensures forall g :: g in groups ==> (g.id in PlanIds(groups, target) <==> g.collapsed != target)
    ensures forall id :: id in PlanIds(groups, target) ==> id in Ids(groups)
    ensures forall g :: g in groups && target && g.active && !g.collapsed ==> Last(PlanIds(groups, target)) == g.id
  {
    var plan := PlanIds(groups, target);
    OrdinaryLists(groups, target);
    ActiveLastIs(groups, target);
    forall g, h | g in groups && h in groups && g.id == h.id
      ensures g == h
    {
      FoundIsMember(groups, g);
      FoundIsMember(groups, h);
    }
    assert ActiveLast(groups, target).Some? ==> ActiveLast(groups, target).value !in Ordinary(groups, target);
    forall g | g in groups && target && g.active && !g.collapsed
      ensures plan != [] && Last(plan) == g.id
    {
      assert IdOf(ActiveLast(groups, target)) == [g.id];
    }
  }

  /** The group that holds the active tab, if one does. */
  ghost predicate ActiveGroup(groups: Snapshot, active: Option<GroupId>) {
    forall g :: g in groups ==> (g.active <==> active == Some(g.id))
  }

  /**
   * When a toggle moves activation only off the group it toggles, a collapse pass
   * moves it at most once: no toggle before the last one moves it.
   */
  lemma {:induction false} ActivationMovesAtMostOnce(groups: Snapshot, actives: seq<Option<GroupId>>, i: nat)
    requires Distinct(groups) && OneActive(groups)
    requires |actives| == |PlanIds(groups, true)| + 1 && ActiveGroup(groups, actives[0])
    requires forall k :: 0 <= k < |actives| - 1 && actives[k] != Some(PlanIds(groups, true)[k]) ==>
               actives[k + 1] == actives[k]
    requires i < |actives| - 1
    ensures actives[i] == actives[0]
  {
    if i > 0 {
      ActivationMovesAtMostOnce(groups, actives, i - 1);
      var plan := PlanIds(groups, true);
      PlanListsTheDifferences(groups, true);
      var id := plan[i - 1];
      assert id in PlanIds(groups, true);
      var g :| g in groups && g.id == id;
      assert id != Last(plan);
      assert !g.active;
      var k := i - 1;
      assert actives[k + 1] == actives[k];
    }
  }

  // ---- The pass ----

  datatype Toggle = Toggle(id: GroupId, was: bool)

  function Flip(groups: Snapshot, id: GroupId): Snapshot {
    seq(|groups|, i requires 0 <= i < |groups| =>
      if groups[i].id == id then groups[i].(collapsed := !groups[i].collapsed) else groups[i])
  }

  /** What a window that shows each group once at most, and at most one active group, looks like. */
  predicate Proper(groups: Snapshot) {
    Distinct(groups) && OneActive(groups)
  }

  /** The same groups in the same collapsed states; order and activation may differ. */
  predicate Kept(a: Snapshot, b: Snapshot) {
    && Proper(b) && Ids(b) == Ids(a)
    && forall g, h :: g in a && h in b && g.id == h.id ==> h.collapsed == g.collapsed
  }

  /** As `Kept`, for a window that may be gone; nothing is promised of an improper one. */
  predicate Stays(a: Option<Snapshot>, b: Option<Snapshot>) {
    a.Some? && Proper(a.value) ==> b.Some? && Kept(a.value, b.value)
  }

  /** The same groups; those in `done` are on target, every other is as it was. */
  predicate Reached(start: Snapshot, done: set<GroupId>, target: bool, now: Snapshot) {
    && Proper(now) && Ids(now) == Ids(start)
    && forall g, h :: g in start && h in now && g.id == h.id ==>
         h.collapsed == if g.id in done then target else g.collapsed
  }

  /** The same groups, all of them on target. */
  predicate Uniform(start: Snapshot, target: bool, now: Snapshot) {
    Proper(now) && Ids(now) == Ids(start) && forall h :: h in now ==> h.collapsed == target
  }

  lemma SameGroup(groups: Snapshot, g: GroupState, h: GroupState)
    requires Distinct(groups) && g in groups && h in groups && g.id == h.id
    ensures g == h
  {
    FoundIsMember(groups, g);
    FoundIsMember(groups, h);
  }

  lemma KeptAsIs(groups: Snapshot)
    requires Proper(groups)
    ensures Kept(groups, groups)
  {
    forall g, h | g in groups && h in groups && g.id == h.id
      ensures g == h
    {
      SameGroup(groups, g, h);
    }
  }

  lemma FlipAt(groups: Snapshot, id: GroupId, i: nat)
    requires i < |groups|
    ensures var f := Flip(groups, id)[i];
            f.id == groups[i].id && f.active == groups[i].active
            && f.collapsed == if f.id == id then !groups[i].collapsed else groups[i].collapsed
    ensures groups[i] in groups && Flip(groups, id)[i] in Flip(groups, id)
  {
  }

  /** Flipping a group keeps the window proper and changes that group's state alone. */
  lemma FlipStates(groups: Snapshot, id: GroupId)
    requires Proper(groups)
    ensures Proper(Flip(groups, id)) && Ids(Flip(groups, id)) == Ids(groups)
    ensures forall g, f :: g in groups && f in Flip(groups, id) && g.id == f.id ==>
              f.collapsed == if g.id == id then !g.collapsed else g.collapsed
  {
    var now := Flip(groups, id);
    forall k
      ensures k in Ids(now) <==> k in Ids(groups)
    {
      if k in Ids(now) {
        var i :| 0 <= i < |now| && now[i].id == k;
        FlipAt(groups, id, i);
      }
      if k in Ids(groups) {
        var i :| 0 <= i < |groups| && groups[i].id == k;
        FlipAt(groups, id, i);
      }
    }
    forall f, h | f in now && h in now && f.active && h.active
      ensures f == h
    {
      var i :| 0 <= i < |now| && now[i] == f;
      var j :| 0 <= j < |now| && now[j] == h;
      FlipAt(groups, id, i);
      FlipAt(groups, id, j);
    }
    forall g, f | g in groups && f in now && g.id == f.id
      ensures f.collapsed == if g.id == id then !g.collapsed else g.collapsed
    {
      var i :| 0 <= i < |now| && now[i] == f;
      FlipAt(groups, id, i);
      SameGroup(groups, g, groups[i]);
    }
  }

  /** The toggles are some of the planned ones, in plan order, each away from off-target. */
  predicate Follows(log: seq<Toggle>, plan: seq<GroupId>, target: bool) {
    if log == [] then true
    else if plan == [] then false
    else
      || (Last(log) == Toggle(Last(plan), !target) && Follows(Init(log), Init(plan), target))
      || Follows(log, Init(plan), target)
  }

  lemma FollowsTake(log: seq<Toggle>, plan: seq<GroupId>, i: nat, target: bool)
    requires i < |plan| && Follows(log, plan[..i], target)
    ensures Follows(log + [Toggle(plan[i], !target)], plan[..i + 1], target) && Follows(log, plan[..i + 1], target)
  {
    assert Init(plan[..i + 1]) == plan[..i] && Init(log + [Toggle(plan[i], !target)]) == log;
  }

  /** Each planned group is toggled at most once, and never when it is already on target. */
  lemma {:induction false} ToggledAtMostOnce(log: seq<Toggle>, plan: seq<GroupId>, target: bool)
    requires NoDup(plan) && Follows(log, plan, target)
    ensures forall i :: 0 <= i < |log| ==> log[i].was != target && log[i].id in plan
    ensures forall i, j :: 0 <= i < j < |log| ==> log[i].id != log[j].id
    decreases |plan|
  {
    if log != [] {
      assert plan == Init(plan) + [Last(plan)];
      assert Last(plan) !in Init(plan);
      if Follows(log, Init(plan), target) {
        ToggledAtMostOnce(log, Init(plan), target);
      } else {
        ToggledAtMostOnce(Init(log), Init(plan), target);
        assert forall i :: 0 <= i < |log| - 1 ==> log[i] == Init(log)[i];
      }
    }
  }

  /**
   * A window whose observers may change anything during a toggle, unless it is calm.
   * In a calm window the groups and their collapsed states only change by toggles;
   * activation may move at any time and the order of the groups may change.
   */
  class Window {
    var groups: Option<Snapshot>
    var passRunning: bool
    var toggles: seq<Toggle>
    const calm: bool

    constructor (groups: Snapshot, calm: bool)
      ensures this.groups == Some(groups) && !passRunning && toggles == [] && this.calm == calm
    {
      this.groups, passRunning, toggles := Some(groups), false, [];
      this.calm := calm;
    }

    /** Activation moves, and nothing else that the gesture looks at. */
    method MoveActivation()
      modifies `groups
      ensures Stays(old(groups), groups)
    {
      var next: Snapshot := *;
      if groups.Some? {
        if Proper(groups.value) {
          KeptAsIs(groups.value);
        }
        if Kept(groups.value, next) {
          groups := Some(next);
        }
      }
    }

    /** Something else happens to the window. */
    method Disturb()
      modifies `groups
      ensures calm ==> Stays(old(groups), groups)
    {
      if calm {
        MoveActivation();
      } else {
        groups := *;
      }
    }

    /** Observers change the window or close it, and may start a nested pass. */
    method Observers()
      requires passRunning
      modifies this
      ensures passRunning && toggles == old(toggles) && (calm ==> Stays(old(groups), groups))
      decreases 1
    {
      Disturb();
      var nested: bool := *;
      if nested {
        var id: GroupId := *;
        var pre: bool := *;
        var result := RunDoubleClickAll(this, id, pre);
        assert result == IgnoredNested;
      }
    }

    /** The ordinary toggle of a single click, and what it sets off. */
    method SingleToggle(id: GroupId)
      modifies `groups
      ensures calm && old(groups).Some? ==> Stays(Some(Flip(old(groups).value, id)), groups)
    {
      if groups.Some? {
        groups := Some(Flip(groups.value, id));
      }
      Disturb();
    }

    /** Flips one group; false when the owner or the controller is gone. */
    method ToggleGroup(id: GroupId) returns (ok: bool)
      requires passRunning && groups.Some? && FindGroup(groups.value, id).Some?
      modifies this
      ensures passRunning
      ensures toggles ==
                old(toggles) + if ok then [Toggle(id, FindGroup(old(groups).value, id).value.collapsed)] else []
      ensures calm ==> ok && Stays(Some(Flip(old(groups).value, id)), groups)
      decreases 2
    {
      var gone: bool := *;
      ok := calm || !gone;
      if ok {
        toggles := toggles + [Toggle(id, FindGroup(groups.value, id).value.collapsed)];
        groups := Some(Flip(groups.value, id));
        Observers();
      }
    }
  }

  lemma NothingDone(groups: Snapshot, target: bool)
    requires Proper(groups)
    ensures Elements<GroupId>([]) == {} && Reached(groups, {}, target, groups)
  {
    KeptAsIs(groups);
  }

  /** Moving activation undoes no progress. */
  lemma ReachedThenKept(start: Snapshot, done: set<GroupId>, target: bool, a: Snapshot, b: Snapshot)
    requires Proper(start) && Reached(start, done, target, a) && Kept(a, b)
    ensures Reached(start, done, target, b)
  {
    forall g, h | g in start && h in b && g.id == h.id
      ensures h.collapsed == if g.id in done then target else g.collapsed
    {
      assert g.id in Ids(a);
      var m :| m in a && m.id == g.id;
    }
  }

  lemma FindReached(start: Snapshot, done: set<GroupId>, target: bool, now: Snapshot, g: GroupState)
    requires Proper(start) && Reached(start, done, target, now) && g in start
    ensures var n := FindGroup(now, g.id);
            n.Some? && n.value.collapsed == if g.id in done then target else g.collapsed
  {
    assert g.id in Ids(now);
    var h :| h in now && h.id == g.id;
    FoundIsMember(now, h);
  }

  lemma FlipReached(start: Snapshot, done: set<GroupId>, target: bool, now: Snapshot, g: GroupState)
    requires Proper(start) && Reached(start, done, target, now)
    requires g in start && g.id !in done && g.collapsed != target
    ensures Reached(start, done + {g.id}, target, Flip(now, g.id))
  {
    var next := Flip(now, g.id);
    FlipStates(now, g.id);
    forall s, h | s in start && h in next && s.id == h.id
      ensures h.collapsed == if s.id in done + {g.id} then target else s.collapsed
    {
      assert s.id in Ids(now);
      var m :| m in now && m.id == s.id;
      if s.id == g.id {
        SameGroup(start, s, g);
      }
    }
  }

  /** In a calm window the next planned group is still off target, and flipping it is one more step. */
  lemma OrderlyStep(groups: Snapshot, plan: seq<GroupId>, i: nat, target: bool, now: Snapshot)
    requires Proper(groups) && plan == PlanIds(groups, target) && i < |plan|
    requires Reached(groups, Elements(plan[..i]), target, now)
    ensures FindGroup(now, plan[i]).Some? && FindGroup(now, plan[i]).value.collapsed != target
    ensures Reached(groups, Elements(plan[..i + 1]), target, Flip(now, plan[i]))
  {
    PlanListsTheDifferences(groups, target);
    var id := plan[i];
    assert id in plan && id in Ids(groups);
    var g :| g in groups && g.id == id;
    assert plan[..i + 1] == plan[..i] + [id];
    assert Elements(plan[..i + 1]) == Elements(plan[..i]) + {id};
    assert id !in Elements(plan[..i]);
    FindReached(groups, Elements(plan[..i]), target, now, g);
    FlipReached(groups, Elements(plan[..i]), target, now, g);
  }

  lemma OrderlyToggle(groups: Snapshot, plan: seq<GroupId>, i: nat, target: bool, now: Snapshot, next: Snapshot)
    requires Proper(groups) && plan == PlanIds(groups, target) && i < |plan|
    requires Reached(groups, Elements(plan[..i]), target, now) && Kept(Flip(now, plan[i]), next)
    ensures Reached(groups, Elements(plan[..i + 1]), target, next)
  {
    OrderlyStep(groups, plan, i, target, now);
    ReachedThenKept(groups, Elements(plan[..i + 1]), target, Flip(now, plan[i]), next);
  }

  lemma LogGrows(start: seq<Toggle>, before: seq<Toggle>, after: seq<Toggle>, more: seq<Toggle>)
    requires start <= before && after == before + more
    ensures start <= after && after[|start|..] == before[|start|..] + more
  {
  }

  lemma PlanCompletes(groups: Snapshot, target: bool, now: Snapshot)
    requires Proper(groups) && Reached(groups, Elements(PlanIds(groups, target)), target, now)
    ensures Uniform(groups, target, now)
  {
    PlanListsTheDifferences(groups, target);
    forall h | h in now
      ensures h.collapsed == target
    {
      assert h.id in Ids(groups);
      var g :| g in groups && g.id == h.id;
    }
  }

  /**
   * The bulk pass. Whatever observers do, the toggles follow the plan made at the
   * start and each one moves a group onto the target; a nested call changes
   * nothing; in a calm window, wherever activation moves, every group ends on the target.
   */
  method RunDoubleClickAll(w: Window, clicked: GroupId, clickedPre: bool) returns (result: PassResult)
    modifies w
    ensures w.passRunning == old(w.passRunning)
    ensures old(w.passRunning) ==> result == IgnoredNested && w.groups == old(w.groups) && w.toggles == old(w.toggles)
    ensures old(w.toggles) <= w.toggles
    ensures !old(w.passRunning) && old(w.groups).None? ==> result == Stopped && w.toggles == old(w.toggles)
    ensures !old(w.passRunning) && old(w.groups).Some? ==>
              var target := AllExpandedBefore(old(w.groups).value, clicked, clickedPre);
              result != IgnoredNested &&
              Follows(w.toggles[|old(w.toggles)|..], PlanIds(old(w.groups).value, target), target)
    ensures !old(w.passRunning) && w.calm && old(w.groups).Some? && Proper(old(w.groups).value) ==>
              var target := AllExpandedBefore(old(w.groups).value, clicked, clickedPre);
              result == Completed && w.groups.Some? && Uniform(old(w.groups).value, target, w.groups.value)
    decreases if w.passRunning then 0 else 5
  {
    if w.passRunning {
      return IgnoredNested;
    }
    w.passRunning := true;
    if w.groups.None? {
      w.passRunning := false;
      return Stopped;
    }
    var groups := w.groups.value;
    var plan := PlanDoubleClickAll(groups, clicked, clickedPre);
    result := RunPlan(w, groups, plan);
    w.passRunning := false;
  }

  ghost predicate Orderly(w: Window, groups: Snapshot, plan: Plan) {
    w.calm && Proper(groups) && plan.toToggle == PlanIds(groups, plan.target)
  }

  /** After `i` planned groups: the log since `start` follows that much of the plan. */
  ghost predicate PassState(w: Window, start: seq<Toggle>, plan: Plan, i: nat)
    reads w
  {
    && i <= |plan.toToggle| && w.passRunning && start <= w.toggles
    && Follows(w.toggles[|start|..], plan.toToggle[..i], plan.target)
  }

  ghost predicate OnTrack(w: Window, groups: Snapshot, plan: Plan, i: nat)
    requires i <= |plan.toToggle|
    reads w
  {
    Orderly(w, groups, plan) ==>
      w.groups.Some? && Reached(groups, Elements(plan.toToggle[..i]), plan.target, w.groups.value)
  }

  /** One planned group: revalidated against a fresh snapshot, then toggled or skipped. */
  method RunPlanned(w: Window, groups: Snapshot, plan: Plan, i: nat, ghost start: seq<Toggle>) returns (go: bool)
    requires i < |plan.toToggle| && PassState(w, start, plan, i) && OnTrack(w, groups, plan, i)
    modifies w
    ensures PassState(w, start, plan, i + 1)
    ensures Orderly(w, groups, plan) ==> go
    ensures go ==> OnTrack(w, groups, plan, i + 1)
    decreases 3
  {
    var id := plan.toToggle[i];
    ghost var log := w.toggles[|start|..];
    FollowsTake(log, plan.toToggle, i, plan.target);
    if Orderly(w, groups, plan) {
      OrderlyStep(groups, plan.toToggle, i, plan.target, w.groups.value);
    }
    if w.groups.None? {
      return false;
    }
    var g := FindGroup(w.groups.value, id);
    if g.None? || g.value.collapsed == plan.target {
      return true;
    }
    ghost var now, before := w.groups.value, w.toggles;
    go := w.ToggleGroup(id);
    LogGrows(start, before, w.toggles, if go then [Toggle(id, !plan.target)] else []);
    assert !go ==> log + [] == log;
    if Orderly(w, groups, plan) {
      FlipStates(now, id);
      OrderlyToggle(groups, plan.toToggle, i, plan.target, now, w.groups.value);
    }
  }

  method RunPlan(w: Window, groups: Snapshot, plan: Plan) returns (result: PassResult)
    requires w.passRunning && w.groups == Some(groups)
    modifies w
    ensures w.passRunning && result != IgnoredNested && old(w.toggles) <= w.toggles
    ensures Follows(w.toggles[|old(w.toggles)|..], plan.toToggle, plan.target)
    ensures Orderly(w, groups, plan) ==>
              result == Completed && w.groups.Some? && Uniform(groups, plan.target, w.groups.value)
    decreases 4
  {
    ghost var start := w.toggles;
    if Proper(groups) {
      NothingDone(groups, plan.target);
    }
    for i := 0 to |plan.toToggle|
      invariant PassState(w, start, plan, i) && OnTrack(w, groups, plan, i)
    {
      var go := RunPlanned(w, groups, plan, i, start);
      if !go {
        FollowsPrefix(w.toggles[|start|..], plan.toToggle, i + 1, plan.target);
        return Stopped;
      }
    }
    assert plan.toToggle[..|plan.toToggle|] == plan.toToggle;
    if Orderly(w, groups, plan) {
      PlanCompletes(groups, plan.target, w.groups.value);
    }
    return Completed;
  }

  lemma {:induction false} FollowsPrefix(log: seq<Toggle>, plan: seq<GroupId>, i: nat, target: bool)
    requires i <= |plan| && Follows(log, plan[..i], target)
    ensures Follows(log, plan, target)
    decreases |plan| - i
  {
    if i < |plan| {
      FollowsTake(log, plan, i, target);
      FollowsPrefix(log, plan, i + 1, target);
    } else {
      assert plan[..i] == plan;
    }
  }

  // ---- The gesture ----

  datatype Phase = Idle | Recorded | Latched

  class GestureState {
    var phase: Phase
    var clicked: Option<GroupId>
    var clickedPre: bool
    var before: Snapshot
    var releaseTime: int

    /** Outside Idle the clicked group is one of those recorded, with its recorded state. */
    ghost predicate Valid()
      reads this
    {
      phase != Idle ==>
        && clicked.Some? && FindGroup(before, clicked.value).Some?
        && clickedPre == FindGroup(before, clicked.value).value.collapsed
    }

    ghost predicate Cleared()
      reads this
    {
      phase == Idle && clicked == None && !clickedPre && before == [] && releaseTime == 0
    }

    constructor ()
      ensures Valid() && Cleared()
    {
      phase, clicked, clickedPre, before, releaseTime := Idle, None, false, [], 0;
    }

    method Reset()
      modifies this
      ensures Valid() && Cleared()
    {
      phase, clicked, clickedPre, before, releaseTime := Idle, None, false, [], 0;
    }

    method OnLeftPress(doubleClickFlag: bool, pressTime: int, maxAge: int, groups: Option<Snapshot>)
      requires Valid()
      modifies this
      ensures Valid()
      ensures if old(phase) == Recorded && doubleClickFlag && groups.Some? && pressTime - old(releaseTime) <= maxAge
                 && Matches(old(before), groups.value, old(clicked).value)
              then phase == Latched && clicked == old(clicked) && clickedPre == old(clickedPre) && before == old(before)
              else Cleared()
    {
      var latch := phase == Recorded && doubleClickFlag && groups.Some? && pressTime - releaseTime <= maxAge;
      if latch {
        latch := EqualExceptClickedFlipped(before, groups.value, clicked.value);
      }
      if latch {
        phase := Latched;
      } else {
        Reset();
      }
    }

    method RecordSingleToggle(id: GroupId, beforeToggle: Option<Snapshot>, at: int)
      modifies this
      ensures Valid()
      ensures if beforeToggle.Some? && FindGroup(beforeToggle.value, id).Some?
              then phase == Recorded && clicked == Some(id) && before == beforeToggle.value && releaseTime == at
              else Cleared()
    {
      Reset();
      if beforeToggle.None? {
        return;
      }
      var g := FindGroup(beforeToggle.value, id);
      if g.None? {
        return;
      }
      phase, clicked, clickedPre, before, releaseTime := Recorded, Some(id), g.value.collapsed, beforeToggle.value, at;
    }

    /** Always ends Idle; yields the clicked group's state before the gesture when the bulk pass should run. */
    method ConsumeOnDoubleClickRelease(id: GroupId, groups: Option<Snapshot>) returns (pre: Option<bool>)
      requires Valid()
      modifies this
      ensures Valid() && Cleared()
      ensures pre.Some? <==>
                old(phase) == Latched && old(clicked) == Some(id) && groups.Some? &&
                  Matches(old(before), groups.value, id)
      ensures pre.Some? ==> pre.value == FindGroup(old(before), id).value.collapsed
    {
      var run := phase == Latched && clicked == Some(id) && groups.Some?;
      if run {
        run := EqualExceptClickedFlipped(before, groups.value, id);
      }
      var was := clickedPre;
      Reset();
      pre := if run then Some(was) else None;
    }
  }

  // ---- End to end ----

  predicate AllExpanded(groups: Snapshot) {
    forall g :: g in groups ==> !g.collapsed
  }

  lemma PreGestureIsBefore(before: Snapshot, now: Snapshot, clicked: GroupId, b: GroupState, n: GroupState)
    requires Distinct(before) && Distinct(now) && Matches(before, now, clicked) && FindGroup(before, clicked).Some?
    requires b in before && n in now && b.id == n.id
    ensures PreGesture(n, clicked, FindGroup(before, clicked).value.collapsed) == b.collapsed
  {
    FoundIsMember(before, b);
    FoundIsMember(now, n);
    assert Expected(b, now, clicked);
  }

  /**
   * Once the window matched at the release, the pass aims at collapsed exactly when
   * all groups were expanded before the first click.
   */
  lemma TargetComesFromBeforeTheGesture(before: Snapshot, now: Snapshot, clicked: GroupId)
    requires Distinct(before) && Distinct(now) && Matches(before, now, clicked) && FindGroup(before, clicked).Some?
    ensures AllExpandedBefore(now, clicked, FindGroup(before, clicked).value.collapsed) <==> AllExpanded(before)
  {
    var pre := FindGroup(before, clicked).value.collapsed;
    MatchesBothWays(before, now, clicked);
    if AllExpandedBefore(now, clicked, pre) {
      forall b | b in before
        ensures !b.collapsed
      {
        assert Expected(b, now, clicked);
        PreGestureIsBefore(before, now, clicked, b, FindGroup(now, b.id).value);
      }
    }
    if AllExpanded(before) {
      forall n | n in now
        ensures !PreGesture(n, clicked, pre)
      {
        assert n.id in Ids(now);
        var b :| b in before && b.id == n.id;
        PreGestureIsBefore(before, now, clicked, b, n);
      }
    }
  }

  /** The first click's toggle, with or without a move of activation, is what the press and the release expect. */
  lemma ToggledWindowMatches(before: Snapshot, now: Snapshot, clicked: GroupId)
    requires Proper(before) && Kept(Flip(before, clicked), now)
    ensures Matches(before, now, clicked)
  {
    var flipped := Flip(before, clicked);
    FlipStates(before, clicked);
    forall b, n | b in before && n in now && b.id == n.id
      ensures n.collapsed == if b.id == clicked then !b.collapsed else b.collapsed
    {
      assert b.id in Ids(flipped);
      var f :| f in flipped && f.id == b.id;
    }
    MatchesBothWays(before, now, clicked);
  }

  lemma KeptTwice(a: Snapshot, b: Snapshot, c: Snapshot)
    requires Kept(a, b) && Kept(b, c)
    ensures Kept(a, c)
  {
    forall g, h | g in a && h in c && g.id == h.id
      ensures h.collapsed == g.collapsed
    {
      assert g.id in Ids(b);
      var m :| m in b && m.id == g.id;
    }
  }

  lemma KeptExpansion(a: Snapshot, b: Snapshot)
    requires Kept(a, b)
    ensures AllExpanded(a) == AllExpanded(b)
  {
    forall g | g in a
      ensures exists h :: h in b && h.collapsed == g.collapsed
    {
      assert g.id in Ids(b);
      var h :| h in b && h.id == g.id;
    }
    forall h | h in b
      ensures exists g :: g in a && g.collapsed == h.collapsed
    {
      assert h.id in Ids(a);
      var g :| g in a && g.id == h.id;
    }
  }

  /** The header's left release: the bulk pass in place of a second toggle, or a toggle that is recorded first. */
  method LeftRelease(w: Window, gesture: GestureState, clicked: GroupId, flagged: bool, at: int)
    requires gesture.Valid() && !w.passRunning
    modifies w, gesture
    ensures gesture.Valid() && !w.passRunning
    ensures var run := flagged && old(gesture.phase) == Latched && old(gesture.clicked) == Some(clicked)
                       && old(w.groups).Some? && Matches(old(gesture.before), old(w.groups).value, clicked);
            && (run ==> gesture.Cleared())
            && (run && w.calm && Proper(old(w.groups).value) ==>
                  var pre := FindGroup(old(gesture.before), clicked).value.collapsed;
                  var target := AllExpandedBefore(old(w.groups).value, clicked, pre);
                  w.groups.Some? && Uniform(old(w.groups).value, target, w.groups.value))
            && (!run && old(w.groups).Some? && clicked in Ids(old(w.groups).value) ==>
                  gesture.phase == Recorded && gesture.clicked == Some(clicked)
                  && gesture.before == old(w.groups).value && gesture.releaseTime == at)
            && (!run && old(w.groups).Some? && w.calm ==> Stays(Some(Flip(old(w.groups).value, clicked)), w.groups))
  {
    if flagged {
      var pre := gesture.ConsumeOnDoubleClickRelease(clicked, w.groups);
      if pre.Some? {
        var result := RunDoubleClickAll(w, clicked, pre.value);
        return;
      }
    }
    gesture.RecordSingleToggle(clicked, w.groups, at);
    w.SingleToggle(clicked);
  }

  /** A window as the gesture's four moments see it while only activation moves. */
  ghost predicate CalmGesture(start: Snapshot, before: Snapshot, pressed: Snapshot,
                               released: Snapshot, clicked: GroupId) {
    && Proper(start) && clicked in Ids(start)
    && Kept(start, before) && Kept(Flip(before, clicked), pressed) && Kept(pressed, released)
  }

  lemma CalmGestureMatches(start: Snapshot, before: Snapshot, pressed: Snapshot, released: Snapshot, clicked: GroupId)
    requires CalmGesture(start, before, pressed, released, clicked)
    ensures clicked in Ids(before) && FindGroup(before, clicked).Some?
    ensures Matches(before, pressed, clicked) && Matches(before, released, clicked)
    ensures Proper(released) && Ids(released) == Ids(start)
  {
    KeptTwice(Flip(before, clicked), pressed, released);
    ToggledWindowMatches(before, pressed, clicked);
    ToggledWindowMatches(before, released, clicked);
    FlipStates(before, clicked);
    var g :| g in before && g.id == clicked;
    FoundIsMember(before, g);
  }

  /** What the bulk pass then leaves, seen from before the gesture. */
  lemma CalmGestureEnds(start: Snapshot, before: Snapshot, pressed: Snapshot,
                        released: Snapshot, clicked: GroupId, end: Snapshot)
    requires CalmGesture(start, before, pressed, released, clicked) && FindGroup(before, clicked).Some?
    requires Uniform(released, AllExpandedBefore(released, clicked, FindGroup(before, clicked).value.collapsed), end)
    ensures Uniform(start, AllExpanded(start), end)
  {
    CalmGestureMatches(start, before, pressed, released, clicked);
    TargetComesFromBeforeTheGesture(before, released, clicked);
    KeptExpansion(start, before);
  }

  /**
   * Click, flagged press, flagged release; the window may be disturbed at any point in
   * between. In a calm window every group ends collapsed exactly when all were expanded.
   */
  method DoubleClick(w: Window, gesture: GestureState, clicked: GroupId, at: int, press: int, release: int, maxAge: int)
    requires gesture.Valid() && !w.passRunning
    modifies w, gesture
    ensures gesture.Valid() && !w.passRunning
    ensures w.calm && old(w.groups).Some? && Proper(old(w.groups).value)
            && clicked in Ids(old(w.groups).value) && press - at <= maxAge ==>
              w.groups.Some? && Uniform(old(w.groups).value, AllExpanded(old(w.groups).value), w.groups.value)
  {
    ghost var calm := w.calm && w.groups.Some? && Proper(w.groups.value) && clicked in Ids(w.groups.value);
    ghost var start := w.groups;
    gesture.OnLeftPress(false, at, maxAge, w.groups);
    w.Disturb();
    ghost var before := w.groups;
    LeftRelease(w, gesture, clicked, false, at);
    ghost var toggled := w.groups;
    w.Disturb();
    ghost var pressed := w.groups;
    if calm {
      FlipStates(before.value, clicked);
      KeptTwice(Flip(before.value, clicked), toggled.value, pressed.value);
    }
    gesture.OnLeftPress(true, press, maxAge, w.groups);
    w.Disturb();
    ghost var released := w.groups;
    if calm {
      CalmGestureMatches(start.value, before.value, pressed.value, released.value, clicked);
    }
    LeftRelease(w, gesture, clicked, true, release);
    if calm && press - at <= maxAge {
      CalmGestureEnds(start.value, before.value, pressed.value, released.value, clicked, w.groups.value);
    }
  }

  lemma UniformOpposite(start: Snapshot, target: bool, now: Snapshot)
    requires Uniform(start, target, now) && start != []
    ensures AllExpanded(now) == !target
  {
    assert start[0].id in Ids(now);
  }

  /** In a calm window a second double click flips the uniform state the first one left. */
  method DoubleClickTwice(w: Window, gesture: GestureState, clicked: GroupId, maxAge: int,
                          at: int, press: int, release: int, at2: int, press2: int, release2: int)
    requires gesture.Valid() && !w.passRunning && w.calm && w.groups.Some? && Proper(w.groups.value)
    requires clicked in Ids(w.groups.value) && press - at <= maxAge && press2 - at2 <= maxAge
    modifies w, gesture
    ensures w.groups.Some? && Uniform(old(w.groups).value, !AllExpanded(old(w.groups).value), w.groups.value)
  {
    ghost var groups := w.groups.value;
    DoubleClick(w, gesture, clicked, at, press, release, maxAge);
    UniformOpposite(groups, AllExpanded(groups), w.groups.value);
    ghost var between := w.groups.value;
    w.Disturb();
    KeptExpansion(between, w.groups.value);
    DoubleClick(w, gesture, clicked, at2, press2, release2, maxAge);
  }
}
