/** One gesture, one commit; and what a whole gesture does to the most-recently-used order. */
module TabVisitGestures {
  import opened Common
  import opened Mru
  import opened TraversalController
  import opened JournalService
  import opened TraversalCoordinator
  import opened TabVisitSystem

  /** The uids of every visit posted to the journal so far. */
  function Journaled(s: System): seq<Uid> {
    AppendedUids(s.posted, |s.posted|)
  }

  lemma {:induction false} JournaledConcat(posted: seq<Task>, tasks: seq<Task>)
    ensures AppendedUids(posted + tasks, |posted + tasks|)
         == AppendedUids(posted, |posted|) + AppendedUids(tasks, |tasks|)
  {
    if tasks == [] {
      assert posted + tasks == posted;
    } else {
      JournaledConcat(posted, Init(tasks));
      assert posted + tasks == posted + Init(tasks) + [Last(tasks)];
      assert tasks == Init(tasks) + [Last(tasks)];
      PrefixCounts(posted + Init(tasks), [Last(tasks)], |posted + Init(tasks)|);
      PrefixCounts(Init(tasks), [Last(tasks)], |Init(tasks)|);
    }
  }

  lemma {:induction false} NothingJournaled(tasks: seq<Task>)
    requires forall i :: 0 <= i < |tasks| ==> !tasks[i].AppendTask?
    ensures AppendedUids(tasks, |tasks|) == []
  {
    if tasks != [] {
      assert tasks == Init(tasks) + [Last(tasks)];
      PrefixCounts(Init(tasks), [Last(tasks)], |Init(tasks)|);
      NothingJournaled(Init(tasks));
    }
  }

  predicate Ends(e: Event) {
    e.SettleNow? || e.CancelNow? || e.ClearData?
  }

  /** Any other event keeps the gesture in flight, its anchor, and the journal; only the startup
      merge touches the log. */
  ghost predicate Quiet(c: Coord, e: Event, f: Effect) {
    && f.c.active && f.c.anchor == c.anchor && (!e.LandJournal? ==> f.c.log == c.log)
    && forall i :: 0 <= i < |f.tasks| ==> !f.tasks[i].AppendTask?
  }

  lemma StepIsQuiet(c: Coord, forward: bool, v: View, e: Event)
    requires c.walk.Valid() && c.active
    ensures Quiet(c, e, Stepped(Begun(c, v), forward, v))
  {
  }

  lemma OtherEventsAreQuiet(s: System, e: Event)
    requires ClearInv(s) && GestureInv(s.c) && s.c.active && !Ends(e)
    ensures Quiet(s.c, e, UiEffect(s, e))
  {
    match e
    case BackCommand(v) => StepIsQuiet(s.c, false, v, e);
    case ForwardCommand(v) => StepIsQuiet(s.c, true, v, e);
    case StripChange(ev) =>
      if ev.change == Removed {
        ClosesBenign(s.c, ev.removed, Executed(s), s.survivors);
      }
    case _ =>
  }

  /** Whatever happens inside a gesture, the anchor stays the tail of the log, the debounce stays
      armed, nothing is journaled, and only the startup merge can touch the log. */
  lemma InsideAGesture(s: System, e: Event)
    requires ClearInv(s) && GestureInv(s.c) && s.c.active && !Ends(e)
    ensures var t := Step(s, e);
      && t.c.active && t.c.anchor == s.c.anchor
      && t.c.log != [] && Last(t.c.log) == s.c.anchor && t.c.debounceArmed
      && (!e.LandJournal? ==> t.c.log == s.c.log)
    ensures Journaled(Step(s, e)) == Journaled(s)
  {
    StepKeepsInv(s, e);
    OtherEventsAreQuiet(s, e);
    NothingJournaledInside(s, e);
  }

  lemma NothingJournaledInside(s: System, e: Event)
    requires s.done <= |s.posted| && s.c.walk.Valid() && Quiet(s.c, e, UiEffect(s, e))
    ensures Journaled(Step(s, e)) == Journaled(s)
  {
    var tasks := UiEffect(s, e).tasks;
    NothingJournaled(tasks);
    JournaledConcat(s.posted, tasks);
  }

  lemma EndsAreTheEnds(s: System, e: Event)
    requires ClearInv(s) && GestureInv(s.c) && s.c.active
    ensures Step(s, e).c.active <==> !Ends(e)
  {
    if !Ends(e) {
      InsideAGesture(s, e);
    } else if e.SettleNow? {
      SettleBenign(s.c, e.v, Executed(s), s.survivors);
    }
  }

  /** The tab a settle would commit. */
  function LandingOf(c: Coord, v: View): Uid
    requires c.walk.Valid() && Commits(c, v)
  {
    Current(c.walk).value
  }

  /** Ending a gesture appends one log entry exactly when the settle lands off the anchor and the
      landing resolves, and then at most one journal row, for that uid; nothing else ever appends. */
  lemma EndingAGesture(s: System, e: Event)
    requires ClearInv(s) && GestureInv(s.c) && s.c.active && Ends(e)
    ensures var t := Step(s, e);
      if e.SettleNow? && Commits(s.c, e.v) then
        && t.c.log == s.c.log + [LandingOf(s.c, e.v)]
        && (Journaled(t) == Journaled(s) || Journaled(t) == Journaled(s) + [LandingOf(s.c, e.v)])
      else t.c.log == s.c.log && Journaled(t) == Journaled(s)
  {
    var tasks := UiEffect(s, e).tasks;
    JournaledConcat(s.posted, tasks);
    if e.SettleNow? {
      SettleTasks(s.c, e.v);
    } else {
      NothingJournaled(tasks);
    }
  }

  lemma SettleTasks(c: Coord, v: View)
    requires GestureInv(c) && c.active
    ensures var f := SettleEffect(c, v);
      if Commits(c, v) then
        && f.c.log == c.log + [LandingOf(c, v)]
        && (AppendedUids(f.tasks, |f.tasks|) == [] || AppendedUids(f.tasks, |f.tasks|) == [LandingOf(c, v)])
      else f.c.log == c.log && AppendedUids(f.tasks, |f.tasks|) == []
  {
    var landing := Current(c.walk);
    if landing.Some? && landing.value != c.anchor {
      CommitTasks(c.(debounceArmed := false, walk := IDLE), landing.value, v);
    }
  }

  lemma CommitTasks(c: Coord, uid: Uid, v: View)
    requires c.log != [] && Last(c.log) != uid
    ensures var (f, resolved) := (Committed(c, uid, v), Resolve(c, uid, v).1);
      var visits := AppendedUids(f.tasks, |f.tasks|);
      if resolved then f.c.log == c.log + [uid] && (visits == [] || visits == [uid])
      else f.c.log == c.log && visits == []
  {
    var (r, resolved) := Resolve(c, uid, v);
    var f := Committed(c, uid, v);
    NothingJournaled(r.tasks);
    if resolved {
      var tail := f.tasks[|r.tasks|..];
      assert f.tasks == r.tasks + tail;
      JournaledConcat(r.tasks, tail);
      assert tail != [] ==> AppendedUids(tail, 1) == AppendedUids(tail, 0) + [uid];
    }
  }

  lemma RunsSnoc(s: System, events: seq<Event>, e: Event)
    requires ClearInv(s) && GestureInv(s.c)
    ensures Runs(s, events + [e]) == Step(Runs(s, events), e)
  {
    assert Init(events + [e]) == events;
  }

  predicate NoMerge(events: seq<Event>) {
    forall i :: 0 <= i < |events| ==> !events[i].LandJournal?
  }

  /** One commit per gesture, over any run: from any reachable state inside a gesture, through any
      interleaving of other events, to the event that ends it. */
  lemma GestureCommitsOnce(s: System, events: seq<Event>, end: Event)
    requires ClearInv(s) && GestureInv(s.c) && s.c.active && Ends(end)
    requires forall i :: 0 <= i < |events| ==> !Ends(events[i])
    ensures var (t, u) := (Runs(s, events), Runs(s, events + [end]));
      && t.c.active && t.c.anchor == s.c.anchor && (NoMerge(events) ==> t.c.log == s.c.log)
      && !u.c.active
      && (if end.SettleNow? && Commits(t.c, end.v)
          then u.c.log == t.c.log + [LandingOf(t.c, end.v)]
            && (Journaled(u) == Journaled(s) || Journaled(u) == Journaled(s) + [LandingOf(t.c, end.v)])
          else u.c.log == t.c.log && Journaled(u) == Journaled(s))
  {
    QuietUntilTheEnd(s, events);
    RunsSnoc(s, events, end);
    EndingAGesture(Runs(s, events), end);
    EndsAreTheEnds(Runs(s, events), end);
  }

  lemma {:induction false} QuietUntilTheEnd(s: System, events: seq<Event>)
    requires ClearInv(s) && GestureInv(s.c) && s.c.active
    requires forall i :: 0 <= i < |events| ==> !Ends(events[i])
    ensures Runs(s, events).c.active && Runs(s, events).c.anchor == s.c.anchor
    ensures Journaled(Runs(s, events)) == Journaled(s)
    ensures NoMerge(events) ==> Runs(s, events).c.log == s.c.log
    decreases |events|
  {
    if events != [] {
      var before, e := Init(events), Last(events);
      QuietUntilTheEnd(s, before);
      var t := Runs(s, before);
      assert Runs(s, events) == Step(t, e);
      InsideAGesture(t, e);
      if NoMerge(events) {
        assert NoMerge(before) && !e.LandJournal?;
      }
    }
  }

  // ---- A gesture against the move-to-front list ----

  /** The reachable tabs older than the tail, most recent first. */
  function OlderReachable(c: Coord, v: View): seq<Uid> {
    var order := MruOf(c.log);
    var stops := Stops(Landability(order, Reachable(c, v)), 0);
    seq(|stops|, i requires 0 <= i < |stops| => order[stops[i]])
  }

  /** What Back can reach: every visited tab but the current one that is live, or, when reopening is on,
      closed and still known. */
  lemma OlderReachableAre(c: Coord, v: View)
    ensures forall u :: u in OlderReachable(c, v) <==>
      && u in c.log && u != Last(c.log)
      && ((u in v.live && u != "") || (v.reopenClosed && u in c.reopenable))
  {
    MruIsASet(c.log);
    var order := MruOf(c.log);
    var l := Landability(order, Reachable(c, v));
    var stops, older := Stops(l, 0), OlderReachable(c, v);
    StopsAreTheLandables(l, 0);
    forall u | u in older ensures u in c.log && u != Last(c.log) && u in Reachable(c, v) {
      var i :| 0 <= i < |older| && older[i] == u;
      assert stops[i] in stops && order[0] != order[stops[i]];
    }
    forall u | u in c.log && u != Last(c.log) && u in Reachable(c, v) ensures u in older {
      var k :| 0 <= k < |order| && order[k] == u;
      assert l[k] && k in stops;
      var i :| 0 <= i < |stops| && stops[i] == k;
      assert older[i] == u;
    }
  }

  /** And it reaches them most recently visited first. */
  lemma OlderReachableInOrder(c: Coord, v: View, i: nat, j: nat)
    requires i < j < |OlderReachable(c, v)|
    ensures var (a, b) := (OlderReachable(c, v)[i], OlderReachable(c, v)[j]);
      a in c.log && b in c.log && LastVisit(c.log, a) > LastVisit(c.log, b)
  {
    var l := Landability(MruOf(c.log), Reachable(c, v));
    StopsAreTheLandables(l, 0);
    MruOrderedByLastVisit(c.log, Stops(l, 0)[i], Stops(l, 0)[j]);
  }

  /** What one event does to the frozen walk: only the two commands move the cursor. */
  function Moved(w: Walk, e: Event): (r: Walk)
    requires w.Valid()
    ensures r.Valid()
  {
    match e
    case BackCommand(_) => Back(w).0
    case ForwardCommand(_) => Forward(w).0
    case _ => w
  }

  function WalkThrough(w: Walk, events: seq<Event>): (r: Walk)
    requires w.Valid()
    ensures r.Valid()
    decreases |events|
  {
    if events == [] then w else Moved(WalkThrough(w, Init(events)), Last(events))
  }

  /** A lookup leaves everything but the reopening state alone. */
  lemma ResolveKeeps(c: Coord, uid: Uid, v: View)
    ensures var d := Resolve(c, uid, v).0.c;
      d == c.(reopenable := d.reopenable, tombstones := d.tombstones, reopenedUrls := d.reopenedUrls)
  {
  }

  lemma SteppedWalks(c: Coord, forward: bool, v: View)
    requires c.walk.Valid()
    ensures Stepped(c, forward, v).c.walk == if forward then Forward(c.walk).0 else Back(c.walk).0
  {
    var (w, uid) := if forward then Forward(c.walk) else Back(c.walk);
    if uid.Some? {
      ResolveKeeps(c.(walk := w), uid.value, v);
    }
  }

  /** Closes, reopens, replies, store tasks and the startup merge leave the frozen walk alone. */
  lemma EventWalks(s: System, e: Event)
    requires ClearInv(s) && GestureInv(s.c) && s.c.active && !Ends(e)
    ensures Step(s, e).c.walk == Moved(s.c.walk, e)
  {
    match e
    case BackCommand(v) => SteppedWalks(s.c, false, v);
    case ForwardCommand(v) => SteppedWalks(s.c, true, v);
    case StripChange(ev) =>
      if ev.change == Removed {
        ClosesBenign(s.c, ev.removed, Executed(s), s.survivors);
      }
    case _ =>
  }

  lemma {:induction false} GestureWalks(s: System, events: seq<Event>)
    requires ClearInv(s) && GestureInv(s.c) && s.c.active
    requires forall i :: 0 <= i < |events| ==> !Ends(events[i])
    ensures Runs(s, events).c.walk == WalkThrough(s.c.walk, events)
    decreases |events|
  {
    if events != [] {
      GestureWalks(s, Init(events));
      QuietUntilTheEnd(s, Init(events));
      EventWalks(Runs(s, Init(events)), Last(events));
    }
  }

  function Backs(events: seq<Event>): nat {
    if events == [] then 0 else Backs(Init(events)) + if Last(events).BackCommand? then 1 else 0
  }

  predicate NoForward(events: seq<Event>) {
    forall i :: 0 <= i < |events| ==> !events[i].ForwardCommand?
  }

  lemma {:induction false} OnlyBacks(w: Walk, events: seq<Event>)
    requires w.Valid() && NoForward(events)
    ensures WalkThrough(w, events) == BackTimes(w, Backs(events))
    decreases |events|
  {
    if events != [] {
      OnlyBacks(w, Init(events));
    }
  }

  /** Events that neither end a gesture nor step it forward. */
  predicate Backward(events: seq<Event>) {
    NoForward(events) && forall i :: 0 <= i < |events| ==> !Ends(events[i])
  }

  /** The walk a gesture begun now would freeze. */
  function FrozenWalk(c: Coord, v: View): (w: Walk)
    ensures w.Valid()
  {
    Walk(MruOf(c.log), Landability(MruOf(c.log), Reachable(c, v)), 0, true)
  }

  /** The n-th reachable older tab, or the last one for larger n. */
  function NthOlder(c: Coord, v: View, n: nat): Uid
    requires OlderReachable(c, v) != [] && n >= 1
  {
    var older := OlderReachable(c, v);
    older[if n <= |older| then n - 1 else |older| - 1]
  }

  /** The first Back opens the gesture, anchored at the tail, with one step of the walk taken. */
  lemma OpeningBack(s: System, v: View)
    requires ClearInv(s) && GestureInv(s.c) && !s.c.active && OlderReachable(s.c, v) != []
    ensures var d := Step(s, BackCommand(v)).c;
      && d.active && s.c.log != [] && d.log == s.c.log && d.anchor == Last(s.c.log)
      && d.walk == Back(FrozenWalk(s.c, v)).0
  {
    var w := FrozenWalk(s.c, v);
    MruIsASet(s.c.log);
    CanBeginMeansBackLands(s.c.walk, s.c.log, Reachable(s.c, v));
    assert NextLandable(w.landable, 0) != -1;
    SteppedWalks(Begun(s.c, v), false, v);
    ResolveKeeps(Begun(s.c, v).(walk := Back(w).0), Back(w).1.value, v);
  }

  lemma OneBack(b: Walk)
    requires b.Valid()
    ensures BackTimes(b, 1) == Back(b).0
  {
    assert BackTimes(b, 0) == b;
  }

  /** Where `n` Backs rest: on the n-th reachable older tab, or on the last one from then on. */
  lemma LandingAfterBacks(c: Coord, v: View, n: nat, w: Walk)
    requires n >= 1 && OlderReachable(c, v) != [] && w == BackTimes(FrozenWalk(c, v), n)
    ensures w.Valid() && Current(w) == Some(NthOlder(c, v, n))
    ensures c.log != [] && NthOlder(c, v, n) != Last(c.log)
  {
    MruIsASet(c.log);
    var b := FrozenWalk(c, v);
    BackVisitsTheStops(b, n);
    var stops := Stops(b.landable, 0);
    StopsAreTheLandables(b.landable, 0);
    var i := if n <= |stops| then n - 1 else |stops| - 1;
    assert stops[i] in stops;
    assert NthOlder(c, v, n) == b.order[stops[i]] && b.order[0] == Last(c.log);
  }

  /** The state in which a gesture that opened with a Back stands after `events`. */
  function InGesture(s: System, v: View, events: seq<Event>): (t: System)
    requires ClearInv(s) && GestureInv(s.c)
    ensures ClearInv(t) && GestureInv(t.c)
  {
    StepKeepsInv(s, BackCommand(v));
    Runs(Step(s, BackCommand(v)), events)
  }

  lemma BacksAfterBacks(b: Walk, m: nat, w: Walk, events: seq<Event>, n: nat)
    requires b.Valid() && w == BackTimes(b, m) && NoForward(events) && n == m + Backs(events)
    ensures w.Valid() && WalkThrough(w, events) == BackTimes(b, n)
  {
    OnlyBacks(w, events);
    BackTimesAdd(b, m, Backs(events));
  }

  lemma MoreBacks(first: System, b: Walk, m: nat, events: seq<Event>, n: nat)
    requires ClearInv(first) && GestureInv(first.c) && first.c.active && Backward(events)
    requires b.Valid() && first.c.walk == BackTimes(b, m) && n == m + Backs(events)
    ensures Runs(first, events).c.walk == BackTimes(b, n)
  {
    GestureWalks(first, events);
    BacksAfterBacks(b, m, first.c.walk, events, n);
  }

  /** A gesture opens with a Back that lands, and goes on without a step forward. */
  ghost predicate BackGesture(s: System, v: View, events: seq<Event>) {
    ClearInv(s) && GestureInv(s.c) && !s.c.active && OlderReachable(s.c, v) != [] && Backward(events)
  }

  /** The walk of a whole gesture of Backs, whatever closes, reopens, replies or loads come between. */
  lemma BacksOnTheWalk(s: System, v: View, events: seq<Event>, b: Walk, n: nat) returns (w: Walk)
    requires BackGesture(s, v, events) && b == FrozenWalk(s.c, v) && n == 1 + Backs(events)
    ensures w == InGesture(s, v, events).c.walk && w == BackTimes(b, n)
  {
    var first := Step(s, BackCommand(v));
    StepKeepsInv(s, BackCommand(v));
    OpeningBack(s, v);
    OneBack(b);
    MoreBacks(first, b, 1, events, n);
    w := Runs(first, events).c.walk;
  }

  /** Meanwhile the gesture stays open on its anchor, the tail. */
  lemma StaysOnItsAnchor(s: System, v: View, events: seq<Event>)
    requires BackGesture(s, v, events)
    ensures var t := InGesture(s, v, events);
      && t.c.active && s.c.log != [] && t.c.anchor == Last(s.c.log)
      && t.c.log != [] && Last(t.c.log) == t.c.anchor && (NoMerge(events) ==> t.c.log == s.c.log)
  {
    StepKeepsInv(s, BackCommand(v));
    OpeningBack(s, v);
    QuietUntilTheEnd(Step(s, BackCommand(v)), events);
  }

  lemma BacksLand(s: System, v: View, events: seq<Event>, n: nat)
    requires BackGesture(s, v, events) && n == 1 + Backs(events)
    ensures s.c.log != [] && NthOlder(s.c, v, n) != Last(s.c.log)
    ensures Current(InGesture(s, v, events).c.walk) == Some(NthOlder(s.c, v, n))
  {
    var w := BacksOnTheWalk(s, v, events, FrozenWalk(s.c, v), n);
    LandingAfterBacks(s.c, v, n, w);
  }

  /** Does the landing resolve to a tab at the settle, live or by reopening it? */
  predicate Resolves(c: Coord, w: View)
    requires c.walk.Valid()
  {
    Current(c.walk).Some? && Resolve(c.(debounceArmed := false, walk := IDLE), Current(c.walk).value, w).1
  }

  lemma SettleFromGesture(t: System, uid: Uid, w: View)
    requires ClearInv(t) && GestureInv(t.c) && t.c.active && Current(t.c.walk) == Some(uid) && uid != t.c.anchor
    ensures var u := Step(t, SettleNow(w));
      && !u.c.active
      && (if Resolves(t.c, w) then u.c.log == t.c.log + [uid] && MruOf(u.c.log) == MoveToFront(MruOf(t.c.log), uid)
          else u.c.log == t.c.log)
  {
    EndingAGesture(t, SettleNow(w));
    EndsAreTheEnds(t, SettleNow(w));
    RecordedMovesToFront(t.c.log, uid);
  }

  /**
   * n Backs and a settle, with anything in between that neither ends the gesture nor
   * steps forward: if the n-th reachable older tab (the last one, for larger n)
   * resolves, it moves to the front; if it does not, the log stays.
   */
  lemma BacksThenSettleMovesToFront(s: System, v: View, events: seq<Event>, n: nat, w: View)
    requires BackGesture(s, v, events) && n == 1 + Backs(events)
    ensures var uid := NthOlder(s.c, v, n);
      var t := InGesture(s, v, events);
      var u := Step(t, SettleNow(w));
      && !u.c.active && (NoMerge(events) ==> t.c.log == s.c.log)
      && (if Resolves(t.c, w) then u.c.log == t.c.log + [uid] && MruOf(u.c.log) == MoveToFront(MruOf(t.c.log), uid)
          else u.c.log == t.c.log)
  {
    BacksLand(s, v, events, n);
    StaysOnItsAnchor(s, v, events);
    SettleFromGesture(InGesture(s, v, events), NthOlder(s.c, v, n), w);
  }

  /** The system after one Back, other events, and a settle. */
  function OneStepGesture(s: System, v: View, events: seq<Event>, w: View): (u: System)
    requires ClearInv(s) && GestureInv(s.c)
    ensures ClearInv(u) && GestureInv(u.c)
  {
    StepKeepsInv(InGesture(s, v, events), SettleNow(w));
    Step(InGesture(s, v, events), SettleNow(w))
  }

  ghost predicate OneBackGesture(s: System, v: View, events: seq<Event>) {
    BackGesture(s, v, events) && Backs(events) == 0
  }

  /** Where a one-step gesture leaves the log, and what the order then starts with. */
  lemma OneStepResult(s: System, v: View, events: seq<Event>, w: View)
    requires OneBackGesture(s, v, events)
    ensures var (t, u) := (InGesture(s, v, events), OneStepGesture(s, v, events, w));
      && s.c.log != [] && t.c.log != [] && Last(t.c.log) == Last(s.c.log) && !u.c.active
      && OlderReachable(s.c, v)[0] != Last(s.c.log)
      && (if Resolves(t.c, w) then
            && u.c.log == t.c.log + [OlderReachable(s.c, v)[0]]
            && |MruOf(u.c.log)| >= 2 && MruOf(u.c.log)[1] == Last(s.c.log)
          else u.c.log == t.c.log)
  {
    BacksThenSettleMovesToFront(s, v, events, 1, w);
    BacksLand(s, v, events, 1);
    StaysOnItsAnchor(s, v, events);
    var t := InGesture(s, v, events);
    MruIsASet(t.c.log);
    SecondInLine(MruOf(t.c.log), OlderReachable(s.c, v)[0]);
  }

  /**
   * After a one-step gesture that landed, in any later state with that log, the
   * starting tab is the first stop of the next gesture exactly when it is reachable.
   */
  lemma StartIsNextInLine(s: System, v: View, events: seq<Event>, w: View, later: Coord, v2: View)
    requires OneBackGesture(s, v, events) && Resolves(InGesture(s, v, events).c, w)
    requires later.log == OneStepGesture(s, v, events, w).c.log
    ensures s.c.log != []
    ensures OlderReachable(later, v2) != [] && OlderReachable(later, v2)[0] == Last(s.c.log)
            <==> Last(s.c.log) in Reachable(later, v2)
  {
    OneStepResult(s, v, events, w);
    FirstStop(later, v2);
  }

  lemma FirstStop(c: Coord, v: View)
    requires |MruOf(c.log)| >= 2
    ensures OlderReachable(c, v) != [] && OlderReachable(c, v)[0] == MruOf(c.log)[1]
            <==> MruOf(c.log)[1] in Reachable(c, v)
  {
    var order := MruOf(c.log);
    var l := Landability(order, Reachable(c, v));
    MruIsASet(c.log);
    StopsAreTheLandables(l, 0);
    var stops := Stops(l, 0);
    if order[1] in Reachable(c, v) {
      assert l[1];
      assert NextLandable(l, 0) == 1;
    }
    if stops != [] {
      assert stops[0] in stops;
    }
  }

  /**
   * Two one-step gestures in a row, with the log untouched and the starting tab
   * reachable when the second one begins: they end on the starting tab exactly when
   * it resolves at the second settle.
   */
  lemma TwoGesturesReturn(s: System, v1: View, events1: seq<Event>, w1: View, later: System,
                          v2: View, events2: seq<Event>, w2: View)
    requires OneBackGesture(s, v1, events1) && Resolves(InGesture(s, v1, events1).c, w1)
    requires ClearInv(later) && GestureInv(later.c) && !later.c.active
    requires later.c.log == OneStepGesture(s, v1, events1, w1).c.log
    requires s.c.log != [] && Last(s.c.log) in Reachable(later.c, v2) && Backward(events2) && Backs(events2) == 0
    ensures var end := OneStepGesture(later, v2, events2, w2);
      end.c.log != [] && (Last(end.c.log) == Last(s.c.log) <==> Resolves(InGesture(later, v2, events2).c, w2))
  {
    StartIsNextInLine(s, v1, events1, w1, later.c, v2);
    OneStepResult(s, v1, events1, w1);
    OneStepResult(later, v2, events2, w2);
  }

  lemma SecondInLine(order: seq<Uid>, u: Uid)
    requires order != [] && order[0] != u
    ensures |MoveToFront(order, u)| >= 2 && MoveToFront(order, u)[1] == order[0]
  {
  }
}
