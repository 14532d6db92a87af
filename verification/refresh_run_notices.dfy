/** When a refresh run tells its scheduler that an item has settled, read off the observations of the
    run alone: the first stop after the load's own navigation has started. */
module RefreshRunNotices {
  import opened Common
  import opened SettleGate
  import opened RefreshRun

  // ---- The reading ----

  /** The load whose tab is being watched: the item, what the call dispatched, the id it returned, and
      the observations since. */
  datatype Watch = Watch(index: nat, during: seq<NavEvent>, id: int, post: seq<NavEvent>)

  /** The latest dequeue, if it loaded and nothing has stopped the observation since. */
  function Watched(events: seq<RunEvent>): Option<Watch> {
    if events == [] then None
    else match Last(events)
      case Dequeue(index, Load(during, Some(id))) => Some(Watch(index, during, id, []))
      case Dequeue(_, _) => None
      case StopObserving => None
      case Nav(e) =>
        match Watched(Init(events))
        case None => None
        case Some(w) => Some(w.(post := w.post + [e]))
  }

  /** The last primary start dispatched inside the call carried `id`. */
  predicate LastInside(during: seq<NavEvent>, id: int) {
    exists j :: 0 <= j < |during| && during[j] == DidStart(true, id) &&
      forall k :: j < k < |during| ==> !PrimaryStart(during[k])
  }

  predicate PrimaryStart(e: NavEvent) {
    e.DidStart? && e.primary
  }

  /** A stop found the issued handle gone. */
  predicate Discarded(post: seq<NavEvent>) {
    exists h, k :: 0 <= h < k < |post| && post[h].HandleGone? && post[k].DidStop?
  }

  /** A primary start carried the issued id, before a stop found the handle gone. */
  predicate StartedSince(post: seq<NavEvent>, id: int) {
    exists s :: 0 <= s < |post| && post[s] == DidStart(true, id) && !Discarded(post[..s])
  }

  predicate LoadStarted(w: Watch) {
    w.id != 0 && (LastInside(w.during, w.id) || StartedSince(w.post, w.id))
  }

  /** An earlier stop already found the load started. */
  predicate AlreadySettled(w: Watch) {
    exists k :: 0 <= k < |w.post| && w.post[k].DidStop? && LoadStarted(w.(post := w.post[..k]))
  }

  /** Does this event, after these, report an item? */
  predicate Reports(events: seq<RunEvent>, e: RunEvent) {
    e == Nav(DidStop) && Watched(events).Some? &&
    LoadStarted(Watched(events).value) && !AlreadySettled(Watched(events).value)
  }

  /** The items a run reports, in order. */
  function Reported(events: seq<RunEvent>): seq<nat> {
    if events == [] then []
    else Reported(Init(events)) +
         (if Reports(Init(events), Last(events)) then [Watched(Init(events)).value.index] else [])
  }

  // ---- One observation further ----

  lemma LastInsideSnoc(during: seq<NavEvent>, e: NavEvent, id: int)
    ensures LastInside(during + [e], id) <==>
      if PrimaryStart(e) then e.id == id else LastInside(during, id)
  {
    var d := during + [e];
    assert d[|during|] == e && forall k :: 0 <= k < |during| ==> d[k] == during[k];
    if LastInside(d, id) {
      var j :| 0 <= j < |d| && d[j] == DidStart(true, id) && forall k :: j < k < |d| ==> !PrimaryStart(d[k]);
      assert j < |during| ==> !PrimaryStart(d[|during|]);
    }
    if !PrimaryStart(e) && LastInside(during, id) {
      var j :| 0 <= j < |during| && during[j] == DidStart(true, id) &&
        forall k :: j < k < |during| ==> !PrimaryStart(during[k]);
      assert forall k :: j < k < |d| ==> !PrimaryStart(d[k]);
    }
  }

  lemma DiscardedSnoc(post: seq<NavEvent>, e: NavEvent)
    ensures Discarded(post + [e]) <==> Discarded(post) || (e.DidStop? && HandleGone in post)
  {
    var p := post + [e];
    assert p[|post|] == e && forall k :: 0 <= k < |post| ==> p[k] == post[k];
    if e.DidStop? && HandleGone in post {
      var h :| 0 <= h < |post| && post[h] == HandleGone;
      assert p[h].HandleGone? && p[|post|].DidStop?;
    }
    if Discarded(post) {
      var h, k :| 0 <= h < k < |post| && post[h].HandleGone? && post[k].DidStop?;
      assert p[h].HandleGone? && p[k].DidStop?;
    }
  }

  lemma StartedSnoc(post: seq<NavEvent>, e: NavEvent, id: int)
    ensures StartedSince(post + [e], id) <==>
      StartedSince(post, id) || (e == DidStart(true, id) && !Discarded(post))
  {
    var p := post + [e];
    assert p[..|post|] == post && p[|post|] == e;
    assert forall s :: 0 <= s < |post| ==> p[..s] == post[..s] && p[s] == post[s];
    if StartedSince(post, id) {
      var s :| 0 <= s < |post| && post[s] == DidStart(true, id) && !Discarded(post[..s]);
      assert p[s] == DidStart(true, id) && !Discarded(p[..s]);
    }
    if e == DidStart(true, id) && !Discarded(post) {
      assert p[|post|] == DidStart(true, id) && !Discarded(p[..|post|]);
    }
  }

  lemma LoadStartedSnoc(w: Watch, e: NavEvent)
    ensures LoadStarted(w.(post := w.post + [e])) <==>
      LoadStarted(w) || (w.id != 0 && e == DidStart(true, w.id) && !Discarded(w.post))
  {
    StartedSnoc(w.post, e, w.id);
  }

  lemma SettledSnoc(w: Watch, e: NavEvent)
    ensures AlreadySettled(w.(post := w.post + [e])) <==> AlreadySettled(w) || (e.DidStop? && LoadStarted(w))
  {
    var p := w.post + [e];
    assert p[..|w.post|] == w.post && p[|w.post|] == e;
    assert forall k :: 0 <= k < |w.post| ==> p[..k] == w.post[..k] && p[k] == w.post[k];
    var v := w.(post := p);
    if AlreadySettled(w) {
      var k :| 0 <= k < |w.post| && w.post[k].DidStop? && LoadStarted(w.(post := w.post[..k]));
      assert v.post[k].DidStop? && v.(post := p[..k]) == w.(post := w.post[..k]);
    }
    if e.DidStop? && LoadStarted(w) {
      assert v.post[|w.post|].DidStop? && v.(post := p[..|w.post|]) == w;
    }
    if AlreadySettled(v) {
      var k :| 0 <= k < |p| && p[k].DidStop? && LoadStarted(v.(post := p[..k]));
      if k < |w.post| {
        assert w.(post := w.post[..k]) == v.(post := p[..k]);
      } else {
        assert v.(post := p[..k]) == w;
      }
    }
  }

  // ---- The run's state, read off its events ----

  /** Inside the load call for item `index`, after `during`. */
  ghost predicate InsideIs(r: RunState, s: RunState, index: nat, during: seq<NavEvent>) {
    && s.observing && !s.hasHandle && s.current == index
    && s.gate.inCall && !s.gate.started && s.gate.navigation == 0
    && (forall id :: id != 0 ==> (s.gate.buffered == id <==> LastInside(during, id)))
    && |s.attempts| == |r.attempts| + 1
    && s.notices == r.notices && s.notified == r.notified
  }

  lemma {:induction false} InsideFollows(r: RunState, index: nat, during: seq<NavEvent>)
    ensures InsideIs(r, ObservedAll(Loading(r, index), during), index, during)
  {
    if during != [] {
      InsideFollows(r, index, Init(during));
      assert during == Init(during) + [Last(during)];
      forall id ensures LastInside(during, id) <==>
        if PrimaryStart(Last(during)) then Last(during).id == id else LastInside(Init(during), id)
      {
        LastInsideSnoc(Init(during), Last(during), id);
      }
    }
  }

  /** A watched load that no stop has settled yet. */
  predicate WatchIs(r: RunState, w: Watch) {
    && r.observing && r.current == w.index && r.attempts != []
    && (r.hasHandle <==> HandleGone !in w.post)
    && !r.gate.inCall
    && (r.gate.started <==> LoadStarted(w))
    && (!r.gate.started ==> r.gate.navigation == if Discarded(w.post) then 0 else w.id)
  }

  predicate Follows(r: RunState, w: Option<Watch>) {
    match w
    case None => !r.observing
    case Some(v) => if AlreadySettled(v) then !r.observing else WatchIs(r, v)
  }

  lemma LoadFollows(r: RunState, index: nat, during: seq<NavEvent>, id: Option<int>)
    ensures var t := StartedItem(r, index, Load(during, id)).0;
      && t.notices == r.notices && t.notified == r.notified && |t.attempts| == |r.attempts| + 1
      && (if id.None? then !t.observing else WatchIs(t, Watch(index, during, id.value, [])))
  {
    InsideFollows(r, index, during);
  }

  lemma WatchSnoc(r: RunState, w: Watch, e: NavEvent)
    requires WatchIs(r, w) && !(e.DidStop? && LoadStarted(w))
    ensures WatchIs(Observed(r, e), w.(post := w.post + [e]))
    ensures Observed(r, e).notices == r.notices && Observed(r, e).notified == r.notified
  {
    DiscardedSnoc(w.post, e);
    LoadStartedSnoc(w, e);
  }

  lemma NavFollows(r: RunState, w: Watch, e: NavEvent)
    requires Follows(r, Some(w))
    ensures Follows(Observed(r, e), Some(w.(post := w.post + [e])))
    ensures var t := Observed(r, e);
      if e.DidStop? && LoadStarted(w) && !AlreadySettled(w)
      then r.attempts != [] && t.notices == r.notices + [|r.attempts| - 1] && t.notified == r.notified + [w.index]
      else t.notices == r.notices && t.notified == r.notified
  {
    SettledSnoc(w, e);
    if !AlreadySettled(w) && !(e.DidStop? && LoadStarted(w)) {
      WatchSnoc(r, w, e);
    }
  }

  lemma {:induction false} RunFollows(events: seq<RunEvent>)
    ensures Follows(Run(NEW_RUN, events), Watched(events))
  {
    if events != [] {
      RunFollows(Init(events));
      StepFollows(Run(NEW_RUN, Init(events)), Init(events), Last(events));
      assert Init(events) + [Last(events)] == events;
    }
  }

  lemma StepFollows(r: RunState, events: seq<RunEvent>, e: RunEvent)
    requires Follows(r, Watched(events))
    ensures Follows(Step(r, e), Watched(events + [e]))
    ensures var t := Step(r, e);
      if Reports(events, e)
      then && r.attempts != [] && t.notices == r.notices + [|r.attempts| - 1]
           && t.notified == r.notified + [Watched(events).value.index]
      else t.notices == r.notices && t.notified == r.notified
  {
    assert Init(events + [e]) == events;
    match e
    case Dequeue(index, Load(during, id)) => LoadFollows(r, index, during, id);
    case Nav(n) =>
      if Watched(events).Some? {
        NavFollows(r, Watched(events).value, n);
      }
    case _ =>
  }

  /**
   * Exactly when a settle is reported. In every run, an event reports an item if and only if
   * it is a stop, the tab of a load is being watched, that load's own navigation has started,
   * and no earlier stop has settled it; it then reports that load and its item, once. Nothing
   * else ever adds a report.
   */
  lemma ReportedExactlyWhenSettled(events: seq<RunEvent>, e: RunEvent)
    ensures var (r, t) := (Run(NEW_RUN, events), Run(NEW_RUN, events + [e]));
      if Reports(events, e)
      then && r.attempts != [] && t.notices == r.notices + [|r.attempts| - 1]
           && t.notified == r.notified + [Watched(events).value.index]
      else t.notices == r.notices && t.notified == r.notified
  {
    RunFollows(events);
    StepFollows(Run(NEW_RUN, events), events, e);
    assert Init(events + [e]) == events;
  }

  /** What the scheduler hears over a whole run. */
  lemma {:induction false} SchedulerHears(events: seq<RunEvent>)
    ensures Run(NEW_RUN, events).notified == Reported(events)
  {
    if events != [] {
      SchedulerHears(Init(events));
      ReportedExactlyWhenSettled(Init(events), Last(events));
      assert Init(events) + [Last(events)] == events;
    }
  }

  /** StartItem answers that a load began exactly when the call returned a navigation; every call makes
      one attempt, and a dequeue by itself reports nothing. */
  lemma BeganIffNavigating(r: RunState, index: nat, outcome: Outcome)
    ensures var (t, began) := StartedItem(r, index, outcome);
      && (began <==> outcome.Load? && outcome.id.Some?)
      && |t.attempts| == |r.attempts| + (if outcome.Load? then 1 else 0)
      && (outcome.Load? ==> Last(t.attempts).index == index)
      && (began ==> Last(t.attempts).id == outcome.id.value)
      && t.notified == r.notified
  {
    if outcome.Load? {
      InsideFollows(r, index, outcome.during);
      ObservingAllKeepsItems(Loading(r, index), outcome.during);
    }
  }
}
