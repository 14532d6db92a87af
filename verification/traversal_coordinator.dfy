/** The journal service: it turns each request into a task on the store's own sequence. */
module JournalService {
  import opened Common
  import opened Mru
  import opened VisitsStore

  /** History only: whether a visit came from an activation or from a gesture, and how many
      browsing-data clears had been prepared when that gesture began. */
  datatype Origin = Activation | Gesture(begunIn: nat)

  datatype Task =
    | AppendTask(uid: Uid, url: Url, at: Time, origin: Origin)
    | UpsertTask(row: TabStateRow)
    | ClearTask(begin: Option<Time>, end: Option<Time>)
    | ReadVisitsTask
    | ReadStatesTask(generation: nat)

  class SettledVisitJournalService {
    // Every task posted so far, oldest first; the store sequence runs them in this order.
    var posted: seq<Task>

    constructor ()
      ensures posted == []
    {
      posted := [];
    }

    method RecordVisit(uid: Uid, url: Url, now: Time, origin: Origin)
      modifies this
      ensures posted == old(posted) + [AppendTask(uid, url, now, origin)]
    {
      posted := posted + [AppendTask(uid, url, now, origin)];
    }

    method GetVisits()
      modifies this
      ensures posted == old(posted) + [ReadVisitsTask]
    {
      posted := posted + [ReadVisitsTask];
    }

    method ClearBrowsingData(begin: Option<Time>, end: Option<Time>)
      modifies this
      ensures posted == old(posted) + [ClearTask(begin, end)]
    {
      posted := posted + [ClearTask(begin, end)];
    }

    /** `generation` is what the coordinator binds into the reply. */
    method GetAllTabStates(generation: nat)
      modifies this
      ensures posted == old(posted) + [ReadStatesTask(generation)]
    {
      posted := posted + [ReadStatesTask(generation)];
    }

    method SetTabState(row: TabStateRow)
      modifies this
      ensures posted == old(posted) + [UpsertTask(row)]
    {
      posted := posted + [UpsertTask(row)];
    }
  }
}

/** The per-profile owner of the traversal gesture, the in-memory log, the reopenable cache, its
    tombstones and its generation counter, and the bridge that feeds it tab-strip changes. */
module TraversalCoordinator {
  import opened Common
  import opened Mru
  import opened TraversalController
  import opened VisitsStore
  import opened JournalService

  /** The coordinator's value. `begunIn` is a history variable: the generation in which the current
      gesture began. */
  datatype Coord = Coord(
    log: seq<Uid>,
    anchor: Uid,
    active: bool,
    loaded: bool,
    reopenable: map<Uid, TabStateRow>,
    tombstones: set<Uid>,
    generation: nat,
    reopenedUrls: map<Uid, Url>,
    walk: Walk,
    debounceArmed: bool,
    begunIn: nat)

  const FRESH := Coord([], "", false, false, map[], {}, 0, map[], IDLE, false, 0)

  /** What one UI-thread step sees of the world: the live tabs' uids, the reopen preference, whether
      the injected reopen action finds a window and succeeds, whether the uid then resolves to a
      tab, that tab's committed URL, and the clock. */
  datatype View = View(
    live: set<Uid>,
    reopenClosed: bool,
    reopens: bool,
    resolvesAfter: bool,
    committedUrl: Url,
    now: Time)

  datatype Effect = Effect(c: Coord, tasks: seq<Task>)

  function Reachable(c: Coord, v: View): set<Uid> {
    (v.live - {""}) + if v.reopenClosed then c.reopenable.Keys else {}
  }

  function RecordUid(c: Coord, uid: Uid): Coord {
    if uid == "" then c else c.(log := Recorded(c.log, uid))
  }

  // ---- Reopening ----

  predicate CanReopen(c: Coord, uid: Uid, v: View) {
    v.reopenClosed && v.reopens && uid in c.reopenable
  }

  function Reopened(c: Coord, uid: Uid): Effect
    requires uid in c.reopenable
  {
    var row := c.reopenable[uid];
    Effect(
      c.(reopenedUrls := c.reopenedUrls[uid := row.lastKnownUrl],
         reopenable := c.reopenable - {row.restoreKey},
         tombstones := c.tombstones + {row.restoreKey}),
      [UpsertTask(row.(closed := false))])
  }

  /** Find the tab of `uid`, reopening it if it is closed; the flag says whether a tab resolved. */
  function Resolve(c: Coord, uid: Uid, v: View): (Effect, bool) {
    if uid != "" && uid in v.live then (Effect(c, []), true)
    else if CanReopen(c, uid, v) then (Reopened(c, uid), uid != "" && v.resolvesAfter)
    else (Effect(c, []), false)
  }

  // ---- Steps ----

  predicate CanGoBack(c: Coord, v: View)
    requires c.walk.Valid()
  {
    if c.active then Back(c.walk).1.Some? else CanBegin(c.log, Reachable(c, v))
  }

  predicate CanGoForward(c: Coord)
    requires c.walk.Valid()
  {
    c.active && Forward(c.walk).1.Some?
  }

  function Begun(c: Coord, v: View): (r: Coord)
    requires c.walk.Valid()
    ensures r.walk.Valid()
  {
    if c.active then c
    else c.(anchor := if c.log == [] then "" else Last(c.log),
            walk := Begin(c.walk, c.log, Reachable(c, v)),
            active := true,
            begunIn := c.generation)
  }

  function Stepped(c: Coord, forward: bool, v: View): Effect
    requires c.walk.Valid()
  {
    var (w, uid) := if forward then Forward(c.walk) else Back(c.walk);
    var moved := c.(walk := w);
    var e := if uid.Some? then Resolve(moved, uid.value, v).0 else Effect(moved, []);
    Effect(e.c.(debounceArmed := true), e.tasks)
  }

  function StepBackEffect(c: Coord, v: View): Effect
    requires c.walk.Valid()
  {
    if CanGoBack(c, v) then Stepped(Begun(c, v), false, v) else Effect(c, [])
  }

  function StepForwardEffect(c: Coord, v: View): Effect
    requires c.walk.Valid()
  {
    if CanGoForward(c) then Stepped(Begun(c, v), true, v) else Effect(c, [])
  }

  // ---- Ending a gesture ----

  /** The URL a settled visit is recorded under: a fallback reopen has not committed yet, so its
      remembered URL stands in. */
  function VisitUrl(c: Coord, uid: Uid, v: View): Url {
    if !v.committedUrl.recordable && uid in c.reopenedUrls then c.reopenedUrls[uid] else v.committedUrl
  }

  function Committed(c: Coord, uid: Uid, v: View): Effect {
    var (e, resolved) := Resolve(c, uid, v);
    if !resolved then e
    else
      var recorded := RecordUid(e.c, uid);
      var url := VisitUrl(recorded, uid, v);
      Effect(recorded, e.tasks + if url.recordable then [AppendTask(uid, url, v.now, Gesture(c.begunIn))] else [])
  }

  function SettleEffect(c: Coord, v: View): Effect
    requires c.walk.Valid()
  {
    if !c.active then Effect(c, [])
    else
      var landing := Current(c.walk);
      var stopped := c.(debounceArmed := false, walk := IDLE);
      var e := if landing.Some? && landing.value != c.anchor then Committed(stopped, landing.value, v)
               else Effect(stopped, []);
      Effect(e.c.(reopenedUrls := map[], active := false), e.tasks)
  }

  function Cancelled(c: Coord): Coord {
    if c.active then c.(debounceArmed := false, walk := IDLE, reopenedUrls := map[], active := false)
    else c.(debounceArmed := false)
  }

  // ---- The reopenable cache and the journal load ----

  function WithReopenable(c: Coord, row: TabStateRow): Coord {
    if row.restoreKey == "" then c
    else c.(tombstones := c.tombstones - {row.restoreKey}, reopenable := c.reopenable[row.restoreKey := row])
  }

  function Prepared(c: Coord): Coord {
    Cancelled(c).(reopenable := map[], reopenedUrls := map[], generation := c.generation + 1)
  }

  function Emplaced(m: map<Uid, TabStateRow>, tombstones: set<Uid>, row: TabStateRow): map<Uid, TabStateRow> {
    if !row.closed || row.restoreKey == "" || row.restoreKey in tombstones || row.restoreKey in m then m
    else m[row.restoreKey := row]
  }

  function EmplacedAll(m: map<Uid, TabStateRow>, tombstones: set<Uid>, rows: seq<TabStateRow>): map<Uid, TabStateRow> {
    if rows == [] then m else Emplaced(EmplacedAll(m, tombstones, Init(rows)), tombstones, Last(rows))
  }

  function StatesLoaded(c: Coord, generation: nat, rows: seq<TabStateRow>): Coord {
    if generation != c.generation then c
    else c.(reopenable := EmplacedAll(c.reopenable, c.tombstones, rows))
  }

  function JournalLoaded(c: Coord, rows: seq<VisitRow>): Coord {
    c.(log := Coalesced(Without(Uids(rows), {""}) + c.log), loaded := true)
  }

  class TabVisitTraversalCoordinator {
    const controller: TabTraversalController
    const journal: SettledVisitJournalService
    var log: seq<Uid>
    var anchor: Uid
    var active: bool
    var loaded: bool
    var reopenable: map<Uid, TabStateRow>
    var tombstones: set<Uid>
    var generation: nat
    var reopenedUrls: map<Uid, Url>
    var debounceArmed: bool
    var begunIn: nat

    function Value(): Coord
      reads this, controller
    {
      Coord(log, anchor, active, loaded, reopenable, tombstones, generation, reopenedUrls,
            controller.Value(), debounceArmed, begunIn)
    }

    ghost predicate Valid()
      reads this, controller
    {
      controller.Value().Valid()
    }

    constructor (journal: SettledVisitJournalService)
      ensures Valid() && Value() == FRESH && this.journal == journal && fresh(controller)
    {
      controller := new TabTraversalController();
      this.journal := journal;
      log, anchor, active, loaded := [], "", false, false;
      reopenable, tombstones, generation, reopenedUrls := map[], {}, 0, map[];
      debounceArmed, begunIn := false, 0;
    }

    method LoadPersistedJournal()
      modifies journal
      ensures journal.posted == old(journal.posted) + [ReadVisitsTask, ReadStatesTask(generation)]
    {
      journal.GetVisits();
      LoadReopenableFromSidecar();
    }

    method LoadReopenableFromSidecar()
      modifies journal
      ensures journal.posted == old(journal.posted) + [ReadStatesTask(generation)]
    {
      journal.GetAllTabStates(generation);
    }

    /** Persisted history goes under the runtime log; the result never repeats a uid in a row. */
    method OnJournalLoaded(rows: seq<VisitRow>)
      requires Valid()
      modifies this
      ensures Valid() && Value() == JournalLoaded(old(Value()), rows)
    {
      var merged: seq<Uid> := [];
      var i := 0;
      while i < |rows|
        invariant 0 <= i <= |rows|
        invariant merged == Without(Uids(rows)[..i], {""}) && Value() == old(Value())
      {
        SnocWithout(Uids(rows)[..i], rows[i].tabUid);
        assert Uids(rows)[..i + 1] == Uids(rows)[..i] + [rows[i].tabUid];
        if rows[i].tabUid != "" {
          merged := merged + [rows[i].tabUid];
        }
        i := i + 1;
      }
      assert Uids(rows)[..i] == Uids(rows);
      merged := merged + log;
      ghost var all := merged;
      var coalesced: seq<Uid> := [];
      i := 0;
      while i < |merged|
        invariant 0 <= i <= |merged| && merged == all
        invariant coalesced == Coalesced(merged[..i]) && Value() == old(Value())
      {
        assert merged[..i + 1] == merged[..i] + [merged[i]];
        CoalescedSnoc(merged[..i], merged[i]);
        if coalesced == [] || Last(coalesced) != merged[i] {
          coalesced := coalesced + [merged[i]];
        }
        i := i + 1;
      }
      assert merged[..i] == merged;
      log := coalesced;
      loaded := true;
    }

    method RecordSettledUid(uid: Uid)
      requires Valid()
      modifies this`log
      ensures Valid() && Value() == RecordUid(old(Value()), uid)
    {
      if uid == "" || (log != [] && Last(log) == uid) {
        return;
      }
      log := log + [uid];
    }

    method CanGoBackNow(v: View) returns (r: bool)
      requires Valid()
      ensures r == CanGoBack(Value(), v)
    {
      EnabledIffLands(controller.Value());
      if active {
        r := controller.CanGoBack();
      } else {
        r := CanBeginBackTraversal(log, CollectReachableUids(v));
      }
    }

    method CanGoForwardNow() returns (r: bool)
      requires Valid()
      ensures r == CanGoForward(Value())
    {
      EnabledIffLands(controller.Value());
      r := controller.CanGoForward();
      r := active && r;
    }

    function CollectReachableUids(v: View): (r: set<Uid>)
      reads this, controller
      ensures r == Reachable(Value(), v)
    {
      (v.live - {""}) + if v.reopenClosed then reopenable.Keys else {}
    }

    method EnsureGesture(v: View)
      requires Valid()
      modifies this, controller
      ensures Valid() && Value() == Begun(old(Value()), v)
    {
      if active {
        return;
      }
      anchor := if log == [] then "" else Last(log);
      controller.BeginGesture(log, CollectReachableUids(v));
      active := true;
      begunIn := generation;
    }

    /** Reopen a closed tab: rebind its sidecar row and leave a tombstone. */
    method TryReopenClosedUid(uid: Uid, v: View) returns (reopened: bool)
      requires Valid()
      modifies this, journal
      ensures Valid() && reopened == CanReopen(old(Value()), uid, v)
      ensures !reopened ==> Value() == old(Value()) && journal.posted == old(journal.posted)
      ensures reopened ==> var e := Reopened(old(Value()), uid);
        Value() == e.c && journal.posted == old(journal.posted) + e.tasks
    {
      if !v.reopenClosed || !v.reopens || uid !in reopenable {
        return false;
      }
      var row := reopenable[uid];
      reopenedUrls := reopenedUrls[uid := row.lastKnownUrl];
      reopenable := reopenable - {row.restoreKey};
      tombstones := tombstones + {row.restoreKey};
      journal.SetTabState(row.(closed := false));
      return true;
    }

    /** The lookup both a step and a settle use; activating the found tab changes no state here. */
    method ResolveOrReopen(uid: Uid, v: View) returns (resolved: bool)
      requires Valid()
      modifies this, journal
      ensures Valid()
      ensures var (e, ok) := Resolve(old(Value()), uid, v);
        Value() == e.c && journal.posted == old(journal.posted) + e.tasks && resolved == ok
    {
      resolved := uid != "" && uid in v.live;
      if !resolved {
        var reopened := TryReopenClosedUid(uid, v);
        if reopened {
          resolved := uid != "" && v.resolvesAfter;
        }
      }
    }

    method StepAndActivate(forward: bool, v: View)
      requires Valid() && active
      modifies this, controller, journal
      ensures Valid()
      ensures var e := Stepped(old(Value()), forward, v);
        Value() == e.c && journal.posted == old(journal.posted) + e.tasks
    {
      var uid;
      if forward {
        uid := controller.StepForward();
      } else {
        uid := controller.StepBack();
      }
      if uid.Some? {
        var _ := ResolveOrReopen(uid.value, v);
      }
      debounceArmed := true;
    }

    method StepBack(v: View)
      requires Valid()
      modifies this, controller, journal
      ensures Valid()
      ensures var e := StepBackEffect(old(Value()), v);
        Value() == e.c && journal.posted == old(journal.posted) + e.tasks
    {
      var can := CanGoBackNow(v);
      if !can {
        return;
      }
      EnsureGesture(v);
      StepAndActivate(false, v);
    }

    method StepForward(v: View)
      requires Valid()
      modifies this, controller, journal
      ensures Valid()
      ensures var e := StepForwardEffect(old(Value()), v);
        Value() == e.c && journal.posted == old(journal.posted) + e.tasks
    {
      var can := CanGoForwardNow();
      if !can {
        return;
      }
      EnsureGesture(v);
      StepAndActivate(true, v);
    }

    method CommitLanding(uid: Uid, v: View)
      requires Valid()
      modifies this, journal
      ensures Valid()
      ensures var e := Committed(old(Value()), uid, v);
        Value() == e.c && journal.posted == old(journal.posted) + e.tasks
    {
      var resolved := ResolveOrReopen(uid, v);
      if !resolved {
        return;
      }
      RecordSettledUid(uid);
      var url := v.committedUrl;
      if !url.recordable && uid in reopenedUrls {
        url := reopenedUrls[uid];
      }
      assert url == VisitUrl(Value(), uid, v);
      if url.recordable {
        journal.RecordVisit(uid, url, v.now, Gesture(begunIn));
      }
    }

    /** Ends the gesture; suppression is lifted last. The debounce timer fires into this too. */
    method Settle(v: View)
      requires Valid()
      modifies this, controller, journal
      ensures Valid()
      ensures var e := SettleEffect(old(Value()), v);
        Value() == e.c && journal.posted == old(journal.posted) + e.tasks
    {
      if !active {
        return;
      }
      debounceArmed := false;
      var landing := controller.Settle();
      if landing.Some? && landing.value != anchor {
        CommitLanding(landing.value, v);
      }
      reopenedUrls := map[];
      active := false;
    }

    method CancelGesture()
      requires Valid()
      modifies this, controller
      ensures Valid() && Value() == Cancelled(old(Value()))
    {
      debounceArmed := false;
      if active {
        var _ := controller.Settle();
        reopenedUrls := map[];
        active := false;
      }
    }

    method AddReopenable(row: TabStateRow)
      requires Valid()
      modifies this
      ensures Valid() && Value() == WithReopenable(old(Value()), row)
    {
      if row.restoreKey == "" {
        return;
      }
      tombstones := tombstones - {row.restoreKey};
      reopenable := reopenable[row.restoreKey := row];
    }

    method PrepareForBrowsingDataClear()
      requires Valid()
      modifies this, controller
      ensures Valid() && Value() == Prepared(old(Value()))
    {
      CancelGesture();
      reopenable := map[];
      reopenedUrls := map[];
      generation := generation + 1;
    }

    method OnBrowsingDataCleared()
      modifies journal
      ensures journal.posted == old(journal.posted) + [ReadStatesTask(generation)]
    {
      LoadReopenableFromSidecar();
    }

    /** A synchronously added row wins over a loaded one; a tombstoned or open row is skipped. */
    method OnReopenableLoaded(readGeneration: nat, rows: seq<TabStateRow>)
      requires Valid()
      modifies this
      ensures Valid() && Value() == StatesLoaded(old(Value()), readGeneration, rows)
    {
      if readGeneration != generation {
        return;
      }
      var i := 0;
      while i < |rows|
        invariant 0 <= i <= |rows| && Valid()
        invariant Value() == old(Value()).(reopenable := EmplacedAll(old(reopenable), tombstones, rows[..i]))
      {
        assert Init(rows[..i + 1]) == rows[..i];
        var row := rows[i];
        if row.closed && row.restoreKey != "" && row.restoreKey !in tombstones {
          if row.restoreKey !in reopenable {
            reopenable := reopenable[row.restoreKey := row];
          }
        }
        i := i + 1;
      }
      assert rows[..i] == rows;
    }
  }

  lemma SnocWithout(s: seq<Uid>, u: Uid)
    ensures Without(s + [u], {""}) == Without(s, {""}) + (if u == "" then [] else [u])
  {
    WithoutConcat(s, [u], {""});
  }

  // ---- The clear hook ----

  /** Both phases of a browsing-data clear that run on the UI thread before the store does. */
  method ClearJournalForBrowsingData(
    coordinator: TabVisitTraversalCoordinator, begin: Option<Time>, end: Option<Time>)
    requires coordinator.Valid()
    modifies coordinator, coordinator.controller, coordinator.journal
    ensures coordinator.Valid()
    ensures coordinator.Value() == Prepared(old(coordinator.Value()))
    ensures coordinator.journal.posted == old(coordinator.journal.posted) + [ClearTask(begin, end)]
  {
    coordinator.PrepareForBrowsingDataClear();
    coordinator.journal.ClearBrowsingData(begin, end);
  }

  // ---- The tab-strip bridge ----

  datatype Change = SelectionOnly | Inserted | Removed | Moved | Replaced

  predicate ShouldCommitActivation(change: Change, activeTabChanged: bool) {
    activeTabChanged && change == SelectionOnly
  }

  /** A tab in a removal: whether it is really deleted, its uid ("" without a helper), its window
      and its committed URL. */
  datatype RemovedTab = RemovedTab(deleted: bool, uid: Uid, windowId: int, url: Url)

  datatype Contents = Contents(uid: Uid, url: Url)

  datatype StripEvent = StripEvent(
    change: Change, activeTabChanged: bool, contents: Option<Contents>, removed: seq<RemovedTab>, now: Time)

  function ClosedRow(tab: RemovedTab, generation: nat): TabStateRow {
    TabStateRow(tab.uid, true, tab.windowId, tab.url, generation)
  }

  function TabClosed(c: Coord, tab: RemovedTab): Effect {
    if !tab.deleted || tab.uid == "" then Effect(c, [])
    else Effect(WithReopenable(c, ClosedRow(tab, c.generation)), [UpsertTask(ClosedRow(tab, c.generation))])
  }

  function TabsClosed(c: Coord, removed: seq<RemovedTab>): Effect {
    if removed == [] then Effect(c, [])
    else
      var before := TabsClosed(c, Init(removed));
      var last := TabClosed(before.c, Last(removed));
      Effect(last.c, before.tasks + last.tasks)
  }

  function Activated(c: Coord, ev: StripEvent): Effect {
    if !ShouldCommitActivation(ev.change, ev.activeTabChanged) || ev.contents.None? || c.active then Effect(c, [])
    else
      var contents := ev.contents.value;
      Effect(RecordUid(c, contents.uid),
             if contents.url.recordable then [AppendTask(contents.uid, contents.url, ev.now, Activation)] else [])
  }

  function StripChanged(c: Coord, ev: StripEvent): Effect {
    var closed := if ev.change == Removed then TabsClosed(c, ev.removed) else Effect(c, []);
    var committed := Activated(closed.c, ev);
    Effect(committed.c, closed.tasks + committed.tasks)
  }

  class TabVisitObserverBridge {
    const coordinator: TabVisitTraversalCoordinator

    constructor (coordinator: TabVisitTraversalCoordinator)
      ensures this.coordinator == coordinator
    {
      this.coordinator := coordinator;
    }

    method PersistClosedTabsToSidecar(removed: seq<RemovedTab>)
      requires coordinator.Valid()
      modifies coordinator, coordinator.journal
      ensures coordinator.Valid()
      ensures var e := TabsClosed(old(coordinator.Value()), removed);
        coordinator.Value() == e.c && coordinator.journal.posted == old(coordinator.journal.posted) + e.tasks
    {
      var i := 0;
      while i < |removed|
        invariant 0 <= i <= |removed| && coordinator.Valid()
        invariant var e := TabsClosed(old(coordinator.Value()), removed[..i]);
          coordinator.Value() == e.c && coordinator.journal.posted == old(coordinator.journal.posted) + e.tasks
      {
        assert Init(removed[..i + 1]) == removed[..i];
        var tab := removed[i];
        if tab.deleted && tab.uid != "" {
          var row := ClosedRow(tab, coordinator.generation);
          coordinator.AddReopenable(row);
          coordinator.journal.SetTabState(row);
        }
        i := i + 1;
      }
      assert removed[..i] == removed;
    }

    method OnTabStripModelChanged(ev: StripEvent)
      requires coordinator.Valid()
      modifies coordinator, coordinator.journal
      ensures coordinator.Valid()
      ensures var e := StripChanged(old(coordinator.Value()), ev);
        coordinator.Value() == e.c && coordinator.journal.posted == old(coordinator.journal.posted) + e.tasks
    {
      // A real close is persisted even while a gesture suppresses commits.
      if ev.change == Removed {
        PersistClosedTabsToSidecar(ev.removed);
      }
      if !ShouldCommitActivation(ev.change, ev.activeTabChanged) || ev.contents.None? {
        return;
      }
      if coordinator.active {
        return;
      }
      var contents := ev.contents.value;
      if contents.uid != "" {
        coordinator.RecordSettledUid(contents.uid);
      }
      if !contents.url.recordable {
        return;
      }
      coordinator.journal.RecordVisit(contents.uid, contents.url, ev.now, Activation);
    }
  }
}
