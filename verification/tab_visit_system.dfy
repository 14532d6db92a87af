/** The whole tab-visit protocol: UI-thread steps, the store's FIFO of tasks, and replies that may
    land in any order, interleaved freely. Every nondeterministic choice is carried by the event, so
    a run is a sequence of events. */
module TabVisitSystem {
  import opened Common
  import opened Mru
  import opened TraversalController
  import opened VisitsStore
  import opened JournalService
  import opened TraversalCoordinator

  /** The one startup read of the visits: not asked for, queued at a position, answered, merged. */
  datatype Load = NotIssued | Reading(at: nat) | Landing(rows: seq<VisitRow>, at: nat) | Landed

  datatype Reply = StatesReply(generation: nat, states: map<Uid, TabStateRow>) | ClearedReply

  /** `posted[..done]` has run on the store. The last four fields are history: every uid persisted
      before startup, every uid recorded since, how many rows trimming hid from the startup read,
      and the uids that kept a visit through the latest clear the store has run. */
  datatype System = System(
    c: Coord,
    posted: seq<Task>,
    done: nat,
    store: Store,
    replies: seq<Reply>,
    load: Load,
    history: seq<Uid>,
    runtime: seq<Uid>,
    lost: int,
    survivors: set<Uid>)

  datatype Event =
    | LoadJournal
    | StripChange(ev: StripEvent)
    | BackCommand(v: View)
    | ForwardCommand(v: View)
    | SettleNow(v: View)
    | CancelNow
    | ClearData(begin: Option<Time>, end: Option<Time>)
    | RunStoreTask
    | LandJournal
    | DeliverReply(i: nat, rows: seq<TabStateRow>)

  // ---- UI-thread steps ----

  /** What a UI event does to the coordinator and what it posts. */
  function UiEffect(s: System, e: Event): Effect
    requires s.c.walk.Valid()
  {
    match e
    case LoadJournal =>
      if s.load.NotIssued? then Effect(s.c, [ReadVisitsTask, ReadStatesTask(s.c.generation)]) else Effect(s.c, [])
    case StripChange(ev) => StripChanged(s.c, ev)
    case BackCommand(v) => StepBackEffect(s.c, v)
    case ForwardCommand(v) => StepForwardEffect(s.c, v)
    case SettleNow(v) => SettleEffect(s.c, v)
    case CancelNow => Effect(Cancelled(s.c), [])
    case ClearData(begin, end) => Effect(Prepared(s.c), [ClearTask(begin, end)])
    case RunStoreTask => Effect(s.c, [])
    case LandJournal => Effect(if s.load.Landing? then JournalLoaded(s.c, s.load.rows) else s.c, [])
    case DeliverReply(i, rows) =>
      if i >= |s.replies| then Effect(s.c, [])
      else match s.replies[i]
        case ClearedReply => Effect(s.c, [ReadStatesTask(s.c.generation)])
        case StatesReply(g, states) =>
          Effect(if Elements(rows) == states.Values then StatesLoaded(s.c, g, rows) else s.c, [])
  }

  /** Does a settle commit, and under which uid? */
  predicate Commits(c: Coord, v: View)
    requires c.walk.Valid()
  {
    && c.active
    && Current(c.walk).Some?
    && Current(c.walk).value != c.anchor
    && Resolve(c.(debounceArmed := false, walk := IDLE), Current(c.walk).value, v).1
  }

  /** The uids an event records in the in-memory log, before coalescing. */
  function RecordedBy(c: Coord, e: Event): seq<Uid>
    requires c.walk.Valid()
  {
    match e
    case StripChange(ev) =>
      if ShouldCommitActivation(ev.change, ev.activeTabChanged) && ev.contents.Some? && !c.active
         && ev.contents.value.uid != ""
      then [ev.contents.value.uid] else []
    case SettleNow(v) => if Commits(c, v) && Current(c.walk).value != "" then [Current(c.walk).value] else []
    case _ => []
  }

  function Step(s: System, e: Event): System
    requires s.c.walk.Valid() && s.done <= |s.posted|
  {
    var f := UiEffect(s, e);
    var t := s.(c := f.c, posted := s.posted + f.tasks, runtime := s.runtime + RecordedBy(s.c, e));
    match e
    case LoadJournal => if s.load.NotIssued? then t.(load := Reading(|s.posted|)) else t
    case RunStoreTask => if s.done < |s.posted| then StoreRuns(s) else s
    case LandJournal => if s.load.Landing? then t.(load := Landed) else t
    case DeliverReply(i, rows) =>
      if i >= |s.replies| || (s.replies[i].StatesReply? && Elements(rows) != s.replies[i].states.Values) then s
      else t.(replies := s.replies[..i] + s.replies[i + 1..])
    case _ => t
  }

  // ---- Store steps ----

  function StoreRuns(s: System): System
    requires s.done < |s.posted|
  {
    var t := s.(done := s.done + 1);
    match s.posted[s.done]
    case AppendTask(uid, url, at, _) => t.(store := AppendVisit(s.store, uid, url.spec, at))
    case UpsertTask(row) => t.(store := Upsert(s.store, row))
    case ClearTask(begin, end) =>
      var store := Clear(s.store, begin, end);
      t.(store := store, survivors := Referenced(store.visits), replies := s.replies + [ClearedReply])
    case ReadVisitsTask =>
      t.(load := Landing(s.store.visits, s.done),
         lost := |s.history| + |AppendedUids(s.posted, s.done)| - |s.store.visits|)
    case ReadStatesTask(g) => t.(replies := s.replies + [StatesReply(g, s.store.tabState)])
  }

  // ---- Counting over the posted tasks ----

  function Clears(posted: seq<Task>, n: nat): nat
    requires n <= |posted|
  {
    if n == 0 then 0 else Clears(posted, n - 1) + (if posted[n - 1].ClearTask? then 1 else 0)
  }

  function AppendedUids(posted: seq<Task>, n: nat): seq<Uid>
    requires n <= |posted|
  {
    if n == 0 then []
    else AppendedUids(posted, n - 1) + (if posted[n - 1].AppendTask? then [posted[n - 1].uid] else [])
  }

  lemma {:induction false} PrefixCounts(posted: seq<Task>, more: seq<Task>, n: nat)
    requires n <= |posted|
    ensures Clears(posted + more, n) == Clears(posted, n)
    ensures AppendedUids(posted + more, n) == AppendedUids(posted, n)
  {
    if n > 0 {
      PrefixCounts(posted, more, n - 1);
    }
  }

  lemma {:induction false} ClearsGrow(posted: seq<Task>, m: nat, n: nat)
    requires m <= n <= |posted|
    ensures Clears(posted, m) <= Clears(posted, n)
    ensures forall i :: m <= i < n && posted[i].ClearTask? ==> Clears(posted, m) < Clears(posted, n)
  {
    if m < n {
      ClearsGrow(posted, m, n - 1);
    }
  }

  // ---- Invariant 1: clears against cached rows, reads and gestures ----

  /** History tags: what a task posted in generation `g` may carry. */
  predicate Tagged(t: Task, g: nat) {
    match t
    case UpsertTask(row) => row.closed ==> row.closedIn == g
    case ReadStatesTask(h) => h == g
    case AppendTask(_, _, _, origin) => origin.Gesture? ==> origin.begunIn == g
    case _ => true
  }

  /** A closed row is fine at `g` executed clears: closed since the g-th, or spared by it. */
  predicate Fresh(row: TabStateRow, key: Uid, g: nat, survivors: set<Uid>) {
    row.closed ==> row.closedIn == g || key in survivors
  }

  predicate CacheRow(row: TabStateRow, key: Uid, generation: nat, executed: nat, survivors: set<Uid>) {
    && row.closed && row.restoreKey == key && key != ""
    && (row.closedIn == generation || (executed == generation && key in survivors))
  }

  ghost predicate CacheOk(c: Coord, executed: nat, survivors: set<Uid>) {
    && (forall k :: k in c.reopenable ==> CacheRow(c.reopenable[k], k, c.generation, executed, survivors))
    && c.reopenable.Keys !! c.tombstones
    && (c.active ==> c.begunIn == c.generation)
  }

  ghost predicate SidecarOk(states: map<Uid, TabStateRow>, executed: nat, survivors: set<Uid>) {
    forall k :: k in states ==> states[k].restoreKey == k && Fresh(states[k], k, executed, survivors)
  }

  predicate ReplyTimely(r: Reply, executed: nat) {
    r.StatesReply? ==> r.generation <= executed
  }

  ghost predicate ReplyOk(r: Reply, executed: nat, survivors: set<Uid>) {
    r.StatesReply? && r.generation == executed ==> SidecarOk(r.states, executed, survivors)
  }

  ghost predicate QueueTagged(posted: seq<Task>) {
    forall i :: 0 <= i < |posted| ==> Tagged(posted[i], Clears(posted, i))
  }

  ghost predicate QueueOk(s: System) {
    && s.done <= |s.posted|
    && s.c.generation == Clears(s.posted, |s.posted|)
    && QueueTagged(s.posted)
  }

  ghost predicate RepliesOk(replies: seq<Reply>, executed: nat, survivors: set<Uid>) {
    forall i :: 0 <= i < |replies| ==> ReplyTimely(replies[i], executed) && ReplyOk(replies[i], executed, survivors)
  }

  function Executed(s: System): nat
    requires s.done <= |s.posted|
  {
    Clears(s.posted, s.done)
  }

  ghost predicate ClearInv(s: System) {
    && QueueOk(s)
    && s.store.isOpen
    && CacheOk(s.c, Executed(s), s.survivors)
    && SidecarOk(s.store.tabState, Executed(s), s.survivors)
    && RepliesOk(s.replies, Executed(s), s.survivors)
  }

  // ---- Invariant 2: one gesture ----

  ghost predicate GestureInv(c: Coord) {
    && c.walk.Valid()
    && "" !in c.log
    && (c.active ==> c.log != [] && Last(c.log) == c.anchor && c.debounceArmed && c.walk.active)
    && (!c.active ==> c.walk == IDLE && !c.debounceArmed && c.reopenedUrls == map[])
  }

  // ---- UI effects keep both ----

  /** What an effect that prepares no clear does to the cache and what it posts. */
  ghost predicate Benign(c: Coord, f: Effect, executed: nat, survivors: set<Uid>) {
    && f.c.generation == c.generation
    && CacheOk(f.c, executed, survivors)
    && (forall i :: 0 <= i < |f.tasks| ==> !f.tasks[i].ClearTask? && Tagged(f.tasks[i], c.generation))
  }

  lemma ResolveBenign(c: Coord, uid: Uid, v: View, executed: nat, survivors: set<Uid>)
    requires CacheOk(c, executed, survivors)
    ensures Benign(c, Resolve(c, uid, v).0, executed, survivors)
    ensures var d := Resolve(c, uid, v).0.c;
      d.log == c.log && d.anchor == c.anchor && d.active == c.active && d.walk == c.walk && d.begunIn == c.begunIn
  {
  }

  lemma StepBenign(c: Coord, forward: bool, v: View, executed: nat, survivors: set<Uid>)
    requires GestureInv(c) && CacheOk(c, executed, survivors)
    requires if forward then CanGoForward(c) else CanGoBack(c, v)
    ensures var f := Stepped(Begun(c, v), forward, v);
      Benign(c, f, executed, survivors) && GestureInv(f.c) && f.c.active
  {
    var b := Begun(c, v);
    if !c.active {
      MruIsASet(c.log);
      CanBeginMeansBackLands(c.walk, c.log, Reachable(c, v));
    }
    var (w, uid) := if forward then Forward(b.walk) else Back(b.walk);
    if uid.Some? {
      ResolveBenign(b.(walk := w), uid.value, v, executed, survivors);
    }
  }

  lemma SettleBenign(c: Coord, v: View, executed: nat, survivors: set<Uid>)
    requires GestureInv(c) && CacheOk(c, executed, survivors)
    ensures var f := SettleEffect(c, v);
      Benign(c, f, executed, survivors) && GestureInv(f.c) && !f.c.active
  {
    if c.active {
      var stopped := c.(debounceArmed := false, walk := IDLE);
      var landing := Current(c.walk);
      if landing.Some? && landing.value != c.anchor {
        ResolveBenign(stopped, landing.value, v, executed, survivors);
      }
    }
  }

  lemma {:induction false} ClosesBenign(c: Coord, removed: seq<RemovedTab>, executed: nat, survivors: set<Uid>)
    requires GestureInv(c) && CacheOk(c, executed, survivors)
    ensures var f := TabsClosed(c, removed);
      && Benign(c, f, executed, survivors) && GestureInv(f.c)
      && f.c == c.(reopenable := f.c.reopenable, tombstones := f.c.tombstones)
      && forall i :: 0 <= i < |f.tasks| ==> f.tasks[i].UpsertTask?
  {
    if removed != [] {
      ClosesBenign(c, Init(removed), executed, survivors);
    }
  }

  lemma StripBenign(c: Coord, ev: StripEvent, executed: nat, survivors: set<Uid>)
    requires GestureInv(c) && CacheOk(c, executed, survivors)
    ensures var f := StripChanged(c, ev);
      Benign(c, f, executed, survivors) && GestureInv(f.c) && f.c.active == c.active
  {
    if ev.change == Removed {
      ClosesBenign(c, ev.removed, executed, survivors);
    }
  }

  lemma {:induction false} EmplacedAllOk(
    m: map<Uid, TabStateRow>, tombstones: set<Uid>, rows: seq<TabStateRow>, g: nat, survivors: set<Uid>)
    requires m.Keys !! tombstones
    requires forall k :: k in m ==> CacheRow(m[k], k, g, g, survivors)
    requires forall r :: r in rows ==> Fresh(r, r.restoreKey, g, survivors)
    ensures var r := EmplacedAll(m, tombstones, rows);
      r.Keys !! tombstones && forall k :: k in r ==> CacheRow(r[k], k, g, g, survivors)
  {
    if rows != [] {
      assert rows == Init(rows) + [Last(rows)];
      EmplacedAllOk(m, tombstones, Init(rows), g, survivors);
    }
  }

  /** A states reply is either stale and adds nothing, or was read after every prepared clear. */
  lemma DeliveryBenign(s: System, i: nat, rows: seq<TabStateRow>)
    requires ClearInv(s) && GestureInv(s.c) && i < |s.replies| && s.replies[i].StatesReply?
    requires Elements(rows) == s.replies[i].states.Values
    ensures var c := StatesLoaded(s.c, s.replies[i].generation, rows);
      Benign(s.c, Effect(c, []), Executed(s), s.survivors) && GestureInv(c) && c.active == s.c.active
  {
    var r := s.replies[i];
    if r.generation == s.c.generation {
      ClearsGrow(s.posted, s.done, |s.posted|);
      assert ReplyTimely(r, Executed(s)) && ReplyOk(r, Executed(s), s.survivors);
      forall row | row in rows ensures Fresh(row, row.restoreKey, r.generation, s.survivors) {
        assert row in Elements(rows);
        assert row in r.states.Values;
        var k :| k in r.states && r.states[k] == row;
      }
      EmplacedAllOk(s.c.reopenable, s.c.tombstones, rows, r.generation, s.survivors);
    }
  }

  lemma UiBenign(s: System, e: Event)
    requires ClearInv(s) && GestureInv(s.c) && !e.ClearData?
    ensures Benign(s.c, UiEffect(s, e), Executed(s), s.survivors)
    ensures GestureInv(UiEffect(s, e).c)
  {
    match e
    case StripChange(ev) => StripBenign(s.c, ev, Executed(s), s.survivors);
    case BackCommand(v) =>
      if CanGoBack(s.c, v) {
        StepBenign(s.c, false, v, Executed(s), s.survivors);
      }
    case ForwardCommand(v) =>
      if CanGoForward(s.c) {
        StepBenign(s.c, true, v, Executed(s), s.survivors);
      }
    case SettleNow(v) => SettleBenign(s.c, v, Executed(s), s.survivors);
    case LandJournal =>
      if s.load.Landing? {
        LandKeepsGesture(s.c, s.load.rows);
      }
    case DeliverReply(i, rows) =>
      if i < |s.replies| && s.replies[i].StatesReply? && Elements(rows) == s.replies[i].states.Values {
        DeliveryBenign(s, i, rows);
      }
    case _ =>
  }

  lemma LandKeepsGesture(c: Coord, rows: seq<VisitRow>)
    requires GestureInv(c)
    ensures GestureInv(JournalLoaded(c, rows))
  {
    var kept := Without(Uids(rows), {""});
    WithoutMembers(Uids(rows), {""});
    CoalescingKeepsMru(kept + c.log);
  }

  // ---- Steps of the whole system ----

  lemma TagOne(posted: seq<Task>, task: Task)
    requires QueueTagged(posted) && Tagged(task, Clears(posted, |posted|))
    ensures QueueTagged(posted + [task])
    ensures Clears(posted + [task], |posted| + 1) == Clears(posted, |posted|) + if task.ClearTask? then 1 else 0
  {
    var p := posted + [task];
    forall i | 0 <= i < |p| ensures Tagged(p[i], Clears(p, i)) {
      PrefixCounts(posted, [task], if i < |posted| then i else |posted|);
    }
    PrefixCounts(posted, [task], |posted|);
  }

  lemma {:induction false} TagAll(posted: seq<Task>, tasks: seq<Task>)
    requires QueueTagged(posted)
    requires forall i :: 0 <= i < |tasks| ==> !tasks[i].ClearTask? && Tagged(tasks[i], Clears(posted, |posted|))
    ensures QueueTagged(posted + tasks)
    ensures Clears(posted + tasks, |posted + tasks|) == Clears(posted, |posted|)
  {
    if tasks == [] {
      assert posted + tasks == posted;
    } else {
      TagAll(posted, Init(tasks));
      TagOne(posted + Init(tasks), Last(tasks));
      assert posted + tasks == posted + Init(tasks) + [Last(tasks)];
    }
  }

  lemma PostedKeepsQueue(s: System, t: System, tasks: seq<Task>)
    requires QueueOk(s) && t.posted == s.posted + tasks && t.done == s.done && t.c.generation == s.c.generation
    requires forall i :: 0 <= i < |tasks| ==> !tasks[i].ClearTask? && Tagged(tasks[i], s.c.generation)
    ensures QueueOk(t) && Executed(t) == Executed(s)
  {
    TagAll(s.posted, tasks);
    PrefixCounts(s.posted, tasks, s.done);
  }

  lemma PreparedOk(c: Coord, executed: nat, survivors: set<Uid>)
    requires GestureInv(c)
    ensures CacheOk(Prepared(c), executed, survivors) && GestureInv(Prepared(c))
  {
  }

  lemma ClearDataKeepsInv(s: System, begin: Option<Time>, end: Option<Time>)
    requires ClearInv(s) && GestureInv(s.c)
    ensures ClearInv(Step(s, ClearData(begin, end))) && GestureInv(Step(s, ClearData(begin, end)).c)
  {
    var t := ClearDataStep(s, begin, end);
    TagOne(s.posted, ClearTask(begin, end));
    PrefixCounts(s.posted, [ClearTask(begin, end)], s.done);
    assert QueueOk(t) && Executed(t) == Executed(s);
    PreparedOk(s.c, Executed(s), s.survivors);
  }

  lemma ClearDataStep(s: System, begin: Option<Time>, end: Option<Time>) returns (t: System)
    requires s.done <= |s.posted| && s.c.walk.Valid()
    ensures t == Step(s, ClearData(begin, end))
    ensures t == s.(c := Prepared(s.c), posted := s.posted + [ClearTask(begin, end)])
    ensures t.c.generation == s.c.generation + 1
  {
    t := Step(s, ClearData(begin, end));
    assert s.runtime + [] == s.runtime;
  }

  lemma CachedRowsOutliveTheClear(s: System, survivors: set<Uid>)
    requires ClearInv(s) && s.done < |s.posted| && s.posted[s.done].ClearTask?
    ensures CacheOk(s.c, Executed(s) + 1, survivors)
  {
    ClearsGrow(s.posted, s.done, |s.posted|);
    forall k | k in s.c.reopenable ensures CacheRow(s.c.reopenable[k], k, s.c.generation, Executed(s) + 1, survivors) {
      assert CacheRow(s.c.reopenable[k], k, s.c.generation, Executed(s), s.survivors);
    }
  }

  lemma ClearedSidecarOk(store: Store, begin: Option<Time>, end: Option<Time>,
                         executed: nat, survivors: set<Uid>, next: nat)
    requires store.isOpen && SidecarOk(store.tabState, executed, survivors)
    ensures var t := Clear(store, begin, end);
      t.isOpen && SidecarOk(t.tabState, next, Referenced(t.visits))
  {
  }

  lemma RepliesGoStale(replies: seq<Reply>, executed: nat, survivors: set<Uid>, next: set<Uid>)
    requires RepliesOk(replies, executed, survivors)
    ensures RepliesOk(replies + [ClearedReply], executed + 1, next)
  {
    forall i | 0 <= i < |replies|
      ensures ReplyTimely(replies[i], executed + 1) && ReplyOk(replies[i], executed + 1, next) {
      assert ReplyTimely(replies[i], executed);
    }
  }

  lemma ClearRunKeepsInv(s: System)
    requires ClearInv(s) && s.done < |s.posted| && s.posted[s.done].ClearTask?
    ensures ClearInv(StoreRuns(s))
  {
    var t := StoreRuns(s);
    var task := s.posted[s.done];
    ClearedSidecarOk(s.store, task.begin, task.end, Executed(s), s.survivors, Executed(s) + 1);
    CachedRowsOutliveTheClear(s, t.survivors);
    RepliesGoStale(s.replies, Executed(s), s.survivors, t.survivors);
  }

  lemma StoreKeepsClearInv(s: System)
    requires ClearInv(s) && s.done < |s.posted|
    ensures ClearInv(StoreRuns(s))
  {
    assert Tagged(s.posted[s.done], Executed(s));
    match s.posted[s.done]
    case ClearTask(_, _) => ClearRunKeepsInv(s);
    case ReadStatesTask(g) =>
      var r := StatesReply(g, s.store.tabState);
      assert ReplyOk(r, Executed(s), s.survivors);
      RepliesSnoc(s.replies, r, Executed(s), s.survivors);
    case _ =>
  }

  lemma RepliesSnoc(replies: seq<Reply>, r: Reply, executed: nat, survivors: set<Uid>)
    requires RepliesOk(replies, executed, survivors) && ReplyTimely(r, executed) && ReplyOk(r, executed, survivors)
    ensures RepliesOk(replies + [r], executed, survivors)
  {
  }

  lemma RepliesDropOne(replies: seq<Reply>, i: nat, executed: nat, survivors: set<Uid>)
    requires RepliesOk(replies, executed, survivors) && i < |replies|
    ensures RepliesOk(replies[..i] + replies[i + 1..], executed, survivors)
  {
  }

  lemma StepKeepsInv(s: System, e: Event)
    requires ClearInv(s) && GestureInv(s.c)
    ensures ClearInv(Step(s, e)) && GestureInv(Step(s, e).c)
  {
    match e
    case ClearData(begin, end) => ClearDataKeepsInv(s, begin, end);
    case RunStoreTask =>
      if s.done < |s.posted| {
        StoreKeepsClearInv(s);
      }
    case _ => UiKeepsInv(s, e);
  }

  lemma UiKeepsInv(s: System, e: Event)
    requires ClearInv(s) && GestureInv(s.c) && !e.ClearData? && !e.RunStoreTask?
    ensures ClearInv(Step(s, e)) && GestureInv(Step(s, e).c)
  {
    var f, t := UiEffect(s, e), Step(s, e);
    if t == s {
      return;
    }
    UiBenign(s, e);
    assert t.c == f.c && t.posted == s.posted + f.tasks && t.done == s.done;
    assert t.store == s.store && t.survivors == s.survivors;
    PostedKeepsQueue(s, t, f.tasks);
    if e.DeliverReply? {
      RepliesDropOne(s.replies, e.i, Executed(s), s.survivors);
    }
  }

  // ---- Runs ----

  /** Startup: nothing posted yet, a valid open store, and its uids the newest end of the history. */
  ghost predicate Start(s: System) {
    && s == System(FRESH, [], 0, s.store, [], NotIssued, s.history, [], 0, {})
    && s.store.isOpen && Valid(s.store)
    && (forall k :: k in s.store.tabState ==> s.store.tabState[k].closedIn == 0)
    && IsSuffix(Uids(s.store.visits), s.history)
  }

  function Runs(s: System, events: seq<Event>): System
    requires ClearInv(s) && GestureInv(s.c)
    ensures ClearInv(Runs(s, events)) && GestureInv(Runs(s, events).c)
    decreases |events|
  {
    if events == [] then s
    else
      var t := Runs(s, Init(events));
      StepKeepsInv(t, Last(events));
      Step(t, Last(events))
  }

  lemma StartIsOk(s: System)
    requires Start(s)
    ensures ClearInv(s) && GestureInv(s.c)
  {
  }

  /** Clears against everything, overlapping clears included. In every reachable state each cached
      closed row was closed since the latest clear was prepared, or the store has run that clear and
      the row's uid kept a visit through it; and the cache never holds a tombstoned uid. */
  lemma ReopenableRowsOutliveNoClear(s: System, events: seq<Event>, key: Uid)
    requires Start(s)
    ensures ClearInv(s) && GestureInv(s.c)
    ensures var t := Runs(s, events);
      key in t.c.reopenable ==>
        && key !in t.c.tombstones
        && (t.c.reopenable[key].closedIn == t.c.generation
            || (Clears(t.posted, t.done) == t.c.generation && key in t.survivors))
  {
    StartIsOk(s);
    var t := Runs(s, events);
    if key in t.c.reopenable {
      assert CacheRow(t.c.reopenable[key], key, t.c.generation, Executed(t), t.survivors);
    }
  }

  /** A read that predates the latest clear adds nothing when its reply lands; a current one was
      executed after every clear prepared so far. */
  lemma RepliesAreCurrentOrInert(s: System, events: seq<Event>, i: nat, rows: seq<TabStateRow>)
    requires Start(s)
    ensures ClearInv(s) && GestureInv(s.c)
    ensures var t := Runs(s, events);
      i < |t.replies| && t.replies[i].StatesReply? ==>
        if t.replies[i].generation == t.c.generation then Clears(t.posted, t.done) == t.c.generation
        else Step(t, DeliverReply(i, rows)).c == t.c
  {
    StartIsOk(s);
    var t := Runs(s, events);
    if i < |t.replies| && t.replies[i].StatesReply? {
      assert ReplyTimely(t.replies[i], Executed(t));
      ClearsGrow(t.posted, t.done, |t.posted|);
    }
  }

  /** No gesture begun before a clear posts a visit behind it: a gesture visit queued after the
      n-th clear belongs to a gesture that began after at least n were prepared. */
  lemma NoVisitCrossesAClear(s: System, events: seq<Event>, i: nat, j: nat)
    requires Start(s)
    ensures ClearInv(s) && GestureInv(s.c)
    ensures var p := Runs(s, events).posted;
      i < j < |p| && p[i].ClearTask? && p[j].AppendTask? && p[j].origin.Gesture? ==>
        p[j].origin.begunIn > Clears(p, i)
  {
    StartIsOk(s);
    var p := Runs(s, events).posted;
    if i < j < |p| && p[i].ClearTask? && p[j].AppendTask? && p[j].origin.Gesture? {
      assert Tagged(p[j], Clears(p, j));
      ClearsGrow(p, i, j);
    }
  }
}
