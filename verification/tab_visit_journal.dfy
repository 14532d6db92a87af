/** What reaches the journal, and under which URL; what closing, reopening and replies do to the
    reopenable cache. All of it is read off the events and the queue of posted tasks. */
module TabVisitJournal {
  import opened Common
  import opened Mru
  import opened TraversalController
  import opened VisitsStore
  import opened JournalService
  import opened TraversalCoordinator
  import opened TabVisitSystem
  import opened TabVisitGestures

  // ---- Reading the queue ----

  /** The last sidecar row posted for `key`. */
  function LastRow(posted: seq<Task>, key: Uid): Option<TabStateRow> {
    if posted == [] then None
    else if Last(posted).UpsertTask? && Last(posted).row.restoreKey == key then Some(Last(posted).row)
    else LastRow(Init(posted), key)
  }

  /** The last reopening of `uid` posted since `from`: an open row can come from nothing else. */
  function LastReopen(posted: seq<Task>, from: nat, uid: Uid): Option<TabStateRow> {
    if |posted| <= from then None
    else if Last(posted).UpsertTask? && Last(posted).row.restoreKey == uid && !Last(posted).row.closed
    then Some(Last(posted).row)
    else LastReopen(Init(posted), from, uid)
  }

  lemma {:induction false} NoReopens(posted: seq<Task>, tasks: seq<Task>, from: nat, uid: Uid)
    requires from <= |posted|
    requires forall i :: 0 <= i < |tasks| ==> tasks[i].UpsertTask? ==> tasks[i].row.closed
    ensures LastReopen(posted + tasks, from, uid) == LastReopen(posted, from, uid)
  {
    if tasks == [] {
      assert posted + tasks == posted;
    } else {
      NoReopens(posted, Init(tasks), from, uid);
      assert Init(posted + tasks) == posted + Init(tasks) && Last(posted + tasks) == Last(tasks);
    }
  }

  lemma OneReopen(posted: seq<Task>, row: TabStateRow, from: nat, uid: Uid)
    requires from <= |posted| && !row.closed
    ensures LastReopen(posted + [UpsertTask(row)], from, uid)
         == if row.restoreKey == uid then Some(row) else LastReopen(posted, from, uid)
  {
    assert Init(posted + [UpsertTask(row)]) == posted;
  }

  lemma {:induction false} NothingSince(posted: seq<Task>, from: nat, uid: Uid)
    requires from == |posted|
    ensures LastReopen(posted, from, uid) == None
  {
  }

  // ---- Reopening ----

  /** A tab that is not live is reopened exactly when the preference, the cache and the action allow it. */
  predicate Reopens(c: Coord, uid: Uid, v: View) {
    uid !in v.live && v.reopenClosed && v.reopens && uid in c.reopenable
  }

  /** A settle finds the landed tab: it is live, or reopening it makes it so. */
  predicate Finds(c: Coord, uid: Uid, v: View) {
    uid != "" && (uid in v.live || (Reopens(c, uid, v) && v.resolvesAfter))
  }

  /** Reopening posts one open row, drops the row from the cache and leaves a tombstone. */
  ghost predicate ReopensOnly(c: Coord, d: Coord, uid: Uid, reopens: bool, tasks: seq<Task>) {
    if reopens then
      && uid in c.reopenable
      && tasks == [UpsertTask(c.reopenable[uid].(closed := false))]
      && d.reopenable == c.reopenable - {uid} && d.tombstones == c.tombstones + {uid}
    else tasks == [] && d.reopenable == c.reopenable && d.tombstones == c.tombstones
  }

  lemma LookupReopens(c: Coord, uid: Uid, v: View, executed: nat, survivors: set<Uid>)
    requires CacheOk(c, executed, survivors)
    ensures var (f, found) := Resolve(c, uid, v);
      && ReopensOnly(c, f.c, uid, Reopens(c, uid, v), f.tasks)
      && found == Finds(c, uid, v)
      && f.c.reopenedUrls == (if Reopens(c, uid, v)
           then c.reopenedUrls[uid := c.reopenable[uid].lastKnownUrl] else c.reopenedUrls)
  {
    if uid in c.reopenable {
      assert CacheRow(c.reopenable[uid], uid, c.generation, executed, survivors);
    }
  }

  /** Every Back or Forward that is enabled lands, and reopens its landing when it has to; a disabled
      one does nothing. */
  ghost predicate StepReopens(s: System, t: System, enabled: bool, v: View) {
    if enabled then
      && t.c.walk.Valid() && Current(t.c.walk).Some?
      && var uid := Current(t.c.walk).value;
         && |s.posted| <= |t.posted| && t.posted[..|s.posted|] == s.posted
         && ReopensOnly(s.c, t.c, uid, Reopens(s.c, uid, v), t.posted[|s.posted|..])
    else t == s
  }

  lemma SteppedReopens(c: Coord, forward: bool, v: View, executed: nat, survivors: set<Uid>)
    requires c.walk.Valid() && CacheOk(c, executed, survivors)
    requires (if forward then Forward(c.walk) else Back(c.walk)).1.Some?
    ensures var f := Stepped(c, forward, v);
      && f.c.walk.Valid() && Current(f.c.walk).Some?
      && var uid := Current(f.c.walk).value;
         && ReopensOnly(c, f.c, uid, Reopens(c, uid, v), f.tasks)
         && f.c.reopenedUrls == (if Reopens(c, uid, v)
              then c.reopenedUrls[uid := c.reopenable[uid].lastKnownUrl] else c.reopenedUrls)
  {
    EnabledIffLands(c.walk);
    var (w, uid) := if forward then Forward(c.walk) else Back(c.walk);
    LookupReopens(c.(walk := w), uid.value, v, executed, survivors);
    SteppedWalks(c, forward, v);
  }

  predicate Enabled(c: Coord, e: Event)
    requires c.walk.Valid() && (e.BackCommand? || e.ForwardCommand?)
  {
    if e.BackCommand? then CanGoBack(c, e.v) else CanGoForward(c)
  }

  /** The coordinator a command steps: inside a gesture, or the one it opens. */
  lemma CommandLands(c: Coord, e: Event)
    requires GestureInv(c) && (e.BackCommand? || e.ForwardCommand?) && Enabled(c, e)
    ensures var b := Begun(c, e.v);
      && (if e.ForwardCommand? then Forward(b.walk) else Back(b.walk)).1.Some?
      && b == c.(anchor := b.anchor, walk := b.walk, active := true, begunIn := b.begunIn)
  {
    if !c.active {
      CanBeginMeansBackLands(c.walk, c.log, Reachable(c, e.v));
    }
  }

  lemma CommandReopens(s: System, e: Event)
    requires ClearInv(s) && GestureInv(s.c) && (e.BackCommand? || e.ForwardCommand?)
    ensures StepReopens(s, Step(s, e), Enabled(s.c, e), e.v)
  {
    if Enabled(s.c, e) {
      CommandLands(s.c, e);
      SteppedReopens(Begun(s.c, e.v), e.ForwardCommand?, e.v, Executed(s), s.survivors);
    } else {
      assert s.posted + [] == s.posted && s.runtime + [] == s.runtime;
    }
  }

  // ---- Closing ----

  /** The removed tabs that are really deleted and have a uid, in order. */
  function ReallyClosed(removed: seq<RemovedTab>): (r: seq<RemovedTab>)
    ensures forall tab :: tab in r <==> tab in removed && tab.deleted && tab.uid != ""
  {
    if removed == [] then []
    else ReallyClosed(removed[..|removed| - 1]) +
         (if Last(removed).deleted && Last(removed).uid != "" then [Last(removed)] else [])
  }

  function RowOf(tab: RemovedTab, generation: nat): TabStateRow {
    TabStateRow(tab.uid, true, tab.windowId, tab.url, generation)
  }

  function RowsOf(closed: seq<RemovedTab>, generation: nat): seq<Task> {
    seq(|closed|, i requires 0 <= i < |closed| => UpsertTask(RowOf(closed[i], generation)))
  }

  predicate LastOfItsUid(closed: seq<RemovedTab>, i: nat) {
    i < |closed| && forall j :: i < j < |closed| ==> closed[j].uid != closed[i].uid
  }

  predicate Untouched(closed: seq<RemovedTab>, key: Uid) {
    forall tab :: tab in closed ==> tab.uid != key
  }

  /** A closed uid is reopenable from its last row, whatever tombstone it had; every other uid is as it
      was. */
  ghost predicate Caches(c: Coord, d: Coord, closed: seq<RemovedTab>) {
    && (forall i: nat :: LastOfItsUid(closed, i) ==>
          closed[i].uid in d.reopenable && d.reopenable[closed[i].uid] == RowOf(closed[i], c.generation))
    && (forall tab :: tab in closed ==> tab.uid in d.reopenable && tab.uid !in d.tombstones)
    && (forall key :: Untouched(closed, key) ==>
          && (key in d.tombstones <==> key in c.tombstones)
          && (key in d.reopenable <==> key in c.reopenable)
          && (key in d.reopenable ==> d.reopenable[key] == c.reopenable[key]))
    && d == c.(reopenable := d.reopenable, tombstones := d.tombstones)
  }

  /** Each closed tab's row is posted, in order, and nothing else. */
  ghost predicate Closes(c: Coord, f: Effect, closed: seq<RemovedTab>) {
    f.tasks == RowsOf(closed, c.generation) && Caches(c, f.c, closed)
  }

  lemma {:induction false} ClosesPersist(c: Coord, removed: seq<RemovedTab>)
    ensures Closes(c, TabsClosed(c, removed), ReallyClosed(removed))
  {
    if removed != [] {
      ClosesPersist(c, Init(removed));
      OneMoreRemoved(c, TabsClosed(c, Init(removed)), ReallyClosed(Init(removed)), Last(removed));
    }
  }

  lemma OneMoreRemoved(c: Coord, f: Effect, closed: seq<RemovedTab>, tab: RemovedTab)
    requires Closes(c, f, closed)
    ensures var g := TabClosed(f.c, tab);
      Closes(c, Effect(g.c, f.tasks + g.tasks), closed + if tab.deleted && tab.uid != "" then [tab] else [])
  {
    if tab.deleted && tab.uid != "" {
      OneMoreClose(c, f.c, closed, tab);
      RowsSnoc(closed, tab, c.generation);
    } else {
      assert closed + [] == closed && f.tasks + [] == f.tasks;
    }
  }

  lemma RowsSnoc(closed: seq<RemovedTab>, tab: RemovedTab, generation: nat)
    ensures RowsOf(closed + [tab], generation) == RowsOf(closed, generation) + [UpsertTask(RowOf(tab, generation))]
  {
  }

  lemma OneMoreClose(c: Coord, d: Coord, closed: seq<RemovedTab>, tab: RemovedTab)
    requires Caches(c, d, closed) && tab.uid != ""
    ensures Caches(c, WithReopenable(d, RowOf(tab, c.generation)), closed + [tab])
  {
    var all := closed + [tab];
    forall i: nat | LastOfItsUid(all, i) && i < |closed|
      ensures closed[i].uid != tab.uid && LastOfItsUid(closed, i)
    {
      assert all[|closed|] == tab;
      assert forall j :: i < j < |closed| ==> all[j] == closed[j];
    }
    forall key | Untouched(all, key) ensures key != tab.uid && Untouched(closed, key) {
      assert tab in all && forall t :: t in closed ==> t in all;
    }
  }

  // ---- The URLs a gesture remembers ----

  /** The remembered URLs are those of the tabs reopened since position `from`, the last time each. */
  ghost predicate Remembers(c: Coord, posted: seq<Task>, from: nat) {
    forall uid ::
      && (uid in c.reopenedUrls <==> LastReopen(posted, from, uid).Some?)
      && (uid in c.reopenedUrls ==> c.reopenedUrls[uid] == LastReopen(posted, from, uid).value.lastKnownUrl)
  }

  lemma ReopeningIsRemembered(
    c: Coord, d: Coord, posted: seq<Task>, from: nat, uid: Uid, reopens: bool, tasks: seq<Task>)
    requires Remembers(c, posted, from) && from <= |posted| && ReopensOnly(c, d, uid, reopens, tasks)
    requires reopens ==> c.reopenable[uid].restoreKey == uid
    requires d.reopenedUrls
          == if reopens then c.reopenedUrls[uid := c.reopenable[uid].lastKnownUrl] else c.reopenedUrls
    ensures Remembers(d, posted + tasks, from)
  {
    if reopens {
      forall u ensures LastReopen(posted + tasks, from, u)
                    == if u == uid then Some(c.reopenable[uid].(closed := false)) else LastReopen(posted, from, u) {
        OneReopen(posted, c.reopenable[uid].(closed := false), from, u);
      }
    } else {
      assert posted + tasks == posted;
    }
  }

  /** A strip change reopens nothing. */
  lemma StripReopensNothing(c: Coord, ev: StripEvent)
    ensures var f := StripChanged(c, ev);
      && f.c.reopenedUrls == c.reopenedUrls && f.c.active == c.active
      && forall i :: 0 <= i < |f.tasks| ==> f.tasks[i].UpsertTask? ==> f.tasks[i].row.closed
  {
    if ev.change == Removed {
      ClosesPersist(c, ev.removed);
    }
  }

  /** Nothing but a command reopens a tab, or touches the remembered URLs, before the gesture ends. */
  lemma OthersReopenNothing(s: System, e: Event)
    requires ClearInv(s) && GestureInv(s.c) && !Ends(e) && !e.BackCommand? && !e.ForwardCommand?
    ensures var f := UiEffect(s, e);
      && f.c.reopenedUrls == s.c.reopenedUrls && f.c.active == s.c.active
      && forall i :: 0 <= i < |f.tasks| ==> f.tasks[i].UpsertTask? ==> f.tasks[i].row.closed
  {
    if e.StripChange? {
      StripReopensNothing(s.c, e.ev);
    }
  }

  lemma OthersRemember(s: System, e: Event, from: nat)
    requires ClearInv(s) && GestureInv(s.c) && !Ends(e) && !e.BackCommand? && !e.ForwardCommand?
    requires from <= |s.posted| && Remembers(s.c, s.posted, from)
    ensures from <= |Step(s, e).posted| && Remembers(Step(s, e).c, Step(s, e).posted, from)
  {
    OthersReopenNothing(s, e);
    var f, t := UiEffect(s, e), Step(s, e);
    if t.posted == s.posted + f.tasks {
      forall uid ensures LastReopen(t.posted, from, uid) == LastReopen(s.posted, from, uid) {
        NoReopens(s.posted, f.tasks, from, uid);
      }
    }
  }

  lemma CommandRemembers(s: System, e: Event, from: nat)
    requires ClearInv(s) && GestureInv(s.c) && (e.BackCommand? || e.ForwardCommand?)
    requires from <= |s.posted| && Remembers(s.c, s.posted, from)
    ensures from <= |Step(s, e).posted| && Remembers(Step(s, e).c, Step(s, e).posted, from)
  {
    if Enabled(s.c, e) {
      CommandLands(s.c, e);
      var b := Begun(s.c, e.v);
      SteppedReopens(b, e.ForwardCommand?, e.v, Executed(s), s.survivors);
      var f := Stepped(b, e.ForwardCommand?, e.v);
      var uid := Current(f.c.walk).value;
      if uid in b.reopenable {
        assert CacheRow(s.c.reopenable[uid], uid, s.c.generation, Executed(s), s.survivors);
      }
      ReopeningIsRemembered(b, f.c, s.posted, from, uid, Reopens(b, uid, e.v), f.tasks);
    } else {
      CommandReopens(s, e);
    }
  }

  lemma {:induction false} GestureRemembers(s: System, events: seq<Event>, from: nat)
    requires ClearInv(s) && GestureInv(s.c) && from <= |s.posted| && Remembers(s.c, s.posted, from)
    requires forall i :: 0 <= i < |events| ==> !Ends(events[i])
    ensures var t := Runs(s, events);
      from <= |t.posted| && Remembers(t.c, t.posted, from)
    decreases |events|
  {
    if events != [] {
      GestureRemembers(s, Init(events), from);
      var t, e := Runs(s, Init(events)), Last(events);
      if e.BackCommand? || e.ForwardCommand? {
        CommandRemembers(t, e, from);
      } else {
        OthersRemember(t, e, from);
      }
    }
  }

  // ---- The settled visit ----

  /** The tab a settle lands on, if it is not where the gesture began and can be found. */
  function Landed(c: Coord, v: View): Option<Uid>
    requires c.walk.Valid()
  {
    match Current(c.walk)
    case None => None
    case Some(uid) => if uid != c.anchor && Finds(c, uid, v) then Some(uid) else None
  }

  /** The one visit a settle journals: the committed URL when it may be recorded; else the URL the tab
      had when it was closed, if it was reopened since `from` and that URL may be recorded; else none. */
  function SettledVisit(landed: Option<Uid>, posted: seq<Task>, from: nat, v: View, begunIn: nat): seq<Task> {
    match landed
    case None => []
    case Some(uid) =>
      var reopened := LastReopen(posted, from, uid);
      if v.committedUrl.recordable then [AppendTask(uid, v.committedUrl, v.now, Gesture(begunIn))]
      else if reopened.Some? && reopened.value.lastKnownUrl.recordable
      then [AppendTask(uid, reopened.value.lastKnownUrl, v.now, Gesture(begunIn))]
      else []
  }

  /** The reopening a settle makes. */
  function SettleReopens(c: Coord, v: View): seq<Task>
    requires c.walk.Valid()
  {
    match Current(c.walk)
    case None => []
    case Some(uid) =>
      if uid != c.anchor && Reopens(c, uid, v) then [UpsertTask(c.reopenable[uid].(closed := false))] else []
  }

  lemma CommitJournals(c: Coord, uid: Uid, v: View, posted: seq<Task>, from: nat, executed: nat, survivors: set<Uid>)
    requires CacheOk(c, executed, survivors) && Remembers(c, posted, from) && from <= |posted|
    ensures var reopened := if Reopens(c, uid, v) then [UpsertTask(c.reopenable[uid].(closed := false))] else [];
      Committed(c, uid, v).tasks
        == reopened + SettledVisit(if Finds(c, uid, v) then Some(uid) else None, posted + reopened, from, v, c.begunIn)
  {
    LookupReopens(c, uid, v, executed, survivors);
    var f := Resolve(c, uid, v).0;
    if uid in c.reopenable {
      assert CacheRow(c.reopenable[uid], uid, c.generation, executed, survivors);
    }
    ReopeningIsRemembered(c, f.c, posted, from, uid, Reopens(c, uid, v), f.tasks);
    assert f.tasks + [] == f.tasks;
  }

  lemma SettleJournals(s: System, v: View, from: nat)
    requires ClearInv(s) && GestureInv(s.c) && s.c.active && from <= |s.posted| && Remembers(s.c, s.posted, from)
    ensures var posted := s.posted + SettleReopens(s.c, v);
      Step(s, SettleNow(v)).posted == posted + SettledVisit(Landed(s.c, v), posted, from, v, s.c.begunIn)
  {
    var stopped := s.c.(debounceArmed := false, walk := IDLE);
    if Current(s.c.walk).Some? && Current(s.c.walk).value != s.c.anchor {
      CommitJournals(stopped, Current(s.c.walk).value, v, s.posted, from, Executed(s), s.survivors);
    }
  }

  lemma NothingReopenedYet(s: System)
    requires GestureInv(s.c) && !s.c.active
    ensures Remembers(s.c, s.posted, |s.posted|)
  {
  }

  /** The log entry a settle makes. */
  lemma SettleLogs(s: System, v: View)
    requires ClearInv(s) && GestureInv(s.c) && s.c.active
    ensures Step(s, SettleNow(v)).c.log == s.c.log + if Landed(s.c, v).Some? then [Landed(s.c, v).value] else []
  {
    if Current(s.c.walk).Some? {
      LookupReopens(s.c.(debounceArmed := false, walk := IDLE), Current(s.c.walk).value, v, Executed(s), s.survivors);
    }
    EndingAGesture(s, SettleNow(v));
  }

  /**
   * The settled visit is journaled, under the right URL. Take any state between gestures and
   * any events after it that end no gesture. A settle then posts, besides the landing's own
   * reopening, exactly one visit of the tab it lands on: under its committed URL if that may
   * be recorded, else under the URL it had when it was closed if this gesture reopened it and
   * that URL may be recorded, and otherwise none. The log grows by the landing, visit or not.
   * Outside a gesture a settle does nothing.
   */
  lemma SettledVisitIsJournaled(s: System, events: seq<Event>, v: View)
    requires ClearInv(s) && GestureInv(s.c) && !s.c.active
    requires forall i :: 0 <= i < |events| ==> !Ends(events[i])
    ensures var t := Runs(s, events);
      var u := Step(t, SettleNow(v));
      if t.c.active then
        var posted := t.posted + SettleReopens(t.c, v);
        && u.posted == posted + SettledVisit(Landed(t.c, v), posted, |s.posted|, v, t.c.begunIn)
        && u.c.log == t.c.log + (if Landed(t.c, v).Some? then [Landed(t.c, v).value] else [])
      else u == t
  {
    NothingReopenedYet(s);
    GestureRemembers(s, events, |s.posted|);
    var t := Runs(s, events);
    if t.c.active {
      SettleJournals(t, v, |s.posted|);
      SettleLogs(t, v);
    } else {
      assert t.posted + [] == t.posted && t.runtime + [] == t.runtime;
    }
  }

  // ---- Activations ----

  /** The change that counts as a visit: another tab became active by selection alone, and no gesture
      is previewing tabs. */
  predicate IsActivation(c: Coord, ev: StripEvent) {
    ev.change == SelectionOnly && ev.activeTabChanged && ev.contents.Some? && !c.active
  }

  /** An activation records the tab's uid, unless it is empty or already the tail, and journals one
      visit exactly when the committed URL may be recorded. Any other change does neither. */
  lemma ActivationIsRecorded(s: System, ev: StripEvent)
    requires ClearInv(s) && GestureInv(s.c)
    ensures var t := Step(s, StripChange(ev));
      if IsActivation(s.c, ev) then
        var (uid, url) := (ev.contents.value.uid, ev.contents.value.url);
        && t.c == s.c.(log := if uid == "" || (s.c.log != [] && Last(s.c.log) == uid) then s.c.log
                              else s.c.log + [uid])
        && t.posted == s.posted + (if url.recordable then [AppendTask(uid, url, ev.now, Activation)] else [])
      else
        && t.c.log == s.c.log
        && |s.posted| <= |t.posted| && t.posted[..|s.posted|] == s.posted
        && forall i :: |s.posted| <= i < |t.posted| ==> !t.posted[i].AppendTask?
  {
    if ev.change == Removed {
      ClosesPersist(s.c, ev.removed);
    }
  }

  /** A removal makes every really deleted tab reopenable at once, and posts its closed row, gesture or
      not; a tab that only moves away does nothing. */
  lemma RemovalPersistsTheClosed(s: System, ev: StripEvent)
    requires ClearInv(s) && GestureInv(s.c) && ev.change == Removed
    ensures var t := Step(s, StripChange(ev));
      && |s.posted| <= |t.posted| && t.posted[..|s.posted|] == s.posted
      && Closes(s.c, Effect(t.c, t.posted[|s.posted|..]), ReallyClosed(ev.removed))
  {
    ClosesPersist(s.c, ev.removed);
    assert TabsClosed(s.c, ev.removed).tasks + [] == TabsClosed(s.c, ev.removed).tasks;
  }

  /** Only a settle and an activation ever journal a visit. */
  lemma OthersJournalNothing(s: System, e: Event)
    requires ClearInv(s) && GestureInv(s.c) && !e.SettleNow? && !e.StripChange?
    ensures var t := Step(s, e);
      && |s.posted| <= |t.posted| && t.posted[..|s.posted|] == s.posted
      && forall i :: |s.posted| <= i < |t.posted| ==> !t.posted[i].AppendTask?
  {
    if e.BackCommand? || e.ForwardCommand? {
      CommandReopens(s, e);
    }
  }

  // ---- Replies ----

  /** A current sidecar reply adds the closed rows it carries, except those reopened since, and never
      touches a row that is already cached; a stale one adds nothing. A store clear is answered by
      a fresh read of the current generation. */
  lemma ReplyAddsTheClosed(s: System, i: nat, rows: seq<TabStateRow>)
    requires ClearInv(s) && GestureInv(s.c) && i < |s.replies|
    ensures var (r, t) := (s.replies[i], Step(s, DeliverReply(i, rows)));
      match r
      case ClearedReply => t.posted == s.posted + [ReadStatesTask(s.c.generation)] && t.c == s.c
      case StatesReply(generation, states) =>
        && t.posted == s.posted && t.c == s.c.(reopenable := t.c.reopenable)
        && (if generation == s.c.generation && Elements(rows) == states.Values
            then AddsTheClosed(s.c, t.c.reopenable, states) else t.c == s.c)
  {
    var r := s.replies[i];
    if r.StatesReply? && r.generation == s.c.generation && Elements(rows) == r.states.Values {
      ClearsGrow(s.posted, s.done, |s.posted|);
      assert ReplyTimely(r, Executed(s)) && ReplyOk(r, Executed(s), s.survivors);
      EmplacedAdds(s.c.reopenable, s.c.tombstones, rows);
      RowsAreTheStates(s.c, rows, r.states);
    }
  }

  ghost predicate AddsTheClosed(c: Coord, cache: map<Uid, TabStateRow>, states: map<Uid, TabStateRow>) {
    && (forall key :: key in c.reopenable ==> key in cache && cache[key] == c.reopenable[key])
    && (forall key :: key !in c.reopenable ==>
          && (key in cache <==> key in states && states[key].closed && key != "" && key !in c.tombstones)
          && (key in cache ==> cache[key] == states[key]))
  }

  /** Each row for a key in turn: what was cached stays, and the first closed one not tombstoned joins. */
  lemma {:induction false} EmplacedAdds(m: map<Uid, TabStateRow>, tombstones: set<Uid>, rows: seq<TabStateRow>)
    ensures var r := EmplacedAll(m, tombstones, rows);
      && (forall key :: key in m ==> key in r && r[key] == m[key])
      && (forall key :: key in r && key !in m ==>
            r[key] in rows && r[key].restoreKey == key && r[key].closed && key != "" && key !in tombstones)
      && (forall row :: row in rows && row.closed && row.restoreKey != "" && row.restoreKey !in tombstones ==>
            row.restoreKey in r)
  {
    if rows != [] {
      EmplacedAdds(m, tombstones, Init(rows));
      assert rows == Init(rows) + [Last(rows)];
    }
  }

  lemma RowsAreTheStates(c: Coord, rows: seq<TabStateRow>, states: map<Uid, TabStateRow>)
    requires Elements(rows) == states.Values && forall key :: key in states ==> states[key].restoreKey == key
    requires var r := EmplacedAll(c.reopenable, c.tombstones, rows);
      && (forall key :: key in c.reopenable ==> key in r && r[key] == c.reopenable[key])
      && (forall key :: key in r && key !in c.reopenable ==>
            r[key] in rows && r[key].restoreKey == key && r[key].closed && key != "" && key !in c.tombstones)
      && (forall row :: row in rows && row.closed && row.restoreKey != "" && row.restoreKey !in c.tombstones ==>
            row.restoreKey in r)
    ensures AddsTheClosed(c, EmplacedAll(c.reopenable, c.tombstones, rows), states)
  {
    var r := EmplacedAll(c.reopenable, c.tombstones, rows);
    forall row | row in rows ensures row.restoreKey in states && states[row.restoreKey] == row {
      assert row in Elements(rows);
      var key :| key in states && states[key] == row;
    }
    forall key | key in states ensures states[key] in rows {
      assert states[key] in states.Values;
      assert states[key] in Elements(rows);
    }
  }

  // ---- Tombstones ----

  /** The last row posted for `key` is a reopening's. */
  predicate LastReopened(posted: seq<Task>, key: Uid) {
    LastRow(posted, key).Some? && !LastRow(posted, key).value.closed
  }

  lemma OneTask(posted: seq<Task>, task: Task, key: Uid)
    ensures LastReopened(posted + [task], key)
      <==> if task.UpsertTask? && task.row.restoreKey == key then !task.row.closed else LastReopened(posted, key)
  {
    assert Init(posted + [task]) == posted;
  }

  lemma {:induction false} NoRows(posted: seq<Task>, tasks: seq<Task>, key: Uid)
    requires forall i :: 0 <= i < |tasks| ==> !tasks[i].UpsertTask?
    ensures LastReopened(posted + tasks, key) <==> LastReopened(posted, key)
  {
    if tasks == [] {
      assert posted + tasks == posted;
    } else {
      NoRows(posted, Init(tasks), key);
      OneTask(posted + Init(tasks), Last(tasks), key);
      assert posted + tasks == posted + Init(tasks) + [Last(tasks)];
    }
  }

  lemma {:induction false} ClosedRows(posted: seq<Task>, closed: seq<RemovedTab>, generation: nat, key: Uid)
    ensures LastReopened(posted + RowsOf(closed, generation), key) <==>
            (LastReopened(posted, key) && Untouched(closed, key))
  {
    if closed == [] {
      assert posted + RowsOf(closed, generation) == posted;
    } else {
      var front, last := Init(closed), UpsertTask(RowOf(Last(closed), generation));
      ClosedRows(posted, front, generation, key);
      OneTask(posted + RowsOf(front, generation), last, key);
      assert posted + RowsOf(closed, generation) == posted + RowsOf(front, generation) + [last];
      assert closed == front + [Last(closed)];
    }
  }

  /** The tombstones are the uids reopened and not closed since. */
  ghost predicate TombstonesAre(c: Coord, posted: seq<Task>) {
    forall key :: key in c.tombstones <==> LastReopened(posted, key)
  }

  lemma ReopeningLeavesATombstone(c: Coord, d: Coord, uid: Uid, reopens: bool, posted: seq<Task>, tasks: seq<Task>)
    requires TombstonesAre(c, posted) && ReopensOnly(c, d, uid, reopens, tasks)
    requires reopens ==> c.reopenable[uid].restoreKey == uid
    ensures TombstonesAre(d, posted + tasks)
  {
    if reopens {
      forall key ensures LastReopened(posted + tasks, key) <==> key == uid || LastReopened(posted, key) {
        OneTask(posted, UpsertTask(c.reopenable[uid].(closed := false)), key);
      }
    } else {
      assert posted + tasks == posted;
    }
  }

  lemma CommandKeepsTombstones(s: System, e: Event)
    requires ClearInv(s) && GestureInv(s.c) && (e.BackCommand? || e.ForwardCommand?) && TombstonesAre(s.c, s.posted)
    ensures TombstonesAre(Step(s, e).c, Step(s, e).posted)
  {
    CommandReopens(s, e);
    if Enabled(s.c, e) {
      var t := Step(s, e);
      var uid := Current(t.c.walk).value;
      if uid in s.c.reopenable {
        assert CacheRow(s.c.reopenable[uid], uid, s.c.generation, Executed(s), s.survivors);
      }
      var tasks := t.posted[|s.posted|..];
      assert t.posted == s.posted + tasks;
      ReopeningLeavesATombstone(s.c, t.c, uid, Reopens(s.c, uid, e.v), s.posted, tasks);
    }
  }

  lemma CommitKeepsTombstones(c: Coord, uid: Uid, v: View, posted: seq<Task>, executed: nat, survivors: set<Uid>)
    requires CacheOk(c, executed, survivors) && TombstonesAre(c, posted)
    ensures TombstonesAre(Committed(c, uid, v).c, posted + Committed(c, uid, v).tasks)
  {
    LookupReopens(c, uid, v, executed, survivors);
    var (f, found) := Resolve(c, uid, v);
    if uid in c.reopenable {
      assert CacheRow(c.reopenable[uid], uid, c.generation, executed, survivors);
    }
    ReopeningLeavesATombstone(c, f.c, uid, Reopens(c, uid, v), posted, f.tasks);
    var e := Committed(c, uid, v);
    var visits := e.tasks[|f.tasks|..];
    assert posted + e.tasks == posted + f.tasks + visits;
    forall key ensures LastReopened(posted + e.tasks, key) <==> LastReopened(posted + f.tasks, key) {
      NoRows(posted + f.tasks, visits, key);
    }
  }

  lemma SettleKeepsTombstones(s: System, v: View)
    requires ClearInv(s) && GestureInv(s.c) && TombstonesAre(s.c, s.posted)
    ensures TombstonesAre(Step(s, SettleNow(v)).c, Step(s, SettleNow(v)).posted)
  {
    assert s.posted + [] == s.posted;
    if s.c.active && Current(s.c.walk).Some? && Current(s.c.walk).value != s.c.anchor {
      var stopped := s.c.(debounceArmed := false, walk := IDLE);
      CommitKeepsTombstones(stopped, Current(s.c.walk).value, v, s.posted, Executed(s), s.survivors);
    }
  }

  lemma StripKeepsTombstones(s: System, ev: StripEvent)
    requires ClearInv(s) && GestureInv(s.c) && TombstonesAre(s.c, s.posted)
    ensures TombstonesAre(Step(s, StripChange(ev)).c, Step(s, StripChange(ev)).posted)
  {
    var t := Step(s, StripChange(ev));
    if ev.change == Removed {
      RemovalPersistsTheClosed(s, ev);
      var closed := ReallyClosed(ev.removed);
      assert t.posted == s.posted + t.posted[|s.posted|..];
      forall key ensures key in t.c.tombstones <==> LastReopened(t.posted, key) {
        ClosedRows(s.posted, closed, s.c.generation, key);
      }
    } else {
      var f := StripChanged(s.c, ev);
      forall key ensures LastReopened(t.posted, key) <==> LastReopened(s.posted, key) {
        NoRows(s.posted, f.tasks, key);
      }
    }
  }

  lemma StepKeepsTombstones(s: System, e: Event)
    requires ClearInv(s) && GestureInv(s.c) && TombstonesAre(s.c, s.posted)
    ensures TombstonesAre(Step(s, e).c, Step(s, e).posted)
  {
    match e
    case BackCommand(_) => CommandKeepsTombstones(s, e);
    case ForwardCommand(_) => CommandKeepsTombstones(s, e);
    case SettleNow(v) => SettleKeepsTombstones(s, v);
    case StripChange(ev) => StripKeepsTombstones(s, ev);
    case _ => OthersKeepTombstones(s, e);
  }

  lemma OthersKeepTombstones(s: System, e: Event)
    requires ClearInv(s) && GestureInv(s.c) && TombstonesAre(s.c, s.posted)
    requires !e.BackCommand? && !e.ForwardCommand? && !e.SettleNow? && !e.StripChange?
    ensures TombstonesAre(Step(s, e).c, Step(s, e).posted)
  {
    var f := UiEffect(s, e);
    forall key ensures LastReopened(s.posted + f.tasks, key) <==> LastReopened(s.posted, key) {
      NoRows(s.posted, f.tasks, key);
    }
  }

  lemma {:induction false} RunsKeepTombstones(s: System, events: seq<Event>)
    requires ClearInv(s) && GestureInv(s.c) && TombstonesAre(s.c, s.posted)
    ensures TombstonesAre(Runs(s, events).c, Runs(s, events).posted)
    decreases |events|
  {
    if events != [] {
      RunsKeepTombstones(s, Init(events));
      StepKeepsTombstones(Runs(s, Init(events)), Last(events));
    }
  }

  /** In every run a uid is tombstoned exactly when the last row posted for it is a reopening's; from
      its reopening to its next close no reply, no clear and nothing else brings it into the cache. */
  lemma ReopenedStaysReopened(s: System, events: seq<Event>, key: Uid)
    requires Start(s)
    ensures ClearInv(s) && GestureInv(s.c)
    ensures var t := Runs(s, events);
      && (key in t.c.tombstones <==> LastReopened(t.posted, key))
      && (LastReopened(t.posted, key) ==> key !in t.c.reopenable)
  {
    StartIsOk(s);
    RunsKeepTombstones(s, events);
    var t := Runs(s, events);
    assert t.c.reopenable.Keys !! t.c.tombstones;
  }

  // ---- Closing, going back, settling ----

  lemma BackToTheClosed(t: System, v: View, uid: Uid, w: View)
    requires ClearInv(t) && GestureInv(t.c) && !t.c.active
    requires OlderReachable(t.c, v) != [] && OlderReachable(t.c, v)[0] == uid && Reopens(t.c, uid, v)
    requires uid in w.live
    ensures var (u, row) := (Step(t, BackCommand(v)), t.c.reopenable[uid]);
      && uid != "" && row.restoreKey == uid
      && u.posted == t.posted + [UpsertTask(row.(closed := false))]
      && ClearInv(u) && GestureInv(u.c) && u.c.active && u.c.log == t.c.log
      && u.c.begunIn == t.c.generation && Landed(u.c, w) == Some(uid) && SettleReopens(u.c, w) == []
  {
    StepKeepsInv(t, BackCommand(v));
    CommandReopens(t, BackCommand(v));
    OpeningBack(t, v);
    OneBack(FrozenWalk(t.c, v));
    LandingAfterBacks(t.c, v, 1, Step(t, BackCommand(v)).c.walk);
    assert CacheRow(t.c.reopenable[uid], uid, t.c.generation, Executed(t), t.survivors);
    BackIsEnabled(t, v);
    var u := Step(t, BackCommand(v));
    assert u.posted == t.posted + u.posted[|t.posted|..];
  }

  lemma BackIsEnabled(t: System, v: View)
    requires GestureInv(t.c) && !t.c.active && OlderReachable(t.c, v) != []
    ensures CanGoBack(t.c, v)
  {
    var w := FrozenWalk(t.c, v);
    CanBeginMeansBackLands(t.c.walk, t.c.log, Reachable(t.c, v));
    assert NextLandable(w.landable, 0) != -1;
  }

  /** One visit, under the first of the two URLs that may be recorded; none if neither may. */
  function VisitUnder(uid: Uid, committed: Url, closed: Url, at: Time, origin: Origin): seq<Task> {
    if committed.recordable then [AppendTask(uid, committed, at, origin)]
    else if closed.recordable then [AppendTask(uid, closed, at, origin)]
    else []
  }

  lemma VisitOfTheReopened(posted: seq<Task>, row: TabStateRow, w: View, begunIn: nat)
    requires !row.closed
    ensures SettledVisit(Some(row.restoreKey), posted + [UpsertTask(row)], |posted|, w, begunIn)
         == VisitUnder(row.restoreKey, w.committedUrl, row.lastKnownUrl, w.now, Gesture(begunIn))
  {
    OneReopen(posted, row, |posted|, row.restoreKey);
  }

  lemma StraightAway(t: System, v: View, w: View, u: System)
    requires ClearInv(t) && GestureInv(t.c) && u == Step(t, BackCommand(v)) && u.c.walk.Valid() && u.done <= |u.posted|
    ensures OneStepGesture(t, v, [], w) == Step(u, SettleNow(w))
  {
  }

  lemma OneBackSettled(t: System, v: View, w: View, u: System)
    requires ClearInv(t) && GestureInv(t.c) && !t.c.active && u == Step(t, BackCommand(v))
    requires ClearInv(u) && GestureInv(u.c) && u.c.active && SettleReopens(u.c, w) == []
    ensures var x := Step(u, SettleNow(w));
      && x.posted == u.posted + SettledVisit(Landed(u.c, w), u.posted, |t.posted|, w, u.c.begunIn)
      && x.c.log == u.c.log + (if Landed(u.c, w).Some? then [Landed(u.c, w).value] else [])
  {
    NothingReopenedYet(t);
    CommandRemembers(t, BackCommand(v), |t.posted|);
    SettleJournals(u, w, |t.posted|);
    SettleLogs(u, w);
    assert u.posted + [] == u.posted;
  }

  /** A reopening Back, then a settle that finds the tab. */
  lemma BackThenSettle(t: System, v: View, uid: Uid, w: View, row: TabStateRow)
    requires ClearInv(t) && GestureInv(t.c) && !t.c.active
    requires OlderReachable(t.c, v) != [] && OlderReachable(t.c, v)[0] == uid && Reopens(t.c, uid, v)
    requires uid in w.live && row == t.c.reopenable[uid]
    ensures var (u, x) := (Step(t, BackCommand(v)), OneStepGesture(t, v, [], w));
      && u.posted == t.posted + [UpsertTask(row.(closed := false))]
      && x.c.log == t.c.log + [uid]
      && x.posted == u.posted + VisitUnder(uid, w.committedUrl, row.lastKnownUrl, w.now, Gesture(t.c.generation))
  {
    BackToTheClosed(t, v, uid, w);
    OneBackSettled(t, v, w, Step(t, BackCommand(v)));
    StraightAway(t, v, w, Step(t, BackCommand(v)));
    VisitOfTheReopened(t.posted, row.(closed := false), w, t.c.generation);
  }

  function Closing(s: System, ev: StripEvent): (t: System)
    requires ClearInv(s) && GestureInv(s.c)
    ensures ClearInv(t) && GestureInv(t.c)
  {
    StepKeepsInv(s, StripChange(ev));
    Step(s, StripChange(ev))
  }

  /**
   * End to end. A tab is closed; the first Back of the next gesture would land on it, and
   * reopening succeeds. Then the Back posts its row as open, and a settle that finds it
   * journals one visit: under its committed URL, or, while that may not be recorded yet,
   * under the URL it was closed with, if that one may be.
   */
  lemma CloseBackSettle(s: System, ev: StripEvent, i: nat, v: View, w: View)
    requires ClearInv(s) && GestureInv(s.c) && !s.c.active && ev.change == Removed
    requires LastOfItsUid(ReallyClosed(ev.removed), i)
    requires var (uid, c) := (ReallyClosed(ev.removed)[i].uid, Closing(s, ev).c);
      && uid !in v.live && v.reopenClosed && v.reopens && uid in w.live
      && OlderReachable(c, v) != [] && OlderReachable(c, v)[0] == uid
    ensures var (tab, t) := (ReallyClosed(ev.removed)[i], Closing(s, ev));
      var (u, x) := (Step(t, BackCommand(v)), OneStepGesture(t, v, [], w));
      && u.posted == t.posted + [UpsertTask(TabStateRow(tab.uid, false, tab.windowId, tab.url, s.c.generation))]
      && x.c.log == s.c.log + [tab.uid]
      && x.posted == u.posted + VisitUnder(tab.uid, w.committedUrl, tab.url, w.now, Gesture(s.c.generation))
  {
    var tab, t := ReallyClosed(ev.removed)[i], Closing(s, ev);
    RemovalPersistsTheClosed(s, ev);
    BackThenSettle(t, v, tab.uid, w, RowOf(tab, s.c.generation));
  }
}
