/** The startup reload race: wherever the one read of the store lands among live visits, and however
    many old rows trimming has taken, the merged order is the true order cut short. */
module TabVisitReload {
  import opened Common
  import opened Mru
  import opened VisitsStore
  import opened JournalService
  import opened TraversalCoordinator
  import opened TabVisitSystem
  import opened TabVisitGestures

  /** Everything ever persisted or appended, as of the first `n` tasks. */
  function FullHistory(s: System, n: nat): seq<Uid>
    requires n <= |s.posted|
  {
    s.history + AppendedUids(s.posted, n)
  }

  /** The order no trimming could spoil: the whole persisted history, then every runtime visit. */
  function TrueOrder(s: System): seq<Uid> {
    MruOf(Without(s.history, {""}) + s.runtime)
  }

  ghost predicate LogOk(s: System) {
    match s.load
    case NotIssued => s.c.log == Coalesced(s.runtime)
    case Reading(at) => s.c.log == Coalesced(s.runtime) && s.done <= at < |s.posted| && s.posted[at].ReadVisitsTask?
    case Landing(rows, at) =>
      && s.c.log == Coalesced(s.runtime)
      && at <= |s.posted| && 0 <= s.lost <= |FullHistory(s, at)|
      && Uids(rows) == FullHistory(s, at)[s.lost..]
    case Landed =>
      && MruOf(s.c.log) <= TrueOrder(s)
      && (s.lost == 0 ==> MruOf(s.c.log) == TrueOrder(s))
  }

  ghost predicate JournaledWasRecorded(s: System) {
    forall u :: u in Journaled(s) && u != "" ==> u in s.runtime
  }

  ghost predicate OneRead(s: System) {
    forall i :: s.done <= i < |s.posted| && s.posted[i].ReadVisitsTask? ==> s.load == Reading(i)
  }

  ghost predicate ReloadInv(s: System)
    requires s.done <= |s.posted|
  {
    && IsSuffix(Uids(s.store.visits), FullHistory(s, s.done))
    && JournaledWasRecorded(s)
    && OneRead(s)
    && LogOk(s)
  }

  // ---- UI steps ----

  /** The log and the runtime record move together; a journaled uid is recorded or empty. */
  ghost predicate Tracks(c: Coord, e: Event, f: Effect)
    requires c.walk.Valid()
  {
    && (RecordedBy(c, e) == [] ==> f.c.log == c.log)
    && (RecordedBy(c, e) != [] ==> |RecordedBy(c, e)| == 1 && f.c.log == Recorded(c.log, RecordedBy(c, e)[0]))
    && (forall i :: 0 <= i < |f.tasks| && f.tasks[i].AppendTask? ==>
          f.tasks[i].uid == "" || f.tasks[i].uid in RecordedBy(c, e))
  }

  lemma SettleTracks(c: Coord, v: View)
    requires GestureInv(c)
    ensures Tracks(c, SettleNow(v), SettleEffect(c, v))
  {
  }

  lemma StripTracks(s: System, ev: StripEvent)
    requires ClearInv(s) && GestureInv(s.c)
    ensures Tracks(s.c, StripChange(ev), StripChanged(s.c, ev))
  {
    if ev.change == Removed {
      ClosesBenign(s.c, ev.removed, Executed(s), s.survivors);
    }
  }

  lemma StepTracks(c: Coord, forward: bool, v: View, e: Event)
    requires c.walk.Valid() && (e.BackCommand? || e.ForwardCommand?)
    ensures Tracks(c, e, Stepped(Begun(c, v), forward, v))
  {
  }

  lemma UiTracks(s: System, e: Event)
    requires ClearInv(s) && GestureInv(s.c) && !e.LandJournal?
    ensures Tracks(s.c, e, UiEffect(s, e))
  {
    match e
    case SettleNow(v) => SettleTracks(s.c, v);
    case StripChange(ev) => StripTracks(s, ev);
    case BackCommand(v) => StepTracks(s.c, false, v, e);
    case ForwardCommand(v) => StepTracks(s.c, true, v, e);
    case _ =>
  }

  lemma {:induction false} JournaledElements(tasks: seq<Task>, xs: set<Uid>)
    requires forall i :: 0 <= i < |tasks| && tasks[i].AppendTask? ==> tasks[i].uid in xs
    ensures forall u :: u in AppendedUids(tasks, |tasks|) ==> u in xs
  {
    if tasks != [] {
      JournaledElements(Init(tasks), xs);
      assert tasks == Init(tasks) + [Last(tasks)];
      PrefixCounts(Init(tasks), [Last(tasks)], |Init(tasks)|);
    }
  }

  lemma RecordedKeepsPrefix(order: seq<Uid>, log: seq<Uid>, history: seq<Uid>, runtime: seq<Uid>, u: Uid)
    requires order == MruOf(history + runtime) && MruOf(log) <= order
    ensures MruOf(Recorded(log, u)) <= MruOf(history + (runtime + [u]))
    ensures MruOf(log) == order ==> MruOf(Recorded(log, u)) == MruOf(history + (runtime + [u]))
  {
    RecordedMovesToFront(log, u);
    assert history + (runtime + [u]) == (history + runtime) + [u];
    assert Init((history + runtime) + [u]) == history + runtime;
    assert MruOf(history + (runtime + [u])) == MoveToFront(order, u);
    FrontKeepsPrefix(MruOf(log), order, u);
  }

  lemma FrontKeepsPrefix(shorter: seq<Uid>, longer: seq<Uid>, u: Uid)
    requires shorter <= longer
    ensures MoveToFront(shorter, u) <= MoveToFront(longer, u)
  {
    WithoutPrefix(shorter, longer, {u});
  }

  /** Appending to the runtime record and to the log alike keeps the log in step. */
  lemma RecordingKeepsLogOk(s: System, t: System, rec: seq<Uid>)
    requires LogOk(s) && s.done <= |s.posted| <= |t.posted| && s.posted == t.posted[..|s.posted|]
    requires t.load == s.load && t.lost == s.lost && t.history == s.history && t.done == s.done
    requires t.runtime == s.runtime + rec && |rec| <= 1
    requires t.c.log == if rec == [] then s.c.log else Recorded(s.c.log, rec[0])
    ensures LogOk(t)
  {
    var more := t.posted[|s.posted|..];
    assert t.posted == s.posted + more;
    if s.load.Landing? {
      PrefixCounts(s.posted, more, s.load.at);
    }
    if rec == [] {
      assert t.runtime == s.runtime;
    } else {
      assert rec == [rec[0]];
      CoalescedSnoc(s.runtime, rec[0]);
      if s.load.Landed? {
        RecordedKeepsPrefix(TrueOrder(s), s.c.log, Without(s.history, {""}), s.runtime, rec[0]);
      }
    }
  }

  lemma PostingKeepsReload(s: System, t: System, tasks: seq<Task>, rec: seq<Uid>)
    requires s.done <= |s.posted| && ReloadInv(s)
    requires t.posted == s.posted + tasks && t.done == s.done && t.store == s.store && t.history == s.history
    requires t.runtime == s.runtime + rec
    requires forall i :: 0 <= i < |tasks| && tasks[i].AppendTask? ==> tasks[i].uid == "" || tasks[i].uid in rec
    ensures IsSuffix(Uids(t.store.visits), FullHistory(t, t.done)) && JournaledWasRecorded(t)
  {
    PrefixCounts(s.posted, tasks, s.done);
    JournaledConcat(s.posted, tasks);
    JournaledElements(tasks, {""} + Elements(rec));
  }

  /** A UI step other than the startup request and the merge. */
  lemma PlainStepKeepsReload(s: System, e: Event)
    requires ClearInv(s) && GestureInv(s.c) && ReloadInv(s)
    requires !e.LoadJournal? && !e.LandJournal? && !e.RunStoreTask? && !e.ClearData?
    ensures ReloadInv(Step(s, e))
  {
    var t, f := Step(s, e), UiEffect(s, e);
    if t == s {
      return;
    }
    UiTracks(s, e);
    PostingKeepsReload(s, t, f.tasks, RecordedBy(s.c, e));
    assert s.posted == t.posted[..|s.posted|];
    RecordingKeepsLogOk(s, t, RecordedBy(s.c, e));
    assert OneRead(t) by {
      PlainEventsReadNothing(s, e);
    }
  }

  lemma PlainEventsReadNothing(s: System, e: Event)
    requires ClearInv(s) && GestureInv(s.c)
    requires !e.LoadJournal? && !e.LandJournal? && !e.RunStoreTask? && !e.ClearData?
    ensures forall i :: 0 <= i < |UiEffect(s, e).tasks| ==> !UiEffect(s, e).tasks[i].ReadVisitsTask?
  {
    if e.StripChange? && e.ev.change == Removed {
      ClosesBenign(s.c, e.ev.removed, Executed(s), s.survivors);
    }
  }

  lemma RequestKeepsReload(s: System)
    requires ClearInv(s) && GestureInv(s.c) && ReloadInv(s) && s.load.NotIssued?
    ensures ReloadInv(Step(s, LoadJournal))
  {
    var t := Step(s, LoadJournal);
    var tasks := [ReadVisitsTask, ReadStatesTask(s.c.generation)];
    assert t.posted == s.posted + tasks && t.runtime == s.runtime;
    PostingKeepsReload(s, t, tasks, []);
  }

  // ---- The merge ----

  lemma CoalescedUnderneath(a: seq<Uid>, b: seq<Uid>)
    ensures MruOf(Coalesced(a + Coalesced(b))) == MruOf(a + b)
  {
    CoalescingKeepsMru(a + Coalesced(b));
    CoalescingKeepsMru(b);
    MruOfConcat(a, Coalesced(b));
    MruOfConcat(a, b);
    MruIsASet(b);
    MruIsASet(Coalesced(b));
    WithoutCongruent(MruOf(a), Elements(Coalesced(b)), Elements(b));
  }

  lemma {:induction false} AppendedIsPrefix(posted: seq<Task>, m: nat, n: nat)
    requires m <= n <= |posted|
    ensures forall u :: u in AppendedUids(posted, m) ==> u in AppendedUids(posted, n)
  {
    if m < n {
      AppendedIsPrefix(posted, m, n - 1);
    }
  }

  lemma MergeKeepsReload(s: System)
    requires ClearInv(s) && GestureInv(s.c) && ReloadInv(s) && s.load.Landing?
    ensures ReloadInv(Step(s, LandJournal))
  {
    var t := Step(s, LandJournal);
    var rows, at := s.load.rows, s.load.at;
    assert t.posted == s.posted && t.runtime == s.runtime;
    CoalescedUnderneath(Without(Uids(rows), {""}), s.runtime);
    AppendedIsPrefix(s.posted, at, |s.posted|);
    ReloadMergesToPrefix(s.history, AppendedUids(s.posted, at), s.lost, s.runtime);
  }

  // ---- Store steps ----

  lemma TrimmedUids(rows: seq<VisitRow>, x: VisitRow, full: seq<Uid>)
    requires IsSuffix(Uids(rows), full)
    ensures IsSuffix(Uids(Trim(rows + [x])), full + [x.tabUid])
  {
    var all, t, g := rows + [x], Trim(rows + [x]), full + [x.tabUid];
    var d := |g| - |t|;
    forall i | 0 <= i < |t| ensures Uids(t)[i] == g[d..][i] {
      var k := |all| - |t| + i;
      assert t[i] == all[k];
      if k < |rows| {
        assert Uids(rows)[k] == full[|full| - |rows|..][k];
      }
    }
    assert Uids(t) == g[d..];
  }

  /** Running any task but the read leaves everything but the store's rows in place. */
  lemma RunningKeepsTheRest(s: System, t: System)
    requires s.done < |s.posted| && JournaledWasRecorded(s) && OneRead(s) && LogOk(s)
    requires !s.posted[s.done].ReadVisitsTask? && t.done == s.done + 1
    requires t.c == s.c && t.posted == s.posted && t.load == s.load
    requires t.history == s.history && t.runtime == s.runtime && t.lost == s.lost
    ensures JournaledWasRecorded(t) && OneRead(t) && LogOk(t)
  {
    if s.load.Reading? {
      assert s.load.at != s.done;
    }
  }

  lemma AppendKeepsReload(s: System)
    requires s.done < |s.posted| && ReloadInv(s) && s.posted[s.done].AppendTask? && s.store.isOpen
    ensures ReloadInv(StoreRuns(s))
  {
    var t, task := StoreRuns(s), s.posted[s.done];
    RunningKeepsTheRest(s, t);
    var x := VisitRow(s.store.nextId, task.uid, task.url.spec, task.at);
    TrimmedUids(s.store.visits, x, FullHistory(s, s.done));
    assert FullHistory(t, t.done) == FullHistory(s, s.done) + [task.uid];
  }

  lemma OtherTasksKeepReload(s: System)
    requires s.done < |s.posted| && ReloadInv(s)
    requires s.posted[s.done].UpsertTask? || s.posted[s.done].ReadStatesTask?
    ensures ReloadInv(StoreRuns(s))
  {
    RunningKeepsTheRest(s, StoreRuns(s));
    assert FullHistory(StoreRuns(s), s.done + 1) == FullHistory(s, s.done);
  }

  lemma ReadKeepsReload(s: System)
    requires s.done < |s.posted| && ReloadInv(s) && s.posted[s.done].ReadVisitsTask?
    ensures ReloadInv(StoreRuns(s))
  {
    var t := StoreRuns(s);
    assert s.load == Reading(s.done);
    assert FullHistory(t, t.done) == FullHistory(s, s.done);
    assert |Uids(s.store.visits)| == |s.store.visits|;
  }

  lemma StoreKeepsReload(s: System)
    requires ClearInv(s) && ReloadInv(s) && s.done < |s.posted| && s.c.generation == 0
    ensures ReloadInv(StoreRuns(s))
  {
    match s.posted[s.done]
    case AppendTask(_, _, _, _) => AppendKeepsReload(s);
    case ReadVisitsTask => ReadKeepsReload(s);
    case ClearTask(_, _) =>
      ClearsGrow(s.posted, s.done, |s.posted|);
      assert false;
    case UpsertTask(_) => OtherTasksKeepReload(s);
    case ReadStatesTask(_) => OtherTasksKeepReload(s);
  }

  // ---- Runs ----

  lemma NothingAdded(s: System)
    ensures s.(posted := s.posted + [], runtime := s.runtime + []) == s
  {
    assert s.posted + [] == s.posted && s.runtime + [] == s.runtime;
  }

  lemma StepKeepsReload(s: System, e: Event)
    requires ClearInv(s) && GestureInv(s.c) && ReloadInv(s) && !e.ClearData? && s.c.generation == 0
    ensures ReloadInv(Step(s, e)) && Step(s, e).c.generation == 0
  {
    UiBenign(s, e);
    match e
    case LoadJournal =>
      if s.load.NotIssued? {
        RequestKeepsReload(s);
      } else {
        assert Step(s, e) == s by { NothingAdded(s); }
      }
    case LandJournal =>
      if s.load.Landing? {
        MergeKeepsReload(s);
      } else {
        assert Step(s, e) == s by { NothingAdded(s); }
      }
    case RunStoreTask =>
      if s.done < |s.posted| {
        StoreKeepsReload(s);
      }
    case _ => PlainStepKeepsReload(s, e);
  }

  lemma {:induction false} RunsKeepReload(s: System, events: seq<Event>)
    requires Start(s) && forall i :: 0 <= i < |events| ==> !events[i].ClearData?
    ensures ClearInv(s) && GestureInv(s.c)
    ensures ReloadInv(Runs(s, events)) && Runs(s, events).c.generation == 0
    decreases |events|
  {
    StartIsOk(s);
    if events == [] {
      assert s.history + [] == s.history;
    } else {
      RunsKeepReload(s, Init(events));
      StepKeepsReload(Runs(s, Init(events)), Last(events));
    }
  }

  /** The reload race. For any persisted history, any trim, and any interleaving without a clear: once
      the read has been merged, the log's order is a prefix of the order of the full history followed
      by the runtime visits, and equal to it when trimming had hidden nothing from the read. Before
      the merge the log is exactly the coalesced runtime visits. */
  lemma ReloadNeverReorders(s: System, events: seq<Event>)
    requires Start(s) && forall i :: 0 <= i < |events| ==> !events[i].ClearData?
    ensures ClearInv(s) && GestureInv(s.c)
    ensures var t := Runs(s, events);
      && (t.load.Landed? ==> MruOf(t.c.log) <= MruOf(Without(s.history, {""}) + t.runtime))
      && (t.load.Landed? && t.lost == 0 ==> MruOf(t.c.log) == MruOf(Without(s.history, {""}) + t.runtime))
      && (!t.load.Landed? ==> t.c.log == Coalesced(t.runtime))
  {
    RunsKeepReload(s, events);
    HistoryIsFixed(s, events);
  }

  lemma StepKeepsHistory(s: System, e: Event)
    requires s.c.walk.Valid() && s.done <= |s.posted|
    ensures Step(s, e).history == s.history
  {
  }

  lemma {:induction false} HistoryIsFixed(s: System, events: seq<Event>)
    requires ClearInv(s) && GestureInv(s.c)
    ensures Runs(s, events).history == s.history
    decreases |events|
  {
    if events != [] {
      HistoryIsFixed(s, Init(events));
      StepKeepsHistory(Runs(s, Init(events)), Last(events));
    }
  }
}
