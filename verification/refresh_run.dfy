/** One refresh run over a window's tabs, and the per-browser map of live runs. */
module RefreshRun {
  import opened Common
  import opened SettleGate

  /** A navigation observation: a start (in the primary main frame or not), a stop, or the issued
      handle going null. */
  datatype NavEvent = DidStart(primary: bool, id: int) | DidStop | HandleGone

  /** What dequeuing a tab comes to: not eligible, or a load whose call dispatches `during` before it
      returns a navigation id, or none. */
  datatype Outcome = Ineligible | Load(during: seq<NavEvent>, id: Option<int>)

  /** History: one load call, the id it returned (0 for none), and the starts observed since. */
  datatype Attempt = Attempt(index: nat, id: int, starts: set<int>)

  /** The run's value. The last three are history: the load calls made so far and, for each settle
      notification sent to the scheduler, the attempt it was sent for and the item index it named. */
  datatype RunState = RunState(
    current: nat,
    hasHandle: bool,
    observing: bool,
    gate: Gate,
    attempts: seq<Attempt>,
    notices: seq<nat>,
    notified: seq<nat>)

  const NEW_RUN := RunState(0, false, false, CLOSED, [], [], [])

  function Seen(attempts: seq<Attempt>, id: int): seq<Attempt> {
    if attempts == [] then [] else Init(attempts) + [Last(attempts).(starts := Last(attempts).starts + {id})]
  }

  function Observed(r: RunState, e: NavEvent): RunState {
    match e
    case DidStart(primary, id) =>
      if !r.observing || !primary then r
      else r.(gate := Next(r.gate, Start(id)), attempts := Seen(r.attempts, id))
    case DidStop =>
      if !r.observing then r
      else
        var g := if r.hasHandle then r.gate else Next(r.gate, Discarded);
        if !Settles(g) then r.(gate := g)
        else r.(gate := Next(g, Stop), hasHandle := false, observing := false,
                notices := if r.attempts == [] then r.notices else r.notices + [|r.attempts| - 1],
                notified := r.notified + [r.current])
    case HandleGone => r.(hasHandle := false)
  }

  function ObservedAll(r: RunState, events: seq<NavEvent>): RunState {
    if events == [] then r else Observed(ObservedAll(r, Init(events)), Last(events))
  }

  function Dequeued(r: RunState, index: nat): RunState {
    r.(current := index, observing := false, hasHandle := false, gate := CLOSED)
  }

  function Loading(r: RunState, index: nat): RunState {
    Dequeued(r, index).(observing := true, gate := Next(CLOSED, Begin),
                       attempts := r.attempts + [Attempt(index, 0, {})])
  }

  function Loaded(r: RunState, id: Option<int>): RunState
    requires r.attempts != []
  {
    match id
    case None => r.(gate := Next(r.gate, Issued(0)), observing := false)
    case Some(n) =>
      r.(gate := Next(r.gate, Issued(n)), hasHandle := true,
         attempts := Init(r.attempts) + [Last(r.attempts).(id := n)])
  }

  lemma {:induction false} ObservingKeepsAttempts(r: RunState, events: seq<NavEvent>)
    ensures |ObservedAll(r, events).attempts| == |r.attempts|
  {
    if events != [] {
      ObservingKeepsAttempts(r, Init(events));
    }
  }

  /** StartItem: the new state, and whether a load began. */
  function StartedItem(r: RunState, index: nat, outcome: Outcome): (RunState, bool) {
    match outcome
    case Ineligible => (Dequeued(r, index), false)
    case Load(during, id) =>
      var inside := ObservedAll(Loading(r, index), during);
      ObservingKeepsAttempts(Loading(r, index), during);
      (Loaded(inside, id), id.Some?)
  }

  class InitialUrlRefreshRun {
    const settleGate: NavigationSettleGate
    var currentIndex: nat
    var pendingHandle: bool
    var observing: bool
    var attempts: seq<Attempt>
    var notices: seq<nat>
    var notified: seq<nat>

    function Value(): RunState
      reads this, settleGate
    {
      RunState(currentIndex, pendingHandle, observing, settleGate.Value(), attempts, notices, notified)
    }

    constructor ()
      ensures Value() == NEW_RUN && fresh(settleGate)
    {
      settleGate := new NavigationSettleGate();
      currentIndex, pendingHandle, observing := 0, false, false;
      attempts, notices, notified := [], [], [];
    }

    method StartItem(index: nat, outcome: Outcome) returns (began: bool)
      modifies this, settleGate
      ensures (Value(), began) == StartedItem(old(Value()), index, outcome)
    {
      currentIndex := index;
      observing := false;
      pendingHandle := false;
      settleGate.ResetGate();
      match outcome {
        case Ineligible =>
          return false;
        case Load(during, id) =>
          // Observe, and open the attempt, before issuing the load.
          observing := true;
          settleGate.BeginAttempt();
          attempts := attempts + [Attempt(index, 0, {})];
          LoadUrl(during);
          ObservingKeepsAttempts(Loading(old(Value()), index), during);
          if id.None? {
            settleGate.AttemptIssued(0);
            observing := false;
            return false;
          }
          pendingHandle := true;
          attempts := Init(attempts) + [Last(attempts).(id := id.value)];
          settleGate.AttemptIssued(id.value);
          return true;
      }
    }

    /** The load call: it may dispatch observations before it returns. */
    method LoadUrl(during: seq<NavEvent>)
      modifies this, settleGate
      ensures Value() == ObservedAll(old(Value()), during)
    {
      var i := 0;
      while i < |during|
        invariant 0 <= i <= |during|
        invariant Value() == ObservedAll(old(Value()), during[..i])
      {
        assert Init(during[..i + 1]) == during[..i];
        match during[i] {
          case DidStart(primary, id) => DidStartNavigation(primary, id);
          case DidStop => DidStopLoading();
          case HandleGone => pendingHandle := false;
        }
        i := i + 1;
      }
      assert during[..i] == during;
    }

    method DidStartNavigation(primary: bool, id: int)
      modifies this, settleGate
      ensures Value() == Observed(old(Value()), DidStart(primary, id))
    {
      if !observing || !primary {
        return;
      }
      settleGate.OnNavigationStarted(id);
      attempts := Seen(attempts, id);
    }

    method DidStopLoading()
      modifies this, settleGate
      ensures Value() == Observed(old(Value()), DidStop)
    {
      if !observing {
        return;
      }
      if !pendingHandle {
        settleGate.OnAttemptDiscarded();
      }
      var settled := settleGate.OnStopLoading();
      if !settled {
        return;
      }
      pendingHandle := false;
      observing := false;
      if attempts != [] {
        notices := notices + [|attempts| - 1];
      }
      notified := notified + [currentIndex];
    }
  }

  // ---- Runs ----

  datatype RunEvent = Dequeue(index: nat, outcome: Outcome) | Nav(e: NavEvent) | StopObserving

  function Step(r: RunState, e: RunEvent): RunState {
    match e
    case Dequeue(index, outcome) => StartedItem(r, index, outcome).0
    case Nav(n) => Observed(r, n)
    case StopObserving => r.(observing := false)
  }

  function Run(r: RunState, events: seq<RunEvent>): RunState {
    if events == [] then r else Step(Run(r, Init(events)), Last(events))
  }

  /** A notification was earned: its attempt was issued an id, and a start carrying that very id was
      observed since the attempt was opened. */
  predicate Earned(attempts: seq<Attempt>, k: nat) {
    k < |attempts| && attempts[k].id != 0 && attempts[k].id in attempts[k].starts
  }

  /** Each notice named the item of the attempt it was earned by. */
  predicate NamesItsItem(r: RunState) {
    && |r.notified| == |r.notices|
    && forall i :: 0 <= i < |r.notices| ==>
         r.notices[i] < |r.attempts| && r.notified[i] == r.attempts[r.notices[i]].index
  }

  predicate NoticesOk(r: RunState) {
    && (forall i :: 0 <= i < |r.notices| ==> Earned(r.attempts, r.notices[i]))
    && (forall i, j :: 0 <= i < j < |r.notices| ==> r.notices[i] < r.notices[j])
  }

  /** The current attempt has not been notified, and the gate speaks of it alone. */
  predicate Open(r: RunState) {
    && r.attempts != []
    && (forall i :: 0 <= i < |r.notices| ==> r.notices[i] < |r.attempts| - 1)
    && (r.gate.inCall ==> !r.gate.started && r.gate.navigation == 0 && Last(r.attempts).id == 0)
    && (r.gate.inCall && r.gate.buffered != 0 ==> r.gate.buffered in Last(r.attempts).starts)
    && (r.gate.navigation != 0 ==> Last(r.attempts).id == r.gate.navigation)
    && (r.gate.started ==> r.gate.navigation != 0 && r.gate.navigation in Last(r.attempts).starts)
    && (!r.gate.inCall ==> r.gate.buffered == 0)
  }

  predicate Good(r: RunState) {
    && NoticesOk(r)
    && (r.gate != CLOSED ==> Open(r))
    && (r.observing ==> r.attempts != [] && Last(r.attempts).index == r.current)
  }

  lemma SeenKeeps(r: RunState, id: int)
    requires NoticesOk(r) && r.attempts != []
    ensures NoticesOk(r.(attempts := Seen(r.attempts, id)))
    ensures id in Last(Seen(r.attempts, id)).starts && |Seen(r.attempts, id)| == |r.attempts|
  {
  }

  lemma ObservedIsGood(r: RunState, e: NavEvent)
    requires Good(r)
    ensures Good(Observed(r, e))
    ensures r.gate.inCall ==> Observed(r, e).gate.inCall && Observed(r, e).notices == r.notices
    ensures Observed(r, e).current == r.current
  {
    if e.DidStart? && r.observing && e.primary {
      SeenKeeps(r, e.id);
    }
  }

  lemma {:induction false} InsideTheCall(r: RunState, events: seq<NavEvent>)
    requires Good(r) && r.gate.inCall
    ensures var t := ObservedAll(r, events);
      Good(t) && t.gate.inCall && t.notices == r.notices && t.current == r.current && |t.attempts| == |r.attempts|
  {
    ObservingKeepsAttempts(r, events);
    if events != [] {
      InsideTheCall(r, Init(events));
      ObservedIsGood(ObservedAll(r, Init(events)), Last(events));
    }
  }

  lemma LoadedIsGood(r: RunState, id: Option<int>)
    requires Good(r) && r.gate.inCall
    ensures r.attempts != [] && Good(Loaded(r, id)) && Loaded(r, id).current == r.current
  {
  }

  lemma StepIsGood(r: RunState, e: RunEvent)
    requires Good(r)
    ensures Good(Step(r, e))
  {
    match e
    case Nav(n) => ObservedIsGood(r, n);
    case StopObserving =>
    case Dequeue(index, outcome) =>
      if outcome.Load? {
        var l := Loading(r, index);
        assert NoticesOk(l);
        assert Good(l);
        InsideTheCall(l, outcome.during);
        LoadedIsGood(ObservedAll(l, outcome.during), outcome.id);
      }
  }

  lemma {:induction false} RunIsGood(events: seq<RunEvent>)
    ensures Good(Run(NEW_RUN, events))
  {
    if events != [] {
      RunIsGood(Init(events));
      StepIsGood(Run(NEW_RUN, Init(events)), Last(events));
    }
  }

  /** Navigation ids are never handed out twice. */
  predicate FreshIds(attempts: seq<Attempt>) {
    forall j, k :: 0 <= j < k < |attempts| && attempts[k].id != 0 ==> attempts[j].id != attempts[k].id
  }

  /** The item indices the scheduler has dequeued, in order. */
  function DequeuedItems(events: seq<RunEvent>): seq<nat> {
    if events == [] then []
    else DequeuedItems(Init(events)) + if Last(events).Dequeue? then [Last(events).index] else []
  }

  predicate DistinctItems(attempts: seq<Attempt>) {
    forall j, k :: 0 <= j < k < |attempts| ==> attempts[j].index != attempts[k].index
  }

  lemma ObservingKeepsItems(r: RunState, e: NavEvent)
    ensures |Observed(r, e).attempts| == |r.attempts|
    ensures forall j :: 0 <= j < |r.attempts| ==> Observed(r, e).attempts[j].index == r.attempts[j].index
  {
  }

  lemma {:induction false} ObservingAllKeepsItems(r: RunState, events: seq<NavEvent>)
    ensures |ObservedAll(r, events).attempts| == |r.attempts|
    ensures forall j :: 0 <= j < |r.attempts| ==> ObservedAll(r, events).attempts[j].index == r.attempts[j].index
  {
    if events != [] {
      ObservingAllKeepsItems(r, Init(events));
      ObservingKeepsItems(ObservedAll(r, Init(events)), Last(events));
    }
  }

  /** A step makes at most one attempt, for the dequeued item. */
  lemma StepItems(r: RunState, e: RunEvent)
    ensures var t := Step(r, e);
      && |r.attempts| <= |t.attempts| <= |r.attempts| + (if e.Dequeue? then 1 else 0)
      && (forall j :: 0 <= j < |r.attempts| ==> t.attempts[j].index == r.attempts[j].index)
      && (|r.attempts| < |t.attempts| ==> Last(t.attempts).index == e.index)
  {
    match e
    case Nav(n) => ObservingKeepsItems(r, n);
    case Dequeue(index, outcome) =>
      if outcome.Load? {
        ObservingAllKeepsItems(Loading(r, index), outcome.during);
      }
    case StopObserving =>
  }

  lemma {:induction false} AttemptsFollowTheQueue(events: seq<RunEvent>)
    requires NoDup(DequeuedItems(events))
    ensures var r := Run(NEW_RUN, events);
      DistinctItems(r.attempts) && forall j :: 0 <= j < |r.attempts| ==> r.attempts[j].index in DequeuedItems(events)
  {
    if events != [] {
      var before := DequeuedItems(Init(events));
      assert forall i :: 0 <= i < |before| ==> before[i] == DequeuedItems(events)[i];
      AttemptsFollowTheQueue(Init(events));
      StepItems(Run(NEW_RUN, Init(events)), Last(events));
      if Last(events).Dequeue? {
        var now := DequeuedItems(events);
        assert now == before + [Last(events).index];
        assert forall i :: 0 <= i < |before| ==> now[i] != now[|before|];
      }
    }
  }

  lemma ObservingNames(r: RunState, e: NavEvent)
    requires Good(r) && NamesItsItem(r)
    ensures NamesItsItem(Observed(r, e))
  {
    ObservingKeepsItems(r, e);
  }

  lemma {:induction false} InsideTheCallNames(r: RunState, events: seq<NavEvent>)
    requires Good(r) && r.gate.inCall && NamesItsItem(r)
    ensures NamesItsItem(ObservedAll(r, events))
  {
    if events != [] {
      InsideTheCallNames(r, Init(events));
      InsideTheCall(r, Init(events));
      ObservingNames(ObservedAll(r, Init(events)), Last(events));
    }
  }

  lemma {:induction false} RunNamesItems(events: seq<RunEvent>)
    ensures NamesItsItem(Run(NEW_RUN, events))
  {
    if events != [] {
      RunNamesItems(Init(events));
      RunIsGood(Init(events));
      var r, e := Run(NEW_RUN, Init(events)), Last(events);
      match e
      case Nav(n) => ObservingNames(r, n);
      case StopObserving =>
      case Dequeue(index, outcome) =>
        if outcome.Load? {
          var l := Loading(r, index);
          assert NoticesOk(l) && NamesItsItem(l);
          InsideTheCallNames(l, outcome.during);
        }
    }
  }

  /** When no item is dequeued twice, no item index is reported twice, and each is one that was dequeued. */
  lemma EachItemReportedOnce(events: seq<RunEvent>)
    requires NoDup(DequeuedItems(events))
    ensures NoDup(Run(NEW_RUN, events).notified)
    ensures forall n :: n in Run(NEW_RUN, events).notified ==> n in DequeuedItems(events)
  {
    RunIsGood(events);
    RunNamesItems(events);
    AttemptsFollowTheQueue(events);
    var r := Run(NEW_RUN, events);
    forall i, j | 0 <= i < j < |r.notified|
      ensures r.notified[i] != r.notified[j]
    {
      assert r.notices[i] < r.notices[j];
    }
  }

  /** At most one notification per load call, and never for an earlier item's navigation: the start
      that earned it carried an id no earlier attempt was given. */
  lemma OneNoticePerItem(events: seq<RunEvent>, i: nat)
    requires FreshIds(Run(NEW_RUN, events).attempts)
    ensures NoDup(Run(NEW_RUN, events).notices)
    ensures var r := Run(NEW_RUN, events);
      i < |r.notices| ==>
        && r.notices[i] < |r.attempts|
        && var a := r.attempts[r.notices[i]];
           a.id in a.starts && forall j :: 0 <= j < r.notices[i] ==> r.attempts[j].id != a.id
  {
    RunIsGood(events);
    var r := Run(NEW_RUN, events);
    if i < |r.notices| {
      assert Earned(r.attempts, r.notices[i]);
    }
  }
}

/** The process-wide map of live runs behind the refresh-all command. */
module RefreshAllCommand {
  import opened RefreshScheduler

  type Browser = nat
  type RunId = nat

  /** A run object on the heap: the browser it serves and its scheduler's value. */
  datatype RunObject = RunObject(browser: Browser, sched: Sched)

  /** What may reach a live run's scheduler besides the command. */
  datatype Signal =
    | TimerFires(kind: TimerKind, now: int, env: Env)
    | SettleLands(index: nat, now: int, env: Env)
    | BrowserCloses

  function Signalled(p: Params, s: Sched, signal: Signal): Sched {
    match signal
    case TimerFires(kind, now, env) => Fired(p, s, kind, now, env)
    case SettleLands(index, now, env) => Settled(p, s, index, now, env)
    case BrowserCloses => CancelledBy(s)
  }

  class RefreshAllCommand {
    const params: Params
    var runs: map<Browser, RunId>
    // Every run object ever made; a retired one lingers until its deferred deletion.
    var objects: seq<RunObject>

    /** The map holds a run exactly while that run is running. */
    ghost predicate Valid()
      reads this
    {
      && params.Valid()
      && (forall b :: b in runs ==> runs[b] < |objects| && objects[runs[b]].browser == b)
      && (forall id :: 0 <= id < |objects| ==>
            (objects[id].sched.running <==> objects[id].browser in runs && runs[objects[id].browser] == id))
    }

    constructor (params: Params)
      requires params.Valid()
      ensures Valid() && runs == map[] && objects == [] && this.params == params
    {
      this.params := params;
      runs, objects := map[], [];
    }

    /** Unlinks a finished run at once; a successor under the same browser is left alone. */
    method RetireFinishedRun(browser: Browser, finished: RunId)
      modifies this`runs
      ensures runs == if browser in old(runs) && old(runs)[browser] == finished
                      then old(runs) - {browser} else old(runs)
    {
      if browser !in runs || runs[browser] != finished {
        return;
      }
      runs := runs - {browser};
    }

    /** A press: cancel the live run, or make one, publish it, and start it. */
    method RefreshAllInitialUrls(browser: Browser, allowed: bool, count: nat, env: Env)
      requires Valid()
      modifies this
      ensures Valid()
      ensures !allowed ==> runs == old(runs) && objects == old(objects)
      ensures allowed && browser in old(runs) ==>
        && runs == old(runs) - {browser}
        && objects == old(objects)[old(runs)[browser] :=
             RunObject(browser, CancelledBy(old(objects)[old(runs)[browser]].sched))]
      ensures allowed && browser !in old(runs) ==>
        && objects == old(objects) + [RunObject(browser, Started(params, FRESH, count, env))]
        && runs == if Started(params, FRESH, count, env).running
                   then old(runs)[browser := |old(objects)|] else old(runs)
    {
      if !allowed {
        return;
      }
      if browser in runs {
        var id := runs[browser];
        objects := objects[id := RunObject(browser, CancelledBy(objects[id].sched))];
        RetireFinishedRun(browser, id);
        return;
      }
      var id := |objects|;
      objects := objects + [RunObject(browser, FRESH)];
      runs := runs[browser := id];
      objects := objects[id := RunObject(browser, Started(params, FRESH, count, env))];
      if !objects[id].sched.running {
        RetireFinishedRun(browser, id);
        assert runs == old(runs);
      }
    }

    /** Anything else that reaches a run: if it finishes the run, the run is retired before returning. */
    method Deliver(id: RunId, signal: Signal)
      requires Valid() && id < |objects|
      modifies this
      ensures Valid()
      ensures objects == old(objects)[id :=
               RunObject(old(objects)[id].browser, Signalled(params, old(objects)[id].sched, signal))]
      ensures runs ==
        if old(objects)[id].sched.running && !objects[id].sched.running
        then old(runs) - {objects[id].browser} else old(runs)
      // Closing the browser ends its run, once.
      ensures signal.BrowserCloses? ==>
        && !objects[id].sched.running
        && objects[id].sched.finishes
           == old(objects)[id].sched.finishes + (if old(objects)[id].sched.running then 1 else 0)
    {
      var o := objects[id];
      if !o.sched.running {
        SignalsStartNothing(params, o.sched, signal);
      }
      objects := objects[id := o.(sched := Signalled(params, o.sched, signal))];
      if o.sched.running && !objects[id].sched.running {
        RetireFinishedRun(o.browser, id);
      }
    }
  }

  /** Only the command starts a run. */
  lemma SignalsStartNothing(p: Params, s: Sched, signal: Signal)
    requires !s.running
    ensures !Signalled(p, s, signal).running
  {
  }
}
