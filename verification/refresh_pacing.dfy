/** Timed runs of the pacing engine: a clock that only moves forward, one timer that may fire late
    but never early, settle tasks delivered in any order, and an arbitrary delegate. */
module RefreshPacing {
  import opened Common
  import opened RefreshScheduler

  datatype Clocked = Clocked(s: Sched, now: int)

  /** `at` is when the event begins, `end` when it has finished; `env` is what the delegate and the
      clock answer during it. */
  datatype Event =
    | StartRun(count: nat, at: int, env: Env, end: int)
    | SettleSignal(index: nat, at: int, end: int)
    | DeliverSettle(k: nat, at: int, env: Env, end: int)
    | FireTimer(at: int, env: Env, end: int)
    | CancelRun(at: int, end: int)

  /** The clock never runs backwards through a turn that begins at `at` and is over by `end`. */
  ghost predicate EnvOk(env: Env, at: int, end: int) {
    && at <= end
    && (forall i: nat :: at <= env(i).at <= env(i).endedAt <= end)
    && (forall i: nat, j: nat :: i < j ==> env(i).endedAt <= env(j).at)
  }

  ghost predicate Enabled(c: Clocked, e: Event) {
    && c.now <= e.at <= e.end
    && match e
       case StartRun(_, at, env, end) => !c.s.running && EnvOk(env, at, end)
       case SettleSignal(_, _, _) => true
       case DeliverSettle(k, at, env, end) => k < |c.s.posted| && EnvOk(env, at, end)
       case FireTimer(at, env, end) => c.s.timer.Some? && c.s.timer.value.deadline <= at && EnvOk(env, at, end)
       case CancelRun(_, _) => true
  }

  function Step(p: Params, c: Clocked, e: Event): Clocked {
    var s := match e
      case StartRun(count, _, env, _) => Started(p, c.s, count, env)
      case SettleSignal(index, _, _) => Notified(c.s, index)
      case DeliverSettle(k, at, env, _) =>
        if k >= |c.s.posted| then c.s
        else Settled(p, c.s.(posted := c.s.posted[..k] + c.s.posted[k + 1..]), c.s.posted[k], at, env)
      case FireTimer(at, env, _) => if c.s.timer.None? then c.s else Fired(p, c.s, c.s.timer.value.kind, at, env)
      case CancelRun(_, _) => CancelledBy(c.s);
    Clocked(s, e.end)
  }

  // ---- The invariant ----

  function Upto(n: nat): (r: seq<nat>)
    ensures |r| == n && forall i :: 0 <= i < n ==> r[i] == i
  {
    seq(n, i => i)
  }

  /** Consecutive starts are at least `gap` apart and in increasing index order. */
  predicate Spaced(starts: seq<ItemStart>, gap: int) {
    forall i :: 0 < i < |starts| ==> starts[i - 1].at + gap <= starts[i].at && starts[i - 1].index < starts[i].index
  }

  predicate Before(starts: seq<ItemStart>, cursor: int, now: int) {
    forall i :: 0 <= i < |starts| ==> starts[i].index < cursor && starts[i].at <= now
  }

  /** The timer, while armed, respects the floor. */
  predicate FloorKept(p: Params, s: Sched) {
    s.running && s.starts != [] && s.timer.Some? ==> Last(s.starts).at + p.minSpacing <= s.timer.value.deadline
  }

  predicate Good(p: Params, s: Sched, now: int) {
    && (s.running ==> s.timer.Some? && s.cursor < s.count && !s.cancelled)
    && (!s.running ==> s.timer.None? && s.posted == [] && !s.waiting)
    && s.finishes + (if s.running then 1 else 0) == s.runs
    && |s.calls| <= s.count && s.calls == Upto(|s.calls|)
    && (s.running ==> |s.calls| == s.cursor + if s.waiting then 1 else 0)
    && (!s.running && !s.cancelled ==> |s.calls| == s.count)
    && Spaced(s.starts, p.minSpacing) && Before(s.starts, |s.calls|, now)
    && FloorKept(p, s)
    && (s.waiting ==> s.starts != [] && Last(s.starts) == ItemStart(s.cursor, s.lastStart) && s.cursor + 1 < s.count)
    && (s.running ==> (s.timer.value.kind.IntervalTimer? <==> s.waiting))
  }

  /** Ready to offer items at time `now`: nothing waits, and the floor under the last start is met. */
  predicate Ready(p: Params, s: Sched, now: int) {
    && s.running && !s.waiting && !s.cancelled && s.cursor <= s.count
    && s.finishes + 1 == s.runs
    && s.calls == Upto(s.cursor)
    && Spaced(s.starts, p.minSpacing) && Before(s.starts, s.cursor, now)
    && (s.starts != [] ==> Last(s.starts).at + p.minSpacing <= now)
  }

  lemma SpacedSnoc(starts: seq<ItemStart>, gap: int, st: ItemStart)
    requires Spaced(starts, gap) && (starts != [] ==> Last(starts).at + gap <= st.at && Last(starts).index < st.index)
    ensures Spaced(starts + [st], gap)
  {
    var t := starts + [st];
    forall i | 0 < i < |t| ensures t[i - 1].at + gap <= t[i].at && t[i - 1].index < t[i].index {
      if i < |starts| {
        assert t[i] == starts[i] && t[i - 1] == starts[i - 1];
      }
    }
  }

  lemma UptoSnoc(n: nat)
    ensures Upto(n) + [n] == Upto(n + 1)
  {
  }

  lemma BeganIsGood(p: Params, s: Sched, a: Answer, now: int, end: int)
    requires p.Valid() && Ready(p, s, now) && s.cursor < s.count && now <= a.at <= a.endedAt <= end
    ensures var t := NotifiedAll(s.(lastStart := a.at, waiting := true, calls := s.calls + [s.cursor]), a.settles);
      Good(p, Began(p, t, a), end)
  {
    UptoSnoc(s.cursor);
    SpacedSnoc(s.starts, p.minSpacing, ItemStart(s.cursor, a.at));
  }

  /** A whole turn of offers ends in a good state, skips and deferrals included. */
  lemma {:induction false} TurnIsGood(p: Params, s: Sched, env: Env, now: int, end: int)
    requires p.Valid() && Ready(p, s, now) && now <= end
    requires forall i: nat :: s.cursor <= i ==> now <= env(i).at <= env(i).endedAt <= end
    requires forall i: nat, j: nat :: i < j ==> env(i).endedAt <= env(j).at
    ensures Good(p, StartFromCursor(p, s, env), end)
    decreases s.count - s.cursor
  {
    if s.cursor < s.count {
      var a := env(s.cursor);
      if !a.defers {
        if a.began {
          BeganIsGood(p, s, a, now, end);
        } else {
          UptoSnoc(s.cursor);
          var (t, skipped) := Offered(p, s, a);
          TurnIsGood(p, t, env, a.endedAt, end);
        }
      }
    }
  }

  lemma AdvancedIsGood(p: Params, s: Sched, notBefore: int, now: int, env: Env, end: int)
    requires p.Valid() && EnvOk(env, now, end)
    requires Ready(p, s.(waiting := false, cursor := s.cursor + 1), Max(now, notBefore)) && s.cursor + 1 < s.count
    requires Before(s.starts, s.cursor + 1, now)
    ensures Good(p, Advanced(p, s, notBefore, now, env), end)
  {
    var t := s.(waiting := false, cursor := s.cursor + 1);
    if notBefore - now <= 0 {
      TurnIsGood(p, t, env, now, end);
    }
  }

  lemma TimeMovesOn(p: Params, s: Sched, now: int, later: int)
    requires Good(p, s, now) && now <= later
    ensures Good(p, s, later)
  {
  }

  lemma StepIsGood(p: Params, c: Clocked, e: Event)
    requires p.Valid() && Good(p, c.s, c.now) && Enabled(c, e)
    ensures Good(p, Step(p, c, e).s, Step(p, c, e).now)
  {
    TimeMovesOn(p, c.s, c.now, e.end);
    match e
    case StartRun(count, at, env, end) =>
      TurnIsGood(p, Reset(c.s, count), env, at, end);
    case SettleSignal(_, _, _) =>
    case CancelRun(_, _) =>
    case DeliverSettle(_, _, _, _) => DeliveryIsGood(p, c, e);
    case FireTimer(_, _, _) => FiringIsGood(p, c, e);
  }

  lemma DeliveryIsGood(p: Params, c: Clocked, e: Event)
    requires p.Valid() && Good(p, c.s, c.now) && e.DeliverSettle? && Enabled(c, e)
    ensures Good(p, Step(p, c, e).s, e.end)
  {
    var t := c.s.(posted := c.s.posted[..e.k] + c.s.posted[e.k + 1..]);
    TimeMovesOn(p, t, c.now, e.end);
    if Accepts(t, c.s.posted[e.k]) {
      AdvancedIsGood(p, t, t.lastStart + p.minSpacing, e.at, e.env, e.end);
    }
  }

  lemma FiringIsGood(p: Params, c: Clocked, e: Event)
    requires p.Valid() && Good(p, c.s, c.now) && e.FireTimer? && Enabled(c, e)
    ensures Good(p, Step(p, c, e).s, e.end)
  {
    var t := c.s.(timer := None);
    if c.s.waiting {
      AdvancedIsGood(p, t, e.at, e.at, e.env, e.end);
    } else {
      TurnIsGood(p, t, e.env, e.at, e.end);
    }
  }

  // ---- Runs ----

  ghost predicate Legal(p: Params, c: Clocked, events: seq<Event>)
    decreases |events|
  {
    events == [] || (Legal(p, c, Init(events)) && Enabled(After(p, c, Init(events)), Last(events)))
  }

  function After(p: Params, c: Clocked, events: seq<Event>): Clocked
    decreases |events|
  {
    if events == [] then c else Step(p, After(p, c, Init(events)), Last(events))
  }

  lemma {:induction false} RunsAreGood(p: Params, c: Clocked, events: seq<Event>)
    requires p.Valid() && Good(p, c.s, c.now) && Legal(p, c, events)
    ensures Good(p, After(p, c, events).s, After(p, c, events).now)
    decreases |events|
  {
    if events != [] {
      RunsAreGood(p, c, Init(events));
      StepIsGood(p, After(p, c, Init(events)), Last(events));
    }
  }

  /** The floor. Whatever the timer lateness, skips, deferrals, settle signals or delegate latency,
      successive starts of one run are never closer than the minimum spacing. */
  lemma StartsKeepTheFloor(p: Params, t0: int, events: seq<Event>, i: nat)
    requires p.Valid() && Legal(p, Clocked(FRESH, t0), events)
    ensures var starts := After(p, Clocked(FRESH, t0), events).s.starts;
      0 < i < |starts| ==> starts[i].at - starts[i - 1].at >= p.minSpacing
  {
    RunsAreGood(p, Clocked(FRESH, t0), events);
  }

  /** Exactly once, in order: StartItem sees 0, 1, 2, ... with no gap and no repeat; every item is
      offered unless the run was cancelled; each run finishes exactly once; and a running scheduler
      always has its timer armed. */
  lemma EachItemOnceAndAlwaysArmed(p: Params, t0: int, events: seq<Event>)
    requires p.Valid() && Legal(p, Clocked(FRESH, t0), events)
    ensures var s := After(p, Clocked(FRESH, t0), events).s;
      && s.calls == Upto(|s.calls|) && |s.calls| <= s.count
      && (!s.running && !s.cancelled ==> |s.calls| == s.count)
      && s.finishes + (if s.running then 1 else 0) == s.runs
      && (s.running ==> s.timer.Some?)
      && (!s.running ==> s.timer.None? && s.posted == [])
  {
    RunsAreGood(p, Clocked(FRESH, t0), events);
  }

  /** A duplicate, stale or post-cancel settle changes nothing: a signal is dropped at once, and a
      delivery only leaves the bag. */
  lemma UnwantedSettlesAreInert(p: Params, c: Clocked, index: nat, k: nat, at: int, env: Env, end: int)
    ensures !Accepts(c.s, index) ==> Step(p, c, SettleSignal(index, at, end)).s == c.s
    ensures k < |c.s.posted| && !Accepts(c.s, c.s.posted[k]) ==>
      Step(p, c, DeliverSettle(k, at, env, end)).s == c.s.(posted := c.s.posted[..k] + c.s.posted[k + 1..])
    ensures !Step(p, c, CancelRun(at, end)).s.running
    ensures !c.s.running ==> Step(p, c, CancelRun(at, end)).s == c.s
  {
  }

  // ---- Progress ----

  /** What is left to do: two turns an item, one if it is already being waited on. */
  function Work(s: Sched): nat {
    if !s.running || s.cursor > s.count then 0 else 2 * (s.count - s.cursor) + if s.waiting then 0 else 1
  }

  /** The events that move a run: a timer firing, and the delivery of the awaited settle. */
  predicate Moves(c: Clocked, e: Event) {
    match e
    case FireTimer(_, _, _) => true
    case DeliverSettle(k, _, _, _) => k < |c.s.posted| && Accepts(c.s, c.s.posted[k])
    case _ => false
  }

  lemma {:induction false} TurnWork(p: Params, s: Sched, env: Env)
    requires s.running && !s.waiting && s.cursor <= s.count
    ensures var t := StartFromCursor(p, s, env);
      && s.deferrals <= t.deferrals
      && Work(t) <= 2 * (s.count - s.cursor) + (t.deferrals - s.deferrals)
      && t.count == s.count && t.runs == s.runs
    decreases s.count - s.cursor
  {
    if s.cursor < s.count {
      var (t, skipped) := Offered(p, s, env(s.cursor));
      if skipped {
        TurnWork(p, t, env);
      }
    }
  }

  /** Every move does a unit of work or spends a deferral; nothing else adds work. */
  lemma MovesDoWork(p: Params, c: Clocked, e: Event)
    requires p.Valid() && Good(p, c.s, c.now) && Enabled(c, e) && !e.StartRun?
    ensures var t := Step(p, c, e).s;
      && Work(t) + (if Moves(c, e) then 1 else 0) <= Work(c.s) + (t.deferrals - c.s.deferrals)
      && t.count == c.s.count && c.s.deferrals <= t.deferrals
  {
    match e
    case FireTimer(at, env, _) =>
      var t := c.s.(timer := None);
      TurnWork(p, if c.s.waiting then t.(waiting := false, cursor := t.cursor + 1) else t, env);
    case DeliverSettle(k, at, env, _) =>
      var t := c.s.(posted := c.s.posted[..k] + c.s.posted[k + 1..]);
      if Accepts(t, c.s.posted[k]) {
        TurnWork(p, t.(waiting := false, cursor := t.cursor + 1), env);
      }
    case _ =>
  }

  function MoveCount(p: Params, c: Clocked, events: seq<Event>): nat
    decreases |events|
  {
    if events == [] then 0
    else MoveCount(p, c, Init(events)) + if Moves(After(p, c, Init(events)), Last(events)) then 1 else 0
  }

  lemma {:induction false} MovesAreBounded(p: Params, c: Clocked, events: seq<Event>)
    requires p.Valid() && Good(p, c.s, c.now) && Legal(p, c, events)
    requires forall i :: 0 <= i < |events| ==> !events[i].StartRun?
    ensures var t := After(p, c, events).s;
      && MoveCount(p, c, events) + Work(t) <= Work(c.s) + (t.deferrals - c.s.deferrals)
      && c.s.deferrals <= t.deferrals
    decreases |events|
  {
    if events != [] {
      MovesAreBounded(p, c, Init(events));
      RunsAreGood(p, c, Init(events));
      MovesDoWork(p, After(p, c, Init(events)), Last(events));
    }
  }

  /** Progress. A run of n items, once started, is moved at most 2n times plus once for every
      deferral; and while it runs a timer is armed that will move it. */
  lemma RunsEndAfterBoundedMoves(p: Params, c: Clocked, start: Event, events: seq<Event>)
    requires p.Valid() && Good(p, c.s, c.now) && start.StartRun? && Enabled(c, start)
    requires Legal(p, Step(p, c, start), events) && forall i :: 0 <= i < |events| ==> !events[i].StartRun?
    ensures var t := After(p, Step(p, c, start), events).s;
      && MoveCount(p, Step(p, c, start), events) <= 2 * start.count + (t.deferrals - c.s.deferrals)
      && (t.running ==> t.timer.Some?)
  {
    StepIsGood(p, c, start);
    TurnWork(p, Reset(c.s, start.count), start.env);
    MovesAreBounded(p, Step(p, c, start), events);
    RunsAreGood(p, Step(p, c, start), events);
  }

  // ---- The ceiling, with punctual timers and an instantaneous delegate ----

  /** No time passes inside the event, nothing is deferred, and an armed timer is never overtaken. */
  ghost predicate Punctual(c: Clocked, e: Event) {
    && e.end == e.at
    && (c.s.timer.Some? ==> e.at <= c.s.timer.value.deadline)
    && (e.StartRun? || e.DeliverSettle? || e.FireTimer? ==>
          forall i: nat :: !e.env(i).defers && e.env(i).at == e.at && e.env(i).endedAt == e.at)
  }

  predicate Within(starts: seq<ItemStart>, gap: int) {
    forall i :: 0 < i < |starts| ==> starts[i].at <= starts[i - 1].at + gap
  }

  predicate Prompt(p: Params, s: Sched, now: int) {
    && Within(s.starts, p.interval)
    && (s.running ==> s.starts != [] && s.timer.Some? &&
                            now <= s.timer.value.deadline <= Last(s.starts).at + p.interval)
  }

  lemma {:induction false} TurnIsPrompt(p: Params, s: Sched, env: Env, now: int)
    requires p.Valid() && s.running && s.cursor <= s.count
    requires Within(s.starts, p.interval) && (s.starts != [] ==> now <= Last(s.starts).at + p.interval)
    requires forall i: nat :: !env(i).defers && env(i).at == now && env(i).endedAt == now
    ensures Prompt(p, StartFromCursor(p, s, env), now)
    decreases s.count - s.cursor
  {
    if s.cursor < s.count {
      var (t, skipped) := Offered(p, s, env(s.cursor));
      if skipped {
        TurnIsPrompt(p, t, env, now);
      } else {
        assert t.starts == s.starts + [ItemStart(s.cursor, now)];
      }
    }
  }

  lemma StepIsPrompt(p: Params, c: Clocked, e: Event)
    requires p.Valid() && Good(p, c.s, c.now) && Prompt(p, c.s, c.now) && Enabled(c, e) && Punctual(c, e)
    ensures Prompt(p, Step(p, c, e).s, Step(p, c, e).now)
  {
    match e
    case StartRun(count, at, env, _) => TurnIsPrompt(p, Reset(c.s, count), env, at);
    case DeliverSettle(k, at, env, _) =>
      var t := c.s.(posted := c.s.posted[..k] + c.s.posted[k + 1..]);
      if Accepts(t, c.s.posted[k]) {
        TurnIsPrompt(p, t.(waiting := false, cursor := t.cursor + 1), env, at);
      }
    case FireTimer(at, env, _) =>
      var t := c.s.(timer := None);
      TurnIsPrompt(p, if c.s.waiting then t.(waiting := false, cursor := t.cursor + 1) else t, env, at);
    case _ =>
  }

  ghost predicate AllPunctual(p: Params, c: Clocked, events: seq<Event>)
    decreases |events|
  {
    events == [] || (AllPunctual(p, c, Init(events)) && Punctual(After(p, c, Init(events)), Last(events)))
  }

  lemma {:induction false} RunsArePrompt(p: Params, c: Clocked, events: seq<Event>)
    requires p.Valid() && Good(p, c.s, c.now) && Prompt(p, c.s, c.now)
    requires Legal(p, c, events) && AllPunctual(p, c, events)
    ensures Prompt(p, After(p, c, events).s, After(p, c, events).now)
    decreases |events|
  {
    if events != [] {
      RunsArePrompt(p, c, Init(events));
      RunsAreGood(p, c, Init(events));
      StepIsPrompt(p, After(p, c, Init(events)), Last(events));
    }
  }

  lemma {:induction false} Telescope(starts: seq<ItemStart>, low: int, high: int)
    requires starts != [] && Spaced(starts, low) && Within(starts, high)
    ensures (|starts| - 1) * low <= Last(starts).at - starts[0].at <= (|starts| - 1) * high
  {
    if |starts| > 1 {
      var front := Init(starts);
      Telescope(front, low, high);
      assert Last(front) == starts[|starts| - 2];
      assert (|starts| - 1) * low == (|front| - 1) * low + low;
      assert (|starts| - 1) * high == (|front| - 1) * high + high;
    }
  }

  /** The ceiling and the totals. With punctual timers, no deferral and an instantaneous delegate,
      successive starts are never further apart than the interval, so N starts take between
      (N-1) minimum spacings and (N-1) intervals: fixed-interval pacing when the two are equal. */
  lemma PunctualRunsKeepTheCeiling(p: Params, t0: int, events: seq<Event>)
    requires p.Valid() && Legal(p, Clocked(FRESH, t0), events) && AllPunctual(p, Clocked(FRESH, t0), events)
    ensures var starts := After(p, Clocked(FRESH, t0), events).s.starts;
      && (forall i :: 0 < i < |starts| ==> p.minSpacing <= starts[i].at - starts[i - 1].at <= p.interval)
      && (starts != [] ==>
            (|starts| - 1) * p.minSpacing <= Last(starts).at - starts[0].at <= (|starts| - 1) * p.interval)
  {
    RunsAreGood(p, Clocked(FRESH, t0), events);
    RunsArePrompt(p, Clocked(FRESH, t0), events);
    var starts := After(p, Clocked(FRESH, t0), events).s.starts;
    if starts != [] {
      Telescope(starts, p.minSpacing, p.interval);
    }
  }
}
