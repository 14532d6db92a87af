/** What a turn of the pacing engine does, read off the delegate's answers, and the exact distance
    between successive starts: the settle time clamped between the floor and the interval. */
module RefreshExactPacing {
  import opened Common
  import opened RefreshScheduler
  import opened RefreshPacing

  // ---- One turn ----

  /** An item that ends the turn it comes up in: a dialog defers it, or its load begins. */
  predicate Takes(a: Answer) {
    a.defers || a.began
  }

  /** The first item from `i` on that is not skipped, or `count`. */
  function FirstTaken(env: Env, i: nat, count: nat): (k: nat)
    requires i <= count
    ensures i <= k <= count
    ensures forall j: nat :: i <= j < k ==> !Takes(env(j))
    ensures k < count ==> Takes(env(k))
    decreases count - i
  {
    if i == count || Takes(env(i)) then i else FirstTaken(env, i + 1, count)
  }

  predicate Over(s: Sched, t: Sched) {
    !t.running && t.timer.None? && t.posted == [] && t.finishes == s.finishes + 1
  }

  predicate Armed(s: Sched, t: Sched, deadline: int, kind: TimerKind) {
    t.running && t.timer == Some(Timer(deadline, kind)) && t.finishes == s.finishes
  }

  /** Between `s` and `t` the items `i`, `i + 1`, ... are offered in one turn, up to the first that is
      not skipped. A deferred one is not started and comes up again an interval later; a started one
      ends the run if it is the last, and arms the backstop an interval after its own start. */
  ghost predicate Turn(p: Params, s: Sched, t: Sched, i: nat, env: Env)
    requires i <= s.count
  {
    var k := FirstTaken(env, i, s.count);
    var taken := k < s.count && !env(k).defers;
    && Kept(s, t)
    && t.calls == Upto(if taken then k + 1 else k)
    && t.starts == s.starts + (if taken then [ItemStart(k, env(k).at)] else [])
    && t.deferrals == s.deferrals + (if k < s.count && env(k).defers then 1 else 0)
    && (if k == s.count || (taken && k + 1 == s.count) then Over(s, t)
        else if env(k).defers then Armed(s, t, env(k).at + p.interval, DeferTimer)
        else Armed(s, t, Max(env(k).at + p.interval, env(k).endedAt), IntervalTimer))
    && (t.running ==> Reports(s.posted, t.posted, i, if taken then k + 1 else k, env))
  }

  predicate Kept(s: Sched, t: Sched) {
    t.count == s.count && t.runs == s.runs && t.cancelled == s.cancelled
  }

  /** Of what the delegate reports from inside a call, exactly the reports about that item are posted. */
  ghost predicate Reports(before: seq<nat>, after: seq<nat>, i: nat, end: nat, env: Env) {
    forall j: nat ::
      multiset(after)[j] == multiset(before)[j] + if i <= j < end then multiset(env(j).settles)[j] else 0
  }

  ghost predicate Adds(before: seq<nat>, after: seq<nat>, item: nat, reports: seq<nat>) {
    forall j: nat :: multiset(after)[j] == multiset(before)[j] + if j == item then multiset(reports)[j] else 0
  }

  lemma {:induction false} ReportsFromInside(s: Sched, reports: seq<nat>)
    requires s.running && s.waiting
    ensures Adds(s.posted, NotifiedAll(s, reports).posted, s.cursor, reports)
  {
    if reports != [] {
      ReportsFromInside(s, Init(reports));
      assert reports == Init(reports) + [Last(reports)];
    }
  }

  lemma ReportsExtend(a: seq<nat>, b: seq<nat>, c: seq<nat>, i: nat, end: nat, env: Env)
    requires Adds(a, b, i, env(i).settles) && Reports(b, c, i + 1, end, env) && i < end
    ensures Reports(a, c, i, end, env)
  {
  }

  lemma OneReport(a: seq<nat>, b: seq<nat>, i: nat, env: Env)
    requires Adds(a, b, i, env(i).settles)
    ensures Reports(a, b, i, i + 1, env)
  {
  }

  lemma NoReport(a: seq<nat>, i: nat, env: Env)
    ensures Reports(a, a, i, i, env)
  {
  }

  /** One offer that is not deferred: either the load begins, or the item is skipped. */
  lemma OneOffer(p: Params, s: Sched, a: Answer) returns (t: Sched, skipped: bool)
    requires s.running && !s.waiting && s.cursor < s.count && !a.defers && s.calls == Upto(s.cursor)
    ensures (t, skipped) == Offered(p, s, a) && skipped == !a.began
    ensures skipped || t.running ==> Adds(s.posted, t.posted, s.cursor, a.settles)
    ensures t.calls == Upto(s.cursor + 1) && Kept(s, t) && t.deferrals == s.deferrals
    ensures t.starts == s.starts + (if skipped then [] else [ItemStart(s.cursor, a.at)])
    ensures skipped ==> t.running && !t.waiting && t.cursor == s.cursor + 1 && t.finishes == s.finishes
    ensures !skipped && s.cursor + 1 == s.count ==> Over(s, t)
    ensures !skipped && s.cursor + 1 < s.count ==> Armed(s, t, Max(a.at + p.interval, a.endedAt), IntervalTimer)
  {
    UptoSnoc(s.cursor);
    ReportsFromInside(s.(lastStart := a.at, waiting := true, calls := s.calls + [s.cursor]), a.settles);
    var r := Offered(p, s, a);
    t, skipped := r.0, r.1;
  }

  lemma {:induction false} TurnIsATurn(p: Params, s: Sched, env: Env)
    requires s.running && !s.waiting && s.cursor <= s.count && s.calls == Upto(s.cursor)
    ensures Turn(p, s, StartFromCursor(p, s, env), s.cursor, env)
    decreases s.count - s.cursor
  {
    NoReport(s.posted, s.cursor, env);
    if s.cursor < s.count && !env(s.cursor).defers {
      var t, skipped := OneOffer(p, s, env(s.cursor));
      if skipped {
        TurnIsATurn(p, t, env);
        SkipThenTurn(p, s, t, StartFromCursor(p, t, env), env);
      } else if t.running {
        OneReport(s.posted, t.posted, s.cursor, env);
      }
    }
  }

  lemma SkippedReports(s: Sched, t: Sched, u: Sched, k: nat, env: Env)
    requires Adds(s.posted, t.posted, s.cursor, env(s.cursor).settles) && t.cursor == s.cursor + 1 && t.cursor <= k
    requires Reports(t.posted, u.posted, t.cursor, k, env)
    ensures Reports(s.posted, u.posted, s.cursor, k, env)
  {
    ReportsExtend(s.posted, t.posted, u.posted, s.cursor, k, env);
  }

  lemma SkipThenTurn(p: Params, s: Sched, t: Sched, u: Sched, env: Env)
    requires s.cursor < s.count && !Takes(env(s.cursor)) && t.cursor == s.cursor + 1 && Kept(s, t)
    requires t.starts == s.starts && t.deferrals == s.deferrals && t.finishes == s.finishes
    requires Adds(s.posted, t.posted, s.cursor, env(s.cursor).settles) && Turn(p, t, u, t.cursor, env)
    ensures Turn(p, s, u, s.cursor, env)
  {
    var k := FirstTaken(env, t.cursor, s.count);
    assert FirstTaken(env, s.cursor, s.count) == k;
    if u.running {
      SkippedReports(s, t, u, if k < s.count && !env(k).defers then k + 1 else k, env);
    }
  }

  // ---- What each event does to the starts, the timer and the settles in flight ----

  /** The scheduler waits on the item it started last. */
  predicate Awaits(s: Sched, index: nat) {
    s.running && s.timer.Some? && s.timer.value.kind.IntervalTimer? && s.starts != [] && index == Last(s.starts).index
  }

  /** A run offers its first item at once. */
  lemma StartOffersTheFirst(p: Params, c: Clocked, e: Event)
    requires p.Valid() && Good(p, c.s, c.now) && e.StartRun? && Enabled(c, e)
    ensures var s := c.s.(count := e.count, starts := [], cancelled := false, runs := c.s.runs + 1);
      Turn(p, s, Step(p, c, e).s, 0, e.env)
  {
    TurnIsATurn(p, Reset(c.s, e.count), e.env);
  }

  /** Whatever a firing timer was armed for, the next item not yet handed out comes up at once. */
  lemma FiringOffersTheNext(p: Params, c: Clocked, e: Event)
    requires p.Valid() && Good(p, c.s, c.now) && e.FireTimer? && Enabled(c, e)
    ensures Turn(p, c.s, Step(p, c, e).s, |c.s.calls|, e.env)
  {
    TurnAfter(p, c.s, c.s.(timer := None, waiting := false, cursor := |c.s.calls|), e.env);
  }

  /** An awaited settle brings the next start forward: to this very moment when the floor under the
      last start has passed, and otherwise to the moment it passes. */
  lemma SettleBringsTheNextForward(p: Params, c: Clocked, e: Event)
    requires p.Valid() && Good(p, c.s, c.now) && e.DeliverSettle? && Enabled(c, e) && Awaits(c.s, c.s.posted[e.k])
    ensures var s := c.s.(posted := c.s.posted[..e.k] + c.s.posted[e.k + 1..]);
      var (t, floor) := (Step(p, c, e).s, Last(s.starts).at + p.minSpacing);
      if floor <= e.at then Turn(p, s, t, |s.calls|, e.env)
      else Armed(s, t, floor, SpacingTimer) && t.starts == s.starts && t.calls == s.calls && t.posted == s.posted
  {
    var s := c.s.(posted := c.s.posted[..e.k] + c.s.posted[e.k + 1..]);
    assert Accepts(s, c.s.posted[e.k]) && s.lastStart == Last(s.starts).at;
    assert s.calls == Upto(s.cursor + 1) && s.cursor + 1 < s.count;
    NextAfterSettle(p, s, c.s.posted[e.k], e.at, e.env);
  }

  lemma NextAfterSettle(p: Params, s: Sched, index: nat, at: int, env: Env)
    requires Accepts(s, index) && s.starts != [] && s.lastStart == Last(s.starts).at
    requires s.calls == Upto(s.cursor + 1) && s.cursor + 1 < s.count
    ensures var (t, floor) := (Settled(p, s, index, at, env), Last(s.starts).at + p.minSpacing);
      if floor <= at then Turn(p, s, t, |s.calls|, env)
      else Armed(s, t, floor, SpacingTimer) && t.starts == s.starts && t.calls == s.calls && t.posted == s.posted
  {
    if Last(s.starts).at + p.minSpacing <= at {
      TurnAfter(p, s, s.(waiting := false, cursor := s.cursor + 1), env);
    }
  }

  /** `Turn` reads none of the fields that are set up for the turn. */
  lemma TurnAfter(p: Params, s: Sched, u: Sched, env: Env)
    requires u == s.(timer := u.timer, waiting := false, cursor := u.cursor)
    requires s.running && u.cursor <= s.count && s.calls == Upto(u.cursor)
    ensures Turn(p, s, StartFromCursor(p, u, env), u.cursor, env)
  {
    TurnIsATurn(p, u, env);
    TurnCarries(p, s, u, StartFromCursor(p, u, env), u.cursor, env);
  }

  lemma TurnCarries(p: Params, s: Sched, u: Sched, t: Sched, i: nat, env: Env)
    requires u == s.(timer := u.timer, waiting := false, cursor := u.cursor) && i <= s.count
    requires Turn(p, u, t, i, env)
    ensures Turn(p, s, t, i, env)
  {
  }

  /** A report about the awaited item is posted, once per report; any other is dropped. */
  lemma AwaitedReportsArePosted(p: Params, c: Clocked, e: Event)
    requires p.Valid() && Good(p, c.s, c.now) && e.SettleSignal?
    ensures Step(p, c, e).s == c.s.(posted := if Awaits(c.s, e.index) then c.s.posted + [e.index] else c.s.posted)
  {
  }

  /** A settle that nothing waits for only leaves the bag. */
  lemma UnawaitedDeliveryIsInert(p: Params, c: Clocked, e: Event)
    requires p.Valid() && Good(p, c.s, c.now) && e.DeliverSettle? && Enabled(c, e) && !Awaits(c.s, c.s.posted[e.k])
    ensures Step(p, c, e).s == c.s.(posted := c.s.posted[..e.k] + c.s.posted[e.k + 1..])
  {
  }

  // ---- The exact spacing of a punctual run ----

  /** A punctual event whose delegate starts every item it is offered. */
  ghost predicate Eager(c: Clocked, e: Event) {
    && Punctual(c, e)
    && (e.StartRun? || e.DeliverSettle? || e.FireTimer? ==> forall i: nat :: e.env(i).began)
  }

  ghost predicate AllEager(p: Params, c: Clocked, events: seq<Event>)
    decreases |events|
  {
    events == [] || (AllEager(p, c, Init(events)) && Eager(After(p, c, Init(events)), Last(events)))
  }

  predicate Delivers(c: Clocked, e: Event, item: nat) {
    e.DeliverSettle? && e.k < |c.s.posted| && c.s.posted[e.k] == item
  }

  /** When the first settle of `item` was delivered, if one was. */
  function SettledAt(p: Params, c: Clocked, events: seq<Event>, item: nat): Option<int>
    decreases |events|
  {
    if events == [] then None
    else
      var before := SettledAt(p, c, Init(events), item);
      if before.None? && Delivers(After(p, c, Init(events)), Last(events), item) then Some(Last(events).at) else before
  }

  /** The settle time measured from the start, clamped between the floor and the interval. */
  function Gap(p: Params, start: int, settled: Option<int>): int {
    match settled
    case None => p.interval
    case Some(t) => if t - start <= p.minSpacing then p.minSpacing
                    else if t - start >= p.interval then p.interval
                    else t - start
  }

  lemma LateSettlesChangeNoGap(p: Params, start: int, late: int)
    requires p.Valid() && late >= start + p.interval
    ensures Gap(p, start, Some(late)) == Gap(p, start, None)
  {
  }

  /** One item is started, now. */
  lemma EagerTurn(p: Params, s: Sched, t: Sched, i: nat, env: Env, now: int)
    requires p.Valid() && i < s.count && Turn(p, s, t, i, env)
    requires env(i).began && !env(i).defers && env(i).at == now && env(i).endedAt == now
    ensures t.starts == s.starts + [ItemStart(i, now)] && |t.calls| == i + 1
    ensures t.running ==> t.timer == Some(Timer(now + p.interval, IntervalTimer))
    ensures t.running ==> forall j :: j in t.posted ==> j in s.posted || j == i
    ensures !t.running ==> t.posted == []
  {
    assert FirstTaken(env, i, s.count) == i;
    if t.running {
      forall j | j in t.posted ensures j in s.posted || j == i {
        assert multiset(t.posted)[j] > 0;
      }
    }
  }

  /** The history of an eager run, `d` telling when each item's first settle was delivered. */
  ghost predicate Paced(p: Params, s: Sched, d: nat -> Option<int>) {
    && |s.starts| == |s.calls|
    && (forall i :: 0 <= i < |s.starts| ==> s.starts[i].index == i)
    && (forall j :: j in s.posted ==> j < |s.starts|)
    && (forall j: nat :: |s.starts| <= j ==> d(j).None?)
    && GapsAre(p, s.starts, d)
  }

  ghost predicate GapsAre(p: Params, starts: seq<ItemStart>, d: nat -> Option<int>) {
    forall i: nat :: i + 1 < |starts| ==> starts[i + 1].at == starts[i].at + Gap(p, starts[i].at, d(i))
  }

  /** The next start is due a gap after the last. */
  ghost predicate Timed(p: Params, s: Sched, d: nat -> Option<int>) {
    s.running ==> s.starts != [] && TimerIs(p, s.timer, Last(s.starts).at, d(|s.starts| - 1))
  }

  predicate TimerIs(p: Params, timer: Option<Timer>, start: int, settled: Option<int>) {
    match settled
    case None => timer == Some(Timer(start + p.interval, IntervalTimer))
    case Some(t) => t < start + p.minSpacing && timer == Some(Timer(start + p.minSpacing, SpacingTimer))
  }

  /** The next start, one gap after the last. */
  lemma NextStartIsPaced(p: Params, s: Sched, t: Sched, d: nat -> Option<int>, env: Env, now: int)
    requires p.Valid() && Paced(p, s, d) && s.starts != [] && |s.calls| < s.count && Turn(p, s, t, |s.calls|, env)
    requires env(|s.calls|).began && !env(|s.calls|).defers
    requires env(|s.calls|).at == now && env(|s.calls|).endedAt == now
    requires now == Last(s.starts).at + Gap(p, Last(s.starts).at, d(|s.starts| - 1))
    ensures Paced(p, t, d) && Timed(p, t, d)
  {
    EagerTurn(p, s, t, |s.calls|, env, now);
  }

  /** How one event changes what is known of the settles. */
  ghost predicate Learns(c: Clocked, e: Event, d: nat -> Option<int>, d2: nat -> Option<int>) {
    forall j: nat :: d2(j) == if d(j).None? && Delivers(c, e, j) then Some(e.at) else d(j)
  }

  /** A settle that comes after the next item has started finds that gap at its largest already. */
  lemma LateDeliveryIsPaced(p: Params, c: Clocked, e: Event, d: nat -> Option<int>, d2: nat -> Option<int>)
    requires p.Valid() && Good(p, c.s, c.now) && c.now <= e.at && Paced(p, c.s, d) && Learns(c, e, d, d2)
    ensures GapsAre(p, c.s.starts, d2) && forall j: nat :: |c.s.starts| <= j ==> d2(j).None?
  {
    if e.DeliverSettle? && e.k < |c.s.posted| {
      assert c.s.posted[e.k] in c.s.posted;
    }
    forall i: nat | i + 1 < |c.s.starts| ensures Gap(p, c.s.starts[i].at, d2(i)) == Gap(p, c.s.starts[i].at, d(i)) {
      assert c.s.starts[i + 1].at <= c.now;
      if d(i).None? {
        LateSettlesChangeNoGap(p, c.s.starts[i].at, e.at);
      }
    }
  }

  /** What is left when the settle has been taken from the bag. */
  lemma BagIsPaced(p: Params, c: Clocked, e: Event, d: nat -> Option<int>, d2: nat -> Option<int>)
    requires p.Valid() && Good(p, c.s, c.now) && c.now <= e.at && e.DeliverSettle? && e.k < |c.s.posted|
    requires Paced(p, c.s, d) && Learns(c, e, d, d2)
    ensures Paced(p, c.s.(posted := c.s.posted[..e.k] + c.s.posted[e.k + 1..]), d2)
  {
    var bag := c.s.posted[..e.k] + c.s.posted[e.k + 1..];
    LateDeliveryIsPaced(p, c, e, d, d2);
    assert forall j :: j in bag ==> j in c.s.posted;
  }

  lemma AwaitedIsPaced(p: Params, c: Clocked, e: Event, s: Sched, d2: nat -> Option<int>)
    requires p.Valid() && Good(p, c.s, c.now) && Enabled(c, e) && Eager(c, e) && e.DeliverSettle?
    requires Awaits(c.s, c.s.posted[e.k]) && s == c.s.(posted := c.s.posted[..e.k] + c.s.posted[e.k + 1..])
    requires Paced(p, s, d2) && c.s.timer.value.deadline == Last(s.starts).at + p.interval
    requires d2(|s.starts| - 1) == Some(e.at)
    ensures Paced(p, Step(p, c, e).s, d2) && Timed(p, Step(p, c, e).s, d2)
  {
    SettleBringsTheNextForward(p, c, e);
    if Last(s.starts).at + p.minSpacing <= e.at {
      NextStartIsPaced(p, s, Step(p, c, e).s, d2, e.env, e.at);
    }
  }

  lemma DeliveryIsPaced(p: Params, c: Clocked, e: Event, d: nat -> Option<int>, d2: nat -> Option<int>)
    requires p.Valid() && Good(p, c.s, c.now) && Enabled(c, e) && Eager(c, e) && e.DeliverSettle?
    requires Paced(p, c.s, d) && Timed(p, c.s, d) && Learns(c, e, d, d2)
    ensures Paced(p, Step(p, c, e).s, d2) && Timed(p, Step(p, c, e).s, d2)
  {
    BagIsPaced(p, c, e, d, d2);
    if Awaits(c.s, c.s.posted[e.k]) {
      AwaitedIsPaced(p, c, e, c.s.(posted := c.s.posted[..e.k] + c.s.posted[e.k + 1..]), d2);
    } else {
      UnawaitedDeliveryIsInert(p, c, e);
    }
  }

  lemma FiringIsPaced(p: Params, c: Clocked, e: Event, d: nat -> Option<int>)
    requires p.Valid() && Good(p, c.s, c.now) && Enabled(c, e) && Eager(c, e) && e.FireTimer?
    requires Paced(p, c.s, d) && Timed(p, c.s, d)
    ensures Paced(p, Step(p, c, e).s, d) && Timed(p, Step(p, c, e).s, d)
  {
    FiringOffersTheNext(p, c, e);
    NextStartIsPaced(p, c.s, Step(p, c, e).s, d, e.env, e.at);
  }

  lemma SignalIsPaced(p: Params, c: Clocked, e: Event, d: nat -> Option<int>)
    requires p.Valid() && Good(p, c.s, c.now) && (e.SettleSignal? || e.CancelRun?)
    requires Paced(p, c.s, d) && Timed(p, c.s, d)
    ensures Paced(p, Step(p, c, e).s, d) && Timed(p, Step(p, c, e).s, d)
  {
  }

  lemma NothingLearnt(p: Params, s: Sched, d: nat -> Option<int>, d2: nat -> Option<int>)
    requires Paced(p, s, d) && Timed(p, s, d) && forall j: nat :: d2(j) == d(j)
    ensures Paced(p, s, d2) && Timed(p, s, d2)
  {
  }

  lemma StepIsPaced(p: Params, c: Clocked, e: Event, d: nat -> Option<int>, d2: nat -> Option<int>)
    requires p.Valid() && Good(p, c.s, c.now) && Enabled(c, e) && Eager(c, e) && !e.StartRun?
    requires Paced(p, c.s, d) && Timed(p, c.s, d) && Learns(c, e, d, d2)
    ensures Paced(p, Step(p, c, e).s, d2) && Timed(p, Step(p, c, e).s, d2)
  {
    if e.DeliverSettle? {
      DeliveryIsPaced(p, c, e, d, d2);
    } else if e.FireTimer? {
      FiringIsPaced(p, c, e, d);
      NothingLearnt(p, Step(p, c, e).s, d, d2);
    } else {
      SignalIsPaced(p, c, e, d);
      NothingLearnt(p, Step(p, c, e).s, d, d2);
    }
  }

  lemma StartIsPaced(p: Params, c: Clocked, e: Event)
    requires p.Valid() && Good(p, c.s, c.now) && Enabled(c, e) && Eager(c, e) && e.StartRun?
    ensures Paced(p, Step(p, c, e).s, (j: nat) => None) && Timed(p, Step(p, c, e).s, (j: nat) => None)
  {
    StartOffersTheFirst(p, c, e);
    if e.count > 0 {
      var s := c.s.(count := e.count, starts := [], cancelled := false, runs := c.s.runs + 1);
      EagerTurn(p, s, Step(p, c, e).s, 0, e.env, e.at);
    }
  }

  ghost function Settles(p: Params, c: Clocked, events: seq<Event>): nat -> Option<int> {
    (j: nat) => SettledAt(p, c, events, j)
  }

  lemma {:induction false} RunsArePaced(p: Params, c: Clocked, events: seq<Event>)
    requires p.Valid() && Good(p, c.s, c.now) && Legal(p, c, events) && AllEager(p, c, events)
    requires Paced(p, c.s, (j: nat) => None) && Timed(p, c.s, (j: nat) => None)
    requires forall i :: 0 <= i < |events| ==> !events[i].StartRun?
    ensures Paced(p, After(p, c, events).s, Settles(p, c, events))
    ensures Timed(p, After(p, c, events).s, Settles(p, c, events))
    decreases |events|
  {
    if events == [] {
      assert forall j: nat :: Settles(p, c, events)(j) == None;
    } else {
      RunsArePaced(p, c, Init(events));
      RunsAreGood(p, c, Init(events));
      StepIsPaced(p, After(p, c, Init(events)), Last(events), Settles(p, c, Init(events)), Settles(p, c, events));
    }
  }

  /** Successive starts of one run, and the timer that will bring the next. */
  ghost predicate ExactlyPaced(p: Params, s: Sched, settled: nat -> Option<int>) {
    && (forall i: nat :: i < |s.starts| ==> s.starts[i].index == i)
    && (forall i: nat :: i + 1 < |s.starts| ==>
          s.starts[i + 1].at - s.starts[i].at == Gap(p, s.starts[i].at, settled(i)))
    && (s.running ==>
          && s.starts != [] && s.timer.Some?
          && s.timer.value.deadline - Last(s.starts).at
             == if settled(|s.starts| - 1).Some? then p.minSpacing else p.interval)
  }

  lemma PacedIsExact(p: Params, s: Sched, d: nat -> Option<int>)
    requires Paced(p, s, d) && Timed(p, s, d)
    ensures ExactlyPaced(p, s, d)
  {
  }

  /**
   * The pacing, exactly. With punctual timers, no deferral, and a delegate that starts each
   * item at once, the items of a run start in order, and item i + 1 starts after item i by
   * the time item i took to settle, clamped between the floor and the interval; by the
   * interval when it has not settled by then. While the run lasts, a timer is armed for one
   * interval after the last start, or, if that item has settled, for one floor after it.
   */
  lemma PacingIsExact(p: Params, c: Clocked, start: Event, events: seq<Event>)
    requires p.Valid() && Good(p, c.s, c.now) && start.StartRun? && Enabled(c, start) && Eager(c, start)
    requires Legal(p, Step(p, c, start), events) && AllEager(p, Step(p, c, start), events)
    requires forall j :: 0 <= j < |events| ==> !events[j].StartRun?
    ensures var first := Step(p, c, start);
      ExactlyPaced(p, After(p, first, events).s, (j: nat) => SettledAt(p, first, events, j))
  {
    var first := Step(p, c, start);
    StepIsGood(p, c, start);
    StartIsPaced(p, c, start);
    RunsArePaced(p, first, events);
    PacedIsExact(p, After(p, first, events).s, Settles(p, first, events));
  }
}
