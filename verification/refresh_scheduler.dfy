/** The pacing engine of "refresh all tabs": start the next item when the previous one settles, or
    `interval` after the previous start, but never sooner than `minSpacing` after it. */
module RefreshScheduler {
  import opened Common

  const DEFAULT_INTERVAL_MS := 5000
  const DEFAULT_MIN_SPACING_MS := 750
  const MIN_INTERVAL_MS := 250
  const MAX_INTERVAL_MS := 600000
  const MIN_MIN_SPACING_MS := 100
  const MAX_MIN_SPACING_MS := 600000

  datatype Params = Params(interval: int, minSpacing: int) {
    predicate Valid() {
      0 < minSpacing <= interval
    }
  }

  /** An out-of-range value is discarded for its default, never clipped to a bound; then the floor is
      clamped to the interval. */
  function FromMilliseconds(intervalMs: int, minSpacingMs: int): (p: Params)
    ensures p.Valid()
    ensures MIN_INTERVAL_MS <= intervalMs <= MAX_INTERVAL_MS ==> p.interval == intervalMs
    ensures !(MIN_INTERVAL_MS <= intervalMs <= MAX_INTERVAL_MS) ==> p.interval == DEFAULT_INTERVAL_MS
    ensures MIN_MIN_SPACING_MS <= minSpacingMs <= MAX_MIN_SPACING_MS && minSpacingMs <= p.interval ==>
      p.minSpacing == minSpacingMs
    ensures !(MIN_MIN_SPACING_MS <= minSpacingMs <= MAX_MIN_SPACING_MS) && DEFAULT_MIN_SPACING_MS <= p.interval ==>
      p.minSpacing == DEFAULT_MIN_SPACING_MS
    ensures MIN_MIN_SPACING_MS <= minSpacingMs <= MAX_MIN_SPACING_MS && p.interval < minSpacingMs ==>
      p.minSpacing == p.interval
    ensures !(MIN_MIN_SPACING_MS <= minSpacingMs <= MAX_MIN_SPACING_MS) && p.interval < DEFAULT_MIN_SPACING_MS ==>
      p.minSpacing == p.interval
  {
    var interval := if intervalMs < MIN_INTERVAL_MS || intervalMs > MAX_INTERVAL_MS
                    then DEFAULT_INTERVAL_MS else intervalMs;
    var spacing := if minSpacingMs < MIN_MIN_SPACING_MS || minSpacingMs > MAX_MIN_SPACING_MS then DEFAULT_MIN_SPACING_MS
                   else minSpacingMs;
    Params(interval, if spacing <= interval then spacing else interval)
  }

  datatype TimerKind = IntervalTimer | DeferTimer | SpacingTimer

  /** An armed one-shot timer; it may fire late, never early. */
  datatype Timer = Timer(deadline: int, kind: TimerKind)

  /** What the delegate and the clock answer when item `c` comes up: whether a dialog defers it; the
      instant read before it is started; the indices it reports settled from inside the call;
      whether a load began; and the instant read after the call. */
  datatype Answer = Answer(defers: bool, at: int, settles: seq<nat>, began: bool, endedAt: int)

  type Env = nat -> Answer

  datatype ItemStart = ItemStart(index: nat, at: int)

  /** The scheduler's value. `posted` holds the settle tasks in flight. The rest is history: the
      indices handed to StartItem in this run, the starts that began a load, whether the run was
      cancelled, and how many runs, finishes and deferrals there have been. */
  datatype Sched = Sched(
    count: nat,
    cursor: nat,
    running: bool,
    waiting: bool,
    lastStart: int,
    timer: Option<Timer>,
    posted: seq<nat>,
    calls: seq<nat>,
    starts: seq<ItemStart>,
    cancelled: bool,
    runs: nat,
    finishes: nat,
    deferrals: nat)

  const FRESH := Sched(0, 0, false, false, 0, None, [], [], [], false, 0, 0, 0)

  function Notified(s: Sched, index: nat): Sched {
    if !s.running || !s.waiting || index != s.cursor then s else s.(posted := s.posted + [index])
  }

  function NotifiedAll(s: Sched, indices: seq<nat>): (r: Sched)
    ensures r == s.(posted := r.posted)
  {
    if indices == [] then s else Notified(NotifiedAll(s, Init(indices)), Last(indices))
  }

  function Finished(s: Sched): Sched {
    s.(running := false, waiting := false, timer := None, posted := [], finishes := s.finishes + 1)
  }

  function Max(a: int, b: int): int {
    if a >= b then a else b
  }

  /** One item offered to the delegate; the flag says the item was skipped, so the next one is
      offered in the same turn. */
  function Offered(p: Params, s: Sched, a: Answer): (Sched, bool) {
    if a.defers then (s.(timer := Some(Timer(a.at + p.interval, DeferTimer)), deferrals := s.deferrals + 1), false)
    else
      var asked := NotifiedAll(s.(lastStart := a.at, waiting := true, calls := s.calls + [s.cursor]), a.settles);
      if a.began then (Began(p, asked, a), false)
      else (asked.(waiting := false, lastStart := s.lastStart, cursor := s.cursor + 1), true)
  }

  function StartFromCursor(p: Params, s: Sched, env: Env): Sched
    decreases s.count - s.cursor
  {
    if !s.running then s
    else if s.cursor >= s.count then Finished(s)
    else
      var (t, skipped) := Offered(p, s, env(s.cursor));
      if skipped then StartFromCursor(p, t, env) else t
  }

  /** The run is over once the last load has started; otherwise the backstop is anchored to the start. */
  function Began(p: Params, s: Sched, a: Answer): Sched {
    var t := s.(starts := s.starts + [ItemStart(s.cursor, a.at)]);
    if s.cursor + 1 == s.count then Finished(t)
    else t.(timer := Some(Timer(a.endedAt + Max(0, a.at + p.interval - a.endedAt), IntervalTimer)))
  }

  function Advanced(p: Params, s: Sched, notBefore: int, now: int, env: Env): Sched {
    var t := s.(waiting := false, cursor := s.cursor + 1);
    if t.cursor >= t.count then Finished(t)
    else if notBefore - now > 0 then t.(timer := Some(Timer(now + (notBefore - now), SpacingTimer)))
    else StartFromCursor(p, t, env)
  }

  function Reset(s: Sched, count: nat): Sched {
    s.(count := count, cursor := 0, waiting := false, running := true, lastStart := 0,
       calls := [], starts := [], cancelled := false, runs := s.runs + 1)
  }

  function Started(p: Params, s: Sched, count: nat, env: Env): Sched {
    StartFromCursor(p, Reset(s, count), env)
  }

  predicate Accepts(s: Sched, index: nat) {
    s.running && s.waiting && index == s.cursor
  }

  function Settled(p: Params, s: Sched, index: nat, now: int, env: Env): Sched {
    if Accepts(s, index) then Advanced(p, s, s.lastStart + p.minSpacing, now, env) else s
  }

  function Fired(p: Params, s: Sched, kind: TimerKind, now: int, env: Env): Sched {
    var t := s.(timer := None);
    if !t.running then t
    else match kind
      case IntervalTimer => Advanced(p, t, now, now, env)
      case DeferTimer => StartFromCursor(p, t, env)
      case SpacingTimer => StartFromCursor(p, t, env)
  }

  function CancelledBy(s: Sched): Sched {
    if s.running then Finished(s.(cancelled := true)) else s
  }

  class InitialUrlRefreshScheduler {
    const params: Params
    var count: nat
    var cursor: nat
    var running: bool
    var waiting: bool
    var lastStart: int
    var timer: Option<Timer>
    var posted: seq<nat>
    // History of the current run, then totals over the object's life.
    var calls: seq<nat>
    var starts: seq<ItemStart>
    var cancelled: bool
    var runs: nat
    var finishes: nat
    var deferrals: nat

    function Value(): Sched
      reads this
    {
      Sched(count, cursor, running, waiting, lastStart, timer, posted, calls, starts,
            cancelled, runs, finishes, deferrals)
    }

    constructor (params: Params)
      requires params.Valid()
      ensures Value() == FRESH && this.params == params
    {
      this.params := params;
      count, cursor, running, waiting, lastStart, timer, posted := 0, 0, false, false, 0, None, [];
      calls, starts, cancelled, runs, finishes, deferrals := [], [], false, 0, 0, 0;
    }

    method Start(itemCount: nat, env: Env)
      requires !running
      modifies this
      ensures Value() == Started(params, old(Value()), itemCount, env)
    {
      BeginRun(itemCount);
      RunFromCursor(env);
    }

    method BeginRun(itemCount: nat)
      modifies this
      ensures Value() == Reset(old(Value()), itemCount)
    {
      count := itemCount;
      cursor := 0;
      waiting := false;
      running := true;
      lastStart := 0;
      calls := [];
      starts := [];
      cancelled := false;
      runs := runs + 1;
    }

    method NotifyItemSettled(index: nat)
      modifies this`posted
      ensures Value() == Notified(old(Value()), index)
    {
      if !running || !waiting || index != cursor {
        return;
      }
      posted := posted + [index];
    }

    method Cancel()
      modifies this
      ensures Value() == CancelledBy(old(Value()))
    {
      if !running {
        return;
      }
      cancelled := true;
      Finish();
    }

    method RunFromCursor(env: Env)
      modifies this
      ensures Value() == StartFromCursor(params, old(Value()), env)
    {
      while running && cursor < count
        invariant StartFromCursor(params, Value(), env) == StartFromCursor(params, old(Value()), env)
        decreases count - cursor
      {
        var skipped := OfferItem(env(cursor));
        if !skipped {
          return;
        }
      }
      if running {
        Finish();
      }
    }

    method OfferItem(a: Answer) returns (skipped: bool)
      modifies this
      ensures (Value(), skipped) == Offered(params, old(Value()), a)
    {
      if a.defers {
        timer := Some(Timer(a.at + params.interval, DeferTimer));
        deferrals := deferrals + 1;
        return false;
      }
      // The waiting state is armed before the out-call, which may report a settle at once.
      var previousStart := lastStart;
      lastStart := a.at;
      waiting := true;
      calls := calls + [cursor];
      StartItemReports(a.settles);
      if a.began {
        ItemBegan(a);
        return false;
      }
      // A skip consumes neither the floor nor a turn.
      waiting := false;
      lastStart := previousStart;
      cursor := cursor + 1;
      return true;
    }

    method ItemBegan(a: Answer)
      requires lastStart == a.at
      modifies this
      ensures Value() == Began(params, old(Value()), a)
    {
      starts := starts + [ItemStart(cursor, a.at)];
      if cursor + 1 == count {
        Finish();
      } else {
        timer := Some(Timer(a.endedAt + Max(0, lastStart + params.interval - a.endedAt), IntervalTimer));
      }
    }

    /** The settle reports a delegate makes from inside StartItem. */
    method StartItemReports(indices: seq<nat>)
      modifies this`posted
      ensures Value() == NotifiedAll(old(Value()), indices)
    {
      var i := 0;
      while i < |indices|
        invariant 0 <= i <= |indices|
        invariant Value() == NotifiedAll(old(Value()), indices[..i])
      {
        assert Init(indices[..i + 1]) == indices[..i];
        NotifyItemSettled(indices[i]);
        i := i + 1;
      }
      assert indices[..i] == indices;
    }

    method OnSettled(index: nat, now: int, env: Env)
      modifies this
      ensures Value() == Settled(params, old(Value()), index, now, env)
    {
      if !running || !waiting || index != cursor {
        return;
      }
      AdvanceAndScheduleNext(lastStart + params.minSpacing, now, env);
    }

    method OnTimer(kind: TimerKind, now: int, env: Env)
      modifies this
      ensures Value() == Fired(params, old(Value()), kind, now, env)
    {
      timer := None;
      if !running {
        return;
      }
      match kind {
        case IntervalTimer => AdvanceAndScheduleNext(now, now, env);
        case DeferTimer => RunFromCursor(env);
        case SpacingTimer => RunFromCursor(env);
      }
    }

    method AdvanceAndScheduleNext(notBefore: int, now: int, env: Env)
      modifies this
      ensures Value() == Advanced(params, old(Value()), notBefore, now, env)
    {
      waiting := false;
      cursor := cursor + 1;
      if cursor >= count {
        Finish();
        return;
      }
      var delay := notBefore - now;
      if delay > 0 {
        timer := Some(Timer(now + delay, SpacingTimer));
        return;
      }
      RunFromCursor(env);
    }

    method Finish()
      modifies this
      ensures Value() == Finished(old(Value()))
    {
      running := false;
      waiting := false;
      timer := None;
      posted := [];
      finishes := finishes + 1;
    }
  }
}
