/** The gate that decides whether "this tab stopped loading" may settle our attempt: the four-field
    automaton, and an independent reading of the whole event trace. */
module SettleGate {

  datatype GateEvent = Begin | Issued(id: int) | Start(id: int) | Stop | Discarded | Reset

  datatype Gate = Gate(inCall: bool, buffered: int, navigation: int, started: bool)

  const CLOSED := Gate(false, 0, 0, false)

  predicate Settles(g: Gate) {
    !g.inCall && g.started
  }

  function Next(g: Gate, e: GateEvent): Gate {
    match e
    case Begin => Gate(true, 0, 0, false)
    case Issued(id) => Gate(false, 0, id, g.started || (id != 0 && g.buffered == id))
    case Start(id) =>
      if g.inCall then g.(buffered := id)
      else if g.navigation != 0 && id == g.navigation then g.(started := true)
      else g
    case Stop => if Settles(g) then g.(started := false, navigation := 0) else g
    case Discarded => if g.started then g else g.(navigation := 0)
    case Reset => CLOSED
  }

  class NavigationSettleGate {
    var inLoadCall: bool
    var bufferedStartId: int
    var navigationId: int
    var started: bool

    function Value(): Gate
      reads this
    {
      Gate(inLoadCall, bufferedStartId, navigationId, started)
    }

    constructor ()
      ensures Value() == CLOSED
    {
      inLoadCall, bufferedStartId, navigationId, started := false, 0, 0, false;
    }

    method BeginAttempt()
      modifies this
      ensures Value() == Next(old(Value()), Begin)
    {
      inLoadCall := true;
      bufferedStartId := 0;
      navigationId := 0;
      started := false;
    }

    /** Only now can a start dispatched inside the load call be recognised. */
    method AttemptIssued(id: int)
      modifies this
      ensures Value() == Next(old(Value()), Issued(id))
    {
      inLoadCall := false;
      navigationId := id;
      if navigationId == 0 {
        bufferedStartId := 0;
        return;
      }
      if bufferedStartId != 0 && bufferedStartId == navigationId {
        started := true;
      }
      bufferedStartId := 0;
    }

    method OnNavigationStarted(id: int)
      modifies this
      ensures Value() == Next(old(Value()), Start(id))
    {
      if inLoadCall {
        bufferedStartId := id;
        return;
      }
      if navigationId != 0 && id == navigationId {
        started := true;
      }
    }

    method OnStopLoading() returns (settled: bool)
      modifies this
      ensures settled == Settles(old(Value())) && Value() == Next(old(Value()), Stop)
    {
      if inLoadCall || !started {
        return false;
      }
      started := false;
      navigationId := 0;
      return true;
    }

    method OnAttemptDiscarded()
      modifies this
      ensures Value() == Next(old(Value()), Discarded)
    {
      if !started {
        navigationId := 0;
      }
    }

    method ResetGate()
      modifies this
      ensures Value() == Next(old(Value()), Reset)
    {
      inLoadCall, bufferedStartId, navigationId, started := false, 0, 0, false;
    }
  }

  // ---- The trace reading ----

  /** Position `n` is inside a load call: one was entered and neither issued nor abandoned since. */
  predicate InCall(tr: seq<GateEvent>, n: nat)
    requires n <= |tr|
  {
    exists b :: 0 <= b < n && tr[b].Begin? && forall k :: b < k < n ==> !tr[k].Issued? && !tr[k].Reset?
  }

  /** The last start seen inside the load call that is open at `n` carried `id`. */
  predicate LastStartInCall(tr: seq<GateEvent>, n: nat, id: int)
    requires n <= |tr|
  {
    exists j :: 0 <= j < n && tr[j] == Start(id) && InCall(tr, j) &&
      forall k :: j < k < n ==> tr[k].Stop? || tr[k].Discarded?
  }

  /** At `n` the attempt issued with `id` is current: no new attempt, reset, discard or settling stop
      has come since. `settled` names the stops that settled. */
  predicate CurrentIssue(tr: seq<GateEvent>, settled: set<nat>, n: nat, id: int)
    requires n <= |tr|
  {
    exists i :: 0 <= i < n && tr[i] == Issued(id) && id != 0 && forall k :: i < k < n ==> KeepsIssue(tr, settled, k)
  }

  predicate KeepsIssue(tr: seq<GateEvent>, settled: set<nat>, k: nat)
    requires k < |tr|
  {
    !tr[k].Begin? && !tr[k].Issued? && !tr[k].Reset? && !tr[k].Discarded? && k !in settled
  }

  /** Position `s` starts the attempt: the issue reveals a buffered start, or a start carries the
      current issue's id outside the load call. */
  predicate StartsAttempt(tr: seq<GateEvent>, settled: set<nat>, s: nat)
    requires s < |tr|
  {
    || (tr[s].Issued? && tr[s].id != 0 && LastStartInCall(tr, s, tr[s].id))
    || (tr[s].Start? && !InCall(tr, s) && CurrentIssue(tr, settled, s, tr[s].id))
  }

  predicate KeepsAttempt(tr: seq<GateEvent>, settled: set<nat>, k: nat)
    requires k < |tr|
  {
    !tr[k].Begin? && !tr[k].Reset? && k !in settled
  }

  predicate IsStarted(tr: seq<GateEvent>, settled: set<nat>, n: nat)
    requires n <= |tr|
  {
    exists s :: 0 <= s < n && StartsAttempt(tr, settled, s) && forall k :: s < k < n ==> KeepsAttempt(tr, settled, k)
  }

  /** The settling stops among the first `n` events. */
  function SettledStops(tr: seq<GateEvent>, n: nat): (r: set<nat>)
    requires n <= |tr|
    ensures forall k :: k in r ==> k < n
    decreases n, 0
  {
    if n == 0 then {}
    else SettledStops(tr, n - 1) + if SettlesAt(tr, n - 1) then {n - 1} else {}
  }

  /** The stop at `n` settles: outside the load call, the current attempt has started, and no earlier
      stop has settled it. */
  predicate SettlesAt(tr: seq<GateEvent>, n: nat)
    requires n < |tr|
    decreases n, 1
  {
    tr[n].Stop? && !InCall(tr, n) && IsStarted(tr, SettledStops(tr, n), n)
  }

  function RunTo(tr: seq<GateEvent>, n: nat): Gate
    requires n <= |tr|
  {
    if n == 0 then CLOSED else Next(RunTo(tr, n - 1), tr[n - 1])
  }

  // ---- One event further ----

  lemma InCallStep(tr: seq<GateEvent>, n: nat)
    requires n < |tr|
    ensures InCall(tr, n + 1) <==> tr[n].Begin? || (InCall(tr, n) && !tr[n].Issued? && !tr[n].Reset?)
  {
    if InCall(tr, n + 1) && !tr[n].Begin? {
      var b :| 0 <= b < n + 1 && tr[b].Begin? && forall k :: b < k < n + 1 ==> !tr[k].Issued? && !tr[k].Reset?;
      assert b < n;
    }
    if InCall(tr, n) && !tr[n].Issued? && !tr[n].Reset? {
      var b :| 0 <= b < n && tr[b].Begin? && forall k :: b < k < n ==> !tr[k].Issued? && !tr[k].Reset?;
      assert forall k :: b < k < n + 1 ==> !tr[k].Issued? && !tr[k].Reset?;
    }
  }

  lemma LastStartStep(tr: seq<GateEvent>, n: nat, id: int)
    requires n < |tr|
    ensures LastStartInCall(tr, n + 1, id) <==>
      (tr[n] == Start(id) && InCall(tr, n)) || (LastStartInCall(tr, n, id) && (tr[n].Stop? || tr[n].Discarded?))
  {
    if LastStartInCall(tr, n + 1, id) {
      var j :| 0 <= j < n + 1 && tr[j] == Start(id) && InCall(tr, j) &&
        forall k :: j < k < n + 1 ==> tr[k].Stop? || tr[k].Discarded?;
      if j < n {
        assert tr[n].Stop? || tr[n].Discarded?;
      }
    }
    if LastStartInCall(tr, n, id) && (tr[n].Stop? || tr[n].Discarded?) {
      var j :| 0 <= j < n && tr[j] == Start(id) && InCall(tr, j) &&
      forall k :: j < k < n ==> tr[k].Stop? || tr[k].Discarded?;
      assert forall k :: j < k < n + 1 ==> tr[k].Stop? || tr[k].Discarded?;
    }
  }

  ghost predicate SameBelow(a: set<nat>, b: set<nat>, n: nat) {
    forall k: nat :: k < n ==> (k in a <==> k in b)
  }

  lemma CurrentIssueStep(tr: seq<GateEvent>, a: set<nat>, b: set<nat>, n: nat, id: int)
    requires n < |tr| && SameBelow(a, b, n)
    ensures CurrentIssue(tr, b, n + 1, id) <==>
      (tr[n] == Issued(id) && id != 0) || (CurrentIssue(tr, a, n, id) && KeepsIssue(tr, b, n))
  {
    if CurrentIssue(tr, b, n + 1, id) {
      var i :| 0 <= i < n + 1 && tr[i] == Issued(id) && id != 0 && forall k :: i < k < n + 1 ==> KeepsIssue(tr, b, k);
      if i < n {
        assert KeepsIssue(tr, b, n);
        assert forall k :: i < k < n ==> KeepsIssue(tr, b, k) ==> KeepsIssue(tr, a, k);
      }
    }
    if CurrentIssue(tr, a, n, id) && KeepsIssue(tr, b, n) {
      var i :| 0 <= i < n && tr[i] == Issued(id) && id != 0 && forall k :: i < k < n ==> KeepsIssue(tr, a, k);
      assert forall k :: i < k < n ==> KeepsIssue(tr, a, k) ==> KeepsIssue(tr, b, k);
      assert forall k :: i < k < n + 1 ==> KeepsIssue(tr, b, k);
    }
  }

  lemma StartsAttemptSame(tr: seq<GateEvent>, a: set<nat>, b: set<nat>, s: nat)
    requires s < |tr| && SameBelow(a, b, s)
    ensures StartsAttempt(tr, a, s) <==> StartsAttempt(tr, b, s)
  {
    if tr[s].Start? && s > 0 {
      CurrentIssueStep(tr, a, b, s - 1, tr[s].id);
      CurrentIssueStep(tr, a, a, s - 1, tr[s].id);
    }
  }

  /** A started attempt stays started over positions that keep it. */
  lemma StartedCarries(tr: seq<GateEvent>, a: set<nat>, b: set<nat>, n: nat)
    requires n < |tr| && SameBelow(a, b, n) && IsStarted(tr, a, n) && KeepsAttempt(tr, b, n)
    ensures IsStarted(tr, b, n + 1)
  {
    var s :| 0 <= s < n && StartsAttempt(tr, a, s) && forall k :: s < k < n ==> KeepsAttempt(tr, a, k);
    StartsAttemptSame(tr, a, b, s);
    forall k | s < k < n + 1 ensures KeepsAttempt(tr, b, k) {
      assert k < n ==> KeepsAttempt(tr, a, k);
    }
  }

  lemma StartedComesFrom(tr: seq<GateEvent>, a: set<nat>, b: set<nat>, n: nat)
    requires n < |tr| && SameBelow(a, b, n) && IsStarted(tr, b, n + 1)
    ensures StartsAttempt(tr, a, n) || (IsStarted(tr, a, n) && KeepsAttempt(tr, b, n))
  {
    var s :| 0 <= s < n + 1 && StartsAttempt(tr, b, s) && forall k :: s < k < n + 1 ==> KeepsAttempt(tr, b, k);
    StartsAttemptSame(tr, a, b, s);
    if s < n {
      assert KeepsAttempt(tr, b, n);
      forall k | s < k < n ensures KeepsAttempt(tr, a, k) {
        assert KeepsAttempt(tr, b, k);
      }
    }
  }

  lemma IsStartedStep(tr: seq<GateEvent>, a: set<nat>, b: set<nat>, n: nat)
    requires n < |tr| && SameBelow(a, b, n)
    ensures IsStarted(tr, b, n + 1) <==>
      StartsAttempt(tr, a, n) || (IsStarted(tr, a, n) && KeepsAttempt(tr, b, n))
  {
    if IsStarted(tr, b, n + 1) {
      StartedComesFrom(tr, a, b, n);
    }
    if StartsAttempt(tr, a, n) {
      StartsAttemptSame(tr, a, b, n);
    } else if IsStarted(tr, a, n) && KeepsAttempt(tr, b, n) {
      StartedCarries(tr, a, b, n);
    }
  }

  /** The automaton's fields, read off the trace. The issued id matters only until the start. */
  ghost predicate Agrees(g: Gate, tr: seq<GateEvent>, n: nat)
    requires n <= |tr|
  {
    var settled := SettledStops(tr, n);
    && (g.inCall <==> InCall(tr, n))
    && (forall id :: id != 0 ==> (g.buffered == id <==> LastStartInCall(tr, n, id)))
    && (g.started <==> IsStarted(tr, settled, n))
    && (!g.started ==> forall id :: id != 0 ==> (g.navigation == id <==> CurrentIssue(tr, settled, n, id)))
  }

  lemma {:induction false} GateFollowsTrace(tr: seq<GateEvent>, n: nat)
    requires n <= |tr|
    ensures Agrees(RunTo(tr, n), tr, n)
  {
    if n > 0 {
      GateFollowsTrace(tr, n - 1);
      OneEventAgrees(RunTo(tr, n - 1), tr, n - 1);
    }
  }

  /** The id of the latest issue that no attempt or reset has superseded; 0 without one. */
  function LastIssue(tr: seq<GateEvent>, n: nat): int
    requires n <= |tr|
  {
    if n == 0 then 0
    else match tr[n - 1]
      case Issued(id) => id
      case Begin => 0
      case Reset => 0
      case _ => LastIssue(tr, n - 1)
  }

  /** The fourth field: while the attempt is started it is the latest issued id. */
  lemma {:induction false} NavigationFollowsTrace(tr: seq<GateEvent>, n: nat)
    requires n <= |tr|
    ensures var g := RunTo(tr, n);
      (g.navigation == 0 || g.navigation == LastIssue(tr, n)) && (g.started ==> g.navigation == LastIssue(tr, n))
  {
    if n > 0 {
      NavigationFollowsTrace(tr, n - 1);
    }
  }

  lemma OneEventAgrees(g: Gate, tr: seq<GateEvent>, n: nat)
    requires n < |tr| && Agrees(g, tr, n)
    ensures Agrees(Next(g, tr[n]), tr, n + 1)
  {
    InCallStep(tr, n);
    StartedAgrees(g, tr, n);
    BufferAgrees(g, tr, n, n + 1);
    if !Next(g, tr[n]).started {
      IssueAgrees(g, tr, n, n + 1);
    }
  }

  lemma StartedAgrees(g: Gate, tr: seq<GateEvent>, n: nat)
    requires n < |tr| && Agrees(g, tr, n)
    ensures Next(g, tr[n]).started <==> IsStarted(tr, SettledStops(tr, n + 1), n + 1)
  {
    var a, b := SettledStops(tr, n), SettledStops(tr, n + 1);
    assert n in b <==> SettlesAt(tr, n);
    IsStartedStep(tr, a, b, n);
    if !g.started {
      StartAgrees(g, tr, n);
    }
  }

  lemma BufferAgrees(g: Gate, tr: seq<GateEvent>, n: nat, m: nat)
    requires n < |tr| && m == n + 1 && Agrees(g, tr, n)
    ensures forall id :: id != 0 ==> (Next(g, tr[n]).buffered == id <==> LastStartInCall(tr, m, id))
  {
    forall id | id != 0 ensures Next(g, tr[n]).buffered == id <==> LastStartInCall(tr, m, id) {
      LastStartStep(tr, n, id);
      assert g.buffered == id <==> LastStartInCall(tr, n, id);
      if LastStartInCall(tr, n, id) {
        NotBufferedOutsideTheCall(tr, n, id);
      }
    }
  }

  lemma NotBufferedOutsideTheCall(tr: seq<GateEvent>, n: nat, id: int)
    requires n <= |tr| && LastStartInCall(tr, n, id)
    ensures InCall(tr, n)
  {
    var j :| 0 <= j < n && tr[j] == Start(id) && InCall(tr, j) &&
      forall k :: j < k < n ==> tr[k].Stop? || tr[k].Discarded?;
    var b :| 0 <= b < j && tr[b].Begin? && forall k :: b < k < j ==> !tr[k].Issued? && !tr[k].Reset?;
    assert forall k :: b < k < n ==> !tr[k].Issued? && !tr[k].Reset?;
  }

  lemma IssueAgrees(g: Gate, tr: seq<GateEvent>, n: nat, m: nat)
    requires n < |tr| && m == n + 1 && Agrees(g, tr, n) && !Next(g, tr[n]).started
    ensures forall id :: id != 0 ==>
      (Next(g, tr[n]).navigation == id <==> CurrentIssue(tr, SettledStops(tr, m), m, id))
  {
    var a, b := SettledStops(tr, n), SettledStops(tr, m);
    assert n in b <==> SettlesAt(tr, n);
    forall id | id != 0 ensures Next(g, tr[n]).navigation == id <==> CurrentIssue(tr, b, m, id) {
      CurrentIssueStep(tr, a, b, n, id);
      assert !g.started ==> (g.navigation == id <==> CurrentIssue(tr, a, n, id));
    }
  }

  /** The event sets `started` exactly when the trace says it starts the attempt, or it was set. */
  lemma StartAgrees(g: Gate, tr: seq<GateEvent>, n: nat)
    requires n < |tr| && Agrees(g, tr, n) && !g.started
    ensures Next(g, tr[n]).started <==> StartsAttempt(tr, SettledStops(tr, n), n)
  {
    if tr[n].Start? || tr[n].Issued? {
      var id := tr[n].id;
      assert id != 0 ==> (g.buffered == id <==> LastStartInCall(tr, n, id));
      assert id != 0 ==> (g.navigation == id <==> CurrentIssue(tr, SettledStops(tr, n), n, id));
      assert id == 0 ==> !CurrentIssue(tr, SettledStops(tr, n), n, id);
    }
  }

  /** On every event sequence, the gate settles on exactly the stops the trace reading names. */
  lemma GateSettlesExactlyAtSpec(tr: seq<GateEvent>, n: nat)
    requires n < |tr| && tr[n].Stop?
    ensures Settles(RunTo(tr, n)) <==> SettlesAt(tr, n)
  {
    GateFollowsTrace(tr, n);
  }

  /** Only the last start inside the load call is remembered: an earlier start with our id is lost. */
  lemma EarlierBufferedStartIsLost(id: int, other: int)
    requires id != 0 && other != id
    ensures !SettlesAt([Begin, Start(id), Start(other), Issued(id), Stop], 4)
    ensures SettlesAt([Begin, Start(other), Start(id), Issued(id), Stop], 4)
  {
    var lost := [Begin, Start(id), Start(other), Issued(id), Stop];
    var kept := [Begin, Start(other), Start(id), Issued(id), Stop];
    GateSettlesExactlyAtSpec(lost, 4);
    GateSettlesExactlyAtSpec(kept, 4);
    RunsOfFive(lost);
    RunsOfFive(kept);
  }

  lemma RunsOfFive(tr: seq<GateEvent>)
    requires |tr| == 5
    ensures RunTo(tr, 4) == Next(Next(Next(Next(CLOSED, tr[0]), tr[1]), tr[2]), tr[3])
  {
    assert RunTo(tr, 1) == Next(CLOSED, tr[0]);
    assert RunTo(tr, 2) == Next(RunTo(tr, 1), tr[1]);
    assert RunTo(tr, 3) == Next(RunTo(tr, 2), tr[2]);
  }
}
