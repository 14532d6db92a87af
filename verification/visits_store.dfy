/** The settled-visit store: a FIFO-capped, append-only table of visits and a mutable sidecar of tab
    states. `Store` is the database's value; the class is the store object over it. */
module VisitsStore {
  import opened Common
  import opened Mru

  const MAX_VISITS := 999
  const MIN_STORED: int := -0x8000_0000_0000_0000
  const MAX_STORED: int := 0x7fff_ffff_ffff_ffff

  /** Stored microseconds; every real visit lies strictly inside the 64-bit range. */
  type Time = t: int | MIN_STORED < t < MAX_STORED witness 0

  /** `recordable` is what the visit filter says of the parsed URL. */
  datatype Url = Url(spec: string, recordable: bool)

  datatype VisitRow = VisitRow(id: nat, tabUid: Uid, url: string, visitedAt: Time)

  /** `closedIn` is a history variable nothing reads: the number of browsing-data clears the
      coordinator had prepared when the row was made. */
  datatype TabStateRow =
    TabStateRow(restoreKey: Uid, closed: bool, windowId: int, lastKnownUrl: Url, closedIn: nat)

  datatype Store = Store(visits: seq<VisitRow>, tabState: map<Uid, TabStateRow>, nextId: nat, isOpen: bool)

  ghost predicate Valid(s: Store) {
    && |s.visits| <= MAX_VISITS
    && Increasing(s.visits)
    && (forall r :: r in s.visits ==> r.id < s.nextId)
    && (forall k :: k in s.tabState ==> s.tabState[k].restoreKey == k)
  }

  ghost predicate Increasing(rows: seq<VisitRow>) {
    rows == [] || (Increasing(Init(rows)) && forall r :: r in Init(rows) ==> r.id < Last(rows).id)
  }

  /** `Increasing` is strict ascent at every pair of positions. */
  lemma {:induction false} IncreasingAt(rows: seq<VisitRow>, i: nat, j: nat)
    requires Increasing(rows) && i < j < |rows|
    ensures rows[i].id < rows[j].id
  {
    if j == |rows| - 1 {
      assert Init(rows)[i] in Init(rows);
    } else {
      IncreasingAt(Init(rows), i, j);
      assert Init(rows)[i] == rows[i] && Init(rows)[j] == rows[j];
    }
  }

  lemma {:induction false} SuffixIncreasing(t: seq<VisitRow>, rows: seq<VisitRow>)
    requires Increasing(rows) && IsSuffix(t, rows)
    ensures Increasing(t) && forall r :: r in t ==> r in rows
  {
    if t != [] {
      assert Init(t) == Init(rows)[|rows| - |t|..];
      SuffixIncreasing(Init(t), Init(rows));
      assert t == Init(t) + [Last(t)] && rows == Init(rows) + [Last(rows)];
    }
  }

  function Uids(rows: seq<VisitRow>): (r: seq<Uid>)
    ensures |r| == |rows| && forall i :: 0 <= i < |r| ==> r[i] == rows[i].tabUid
  {
    seq(|rows|, i requires 0 <= i < |rows| => rows[i].tabUid)
  }

  function Trim(rows: seq<VisitRow>): seq<VisitRow> {
    if |rows| > MAX_VISITS then rows[|rows| - MAX_VISITS..] else rows
  }

  function AppendVisit(s: Store, uid: Uid, url: string, at: Time): Store {
    if !s.isOpen then s
    else s.(visits := Trim(s.visits + [VisitRow(s.nextId, uid, url, at)]), nextId := s.nextId + 1)
  }

  function Upsert(s: Store, row: TabStateRow): Store {
    if !s.isOpen then s else s.(tabState := s.tabState[row.restoreKey := row])
  }

  /** An absent bound is an open side, stored as the 64-bit extreme. */
  function Lower(begin: Option<Time>): int {
    match begin case None => MIN_STORED case Some(t) => t
  }

  function Upper(end: Option<Time>): int {
    match end case None => MAX_STORED case Some(t) => t
  }

  predicate InRange(row: VisitRow, begin: Option<Time>, end: Option<Time>) {
    Lower(begin) <= row.visitedAt < Upper(end)
  }

  function Kept(rows: seq<VisitRow>, begin: Option<Time>, end: Option<Time>): seq<VisitRow> {
    if rows == [] then []
    else Kept(Init(rows), begin, end) + (if InRange(Last(rows), begin, end) then [] else [Last(rows)])
  }

  /** The uids a sidecar row may lean on: those of surviving visits, legacy empty ones excluded. */
  function Referenced(rows: seq<VisitRow>): set<Uid> {
    set r | r in rows && r.tabUid != "" :: r.tabUid
  }

  function Clear(s: Store, begin: Option<Time>, end: Option<Time>): Store {
    if !s.isOpen then s
    else
      var left := Kept(s.visits, begin, end);
      s.(visits := left,
         tabState := map k | k in s.tabState && (!s.tabState[k].closed || k in Referenced(left)) :: s.tabState[k])
  }

  class VisitsStore {
    var visits: seq<VisitRow>
    var tabState: map<Uid, TabStateRow>
    var nextId: nat
    var isOpen: bool

    function Value(): Store
      reads this
    {
      Store(visits, tabState, nextId, isOpen)
    }

    constructor ()
      ensures Value() == Store([], map[], 1, false)
    {
      visits, tabState, nextId, isOpen := [], map[], 1, false;
    }

    method Append(uid: Uid, url: string, at: Time)
      modifies this
      ensures Value() == AppendVisit(old(Value()), uid, url, at)
    {
      if !isOpen {
        return;
      }
      visits := visits + [VisitRow(nextId, uid, url, at)];
      nextId := nextId + 1;
      // Delete every row that is not among the newest MAX_VISITS.
      if |visits| > MAX_VISITS {
        visits := visits[|visits| - MAX_VISITS..];
      }
    }

    method UpsertTabState(row: TabStateRow)
      modifies this
      ensures Value() == Upsert(old(Value()), row)
    {
      if !isOpen {
        return;
      }
      tabState := tabState[row.restoreKey := row];
    }

    method ReadAll() returns (rows: seq<VisitRow>)
      ensures rows == if isOpen then visits else []
      ensures Valid(Value()) ==> forall i, j :: 0 <= i < j < |rows| ==> rows[i].id < rows[j].id
    {
      rows := if isOpen then visits else [];
      if Valid(Value()) {
        forall i, j | 0 <= i < j < |rows|
          ensures rows[i].id < rows[j].id
        {
          IncreasingAt(visits, i, j);
        }
      }
    }

    method ClearForBrowsingDataRemoval(begin: Option<Time>, end: Option<Time>)
      modifies this
      ensures Value() == Clear(old(Value()), begin, end)
    {
      if !isOpen {
        return;
      }
      var left: seq<VisitRow> := [];
      var i := 0;
      while i < |visits|
        invariant 0 <= i <= |visits|
        invariant left == Kept(visits[..i], begin, end)
        invariant Value() == old(Value())
      {
        assert Init(visits[..i + 1]) == visits[..i];
        if !InRange(visits[i], begin, end) {
          left := left + [visits[i]];
        }
        i := i + 1;
      }
      assert visits[..i] == visits;
      visits := left;
      tabState := map k | k in tabState && (!tabState[k].closed || k in Referenced(left)) :: tabState[k];
    }
  }

  // ---- One clear ----

  lemma {:induction false} KeptMembers(rows: seq<VisitRow>, begin: Option<Time>, end: Option<Time>)
    ensures forall r :: r in Kept(rows, begin, end) <==> r in rows && !InRange(r, begin, end)
    ensures |Kept(rows, begin, end)| <= |rows|
  {
    if rows != [] {
      KeptMembers(Init(rows), begin, end);
      assert rows == Init(rows) + [Last(rows)];
    }
  }

  lemma {:induction false} KeptIncreasing(rows: seq<VisitRow>, begin: Option<Time>, end: Option<Time>)
    requires Increasing(rows)
    ensures Increasing(Kept(rows, begin, end))
  {
    if rows != [] {
      KeptIncreasing(Init(rows), begin, end);
      KeptMembers(Init(rows), begin, end);
      var k := Kept(Init(rows), begin, end);
      SnocIncreasing(k, Last(rows));
      assert k + [] == k;
    }
  }

  lemma KeptExactly(rows: seq<VisitRow>, begin: Option<Time>, end: Option<Time>)
    ensures forall r :: r in Kept(rows, begin, end) <==> r in rows && !InRange(r, begin, end)
    ensures Increasing(rows) ==> Increasing(Kept(rows, begin, end))
    ensures |Kept(rows, begin, end)| <= |rows|
  {
    KeptMembers(rows, begin, end);
    if Increasing(rows) {
      KeptIncreasing(rows, begin, end);
    }
  }

  /** A clear removes exactly the visits in [begin, end), an absent bound reaching every real visit. */
  lemma ClearTakesTheRange(s: Store, begin: Option<Time>, end: Option<Time>, r: VisitRow)
    requires s.isOpen
    ensures r in Clear(s, begin, end).visits <==>
      (r in s.visits && !((begin.None? || begin.value <= r.visitedAt) && (end.None? || r.visitedAt < end.value)))
  {
    KeptExactly(s.visits, begin, end);
  }

  /** A sidecar row survives a clear exactly when it is live or a surviving visit names it, and it
      survives unchanged. */
  lemma ClearCollectsOrphans(s: Store, begin: Option<Time>, end: Option<Time>, key: Uid)
    requires s.isOpen
    ensures var t := Clear(s, begin, end);
      && (key in t.tabState <==>
            (key in s.tabState &&
              (!s.tabState[key].closed || exists r :: r in t.visits && r.tabUid == key && key != "")))
      && (key in t.tabState ==> t.tabState[key] == s.tabState[key])
  {
    var t := Clear(s, begin, end);
    if r :| r in t.visits && r.tabUid == key && key != "" {
      assert key in Referenced(t.visits);
    }
    if key in Referenced(t.visits) {
      var r :| r in t.visits && r.tabUid != "" && r.tabUid == key;
    }
  }

  // ---- Runs ----

  datatype Op =
    | OpAppend(uid: Uid, url: string, at: Time)
    | OpUpsert(row: TabStateRow)
    | OpClear(begin: Option<Time>, end: Option<Time>)

  function Apply(s: Store, op: Op): Store {
    match op
    case OpAppend(uid, url, at) => AppendVisit(s, uid, url, at)
    case OpUpsert(row) => Upsert(s, row)
    case OpClear(begin, end) => Clear(s, begin, end)
  }

  function Run(s: Store, ops: seq<Op>): Store {
    if ops == [] then s else Apply(Run(s, Init(ops)), Last(ops))
  }

  lemma {:induction false} RunStaysValid(s: Store, ops: seq<Op>)
    requires Valid(s)
    ensures Valid(Run(s, ops)) && Run(s, ops).isOpen == s.isOpen
  {
    if ops != [] {
      RunStaysValid(s, Init(ops));
      ApplyStaysValid(Run(s, Init(ops)), Last(ops));
    }
  }

  lemma ApplyStaysValid(s: Store, op: Op)
    requires Valid(s)
    ensures Valid(Apply(s, op)) && Apply(s, op).isOpen == s.isOpen
  {
    match op
    case OpClear(begin, end) => KeptExactly(s.visits, begin, end);
    case OpUpsert(_) =>
    case OpAppend(uid, url, at) => AppendStaysIncreasing(s.visits, VisitRow(s.nextId, uid, url, at));
  }

  lemma AppendStaysIncreasing(rows: seq<VisitRow>, x: VisitRow)
    requires Increasing(rows) && |rows| <= MAX_VISITS && forall r :: r in rows ==> r.id < x.id
    ensures Increasing(Trim(rows + [x])) && |Trim(rows + [x])| <= MAX_VISITS
    ensures forall r :: r in Trim(rows + [x]) ==> r.id <= x.id
  {
    var all, t := rows + [x], Trim(rows + [x]);
    assert |t| <= MAX_VISITS;
    SnocIncreasing(rows, x);
    assert IsSuffix(t, all);
    SuffixIncreasing(t, all);
    forall r | r in t ensures r.id <= x.id {
      assert r in all;
    }
  }

  lemma SnocIncreasing(rows: seq<VisitRow>, x: VisitRow)
    requires Increasing(rows) && forall r :: r in rows ==> r.id < x.id
    ensures Increasing(rows + [x])
  {
    assert Init(rows + [x]) == rows;
  }

  /** What an uncapped table would hold: every append no later clear has taken. */
  function Uncleared(s: Store, ops: seq<Op>): seq<VisitRow>
    requires s.isOpen
  {
    if ops == [] then s.visits
    else
      var before := Uncleared(s, Init(ops));
      match Last(ops)
      case OpAppend(uid, url, at) => before + [VisitRow(Run(s, Init(ops)).nextId, uid, url, at)]
      case OpUpsert(_) => before
      case OpClear(begin, end) => Kept(before, begin, end)
  }

  /** How many of `rows` are newer than `id`. */
  function Newer(rows: seq<VisitRow>, id: nat): nat {
    if rows == [] then 0 else Newer(Init(rows), id) + (if Last(rows).id > id then 1 else 0)
  }

  /** After no prefix of the run did MAX_VISITS uncleared rows sit in front of `id`. */
  ghost predicate NeverCrowdedOut(s: Store, ops: seq<Op>, id: nat)
    requires s.isOpen
  {
    && Newer(Uncleared(s, ops), id) < MAX_VISITS
    && (ops == [] || NeverCrowdedOut(s, Init(ops), id))
  }

  ghost predicate HoldsTheNewest(s: Store, ops: seq<Op>)
    requires s.isOpen
  {
    var held, uncleared := Run(s, ops).visits, Uncleared(s, ops);
    && IsSuffix(held, uncleared)
    && Increasing(uncleared)
    && (forall r :: r in uncleared ==> r.id < Run(s, ops).nextId)
    && (forall i :: 0 <= i < |uncleared| ==> (uncleared[i] in held <==> NeverCrowdedOut(s, ops, uncleared[i].id)))
  }

  /** The table over any run: in strictly increasing id order, the newest end of the uncleared
      appends, and a row is there exactly when it is uncleared and was never crowded out. */
  lemma {:induction false} RunKeepsTheNewest(s: Store, ops: seq<Op>)
    requires Valid(s) && s.isOpen
    ensures HoldsTheNewest(s, ops)
    ensures Valid(Run(s, ops))
  {
    RunStaysValid(s, ops);
    if ops == [] {
      forall i | 0 <= i < |s.visits| ensures NeverCrowdedOut(s, ops, s.visits[i].id) {
        NewerAt(s.visits, i);
      }
    } else {
      RunKeepsTheNewest(s, Init(ops));
      match Last(ops) {
        case OpAppend(_, _, _) => NewestAfterAppend(s, ops);
        case OpClear(_, _) => NewestAfterClear(s, ops);
        case OpUpsert(_) =>
          var u := Uncleared(s, ops);
          forall i | 0 <= i < |u| ensures NeverCrowdedOut(s, ops, u[i].id) <==> NeverCrowdedOut(s, Init(ops), u[i].id) {
          }
      }
    }
  }

  lemma NewestAfterAppend(s: Store, ops: seq<Op>)
    requires Valid(s) && s.isOpen && ops != [] && Last(ops).OpAppend?
    requires HoldsTheNewest(s, Init(ops)) && Valid(Run(s, Init(ops))) && Run(s, Init(ops)).isOpen
    ensures HoldsTheNewest(s, ops)
  {
    var u, v := Uncleared(s, Init(ops)), Run(s, Init(ops)).visits;
    var u', held := Uncleared(s, ops), Run(s, ops).visits;
    var x := Last(u');
    assert u' == u + [x] && held == Trim(v + [x]) && x.id == Run(s, Init(ops)).nextId;
    TrimIsSuffix(u, v, x);
    AppendKeepsOrder(u, x);
    forall i | 0 <= i < |u'| ensures u'[i] in held <==> NeverCrowdedOut(s, ops, u'[i].id) {
      AppendedRow(s, ops, i);
    }
  }

  lemma AppendKeepsOrder(u: seq<VisitRow>, x: VisitRow)
    requires Increasing(u) && forall r :: r in u ==> r.id < x.id
    ensures Increasing(u + [x]) && forall r :: r in u + [x] ==> r.id <= x.id
  {
    SnocIncreasing(u, x);
  }

  lemma AppendedRow(s: Store, ops: seq<Op>, i: nat)
    requires Valid(s) && s.isOpen && ops != [] && Last(ops).OpAppend?
    requires HoldsTheNewest(s, Init(ops)) && Valid(Run(s, Init(ops))) && Run(s, Init(ops)).isOpen
    requires i < |Uncleared(s, ops)|
    ensures Uncleared(s, ops)[i] in Run(s, ops).visits <==> NeverCrowdedOut(s, ops, Uncleared(s, ops)[i].id)
  {
    var p, u' := Init(ops), Uncleared(s, ops);
    var u, v, x := Uncleared(s, p), Run(s, p).visits, Last(u');
    assert u' == u + [x] && x.id == Run(s, p).nextId;
    SnocIncreasing(u, x);
    AppendStep(u, v, x, i);
    if i == |u| {
      NothingNewer(s, p, x.id);
    } else {
      assert u[i] == u'[i] && u[i] in u;
    }
  }

  lemma NewestAfterClear(s: Store, ops: seq<Op>)
    requires Valid(s) && s.isOpen && ops != [] && Last(ops).OpClear?
    requires HoldsTheNewest(s, Init(ops)) && Run(s, Init(ops)).isOpen
    ensures HoldsTheNewest(s, ops)
  {
    var p, begin, end := Init(ops), Last(ops).begin, Last(ops).end;
    var u, v := Uncleared(s, p), Run(s, p).visits;
    KeptExactly(u, begin, end);
    KeptExactly(v, begin, end);
    KeptOfSuffix(u, v, begin, end);
    var u' := Uncleared(s, ops);
    forall i | 0 <= i < |u'| ensures u'[i] in Run(s, ops).visits <==> NeverCrowdedOut(s, ops, u'[i].id) {
      var r := u'[i];
      assert r in u' && r in u;
      var j :| 0 <= j < |u| && u[j] == r;
      assert u[j] in v <==> NeverCrowdedOut(s, p, u[j].id);
      ClearedRow(s, ops, p, r);
    }
  }

  lemma ClearedRow(s: Store, ops: seq<Op>, p: seq<Op>, r: VisitRow)
    requires s.isOpen && ops != [] && p == Init(ops) && Last(ops).OpClear? && Run(s, p).isOpen
    requires r in Uncleared(s, ops) && (r in Run(s, p).visits <==> NeverCrowdedOut(s, p, r.id))
    ensures r in Run(s, ops).visits <==> NeverCrowdedOut(s, ops, r.id)
  {
    var i := KeptRow(Uncleared(s, p), Run(s, p).visits, Last(ops).begin, Last(ops).end, r);
  }

  lemma KeptRow(u: seq<VisitRow>, v: seq<VisitRow>, begin: Option<Time>, end: Option<Time>, r: VisitRow)
    returns (i: nat)
    requires r in Kept(u, begin, end)
    ensures i < |u| && u[i] == r && (r in Kept(v, begin, end) <==> r in v)
    ensures Newer(Kept(u, begin, end), r.id) <= Newer(u, r.id)
  {
    KeptExactly(u, begin, end);
    KeptExactly(v, begin, end);
    NewerAfterKept(u, begin, end, r.id);
    i :| 0 <= i < |u| && u[i] == r;
  }

  lemma SuffixMember(rows: seq<VisitRow>, t: seq<VisitRow>, i: nat)
    requires Increasing(rows) && IsSuffix(t, rows) && i < |rows|
    ensures rows[i] in t <==> i >= |rows| - |t|
  {
    var d := |rows| - |t|;
    if rows[i] in t {
      var j :| 0 <= j < |t| && t[j] == rows[i];
      assert t[j] == rows[d + j];
      if i < d + j {
        IncreasingAt(rows, i, d + j);
      }
    }
    if i >= d {
      assert t[i - d] == rows[i];
    }
  }

  lemma TrimIsSuffix(u: seq<VisitRow>, v: seq<VisitRow>, x: VisitRow)
    requires IsSuffix(v, u)
    ensures IsSuffix(v + [x], u + [x]) && IsSuffix(Trim(v + [x]), u + [x])
    ensures |Trim(v + [x])| == if |v| < MAX_VISITS then |v| + 1 else MAX_VISITS
  {
    assert v + [x] == (u + [x])[|u| - |v|..];
  }

  /** Appending `x` behind a suffix `v` of `u`: who is left after the trim. */
  lemma AppendStep(u: seq<VisitRow>, v: seq<VisitRow>, x: VisitRow, i: nat)
    requires Increasing(u) && Increasing(u + [x]) && IsSuffix(v, u) && |v| <= MAX_VISITS && i <= |u|
    ensures (u + [x])[i] in Trim(v + [x]) <==>
      (i == |u| || u[i] in v) && Newer(u + [x], (u + [x])[i].id) < MAX_VISITS
  {
    TrimIsSuffix(u, v, x);
    NewerAt(u + [x], i);
    SuffixMember(u + [x], Trim(v + [x]), i);
    if i < |u| {
      SuffixMember(u, v, i);
    }
  }

  lemma {:induction false} NewerAt(rows: seq<VisitRow>, i: nat)
    requires Increasing(rows) && i < |rows|
    ensures Newer(rows, rows[i].id) == |rows| - 1 - i
  {
    if i == |rows| - 1 {
      NoneNewer(Init(rows), rows[i].id);
    } else {
      NewerAt(Init(rows), i);
      assert Init(rows)[i] == rows[i] && rows[i] in Init(rows);
    }
  }

  lemma {:induction false} NoneNewer(rows: seq<VisitRow>, id: nat)
    requires forall r :: r in rows ==> r.id <= id
    ensures Newer(rows, id) == 0
  {
    if rows != [] {
      assert rows == Init(rows) + [Last(rows)];
      NoneNewer(Init(rows), id);
    }
  }

  /** Before its own append, nothing can be newer than an id still to be handed out. */
  lemma {:induction false} NothingNewer(s: Store, ops: seq<Op>, id: nat)
    requires Valid(s) && s.isOpen && Run(s, ops).nextId <= id
    ensures NeverCrowdedOut(s, ops, id)
  {
    UnclearedIdsAreOld(s, ops);
    NoneNewer(Uncleared(s, ops), id);
    if ops != [] {
      NothingNewer(s, Init(ops), id);
    }
  }

  lemma {:induction false} UnclearedIdsAreOld(s: Store, ops: seq<Op>)
    requires Valid(s) && s.isOpen
    ensures Run(s, ops).isOpen
    ensures forall r :: r in Uncleared(s, ops) ==> r.id < Run(s, ops).nextId
  {
    if ops != [] {
      UnclearedIdsAreOld(s, Init(ops));
      if Last(ops).OpClear? {
        KeptExactly(Uncleared(s, Init(ops)), Last(ops).begin, Last(ops).end);
      }
    }
  }

  lemma {:induction false} KeptOfSuffix(u: seq<VisitRow>, v: seq<VisitRow>, begin: Option<Time>, end: Option<Time>)
    requires IsSuffix(v, u)
    ensures IsSuffix(Kept(v, begin, end), Kept(u, begin, end))
  {
    if v != [] {
      assert Init(v) == Init(u)[|u| - |v|..];
      KeptOfSuffix(Init(u), Init(v), begin, end);
    }
  }

  lemma {:induction false} NewerAfterKept(rows: seq<VisitRow>, begin: Option<Time>, end: Option<Time>, id: nat)
    ensures Newer(Kept(rows, begin, end), id) <= Newer(rows, id)
  {
    if rows != [] {
      NewerAfterKept(Init(rows), begin, end, id);
      var k := Kept(Init(rows), begin, end);
      assert Init(k + [Last(rows)]) == k;
      assert k + [] == k;
    }
  }

  /** Only a clear drops sidecar rows: trimming visits leaves their rows behind. */
  lemma {:induction false} OnlyClearsDropSidecarRows(s: Store, ops: seq<Op>, key: Uid)
    requires key in s.tabState && key !in Run(s, ops).tabState
    ensures exists k :: 0 <= k < |ops| && ops[k].OpClear?
  {
    if ops != [] && !Last(ops).OpClear? {
      OnlyClearsDropSidecarRows(s, Init(ops), key);
      var k :| 0 <= k < |Init(ops)| && Init(ops)[k].OpClear?;
      assert ops[k].OpClear?;
    } else if ops != [] {
      assert ops[|ops| - 1].OpClear?;
    }
  }

  /** A later clear spares the row: it is live, or a visit that survived the clear names its key. */
  ghost predicate Spares(s: Store, ops: seq<Op>, m: nat, row: TabStateRow)
    requires m < |ops|
  {
    ops[m].OpClear? ==>
      !row.closed || exists r :: r in Run(s, ops[..m + 1]).visits && r.tabUid == row.restoreKey && r.tabUid != ""
  }

  predicate UpsertsKey(op: Op, key: Uid) {
    op.OpUpsert? && op.row.restoreKey == key
  }

  /** Every clear after position `k` spares the row. */
  ghost predicate SparedSince(s: Store, ops: seq<Op>, k: nat, row: TabStateRow) {
    forall m: nat :: k < m < |ops| ==> Spares(s, ops, m, row)
  }

  lemma SparedByPrefix(s: Store, ops: seq<Op>, k: nat, row: TabStateRow)
    requires k + 1 < |ops|
    ensures SparedSince(s, ops, k, row) <==> SparedSince(s, Init(ops), k, row) && Spares(s, ops, |ops| - 1, row)
  {
    var p := Init(ops);
    forall m: nat | k < m < |p| ensures Spares(s, ops, m, row) <==> Spares(s, p, m, row) {
      assert ops[..m + 1] == p[..m + 1] && ops[m] == p[m];
    }
    if SparedSince(s, p, k, row) && Spares(s, ops, |ops| - 1, row) {
      forall m: nat | k < m < |ops| ensures Spares(s, ops, m, row) {
        assert m < |p| ==> Spares(s, p, m, row);
      }
    }
    if SparedSince(s, ops, k, row) {
      forall m: nat | k < m < |p| ensures Spares(s, p, m, row) {
        assert Spares(s, ops, m, row);
      }
    }
  }

  /** The row under a key is the last one upserted: it is there, exactly as written, unless a later
      clear collected it. */
  lemma {:induction false} SidecarHoldsTheLastUpsert(s: Store, ops: seq<Op>, k: nat, key: Uid)
    requires s.isOpen && Valid(s) && k < |ops| && UpsertsKey(ops[k], key)
    requires forall m :: k < m < |ops| ==> !UpsertsKey(ops[m], key)
    ensures var t := Run(s, ops);
      && (key in t.tabState <==> SparedSince(s, ops, k, ops[k].row))
      && (key in t.tabState ==> t.tabState[key] == ops[k].row)
  {
    var p := Init(ops);
    RunStaysValid(s, p);
    if k < |p| {
      assert p[k] == ops[k];
      SidecarHoldsTheLastUpsert(s, p, k, key);
      SparedByPrefix(s, ops, k, ops[k].row);
      UpsertedRowStep(s, ops, key, ops[k].row);
    }
  }

  lemma UpsertedRowStep(s: Store, ops: seq<Op>, key: Uid, row: TabStateRow)
    requires s.isOpen && ops != [] && Run(s, Init(ops)).isOpen && !UpsertsKey(Last(ops), key) && row.restoreKey == key
    requires key in Run(s, Init(ops)).tabState ==> Run(s, Init(ops)).tabState[key] == row
    ensures var (before, t) := (Run(s, Init(ops)), Run(s, ops));
      && (key in t.tabState <==> key in before.tabState && Spares(s, ops, |ops| - 1, row))
      && (key in t.tabState ==> t.tabState[key] == row)
  {
    assert ops[..|ops|] == ops;
    if Last(ops).OpClear? {
      ClearCollectsOrphans(Run(s, Init(ops)), Last(ops).begin, Last(ops).end, key);
    }
  }

  /** A key that is never upserted holds what it held, or nothing. */
  lemma {:induction false} SidecarInventsNothing(s: Store, ops: seq<Op>, key: Uid)
    requires forall m :: 0 <= m < |ops| ==> !UpsertsKey(ops[m], key)
    ensures var t := Run(s, ops);
      key in t.tabState ==> key in s.tabState && t.tabState[key] == s.tabState[key]
  {
    if ops != [] {
      SidecarInventsNothing(s, Init(ops), key);
    }
  }
}
