/** The most-recently-used order of a visit log: the plain move-to-front list, the newest-to-oldest
    scan the browser runs, and the laws that connect them. */
module Mru {
  import opened Common

  type Uid = string

  /** The reference index: visiting `u` moves it to the front. */
  function MoveToFront(order: seq<Uid>, u: Uid): seq<Uid> {
    [u] + Without(order, {u})
  }

  /** The move-to-front list after every visit of `log`, oldest first. */
  function MruOf(log: seq<Uid>): seq<Uid> {
    if log == [] then [] else MoveToFront(MruOf(Init(log)), Last(log))
  }

  /** What the newest-to-oldest scan still has to emit when `seen` is already out. */
  function Scan(log: seq<Uid>, seen: set<Uid>): seq<Uid> {
    if log == [] then []
    else if Last(log) in seen then Scan(Init(log), seen)
    else [Last(log)] + Scan(Init(log), seen + {Last(log)})
  }

  lemma {:induction false} ScanIsMoveToFront(log: seq<Uid>, seen: set<Uid>)
    ensures Scan(log, seen) == Without(MruOf(log), seen)
  {
    if log != [] {
      var u, older := Last(log), MruOf(Init(log));
      WithoutConcat([u], Without(older, {u}), seen);
      WithoutTwice(older, {u}, seen);
      if u in seen {
        ScanIsMoveToFront(Init(log), seen);
        assert {u} + seen == seen;
      } else {
        ScanIsMoveToFront(Init(log), seen + {u});
        assert {u} + seen == seen + {u};
        WithoutIdentity([u], seen);
      }
    }
  }

  /** The scan of the source: newest to oldest, first occurrence wins. */
  method DeriveMruOrder(log: seq<Uid>) returns (mru: seq<Uid>)
    ensures mru == MruOf(log)
  {
    mru := [];
    var seen: set<Uid> := {};
    var i := |log|;
    assert log[..i] == log;
    while i > 0
      invariant 0 <= i <= |log|
      invariant mru + Scan(log[..i], seen) == Scan(log, {})
    {
      assert Init(log[..i]) == log[..i - 1];
      i := i - 1;
      if log[i] !in seen {
        seen := seen + {log[i]};
        mru := mru + [log[i]];
      }
    }
    ScanIsMoveToFront(log, {});
    WithoutIdentity(MruOf(log), {});
  }

  lemma {:induction false} MruIsASet(log: seq<Uid>)
    ensures NoDup(MruOf(log))
    ensures forall u :: u in MruOf(log) <==> u in log
    ensures log != [] ==> MruOf(log) != [] && MruOf(log)[0] == Last(log)
  {
    if log != [] {
      MruIsASet(Init(log));
      WithoutNoDup(MruOf(Init(log)), {Last(log)});
      WithoutMembers(MruOf(Init(log)), {Last(log)});
      assert log == Init(log) + [Last(log)];
    }
  }

  /** Where `u` was last visited. */
  function LastVisit(log: seq<Uid>, u: Uid): (i: nat)
    requires u in log
    ensures i < |log| && log[i] == u
    ensures forall j :: i < j < |log| ==> log[j] != u
  {
    if Last(log) == u then |log| - 1
    else
      assert log == Init(log) + [Last(log)];
      LastVisit(Init(log), u)
  }

  /** The order is exactly "latest last visit first". */
  lemma {:induction false} MruOrderedByLastVisit(log: seq<Uid>, i: nat, j: nat)
    requires i < j < |MruOf(log)|
    ensures MruOf(log)[i] in log && MruOf(log)[j] in log
    ensures LastVisit(log, MruOf(log)[i]) > LastVisit(log, MruOf(log)[j])
  {
    MruIsASet(log);
    var older, u := MruOf(Init(log)), Last(log);
    var a, b := MruOf(log)[i], MruOf(log)[j];
    assert a in MruOf(log) && b in MruOf(log);
    if i > 0 {
      var p, q := WithoutKeepsOrder(older, {u}, i - 1, j - 1);
      MruOrderedByLastVisit(Init(log), p, q);
      assert older[p] == a && older[q] == b;
      assert MruOf(log)[0] == u && a != u && b != u;
    }
  }

  lemma {:induction false} WithoutKeepsOrder(s: seq<Uid>, xs: set<Uid>, i: nat, j: nat) returns (p: nat, q: nat)
    requires i < j < |Without(s, xs)|
    ensures p < q < |s| && s[p] == Without(s, xs)[i] && s[q] == Without(s, xs)[j]
  {
    if s[0] in xs {
      p, q := WithoutKeepsOrder(s[1..], xs, i, j);
      p, q := p + 1, q + 1;
    } else if i > 0 {
      p, q := WithoutKeepsOrder(s[1..], xs, i - 1, j - 1);
      p, q := p + 1, q + 1;
    } else {
      p := 0;
      WithoutMembers(s[1..], xs);
      assert Without(s, xs)[j] == Without(s[1..], xs)[j - 1];
      assert Without(s, xs)[j] in s[1..];
      q :| 0 < q < |s| && s[q] == Without(s, xs)[j];
    }
  }

  /** An MRU order is the recent half's order followed by what is only in the older half. */
  lemma {:induction false} MruOfConcat(a: seq<Uid>, b: seq<Uid>)
    ensures MruOf(a + b) == MruOf(b) + Without(MruOf(a), Elements(b))
  {
    if b == [] {
      assert a + b == a;
      WithoutIdentity(MruOf(a), Elements(b));
    } else {
      var u := Last(b);
      assert Init(a + b) == a + Init(b) && Last(a + b) == u;
      MruOfConcat(a, Init(b));
      WithoutConcat(MruOf(Init(b)), Without(MruOf(a), Elements(Init(b))), {u});
      WithoutTwice(MruOf(a), Elements(Init(b)), {u});
      assert b == Init(b) + [u];
      assert Elements(b) == Elements(Init(b)) + {u};
    }
  }

  /** The in-memory log never holds the same identity twice in a row. */
  function Coalesced(log: seq<Uid>): seq<Uid> {
    if log == [] then [] else Recorded(Coalesced(Init(log)), Last(log))
  }

  function Recorded(log: seq<Uid>, u: Uid): seq<Uid> {
    if log != [] && Last(log) == u then log else log + [u]
  }

  lemma RecordedMovesToFront(log: seq<Uid>, u: Uid)
    ensures MruOf(Recorded(log, u)) == MoveToFront(MruOf(log), u)
    ensures Recorded(log, u) != [] && Last(Recorded(log, u)) == u
  {
    if log != [] && Last(log) == u {
      MruIsASet(log);
      FrontStaysFront(MruOf(log), u);
    } else {
      assert Init(log + [u]) == log;
    }
  }

  lemma FrontStaysFront(order: seq<Uid>, u: Uid)
    requires order != [] && order[0] == u && NoDup(order)
    ensures MoveToFront(order, u) == order
  {
    var rest := order[1..];
    assert forall x :: x in rest ==> x != u;
    WithoutIdentity(rest, {u});
    assert order == [u] + rest;
  }

  lemma {:induction false} CoalescingKeepsMru(log: seq<Uid>)
    ensures MruOf(Coalesced(log)) == MruOf(log)
    ensures log != [] ==> Coalesced(log) != [] && Last(Coalesced(log)) == Last(log)
    ensures forall u :: u in Coalesced(log) ==> u in log
  {
    if log != [] {
      CoalescingKeepsMru(Init(log));
      RecordedMovesToFront(Coalesced(Init(log)), Last(log));
      assert log == Init(log) + [Last(log)];
    }
  }

  lemma CoalescedSnoc(log: seq<Uid>, u: Uid)
    ensures Coalesced(log + [u]) == Recorded(Coalesced(log), u)
  {
    assert Init(log + [u]) == log;
  }

  /** The heart of the reload race, on uids that are all non-empty: `gone` was trimmed away,
      `read` came back, and what had already been journaled is in the runtime log anyway. */
  lemma MergedOrderIsPrefix(history: seq<Uid>, journaled: seq<Uid>, gone: seq<Uid>, read: seq<Uid>, runtime: seq<Uid>)
    requires gone + read == history + journaled
    requires forall u :: u in journaled ==> u in runtime
    ensures MruOf(read + runtime) <= MruOf(history + runtime)
    ensures gone == [] ==> MruOf(read + runtime) == MruOf(history + runtime)
  {
    var rt := Elements(runtime);
    MruOfConcat(gone, read);
    WithoutPrefix(MruOf(read), MruOf(gone + read), rt);
    JournaledAddsNothing(history, journaled, rt);
    MruOfConcat(read, runtime);
    MruOfConcat(history, runtime);
    if gone == [] {
      assert gone + read == read;
    }
  }

  lemma JournaledAddsNothing(history: seq<Uid>, journaled: seq<Uid>, rt: set<Uid>)
    requires forall u :: u in journaled ==> u in rt
    ensures Without(MruOf(history + journaled), rt) == Without(MruOf(history), rt)
  {
    MruOfConcat(history, journaled);
    WithoutConcat(MruOf(journaled), Without(MruOf(history), Elements(journaled)), rt);
    MruIsASet(journaled);
    NothingLeft(MruOf(journaled), rt);
    WithoutTwice(MruOf(history), Elements(journaled), rt);
    assert Elements(journaled) + rt == rt;
  }

  lemma {:induction false} NothingLeft(s: seq<Uid>, xs: set<Uid>)
    requires forall u :: u in s ==> u in xs
    ensures Without(s, xs) == []
  {
    if s != [] {
      assert s[0] in s && forall u :: u in s[1..] ==> u in s;
      NothingLeft(s[1..], xs);
    }
  }

  /** A trimmed read, merged under the runtime log, orders tabs like the full history does.
      `history` is every uid persisted before startup, `journaled` the runtime visits that had
      already reached the store; the read returned all of both but the oldest `lost` rows. Rows
      with an empty uid, which only a store may hold, are dropped by the merge. */
  lemma ReloadMergesToPrefix(history: seq<Uid>, journaled: seq<Uid>, lost: nat, runtime: seq<Uid>)
    requires lost <= |history + journaled|
    requires forall u :: u in journaled && u != "" ==> u in runtime
    ensures MruOf(Without((history + journaled)[lost..], {""}) + runtime) <= MruOf(Without(history, {""}) + runtime)
    ensures lost == 0 ==>
      MruOf(Without((history + journaled)[lost..], {""}) + runtime) == MruOf(Without(history, {""}) + runtime)
  {
    var all := history + journaled;
    assert all == all[..lost] + all[lost..];
    WithoutConcat(all[..lost], all[lost..], {""});
    WithoutConcat(history, journaled, {""});
    WithoutMembers(journaled, {""});
    MergedOrderIsPrefix(Without(history, {""}), Without(journaled, {""}),
                        Without(all[..lost], {""}), Without(all[lost..], {""}), runtime);
  }
}
