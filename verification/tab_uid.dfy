/** The live-tab uid registry and the per-tab helper that keeps it in step with tab life. */
module TabUid {
  import opened Common

  type TabId = int

  type Uid = string

  /** Two maps kept as each other's inverse. */
  datatype Registry = Registry(uidByTab: map<TabId, Uid>, tabByUid: map<Uid, TabId>)

  const EMPTY := Registry(map[], map[])

  predicate Inverse(r: Registry) {
    && (forall t :: t in r.uidByTab ==> r.uidByTab[t] in r.tabByUid && r.tabByUid[r.uidByTab[t]] == t)
    && (forall u :: u in r.tabByUid ==> r.tabByUid[u] in r.uidByTab && r.uidByTab[r.tabByUid[u]] == u)
  }

  predicate IsLive(r: Registry, uid: Uid) {
    uid in r.tabByUid
  }

  function Unregister(r: Registry, t: TabId): Registry {
    if t !in r.uidByTab then r else Registry(r.uidByTab - {t}, r.tabByUid - {r.uidByTab[t]})
  }

  function Register(r: Registry, t: TabId, uid: Uid): Registry {
    var freed := Unregister(r, t);
    Registry(freed.uidByTab[t := uid], freed.tabByUid[uid := t])
  }

  /** The uid a tab ends up with when it brings `restored`; `mint` is what minting would yield. */
  function Effective(r: Registry, restored: Uid, mint: Uid, wellFormed: Uid -> bool): Uid {
    if !wellFormed(restored) || IsLive(r, restored) then mint else restored
  }

  lemma UnregisterFrees(r: Registry, t: TabId)
    requires Inverse(r)
    ensures Inverse(Unregister(r, t)) && t !in Unregister(r, t).uidByTab
    ensures t in r.uidByTab ==> !IsLive(Unregister(r, t), r.uidByTab[t])
    ensures forall s :: s != t && s in r.uidByTab ==>
              s in Unregister(r, t).uidByTab && Unregister(r, t).uidByTab[s] == r.uidByTab[s]
    ensures Unregister(r, t).tabByUid.Keys <= r.tabByUid.Keys
  {
  }

  /** Registering a uid that is not live keeps the maps inverse and touches no other tab. */
  lemma RegisterKeepsInverse(r: Registry, t: TabId, uid: Uid)
    requires Inverse(r) && !IsLive(r, uid)
    ensures Inverse(Register(r, t, uid)) && t in Register(r, t, uid).uidByTab && Register(r, t, uid).uidByTab[t] == uid
    ensures forall s :: s != t && s in r.uidByTab ==>
              s in Register(r, t, uid).uidByTab && Register(r, t, uid).uidByTab[s] == r.uidByTab[s]
    ensures Register(r, t, uid).tabByUid.Keys <= r.tabByUid.Keys + {uid}
    ensures Register(r, t, uid).uidByTab.Keys == r.uidByTab.Keys + {t}
  {
    UnregisterFrees(r, t);
  }

  /** The registry after a tab brings `restored`. */
  function Adopted(r: Registry, t: TabId, restored: Uid, mint: Uid, wellFormed: Uid -> bool): Registry {
    Register(r, t, Effective(r, restored, mint, wellFormed))
  }

  /**
   * A restored uid is adopted exactly when it is well formed and live nowhere, the
   * asking tab included; either way the maps stay inverse and no other tab notices.
   */
  lemma AdoptedIff(r: Registry, t: TabId, restored: Uid, mint: Uid, wellFormed: Uid -> bool)
    requires Inverse(r) && mint != restored && !IsLive(r, mint)
    ensures Effective(r, restored, mint, wellFormed) == restored <==> wellFormed(restored) && !IsLive(r, restored)
    ensures var after := Adopted(r, t, restored, mint, wellFormed);
            && Inverse(after) && t in after.uidByTab
            && (after.uidByTab[t] == restored <==> wellFormed(restored) && !IsLive(r, restored))
            && (after.uidByTab[t] == restored || after.uidByTab[t] == mint)
            && (forall s :: s != t && s in r.uidByTab ==> s in after.uidByTab && after.uidByTab[s] == r.uidByTab[s])
  {
    RegisterKeepsInverse(r, t, Effective(r, restored, mint, wellFormed));
  }

  /** What the service's header promises to adopt: a well-formed uid that is not live on another tab. */
  predicate Promised(r: Registry, t: TabId, restored: Uid, wellFormed: Uid -> bool) {
    wellFormed(restored) && (IsLive(r, restored) ==> r.tabByUid[restored] == t)
  }

  /** Offering a tab the uid it already holds replaces that uid by a fresh one and frees it. */
  lemma OwnUidIsRestamped(r: Registry, t: TabId, uid: Uid, mint: Uid, wellFormed: Uid -> bool)
    requires Inverse(r) && t in r.uidByTab && r.uidByTab[t] == uid && mint != uid && !IsLive(r, mint)
    ensures var after := Adopted(r, t, uid, mint, wellFormed);
            t in after.uidByTab && after.uidByTab[t] == mint && !IsLive(after, uid)
  {
    AdoptedIff(r, t, uid, mint, wellFormed);
  }

  /** The header's promise is met exactly when the asking tab does not itself hold the restored uid, well formed. */
  lemma PromiseMetIff(r: Registry, t: TabId, restored: Uid, mint: Uid, wellFormed: Uid -> bool)
    requires Inverse(r) && mint != restored && !IsLive(r, mint)
    ensures var after := Adopted(r, t, restored, mint, wellFormed);
            && t in after.uidByTab
            && ((after.uidByTab[t] == restored <==> Promised(r, t, restored, wellFormed))
                <==> !(wellFormed(restored) && t in r.uidByTab && r.uidByTab[t] == restored))
  {
    AdoptedIff(r, t, restored, mint, wellFormed);
  }

  class TabUidService {
    var uidByTab: map<TabId, Uid>
    var tabByUid: map<Uid, TabId>
    const wellFormed: Uid -> bool

    ghost function Value(): Registry
      reads this
    {
      Registry(uidByTab, tabByUid)
    }

    constructor (wellFormed: Uid -> bool)
      ensures Value() == EMPTY && this.wellFormed == wellFormed
    {
      uidByTab, tabByUid := map[], map[];
      this.wellFormed := wellFormed;
    }

    method UnregisterTab(t: TabId)
      modifies this
      ensures Value() == Unregister(old(Value()), t)
    {
      if t !in uidByTab {
        return;
      }
      tabByUid := tabByUid - {uidByTab[t]};
      uidByTab := uidByTab - {t};
    }

    /** `mint` is the random uid the mint draws. */
    method MintAndRegister(t: TabId, mint: Uid) returns (uid: Uid)
      modifies this
      ensures uid == mint && Value() == Register(old(Value()), t, mint)
    {
      UnregisterTab(t);
      uidByTab := uidByTab[t := mint];
      tabByUid := tabByUid[mint := t];
      uid := mint;
    }

    method AdoptOrRestamp(t: TabId, restored: Uid, mint: Uid) returns (uid: Uid)
      modifies this
      ensures uid == Effective(old(Value()), restored, mint, wellFormed)
      ensures Value() == Register(old(Value()), t, uid)
    {
      if !wellFormed(restored) || restored in tabByUid {
        uid := MintAndRegister(t, mint);
        return;
      }
      UnregisterTab(t);
      uidByTab := uidByTab[t := restored];
      tabByUid := tabByUid[restored := t];
      uid := restored;
    }

    method GetUidForTab(t: TabId) returns (uid: Option<Uid>)
      ensures uid == if t in uidByTab then Some(uidByTab[t]) else None
    {
      uid := if t in uidByTab then Some(uidByTab[t]) else None;
    }
  }

  // ---- The helper's life on a web contents ----

  /** `discarded` remembers that the helper handed its uid over. */
  datatype Contents = Contents(tab: TabId, pending: Option<Uid>, helper: Option<Uid>, discarded: bool)

  function AttachUid(r: Registry, c: Contents, mint: Uid, wellFormed: Uid -> bool): Uid {
    if c.pending.None? then mint else Effective(r, c.pending.value, mint, wellFormed)
  }

  class WebContents {
    const tab: TabId
    var pending: Option<Uid>
    var helper: Option<Uid>
    ghost var discarded: bool

    ghost function Value(): Contents
      reads this
    {
      Contents(tab, pending, helper, discarded)
    }

    constructor (tab: TabId)
      ensures Value() == Contents(tab, None, None, false)
    {
      this.tab := tab;
      pending, helper, discarded := None, None, false;
    }

    /** Takes the pending uid or mints. */
    method CreateHelper(service: TabUidService, mint: Uid)
      modifies this, service
      ensures var uid := AttachUid(old(service.Value()), old(Value()), mint, service.wellFormed);
              && service.Value() == Register(old(service.Value()), tab, uid)
              && Value() == old(Value()).(pending := None, helper := Some(uid))
    {
      var uid;
      if pending.None? {
        uid := service.MintAndRegister(tab, mint);
      } else {
        uid := service.AdoptOrRestamp(tab, pending.value, mint);
      }
      pending, helper := None, Some(uid);
    }

    method MaybeCreateForTab(service: TabUidService, mint: Uid)
      modifies this, service
      ensures old(helper).Some? ==> service.Value() == old(service.Value()) && Value() == old(Value())
      ensures old(helper).None? ==>
                var uid := AttachUid(old(service.Value()), old(Value()), mint, service.wellFormed);
                && service.Value() == Register(old(service.Value()), tab, uid)
                && Value() == old(Value()).(pending := None, helper := Some(uid))
    {
      if helper.None? {
        CreateHelper(service, mint);
      }
    }

    /** This contents is being replaced by `next`. */
    method WillDiscardContents(service: TabUidService, next: WebContents, mint: Uid)
      requires next != this
      modifies this, next, service
      ensures old(helper).None? ==>
                service.Value() == old(service.Value()) && Value() == old(Value()) && next.Value() == old(next.Value())
      ensures old(helper).Some? ==>
                var freed := Unregister(old(service.Value()), tab);
                var uid := Effective(freed, old(helper).value, mint, service.wellFormed);
                && service.Value() == Register(freed, next.tab, uid)
                && Value() == old(Value()).(discarded := true)
                && next.Value() == old(next.Value()).(pending := None, helper := Some(uid))
    {
      if helper.None? {
        return;
      }
      discarded := true;
      service.UnregisterTab(tab);
      next.pending := helper;
      next.CreateHelper(service, mint);
    }

    method DestroyHelper(service: TabUidService)
      modifies this, service
      ensures service.Value() == if old(helper).Some?
                                 then Unregister(old(service.Value()), tab) else old(service.Value())
      ensures Value() == old(Value()).(helper := None)
    {
      if helper.Some? {
        service.UnregisterTab(tab);
      }
      helper := None;
    }
  }

  // ---- Runs ----

  type ContentsId = nat

  /** `usedTabs` are the tab ids ever given out and `seen` the uids ever registered. */
  datatype System = System(registry: Registry, contents: map<ContentsId, Contents>,
                           usedTabs: set<TabId>, seen: set<Uid>)

  datatype Event =
    | NewContents(c: ContentsId, tab: TabId)
    | SetPending(c: ContentsId, uid: Uid)
    | Attach(c: ContentsId, mint: Uid)
    | Discard(c: ContentsId, next: ContentsId, mint: Uid)
    | Destroy(c: ContentsId)

  predicate Unseen(s: System, mint: Uid, wellFormed: Uid -> bool) {
    wellFormed(mint) && mint !in s.seen
  }

  /** Tab ids are not reused, mints are new, a replacement contents has no helper yet. */
  predicate Enabled(s: System, e: Event, wellFormed: Uid -> bool) {
    match e
    case NewContents(c, tab) => c !in s.contents && tab !in s.usedTabs
    case SetPending(c, uid) => c in s.contents
    case Attach(c, mint) => c in s.contents && Unseen(s, mint, wellFormed)
    case Discard(c, next, mint) =>
      c in s.contents && next in s.contents && c != next && s.contents[next].helper.None? && Unseen(s, mint, wellFormed)
    case Destroy(c) => c in s.contents
  }

  function AttachTo(s: System, c: ContentsId, r: Registry, k: Contents, uid: Uid): System {
    s.(registry := Register(r, k.tab, uid),
       contents := s.contents[c := k.(pending := None, helper := Some(uid))],
       seen := s.seen + {uid})
  }

  function Step(s: System, e: Event, wellFormed: Uid -> bool): System
    requires Enabled(s, e, wellFormed)
  {
    match e
    case NewContents(c, tab) =>
      s.(contents := s.contents[c := Contents(tab, None, None, false)], usedTabs := s.usedTabs + {tab})
    case SetPending(c, uid) =>
      if uid == "" then s else s.(contents := s.contents[c := s.contents[c].(pending := Some(uid))])
    case Attach(c, mint) =>
      var k := s.contents[c];
      if k.helper.Some? then s else AttachTo(s, c, s.registry, k, AttachUid(s.registry, k, mint, wellFormed))
    case Discard(c, next, mint) =>
      var k := s.contents[c];
      if k.helper.None? then s
      else
        var freed := Unregister(s.registry, k.tab);
        var marked := s.(contents := s.contents[c := k.(discarded := true)]);
        AttachTo(marked, next, freed, s.contents[next], Effective(freed, k.helper.value, mint, wellFormed))
    case Destroy(c) =>
      var k := s.contents[c];
      s.(registry := if k.helper.Some? then Unregister(s.registry, k.tab) else s.registry, contents := s.contents - {c})
  }

  predicate Holding(k: Contents) {
    k.helper.Some? && !k.discarded
  }

  ghost predicate EachHasContents(s: System) {
    forall t :: t in s.registry.uidByTab ==> exists c :: c in s.contents && s.contents[c].tab == t
  }

  /** The registry holds exactly the uids of the attached helpers that have not handed theirs over. */
  ghost predicate Inv(s: System, wellFormed: Uid -> bool) {
    && Inverse(s.registry) && s.registry.tabByUid.Keys <= s.seen
    && (forall u :: u in s.registry.tabByUid ==> wellFormed(u))
    && (forall c :: c in s.contents ==> s.contents[c].tab in s.usedTabs)
    && (forall c, d :: c in s.contents && d in s.contents && c != d ==> s.contents[c].tab != s.contents[d].tab)
    && (forall c :: c in s.contents && s.contents[c].helper.None? ==> !s.contents[c].discarded)
    && (forall c :: c in s.contents ==>
          if Holding(s.contents[c])
          then s.contents[c].tab in s.registry.uidByTab
               && s.registry.uidByTab[s.contents[c].tab] == s.contents[c].helper.value
          else s.contents[c].tab !in s.registry.uidByTab)
    && EachHasContents(s)
  }

  const NONE_YET := System(EMPTY, map[], {}, {})

  predicate Plays(s: System, events: seq<Event>, wellFormed: Uid -> bool)
    decreases |events|
  {
    events == [] ||
    (Enabled(s, events[0], wellFormed) && Plays(Step(s, events[0], wellFormed), events[1..], wellFormed))
  }

  function Run(s: System, events: seq<Event>, wellFormed: Uid -> bool): System
    requires Plays(s, events, wellFormed)
    decreases |events|
  {
    if events == [] then s else Run(Step(s, events[0], wellFormed), events[1..], wellFormed)
  }

  lemma AttachedHasContents(s: System, c: ContentsId, uid: Uid)
    requires EachHasContents(s) && Inverse(s.registry) && c in s.contents && !IsLive(s.registry, uid)
    ensures EachHasContents(AttachTo(s, c, s.registry, s.contents[c], uid))
  {
    var k := s.contents[c];
    var after := AttachTo(s, c, s.registry, k, uid);
    RegisterKeepsInverse(s.registry, k.tab, uid);
    forall t | t in after.registry.uidByTab
      ensures exists d :: d in after.contents && after.contents[d].tab == t
    {
      if t == k.tab {
        assert after.contents[c].tab == t;
      } else {
        var d :| d in s.contents && s.contents[d].tab == t;
        assert after.contents[d].tab == t;
      }
    }
  }

  lemma AttachKeepsInv(s: System, c: ContentsId, uid: Uid, wellFormed: Uid -> bool)
    requires Inv(s, wellFormed) && c in s.contents && s.contents[c].helper.None?
    requires wellFormed(uid) && !IsLive(s.registry, uid)
    ensures Inv(AttachTo(s, c, s.registry, s.contents[c], uid), wellFormed)
  {
    var after := AttachTo(s, c, s.registry, s.contents[c], uid);
    RegisterKeepsInverse(s.registry, s.contents[c].tab, uid);
    AttachedHasContents(s, c, uid);
    forall d | d in after.contents
      ensures if Holding(after.contents[d])
              then after.contents[d].tab in after.registry.uidByTab
                   && after.registry.uidByTab[after.contents[d].tab] == after.contents[d].helper.value
              else after.contents[d].tab !in after.registry.uidByTab
    {
      assert d != c ==> s.contents[d].tab != s.contents[c].tab;
    }
  }

  /** The old contents once it has handed its uid over. */
  function HandedOver(s: System, c: ContentsId): System
    requires c in s.contents
  {
    var k := s.contents[c];
    s.(registry := Unregister(s.registry, k.tab), contents := s.contents[c := k.(discarded := true)])
  }

  lemma HandOverKeepsInv(s: System, c: ContentsId, wellFormed: Uid -> bool)
    requires Inv(s, wellFormed) && c in s.contents && s.contents[c].helper.Some?
    ensures Inv(HandedOver(s, c), wellFormed)
  {
    var k := s.contents[c];
    var after := HandedOver(s, c);
    UnregisterFrees(s.registry, k.tab);
    forall t | t in after.registry.uidByTab
      ensures exists d :: d in after.contents && after.contents[d].tab == t
    {
      var d :| d in s.contents && s.contents[d].tab == t;
      assert after.contents[d].tab == t;
    }
  }

  lemma DestroyKeepsInv(s: System, c: ContentsId, wellFormed: Uid -> bool)
    requires Inv(s, wellFormed) && c in s.contents
    ensures Inv(Step(s, Destroy(c), wellFormed), wellFormed)
  {
    var k := s.contents[c];
    var after := Step(s, Destroy(c), wellFormed);
    UnregisterFrees(s.registry, k.tab);
    forall t | t in after.registry.uidByTab
      ensures exists d :: d in after.contents && after.contents[d].tab == t
    {
      assert t != k.tab;
      var d :| d in s.contents && s.contents[d].tab == t;
      assert d in after.contents && after.contents[d].tab == t;
    }
  }

  lemma RegisteredTabsAreUsed(s: System, wellFormed: Uid -> bool)
    requires Inv(s, wellFormed)
    ensures s.registry.uidByTab.Keys <= s.usedTabs
  {
    forall t | t in s.registry.uidByTab
      ensures t in s.usedTabs
    {
      var d :| d in s.contents && s.contents[d].tab == t;
    }
  }

  lemma NewContentsKeepsInv(s: System, c: ContentsId, tab: TabId, wellFormed: Uid -> bool)
    requires Inv(s, wellFormed) && c !in s.contents && tab !in s.usedTabs
    ensures Inv(Step(s, NewContents(c, tab), wellFormed), wellFormed)
  {
    var after := Step(s, NewContents(c, tab), wellFormed);
    RegisteredTabsAreUsed(s, wellFormed);
    forall t | t in after.registry.uidByTab
      ensures exists d :: d in after.contents && after.contents[d].tab == t
    {
      var d :| d in s.contents && s.contents[d].tab == t;
      assert after.contents[d].tab == t;
    }
  }

  lemma SetPendingKeepsInv(s: System, c: ContentsId, uid: Uid, wellFormed: Uid -> bool)
    requires Inv(s, wellFormed) && c in s.contents
    ensures Inv(Step(s, SetPending(c, uid), wellFormed), wellFormed)
  {
    var after := Step(s, SetPending(c, uid), wellFormed);
    forall t | t in after.registry.uidByTab
      ensures exists d :: d in after.contents && after.contents[d].tab == t
    {
      var d :| d in s.contents && s.contents[d].tab == t;
      assert after.contents[d].tab == t;
    }
  }

  lemma StepKeepsInv(s: System, e: Event, wellFormed: Uid -> bool)
    requires Inv(s, wellFormed) && Enabled(s, e, wellFormed)
    ensures Inv(Step(s, e, wellFormed), wellFormed)
  {
    match e
    case NewContents(c, tab) => NewContentsKeepsInv(s, c, tab, wellFormed);
    case SetPending(c, uid) => SetPendingKeepsInv(s, c, uid, wellFormed);
    case Attach(c, mint) =>
      if s.contents[c].helper.None? {
        AttachKeepsInv(s, c, AttachUid(s.registry, s.contents[c], mint, wellFormed), wellFormed);
      }
    case Discard(c, next, mint) =>
      if s.contents[c].helper.Some? {
        HandOverKeepsInv(s, c, wellFormed);
        var h := HandedOver(s, c);
        AttachKeepsInv(h, next, Effective(h.registry, s.contents[c].helper.value, mint, wellFormed), wellFormed);
      }
    case Destroy(c) => DestroyKeepsInv(s, c, wellFormed);
  }

  /** In every reachable state the maps are inverse, every live uid is well formed and live helpers own their uids. */
  lemma {:induction false} RunKeepsInv(s: System, events: seq<Event>, wellFormed: Uid -> bool)
    requires Inv(s, wellFormed) && Plays(s, events, wellFormed)
    ensures Inv(Run(s, events, wellFormed), wellFormed)
    decreases |events|
  {
    if events != [] {
      StepKeepsInv(s, events[0], wellFormed);
      RunKeepsInv(Step(s, events[0], wellFormed), events[1..], wellFormed);
    }
  }

  /** No two live tabs share a uid, in any run from nothing. */
  lemma LiveTabsDiffer(events: seq<Event>, wellFormed: Uid -> bool, c: ContentsId, d: ContentsId)
    requires Plays(NONE_YET, events, wellFormed)
    requires var s := Run(NONE_YET, events, wellFormed);
             c in s.contents && d in s.contents && c != d && Holding(s.contents[c]) && Holding(s.contents[d])
    ensures var s := Run(NONE_YET, events, wellFormed);
            s.contents[c].helper.value != s.contents[d].helper.value && wellFormed(s.contents[c].helper.value)
  {
    RunKeepsInv(NONE_YET, events, wellFormed);
  }

  // ---- Identity across close, reopen, duplication and discard ----

  /** Nobody is about to bring this uid, and it is not live. */
  ghost predicate Parked(s: System, uid: Uid) {
    && uid in s.seen && !IsLive(s.registry, uid)
    && (forall c :: c in s.contents ==>
          && s.contents[c].pending != Some(uid)
          && !(Holding(s.contents[c]) && s.contents[c].helper == Some(uid)))
  }

  /** The uid is handed to nobody, and a helper that lost it does not pass it on. */
  predicate LeavesParked(s: System, e: Event, uid: Uid) {
    && (e.SetPending? ==> e.uid != uid)
    && (e.Discard? && e.c in s.contents ==> s.contents[e.c].helper != Some(uid))
  }

  lemma StepKeepsParked(s: System, e: Event, uid: Uid, wellFormed: Uid -> bool)
    requires Inv(s, wellFormed) && Enabled(s, e, wellFormed) && Parked(s, uid) && LeavesParked(s, e, uid)
    ensures Parked(Step(s, e, wellFormed), uid)
  {
    var after := Step(s, e, wellFormed);
    match e
    case Attach(c, mint) =>
      if s.contents[c].helper.None? {
        RegisterKeepsInverse(s.registry, s.contents[c].tab, AttachUid(s.registry, s.contents[c], mint, wellFormed));
      }
    case Discard(c, next, mint) =>
      if s.contents[c].helper.Some? {
        HandOverKeepsInv(s, c, wellFormed);
        UnregisterFrees(s.registry, s.contents[c].tab);
        var h := HandedOver(s, c);
        var uid' := Effective(h.registry, s.contents[c].helper.value, mint, wellFormed);
        RegisterKeepsInverse(h.registry, s.contents[next].tab, uid');
      }
    case Destroy(c) => UnregisterFrees(s.registry, s.contents[c].tab);
    case _ =>
  }

  predicate LeaveParked(s: System, events: seq<Event>, uid: Uid, wellFormed: Uid -> bool)
    requires Plays(s, events, wellFormed)
    decreases |events|
  {
    events == [] ||
    (LeavesParked(s, events[0], uid) && LeaveParked(Step(s, events[0], wellFormed), events[1..], uid, wellFormed))
  }

  lemma {:induction false} RunKeepsParked(s: System, events: seq<Event>, uid: Uid, wellFormed: Uid -> bool)
    requires Inv(s, wellFormed) && Plays(s, events, wellFormed)
    requires Parked(s, uid) && LeaveParked(s, events, uid, wellFormed)
    ensures Inv(Run(s, events, wellFormed), wellFormed) && Parked(Run(s, events, wellFormed), uid)
    decreases |events|
  {
    if events != [] {
      StepKeepsInv(s, events[0], wellFormed);
      StepKeepsParked(s, events[0], uid, wellFormed);
      RunKeepsParked(Step(s, events[0], wellFormed), events[1..], uid, wellFormed);
    }
  }

  /** Closing a tab parks its uid. */
  lemma ClosingParks(s: System, c: ContentsId, wellFormed: Uid -> bool)
    requires Inv(s, wellFormed) && c in s.contents && Holding(s.contents[c])
    requires forall d :: d in s.contents && d != c ==> s.contents[d].pending != s.contents[c].helper
    ensures Parked(Step(s, Destroy(c), wellFormed), s.contents[c].helper.value)
  {
    UnregisterFrees(s.registry, s.contents[c].tab);
  }

  /** A new contents, given a uid from its record, and its helper. */
  function Reopen(c: ContentsId, tab: TabId, uid: Uid, mint: Uid): seq<Event> {
    [NewContents(c, tab), SetPending(c, uid), Attach(c, mint)]
  }

  /**
   * Close a tab, let anything else happen that does not hand its uid out, reopen
   * it from its record: the reopened tab has the uid it had.
   */
  lemma CloseThenReopenRecovers(s: System, c: ContentsId, events: seq<Event>, again: ContentsId, tab: TabId, mint: Uid,
                                wellFormed: Uid -> bool)
    requires Inv(s, wellFormed) && c in s.contents && Holding(s.contents[c]) && !wellFormed("")
    requires forall d :: d in s.contents && d != c ==> s.contents[d].pending != s.contents[c].helper
    requires var uid := s.contents[c].helper.value;
             var closed := Step(s, Destroy(c), wellFormed);
             && Plays(closed, events, wellFormed) && LeaveParked(closed, events, uid, wellFormed)
             && Plays(Run(closed, events, wellFormed), Reopen(again, tab, uid, mint), wellFormed)
    ensures var uid := s.contents[c].helper.value;
            var s' := Run(Run(Step(s, Destroy(c), wellFormed), events, wellFormed),
                         Reopen(again, tab, uid, mint), wellFormed);
            again in s'.contents && s'.contents[again].helper == Some(uid)
  {
    var uid := s.contents[c].helper.value;
    var closed := Step(s, Destroy(c), wellFormed);
    ClosingParks(s, c, wellFormed);
    DestroyKeepsInv(s, c, wellFormed);
    RunKeepsParked(closed, events, uid, wellFormed);
    ReopenAdopts(Run(closed, events, wellFormed), uid, again, tab, mint, wellFormed);
  }

  lemma ReopenAdopts(s: System, uid: Uid, again: ContentsId, tab: TabId, mint: Uid, wellFormed: Uid -> bool)
    requires wellFormed(uid) && !IsLive(s.registry, uid) && !wellFormed("")
    requires Plays(s, Reopen(again, tab, uid, mint), wellFormed)
    ensures var s' := Run(s, Reopen(again, tab, uid, mint), wellFormed);
            again in s'.contents && s'.contents[again].helper == Some(uid)
  {
    var events := Reopen(again, tab, uid, mint);
    assert events[1..] == [SetPending(again, uid), Attach(again, mint)];
    assert events[1..][1..] == [Attach(again, mint)];
    assert events[1..][1..][1..] == [];
    var s1 := Step(s, events[0], wellFormed);
    assert Plays(s1, events[1..], wellFormed);
    var s2 := Step(s1, SetPending(again, uid), wellFormed);
    assert Plays(s2, [Attach(again, mint)], wellFormed);
    var s3 := Step(s2, Attach(again, mint), wellFormed);
    assert Run(s2, [Attach(again, mint)], wellFormed) == s3;
    assert Run(s1, events[1..], wellFormed) == s3;
  }

  /** A tab that arrives with a live uid gets a fresh one; the incumbent keeps its own. */
  lemma DuplicateDoesNotDisplace(s: System, c: ContentsId, d: ContentsId, mint: Uid, wellFormed: Uid -> bool)
    requires Inv(s, wellFormed) && c in s.contents && d in s.contents && c != d && Holding(s.contents[c])
    requires s.contents[d].helper.None? && s.contents[d].pending == s.contents[c].helper
    requires Enabled(s, Attach(d, mint), wellFormed)
    ensures var after := Step(s, Attach(d, mint), wellFormed);
            && after.contents[d].helper == Some(mint) && after.contents[c] == s.contents[c]
            && after.registry.uidByTab[s.contents[c].tab] == s.contents[c].helper.value
            && mint != s.contents[c].helper.value
  {
    StepKeepsInv(s, Attach(d, mint), wellFormed);
  }

  /** A discard carries the uid over to the replacement. */
  lemma DiscardKeepsTheUid(s: System, c: ContentsId, next: ContentsId, mint: Uid, wellFormed: Uid -> bool)
    requires Inv(s, wellFormed) && Enabled(s, Discard(c, next, mint), wellFormed) && Holding(s.contents[c])
    ensures var after := Step(s, Discard(c, next, mint), wellFormed);
            && after.contents[next].helper == s.contents[c].helper && Holding(after.contents[next])
            && after.contents[c].discarded
  {
    UnregisterFrees(s.registry, s.contents[c].tab);
    assert !IsLive(Unregister(s.registry, s.contents[c].tab), s.contents[c].helper.value);
  }

  /** Whenever a discarded contents is finally destroyed, its destructor frees nothing. */
  lemma LateDestructorFreesNothing(s: System, c: ContentsId, wellFormed: Uid -> bool)
    requires Inv(s, wellFormed) && c in s.contents && s.contents[c].discarded
    ensures Step(s, Destroy(c), wellFormed).registry == s.registry
  {
  }
}
