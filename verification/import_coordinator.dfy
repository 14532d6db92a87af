/** The Edge import: a chain of asynchronous stages that must account for every requested carrier. */
module EdgeImportCoordinator {
  import opened Common
  import opened EdgeImportReports

  /** What validation found out about the source and the destination. */
  datatype Preflight = Preflight(available: set<Carrier>, destInitialized: set<Carrier>,
                                 running: bool, versionSupported: bool)

  /** The request the coordinator is waiting on. */
  datatype Pending = NotStarted | AwaitPreflight | AwaitSecrets(passwords: bool, cookies: bool)
                   | AwaitUsage | AwaitLocalStorage
                   | AwaitIndexedDb | Finished

  datatype Delivery = Delivery(versionSupported: bool, edgeRunning: bool, carriers: seq<Outcome>)

  datatype Flow = Flow(carriers: set<Carrier>, preflight: Preflight, report: seq<Outcome>, pending: Pending,
                       launched: seq<Carrier>, delivered: seq<Delivery>)

  datatype Reply =
    | PreflightReply(preflight: Preflight)
    | SecretReply(passwords: nat, cookies: nat, keychain: bool)
    | UsageReply(empty: bool)
    | LocalStorageReply(accepted: nat)
    | IndexedDbReply(stores: nat)

  const UNKNOWN := Preflight({}, {}, false, false)

  function NewFlow(carriers: set<Carrier>): Flow {
    Flow(carriers, UNKNOWN, [], NotStarted, [], [])
  }

  function When<T>(s: seq<T>, b: bool, x: T): seq<T> {
    if b then s + [x] else s
  }

  function Add(f: Flow, o: Outcome): Flow {
    f.(report := f.report + [o])
  }

  function Finish(f: Flow): Flow {
    f.(pending := Finished,
       delivered := f.delivered + [Delivery(f.preflight.versionSupported, f.preflight.running, f.report)])
  }

  function DisabledEntry(carriers: set<Carrier>, entries: seq<Outcome>, c: Carrier): seq<Outcome> {
    When(entries, c in carriers, Outcome(c, FeatureDisabled, 0))
  }

  function Disabled(carriers: set<Carrier>): seq<Outcome> {
    var p := DisabledEntry(carriers, [], Passwords);
    var c := DisabledEntry(carriers, p, Cookies);
    var l := DisabledEntry(carriers, c, LocalStorage);
    DisabledEntry(carriers, l, IndexedDb)
  }

  function Run(f: Flow, enabled: bool): Flow {
    if !enabled then Finish(f.(report := f.report + Disabled(f.carriers)))
    else f.(pending := AwaitPreflight)
  }

  function OnPreflightDone(f: Flow, preflight: Preflight): Flow {
    RunSecretStep(f.(preflight := preflight))
  }

  function RunSecretStep(f: Flow): Flow {
    var wantPasswords := Passwords in f.carriers;
    var wantCookies := Cookies in f.carriers;
    if !wantPasswords && !wantCookies then RunLocalStorageStep(f)
    else
      var passwordsAvailable := wantPasswords && Passwords in f.preflight.available;
      var cookiesAvailable := wantCookies && Cookies in f.preflight.available;
      var g := if wantPasswords && !passwordsAvailable then Add(f, Outcome(Passwords, Unsupported, 0)) else f;
      var h := if wantCookies && !cookiesAvailable then Add(g, Outcome(Cookies, Unsupported, 0)) else g;
      if !passwordsAvailable && !cookiesAvailable then RunLocalStorageStep(h)
      else
        h.(pending := AwaitSecrets(passwordsAvailable, cookiesAvailable),
           launched := When(When(h.launched, passwordsAvailable, Passwords), cookiesAvailable, Cookies))
  }

  function SecretStatus(keychain: bool, running: bool, count: nat): Status {
    if !keychain then Degraded
    else if running then Degraded
    else if count == 0 then Degraded
    else Imported
  }

  function OnSecretDone(f: Flow, attemptedPasswords: bool, attemptedCookies: bool,
                        passwords: nat, cookies: nat, keychain: bool): Flow
  {
    var running := f.preflight.running;
    var g := if attemptedPasswords
             then Add(f, Outcome(Passwords, SecretStatus(keychain, running, passwords), passwords)) else f;
    var h := if attemptedCookies
             then Add(g, Outcome(Cookies, SecretStatus(keychain, running, cookies), cookies)) else g;
    RunLocalStorageStep(h)
  }

  function RunLocalStorageStep(f: Flow): Flow {
    if LocalStorage !in f.carriers then RunIndexedDbStep(f)
    else if LocalStorage !in f.preflight.available then RunIndexedDbStep(Add(f, Outcome(LocalStorage, Unsupported, 0)))
    else f.(pending := AwaitUsage)
  }

  function OnLocalStorageUsageChecked(f: Flow, empty: bool): Flow {
    if !empty then RunIndexedDbStep(Add(f, Outcome(LocalStorage, Blocked, 0)))
    else f.(pending := AwaitLocalStorage, launched := f.launched + [LocalStorage])
  }

  function OnLocalStorageDone(f: Flow, accepted: nat): Flow {
    var status :=
      if f.preflight.running then Degraded
      else if accepted > 0 then Imported
      else Degraded;
    RunIndexedDbStep(Add(f, Outcome(LocalStorage, status, accepted)))
  }

  function RunIndexedDbStep(f: Flow): Flow {
    if IndexedDb !in f.carriers then Finish(f)
    else if IndexedDb !in f.preflight.available then Finish(Add(f, Outcome(IndexedDb, Unsupported, 0)))
    else if f.preflight.running then Finish(Add(f, Outcome(IndexedDb, Blocked, 0)))
    else if IndexedDb in f.preflight.destInitialized then Finish(Add(f, Outcome(IndexedDb, Blocked, 0)))
    else f.(pending := AwaitIndexedDb, launched := f.launched + [IndexedDb])
  }

  function OnIndexedDbDone(f: Flow, stores: nat): Flow {
    Finish(Add(f, Outcome(IndexedDb, if stores > 0 then Imported else Degraded, stores)))
  }

  // ---- Runs: the environment answers the one outstanding request ----

  predicate Answers(pending: Pending, reply: Reply) {
    match pending
    case AwaitPreflight => reply.PreflightReply?
    case AwaitSecrets(_, _) => reply.SecretReply?
    case AwaitUsage => reply.UsageReply?
    case AwaitLocalStorage => reply.LocalStorageReply?
    case AwaitIndexedDb => reply.IndexedDbReply?
    case _ => false
  }

  function Receive(f: Flow, reply: Reply): Flow
    requires Answers(f.pending, reply)
  {
    match reply
    case PreflightReply(p) => OnPreflightDone(f, p)
    case SecretReply(p, c, k) => OnSecretDone(f, f.pending.passwords, f.pending.cookies, p, c, k)
    case UsageReply(e) => OnLocalStorageUsageChecked(f, e)
    case LocalStorageReply(n) => OnLocalStorageDone(f, n)
    case IndexedDbReply(n) => OnIndexedDbDone(f, n)
  }

  predicate Plays(f: Flow, replies: seq<Reply>)
    decreases |replies|
  {
    replies == [] || (Answers(f.pending, replies[0]) && Plays(Receive(f, replies[0]), replies[1..]))
  }

  function After(f: Flow, replies: seq<Reply>): Flow
    requires Plays(f, replies)
    decreases |replies|
  {
    if replies == [] then f else After(Receive(f, replies[0]), replies[1..])
  }

  /** How many replies a flow can still take at most. */
  function Remaining(p: Pending): nat {
    match p
    case NotStarted => 6
    case AwaitPreflight => 5
    case AwaitSecrets(_, _) => 4
    case AwaitUsage => 3
    case AwaitLocalStorage => 2
    case AwaitIndexedDb => 1
    case Finished => 0
  }

  // ---- What the report must say ----

  /** The answers the environment would give to each request. */
  datatype World = World(preflight: Preflight, passwords: nat, cookies: nat, keychain: bool,
                         usageEmpty: bool, accepted: nat, stores: nat)

  function SayOf(w: World, p: Pending): (reply: Reply)
    requires !p.NotStarted? && !p.Finished?
    ensures Answers(p, reply)
  {
    match p
    case AwaitPreflight => PreflightReply(w.preflight)
    case AwaitSecrets(_, _) => SecretReply(w.passwords, w.cookies, w.keychain)
    case AwaitUsage => UsageReply(w.usageEmpty)
    case AwaitLocalStorage => LocalStorageReply(w.accepted)
    case AwaitIndexedDb => IndexedDbReply(w.stores)
  }

  predicate Says(w: World, reply: Reply) {
    match reply
    case PreflightReply(p) => p == w.preflight
    case SecretReply(p, c, k) => p == w.passwords && c == w.cookies && k == w.keychain
    case UsageReply(e) => e == w.usageEmpty
    case LocalStorageReply(n) => n == w.accepted
    case IndexedDbReply(n) => n == w.stores
  }

  predicate Attempted(w: World, c: Carrier) {
    && c in w.preflight.available
    && (c == LocalStorage ==> w.usageEmpty)
    && (c == IndexedDb ==> !w.preflight.running && IndexedDb !in w.preflight.destInitialized)
  }

  function Count(w: World, c: Carrier): nat {
    match c
    case Passwords => w.passwords
    case Cookies => w.cookies
    case LocalStorage => w.accepted
    case IndexedDb => w.stores
  }

  /** A stage's result is clean when Edge was stopped, something arrived and, for secrets, the keychain opened. */
  predicate CleanResult(w: World, c: Carrier) {
    !w.preflight.running && Count(w, c) > 0 && (c == Passwords || c == Cookies ==> w.keychain)
  }

  /** The outcome of one carrier, from the world alone. */
  function Verdict(w: World, c: Carrier): Outcome {
    if c !in w.preflight.available then Outcome(c, Unsupported, 0)
    else if !Attempted(w, c) then Outcome(c, Blocked, 0)
    else Outcome(c, if CleanResult(w, c) then Imported else Degraded, Count(w, c))
  }

  // ---- The report in closed form ----

  predicate Tried(carriers: set<Carrier>, w: World, c: Carrier) {
    c in carriers && Attempted(w, c)
  }

  predicate Missing(carriers: set<Carrier>, w: World, c: Carrier) {
    c in carriers && c !in w.preflight.available
  }

  function MissingSecrets(carriers: set<Carrier>, w: World): seq<Outcome> {
    When(When([], Missing(carriers, w, Passwords), Verdict(w, Passwords)),
         Missing(carriers, w, Cookies), Verdict(w, Cookies))
  }

  /** Both secret carriers: those without a source come before those that were tried. */
  function Secrets(carriers: set<Carrier>, w: World): seq<Outcome> {
    When(When(MissingSecrets(carriers, w), Tried(carriers, w, Passwords), Verdict(w, Passwords)),
         Tried(carriers, w, Cookies), Verdict(w, Cookies))
  }

  function UpToLocal(carriers: set<Carrier>, w: World): seq<Outcome> {
    When(Secrets(carriers, w), LocalStorage in carriers, Verdict(w, LocalStorage))
  }

  function AllEntries(carriers: set<Carrier>, w: World): seq<Outcome> {
    When(UpToLocal(carriers, w), IndexedDb in carriers, Verdict(w, IndexedDb))
  }

  function SecretLaunches(carriers: set<Carrier>, w: World): seq<Carrier> {
    When(When([], Tried(carriers, w, Passwords), Passwords), Tried(carriers, w, Cookies), Cookies)
  }

  function LocalLaunches(carriers: set<Carrier>, w: World): seq<Carrier> {
    When(SecretLaunches(carriers, w), Tried(carriers, w, LocalStorage), LocalStorage)
  }

  function AllLaunches(carriers: set<Carrier>, w: World): seq<Carrier> {
    When(LocalLaunches(carriers, w), Tried(carriers, w, IndexedDb), IndexedDb)
  }

  /** The preflight is in, and this much has been reported and launched. */
  predicate Stands(f: Flow, w: World, report: seq<Outcome>, launched: seq<Carrier>) {
    f.preflight == w.preflight && f.report == report && f.launched == launched && f.delivered == []
  }

  predicate Complete(f: Flow, w: World) {
    && f.delivered == [Delivery(w.preflight.versionSupported, w.preflight.running, AllEntries(f.carriers, w))]
    && f.launched == AllLaunches(f.carriers, w)
  }

  predicate Inv(f: Flow, w: World) {
    match f.pending
    case NotStarted => false
    case AwaitPreflight => f == NewFlow(f.carriers).(pending := AwaitPreflight)
    case AwaitSecrets(p, c) =>
      && p == Tried(f.carriers, w, Passwords) && c == Tried(f.carriers, w, Cookies)
      && Stands(f, w, MissingSecrets(f.carriers, w), SecretLaunches(f.carriers, w))
    case AwaitUsage =>
      && LocalStorage in f.carriers && LocalStorage in w.preflight.available
      && Stands(f, w, Secrets(f.carriers, w), SecretLaunches(f.carriers, w))
    case AwaitLocalStorage =>
      && Tried(f.carriers, w, LocalStorage)
      && Stands(f, w, Secrets(f.carriers, w), LocalLaunches(f.carriers, w))
    case AwaitIndexedDb =>
      && Tried(f.carriers, w, IndexedDb)
      && Stands(f, w, UpToLocal(f.carriers, w), AllLaunches(f.carriers, w))
    case Finished => Complete(f, w)
  }

  lemma IndexedDbStepKeeps(f: Flow, w: World)
    requires Stands(f, w, UpToLocal(f.carriers, w), LocalLaunches(f.carriers, w))
    ensures Inv(RunIndexedDbStep(f), w) && RunIndexedDbStep(f).carriers == f.carriers
  {
  }

  lemma LocalStorageStepKeeps(f: Flow, w: World)
    requires Stands(f, w, Secrets(f.carriers, w), SecretLaunches(f.carriers, w))
    ensures Inv(RunLocalStorageStep(f), w) && RunLocalStorageStep(f).carriers == f.carriers
  {
    if LocalStorage !in f.carriers {
      IndexedDbStepKeeps(f, w);
    } else if LocalStorage !in w.preflight.available {
      IndexedDbStepKeeps(Add(f, Outcome(LocalStorage, Unsupported, 0)), w);
    }
  }

  lemma SecretStepKeeps(f: Flow, w: World)
    requires Stands(f, w, [], [])
    ensures Inv(RunSecretStep(f), w) && RunSecretStep(f).carriers == f.carriers
  {
    var g := f.(report := MissingSecrets(f.carriers, w));
    if !Tried(f.carriers, w, Passwords) && !Tried(f.carriers, w, Cookies) {
      LocalStorageStepKeeps(g, w);
      assert RunSecretStep(f) == RunLocalStorageStep(g);
    }
  }

  lemma SecretsDoneKeeps(f: Flow, w: World)
    requires Inv(f, w) && f.pending.AwaitSecrets?
    ensures var g := OnSecretDone(f, f.pending.passwords, f.pending.cookies, w.passwords, w.cookies, w.keychain);
            Inv(g, w) && g.carriers == f.carriers
  {
    var g := f.(report := Secrets(f.carriers, w));
    LocalStorageStepKeeps(g, w);
    assert RunLocalStorageStep(g)
           == OnSecretDone(f, f.pending.passwords, f.pending.cookies, w.passwords, w.cookies, w.keychain);
  }

  lemma LocalStorageDoneKeeps(f: Flow, w: World)
    requires Inv(f, w) && f.pending.AwaitLocalStorage?
    ensures Inv(OnLocalStorageDone(f, w.accepted), w) && OnLocalStorageDone(f, w.accepted).carriers == f.carriers
  {
    IndexedDbStepKeeps(f.(report := UpToLocal(f.carriers, w)), w);
  }

  lemma UsageKeeps(f: Flow, w: World)
    requires Inv(f, w) && f.pending.AwaitUsage?
    ensures var g := OnLocalStorageUsageChecked(f, w.usageEmpty); Inv(g, w) && g.carriers == f.carriers
  {
    if !w.usageEmpty {
      IndexedDbStepKeeps(Add(f, Outcome(LocalStorage, Blocked, 0)), w);
    }
  }

  /** Every reply keeps the closed form and brings the end closer. */
  lemma ReceiveKeeps(f: Flow, w: World, reply: Reply)
    requires Inv(f, w) && Answers(f.pending, reply) && Says(w, reply)
    ensures Inv(Receive(f, reply), w) && Receive(f, reply).carriers == f.carriers
  {
    match reply
    case PreflightReply(p) => SecretStepKeeps(f.(preflight := p), w);
    case SecretReply(p, c, k) => SecretsDoneKeeps(f, w);
    case UsageReply(e) => UsageKeeps(f, w);
    case LocalStorageReply(n) => LocalStorageDoneKeeps(f, w);
    case IndexedDbReply(n) =>
  }

  lemma IndexedDbStepRank(f: Flow)
    ensures Remaining(RunIndexedDbStep(f).pending) <= 1
  {
  }

  lemma LocalStorageStepRank(f: Flow)
    ensures Remaining(RunLocalStorageStep(f).pending) <= 3
  {
    IndexedDbStepRank(f);
    IndexedDbStepRank(Add(f, Outcome(LocalStorage, Unsupported, 0)));
  }

  lemma SecretStepRank(f: Flow, g: Flow)
    requires g == RunSecretStep(f)
    ensures Remaining(g.pending) <= 4
  {
    if !g.pending.AwaitSecrets? {
      LocalStorageStepRank(f);
      var h := if Passwords in f.carriers then Add(f, Outcome(Passwords, Unsupported, 0)) else f;
      LocalStorageStepRank(h);
      LocalStorageStepRank(Add(h, Outcome(Cookies, Unsupported, 0)));
    }
  }

  lemma SecretDoneRank(f: Flow, p: bool, c: bool, passwords: nat, cookies: nat, keychain: bool)
    ensures Remaining(OnSecretDone(f, p, c, passwords, cookies, keychain).pending) <= 3
  {
    var running := f.preflight.running;
    var g := if p then Add(f, Outcome(Passwords, SecretStatus(keychain, running, passwords), passwords)) else f;
    LocalStorageStepRank(if c then Add(g, Outcome(Cookies, SecretStatus(keychain, running, cookies), cookies)) else g);
  }

  lemma ReceiveAdvances(f: Flow, reply: Reply)
    requires Answers(f.pending, reply)
    ensures Remaining(Receive(f, reply).pending) < Remaining(f.pending)
  {
    match reply
    case PreflightReply(p) => SecretStepRank(f.(preflight := p), RunSecretStep(f.(preflight := p)));
    case SecretReply(p, c, k) => SecretDoneRank(f, f.pending.passwords, f.pending.cookies, p, c, k);
    case UsageReply(e) => IndexedDbStepRank(Add(f, Outcome(LocalStorage, Blocked, 0)));
    case LocalStorageReply(n) =>
      var status := if !f.preflight.running && n > 0 then Imported else Degraded;
      IndexedDbStepRank(Add(f, Outcome(LocalStorage, status, n)));
    case IndexedDbReply(n) =>
  }

  lemma {:induction false} RunKeeps(f: Flow, w: World, replies: seq<Reply>)
    requires Inv(f, w) && Plays(f, replies) && forall r :: r in replies ==> Says(w, r)
    ensures Inv(After(f, replies), w) && After(f, replies).carriers == f.carriers
    ensures |replies| + Remaining(After(f, replies).pending) <= Remaining(f.pending)
    decreases |replies|
  {
    if replies != [] {
      ReceiveKeeps(f, w, replies[0]);
      ReceiveAdvances(f, replies[0]);
      RunKeeps(Receive(f, replies[0]), w, replies[1..]);
    }
  }

  /** A flow that is still waiting can take what the world answers, so it cannot get stuck. */
  lemma AlwaysAnswerable(f: Flow, w: World)
    requires !f.pending.NotStarted? && !f.pending.Finished?
    ensures Plays(f, [SayOf(w, f.pending)]) && Says(w, SayOf(w, f.pending))
  {
    assert [SayOf(w, f.pending)][1..] == [];
  }

  // ---- Any run has a world behind it ----

  function Rank(r: Reply): nat {
    match r
    case PreflightReply(_) => 5
    case SecretReply(_, _, _) => 4
    case UsageReply(_) => 3
    case LocalStorageReply(_) => 2
    case IndexedDbReply(_) => 1
  }

  function WorldOf(replies: seq<Reply>): World {
    if replies == [] then World(UNKNOWN, 0, 0, false, false, 0, 0)
    else
      var w := WorldOf(replies[1..]);
      match replies[0]
      case PreflightReply(p) => w.(preflight := p)
      case SecretReply(p, c, k) => w.(passwords := p, cookies := c, keychain := k)
      case UsageReply(e) => w.(usageEmpty := e)
      case LocalStorageReply(n) => w.(accepted := n)
      case IndexedDbReply(n) => w.(stores := n)
  }

  lemma {:induction false} RanksFall(f: Flow, replies: seq<Reply>)
    requires Plays(f, replies)
    ensures forall r :: r in replies ==> Rank(r) <= Remaining(f.pending)
    decreases |replies|
  {
    if replies != [] {
      ReceiveAdvances(f, replies[0]);
      RanksFall(Receive(f, replies[0]), replies[1..]);
      assert replies == [replies[0]] + replies[1..];
    }
  }

  /** Each question is asked at most once, so any run's replies are one world's answers. */
  lemma {:induction false} EveryRunHasAWorld(f: Flow, replies: seq<Reply>)
    requires Plays(f, replies)
    ensures forall r :: r in replies ==> Says(WorldOf(replies), r)
    decreases |replies|
  {
    if replies != [] {
      var next := Receive(f, replies[0]);
      ReceiveAdvances(f, replies[0]);
      EveryRunHasAWorld(next, replies[1..]);
      RanksFall(next, replies[1..]);
      assert replies == [replies[0]] + replies[1..];
    }
  }

  // ---- What the report says ----

  lemma TallyWhen(s: seq<Outcome>, b: bool, o: Outcome, c: Carrier)
    ensures Tally(When(s, b, o), c) == Tally(s, c) + if b && o.carrier == c then 1 else 0
  {
    TallyConcat(s, [o], c);
    assert [o][1..] == [];
  }

  lemma FindWhen(s: seq<Outcome>, b: bool, o: Outcome, c: Carrier)
    ensures FindIn(When(s, b, o), c)
            == if FindIn(s, c).Some? then FindIn(s, c) else if b && o.carrier == c then Some(o) else None
  {
    FindConcat(s, [o], c);
    assert [o][1..] == [];
  }

  lemma TotalWhen(s: seq<Outcome>, b: bool, o: Outcome)
    ensures Total(When(s, b, o)) == Total(s) + if b then o.count else 0
  {
    TotalConcat(s, [o]);
    assert [o][1..] == [];
  }

  lemma SecretEntryOf(carriers: set<Carrier>, w: World, c: Carrier)
    ensures Tally(Secrets(carriers, w), c) == if c in carriers && (c == Passwords || c == Cookies) then 1 else 0
    ensures FindIn(Secrets(carriers, w), c)
            == if c in carriers && (c == Passwords || c == Cookies) then Some(Verdict(w, c)) else None
  {
    var s0 := When([], Missing(carriers, w, Passwords), Verdict(w, Passwords));
    var s1 := MissingSecrets(carriers, w);
    var s2 := When(s1, Tried(carriers, w, Passwords), Verdict(w, Passwords));
    TallyWhen([], Missing(carriers, w, Passwords), Verdict(w, Passwords), c);
    TallyWhen(s0, Missing(carriers, w, Cookies), Verdict(w, Cookies), c);
    TallyWhen(s1, Tried(carriers, w, Passwords), Verdict(w, Passwords), c);
    TallyWhen(s2, Tried(carriers, w, Cookies), Verdict(w, Cookies), c);
    FindWhen([], Missing(carriers, w, Passwords), Verdict(w, Passwords), c);
    FindWhen(s0, Missing(carriers, w, Cookies), Verdict(w, Cookies), c);
    FindWhen(s1, Tried(carriers, w, Passwords), Verdict(w, Passwords), c);
    FindWhen(s2, Tried(carriers, w, Cookies), Verdict(w, Cookies), c);
  }

  /** What the delivered report holds for a carrier, when the feature is on. */
  lemma EntryOf(carriers: set<Carrier>, w: World, c: Carrier)
    ensures Tally(AllEntries(carriers, w), c) == if c in carriers then 1 else 0
    ensures FindIn(AllEntries(carriers, w), c) == if c in carriers then Some(Verdict(w, c)) else None
  {
    SecretEntryOf(carriers, w, c);
    TallyWhen(Secrets(carriers, w), LocalStorage in carriers, Verdict(w, LocalStorage), c);
    TallyWhen(UpToLocal(carriers, w), IndexedDb in carriers, Verdict(w, IndexedDb), c);
    FindWhen(Secrets(carriers, w), LocalStorage in carriers, Verdict(w, LocalStorage), c);
    FindWhen(UpToLocal(carriers, w), IndexedDb in carriers, Verdict(w, IndexedDb), c);
  }

  lemma DisabledEntryOf(carriers: set<Carrier>, c: Carrier)
    ensures Tally(Disabled(carriers), c) == if c in carriers then 1 else 0
    ensures FindIn(Disabled(carriers), c) == if c in carriers then Some(Outcome(c, FeatureDisabled, 0)) else None
  {
    var p := DisabledEntry(carriers, [], Passwords);
    var k := DisabledEntry(carriers, p, Cookies);
    var l := DisabledEntry(carriers, k, LocalStorage);
    TallyWhen([], Passwords in carriers, Outcome(Passwords, FeatureDisabled, 0), c);
    TallyWhen(p, Cookies in carriers, Outcome(Cookies, FeatureDisabled, 0), c);
    TallyWhen(k, LocalStorage in carriers, Outcome(LocalStorage, FeatureDisabled, 0), c);
    TallyWhen(l, IndexedDb in carriers, Outcome(IndexedDb, FeatureDisabled, 0), c);
    FindWhen([], Passwords in carriers, Outcome(Passwords, FeatureDisabled, 0), c);
    FindWhen(p, Cookies in carriers, Outcome(Cookies, FeatureDisabled, 0), c);
    FindWhen(k, LocalStorage in carriers, Outcome(LocalStorage, FeatureDisabled, 0), c);
    FindWhen(l, IndexedDb in carriers, Outcome(IndexedDb, FeatureDisabled, 0), c);
  }

  function Expected(w: World, enabled: bool, c: Carrier): Outcome {
    if enabled then Verdict(w, c) else Outcome(c, FeatureDisabled, 0)
  }

  /** The final state of an import that has run to its end. */
  ghost predicate Ended(carriers: set<Carrier>, enabled: bool, w: World, replies: seq<Reply>, f: Flow) {
    && Plays(Run(NewFlow(carriers), enabled), replies)
    && (forall r :: r in replies ==> Says(w, r))
    && f == After(Run(NewFlow(carriers), enabled), replies) && f.pending.Finished?
  }

  lemma EndedIsComplete(carriers: set<Carrier>, enabled: bool, w: World, replies: seq<Reply>, f: Flow)
    requires Ended(carriers, enabled, w, replies, f)
    ensures |f.delivered| == 1 && |replies| <= 5
    ensures f.delivered[0].carriers == if enabled then AllEntries(carriers, w) else Disabled(carriers)
    ensures f.launched == if enabled then AllLaunches(carriers, w) else []
  {
    if enabled {
      RunKeeps(Run(NewFlow(carriers), enabled), w, replies);
    } else {
      assert replies == [];
    }
  }

  /** One report; each requested carrier has exactly one entry, its verdict, and no other carrier has any. */
  lemma ReportAccountsForEveryCarrier(carriers: set<Carrier>, enabled: bool, w: World,
                                      replies: seq<Reply>, f: Flow, c: Carrier)
    requires Ended(carriers, enabled, w, replies, f)
    ensures |f.delivered| == 1
    ensures Tally(f.delivered[0].carriers, c) == if c in carriers then 1 else 0
    ensures FindIn(f.delivered[0].carriers, c) == if c in carriers then Some(Expected(w, enabled, c)) else None
  {
    EndedIsComplete(carriers, enabled, w, replies, f);
    if enabled {
      EntryOf(carriers, w, c);
    } else {
      DisabledEntryOf(carriers, c);
    }
  }

  /** Every entry of the report is the verdict on a requested carrier. */
  lemma EntriesAreExpected(carriers: set<Carrier>, enabled: bool, w: World, replies: seq<Reply>, f: Flow, o: Outcome)
    requires Ended(carriers, enabled, w, replies, f)
    ensures |f.delivered| == 1
    ensures o in f.delivered[0].carriers <==> o.carrier in carriers && o == Expected(w, enabled, o.carrier)
  {
    ReportAccountsForEveryCarrier(carriers, enabled, w, replies, f, o.carrier);
    var es := f.delivered[0].carriers;
    FindsWhatIsTallied(es, o.carrier);
    if o in es {
      FindReturnsTheEntry(es, o);
    }
  }

  /** An imported entry brought something from a stopped Edge; a refused entry counts nothing. */
  lemma StatusesAreHonest(carriers: set<Carrier>, enabled: bool, w: World, replies: seq<Reply>, f: Flow, o: Outcome)
    requires Ended(carriers, enabled, w, replies, f)
    ensures |f.delivered| == 1
    ensures o in f.delivered[0].carriers ==>
              && (o.status.Imported? ==> o.count > 0 && !w.preflight.running && enabled)
              && (o.status.Blocked? || o.status.Unsupported? || o.status.FeatureDisabled? ==> o.count == 0)
              && !o.status.Skipped? && !o.status.Failed?
  {
    EntriesAreExpected(carriers, enabled, w, replies, f, o);
  }

  lemma InWhen<T>(s: seq<T>, b: bool, x: T, y: T)
    ensures y in When(s, b, x) <==> y in s || (b && y == x)
  {
  }

  lemma LaunchesAreTried(carriers: set<Carrier>, w: World, c: Carrier)
    ensures c in AllLaunches(carriers, w) <==> Tried(carriers, w, c)
  {
    var s0 := When([], Tried(carriers, w, Passwords), Passwords);
    InWhen([], Tried(carriers, w, Passwords), Passwords, c);
    InWhen(s0, Tried(carriers, w, Cookies), Cookies, c);
    InWhen(SecretLaunches(carriers, w), Tried(carriers, w, LocalStorage), LocalStorage, c);
    InWhen(LocalLaunches(carriers, w), Tried(carriers, w, IndexedDb), IndexedDb, c);
  }

  /**
   * A stage is started exactly for the requested carriers it may serve; IndexedDB
   * only with Edge stopped and a fresh destination.
   */
  lemma StagesStarted(carriers: set<Carrier>, enabled: bool, w: World, replies: seq<Reply>, f: Flow, c: Carrier)
    requires Ended(carriers, enabled, w, replies, f)
    ensures c in f.launched <==> enabled && Tried(carriers, w, c)
    ensures IndexedDb in f.launched ==> !w.preflight.running && IndexedDb !in w.preflight.destInitialized
  {
    EndedIsComplete(carriers, enabled, w, replies, f);
    LaunchesAreTried(carriers, w, c);
    LaunchesAreTried(carriers, w, IndexedDb);
  }

  /** The report is undegraded exactly when every requested carrier was imported cleanly. */
  lemma UndegradedMeansAllClean(carriers: set<Carrier>, enabled: bool, w: World, replies: seq<Reply>, f: Flow)
    requires Ended(carriers, enabled, w, replies, f)
    ensures |f.delivered| == 1
    ensures (exists o :: o in f.delivered[0].carriers && !Clean(o.status))
            <==> exists c :: c in carriers && !(enabled && Attempted(w, c) && CleanResult(w, c))
  {
    EndedIsComplete(carriers, enabled, w, replies, f);
    forall o
      ensures o in f.delivered[0].carriers <==> o.carrier in carriers && o == Expected(w, enabled, o.carrier)
    {
      EntriesAreExpected(carriers, enabled, w, replies, f, o);
    }
    var es := f.delivered[0].carriers;
    forall c | c in carriers
      ensures Expected(w, enabled, c) in es
    {
      assert Expected(w, enabled, c).carrier == c;
    }
  }

  function CountIf(carriers: set<Carrier>, enabled: bool, w: World, c: Carrier): nat {
    if c in carriers then Expected(w, enabled, c).count else 0
  }

  lemma TotalOfEntries(carriers: set<Carrier>, w: World)
    ensures Total(AllEntries(carriers, w))
            == CountIf(carriers, true, w, Passwords) + CountIf(carriers, true, w, Cookies)
               + CountIf(carriers, true, w, LocalStorage) + CountIf(carriers, true, w, IndexedDb)
  {
    var s0 := When([], Missing(carriers, w, Passwords), Verdict(w, Passwords));
    var s1 := MissingSecrets(carriers, w);
    var s2 := When(s1, Tried(carriers, w, Passwords), Verdict(w, Passwords));
    TotalWhen([], Missing(carriers, w, Passwords), Verdict(w, Passwords));
    TotalWhen(s0, Missing(carriers, w, Cookies), Verdict(w, Cookies));
    TotalWhen(s1, Tried(carriers, w, Passwords), Verdict(w, Passwords));
    TotalWhen(s2, Tried(carriers, w, Cookies), Verdict(w, Cookies));
    TotalWhen(Secrets(carriers, w), LocalStorage in carriers, Verdict(w, LocalStorage));
    TotalWhen(UpToLocal(carriers, w), IndexedDb in carriers, Verdict(w, IndexedDb));
  }

  lemma DisabledTotal(carriers: set<Carrier>)
    ensures Total(Disabled(carriers)) == 0
  {
    var p := DisabledEntry(carriers, [], Passwords);
    var c := DisabledEntry(carriers, p, Cookies);
    var l := DisabledEntry(carriers, c, LocalStorage);
    TotalWhen([], Passwords in carriers, Outcome(Passwords, FeatureDisabled, 0));
    TotalWhen(p, Cookies in carriers, Outcome(Cookies, FeatureDisabled, 0));
    TotalWhen(c, LocalStorage in carriers, Outcome(LocalStorage, FeatureDisabled, 0));
    TotalWhen(l, IndexedDb in carriers, Outcome(IndexedDb, FeatureDisabled, 0));
  }

  /** The delivered report's total is the sum of what each requested carrier's stage reported. */
  lemma TotalIsTheSum(carriers: set<Carrier>, enabled: bool, w: World, replies: seq<Reply>, f: Flow)
    requires Ended(carriers, enabled, w, replies, f)
    ensures |f.delivered| == 1
    ensures Total(f.delivered[0].carriers)
            == CountIf(carriers, enabled, w, Passwords) + CountIf(carriers, enabled, w, Cookies)
               + CountIf(carriers, enabled, w, LocalStorage) + CountIf(carriers, enabled, w, IndexedDb)
  {
    EndedIsComplete(carriers, enabled, w, replies, f);
    TotalOfEntries(carriers, w);
    DisabledTotal(carriers);
  }

  lemma SecretOrder(carriers: set<Carrier>, w: World)
    requires Passwords in carriers && Cookies in carriers
    ensures var es := AllEntries(carriers, w);
            && |es| >= 2
            && (es[0].carrier == Cookies <==> Passwords in w.preflight.available && Cookies !in w.preflight.available)
            && (es[0].carrier == Cookies ==> es[1].carrier == Passwords)
            && (es[0].carrier != Cookies ==> es[0].carrier == Passwords && es[1].carrier == Cookies)
  {
  }

  lemma DisabledOrder(carriers: set<Carrier>)
    requires Passwords in carriers && Cookies in carriers
    ensures var es := Disabled(carriers); |es| >= 2 && es[0].carrier == Passwords && es[1].carrier == Cookies
  {
  }

  /** Delivered entries do not follow one fixed order: Cookies come first exactly when only they lack a source. */
  lemma CookiesFirstIff(carriers: set<Carrier>, enabled: bool, w: World, replies: seq<Reply>, f: Flow)
    requires Ended(carriers, enabled, w, replies, f) && Passwords in carriers && Cookies in carriers
    ensures |f.delivered| == 1
    ensures var es := f.delivered[0].carriers;
            && |es| >= 2
            && (es[0].carrier == Cookies
                <==> enabled && Passwords in w.preflight.available && Cookies !in w.preflight.available)
            && (es[0].carrier == Cookies ==> es[1].carrier == Passwords)
            && (es[0].carrier != Cookies ==> es[0].carrier == Passwords && es[1].carrier == Cookies)
  {
    EndedIsComplete(carriers, enabled, w, replies, f);
    SecretOrder(carriers, w);
    DisabledOrder(carriers);
  }

  /** A run whose delivered report has Cookies before Passwords. */
  lemma CookiesCanComeFirst()
    ensures var start := Run(NewFlow({Passwords, Cookies}), true);
            var replies := [PreflightReply(Preflight({Passwords}, {}, false, true)), SecretReply(1, 0, true)];
            && Plays(start, replies)
            && After(start, replies).delivered
               == [Delivery(true, false, [Outcome(Cookies, Unsupported, 0), Outcome(Passwords, Imported, 1)])]
  {
    var start := Run(NewFlow({Passwords, Cookies}), true);
    var first, second := PreflightReply(Preflight({Passwords}, {}, false, true)), SecretReply(1, 0, true);
    assert [first, second][1..] == [second] && [second][1..] == [];
    var mid := Receive(start, first);
    assert mid.pending == AwaitSecrets(true, false) && mid.report == [Outcome(Cookies, Unsupported, 0)];
    assert Plays(mid, [second]);
    var entries := [Outcome(Cookies, Unsupported, 0), Outcome(Passwords, Imported, 1)];
    var end := Receive(mid, second);
    assert Add(mid, Outcome(Passwords, Imported, 1)).report == entries;
    assert end.delivered == [Delivery(true, false, entries)];
    assert After(end, []) == end;
    assert After(mid, [second]) == end;
  }

  // ---- The coordinator object ----

  class RoamuxEdgeImportCoordinator {
    const carriers: set<Carrier>
    const report: EdgeImportReport
    var preflight: Preflight
    var pending: Pending
    var launched: seq<Carrier>
    var delivered: seq<Delivery>

    ghost function Value(): Flow
      reads this, report
    {
      Flow(carriers, preflight, report.carriers, pending, launched, delivered)
    }

    constructor (carriers: set<Carrier>)
      ensures Value() == NewFlow(carriers) && fresh(report)
    {
      this.carriers := carriers;
      report := new EdgeImportReport();
      preflight, pending, launched, delivered := UNKNOWN, NotStarted, [], [];
    }

    method AddOutcome(o: Outcome)
      modifies report
      ensures Value() == Add(old(Value()), o)
    {
      report.Add(o);
    }

    method RunImport(enabled: bool)
      modifies this, report
      ensures Value() == Run(old(Value()), enabled)
    {
      if !enabled {
        AddDisabled(Passwords);
        AddDisabled(Cookies);
        AddDisabled(LocalStorage);
        AddDisabled(IndexedDb);
        DisabledAppends(old(report.carriers), carriers);
        FinishRun();
      } else {
        pending := AwaitPreflight;
      }
    }

    method AddDisabled(c: Carrier)
      modifies report
      ensures report.carriers == DisabledEntry(carriers, old(report.carriers), c)
    {
      if c in carriers {
        report.Add(Outcome(c, FeatureDisabled, 0));
      }
    }

    method FinishRun()
      modifies this
      ensures Value() == Finish(old(Value()))
    {
      pending := Finished;
      delivered := delivered + [Delivery(preflight.versionSupported, preflight.running, report.carriers)];
    }

    method PreflightDone(p: Preflight)
      modifies this, report
      ensures Value() == OnPreflightDone(old(Value()), p)
    {
      preflight := p;
      SecretStep();
    }

    method SecretStep()
      modifies this, report
      ensures Value() == RunSecretStep(old(Value()))
    {
      var wantPasswords, wantCookies := Passwords in carriers, Cookies in carriers;
      if !wantPasswords && !wantCookies {
        LocalStorageStep();
        return;
      }
      var passwordsAvailable := wantPasswords && Passwords in preflight.available;
      var cookiesAvailable := wantCookies && Cookies in preflight.available;
      if wantPasswords && !passwordsAvailable {
        AddOutcome(Outcome(Passwords, Unsupported, 0));
      }
      if wantCookies && !cookiesAvailable {
        AddOutcome(Outcome(Cookies, Unsupported, 0));
      }
      if !passwordsAvailable && !cookiesAvailable {
        LocalStorageStep();
        return;
      }
      pending := AwaitSecrets(passwordsAvailable, cookiesAvailable);
      if passwordsAvailable {
        launched := launched + [Passwords];
      }
      if cookiesAvailable {
        launched := launched + [Cookies];
      }
    }

    method SecretDone(attemptedPasswords: bool, attemptedCookies: bool, passwords: nat, cookies: nat, keychain: bool)
      modifies this, report
      ensures Value() == OnSecretDone(old(Value()), attemptedPasswords, attemptedCookies, passwords, cookies, keychain)
    {
      if attemptedPasswords {
        AddOutcome(Outcome(Passwords, SecretStatus(keychain, preflight.running, passwords), passwords));
      }
      if attemptedCookies {
        AddOutcome(Outcome(Cookies, SecretStatus(keychain, preflight.running, cookies), cookies));
      }
      LocalStorageStep();
    }

    method LocalStorageStep()
      modifies this, report
      ensures Value() == RunLocalStorageStep(old(Value()))
    {
      if LocalStorage !in carriers {
        IndexedDbStep();
      } else if LocalStorage !in preflight.available {
        AddOutcome(Outcome(LocalStorage, Unsupported, 0));
        IndexedDbStep();
      } else {
        pending := AwaitUsage;
      }
    }

    method LocalStorageUsageChecked(empty: bool)
      modifies this, report
      ensures Value() == OnLocalStorageUsageChecked(old(Value()), empty)
    {
      if !empty {
        AddOutcome(Outcome(LocalStorage, Blocked, 0));
        IndexedDbStep();
        return;
      }
      pending := AwaitLocalStorage;
      launched := launched + [LocalStorage];
    }

    method LocalStorageDone(accepted: nat)
      modifies this, report
      ensures Value() == OnLocalStorageDone(old(Value()), accepted)
    {
      var status := Degraded;
      if !preflight.running && accepted > 0 {
        status := Imported;
      }
      AddOutcome(Outcome(LocalStorage, status, accepted));
      IndexedDbStep();
    }

    method IndexedDbStep()
      modifies this, report
      ensures Value() == RunIndexedDbStep(old(Value()))
    {
      if IndexedDb !in carriers {
        FinishRun();
      } else if IndexedDb !in preflight.available {
        AddOutcome(Outcome(IndexedDb, Unsupported, 0));
        FinishRun();
      } else if preflight.running || IndexedDb in preflight.destInitialized {
        AddOutcome(Outcome(IndexedDb, Blocked, 0));
        FinishRun();
      } else {
        pending := AwaitIndexedDb;
        launched := launched + [IndexedDb];
      }
    }

    method IndexedDbDone(stores: nat)
      modifies this, report
      ensures Value() == OnIndexedDbDone(old(Value()), stores)
    {
      AddOutcome(Outcome(IndexedDb, if stores > 0 then Imported else Degraded, stores));
      FinishRun();
    }
  }

  lemma DisabledAppends(before: seq<Outcome>, carriers: set<Carrier>)
    ensures DisabledEntry(carriers, DisabledEntry(carriers, DisabledEntry(carriers, DisabledEntry(carriers, before,
              Passwords), Cookies), LocalStorage), IndexedDb) == before + Disabled(carriers)
  {
  }
}
