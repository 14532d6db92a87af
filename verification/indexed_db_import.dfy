/** Copying Edge's IndexedDB stores: group, stage, publish without replacing, roll back. */
module IndexedDbImport {
  import opened Common

  type Name = string

  /** A directory tree: relative paths and their bytes. */
  type Tree = map<string, seq<int>>

  datatype Store = Store(name: Name, contents: Tree)

  const LEVELDB := ".leveldb"
  const BLOB := ".blob"
  const INDEXED_DB := ".indexeddb"

  // ---- Names ----

  /** Where the extension of a file name starts; its length when it has none. */
  function ExtensionAt(name: Name): (k: nat)
    ensures k <= |name|
    ensures k < |name| ==> name[k] == '.' && '.' !in name[k + 1..]
    ensures k == |name| && name != "." && name != ".." ==> '.' !in name
  {
    if name == "." || name == ".." then |name| else LastDot(name)
  }

  function LastDot(name: Name): (k: nat)
    ensures k <= |name|
    ensures k < |name| ==> name[k] == '.' && '.' !in name[k + 1..]
    ensures k == |name| ==> '.' !in name
  {
    if name == "" then 0
    else if Last(name) == '.' then |name| - 1
    else
      var k := LastDot(Init(name));
      assert name == Init(name) + [Last(name)];
      if k == |name| - 1 then |name| else
      assert name[k + 1..] == Init(name)[k + 1..] + [Last(name)];
      k
  }

  function Extension(name: Name): string {
    name[ExtensionAt(name)..]
  }

  function RemoveExtension(name: Name): Name {
    name[..ExtensionAt(name)]
  }

  function OriginBase(name: Name): Name {
    if Extension(name) == LEVELDB || Extension(name) == BLOB then
      var stripped := RemoveExtension(name);
      if Extension(stripped) == INDEXED_DB then RemoveExtension(stripped) else name
    else name
  }

  predicate DotAfter(name: Name, j: nat)
    requires j < |name|
  {
    '.' in name[j + 1..]
  }

  lemma ExtensionOf(stem: Name, ext: string)
    requires |ext| > 1 && ext[0] == '.' && '.' !in ext[1..] && stem + ext != ".."
    ensures Extension(stem + ext) == ext && RemoveExtension(stem + ext) == stem
  {
    var name := stem + ext;
    var k := ExtensionAt(name);
    assert name[|stem|..] == ext && name[..|stem|] == stem && name[|stem| + 1..] == ext[1..];
    assert name[|stem|] == '.' && '.' in name;
    forall j | |stem| < j < |name|
      ensures name[j] != '.'
    {
      assert name[j] == ext[1..][j - |stem| - 1];
    }
    forall j | 0 <= j < |stem|
      ensures DotAfter(name, j)
    {
      assert name[j + 1..][|stem| - j - 1] == '.';
    }
    assert k < |name| ==> !DotAfter(name, k);
  }

  lemma StemAndExtension(name: Name)
    ensures name == RemoveExtension(name) + Extension(name)
  {
  }

  /** The leveldb and blob directories of one origin, and nothing else, fall under that origin's base. */
  lemma OriginBaseStripsPairs(name: Name, id: Name)
    ensures OriginBase(id + INDEXED_DB + LEVELDB) == id && OriginBase(id + INDEXED_DB + BLOB) == id
    ensures OriginBase(name) == id ==>
              name == id || name == id + INDEXED_DB + LEVELDB || name == id + INDEXED_DB + BLOB
  {
    ExtensionOf(id + INDEXED_DB, LEVELDB);
    ExtensionOf(id + INDEXED_DB, BLOB);
    ExtensionOf(id, INDEXED_DB);
    StemAndExtension(name);
    StemAndExtension(RemoveExtension(name));
  }

  // ---- Grouping ----

  function Members(stores: seq<Store>, origin: Name): (m: seq<Store>)
    ensures forall s :: s in m <==> s in stores && OriginBase(s.name) == origin
  {
    if stores == [] then []
    else
      var rest := Members(Init(stores), origin);
      assert stores == Init(stores) + [Last(stores)];
      if OriginBase(Last(stores).name) == origin then rest + [Last(stores)] else rest
  }

  function Names(stores: seq<Store>): set<Name> {
    set s | s in stores :: s.name
  }

  function Bases(stores: seq<Store>): set<Name> {
    set s | s in stores :: OriginBase(s.name)
  }

  predicate DistinctNames(stores: seq<Store>) {
    stores == [] || (DistinctNames(Init(stores)) && Last(stores).name !in Names(Init(stores)))
  }

  lemma NamesOfMembers(stores: seq<Store>, origin: Name)
    ensures Names(Members(stores, origin)) == set n | n in Names(stores) && OriginBase(n) == origin
  {
    var m := Members(stores, origin);
    forall n | n in Names(stores) && OriginBase(n) == origin
      ensures n in Names(m)
    {
      var s :| s in stores && s.name == n;
      assert s in m;
    }
  }

  lemma {:induction false} MembersDistinct(stores: seq<Store>, origin: Name)
    requires DistinctNames(stores)
    ensures DistinctNames(Members(stores, origin))
  {
    if stores != [] {
      MembersDistinct(Init(stores), origin);
      var rest := Members(Init(stores), origin);
      if OriginBase(Last(stores).name) == origin {
        assert Init(rest + [Last(stores)]) == rest;
      }
    }
  }

  /** Directory entries have one content per name. */
  lemma {:induction false} OneContentPerName(stores: seq<Store>, s: Store, t: Store)
    requires DistinctNames(stores) && s in stores && t in stores && s.name == t.name
    ensures s == t
  {
    assert stores == Init(stores) + [Last(stores)];
    assert forall r :: r in Init(stores) ==> r.name in Names(Init(stores));
    if s in Init(stores) && t in Init(stores) {
      OneContentPerName(Init(stores), s, t);
    }
  }

  lemma MembersStep(stores: seq<Store>, i: nat, origin: Name)
    requires i < |stores|
    ensures Members(stores[..i + 1], origin)
            == Members(stores[..i], origin) + if OriginBase(stores[i].name) == origin then [stores[i]] else []
  {
    assert Init(stores[..i + 1]) == stores[..i];
  }

  lemma BasesStep(stores: seq<Store>, i: nat)
    requires i < |stores|
    ensures Bases(stores[..i + 1]) == Bases(stores[..i]) + {OriginBase(stores[i].name)}
  {
    assert stores[..i + 1] == stores[..i] + [stores[i]];
  }

  /** `groups` lists the nonempty values of `members` over these origins. */
  ghost predicate Grouped(groups: map<Name, seq<Store>>, origins: set<Name>, members: Name -> seq<Store>) {
    && groups.Keys == origins
    && (forall o :: o in groups ==> groups[o] == members(o))
    && (forall o :: o !in groups ==> members(o) == [])
  }

  lemma GroupedUpdate(groups: map<Name, seq<Store>>, origins: set<Name>,
                      before: Name -> seq<Store>, after: Name -> seq<Store>,
                      store: Store, origin: Name, group: seq<Store>)
    requires Grouped(groups, origins, before) && group == if origin in groups then groups[origin] else []
    requires forall o :: after(o) == before(o) + if o == origin then [store] else []
    ensures Grouped(groups[origin := group + [store]], origins + {origin}, after)
  {
  }

  ghost function MembersIn(stores: seq<Store>): Name -> seq<Store> {
    o => Members(stores, o)
  }

  lemma GroupedStep(groups: map<Name, seq<Store>>, stores: seq<Store>, i: nat, origin: Name, group: seq<Store>)
    requires i < |stores| && Grouped(groups, Bases(stores[..i]), MembersIn(stores[..i]))
    requires origin == OriginBase(stores[i].name)
    requires group == if origin in groups then groups[origin] else []
    ensures Grouped(groups[origin := group + [stores[i]]], Bases(stores[..i + 1]), MembersIn(stores[..i + 1]))
  {
    BasesStep(stores, i);
    var before, after := MembersIn(stores[..i]), MembersIn(stores[..i + 1]);
    forall o
      ensures after(o) == before(o) + if o == origin then [stores[i]] else []
    {
      MembersStep(stores, i, o);
    }
    GroupedUpdate(groups, Bases(stores[..i]), before, after, stores[i], origin, group);
  }

  /** The source's grouping: every store lands in the group of its base, in listing order. */
  method GroupStores(stores: seq<Store>) returns (groups: map<Name, seq<Store>>)
    ensures groups.Keys == Bases(stores)
    ensures forall o :: o in groups ==> groups[o] == Members(stores, o)
  {
    groups := map[];
    for i := 0 to |stores|
      invariant Grouped(groups, Bases(stores[..i]), MembersIn(stores[..i]))
    {
      var origin := OriginBase(stores[i].name);
      var group := if origin in groups then groups[origin] else [];
      GroupedStep(groups, stores, i, origin, group);
      groups := groups[origin := group + [stores[i]]];
    }
    assert stores[..|stores|] == stores;
  }

  // ---- The destination directory, shared with another actor ----

  predicate Extends(old_: map<Name, Tree>, new_: map<Name, Tree>) {
    forall n :: n in old_ ==> n in new_ && new_[n] == old_[n]
  }

  lemma AddedToOurs(foreign: map<Name, Tree>, ours: map<Name, Tree>, name: Name, tree: Tree)
    requires name !in foreign + ours && foreign.Keys !! ours.Keys
    ensures (foreign + ours)[name := tree] == foreign + ours[name := tree]
    ensures foreign.Keys !! ours[name := tree].Keys
  {
  }

  lemma RemovedFromOurs(foreign: map<Name, Tree>, ours: map<Name, Tree>, name: Name)
    requires name in ours && foreign.Keys !! ours.Keys
    ensures (foreign + ours) - {name} == foreign + (ours - {name})
    ensures foreign.Keys !! (ours - {name}).Keys
  {
  }

  /**
   * The profile's IndexedDB directory and this run's staging root in it. Between
   * any two operations another actor may add names. `ours` is what this run has
   * published and not rolled back, `foreign` everything else; `quiet` marks an
   * environment without actor and without failures.
   */
  class FileSystem {
    var dest: map<Name, Tree>
    var staging: Option<map<Name, Tree>>
    ghost var foreign: map<Name, Tree>
    ghost var ours: map<Name, Tree>
    const quiet: bool

    ghost predicate Valid()
      reads this
    {
      dest == foreign + ours && foreign.Keys !! ours.Keys
    }

    constructor (stores: map<Name, Tree>, quiet: bool)
      ensures Valid() && dest == stores && staging.None? && this.quiet == quiet
    {
      dest, staging, foreign, ours := stores, None, stores, map[];
      this.quiet := quiet;
    }

    /** The other actor's turn. */
    method Interfere()
      requires Valid()
      modifies `dest, `foreign
      ensures Valid() && Extends(old(foreign), foreign)
      ensures quiet ==> foreign == old(foreign)
    {
      if !quiet {
        var more: map<Name, Tree> := *;
        more := more - dest.Keys;
        dest := more + dest;
        foreign := more + foreign;
      }
    }

    /** Everything there before belongs to someone else. */
    ghost method BeginRun()
      requires Valid()
      modifies `foreign, `ours
      ensures Valid() && foreign == dest && ours == map[]
    {
      foreign, ours := dest, map[];
    }

    method Fails() returns (b: bool)
      ensures quiet ==> !b
    {
      b := *;
      b := b && !quiet;
    }

    method CreateStaging() returns (ok: bool)
      requires Valid() && staging.None?
      modifies `staging, `dest, `foreign
      ensures Valid() && Extends(old(foreign), foreign) && (quiet ==> ok && foreign == old(foreign))
      ensures staging == if ok then Some(map[]) else None
    {
      Interfere();
      var failed := Fails();
      ok := !failed;
      staging := if ok then Some(map[]) else None;
    }

    method DeleteStaging()
      modifies `staging
      ensures staging.None?
    {
      staging := None;
    }

    method PathExists(name: Name) returns (b: bool)
      requires Valid()
      modifies `dest, `foreign
      ensures Valid() && Extends(old(foreign), foreign) && (quiet ==> foreign == old(foreign))
      ensures b == (name in dest)
    {
      Interfere();
      b := name in dest;
    }

    /** The target must be new: copying onto an existing directory would merge. A failed copy may leave part of it. */
    method CopyDirectory(store: Store) returns (ok: bool)
      requires Valid() && staging.Some? && store.name !in staging.value
      modifies `staging, `dest, `foreign
      ensures Valid() && Extends(old(foreign), foreign) && (quiet ==> ok && foreign == old(foreign))
      ensures staging.Some? && staging.value.Keys == old(staging).value.Keys + {store.name}
      ensures ok ==> staging.value == old(staging).value[store.name := store.contents]
    {
      Interfere();
      var failed := Fails();
      var partial: Tree := *;
      ok := !failed;
      staging := Some(staging.value[store.name := if ok then store.contents else partial]);
    }

    /** The atomic rename that fails when the name is taken. */
    method PublishExclusive(name: Name) returns (ok: bool)
      requires Valid() && staging.Some? && name in staging.value
      modifies this
      ensures Valid() && Extends(old(foreign), foreign) && (quiet ==> foreign == old(foreign))
      ensures quiet && name !in old(dest) ==> ok
      ensures ok ==> name !in old(dest) && staging == Some(old(staging).value - {name})
      ensures ok ==> ours == old(ours)[name := old(staging).value[name]]
      ensures !ok ==> staging == old(staging) && ours == old(ours)
    {
      Interfere();
      var failed := Fails();
      ok := !failed && name !in dest;
      if ok {
        var tree := staging.value[name];
        AddedToOurs(foreign, ours, name, tree);
        dest := dest[name := tree];
        staging := Some(staging.value - {name});
        ours := ours[name := tree];
      }
    }

    /** Only what this run published may be deleted. */
    method DeletePathRecursively(name: Name)
      requires Valid() && name in ours
      modifies `dest, `foreign, `ours
      ensures Valid() && Extends(old(foreign), foreign) && (quiet ==> foreign == old(foreign))
      ensures ours == old(ours) - {name}
    {
      Interfere();
      RemovedFromOurs(foreign, ours, name);
      dest := dest - {name};
      ours := ours - {name};
    }
  }

  // ---- The transaction ----

  /** `after` is `before` plus these stores, with their source contents. */
  ghost predicate Adds(before: map<Name, Tree>, after: map<Name, Tree>, stores: seq<Store>) {
    && Extends(before, after)
    && after.Keys == before.Keys + Names(stores)
    && (forall s :: s in stores ==> s.name in after && after[s.name] == s.contents)
  }

  method AnyDestExists(fs: FileSystem, members: seq<Store>) returns (exists_: bool)
    requires fs.Valid()
    modifies fs`dest, fs`foreign
    ensures fs.Valid() && Extends(old(fs.foreign), fs.foreign) && (fs.quiet ==> fs.foreign == old(fs.foreign))
    ensures (exists s :: s in members && s.name in old(fs.dest)) ==> exists_
    ensures fs.quiet && exists_ ==> exists s :: s in members && s.name in old(fs.dest)
  {
    exists_ := false;
    var i := 0;
    while i < |members| && !exists_
      invariant 0 <= i <= |members|
      invariant fs.Valid() && Extends(old(fs.foreign), fs.foreign) && (fs.quiet ==> fs.foreign == old(fs.foreign))
      invariant !exists_ ==> forall s :: s in members[..i] ==> s.name !in old(fs.dest)
      invariant fs.quiet && exists_ ==> exists s :: s in members && s.name in old(fs.dest)
    {
      exists_ := fs.PathExists(members[i].name);
      assert members[..i + 1] == members[..i] + [members[i]];
      i := i + 1;
    }
  }

  lemma AddsOne(before: map<Name, Tree>, mid: map<Name, Tree>, after: map<Name, Tree>, prefix: seq<Store>, s: Store)
    requires Adds(before, mid, prefix) && s.name !in Names(prefix) && s.name !in before
    requires after == mid[s.name := s.contents]
    ensures Adds(before, after, prefix + [s])
  {
  }

  method StageGroup(fs: FileSystem, members: seq<Store>) returns (ok: bool)
    requires fs.Valid() && fs.staging.Some? && DistinctNames(members) && Names(members) !! fs.staging.value.Keys
    modifies fs`dest, fs`foreign, fs`staging
    ensures fs.Valid() && Extends(old(fs.foreign), fs.foreign) && (fs.quiet ==> ok && fs.foreign == old(fs.foreign))
    ensures fs.staging.Some? && fs.staging.value.Keys <= old(fs.staging).value.Keys + Names(members)
    ensures ok ==> Adds(old(fs.staging).value, fs.staging.value, members)
  {
    ok := true;
    var i := 0;
    while i < |members| && ok
      invariant 0 <= i <= |members|
      invariant fs.Valid() && Extends(old(fs.foreign), fs.foreign) && (fs.quiet ==> ok && fs.foreign == old(fs.foreign))
      invariant fs.staging.Some? && fs.staging.value.Keys <= old(fs.staging).value.Keys + Names(members)
      invariant ok ==> Adds(old(fs.staging).value, fs.staging.value, members[..i])
    {
      FreshName(members, i);
      NamesStep(members, i);
      ghost var mid := fs.staging.value;
      ok := fs.CopyDirectory(members[i]);
      if ok {
        AddsOne(old(fs.staging).value, mid, fs.staging.value, members[..i], members[i]);
      }
      i := i + 1;
    }
    assert members[..|members|] == members;
  }

  lemma NamesStep(stores: seq<Store>, i: nat)
    requires i < |stores|
    ensures stores[..i + 1] == stores[..i] + [stores[i]]
    ensures Names(stores[..i + 1]) == Names(stores[..i]) + {stores[i].name} && stores[i].name in Names(stores)
  {
    assert stores[..i + 1] == stores[..i] + [stores[i]];
  }

  lemma RemovedOneMore(before: map<Name, Tree>, now: map<Name, Tree>, published: seq<Store>, i: nat)
    requires i < |published| && now == before - Names(published[..i])
    ensures now - {published[i].name} == before - Names(published[..i + 1])
  {
    NamesStep(published, i);
  }

  lemma {:induction false} FreshName(members: seq<Store>, i: nat)
    requires DistinctNames(members) && i < |members|
    ensures members[i].name !in Names(members[..i])
  {
    if i < |members| - 1 {
      FreshName(Init(members), i);
      assert Init(members)[..i] == members[..i];
    }
  }

  ghost predicate StagedIn(staging: map<Name, Tree>, members: seq<Store>) {
    forall s :: s in members ==> s.name in staging && staging[s.name] == s.contents
  }

  ghost predicate Staged(fs: FileSystem, members: seq<Store>)
    reads fs
  {
    fs.staging.Some? && StagedIn(fs.staging.value, members)
  }

  lemma StagedRest(staging: map<Name, Tree>, members: seq<Store>, i: nat)
    requires DistinctNames(members) && i < |members| && StagedIn(staging, members[i..])
    ensures members[i] in members[i..] && StagedIn(staging, members[i + 1..])
    ensures StagedIn(staging - {members[i].name}, members[i + 1..])
  {
    LaterNamesDiffer(members, i);
    assert members[i..] == [members[i]] + members[i + 1..];
  }

  lemma DestGrows(foreign: map<Name, Tree>, ours: map<Name, Tree>, foreign': map<Name, Tree>, ours': map<Name, Tree>)
    requires Extends(foreign, foreign') && Extends(ours, ours') && foreign'.Keys !! ours'.Keys
    ensures Extends(foreign + ours, foreign' + ours')
  {
  }

  lemma StaysFree(foreign: map<Name, Tree>, before: map<Name, Tree>, ours: map<Name, Tree>,
                  prefix: seq<Store>, name: Name)
    requires name !in foreign + before && Adds(before, ours, prefix) && name !in Names(prefix)
    ensures name !in foreign + ours
  {
  }

  /** How far publishing has come since `foreign` and `before`. */
  ghost predicate Publishing(fs: FileSystem, foreign: map<Name, Tree>, before: map<Name, Tree>, prefix: seq<Store>)
    reads fs
  {
    && fs.Valid() && Extends(foreign, fs.foreign) && (fs.quiet ==> fs.foreign == foreign)
    && Adds(before, fs.ours, prefix) && Names(prefix) !! (foreign + before).Keys
  }

  method PublishNext(fs: FileSystem, members: seq<Store>, done: nat,
                     ghost foreign: map<Name, Tree>, ghost before: map<Name, Tree>)
    returns (ok: bool)
    requires DistinctNames(members) && done < |members| && Staged(fs, members[done..])
    requires Publishing(fs, foreign, before, members[..done]) && foreign.Keys !! before.Keys
    modifies fs
    ensures fs.staging.Some? && fs.staging.value.Keys <= old(fs.staging).value.Keys
    ensures Publishing(fs, foreign, before, if ok then members[..done + 1] else members[..done])
    ensures ok ==> Staged(fs, members[done + 1..])
    ensures fs.quiet && members[done].name !in foreign + before ==> ok
  {
    var s := members[done];
    FreshName(members, done);
    NamesStep(members, done);
    StagedRest(fs.staging.value, members, done);
    DestGrows(foreign, before, fs.foreign, fs.ours);
    if s.name !in foreign + before {
      StaysFree(foreign, before, fs.ours, members[..done], s.name);
    }
    ghost var mid := fs.ours;
    ok := fs.PublishExclusive(s.name);
    if ok {
      AddsOne(before, mid, fs.ours, members[..done], s);
    }
  }

  /** Publishes members in order until one fails; `done` of them are then published. */
  method PublishStaged(fs: FileSystem, members: seq<Store>) returns (ok: bool, done: nat)
    requires fs.Valid() && DistinctNames(members) && Staged(fs, members)
    modifies fs
    ensures fs.staging.Some? && fs.staging.value.Keys <= old(fs.staging).value.Keys
    ensures done <= |members| && (ok ==> done == |members|)
    ensures Publishing(fs, old(fs.foreign), old(fs.ours), members[..done])
    ensures fs.quiet && Names(members) !! old(fs.dest).Keys ==> ok
  {
    ok, done := true, 0;
    while done < |members| && ok
      invariant done <= |members| && fs.staging.Some?
      invariant fs.staging.value.Keys <= old(fs.staging).value.Keys
      invariant ok ==> Staged(fs, members[done..])
      invariant Publishing(fs, old(fs.foreign), old(fs.ours), members[..done])
      invariant fs.quiet && Names(members) !! old(fs.dest).Keys ==> ok
      decreases |members| - done, ok
    {
      assert members[done].name in Names(members);
      ok := PublishNext(fs, members, done, old(fs.foreign), old(fs.ours));
      if ok {
        done := done + 1;
      }
    }
  }

  lemma {:induction false} LaterNamesDiffer(members: seq<Store>, i: nat)
    requires DistinctNames(members) && i < |members|
    ensures forall s :: s in members[i + 1..] ==> s.name != members[i].name
  {
    forall s | s in members[i + 1..]
      ensures s.name != members[i].name
    {
      var k :| 0 <= k < |members| - i - 1 && members[i + 1..][k] == s;
      FreshName(members, i + 1 + k);
      assert members[i] in members[..i + 1 + k];
    }
  }

  /** Deletes what a failed group had published. */
  method RollBack(fs: FileSystem, published: seq<Store>)
    requires fs.Valid() && DistinctNames(published) && Names(published) <= fs.ours.Keys
    modifies fs`dest, fs`foreign, fs`ours
    ensures fs.Valid() && Extends(old(fs.foreign), fs.foreign) && (fs.quiet ==> fs.foreign == old(fs.foreign))
    ensures fs.ours == old(fs.ours) - Names(published)
  {
    for i := 0 to |published|
      invariant fs.Valid() && Extends(old(fs.foreign), fs.foreign) && (fs.quiet ==> fs.foreign == old(fs.foreign))
      invariant fs.ours == old(fs.ours) - Names(published[..i])
    {
      FreshName(published, i);
      NamesStep(published, i);
      RemovedOneMore(old(fs.ours), fs.ours, published, i);
      fs.DeletePathRecursively(published[i].name);
    }
    assert published[..|published|] == published;
  }

  lemma AddThenRemove(before: map<Name, Tree>, after: map<Name, Tree>, stores: seq<Store>)
    requires Adds(before, after, stores) && Names(stores) !! before.Keys
    ensures after - Names(stores) == before
  {
  }

  lemma {:induction false} PrefixDistinct(members: seq<Store>, i: nat)
    requires DistinctNames(members) && i <= |members|
    ensures DistinctNames(members[..i])
  {
    if i < |members| {
      PrefixDistinct(Init(members), i);
      assert Init(members)[..i] == members[..i];
    } else {
      assert members[..i] == members;
    }
  }

  /** One origin: published whole with its source contents, or left as it was. */
  method ImportGroup(fs: FileSystem, members: seq<Store>) returns (ok: bool)
    requires fs.Valid() && fs.staging.Some? && DistinctNames(members) && Names(members) !! fs.staging.value.Keys
    modifies fs
    ensures fs.Valid() && Extends(old(fs.foreign), fs.foreign) && (fs.quiet ==> fs.foreign == old(fs.foreign))
    ensures fs.staging.Some? && fs.staging.value.Keys <= old(fs.staging).value.Keys + Names(members)
    ensures if ok then Adds(old(fs.ours), fs.ours, members) else fs.ours == old(fs.ours)
    ensures ok ==> Names(members) !! old(fs.dest).Keys
    ensures fs.quiet && Names(members) !! old(fs.dest).Keys ==> ok
  {
    var taken := AnyDestExists(fs, members);
    if taken {
      return false;
    }
    ok := StageGroup(fs, members);
    if ok {
      label Staged:
      var done;
      ok, done := PublishStaged(fs, members);
      if ok {
        assert members[..done] == members;
      } else {
        PrefixDistinct(members, done);
        AddThenRemove(old@Staged(fs.ours), fs.ours, members[..done]);
        RollBack(fs, members[..done]);
      }
    }
  }

  // ---- All groups ----

  /** `ours` holds exactly the stores of these origins, each with its source contents. */
  ghost predicate Holds(ours: map<Name, Tree>, stores: seq<Store>, origins: set<Name>) {
    && (forall n :: n in ours <==> n in Names(stores) && OriginBase(n) in origins)
    && (forall s :: s in stores && s.name in ours ==> ours[s.name] == s.contents)
  }

  lemma HoldsOneMore(before: map<Name, Tree>, after: map<Name, Tree>,
                     stores: seq<Store>, origins: set<Name>, origin: Name)
    requires DistinctNames(stores) && Holds(before, stores, origins) && Adds(before, after, Members(stores, origin))
    ensures Holds(after, stores, origins + {origin})
  {
    NamesOfMembers(stores, origin);
    forall s | s in stores && s.name in after
      ensures after[s.name] == s.contents
    {
      if OriginBase(s.name) == origin {
        assert s in Members(stores, origin);
      }
    }
  }

  /** No destination directory carries the name of one of this origin's stores. */
  ghost predicate Free(stores: seq<Store>, origin: Name, dest: map<Name, Tree>) {
    Names(Members(stores, origin)) !! dest.Keys
  }

  /** What the run has published once the origins outside `remaining` have had their turn. */
  ghost predicate Progress(ours: map<Name, Tree>, stores: seq<Store>, start: map<Name, Tree>,
                           published: set<Name>, remaining: set<Name>, quiet: bool)
  {
    && published <= Bases(stores) - remaining && Holds(ours, stores, published)
    && (forall o :: o in published ==> Free(stores, o, start))
    && (quiet ==> forall o :: o in Bases(stores) - remaining && Free(stores, o, start) ==> o in published)
  }

  ghost predicate StagedAway(staging: map<Name, Tree>, stores: seq<Store>, remaining: set<Name>) {
    forall n :: n in staging ==> n in Names(stores) && OriginBase(n) !in remaining
  }

  ghost predicate Underway(fs: FileSystem, stores: seq<Store>, start: map<Name, Tree>,
                           published: set<Name>, remaining: set<Name>)
    reads fs
  {
    && fs.Valid() && fs.staging.Some? && Extends(start, fs.foreign) && (fs.quiet ==> fs.foreign == start)
    && StagedAway(fs.staging.value, stores, remaining)
    && Progress(fs.ours, stores, start, published, remaining, fs.quiet)
  }

  lemma NothingYet(stores: seq<Store>, start: map<Name, Tree>, quiet: bool)
    ensures Progress(map[], stores, start, {}, Bases(stores), quiet)
    ensures StagedAway(map[], stores, Bases(stores))
  {
  }

  lemma FreeNow(foreign: map<Name, Tree>, ours: map<Name, Tree>, stores: seq<Store>, start: map<Name, Tree>,
                published: set<Name>, remaining: set<Name>, quiet: bool, origin: Name)
    requires Progress(ours, stores, start, published, remaining, quiet) && origin in remaining
    requires Extends(start, foreign)
    ensures Free(stores, origin, foreign + ours) ==> Free(stores, origin, start)
    ensures foreign == start && Free(stores, origin, start) ==> Free(stores, origin, foreign + ours)
  {
    NamesOfMembers(stores, origin);
  }

  lemma OneMorePublished(before: map<Name, Tree>, after: map<Name, Tree>, stores: seq<Store>, start: map<Name, Tree>,
                         published: set<Name>, remaining: set<Name>, quiet: bool, origin: Name)
    requires Progress(before, stores, start, published, remaining, quiet)
    requires origin in remaining && remaining <= Bases(stores)
    requires DistinctNames(stores) && Adds(before, after, Members(stores, origin)) && Free(stores, origin, start)
    ensures Progress(after, stores, start, published + {origin}, remaining - {origin}, quiet)
  {
    HoldsOneMore(before, after, stores, published, origin);
  }

  lemma OneMoreSkipped(ours: map<Name, Tree>, stores: seq<Store>, start: map<Name, Tree>,
                       published: set<Name>, remaining: set<Name>, quiet: bool, origin: Name)
    requires Progress(ours, stores, start, published, remaining, quiet) && origin in remaining
    requires quiet ==> !Free(stores, origin, start)
    ensures Progress(ours, stores, start, published, remaining - {origin}, quiet)
  {
  }

  lemma StagedOneMore(before: map<Name, Tree>, after: map<Name, Tree>,
                      stores: seq<Store>, remaining: set<Name>, origin: Name)
    requires StagedAway(before, stores, remaining) && after.Keys <= before.Keys + Names(Members(stores, origin))
    ensures StagedAway(after, stores, remaining - {origin})
  {
    NamesOfMembers(stores, origin);
  }

  lemma NotStagedYet(staging: map<Name, Tree>, stores: seq<Store>, remaining: set<Name>, origin: Name)
    requires StagedAway(staging, stores, remaining) && origin in remaining
    ensures Names(Members(stores, origin)) !! staging.Keys
  {
    NamesOfMembers(stores, origin);
  }

  method ImportOrigin(fs: FileSystem, stores: seq<Store>, origin: Name, members: seq<Store>,
                      ghost start: map<Name, Tree>, ghost published: set<Name>, ghost remaining: set<Name>)
    returns (ok: bool)
    requires DistinctNames(stores)
    requires origin in remaining && remaining <= Bases(stores) && members == Members(stores, origin)
    requires Underway(fs, stores, start, published, remaining)
    modifies fs
    ensures Underway(fs, stores, start, if ok then published + {origin} else published, remaining - {origin})
  {
    MembersDistinct(stores, origin);
    FreeNow(fs.foreign, fs.ours, stores, start, published, remaining, fs.quiet, origin);
    NotStagedYet(fs.staging.value, stores, remaining, origin);
    ghost var before, staged := fs.ours, fs.staging.value;
    ok := ImportGroup(fs, members);
    StagedOneMore(staged, fs.staging.value, stores, remaining, origin);
    if ok {
      OneMorePublished(before, fs.ours, stores, start, published, remaining, fs.quiet, origin);
    } else {
      OneMoreSkipped(fs.ours, stores, start, published, remaining, fs.quiet, origin);
    }
  }

  method ImportOrigins(fs: FileSystem, stores: seq<Store>, groups: map<Name, seq<Store>>, ghost start: map<Name, Tree>)
    returns (count: nat, ghost published: set<Name>)
    requires DistinctNames(stores) && groups.Keys == Bases(stores)
    requires forall o :: o in groups ==> groups[o] == Members(stores, o)
    requires Underway(fs, stores, start, {}, Bases(stores))
    modifies fs
    ensures Underway(fs, stores, start, published, {}) && count == |published|
  {
    count, published := 0, {};
    var remaining := groups.Keys;
    while remaining != {}
      invariant remaining <= groups.Keys && count == |published|
      invariant Underway(fs, stores, start, published, remaining)
      decreases |remaining|
    {
      var origin :| origin in remaining;
      var ok := ImportOrigin(fs, stores, origin, groups[origin], start, published, remaining);
      if ok {
        assert origin !in published;
        count, published := count + 1, published + {origin};
      }
      remaining := remaining - {origin};
    }
  }

  /**
   * The whole import. Nothing that was there or that the other actor adds is
   * overwritten or deleted; the run's own additions are exactly the stores of the
   * published origins; an origin already present is left alone.
   */
  method CopyStores(fs: FileSystem, stores: seq<Store>) returns (count: nat, ghost published: set<Name>)
    requires fs.Valid() && fs.staging.None? && DistinctNames(stores)
    modifies fs
    ensures fs.Valid() && fs.staging.None?
    ensures Extends(old(fs.dest), fs.foreign) && (fs.quiet ==> fs.foreign == old(fs.dest))
    ensures published <= Bases(stores) && Holds(fs.ours, stores, published) && count == |published|
    ensures forall o :: o in published ==> Free(stores, o, old(fs.dest))
    ensures fs.quiet ==> forall o :: o in Bases(stores) && Free(stores, o, old(fs.dest)) ==> o in published
  {
    count, published := 0, {};
    ghost var start := fs.dest;
    fs.BeginRun();
    NothingYet(stores, start, fs.quiet);
    var ok := fs.CreateStaging();
    if ok {
      var groups := GroupStores(stores);
      count, published := ImportOrigins(fs, stores, groups, start);
      assert Bases(stores) - {} == Bases(stores);
      fs.DeleteStaging();
    }
  }

  lemma PresentOrigin(stores: seq<Store>, origin: Name, ours: map<Name, Tree>, dest: map<Name, Tree>)
    requires origin in Bases(stores) && Holds(ours, stores, Bases(stores)) && ours.Keys <= dest.Keys
    ensures !Free(stores, origin, dest)
  {
    var s :| s in stores && OriginBase(s.name) == origin;
    assert s in Members(stores, origin) && s.name in Names(stores);
    assert s.name in Names(Members(stores, origin)) && s.name in ours;
  }

  /** After a run that published every origin, a second run publishes nothing and returns 0. */
  method RerunAfterSuccess(fs: FileSystem, stores: seq<Store>) returns (first: nat, second: nat)
    requires fs.Valid() && fs.staging.None? && DistinctNames(stores)
    modifies fs
    ensures first == |Bases(stores)| ==> second == 0 && fs.ours == map[]
    ensures first == |Bases(stores)| ==>
              forall s :: s in stores ==> s.name in fs.foreign && fs.foreign[s.name] == s.contents
  {
    ghost var p, q;
    first, p := CopyStores(fs, stores);
    ghost var ours, dest := fs.ours, fs.dest;
    second, q := CopyStores(fs, stores);
    if first == |Bases(stores)| {
      SameSize(p, Bases(stores));
      forall o | o in Bases(stores)
        ensures !Free(stores, o, dest)
      {
        PresentOrigin(stores, o, ours, dest);
      }
      assert q == {};
      forall s | s in stores
        ensures s.name in ours && ours[s.name] == s.contents
      {
        assert s.name in Names(stores) && OriginBase(s.name) in Bases(stores);
      }
    }
  }
}
