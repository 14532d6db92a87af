/** Reading Edge's localStorage rows, grouping them by origin, and writing them out. */
module LocalStorageImport {
  import opened Common

  type Bytes = seq<byte>

  datatype Row = Row(key: Bytes, value: Bytes)

  datatype Entry = Entry(key: Bytes, value: Bytes)

  datatype StorageKey = StorageKey(id: int, firstParty: bool)

  datatype Origin = Origin(storageKey: StorageKey, entries: seq<Entry>)

  const UNDERSCORE: byte := 95

  // ---- Splitting a database key ----

  datatype Parts = Parts(serialized: Bytes, script: Bytes)

  /** How a data row's key is laid out. */
  function Layout(p: Parts): Bytes {
    [UNDERSCORE] + p.serialized + [0] + p.script
  }

  method FindSeparator(s: Bytes) returns (sep: Option<nat>)
    ensures sep.None? <==> 0 !in s
    ensures sep.Some? ==> sep.value < |s| && s[sep.value] == 0 && 0 !in s[..sep.value]
  {
    for i := 0 to |s|
      invariant 0 !in s[..i]
    {
      if s[i] == 0 {
        return Some(i);
      }
      assert s[..i + 1] == s[..i] + [s[i]];
    }
    assert s[..|s|] == s;
    return None;
  }

  function FirstZero(s: Bytes): (k: nat)
    ensures k <= |s| && 0 !in s[..k] && (k < |s| ==> s[k] == 0)
  {
    if s == [] || s[0] == 0 then 0
    else
      var k := FirstZero(s[1..]);
      assert s[..k + 1] == [s[0]] + s[1..][..k];
      k + 1
  }

  function Split(key: Bytes): Option<Parts> {
    if |key| < 2 || key[0] != UNDERSCORE then None
    else
      var after := key[1..];
      var sep := FirstZero(after);
      if sep == |after| then None else Some(Parts(after[..sep], after[sep + 1..]))
  }

  lemma FirstZeroIs(s: Bytes, k: nat)
    requires k < |s| && s[k] == 0 && 0 !in s[..k]
    ensures FirstZero(s) == k
  {
    var z := FirstZero(s);
    assert forall j :: 0 <= j < k ==> s[..k][j] != 0;
    assert forall j :: 0 <= j < z ==> s[..z][j] != 0;
  }

  /** Splitting at the first zero recovers the parts exactly when the storage key holds no zero. */
  lemma SplitUndoesLayout(p: Parts)
    ensures Split(Layout(p)) == Some(p) <==> 0 !in p.serialized
  {
    var after := Layout(p)[1..];
    assert after == p.serialized + [0] + p.script;
    if 0 !in p.serialized {
      assert after[..|p.serialized|] == p.serialized;
      FirstZeroIs(after, |p.serialized|);
      assert after[|p.serialized| + 1..] == p.script;
    }
  }

  /** Whatever splits was laid out from its parts, and everything else is not a data key. */
  lemma LayoutUndoesSplit(key: Bytes)
    ensures Split(key).Some? ==> Layout(Split(key).value) == key && 0 !in Split(key).value.serialized
    ensures Split(key).Some? <==> exists p :: Layout(p) == key
  {
    if Split(key).Some? {
      var p := Split(key).value;
      assert key == [key[0]] + key[1..];
      assert key[1..] == p.serialized + [0] + p.script;
    }
    forall p | Layout(p) == key
      ensures Split(key).Some?
    {
      assert key[1..][|p.serialized|] == 0;
      assert key[1..][..|key[1..]|] == key[1..];
    }
  }

  // ---- The rows that are kept ----

  datatype Datum = Datum(serialized: Bytes, entry: Entry)

  /** `parse` stands for the storage key deserializer. */
  function DatumOf(row: Row, parse: Bytes -> Option<StorageKey>): Option<Datum> {
    match Split(row.key)
    case None => None
    case Some(p) =>
      var k := parse(p.serialized);
      if k.None? || !k.value.firstParty then None else Some(Datum(p.serialized, Entry(p.script, row.value)))
  }

  function Data(rows: seq<Row>, parse: Bytes -> Option<StorageKey>): seq<Datum> {
    if rows == [] then []
    else
      var before := Data(Init(rows), parse);
      match DatumOf(Last(rows), parse)
      case None => before
      case Some(d) => before + [d]
  }

  /** The storage keys in the order they first appear. */
  function FirstSeen(ds: seq<Datum>): (keys: seq<Bytes>)
    ensures forall d :: d in ds ==> d.serialized in keys
  {
    if ds == [] then []
    else
      var before := FirstSeen(Init(ds));
      assert ds == Init(ds) + [Last(ds)];
      if Last(ds).serialized in before then before else before + [Last(ds).serialized]
  }

  function EntriesFor(ds: seq<Datum>, key: Bytes): seq<Entry> {
    if ds == [] then []
    else
      var before := EntriesFor(Init(ds), key);
      if Last(ds).serialized == key then before + [Last(ds).entry] else before
  }

  /** `result` lists, per storage key in first-seen order, its entries in database order. */
  ghost predicate Groups(result: seq<Origin>, ds: seq<Datum>, parse: Bytes -> Option<StorageKey>) {
    && |result| == |FirstSeen(ds)|
    && (forall i :: 0 <= i < |result| ==>
          && parse(FirstSeen(ds)[i]) == Some(result[i].storageKey)
          && result[i].entries == EntriesFor(ds, FirstSeen(ds)[i]))
  }

  /** The map from a storage key to its place in first-seen order. */
  ghost predicate Indexes(index: map<Bytes, nat>, keys: seq<Bytes>) {
    && (forall k :: k in index <==> k in keys)
    && (forall k :: k in index ==> index[k] < |keys| && keys[index[k]] == k)
  }

  lemma {:induction false} FirstSeenDistinct(ds: seq<Datum>)
    ensures NoDup(FirstSeen(ds))
    ensures forall k :: k in FirstSeen(ds) ==> exists d :: d in ds && d.serialized == k
  {
    if ds != [] {
      FirstSeenDistinct(Init(ds));
      assert ds == Init(ds) + [Last(ds)];
    }
  }

  lemma {:induction false} UnseenHasNoEntries(ds: seq<Datum>, key: Bytes)
    requires key !in FirstSeen(ds)
    ensures EntriesFor(ds, key) == []
  {
    if ds != [] {
      UnseenHasNoEntries(Init(ds), key);
    }
  }

  lemma EntriesAppend(ds: seq<Datum>, d: Datum, key: Bytes)
    ensures EntriesFor(ds + [d], key) == EntriesFor(ds, key) + if d.serialized == key then [d.entry] else []
  {
    assert Init(ds + [d]) == ds;
  }

  lemma SeenAppend(ds: seq<Datum>, d: Datum)
    ensures FirstSeen(ds + [d]) == FirstSeen(ds) + if d.serialized in FirstSeen(ds) then [] else [d.serialized]
  {
    assert Init(ds + [d]) == ds;
  }

  lemma GroupsGrowKnown(result: seq<Origin>, ds: seq<Datum>, d: Datum, parse: Bytes -> Option<StorageKey>, i: nat)
    requires Groups(result, ds, parse) && i < |result| && FirstSeen(ds)[i] == d.serialized
    ensures Groups(result[i := result[i].(entries := result[i].entries + [d.entry])], ds + [d], parse)
  {
    var keys := FirstSeen(ds);
    FirstSeenDistinct(ds);
    SeenAppend(ds, d);
    forall j | 0 <= j < |keys|
      ensures EntriesFor(ds + [d], keys[j]) == EntriesFor(ds, keys[j]) + if j == i then [d.entry] else []
    {
      EntriesAppend(ds, d, keys[j]);
    }
  }

  lemma GroupsGrowNew(result: seq<Origin>, ds: seq<Datum>, d: Datum,
                      parse: Bytes -> Option<StorageKey>, key: StorageKey)
    requires Groups(result, ds, parse) && d.serialized !in FirstSeen(ds) && parse(d.serialized) == Some(key)
    ensures Groups(result + [Origin(key, [d.entry])], ds + [d], parse)
  {
    var keys := FirstSeen(ds + [d]);
    SeenAppend(ds, d);
    UnseenHasNoEntries(ds, d.serialized);
    forall j | 0 <= j < |keys|
      ensures EntriesFor(ds + [d], keys[j]) == EntriesFor(ds, keys[j]) + if j == |result| then [d.entry] else []
    {
      EntriesAppend(ds, d, keys[j]);
    }
  }

  method AddDatum(result: seq<Origin>, index: map<Bytes, nat>, d: Datum, key: StorageKey,
                  ghost ds: seq<Datum>, ghost parse: Bytes -> Option<StorageKey>)
    returns (result': seq<Origin>, index': map<Bytes, nat>)
    requires Groups(result, ds, parse) && Indexes(index, FirstSeen(ds)) && parse(d.serialized) == Some(key)
    ensures Groups(result', ds + [d], parse) && Indexes(index', FirstSeen(ds + [d]))
  {
    result', index' := result, index;
    assert Init(ds + [d]) == ds;
    if d.serialized !in index {
      index' := index[d.serialized := |result|];
      result' := result + [Origin(key, [d.entry])];
      GroupsGrowNew(result, ds, d, parse, key);
    } else {
      var i := index[d.serialized];
      result' := result[i := result[i].(entries := result[i].entries + [d.entry])];
      GroupsGrowKnown(result, ds, d, parse, i);
    }
  }

  // ---- What a read returns, told from the rows ----

  /** A row under this storage key; the script key is the rest. */
  predicate Under(row: Row, k: Bytes) {
    [UNDERSCORE] + k + [0] <= row.key
  }

  function EntryUnder(row: Row, k: Bytes): Entry
    requires Under(row, k)
  {
    Entry(row.key[|k| + 2..], row.value)
  }

  /** The entries of the rows under a storage key, in database order. */
  function EntriesUnder(rows: seq<Row>, k: Bytes): seq<Entry> {
    if rows == [] then []
    else
      var before := EntriesUnder(Init(rows), k);
      if Under(Last(rows), k) then before + [EntryUnder(Last(rows), k)] else before
  }

  /** Storage keys that parse to a first-party context. */
  predicate FirstParty(k: Bytes, parse: Bytes -> Option<StorageKey>) {
    0 !in k && parse(k).Some? && parse(k).value.firstParty
  }

  /** The first row under `a` comes before every row under `b`. */
  ghost predicate FirstBefore(rows: seq<Row>, a: Bytes, b: Bytes) {
    exists p :: 0 <= p < |rows| && Under(rows[p], a) && forall q :: 0 <= q <= p ==> !Under(rows[q], b)
  }

  lemma SplitsUnder(row: Row, k: Bytes)
    requires 0 !in k
    ensures Under(row, k) ==> Split(row.key) == Some(Parts(k, row.key[|k| + 2..]))
    ensures Split(row.key).Some? && Split(row.key).value.serialized == k ==> Under(row, k)
  {
    if Under(row, k) {
      var p := Parts(k, row.key[|k| + 2..]);
      assert Layout(p) == row.key;
      SplitUndoesLayout(p);
    }
    if Split(row.key).Some? && Split(row.key).value.serialized == k {
      LayoutUndoesSplit(row.key);
    }
  }

  /** A row is kept under a storage key exactly when it lies under it and the key is first-party. */
  lemma KeptIff(row: Row, parse: Bytes -> Option<StorageKey>, k: Bytes)
    ensures DatumOf(row, parse).Some? && DatumOf(row, parse).value.serialized == k
            <==> Under(row, k) && FirstParty(k, parse)
    ensures Under(row, k) && FirstParty(k, parse) ==> DatumOf(row, parse) == Some(Datum(k, EntryUnder(row, k)))
  {
    LayoutUndoesSplit(row.key);
    if 0 !in k {
      SplitsUnder(row, k);
    }
  }

  /** Per storage key, the grouped entries are those of the rows under it; other keys get no group. */
  lemma {:induction false} GroupedFromRows(rows: seq<Row>, parse: Bytes -> Option<StorageKey>, k: Bytes)
    ensures FirstParty(k, parse) ==> EntriesFor(Data(rows, parse), k) == EntriesUnder(rows, k)
    ensures k in FirstSeen(Data(rows, parse)) <==> FirstParty(k, parse) && EntriesUnder(rows, k) != []
  {
    if rows != [] {
      GroupedFromRows(Init(rows), parse, k);
      KeptIff(Last(rows), parse, k);
      var d := DatumOf(Last(rows), parse);
      if d.Some? {
        EntriesAppend(Data(Init(rows), parse), d.value, k);
        SeenAppend(Data(Init(rows), parse), d.value);
      }
    }
  }

  lemma {:induction false} NoneUnder(rows: seq<Row>, k: Bytes, q: nat)
    requires EntriesUnder(rows, k) == [] && q < |rows|
    ensures !Under(rows[q], k)
  {
    if q < |rows| - 1 {
      NoneUnder(Init(rows), k, q);
    }
  }

  lemma {:induction false} SomeUnder(rows: seq<Row>, k: Bytes) returns (p: nat)
    requires EntriesUnder(rows, k) != []
    ensures p < |rows| && Under(rows[p], k)
  {
    if Under(Last(rows), k) {
      p := |rows| - 1;
    } else {
      p := SomeUnder(Init(rows), k);
    }
  }

  /** Origins come in the order of their first rows. */
  lemma {:induction false} SeenInRowOrder(rows: seq<Row>, parse: Bytes -> Option<StorageKey>, i: nat, j: nat)
    requires i < j < |FirstSeen(Data(rows, parse))|
    ensures var keys := FirstSeen(Data(rows, parse)); FirstBefore(rows, keys[i], keys[j])
  {
    var before := Init(rows);
    var keys, old_ := FirstSeen(Data(rows, parse)), FirstSeen(Data(before, parse));
    var d := DatumOf(Last(rows), parse);
    if d.Some? {
      SeenAppend(Data(before, parse), d.value);
    }
    if j < |old_| {
      SeenInRowOrder(before, parse, i, j);
      var p :| 0 <= p < |before| && Under(before[p], keys[i]) && forall q :: 0 <= q <= p ==> !Under(before[q], keys[j]);
      assert Under(rows[p], keys[i]);
      assert forall q :: 0 <= q <= p ==> rows[q] == before[q];
    } else {
      GroupedFromRows(before, parse, keys[i]);
      GroupedFromRows(before, parse, keys[j]);
      FirstSeenDistinct(Data(rows, parse));
      assert keys[j] !in old_;
      KeptIff(Last(rows), parse, keys[j]);
      var p := SomeUnder(before, keys[i]);
      forall q | 0 <= q <= p
        ensures !Under(rows[q], keys[j])
      {
        NoneUnder(before, keys[j], q);
        assert rows[q] == before[q];
      }
      assert Under(rows[p], keys[i]) by { assert rows[p] == before[p]; }
    }
  }

  /** `keys` are the first-party storage keys with rows, by first row; each origin holds its key's entries. */
  ghost predicate ReadsRows(result: seq<Origin>, keys: seq<Bytes>, rows: seq<Row>, parse: Bytes -> Option<StorageKey>) {
    && |result| == |keys| && NoDup(keys)
    && (forall k :: k in keys <==> FirstParty(k, parse) && EntriesUnder(rows, k) != [])
    && (forall i, j :: 0 <= i < j < |keys| ==> FirstBefore(rows, keys[i], keys[j]))
    && (forall i :: 0 <= i < |keys| ==>
          && parse(keys[i]) == Some(result[i].storageKey) && result[i].storageKey.firstParty
          && result[i].entries == EntriesUnder(rows, keys[i]))
  }

  /** The grouped result is what the rows say: first-party rows only, each under its own origin. */
  lemma GroupsReadRows(result: seq<Origin>, rows: seq<Row>, parse: Bytes -> Option<StorageKey>)
    requires Groups(result, Data(rows, parse), parse)
    ensures ReadsRows(result, FirstSeen(Data(rows, parse)), rows, parse)
  {
    var keys := FirstSeen(Data(rows, parse));
    FirstSeenDistinct(Data(rows, parse));
    forall k
      ensures k in keys <==> FirstParty(k, parse) && EntriesUnder(rows, k) != []
      ensures k in keys ==> EntriesFor(Data(rows, parse), k) == EntriesUnder(rows, k)
    {
      GroupedFromRows(rows, parse, k);
    }
    forall i, j | 0 <= i < j < |keys|
      ensures FirstBefore(rows, keys[i], keys[j])
    {
      SeenInRowOrder(rows, parse, i, j);
    }
    assert forall i :: 0 <= i < |keys| ==> keys[i] in keys;
  }

  /** The reader's iteration over the private copy; corruption anywhere drops the whole read. */
  method ReadEdgeLocalStorage(rows: seq<Row>, corrupt: bool, parse: Bytes -> Option<StorageKey>)
    returns (result: seq<Origin>, ghost keys: seq<Bytes>)
    ensures corrupt ==> result == []
    ensures !corrupt ==> Groups(result, Data(rows, parse), parse) && ReadsRows(result, keys, rows, parse)
  {
    result, keys := [], FirstSeen(Data(rows, parse));
    var index: map<Bytes, nat> := map[];
    for i := 0 to |rows|
      invariant Groups(result, Data(rows[..i], parse), parse)
      invariant Indexes(index, FirstSeen(Data(rows[..i], parse)))
    {
      assert Init(rows[..i + 1]) == rows[..i];
      var d := DatumOf(rows[i], parse);
      if d.Some? {
        result, index := AddDatum(result, index, d.value, parse(d.value.serialized).value,
                                  Data(rows[..i], parse), parse);
      }
    }
    assert rows[..|rows|] == rows;
    GroupsReadRows(result, rows, parse);
    if corrupt {
      return [], [];
    }
  }

  // ---- Conservation ----

  function SizeOf(ds: seq<Datum>, keys: seq<Bytes>): nat {
    if keys == [] then 0 else SizeOf(ds, Init(keys)) + |EntriesFor(ds, Last(keys))|
  }

  lemma {:induction false} SizeWithOneMore(ds: seq<Datum>, d: Datum, keys: seq<Bytes>)
    requires NoDup(keys)
    ensures SizeOf(ds + [d], keys) == SizeOf(ds, keys) + if d.serialized in keys then 1 else 0
  {
    if keys != [] {
      SizeWithOneMore(ds, d, Init(keys));
      assert keys == Init(keys) + [Last(keys)];
      assert Init(ds + [d]) == ds;
      assert forall i :: 0 <= i < |keys| - 1 ==> keys[i] != keys[|keys| - 1];
    }
  }

  /** No kept row is lost and none is doubled by the grouping. */
  lemma {:induction false} GroupingConserves(ds: seq<Datum>)
    ensures SizeOf(ds, FirstSeen(ds)) == |ds|
  {
    if ds != [] {
      var before, d := Init(ds), Last(ds);
      assert ds == before + [d];
      GroupingConserves(before);
      FirstSeenDistinct(before);
      SizeWithOneMore(before, d, FirstSeen(before));
      if d.serialized !in FirstSeen(before) {
        assert Init(FirstSeen(ds)) == FirstSeen(before);
        UnseenHasNoEntries(before, d.serialized);
      }
    }
  }

  // ---- Writing ----

  datatype Put = Put(storageKey: StorageKey, entry: Entry)

  function PutsOf(o: Origin): seq<Put> {
    seq(|o.entries|, i requires 0 <= i < |o.entries| => Put(o.storageKey, o.entries[i]))
  }

  function AllPuts(origins: seq<Origin>): seq<Put> {
    if origins == [] then [] else AllPuts(Init(origins)) + PutsOf(Last(origins))
  }

  /** Exactly the entries of each origin are put, into that origin's area. */
  lemma {:induction false} PutsAreTheEntries(origins: seq<Origin>, p: Put)
    ensures p in AllPuts(origins) <==> exists o :: o in origins && o.storageKey == p.storageKey && p.entry in o.entries
  {
    if origins != [] {
      var last := Last(origins);
      PutsAreTheEntries(Init(origins), p);
      assert origins == Init(origins) + [last];
      if p in PutsOf(last) {
        assert last in origins;
      }
      if last.storageKey == p.storageKey && p.entry in last.entries {
        var i :| 0 <= i < |last.entries| && last.entries[i] == p.entry;
        assert PutsOf(last)[i] == p;
      }
    }
  }

  /** A correct read leads to as many Puts as there were first-party data rows. */
  lemma {:induction false} PutsMatchSizes(result: seq<Origin>, ds: seq<Datum>, keys: seq<Bytes>)
    requires |result| == |keys| && forall i :: 0 <= i < |keys| ==> result[i].entries == EntriesFor(ds, keys[i])
    ensures |AllPuts(result)| == SizeOf(ds, keys)
  {
    if keys != [] {
      PutsMatchSizes(Init(result), ds, Init(keys));
    }
  }

  lemma EveryDataRowIsPut(result: seq<Origin>, rows: seq<Row>, parse: Bytes -> Option<StorageKey>)
    requires Groups(result, Data(rows, parse), parse)
    ensures |AllPuts(result)| == |Data(rows, parse)|
  {
    var ds := Data(rows, parse);
    PutsMatchSizes(result, ds, FirstSeen(ds));
    GroupingConserves(ds);
  }

  function Successes(replies: seq<bool>): nat {
    if replies == [] then 0 else Successes(Init(replies)) + if Last(replies) then 1 else 0
  }

  /** The completion counters, once the Puts have been counted. */
  datatype Counters = Counters(pending: nat, accepted: nat, done: seq<nat>)

  function Counted(total: nat): Counters {
    Counters(total, 0, if total == 0 then [0] else [])
  }

  function PutComplete(c: Counters, success: bool): Counters
    requires c.pending > 0
  {
    var accepted := if success then c.accepted + 1 else c.accepted;
    Counters(c.pending - 1, accepted, if c.pending == 1 then c.done + [accepted] else c.done)
  }

  function AfterReplies(total: nat, replies: seq<bool>): (c: Counters)
    requires |replies| <= total
    ensures c.pending == total - |replies|
  {
    if replies == [] then Counted(total) else PutComplete(AfterReplies(total, Init(replies)), Last(replies))
  }

  /** Completion is signalled once, at the last reply, with the number of accepted Puts. */
  lemma {:induction false} DoneOnceWithTheSuccesses(total: nat, replies: seq<bool>)
    requires |replies| <= total
    ensures AfterReplies(total, replies).accepted == Successes(replies)
    ensures AfterReplies(total, replies).done == if |replies| == total then [Successes(replies)] else []
  {
    if replies != [] {
      DoneOnceWithTheSuccesses(total, Init(replies));
    }
  }

  class OriginStorageImportStage {
    var pending: nat
    var accepted: nat
    var done: seq<nat>
    var puts: seq<Put>
    // The environment's side: how many Puts are due, and the replies given so far.
    var total: nat
    var replies: seq<bool>

    ghost function Value(): Counters
      reads this
    {
      Counters(pending, accepted, done)
    }

    /** Replies only come for Puts that were issued. */
    ghost predicate Valid()
      reads this
    {
      |replies| <= |puts| <= total && Value() == AfterReplies(total, replies)
    }

    constructor ()
      ensures pending == 0 && accepted == 0 && done == [] && puts == []
    {
      pending, accepted, done, puts, total, replies := 0, 0, [], [], 0, [];
    }

    method OnPutComplete(success: bool)
      requires Valid() && |replies| < |puts|
      modifies `pending, `accepted, `done, `replies
      ensures Valid() && replies == old(replies) + [success]
    {
      assert Init(replies + [success]) == replies;
      replies := replies + [success];
      if success {
        accepted := accepted + 1;
      }
      pending := pending - 1;
      if pending == 0 {
        done := done + [accepted];
      }
    }

    /** Issues one Put; any of the outstanding ones may reply before it returns. */
    method IssuePut(p: Put)
      requires Valid() && |puts| < total
      modifies this
      ensures Valid() && puts == old(puts) + [p] && total == old(total) && old(replies) <= replies
    {
      puts := puts + [p];
      var more: bool := *;
      while more && |replies| < |puts|
        invariant Valid() && puts == old(puts) + [p] && total == old(total) && old(replies) <= replies
        decreases pending
      {
        var success: bool := *;
        OnPutComplete(success);
        more := *;
      }
    }

    method CountPuts(origins: seq<Origin>)
      requires pending == 0
      modifies `pending
      ensures pending == |AllPuts(origins)|
    {
      for i := 0 to |origins|
        invariant pending == |AllPuts(origins[..i])|
      {
        assert Init(origins[..i + 1]) == origins[..i];
        pending := pending + |origins[i].entries|;
      }
      assert origins[..|origins|] == origins;
    }

    /** Counts every Put first, so that synchronous replies cannot complete the stage early. */
    method OnRead(origins: seq<Origin>)
      requires pending == 0 && accepted == 0 && done == [] && puts == []
      modifies this
      ensures Valid() && total == |AllPuts(origins)| && puts == AllPuts(origins)
    {
      CountPuts(origins);
      total, replies := pending, [];
      if pending == 0 {
        done := done + [0];
        return;
      }
      for i := 0 to |origins|
        invariant Valid() && total == |AllPuts(origins)| && puts == AllPuts(origins[..i])
      {
        assert Init(origins[..i + 1]) == origins[..i];
        PrefixPuts(origins, i + 1);
        IssueOrigin(origins[i]);
      }
      assert origins[..|origins|] == origins;
    }

    method IssueOrigin(o: Origin)
      requires Valid() && |puts| + |o.entries| <= total
      modifies this
      ensures Valid() && puts == old(puts) + PutsOf(o) && total == old(total) && old(replies) <= replies
    {
      for j := 0 to |o.entries|
        invariant Valid() && puts == old(puts) + PutsOf(o)[..j] && total == old(total) && old(replies) <= replies
      {
        assert PutsOf(o)[..j + 1] == PutsOf(o)[..j] + [PutsOf(o)[j]];
        IssuePut(Put(o.storageKey, o.entries[j]));
      }
      assert PutsOf(o)[..|o.entries|] == PutsOf(o);
    }
  }

  lemma {:induction false} PrefixPuts(origins: seq<Origin>, n: nat)
    requires n <= |origins|
    ensures AllPuts(origins[..n]) <= AllPuts(origins)
  {
    if n == |origins| {
      assert origins[..n] == origins;
    } else {
      PrefixPuts(Init(origins), n);
      assert Init(origins)[..n] == origins[..n];
    }
  }
}
