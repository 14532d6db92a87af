/** The aggregate report of an Edge import. */
module EdgeImportReports {
  import opened Common

  datatype Carrier = Passwords | Cookies | LocalStorage | IndexedDb

  datatype Status = Imported | Skipped | Blocked | Failed | Degraded | Unsupported | FeatureDisabled

  datatype Outcome = Outcome(carrier: Carrier, status: Status, count: nat)

  predicate Clean(s: Status) {
    s.Imported? || s.Skipped?
  }

  function FindIn(entries: seq<Outcome>, carrier: Carrier): Option<Outcome> {
    if entries == [] then None
    else if entries[0].carrier == carrier then Some(entries[0])
    else FindIn(entries[1..], carrier)
  }

  function Total(entries: seq<Outcome>): nat {
    if entries == [] then 0 else entries[0].count + Total(entries[1..])
  }

  function Tally(entries: seq<Outcome>, carrier: Carrier): nat {
    if entries == [] then 0 else (if entries[0].carrier == carrier then 1 else 0) + Tally(entries[1..], carrier)
  }

  lemma {:induction false} TotalConcat(a: seq<Outcome>, b: seq<Outcome>)
    ensures Total(a + b) == Total(a) + Total(b)
  {
    if a == [] {
      assert a + b == b;
    } else {
      TotalConcat(a[1..], b);
      assert (a + b)[1..] == a[1..] + b;
    }
  }

  lemma {:induction false} TallyConcat(a: seq<Outcome>, b: seq<Outcome>, carrier: Carrier)
    ensures Tally(a + b, carrier) == Tally(a, carrier) + Tally(b, carrier)
  {
    if a == [] {
      assert a + b == b;
    } else {
      TallyConcat(a[1..], b, carrier);
      assert (a + b)[1..] == a[1..] + b;
    }
  }

  lemma {:induction false} FindConcat(a: seq<Outcome>, b: seq<Outcome>, carrier: Carrier)
    ensures FindIn(a + b, carrier) == if FindIn(a, carrier).Some? then FindIn(a, carrier) else FindIn(b, carrier)
  {
    if a == [] {
      assert a + b == b;
    } else {
      FindConcat(a[1..], b, carrier);
      assert (a + b)[1..] == a[1..] + b;
    }
  }

  /** Looking a carrier up succeeds exactly when it has an entry, and returns one of its entries. */
  lemma {:induction false} FindsWhatIsTallied(entries: seq<Outcome>, carrier: Carrier)
    ensures FindIn(entries, carrier).Some? <==> Tally(entries, carrier) > 0
    ensures FindIn(entries, carrier).Some? ==>
              FindIn(entries, carrier).value in entries && FindIn(entries, carrier).value.carrier == carrier
    ensures Tally(entries, carrier) == 0 ==> forall o :: o in entries ==> o.carrier != carrier
  {
    if entries != [] {
      FindsWhatIsTallied(entries[1..], carrier);
      assert entries == [entries[0]] + entries[1..];
    }
  }

  /** With one entry per carrier, the lookup returns that entry. */
  lemma {:induction false} FindReturnsTheEntry(entries: seq<Outcome>, o: Outcome)
    requires o in entries && Tally(entries, o.carrier) == 1
    ensures FindIn(entries, o.carrier) == Some(o)
  {
    if entries[0].carrier == o.carrier {
      FindsWhatIsTallied(entries[1..], o.carrier);
    } else {
      FindReturnsTheEntry(entries[1..], o);
    }
  }

  class EdgeImportReport {
    var carriers: seq<Outcome>

    constructor ()
      ensures carriers == []
    {
      carriers := [];
    }

    method Add(outcome: Outcome)
      modifies this
      ensures carriers == old(carriers) + [outcome]
    {
      carriers := carriers + [outcome];
    }

    method Find(carrier: Carrier) returns (found: Option<Outcome>)
      ensures found == FindIn(carriers, carrier)
    {
      for i := 0 to |carriers|
        invariant FindIn(carriers, carrier) == FindIn(carriers[i..], carrier)
      {
        if carriers[i].carrier == carrier {
          return Some(carriers[i]);
        }
        assert carriers[i..][1..] == carriers[i + 1..];
      }
      return None;
    }

    method TotalImported() returns (total: nat)
      ensures total == Total(carriers)
    {
      total := 0;
      for i := 0 to |carriers|
        invariant total + Total(carriers[i..]) == Total(carriers)
      {
        assert carriers[i..][1..] == carriers[i + 1..];
        total := total + carriers[i].count;
      }
    }

    method AnyDegraded() returns (degraded: bool)
      ensures degraded <==> exists o :: o in carriers && !Clean(o.status)
    {
      for i := 0 to |carriers|
        invariant forall o :: o in carriers[..i] ==> Clean(o.status)
      {
        if !Clean(carriers[i].status) {
          return true;
        }
        assert carriers[..i + 1] == carriers[..i] + [carriers[i]];
      }
      return false;
    }
  }
}
