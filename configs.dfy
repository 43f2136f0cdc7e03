/** Merging of the listed configuration entries into one entry per domain
    (the loop of `get_domain_configs`). The listing itself is not modelled:
    it arrives as a sequence of entries. */
module Configs {
  import opened Targets

  /** One listed entry: absent `domain` is "", absent or empty `nameservers`
      is [], absent `records` is []. */
  datatype DomainSpec = DomainSpec(domain: string, nameservers: seq<string>, records: seq<RecordSpec>)

  /** The merged value per domain: nameservers and all raw records. */
  datatype DomainData = DomainData(nameservers: seq<string>, rawRecords: seq<RecordSpec>)

  /** Entries without a domain or without nameservers are skipped. */
  predicate Usable(s: DomainSpec)
  {
    s.domain != "" && s.nameservers != []
  }

  predicate Contributes(s: DomainSpec, d: string)
  {
    Usable(s) && s.domain == d
  }

  function Domains(specs: seq<DomainSpec>): set<string>
  {
    set s | s in specs && Usable(s) :: s.domain
  }

  /** The nameservers of the first usable entry for `d`. */
  function FirstNameservers(specs: seq<DomainSpec>, d: string): seq<string>
  {
    if specs == [] then []
    else if Contributes(specs[0], d) then specs[0].nameservers
    else FirstNameservers(specs[1..], d)
  }

  /** The records of every usable entry for `d`, concatenated in order. */
  function RecordsFor(specs: seq<DomainSpec>, d: string): seq<RecordSpec>
  {
    if specs == [] then []
    else
      var last := specs[|specs| - 1];
      RecordsFor(specs[..|specs| - 1], d) + (if Contributes(last, d) then last.records else [])
  }

  /** The domain map the merge must produce. */
  function Merged(specs: seq<DomainSpec>): map<string, DomainData>
  {
    map d | d in Domains(specs) :: DomainData(FirstNameservers(specs, d), RecordsFor(specs, d))
  }

  /** The merge loop: the first usable entry of a domain creates it with its
      nameservers; every usable entry then extends its records. */
  method MergeDomainConfigs(specs: seq<DomainSpec>) returns (domainMap: map<string, DomainData>)
    ensures domainMap == Merged(specs)
  {
    domainMap := map[];
    for i := 0 to |specs|
      invariant domainMap.Keys == Domains(specs[..i])
      invariant forall d :: d in domainMap ==>
        domainMap[d] == DomainData(FirstNameservers(specs[..i], d), RecordsFor(specs[..i], d))
    {
      var spec := specs[i];
      assert specs[..i + 1] == specs[..i] + [spec];
      MergeStep(specs[..i], spec);
      if spec.domain == "" || spec.nameservers == [] {
        continue;
      }
      if spec.domain !in domainMap {
        domainMap := domainMap[spec.domain := DomainData(spec.nameservers, [])];
      }
      var data := domainMap[spec.domain];
      domainMap := domainMap[spec.domain := data.(rawRecords := data.rawRecords + spec.records)];
    }
    assert specs[..|specs|] == specs;
  }

  /** What one more entry does to the merge. */
  lemma MergeStep(specs: seq<DomainSpec>, s: DomainSpec)
    ensures Domains(specs + [s]) == Domains(specs) + (if Usable(s) then {s.domain} else {})
    ensures forall d :: (FirstNameservers(specs + [s], d)
      == if d in Domains(specs) then FirstNameservers(specs, d)
         else if Contributes(s, d) then s.nameservers
         else [])
    ensures forall d :: (RecordsFor(specs + [s], d)
      == RecordsFor(specs, d) + (if Contributes(s, d) then s.records else []))
    ensures forall d :: d !in Domains(specs) ==> RecordsFor(specs, d) == []
  {
    var all := specs + [s];
    forall x | x in Domains(all)
      ensures x in Domains(specs) + (if Usable(s) then {s.domain} else {})
    {
      var q :| q in all && Usable(q) && q.domain == x;
      if q != s {
        assert q in specs;
      }
    }
    assert s in all;
    forall q | q in specs ensures q in all {
    }
    forall d
      ensures FirstNameservers(all, d)
        == if d in Domains(specs) then FirstNameservers(specs, d)
           else if Contributes(s, d) then s.nameservers
           else []
    {
      FirstNameserversAppend(specs, s, d);
    }
    assert all[..|all| - 1] == specs;
    forall d | d !in Domains(specs) ensures RecordsFor(specs, d) == [] {
      RecordsForAbsent(specs, d);
    }
  }

  lemma {:induction false} RecordsForAbsent(specs: seq<DomainSpec>, d: string)
    requires d !in Domains(specs)
    ensures RecordsFor(specs, d) == []
  {
    if specs != [] {
      var init := specs[..|specs| - 1];
      assert specs[|specs| - 1] in specs;
      assert Domains(init) <= Domains(specs) by {
        forall x | x in Domains(init) ensures x in Domains(specs) {
          var q :| q in init && Usable(q) && q.domain == x;
          assert q in specs;
        }
      }
      RecordsForAbsent(init, d);
    }
  }

  lemma {:induction false} FirstNameserversAppend(specs: seq<DomainSpec>, s: DomainSpec, d: string)
    ensures FirstNameservers(specs + [s], d)
      == if d in Domains(specs) then FirstNameservers(specs, d)
         else if Contributes(s, d) then s.nameservers
         else []
  {
    if specs != [] {
      assert (specs + [s])[1..] == specs[1..] + [s];
      FirstNameserversAppend(specs[1..], s, d);
      if !Contributes(specs[0], d) {
        if d in Domains(specs) {
          var q :| q in specs && Usable(q) && q.domain == d;
          assert q in specs[1..];
        }
        assert d in Domains(specs[1..]) ==> d in Domains(specs) by {
          if d in Domains(specs[1..]) {
            var q :| q in specs[1..] && Usable(q) && q.domain == d;
            assert q in specs;
          }
        }
      } else {
        assert specs[0] in specs;
      }
    } else {
      assert [] + [s] == [s];
    }
  }

  /** For a domain, the nameservers are those of its first usable entry. */
  lemma {:induction false} MergedNameserversFromFirst(specs: seq<DomainSpec>, i: nat)
    requires i < |specs| && Usable(specs[i])
    requires forall j :: 0 <= j < i ==> !Contributes(specs[j], specs[i].domain)
    ensures specs[i].domain in Merged(specs)
    ensures Merged(specs)[specs[i].domain].nameservers == specs[i].nameservers
  {
    assert specs[i] in specs;
    var d := specs[i].domain;
    FirstAt(specs, i, d);
  }

  lemma {:induction false} FirstAt(specs: seq<DomainSpec>, i: nat, d: string)
    requires i < |specs| && Contributes(specs[i], d)
    requires forall j :: 0 <= j < i ==> !Contributes(specs[j], d)
    ensures FirstNameservers(specs, d) == specs[i].nameservers
  {
    if i > 0 {
      FirstAt(specs[1..], i - 1, d);
    }
  }

  /** Every merged domain has nameservers: a domain listed only without them
      is not in the map at all. */
  lemma {:induction false} MergedHasNameservers(specs: seq<DomainSpec>, d: string)
    requires d in Merged(specs)
    ensures Merged(specs)[d].nameservers != []
  {
    var i :| 0 <= i < |specs| && Contributes(specs[i], d);
    var k := FirstIndex(specs, d, i);
    FirstAt(specs, k, d);
  }

  /** The index of the first entry contributing to `d`, at most `i`. */
  lemma {:induction false} FirstIndex(specs: seq<DomainSpec>, d: string, i: nat) returns (k: nat)
    requires i < |specs| && Contributes(specs[i], d)
    ensures k <= i && Contributes(specs[k], d)
    ensures forall j :: 0 <= j < k ==> !Contributes(specs[j], d)
  {
    if exists j :: 0 <= j < i && Contributes(specs[j], d) {
      var j :| 0 <= j < i && Contributes(specs[j], d);
      k := FirstIndex(specs, d, j);
    } else {
      k := i;
    }
  }

  lemma {:induction false} RecordsForConcat(a: seq<DomainSpec>, b: seq<DomainSpec>, d: string)
    ensures RecordsFor(a + b, d) == RecordsFor(a, d) + RecordsFor(b, d)
  {
    if b == [] {
      assert a + b == a;
    } else {
      var m := |b| - 1;
      assert (a + b)[..|a + b| - 1] == a + b[..m];
      RecordsForConcat(a, b[..m], d);
    }
  }

  /** An entry lacking a domain or nameservers contributes nothing, wherever
      it sits in the listing. */
  lemma SkippedEntry(a: seq<DomainSpec>, s: DomainSpec, b: seq<DomainSpec>)
    requires !Usable(s)
    ensures Merged(a + [s] + b) == Merged(a + b)
  {
    var with := a + [s] + b;
    var without := a + b;
    assert Domains(with) == Domains(without) by {
      forall x | x in Domains(with) ensures x in Domains(without) {
        var q :| q in with && Usable(q) && q.domain == x;
        assert q in a || q in b;
      }
      forall x | x in Domains(without) ensures x in Domains(with) {
        var q :| q in without && Usable(q) && q.domain == x;
        assert q in with;
      }
    }
    forall d | d in Domains(with)
      ensures FirstNameservers(with, d) == FirstNameservers(without, d)
      ensures RecordsFor(with, d) == RecordsFor(without, d)
    {
      FirstNameserversSkip(a, s, b, d);
      RecordsForConcat(a + [s], b, d);
      RecordsForConcat(a, [s], d);
      RecordsForConcat(a, b, d);
      assert RecordsFor([s], d) == [] by {
        assert [s][..0] == [];
      }
    }
  }

  lemma {:induction false} FirstNameserversSkip(a: seq<DomainSpec>, s: DomainSpec, b: seq<DomainSpec>, d: string)
    requires !Usable(s)
    ensures FirstNameservers(a + [s] + b, d) == FirstNameservers(a + b, d)
  {
    if a == [] {
      assert [s] + b == a + [s] + b;
      assert ([s] + b)[1..] == b == a + b;
    } else {
      assert (a + [s] + b)[1..] == a[1..] + [s] + b;
      assert (a + b)[1..] == a[1..] + b;
      FirstNameserversSkip(a[1..], s, b, d);
    }
  }

  /** The raw records of a domain are the records of its usable entries of
      the first part of the listing followed by those of the rest. */
  lemma MergedRecordsConcat(a: seq<DomainSpec>, b: seq<DomainSpec>, d: string)
    requires d in Merged(a + b)
    ensures Merged(a + b)[d].rawRecords == RecordsFor(a, d) + RecordsFor(b, d)
  {
    RecordsForConcat(a, b, d);
  }
}
