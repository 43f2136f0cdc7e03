/** Grouping of probe results by record name (`resolve_healthy_records`).
    The probes themselves are not modelled: their outcomes arrive as one
    boolean per probe, in the order the probes were scheduled. */
module Grouping {
  import opened Targets

  /** `name` paired with each of `ts`, in order. */
  function Tag(name: string, ts: seq<Target>): (p: seq<(string, Target)>)
    ensures |p| == |ts|
  {
    seq(|ts|, i requires 0 <= i < |ts| => (name, ts[i]))
  }

  /** The probes one record schedules: none when it has no name. */
  function Probes(r: RecordSpec): seq<(string, Target)>
  {
    if r.name == "" then [] else Tag(r.name, r.targets)
  }

  /** Every probe of a cycle, flattened in record order, each with the record
      name it reports to. */
  function Pending(records: seq<RecordSpec>): seq<(string, Target)>
  {
    if records == [] then []
    else Pending(records[..|records| - 1]) + Probes(records[|records| - 1])
  }

  /** The names that become keys of the healthy map. */
  function Names(records: seq<RecordSpec>): set<string>
  {
    set r | r in records && r.name != "" :: r.name
  }

  lemma NamesAppend(records: seq<RecordSpec>, r: RecordSpec)
    ensures Names(records + [r]) == Names(records) + (if r.name == "" then {} else {r.name})
  {
    var all := records + [r];
    forall x | x in Names(all)
      ensures x in Names(records) + (if r.name == "" then {} else {r.name})
    {
      var q :| q in all && q.name != "" && q.name == x;
      if q != r {
        assert q in records;
      }
    }
    assert r in all;
    forall q | q in records ensures q in all {
    }
  }

  /** The targets of `ts` whose probe outcome in `h` is true, in order. */
  function FilterHealthy(ts: seq<Target>, h: seq<bool>): seq<Target>
    requires |ts| == |h|
  {
    if ts == [] then []
    else
      FilterHealthy(ts[..|ts| - 1], h[..|h| - 1])
      + (if h[|h| - 1] then [ts[|ts| - 1]] else [])
  }

  /** Reference definition, record by record: the healthy targets published
      under `n` are the healthy targets of each record named `n`, records taken
      in order. `health` holds the outcomes of `Pending(records)`. */
  function HealthyFor(records: seq<RecordSpec>, health: seq<bool>, n: string): seq<Target>
    requires |health| == |Pending(records)|
  {
    if records == [] then []
    else
      var last := records[|records| - 1];
      var k := |Pending(records[..|records| - 1])|;
      HealthyFor(records[..|records| - 1], health[..k], n)
      + (if last.name != "" && last.name == n then FilterHealthy(last.targets, health[k..]) else [])
  }

  /** The healthy map the grouping must produce. */
  function Grouped(records: seq<RecordSpec>, health: seq<bool>): HealthyMap
    requires |health| == |Pending(records)|
  {
    map n | n in Names(records) :: HealthyFor(records, health, n)
  }

  /** The zip step: targets of the probes in `p` that report to `n` and came
      back healthy, in probe order. */
  function Kept(p: seq<(string, Target)>, h: seq<bool>, n: string): seq<Target>
    requires |p| == |h|
  {
    if p == [] then []
    else
      Kept(p[..|p| - 1], h[..|h| - 1], n)
      + (if p[|p| - 1].0 == n && h[|h| - 1] then [p[|p| - 1].1] else [])
  }

  /** The scheduling pass: an empty entry for every named record, and one
      probe per target of a named record, in order. */
  method ScheduleProbes(records: seq<RecordSpec>)
    returns (healthy: HealthyMap, pending: seq<(string, Target)>)
    ensures healthy.Keys == Names(records)
    ensures forall n :: n in healthy ==> healthy[n] == []
    ensures pending == Pending(records)
  {
    healthy := map[];
    pending := [];
    for i := 0 to |records|
      invariant pending == Pending(records[..i])
      invariant healthy.Keys == Names(records[..i])
      invariant forall n :: n in healthy ==> healthy[n] == []
    {
      var rec := records[i];
      ScheduleStep(records, i);
      if rec.name == "" {
        continue;
      }
      if rec.name !in healthy {
        healthy := healthy[rec.name := []];
      }
      pending := ScheduleTargets(pending, rec.name, rec.targets);
    }
    assert records[..|records|] == records;
  }

  /** What record `i` adds to the probes and names of the records before it. */
  lemma ScheduleStep(records: seq<RecordSpec>, i: nat)
    requires i < |records|
    ensures Pending(records[..i + 1]) == Pending(records[..i]) + Probes(records[i])
    ensures Names(records[..i + 1]) == Names(records[..i]) + (if records[i].name == "" then {} else {records[i].name})
  {
    assert records[..i + 1] == records[..i] + [records[i]];
    assert records[..i + 1][..i] == records[..i];
    NamesAppend(records[..i], records[i]);
  }

  /** The inner scheduling loop: one probe per candidate target, appended in
      order and tagged with the record's name. */
  method ScheduleTargets(pending: seq<(string, Target)>, name: string, ts: seq<Target>)
    returns (out: seq<(string, Target)>)
    ensures out == pending + Tag(name, ts)
  {
    out := pending;
    for j := 0 to |ts|
      invariant out == pending + Tag(name, ts[..j])
    {
      assert Tag(name, ts[..j + 1]) == Tag(name, ts[..j]) + [(name, ts[j])];
      out := out + [(name, ts[j])];
    }
    assert ts[..|ts|] == ts;
  }

  /** Schedules one probe per target of every named record, creating an empty
      entry for each named record, then appends each healthy target to its
      record's entry in probe order. */
  method ResolveHealthyRecords(records: seq<RecordSpec>, health: seq<bool>)
    returns (healthy: HealthyMap)
    requires |health| == |Pending(records)|
    ensures healthy == Grouped(records, health)
  {
    var pending;
    healthy, pending := ScheduleProbes(records);
    if pending == [] {
      ZipComplete(records, health, healthy);
      return;
    }
    PendingNames(records);
    healthy := ZipOutcomes(pending, health, healthy);
    ZipComplete(records, health, healthy);
  }

  /** The zip of probes with their outcomes: each healthy outcome appends its
      target to the entry of the record that scheduled it. */
  method ZipOutcomes(pending: seq<(string, Target)>, health: seq<bool>, start: HealthyMap)
    returns (healthy: HealthyMap)
    requires |health| == |pending|
    requires forall j :: 0 <= j < |pending| ==> pending[j].0 in start
    requires forall n :: n in start ==> start[n] == []
    ensures healthy.Keys == start.Keys
    ensures forall n :: n in healthy ==> healthy[n] == Kept(pending, health, n)
  {
    healthy := start;
    for j := 0 to |pending|
      invariant healthy.Keys == start.Keys
      invariant forall n :: n in healthy ==> healthy[n] == Kept(pending[..j], health[..j], n)
    {
      var (name, target) := pending[j];
      if health[j] {
        healthy := healthy[name := healthy[name] + [target]];
      }
      forall n | n in healthy
        ensures healthy[n] == Kept(pending[..j + 1], health[..j + 1], n)
      {
        assert pending[..j + 1][..j] == pending[..j] && health[..j + 1][..j] == health[..j];
      }
    }
    assert pending[..|pending|] == pending && health[..|health|] == health;
  }

  /** A map holding, for every record name, what the zip kept for it is the
      grouped healthy map. */
  lemma ZipComplete(records: seq<RecordSpec>, health: seq<bool>, healthy: HealthyMap)
    requires |health| == |Pending(records)|
    requires healthy.Keys == Names(records)
    requires forall n :: n in healthy ==> healthy[n] == Kept(Pending(records), health, n)
    ensures healthy == Grouped(records, health)
  {
    forall n | n in healthy
      ensures healthy[n] == Grouped(records, health)[n]
    {
      KeptPending(records, health, n);
    }
  }

  /** A name no record carries has no healthy target. */
  lemma {:induction false} HealthyForAbsent(records: seq<RecordSpec>, health: seq<bool>, n: string)
    requires |health| == |Pending(records)|
    requires n !in Names(records)
    ensures HealthyFor(records, health, n) == []
  {
    if records != [] {
      var k := |records| - 1;
      assert records[..k + 1] == records;
      ScheduleStep(records, k);
      HealthyForAbsent(records[..k], health[..|Pending(records[..k])|], n);
    }
  }

  /** Every probe reports to a key of the healthy map. */
  lemma {:induction false} PendingNames(records: seq<RecordSpec>)
    ensures forall e :: e in Pending(records) ==> e.0 in Names(records)
  {
    if records != [] {
      var init := records[..|records| - 1];
      var last := records[|records| - 1];
      assert records == init + [last];
      PendingNames(init);
      NamesAppend(init, last);
    }
  }

  lemma {:induction false} KeptConcat(p1: seq<(string, Target)>, h1: seq<bool>, p2: seq<(string, Target)>, h2: seq<bool>, n: string)
    requires |p1| == |h1| && |p2| == |h2|
    ensures Kept(p1 + p2, h1 + h2, n) == Kept(p1, h1, n) + Kept(p2, h2, n)
  {
    if p2 == [] {
      assert p1 + p2 == p1 && h1 + h2 == h1;
    } else {
      var m := |p2| - 1;
      assert (p1 + p2)[..|p1 + p2| - 1] == p1 + p2[..m];
      assert (h1 + h2)[..|h1 + h2| - 1] == h1 + h2[..m];
      KeptConcat(p1, h1, p2[..m], h2[..m], n);
    }
  }

  lemma {:induction false} KeptTag(name: string, ts: seq<Target>, h: seq<bool>, n: string)
    requires |ts| == |h|
    ensures Kept(Tag(name, ts), h, n) == if name == n then FilterHealthy(ts, h) else []
  {
    if ts != [] {
      var m := |ts| - 1;
      assert Tag(name, ts)[..m] == Tag(name, ts[..m]);
      KeptTag(name, ts[..m], h[..m], n);
    }
  }

  /** The zip of probe results onto the flattened probes agrees with the
      record-by-record reference definition. */
  lemma {:induction false} KeptPending(records: seq<RecordSpec>, health: seq<bool>, n: string)
    requires |health| == |Pending(records)|
    requires n != ""
    ensures Kept(Pending(records), health, n) == HealthyFor(records, health, n)
  {
    if records != [] {
      var init := records[..|records| - 1];
      var last := records[|records| - 1];
      var k := |Pending(init)|;
      assert health == health[..k] + health[k..];
      KeptConcat(Pending(init), health[..k], Probes(last), health[k..], n);
      KeptPending(init, health[..k], n);
      if last.name != "" {
        KeptTag(last.name, last.targets, health[k..], n);
      }
    }
  }

  lemma HealthyForAppend(records: seq<RecordSpec>, health: seq<bool>, r: RecordSpec, h: seq<bool>, n: string)
    requires |health| == |Pending(records)| && |h| == |Probes(r)|
    ensures |health + h| == |Pending(records + [r])|
    ensures HealthyFor(records + [r], health + h, n)
      == HealthyFor(records, health, n) + (if r.name != "" && r.name == n then FilterHealthy(r.targets, h) else [])
  {
    var all := records + [r];
    assert all[..|all| - 1] == records;
    assert (health + h)[..|health|] == health && (health + h)[|health|..] == h;
  }

  /** Appending a record to the configuration: an unnamed one adds no key and
      changes no entry; a named one gets its key (even with no healthy target)
      and its healthy targets are appended after those of earlier records of
      the same name. */
  lemma GroupedAppend(records: seq<RecordSpec>, health: seq<bool>, r: RecordSpec, h: seq<bool>)
    requires |health| == |Pending(records)| && |h| == |Probes(r)|
    ensures |health + h| == |Pending(records + [r])|
    ensures Grouped(records + [r], health + h).Keys
      == Grouped(records, health).Keys + (if r.name == "" then {} else {r.name})
    ensures forall n :: n in Grouped(records + [r], health + h) ==>
      Grouped(records + [r], health + h)[n]
        == (if n in Grouped(records, health) then Grouped(records, health)[n] else [])
           + (if n == r.name then FilterHealthy(r.targets, h) else [])
  {
    NamesAppend(records, r);
    var g := Grouped(records, health);
    var g' := Grouped(records + [r], health + h);
    forall n | n in g'
      ensures g'[n] == (if n in g then g[n] else []) + (if n == r.name then FilterHealthy(r.targets, h) else [])
    {
      HealthyForAppend(records, health, r, h, n);
      if n !in g {
        HealthyForAbsent(records, health, n);
      }
    }
  }

  /** The healthy targets of a record are exactly its targets whose probe
      succeeded, in their configured order. */
  lemma {:induction false} FilterHealthyMembers(ts: seq<Target>, h: seq<bool>, t: Target)
    requires |ts| == |h|
    ensures t in FilterHealthy(ts, h) <==> exists i :: 0 <= i < |ts| && ts[i] == t && h[i]
  {
    if ts != [] {
      var m := |ts| - 1;
      FilterHealthyMembers(ts[..m], h[..m], t);
      if t in FilterHealthy(ts[..m], h[..m]) {
        var i :| 0 <= i < m && ts[..m][i] == t && h[..m][i];
        assert ts[i] == t && h[i];
      }
      if exists i :: 0 <= i < |ts| && ts[i] == t && h[i] {
        var i :| 0 <= i < |ts| && ts[i] == t && h[i];
        if i < m {
          assert ts[..m][i] == t && h[..m][i];
        }
      }
    }
  }

  /** All probes healthy: every target is kept; all probes failed: none is. */
  lemma {:induction false} FilterHealthyExtremes(ts: seq<Target>, h: seq<bool>)
    requires |ts| == |h|
    requires forall i :: 0 <= i < |h| ==> h[i] == h[0]
    ensures h != [] && h[0] ==> FilterHealthy(ts, h) == ts
    ensures h != [] && !h[0] ==> FilterHealthy(ts, h) == []
  {
    if |ts| > 1 {
      var m := |ts| - 1;
      FilterHealthyExtremes(ts[..m], h[..m]);
      assert ts == ts[..m] + [ts[m]];
    }
  }
}
