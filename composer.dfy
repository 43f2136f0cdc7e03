/** The traffic-view composer (`organize_data_by_region`): from the healthy
    targets of each record, the "default" view and one view per region, with
    weights realised by repetition and regional fallback to the default view. */
module Composer {
  import opened Targets
  import opened Text

  /** Which targets a view takes from a record: those without a location
      (the default view), or those whose upper-cased location is `code`. */
  datatype Selector = Unlocated | InRegion(code: string)

  predicate Selects(sel: Selector, t: Target)
  {
    match sel
    case Unlocated => t.location == ""
    case InRegion(code) => Upper(t.location) == code
  }

  /** `n` copies of `t`; none when `n` is zero or negative. */
  function Copies(t: Target, n: int): (r: seq<Target>)
    ensures |r| == if n <= 0 then 0 else n
    ensures forall i :: 0 <= i < |r| ==> r[i] == t
  {
    if n <= 0 then [] else Copies(t, n - 1) + [t]
  }

  /** What one target contributes to a view's list. */
  function Share(t: Target, sel: Selector): seq<Target>
  {
    if Selects(sel, t) then Copies(t, t.weight) else []
  }

  /** The weight-replicated list of the targets `sel` takes, in order. */
  function Replicated(ts: seq<Target>, sel: Selector): seq<Target>
  {
    if ts == [] then [] else Replicated(ts[..|ts| - 1], sel) + Share(ts[|ts| - 1], sel)
  }

  /** Region codes of the located targets in `ts`. */
  function TargetRegions(ts: seq<Target>): set<string>
  {
    set t | t in ts && t.location != "" :: Upper(t.location)
  }

  /** Region codes of the located targets of the records in `names`. */
  function RegionsOf(healthy: HealthyMap, names: set<string>): set<string>
  {
    set n, t | n in names && n in healthy && t in healthy[n] && t.location != "" :: Upper(t.location)
  }

  /** Every region some healthy target names. */
  function Regions(healthy: HealthyMap): set<string>
  {
    RegionsOf(healthy, healthy.Keys)
  }

  /** The default view: records with at least one unlocated copy. */
  function DefaultView(healthy: HealthyMap): View
  {
    map n | n in healthy && Replicated(healthy[n], Unlocated) != [] :: Replicated(healthy[n], Unlocated)
  }

  /** What region `region` publishes for record `n` ([] means: nothing). */
  function RegionEntry(healthy: HealthyMap, region: string, n: string): seq<Target>
    requires n in healthy
  {
    var own := Replicated(healthy[n], InRegion(region));
    if own != [] then own
    else if n in DefaultView(healthy) then DefaultView(healthy)[n]
    else []
  }

  function RegionView(healthy: HealthyMap, region: string): View
  {
    map n | n in healthy && RegionEntry(healthy, region, n) != [] :: RegionEntry(healthy, region, n)
  }

  /** The composed views. */
  function Compose(healthy: HealthyMap): Views
  {
    map v | v in {DEFAULT_VIEW} + Regions(healthy) ::
      if v == DEFAULT_VIEW then DefaultView(healthy) else RegionView(healthy, v)
  }

  // ---------------------------------------------------------------------
  // The composer, loop by loop.

  /** One record's list for one view: each selected target appended `weight`
      times, in order. */
  method SelectReplicated(ts: seq<Target>, sel: Selector) returns (out: seq<Target>)
    ensures out == Replicated(ts, sel)
  {
    out := [];
    for i := 0 to |ts|
      invariant out == Replicated(ts[..i], sel)
    {
      assert ts[..i + 1][..i] == ts[..i];
      var t := ts[i];
      if Selects(sel, t) {
        out := AppendCopies(out, t);
      }
    }
    assert ts[..|ts|] == ts;
  }

  /** The weight loop: `t` appended once per unit of its weight, not at all
      when the weight is zero or negative. */
  method AppendCopies(before: seq<Target>, t: Target) returns (out: seq<Target>)
    ensures out == before + Copies(t, t.weight)
  {
    out := before;
    var n := if t.weight < 0 then 0 else t.weight;
    for k := 0 to n
      invariant out == before + Copies(t, k)
    {
      out := out + [t];
    }
  }

  lemma TargetRegionsAppend(ts: seq<Target>, t: Target)
    ensures TargetRegions(ts + [t]) == TargetRegions(ts) + (if t.location != "" then {Upper(t.location)} else {})
  {
    var all := ts + [t];
    forall c | c in TargetRegions(all)
      ensures c in TargetRegions(ts) + (if t.location != "" then {Upper(t.location)} else {})
    {
      var u :| u in all && u.location != "" && Upper(u.location) == c;
      if u != t {
        assert u in ts;
      }
    }
    assert t in all;
    forall u | u in ts ensures u in all {
    }
  }

  lemma RegionsOfAdd(healthy: HealthyMap, names: set<string>, n: string)
    requires n in healthy
    ensures RegionsOf(healthy, names + {n}) == RegionsOf(healthy, names) + TargetRegions(healthy[n])
  {
    forall c | c in RegionsOf(healthy, names + {n})
      ensures c in RegionsOf(healthy, names) + TargetRegions(healthy[n])
    {
      var m, t :| m in names + {n} && m in healthy && t in healthy[m] && t.location != "" && Upper(t.location) == c;
      if m != n {
        assert c in RegionsOf(healthy, names);
      }
    }
    forall c | c in TargetRegions(healthy[n])
      ensures c in RegionsOf(healthy, names + {n})
    {
      var t :| t in healthy[n] && t.location != "" && Upper(t.location) == c;
    }
  }

  /** The first pass: every region code named by a healthy target. */
  method CollectRegions(healthy: HealthyMap) returns (regions: set<string>)
    ensures regions == Regions(healthy)
  {
    regions := {};
    var todo := healthy.Keys;
    ghost var done: set<string> := {};
    while todo != {}
      invariant todo !! done && todo + done == healthy.Keys
      invariant regions == RegionsOf(healthy, done)
      decreases todo
    {
      var name :| name in todo;
      regions := AddTargetRegions(regions, healthy[name]);
      RegionsOfAdd(healthy, done, name);
      todo := todo - {name};
      done := done + {name};
    }
  }

  /** The inner loop of the first pass: the upper-cased location of every
      located target of one record. */
  method AddTargetRegions(before: set<string>, ts: seq<Target>) returns (regions: set<string>)
    ensures regions == before + TargetRegions(ts)
  {
    regions := before;
    for j := 0 to |ts|
      invariant regions == before + TargetRegions(ts[..j])
    {
      assert ts[..j + 1] == ts[..j] + [ts[j]];
      TargetRegionsAppend(ts[..j], ts[j]);
      var loc := ts[j].location;
      if loc != "" {
        regions := regions + {Upper(loc)};
      }
    }
    assert ts[..|ts|] == ts;
  }

  /** The second pass: the default view. */
  method BuildDefaultView(healthy: HealthyMap) returns (view: View)
    ensures view == DefaultView(healthy)
  {
    view := map[];
    var todo := healthy.Keys;
    ghost var done: set<string> := {};
    while todo != {}
      invariant todo !! done && todo + done == healthy.Keys
      invariant view.Keys == set n | n in done && Replicated(healthy[n], Unlocated) != []
      invariant forall n :: n in view ==> view[n] == Replicated(healthy[n], Unlocated)
      decreases todo
    {
      var name :| name in todo;
      var defaultTargets := SelectReplicated(healthy[name], Unlocated);
      if defaultTargets != [] {
        view := view[name := defaultTargets];
      }
      todo := todo - {name};
      done := done + {name};
    }
  }

  /** One record of one region: its own replicated targets, else the default
      entry, else nothing. */
  method RegionTargets(healthy: HealthyMap, defaults: View, region: string, name: string)
    returns (regionTargets: seq<Target>)
    requires defaults == DefaultView(healthy) && name in healthy
    ensures regionTargets == RegionEntry(healthy, region, name)
  {
    regionTargets := SelectReplicated(healthy[name], InRegion(region));
    if regionTargets == [] {
      if name in defaults {
        regionTargets := defaults[name];
      }
    }
  }

  /** The third pass, for one region: its own replicated targets, else the
      default entry, else nothing. */
  method BuildRegionView(healthy: HealthyMap, defaults: View, region: string) returns (view: View)
    requires defaults == DefaultView(healthy)
    ensures view == RegionView(healthy, region)
  {
    view := map[];
    var todo := healthy.Keys;
    ghost var done: set<string> := {};
    while todo != {}
      invariant todo !! done && todo + done == healthy.Keys
      invariant view.Keys == set n | n in done && RegionEntry(healthy, region, n) != []
      invariant forall n :: n in view ==> view[n] == RegionEntry(healthy, region, n)
      decreases todo
    {
      var name :| name in todo;
      var regionTargets := RegionTargets(healthy, defaults, region, name);
      if regionTargets != [] {
        view := view[name := regionTargets];
      }
      todo := todo - {name};
      done := done + {name};
    }
  }

  /** The composer: regions, then the default view, then one view per region. */
  method OrganizeByRegion(healthy: HealthyMap) returns (views: Views)
    ensures views == Compose(healthy)
  {
    views := map[DEFAULT_VIEW := map[]];
    var regions := CollectRegions(healthy);
    var defaults := BuildDefaultView(healthy);
    views := views[DEFAULT_VIEW := defaults];
    RegionsAreNotDefault(healthy);
    var todo := regions;
    ghost var done: set<string> := {};
    while todo != {}
      invariant todo !! done && todo + done == regions
      invariant views.Keys == {DEFAULT_VIEW} + done
      invariant views[DEFAULT_VIEW] == DefaultView(healthy)
      invariant forall v :: v in views && v != DEFAULT_VIEW ==> views[v] == RegionView(healthy, v)
      decreases todo
    {
      var region :| region in todo;
      var view := BuildRegionView(healthy, defaults, region);
      views := views[region := view];
      todo := todo - {region};
      done := done + {region};
    }
    ComposeComplete(healthy, views);
  }

  /** A views map with the composed keys, the default view and every region's
      view is the composition. */
  lemma ComposeComplete(healthy: HealthyMap, views: Views)
    requires views.Keys == {DEFAULT_VIEW} + Regions(healthy)
    requires views[DEFAULT_VIEW] == DefaultView(healthy)
    requires forall v :: v in views && v != DEFAULT_VIEW ==> views[v] == RegionView(healthy, v)
    ensures views == Compose(healthy)
  {
  }

  // ---------------------------------------------------------------------
  // What the composed views are.

  /** No region code is the view key "default". */
  lemma RegionsAreNotDefault(healthy: HealthyMap)
    ensures DEFAULT_VIEW !in Regions(healthy)
  {
    if DEFAULT_VIEW in Regions(healthy) {
      var n, t :| n in healthy && t in healthy[n] && t.location != "" && Upper(t.location) == DEFAULT_VIEW;
      UpperIsNotDefault(t.location);
    }
  }

  /** The views are "default" plus one per region code some healthy target
      names, and the default view is not overwritten by a region. */
  lemma ComposeKeys(healthy: HealthyMap)
    ensures Compose(healthy).Keys == {DEFAULT_VIEW} + Regions(healthy)
    ensures Compose(healthy)[DEFAULT_VIEW] == DefaultView(healthy)
    ensures forall c :: c in Regions(healthy) <==>
      exists n, t :: n in healthy && t in healthy[n] && t.location != "" && Upper(t.location) == c
  {
    RegionsAreNotDefault(healthy);
  }

  lemma {:induction false} ReplicatedConcat(a: seq<Target>, b: seq<Target>, sel: Selector)
    ensures Replicated(a + b, sel) == Replicated(a, sel) + Replicated(b, sel)
  {
    if b == [] {
      assert a + b == a;
    } else {
      var m := |b| - 1;
      assert (a + b)[..|a + b| - 1] == a + b[..m];
      ReplicatedConcat(a, b[..m], sel);
    }
  }

  /** Exact replication in place: the list of a view is the lists of the
      targets before `ts[i]`, then `ts[i]` repeated `weight` times when the
      view takes it, then the lists of the targets after it. */
  lemma ReplicatedAt(ts: seq<Target>, i: nat, sel: Selector)
    requires i < |ts|
    ensures Replicated(ts, sel) == Replicated(ts[..i], sel) + Share(ts[i], sel) + Replicated(ts[i + 1..], sel)
    ensures Selects(sel, ts[i]) && ts[i].weight >= 1 ==>
      |Share(ts[i], sel)| == ts[i].weight && forall k :: 0 <= k < ts[i].weight ==> Share(ts[i], sel)[k] == ts[i]
  {
    assert ts == ts[..i] + [ts[i]] + ts[i + 1..];
    ReplicatedConcat(ts[..i] + [ts[i]], ts[i + 1..], sel);
    ReplicatedConcat(ts[..i], [ts[i]], sel);
    assert Replicated([ts[i]], sel) == Share(ts[i], sel) by {
      assert [ts[i]][..0] == [];
    }
  }

  /** A target appears in a view's list exactly when the view takes it and
      its weight is at least one. */
  lemma {:induction false} ReplicatedMembers(ts: seq<Target>, sel: Selector, x: Target)
    ensures x in Replicated(ts, sel) <==> x in ts && Selects(sel, x) && x.weight >= 1
  {
    if ts != [] {
      var m := |ts| - 1;
      ReplicatedMembers(ts[..m], sel, x);
      assert ts == ts[..m] + [ts[m]];
      var s := Share(ts[m], sel);
      if x in s {
        assert s[0] == ts[m];
      }
      if x == ts[m] && Selects(sel, x) && x.weight >= 1 {
        assert s[0] == x;
      }
    }
  }

  /** The default view holds only targets without a location, each weighted
      by repetition, and lists a record only if it has such a target. */
  lemma DefaultViewUnlocated(healthy: HealthyMap, n: string, t: Target)
    requires n in Compose(healthy)[DEFAULT_VIEW]
    ensures n in healthy
    ensures t in Compose(healthy)[DEFAULT_VIEW][n] <==> t in healthy[n] && t.location == "" && t.weight >= 1
  {
    ComposeKeys(healthy);
    ReplicatedMembers(healthy[n], Unlocated, t);
  }

  /** A region with healthy targets of its own for `n` publishes exactly
      their replicated list. */
  lemma RegionOwnTargets(healthy: HealthyMap, region: string, n: string)
    requires region in Regions(healthy) && n in healthy
    requires Replicated(healthy[n], InRegion(region)) != []
    ensures region in Compose(healthy) && n in Compose(healthy)[region]
    ensures Compose(healthy)[region][n] == Replicated(healthy[n], InRegion(region))
  {
    RegionsAreNotDefault(healthy);
  }

  /** Fallback: a region without targets of its own for `n` publishes the
      default entry for `n` unchanged (not re-weighted), and omits `n` when
      the default view has none either. */
  lemma RegionFallback(healthy: HealthyMap, region: string, n: string)
    requires region in Regions(healthy) && n in healthy
    requires Replicated(healthy[n], InRegion(region)) == []
    ensures region in Compose(healthy)
    ensures n in Compose(healthy)[region] <==> n in Compose(healthy)[DEFAULT_VIEW]
    ensures n in Compose(healthy)[region] ==> Compose(healthy)[region][n] == Compose(healthy)[DEFAULT_VIEW][n]
  {
    RegionsAreNotDefault(healthy);
  }

  /** With every weight at least one, every region view lists a record: the
      target that introduced the region matches it. */
  lemma RegionViewsNonEmpty(healthy: HealthyMap, region: string)
    requires forall n, t :: n in healthy && t in healthy[n] ==> t.weight >= 1
    requires region in Regions(healthy)
    ensures region in Compose(healthy) && Compose(healthy)[region] != map[]
  {
    RegionsAreNotDefault(healthy);
    var n, t :| n in healthy && t in healthy[n] && t.location != "" && Upper(t.location) == region;
    ReplicatedMembers(healthy[n], InRegion(region), t);
    assert n in RegionView(healthy, region);
  }

  /** Weights below one are not rejected: a region whose only target has
      weight 0 is still a view key, with nothing in it. */
  lemma ZeroWeightRegionIsEmpty()
    ensures var z := Target("10.0.0.1", "http", 80, "/", 0, "us");
      var v := Compose(map["www" := [z]]);
      "US" in v && v["US"] == map[]
  {
    var z := Target("10.0.0.1", "http", 80, "/", 0, "us");
    var h := map["www" := [z]];
    assert Upper("us") == "US";
    assert "www" in h && z in h["www"] && z.location != "" && Upper(z.location) == "US";
    assert "US" in Regions(h);
    assert [z][..0] == [];
    assert Replicated([z], InRegion("US")) == [];
    assert Replicated([z], Unlocated) == [];
    assert RegionView(h, "US") == map[];
  }

}
