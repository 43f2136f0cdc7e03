/** A worked grouping and composition for one record: an unlocated target of weight 2, a healthy
    target in region "us" and an unhealthy target in region "EU". */
module Scenarios {
  import opened Text
  import opened Targets
  import opened Grouping
  import opened Composer

  const A: Target := Target("10.0.0.1", "http", 80, "/", 2, "")
  const B: Target := Target("10.0.0.2", "http", 80, "/", 1, "us")
  const C: Target := Target("10.0.0.3", "tcp", 443, "/", 1, "EU")

  /** One named record: its probes are its targets in order, and its entry
      holds exactly the targets that came back healthy. */
  lemma GroupedSingle(n: string, ts: seq<Target>, h: seq<bool>)
    requires n != "" && |h| == |ts|
    ensures Pending([RecordSpec(n, ts)]) == Tag(n, ts)
    ensures Grouped([RecordSpec(n, ts)], h) == map[n := FilterHealthy(ts, h)]
  {
    var rs := [RecordSpec(n, ts)];
    assert rs[..0] == [];
    assert Names(rs) == {n} by {
      assert rs[0] in rs;
    }
    assert Pending(rs) == Tag(n, ts);
    assert h[0..] == h;
    assert HealthyFor(rs[..0], h[..0], n) == [];
    assert HealthyFor(rs, h, n) == FilterHealthy(ts, h);
    var g := Grouped(rs, h);
    assert g.Keys == {n};
  }

  lemma FilterExample()
    ensures FilterHealthy([A, B, C], [true, true, false]) == [A, B]
  {
    var ts := [A, B, C];
    var h := [true, true, false];
    assert ts[..2] == [A, B] && ts[..2][..1] == [A] && ts[..2][..1][..0] == [];
    assert h[..2] == [true, true] && h[..2][..1] == [true] && h[..2][..1][..0] == [];
    assert FilterHealthy(ts[..2][..1][..0], h[..2][..1][..0]) == [];
    assert FilterHealthy(ts[..2][..1], h[..2][..1]) == [A];
    assert FilterHealthy(ts[..2], h[..2]) == [A, B];
  }

  /** The probes are scheduled in target order and the unhealthy target is
      dropped from the record's list. */
  lemma ExampleGrouping()
    ensures Pending([RecordSpec("www", [A, B, C])]) == [("www", A), ("www", B), ("www", C)]
    ensures Grouped([RecordSpec("www", [A, B, C])], [true, true, false]) == map["www" := [A, B]]
  {
    GroupedSingle("www", [A, B, C], [true, true, false]);
    FilterExample();
  }

  lemma ReplicatedPair(x: Target, y: Target, sel: Selector)
    ensures Replicated([x, y], sel) == Share(x, sel) + Share(y, sel)
  {
    var xy := [x, y];
    assert xy[..1] == [x] && xy[..1][..0] == [];
    assert Replicated(xy[..1][..0], sel) == [];
    assert Replicated(xy[..1], sel) == Share(x, sel);
  }

  lemma SharesExample()
    ensures Share(A, Unlocated) == [A, A] && Share(B, Unlocated) == []
    ensures Share(A, InRegion("US")) == [] && Share(B, InRegion("US")) == [B]
  {
    assert Upper("us") == "US";
    assert Copies(A, 2) == [A, A];
    assert Copies(B, 1) == [B];
  }

  const HEALTHY: HealthyMap := map["www" := [A, B]]

  lemma RegionsExample()
    ensures Regions(HEALTHY) == {"US"}
  {
    assert Upper("us") == "US";
    assert HEALTHY.Keys == {"www"} && HEALTHY["www"] == [A, B];
    assert B in HEALTHY["www"];
  }

  /** With one record, the default view holds it exactly when it has an
      unlocated copy. */
  lemma DefaultSingle(n: string, ts: seq<Target>)
    requires Replicated(ts, Unlocated) != []
    ensures DefaultView(map[n := ts]) == map[n := Replicated(ts, Unlocated)]
  {
    var h := map[n := ts];
    assert DefaultView(h).Keys == {n};
  }

  /** With one record, a region publishes its own copies when it has some. */
  lemma RegionSingle(n: string, ts: seq<Target>, region: string)
    requires Replicated(ts, InRegion(region)) != []
    ensures RegionView(map[n := ts], region) == map[n := Replicated(ts, InRegion(region))]
  {
    var h := map[n := ts];
    assert RegionEntry(h, region, n) == Replicated(ts, InRegion(region));
    assert RegionView(h, region).Keys == {n};
  }

  lemma DefaultExample()
    ensures DefaultView(HEALTHY) == map["www" := [A, A]]
  {
    ReplicatedPair(A, B, Unlocated);
    SharesExample();
    assert Replicated([A, B], Unlocated) == [A, A];
    DefaultSingle("www", [A, B]);
    assert map["www" := Replicated([A, B], Unlocated)] == map["www" := [A, A]];
  }

  lemma RegionExample()
    ensures RegionView(HEALTHY, "US") == map["www" := [B]]
  {
    ReplicatedPair(A, B, InRegion("US"));
    SharesExample();
    assert Replicated([A, B], InRegion("US")) == [B];
    RegionSingle("www", [A, B], "US");
  }

  /** The default view repeats A twice, region "US" (upper-cased) publishes B,
      and the region of the unhealthy target gets no view at all. */
  lemma ExampleViews()
    ensures Compose(HEALTHY) == map["default" := map["www" := [A, A]], "US" := map["www" := [B]]]
    ensures "EU" !in Compose(HEALTHY)
  {
    RegionsExample();
    DefaultExample();
    RegionExample();
    ComposeKeys(HEALTHY);
    assert "US" != DEFAULT_VIEW;
  }

  const D: Target := Target("10.0.0.4", "http", 80, "/", 1, "")
  const Z: Target := Target("10.0.0.5", "http", 80, "/", 0, "us")
  const ZERO: HealthyMap := map["www" := [D, Z]]

  lemma ZeroWeightShares()
    ensures Replicated([D, Z], Unlocated) == [D]
    ensures Replicated([D, Z], InRegion("US")) == []
  {
    ReplicatedPair(D, Z, Unlocated);
    ReplicatedPair(D, Z, InRegion("US"));
    assert Upper("us") == "US";
    assert Copies(D, 1) == [D];
  }

  /** With one record and no copies of its own in a region, the region's
      view is the record's default entry. */
  lemma FallbackSingle(n: string, ts: seq<Target>, region: string)
    requires Replicated(ts, InRegion(region)) == [] && Replicated(ts, Unlocated) != []
    ensures RegionView(map[n := ts], region) == map[n := Replicated(ts, Unlocated)]
  {
    var h := map[n := ts];
    DefaultSingle(n, ts);
    assert RegionEntry(h, region, n) == Replicated(ts, Unlocated);
    assert RegionView(h, region).Keys == {n};
  }

  lemma ZeroRegions()
    ensures "US" in Regions(ZERO)
  {
    assert Upper("us") == "US";
    assert Z in ZERO["www"];
  }

  /** A region whose only target for a record has weight 0 is still a view
      key, and the record falls back to its default entry there. */
  lemma ZeroWeightFallsBack()
    ensures "US" in Compose(ZERO) && Compose(ZERO)["US"] == map["www" := [D]]
  {
    ZeroRegions();
    ZeroWeightShares();
    FallbackSingle("www", [D, Z], "US");
    assert RegionView(ZERO, "US") == map["www" := [D]];
    ComposeKeys(ZERO);
    RegionsAreNotDefault(ZERO);
  }

  /** A text-mode read turns a lone "\r" and a "\r\n" into "\n": a Corefile
      rendered with a carriage return never reads back as itself, and one
      stored with "\r\n" reads as its "\n" rendering. */
  lemma NewlinesExample()
    ensures Newlines("us\r") == "us\n" && Newlines("us\r") != "us\r"
    ensures Newlines("a\r\nb") == "a\nb"
  {
    assert "us\r"[1..] == "s\r" && "s\r"[1..] == "\r" && "\r"[1..] == [];
    assert "a\r\nb"[1..] == "\r\nb" && "\r\nb"[2..] == "b" && "b"[1..] == [];
  }
}
