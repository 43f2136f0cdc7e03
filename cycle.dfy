/** One reconciliation cycle (`run_loop`'s body): per domain, group the probe
    outcomes, compose the views, record the active regions and write one zone
    file per view; then write the Corefile if its content changed. Template
    rendering is a parameter; files live in an abstract content store. */
module Cycle {
  import opened Text
  import opened Targets
  import opened Grouping
  import opened Composer
  import opened Configs

  const COREFILE_PATH: string := "/etc/coredns/Corefile"
  const ZONEFILE_DIR: string := "/etc/coredns/zones"

  /** Renders a zone file from domain, nameservers, serial and one view. */
  type ZoneRenderer = (string, seq<string>, int, View) -> string

  /** Renders the Corefile from the domain -> active regions map. */
  type CorefileRenderer = map<string, seq<string>> -> string

  // ---------------------------------------------------------------------
  // Derived values of a cycle.

  /** The active regions of a domain: every view key except "default",
      in ascending string order. */
  method ActiveRegions(views: Views) returns (regions: seq<string>)
    ensures Sorted(regions)
    ensures forall r :: r in regions <==> r in views && r != DEFAULT_VIEW
  {
    regions := [];
    var todo := views.Keys;
    while todo != {}
      invariant todo <= views.Keys
      invariant Sorted(regions)
      invariant forall r :: r in regions <==> r in views.Keys - todo && r != DEFAULT_VIEW
      decreases todo
    {
      var v :| v in todo;
      if v != DEFAULT_VIEW {
        regions := Insert(v, regions);
      }
      todo := todo - {v};
    }
  }

  /** A zone file is named "db.", the domain, ".", the view key. */
  function ZoneFileName(domain: string, view: string): (r: string)
  {
    "db." + domain + "." + view
  }

  /** The zone file's path in the zone directory. */
  function ZonePath(domain: string, view: string): (r: string)
  {
    ZONEFILE_DIR + "/" + ZoneFileName(domain, view)
  }

  /** The temporary file a zone file is first written to: its path plus
      ".tmp". */
  function TempPath(path: string): (r: string)
  {
    path + ".tmp"
  }

  /** The layout of a zone file's name and path: "db.", the domain, ".",
      the view key, inside the zone directory. */
  lemma ZonePathLayout(domain: string, view: string)
    ensures |ZoneFileName(domain, view)| == |domain| + |view| + 4
    ensures ZoneFileName(domain, view)[..3] == "db."
    ensures ZoneFileName(domain, view)[3..3 + |domain|] == domain
    ensures ZoneFileName(domain, view)[3 + |domain|] == '.'
    ensures ZoneFileName(domain, view)[4 + |domain|..] == view
    ensures ZonePath(domain, view)[..|ZONEFILE_DIR| + 1] == ZONEFILE_DIR + "/"
    ensures ZonePath(domain, view)[|ZONEFILE_DIR| + 1..] == ZoneFileName(domain, view)
  {
  }

  /** A temporary file is its zone file's path followed by ".tmp". */
  lemma TempPathLayout(path: string)
    ensures |TempPath(path)| == |path| + 4
    ensures TempPath(path)[..|path|] == path && TempPath(path)[|path|..] == ".tmp"
  {
  }

  /** A key the composer can produce: "default" or an upper-cased region. */
  predicate ViewKey(v: string)
  {
    v == DEFAULT_VIEW || NoLower(v)
  }

  /** Within one domain, distinct views get distinct zone files. */
  lemma ZoneFileNamesDistinct(domain: string, v1: string, v2: string)
    requires v1 != v2
    ensures ZoneFileName(domain, v1) != ZoneFileName(domain, v2)
    ensures ZonePath(domain, v1) != ZonePath(domain, v2)
  {
    var k := |"db." + domain + "."|;
    assert ZoneFileName(domain, v1)[k..] == v1;
    assert ZoneFileName(domain, v2)[k..] == v2;
    var j := |ZONEFILE_DIR + "/"|;
    assert ZonePath(domain, v1)[j..] == ZoneFileName(domain, v1);
    assert ZonePath(domain, v2)[j..] == ZoneFileName(domain, v2);
  }

  /** Across domains the scheme is not injective: a dot in a domain or a
      region code can make two (domain, view) pairs share a file. */
  lemma ZoneFileNamesCanCollide()
    ensures ZoneFileName("example.COM", "US") == ZoneFileName("example", "COM.US")
  {
  }

  /** A temporary file never has the name of a zone file: its last character
      is 'p', which ends neither "default" nor an upper-cased code nor ".". */
  lemma TempIsNoZonePath(d1: string, v1: string, d2: string, v2: string)
    requires ViewKey(v1)
    ensures ZonePath(d1, v1) != TempPath(ZonePath(d2, v2))
  {
    var p := ZonePath(d1, v1);
    var t := TempPath(ZonePath(d2, v2));
    assert t[|t| - 1] == 'p';
    if v1 == [] {
      assert p[|p| - 1] == '.';
    } else {
      assert p[|p| - 1] == v1[|v1| - 1];
      if v1 != DEFAULT_VIEW {
        assert !IsLower(v1[|v1| - 1]);
      }
    }
  }

  /** The Corefile is neither a zone file nor a temporary one. */
  lemma CorefileIsNoZonePath(d: string, v: string)
    ensures COREFILE_PATH != ZonePath(d, v)
    ensures COREFILE_PATH != TempPath(ZonePath(d, v))
  {
    assert ZonePath(d, v)[13] == 'z';
    assert TempPath(ZonePath(d, v))[13] == 'z';
    assert COREFILE_PATH[13] == 'C';
  }

  /** Every view key the composer produces is "default" or upper-case. */
  lemma ComposedViewKeys(healthy: HealthyMap)
    ensures forall v :: v in Compose(healthy) ==> ViewKey(v)
  {
    forall v | v in Compose(healthy) && v != DEFAULT_VIEW
      ensures NoLower(v)
    {
      var n, t :| n in healthy && t in healthy[n] && t.location != "" && Upper(t.location) == v;
      UpperHasNoLower(t.location);
    }
  }

  // ---------------------------------------------------------------------
  // The files the controller writes.

  /** Path -> content, with the sequence of paths written (each write
      changes a file's modification time and can trigger a reload). */
  class FileStore {
    var files: map<string, string>
    var written: seq<string>

    constructor (files: map<string, string>)
      ensures this.files == files && written == []
    {
      this.files := files;
      written := [];
    }

    /** The Corefile read of `update_corefile`: "" when the file is absent,
        otherwise its content as a text-mode read returns it, with "\r\n"
        and a lone "\r" turned into "\n". */
    function Read(path: string): (r: string)
      reads this
      ensures path !in files ==> r == ""
      ensures '\r' !in r
      ensures path in files ==> (r == files[path] <==> '\r' !in files[path])
    {
      if path in files then Newlines(files[path]) else ""
    }

    method Write(path: string, content: string)
      modifies this
      ensures files == old(files)[path := content]
      ensures written == old(written) + [path]
    {
      files := files[path := content];
      written := written + [path];
    }

    method Rename(src: string, dst: string)
      requires src in files && src != dst
      modifies this
      ensures files == (old(files) - {src})[dst := old(files)[src]]
      ensures written == old(written) + [dst]
    {
      var content := files[src];
      files := (files - {src})[dst := content];
      written := written + [dst];
    }

    /** Writes the rendered Corefile only when it differs from what a
        text-mode read returns; afterwards the file reads as `content` with
        its carriage returns translated. */
    method UpdateCorefile(content: string) returns (changed: bool)
      modifies this
      ensures changed == (content != old(Read(COREFILE_PATH)))
      ensures changed ==> files == old(files)[COREFILE_PATH := content] && written == old(written) + [COREFILE_PATH]
      ensures !changed ==> files == old(files) && written == old(written)
      ensures Read(COREFILE_PATH) == Newlines(content)
    {
      var current := Read(COREFILE_PATH);
      changed := content != current;
      if changed {
        Write(COREFILE_PATH, content);
      }
    }

    /** Writes a zone file through a temporary file in the same directory
        renamed over the final path: the final path goes from its old content
        straight to `content`. */
    method WriteZoneFile(path: string, content: string)
      modifies this
      ensures files == (old(files) - {TempPath(path)})[path := content]
      ensures written == old(written) + [TempPath(path), path]
    {
      var temp := TempPath(path);
      assert |temp| != |path|;
      Write(temp, content);
      Rename(temp, path);
    }
  }

  /** Writing the same Corefile content twice: the second update writes
      again exactly when the content holds a carriage return, which the
      text-mode read never gives back. */
  method UpdateCorefileTwice(store: FileStore, content: string) returns (first: bool, second: bool)
    modifies store
    ensures first == (content != old(store.Read(COREFILE_PATH)))
    ensures second <==> '\r' in content
    ensures second ==> first
    ensures store.Read(COREFILE_PATH) == Newlines(content)
    ensures first ==> store.files == old(store.files)[COREFILE_PATH := content]
    ensures first ==> store.written == old(store.written) + [COREFILE_PATH] + (if second then [COREFILE_PATH] else [])
    ensures !first ==> store.files == old(store.files) && store.written == old(store.written)
  {
    first := store.UpdateCorefile(content);
    second := store.UpdateCorefile(content);
  }

  // ---------------------------------------------------------------------
  // One cycle.

  /** The views a domain publishes for the given probe outcomes. */
  function DomainViews(data: DomainData, health: seq<bool>): Views
    requires |health| == |Pending(data.rawRecords)|
  {
    Compose(Grouped(data.rawRecords, health))
  }

  /** A domain's views are "default", holding its default view, and one per
      region named by a healthy target. */
  lemma DomainViewsKeys(data: DomainData, health: seq<bool>)
    requires |health| == |Pending(data.rawRecords)|
    ensures DomainViews(data, health).Keys == {DEFAULT_VIEW} + Regions(Grouped(data.rawRecords, health))
    ensures DomainViews(data, health)[DEFAULT_VIEW] == DefaultView(Grouped(data.rawRecords, health))
  {
    ComposeKeys(Grouped(data.rawRecords, health));
  }

  /** True when `p` is untouched from `before` to `after`. */
  predicate SameAt(before: map<string, string>, after: map<string, string>, p: string)
  {
    (p in before <==> p in after) && (p in before ==> before[p] == after[p])
  }

  /** The zone files and temporary files of one domain's views. */
  function ZoneFiles(domain: string, keys: set<string>): set<string>
  {
    (set v | v in keys :: ZonePath(domain, v)) + (set v | v in keys :: TempPath(ZonePath(domain, v)))
  }

  /** `after` is `before` followed by further entries, each one of `allowed`. */
  predicate Appended(before: seq<string>, after: seq<string>, allowed: set<string>)
  {
    |before| <= |after| && after[..|before|] == before
    && forall k :: |before| <= k < |after| ==> after[k] in allowed
  }

  lemma AppendedTrans(a: seq<string>, b: seq<string>, c: seq<string>, s: set<string>, t: set<string>, u: set<string>)
    requires Appended(a, b, s) && Appended(b, c, t) && s + t <= u
    ensures Appended(a, c, u)
  {
    assert c[..|b|][..|a|] == c[..|a|];
    forall k | |a| <= k < |c| ensures c[k] in u {
      if k < |b| {
        assert c[k] == c[..|b|][k] == b[k];
      }
    }
  }

  /** The zone-file loop of one domain: one file per view, named by domain
      and view, rendered with the domain's nameservers and the cycle serial. */
  method WriteZoneFiles(store: FileStore, domain: string, nameservers: seq<string>, serial: int,
                        views: Views, renderZone: ZoneRenderer)
    requires forall v :: v in views ==> ViewKey(v)
    modifies store
    ensures forall v :: v in views ==>
      ZonePath(domain, v) in store.files
      && store.files[ZonePath(domain, v)] == renderZone(domain, nameservers, serial, views[v])
    ensures forall v :: v in views ==> TempPath(ZonePath(domain, v)) !in store.files
    ensures forall p :: p !in ZoneFiles(domain, views.Keys) ==> SameAt(old(store.files), store.files, p)
    ensures Appended(old(store.written), store.written, ZoneFiles(domain, views.Keys))
  {
    var todo := views.Keys;
    ghost var done: set<string> := {};
    while todo != {}
      invariant todo !! done && todo + done == views.Keys
      invariant forall v :: v in done ==>
        ZonePath(domain, v) in store.files
        && store.files[ZonePath(domain, v)] == renderZone(domain, nameservers, serial, views[v])
      invariant forall v :: v in done ==> TempPath(ZonePath(domain, v)) !in store.files
      invariant forall p :: p !in ZoneFiles(domain, done) ==> SameAt(old(store.files), store.files, p)
      invariant Appended(old(store.written), store.written, ZoneFiles(domain, done))
      decreases todo
    {
      var view :| view in todo;
      var filename := ZoneFileName(domain, view);
      var content := renderZone(domain, nameservers, serial, views[view]);
      ghost var log := store.written;
      store.WriteZoneFile(ZONEFILE_DIR + "/" + filename, content);
      ZoneFilesAdd(domain, done, view);
      AppendedTrans(old(store.written), log, store.written, ZoneFiles(domain, done),
        {ZonePath(domain, view), TempPath(ZonePath(domain, view))}, ZoneFiles(domain, done + {view}));
      forall v | v in done
        ensures ZonePath(domain, v) != ZonePath(domain, view)
        ensures ZonePath(domain, v) != TempPath(ZonePath(domain, view))
        ensures TempPath(ZonePath(domain, v)) != ZonePath(domain, view)
        ensures TempPath(ZonePath(domain, v)) != TempPath(ZonePath(domain, view))
      {
        ZoneFileNamesDistinct(domain, v, view);
        TempIsNoZonePath(domain, v, domain, view);
        TempIsNoZonePath(domain, view, domain, v);
        TempPathLayout(ZonePath(domain, v));
        TempPathLayout(ZonePath(domain, view));
      }
      TempPathLayout(ZonePath(domain, view));
      todo := todo - {view};
      done := done + {view};
    }
  }

  lemma ZoneFilesAdd(domain: string, keys: set<string>, v: string)
    ensures ZoneFiles(domain, keys + {v}) == ZoneFiles(domain, keys) + {ZonePath(domain, v), TempPath(ZonePath(domain, v))}
  {
  }

  /** One domain with nameservers: group, compose, derive the active regions
      and write one zone file per view. */
  method ProcessDomain(store: FileStore, domain: string, data: DomainData, health: seq<bool>,
                       serial: int, renderZone: ZoneRenderer)
    returns (regions: seq<string>)
    requires |health| == |Pending(data.rawRecords)|
    modifies store
    ensures Sorted(regions)
    ensures forall r :: r in regions <==> r in DomainViews(data, health) && r != DEFAULT_VIEW
    ensures forall v :: v in DomainViews(data, health) ==>
      ZonePath(domain, v) in store.files
      && store.files[ZonePath(domain, v)] == renderZone(domain, data.nameservers, serial, DomainViews(data, health)[v])
    ensures forall v :: v in DomainViews(data, health) ==> TempPath(ZonePath(domain, v)) !in store.files
    ensures forall p :: p !in ZoneFiles(domain, DomainViews(data, health).Keys) ==> SameAt(old(store.files), store.files, p)
    ensures Appended(old(store.written), store.written, ZoneFiles(domain, DomainViews(data, health).Keys))
  {
    var healthy := ResolveHealthyRecords(data.rawRecords, health);
    var views := OrganizeByRegion(healthy);
    regions := ActiveRegions(views);
    ComposedViewKeys(healthy);
    WriteZoneFiles(store, domain, data.nameservers, serial, views, renderZone);
  }

  /** No domain's zone files or temporary files touch the Corefile. */
  lemma CorefileUntouched(domain: string, keys: set<string>)
    ensures COREFILE_PATH !in ZoneFiles(domain, keys)
  {
    forall v | v in keys {
      CorefileIsNoZonePath(domain, v);
    }
  }

  /** Domains that reach the composer: every merged domain with nameservers. */
  function Processed(specs: seq<DomainSpec>): set<string>
  {
    set d | d in Merged(specs) && Merged(specs)[d].nameservers != []
  }

  /** Every listed domain has one probe outcome per scheduled probe. */
  predicate Probed(domains: map<string, DomainData>, health: map<string, seq<bool>>)
  {
    forall d :: d in domains ==> d in health && |health[d]| == |Pending(domains[d].rawRecords)|
  }

  /** Meta entries as the cycle records them: the sorted active regions of
      each processed domain. */
  ghost predicate MetaOf(domains: map<string, DomainData>, health: map<string, seq<bool>>, meta: map<string, seq<string>>)
    requires Probed(domains, health)
  {
    forall d :: d in meta ==>
      d in domains
      && Sorted(meta[d])
      && forall r :: r in meta[d] <==> r in DomainViews(domains[d], health[d]) && r != DEFAULT_VIEW
  }

  lemma MetaStep(domains: map<string, DomainData>, health: map<string, seq<bool>>, meta: map<string, seq<string>>,
                 d: string, regions: seq<string>)
    requires Probed(domains, health)
    requires MetaOf(domains, health, meta) && d in domains && Sorted(regions)
    requires forall r :: r in regions <==> r in DomainViews(domains[d], health[d]) && r != DEFAULT_VIEW
    ensures MetaOf(domains, health, meta[d := regions])
  {
  }

  /** The zone files and temporary files of the domains in `ds` that have
      nameservers. */
  ghost function CycleFiles(domains: map<string, DomainData>, health: map<string, seq<bool>>, ds: set<string>): set<string>
    requires Probed(domains, health)
  {
    set d, p | d in ds && d in domains && domains[d].nameservers != []
      && p in ZoneFiles(d, DomainViews(domains[d], health[d]).Keys) :: p
  }

  lemma CycleFilesAdd(domains: map<string, DomainData>, health: map<string, seq<bool>>, ds: set<string>, d: string)
    requires Probed(domains, health) && d in domains
    ensures domains[d].nameservers == [] ==> CycleFiles(domains, health, ds + {d}) == CycleFiles(domains, health, ds)
    ensures domains[d].nameservers != [] ==>
      CycleFiles(domains, health, ds + {d})
        == CycleFiles(domains, health, ds) + ZoneFiles(d, DomainViews(domains[d], health[d]).Keys)
  {
  }

  /** The Corefile is none of the files the domains write. */
  lemma CorefileNotCycleFile(domains: map<string, DomainData>, health: map<string, seq<bool>>, ds: set<string>)
    requires Probed(domains, health)
    ensures COREFILE_PATH !in CycleFiles(domains, health, ds)
  {
    if COREFILE_PATH in CycleFiles(domains, health, ds) {
      var d :| d in ds && d in domains && domains[d].nameservers != []
        && COREFILE_PATH in ZoneFiles(d, DomainViews(domains[d], health[d]).Keys);
      CorefileUntouched(d, DomainViews(domains[d], health[d]).Keys);
    }
  }

  /** A path outside the zone directory, such as "/etc/hosts", is none of
      the files the domains write. */
  lemma OutsideZoneDir(domains: map<string, DomainData>, health: map<string, seq<bool>>, ds: set<string>, p: string)
    requires Probed(domains, health)
    requires !(|ZONEFILE_DIR + "/"| <= |p| && p[..|ZONEFILE_DIR + "/"|] == ZONEFILE_DIR + "/")
    ensures p !in CycleFiles(domains, health, ds)
  {
  }

  /** Domain `d`'s zone files as the domain loop leaves them: no temporary
      file remains, and each view's zone file that no path in `others` can
      overwrite holds that view's rendering. */
  ghost predicate DomainWritten(files: map<string, string>, domains: map<string, DomainData>,
                                health: map<string, seq<bool>>, serial: int, renderZone: ZoneRenderer,
                                d: string, others: set<string>)
    requires Probed(domains, health) && d in domains
  {
    forall v :: v in DomainViews(domains[d], health[d]) ==>
      TempPath(ZonePath(d, v)) !in files
      && (ZonePath(d, v) !in others ==>
            ZonePath(d, v) in files
            && files[ZonePath(d, v)] == renderZone(d, domains[d].nameservers, serial, DomainViews(domains[d], health[d])[v]))
  }

  /** A later step that changes only `changed` keeps a domain written, with
      the changed paths counted among those that may overwrite its files. */
  lemma WrittenKept(files: map<string, string>, files2: map<string, string>, domains: map<string, DomainData>,
                    health: map<string, seq<bool>>, serial: int, renderZone: ZoneRenderer,
                    d: string, others: set<string>, others2: set<string>, changed: set<string>)
    requires Probed(domains, health) && d in domains
    requires DomainWritten(files, domains, health, serial, renderZone, d, others)
    requires others <= others2 && changed <= others2 + {COREFILE_PATH}
    requires forall p :: p !in changed ==> SameAt(files, files2, p)
    requires forall v :: v in DomainViews(domains[d], health[d]) && TempPath(ZonePath(d, v)) in changed ==>
      TempPath(ZonePath(d, v)) !in files2
    ensures DomainWritten(files2, domains, health, serial, renderZone, d, others2)
  {
    var views := DomainViews(domains[d], health[d]);
    forall v | v in views
      ensures TempPath(ZonePath(d, v)) !in files2
      ensures ZonePath(d, v) !in others2 ==>
        ZonePath(d, v) in files2
        && files2[ZonePath(d, v)] == renderZone(d, domains[d].nameservers, serial, views[v])
    {
      CorefileIsNoZonePath(d, v);
      var z := ZonePath(d, v);
      if z !in others2 {
        assert z !in changed && z !in others;
        assert SameAt(files, files2, z);
      }
      var t := TempPath(z);
      if t !in changed {
        assert SameAt(files, files2, t);
      }
    }
  }

  /** A temporary file of one domain that lies among another domain's files
      is one of that domain's temporary files. */
  lemma TempInZoneFiles(e: string, keys: set<string>, d: string, v: string)
    requires forall w :: w in keys ==> ViewKey(w)
    requires TempPath(ZonePath(d, v)) in ZoneFiles(e, keys)
    ensures exists w :: w in keys && TempPath(ZonePath(d, v)) == TempPath(ZonePath(e, w))
  {
    if w :| w in keys && ZonePath(e, w) == TempPath(ZonePath(d, v)) {
      TempIsNoZonePath(e, w, d, v);
    }
  }

  /** Adding domain `e` to the processed set adds its files to what may
      overwrite another domain `d`'s files. */
  lemma OthersStep(domains: map<string, DomainData>, health: map<string, seq<bool>>, done: set<string>, d: string, e: string)
    requires Probed(domains, health) && e in domains && d != e
    ensures domains[e].nameservers == [] ==>
      CycleFiles(domains, health, done + {e} - {d}) == CycleFiles(domains, health, done - {d})
    ensures domains[e].nameservers != [] ==>
      CycleFiles(domains, health, done + {e} - {d})
        == CycleFiles(domains, health, done - {d}) + ZoneFiles(e, DomainViews(domains[e], health[e]).Keys)
  {
    assert done + {e} - {d} == (done - {d}) + {e};
    CycleFilesAdd(domains, health, done - {d}, e);
  }

  /** Processing domain `e` keeps another domain `d` written, with `e`'s
      files among those that may overwrite `d`'s. */
  lemma OtherDomainKept(files: map<string, string>, files2: map<string, string>, domains: map<string, DomainData>,
                        health: map<string, seq<bool>>, serial: int, renderZone: ZoneRenderer,
                        done: set<string>, d: string, e: string)
    requires Probed(domains, health) && d in domains && e in domains && d != e && domains[e].nameservers != []
    requires DomainWritten(files, domains, health, serial, renderZone, d, CycleFiles(domains, health, done - {d}))
    requires forall p :: p !in ZoneFiles(e, DomainViews(domains[e], health[e]).Keys) ==> SameAt(files, files2, p)
    requires forall v :: v in DomainViews(domains[e], health[e]) ==> TempPath(ZonePath(e, v)) !in files2
    ensures DomainWritten(files2, domains, health, serial, renderZone, d, CycleFiles(domains, health, done + {e} - {d}))
  {
    var written := ZoneFiles(e, DomainViews(domains[e], health[e]).Keys);
    OthersStep(domains, health, done, d, e);
    ComposedViewKeys(Grouped(domains[e].rawRecords, health[e]));
    forall v | v in DomainViews(domains[d], health[d]) && TempPath(ZonePath(d, v)) in written
      ensures TempPath(ZonePath(d, v)) !in files2
    {
      TempInZoneFiles(e, DomainViews(domains[e], health[e]).Keys, d, v);
    }
    WrittenKept(files, files2, domains, health, serial, renderZone, d,
      CycleFiles(domains, health, done - {d}), CycleFiles(domains, health, done + {e} - {d}), written);
  }

  /** With a single domain nothing can overwrite its files: after the cycle
      every view's zone file holds its rendering and no temporary file
      remains. */
  lemma SingleDomainWritten(files: map<string, string>, domains: map<string, DomainData>,
                            health: map<string, seq<bool>>, serial: int, renderZone: ZoneRenderer, d: string)
    requires Probed(domains, health) && domains.Keys == {d}
    requires DomainWritten(files, domains, health, serial, renderZone, d, CycleFiles(domains, health, domains.Keys - {d}))
    ensures forall v :: v in DomainViews(domains[d], health[d]) ==>
      TempPath(ZonePath(d, v)) !in files
      && ZonePath(d, v) in files
      && files[ZonePath(d, v)] == renderZone(d, domains[d].nameservers, serial, DomainViews(domains[d], health[d])[v])
  {
    assert domains.Keys - {d} == {};
  }

  /** The domain loop of one cycle: every domain with nameservers gets its
      sorted active regions recorded and its zone files written; a domain
      without nameservers is skipped. Nothing but those zone files and their
      temporary files is written. */
  method ProcessDomains(store: FileStore, domains: map<string, DomainData>, health: map<string, seq<bool>>,
                        serial: int, renderZone: ZoneRenderer)
    returns (meta: map<string, seq<string>>)
    requires Probed(domains, health)
    modifies store
    ensures meta.Keys == set d | d in domains && domains[d].nameservers != []
    ensures MetaOf(domains, health, meta)
    ensures Appended(old(store.written), store.written, CycleFiles(domains, health, domains.Keys))
    ensures forall p :: p !in CycleFiles(domains, health, domains.Keys) ==> SameAt(old(store.files), store.files, p)
    ensures forall d :: d in meta ==>
      d in domains && DomainWritten(store.files, domains, health, serial, renderZone, d, CycleFiles(domains, health, domains.Keys - {d}))
  {
    meta := map[];
    var todo := domains.Keys;
    ghost var done: set<string> := {};
    while todo != {}
      invariant todo !! done && todo + done == domains.Keys
      invariant DomainsDone(old(store.files), old(store.written), store.files, store.written,
        domains, health, serial, renderZone, meta, done)
      decreases todo
    {
      var domain :| domain in todo;
      todo := todo - {domain};
      meta := ProcessNext(store, domains, health, serial, renderZone, meta, done, old(store.files), old(store.written), domain);
      done := done + {domain};
    }
  }

  /** What the domain loop has achieved once the domains in `done` are
      processed, starting from `files0` and `log0`. */
  ghost predicate DomainsDone(files0: map<string, string>, log0: seq<string>, files: map<string, string>, log: seq<string>,
                              domains: map<string, DomainData>, health: map<string, seq<bool>>, serial: int,
                              renderZone: ZoneRenderer, meta: map<string, seq<string>>, done: set<string>)
    requires Probed(domains, health)
  {
    done <= domains.Keys
    && meta.Keys == (set d | d in done && domains[d].nameservers != [])
    && MetaOf(domains, health, meta)
    && Appended(log0, log, CycleFiles(domains, health, done))
    && (forall p :: p !in CycleFiles(domains, health, done) ==> SameAt(files0, files, p))
    && forall d :: d in meta ==>
      d in domains && DomainWritten(files, domains, health, serial, renderZone, d, CycleFiles(domains, health, done - {d}))
  }

  /** One step of the domain loop: a domain without nameservers is skipped;
      any other gets its views composed, its active regions recorded and
      its zone files written. */
  method ProcessNext(store: FileStore, domains: map<string, DomainData>, health: map<string, seq<bool>>,
                     serial: int, renderZone: ZoneRenderer, meta: map<string, seq<string>>,
                     ghost done: set<string>, ghost files0: map<string, string>, ghost log0: seq<string>, domain: string)
    returns (meta2: map<string, seq<string>>)
    requires Probed(domains, health) && domain in domains && domain !in done
    requires DomainsDone(files0, log0, store.files, store.written, domains, health, serial, renderZone, meta, done)
    modifies store
    ensures DomainsDone(files0, log0, store.files, store.written, domains, health, serial, renderZone, meta2, done + {domain})
  {
    CycleFilesAdd(domains, health, done, domain);
    var data := domains[domain];
    if data.nameservers == [] {
      forall d | d in meta
        ensures CycleFiles(domains, health, done + {domain} - {d}) == CycleFiles(domains, health, done - {d})
      {
        OthersStep(domains, health, done, d, domain);
      }
      meta2 := meta;
      return;
    }
    ghost var files := store.files;
    ghost var log := store.written;
    var regions := ProcessDomain(store, domain, data, health[domain], serial, renderZone);
    ghost var written := ZoneFiles(domain, DomainViews(data, health[domain]).Keys);
    AppendedTrans(log0, log, store.written, CycleFiles(domains, health, done), written,
      CycleFiles(domains, health, done + {domain}));
    forall p | p !in CycleFiles(domains, health, done + {domain})
      ensures SameAt(files0, store.files, p)
    {
      assert SameAt(files0, files, p) && SameAt(files, store.files, p);
    }
    forall d | d in meta
      ensures DomainWritten(store.files, domains, health, serial, renderZone, d, CycleFiles(domains, health, done + {domain} - {d}))
    {
      OtherDomainKept(files, store.files, domains, health, serial, renderZone, done, d, domain);
    }
    assert DomainWritten(store.files, domains, health, serial, renderZone, domain, CycleFiles(domains, health, done + {domain} - {domain}));
    MetaStep(domains, health, meta, domain, regions);
    meta2 := meta[domain := regions];
  }


  /** The body of `run_loop` for one cycle, from the listed entries on. The
      probe outcomes of each domain arrive as `health[domain]`. The Corefile
      is written in this cycle exactly when its rendering changed; besides it,
      only the zone files and temporary files of processed domains change. */
  method RunCycle(store: FileStore, specs: seq<DomainSpec>, health: map<string, seq<bool>>, serial: int,
                  renderZone: ZoneRenderer, renderCorefile: CorefileRenderer)
    returns (meta: map<string, seq<string>>, corefileChanged: bool)
    requires Probed(Merged(specs), health)
    modifies store
    ensures meta.Keys == Processed(specs)
    ensures MetaOf(Merged(specs), health, meta)
    ensures store.Read(COREFILE_PATH) == Newlines(renderCorefile(meta))
    ensures corefileChanged ==> COREFILE_PATH in store.files && store.files[COREFILE_PATH] == renderCorefile(meta)
    ensures corefileChanged == (renderCorefile(meta) != old(store.Read(COREFILE_PATH)))
    ensures Appended(old(store.written), store.written,
      CycleFiles(Merged(specs), health, Merged(specs).Keys) + {COREFILE_PATH})
    ensures corefileChanged <==> COREFILE_PATH in store.written[|old(store.written)|..]
    ensures !corefileChanged ==> SameAt(old(store.files), store.files, COREFILE_PATH)
    ensures forall d :: d in meta ==>
      d in Merged(specs) && DomainWritten(store.files, Merged(specs), health, serial, renderZone, d,
                                          CycleFiles(Merged(specs), health, Merged(specs).Keys - {d}))
    ensures forall p :: p != COREFILE_PATH && p !in CycleFiles(Merged(specs), health, Merged(specs).Keys) ==>
      SameAt(old(store.files), store.files, p)
  {
    var domains := MergeDomainConfigs(specs);
    ghost var files := store.files;
    meta := ProcessDomains(store, domains, health, serial, renderZone);
    ghost var zoneFiles := CycleFiles(domains, health, domains.Keys);
    CorefileNotCycleFile(domains, health, domains.Keys);
    assert SameAt(files, store.files, COREFILE_PATH);
    ghost var files2 := store.files;
    ghost var log := store.written;
    corefileChanged := store.UpdateCorefile(renderCorefile(meta));
    AppendedTrans(old(store.written), log, store.written, zoneFiles, {COREFILE_PATH}, zoneFiles + {COREFILE_PATH});
    CorefileLogged(old(store.written), log, store.written, zoneFiles, corefileChanged);
    CorefileKeepsWritten(files2, store.files, domains, health, serial, renderZone, meta.Keys);
  }

  /** Writing the Corefile keeps every processed domain written. */
  lemma CorefileKeepsWritten(files: map<string, string>, files2: map<string, string>, domains: map<string, DomainData>,
                             health: map<string, seq<bool>>, serial: int, renderZone: ZoneRenderer, ds: set<string>)
    requires Probed(domains, health)
    requires forall d :: d in ds ==>
      d in domains && DomainWritten(files, domains, health, serial, renderZone, d, CycleFiles(domains, health, domains.Keys - {d}))
    requires forall p :: p != COREFILE_PATH ==> SameAt(files, files2, p)
    ensures forall d :: d in ds ==>
      d in domains && DomainWritten(files2, domains, health, serial, renderZone, d, CycleFiles(domains, health, domains.Keys - {d}))
  {
    forall d | d in ds
      ensures DomainWritten(files2, domains, health, serial, renderZone, d, CycleFiles(domains, health, domains.Keys - {d}))
    {
      forall v | v in DomainViews(domains[d], health[d]) {
        CorefileIsNoZonePath(d, v);
      }
      var others := CycleFiles(domains, health, domains.Keys - {d});
      WrittenKept(files, files2, domains, health, serial, renderZone, d, others, others, {COREFILE_PATH});
    }
  }

  /** Only the Corefile update can log the Corefile, since no zone file is it. */
  lemma CorefileLogged(a: seq<string>, b: seq<string>, c: seq<string>, zoneFiles: set<string>, changed: bool)
    requires Appended(a, b, zoneFiles) && COREFILE_PATH !in zoneFiles
    requires changed ==> c == b + [COREFILE_PATH]
    requires !changed ==> c == b
    ensures |a| <= |c|
    ensures changed <==> COREFILE_PATH in c[|a|..]
  {
    if changed {
      assert c[|c| - 1] == COREFILE_PATH;
      assert c[|a|..][|c| - 1 - |a|] == COREFILE_PATH;
    }
  }

  /** Every merged domain reaches the composer: a domain whose entries all
      lacked nameservers was already dropped by the merge. */
  lemma ProcessedIsMerged(specs: seq<DomainSpec>)
    ensures Processed(specs) == Merged(specs).Keys
  {
    forall d | d in Merged(specs)
      ensures Merged(specs)[d].nameservers != []
    {
      MergedHasNameservers(specs, d);
    }
  }
}
