# simple-gslb reconciliation core in Dafny

simple-gslb is a DNS-based global server load balancer. A controller
periodically reads per-domain configuration entries. It probes every target of
every named record and composes a "default" view plus one view per region code from
the healthy targets. It then writes one zone file per view and a Corefile that
lists each domain's active regions. This project models that controller's
reconciliation core (`src/controller.py`) and proves what it computes:

- **Configs** is the merge of the listed entries into one entry per domain
  (`get_domain_configs`).
- **Grouping** holds the scheduling of one probe per target of each named
  record, and the zip of the probe outcomes back onto the records
  (`resolve_healthy_records`). A probe outcome arrives as one boolean per
  scheduled probe.
- **Composer** builds the views (`organize_data_by_region`): it collects the
  region codes named by healthy targets, builds the default view from the
  unlocated targets, and builds each region's view from its own targets. A
  region with no target of its own for a record falls back to the default
  entry. A weight is realised by repeating the target.
- **Cycle** covers one pass of `run_loop`: the sorted active regions, the
  zone-file names, the write through a temporary file and a rename, and the
  Corefile written only when its content changed. Files live in a `FileStore`
  class (path -> content, plus the sequence of paths written). Template
  rendering is a function parameter.
- **Text** provides ASCII upper-casing, Python's string ordering and the
  newline translation of a text-mode read. It also
  proves sorted insertion correct and proves that a sorted list of distinct
  strings is unique.
- **Scenarios** is a worked grouping and composition for one record. It has an unlocated target
  of weight 2 (A), a healthy target in region "us" (B) and an unhealthy one in
  "EU" (C). The default view is [A, A] and the "US" view is [B]. There is no
  "EU" view at all.

The merge, grouping and composer methods are proved equal to specification
functions: `Merged`, `Pending`, `Grouped`, `Replicated`, `Regions`,
`DefaultView`, `RegionView` and `Compose`. Lemmas then characterise those
functions. The cycle's methods are proved against explicit
properties and state equations instead:
- `ActiveRegions` promises sortedness and exact membership.
- The `FileStore` methods state the new file map and write log.
- `WriteZoneFiles`, `ProcessDomain`, `ProcessDomains` and `RunCycle` state the
  files they write, the paths they leave untouched (`SameAt`) and the entries
  they add to the write log (`Appended`).

Three behaviours of the code may be surprising; the model follows the code:

- Region codes come only from targets that are healthy in this cycle. One
  might expect a region whose targets all failed to still get a view that
  falls back to the default entries. Instead that region gets no view at all
  (`Scenarios.ExampleViews`).
- Weights are not validated, and a target of weight 0 or less is published
  zero times. Its region is still a view key and an active region. In that
  region, each record without copies of its own falls back to its default
  entry (`Scenarios.ZeroWeightFallsBack`). The region's view is empty only
  when no such record has a default entry
  (`Composer.ZeroWeightRegionIsEmpty`).
- The Corefile is compared with what a text-mode read returns, and that read
  turns every carriage return into a newline. A rendering that holds a
  carriage return, say from a location "us\r", never compares equal, so the
  Corefile is rewritten on every cycle (`Cycle.UpdateCorefileTwice`). A stored
  Corefile that differs from the rendering only by "\r\n" line endings is
  left as it is.

## Model

| member | source | states |
|---|---|---|
| Configs.MergeDomainConfigs | src/controller.py:44-57 | the merge loop returns exactly `Merged(specs)`: one entry per domain of a usable entry, with the first usable entry's nameservers and the records of all usable entries in listing order |
| Configs.MergeStep | src/controller.py:44-57 | one more entry adds its domain only if it is usable, keeps an existing domain's nameservers, and appends its records to its domain |
| Configs.SkippedEntry | src/controller.py:48-49 | an entry without a domain or without nameservers changes nothing, wherever it stands in the listing |
| Configs.MergedNameserversFromFirst | src/controller.py:51-55 | a domain's nameservers are those of its first usable entry; later entries never replace them |
| Configs.MergedHasNameservers | src/controller.py:48-55 | every merged domain has a non-empty nameserver list |
| Configs.MergedRecordsConcat | src/controller.py:56-57 | a domain's raw records are those of the first part of the listing followed by those of the rest |
| Configs.RecordsForConcat | src/controller.py:56-57 | record concatenation distributes over splitting the listing |
| Configs.RecordsForAbsent | src/controller.py:51-57 | a domain with no usable entry collects no records |
| Configs.FirstNameserversAppend | src/controller.py:51-55 | appending an entry keeps the first nameservers of a known domain and gives a new domain the entry's own |
| Configs.FirstAt | src/controller.py:51-55 | the first contributing entry fixes the nameservers |
| Configs.FirstIndex | src/controller.py:44-55 | every contributed domain has a first contributing entry |
| Configs.FirstNameserversSkip | src/controller.py:48-49 | an unusable entry does not affect which nameservers come first |
| Grouping.Tag | src/controller.py:123-125 | one probe per target, in order |
| Grouping.ScheduleProbes | src/controller.py:115-125 | the scheduling pass creates an empty entry for exactly the named records and schedules `Pending(records)`: one probe per target of each named record, in record and target order; unnamed records are skipped |
| Grouping.ScheduleTargets | src/controller.py:122-125 | the inner loop appends one probe per candidate target to the probes already scheduled |
| Grouping.ScheduleStep | src/controller.py:115-125 | record `i` adds its own probes and, if named, its name |
| Grouping.NamesAppend | src/controller.py:116-120 | an appended record adds its name as a key exactly when it has one |
| Grouping.PendingNames | src/controller.py:119-125 | every scheduled probe reports to a key of the healthy map |
| Grouping.ResolveHealthyRecords | src/controller.py:110-136 | the result is `Grouped(records, health)`: each named record's key maps to the healthy targets of all records of that name, in order, and is present even when none is healthy; this holds also when nothing was scheduled |
| Grouping.ZipOutcomes | src/controller.py:132-134 | zipping probes with their outcomes keeps the keys and gives each key the healthy targets that reported to it, in probe order |
| Grouping.ZipComplete | src/controller.py:127-136 | what the zip kept for every name is the record-by-record reference result |
| Grouping.KeptPending | src/controller.py:115-134 | zipping the flattened probes yields, per name, the healthy targets of each record of that name in record order |
| Grouping.KeptConcat | src/controller.py:132-134 | the zip distributes over splitting the probe list |
| Grouping.KeptTag | src/controller.py:123-134 | the probes of one record feed only that record's name, with exactly its healthy targets |
| Grouping.HealthyForAbsent | src/controller.py:115-120 | a name no record carries has no healthy targets |
| Grouping.HealthyForAppend | src/controller.py:115-134 | an appended record's healthy targets go after those of earlier records of the same name |
| Grouping.GroupedAppend | src/controller.py:115-134 | an appended unnamed record changes nothing; a named one adds its key even with no healthy target, and appends its healthy targets to its own name's entry only |
| Grouping.FilterHealthyMembers | src/controller.py:132-134 | a target is kept exactly when some probe of it succeeded |
| Grouping.FilterHealthyExtremes | src/controller.py:132-134 | all probes healthy keeps every target in order; all failed keeps none |
| Composer.Copies | src/controller.py:153-155 | weight `n` gives `n` copies of the target, none when `n` is at most zero |
| Composer.AppendCopies | src/controller.py:153-155 | the weight loop appends exactly `Copies(t, weight)` |
| Composer.SelectReplicated | src/controller.py:150-155 | a record's list for one view is `Replicated(ts, sel)`: each selected target repeated by its weight, in order |
| Composer.AddTargetRegions | src/controller.py:144-147 | the inner region loop adds the upper-cased location of each located target |
| Composer.TargetRegionsAppend | src/controller.py:144-147 | one more target adds its upper-cased location when it has one |
| Composer.RegionsOfAdd | src/controller.py:143-147 | one more record adds the regions of its targets |
| Composer.CollectRegions | src/controller.py:142-147 | the first pass collects exactly `Regions(healthy)`, the upper-cased locations of all healthy located targets |
| Composer.BuildDefaultView | src/controller.py:149-158 | the default view is `DefaultView(healthy)`: each record with an unlocated copy maps to its replicated unlocated targets |
| Composer.RegionTargets | src/controller.py:163-174 | one record of one region takes its own replicated targets, else its default entry, else nothing |
| Composer.BuildRegionView | src/controller.py:160-177 | a region's view is `RegionView(healthy, region)`: the records with a non-empty entry, each with that entry |
| Composer.OrganizeByRegion | src/controller.py:139-179 | the composed views are `Compose(healthy)`: "default" plus one view per region |
| Composer.ComposeComplete | src/controller.py:160-179 | a map with the composed keys, the default view and every region's view equals the composition |
| Composer.RegionsAreNotDefault | src/controller.py:147 | no upper-cased region code is "default", so no region overwrites the default view |
| Composer.ComposeKeys | src/controller.py:140-161 | the view keys are exactly "default" and the upper-cased locations of the healthy targets, and the default view is the one built from unlocated targets |
| Composer.ReplicatedConcat | src/controller.py:150-155 | replication distributes over splitting the target list |
| Composer.ReplicatedAt | src/controller.py:151-155 | a view's list is the lists of the targets before `ts[i]`, then `ts[i]` exactly `weight` times when selected, then the lists of the targets after it |
| Composer.ReplicatedMembers | src/controller.py:151-155 | a target appears in a view's list exactly when it is in the record, the view selects it, and its weight is at least one |
| Composer.DefaultViewUnlocated | src/controller.py:149-158 | the default view lists only records of the input, and a record's default list holds exactly its unlocated targets of positive weight |
| Composer.RegionOwnTargets | src/controller.py:166-177 | a region with its own targets for a record publishes exactly their replicated list |
| Composer.RegionFallback | src/controller.py:172-177 | a region without its own targets for a record publishes the default entry unchanged, and omits the record when the default view has none |
| Composer.RegionViewsNonEmpty | src/controller.py:142-177 | with every weight at least one, every region view lists some record |
| Composer.ZeroWeightRegionIsEmpty | src/controller.py:166-177 | a region whose only target has weight 0 is still a view key, holding no record |
| Text.Upper | src/controller.py:147 | upper-casing keeps the length and maps each ASCII lower-case letter to its capital |
| Text.UpperHasNoLower | src/controller.py:147 | an upper-cased code has no lower-case letter |
| Text.UpperIsNotDefault | src/controller.py:147 | no upper-cased code equals "default" |
| Text.UpperEmpty | src/controller.py:145-147 | only the empty location upper-cases to the empty string |
| Text.BelowIrreflexive | src/controller.py:235 | no string sorts before itself |
| Text.BelowTransitive | src/controller.py:235 | string order is transitive |
| Text.BelowTotal | src/controller.py:235 | of two distinct strings one sorts before the other |
| Text.Insert | src/controller.py:235 | inserting a new string into a sorted list keeps it sorted and adds exactly that string |
| Text.SortedUnique | src/controller.py:235 | two sorted lists with the same elements are equal, so sorting has one answer |
| Text.Newlines | src/controller.py:192-193 | the translation a text-mode read applies leaves no carriage return, never lengthens the text, and leaves it unchanged exactly when it has no carriage return |
| Cycle.ActiveRegions | src/controller.py:232-235 | the active regions are sorted and are exactly the view keys other than "default" |
| Cycle.ZoneFileNamesDistinct | src/controller.py:238 | within one domain, distinct views get distinct zone files |
| Cycle.ZoneFileNamesCanCollide | src/controller.py:238 | across domains, a dotted domain and a dotted view key can share a zone file |
| Cycle.TempIsNoZonePath | src/controller.py:247-248 | no temporary file has the path of a zone file |
| Cycle.CorefileIsNoZonePath | src/controller.py:16-17 | the Corefile is neither a zone file nor a temporary file |
| Cycle.ComposedViewKeys | src/controller.py:140-161 | every composed view key is "default" or free of lower-case letters |
| Cycle.ZonePathLayout | src/controller.py:238-247 | a view's zone file is named "db.", the domain, ".", the view key, and lies directly in the zone directory |
| Cycle.TempPathLayout | src/controller.py:248 | a zone file's temporary file is its path followed by ".tmp" |
| Cycle.DomainViewsKeys | src/controller.py:228-230 | a domain's views, composed from its grouped probe outcomes, are "default" with its default view plus one per region code named by a healthy target |
| Cycle.FileStore.Read | src/controller.py:190-193 | the Corefile reads as "" when absent; otherwise as its content with "\r\n" and a lone "\r" turned into "\n", so a read never returns a carriage return and returns the content unchanged exactly when it has none |
| Cycle.FileStore.Write | src/controller.py:250-251 | a write sets one file's content and logs one write |
| Cycle.FileStore.Rename | src/controller.py:252 | a rename moves the content and removes the source |
| Cycle.FileStore.UpdateCorefile | src/controller.py:190-197 | the Corefile is written exactly when the rendered content differs from what a text-mode read returns (an absent file reads as empty); otherwise nothing changes; afterwards it reads as the rendered content with its carriage returns translated |
| Cycle.FileStore.WriteZoneFile | src/controller.py:247-252 | the zone file goes straight from its old content to the new one, no temporary file remains, and the only writes are the temporary file and the rename |
| Cycle.UpdateCorefileTwice | src/controller.py:190-197 | updating with the same content twice: the second update writes again exactly when the content holds a carriage return, and only if the first wrote; the first writes only the Corefile, and only when its content differs from what is read |
| Cycle.AppendedTrans | src/controller.py:237-261 | write logs extended one after the other extend the first log by entries from the union of the allowed sets |
| Cycle.WriteZoneFiles | src/controller.py:237-256 | every view of a domain has its zone file holding the rendering of that view, and no temporary file of a view remains; every other path is untouched; the log gains only that domain's zone and temporary files |
| Cycle.ZoneFilesAdd | src/controller.py:237-252 | one more view adds its zone file and its temporary file |
| Cycle.ProcessDomain | src/controller.py:228-256 | for one domain with nameservers: sorted active regions equal to its view keys other than "default"; one rendered zone file per view and no temporary file left; nothing else touched; only those zone and temporary files logged |
| Cycle.CorefileUntouched | src/controller.py:237-252 | the zone-file loop never touches the Corefile |
| Cycle.MetaStep | src/controller.py:232-235 | recording one domain's active regions keeps the meta map valid |
| Cycle.CycleFilesAdd | src/controller.py:217-256 | one more domain adds its zone and temporary files when it has nameservers, and nothing when it is skipped |
| Cycle.CorefileNotCycleFile | src/controller.py:16-17 | the Corefile is none of the files the domain loop writes |
| Cycle.OutsideZoneDir | src/controller.py:247-248 | a path outside the zone directory, such as "/etc/hosts", is none of the files the domain loop writes |
| Cycle.ProcessDomains | src/controller.py:215-259 | the domain loop records the sorted active regions of exactly the domains with nameservers; it logs and changes no path other than those domains' zone and temporary files; for every processed domain no temporary file remains, and each of its zone files that no other processed domain also writes holds its view's rendering |
| Cycle.ProcessNext | src/controller.py:217-256 | one step of the domain loop skips a domain without nameservers and otherwise records its regions and writes its files, keeping everything the loop has achieved for earlier domains |
| Cycle.OthersStep | src/controller.py:217-256 | processing one more domain adds its zone and temporary files to those that can overwrite another domain's files, and adds nothing when it is skipped |
| Cycle.OtherDomainKept | src/controller.py:237-252 | processing a later domain removes none of an earlier domain's renderings except at paths the later domain writes itself, and leaves no temporary file behind |
| Cycle.WrittenKept | src/controller.py:237-252 | a step that changes only some paths keeps a domain's zone files and the absence of its temporary files, apart from the changed paths |
| Cycle.TempInZoneFiles | src/controller.py:247-248 | a temporary file found among another domain's files is one of that domain's temporary files, never one of its zone files |
| Cycle.SingleDomainWritten | src/controller.py:237-252 | with a single domain, every view's zone file holds its rendering and no temporary file remains |
| Cycle.CorefileLogged | src/controller.py:195-197 | after a domain loop that never logs the Corefile, the Corefile is logged in the cycle exactly when the update wrote it |
| Cycle.RunCycle | src/controller.py:211-261 | meta holds exactly the merged domains with nameservers, each with its sorted active regions; the Corefile ends reading as the rendering of meta, holds exactly that rendering when it was written, and is untouched, byte for byte, when it was not; it is reported changed, and is written in the cycle, exactly when that rendering differs from what a text-mode read of its old content returns; the log gains only the Corefile and processed domains' zone and temporary files; every other path keeps its content; every processed domain's zone files that no other domain writes hold their renderings, and no temporary file remains |
| Cycle.CorefileKeepsWritten | src/controller.py:195-197 | writing the Corefile changes no domain's zone file or temporary file |
| Cycle.ProcessedIsMerged | src/controller.py:222-226 | the no-nameservers skip never fires on merged domains, since the merge already dropped them |
| Scenarios.GroupedSingle | src/controller.py:115-134 | a single named record schedules its targets in order and keeps exactly its healthy ones |
| Scenarios.FilterExample | src/controller.py:132-134 | outcomes [true, true, false] keep A and B and drop C |
| Scenarios.ExampleGrouping | src/controller.py:110-136 | the worked record's probes are A, B, C in order, and its entry is [A, B] |
| Scenarios.ReplicatedPair | src/controller.py:150-155 | a two-target list is the first target's share followed by the second's |
| Scenarios.SharesExample | src/controller.py:151-170 | A of weight 2 gives [A, A] to the default view and nothing to "US"; B gives [B] to "US" only |
| Scenarios.RegionsExample | src/controller.py:142-147 | the only region is "US", from B's lower-case "us" |
| Scenarios.DefaultSingle | src/controller.py:149-158 | a single record with unlocated copies is the whole default view |
| Scenarios.RegionSingle | src/controller.py:160-177 | a single record with copies in a region is that region's whole view |
| Scenarios.DefaultExample | src/controller.py:149-158 | the worked default view is www = [A, A] |
| Scenarios.RegionExample | src/controller.py:160-177 | the worked "US" view is www = [B] |
| Scenarios.ExampleViews | src/controller.py:139-179 | the worked views are exactly default www = [A, A] and US www = [B]; there is no "EU" view |
| Scenarios.ZeroWeightShares | src/controller.py:151-170 | a weight-1 unlocated target and a weight-0 "us" target give [D] to the default list and nothing to "US" |
| Scenarios.FallbackSingle | src/controller.py:172-177 | a single record without copies in a region publishes its default entry there |
| Scenarios.ZeroRegions | src/controller.py:142-147 | a weight-0 target still introduces its region |
| Scenarios.ZeroWeightFallsBack | src/controller.py:160-177 | a region whose only target has weight 0 is a view key in which the record publishes its default entry |
| Scenarios.NewlinesExample | src/controller.py:192-193 | "us\r" reads back as "us\n" and "a\r\nb" as "a\nb" |

## Left out

- Health probes: the TCP and HTTP probing and its timeout are left out, and so is the concurrent gathering of results. Their outcomes are a parameter, one boolean per scheduled probe, in scheduling order.
- The Kubernetes listing call is left out. Its entries arrive as a sequence, and a failed listing (an empty map) is not modelled.
- Template rendering of zone files and of the Corefile is a function parameter. The GeoIP options it receives are not modelled.
- Real file I/O is left out. Files are an in-memory map of text, and the creation of the zone directory is not modelled.
- Cycle.FileStore.Read: of the text-mode read, only the newline translation is modelled; decoding bytes in the locale's encoding is not. Writes are modelled as on POSIX, where a text-mode write stores every character as given.
- The zone serial comes from the clock. It is a parameter.
- The endless loop, the sleep between cycles and logging are left out. So is `main.py`.
- Exceptions are not modelled. The model has no failure isolation per zone file, per domain or per cycle, and no partial state after an exception.
- Text.Upper: upper-casing is ASCII only. Python also upper-cases non-ASCII letters.
- A location given explicitly as null is treated like a missing one. The code does the same when the domain has no region at all. When the domain has some region named by a healthy target, the region loop upper-cases the location of every healthy target and raises an error on a null one, which aborts that domain. A null-location target that failed its probe never reaches that loop.
- Records and targets are well-formed entries, with `""` for a missing name or location and `[]` for missing targets. A non-list `records` or `targets` value is not modelled.
- Dictionary iteration order is not modelled. Results are maps, and the loops over map keys choose keys in any order.
- Cycle.ProcessDomains and Cycle.RunCycle: a zone file that two processed domains both write, which happens when their names collide (`Cycle.ZoneFileNamesCanCollide`), has its content left unstated. It ends with the rendering of whichever domain came last, and domain order is not modelled. Every other zone file's content is stated.
