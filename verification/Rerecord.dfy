/**
  Re-recording the baseline (unix/conformance/src/merge.rs) and the gate that holds a run
  against it (unix/conformance/src/diff.rs). The gate's report text is left out, and with
  it the failure totals it prints.
*/
module Rerecord {
  import opened Conformance
  import opened Text
  import opened Wrappers

  type Run = map<Key, SubtestResult>

  datatype Classification = Real | Caps | Expected | Crash | Flaky | Ceiling | Untriaged
  datatype Summary = Summary(carried: nat, newSites: seq<Site>, droppedSites: seq<Site>, skippedSites: seq<Site>)

  // `skipped_reason`: a skip excuses an assertion only when it did not fail and nothing crashed.
  predicate Skipped(r: SubtestResult, site: Site) {
    !r.crash && site !in r.sites && site in r.skipped
  }

  // ----------------------------------------------------- what a merge records

  function SitesOf(b: Baseline, key: Key): map<Site, U32> {
    if key in b.entries then b.entries[key].sites else map[]
  }

  // The prior counts a skip keeps.
  function Kept(prior: map<Site, U32>, r: SubtestResult): map<Site, U32> {
    map site | site in prior && Skipped(r, site) :: prior[site]
  }

  function Retained(prior: Baseline, key: Key, r: SubtestResult): map<Site, U32> {
    Kept(SitesOf(prior, key), r)
  }

  function Recorded(prior: Baseline, key: Key, r: SubtestResult): SubtestBaseline {
    SubtestBaseline(r.crash, r.sites + Retained(prior, key, r))
  }

  // Keys a merge leaves: the run's, and every other leg's.
  predicate Survives(prior: Baseline, leg: Leg, run: Run, key: Key) {
    key in run || (key in prior.entries && key.leg != leg)
  }

  function Merged(prior: Baseline, leg: Leg, run: Run, version: Option<string>): Baseline {
    Baseline(if version.Some? then version.value else prior.wineVersion,
             map key | key in run.Keys + prior.entries.Keys && Survives(prior, leg, run, key)
             :: if key in run then Recorded(prior, key, run[key]) else prior.entries[key])
  }

  // What becomes of the sites of one key.
  function CarriedAt(prior: Baseline, run: Run, key: Key): set<Site> {
    if key in run then run[key].sites.Keys * SitesOf(prior, key).Keys else {}
  }

  function NewAt(prior: Baseline, run: Run, key: Key): set<Site> {
    if key in run then run[key].sites.Keys - SitesOf(prior, key).Keys else {}
  }

  function SkippedAt(prior: Baseline, run: Run, key: Key): set<Site> {
    if key in run then Retained(prior, key, run[key]).Keys else {}
  }

  function DroppedAt(prior: Baseline, run: Run, key: Key): set<Site> {
    if key in run then SitesOf(prior, key).Keys - Recorded(prior, key, run[key]).sites.Keys else {}
  }

  // One list over `keys`, key by key and each key's sites in order.
  ghost function Listed(keys: seq<Key>, at: Key -> set<Site>): seq<Site> {
    if keys == [] then [] else Listed(keys[..|keys| - 1], at) + Sorted(at(keys[|keys| - 1]))
  }

  ghost function Counted(keys: seq<Key>, at: Key -> set<Site>): nat {
    if keys == [] then 0 else Counted(keys[..|keys| - 1], at) + |at(keys[|keys| - 1])|
  }

  lemma ListedNext(keys: seq<Key>, key: Key, at: Key -> set<Site>)
    ensures Listed(keys + [key], at) == Listed(keys, at) + Sorted(at(key))
    ensures Counted(keys + [key], at) == Counted(keys, at) + |at(key)|
  {
    assert (keys + [key])[..|keys|] == keys;
  }

  ghost function Carried(prior: Baseline, run: Run): Key -> set<Site> {
    key => CarriedAt(prior, run, key)
  }

  ghost function News(prior: Baseline, run: Run): Key -> set<Site> {
    key => NewAt(prior, run, key)
  }

  ghost function Drops(prior: Baseline, run: Run): Key -> set<Site> {
    key => DroppedAt(prior, run, key)
  }

  ghost function Skips(prior: Baseline, run: Run): Key -> set<Site> {
    key => SkippedAt(prior, run, key)
  }

  // `Vec::dedup`: neighbours only.
  function Dedup(s: seq<Site>): seq<Site> {
    if |s| < 2 then s
    else if s[|s| - 2] == s[|s| - 1] then Dedup(s[..|s| - 1])
    else Dedup(s[..|s| - 1]) + [s[|s| - 1]]
  }

  // The running summary over the keys visited, before neighbours are merged.
  ghost predicate Lists(summary: Summary, keys: seq<Key>, prior: Baseline, run: Run) {
    summary.carried == Counted(keys, Carried(prior, run))
    && summary.newSites == Listed(keys, News(prior, run))
    && summary.droppedSites == Listed(keys, Drops(prior, run))
    && summary.skippedSites == Listed(keys, Skips(prior, run))
  }

  ghost predicate Summarizes(summary: Summary, keys: seq<Key>, prior: Baseline, run: Run) {
    summary.carried == Counted(keys, Carried(prior, run))
    && summary.newSites == Dedup(Listed(keys, News(prior, run)))
    && summary.droppedSites == Dedup(Listed(keys, Drops(prior, run)))
    && summary.skippedSites == Dedup(Listed(keys, Skips(prior, run)))
  }

  // A list names exactly the sites some key has.
  lemma {:induction false} ListedHolds(keys: seq<Key>, at: Key -> set<Site>, site: Site)
    ensures site in Listed(keys, at) <==> exists key :: key in keys && site in at(key)
  {
    if keys != [] {
      var last := |keys| - 1;
      ListedHolds(keys[..last], at, site);
      assert keys == keys[..last] + [keys[last]];
    }
  }

  lemma {:induction false} DedupKeeps(s: seq<Site>)
    ensures forall site :: site in Dedup(s) <==> site in s
    ensures forall i :: 0 < i < |Dedup(s)| ==> Dedup(s)[i - 1] != Dedup(s)[i]
    ensures s != [] ==> Dedup(s) != [] && Dedup(s)[|Dedup(s)| - 1] == s[|s| - 1]
  {
    if |s| >= 2 {
      var front := s[..|s| - 1];
      DedupKeeps(front);
      assert s == front + [s[|s| - 1]];
    }
  }

  // The summary names a site as new (dropped, skipped) exactly when it is so under some key.
  lemma SummaryNames(keys: seq<Key>, at: Key -> set<Site>, site: Site)
    requires forall key :: key in keys
    ensures site in Dedup(Listed(keys, at)) <==> exists key :: site in at(key)
  {
    DedupKeeps(Listed(keys, at));
    ListedHolds(keys, at, site);
  }

  // ------------------------------------------------------------------ merging

  // Iterating over `rest` meets the wanted sites in their own order.
  lemma NextWanted(rest: set<Site>, wanted: set<Site>)
    requires rest != {}
    ensures var site := Least(rest);
            if site in wanted then Sorted(rest * wanted) == [site] + Sorted((rest - {site}) * wanted)
            else rest * wanted == (rest - {site}) * wanted
  {
    var site := Least(rest);
    if site in wanted {
      assert site in rest * wanted;
      LeastIsUnique(site, Least(rest * wanted), rest * wanted);
      assert rest * wanted - {site} == (rest - {site}) * wanted;
    }
  }

  lemma NextCounted(rest: set<Site>, wanted: set<Site>, site: Site)
    requires site in rest
    ensures |rest * wanted| == (if site in wanted then 1 else 0) + |(rest - {site}) * wanted|
  {
    if site in wanted {
      assert rest * wanted == {site} + (rest - {site}) * wanted;
    } else {
      assert rest * wanted == (rest - {site}) * wanted;
    }
  }

  // Which of the run's sites the prior baseline already had.
  method CompareSites(prior: set<Site>, sites: set<Site>) returns (carried: nat, added: seq<Site>)
    ensures carried == |sites * prior| && added == Sorted(sites - prior)
  {
    carried, added := 0, [];
    var rest := sites;
    ghost var wanted := sites - prior;
    assert sites * wanted == wanted;
    while rest != {}
      invariant rest <= sites
      invariant carried + |rest * prior| == |sites * prior|
      invariant added + Sorted(rest * wanted) == Sorted(wanted)
    {
      var site := Least(rest);
      NextWanted(rest, wanted);
      NextCounted(rest, prior, site);
      if site in prior {
        carried := carried + 1;
      } else {
        Push(added, site, Sorted((rest - {site}) * wanted));
        added := added + [site];
      }
      rest := rest - {site};
    }
    assert rest * prior == {} && rest * wanted == {};
  }

  lemma Push(front: seq<Site>, site: Site, back: seq<Site>)
    ensures front + ([site] + back) == (front + [site]) + back
  {
  }

  lemma RetainNext(sites: map<Site, U32>, retained: map<Site, U32>, rest: set<Site>, site: Site)
    requires site in rest && sites.Keys !! retained.Keys
    ensures sites + (retained - (rest - {site})) == if site in retained then (sites + (retained - rest))[site := retained[site]]
                                                    else sites + (retained - rest)
  {
  }

  // Keep the prior count of every site the run skipped.
  method RetainSkipped(prior: map<Site, U32>, r: SubtestResult) returns (sites: map<Site, U32>, skipped: seq<Site>)
    ensures sites == r.sites + Kept(prior, r) && skipped == Sorted(Kept(prior, r).Keys)
  {
    sites, skipped := RetainLoop(prior, r, Kept(prior, r));
  }

  ghost predicate IsKept(prior: map<Site, U32>, r: SubtestResult, kept: map<Site, U32>) {
    (forall site :: site in kept <==> site in prior && Skipped(r, site))
    && forall site :: site in kept ==> kept[site] == prior[site]
  }

  // With `rest` still to visit, the kept sites outside it have been taken.
  ghost predicate Retaining(r: SubtestResult, kept: map<Site, U32>, rest: set<Site>,
                            sites: map<Site, U32>, skipped: seq<Site>) {
    sites == r.sites + (kept - rest) && skipped + Sorted(rest * kept.Keys) == Sorted(kept.Keys)
  }

  lemma RetainingStarts(prior: map<Site, U32>, r: SubtestResult, kept: map<Site, U32>)
    requires IsKept(prior, r, kept)
    ensures Retaining(r, kept, prior.Keys, r.sites, [])
  {
    assert prior.Keys * kept.Keys == kept.Keys;
  }

  lemma RetainingEnds(r: SubtestResult, kept: map<Site, U32>, sites: map<Site, U32>, skipped: seq<Site>)
    requires Retaining(r, kept, {}, sites, skipped)
    ensures sites == r.sites + kept && skipped == Sorted(kept.Keys)
  {
    assert {} * kept.Keys == {} && kept - {} == kept;
  }

  method RetainLoop(prior: map<Site, U32>, r: SubtestResult, ghost kept: map<Site, U32>)
    returns (sites: map<Site, U32>, skipped: seq<Site>)
    requires IsKept(prior, r, kept)
    ensures sites == r.sites + kept && skipped == Sorted(kept.Keys)
  {
    sites, skipped := r.sites, [];
    var rest := prior.Keys;
    RetainingStarts(prior, r, kept);
    while rest != {}
      invariant rest <= prior.Keys && Retaining(r, kept, rest, sites, skipped)
    {
      var site := Least(rest);
      sites, skipped := RetainSite(prior, r, kept, rest, sites, skipped);
      rest := rest - {site};
    }
    RetainingEnds(r, kept, sites, skipped);
  }

  method RetainSite(prior: map<Site, U32>, r: SubtestResult, ghost kept: map<Site, U32>, rest: set<Site>,
                    sites: map<Site, U32>, skipped: seq<Site>)
    returns (sites': map<Site, U32>, skipped': seq<Site>)
    requires IsKept(prior, r, kept) && rest != {} && rest <= prior.Keys
    requires Retaining(r, kept, rest, sites, skipped)
    ensures Retaining(r, kept, rest - {Least(rest)}, sites', skipped')
  {
    var site := Least(rest);
    NextWanted(rest, kept.Keys);
    RetainNext(r.sites, kept, rest, site);
    sites', skipped' := sites, skipped;
    if Skipped(r, site) {
      Push(skipped, site, Sorted((rest - {site}) * kept.Keys));
      sites' := sites[site := prior[site]];
      skipped' := skipped + [site];
    }
  }

  // The prior sites that are gone from what is recorded now.
  method DropSites(prior: set<Site>, sites: set<Site>) returns (dropped: seq<Site>)
    ensures dropped == Sorted(prior - sites)
  {
    dropped := [];
    var rest := prior;
    ghost var wanted := prior - sites;
    assert prior * wanted == wanted;
    while rest != {}
      invariant rest <= prior
      invariant dropped + Sorted(rest * wanted) == Sorted(wanted)
    {
      var site := Least(rest);
      NextWanted(rest, wanted);
      if site !in sites {
        Push(dropped, site, Sorted((rest - {site}) * wanted));
        dropped := dropped + [site];
      }
      rest := rest - {site};
    }
    assert rest * wanted == {};
  }

  method MergeResult(prior: Baseline, key: Key, run: Run)
    returns (sub: SubtestBaseline, carried: nat, added: seq<Site>, dropped: seq<Site>, skipped: seq<Site>)
    requires key in run
    ensures sub == Recorded(prior, key, run[key])
    ensures carried == |CarriedAt(prior, run, key)| && added == Sorted(NewAt(prior, run, key))
    ensures dropped == Sorted(DroppedAt(prior, run, key)) && skipped == Sorted(SkippedAt(prior, run, key))
  {
    carried, added := CompareSites(SitesOf(prior, key).Keys, run[key].sites.Keys);
    var sites;
    sites, dropped, skipped := MergePrior(prior, key, run[key]);
    sub := SubtestBaseline(run[key].crash, sites);
  }

  lemma NoPrior(prior: Baseline, key: Key, r: SubtestResult)
    requires key !in prior.entries
    ensures Recorded(prior, key, r).sites == r.sites
    ensures Sorted(SitesOf(prior, key).Keys - r.sites.Keys) == [] && Sorted(Retained(prior, key, r).Keys) == []
  {
    assert SitesOf(prior, key).Keys - r.sites.Keys == {};
    assert Retained(prior, key, r) == map[];
  }

  method MergePrior(prior: Baseline, key: Key, r: SubtestResult)
    returns (sites: map<Site, U32>, dropped: seq<Site>, skipped: seq<Site>)
    ensures sites == Recorded(prior, key, r).sites
    ensures dropped == Sorted(SitesOf(prior, key).Keys - sites.Keys)
    ensures skipped == Sorted(Retained(prior, key, r).Keys)
  {
    sites, dropped, skipped := r.sites, [], [];
    if key in prior.entries {
      sites, skipped := RetainSkipped(prior.entries[key].sites, r);
      dropped := DropSites(prior.entries[key].sites.Keys, sites.Keys);
    } else {
      NoPrior(prior, key, r);
    }
  }

  // One pass of the loop over the run's keys; a key the run did not measure changes nothing.
  method MergeKey(prior: Baseline, key: Key, run: Run, so: Summary, ghost visited: seq<Key>)
    returns (sub: SubtestBaseline, summary: Summary)
    requires Lists(so, visited, prior, run)
    ensures key in run ==> sub == Recorded(prior, key, run[key])
    ensures Lists(summary, visited + [key], prior, run)
  {
    ListedNext(visited, key, Carried(prior, run));
    ListedNext(visited, key, News(prior, run));
    ListedNext(visited, key, Drops(prior, run));
    ListedNext(visited, key, Skips(prior, run));
    if key !in run {
      return SubtestBaseline(false, map[]), so;
    }
    var carried, added, dropped, skipped;
    sub, carried, added, dropped, skipped := MergeResult(prior, key, run);
    summary := Summary(so.carried + carried, so.newSites + added, so.droppedSites + dropped, so.skippedSites + skipped);
  }

  /**
    `merge`: the run's entries replace the leg's, a skip keeps the prior count, every other
    leg is untouched; and the summary lists what was new, dropped and skipped, in iteration
    order with equal neighbours merged.
  */
  method Merge(prior: Baseline, leg: Leg, run: Run, version: Option<string>)
    returns (next: Baseline, summary: Summary)
    ensures next == Merged(prior, leg, run, version)
    ensures Summarizes(summary, KeysInOrder(), prior, run)
  {
    next, summary := MergeKeys(KeysInOrder(), prior, leg, run, version);
  }

  // Entries of the keys visited so far.
  ghost predicate MergedSoFar(entries: map<Key, SubtestBaseline>, visited: seq<Key>, prior: Baseline, leg: Leg, run: Run) {
    (forall key :: key in entries <==> (key in run && key in visited) || (key in prior.entries && key.leg != leg))
    && forall key :: key in entries ==>
                       entries[key] == if key in run && key in visited then Recorded(prior, key, run[key])
                                       else prior.entries[key]
  }

  lemma MergesNext(entries: map<Key, SubtestBaseline>, visited: seq<Key>, key: Key, prior: Baseline, leg: Leg, run: Run)
    requires MergedSoFar(entries, visited, prior, leg, run)
    ensures MergedSoFar(if key in run then entries[key := Recorded(prior, key, run[key])] else entries,
                        visited + [key], prior, leg, run)
  {
    assert forall other :: other in visited + [key] <==> other in visited || other == key;
  }

  lemma MergedWhole(entries: map<Key, SubtestBaseline>, visited: seq<Key>, prior: Baseline, leg: Leg, run: Run,
                    version: Option<string>)
    requires MergedSoFar(entries, visited, prior, leg, run) && forall key :: key in visited
    ensures entries == Merged(prior, leg, run, version).entries
  {
  }

  method MergeKeys(keys: seq<Key>, prior: Baseline, leg: Leg, run: Run, version: Option<string>)
    returns (next: Baseline, summary: Summary)
    requires forall key :: key in keys
    ensures next == Merged(prior, leg, run, version)
    ensures Summarizes(summary, keys, prior, run)
  {
    var entries := map key | key in prior.entries && key.leg != leg :: prior.entries[key];
    summary := Summary(0, [], [], []);
    for i := 0 to |keys|
      invariant MergedSoFar(entries, keys[..i], prior, leg, run)
      invariant Lists(summary, keys[..i], prior, run)
    {
      assert keys[..i + 1] == keys[..i] + [keys[i]];
      MergesNext(entries, keys[..i], keys[i], prior, leg, run);
      var sub;
      sub, summary := MergeKey(prior, keys[i], run, summary, keys[..i]);
      if keys[i] in run {
        entries := entries[keys[i] := sub];
      }
    }
    assert keys[..|keys|] == keys;
    MergedWhole(entries, keys, prior, leg, run, version);
    next := Baseline(if version.Some? then version.value else prior.wineVersion, entries);
    summary := Summary(summary.carried, Dedup(summary.newSites), Dedup(summary.droppedSites), Dedup(summary.skippedSites));
  }

  // ----------------------------------------------------------------- the gate

  function Count(sites: map<Site, U32>, site: Site): nat {
    if site in sites then sites[site] else 0
  }

  // A class pins only sites the baseline already has.
  predicate Pinned(b: Baseline, classes: map<Site, Classification>, key: Key, site: Site, pin: Classification) {
    site in SitesOf(b, key) && site in classes && classes[site] == pin
  }

  predicate Up(b: Baseline, classes: map<Site, Classification>, current: Run, key: Key, site: Site) {
    key in current && !Skipped(current[key], site)
    && Count(current[key].sites, site) > Count(SitesOf(b, key), site)
    && !Pinned(b, classes, key, site, Flaky)
  }

  predicate Down(b: Baseline, classes: map<Site, Classification>, current: Run, key: Key, site: Site) {
    key in current && !Skipped(current[key], site)
    && Count(current[key].sites, site) < Count(SitesOf(b, key), site)
    && !Pinned(b, classes, key, site, Flaky) && !Pinned(b, classes, key, site, Ceiling)
  }

  predicate CrashOf(b: Baseline, key: Key) {
    key in b.entries && b.entries[key].crash
  }

  ghost predicate RegressedAt(b: Baseline, classes: map<Site, Classification>, current: Run, key: Key) {
    (exists site :: Up(b, classes, current, key, site)) || (key in current && current[key].crash && !CrashOf(b, key))
  }

  ghost predicate StaleAt(b: Baseline, classes: map<Site, Classification>, current: Run, key: Key) {
    (exists site :: Down(b, classes, current, key, site)) || (key in current && !current[key].crash && CrashOf(b, key))
  }

  ghost predicate Regressed(b: Baseline, classes: map<Site, Classification>, current: Run) {
    exists key :: RegressedAt(b, classes, current, key)
  }

  ghost predicate Stale(b: Baseline, classes: map<Site, Classification>, current: Run) {
    exists key :: StaleAt(b, classes, current, key)
  }

  method DiffSite(b: Baseline, classes: map<Site, Classification>, current: Run, key: Key, site: Site)
    returns (up: bool, down: bool)
    requires key in current
    ensures up <==> Up(b, classes, current, key, site)
    ensures down <==> Down(b, classes, current, key, site)
  {
    var base, cur := SitesOf(b, key), current[key];
    up, down := false, false;
    if Skipped(cur, site) {
      return;
    }
    var flaky := site in base && site in classes && classes[site] == Flaky;
    var ceiling := site in base && site in classes && classes[site] == Ceiling;
    var bc, cc := Count(base, site), Count(cur.sites, site);
    if cc > bc {
      up := !flaky;
    } else if cc < bc {
      down := !flaky && !ceiling;
    }
  }

  method DiffSubtest(b: Baseline, classes: map<Site, Classification>, current: Run, key: Key)
    returns (regressed: bool, stale: bool)
    requires key in current
    ensures regressed <==> RegressedAt(b, classes, current, key)
    ensures stale <==> StaleAt(b, classes, current, key)
  {
    var rest := SitesOf(b, key).Keys + current[key].sites.Keys;
    regressed, stale := false, false;
    ghost var done: set<Site> := {};
    while rest != {}
      invariant SitesOf(b, key).Keys + current[key].sites.Keys == rest + done
      invariant regressed <==> exists site :: site in done && Up(b, classes, current, key, site)
      invariant stale <==> exists site :: site in done && Down(b, classes, current, key, site)
    {
      var site := Least(rest);
      var up, down := DiffSite(b, classes, current, key, site);
      regressed, stale := regressed || up, stale || down;
      done := done + {site};
      rest := rest - {site};
    }
    forall site | Up(b, classes, current, key, site) || Down(b, classes, current, key, site) ensures site in done {
    }
    if current[key].crash && !CrashOf(b, key) {
      regressed := true;
    } else if !current[key].crash && CrashOf(b, key) {
      stale := true;
    }
  }

  method Diff(b: Baseline, classes: map<Site, Classification>, current: Run) returns (regressed: bool, stale: bool)
    ensures regressed <==> Regressed(b, classes, current)
    ensures stale <==> Stale(b, classes, current)
  {
    regressed, stale := DiffKeys(KeysInOrder(), b, classes, current);
  }

  method DiffKeys(keys: seq<Key>, b: Baseline, classes: map<Site, Classification>, current: Run)
    returns (regressed: bool, stale: bool)
    requires forall key :: key in keys
    ensures regressed <==> Regressed(b, classes, current)
    ensures stale <==> Stale(b, classes, current)
  {
    regressed, stale := false, false;
    for i := 0 to |keys|
      invariant regressed <==> exists k :: 0 <= k < i && RegressedAt(b, classes, current, keys[k])
      invariant stale <==> exists k :: 0 <= k < i && StaleAt(b, classes, current, keys[k])
    {
      if keys[i] in current {
        var up, down := DiffSubtest(b, classes, current, keys[i]);
        regressed, stale := regressed || up, stale || down;
      }
    }
    if Regressed(b, classes, current) {
      var key :| RegressedAt(b, classes, current, key);
      assert key in keys;
    }
    if Stale(b, classes, current) {
      var key :| StaleAt(b, classes, current, key);
      assert key in keys;
    }
  }

  // -------------------------------------------------------------- the algebra

  // A run held against the baseline just recorded from it is clean, whatever was
  // classified and whatever was skipped.
  lemma RecordedRunIsClean(prior: Baseline, leg: Leg, run: Run, version: Option<string>,
                           classes: map<Site, Classification>)
    ensures !Regressed(Merged(prior, leg, run, version), classes, run)
    ensures !Stale(Merged(prior, leg, run, version), classes, run)
  {
    var next := Merged(prior, leg, run, version);
    forall key ensures !RegressedAt(next, classes, run, key) && !StaleAt(next, classes, run, key) {
      if key in run {
        assert next.entries[key] == Recorded(prior, key, run[key]);
        forall site | !Skipped(run[key], site)
          ensures Count(run[key].sites, site) == Count(SitesOf(next, key), site)
        {
        }
      }
    }
  }

  lemma MergeIsIdempotent(prior: Baseline, leg: Leg, run: Run, version: Option<string>)
    ensures Merged(Merged(prior, leg, run, version), leg, run, version) == Merged(prior, leg, run, version)
  {
    var once := Merged(prior, leg, run, version);
    var twice := Merged(once, leg, run, version);
    forall key | key in run ensures Recorded(once, key, run[key]) == Recorded(prior, key, run[key]) {
      RetainsOnce(prior, once, key, run[key]);
    }
    assert once.entries.Keys == twice.entries.Keys;
  }

  lemma RetainsOnce(prior: Baseline, once: Baseline, key: Key, r: SubtestResult)
    requires key in once.entries && once.entries[key] == Recorded(prior, key, r)
    ensures Retained(once, key, r) == Retained(prior, key, r)
  {
  }

  // The second merge finds nothing new and nothing gone.
  lemma SecondMergeReportsNothing(prior: Baseline, leg: Leg, run: Run, version: Option<string>, key: Key)
    ensures var once := Merged(prior, leg, run, version);
            NewAt(once, run, key) == {} && DroppedAt(once, run, key) == {}
            && SkippedAt(once, run, key) == SkippedAt(prior, run, key)
            && CarriedAt(once, run, key) == CarriedAt(prior, run, key) + NewAt(prior, run, key)
  {
    var once := Merged(prior, leg, run, version);
    if key in run {
      assert once.entries[key] == Recorded(prior, key, run[key]);
      RetainsOnce(prior, once, key, run[key]);
    }
  }

  predicate OnlyLeg(r: Run, leg: Leg) {
    forall key :: key in r ==> key.leg == leg
  }

  predicate SameAt(x: Baseline, y: Baseline, key: Key) {
    (key in x.entries <==> key in y.entries) && (key in x.entries ==> x.entries[key] == y.entries[key])
  }

  lemma SameEverywhere(x: Baseline, y: Baseline)
    requires forall key :: SameAt(x, y, key)
    ensures x.entries == y.entries
  {
    forall key ensures key in x.entries <==> key in y.entries {
      assert SameAt(x, y, key);
    }
    forall key | key in x.entries ensures x.entries[key] == y.entries[key] {
      assert SameAt(x, y, key);
    }
  }

  // Another leg's entries survive a merge, and none appear.
  lemma MergeElsewhere(prior: Baseline, leg: Leg, run: Run, version: Option<string>, key: Key)
    requires OnlyLeg(run, leg) && key.leg != leg
    ensures SameAt(Merged(prior, leg, run, version), prior, key)
  {
  }

  // What a merge records at a key depends on the prior baseline at that key alone.
  lemma MergeSame(x: Baseline, y: Baseline, leg: Leg, run: Run, version: Option<string>, key: Key)
    requires SameAt(x, y, key)
    ensures SameAt(Merged(x, leg, run, version), Merged(y, leg, run, version), key)
  {
    assert SitesOf(x, key) == SitesOf(y, key);
    if key in run {
      assert Recorded(x, key, run[key]) == Recorded(y, key, run[key]);
    }
  }

  // One leg's run, to be merged under that leg.
  datatype Session = Session(leg: Leg, run: Run, version: Option<string>)

  ghost predicate OneLegEach(sessions: seq<Session>) {
    && (forall i :: 0 <= i < |sessions| ==> OnlyLeg(sessions[i].run, sessions[i].leg))
    && (forall i, j :: 0 <= i < j < |sessions| ==> sessions[i].leg != sessions[j].leg)
  }

  ghost function MergedAll(prior: Baseline, sessions: seq<Session>): Baseline {
    if sessions == [] then prior
    else
      var last := sessions[|sessions| - 1];
      Merged(MergedAll(prior, sessions[..|sessions| - 1]), last.leg, last.run, last.version)
  }

  // A leg nobody re-recorded keeps its entries through any number of merges.
  lemma {:induction false} OtherLegsStay(prior: Baseline, sessions: seq<Session>, key: Key)
    requires OneLegEach(sessions)
    requires forall i :: 0 <= i < |sessions| ==> sessions[i].leg != key.leg
    ensures SameAt(MergedAll(prior, sessions), prior, key)
  {
    if sessions != [] {
      var front, last := sessions[..|sessions| - 1], sessions[|sessions| - 1];
      OtherLegsStay(prior, front, key);
      MergeElsewhere(MergedAll(prior, front), last.leg, last.run, last.version, key);
    }
  }

  // A re-recorded leg ends up as its own merge into the first baseline made it.
  lemma {:induction false} LegIsRecorded(prior: Baseline, sessions: seq<Session>, i: nat, key: Key)
    requires OneLegEach(sessions) && i < |sessions| && sessions[i].leg == key.leg
    ensures SameAt(MergedAll(prior, sessions), Merged(prior, key.leg, sessions[i].run, sessions[i].version), key)
  {
    var front, last := sessions[..|sessions| - 1], sessions[|sessions| - 1];
    if i == |front| {
      OtherLegsStay(prior, front, key);
      MergeSame(MergedAll(prior, front), prior, last.leg, last.run, last.version, key);
    } else {
      LegIsRecorded(prior, front, i, key);
      MergeElsewhere(MergedAll(prior, front), last.leg, last.run, last.version, key);
    }
  }

  // The header after any merges is the last version a session could tell, or the first baseline's.
  lemma {:induction false} HeaderIsTheLastTold(prior: Baseline, sessions: seq<Session>)
    ensures
      var header := MergedAll(prior, sessions).wineVersion;
      || (header == prior.wineVersion && forall i :: 0 <= i < |sessions| ==> sessions[i].version.None?)
      || exists i :: LastTold(sessions, i, header)
  {
    if sessions != [] {
      var n := |sessions| - 1;
      HeaderIsTheLastTold(prior, sessions[..n]);
      var header := MergedAll(prior, sessions[..n]).wineVersion;
      if sessions[n].version.Some? {
        assert LastTold(sessions, n, sessions[n].version.value);
      } else if i :| LastTold(sessions[..n], i, header) {
        assert LastTold(sessions, i, header);
      }
    }
  }

  predicate LastTold(sessions: seq<Session>, i: int, version: string) {
    0 <= i < |sessions| && sessions[i].version == Some(version)
    && forall j :: i < j < |sessions| ==> sessions[j].version.None?
  }

  // Re-recording any legs, each once, gives the same entries in every order.
  lemma OrderOfLegsIsFree(prior: Baseline, a: seq<Session>, b: seq<Session>)
    requires OneLegEach(a) && OneLegEach(b) && multiset(a) == multiset(b)
    ensures MergedAll(prior, a).entries == MergedAll(prior, b).entries
  {
    forall key ensures SameAt(MergedAll(prior, a), MergedAll(prior, b), key) {
      OrderIsFreeAt(prior, a, b, key);
    }
    SameEverywhere(MergedAll(prior, a), MergedAll(prior, b));
  }

  lemma OrderIsFreeAt(prior: Baseline, a: seq<Session>, b: seq<Session>, key: Key)
    requires OneLegEach(a) && OneLegEach(b) && multiset(a) == multiset(b)
    ensures SameAt(MergedAll(prior, a), MergedAll(prior, b), key)
  {
    if i :| 0 <= i < |a| && a[i].leg == key.leg {
      assert a[i] in multiset(b);
      var j :| 0 <= j < |b| && b[j] == a[i];
      LegIsRecorded(prior, a, i, key);
      LegIsRecorded(prior, b, j, key);
    } else {
      forall j | 0 <= j < |b|
        ensures b[j].leg != key.leg
      {
        assert b[j] in multiset(a);
      }
      OtherLegsStay(prior, a, key);
      OtherLegsStay(prior, b, key);
    }
  }

  // A crash excuses nothing: after it the record holds what the run counted and no prior count.
  lemma CrashedRunRetainsNothing(prior: Baseline, leg: Leg, run: Run, version: Option<string>, key: Key)
    requires key in run && run[key].crash
    ensures
      var next := Merged(prior, leg, run, version);
      key in next.entries && next.entries[key].crash && next.entries[key].sites == run[key].sites
      && SkippedAt(prior, run, key) == {} && DroppedAt(prior, run, key) == SitesOf(prior, key).Keys - run[key].sites.Keys
  {
    assert Retained(prior, key, run[key]) == map[];
    assert run[key].sites + map[] == run[key].sites;
  }

  // A completed run keeps the prior count of a site it skipped and did not see fail, and of no other.
  lemma SkipRetainsThePriorCount(prior: Baseline, leg: Leg, run: Run, version: Option<string>, key: Key, site: Site)
    requires key in run && !run[key].crash && site !in run[key].sites
    ensures
      var next := Merged(prior, leg, run, version);
      key in next.entries && !next.entries[key].crash
      && (site in next.entries[key].sites <==> site in run[key].skipped && site in SitesOf(prior, key))
      && (site in next.entries[key].sites ==> next.entries[key].sites[site] == SitesOf(prior, key)[site])
  {
  }

  // Every site before and after a merge is accounted for once.
  lemma SitesAreAccounted(prior: Baseline, run: Run, key: Key)
    requires key in run
    ensures var carried, added := CarriedAt(prior, run, key), NewAt(prior, run, key);
            var skipped, dropped := SkippedAt(prior, run, key), DroppedAt(prior, run, key);
            SitesOf(prior, key).Keys == carried + skipped + dropped && carried !! skipped !! dropped
            && Recorded(prior, key, run[key]).sites.Keys == carried + added + skipped && carried !! added !! skipped
  {
    var r := run[key];
    var prior' := SitesOf(prior, key).Keys;
    var kept := Recorded(prior, key, r).sites.Keys;
    assert kept == r.sites.Keys + Retained(prior, key, r).Keys;
    assert forall site :: site in Retained(prior, key, r) ==> site !in r.sites && site in prior';
  }

  function Was(b: Baseline, key: Key, site: Site): nat {
    if key in b.entries && site in b.entries[key].sites then b.entries[key].sites[site] else 0
  }

  function Now(r: SubtestResult, site: Site): nat {
    if site in r.sites then r.sites[site] else 0
  }

  // A measured count the gate lets pass: the recorded one, one of a site skipped in a run that
  // completed without seeing it fail, any of a recorded site classed flaky, or a lower one of a
  // recorded site classed as a ceiling.
  predicate Passes(b: Baseline, classes: map<Site, Classification>, r: SubtestResult, key: Key, site: Site) {
    var pin := if key in b.entries && site in b.entries[key].sites && site in classes then Some(classes[site]) else None;
    || Now(r, site) == Was(b, key, site)
    || (!r.crash && site !in r.sites && site in r.skipped)
    || pin == Some(Flaky)
    || (pin == Some(Ceiling) && Now(r, site) < Was(b, key, site))
  }

  // Nothing measured under this key is worse than recorded, but for what passes.
  ghost predicate NoWorse(b: Baseline, classes: map<Site, Classification>, r: SubtestResult, key: Key) {
    && (r.crash ==> key in b.entries && b.entries[key].crash)
    && forall site :: Passes(b, classes, r, key, site) || Now(r, site) < Was(b, key, site)
  }

  ghost predicate NoBetter(b: Baseline, classes: map<Site, Classification>, r: SubtestResult, key: Key) {
    && (key in b.entries && b.entries[key].crash ==> r.crash)
    && forall site :: Passes(b, classes, r, key, site) || Now(r, site) > Was(b, key, site)
  }

  /**
    The gate as a whole, tolerances and skips included: it is not regressed exactly when no
    measured subtest is worse than recorded, and not stale exactly when none is better.
  */
  lemma GateTolerates(b: Baseline, classes: map<Site, Classification>, run: Run)
    ensures !Regressed(b, classes, run) <==> forall key :: key in run ==> NoWorse(b, classes, run[key], key)
    ensures !Stale(b, classes, run) <==> forall key :: key in run ==> NoBetter(b, classes, run[key], key)
  {
    forall key | key in run
      ensures RegressedAt(b, classes, run, key) <==> !NoWorse(b, classes, run[key], key)
      ensures StaleAt(b, classes, run, key) <==> !NoBetter(b, classes, run[key], key)
    {
      GateToleratesAt(b, classes, run, key);
    }
    assert forall key :: key !in run ==> !RegressedAt(b, classes, run, key) && !StaleAt(b, classes, run, key);
  }

  lemma GateToleratesAt(b: Baseline, classes: map<Site, Classification>, run: Run, key: Key)
    requires key in run
    ensures RegressedAt(b, classes, run, key) <==> !NoWorse(b, classes, run[key], key)
    ensures StaleAt(b, classes, run, key) <==> !NoBetter(b, classes, run[key], key)
  {
    forall site
      ensures Up(b, classes, run, key, site)
              <==> !Passes(b, classes, run[key], key, site) && !(Now(run[key], site) < Was(b, key, site))
      ensures Down(b, classes, run, key, site)
              <==> !Passes(b, classes, run[key], key, site) && !(Now(run[key], site) > Was(b, key, site))
    {
    }
  }

  // Without tolerances and skips the gate is exact: it passes precisely the runs whose
  // crash bits and counts are the recorded ones.
  lemma GateIsExact(b: Baseline, classes: map<Site, Classification>, current: Run)
    requires forall site :: site in classes ==> classes[site] != Flaky && classes[site] != Ceiling
    requires forall key :: key in current ==> current[key].skipped == map[]
    ensures !Regressed(b, classes, current) && !Stale(b, classes, current)
            <==> forall key :: key in current ==>
                   current[key].crash == CrashOf(b, key)
                   && forall site :: Count(current[key].sites, site) == Count(SitesOf(b, key), site)
  {
    forall key | key in current
      ensures RegressedAt(b, classes, current, key) || StaleAt(b, classes, current, key)
              <==> !(current[key].crash == CrashOf(b, key)
                     && forall site :: Count(current[key].sites, site) == Count(SitesOf(b, key), site))
    {
      GateIsExactAt(b, classes, current, key);
    }
  }

  lemma GateIsExactAt(b: Baseline, classes: map<Site, Classification>, current: Run, key: Key)
    requires key in current && current[key].skipped == map[]
    requires forall site :: site in classes ==> classes[site] != Flaky && classes[site] != Ceiling
    ensures RegressedAt(b, classes, current, key) || StaleAt(b, classes, current, key)
            <==> !(current[key].crash == CrashOf(b, key)
                   && forall site :: Count(current[key].sites, site) == Count(SitesOf(b, key), site))
  {
    forall site
      ensures Up(b, classes, current, key, site) || Down(b, classes, current, key, site)
              <==> Count(current[key].sites, site) != Count(SitesOf(b, key), site)
    {
    }
  }
}
