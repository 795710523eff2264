/**
  The conformance baseline's data model (unix/conformance/src/model.rs): what a run
  measured, what is recorded of it, and the two orders the recorded maps iterate in.
  Fields of a result that no decision reads (a panic's text, the upstream flaky and todo
  markers) are left out; an assertion's skip line is kept as its text.
*/
module Conformance {
  import opened Text

  datatype Arch = I686 | X64 | I686Arm64 | Arm64x
  datatype Variant = Native | Intel | Scale
  datatype Gpu = Apple | Mac2
  datatype Leg = Leg(arch: Arch, variant: Variant, gpu: Gpu)
  datatype Subtest = Device | Visual | Stateblock | D3d9Ex
  datatype Key = Key(leg: Leg, subtest: Subtest)
  datatype Site = Site(file: string, line: U32)
  datatype SubtestBaseline = SubtestBaseline(crash: bool, sites: map<Site, U32>)
  datatype Baseline = Baseline(wineVersion: string, entries: map<Key, SubtestBaseline>)
  datatype SubtestResult = SubtestResult(crash: bool, sites: map<Site, U32>, skipped: map<Site, string>)

  // ------------------------------------------------------------ key order

  const KEYS: nat := 96

  // Every key, in the order `Leg::ALL` and `Subtest::ALL` list them.
  function KeyAt(i: nat): Key
    requires i < KEYS
  {
    KeyOf(i / 24, (i / 8) % 3, (i / 4) % 2, i % 4)
  }

  function KeyOf(arch: nat, variant: nat, gpu: nat, subtest: nat): Key
    requires arch < 4 && variant < 3 && gpu < 2 && subtest < 4
  {
    Key(Leg(if arch == 0 then I686 else if arch == 1 then X64 else if arch == 2 then I686Arm64 else Arm64x,
            if variant == 0 then Native else if variant == 1 then Intel else Scale,
            if gpu == 0 then Apple else Mac2),
        if subtest == 0 then Device else if subtest == 1 then Visual else if subtest == 2 then Stateblock else D3d9Ex)
  }

  function ArchRank(arch: Arch): nat {
    match arch case I686 => 0 case X64 => 1 case I686Arm64 => 2 case Arm64x => 3
  }

  function VariantRank(variant: Variant): nat {
    match variant case Native => 0 case Intel => 1 case Scale => 2
  }

  function GpuRank(gpu: Gpu): nat {
    match gpu case Apple => 0 case Mac2 => 1
  }

  function SubtestRank(subtest: Subtest): nat {
    match subtest case Device => 0 case Visual => 1 case Stateblock => 2 case D3d9Ex => 3
  }

  function Rank(key: Key): (r: nat)
    ensures r < KEYS
  {
    24 * ArchRank(key.leg.arch) + 8 * VariantRank(key.leg.variant) + 4 * GpuRank(key.leg.gpu) + SubtestRank(key.subtest)
  }

  lemma Digits(arch: nat, variant: nat, gpu: nat, subtest: nat)
    requires arch < 4 && variant < 3 && gpu < 2 && subtest < 4
    ensures var i := 24 * arch + 8 * variant + 4 * gpu + subtest;
            i / 24 == arch && (i / 8) % 3 == variant && (i / 4) % 2 == gpu && i % 4 == subtest
  {
    var i := 24 * arch + 8 * variant + 4 * gpu + subtest;
    assert i / 8 == 3 * arch + variant;
    assert i / 4 == 2 * (3 * arch + variant) + gpu;
  }

  // The listing holds every key.
  lemma KeyHasRank(key: Key)
    ensures KeyAt(Rank(key)) == key
  {
    var leg := key.leg;
    Digits(ArchRank(leg.arch), VariantRank(leg.variant), GpuRank(leg.gpu), SubtestRank(key.subtest));
    assert KeyOf(ArchRank(leg.arch), VariantRank(leg.variant), GpuRank(leg.gpu), SubtestRank(key.subtest)) == key;
  }

  // The listing holds no key twice.
  lemma RankOfKey(i: nat)
    requires i < KEYS
    ensures Rank(KeyAt(i)) == i
  {
    var arch, variant, gpu, subtest := i / 24, (i / 8) % 3, (i / 4) % 2, i % 4;
    assert i == 24 * arch + 8 * variant + 4 * gpu + subtest by {
      assert i / 24 == i / 8 / 3;
      assert i / 8 == i / 4 / 2;
    }
    KeyOfRanks(arch, variant, gpu, subtest);
  }

  lemma KeyOfRanks(arch: nat, variant: nat, gpu: nat, subtest: nat)
    requires arch < 4 && variant < 3 && gpu < 2 && subtest < 4
    ensures Rank(KeyOf(arch, variant, gpu, subtest)) == 24 * arch + 8 * variant + 4 * gpu + subtest
  {
  }

  function KeysInOrder(): (keys: seq<Key>)
    ensures |keys| == KEYS && (forall key :: key in keys)
    ensures forall i, j :: 0 <= i < j < KEYS ==> Rank(keys[i]) < Rank(keys[j])
  {
    var keys := seq(KEYS, i requires 0 <= i < KEYS => KeyAt(i));
    assert forall key :: key in keys by {
      forall key ensures key in keys {
        KeyHasRank(key);
        assert keys[Rank(key)] == key;
      }
    }
    assert forall i :: 0 <= i < KEYS ==> Rank(keys[i]) == i by {
      forall i | 0 <= i < KEYS ensures Rank(keys[i]) == i {
        RankOfKey(i);
      }
    }
    keys
  }

  // ----------------------------------------------------------- site order

  predicate TextBefore(a: string, b: string) {
    b != [] && (a == [] || a[0] < b[0] || (a[0] == b[0] && TextBefore(a[1..], b[1..])))
  }

  lemma {:induction false} TextOrderIsTotal(a: string, b: string)
    ensures a == b || TextBefore(a, b) || TextBefore(b, a)
    ensures !(TextBefore(a, b) && TextBefore(b, a)) && (a == b ==> !TextBefore(a, b))
  {
    if a != [] && b != [] {
      TextOrderIsTotal(a[1..], b[1..]);
      assert a == [a[0]] + a[1..] && b == [b[0]] + b[1..];
    }
  }

  lemma {:induction false} TextOrderIsTransitive(a: string, b: string, c: string)
    requires TextBefore(a, b) && TextBefore(b, c)
    ensures TextBefore(a, c)
  {
    if a != [] && a[0] == b[0] == c[0] {
      TextOrderIsTransitive(a[1..], b[1..], c[1..]);
    }
  }

  predicate Before(a: Site, b: Site) {
    TextBefore(a.file, b.file) || (a.file == b.file && a.line < b.line)
  }

  lemma SiteOrderIsTotal(a: Site, b: Site)
    ensures a == b || Before(a, b) || Before(b, a)
    ensures !(Before(a, b) && Before(b, a)) && (a == b ==> !Before(a, b))
  {
    TextOrderIsTotal(a.file, b.file);
  }

  lemma SiteOrderIsTransitive(a: Site, b: Site, c: Site)
    requires Before(a, b) && Before(b, c)
    ensures Before(a, c)
  {
    if TextBefore(a.file, b.file) && TextBefore(b.file, c.file) {
      TextOrderIsTransitive(a.file, b.file, c.file);
    }
  }

  predicate IsLeast(site: Site, sites: set<Site>) {
    site in sites && forall other :: other in sites && other != site ==> Before(site, other)
  }

  lemma {:induction false} LeastExists(sites: set<Site>)
    requires sites != {}
    ensures exists site :: IsLeast(site, sites)
  {
    var any :| any in sites;
    if sites == {any} {
      assert IsLeast(any, sites);
    } else {
      var rest := sites - {any};
      LeastExists(rest);
      var least :| IsLeast(least, rest);
      SiteOrderIsTotal(any, least);
      if Before(any, least) {
        forall other | other in sites && other != any ensures Before(any, other) {
          if other != least {
            SiteOrderIsTransitive(any, least, other);
          }
        }
        assert IsLeast(any, sites);
      } else {
        assert IsLeast(least, sites);
      }
    }
  }

  lemma LeastIsUnique(a: Site, b: Site, sites: set<Site>)
    requires IsLeast(a, sites) && IsLeast(b, sites)
    ensures a == b
  {
    SiteOrderIsTotal(a, b);
  }

  function Least(sites: set<Site>): (r: Site)
    requires sites != {}
    ensures IsLeast(r, sites)
  {
    LeastExists(sites);
    assert forall a, b :: IsLeast(a, sites) && IsLeast(b, sites) ==> a == b by {
      forall a, b | IsLeast(a, sites) && IsLeast(b, sites) ensures a == b {
        LeastIsUnique(a, b, sites);
      }
    }
    var site :| site in sites && IsLeast(site, sites);
    site
  }

  // The sites in iteration order.
  function Sorted(sites: set<Site>): (r: seq<Site>)
    ensures |r| == |sites|
    ensures forall site :: site in r <==> site in sites
    decreases |sites|
  {
    if sites == {} then []
    else
      var least := Least(sites);
      [least] + Sorted(sites - {least})
  }

  predicate Ascending(s: seq<Site>) {
    forall i, j :: 0 <= i < j < |s| ==> Before(s[i], s[j])
  }

  lemma {:induction false} SortedAscends(sites: set<Site>)
    ensures Ascending(Sorted(sites))
    decreases |sites|
  {
    if sites != {} {
      var least := Least(sites);
      SortedAscends(sites - {least});
      forall i, j | 0 <= i < j < |Sorted(sites)| ensures Before(Sorted(sites)[i], Sorted(sites)[j]) {
        if i == 0 {
          assert Sorted(sites)[j] == Sorted(sites - {least})[j - 1];
          assert Sorted(sites)[j] in sites - {least};
        }
      }
    }
  }

  lemma FirstIsLeast(s: seq<Site>, sites: set<Site>)
    requires Ascending(s) && s != [] && forall site :: site in s <==> site in sites
    ensures s[0] !in s[1..] && IsLeast(s[0], sites)
  {
    forall other | other in sites && other != s[0] ensures Before(s[0], other) {
      var j :| 0 <= j < |s| && s[j] == other;
      assert Before(s[0], s[j]);
    }
    forall j | 0 < j < |s| ensures s[j] != s[0] {
      SiteOrderIsTotal(s[0], s[j]);
    }
  }

  lemma {:induction false} AscendingIsSorted(s: seq<Site>, sites: set<Site>)
    requires Ascending(s) && forall site :: site in s <==> site in sites
    ensures Sorted(sites) == s
    decreases |s|
  {
    if s == [] {
      assert sites == {};
    } else {
      FirstIsLeast(s, sites);
      RestIsRest(s, sites);
      LeastIsUnique(s[0], Least(sites), sites);
      AscendingIsSorted(s[1..], sites - {s[0]});
    }
  }

  lemma RestIsRest(s: seq<Site>, sites: set<Site>)
    requires Ascending(s) && s != [] && s[0] !in s[1..] && forall site :: site in s <==> site in sites
    ensures Ascending(s[1..]) && (forall site :: site in s[1..] <==> site in sites - {s[0]}) && sites != {}
  {
    assert s == [s[0]] + s[1..];
    assert s[0] in sites;
  }

  // This listing ascends, and every ascending listing of the same sites is this one: iteration
  // order is fixed.
  lemma SortedIsCanonical(s: seq<Site>, sites: set<Site>)
    ensures Ascending(s) && (forall site :: site in s <==> site in sites) <==> s == Sorted(sites)
  {
    SortedAscends(sites);
    if Ascending(s) && forall site :: site in s <==> site in sites {
      AscendingIsSorted(s, sites);
    }
  }
}
