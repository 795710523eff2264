/**
  One small baseline, spelled out: which names the file format uses and what each of them
  means (unix/conformance/src/model.rs, unix/conformance/baseline.txt). It holds every
  architecture, variant, GPU family and subtest, both crash bits, a site, and a leg whose
  implicit parts are written in full.
*/
module BaselineSample {
  import opened BaselineText
  import opened Conformance
  import opened Text
  import opened Wrappers

  // A header line around its three texts.
  function Header(leg: string, subtest: string, crash: string): string {
    "[" + (leg + ['/'] + subtest + [']'] + (" " + crash))
  }

  const WINE := "#" + (" " + ("Wine:" + (" " + "11.0")))
  const CRASHED := Header("i686", "device", "crash=1")
  const SITE := "  " + ("device.c" + [':'] + "9" + (" " + ("count=" + "8")))
  const INTEL_LEG := Header("x86_64" + ['+'] + "intel", "visual", "crash=0")
  const SCALE_LEG := Header("i686-arm64" + ['+'] + "scale", "stateblock", "crash=0")
  const MAC2_LEG := Header("arm64x" + ['@'] + "mac2", "d3d9ex", "crash=1")
  const IN_FULL := Header("arm64x" + ['+'] + "native" + ['@'] + "apple", "device", "crash=0")
  const REST: seq<string> := [INTEL_LEG] + ([SCALE_LEG] + ([MAC2_LEG] + [IN_FULL]))
  const SAMPLE: seq<string> := [WINE] + ([CRASHED] + ([SITE] + REST))

  const DEVICE := Key(Leg(I686, Native, Apple), Device)
  const VISUAL := Key(Leg(X64, Intel, Apple), Visual)
  const STATEBLOCK := Key(Leg(I686Arm64, Scale, Apple), Stateblock)
  const D3D9EX := Key(Leg(Arm64x, Native, Mac2), D3d9Ex)
  const ARM_DEVICE := Key(Leg(Arm64x, Native, Apple), Device)

  const MEANING: map<Key, SubtestBaseline> :=
    map[DEVICE := SubtestBaseline(true, map[Site("device.c", 9) := 8]),
        VISUAL := SubtestBaseline(false, map[]),
        STATEBLOCK := SubtestBaseline(false, map[]),
        D3D9EX := SubtestBaseline(true, map[]),
        ARM_DEVICE := SubtestBaseline(false, map[])]

  // What the line does to the state being built, and that it is one line.
  ghost predicate Opens(step: Reader, line: string, key: Key, crash: bool) {
    OneLine(line) && forall st: State :: step(st, line) == Ok(OpenKey(st, key, crash))
  }

  lemma PrintedOpens(line: string, key: Key, crash: bool)
    requires line == HeaderLine(key, crash)
    ensures Opens(Step, line, key, crash)
  {
    HeaderIsOneLine(key, crash);
    forall st: State ensures Step(st, line) == Ok(OpenKey(st, key, crash)) {
      HeaderSteps(st, key, crash);
    }
  }

  lemma CrashedOpens()
    ensures Opens(Step, CRASHED, DEVICE, true)
  {
    PrintedOpens(CRASHED, DEVICE, true);
  }

  lemma IntelOpens()
    ensures Opens(Step, INTEL_LEG, VISUAL, false)
  {
    PrintedOpens(INTEL_LEG, VISUAL, false);
  }

  lemma ScaleOpens()
    ensures Opens(Step, SCALE_LEG, STATEBLOCK, false)
  {
    PrintedOpens(SCALE_LEG, STATEBLOCK, false);
  }

  lemma Mac2Opens()
    ensures Opens(Step, MAC2_LEG, D3D9EX, true)
  {
    PrintedOpens(MAC2_LEG, D3D9EX, true);
  }

  lemma VariantInFull(arch: string, variant: string)
    requires '+' !in arch && ArchFromText(arch).Ok? && VariantFromText(variant).Ok?
    ensures forall gpu :: BaseFromText(arch + ['+'] + variant, gpu)
                          == Ok(Leg(ArchFromText(arch).value, VariantFromText(variant).value, gpu))
  {
    var base := arch + ['+'] + variant;
    FindFirst(arch, '+', variant);
    assert base[..|arch|] == arch && base[|arch| + 1..] == variant;
  }

  lemma GpuInFull(base: string, gpu: string)
    requires '@' !in base && GpuFromText(gpu).Ok?
    ensures LegFromText(base + ['@'] + gpu) == BaseFromText(base, GpuFromText(gpu).value)
  {
    var leg := base + ['@'] + gpu;
    FindFirst(base, '@', gpu);
    assert leg[..|base|] == base && leg[|base| + 1..] == gpu;
  }

  lemma HeaderIsLine(leg: string, subtest: string, crash: string)
    requires '\n' !in leg && '\n' !in subtest && OneLine(crash) && crash != []
    ensures OneLine(Header(leg, subtest, crash))
  {
    var line := Header(leg, subtest, crash);
    assert line[|line| - 1] == crash[|crash| - 1];
  }

  // The three texts of a leg, and the two behind it, with what they stand for.
  predicate Names(arch: string, variant: string, gpu: string, leg: Leg) {
    Plain(arch) && Plain(variant) && Plain(gpu) && ArchFromText(arch) == Ok(leg.arch)
    && VariantFromText(variant) == Ok(leg.variant) && GpuFromText(gpu) == Ok(leg.gpu)
  }

  predicate Ends(subtest: string, crash: string, of: Subtest, bit: bool) {
    Plain(subtest) && Trimmed(crash) && OneLine(crash) && crash != []
    && SubtestFromText(subtest) == Ok(of) && CrashFromText(crash) == Ok(bit)
  }

  lemma HeaderOpens(leg: string, subtest: string, crash: string, key: Key, bit: bool)
    requires '/' !in leg && ']' !in leg && '\n' !in leg && LegFromText(leg) == Ok(key.leg)
    requires Ends(subtest, crash, key.subtest, bit)
    ensures Opens(Step, Header(leg, subtest, crash), key, bit)
  {
    HeaderIsLine(leg, subtest, crash);
    HeaderHasParts(leg, subtest, crash);
    LineStays(Header(leg, subtest, crash));
  }

  lemma LegIsPlain(arch: string, variant: string, gpu: string)
    requires Plain(arch) && Plain(variant) && Plain(gpu)
    ensures var leg := arch + ['+'] + variant + ['@'] + gpu; '/' !in leg && ']' !in leg && '\n' !in leg
  {
  }

  // The native variant and the Apple family may be spelled out; the printer never does.
  lemma FullOpens(arch: string, variant: string, gpu: string, subtest: string, crash: string, key: Key, bit: bool)
    requires Names(arch, variant, gpu, key.leg) && Ends(subtest, crash, key.subtest, bit)
    ensures Opens(Step, Header(arch + ['+'] + variant + ['@'] + gpu, subtest, crash), key, bit)
  {
    VariantInFull(arch, variant);
    GpuInFull(arch + ['+'] + variant, gpu);
    LegIsPlain(arch, variant, gpu);
    HeaderOpens(arch + ['+'] + variant + ['@'] + gpu, subtest, crash, key, bit);
  }

  lemma NamesInFull()
    ensures Names("arm64x", "native", "apple", Leg(Arm64x, Native, Apple))
  {
  }

  lemma DeviceEnds()
    ensures Ends("device", "crash=0", Device, false)
  {
  }

  lemma InFullOpens()
    ensures Opens(Step, IN_FULL, ARM_DEVICE, false)
  {
    NamesInFull();
    DeviceEnds();
    FullOpens("arm64x", "native", "apple", "device", "crash=0", ARM_DEVICE, false);
  }

  // The two lines that open no key.
  ghost predicate NamesWine(step: Reader, line: string, version: string) {
    OneLine(line) && forall st: State :: step(st, line) == Ok(st.(version := version))
  }

  ghost predicate AddsSite(step: Reader, line: string, site: Site, count: U32) {
    OneLine(line) && forall st: State :: st.current.Some? ==> step(st, line) == Ok(AddSite(st, site, count))
  }

  lemma WineNames()
    ensures NamesWine(Step, WINE, "11.0")
  {
    assert WINE == WineLine("11.0");
    WineIsOneLine("11.0");
    forall st: State ensures Step(st, WINE) == Ok(st.(version := "11.0")) {
      WineSteps(st, "11.0");
    }
  }

  lemma SiteAdds()
    ensures AddsSite(Step, SITE, Site("device.c", 9), 8)
  {
    var site := Site("device.c", 9);
    assert Location(site) == "device.c:9" && CountText(8) == "count=8";
    assert SITE == SiteLine(site, 8);
    SiteIsOneLine(site, 8);
    forall st: State | st.current.Some? ensures Step(st, SITE) == Ok(AddSite(st, site, 8)) {
      SiteSteps(st, site, 8);
    }
  }

  lemma SampleIsLines()
    ensures Lines(Unlines(SAMPLE)) == SAMPLE
  {
    WineNames();
    CrashedOpens();
    SiteAdds();
    IntelOpens();
    ScaleOpens();
    Mac2Opens();
    InFullOpens();
    LinesOfUnlines(SAMPLE);
  }

  lemma OpensFront(step: Reader, st: State, line: string, key: Key, crash: bool, lines: seq<string>, n: nat)
    requires Opens(step, line, key, crash)
    ensures Fold(step, st, [line] + lines, n) == Fold(step, OpenKey(st, key, crash), lines, n + 1)
  {
    FoldFront(step, st, OpenKey(st, key, crash), line, lines, n);
  }

  lemma RestFolds(step: Reader, st: State, intel: string, scale: string, mac2: string, full: string)
    requires Opens(step, intel, VISUAL, false) && Opens(step, scale, STATEBLOCK, false)
    requires Opens(step, mac2, D3D9EX, true) && Opens(step, full, ARM_DEVICE, false)
    ensures var a := OpenKey(OpenKey(st, VISUAL, false), STATEBLOCK, false);
            Fold(step, st, [intel] + ([scale] + ([mac2] + [full])), 4)
            == Ok(OpenKey(OpenKey(a, D3D9EX, true), ARM_DEVICE, false))
  {
    var a := OpenKey(st, VISUAL, false);
    var b := OpenKey(a, STATEBLOCK, false);
    OpensFront(step, st, intel, VISUAL, false, [scale] + ([mac2] + [full]), 4);
    OpensFront(step, a, scale, STATEBLOCK, false, [mac2] + [full], 5);
    OpensFront(step, b, mac2, D3D9EX, true, [full], 6);
    assert [full] + [] == [full];
    OpensFront(step, OpenKey(b, D3D9EX, true), full, ARM_DEVICE, false, [], 7);
  }

  lemma FirstFolds(step: Reader, wine: string, crashed: string, counted: string, rest: seq<string>)
    requires NamesWine(step, wine, "11.0") && Opens(step, crashed, DEVICE, true)
    requires AddsSite(step, counted, Site("device.c", 9), 8)
    ensures var key := OpenKey(State("11.0", map[], None), DEVICE, true);
            Fold(step, START, [wine] + ([crashed] + ([counted] + rest)), 1)
            == Fold(step, AddSite(key, Site("device.c", 9), 8), rest, 4)
  {
    var named := State("11.0", map[], None);
    var key := OpenKey(named, DEVICE, true);
    FoldFront(step, START, named, wine, [crashed] + ([counted] + rest), 1);
    OpensFront(step, named, crashed, DEVICE, true, [counted] + rest, 2);
    FoldFront(step, key, AddSite(key, Site("device.c", 9), 8), counted, rest, 3);
  }

  lemma EntriesMean()
    ensures var first := AddSite(OpenKey(State("11.0", map[], None), DEVICE, true), Site("device.c", 9), 8);
            var a := OpenKey(OpenKey(first, VISUAL, false), STATEBLOCK, false);
            OpenKey(OpenKey(a, D3D9EX, true), ARM_DEVICE, false).entries == MEANING
  {
  }

  lemma SampleFolds()
    ensures Fold(Step, START, SAMPLE, 1) == Ok(State("11.0", MEANING, Some(ARM_DEVICE)))
  {
    WineNames();
    CrashedOpens();
    SiteAdds();
    FirstFolds(Step, WINE, CRASHED, SITE, REST);
    IntelOpens();
    ScaleOpens();
    Mac2Opens();
    InFullOpens();
    RestFolds(Step, AddSite(OpenKey(State("11.0", map[], None), DEVICE, true), Site("device.c", 9), 8),
              INTEL_LEG, SCALE_LEG, MAC2_LEG, IN_FULL);
    EntriesMean();
  }

  /** What the sample file means. */
  lemma SampleMeans()
    ensures Parsed(Unlines(SAMPLE)) == Ok(Baseline("11.0", MEANING))
  {
    SampleIsLines();
    SampleFolds();
  }
}
