/**
  The baseline's text form (unix/conformance/src/model.rs): the printer, the parser and
  the exact condition under which one undoes the other. Error messages are kept as their
  kind and line number.
*/
module BaselineText {
  import opened Conformance
  import opened Text
  import opened Wrappers

  datatype ParseError =
    | NoBracket | NoSlash | UnknownArch | UnknownVariant | UnknownGpu | UnknownSubtest | BadCrash
    | SiteBeforeHeader | EmptySite | MissingCount | TrailingToken | MissingColon | BadLine | ExpectedCount | BadCount
    | UnexpectedLine
  datatype At = At(line: nat, error: ParseError)

  // ------------------------------------------------------------------- names

  function ArchText(arch: Arch): string {
    match arch
    case I686 => "i686"
    case X64 => "x86_64"
    case I686Arm64 => "i686-arm64"
    case Arm64x => "arm64x"
  }

  function VariantText(variant: Variant): string {
    match variant
    case Native => "native"
    case Intel => "intel"
    case Scale => "scale"
  }

  function GpuText(gpu: Gpu): string {
    match gpu
    case Apple => "apple"
    case Mac2 => "mac2"
  }

  function SubtestText(subtest: Subtest): string {
    match subtest
    case Device => "device"
    case Visual => "visual"
    case Stateblock => "stateblock"
    case D3d9Ex => "d3d9ex"
  }

  // The native variant and the Apple family are implicit.
  function LegText(leg: Leg): string {
    var base := if leg.variant == Native then ArchText(leg.arch)
                else ArchText(leg.arch) + ['+'] + VariantText(leg.variant);
    if leg.gpu == Mac2 then base + ['@'] + GpuText(leg.gpu) else base
  }

  function ArchFromText(s: string): Result<Arch, ParseError> {
    if s == "i686" then Ok(I686)
    else if s == "x86_64" then Ok(X64)
    else if s == "i686-arm64" then Ok(I686Arm64)
    else if s == "arm64x" then Ok(Arm64x)
    else Err(UnknownArch)
  }

  function VariantFromText(s: string): Result<Variant, ParseError> {
    if s == "native" then Ok(Native)
    else if s == "intel" then Ok(Intel)
    else if s == "scale" then Ok(Scale)
    else Err(UnknownVariant)
  }

  function GpuFromText(s: string): Result<Gpu, ParseError> {
    if s == "apple" then Ok(Apple) else if s == "mac2" then Ok(Mac2) else Err(UnknownGpu)
  }

  function SubtestFromText(s: string): Result<Subtest, ParseError> {
    if s == "device" then Ok(Device)
    else if s == "visual" then Ok(Visual)
    else if s == "stateblock" then Ok(Stateblock)
    else if s == "d3d9ex" then Ok(D3d9Ex)
    else Err(UnknownSubtest)
  }

  function BaseFromText(s: string, gpu: Gpu): Result<Leg, ParseError> {
    var plus := Find(s, '+');
    if plus == |s| then
      match ArchFromText(s)
      case Err(e) => Err(e)
      case Ok(arch) => Ok(Leg(arch, Native, gpu))
    else
      match ArchFromText(s[..plus])
      case Err(e) => Err(e)
      case Ok(arch) =>
        match VariantFromText(s[plus + 1..])
        case Err(e) => Err(e)
        case Ok(variant) => Ok(Leg(arch, variant, gpu))
  }

  function LegFromText(s: string): Result<Leg, ParseError> {
    var at := Find(s, '@');
    if at == |s| then BaseFromText(s, Apple)
    else
      match GpuFromText(s[at + 1..])
      case Err(e) => Err(e)
      case Ok(gpu) => BaseFromText(s[..at], gpu)
  }

  // No separator of the header format.
  predicate Plain(s: string) {
    '@' !in s && '+' !in s && '/' !in s && ']' !in s && '\n' !in s
  }

  lemma ArchIsPlain(arch: Arch)
    ensures Plain(ArchText(arch))
  {
  }

  lemma VariantIsPlain(variant: Variant)
    ensures Plain(VariantText(variant))
  {
  }

  lemma SubtestIsPlain(subtest: Subtest)
    ensures Plain(SubtestText(subtest))
  {
  }

  lemma NamesArePlain(leg: Leg)
    ensures Plain(ArchText(leg.arch)) && Plain(VariantText(leg.variant)) && Plain(GpuText(leg.gpu))
  {
    ArchIsPlain(leg.arch);
    VariantIsPlain(leg.variant);
  }

  lemma FindNone(s: string, c: char)
    requires c !in s
    ensures Find(s, c) == |s|
  {
  }

  lemma BaseRoundTrip(leg: Leg)
    ensures var base := if leg.variant == Native then ArchText(leg.arch)
                        else ArchText(leg.arch) + ['+'] + VariantText(leg.variant);
            BaseFromText(base, leg.gpu) == Ok(leg)
  {
    NamesArePlain(leg);
    var arch, variant := ArchText(leg.arch), VariantText(leg.variant);
    if leg.variant == Native {
      FindNone(arch, '+');
    } else {
      var base := arch + ['+'] + variant;
      FindFirst(arch, '+', variant);
      assert base[..|arch|] == arch && base[|arch| + 1..] == variant;
    }
  }

  lemma LegRoundTrip(leg: Leg)
    ensures LegFromText(LegText(leg)) == Ok(leg)
  {
    NamesArePlain(leg);
    var base := if leg.variant == Native then ArchText(leg.arch)
                else ArchText(leg.arch) + ['+'] + VariantText(leg.variant);
    BaseRoundTrip(leg);
    if leg.gpu == Mac2 {
      FindFirst(base, '@', GpuText(leg.gpu));
      assert LegText(leg)[..|base|] == base && LegText(leg)[|base| + 1..] == GpuText(leg.gpu);
    } else {
      FindNone(base, '@');
    }
  }

  lemma LegTextIsPlain(leg: Leg)
    ensures '/' !in LegText(leg) && ']' !in LegText(leg) && '\n' !in LegText(leg)
  {
    NamesArePlain(leg);
  }

  // ---------------------------------------------------------------- the lines

  function CrashText(crash: bool): string {
    if crash then "crash=1" else "crash=0"
  }

  function HeaderLine(key: Key, crash: bool): string {
    "[" + (LegText(key.leg) + ['/'] + SubtestText(key.subtest) + [']'] + (" " + CrashText(crash)))
  }

  function Location(site: Site): string {
    site.file + [':'] + Decimal(site.line)
  }

  function CountText(count: nat): string {
    "count=" + Decimal(count)
  }

  function SiteLine(site: Site, count: nat): string {
    "  " + (Location(site) + (" " + CountText(count)))
  }

  // A comment line: the sign, blanks and a text.
  datatype Note = Note(blanks: string, text: string)

  function NoteLine(note: Note): string {
    "#" + (note.blanks + note.text)
  }

  function NoteLines(notes: seq<Note>): seq<string> {
    if notes == [] then [] else [NoteLine(notes[0])] + NoteLines(notes[1..])
  }

  const TITLE: Note := Note(" ", "mtld3d d3d9 " + "conformance " + "baseline \U{2014} " + "per-site " + "failure counts.")
  const REGENERATE: Note := Note(" ", "Regenerate with " + "'make " + "conformance-" + "baseline'. " + "Classifications " + "+ triage prose")
  const PROSE: Note := Note(" ", "live in " + "CONFORMANCE.md " + "('Per-cluster " + "classification')" + "; a runner " + "unit test")
  const COVERING: Note := Note(" ", "keeps the two " + "files covering " + "the same sites.")
  const FORMAT: Note := Note(" ", "Format: " + "\"[leg/subtest] " + "crash=<0|1>\" " + "header, then " + "indented")
  const SITES: Note := Note("         ", "\"  <file>.c:" + "<line> count=" + "<n>\". A leg " + "of the form")
  const INTEL: Note := Note("         ", "\"<arch>+intel\" " + "is the run under " + "the intel.* " + "config keys,")
  const SCALED: Note := Note("         ", "\"<arch>+scale\" " + "the run at " + "render.scale " + "= 0.75, and")
  const MAC2: Note := Note("         ", "\"<leg>@mac2\" " + "the run on an " + "Intel/AMD GPU " + "(no suffix: " + "Apple).")
  const NOTES: seq<Note> := [REGENERATE, PROSE, COVERING, FORMAT, SITES, INTEL, SCALED, MAC2]

  function WineLine(version: string): string {
    "#" + (" " + ("Wine:" + (" " + version)))
  }

  function Preamble(version: string): seq<string> {
    [NoteLine(TITLE)] + [WineLine(version)] + (NoteLines(NOTES) + [""])
  }

  function SiteLines(order: seq<Site>, sites: map<Site, U32>): seq<string>
    requires forall site :: site in order ==> site in sites
  {
    if order == [] then [] else [SiteLine(order[0], sites[order[0]])] + SiteLines(order[1..], sites)
  }

  function KeyLines(b: Baseline, key: Key): seq<string> {
    if key !in b.entries then []
    else
      var sub := b.entries[key];
      [HeaderLine(key, sub.crash)] + SiteLines(Sorted(sub.sites.Keys), sub.sites)
  }

  function Blocks(block: Key -> seq<string>, keys: seq<Key>): seq<string> {
    if keys == [] then [] else block(keys[0]) + Blocks(block, keys[1..])
  }

  function EntryLines(b: Baseline, keys: seq<Key>): seq<string> {
    Blocks(key => KeyLines(b, key), keys)
  }

  function BaselineLines(b: Baseline): seq<string> {
    Preamble(b.wineVersion) + EntryLines(b, KeysInOrder())
  }

  // -------------------------------------------------------------- the parser

  // The key whose sites are being read always has an entry.
  datatype RawState = State(version: string, entries: map<Key, SubtestBaseline>, current: Option<Key>)
  type State = st: RawState | st.current.Some? ==> st.current.value in st.entries witness State("", map[], None)

  // The texts of a header's leg, subtest and crash bit.
  function HeaderParts(line: string): Result<(string, string, string), ParseError>
    requires line != [] && line[0] == '['
  {
    var close := Find(line, ']');
    if close == |line| then Err(NoBracket)
    else
      var inside := line[1..close];
      var slash := Find(inside, '/');
      if slash == |inside| then Err(NoSlash)
      else Ok((inside[..slash], inside[slash + 1..], Trim(line[close + 1..])))
  }

  function CrashFromText(s: string): Result<bool, ParseError> {
    if s == "crash=0" then Ok(false) else if s == "crash=1" then Ok(true) else Err(BadCrash)
  }

  function HeaderFromParts(leg: string, subtest: string, crash: string): Result<(Key, bool), ParseError> {
    match LegFromText(leg)
    case Err(e) => Err(e)
    case Ok(l) =>
      match SubtestFromText(subtest)
      case Err(e) => Err(e)
      case Ok(s) =>
        match CrashFromText(crash)
        case Err(e) => Err(e)
        case Ok(c) => Ok((Key(l, s), c))
  }

  function ParseHeader(line: string): Result<(Key, bool), ParseError>
    requires line != [] && line[0] == '['
  {
    match HeaderParts(line)
    case Err(e) => Err(e)
    case Ok((leg, subtest, crash)) => HeaderFromParts(leg, subtest, crash)
  }

  function ParseSite(line: string): (r: Result<(Site, U32), ParseError>)
    ensures r.Ok? ==> NoWhite(r.value.0.file)
  {
    var tokens := Tokens(line);
    if |tokens| == 0 then Err(EmptySite)
    else if |tokens| == 1 then Err(MissingCount)
    else if |tokens| > 2 then Err(TrailingToken)
    else
      var place := SplitLast(tokens[0], ':');
      if place.None? then Err(MissingColon)
      else
        assert forall i :: 0 <= i < |place.value.0| ==> place.value.0[i] == tokens[0][i];
        var number := ParseU32(place.value.1);
        if number.None? then Err(BadLine)
        else if !("count=" <= tokens[1]) then Err(ExpectedCount)
        else
          var count := ParseU32(tokens[1][6..]);
          if count.None? then Err(BadCount) else Ok((Site(place.value.0, number.value), count.value))
  }

  function OpenKey(st: State, key: Key, crash: bool): State {
    State(st.version, st.entries[key := SubtestBaseline(crash, map[])], Some(key))
  }

  function AddSite(st: State, site: Site, count: U32): State
    requires st.current.Some?
  {
    var sub := st.entries[st.current.value];
    State(st.version, st.entries[st.current.value := SubtestBaseline(sub.crash, sub.sites[site := count])], st.current)
  }

  // One pass of the parser's loop.
  function Step(st: State, raw: string): Result<State, ParseError> {
    if Trim(raw) == [] then Ok(st)
    else if raw != [] && raw[0] == '#' then
      var rest := TrimStart(raw[1..]);
      if "Wine:" <= rest then Ok(st.(version := Trim(rest[5..]))) else Ok(st)
    else if raw != [] && raw[0] == '[' then
      match ParseHeader(raw)
      case Err(e) => Err(e)
      case Ok((key, crash)) => Ok(OpenKey(st, key, crash))
    else if raw != [] && (raw[0] == ' ' || raw[0] == '\t') then
      if st.current.None? then Err(SiteBeforeHeader)
      else
        match ParseSite(Trim(raw))
        case Err(e) => Err(e)
        case Ok((site, count)) => Ok(AddSite(st, site, count))
    else Err(UnexpectedLine)
  }

  // The loop over any way of reading a line.
  function Fold(step: (State, string) -> Result<State, ParseError>, st: State, lines: seq<string>, n: nat): Result<State, At>
    decreases |lines|
  {
    if lines == [] then Ok(st)
    else
      match step(st, lines[0])
      case Err(e) => Err(At(n, e))
      case Ok(next) => Fold(step, next, lines[1..], n + 1)
  }

  const START: State := State("", map[], None)

  function Parsed(text: string): Result<Baseline, At> {
    match Fold(Step, START, Lines(text), 1)
    case Err(e) => Err(e)
    case Ok(st) => Ok(Baseline(st.version, st.entries))
  }

  method FromText(text: string) returns (r: Result<Baseline, At>)
    ensures r == Parsed(text)
  {
    var lines := Lines(text);
    var st: State := START;
    assert lines[0..] == lines;
    for i := 0 to |lines|
      invariant Fold(Step, START, lines, 1) == Fold(Step, st, lines[i..], i + 1)
    {
      assert lines[i..][0] == lines[i] && lines[i..][1..] == lines[i + 1..];
      var next := Step(st, lines[i]);
      if next.Err? {
        return Err(At(i + 1, next.error));
      }
      st := next.value;
    }
    return Ok(Baseline(st.version, st.entries));
  }

  // ------------------------------------------------------------- the printer

  lemma SitesFront(order: seq<Site>, sites: map<Site, U32>, text: string)
    requires order != [] && forall site :: site in order ==> site in sites
    ensures text + Unlines(SiteLines(order, sites))
            == text + SiteLine(order[0], sites[order[0]]) + ['\n'] + Unlines(SiteLines(order[1..], sites))
  {
    UnlinesFront(text, SiteLine(order[0], sites[order[0]]), SiteLines(order[1..], sites));
  }

  method SitesToText(out: string, sites: map<Site, U32>) returns (text: string)
    ensures text == out + Unlines(SiteLines(Sorted(sites.Keys), sites))
  {
    var order := Sorted(sites.Keys);
    text := out;
    assert order[0..] == order;
    for i := 0 to |order|
      invariant text + Unlines(SiteLines(order[i..], sites)) == out + Unlines(SiteLines(order, sites))
    {
      SitesFront(order[i..], sites, text);
      assert order[i..][1..] == order[i + 1..];
      text := text + SiteLine(order[i], sites[order[i]]) + ['\n'];
    }
    assert text + "" == text;
  }

  lemma UnlinesFront(text: string, line: string, lines: seq<string>)
    ensures text + Unlines([line] + lines) == text + line + ['\n'] + Unlines(lines)
  {
    assert ([line] + lines)[1..] == lines;
    assert text + (line + ['\n'] + Unlines(lines)) == text + line + ['\n'] + Unlines(lines);
  }

  method ToText(b: Baseline) returns (text: string)
    ensures text == Unlines(BaselineLines(b))
  {
    var preamble := LinesToText(Preamble(b.wineVersion));
    UnlinesConcat(Preamble(b.wineVersion), EntryLines(b, KeysInOrder()));
    text := EntriesToText(b, KeysInOrder(), preamble);
  }

  lemma EntriesFront(b: Baseline, keys: seq<Key>, text: string)
    requires keys != []
    ensures text + Unlines(EntryLines(b, keys)) == text + Unlines(KeyLines(b, keys[0])) + Unlines(EntryLines(b, keys[1..]))
  {
    var first, rest := KeyLines(b, keys[0]), EntryLines(b, keys[1..]);
    UnlinesConcat(first, rest);
    assert text + (Unlines(first) + Unlines(rest)) == text + Unlines(first) + Unlines(rest);
  }

  method EntriesToText(b: Baseline, keys: seq<Key>, out: string) returns (text: string)
    ensures text == out + Unlines(EntryLines(b, keys))
  {
    text := out;
    assert keys[0..] == keys;
    for i := 0 to |keys|
      invariant text + Unlines(EntryLines(b, keys[i..])) == out + Unlines(EntryLines(b, keys))
    {
      EntriesFront(b, keys[i..], text);
      assert keys[i..][1..] == keys[i + 1..];
      text := KeyToText(b, keys[i], text);
    }
    assert text + "" == text;
  }

  method KeyToText(b: Baseline, key: Key, out: string) returns (text: string)
    ensures text == out + Unlines(KeyLines(b, key))
  {
    if key !in b.entries {
      assert out + "" == out;
      return out;
    }
    var sub := b.entries[key];
    var line := HeaderLine(key, sub.crash);
    UnlinesFront(out, line, SiteLines(Sorted(sub.sites.Keys), sub.sites));
    text := SitesToText(out + line + ['\n'], sub.sites);
  }

  method LinesToText(lines: seq<string>) returns (text: string)
    ensures text == Unlines(lines)
  {
    text := "";
    assert lines[0..] == lines;
    for i := 0 to |lines|
      invariant text + Unlines(lines[i..]) == Unlines(lines)
    {
      assert lines[i..] == [lines[i]] + lines[i + 1..];
      UnlinesFront(text, lines[i], lines[i + 1..]);
      text := text + lines[i] + ['\n'];
    }
    assert text + "" == text;
  }

  // -------------------------------------------------------------- one line each

  lemma {:induction false} TrimEndLeaves(s: string)
    requires s != [] && !IsWhite(s[0])
    ensures TrimEnd(s) != []
  {
    if IsWhite(s[|s| - 1]) {
      TrimEndLeaves(s[..|s| - 1]);
    }
  }

  // A line that says nothing to the parser.
  predicate Inert(line: string) {
    Trim(line) == [] || (line != [] && line[0] == '#' && !("Wine:" <= TrimStart(line[1..])))
  }

  lemma InertSteps(st: State, line: string)
    requires Inert(line)
    ensures Step(st, line) == Ok(st)
  {
  }

  lemma CommentIsInert(blanks: string, rest: string)
    requires AllWhite(blanks) && rest != [] && !IsWhite(rest[0]) && rest[0] != 'W'
    ensures Inert("#" + (blanks + rest))
  {
    TrimStartAround(blanks, rest);
    assert ("#" + (blanks + rest))[1..] == blanks + rest;
  }

  lemma WineSteps(st: State, version: string)
    requires Trimmed(version)
    ensures Step(st, WineLine(version)) == Ok(st.(version := version))
  {
    var tail := " " + version;
    LineStays(WineLine(version));
    TrimStartAround(" ", "Wine:" + tail);
    DropFront("#", " " + ("Wine:" + tail));
    DropFront("Wine:", tail);
    TrimBehindBlank(version);
  }

  lemma DropFront(front: string, back: string)
    ensures front <= front + back && (front + back)[|front|..] == back
  {
  }

  lemma LineStays(line: string)
    requires line != [] && !IsWhite(line[0])
    ensures Trim(line) != []
  {
    TrimStartAround("", line);
    assert "" + line == line;
    TrimEndLeaves(line);
  }

  lemma TrimBehindBlank(s: string)
    requires Trimmed(s)
    ensures Trim(" " + s) == s
  {
    TrimStartAround(" ", s);
    TrimEndAround(s, "");
    assert s + "" == s;
  }

  lemma HeaderSplits(inside: string, back: string)
    requires ']' !in inside
    ensures var line := "[" + (inside + [']'] + back);
            Find(line, ']') == |inside| + 1 && line[1..|inside| + 1] == inside && line[|inside| + 2..] == back
  {
    var line := "[" + (inside + [']'] + back);
    assert line == ("[" + inside) + [']'] + back;
    FindFirst("[" + inside, ']', back);
  }

  lemma KeySplits(leg: string, subtest: string)
    requires '/' !in leg
    ensures var inside := leg + ['/'] + subtest;
            Find(inside, '/') == |leg| && inside[..|leg|] == leg && inside[|leg| + 1..] == subtest
  {
    FindFirst(leg, '/', subtest);
  }

  lemma HeaderHasParts(leg: string, subtest: string, crash: string)
    requires '/' !in leg && ']' !in leg && ']' !in subtest && Trimmed(crash)
    ensures HeaderParts("[" + (leg + ['/'] + subtest + [']'] + (" " + crash))) == Ok((leg, subtest, crash))
  {
    var inside := leg + ['/'] + subtest;
    KeySplits(leg, subtest);
    HeaderAround(inside, " " + crash);
    TrimBehindBlank(crash);
  }

  lemma HeaderAround(inside: string, back: string)
    requires ']' !in inside && Find(inside, '/') < |inside|
    ensures HeaderParts("[" + (inside + [']'] + back))
            == Ok((inside[..Find(inside, '/')], inside[Find(inside, '/') + 1..], Trim(back)))
  {
    var line := "[" + (inside + [']'] + back);
    HeaderSplits(inside, back);
    PartsOf(line, |inside| + 1, inside, back);
  }

  lemma PartsOf(line: string, close: nat, inside: string, back: string)
    requires close < |line| && line[0] == '[' && Find(line, ']') == close > 0
    requires line[1..close] == inside && line[close + 1..] == back && Find(inside, '/') < |inside|
    ensures HeaderParts(line) == Ok((inside[..Find(inside, '/')], inside[Find(inside, '/') + 1..], Trim(back)))
  {
  }

  lemma SubtestRoundTrip(subtest: Subtest)
    ensures SubtestFromText(SubtestText(subtest)) == Ok(subtest)
  {
  }

  lemma HeaderRoundTrip(key: Key, crash: bool)
    ensures HeaderFromParts(LegText(key.leg), SubtestText(key.subtest), CrashText(crash)) == Ok((key, crash))
  {
    LegRoundTrip(key.leg);
    SubtestRoundTrip(key.subtest);
    assert CrashFromText(CrashText(crash)) == Ok(crash);
  }

  lemma HeaderParses(key: Key, crash: bool)
    ensures HeaderLine(key, crash)[0] == '[' && ParseHeader(HeaderLine(key, crash)) == Ok((key, crash))
  {
    LegTextIsPlain(key.leg);
    SubtestIsPlain(key.subtest);
    HeaderHasParts(LegText(key.leg), SubtestText(key.subtest), CrashText(crash));
    HeaderRoundTrip(key, crash);
  }

  lemma HeaderSteps(st: State, key: Key, crash: bool)
    ensures Step(st, HeaderLine(key, crash)) == Ok(OpenKey(st, key, crash))
  {
    HeaderParses(key, crash);
    LineStays(HeaderLine(key, crash));
  }

  lemma SiteTokens(site: Site, count: U32)
    requires NoWhite(site.file)
    ensures Tokens(Location(site) + (" " + CountText(count))) == [Location(site), CountText(count)]
  {
    DigitsHaveNoWhite(Decimal(site.line));
    DigitsHaveNoWhite(Decimal(count));
    TwoTokens(Location(site), CountText(count));
  }

  lemma SiteParses(site: Site, count: U32)
    requires NoWhite(site.file)
    ensures ParseSite(Location(site) + (" " + CountText(count))) == Ok((site, count))
  {
    SiteTokens(site, count);
    assert ':' !in Decimal(site.line);
    LastSplit(site.file, ':', Decimal(site.line));
    ParseDecimal(site.line);
    ParseDecimal(count);
    DropFront("count=", Decimal(count));
    TokensParse(Location(site) + (" " + CountText(count)), Location(site), CountText(count), site, Decimal(site.line), count);
  }

  lemma TokensParse(line: string, place: string, counted: string, site: Site, number: string, count: U32)
    requires Tokens(line) == [place, counted] && SplitLast(place, ':') == Some((site.file, number))
    requires ParseU32(number) == Some(site.line) && "count=" <= counted && ParseU32(counted[6..]) == Some(count)
    ensures ParseSite(line) == Ok((site, count))
  {
  }

  lemma SiteTrims(site: Site, count: U32)
    requires NoWhite(site.file)
    ensures Trim(SiteLine(site, count)) == Location(site) + (" " + CountText(count)) != []
  {
    var core := Location(site) + (" " + CountText(count));
    assert core[0] == Location(site)[0];
    DigitsHaveNoWhite(Decimal(count));
    assert core[|core| - 1] == Decimal(count)[|Decimal(count)| - 1];
    TrimAround("  ", core, "");
    assert "  " + core + "" == SiteLine(site, count);
  }

  lemma SiteSteps(st: State, site: Site, count: U32)
    requires st.current.Some? && NoWhite(site.file)
    ensures Step(st, SiteLine(site, count)) == Ok(AddSite(st, site, count))
  {
    SiteTrims(site, count);
    SiteParses(site, count);
  }

  // ------------------------------------------------------------ all the lines

  // What reading a printed line does, whoever reads it.
  ghost predicate Obeys(step: (State, string) -> Result<State, ParseError>) {
    (forall st: State, line :: Inert(line) ==> step(st, line) == Ok(st))
    && (forall st: State, version :: Trimmed(version) ==> step(st, WineLine(version)) == Ok(st.(version := version)))
    && (forall st: State, key, crash :: step(st, HeaderLine(key, crash)) == Ok(OpenKey(st, key, crash)))
    && (forall st: State, site: Site, count: U32 :: st.current.Some? && NoWhite(site.file) ==>
          step(st, SiteLine(site, count)) == Ok(AddSite(st, site, count)))
  }

  lemma StepObeys()
    ensures Obeys(Step)
  {
    forall st: State, line | Inert(line) ensures Step(st, line) == Ok(st) {
      InertSteps(st, line);
    }
    forall st: State, version | Trimmed(version) ensures Step(st, WineLine(version)) == Ok(st.(version := version)) {
      WineSteps(st, version);
    }
    forall st: State, key, crash ensures Step(st, HeaderLine(key, crash)) == Ok(OpenKey(st, key, crash)) {
      HeaderSteps(st, key, crash);
    }
    forall st: State, site: Site, count: U32 | st.current.Some? && NoWhite(site.file)
      ensures Step(st, SiteLine(site, count)) == Ok(AddSite(st, site, count))
    {
      SiteSteps(st, site, count);
    }
  }

  type Reader = (State, string) -> Result<State, ParseError>

  lemma {:induction false} FoldConcat(step: Reader, st: State, a: seq<string>, b: seq<string>, n: nat)
    ensures Fold(step, st, a + b, n) == match Fold(step, st, a, n)
                                        case Err(e) => Err(e)
                                        case Ok(next) => Fold(step, next, b, n + |a|)
    decreases |a|
  {
    if a == [] {
      assert a + b == b;
    } else {
      assert (a + b)[1..] == a[1..] + b && (a + b)[0] == a[0];
      if step(st, a[0]).Ok? {
        FoldConcat(step, step(st, a[0]).value, a[1..], b, n + 1);
      }
    }
  }

  lemma FoldFront(step: Reader, st: State, next: State, line: string, lines: seq<string>, n: nat)
    requires step(st, line) == Ok(next)
    ensures Fold(step, st, [line] + lines, n) == Fold(step, next, lines, n + 1)
  {
    assert ([line] + lines)[1..] == lines;
  }

  lemma {:induction false} FoldInert(step: Reader, st: State, lines: seq<string>, n: nat)
    requires forall i :: 0 <= i < |lines| ==> step(st, lines[i]) == Ok(st)
    ensures Fold(step, st, lines, n) == Ok(st)
    decreases |lines|
  {
    if lines != [] {
      FoldInert(step, st, lines[1..], n + 1);
    }
  }

  // A state after the sites of `order` have been read.
  function Filled(sites: map<Site, U32>, order: seq<Site>, from: map<Site, U32>): map<Site, U32>
    requires forall site :: site in order ==> site in from
    decreases |order|
  {
    if order == [] then sites else Filled(sites[order[0] := from[order[0]]], order[1..], from)
  }

  lemma {:induction false} FilledHolds(sites: map<Site, U32>, order: seq<Site>, from: map<Site, U32>)
    requires forall site :: site in order ==> site in from
    ensures var r := Filled(sites, order, from);
            (forall site :: site in r <==> site in sites || site in order)
            && forall site :: site in r ==> r[site] == if site in order then from[site] else sites[site]
    decreases |order|
  {
    if order != [] {
      FilledHolds(sites[order[0] := from[order[0]]], order[1..], from);
    }
  }

  predicate CleanSites(sites: map<Site, U32>) {
    forall site :: site in sites ==> NoWhite(site.file)
  }

  function WithSites(st: State, sites: map<Site, U32>): State
    requires st.current.Some?
  {
    var key := st.current.value;
    State(st.version, st.entries[key := SubtestBaseline(st.entries[key].crash, sites)], st.current)
  }

  lemma {:induction false} FoldSites(step: Reader, st: State, order: seq<Site>, sites: map<Site, U32>, n: nat)
    requires Obeys(step) && st.current.Some?
    requires CleanSites(sites) && forall site :: site in order ==> site in sites
    ensures Fold(step, st, SiteLines(order, sites), n)
            == Ok(WithSites(st, Filled(st.entries[st.current.value].sites, order, sites)))
    decreases |order|
  {
    var key := st.current.value;
    if order == [] {
      assert st.entries[key := st.entries[key]] == st.entries;
    } else {
      var site := order[0];
      var next := AddSite(st, site, sites[site]);
      FoldSites(step, next, order[1..], sites, n + 1);
      FoldFront(step, st, next, SiteLine(site, sites[site]), SiteLines(order[1..], sites), n);
      SitesReplace(st, site, sites[site], Filled(st.entries[key].sites, order, sites));
    }
  }

  lemma SitesReplace(st: State, site: Site, count: U32, sites: map<Site, U32>)
    requires st.current.Some?
    ensures WithSites(AddSite(st, site, count), sites) == WithSites(st, sites)
  {
    var key := st.current.value;
    assert AddSite(st, site, count).entries[key := SubtestBaseline(st.entries[key].crash, sites)]
        == st.entries[key := SubtestBaseline(st.entries[key].crash, sites)];
  }

  function WithKey(st: State, b: Baseline, key: Key): State {
    if key in b.entries then State(st.version, st.entries[key := b.entries[key]], Some(key)) else st
  }

  lemma OpenedAndFilled(st: State, b: Baseline, key: Key)
    requires key in b.entries
    ensures WithSites(OpenKey(st, key, b.entries[key].crash), b.entries[key].sites) == WithKey(st, b, key)
  {
    var sub := b.entries[key];
    assert OpenKey(st, key, sub.crash).entries[key := sub] == st.entries[key := sub];
  }

  lemma FilledIsWhole(sites: map<Site, U32>)
    ensures Filled(map[], Sorted(sites.Keys), sites) == sites
  {
    FilledHolds(map[], Sorted(sites.Keys), sites);
  }

  lemma FoldKey(step: Reader, st: State, b: Baseline, key: Key, n: nat)
    requires Obeys(step) && Clean(b)
    ensures Fold(step, st, KeyLines(b, key), n) == Ok(WithKey(st, b, key))
  {
    if key in b.entries {
      var sub := b.entries[key];
      FoldHeader(step, st, key, sub, n);
      OpenedAndFilled(st, b, key);
    }
  }

  lemma FoldHeader(step: Reader, st: State, key: Key, sub: SubtestBaseline, n: nat)
    requires Obeys(step) && CleanSites(sub.sites)
    ensures Fold(step, st, [HeaderLine(key, sub.crash)] + SiteLines(Sorted(sub.sites.Keys), sub.sites), n)
            == Ok(WithSites(OpenKey(st, key, sub.crash), sub.sites))
  {
    var next := OpenKey(st, key, sub.crash);
    var lines := SiteLines(Sorted(sub.sites.Keys), sub.sites);
    FoldSites(step, next, Sorted(sub.sites.Keys), sub.sites, n + 1);
    FilledIsWhole(sub.sites);
    FoldFront(step, st, next, HeaderLine(key, sub.crash), lines, n);
  }

  predicate Clean(b: Baseline) {
    Trimmed(b.wineVersion) && '\n' !in b.wineVersion && forall key :: key in b.entries ==> CleanSites(b.entries[key].sites)
  }

  // What the entries of `keys` add to a state.
  ghost predicate Added(st: State, next: State, b: Baseline, keys: seq<Key>) {
    next.version == st.version
    && (forall key :: key in next.entries <==> key in st.entries || (key in keys && key in b.entries))
    && forall key :: key in next.entries ==>
                       next.entries[key] == if key in keys && key in b.entries then b.entries[key] else st.entries[key]
  }

  lemma AddedFront(st: State, next: State, b: Baseline, keys: seq<Key>)
    requires keys != [] && Added(WithKey(st, b, keys[0]), next, b, keys[1..])
    ensures Added(st, next, b, keys)
  {
    assert forall key :: key in keys <==> key == keys[0] || key in keys[1..];
  }

  ghost predicate ReadsKeys(step: Reader, block: Key -> seq<string>, b: Baseline) {
    forall st: State, key, n: nat :: Fold(step, st, block(key), n) == Ok(WithKey(st, b, key))
  }

  lemma {:induction false} FoldBlocks(step: Reader, st: State, block: Key -> seq<string>, b: Baseline, keys: seq<Key>, n: nat)
    requires ReadsKeys(step, block, b)
    ensures var r := Fold(step, st, Blocks(block, keys), n); r.Ok? && Added(st, r.value, b, keys)
    decreases |keys|
  {
    if keys != [] {
      FoldConcat(step, st, block(keys[0]), Blocks(block, keys[1..]), n);
      FoldBlocks(step, WithKey(st, b, keys[0]), block, b, keys[1..], n + |block(keys[0])|);
      AddedFront(st, Fold(step, st, Blocks(block, keys), n).value, b, keys);
    }
  }

  // ---------------------------------------------------------- the comment lines

  predicate Quiet(s: string) {
    '\n' !in s && '\r' !in s
  }

  // Neither breaks its line nor reads as the version.
  predicate PlainNote(note: Note) {
    AllWhite(note.blanks) && Quiet(note.blanks)
    && note.text != [] && !IsWhite(note.text[0]) && note.text[0] != 'W' && Quiet(note.text)
  }

  lemma TitleIsPlain()
    ensures PlainNote(TITLE)
  {
    assert Quiet("mtld3d d3d9 ");
    assert Quiet("conformance ");
    assert Quiet("baseline \U{2014} ");
    assert Quiet("per-site ");
    assert Quiet("failure counts.");
  }

  lemma RegenerateIsPlain()
    ensures PlainNote(REGENERATE)
  {
    assert Quiet("Regenerate with ");
    assert Quiet("'make ");
    assert Quiet("conformance-");
    assert Quiet("baseline'. ");
    assert Quiet("Classifications ");
    assert Quiet("+ triage prose");
  }

  lemma ProseIsPlain()
    ensures PlainNote(PROSE)
  {
    assert Quiet("live in ");
    assert Quiet("CONFORMANCE.md ");
    assert Quiet("('Per-cluster ");
    assert Quiet("classification')");
    assert Quiet("; a runner ");
    assert Quiet("unit test");
  }

  lemma CoveringIsPlain()
    ensures PlainNote(COVERING)
  {
    assert Quiet("keeps the two ");
    assert Quiet("files covering ");
    assert Quiet("the same sites.");
  }

  lemma FormatIsPlain()
    ensures PlainNote(FORMAT)
  {
    assert Quiet("Format: ");
    assert Quiet("\"[leg/subtest] ");
    assert Quiet("crash=<0|1>\" ");
    assert Quiet("header, then ");
    assert Quiet("indented");
  }

  lemma SitesIsPlain()
    ensures PlainNote(SITES)
  {
    assert Quiet("\"  <file>.c:");
    assert Quiet("<line> count=");
    assert Quiet("<n>\". A leg ");
    assert Quiet("of the form");
  }

  lemma IntelIsPlain()
    ensures PlainNote(INTEL)
  {
    assert Quiet("\"<arch>+intel\" ");
    assert Quiet("is the run under ");
    assert Quiet("the intel.* ");
    assert Quiet("config keys,");
  }

  lemma ScaledIsPlain()
    ensures PlainNote(SCALED)
  {
    assert Quiet("\"<arch>+scale\" ");
    assert Quiet("the run at ");
    assert Quiet("render.scale ");
    assert Quiet("= 0.75, and");
  }

  lemma Mac2IsPlain()
    ensures PlainNote(MAC2)
  {
    assert Quiet("\"<leg>@mac2\" ");
    assert Quiet("the run on an ");
    assert Quiet("Intel/AMD GPU ");
    assert Quiet("(no suffix: ");
    assert Quiet("Apple).");
  }

  lemma NotesArePlain()
    ensures forall i :: 0 <= i < |NOTES| ==> PlainNote(NOTES[i])
  {
    RegenerateIsPlain();
    ProseIsPlain();
    CoveringIsPlain();
    FormatIsPlain();
    SitesIsPlain();
    IntelIsPlain();
    ScaledIsPlain();
    Mac2IsPlain();
  }

  predicate Passive(line: string) {
    Inert(line) && OneLine(line)
  }

  lemma PlainNoteIsPassive(note: Note)
    requires PlainNote(note)
    ensures Passive(NoteLine(note))
  {
    var line := NoteLine(note);
    CommentIsInert(note.blanks, note.text);
    assert line[|line| - 1] == note.text[|note.text| - 1];
  }

  lemma {:induction false} NoteLinesArePassive(notes: seq<Note>)
    requires forall i :: 0 <= i < |notes| ==> PlainNote(notes[i])
    ensures forall i :: 0 <= i < |NoteLines(notes)| ==> Passive(NoteLines(notes)[i])
  {
    if notes != [] {
      PlainNoteIsPassive(notes[0]);
      NoteLinesArePassive(notes[1..]);
    }
  }

  // The comment lines behind the version, and the empty line.
  lemma EndingIsPassive()
    ensures forall i :: 0 <= i < |NoteLines(NOTES) + [""]| ==> Passive((NoteLines(NOTES) + [""])[i])
  {
    NotesArePlain();
    NoteLinesArePassive(NOTES);
    assert Passive("");
    PassiveAppend(NoteLines(NOTES), "");
  }

  lemma PassiveAppend(lines: seq<string>, line: string)
    requires (forall i :: 0 <= i < |lines| ==> Passive(lines[i])) && Passive(line)
    ensures forall i :: 0 <= i < |lines + [line]| ==> Passive((lines + [line])[i])
  {
  }

  lemma FoldPreamble(step: Reader, version: string)
    requires Obeys(step) && Trimmed(version)
    ensures Fold(step, START, Preamble(version), 1) == Ok(State(version, map[], None))
  {
    TitleIsPlain();
    PlainNoteIsPassive(TITLE);
    EndingIsPassive();
    FoldPreambleLines(step, NoteLine(TITLE), version, NoteLines(NOTES) + [""]);
  }

  lemma FoldPreambleLines(step: Reader, title: string, version: string, ending: seq<string>)
    requires Obeys(step) && Trimmed(version) && Inert(title)
    requires forall i :: 0 <= i < |ending| ==> Passive(ending[i])
    ensures Fold(step, START, [title] + [WineLine(version)] + ending, 1) == Ok(State(version, map[], None))
  {
    var wine, st := WineLine(version), State(version, map[], None);
    assert step(START, title) == Ok(START) && step(START, wine) == Ok(st);
    FoldFront(step, START, START, title, [wine] + ending, 1);
    FoldFront(step, START, st, wine, ending, 2);
    assert [title] + [wine] + ending == [title] + ([wine] + ending);
    FoldInert(step, st, ending, 3);
  }

  // Every printed line is one line.
  lemma {:induction false} SiteLinesAreOneLine(order: seq<Site>, sites: map<Site, U32>)
    requires CleanSites(sites) && forall site :: site in order ==> site in sites
    ensures forall line :: line in SiteLines(order, sites) ==> OneLine(line)
  {
    if order != [] {
      SiteIsOneLine(order[0], sites[order[0]]);
      SiteLinesAreOneLine(order[1..], sites);
    }
  }

  lemma SiteIsOneLine(site: Site, count: U32)
    requires NoWhite(site.file)
    ensures OneLine(SiteLine(site, count))
  {
    var line := SiteLine(site, count);
    assert line[|line| - 1] == Decimal(count)[|Decimal(count)| - 1];
    assert IsDigit(Decimal(count)[|Decimal(count)| - 1]);
    assert '\n' !in site.file && '\n' !in Decimal(site.line) && '\n' !in Decimal(count);
  }

  lemma HeaderIsOneLine(key: Key, crash: bool)
    ensures OneLine(HeaderLine(key, crash))
  {
    LegTextIsPlain(key.leg);
    SubtestIsPlain(key.subtest);
    var line := HeaderLine(key, crash);
    assert line[|line| - 1] == CrashText(crash)[6];
  }

  lemma {:induction false} EntryLinesAreOneLine(b: Baseline, keys: seq<Key>)
    requires Clean(b)
    ensures forall line :: line in EntryLines(b, keys) ==> OneLine(line)
  {
    if keys != [] {
      EntryLinesAreOneLine(b, keys[1..]);
      if keys[0] in b.entries {
        var sub := b.entries[keys[0]];
        HeaderIsOneLine(keys[0], sub.crash);
        SiteLinesAreOneLine(Sorted(sub.sites.Keys), sub.sites);
      }
    }
  }

  lemma PreambleIsOneLine(version: string)
    requires Trimmed(version) && '\n' !in version
    ensures forall line :: line in Preamble(version) ==> OneLine(line)
  {
    WineIsOneLine(version);
    TitleIsPlain();
    PlainNoteIsPassive(TITLE);
    EndingIsPassive();
    PreambleLines(NoteLine(TITLE), WineLine(version), NoteLines(NOTES) + [""]);
  }

  lemma WineIsOneLine(version: string)
    requires Trimmed(version) && '\n' !in version
    ensures OneLine(WineLine(version))
  {
    var wine := WineLine(version);
    assert version != [] ==> wine[|wine| - 1] == version[|version| - 1];
  }

  lemma PreambleLines(title: string, wine: string, ending: seq<string>)
    requires Passive(title) && OneLine(wine) && forall i :: 0 <= i < |ending| ==> Passive(ending[i])
    ensures forall line :: line in [title] + [wine] + ending ==> OneLine(line)
  {
    assert forall i :: 0 <= i < |ending| ==> OneLine(ending[i]);
  }

  // ----------------------------------------------------------- the round trip

  lemma CleanReadsBack(b: Baseline)
    requires Clean(b)
    ensures Parsed(Unlines(BaselineLines(b))) == Ok(b)
  {
    var keys := KeysInOrder();
    StepObeys();
    PrintedLines(b);
    ReadsLines(Step, b, keys);
  }

  lemma PrintedLines(b: Baseline)
    requires Clean(b)
    ensures Lines(Unlines(BaselineLines(b))) == BaselineLines(b)
  {
    PreambleIsOneLine(b.wineVersion);
    EntryLinesAreOneLine(b, KeysInOrder());
    AllOneLine(Preamble(b.wineVersion), EntryLines(b, KeysInOrder()));
  }

  lemma AllOneLine(a: seq<string>, b: seq<string>)
    requires (forall line :: line in a ==> OneLine(line)) && forall line :: line in b ==> OneLine(line)
    ensures Lines(Unlines(a + b)) == a + b
  {
    SplitsBack(a + b);
  }

  lemma ReadsLines(step: Reader, b: Baseline, keys: seq<Key>)
    requires Obeys(step) && Clean(b) && forall key :: key in keys
    ensures var r := Fold(step, START, Preamble(b.wineVersion) + EntryLines(b, keys), 1);
            r.Ok? && r.value.version == b.wineVersion && r.value.entries == b.entries
  {
    var block := key => KeyLines(b, key);
    forall st: State, key, n: nat ensures Fold(step, st, block(key), n) == Ok(WithKey(st, b, key)) {
      FoldKey(step, st, b, key, n);
    }
    FoldPreamble(step, b.wineVersion);
    ReadsBlocks(step, Preamble(b.wineVersion), block, b, keys);
  }

  lemma ReadsBlocks(step: Reader, preamble: seq<string>, block: Key -> seq<string>, b: Baseline, keys: seq<Key>)
    requires Fold(step, START, preamble, 1) == Ok(State(b.wineVersion, map[], None))
    requires ReadsKeys(step, block, b) && forall key :: key in keys
    ensures var r := Fold(step, START, preamble + Blocks(block, keys), 1);
            r.Ok? && r.value.version == b.wineVersion && r.value.entries == b.entries
  {
    var st: State, n := State(b.wineVersion, map[], None), 1 + |preamble|;
    FoldConcat(step, START, preamble, Blocks(block, keys), 1);
    FoldBlocks(step, st, block, b, keys, n);
    AddedIsWhole(st, Fold(step, st, Blocks(block, keys), n).value, b, keys);
  }

  lemma AddedIsWhole(st: State, next: State, b: Baseline, keys: seq<Key>)
    requires Added(st, next, b, keys) && st.entries == map[] && forall key :: key in keys
    ensures next.entries == b.entries
  {
  }

  predicate CleanState(st: State) {
    Clean(Baseline(st.version, st.entries))
  }

  lemma StepKeepsClean(st: State, raw: string)
    requires CleanState(st) && '\n' !in raw
    ensures Step(st, raw).Ok? ==> CleanState(Step(st, raw).value)
  {
    if raw != [] {
      var rest := TrimStart(raw[1..]);
      TrimStartKeeps(raw[1..], '\n');
      if "Wine:" <= rest {
        TrimIsTrimmed(rest[5..]);
        TrimKeeps(rest[5..], '\n');
      }
    }
  }

  lemma {:induction false} FoldKeepsClean(step: Reader, st: State, lines: seq<string>, n: nat)
    requires CleanState(st) && forall i :: 0 <= i < |lines| ==> '\n' !in lines[i]
    requires forall st: State, raw :: CleanState(st) && '\n' !in raw && step(st, raw).Ok? ==> CleanState(step(st, raw).value)
    ensures Fold(step, st, lines, n).Ok? ==> CleanState(Fold(step, st, lines, n).value)
    decreases |lines|
  {
    if lines != [] && step(st, lines[0]).Ok? {
      FoldKeepsClean(step, step(st, lines[0]).value, lines[1..], n + 1);
    }
  }

  // Whatever text it came from, a parsed baseline is clean.
  lemma ParsedIsClean(text: string)
    ensures Parsed(text).Ok? ==> Clean(Parsed(text).value)
  {
    LinesHaveNoFeed(text);
    forall st: State, raw | CleanState(st) && '\n' !in raw && Step(st, raw).Ok? ensures CleanState(Step(st, raw).value) {
      StepKeepsClean(st, raw);
    }
    FoldKeepsClean(Step, START, Lines(text), 1);
  }

  /**
    Parsing what was printed gives the baseline back exactly when its version is trimmed
    and on one line and its file names hold no white space.
  */
  lemma RoundTrip(b: Baseline)
    ensures Parsed(Unlines(BaselineLines(b))) == Ok(b) <==> Clean(b)
  {
    ParsedIsClean(Unlines(BaselineLines(b)));
    if Clean(b) {
      CleanReadsBack(b);
    }
  }

  // A baseline read from any file survives being written and read again.
  lemma RewriteIsStable(text: string)
    ensures Parsed(text).Ok? ==> Parsed(Unlines(BaselineLines(Parsed(text).value))) == Parsed(text)
  {
    ParsedIsClean(text);
    if Parsed(text).Ok? {
      CleanReadsBack(Parsed(text).value);
    }
  }

  // The lines with a carriage return behind each.
  function Returned(lines: seq<string>): seq<string> {
    if lines == [] then [] else [lines[0] + ['\r']] + Returned(lines[1..])
  }

  lemma {:induction false} LinesOfReturned(lines: seq<string>)
    requires forall i :: 0 <= i < |lines| ==> '\n' !in lines[i]
    ensures Lines(Unlines(Returned(lines))) == lines
  {
    if lines != [] {
      var line, rest := lines[0] + ['\r'], Unlines(Returned(lines[1..]));
      var text := line + ['\n'] + rest;
      assert Returned(lines)[1..] == Returned(lines[1..]);
      FindFirst(line, '\n', rest);
      assert text[..|line|] == line && text[|line| + 1..] == rest;
      assert StripReturn(line) == lines[0];
      LinesOfReturned(lines[1..]);
    }
  }

  // A file saved with carriage returns means what it meant without them.
  lemma ReturnsAreDropped(lines: seq<string>)
    requires forall i :: 0 <= i < |lines| ==> OneLine(lines[i])
    ensures Parsed(Unlines(Returned(lines))) == Parsed(Unlines(lines))
  {
    LinesOfReturned(lines);
    LinesOfUnlines(lines);
  }
}
