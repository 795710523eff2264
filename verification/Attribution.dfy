/**
  The crash-attribution loop (unix/e2e/src/attribute.rs): run one binary's tests to
  completion over an adversarial process launcher and report a verdict for each.

  Report texts, notes and kept files are left out; a process's standard error reaches
  the decisions as the names it announced and the names its panic reports give, and its
  standard output as the libtest events and the declared exit.
*/
module Attribution {
  import opened TestEvents
  import opened Wrappers

  const U32_MAX: nat := 0xFFFF_FFFF

  datatype ExitKind = Code(code: int) | Signal(signal: int) | TimedOut | Hung | Stopped

  datatype Declared = Declared(name: Name, code: int)

  datatype ProcessEnd = ProcessEnd(
    kind: ExitKind,
    events: seq<Event>,
    declared: Option<Declared>,
    announcements: seq<Name>,
    panicked: seq<Name>,
    gpuHang: bool)

  // The launcher's answers, by how many processes have been asked for so far.
  datatype Launcher = Launcher(
    batchLen: (nat, seq<Name>, nat) -> Result<nat, string>,
    run: (nat, Option<seq<Name>>, nat) -> Result<ProcessEnd, string>,
    list: Result<seq<Name>, string>)

  datatype Verdict = Passed | FailedVerdict | IgnoredVerdict | NotRun

  datatype BinaryOutcome = Complete | GpuHang
  datatype BinaryRun = BinaryRun(processes: nat, failed: bool, outcome: BinaryOutcome)

  // What the run did, in order: processes that ended, and verdicts reported.
  datatype Action =
    | Launched(names: Option<seq<Name>>, threads: nat, end: ProcessEnd)
    | Reported(name: Name, verdict: Verdict)

  // What the events of one process come to.
  datatype Round = Round(finished: seq<(Name, Outcome)>, started: Option<Name>, summary: Option<Summary>)

  // Tests waiting for a process of their own, and its width.
  datatype Batch = Batch(names: seq<Name>, threads: nat)

  // ---------------------------------------------------------------- rounds

  function Counted(s: Summary): nat {
    s.passed + s.failed + s.ignored
  }

  // The event callback, folded over the events in the order they arrived.
  function Digest(events: seq<Event>): Round {
    if events == [] then Round([], None, None) else
    var before := Digest(events[..|events| - 1]);
    match events[|events| - 1]
    case Started(name) => before.(started := Some(name))
    case Finished(name, outcome) => before.(started := None, finished := before.finished + [(name, outcome)])
    case Tally(summary) => before.(summary := Some(summary))
  }

  // The last test to start, if nothing finished after it.
  predicate RunsFrom(events: seq<Event>, i: int, name: Name) {
    0 <= i < |events| && events[i] == Started(name)
    && forall j :: i < j < |events| ==> !events[j].Started? && !events[j].Finished?
  }

  predicate LastTallyAt(events: seq<Event>, i: int, summary: Summary) {
    0 <= i < |events| && events[i] == Tally(summary) && forall j :: i < j < |events| ==> !events[j].Tally?
  }

  lemma DigestLast(events: seq<Event>)
    requires events != []
    ensures
      var front, last := events[..|events| - 1], events[|events| - 1];
      match last
      case Started(name) => Digest(events) == Digest(front).(started := Some(name))
      case Finished(name, outcome) =>
        Digest(events) == Digest(front).(started := None, finished := Digest(front).finished + [(name, outcome)])
      case Tally(summary) => Digest(events) == Digest(front).(summary := Some(summary))
  {
  }

  lemma {:induction false} DigestRunning(events: seq<Event>, name: Name)
    ensures Digest(events).started == Some(name) <==> exists i :: RunsFrom(events, i, name)
  {
    if events != [] {
      var front, last := events[..|events| - 1], events[|events| - 1];
      DigestRunning(front, name);
      DigestLast(events);
      assert last == Started(name) ==> RunsFrom(events, |events| - 1, name);
      assert last.Tally? ==> forall i :: RunsFrom(front, i, name) <==> RunsFrom(events, i, name);
    }
  }

  lemma {:induction false} DigestTally(events: seq<Event>, summary: Summary)
    ensures Digest(events).summary == Some(summary) <==> exists i :: LastTallyAt(events, i, summary)
  {
    if events != [] {
      var front, last := events[..|events| - 1], events[|events| - 1];
      DigestTally(front, summary);
      DigestLast(events);
      assert last == Tally(summary) ==> LastTallyAt(events, |events| - 1, summary);
      assert !last.Tally? ==> forall i :: LastTallyAt(front, i, summary) <==> LastTallyAt(events, i, summary);
    }
  }

  lemma {:induction false} DigestFinished(events: seq<Event>, name: Name, outcome: Outcome)
    ensures (name, outcome) in Digest(events).finished <==> Finished(name, outcome) in events
  {
    if events != [] {
      DigestFinished(events[..|events| - 1], name, outcome);
      DigestLast(events);
      assert events == events[..|events| - 1] + [events[|events| - 1]];
    }
  }

  // What the callback's bookkeeping comes to, in terms of the events.
  lemma DigestMeans(events: seq<Event>, name: Name, outcome: Outcome, summary: Summary)
    ensures (name, outcome) in Digest(events).finished <==> Finished(name, outcome) in events
    ensures Digest(events).started == Some(name) <==> exists i :: RunsFrom(events, i, name)
    ensures Digest(events).summary == Some(summary) <==> exists i :: LastTallyAt(events, i, summary)
  {
    DigestFinished(events, name, outcome);
    DigestRunning(events, name);
    DigestTally(events, summary);
  }

  function FirstNames(finished: seq<(Name, Outcome)>): (r: seq<Name>)
    ensures |r| == |finished|
    ensures forall i :: 0 <= i < |r| ==> r[i] == finished[i].0
  {
    seq(|finished|, i requires 0 <= i < |finished| => finished[i].0)
  }

  // Every test the process accounts for.
  function RoundNames(end: ProcessEnd): seq<Name> {
    (if end.declared.Some? then [end.declared.value.name] else []) + FirstNames(Digest(end.events).finished)
  }

  predicate NoDuplicates(names: seq<Name>) {
    forall i, j :: 0 <= i < j < |names| ==> names[i] != names[j]
  }

  /**
    What a process may do: crash, hang, lose lines and misname culprits at will, but
    finish only tests it was asked for, each once; a test that declares its own exit
    prints no result and is alone in a whole-binary run; a whole-binary summary counts
    every test; and a process that reported a failure does not exit with 0.
  */
  ghost predicate HonestEnd(names: Option<seq<Name>>, tests: seq<Name>, end: ProcessEnd) {
    var round := Digest(end.events);
    var asked := if names.Some? then names.value else tests;
    && (forall n :: n in RoundNames(end) ==> n in asked)
    && NoDuplicates(RoundNames(end))
    && (names.None? && end.declared.Some? ==> |tests| == 1)
    && (names.None? && round.summary.Some? ==> Counted(round.summary.value) == |tests|)
    && (end.kind == Code(0) ==> forall i :: 0 <= i < |round.finished| ==> round.finished[i].1 != Failed)
  }

  ghost predicate Honest(launcher: Launcher, tests: seq<Name>) {
    && NoDuplicates(tests)
    && (launcher.list.Ok? ==> launcher.list.value == tests)
    && (forall k, names, threads :: launcher.run(k, names, threads).Ok? ==>
          HonestEnd(names, tests, launcher.run(k, names, threads).value))
  }

  // ------------------------------------------------------------------ logs

  function Names(log: seq<Action>): seq<Name> {
    if log == [] then [] else
    Names(log[..|log| - 1]) + (if log[|log| - 1].Reported? then [log[|log| - 1].name] else [])
  }

  predicate IsFailed(a: Action) {
    a.Reported? && a.verdict.FailedVerdict?
  }

  predicate HasFailed(log: seq<Action>) {
    exists i :: 0 <= i < |log| && IsFailed(log[i])
  }

  predicate HasHang(log: seq<Action>) {
    exists i :: 0 <= i < |log| && log[i].Launched? && log[i].end.gpuHang
  }

  function VerdictOf(outcome: Outcome): Verdict {
    match outcome
    case Ok => Passed
    case Failed => FailedVerdict
    case Ignored => IgnoredVerdict
  }

  // What a process itself said of a test: a printed outcome, or the exit it declared and kept or not.
  predicate Vouches(end: ProcessEnd, name: Name, verdict: Verdict) {
    || (verdict.Passed? && Finished(name, Outcome.Ok) in end.events)
    || (verdict.FailedVerdict? && Finished(name, Failed) in end.events)
    || (verdict.IgnoredVerdict? && Finished(name, Ignored) in end.events)
    || (end.declared.Some? && end.declared.value.name == name
        && verdict == if end.kind == Code(end.declared.value.code) then Passed else FailedVerdict)
  }

  function DeclaredVerdict(end: ProcessEnd, declared: Declared): Verdict {
    if end.kind == Code(declared.code) then Passed else FailedVerdict
  }

  predicate Supported(log: seq<Action>, name: Name, verdict: Verdict) {
    exists i :: 0 <= i < |log| && log[i].Launched? && Vouches(log[i].end, name, verdict)
  }

  predicate CleanEnd(end: ProcessEnd) {
    end.declared.Some? || (end.kind == Code(0) && Digest(end.events).summary.Some?)
  }

  // libtest's own tally, when it got that far, counts the results that were read.
  predicate TallyAgrees(end: ProcessEnd) {
    var round := Digest(end.events);
    round.summary.Some?
    && var s := round.summary.value;
       s.passed + s.failed + s.ignored == if |round.finished| <= U32_MAX then |round.finished| else U32_MAX
  }

  predicate Accounted(end: ProcessEnd) {
    end.declared.Some? || TallyAgrees(end)
  }

  // ------------------------------------------------------------- convictions

  // The process declared its exit, or tallied its tests and ended with 0.
  predicate EndedWell(end: ProcessEnd) {
    end.declared.Some? || (end.kind == Code(0) && exists i :: 0 <= i < |end.events| && end.events[i].Tally?)
  }

  lemma {:induction false} SummaryMeansTally(events: seq<Event>)
    ensures Digest(events).summary.Some? <==> exists i :: 0 <= i < |events| && events[i].Tally?
  {
    if events != [] {
      var front := events[..|events| - 1];
      SummaryMeansTally(front);
      DigestLast(events);
      if i :| 0 <= i < |front| && front[i].Tally? {
        assert events[i].Tally?;
      }
    }
  }

  lemma CleanIsEndedWell(end: ProcessEnd)
    ensures CleanEnd(end) <==> EndedWell(end)
  {
    SummaryMeansTally(end.events);
  }

  // Asked of the process and without a verdict so far.
  predicate Open(before: seq<Action>, launch: Action, tests: seq<Name>, name: Name)
    requires launch.Launched?
  {
    name in Asked(launch.names, tests) && name !in Names(before)
  }

  // `name` is the first of `names` that is open.
  predicate FirstOpen(before: seq<Action>, launch: Action, tests: seq<Name>, names: seq<Name>, name: Name)
    requires launch.Launched?
  {
    exists i :: 0 <= i < |names| && names[i] == name && Open(before, launch, tests, name)
                && forall j :: 0 <= j < i ==> !Open(before, launch, tests, names[j])
  }

  predicate NoneOpen(before: seq<Action>, launch: Action, tests: seq<Name>, names: seq<Name>)
    requires launch.Launched?
  {
    forall n :: n in names ==> !Open(before, launch, tests, n)
  }

  // The process ended as it should and did not report on some test it was asked for: it does
  // not know the test, or it was given a second chance and still reported nothing.
  predicate Ran(launch: Action)
    requires launch.Launched?
  {
    EndedWell(launch.end) && (Accounted(launch.end) || (launch.names.Some? && RoundNames(launch.end) == []))
  }

  // A serial process that died before it finished or started any test.
  predicate GotNowhere(launch: Action)
    requires launch.Launched?
  {
    launch.threads == 1 && Digest(launch.end.events).finished == [] && Digest(launch.end.events).started.None?
  }

  // The test that had started, or else the first one open.
  predicate WasRunning(before: seq<Action>, launch: Action, tests: seq<Name>, name: Name)
    requires launch.Launched?
  {
    var started := Digest(launch.end.events).started;
    if started.Some? && Open(before, launch, tests, started.value) then name == started.value
    else FirstOpen(before, launch, tests, Asked(launch.names, tests), name)
  }

  predicate OnlyOpen(before: seq<Action>, launch: Action, tests: seq<Name>, name: Name)
    requires launch.Launched?
  {
    Open(before, launch, tests, name) && forall n :: n in Asked(launch.names, tests) && n !in Names(before) ==> n == name
  }

  /**
    Grounds to fail a test no process reported on. After a clean end, that the process ran
    without it. After any other, the first open test a panic report names and no other; with
    none named, anybody if a serial process got nowhere, and otherwise the test that was
    running, provided the process was serial or left no other test open.
  */
  predicate Convicts(before: seq<Action>, launch: Action, tests: seq<Name>, name: Name)
    requires launch.Launched?
  {
    if EndedWell(launch.end) then Ran(launch) && Open(before, launch, tests, name)
    else if !NoneOpen(before, launch, tests, launch.end.panicked) then
      FirstOpen(before, launch, tests, launch.end.panicked, name)
    else
      || GotNowhere(launch)
      || ((launch.threads == 1 || OnlyOpen(before, launch, tests, name)) && WasRunning(before, launch, tests, name))
  }

  function Asked(names: Option<seq<Name>>, tests: seq<Name>): seq<Name> {
    if names.Some? then names.value else tests
  }

  ghost predicate LastLaunch(log: seq<Action>, i: nat) {
    i < |log| && log[i].Launched? && forall j :: i < j < |log| ==> !log[j].Launched?
  }

  ghost predicate Convicted(before: seq<Action>, tests: seq<Name>, name: Name) {
    exists i: nat :: LastLaunch(before, i) && Convicts(before, before[i], tests, name)
  }

  /**
    What may follow `before`: nothing after a GPU hang; under fail-fast no process after
    a failure; a pass or an ignore only on some process's word; a failure on a process's
    word or on the grounds above; and `NotRun` only under fail-fast, after a failure.
  */
  ghost predicate MayFollow(before: seq<Action>, next: Action, failFast: bool, tests: seq<Name>) {
    && !HasHang(before)
    && (next.Launched? ==> !(failFast && HasFailed(before)))
    && (next.Reported? ==>
          match next.verdict
          case NotRun => failFast && HasFailed(before)
          case FailedVerdict => Supported(before, next.name, FailedVerdict) || Convicted(before, tests, next.name)
          case _ => Supported(before, next.name, next.verdict))
  }

  ghost predicate OrderlyAt(log: seq<Action>, i: nat, failFast: bool, tests: seq<Name>) {
    i < |log| && MayFollow(log[..i], log[i], failFast, tests)
  }

  ghost predicate Orderly(log: seq<Action>, failFast: bool, tests: seq<Name>) {
    forall i: nat :: i < |log| ==> OrderlyAt(log, i, failFast, tests)
  }

  // Every result a process printed or declared was reported as it said.
  ghost predicate PassedOn(log: seq<Action>, end: ProcessEnd) {
    && (forall n :: Finished(n, Outcome.Ok) in end.events ==> Reported(n, Passed) in log)
    && (forall n :: Finished(n, Failed) in end.events ==> Reported(n, FailedVerdict) in log)
    && (forall n :: Finished(n, Ignored) in end.events ==> Reported(n, IgnoredVerdict) in log)
    && (end.declared.Some? ==>
          Reported(end.declared.value.name,
                   if end.kind == Code(end.declared.value.code) then Passed else FailedVerdict) in log)
  }

  ghost predicate AllPassedOn(log: seq<Action>) {
    forall i :: 0 <= i < |log| && log[i].Launched? && !log[i].end.gpuHang ==> PassedOn(log, log[i].end)
  }

  // ------------------------------------------------------- lemmas about logs

  lemma NamesAppend(log: seq<Action>, a: Action)
    ensures Names(log + [a]) == Names(log) + (if a.Reported? then [a.name] else [])
  {
    assert (log + [a])[..|log|] == log;
  }

  lemma FailedAppend(log: seq<Action>, a: Action)
    ensures HasFailed(log + [a]) <==> HasFailed(log) || IsFailed(a)
  {
    var log' := log + [a];
    assert log'[|log|] == a;
    if HasFailed(log) {
      var i :| 0 <= i < |log| && IsFailed(log[i]);
      assert IsFailed(log'[i]);
    }
  }

  lemma HangAppend(log: seq<Action>, a: Action)
    ensures HasHang(log + [a]) <==> HasHang(log) || (a.Launched? && a.end.gpuHang)
  {
    var log' := log + [a];
    assert log'[|log|] == a;
    if HasHang(log) {
      var i :| 0 <= i < |log| && log[i].Launched? && log[i].end.gpuHang;
      assert log'[i].Launched?;
    }
  }

  lemma OrderlyAppend(log: seq<Action>, a: Action, failFast: bool, tests: seq<Name>)
    requires Orderly(log, failFast, tests) && MayFollow(log, a, failFast, tests)
    ensures Orderly(log + [a], failFast, tests)
  {
    var log' := log + [a];
    forall i: nat | i < |log'|
      ensures OrderlyAt(log', i, failFast, tests)
    {
      if i < |log| {
        assert OrderlyAt(log, i, failFast, tests);
        assert log'[..i] == log[..i];
      } else {
        assert log'[..i] == log;
      }
    }
  }

  function Elements(names: seq<Name>): set<Name> {
    set n | n in names
  }

  // Those of `names` with no verdict yet, in order.
  function Undone(names: seq<Name>, done: set<Name>): seq<Name> {
    if names == [] then [] else
    (if names[0] in done then [] else [names[0]]) + Undone(names[1..], done)
  }

  lemma {:induction false} UndoneCounts(names: seq<Name>, done: set<Name>, n: Name)
    ensures multiset(Undone(names, done))[n] == if n in done then 0 else multiset(names)[n]
  {
    if names != [] {
      UndoneCounts(names[1..], done, n);
      assert names == [names[0]] + names[1..];
    }
  }

  lemma {:induction false} UndoneIs(names: seq<Name>, done: set<Name>)
    ensures forall n :: n in Undone(names, done) <==> n in names && n !in done
    ensures NoDuplicates(names) ==> NoDuplicates(Undone(names, done))
  {
    if names != [] {
      UndoneIs(names[1..], done);
      assert names == [names[0]] + names[1..];
      assert NoDuplicates(names) ==> names[0] !in names[1..];
    }
  }

  // The first undone is the first of the names without a verdict.
  lemma {:induction false} UndoneFirst(names: seq<Name>, done: set<Name>) returns (i: nat)
    requires Undone(names, done) != []
    ensures i < |names| && names[i] == Undone(names, done)[0] && names[i] !in done
    ensures forall j :: 0 <= j < i ==> names[j] in done
  {
    if names[0] in done {
      var rest := UndoneFirst(names[1..], done);
      i := rest + 1;
    } else {
      i := 0;
    }
  }

  lemma {:induction false} NoDuplicatesCounts(names: seq<Name>, n: Name)
    requires NoDuplicates(names)
    ensures multiset(names)[n] <= 1
  {
    if names != [] {
      NoDuplicatesCounts(names[1..], n);
      assert names == [names[0]] + names[1..];
    }
  }

  // The tests a process accounted for, and those it left, are those it was asked for.
  lemma RoundConserves(asked: seq<Name>, reported: seq<Name>, done: set<Name>)
    requires forall n :: multiset(asked)[n] <= 1
    requires NoDuplicates(reported)
    requires forall n :: n in reported ==> n in asked
    requires forall n :: n in asked ==> n !in done
    ensures multiset(reported) + multiset(Undone(asked, done + Elements(reported))) == multiset(asked)
  {
    forall n: Name
      ensures (multiset(reported) + multiset(Undone(asked, done + Elements(reported))))[n] == multiset(asked)[n]
    {
      UndoneCounts(asked, done + Elements(reported), n);
      NoDuplicatesCounts(reported, n);
      assert n in multiset(reported) <==> n in reported;
      assert n in multiset(asked) <==> n in asked;
    }
  }

  // ------------------------------------------------------------- the books

  // The runner's variables: `remaining`, `threads`, `deferred`, `done`, `failed`, and
  // what it has done so far.
  datatype Books = Books(
    remaining: Option<seq<Name>>, threads: nat, deferred: seq<Batch>,
    done: set<Name>, failed: bool, log: seq<Action>)

  function Post(b: Books, name: Name, verdict: Verdict): Books {
    b.(log := b.log + [Reported(name, verdict)], done := b.done + {name}, failed := b.failed || verdict.FailedVerdict?)
  }

  function Flat(deferred: seq<Batch>): seq<Name> {
    if deferred == [] then [] else deferred[0].names + Flat(deferred[1..])
  }

  ghost predicate Kept(b: Books, failFast: bool, tests: seq<Name>) {
    && Orderly(b.log, failFast, tests)
    && (b.failed <==> HasFailed(b.log))
    && !HasHang(b.log)
  }

  ghost predicate Sound(b: Books, failFast: bool, tests: seq<Name>) {
    Kept(b, failFast, tests) && b.done == Elements(Names(b.log))
  }

  // Verdicts given, tests still owed and tests set aside are together the targets.
  ghost predicate Conserved(b: Books, owed: seq<Name>, targets: seq<Name>) {
    multiset(Names(b.log)) + multiset(owed) + multiset(Flat(b.deferred)) == multiset(targets)
  }

  // `log'` adds nothing but verdicts to `log`.
  ghost predicate OnlyReports(log: seq<Action>, log': seq<Action>) {
    log <= log' && forall i :: |log| <= i < |log'| ==> log'[i].Reported?
  }

  lemma PostIsSound(b: Books, name: Name, verdict: Verdict, failFast: bool, tests: seq<Name>)
    requires Sound(b, failFast, tests)
    requires MayFollow(b.log, Reported(name, verdict), failFast, tests)
    ensures Sound(Post(b, name, verdict), failFast, tests)
    ensures Names(Post(b, name, verdict).log) == Names(b.log) + [name]
  {
    var a := Reported(name, verdict);
    NamesAppend(b.log, a);
    FailedAppend(b.log, a);
    HangAppend(b.log, a);
    OrderlyAppend(b.log, a, failFast, tests);
  }

  lemma LastLaunchKept(log: seq<Action>, log': seq<Action>, k: nat)
    requires LastLaunch(log, k) && OnlyReports(log, log')
    ensures LastLaunch(log', k) && log'[k] == log[k]
  {
  }

  lemma ReportsCompose(a: seq<Action>, b: seq<Action>, c: seq<Action>)
    requires OnlyReports(a, b) && OnlyReports(b, c)
    ensures OnlyReports(a, c)
  {
  }

  lemma SupportedByLaunch(log: seq<Action>, k: nat, name: Name, verdict: Verdict)
    requires k < |log| && log[k].Launched? && Vouches(log[k].end, name, verdict)
    ensures Supported(log, name, verdict)
  {
  }

  lemma ConvictedByLaunch(log: seq<Action>, k: nat, tests: seq<Name>, name: Name)
    requires LastLaunch(log, k) && Convicts(log, log[k], tests, name)
    ensures Convicted(log, tests, name)
  {
  }

  // Reporting what the last process said of a test.
  lemma PostVouched(b: Books, name: Name, verdict: Verdict, failFast: bool, tests: seq<Name>, k: nat)
    requires Sound(b, failFast, tests) && LastLaunch(b.log, k)
    requires Vouches(b.log[k].end, name, verdict) && !verdict.NotRun?
    ensures
      var b' := Post(b, name, verdict);
      && Sound(b', failFast, tests) && Names(b'.log) == Names(b.log) + [name]
      && LastLaunch(b'.log, k) && b'.log[k] == b.log[k] && Reported(name, verdict) in b'.log
  {
    SupportedByLaunch(b.log, k, name, verdict);
    PostIsSound(b, name, verdict, failFast, tests);
    assert Post(b, name, verdict).log[|b.log|] == Reported(name, verdict);
  }

  predicate SomeFailed(finished: seq<(Name, Outcome)>) {
    exists i :: 0 <= i < |finished| && finished[i].1 == Failed
  }

  ghost predicate ReportedAll(log: seq<Action>, finished: seq<(Name, Outcome)>) {
    forall i :: 0 <= i < |finished| ==> Reported(finished[i].0, VerdictOf(finished[i].1)) in log
  }

  lemma PostFinished(b: Books, name: Name, outcome: Outcome, failFast: bool, tests: seq<Name>, k: nat)
    requires Sound(b, failFast, tests) && LastLaunch(b.log, k) && (name, outcome) in Digest(b.log[k].end.events).finished
    ensures
      var b' := Post(b, name, VerdictOf(outcome));
      && Sound(b', failFast, tests) && Names(b'.log) == Names(b.log) + [name]
      && LastLaunch(b'.log, k) && b'.log[k] == b.log[k]
  {
    DigestFinished(b.log[k].end.events, name, outcome);
    PostVouched(b, name, VerdictOf(outcome), failFast, tests, k);
  }

  // Report the process's printed results, in order.
  method ReportFinished(b: Books, end: ProcessEnd, failFast: bool, ghost tests: seq<Name>, ghost k: nat)
    returns (b': Books)
    requires Sound(b, failFast, tests)
    requires LastLaunch(b.log, k) && b.log[k].end == end
    ensures Sound(b', failFast, tests)
    ensures b' == b.(log := b'.log, done := b'.done, failed := b'.failed)
    ensures OnlyReports(b.log, b'.log)
    ensures ReportedAll(b'.log, Digest(end.events).finished)
    ensures Names(b'.log) == Names(b.log) + FirstNames(Digest(end.events).finished)
    ensures b'.failed ==> b.failed || SomeFailed(Digest(end.events).finished)
  {
    b' := b;
    var finished := Digest(end.events).finished;
    var i := 0;
    while i < |finished|
      invariant 0 <= i <= |finished|
      invariant Sound(b', failFast, tests) && LastLaunch(b'.log, k) && b'.log[k] == b.log[k]
      invariant b' == b.(log := b'.log, done := b'.done, failed := b'.failed)
      invariant OnlyReports(b.log, b'.log)
      invariant Names(b'.log) == Names(b.log) + FirstNames(finished)[..i]
      invariant ReportedAll(b'.log, finished[..i])
      invariant b'.failed ==> b.failed || SomeFailed(finished)
    {
      var (name, outcome) := finished[i];
      PostFinished(b', name, outcome, failFast, tests, k);
      ReportedOneMore(b'.log, finished, i);
      b' := Post(b', name, VerdictOf(outcome));
      assert FirstNames(finished)[..i + 1] == FirstNames(finished)[..i] + [name];
      i := i + 1;
    }
    assert FirstNames(finished)[..i] == FirstNames(finished) && finished[..i] == finished;
  }

  lemma ReportedOneMore(log: seq<Action>, finished: seq<(Name, Outcome)>, i: nat)
    requires i < |finished| && ReportedAll(log, finished[..i])
    ensures ReportedAll(log + [Reported(finished[i].0, VerdictOf(finished[i].1))], finished[..i + 1])
  {
    var log' := log + [Reported(finished[i].0, VerdictOf(finished[i].1))];
    var some := finished[..i + 1];
    forall j | 0 <= j < |some|
      ensures Reported(some[j].0, VerdictOf(some[j].1)) in log'
    {
      if j < i {
        assert some[j] == finished[..i][j];
      } else {
        assert log'[|log|] == Reported(some[j].0, VerdictOf(some[j].1));
      }
    }
  }

  // Report what the ended process says of its own tests: the declared exit first.
  method ReportEnd(b: Books, end: ProcessEnd, failFast: bool, ghost tests: seq<Name>, ghost k: nat) returns (b': Books)
    requires Sound(b, failFast, tests)
    requires LastLaunch(b.log, k) && b.log[k].end == end
    ensures Sound(b', failFast, tests)
    ensures b' == b.(log := b'.log, done := b'.done, failed := b'.failed)
    ensures OnlyReports(b.log, b'.log) && PassedOn(b'.log, end)
    ensures Names(b'.log) == Names(b.log) + RoundNames(end)
    ensures b'.failed ==> b.failed || end.declared.Some? || SomeFailed(Digest(end.events).finished)
  {
    var declared := ReportDeclared(b, end, failFast, tests, k);
    b' := ReportFinished(declared, end, failFast, tests, k);
    ReportsCompose(b.log, declared.log, b'.log);
    ReportedIsPassedOn(|b.log|, declared.log, b'.log, end);
    RoundNamesFollow(Names(b.log), Names(declared.log), Names(b'.log), end);
  }

  lemma RoundNamesFollow(names: seq<Name>, declared: seq<Name>, all: seq<Name>, end: ProcessEnd)
    requires declared == names + if end.declared.Some? then [end.declared.value.name] else []
    requires all == declared + FirstNames(Digest(end.events).finished)
    ensures all == names + RoundNames(end)
  {
  }

  lemma ReportedIsPassedOn(at: nat, log: seq<Action>, log': seq<Action>, end: ProcessEnd)
    requires OnlyReports(log, log') && ReportedAll(log', Digest(end.events).finished)
    requires end.declared.Some? ==>
               at < |log| && log[at] == Reported(end.declared.value.name, DeclaredVerdict(end, end.declared.value))
    ensures PassedOn(log', end)
  {
    forall n, outcome | Finished(n, outcome) in end.events
      ensures Reported(n, VerdictOf(outcome)) in log'
    {
      DigestFinished(end.events, n, outcome);
    }
    if end.declared.Some? {
      assert log'[at] == log[at];
    }
  }

  // The declared exit's verdict, if the process declared one.
  method ReportDeclared(b: Books, end: ProcessEnd, failFast: bool, ghost tests: seq<Name>, ghost k: nat) returns (b': Books)
    requires Sound(b, failFast, tests)
    requires LastLaunch(b.log, k) && b.log[k].end == end
    ensures Sound(b', failFast, tests) && LastLaunch(b'.log, k) && b'.log[k].end == end
    ensures b' == b.(log := b'.log, done := b'.done, failed := b'.failed) && OnlyReports(b.log, b'.log)
    ensures Names(b'.log) == Names(b.log) + if end.declared.Some? then [end.declared.value.name] else []
    ensures end.declared.Some? ==>
              |b'.log| > |b.log|
              && b'.log[|b.log|] == Reported(end.declared.value.name, DeclaredVerdict(end, end.declared.value))
    ensures b'.failed ==> b.failed || end.declared.Some?
  {
    if end.declared.None? {
      return b;
    }
    var name, verdict := end.declared.value.name, DeclaredVerdict(end, end.declared.value);
    PostVouched(b, name, verdict, failFast, tests, k);
    b' := Post(b, name, verdict);
  }

  // Why a whole list of tests may be failed: the process got nowhere and gives no culprit, or
  // it ran without them.
  ghost predicate FailsAll(log: seq<Action>, launch: Action, tests: seq<Name>, names: seq<Name>)
    requires launch.Launched?
  {
    || (!EndedWell(launch.end) && NoneOpen(log, launch, tests, launch.end.panicked) && GotNowhere(launch))
    || (Ran(launch) && NoDuplicates(names) && forall n :: n in names ==> Open(log, launch, tests, n))
  }

  // The reasons stay while the list is worked through.
  lemma FailsNext(log: seq<Action>, log': seq<Action>, launch: Action, tests: seq<Name>, names: seq<Name>, i: nat)
    requires launch.Launched? && FailsAll(log, launch, tests, names) && i < |names|
    requires Names(log') == Names(log) + names[..i]
    ensures Convicts(log', launch, tests, names[i])
  {
    assert forall n :: n in Names(log) ==> n in Names(log');
    if Ran(launch) && NoDuplicates(names) && forall n :: n in names ==> Open(log, launch, tests, n) {
      assert Open(log, launch, tests, names[i]) && names[i] !in names[..i];
    } else {
      assert NoneOpen(log', launch, tests, launch.end.panicked);
    }
  }

  // `log'` adds nothing but failures to `log`.
  ghost predicate OnlyFailures(log: seq<Action>, log': seq<Action>) {
    log <= log' && forall i :: |log| <= i < |log'| ==> IsFailed(log'[i])
  }

  lemma FailuresAreReports(log: seq<Action>, log': seq<Action>)
    requires OnlyFailures(log, log')
    ensures OnlyReports(log, log')
  {
    forall i | |log| <= i < |log'| ensures log'[i].Reported? {
      assert IsFailed(log'[i]);
    }
  }

  lemma OneMoreFailure(log: seq<Action>, log': seq<Action>, name: Name)
    requires OnlyFailures(log, log')
    ensures OnlyFailures(log, log' + [Reported(name, FailedVerdict)])
    ensures Names(log' + [Reported(name, FailedVerdict)]) == Names(log') + [name]
  {
    assert (log' + [Reported(name, FailedVerdict)])[..|log'|] == log';
  }

  // Fail the next of `names`.
  lemma FailsOne(b: Books, b': Books, names: seq<Name>, i: nat, failFast: bool, tests: seq<Name>, k: nat)
    requires LastLaunch(b.log, k) && FailsAll(b.log, b.log[k], tests, names) && i < |names|
    requires Sound(b', failFast, tests) && OnlyFailures(b.log, b'.log) && Names(b'.log) == Names(b.log) + names[..i]
    ensures
      var next := Post(b', names[i], FailedVerdict);
      && Sound(next, failFast, tests) && OnlyFailures(b.log, next.log)
      && Names(next.log) == Names(b.log) + names[..i + 1] && next.failed
  {
    assert names[..i + 1] == names[..i] + [names[i]];
    OneMoreFailure(b.log, b'.log, names[i]);
    FailuresAreReports(b.log, b'.log);
    LastLaunchKept(b.log, b'.log, k);
    FailsNext(b.log, b'.log, b.log[k], tests, names, i);
    ConvictedByLaunch(b'.log, k, tests, names[i]);
    PostIsSound(b', names[i], FailedVerdict, failFast, tests);
  }

  // Fail each of `names` on the grounds of the last process.
  method FailAll(b: Books, names: seq<Name>, failFast: bool, ghost tests: seq<Name>, ghost k: nat) returns (b': Books)
    requires Sound(b, failFast, tests)
    requires LastLaunch(b.log, k) && FailsAll(b.log, b.log[k], tests, names)
    ensures Sound(b', failFast, tests)
    ensures b' == b.(log := b'.log, done := b'.done, failed := b'.failed)
    ensures OnlyReports(b.log, b'.log) && OnlyFailures(b.log, b'.log)
    ensures Names(b'.log) == Names(b.log) + names
    ensures names != [] ==> b'.failed
  {
    b' := b;
    var i := 0;
    while i < |names|
      invariant 0 <= i <= |names|
      invariant Sound(b', failFast, tests)
      invariant b' == b.(log := b'.log, done := b'.done, failed := b'.failed)
      invariant OnlyFailures(b.log, b'.log)
      invariant Names(b'.log) == Names(b.log) + names[..i]
      invariant i > 0 ==> b'.failed
    {
      FailsOne(b, b', names, i, failFast, tests, k);
      b' := Post(b', names[i], FailedVerdict);
      i := i + 1;
    }
    assert names[..i] == names;
    FailuresAreReports(b.log, b'.log);
  }

  lemma SkipIsKept(b: Books, name: Name, failFast: bool, tests: seq<Name>)
    requires Kept(b, failFast, tests) && failFast && b.failed
    ensures Kept(b.(log := b.log + [Reported(name, NotRun)]), failFast, tests)
    ensures Names(b.log + [Reported(name, NotRun)]) == Names(b.log) + [name]
  {
    var a := Reported(name, NotRun);
    NamesAppend(b.log, a);
    FailedAppend(b.log, a);
    HangAppend(b.log, a);
    OrderlyAppend(b.log, a, failFast, tests);
  }

  predicate IsSkip(a: Action) {
    a.Reported? && a.verdict.NotRun?
  }

  ghost predicate OnlySkips(log: seq<Action>, log': seq<Action>) {
    log <= log' && forall i :: |log| <= i < |log'| ==> IsSkip(log'[i])
  }

  lemma SkipsOneMore(log: seq<Action>, log': seq<Action>, name: Name)
    requires OnlySkips(log, log')
    ensures OnlySkips(log, log' + [Reported(name, NotRun)])
  {
  }

  lemma SkipsAreReports(log: seq<Action>, log': seq<Action>)
    requires OnlySkips(log, log')
    ensures OnlyReports(log, log')
  {
    assert forall i :: |log| <= i < |log'| ==> IsSkip(log'[i]);
  }

  // Under fail-fast, report each of `names` as left unrun.
  method SkipAll(b: Books, names: seq<Name>, failFast: bool, ghost tests: seq<Name>) returns (b': Books)
    requires Kept(b, failFast, tests) && failFast && b.failed
    ensures Kept(b', failFast, tests)
    ensures b' == b.(log := b'.log)
    ensures OnlyReports(b.log, b'.log) && OnlySkips(b.log, b'.log)
    ensures Names(b'.log) == Names(b.log) + names
  {
    b' := b;
    var i := 0;
    while i < |names|
      invariant 0 <= i <= |names|
      invariant Kept(b', failFast, tests)
      invariant b' == b.(log := b'.log)
      invariant OnlySkips(b.log, b'.log)
      invariant Names(b'.log) == Names(b.log) + names[..i]
    {
      SkipIsKept(b', names[i], failFast, tests);
      SkipsOneMore(b.log, b'.log, names[i]);
      b' := b'.(log := b'.log + [Reported(names[i], NotRun)]);
      assert names[..i + 1] == names[..i] + [names[i]];
      i := i + 1;
    }
    assert names[..i] == names;
    SkipsAreReports(b.log, b'.log);
  }
}
