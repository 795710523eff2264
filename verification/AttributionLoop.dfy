/**
  The rounds of `run_binary` (unix/e2e/src/attribute.rs): what one ended process settles,
  and the nested loops over batches. Every test is accounted for exactly once and the
  loops end, whatever crashes, lost lines, splits and deferrals the launcher produces.
*/
module AttributionLoop {
  import opened Attribution
  import opened TestEvents
  import opened Wrappers

  // ------------------------------------------------------------- decisions

  // The names in `names` that are also in `pool`, in order.
  function Among(names: seq<Name>, pool: seq<Name>): (r: seq<Name>)
    ensures forall n :: n in r <==> n in names && n in pool
  {
    if names == [] then [] else
    (if names[0] in pool then [names[0]] else []) + Among(names[1..], pool)
  }

  lemma {:induction false} AmongNoDuplicates(names: seq<Name>, pool: seq<Name>)
    requires NoDuplicates(names)
    ensures NoDuplicates(Among(names, pool))
  {
    if names != [] {
      AmongNoDuplicates(names[1..], pool);
      assert forall n :: n in names[1..] ==> n != names[0];
    }
  }

  // The announced names without repetitions, by first announcement.
  method Announced(announcements: seq<Name>) returns (names: seq<Name>)
    ensures NoDuplicates(names)
    ensures forall n :: n in names <==> n in announcements
    ensures FirstThingsFirst(names, announcements)
  {
    names := [];
    var i := 0;
    while i < |announcements|
      invariant 0 <= i <= |announcements|
      invariant NoDuplicates(names)
      invariant forall n :: n in names <==> n in announcements[..i]
      invariant forall j :: 0 <= j < |names| ==> FirstIndex(announcements, names[j]) < i
      invariant forall j, k :: 0 <= j < k < |names| ==> FirstIndex(announcements, names[j]) < FirstIndex(announcements, names[k])
    {
      assert announcements[..i + 1] == announcements[..i] + [announcements[i]];
      if announcements[i] !in names {
        FirstIndexAt(announcements, i);
        names := names + [announcements[i]];
      }
      i := i + 1;
    }
    assert announcements[..i] == announcements;
  }

  // Where `n` first occurs; the length if it does not.
  function FirstIndex(names: seq<Name>, n: Name): (r: nat)
    ensures r <= |names| && n !in names[..r] && (r < |names| ==> names[r] == n)
  {
    if names == [] || names[0] == n then 0 else
    var r := 1 + FirstIndex(names[1..], n);
    assert names[..r] == [names[0]] + names[1..][..r - 1];
    r
  }

  lemma FirstIndexAt(names: seq<Name>, i: nat)
    requires i < |names| && names[i] !in names[..i]
    ensures FirstIndex(names, names[i]) == i
  {
  }

  // The first test in flight that a panic report names.
  function NamedBy(panicked: seq<Name>, inFlight: seq<Name>): (r: Option<Name>)
    ensures r.Some? ==> r.value in panicked && r.value in inFlight
    ensures r.None? ==> forall n :: n in panicked ==> n !in inFlight
  {
    if panicked == [] then None
    else if panicked[0] in inFlight then Some(panicked[0])
    else NamedBy(panicked[1..], inFlight)
  }

  lemma {:induction false} NamedIsFirst(panicked: seq<Name>, inFlight: seq<Name>) returns (i: nat)
    requires NamedBy(panicked, inFlight).Some?
    ensures i < |panicked| && panicked[i] == NamedBy(panicked, inFlight).value
    ensures forall j :: 0 <= j < i ==> panicked[j] !in inFlight
  {
    if panicked[0] in inFlight {
      i := 0;
    } else {
      var rest := NamedIsFirst(panicked[1..], inFlight);
      i := rest + 1;
    }
  }

  /**
    The test a process's end is attributed to: one a panic report names; otherwise, on one
    thread or with one test open, the test that had started, or else the first one open.
    Nobody is blamed exactly when several were open on several threads and none is named.
  */
  function Victim(named: Option<Name>, started: Option<Name>, threads: nat, inFlight: seq<Name>): (r: Option<Name>)
    requires inFlight != [] && (named.Some? ==> named.value in inFlight)
    ensures r.Some? ==> r.value in inFlight
    ensures r.None? <==> named.None? && threads != 1 && |inFlight| != 1
  {
    if named.Some? then named
    else if threads == 1 || |inFlight| == 1 then
      if started.Some? && started.value in inFlight then started else Some(inFlight[0])
    else None
  }

  // --------------------------------------------------------------- weights

  function NameWeight(count: nat, threads: nat): nat {
    if threads == 1 then 3 * count else 7 * count
  }

  function DeferredWeight(deferred: seq<Batch>): nat {
    if deferred == [] then 0 else
    1 + NameWeight(|deferred[0].names|, deferred[0].threads) + DeferredWeight(deferred[1..])
  }

  /**
    The measure every round lowers: tests without a verdict count, more of them while
    their process is to run several at a time; so do pending batches, and a selection
    that is still implicit.
  */
  function Weight(b: Books, tests: seq<Name>): nat {
    (if b.remaining.None? then 1 else 0)
    + NameWeight(|Asked(b.remaining, tests)|, b.threads)
    + DeferredWeight(b.deferred)
  }

  lemma DeferredWeightFront(batch: Batch, deferred: seq<Batch>)
    ensures DeferredWeight([batch] + deferred) == 1 + NameWeight(|batch.names|, batch.threads) + DeferredWeight(deferred)
    ensures Flat([batch] + deferred) == batch.names + Flat(deferred)
  {
    assert ([batch] + deferred)[1..] == deferred;
  }

  // Every width is the caller's, or one after some process did not end well.
  ghost predicate Widths(b: Books, jobs: nat) {
    WidthAllowed(HasCrash(b.log), b.threads, jobs) && WidthsAllowed(HasCrash(b.log), b.deferred, jobs)
  }

  predicate WidthAllowed(crashed: bool, threads: nat, jobs: nat) {
    threads == jobs || (threads == 1 && crashed)
  }

  predicate WidthsAllowed(crashed: bool, deferred: seq<Batch>, jobs: nat) {
    forall i :: 0 <= i < |deferred| ==> WidthAllowed(crashed, deferred[i].threads, jobs)
  }

  // A longer log allows what a shorter one does.
  lemma WidthsStay(b: Books, b': Books, jobs: nat)
    requires Widths(b, jobs) && b.log <= b'.log && b'.threads == b.threads && (b'.deferred == b.deferred || b'.deferred == [])
    ensures Widths(b', jobs)
  {
    CrashStays(b.log, b'.log);
  }

  lemma WidthsFront(crashed: bool, batch: Batch, deferred: seq<Batch>, jobs: nat)
    requires WidthAllowed(crashed, batch.threads, jobs) && WidthsAllowed(crashed, deferred, jobs)
    ensures WidthsAllowed(crashed, [batch] + deferred, jobs)
  {
  }

  ghost predicate HasCrash(log: seq<Action>) {
    exists i :: 0 <= i < |log| && Crashed(log[i])
  }

  predicate Crashed(a: Action) {
    a.Launched? && !EndedWell(a.end)
  }

  lemma CrashStays(log: seq<Action>, log': seq<Action>)
    requires log <= log'
    ensures HasCrash(log) ==> HasCrash(log')
  {
    if i :| 0 <= i < |log| && Crashed(log[i]) {
      assert log'[i] == log[i];
    }
  }

  // ---------------------------------------------------------------- rounds

  datatype Control = Again | Stop | Fail(error: string)

  // After a process: its own word is reported, and what it left open is still owed.
  ghost predicate Ended(b: Books, end: ProcessEnd, failFast: bool, tests: seq<Name>, targets: seq<Name>, k: nat) {
    && Sound(b, failFast, tests)
    && LastLaunch(b.log, k) && b.log[k] == Launched(b.remaining, b.threads, end)
    && HonestEnd(b.remaining, tests, end)
    && NoDuplicates(targets)
    && Conserved(b, Undone(Asked(b.remaining, tests), b.done), targets)
    && |Asked(b.remaining, tests)| == |RoundNames(end)| + |Undone(Asked(b.remaining, tests), b.done)|
    && (failFast && b.failed ==> end.declared.Some? || SomeFailed(Digest(end.events).finished))
  }

  // What a settled round leaves: the loop goes on with less to do, or this batch is over.
  ghost predicate Settled(ctl: Control, b: Books, b': Books, jobs: nat, failFast: bool, tests: seq<Name>, targets: seq<Name>) {
    && Kept(b', failFast, tests)
    && OnlyReports(b.log, b'.log)
    && multiset(Names(b'.log)) <= multiset(targets)
    && Widths(b', jobs)
    && (ctl.Again? ==>
          && Sound(b', failFast, tests)
          && b'.remaining.Some? && Conserved(b', b'.remaining.value, targets)
          && Weight(b', tests) + (if b.remaining.Some? then 1 else 0) < Weight(b, tests)
          && !(failFast && b'.failed))
    && (ctl.Stop? ==>
          && Conserved(b', [], targets)
          && DeferredWeight(b'.deferred) <= DeferredWeight(b.deferred)
          && (b'.deferred != [] ==> Sound(b', failFast, tests)))
  }

  // Nothing is owed once every asked test has a verdict.
  lemma NothingOwed(b: Books, end: ProcessEnd, failFast: bool, tests: seq<Name>, targets: seq<Name>, k: nat)
    requires Ended(b, end, failFast, tests, targets, k)
    requires b.remaining.Some? ==> forall n :: n in b.remaining.value ==> n in b.done
    requires b.remaining.None? ==> end.declared.Some? || |RoundNames(end)| >= |tests|
    ensures Undone(Asked(b.remaining, tests), b.done) == []
  {
    if b.remaining.Some? {
      AllDone(b.remaining.value, b.done);
    }
  }

  lemma {:induction false} AllDone(names: seq<Name>, done: set<Name>)
    requires forall n :: n in names ==> n in done
    ensures Undone(names, done) == []
  {
    if names != [] {
      AllDone(names[1..], done);
    }
  }

  lemma StopIsSettled(b: Books, jobs: nat, failFast: bool, tests: seq<Name>, targets: seq<Name>, asked: seq<Name>)
    requires Sound(b, failFast, tests) && Widths(b, jobs)
    requires Conserved(b, Undone(asked, b.done), targets) && Undone(asked, b.done) == []
    ensures Settled(Stop, b, b, jobs, failFast, tests, targets)
  {
  }

  lemma FailIsSettled(error: string, b: Books, jobs: nat, failFast: bool, tests: seq<Name>, targets: seq<Name>, owed: seq<Name>)
    requires Sound(b, failFast, tests) && Widths(b, jobs) && Conserved(b, owed, targets)
    ensures Settled(Fail(error), b, b, jobs, failFast, tests, targets)
  {
  }

  // Every owed test got a verdict, and what was set aside is as it was.
  lemma ReportedIsSettled(b: Books, b': Books, owed: seq<Name>, jobs: nat, failFast: bool, tests: seq<Name>, targets: seq<Name>)
    requires Widths(b, jobs) && Conserved(b, owed, targets)
    requires Sound(b', failFast, tests) && b' == b.(log := b'.log, done := b'.done, failed := b'.failed)
    requires OnlyReports(b.log, b'.log) && Names(b'.log) == Names(b.log) + owed
    ensures Settled(Stop, b, b', jobs, failFast, tests, targets)
  {
    WidthsStay(b, b', jobs);
  }

  lemma RerunIsSettled(b: Books, end: ProcessEnd, jobs: nat, failFast: bool, tests: seq<Name>, targets: seq<Name>, k: nat)
    requires Ended(b, end, failFast, tests, targets, k) && Widths(b, jobs) && !(failFast && b.failed)
    requires b.remaining.Some? ==> RoundNames(end) != []
    ensures Settled(Again, b, b.(remaining := Some(Undone(Asked(b.remaining, tests), b.done))), jobs, failFast, tests, targets)
  {
    var owed := Undone(Asked(b.remaining, tests), b.done);
    LessOwed(b, owed, |RoundNames(end)|, tests);
    assert Kept(b.(remaining := Some(owed)), failFast, tests);
  }

  lemma LessOwed(b: Books, owed: seq<Name>, reported: nat, tests: seq<Name>)
    requires |Asked(b.remaining, tests)| == reported + |owed| && (b.remaining.Some? ==> reported > 0)
    ensures Weight(b.(remaining := Some(owed)), tests) + (if b.remaining.Some? then 1 else 0) < Weight(b, tests)
  {
  }

  lemma CleanWithoutDeclared(b: Books, end: ProcessEnd, failFast: bool, tests: seq<Name>, targets: seq<Name>, k: nat)
    requires Ended(b, end, failFast, tests, targets, k) && EndedWell(end) && end.declared.None?
    ensures !(failFast && b.failed)
  {
  }

  lemma OwedAreOpen(b: Books, end: ProcessEnd, failFast: bool, tests: seq<Name>, targets: seq<Name>, k: nat)
    requires Ended(b, end, failFast, tests, targets, k)
    ensures
      var owed := Undone(Asked(b.remaining, tests), b.done);
      NoDuplicates(owed) && forall n :: n in owed ==> Open(b.log, b.log[k], tests, n)
  {
    var owed := Undone(Asked(b.remaining, tests), b.done);
    UndoneIsOpen(b, end, failFast, tests, targets, k);
    forall n: Name ensures multiset(owed)[n] <= 1 {
      OwedOnce(b, owed, targets, n);
    }
    OnceIsNoDuplicate(owed);
  }

  lemma OnceIsNoDuplicate(names: seq<Name>)
    requires forall n :: multiset(names)[n] <= 1
    ensures NoDuplicates(names)
  {
    forall i, j | 0 <= i < j < |names| ensures names[i] != names[j] {
      var front, back := names[..j], names[j..];
      assert names == front + back && front[i] == names[i] && back[0] == names[j];
      assert multiset(names) == multiset(front) + multiset(back);
      assert multiset(names)[names[i]] == multiset(front)[names[i]] + multiset(back)[names[i]];
      assert names[i] in multiset(front) && names[j] in multiset(back);
    }
  }

  // ------------------------------------------------- what an end leads to

  ghost predicate FailedThese(b: Books, b': Books, names: seq<Name>) {
    OnlyFailures(b.log, b'.log) && Names(b'.log) == Names(b.log) + names
    && b'.remaining == b.remaining && b'.threads == b.threads
  }

  // A clean end fails the tests it ran without, or has them run again by name.
  ghost predicate CleanDecided(b: Books, end: ProcessEnd, owed: seq<Name>, ctl: Control, b': Books) {
    if Accounted(end) || (b.remaining.Some? && RoundNames(end) == [])
    then ctl.Stop? && FailedThese(b, b', owed) && b'.deferred == b.deferred
    else ctl.Again? && b' == b.(remaining := Some(owed))
  }

  // An unclean one that got nowhere fails everything, set aside or not; any other is attributed.
  ghost predicate CrashDecided(b: Books, end: ProcessEnd, owed: seq<Name>, jobs: nat, failFast: bool, tests: seq<Name>,
                               ctl: Control, b': Books)
  {
    if b.threads == 1 && Digest(end.events).finished == [] && Digest(end.events).started.None?
       && forall n :: n in end.panicked ==> n !in owed
    then ctl.Stop? && FailedThese(b, b', owed + Flat(b.deferred)) && b'.deferred == []
    else exists next :: Chosen(b, end, owed, jobs, tests, next) && Continued(ctl, next, b', failFast)
  }

  ghost predicate ListDecided(launcher: Launcher, b: Books, end: ProcessEnd, jobs: nat, failFast: bool, tests: seq<Name>,
                              ctl: Control, b': Books)
  {
    var owed := Undone(Asked(b.remaining, tests), b.done);
    if b.remaining.None? && launcher.list.Err? then ctl == Fail(launcher.list.error) && b' == b
    else if owed == [] then ctl.Stop? && b' == b
    else if EndedWell(end) then CleanDecided(b, end, owed, ctl, b')
    else CrashDecided(b, end, owed, jobs, failFast, tests, ctl, b')
  }

  // How a round is settled, case by case. A whole selection whose counts agree needs no list.
  ghost predicate Decided(launcher: Launcher, b: Books, end: ProcessEnd, jobs: nat, failFast: bool, tests: seq<Name>,
                          ctl: Control, b': Books)
  {
    if b.remaining.None? && (if EndedWell(end) then Accounted(end) else TallyAgrees(end)) then ctl.Stop? && b' == b
    else ListDecided(launcher, b, end, jobs, failFast, tests, ctl, b')
  }

  // Settle a clean end whose counts or names fall short.
  method SettleClean(launcher: Launcher, b: Books, end: ProcessEnd, accounted: bool, before: nat,
                     jobs: nat, failFast: bool, ghost tests: seq<Name>, ghost targets: seq<Name>, ghost k: nat)
    returns (ctl: Control, b': Books)
    requires launcher.list.Ok? ==> launcher.list.value == tests
    requires Ended(b, end, failFast, tests, targets, k) && Widths(b, jobs)
    requires EndedWell(end) && (accounted <==> Accounted(end))
    requires RoundNames(end) == [] <==> |b.done| == before
    ensures Settled(ctl, b, b', jobs, failFast, tests, targets) && (ctl.Fail? ==> launcher.list == Err(ctl.error))
    ensures ListDecided(launcher, b, end, jobs, failFast, tests, ctl, b')
  {
    var narrowed := b.remaining.Some?;
    var asked;
    if narrowed {
      asked := b.remaining.value;
    } else {
      if launcher.list.Err? {
        FailIsSettled(launcher.list.error, b, jobs, failFast, tests, targets, Undone(tests, b.done));
        return Fail(launcher.list.error), b;
      }
      asked := launcher.list.value;
    }
    var owed := Undone(asked, b.done);
    if owed == [] {
      StopIsSettled(b, jobs, failFast, tests, targets, asked);
      return Stop, b;
    }
    OwedAreOpen(b, end, failFast, tests, targets, k);
    if accounted {
      // Every result was read, so the process finished without knowing these names.
      b' := FailAll(b, owed, failFast, tests, k);
      ReportedIsSettled(b, b', owed, jobs, failFast, tests, targets);
      return Stop, b';
    }
    if narrowed && |b.done| == before {
      // The round ran nothing but these and reported none of them.
      b' := FailAll(b, owed, failFast, tests, k);
      ReportedIsSettled(b, b', owed, jobs, failFast, tests, targets);
      return Stop, b';
    }
    CleanWithoutDeclared(b, end, failFast, tests, targets, k);
    RerunIsSettled(b, end, jobs, failFast, tests, targets, k);
    return Again, b.(remaining := Some(owed));
  }

  lemma OwedOnce(b: Books, owed: seq<Name>, targets: seq<Name>, n: Name)
    requires Conserved(b, owed, targets) && NoDuplicates(targets)
    ensures multiset(owed)[n] <= 1
    ensures n in owed ==> n !in Names(b.log)
  {
    NoDuplicatesCounts(targets, n);
    assert (multiset(Names(b.log)) + multiset(owed) + multiset(Flat(b.deferred)))[n] <= 1;
    assert n in owed <==> multiset(owed)[n] > 0;
    assert n in Names(b.log) <==> multiset(Names(b.log))[n] > 0;
  }

  // `picked` and the rest make up `pool`.
  lemma SplitOff(b: Books, pool: seq<Name>, picked: seq<Name>, targets: seq<Name>)
    requires Conserved(b, pool, targets) && NoDuplicates(targets)
    requires NoDuplicates(picked) && forall n :: n in picked ==> n in pool
    ensures multiset(picked) + multiset(Undone(pool, Elements(picked))) == multiset(pool)
    ensures |picked| + |Undone(pool, Elements(picked))| == |pool|
  {
    forall n: Name
      ensures multiset(pool)[n] <= 1
    {
      OwedOnce(b, pool, targets, n);
    }
    RoundConserves(pool, picked, {});
    assert {} + Elements(picked) == Elements(picked);
    assert |multiset(picked) + multiset(Undone(pool, Elements(picked)))| == |picked| + |Undone(pool, Elements(picked))|;
  }

  // The culprit fails; the other tests the process left open are still owed.
  function Blamed(b: Books, inFlight: seq<Name>, victim: Name): Books {
    Post(b, victim, FailedVerdict).(remaining := Some(Undone(inFlight, {victim})))
  }

  lemma BlameKeepsBooks(b: Books, inFlight: seq<Name>, victim: Name, failFast: bool, tests: seq<Name>, targets: seq<Name>, k: nat)
    requires Sound(b, failFast, tests) && NoDuplicates(targets) && Conserved(b, inFlight, targets)
    requires LastLaunch(b.log, k) && victim in inFlight
    requires Convicts(b.log, b.log[k], tests, victim)
    ensures
      var b' := Blamed(b, inFlight, victim);
      && Sound(b', failFast, tests) && b'.failed && OnlyReports(b.log, b'.log)
      && Conserved(b', b'.remaining.value, targets) && |b'.remaining.value| + 1 == |inFlight|
  {
    BlameIsSound(b, victim, failFast, tests, k);
    BlameConserves(b, inFlight, victim, targets);
  }

  lemma BlameIsSound(b: Books, victim: Name, failFast: bool, tests: seq<Name>, k: nat)
    requires Sound(b, failFast, tests) && LastLaunch(b.log, k) && Convicts(b.log, b.log[k], tests, victim)
    ensures Sound(Post(b, victim, FailedVerdict), failFast, tests)
  {
    ConvictedByLaunch(b.log, k, tests, victim);
    PostIsSound(b, victim, FailedVerdict, failFast, tests);
  }

  lemma BlameConserves(b: Books, inFlight: seq<Name>, victim: Name, targets: seq<Name>)
    requires NoDuplicates(targets) && Conserved(b, inFlight, targets) && victim in inFlight
    ensures
      var b' := Blamed(b, inFlight, victim);
      Conserved(b', b'.remaining.value, targets) && |b'.remaining.value| + 1 == |inFlight|
  {
    SplitOff(b, inFlight, [victim], targets);
    assert Elements([victim]) == {victim};
    NamesAppend(b.log, Reported(victim, FailedVerdict));
  }

  // What the process left undone is what is open.
  lemma UndoneIsOpen(b: Books, end: ProcessEnd, failFast: bool, tests: seq<Name>, targets: seq<Name>, k: nat)
    requires Ended(b, end, failFast, tests, targets, k)
    ensures forall n :: n in Undone(Asked(b.remaining, tests), b.done) <==> Open(b.log, b.log[k], tests, n)
  {
    UndoneIs(Asked(b.remaining, tests), b.done);
  }

  lemma NamedIsConvicted(log: seq<Action>, launch: Action, tests: seq<Name>, inFlight: seq<Name>)
    requires launch.Launched? && forall n :: n in inFlight <==> Open(log, launch, tests, n)
    ensures
      var named := NamedBy(launch.end.panicked, inFlight);
      if named.Some? then FirstOpen(log, launch, tests, launch.end.panicked, named.value)
      else NoneOpen(log, launch, tests, launch.end.panicked)
  {
    if NamedBy(launch.end.panicked, inFlight).Some? {
      var i := NamedIsFirst(launch.end.panicked, inFlight);
      assert launch.end.panicked[i] in inFlight;
    }
  }

  lemma FirstIsOpen(b: Books, launch: Action, tests: seq<Name>)
    requires launch.Launched? && launch.names == b.remaining && b.done == Elements(Names(b.log))
    requires Undone(Asked(b.remaining, tests), b.done) != []
    ensures FirstOpen(b.log, launch, tests, Asked(b.remaining, tests), Undone(Asked(b.remaining, tests), b.done)[0])
  {
    var asked := Asked(b.remaining, tests);
    var i := UndoneFirst(asked, b.done);
    assert Open(b.log, launch, tests, asked[i]);
    assert forall j :: 0 <= j < i ==> !Open(b.log, launch, tests, asked[j]);
  }

  lemma SoleIsOnly(log: seq<Action>, launch: Action, tests: seq<Name>, name: Name)
    requires launch.Launched? && forall n :: n in [name] <==> Open(log, launch, tests, n)
    ensures OnlyOpen(log, launch, tests, name)
  {
    assert name in [name];
    forall n | n in Asked(launch.names, tests) && n !in Names(log) ensures n == name {
      assert Open(log, launch, tests, n);
      assert n in [name];
    }
  }

  lemma RunningIsConvicted(log: seq<Action>, launch: Action, tests: seq<Name>, inFlight: seq<Name>)
    requires launch.Launched? && inFlight != [] && forall n :: n in inFlight <==> Open(log, launch, tests, n)
    requires FirstOpen(log, launch, tests, Asked(launch.names, tests), inFlight[0])
    ensures
      var started := Digest(launch.end.events).started;
      WasRunning(log, launch, tests, if started.Some? && started.value in inFlight then started.value else inFlight[0])
  {
  }

  // Whom the end of an unclean process is attributed to, it convicts.
  lemma VictimConvicts(log: seq<Action>, launch: Action, tests: seq<Name>, inFlight: seq<Name>)
    requires launch.Launched? && !EndedWell(launch.end)
    requires inFlight != [] && forall n :: n in inFlight <==> Open(log, launch, tests, n)
    requires FirstOpen(log, launch, tests, Asked(launch.names, tests), inFlight[0])
    ensures
      var named := NamedBy(launch.end.panicked, inFlight);
      var victim := Victim(named, Digest(launch.end.events).started, launch.threads, inFlight);
      victim.Some? ==> Convicts(log, launch, tests, victim.value)
  {
    NamedIsConvicted(log, launch, tests, inFlight);
    if NamedBy(launch.end.panicked, inFlight).Some? {
      assert Open(log, launch, tests, NamedBy(launch.end.panicked, inFlight).value);
    } else {
      RunningIsConvicted(log, launch, tests, inFlight);
      if |inFlight| == 1 {
        assert inFlight == [inFlight[0]];
        SoleIsOnly(log, launch, tests, inFlight[0]);
      }
    }
  }

  lemma VictimIsConvicted(b: Books, end: ProcessEnd, failFast: bool, tests: seq<Name>, targets: seq<Name>, k: nat)
    requires Ended(b, end, failFast, tests, targets, k) && !EndedWell(end)
    requires Undone(Asked(b.remaining, tests), b.done) != []
    ensures
      var inFlight := Undone(Asked(b.remaining, tests), b.done);
      var victim := Victim(NamedBy(end.panicked, inFlight), Digest(end.events).started, b.threads, inFlight);
      victim.Some? ==> Convicts(b.log, b.log[k], tests, victim.value)
  {
    UndoneIsOpen(b, end, failFast, tests, targets, k);
    FirstIsOpen(b, b.log[k], tests);
    VictimConvicts(b.log, b.log[k], tests, Undone(Asked(b.remaining, tests), b.done));
  }

  // Nobody to blame: the tests that named themselves run one at a time, the others wait.
  function Narrowed(b: Books, inFlight: seq<Name>, running: seq<Name>, jobs: nat): Books {
    if running == [] then
      b.(threads := 1, remaining := Some(inFlight))
    else
      b.(threads := 1, remaining := Some(running),
         deferred := [Batch(Undone(inFlight, Elements(running)), jobs)] + b.deferred)
  }

  lemma NarrowKeepsBooks(b: Books, inFlight: seq<Name>, running: seq<Name>, jobs: nat, failFast: bool, tests: seq<Name>, targets: seq<Name>)
    requires Sound(b, failFast, tests) && NoDuplicates(targets) && Conserved(b, inFlight, targets) && Widths(b, jobs)
    requires NoDuplicates(running) && forall n :: n in running ==> n in inFlight
    requires b.threads != 1 && |inFlight| >= 2 && HasCrash(b.log)
    ensures
      var b' := Narrowed(b, inFlight, running, jobs);
      && Sound(b', failFast, tests) && Conserved(b', b'.remaining.value, targets) && Widths(b', jobs)
      && Weight(b', tests) + 2 < NameWeight(|inFlight|, b.threads) + DeferredWeight(b.deferred)
  {
    NarrowConserves(b, inFlight, running, jobs, targets);
    WidthsFront(true, Batch(Undone(inFlight, Elements(running)), jobs), b.deferred, jobs);
    NarrowWeighs(b, inFlight, running, jobs, tests, targets);
  }

  lemma NarrowConserves(b: Books, inFlight: seq<Name>, running: seq<Name>, jobs: nat, targets: seq<Name>)
    requires NoDuplicates(targets) && Conserved(b, inFlight, targets)
    requires NoDuplicates(running) && forall n :: n in running ==> n in inFlight
    ensures
      var b' := Narrowed(b, inFlight, running, jobs);
      Conserved(b', b'.remaining.value, targets)
  {
    if running != [] {
      SplitOff(b, inFlight, running, targets);
      DeferredWeightFront(Batch(Undone(inFlight, Elements(running)), jobs), b.deferred);
    }
  }

  lemma NarrowWeighs(b: Books, inFlight: seq<Name>, running: seq<Name>, jobs: nat, tests: seq<Name>, targets: seq<Name>)
    requires NoDuplicates(targets) && Conserved(b, inFlight, targets) && Widths(b, jobs)
    requires NoDuplicates(running) && forall n :: n in running ==> n in inFlight
    requires b.threads != 1 && |inFlight| >= 2
    ensures Weight(Narrowed(b, inFlight, running, jobs), tests) + 2
            < NameWeight(|inFlight|, b.threads) + DeferredWeight(b.deferred)
  {
    if running != [] {
      SplitOff(b, inFlight, running, targets);
      DeferredWeightFront(Batch(Undone(inFlight, Elements(running)), jobs), b.deferred);
    }
  }

  // Under fail-fast nothing is left owed or set aside.
  lemma SkippedIsSettled(b0: Books, b: Books, b': Books, jobs: nat, failFast: bool, tests: seq<Name>, targets: seq<Name>)
    requires OnlyReports(b0.log, b.log) && Kept(b', failFast, tests) && Widths(b', jobs)
    requires b.remaining.Some? && Conserved(b, b.remaining.value, targets)
    requires OnlyReports(b.log, b'.log) && Names(b'.log) == Names(b.log) + (b.remaining.value + Flat(b.deferred))
    requires b'.deferred == []
    ensures Settled(Stop, b0, b', jobs, failFast, tests, targets)
  {
    ReportsCompose(b0.log, b.log, b'.log);
    assert Conserved(b', [], targets);
  }

  lemma AgainIsSettled(b0: Books, b: Books, inFlight: nat, jobs: nat, failFast: bool, tests: seq<Name>, targets: seq<Name>)
    requires OnlyReports(b0.log, b.log) && Sound(b, failFast, tests) && Widths(b, jobs) && !(failFast && b.failed)
    requires b.remaining.Some? && Conserved(b, b.remaining.value, targets)
    requires inFlight <= |Asked(b0.remaining, tests)|
    requires Weight(b, tests) + 2 < NameWeight(inFlight, b0.threads) + DeferredWeight(b0.deferred)
    ensures Settled(Again, b0, b, jobs, failFast, tests, targets)
  {
  }

  // Settle an end that left tests open.
  method SettleCrash(launcher: Launcher, b: Books, end: ProcessEnd, jobs: nat, failFast: bool,
                     ghost tests: seq<Name>, ghost targets: seq<Name>, ghost k: nat)
    returns (ctl: Control, b': Books)
    requires launcher.list.Ok? ==> launcher.list.value == tests
    requires Ended(b, end, failFast, tests, targets, k) && Widths(b, jobs) && !EndedWell(end)
    ensures Settled(ctl, b, b', jobs, failFast, tests, targets) && (ctl.Fail? ==> launcher.list == Err(ctl.error))
    ensures ListDecided(launcher, b, end, jobs, failFast, tests, ctl, b')
  {
    var round := Digest(end.events);
    var listed;
    if b.remaining.Some? {
      listed := b.remaining.value;
    } else {
      if launcher.list.Err? {
        FailIsSettled(launcher.list.error, b, jobs, failFast, tests, targets, Undone(tests, b.done));
        return Fail(launcher.list.error), b;
      }
      listed := launcher.list.value;
    }
    var inFlight := Undone(listed, b.done);
    if inFlight == [] {
      StopIsSettled(b, jobs, failFast, tests, targets, listed);
      return Stop, b;
    }
    var named := NamedBy(end.panicked, inFlight);
    if named.None? && b.threads == 1 && round.finished == [] && round.started.None? {
      // A serial process that got nowhere and gives no culprit: no second try can do better.
      ctl, b' := GiveUp(b, end, inFlight, jobs, failFast, tests, targets, k);
      return;
    }
    ctl, b' := Attribute(b, end, inFlight, named, jobs, failFast, tests, targets, k);
  }

  // The undone tests among those announced, each once, by first announcement.
  ghost predicate RunningAmong(running: seq<Name>, announcements: seq<Name>, inFlight: seq<Name>) {
    && (forall n :: n in running <==> n in announcements && n in inFlight)
    && FirstThingsFirst(running, announcements)
  }

  // In the order of their first announcements, so none twice.
  ghost predicate FirstThingsFirst(names: seq<Name>, announcements: seq<Name>) {
    forall i, j :: 0 <= i < j < |names| ==> FirstIndex(announcements, names[i]) < FirstIndex(announcements, names[j])
  }

  lemma {:induction false} AmongKeepsOrder(names: seq<Name>, pool: seq<Name>, announcements: seq<Name>)
    requires FirstThingsFirst(names, announcements)
    ensures FirstThingsFirst(Among(names, pool), announcements)
    decreases |names|
  {
    if names != [] {
      AmongKeepsOrder(names[1..], pool, announcements);
      assert forall n :: n in names[1..] ==> FirstIndex(announcements, names[0]) < FirstIndex(announcements, n);
    }
  }

  // `name` is failed and the others are run again as they were.
  ghost predicate Blames(b: Books, inFlight: seq<Name>, name: Name, next: Books) {
    next.log == b.log + [Reported(name, FailedVerdict)] && next.remaining == Some(Undone(inFlight, {name}))
    && next.threads == b.threads && next.deferred == b.deferred
  }

  // The running ones go one at a time; the others come next, at full width again.
  ghost predicate Narrows(b: Books, inFlight: seq<Name>, running: seq<Name>, jobs: nat, next: Books) {
    next.log == b.log && next.threads == 1
    && if running == [] then next.remaining == Some(inFlight) && next.deferred == b.deferred
       else next.remaining == Some(running)
            && next.deferred == [Batch(Undone(inFlight, Elements(running)), jobs)] + b.deferred
  }

  // What an unclean end leads to. With a test named, a serial process or one test open, the
  // convict is failed and the others kept for the next process; otherwise nobody is blamed and
  // the announced ones are kept for a serial process.
  ghost predicate Chosen(b: Books, end: ProcessEnd, inFlight: seq<Name>, jobs: nat, tests: seq<Name>, next: Books) {
    if (exists n :: n in end.panicked && n in inFlight) || b.threads == 1 || |inFlight| == 1 then
      exists name :: name in inFlight && Convicts(b.log, Launched(b.remaining, b.threads, end), tests, name)
                     && Blames(b, inFlight, name, next)
    else exists running :: RunningAmong(running, end.announcements, inFlight) && Narrows(b, inFlight, running, jobs, next)
  }

  // Blame one test, or narrow the suspects to a serial round.
  method Choose(b: Books, end: ProcessEnd, inFlight: seq<Name>, named: Option<Name>, jobs: nat, failFast: bool,
                ghost tests: seq<Name>, ghost targets: seq<Name>, ghost k: nat)
    returns (next: Books)
    requires Ended(b, end, failFast, tests, targets, k) && Widths(b, jobs) && !EndedWell(end)
    requires inFlight == Undone(Asked(b.remaining, tests), b.done) && inFlight != []
    requires named == NamedBy(end.panicked, inFlight)
    ensures Chosen(b, end, inFlight, jobs, tests, next)
    ensures OnlyReports(b.log, next.log) && Sound(next, failFast, tests) && Widths(next, jobs)
    ensures next.remaining.Some? && Conserved(next, next.remaining.value, targets)
    ensures Weight(next, tests) + 2 < NameWeight(|inFlight|, b.threads) + DeferredWeight(b.deferred)
  {
    var victim := Victim(named, Digest(end.events).started, b.threads, inFlight);
    if victim.Some? {
      VictimIsConvicted(b, end, failFast, tests, targets, k);
      BlameKeepsBooks(b, inFlight, victim.value, failFast, tests, targets, k);
      next := Blamed(b, inFlight, victim.value);
      assert Blames(b, inFlight, victim.value, next);
      WidthsStay(b, next, jobs);
    } else {
      var announced := Announced(end.announcements);
      var running := Among(announced, inFlight);
      AmongNoDuplicates(announced, inFlight);
      AmongKeepsOrder(announced, inFlight, end.announcements);
      assert Crashed(b.log[k]);
      NarrowKeepsBooks(b, inFlight, running, jobs, failFast, tests, targets);
      assert RunningAmong(running, end.announcements, inFlight);
      next := Narrowed(b, inFlight, running, jobs);
      assert Narrows(b, inFlight, running, jobs, next);
    }
  }

  // Under fail-fast after a failure what is left is reported unrun; otherwise it runs.
  ghost predicate Continued(ctl: Control, next: Books, b': Books, failFast: bool) {
    if failFast && next.failed then
      ctl.Stop? && next.remaining.Some? && b' == next.(log := b'.log, deferred := []) && OnlySkips(next.log, b'.log)
      && Names(b'.log) == Names(next.log) + (next.remaining.value + Flat(next.deferred))
    else ctl.Again? && b' == next
  }

  method Attribute(b: Books, end: ProcessEnd, inFlight: seq<Name>, named: Option<Name>, jobs: nat, failFast: bool,
                   ghost tests: seq<Name>, ghost targets: seq<Name>, ghost k: nat)
    returns (ctl: Control, b': Books)
    requires Ended(b, end, failFast, tests, targets, k) && Widths(b, jobs) && !EndedWell(end)
    requires inFlight == Undone(Asked(b.remaining, tests), b.done) && inFlight != []
    requires named == NamedBy(end.panicked, inFlight)
    ensures Settled(ctl, b, b', jobs, failFast, tests, targets)
    ensures exists next :: Chosen(b, end, inFlight, jobs, tests, next) && Continued(ctl, next, b', failFast)
    ensures !ctl.Fail?
  {
    var next := Choose(b, end, inFlight, named, jobs, failFast, tests, targets, k);
    ctl, b' := Continue(b, next, |inFlight|, jobs, failFast, tests, targets);
  }

  method GiveUp(b: Books, end: ProcessEnd, inFlight: seq<Name>, jobs: nat, failFast: bool,
                ghost tests: seq<Name>, ghost targets: seq<Name>, ghost k: nat)
    returns (ctl: Control, b': Books)
    requires Ended(b, end, failFast, tests, targets, k) && Widths(b, jobs) && !EndedWell(end)
    requires inFlight == Undone(Asked(b.remaining, tests), b.done) && GotNowhere(b.log[k])
    requires NamedBy(end.panicked, inFlight).None?
    ensures ctl.Stop? && Settled(ctl, b, b', jobs, failFast, tests, targets)
    ensures FailedThese(b, b', inFlight + Flat(b.deferred)) && b'.deferred == []
  {
    UndoneIsOpen(b, end, failFast, tests, targets, k);
    NamedIsConvicted(b.log, b.log[k], tests, inFlight);
    var failed := FailAll(b, inFlight + Flat(b.deferred), failFast, tests, k);
    b' := failed.(deferred := []);
    ctl := Stop;
    GivenUpIsSettled(b, b', inFlight, jobs, failFast, tests, targets);
  }

  lemma GivenUpIsSettled(b: Books, b': Books, inFlight: seq<Name>, jobs: nat, failFast: bool, tests: seq<Name>, targets: seq<Name>)
    requires Widths(b, jobs) && Conserved(b, inFlight, targets)
    requires Kept(b', failFast, tests) && b' == b.(log := b'.log, done := b'.done, failed := b'.failed, deferred := [])
    requires OnlyReports(b.log, b'.log) && Names(b'.log) == Names(b.log) + (inFlight + Flat(b.deferred))
    ensures Settled(Stop, b, b', jobs, failFast, tests, targets)
  {
    WidthsStay(b, b', jobs);
    assert Conserved(b', [], targets);
  }

  // The end of an unclean round: stop under fail-fast, else run what is left.
  method Continue(ghost b0: Books, b: Books, ghost inFlight: nat, jobs: nat, failFast: bool,
                  ghost tests: seq<Name>, ghost targets: seq<Name>)
    returns (ctl: Control, b': Books)
    requires OnlyReports(b0.log, b.log) && Sound(b, failFast, tests) && Widths(b, jobs)
    requires b.remaining.Some? && Conserved(b, b.remaining.value, targets)
    requires inFlight <= |Asked(b0.remaining, tests)|
    requires Weight(b, tests) + 2 < NameWeight(inFlight, b0.threads) + DeferredWeight(b0.deferred)
    ensures Settled(ctl, b0, b', jobs, failFast, tests, targets) && Continued(ctl, b, b', failFast)
  {
    if failFast && b.failed {
      var skipped := SkipAll(b, b.remaining.value + Flat(b.deferred), failFast, tests);
      b' := skipped.(deferred := []);
      SkippedIsSettled(b0, b, b', jobs, failFast, tests, targets);
      return Stop, b';
    }
    AgainIsSettled(b0, b, inFlight, jobs, failFast, tests, targets);
    return Again, b;
  }

  // With every asked test reported, or a whole selection whose counts agree, there is nothing to settle.
  lemma CompleteIsSettled(launcher: Launcher, b: Books, end: ProcessEnd, jobs: nat, failFast: bool,
                          tests: seq<Name>, targets: seq<Name>, k: nat)
    requires launcher.list.Ok? ==> launcher.list.value == tests
    requires Ended(b, end, failFast, tests, targets, k) && Widths(b, jobs)
    requires b.remaining.Some? ==> forall n :: n in b.remaining.value ==> n in b.done
    requires if EndedWell(end) then Accounted(end) else TallyAgrees(end)
    ensures Settled(Stop, b, b, jobs, failFast, tests, targets)
    ensures Decided(launcher, b, end, jobs, failFast, tests, Stop, b)
  {
    NothingOwed(b, end, failFast, tests, targets, k);
    StopIsSettled(b, jobs, failFast, tests, targets, Asked(b.remaining, tests));
  }

  lemma ListedIsDecided(launcher: Launcher, b: Books, end: ProcessEnd, jobs: nat, failFast: bool, tests: seq<Name>,
                        ctl: Control, b': Books)
    requires ListDecided(launcher, b, end, jobs, failFast, tests, ctl, b')
    requires b.remaining.Some? || !(if EndedWell(end) then Accounted(end) else TallyAgrees(end))
    ensures Decided(launcher, b, end, jobs, failFast, tests, ctl, b')
  {
  }

  // Settle one ended process: what it reported is already in the books.
  method Settle(launcher: Launcher, b: Books, end: ProcessEnd, before: nat, jobs: nat, failFast: bool,
                ghost tests: seq<Name>, ghost targets: seq<Name>, ghost k: nat)
    returns (ctl: Control, b': Books)
    requires launcher.list.Ok? ==> launcher.list.value == tests
    requires Ended(b, end, failFast, tests, targets, k) && Widths(b, jobs)
    requires RoundNames(end) == [] <==> |b.done| == before
    ensures Settled(ctl, b, b', jobs, failFast, tests, targets) && (ctl.Fail? ==> launcher.list == Err(ctl.error))
    ensures Decided(launcher, b, end, jobs, failFast, tests, ctl, b')
  {
    var round := Digest(end.events);
    var reported := if |round.finished| <= U32_MAX then |round.finished| else U32_MAX;
    var clean := CleanEnd(end);
    CleanIsEndedWell(end);
    var tallied := round.summary.Some? && Counted(round.summary.value) == reported;
    assert tallied <==> TallyAgrees(end);
    var accounted := end.declared.Some? || tallied;
    var complete := b.remaining.None? || forall n :: n in b.remaining.value ==> n in b.done;
    if clean && accounted && complete {
      CompleteIsSettled(launcher, b, end, jobs, failFast, tests, targets, k);
      return Stop, b;
    }
    if clean {
      ctl, b' := SettleClean(launcher, b, end, accounted, before, jobs, failFast, tests, targets, k);
      ListedIsDecided(launcher, b, end, jobs, failFast, tests, ctl, b');
      return;
    }
    if tallied && complete {
      CompleteIsSettled(launcher, b, end, jobs, failFast, tests, targets, k);
      return Stop, b;
    }
    ctl, b' := SettleCrash(launcher, b, end, jobs, failFast, tests, targets, k);
    ListedIsDecided(launcher, b, end, jobs, failFast, tests, ctl, b');
  }

  // What the loop goes by: the books are in order and `ctl` says how to go on.
  method SettleReported(launcher: Launcher, b: Books, end: ProcessEnd, before: nat, jobs: nat, failFast: bool,
                        ghost tests: seq<Name>, ghost targets: seq<Name>, ghost k: nat)
    returns (ctl: Control, b': Books)
    requires launcher.list.Ok? ==> launcher.list.value == tests
    requires Ended(b, end, failFast, tests, targets, k) && Widths(b, jobs)
    requires RoundNames(end) == [] <==> |b.done| == before
    ensures Settled(ctl, b, b', jobs, failFast, tests, targets) && Tidy(b', failFast, tests, targets)
    ensures ctl.Fail? ==> launcher.list == Err(ctl.error)
  {
    ctl, b' := Settle(launcher, b, end, before, jobs, failFast, tests, targets, k);
    SettledIsTidy(b, b', ctl, jobs, failFast, tests, targets);
  }

  // ------------------------------------------------------------- the loops

  // The books between processes.
  ghost predicate Ready(b: Books, jobs: nat, failFast: bool, tests: seq<Name>, targets: seq<Name>) {
    && Sound(b, failFast, tests) && Widths(b, jobs) && AllPassedOn(b.log)
    && Conserved(b, Asked(b.remaining, tests), targets)
    && !(failFast && b.failed)
    && (b.remaining.None? ==> b.deferred == [] && b.log == [])
  }

  // The books between batches: nothing is owed but what is set aside.
  ghost predicate BatchOver(b: Books, jobs: nat, failFast: bool, tests: seq<Name>, targets: seq<Name>) {
    && Kept(b, failFast, tests) && Widths(b, jobs) && AllPassedOn(b.log)
    && Conserved(b, [], targets)
    && (b.deferred != [] ==> Sound(b, failFast, tests))
  }

  // Set aside what does not fit one command line.
  function Split(b: Books, count: nat): Books
    requires b.remaining.Some? && count < |b.remaining.value|
  {
    b.(remaining := Some(b.remaining.value[..count]),
       deferred := [Batch(b.remaining.value[count..], b.threads)] + b.deferred)
  }

  lemma SplitKeepsBooks(b: Books, count: nat, jobs: nat, failFast: bool, tests: seq<Name>, targets: seq<Name>)
    requires Ready(b, jobs, failFast, tests, targets)
    requires b.remaining.Some? && 0 < count < |b.remaining.value|
    ensures Ready(Split(b, count), jobs, failFast, tests, targets)
    ensures Weight(Split(b, count), tests) == Weight(b, tests) + 1
  {
    SplitConserves(b, count, targets);
    SplitWeighs(b, count, tests);
    WidthsFront(HasCrash(b.log), Batch(b.remaining.value[count..], b.threads), b.deferred, jobs);
  }

  lemma SplitConserves(b: Books, count: nat, targets: seq<Name>)
    requires b.remaining.Some? && count < |b.remaining.value| && Conserved(b, b.remaining.value, targets)
    ensures Conserved(Split(b, count), Split(b, count).remaining.value, targets)
  {
    var names := b.remaining.value;
    assert names == names[..count] + names[count..];
    DeferredWeightFront(Batch(names[count..], b.threads), b.deferred);
  }

  lemma SplitWeighs(b: Books, count: nat, tests: seq<Name>)
    requires b.remaining.Some? && count < |b.remaining.value|
    ensures Weight(Split(b, count), tests) == Weight(b, tests) + 1
  {
    DeferredWeightFront(Batch(b.remaining.value[count..], b.threads), b.deferred);
  }

  function Launch(b: Books, end: ProcessEnd): Books {
    b.(log := b.log + [Launched(b.remaining, b.threads, end)])
  }

  lemma LaunchKeepsBooks(b: Books, end: ProcessEnd, jobs: nat, failFast: bool, tests: seq<Name>, targets: seq<Name>)
    requires Ready(b, jobs, failFast, tests, targets)
    ensures
      var b' := Launch(b, end);
      && Orderly(b'.log, failFast, tests) && (b'.failed <==> HasFailed(b'.log))
      && (HasHang(b'.log) <==> end.gpuHang)
      && b'.done == Elements(Names(b'.log)) && Names(b'.log) == Names(b.log)
      && LastLaunch(b'.log, |b.log|) && b'.log[|b.log|] == Launched(b.remaining, b.threads, end)
  {
    var a := Launched(b.remaining, b.threads, end);
    NamesAppend(b.log, a);
    FailedAppend(b.log, a);
    HangAppend(b.log, a);
    OrderlyAppend(b.log, a, failFast, tests);
  }

  // Reporting an honest process's own word leaves exactly the tests it left open.
  lemma ReportIsEnded(b: Books, b': Books, end: ProcessEnd, jobs: nat, failFast: bool, tests: seq<Name>, targets: seq<Name>)
    requires Ready(b, jobs, failFast, tests, targets) && NoDuplicates(targets)
    requires HonestEnd(b.remaining, tests, end)
    requires Sound(b', failFast, tests) && b' == b.(log := b'.log, done := b'.done, failed := b'.failed)
    requires OnlyReports(Launch(b, end).log, b'.log) && Names(b'.log) == Names(b.log) + RoundNames(end)
    requires b'.failed ==> b.failed || end.declared.Some? || SomeFailed(Digest(end.events).finished)
    ensures Ended(b', end, failFast, tests, targets, |b.log|)
    ensures b'.done == b.done + Elements(RoundNames(end))
  {
    var asked := Asked(b.remaining, tests);
    forall n: Name
      ensures multiset(asked)[n] <= 1
      ensures n in asked ==> n !in b.done
    {
      OwedOnce(b, asked, targets, n);
    }
    assert b'.done == b.done + Elements(RoundNames(end));
    RoundConserves(asked, RoundNames(end), b.done);
    assert |multiset(RoundNames(end)) + multiset(Undone(asked, b'.done))| == |RoundNames(end)| + |Undone(asked, b'.done)|;
    assert LastLaunch(Launch(b, end).log, |b.log|);
    LastLaunchKept(Launch(b, end).log, b'.log, |b.log|);
  }

  // Once the last process's word is passed on, every process's is.
  lemma RoundPassedOn(log: seq<Action>, launch: Action, log': seq<Action>)
    requires AllPassedOn(log) && launch.Launched?
    requires OnlyReports(log + [launch], log') && PassedOn(log', launch.end)
    ensures AllPassedOn(log')
  {
    forall i | 0 <= i < |log'| && log'[i].Launched? && !log'[i].end.gpuHang
      ensures PassedOn(log', log'[i].end)
    {
      assert i < |log| + 1;
      if i < |log| {
        assert log'[i] == (log + [launch])[i] == log[i];
        assert PassedOn(log, log[i].end);
        PassedOnExtends(log, log', log[i].end);
      } else {
        assert log'[i] == (log + [launch])[i];
      }
    }
  }

  lemma PassedOnExtends(log: seq<Action>, log': seq<Action>, end: ProcessEnd)
    requires PassedOn(log, end) && |log| <= |log'| && log'[..|log|] == log
    ensures PassedOn(log', end)
  {
    forall a | a in log
      ensures a in log'
    {
      var i :| 0 <= i < |log| && log[i] == a;
      assert log'[i] == a;
    }
  }

  // Processes that ran.
  function Launches(log: seq<Action>): nat {
    if log == [] then 0 else Launches(log[..|log| - 1]) + (if log[|log| - 1].Launched? then 1 else 0)
  }

  lemma {:induction false} ReportsLaunchNothing(log: seq<Action>, log': seq<Action>)
    requires OnlyReports(log, log')
    ensures Launches(log') == Launches(log)
    decreases |log'|
  {
    if |log| < |log'| {
      ReportsLaunchNothing(log, log'[..|log'| - 1]);
    } else {
      assert log == log';
    }
  }

  // ------------------------------------------------------- what was asked for

  predicate FrontOf(names: Option<seq<Name>>, all: Option<seq<Name>>) {
    names == all || (names.Some? && all.Some? && names.value != [] && names.value <= all.value)
  }

  // A process was asked for what was at hand, or the front of it, and answered; then came verdicts.
  ghost predicate RanOn(launcher: Launcher, b: Books, process: nat, names: Option<seq<Name>>, end: ProcessEnd,
                        log: seq<Action>)
  {
    && OnlyReports(b.log + [Launched(names, b.threads, end)], log)
    && launcher.run(process, names, b.threads) == Result.Ok(end)
    && FrontOf(names, b.remaining)
  }

  const INVALID_BATCH: string := "the launcher returned an invalid test batch size"

  // The launcher would not run or size a batch, or sized it wrongly.
  predicate RefusedOn(launcher: Launcher, process: nat, names: seq<Name>, asked: Option<seq<Name>>, threads: nat,
                      error: string)
  {
    var count := launcher.batchLen(process, names, threads);
    || launcher.run(process, asked, threads) == Err(error)
    || count == Err(error)
    || (count.Ok? && (count.value == 0 || count.value > |names|) && error == INVALID_BATCH)
  }

  ghost predicate Refused(launcher: Launcher, error: string) {
    || launcher.list == Err(error)
    || exists process, names, asked, threads :: RefusedOn(launcher, process, names, asked, threads, error)
  }

  // The launcher said how many of the names at hand one process takes.
  predicate CutBy(launcher: Launcher, b: Books, process: nat, names: Option<seq<Name>>) {
    names.Some? ==> b.remaining.Some? && launcher.batchLen(process, b.remaining.value, b.threads) == Result.Ok(|names.value|)
  }

  ghost predicate RanOne(launcher: Launcher, b: Books, process: nat, log: seq<Action>) {
    exists names, end :: RanOn(launcher, b, process, names, end, log) && CutBy(launcher, b, process, names)
  }

  /**
    What the process at `i` was asked to do, and its answer. It ran at the caller's width, or
    serially after some process did not end well. It was given tests of the selection without
    a verdict, none twice and at least one; only the first process is given a whole binary.
    The first gets the selection, or the front of it, at the caller's width.
  */
  ghost predicate WellAsked(launcher: Launcher, log: seq<Action>, i: int, selection: Option<seq<Name>>, jobs: nat,
                            tests: seq<Name>)
    requires 0 <= i < |log| && log[i].Launched?
  {
    var before, a := log[..i], log[i];
    && launcher.run(Launches(before) + 1, a.names, a.threads) == Result.Ok(a.end)
    && WidthAllowed(HasCrash(before), a.threads, jobs)
    && (a.names.None? ==> i == 0 && selection.None?)
    && (a.names.Some? ==> a.names.value != [] && NoDuplicates(a.names.value))
    && (a.names.Some? ==> forall n :: n in a.names.value ==> n in Asked(selection, tests) && n !in Names(before))
    && (i == 0 ==> a.threads == jobs && FrontOf(a.names, selection))
  }

  ghost predicate AllAsked(launcher: Launcher, log: seq<Action>, selection: Option<seq<Name>>, jobs: nat, tests: seq<Name>) {
    forall i :: 0 <= i < |log| && log[i].Launched? ==> WellAsked(launcher, log, i, selection, jobs, tests)
  }

  // Before anything ran, the books are as the caller gave them.
  ghost predicate Begins(b: Books, selection: Option<seq<Name>>, jobs: nat) {
    b.log == [] ==> b.remaining == selection && b.threads == jobs && b.deferred == []
  }

  lemma AskedExtends(launcher: Launcher, log: seq<Action>, log': seq<Action>, selection: Option<seq<Name>>, jobs: nat,
                     tests: seq<Name>)
    requires AllAsked(launcher, log, selection, jobs, tests) && OnlyReports(log, log')
    ensures AllAsked(launcher, log', selection, jobs, tests)
  {
    forall i | 0 <= i < |log'| && log'[i].Launched?
      ensures WellAsked(launcher, log', i, selection, jobs, tests)
    {
      assert i < |log|;
      assert log'[..i] == log[..i] && log'[i] == log[i];
    }
  }

  // The names at hand are owed, so they are targets, without a verdict and all different.
  lemma OwedToTargets(b: Books, names: seq<Name>, targets: seq<Name>)
    requires Conserved(b, names, targets) && NoDuplicates(targets)
    ensures NoDuplicates(names) && forall n :: n in names ==> n in targets && n !in Names(b.log)
  {
    forall n: Name
      ensures multiset(names)[n] <= 1
      ensures n in names ==> n in targets && n !in Names(b.log)
    {
      OwedOnce(b, names, targets, n);
      assert n in names ==> n in multiset(names) && n in multiset(targets);
    }
    OnceIsNoDuplicate(names);
  }

  lemma NextIsAsked(launcher: Launcher, b: Books, launch: Action, selection: Option<seq<Name>>, jobs: nat,
                    failFast: bool, tests: seq<Name>)
    requires Ready(b, jobs, failFast, tests, Asked(selection, tests)) && NoDuplicates(Asked(selection, tests))
    requires Begins(b, selection, jobs) && b.remaining != Some([])
    requires launch.Launched? && launch.threads == b.threads && FrontOf(launch.names, b.remaining)
    requires launcher.run(Launches(b.log) + 1, launch.names, launch.threads) == Result.Ok(launch.end)
    ensures WellAsked(launcher, b.log + [launch], |b.log|, selection, jobs, tests)
  {
    var log := b.log + [launch];
    assert log[..|b.log|] == b.log && log[|b.log|] == launch;
    OwedToTargets(b, Asked(b.remaining, tests), Asked(selection, tests));
    if launch.names.Some? {
      assert launch.names.value <= b.remaining.value;
      assert forall n :: n in launch.names.value ==> n in b.remaining.value;
    }
  }

  lemma RanIsAsked(launcher: Launcher, b: Books, process: nat, log: seq<Action>, selection: Option<seq<Name>>, jobs: nat,
                   failFast: bool, tests: seq<Name>)
    requires Ready(b, jobs, failFast, tests, Asked(selection, tests)) && NoDuplicates(Asked(selection, tests))
    requires Begins(b, selection, jobs) && b.remaining != Some([]) && process == Launches(b.log) + 1
    requires AllAsked(launcher, b.log, selection, jobs, tests)
    requires log == b.log || RanOne(launcher, b, process, log)
    ensures AllAsked(launcher, log, selection, jobs, tests)
  {
    if log != b.log {
      var names, end :| RanOn(launcher, b, process, names, end, log) && CutBy(launcher, b, process, names);
      var launch := Launched(names, b.threads, end);
      NextIsAsked(launcher, b, launch, selection, jobs, failFast, tests);
      OneMoreAsked(launcher, b.log, launch, selection, jobs, tests);
      AskedExtends(launcher, b.log + [launch], log, selection, jobs, tests);
    }
  }

  lemma OneMoreAsked(launcher: Launcher, log: seq<Action>, launch: Action, selection: Option<seq<Name>>, jobs: nat,
                     tests: seq<Name>)
    requires AllAsked(launcher, log, selection, jobs, tests)
    requires launch.Launched? && WellAsked(launcher, log + [launch], |log|, selection, jobs, tests)
    ensures AllAsked(launcher, log + [launch], selection, jobs, tests)
  {
    var log' := log + [launch];
    forall i | 0 <= i < |log'| && log'[i].Launched?
      ensures WellAsked(launcher, log', i, selection, jobs, tests)
    {
      if i < |log| {
        assert log'[..i] == log[..i] && log'[i] == log[i];
      }
    }
  }

  datatype RoundEnd = Continues | BatchDone | Hanging | Errored(error: string)

  // One pass of the inner loop: run a process on what is left of the batch and settle it.
  method RunRound(launcher: Launcher, b: Books, process: nat, jobs: nat, failFast: bool,
                  ghost tests: seq<Name>, ghost targets: seq<Name>)
    returns (r: RoundEnd, b': Books)
    requires Honest(launcher, tests) && NoDuplicates(targets)
    requires Ready(b, jobs, failFast, tests, targets)
    ensures Orderly(b'.log, failFast, tests) && (b'.failed <==> HasFailed(b'.log))
    ensures multiset(Names(b'.log)) <= multiset(targets) && AllPassedOn(b'.log)
    ensures r.Hanging? <==> HasHang(b'.log)
    ensures !r.Errored? ==> Launches(b'.log) == Launches(b.log) + (if b.remaining == Some([]) then 0 else 1)
    ensures b'.log == b.log || (b.remaining != Some([]) && RanOne(launcher, b, process, b'.log))
    ensures b.remaining == Some([]) ==> r.BatchDone? && b' == b
    ensures r.Errored? ==> Refused(launcher, r.error)
    ensures r.Continues? ==> Ready(b', jobs, failFast, tests, targets) && Weight(b', tests) < Weight(b, tests)
    ensures r.BatchDone? ==> BatchOver(b', jobs, failFast, tests, targets) && DeferredWeight(b'.deferred) <= Weight(b, tests)
  {
    if b.remaining == Some([]) {
      return BatchDone, b;
    }
    var cut := CutBatch(launcher, b, process, jobs, failFast, tests, targets);
    if cut.Err? {
      return Errored(cut.error), b;
    }
    r, b' := RunBatch(launcher, cut.value, process, jobs, failFast, tests, targets);
    FrontRan(launcher, b, cut.value, process, b'.log);
  }

  // As many of the names at hand as the launcher takes at once; the others are set aside in front.
  method CutBatch(launcher: Launcher, b: Books, process: nat, jobs: nat, failFast: bool,
                  ghost tests: seq<Name>, ghost targets: seq<Name>)
    returns (r: Result<Books, string>)
    requires Ready(b, jobs, failFast, tests, targets) && b.remaining != Some([])
    ensures r.Err? ==> Refused(launcher, r.error)
    ensures r.Ok? ==>
              && Ready(r.value, jobs, failFast, tests, targets) && r.value.remaining != Some([])
              && r.value == b.(remaining := r.value.remaining, deferred := r.value.deferred)
              && FrontOf(r.value.remaining, b.remaining) && CutBy(launcher, b, process, r.value.remaining)
              && Weight(r.value, tests) <= Weight(b, tests) + (if b.remaining.Some? then 1 else 0)
              && DeferredWeight(r.value.deferred) <= Weight(b, tests)
  {
    if b.remaining.None? {
      return Result.Ok(b);
    }
    var count := launcher.batchLen(process, b.remaining.value, b.threads);
    if count.Err? {
      assert RefusedOn(launcher, process, b.remaining.value, b.remaining, b.threads, count.error);
      return Err(count.error);
    }
    if count.value == 0 || count.value > |b.remaining.value| {
      assert RefusedOn(launcher, process, b.remaining.value, b.remaining, b.threads, INVALID_BATCH);
      return Err(INVALID_BATCH);
    }
    if count.value == |b.remaining.value| {
      return Result.Ok(b);
    }
    SplitKeepsBooks(b, count.value, jobs, failFast, tests, targets);
    r := Result.Ok(Split(b, count.value));
  }

  lemma FrontRan(launcher: Launcher, b: Books, batch: Books, process: nat, log: seq<Action>)
    requires batch.log == b.log && batch.threads == b.threads && FrontOf(batch.remaining, b.remaining)
    requires CutBy(launcher, b, process, batch.remaining)
    requires log == b.log || exists end :: RanOn(launcher, batch, process, batch.remaining, end, log)
    ensures log == b.log || RanOne(launcher, b, process, log)
  {
    if log != b.log {
      var end :| RanOn(launcher, batch, process, batch.remaining, end, log);
      assert RanOn(launcher, b, process, batch.remaining, end, log);
    }
  }

  method RunBatch(launcher: Launcher, b: Books, process: nat, jobs: nat, failFast: bool,
                  ghost tests: seq<Name>, ghost targets: seq<Name>)
    returns (r: RoundEnd, b': Books)
    requires Honest(launcher, tests) && NoDuplicates(targets)
    requires Ready(b, jobs, failFast, tests, targets) && b.remaining != Some([])
    ensures Orderly(b'.log, failFast, tests) && (b'.failed <==> HasFailed(b'.log))
    ensures multiset(Names(b'.log)) <= multiset(targets) && AllPassedOn(b'.log)
    ensures r.Hanging? <==> HasHang(b'.log)
    ensures !r.Errored? ==> Launches(b'.log) == Launches(b.log) + 1
    ensures b'.log == b.log || exists end :: RanOn(launcher, b, process, b.remaining, end, b'.log)
    ensures r.Errored? ==> Refused(launcher, r.error)
    ensures r.Continues? ==> Ready(b', jobs, failFast, tests, targets)
                             && Weight(b', tests) + (if b.remaining.Some? then 1 else 0) < Weight(b, tests)
    ensures r.BatchDone? ==> BatchOver(b', jobs, failFast, tests, targets)
                             && DeferredWeight(b'.deferred) <= DeferredWeight(b.deferred)
  {
    var answer := launcher.run(process, b.remaining, b.threads);
    if answer.Err? {
      assert RefusedOn(launcher, process, Asked(b.remaining, tests), b.remaining, b.threads, answer.error);
      return Errored(answer.error), b;
    }
    var end := answer.value;
    assert HonestEnd(b.remaining, tests, end);
    LaunchKeepsBooks(b, end, jobs, failFast, tests, targets);
    assert Launches(Launch(b, end).log) == Launches(b.log) + 1 by {
      assert Launch(b, end).log[..|b.log|] == b.log;
    }
    if end.gpuHang {
      HangPassedOn(b.log, Launched(b.remaining, b.threads, end));
      b' := Launch(b, end);
      assert RanOn(launcher, b, process, b.remaining, end, b'.log);
      return Hanging, b';
    }
    r, b' := FinishRound(launcher, b, end, jobs, failFast, tests, targets);
    assert RanOn(launcher, b, process, b.remaining, end, b'.log);
  }

  method ReportRound(b: Books, end: ProcessEnd, jobs: nat, failFast: bool, ghost tests: seq<Name>, ghost targets: seq<Name>)
    returns (reported: Books)
    requires Ready(b, jobs, failFast, tests, targets) && NoDuplicates(targets)
    requires HonestEnd(b.remaining, tests, end) && !end.gpuHang
    ensures Ended(reported, end, failFast, tests, targets, |b.log|)
    ensures reported == b.(log := reported.log, done := reported.done, failed := reported.failed)
    ensures OnlyReports(Launch(b, end).log, reported.log) && PassedOn(reported.log, end)
    ensures RoundNames(end) == [] <==> |reported.done| == |b.done|
  {
    LaunchKeepsBooks(b, end, jobs, failFast, tests, targets);
    reported := ReportEnd(Launch(b, end), end, failFast, tests, |b.log|);
    ReportIsEnded(b, reported, end, jobs, failFast, tests, targets);
    ReportsAreNew(b, reported, end, jobs, failFast, tests, targets);
  }

  // Every result of a round is about a test that had none.
  lemma ReportsAreNew(b: Books, b': Books, end: ProcessEnd, jobs: nat, failFast: bool, tests: seq<Name>, targets: seq<Name>)
    requires Ready(b, jobs, failFast, tests, targets) && NoDuplicates(targets) && HonestEnd(b.remaining, tests, end)
    requires b'.done == b.done + Elements(RoundNames(end))
    ensures RoundNames(end) == [] <==> |b'.done| == |b.done|
  {
    if RoundNames(end) == [] {
      assert b'.done == b.done;
    } else {
      var n := RoundNames(end)[0];
      assert n in RoundNames(end) && n in Asked(b.remaining, tests);
      OwedOnce(b, Asked(b.remaining, tests), targets, n);
      assert b.done + {n} <= b'.done;
      OneMore(b.done, n);
      FewerInside(b.done + {n}, b'.done);
    }
  }

  lemma OneMore(names: set<Name>, n: Name)
    requires n !in names
    ensures |names + {n}| == |names| + 1
  {
  }

  lemma FewerInside(a: set<Name>, b: set<Name>)
    requires a <= b
    ensures |a| <= |b|
  {
    assert b == a + (b - a);
  }

  // Report what the process printed and settle what it left open.
  method FinishRound(launcher: Launcher, b: Books, end: ProcessEnd, jobs: nat, failFast: bool,
                     ghost tests: seq<Name>, ghost targets: seq<Name>)
    returns (r: RoundEnd, b': Books)
    requires Honest(launcher, tests) && NoDuplicates(targets)
    requires Ready(b, jobs, failFast, tests, targets) && b.remaining != Some([])
    requires HonestEnd(b.remaining, tests, end) && !end.gpuHang
    ensures Tidy(b', failFast, tests, targets) && AllPassedOn(b'.log) && !r.Hanging?
    ensures !r.Errored? ==> Launches(b'.log) == Launches(Launch(b, end).log)
    ensures OnlyReports(Launch(b, end).log, b'.log) && (r.Errored? ==> launcher.list == Err(r.error))
    ensures r.Continues? ==> Ready(b', jobs, failFast, tests, targets)
                             && Weight(b', tests) + (if b.remaining.Some? then 1 else 0) < Weight(b, tests)
    ensures r.BatchDone? ==> BatchOver(b', jobs, failFast, tests, targets)
                             && DeferredWeight(b'.deferred) <= DeferredWeight(b.deferred)
  {
    var reported := ReportRound(b, end, jobs, failFast, tests, targets);
    WidthsStay(b, reported, jobs);
    var ctl, settled := SettleReported(launcher, reported, end, |b.done|, jobs, failFast, tests, targets, |b.log|);
    SettledIsReady(b, end, reported, settled, ctl, jobs, failFast, tests, targets);
    match ctl
    case Again => return Continues, settled;
    case Stop => return BatchDone, settled;
    case Fail(error) => return Errored(error), settled;
  }

  lemma HangPassedOn(log: seq<Action>, launch: Action)
    requires AllPassedOn(log) && launch.Launched? && launch.end.gpuHang
    ensures AllPassedOn(log + [launch])
  {
    var log' := log + [launch];
    forall i | 0 <= i < |log'| && log'[i].Launched? && !log'[i].end.gpuHang
      ensures PassedOn(log', log'[i].end)
    {
      assert log'[i] == log[i];
      PassedOnExtends(log, log', log[i].end);
    }
  }

  lemma SettledIsReady(b: Books, end: ProcessEnd, reported: Books, settled: Books, ctl: Control,
                       jobs: nat, failFast: bool, tests: seq<Name>, targets: seq<Name>)
    requires Ready(b, jobs, failFast, tests, targets)
    requires reported == b.(log := reported.log, done := reported.done, failed := reported.failed)
    requires OnlyReports(Launch(b, end).log, reported.log) && PassedOn(reported.log, end)
    requires Settled(ctl, reported, settled, jobs, failFast, tests, targets)
    ensures AllPassedOn(settled.log) && Launches(settled.log) == Launches(Launch(b, end).log)
    ensures OnlyReports(Launch(b, end).log, settled.log)
    ensures ctl.Again? ==> Ready(settled, jobs, failFast, tests, targets)
                           && Weight(settled, tests) + (if b.remaining.Some? then 1 else 0) < Weight(b, tests)
    ensures ctl.Stop? ==> BatchOver(settled, jobs, failFast, tests, targets)
                          && DeferredWeight(settled.deferred) <= DeferredWeight(b.deferred)
  {
    SameWeight(b, reported, tests);
    ReportsCompose(Launch(b, end).log, reported.log, settled.log);
    ReportsLaunchNothing(Launch(b, end).log, settled.log);
    PassedOnExtends(reported.log, settled.log, end);
    RoundPassedOn(b.log, Launched(b.remaining, b.threads, end), settled.log);
  }

  lemma SameWeight(b: Books, b': Books, tests: seq<Name>)
    requires b' == b.(log := b'.log, done := b'.done, failed := b'.failed)
    ensures Weight(b', tests) == Weight(b, tests)
  {
  }

  // A settled round's books, whatever comes next.
  ghost predicate Tidy(b: Books, failFast: bool, tests: seq<Name>, targets: seq<Name>) {
    && Orderly(b.log, failFast, tests) && (b.failed <==> HasFailed(b.log)) && !HasHang(b.log)
    && multiset(Names(b.log)) <= multiset(targets)
  }

  lemma SettledIsTidy(b: Books, settled: Books, ctl: Control, jobs: nat, failFast: bool, tests: seq<Name>, targets: seq<Name>)
    requires Settled(ctl, b, settled, jobs, failFast, tests, targets)
    ensures Tidy(settled, failFast, tests, targets)
  {
  }

  // Take the next deferred batch.
  function Resume(b: Books): Books
    requires b.deferred != []
  {
    b.(remaining := Some(b.deferred[0].names), threads := b.deferred[0].threads, deferred := b.deferred[1..])
  }

  lemma ResumeIsReady(b: Books, jobs: nat, failFast: bool, tests: seq<Name>, targets: seq<Name>)
    requires BatchOver(b, jobs, failFast, tests, targets) && b.deferred != [] && !(failFast && b.failed)
    ensures Ready(Resume(b), jobs, failFast, tests, targets)
    ensures Weight(Resume(b), tests) < DeferredWeight(b.deferred)
  {
  }

  // The inner loop: rounds until the batch at hand and what it split off at the front is over.
  method RunRounds(launcher: Launcher, start: Books, started: nat, jobs: nat, failFast: bool,
                   ghost tests: seq<Name>, ghost selection: Option<seq<Name>>)
    returns (r: RoundEnd, b: Books, processes: nat)
    requires Honest(launcher, tests) && NoDuplicates(Asked(selection, tests))
    requires Ready(start, jobs, failFast, tests, Asked(selection, tests)) && started == Launches(start.log)
    requires Begins(start, selection, jobs) && AllAsked(launcher, start.log, selection, jobs, tests)
    ensures Orderly(b.log, failFast, tests) && (b.failed <==> HasFailed(b.log))
    ensures multiset(Names(b.log)) <= multiset(Asked(selection, tests)) && AllPassedOn(b.log)
    ensures !r.Continues? && (r.Hanging? <==> HasHang(b.log))
    ensures !r.Errored? ==> processes == Launches(b.log)
    ensures r.BatchDone? ==> BatchOver(b, jobs, failFast, tests, Asked(selection, tests))
                             && DeferredWeight(b.deferred) <= Weight(start, tests)
    ensures AllAsked(launcher, b.log, selection, jobs, tests) && (b.log == [] ==> b.deferred == [] || r.Errored?)
    ensures r.Errored? ==> Refused(launcher, r.error)
  {
    b, processes := start, started;
    while true
      invariant Ready(b, jobs, failFast, tests, Asked(selection, tests)) && Weight(b, tests) <= Weight(start, tests)
      invariant processes == Launches(b.log)
      invariant Begins(b, selection, jobs) && AllAsked(launcher, b.log, selection, jobs, tests)
      decreases Weight(b, tests)
    {
      if b.remaining != Some([]) {
        processes := processes + 1;
      }
      ghost var before := b;
      r, b := RunRound(launcher, b, processes, jobs, failFast, tests, Asked(selection, tests));
      if before.remaining != Some([]) {
        RanIsAsked(launcher, before, processes, b.log, selection, jobs, failFast, tests);
      }
      if !r.Continues? {
        return;
      }
    }
  }

  // Under `fail_fast`, a failure leaves every deferred name unrun.
  method SkipDeferred(b: Books, jobs: nat, failFast: bool, ghost tests: seq<Name>, ghost targets: seq<Name>)
    returns (b': Books)
    requires BatchOver(b, jobs, failFast, tests, targets) && failFast && b.failed
    ensures BatchOver(b', jobs, failFast, tests, targets) && b'.deferred == []
    ensures b'.failed && Launches(b'.log) == Launches(b.log) && OnlyReports(b.log, b'.log)
  {
    var skipped := SkipAll(b, Flat(b.deferred), failFast, tests);
    ReportsLaunchNothing(b.log, skipped.log);
    FlatSkipped(b, skipped, jobs, failFast, tests, targets);
    b' := skipped.(deferred := []);
  }

  // The batches of a run, one after another.
  method RunBatches(launcher: Launcher, selection: Option<seq<Name>>, jobs: nat, failFast: bool, ghost tests: seq<Name>)
    returns (r: Result<BinaryRun, string>, log: seq<Action>)
    requires Honest(launcher, tests)
    requires selection.Some? ==> NoDuplicates(selection.value)
    ensures Orderly(log, failFast, tests) && AllPassedOn(log)
    ensures multiset(Names(log)) <= multiset(Asked(selection, tests))
    ensures r.Ok? && r.value.outcome.Complete? ==> multiset(Names(log)) == multiset(Asked(selection, tests))
    ensures r.Ok? ==> (r.value.failed <==> HasFailed(log)) && (r.value.outcome.GpuHang? <==> HasHang(log))
    ensures r.Ok? ==> r.value.processes == Launches(log)
    ensures r.Err? ==> Refused(launcher, r.error)
    ensures AllAsked(launcher, log, selection, jobs, tests)
  {
    var b := Books(selection, jobs, [], {}, false, []);
    var processes := 0;
    while true
      invariant Ready(b, jobs, failFast, tests, Asked(selection, tests)) && processes == Launches(b.log)
      invariant Begins(b, selection, jobs) && AllAsked(launcher, b.log, selection, jobs, tests)
      decreases Weight(b, tests)
    {
      var round, b', processes' := RunRounds(launcher, b, processes, jobs, failFast, tests, selection);
      if round.Errored? {
        return Err(round.error), b'.log;
      }
      if round.Hanging? {
        return Result.Ok(BinaryRun(processes', b'.failed, GpuHang)), b'.log;
      }
      if failFast && b'.failed {
        ghost var log' := b'.log;
        b' := SkipDeferred(b', jobs, failFast, tests, Asked(selection, tests));
        AskedExtends(launcher, log', b'.log, selection, jobs, tests);
      }
      if b'.deferred == [] {
        return Result.Ok(BinaryRun(processes', b'.failed, Complete)), b'.log;
      }
      ResumeIsReady(b', jobs, failFast, tests, Asked(selection, tests));
      b, processes := Resume(b'), processes';
    }
  }

  /**
    `run_binary`. Whatever the honest launcher does, the run ends. Every verdict is about a
    target and no target gets two; a complete run gives each target exactly one, and passes
    on every result a process printed or declared as the process gave it. `failed` says
    whether a failure was reported, and the outcome is `GpuHang` exactly when a process
    reported one. Nothing follows such a process; under fail-fast no process follows a
    failure; `NotRun` follows a failure under fail-fast; a pass or an ignore rests on the
    word of an earlier process; and a failure on that or on the grounds that convict. Every
    process was asked for what `WellAsked` says, and an error is the launcher's own.
  */
  method RunBinary(launcher: Launcher, selection: Option<seq<Name>>, jobs: nat, failFast: bool, ghost tests: seq<Name>)
    returns (r: Result<BinaryRun, string>, log: seq<Action>)
    requires Honest(launcher, tests)
    requires selection.Some? ==> NoDuplicates(selection.value)
    ensures Orderly(log, failFast, tests) && AllPassedOn(log)
    ensures multiset(Names(log)) <= multiset(Asked(selection, tests))
    ensures r.Ok? && r.value.outcome.Complete? ==> multiset(Names(log)) == multiset(Asked(selection, tests))
    ensures r.Ok? ==> (r.value.failed <==> HasFailed(log)) && (r.value.outcome.GpuHang? <==> HasHang(log))
    ensures r.Ok? ==> r.value.processes == Launches(log)
    ensures r.Err? ==> Refused(launcher, r.error)
    ensures AllAsked(launcher, log, selection, jobs, tests)
    ensures HangIsLast(log) && (failFast ==> FailureIsLastRun(log))
    ensures forall j :: 0 <= j < |log| && log[j].Reported? ==> Grounded(log, j, failFast, tests)
  {
    r, log := RunBatches(launcher, selection, jobs, failFast, tests);
    NothingFollowsHang(log, failFast, tests);
    if failFast {
      FailureStopsProcesses(log, tests);
    }
    forall j | 0 <= j < |log| && log[j].Reported? ensures Grounded(log, j, failFast, tests) {
      VerdictsAreGrounded(log, failFast, tests, j);
    }
  }

  lemma ReportsPassedOn(log: seq<Action>, log': seq<Action>)
    requires AllPassedOn(log) && OnlyReports(log, log')
    ensures AllPassedOn(log')
  {
    forall i | 0 <= i < |log'| && log'[i].Launched? && !log'[i].end.gpuHang
      ensures PassedOn(log', log'[i].end)
    {
      assert i < |log| && log'[i] == log[i];
      PassedOnExtends(log, log', log[i].end);
    }
  }

  lemma FlatSkipped(b: Books, skipped: Books, jobs: nat, failFast: bool, tests: seq<Name>, targets: seq<Name>)
    requires BatchOver(b, jobs, failFast, tests, targets)
    requires skipped == b.(log := skipped.log) && Kept(skipped, failFast, tests)
    requires OnlyReports(b.log, skipped.log) && Names(skipped.log) == Names(b.log) + Flat(b.deferred)
    ensures BatchOver(skipped.(deferred := []), jobs, failFast, tests, targets)
  {
    ReportsPassedOn(b.log, skipped.log);
    assert Conserved(skipped.(deferred := []), [], targets);
  }

  // ------------------------------------------------- what an orderly log means

  ghost predicate HangIsLast(log: seq<Action>) {
    forall i :: 0 <= i < |log| - 1 && log[i].Launched? ==> !log[i].end.gpuHang
  }

  ghost predicate FailureIsLastRun(log: seq<Action>) {
    forall i, j :: 0 <= i < j < |log| && IsFailed(log[i]) ==> log[j].Reported?
  }

  ghost predicate VouchedAt(log: seq<Action>, i: int, name: Name, verdict: Verdict) {
    0 <= i < |log| && log[i].Launched? && Vouches(log[i].end, name, verdict)
  }

  // What each verdict of a log rests on, all of it earlier in the log.
  ghost predicate Grounded(log: seq<Action>, j: int, failFast: bool, tests: seq<Name>)
    requires 0 <= j < |log| && log[j].Reported?
  {
    var name, verdict := log[j].name, log[j].verdict;
    match verdict
    case NotRun => failFast && exists i :: 0 <= i < j && IsFailed(log[i])
    case FailedVerdict => (exists i :: i < j && VouchedAt(log, i, name, verdict)) || Convicted(log[..j], tests, name)
    case _ => exists i :: i < j && VouchedAt(log, i, name, verdict)
  }

  // Nothing happens after a process that reported a GPU hang.
  lemma NothingFollowsHang(log: seq<Action>, failFast: bool, tests: seq<Name>)
    requires Orderly(log, failFast, tests)
    ensures HangIsLast(log)
  {
    forall i | 0 <= i < |log| - 1 && log[i].Launched?
      ensures !log[i].end.gpuHang
    {
      var last := |log| - 1;
      assert OrderlyAt(log, last, failFast, tests);
      assert log[..last][i] == log[i];
    }
  }

  // Under fail-fast no process starts after a failure was reported.
  lemma FailureStopsProcesses(log: seq<Action>, tests: seq<Name>)
    requires Orderly(log, true, tests)
    ensures FailureIsLastRun(log)
  {
    forall i, j | 0 <= i < j < |log| && IsFailed(log[i])
      ensures log[j].Reported?
    {
      assert OrderlyAt(log, j, true, tests);
      assert log[..j][i] == log[i];
    }
  }

  lemma VerdictsAreGrounded(log: seq<Action>, failFast: bool, tests: seq<Name>, j: nat)
    requires Orderly(log, failFast, tests) && j < |log| && log[j].Reported?
    ensures Grounded(log, j, failFast, tests)
  {
    assert OrderlyAt(log, j, failFast, tests);
    var before, name, verdict := log[..j], log[j].name, log[j].verdict;
    if verdict.NotRun? {
      var i :| 0 <= i < |before| && IsFailed(before[i]);
      assert IsFailed(log[i]);
    } else if Supported(before, name, verdict) {
      SupportIsVouched(log, j, name, verdict);
    }
  }

  lemma SupportIsVouched(log: seq<Action>, j: nat, name: Name, verdict: Verdict)
    requires j <= |log| && Supported(log[..j], name, verdict)
    ensures exists i :: i < j && VouchedAt(log, i, name, verdict)
  {
    var i :| 0 <= i < |log[..j]| && log[..j][i].Launched? && Vouches(log[..j][i].end, name, verdict);
    assert VouchedAt(log, i, name, verdict);
  }
}
