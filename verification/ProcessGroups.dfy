/**
  Ownership of a child process group (unix/e2e/src/run.rs) against a kernel that answers
  as it likes. The kernel may give the leader's PID to a stranger once the owner's
  consuming wait returned the leader or a wait said there is no such child; until then
  the leader, running or dead, keeps its PID and its group.
*/
module ProcessGroups {
  import opened Wrappers

  // Nanoseconds.
  const EXIT_POLL: nat := 20_000_000
  const CLEANUP_GRACE: nat := 2_000_000_000
  const SIGNAL_EXIT_GRACE: nat := 1_000_000_000
  const SIGNAL_EXIT_POLL: nat := 1_000_000

  datatype Errno = EINTR | ECHILD | ESRCH | EPERM | Other(code: int)
  datatype IoError = Os(errno: Errno) | DeadlineExpired

  datatype WaitAnswer = Running | Exited | WaitFailed(errno: Errno)
  datatype ReapAnswer = Reaped(status: int) | NotYet | ReapFailed(errno: Errno)
  datatype SignalAnswer = Sent | SignalFailed(errno: Errno)

  // What the owner did: calls that name the PID, sleeps with the deadline they work to, and
  // ending the whole runner for a cause.
  datatype Call =
    | Observed(wait: WaitAnswer)
    | Consumed(reap: ReapAnswer)
    | Signalled(signal: SignalAnswer)
    | Paused(at: nat, length: nat, deadline: nat)
    | Retried(at: nat, length: nat, first: nat, second: nat, deadline: nat)
    | Quit(cause: IoError, at: nat, deadline: nat)

  // -------------------------------------------------------------- the protocol

  predicate NamesPid(c: Call) {
    c.Observed? || c.Consumed? || c.Signalled?
  }

  // The answer after which the PID is no longer this owner's.
  predicate Ends(c: Call) {
    c == Observed(WaitFailed(ECHILD)) || c == Consumed(ReapFailed(ECHILD)) || IsReap(c)
  }

  predicate IsReap(c: Call) {
    c.Consumed? && c.reap.Reaped?
  }

  predicate EndsWith(trace: seq<Call>, c: Call) {
    trace != [] && trace[|trace| - 1] == c
  }

  predicate Sleeps(c: Call) {
    c.Paused? || c.Retried?
  }

  // How long a refused signal waits for the leader to become waitable: what is left of the
  // budget at the `first` clock read, at most a second, from the `second` read on.
  function RetryUntil(deadline: nat, first: nat, second: nat): nat {
    var left := if first <= deadline then deadline - first else 0;
    second + if SIGNAL_EXIT_GRACE <= left then SIGNAL_EXIT_GRACE else left
  }

  function TimeLeft(now: nat, until: nat): nat {
    if now < until then until - now else 0
  }

  // A poll's sleep at `at`: the whole poll, or what is left until its loop ends.
  function SleepLength(at: nat, until: nat, poll: nat): nat
    requires at < until
  {
    if poll <= until - at then poll else until - at
  }

  // A sleep begins before its loop's end and does not outlast it.
  predicate InTime(c: Call) {
    (c.Paused? ==> c.at < c.deadline && c.length == SleepLength(c.at, c.deadline, EXIT_POLL))
    && (c.Retried? ==>
          var until := RetryUntil(c.deadline, c.first, c.second);
          c.first <= c.second <= c.at < until && c.length == SleepLength(c.at, until, SIGNAL_EXIT_POLL))
  }

  // A group signal that took effect at once: delivered, or no such group is left.
  predicate Settles(c: Call) {
    c == Signalled(Sent) || c == Signalled(SignalFailed(ESRCH))
  }

  predicate IsRefusal(c: Call) {
    c == Signalled(SignalFailed(EPERM))
  }

  // The error a call was answered with, if any.
  function ErrorOf(c: Call): Option<Errno> {
    match c
    case Observed(WaitFailed(errno)) => Some(errno)
    case Consumed(ReapFailed(errno)) => Some(errno)
    case Signalled(SignalFailed(errno)) => Some(errno)
    case _ => None
  }

  // The leader was not there to be had yet, or the call was interrupted.
  predicate Unfinished(c: Call) {
    c == Observed(Running) || c == Consumed(NotYet) || ErrorOf(c) == Some(EINTR)
  }

  // A monitor that watches the calls go by.
  datatype Monitor = Monitor(
    last: Option<Call>,     // the last call that named the PID
    tried: bool,            // a group signal was attempted
    begged: bool,           // and one was refused with EPERM
    ended: bool,            // the PID is no longer the owner's
    exited: bool,           // exit was observed
    refused: bool,          // and after it a group signal was refused with EPERM
    signalled: bool,        // and after it a group signal took effect, or was refused and exit observed again
    quit: bool,
    deadline: Option<nat>,
    pauses: nat)

  const IDLE: Monitor := Monitor(None, false, false, false, false, false, false, false, None, 0)

  /**
    What an owner may fail with: an error the last call that named the PID was answered with,
    the refusal of a group signal, that the child is no longer its own, or that time ran out
    over a leader that was not there to be had yet.
  */
  predicate Explains(m: Monitor, e: IoError) {
    match e
    case DeadlineExpired => m.last.Some? && Unfinished(m.last.value)
    case Os(errno) =>
      (m.last.Some? && ErrorOf(m.last.value) == Some(errno)) || (errno == EPERM && m.begged) || (errno == ECHILD && m.ended)
  }

  // What may happen next: the PID is named only while it is the owner's, the leader is reaped
  // only after a group signal that followed its exit, every sleep is in time and works to the
  // same deadline. The runner ends only over a child it owns, after a group signal was tried and
  // for an error other than an interruption or past the deadline, and then nothing follows.
  predicate Allowed(m: Monitor, c: Call) {
    !m.quit
    && (NamesPid(c) || c.Quit? ==> !m.ended)
    && (IsReap(c) ==> m.signalled)
    && (Sleeps(c) ==> InTime(c) && (m.deadline.None? || m.deadline == Some(c.deadline)))
    && (c.Quit? ==>
          && m.tried && c.cause != Os(EINTR) && Explains(m, c.cause)
          && (m.deadline.None? || m.deadline == Some(c.deadline))
          && (c.cause == DeadlineExpired ==> c.deadline <= c.at))
  }

  function Next(m: Monitor, c: Call): Monitor {
    Monitor(if NamesPid(c) then Some(c) else m.last,
            m.tried || c.Signalled?,
            m.begged || IsRefusal(c),
            m.ended || Ends(c),
            m.exited || c == Observed(Exited),
            m.refused || (m.exited && IsRefusal(c)),
            m.signalled || (m.exited && Settles(c)) || (m.refused && c == Observed(Exited)),
            m.quit || c.Quit?,
            if Sleeps(c) then Some(c.deadline) else m.deadline,
            m.pauses + if c.Paused? then 1 else 0)
  }

  function Watch(trace: seq<Call>): Monitor {
    if trace == [] then IDLE else Next(Watch(trace[..|trace| - 1]), trace[|trace| - 1])
  }

  predicate Lawful(trace: seq<Call>) {
    trace == [] || (Lawful(trace[..|trace| - 1]) && Allowed(Watch(trace[..|trace| - 1]), trace[|trace| - 1]))
  }

  lemma WatchAppend(trace: seq<Call>, c: Call)
    ensures Watch(trace + [c]) == Next(Watch(trace), c)
    ensures Lawful(trace + [c]) <==> Lawful(trace) && Allowed(Watch(trace), c)
  {
    assert (trace + [c])[..|trace|] == trace;
  }

  // ------------------------------------------------------- what a lawful trace means

  lemma {:induction false} LawfulAt(trace: seq<Call>, k: nat)
    requires Lawful(trace) && k < |trace|
    ensures Allowed(Watch(trace[..k]), trace[k])
  {
    var last := |trace| - 1;
    if k < last {
      LawfulAt(trace[..last], k);
      assert trace[..last][..k] == trace[..k];
    }
  }

  lemma {:induction false} WatchSees(trace: seq<Call>)
    ensures var m := Watch(trace);
            (m.ended <==> exists i :: 0 <= i < |trace| && Ends(trace[i]))
            && (m.exited <==> exists i :: 0 <= i < |trace| && trace[i] == Observed(Exited))
            && (m.quit <==> exists i :: 0 <= i < |trace| && trace[i].Quit?)
            && (m.tried <==> exists i :: 0 <= i < |trace| && trace[i].Signalled?)
            && (m.begged <==> exists i :: 0 <= i < |trace| && IsRefusal(trace[i]))
            && (m.deadline.None? ==> forall i :: 0 <= i < |trace| ==> !Sleeps(trace[i]))
  {
    if trace != [] {
      var last := |trace| - 1;
      WatchSees(trace[..last]);
      assert forall i :: 0 <= i < last ==> trace[..last][i] == trace[i];
    }
  }

  // At `i` exit was observed, at `j` the group was signalled; the signal took effect, or was
  // refused and exit observed once more at `l`. All of it before `k`.
  predicate SignalledAfterExit(trace: seq<Call>, i: int, j: int, l: int, k: int) {
    0 <= i < j <= l < k <= |trace| && trace[i] == Observed(Exited)
    && ((j == l && Settles(trace[j])) || (j < l && IsRefusal(trace[j]) && trace[l] == Observed(Exited)))
  }

  lemma {:induction false} RefusalSeen(trace: seq<Call>)
    requires Watch(trace).refused
    ensures exists i, j :: 0 <= i < j < |trace| && trace[i] == Observed(Exited) && IsRefusal(trace[j])
  {
    var last := |trace| - 1;
    var front := trace[..last];
    if Watch(front).refused {
      RefusalSeen(front);
      var i, j :| 0 <= i < j < |front| && front[i] == Observed(Exited) && IsRefusal(front[j]);
      assert trace[i] == Observed(Exited) && IsRefusal(trace[j]);
    } else {
      WatchSees(front);
      var i :| 0 <= i < |front| && front[i] == Observed(Exited);
      assert trace[i] == Observed(Exited) && IsRefusal(trace[last]);
    }
  }

  lemma {:induction false} SignalSeen(trace: seq<Call>)
    requires Watch(trace).signalled
    ensures exists i, j, l :: SignalledAfterExit(trace, i, j, l, |trace|)
  {
    var last := |trace| - 1;
    var front := trace[..last];
    if Watch(front).signalled {
      SignalSeen(front);
      var i, j, l :| SignalledAfterExit(front, i, j, l, |front|);
      assert SignalledAfterExit(trace, i, j, l, |trace|);
    } else if Settles(trace[last]) {
      WatchSees(front);
      var i :| 0 <= i < |front| && front[i] == Observed(Exited);
      assert SignalledAfterExit(trace, i, last, last, |trace|);
    } else {
      RefusalSeen(front);
      var i, j :| 0 <= i < j < |front| && front[i] == Observed(Exited) && IsRefusal(front[j]);
      assert SignalledAfterExit(trace, i, j, last, |trace|);
    }
  }

  // Once the PID is gone nothing names it again: no signal ever reaches a stranger.
  lemma NothingAfterTheEnd(trace: seq<Call>, i: nat, j: nat)
    requires Lawful(trace) && i < j < |trace| && Ends(trace[i])
    ensures !NamesPid(trace[j]) && !trace[j].Quit?
  {
    LawfulAt(trace, j);
    WatchSees(trace[..j]);
    assert trace[..j][i] == trace[i];
  }

  // A leader is only ever reaped after a group signal that followed its exit and took effect,
  // or was refused for a leader then seen to have exited.
  lemma ReapFollowsSignal(trace: seq<Call>, k: nat)
    requires Lawful(trace) && k < |trace| && IsReap(trace[k])
    ensures exists i, j, l :: SignalledAfterExit(trace, i, j, l, k)
  {
    LawfulAt(trace, k);
    SignalSeen(trace[..k]);
    var i, j, l :| SignalledAfterExit(trace[..k], i, j, l, |trace[..k]|);
    assert SignalledAfterExit(trace, i, j, l, k);
  }

  // The runner ends only while it owns the child, and that is the last thing it does.
  lemma QuitIsLast(trace: seq<Call>, k: nat)
    requires Lawful(trace) && k < |trace| && trace[k].Quit?
    ensures k == |trace| - 1 && forall i :: 0 <= i < k ==> !Ends(trace[i])
  {
    LawfulAt(trace, k);
    WatchSees(trace[..k]);
    forall i | 0 <= i < k ensures !Ends(trace[i]) {
      assert trace[..k][i] == trace[i];
    }
    var last := |trace| - 1;
    assert k < last ==> trace[..last][k] == trace[k];
    LawfulAt(trace, last);
    WatchSees(trace[..last]);
  }

  // The last call before `k` that named the PID is the one at `i`.
  predicate LastNamed(trace: seq<Call>, i: int, k: int) {
    0 <= i < k <= |trace| && NamesPid(trace[i]) && forall j :: i < j < k ==> !NamesPid(trace[j])
  }

  lemma {:induction false} LastIsSeen(trace: seq<Call>)
    requires Watch(trace).last.Some?
    ensures exists i :: LastNamed(trace, i, |trace|) && trace[i] == Watch(trace).last.value
  {
    var last := |trace| - 1;
    if NamesPid(trace[last]) {
      assert LastNamed(trace, last, |trace|);
    } else {
      LastIsSeen(trace[..last]);
      var i :| LastNamed(trace[..last], i, last) && trace[..last][i] == Watch(trace[..last]).last.value;
      assert LastNamed(trace, i, |trace|);
    }
  }

  /**
    The runner ends for a cause: a group signal was tried before; and the last call on the PID
    was answered with an error that is no interruption, or a signal had been refused, or the
    deadline had passed and the leader was not there to be had yet.
  */
  lemma QuitHasACause(trace: seq<Call>, k: nat)
    requires Lawful(trace) && k < |trace| && trace[k].Quit?
    ensures exists i :: 0 <= i < k && trace[i].Signalled?
    ensures exists i :: LastNamed(trace, i, k) && Causes(trace, i, k)
  {
    LawfulAt(trace, k);
    WatchSees(trace[..k]);
    var t :| 0 <= t < k && trace[..k][t].Signalled?;
    assert trace[t].Signalled?;
    SomethingNamed(trace[..k], t);
    var i := LastNamedIs(trace, k);
    CauseHolds(trace, i, k);
  }

  // Why the runner ended at `k`, where the last call on the PID was at `i`.
  ghost predicate Causes(trace: seq<Call>, i: int, k: int)
    requires 0 <= i < k < |trace| && trace[k].Quit?
  {
    match trace[k].cause
    case DeadlineExpired => trace[k].deadline <= trace[k].at && Unfinished(trace[i])
    case Os(errno) => errno != EINTR && (ErrorOf(trace[i]) == Some(errno) || (errno == EPERM && SomeRefusal(trace, k)))
  }

  predicate SomeRefusal(trace: seq<Call>, k: int)
    requires 0 <= k <= |trace|
  {
    exists j :: 0 <= j < k && IsRefusal(trace[j])
  }

  lemma LastNamedIs(trace: seq<Call>, k: nat) returns (i: int)
    requires k <= |trace| && Watch(trace[..k]).last.Some?
    ensures LastNamed(trace, i, k) && trace[i] == Watch(trace[..k]).last.value
  {
    LastIsSeen(trace[..k]);
    i :| LastNamed(trace[..k], i, k) && trace[..k][i] == Watch(trace[..k]).last.value;
    assert forall j :: 0 <= j < k ==> trace[..k][j] == trace[j];
  }

  lemma CauseHolds(trace: seq<Call>, i: int, k: nat)
    requires k < |trace| && trace[k].Quit? && Allowed(Watch(trace[..k]), trace[k])
    requires 0 <= i < k && Watch(trace[..k]).last == Some(trace[i])
    ensures Causes(trace, i, k)
  {
    WatchSees(trace[..k]);
    if j :| 0 <= j < k && IsRefusal(trace[..k][j]) {
      assert IsRefusal(trace[j]);
    }
  }

  lemma {:induction false} SomethingNamed(trace: seq<Call>, t: nat)
    requires t < |trace| && NamesPid(trace[t])
    ensures Watch(trace).last.Some?
  {
    var last := |trace| - 1;
    if t < last {
      SomethingNamed(trace[..last], t);
    }
  }

  // All sleeps of an owner's life work to one deadline.
  lemma {:induction false} OneDeadline(trace: seq<Call>, i: nat)
    requires Lawful(trace) && i < |trace| && Sleeps(trace[i])
    ensures InTime(trace[i]) && Watch(trace).deadline == Some(trace[i].deadline)
  {
    var last := |trace| - 1;
    LawfulAt(trace, i);
    if i < last {
      OneDeadline(trace[..last], i);
    }
  }

  predicate Overruns(c: Call) {
    Sleeps(c) && c.at + c.length > c.deadline
  }

  // No pause outlasts the one deadline. A retry may, but only by as long as the runner was
  // away between its two clock reads, and it is only made with some of the budget left.
  lemma OverrunIsBounded(trace: seq<Call>, i: nat)
    requires Lawful(trace) && i < |trace| && Sleeps(trace[i])
    ensures trace[i].Paused? ==> !Overruns(trace[i])
    ensures trace[i].Retried? ==>
              trace[i].first < trace[i].deadline
              && trace[i].at + trace[i].length <= trace[i].deadline + (trace[i].second - trace[i].first)
  {
    LawfulAt(trace, i);
  }

  /**
    Exactly when a retry's sleep can outlast the one deadline: some of the budget is left at
    the first clock read, the clock moves before the second, and at the second read less than
    a second of the budget is left.
  */
  lemma RetryOverrunsExactly(deadline: nat, first: nat, second: nat)
    ensures (exists c: Call :: c.Retried? && c.deadline == deadline && c.first == first && c.second == second
                         && InTime(c) && Overruns(c))
            <==> first < deadline && first < second && deadline < second + SIGNAL_EXIT_GRACE
  {
    if first < deadline && first < second && deadline < second + SIGNAL_EXIT_GRACE {
      var until := RetryUntil(deadline, first, second);
      var c := Retried(until - 1, 1, first, second, deadline);
      assert InTime(c) && Overruns(c);
    }
  }

  // ------------------------------------------------------------- the one budget

  // The pauses taken so far fit the budget, and leave room for another only before the deadline.
  predicate WithinBudget(pauses: nat, deadline: Option<nat>, now: nat) {
    if deadline.None? then pauses == 0
    else
      deadline.value >= CLEANUP_GRACE
      && (pauses == 0 || (pauses - 1) * EXIT_POLL < CLEANUP_GRACE)
      && (deadline.value - CLEANUP_GRACE + pauses * EXIT_POLL <= now || deadline.value <= now)
  }

  lemma BudgetPause(pauses: nat, deadline: nat, now: nat, at: nat, later: nat)
    requires WithinBudget(pauses, Some(deadline), now) && now <= at < deadline && at + SleepLength(at, deadline, EXIT_POLL) <= later
    ensures WithinBudget(pauses + 1, Some(deadline), later)
  {
  }

  // --------------------------------------------------------------- the kernel

  /**
    Every answer, and the time every call takes, by how many calls came before: nothing is
    assumed of them.
  */
  class Kernel {
    const waits: nat -> WaitAnswer
    const reaps: nat -> ReapAnswer
    const signals: nat -> SignalAnswer
    const delays: nat -> nat
    var calls: nat
    var now: nat
    var trace: seq<Call>
    ghost var seen: Monitor

    ghost predicate Watched()
      reads this
    {
      seen == Watch(trace) && Lawful(trace)
    }

    constructor (waits: nat -> WaitAnswer, reaps: nat -> ReapAnswer, signals: nat -> SignalAnswer, delays: nat -> nat)
      ensures trace == [] && calls == 0 && now == 0 && seen == IDLE && Watched()
      ensures this.waits == waits && this.reaps == reaps && this.signals == signals && this.delays == delays
    {
      this.waits, this.reaps, this.signals, this.delays := waits, reaps, signals, delays;
      calls, now, trace, seen := 0, 0, [], IDLE;
    }

    method Pass(length: nat)
      modifies this`calls, this`now
      ensures calls == old(calls) + 1 && now == old(now) + length + delays(old(calls))
    {
      calls, now := calls + 1, now + length + delays(calls);
    }

    method Now() returns (t: nat)
      modifies this`calls, this`now
      ensures calls == old(calls) + 1 && t == now == old(now) + delays(old(calls))
    {
      Pass(0);
      t := now;
    }

    // A call is made only when it is allowed.
    method Make(c: Call)
      requires Watched() && Allowed(seen, c)
      modifies this`trace, this`seen
      ensures Watched() && seen == Next(old(seen), c) && trace == old(trace) + [c]
    {
      WatchAppend(trace, c);
      trace, seen := trace + [c], Next(seen, c);
    }

    method Wait() returns (answer: WaitAnswer)
      requires Watched() && !seen.ended && !seen.quit
      modifies this
      ensures Watched() && seen == Next(old(seen), Observed(answer)) && trace == old(trace) + [Observed(answer)]
      ensures answer == waits(old(calls)) && calls == old(calls) + 1 && now == old(now) + delays(old(calls))
    {
      answer := waits(calls);
      Pass(0);
      Make(Observed(answer));
    }

    method Reap() returns (answer: ReapAnswer)
      requires Watched() && !seen.ended && !seen.quit && seen.signalled
      modifies this
      ensures Watched() && seen == Next(old(seen), Consumed(answer)) && trace == old(trace) + [Consumed(answer)]
      ensures answer == reaps(old(calls)) && calls == old(calls) + 1 && now == old(now) + delays(old(calls))
    {
      answer := reaps(calls);
      Pass(0);
      Make(Consumed(answer));
    }

    method Signal() returns (answer: SignalAnswer)
      requires Watched() && !seen.ended && !seen.quit
      modifies this
      ensures Watched() && seen == Next(old(seen), Signalled(answer)) && trace == old(trace) + [Signalled(answer)]
      ensures answer == signals(old(calls)) && calls == old(calls) + 1 && now == old(now) + delays(old(calls))
    {
      answer := signals(calls);
      Pass(0);
      Make(Signalled(answer));
    }

    method Sleep(c: Call, length: nat)
      requires Watched() && Sleeps(c) && Allowed(seen, c)
      modifies this
      ensures Watched() && now >= old(now) + length && seen == Next(old(seen), c) && trace == old(trace) + [c]
    {
      Pass(length);
      Make(c);
    }
  }

  // ---------------------------------------------------------------- the owner

  class ProcessGroup {
    const kernel: Kernel
    var child: Option<nat>
    var cleanupDeadline: Option<nat>

    // The owner holds the child while the PID is its own, and its deadline is the sleeps'.
    ghost predicate Valid()
      reads this, kernel
    {
      kernel.Watched()
      && !kernel.seen.quit
      && (child.Some? <==> !kernel.seen.ended)
      && (kernel.seen.deadline.Some? ==> cleanupDeadline == kernel.seen.deadline)
      && WithinBudget(kernel.seen.pauses, cleanupDeadline, kernel.now)
    }

    // What every operation keeps of the state before it.
    twostate predicate Continues()
      reads this, kernel
    {
      old(kernel.now) <= kernel.now && old(kernel.trace) <= kernel.trace
      && (old(kernel.seen.signalled) ==> kernel.seen.signalled)
      && (old(kernel.seen.tried) ==> kernel.seen.tried) && (old(kernel.seen.begged) ==> kernel.seen.begged)
      && (old(kernel.seen.exited) ==> kernel.seen.exited) && (old(kernel.seen.refused) ==> kernel.seen.refused)
      && (old(cleanupDeadline).Some? ==> cleanupDeadline == old(cleanupDeadline))
    }

    constructor (kernel: Kernel, pid: nat)
      requires kernel.Watched() && kernel.seen == IDLE
      ensures Valid() && this.kernel == kernel && child == Some(pid) && cleanupDeadline == None
    {
      this.kernel := kernel;
      child, cleanupDeadline := Some(pid), None;
    }

    // Start the budget once.
    method CleanupDeadline() returns (deadline: nat)
      requires Valid()
      modifies this`cleanupDeadline, kernel`calls, kernel`now
      ensures Valid() && Continues() && cleanupDeadline == Some(deadline)
      ensures old(cleanupDeadline).None? ==>
                kernel.calls == old(kernel.calls) + 1 && kernel.now == old(kernel.now) + kernel.delays(old(kernel.calls))
                && deadline == kernel.now + CLEANUP_GRACE
    {
      if cleanupDeadline.None? {
        var now := kernel.Now();
        cleanupDeadline := Some(now + CLEANUP_GRACE);
      }
      deadline := cleanupDeadline.value;
    }

    method ObserveExit() returns (r: Result<bool, IoError>)
      requires Valid()
      modifies this`child, kernel
      ensures Valid() && Continues()
      ensures r.Ok? ==> child.Some? && (r.value ==> kernel.seen.exited)
      ensures r == Ok(true) && old(kernel.seen.refused) ==> kernel.seen.signalled
      ensures r == Err(Os(ECHILD)) <==> child.None?
      ensures r.Err? ==> r.error.Os? && Explains(kernel.seen, r.error)
      ensures old(child).None? ==> r == Err(Os(ECHILD)) && kernel.trace == old(kernel.trace)
      ensures old(child).Some? ==>
                var answer := kernel.waits(old(kernel.calls));
                && kernel.trace == old(kernel.trace) + [Observed(answer)] && kernel.seen == Next(old(kernel.seen), Observed(answer))
                && (if r.Ok? then answer == (if r.value then Exited else Running) else answer == WaitFailed(r.error.errno))
                && kernel.calls == old(kernel.calls) + 1 && kernel.now == old(kernel.now) + kernel.delays(old(kernel.calls))
    {
      if child.None? {
        return Err(Os(ECHILD));
      }
      var answer := kernel.Wait();
      match answer
      case Running => r := Ok(false);
      case Exited => r := Ok(true);
      case WaitFailed(errno) =>
        if errno == ECHILD {
          child := None;
        }
        r := Err(Os(errno));
    }

    method CleanupPause(deadline: nat) returns (r: Result<(), IoError>)
      requires Valid() && cleanupDeadline == Some(deadline)
      modifies kernel
      ensures Valid() && Continues()
      ensures r.Ok? ==> old(kernel.now) < deadline && old(kernel.now) < kernel.now
                        && |kernel.trace| == |old(kernel.trace)| + 1 && kernel.trace[|old(kernel.trace)|].Paused?
      ensures r.Err? ==> r.error == DeadlineExpired && deadline <= kernel.now && kernel.trace == old(kernel.trace)
      ensures kernel.seen.last == old(kernel.seen.last) && kernel.seen.ended == old(kernel.seen.ended)
    {
      var at := kernel.Now();
      if deadline <= at {
        return Err(DeadlineExpired);
      }
      PauseSleep(at, deadline);
      r := Ok(());
    }

    method PauseSleep(at: nat, deadline: nat)
      requires Valid() && cleanupDeadline == Some(deadline) && at == kernel.now < deadline
      modifies kernel
      ensures Valid() && Continues() && kernel.now > old(kernel.now)
      ensures kernel.trace == old(kernel.trace) + [Paused(at, SleepLength(at, deadline, EXIT_POLL), deadline)]
      ensures kernel.seen.last == old(kernel.seen.last) && kernel.seen.ended == old(kernel.seen.ended)
    {
      var length := SleepLength(at, deadline, EXIT_POLL);
      kernel.Sleep(Paused(at, length, deadline), length);
      BudgetPause(old(kernel.seen.pauses), deadline, at, at, kernel.now);
    }

    /**
      The group signal at `j` is settled by the end of the trace: it was sent, it found no
      group, or it was refused and the last call then found the leader exited.
    */
    static predicate SettledFrom(trace: seq<Call>, j: int) {
      0 <= j < |trace|
      && ((Settles(trace[j]) && j + 1 == |trace|) || (IsRefusal(trace[j]) && j + 1 < |trace| && EndsWith(trace, Observed(Exited))))
    }

    // A call of a look that goes on: an interrupted wait, a leader still running when its
    // exit is looked for, and the pause behind either.
    static predicate LooksOn(c: Call, forExit: bool) {
      c.Paused? || c == Observed(WaitFailed(EINTR)) || (forExit && c == Observed(Running))
    }

    static predicate LookedOn(trace: seq<Call>, start: int, end: int, forExit: bool) {
      0 <= start <= end <= |trace| && forall j :: start <= j < end ==> LooksOn(trace[j], forExit)
    }

    // From `start` on the leader was looked for, seen, and next its group was signalled for good.
    static ghost predicate Stopped(trace: seq<Call>, start: nat, forExit: bool, seen: WaitAnswer) {
      exists i :: start <= i < |trace| && LookedOn(trace, start, i, forExit) && trace[i] == Observed(seen)
                  && SettledFrom(trace, i + 1)
    }

    // One look at the leader: what it was seen doing, or nothing after an interruption and a pause.
    method LookOnce(deadline: nat, forExit: bool) returns (r: Result<bool, IoError>)
      requires Valid() && cleanupDeadline == Some(deadline)
      modifies this`child, kernel
      ensures Valid() && Continues()
      ensures r.Ok? && r.value ==>
                child.Some? && |kernel.trace| == |old(kernel.trace)| + 1 && (forExit ==> kernel.seen.exited)
                && (EndsWith(kernel.trace, Observed(Exited)) || (!forExit && EndsWith(kernel.trace, Observed(Running))))
      ensures r.Ok? && !r.value ==>
                && old(kernel.now) < deadline && old(kernel.now) < kernel.now
                && LookedOn(kernel.trace, |old(kernel.trace)|, |kernel.trace|, forExit)
      ensures r.Err? ==> Explains(kernel.seen, r.error) && r.error != Os(EINTR)
      ensures r == Err(DeadlineExpired) ==> deadline <= kernel.now
    {
      var seen := ObserveExit();
      if seen.Ok? && (seen.value || !forExit) {
        return Ok(true);
      }
      if seen.Err? && seen.error != Os(EINTR) {
        return seen;
      }
      var pause := CleanupPause(deadline);
      r := if pause.Ok? then Ok(false) else Err(pause.error);
    }

    // Look until the leader is seen at all, or seen to have exited.
    method Look(deadline: nat, forExit: bool) returns (r: Result<(), IoError>)
      requires Valid() && cleanupDeadline == Some(deadline)
      modifies this`child, kernel
      ensures Valid() && Continues()
      ensures r.Ok? ==>
                child.Some? && LookedOn(kernel.trace, |old(kernel.trace)|, |kernel.trace| - 1, forExit)
                && (forExit ==> kernel.seen.exited)
                && (EndsWith(kernel.trace, Observed(Exited)) || (!forExit && EndsWith(kernel.trace, Observed(Running))))
      ensures r.Err? ==> Explains(kernel.seen, r.error) && r.error != Os(EINTR)
      ensures r == Err(DeadlineExpired) ==> deadline <= kernel.now
    {
      while true
        invariant Valid() && Continues() && LookedOn(kernel.trace, |old(kernel.trace)|, |kernel.trace|, forExit)
        decreases TimeLeft(kernel.now, deadline)
      {
        var seen := LookOnce(deadline, forExit);
        if seen.Err? {
          return Err(seen.error);
        }
        if seen.value {
          return Ok(());
        }
      }
    }

    // See the leader, then signal its group.
    method LookAndSignal(deadline: nat, forExit: bool) returns (r: Result<(), IoError>)
      requires Valid() && cleanupDeadline == Some(deadline)
      modifies this`child, kernel
      ensures Valid() && Continues()
      ensures r.Ok? ==> child.Some? && (forExit ==> kernel.seen.signalled)
      ensures r.Ok? ==> Stopped(kernel.trace, |old(kernel.trace)|, forExit, Exited)
                        || (!forExit && Stopped(kernel.trace, |old(kernel.trace)|, forExit, Running))
      ensures r.Err? ==> Explains(kernel.seen, r.error)
      ensures r == Err(DeadlineExpired) ==> deadline <= kernel.now
    {
      r := Look(deadline, forExit);
      if r.Err? {
        return;
      }
      ghost var seen := kernel.trace;
      r := SignalGroup();
      if r.Ok? {
        SeenThenSettled(seen, kernel.trace, |old(kernel.trace)|, forExit);
      }
    }

    method Kill() returns (r: Result<(), IoError>)
      requires Valid()
      modifies this, kernel
      ensures Valid() && Continues()
      ensures r.Ok? ==> child.Some?
      ensures r.Ok? ==> Stopped(kernel.trace, |old(kernel.trace)|, false, Running)
                        || Stopped(kernel.trace, |old(kernel.trace)|, false, Exited)
      ensures r.Err? ==> Explains(kernel.seen, r.error)
      ensures r == Err(DeadlineExpired) ==> cleanupDeadline.Some? && cleanupDeadline.value <= kernel.now
    {
      var deadline := CleanupDeadline();
      r := LookAndSignal(deadline, false);
    }

    // See the leader exit, then signal once more whatever it forked meanwhile.
    method WaitKilled() returns (r: Result<(), IoError>)
      requires Valid()
      modifies this, kernel
      ensures Valid() && Continues() && cleanupDeadline.Some?
      ensures r.Ok? ==> child.Some? && kernel.seen.signalled
      ensures r.Ok? ==> Stopped(kernel.trace, |old(kernel.trace)|, true, Exited)
      ensures r.Err? ==> Explains(kernel.seen, r.error)
      ensures r == Err(DeadlineExpired) ==> cleanupDeadline.value <= kernel.now
    {
      var deadline := CleanupDeadline();
      r := LookAndSignal(deadline, true);
    }

    static lemma SeenThenSettled(seen: seq<Call>, trace: seq<Call>, start: nat, forExit: bool)
      requires LookedOn(seen, start, |seen| - 1, forExit) && seen[|seen| - 1].Observed?
      requires seen <= trace && SettledFrom(trace, |seen|)
      ensures Stopped(trace, start, forExit, seen[|seen| - 1].wait)
    {
      assert trace[|seen| - 1] == seen[|seen| - 1];
    }

    // A consuming wait, once a group signal has followed the exit.
    method TryReap() returns (r: Result<Option<int>, IoError>)
      requires Valid() && (child.Some? ==> kernel.seen.signalled)
      modifies this`child, kernel
      ensures Valid() && Continues()
      ensures child.None? <==> r == Err(Os(ECHILD)) || (r.Ok? && r.value.Some?)
      ensures child.Some? ==> kernel.seen.signalled
      ensures r.Ok? && r.value.Some? ==> EndsWith(kernel.trace, Consumed(Reaped(r.value.value)))
      ensures r == Ok(None) ==> EndsWith(kernel.trace, Consumed(NotYet)) && kernel.seen.last == Some(Consumed(NotYet))
      ensures r.Err? ==> r.error.Os? && Explains(kernel.seen, r.error)
      ensures kernel.seen.tried == old(kernel.seen.tried)
    {
      if child.None? {
        return Err(Os(ECHILD));
      }
      var answer := kernel.Reap();
      match answer
      case Reaped(status) =>
        child := None;
        r := Ok(Some(status));
      case NotYet => r := Ok(None);
      case ReapFailed(errno) =>
        if errno == ECHILD {
          child := None;
        }
        r := Err(Os(errno));
    }

    /**
      The first sleep of a retry, as the kernel's answers and delays decide it: refused at call
      `c` (made at `start`), clock reads at `c + 1` and `c + 2`, an observation that finds the
      leader running at `c + 3`, and the clock read that finds time left at `c + 4`.
    */
    ghost predicate RetriedFirst(trace: seq<Call>, c: nat, start: nat, deadline: nat)
    {
      var first := start + kernel.delays(c) + kernel.delays(c + 1);
      var second := first + kernel.delays(c + 2);
      RetriedNext(trace, c + 3, second, first, second, deadline)
    }

    // The sleep of a look that begins at `now` with call `c`.
    ghost predicate RetriedNext(trace: seq<Call>, c: nat, now: nat, first: nat, second: nat, deadline: nat)
    {
      var at, until := now + kernel.delays(c) + kernel.delays(c + 1), RetryUntil(deadline, first, second);
      kernel.waits(c) == Running && at < until ==>
        Retried(at, SleepLength(at, until, SIGNAL_EXIT_POLL), first, second, deadline) in trace
    }

    // Only the owned, unreaped leader's group is ever signalled.
    method SignalGroup() returns (r: Result<(), IoError>)
      requires Valid() && cleanupDeadline.Some?
      modifies this`child, kernel
      ensures Valid() && Continues()
      ensures r.Ok? ==> child.Some?
      ensures r.Ok? && old(kernel.seen.exited) ==> kernel.seen.signalled
      ensures r.Ok? ==> SettledFrom(kernel.trace, |old(kernel.trace)|)
      ensures r.Err? ==> Explains(kernel.seen, r.error) && r.error != DeadlineExpired
      ensures r == Err(Os(EINTR)) ==> kernel.seen.last == Some(Signalled(SignalFailed(EINTR)))
      ensures old(child).Some? ==>
                kernel.seen.tried && old(kernel.trace) + [Signalled(kernel.signals(old(kernel.calls)))] <= kernel.trace
      ensures old(child).None? ==> r == Err(Os(ECHILD)) && kernel.trace == old(kernel.trace)
      ensures old(child).Some? ==>
                var answer := kernel.signals(old(kernel.calls));
                if answer == Sent then r.Ok? else Resolves(answer.errno, r, old(kernel.calls), old(kernel.now))
    {
      if child.None? {
        return Err(Os(ECHILD));
      }
      var answer := SendSignal();
      if answer == Sent {
        return Ok(());
      }
      var first := kernel.Now();
      r := ResolveSignalError(answer.errno, first, old(kernel.seen.exited), old(kernel.calls), old(kernel.now));
    }

    /**
      What a failed group signal, made at `start` by call `c`, comes to: no group is as good as
      a signal sent, a refusal is retried until the leader is seen to have exited, and any
      other error is the caller's.
    */
    ghost predicate Resolves(errno: Errno, r: Result<(), IoError>, c: nat, start: nat)
      reads this, kernel
    {
      if errno == ESRCH then r.Ok?
      else if errno != EPERM then r == Err(Os(errno))
      else
        var first := start + kernel.delays(c) + kernel.delays(c + 1);
        cleanupDeadline.Some?
        && RetriedFirst(kernel.trace, c, start, cleanupDeadline.value)
        && (r.Err? ==> GaveUp(kernel.trace, r.error, kernel.now,
                              RetryUntil(cleanupDeadline.value, first, first + kernel.delays(c + 2))))
    }

    method SendSignal() returns (answer: SignalAnswer)
      requires Valid() && child.Some?
      modifies kernel
      ensures Valid() && Continues() && kernel.trace == old(kernel.trace) + [Signalled(answer)]
      ensures answer == kernel.signals(old(kernel.calls)) && kernel.calls == old(kernel.calls) + 1
      ensures kernel.now == old(kernel.now) + kernel.delays(old(kernel.calls))
      ensures kernel.seen == Next(old(kernel.seen), Signalled(answer))
    {
      answer := kernel.Signal();
    }

    // A refusal is accepted only once exit is seen, within a grace of its own.
    method ResolveSignalError(errno: Errno, first: nat, ghost exited: bool, ghost c: nat, ghost start: nat)
      returns (r: Result<(), IoError>)
      requires Valid() && cleanupDeadline.Some? && child.Some? && first == kernel.now
      requires exited && errno == ESRCH ==> kernel.seen.signalled
      requires exited && errno == EPERM ==> kernel.seen.refused
      requires kernel.calls == c + 2 && first == start + kernel.delays(c) + kernel.delays(c + 1)
      requires EndsWith(kernel.trace, Signalled(SignalFailed(errno))) && kernel.seen.last == Some(Signalled(SignalFailed(errno)))
      requires errno == EPERM ==> kernel.seen.begged
      modifies this`child, kernel
      ensures Valid() && Continues()
      ensures r.Ok? ==> child.Some? && (exited ==> kernel.seen.signalled)
      ensures r.Ok? ==> errno == ESRCH || errno == EPERM
      ensures r.Ok? ==> SettledFrom(kernel.trace, |old(kernel.trace)| - 1)
      ensures r.Err? ==> Explains(kernel.seen, r.error) && r.error != DeadlineExpired
      ensures r == Err(Os(EINTR)) ==> errno == EINTR && kernel.seen.last == old(kernel.seen.last)
      ensures Resolves(errno, r, c, start)
    {
      if errno == ESRCH {
        return Ok(());
      }
      if errno != EPERM {
        return Err(Os(errno));
      }
      ghost var refused := kernel.trace;
      r := RetryRefused(first);
      if r.Ok? {
        RefusalSettles(refused, kernel.trace);
      }
    }

    static lemma RefusalSettles(refused: seq<Call>, trace: seq<Call>)
      requires refused != [] && IsRefusal(refused[|refused| - 1]) && refused <= trace && |refused| < |trace|
      requires EndsWith(trace, Observed(Exited))
      ensures SettledFrom(trace, |refused| - 1)
    {
      assert trace[|refused| - 1] == refused[|refused| - 1];
    }

    /**
      Why a retry was given up: the last look failed with this error, or it did not see the
      leader exit and the time was over, which leaves the refusal.
    */
    static predicate GaveUp(trace: seq<Call>, e: IoError, now: nat, until: nat) {
      trace != []
      && var last := trace[|trace| - 1];
         if last == Observed(Running) || last == Observed(WaitFailed(EINTR)) then e == Os(EPERM) && until <= now
         else last.Observed? && last.wait.WaitFailed? && e == Os(last.wait.errno)
    }

    // The second clock read, from which the retry counts its time.
    method RetryRefused(first: nat) returns (r: Result<(), IoError>)
      requires Valid() && cleanupDeadline.Some? && child.Some? && first == kernel.now && kernel.seen.begged
      modifies this`child, kernel
      ensures Valid() && Continues()
      ensures r.Ok? ==> |kernel.trace| > |old(kernel.trace)| && EndsWith(kernel.trace, Observed(Exited))
      ensures r.Err? ==> r.error.Os? && r.error != Os(EINTR) && Explains(kernel.seen, r.error)
      ensures r.Ok? ==> child.Some? && (old(kernel.seen.refused) ==> kernel.seen.signalled)
      ensures
        var second := first + kernel.delays(old(kernel.calls));
        (r.Err? ==> GaveUp(kernel.trace, r.error, kernel.now, RetryUntil(cleanupDeadline.value, first, second)))
        && RetriedNext(kernel.trace, old(kernel.calls) + 1, second, first, second, cleanupDeadline.value)
    {
      var second := kernel.Now();
      r := RetryLoop(first, second);
    }

    method RetryLoop(first: nat, second: nat) returns (r: Result<(), IoError>)
      requires Valid() && cleanupDeadline.Some? && child.Some? && first <= second == kernel.now && kernel.seen.begged
      modifies this`child, kernel
      ensures Valid() && Continues()
      ensures r.Ok? ==> |kernel.trace| > |old(kernel.trace)| && EndsWith(kernel.trace, Observed(Exited))
      ensures r.Err? ==> r.error.Os? && r.error != Os(EINTR) && Explains(kernel.seen, r.error)
      ensures r.Ok? ==> child.Some? && (old(kernel.seen.refused) ==> kernel.seen.signalled)
      ensures r.Err? ==> GaveUp(kernel.trace, r.error, kernel.now, RetryUntil(cleanupDeadline.value, first, second))
      ensures RetriedNext(kernel.trace, old(kernel.calls), second, first, second, cleanupDeadline.value)
    {
      var done := RetryRound(first, second);
      if done.Err? {
        return Err(done.error);
      }
      if done.value {
        return Ok(());
      }
      ghost var entry := kernel.trace;
      r := RetryMore(first, second);
      RetriedStays(entry, kernel.trace, old(kernel.calls), second, first, second, cleanupDeadline.value);
    }

    method RetryMore(first: nat, second: nat) returns (r: Result<(), IoError>)
      requires Valid() && cleanupDeadline.Some? && child.Some? && first <= second <= kernel.now && kernel.seen.begged
      modifies this`child, kernel
      ensures Valid() && Continues()
      ensures r.Ok? ==> |kernel.trace| > |old(kernel.trace)| && EndsWith(kernel.trace, Observed(Exited))
      ensures r.Err? ==> r.error.Os? && r.error != Os(EINTR) && Explains(kernel.seen, r.error)
      ensures r.Ok? ==> child.Some? && (old(kernel.seen.refused) ==> kernel.seen.signalled)
      ensures r.Err? ==> GaveUp(kernel.trace, r.error, kernel.now, RetryUntil(cleanupDeadline.value, first, second))
    {
      while true
        invariant Valid() && Continues() && child.Some?
        decreases TimeLeft(kernel.now, RetryUntil(cleanupDeadline.value, first, second))
      {
        var done := RetryRound(first, second);
        if done.Err? {
          return Err(done.error);
        }
        if done.value {
          return Ok(());
        }
      }
    }

    lemma RetriedStays(trace: seq<Call>, trace': seq<Call>, c: nat, now: nat, first: nat, second: nat, deadline: nat)
      requires RetriedNext(trace, c, now, first, second, deadline) && trace <= trace'
      ensures RetriedNext(trace', c, now, first, second, deadline)
    {
      assert forall x :: x in trace ==> x in trace';
    }

    // One look: whether the leader has exited, or has not and there was time to sleep.
    method RetryRound(first: nat, second: nat) returns (r: Result<bool, IoError>)
      requires Valid() && cleanupDeadline.Some? && child.Some? && first <= second <= kernel.now && kernel.seen.begged
      modifies this`child, kernel
      ensures Valid() && Continues()
      ensures r.Ok? && r.value ==> |kernel.trace| > |old(kernel.trace)| && EndsWith(kernel.trace, Observed(Exited))
      ensures r.Err? ==> r.error.Os? && r.error != Os(EINTR) && Explains(kernel.seen, r.error)
      ensures r.Ok? ==> child.Some? && (r.value && old(kernel.seen.refused) ==> kernel.seen.signalled)
      ensures r == Ok(false) ==> old(kernel.now) < RetryUntil(cleanupDeadline.value, first, second)
                                 && old(kernel.now) < kernel.now
      ensures r.Err? ==> GaveUp(kernel.trace, r.error, kernel.now, RetryUntil(cleanupDeadline.value, first, second))
      ensures RetriedNext(kernel.trace, old(kernel.calls), old(kernel.now), first, second, cleanupDeadline.value)
    {
      var seen := ObserveExit();
      if seen.Ok? && seen.value {
        return Ok(true);
      }
      if seen.Err? && seen.error != Os(EINTR) {
        return Err(seen.error);
      }
      r := RetryPause(first, second);
    }

    // Sleep if there is time left for it, or give up with the refusal.
    method RetryPause(first: nat, second: nat) returns (r: Result<bool, IoError>)
      requires Valid() && cleanupDeadline.Some? && first <= second <= kernel.now
      modifies kernel
      ensures Valid() && Continues()
      ensures
        var at, until := old(kernel.now) + kernel.delays(old(kernel.calls)), RetryUntil(cleanupDeadline.value, first, second);
        if at < until
        then && r == Ok(false) && kernel.now > old(kernel.now)
             && kernel.trace == old(kernel.trace)
                  + [Retried(at, SleepLength(at, until, SIGNAL_EXIT_POLL), first, second, cleanupDeadline.value)]
        else r == Err(Os(EPERM)) && kernel.trace == old(kernel.trace) && until <= kernel.now
    {
      var until := RetryUntil(cleanupDeadline.value, first, second);
      var at := kernel.Now();
      if until <= at {
        return Err(Os(EPERM));
      }
      RetrySleep(at, until, first, second);
      return Ok(false);
    }

    method RetrySleep(at: nat, until: nat, first: nat, second: nat)
      requires Valid() && cleanupDeadline.Some? && second <= at == kernel.now < until
      requires first <= second && until == RetryUntil(cleanupDeadline.value, first, second)
      modifies kernel
      ensures Valid() && Continues() && kernel.now > old(kernel.now)
      ensures kernel.trace == old(kernel.trace)
                + [Retried(at, SleepLength(at, until, SIGNAL_EXIT_POLL), first, second, cleanupDeadline.value)]
    {
      var length := SleepLength(at, until, SIGNAL_EXIT_POLL);
      kernel.Sleep(Retried(at, length, first, second, cleanupDeadline.value), length);
    }

    // End the runner while the operating system can still adopt the child.
    method FatalCleanup(cause: IoError)
      requires Valid() && child.Some? && cleanupDeadline.Some?
      requires kernel.seen.tried && cause != Os(EINTR) && Explains(kernel.seen, cause)
      requires cause == DeadlineExpired ==> cleanupDeadline.value <= kernel.now
      modifies kernel`trace, kernel`seen
      ensures kernel.Watched() && kernel.seen == old(kernel.seen).(quit := true) && old(kernel.trace) <= kernel.trace
    {
      kernel.Make(Quit(cause, kernel.now, cleanupDeadline.value));
    }

    // What is true when the owner is gone: the PID is released, or the runner has ended
    // with the child still its own.
    ghost predicate Settled()
      reads this, kernel
    {
      kernel.Watched()
      && (child.None? <==> kernel.seen.ended) && (kernel.seen.ended <==> !kernel.seen.quit)
      && WithinBudget(kernel.seen.pauses, cleanupDeadline, kernel.now)
    }

    // `drop`: stop, wait and reap whatever is still owned.
    method Drop()
      requires Valid()
      modifies this, kernel
      ensures Settled() && Continues()
      ensures old(child).None? ==> child.None? && kernel.trace == old(kernel.trace)
      ensures old(child).Some? ==> SeenFirst(kernel.trace, |old(kernel.trace)|)
    {
      if child.None? {
        return;
      }
      var deadline := CleanupDeadline();
      DropOwned(deadline);
    }

    method DropOwned(deadline: nat)
      requires Valid() && cleanupDeadline == Some(deadline) && child.Some?
      modifies this, kernel
      ensures Settled() && Continues() && SeenFirst(kernel.trace, |old(kernel.trace)|)
    {
      var _ := ObserveExit();
      if child.None? {
        return;
      }
      var _ := SignalGroup();
      ghost var begun := kernel.trace;
      DropLoop(deadline);
      BegunStays(begun, kernel.trace, |old(kernel.trace)|);
    }

    static lemma BegunStays(begun: seq<Call>, trace: seq<Call>, start: nat)
      requires SeenFirst(begun, start) && begun <= trace
      ensures SeenFirst(trace, start)
    {
    }

    // From `start` on the leader was observed first, and unless that ended it, signalled next.
    static predicate SeenFirst(trace: seq<Call>, start: nat) {
      start < |trace| && trace[start].Observed?
      && (!Ends(trace[start]) ==> start + 1 < |trace| && trace[start + 1].Signalled?)
    }

    method DropLoop(deadline: nat)
      requires Valid() && cleanupDeadline == Some(deadline) && (child.Some? ==> kernel.seen.tried)
      modifies this, kernel
      ensures Settled() && Continues()
    {
      while child.Some?
        invariant Valid() && Continues() && cleanupDeadline == Some(deadline) && (child.Some? ==> kernel.seen.tried)
        decreases child.Some?, TimeLeft(kernel.now, deadline)
      {
        var failed := DropRound(deadline);
        if failed.Some? {
          FatalCleanup(failed.value);
          return;
        }
      }
    }

    // An attempt and a pause: what ends the runner over a child still owned, if anything.
    method DropRound(deadline: nat) returns (failed: Option<IoError>)
      requires Valid() && cleanupDeadline == Some(deadline) && child.Some? && kernel.seen.tried
      modifies this, kernel
      ensures Valid() && Continues()
      ensures failed.Some? ==>
                && child.Some? && failed.value != Os(EINTR) && Explains(kernel.seen, failed.value)
                && (failed.value == DeadlineExpired ==> deadline <= kernel.now)
      ensures child.Some? && failed.None? ==> old(kernel.now) < deadline && old(kernel.now) < kernel.now
    {
      failed := WaitAndReap();
      if child.None? {
        return None;
      }
      if failed.None? {
        var pause := CleanupPause(deadline);
        failed := if pause.Err? then Some(pause.error) else None;
      }
    }

    // One attempt: the error no retry mends, if it failed with one.
    method WaitAndReap() returns (failed: Option<IoError>)
      requires Valid() && cleanupDeadline.Some? && child.Some? && kernel.seen.tried
      modifies this, kernel
      ensures Valid() && Continues()
      ensures child.Some? && failed.Some? ==>
                && failed.value != Os(EINTR) && Explains(kernel.seen, failed.value)
                && (failed.value == DeadlineExpired ==> cleanupDeadline.value <= kernel.now)
      ensures child.Some? && failed.None? ==> Explains(kernel.seen, DeadlineExpired)
    {
      var killed := WaitKilled();
      if killed.Err? {
        return if killed.error == Os(EINTR) then None else Some(killed.error);
      }
      var reaped := TryReap();
      failed := if reaped.Err? && reaped.error != Os(EINTR) then Some(reaped.error) else None;
    }

    // One attempt to reap: the status, or nothing yet and a pause.
    method ReapOnce(deadline: nat) returns (r: Result<Option<int>, IoError>)
      requires Valid() && cleanupDeadline == Some(deadline) && child.Some? && kernel.seen.signalled
      modifies this`child, kernel
      ensures Valid() && Continues()
      ensures r.Ok? && r.value.Some? ==> child.None? && EndsWith(kernel.trace, Consumed(Reaped(r.value.value)))
      ensures r.Ok? && r.value.None? ==> child.Some? && old(kernel.now) < deadline && old(kernel.now) < kernel.now
      ensures r.Err? ==> Explains(kernel.seen, r.error)
      ensures r == Err(DeadlineExpired) ==> deadline <= kernel.now
    {
      r := TryReap();
      if (r.Ok? && r.value.Some?) || (r.Err? && r.error != Os(EINTR)) {
        return;
      }
      var pause := CleanupPause(deadline);
      r := if pause.Ok? then Ok(None) else Err(pause.error);
    }

    // The attempts of `reap` before its owner is dropped.
    method ReapLoop() returns (r: Result<int, IoError>)
      requires Valid()
      modifies this, kernel
      ensures Valid() && Continues()
      ensures r.Ok? ==> child.None? && EndsWith(kernel.trace, Consumed(Reaped(r.value)))
      ensures r.Err? ==> Explains(kernel.seen, r.error)
      ensures r == Err(DeadlineExpired) ==> cleanupDeadline.Some? && cleanupDeadline.value <= kernel.now
    {
      var deadline := CleanupDeadline();
      var killed := WaitKilled();
      if killed.Err? {
        return Err(killed.error);
      }
      r := ReapBy(deadline);
    }

    method ReapBy(deadline: nat) returns (r: Result<int, IoError>)
      requires Valid() && cleanupDeadline == Some(deadline) && child.Some? && kernel.seen.signalled
      modifies this`child, kernel
      ensures Valid() && Continues()
      ensures r.Ok? ==> child.None? && EndsWith(kernel.trace, Consumed(Reaped(r.value)))
      ensures r.Err? ==> Explains(kernel.seen, r.error)
      ensures r == Err(DeadlineExpired) ==> deadline <= kernel.now
    {
      while true
        invariant Valid() && Continues() && child.Some?
        decreases TimeLeft(kernel.now, deadline)
      {
        var reaped := ReapOnce(deadline);
        if reaped.Err? {
          return Err(reaped.error);
        }
        if reaped.value.Some? {
          return Ok(reaped.value.value);
        }
      }
    }

    // `reap` consumes its owner, so dropping follows on every path.
    method Reap() returns (r: Result<int, IoError>)
      requires Valid()
      modifies this, kernel
      ensures Settled() && Continues()
      ensures r.Ok? ==> child.None? && EndsWith(kernel.trace, Consumed(Reaped(r.value)))
      ensures r.Err? ==> FailedAt(kernel.trace, |old(kernel.trace)|, r.error)
    {
      r := ReapLoop();
      ghost var tried := kernel.trace;
      Drop();
      if r.Err? {
        Failed(tried, kernel.trace, |old(kernel.trace)|, r.error);
      }
    }

    static lemma Failed(tried: seq<Call>, trace: seq<Call>, start: nat, e: IoError)
      requires start <= |tried| && tried <= trace && Explains(Watch(tried), e)
      ensures FailedAt(trace, start, e)
    {
      assert trace[..|tried|] == tried;
    }

    // At some point from `start` on the calls explained the error.
    static ghost predicate FailedAt(trace: seq<Call>, start: nat, e: IoError) {
      exists n :: start <= n <= |trace| && Explains(Watch(trace[..n]), e)
    }
  }

  // ------------------------------------------------------------ a whole life

  datatype Operation = DoObserve | DoKill | DoWaitKilled

  /**
    Any operations in any order, then `reap` or a drop, against any kernel: the whole trace
    is lawful, every sleep is in time, the pauses are bounded, and in the end the PID is
    released or the runner is over.
  */
  method Live(kernel: Kernel, pid: nat, script: seq<Operation>, reap: bool) returns (trace: seq<Call>)
    requires kernel.Watched() && kernel.seen == IDLE
    modifies kernel
    ensures trace == kernel.trace && Lawful(trace)
    ensures Watch(trace).pauses <= 100 && (Watch(trace).ended <==> !Watch(trace).quit)
  {
    var group := new ProcessGroup(kernel, pid);
    for i := 0 to |script|
      invariant group.kernel == kernel && fresh(group) && group.Valid()
    {
      match script[i]
      case DoObserve => var _ := group.ObserveExit();
      case DoKill => var _ := group.Kill();
      case DoWaitKilled => var _ := group.WaitKilled();
    }
    if reap {
      var _ := group.Reap();
    } else {
      group.Drop();
    }
    trace := kernel.trace;
  }

  // ---------------------------------------------------------- an overrun happens

  // A second and a half in the refused signal, a fifth between the two clock reads of its
  // retry, and two fifths before the retry looks at the clock again.
  function SlowCalls(call: nat): nat {
    if call == 2 then 1_500_000_000 else if call == 4 then 200_000_000 else if call == 6 then 400_000_000 else 0
  }

  const LATE: Call := Retried(2_100_000_000, 1_000_000, 1_500_000_000, 1_700_000_000, 2_000_000_000)

  lemma SlowRetryIsLate(group: ProcessGroup, trace: seq<Call>)
    requires group.kernel.waits(5) == Running && group.kernel.delays == SlowCalls
    requires group.RetriedFirst(trace, 2, 0, 2_000_000_000)
    ensures LATE in trace && Overruns(LATE)
  {
    assert group.RetriedNext(trace, 5, 1_700_000_000, 1_500_000_000, 1_700_000_000, 2_000_000_000);
    assert RetryUntil(2_000_000_000, 1_500_000_000, 1_700_000_000) == 2_200_000_000;
  }

  // An owner whose budget has started and whose leader was seen running.
  method AboutToSignal() returns (group: ProcessGroup)
    ensures fresh(group) && fresh(group.kernel) && group.Valid() && group.child.Some?
    ensures group.cleanupDeadline == Some(2_000_000_000) && group.kernel.calls == 2 && group.kernel.now == 0
    ensures group.kernel.delays == SlowCalls && group.kernel.waits(5) == Running
    ensures group.kernel.signals(2) == SignalFailed(EPERM)
  {
    var kernel := new Kernel(_ => Running, _ => NotYet, _ => SignalFailed(EPERM), SlowCalls);
    group := new ProcessGroup(kernel, 1);
    var _ := group.CleanupDeadline();
    var _ := group.ObserveExit();
  }

  // One lawful run, the calls of a `kill`, in which a retry's sleep ends after the one deadline.
  method OverrunHappens() returns (trace: seq<Call>)
    ensures Lawful(trace)
    ensures exists c: Call :: c in trace && c.Retried? && Overruns(c)
  {
    var group := AboutToSignal();
    var _ := group.SignalGroup();
    trace := group.kernel.trace;
    SlowRetryIsLate(group, trace);
  }
}
