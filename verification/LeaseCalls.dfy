/**
  Whole calls on a lease, from their first step to their last, with the steps of every
  other thread in between: a publication that comes too late, one that wins, a lease from
  its start to its delivery, and an observation of a cell that was complete when it began.
*/
module LeaseCalls {
  import opened Leases
  import opened LeaseInvariants
  import opened LeaseTheorems

  // ----------------------------------------------------------- a late publication

  predicate StepOfPublisher(step: Step, p: Pid) {
    match step
    case StartPublish(q, _, _) => p == q
    case DoLoadQueue(q) => p == q
    case DoClaim(q) => p == q
    case DoLoadHead(q) => p == q
    case DoStoreNext(q) => p == q
    case DoCasHead(q, _) => p == q
    case _ => false
  }

  // `p` is calling on `a`, whose lease is won, and has not got past the claim.
  ghost predicate Late(s: State, p: Pid, a: Addr) {
    p in s.publishers && s.publishers[p].cell == a && (s.publishers[p].LoadQueue? || s.publishers[p].Claim?)
    && a in s.cells && s.cells[a].complete != 0
  }

  lemma StaysWon(c: Config, step: Step, c': Config, p: Pid, a: Addr)
    requires Steps(c, step, c') && Late(c.s, p, a)
    ensures a in c'.s.cells && c'.s.cells[a].complete != 0
  {
  }

  lemma StaysLate(c: Config, step: Step, c': Config, p: Pid, a: Addr)
    requires Steps(c, step, c') && Late(c.s, p, a) && p in c'.s.publishers
    ensures Late(c'.s, p, a)
  {
    StaysWon(c, step, c', p, a);
  }

  lemma {:induction false} CallStaysLate(run: seq<Config>, steps: seq<Step>, i: nat, k: nat, p: Pid, a: Addr, state: nat)
    requires IsRun(run, steps) && i < k <= |steps| && steps[i] == StartPublish(p, a, state)
    requires a in run[i].s.cells && run[i].s.cells[a].complete != 0
    requires forall n :: i < n <= k ==> p in run[n].s.publishers
    ensures Late(run[k].s, p, a)
    decreases k
  {
    if k == i + 1 {
      assert Steps(run[i], steps[i], run[i + 1]);
    } else {
      CallStaysLate(run, steps, i, k - 1, p, a, state);
      assert Steps(run[k - 1], steps[k - 1], run[k - 1 + 1]);
      StaysLate(run[k - 1], steps[k - 1], run[k], p, a);
    }
  }

  // A call begun on a lease that is already won loses its claim, if it comes to it.
  lemma LateCallLoses(run: seq<Config>, steps: seq<Step>, i: nat, k: nat, p: Pid, a: Addr, state: nat)
    requires IsRun(run, steps) && i < k < |steps| && steps[i] == StartPublish(p, a, state)
    requires a in run[i].s.cells && run[i].s.cells[a].complete != 0
    requires forall n :: i < n <= k ==> p in run[n].s.publishers
    ensures steps[k] == DoClaim(p) ==> ClaimLoses(run[k].s, a)
  {
    CallStaysLate(run, steps, i, k, p, a, state);
  }

  predicate ClaimLoses(s: State, a: Addr) {
    a in s.cells && s.cells[a].complete != 0
  }

  // `p` is calling on `a` and has not got past the claim.
  predicate Unclaimed(s: State, p: Pid, a: Addr) {
    p in s.publishers && s.publishers[p].cell == a && (s.publishers[p].LoadQueue? || s.publishers[p].Claim?)
  }

  lemma StaysUnclaimed(c: Config, step: Step, c': Config, p: Pid, a: Addr)
    requires Steps(c, step, c') && Unclaimed(c.s, p, a) && p in c'.s.publishers
    requires step == DoClaim(p) ==> ClaimLoses(c.s, a)
    ensures Unclaimed(c'.s, p, a)
  {
  }

  lemma LosingStepWritesNothing(c: Config, step: Step, c': Config, p: Pid, a: Addr)
    requires Steps(c, step, c') && Unclaimed(c.s, p, a) && StepOfPublisher(step, p)
    requires step == DoClaim(p) ==> ClaimLoses(c.s, a)
    ensures c'.s.cells == c.s.cells && c'.s.head == c.s.head && c'.h == c.h
  {
  }

  lemma RunStartsUnclaimed(run: seq<Config>, steps: seq<Step>, n: nat, p: Pid, a: Addr, state: nat)
    requires IsRun(run, steps) && n < |steps| && steps[n] == StartPublish(p, a, state)
    ensures Unclaimed(run[n + 1].s, p, a)
  {
    assert Steps(run[n], steps[n], run[n + 1]);
  }

  lemma RunStaysUnclaimed(run: seq<Config>, steps: seq<Step>, n: nat, p: Pid, a: Addr)
    requires IsRun(run, steps) && n < |steps| && Unclaimed(run[n].s, p, a) && p in run[n + 1].s.publishers
    requires steps[n] == DoClaim(p) ==> ClaimLoses(run[n].s, a)
    ensures Unclaimed(run[n + 1].s, p, a)
  {
    assert Steps(run[n], steps[n], run[n + 1]);
    StaysUnclaimed(run[n], steps[n], run[n + 1], p, a);
  }

  // The call of `p` begun at `i` still runs at `k`, and has lost every claim it made.
  ghost predicate LosingCall(run: seq<Config>, steps: seq<Step>, i: nat, k: nat, p: Pid, a: Addr) {
    && i < k < |run| && k <= |steps|
    && (forall n :: i < n <= k ==> p in run[n].s.publishers)
    && (forall n :: i < n < k && steps[n] == DoClaim(p) ==> ClaimLoses(run[n].s, a))
  }

  lemma {:induction false} CallStaysUnclaimed(run: seq<Config>, steps: seq<Step>, i: nat, k: nat, p: Pid, a: Addr, state: nat)
    requires IsRun(run, steps) && LosingCall(run, steps, i, k, p, a) && steps[i] == StartPublish(p, a, state)
    ensures Unclaimed(run[k].s, p, a)
    decreases k
  {
    if k == i + 1 {
      RunStartsUnclaimed(run, steps, i, p, a, state);
    } else {
      CallStaysUnclaimed(run, steps, i, k - 1, p, a, state);
      RunStaysUnclaimed(run, steps, k - 1, p, a);
    }
  }

  /**
    A publication that loses its claim, whether the lease was won before the call began or
    while it ran, and whatever the other threads do during it: none of its steps, from its
    first to its last, writes a cell, moves the head or adds to what was won, queued or
    delivered.
  */
  lemma DuplicateAddsNothing(run: seq<Config>, steps: seq<Step>, i: nat, k: nat, p: Pid, a: Addr, state: nat)
    requires IsRun(run, steps) && i <= k < |steps| && steps[i] == StartPublish(p, a, state)
    requires forall n :: i < n <= k && steps[n] == DoClaim(p) ==> ClaimLoses(run[n].s, a)
    requires forall n :: i < n <= k ==> p in run[n].s.publishers
    requires StepOfPublisher(steps[k], p)
    ensures run[k + 1].s.cells == run[k].s.cells && run[k + 1].s.head == run[k].s.head && run[k + 1].h == run[k].h
  {
    assert Steps(run[k], steps[k], run[k + 1]);
    if i < k {
      CallStaysUnclaimed(run, steps, i, k, p, a, state);
      LosingStepWritesNothing(run[k], steps[k], run[k + 1], p, a);
    }
  }

  // ------------------------------------------------------------ a winning publication

  // `p` is inside the call it began on `a` with `state`, and has not got past the claim.
  predicate CallsWith(s: State, p: Pid, a: Addr, state: nat) {
    Unclaimed(s, p, a) && s.publishers[p].state == state
  }

  lemma RunStartsCall(run: seq<Config>, steps: seq<Step>, n: nat, p: Pid, a: Addr, state: nat)
    requires IsRun(run, steps) && n < |steps| && steps[n] == StartPublish(p, a, state)
    ensures CallsWith(run[n + 1].s, p, a, state)
  {
    assert Steps(run[n], steps[n], run[n + 1]);
  }

  lemma StaysInCall(c: Config, step: Step, c': Config, p: Pid, a: Addr, state: nat)
    requires Steps(c, step, c') && CallsWith(c.s, p, a, state) && p in c'.s.publishers && step != DoClaim(p)
    ensures CallsWith(c'.s, p, a, state)
  {
  }

  lemma RunStaysInCall(run: seq<Config>, steps: seq<Step>, n: nat, p: Pid, a: Addr, state: nat)
    requires IsRun(run, steps) && n < |steps| && CallsWith(run[n].s, p, a, state)
    requires p in run[n + 1].s.publishers && steps[n] != DoClaim(p)
    ensures CallsWith(run[n + 1].s, p, a, state)
  {
    assert Steps(run[n], steps[n], run[n + 1]);
    StaysInCall(run[n], steps[n], run[n + 1], p, a, state);
  }

  // The call of `p` begun at `i` still runs at `k` and has not claimed yet.
  ghost predicate ClaimAhead(run: seq<Config>, steps: seq<Step>, i: nat, k: nat, p: Pid) {
    && i < k < |run| && k <= |steps|
    && (forall n :: i < n <= k ==> p in run[n].s.publishers)
    && (forall n :: i < n < k ==> steps[n] != DoClaim(p))
  }

  lemma {:induction false} CallKeepsItsState(run: seq<Config>, steps: seq<Step>, i: nat, k: nat, p: Pid, a: Addr, state: nat)
    requires IsRun(run, steps) && ClaimAhead(run, steps, i, k, p) && steps[i] == StartPublish(p, a, state)
    ensures CallsWith(run[k].s, p, a, state)
    decreases k
  {
    if k == i + 1 {
      RunStartsCall(run, steps, i, p, a, state);
    } else {
      CallKeepsItsState(run, steps, i, k - 1, p, a, state);
      RunStaysInCall(run, steps, k - 1, p, a, state);
    }
  }

  // The lease `a` now has was won with `state`.
  ghost predicate WonWith(c: Config, a: Addr, state: nat) {
    a in c.s.cells && a in c.h.lease && c.h.lease[a] in c.h.won && c.h.won[c.h.lease[a]].state == state
  }

  /**
    The claim that wins a lease writes down what its caller asked for: `publish` makes the
    word 1 and `publish_rejected` makes it 2, whatever interleaves with the call.
  */
  lemma WinnerPublishesItsState(run: seq<Config>, steps: seq<Step>, i: nat, k: nat, p: Pid, a: Addr, state: nat)
    requires IsRun(run, steps) && k < |steps| && ClaimAhead(run, steps, i, k, p)
    requires steps[i] == StartPublish(p, a, state) && steps[k] == DoClaim(p)
    requires a in run[k].s.cells && run[k].s.cells[a].complete == 0
    ensures run[k + 1].s.cells == run[k].s.cells[a := run[k].s.cells[a].(complete := state)]
    ensures a in run[k].h.lease && WonWith(run[k + 1], a, state) && run[k + 1].h.lease[a] == run[k].h.lease[a]
  {
    CallKeepsItsState(run, steps, i, k, p, a, state);
    assert Steps(run[k], steps[k], run[k + 1]);
    RunIsReachable(run, steps, k);
    ReachableInv(run[k]);
  }

  // A won lease stays won with its state until the owner reuses the cell.
  lemma StaysWonWith(c: Config, step: Step, c': Config, a: Addr, state: nat)
    requires Reachable(c) && Steps(c, step, c') && WonWith(c, a, state) && !OwnerStepOn(step, a)
    ensures WonWith(c', a, state)
  {
    LeaseStays(c, step, c', a);
    CellStays(c, step, c', a);
    ClaimsAnother(c, step, a);
    WinStays(c, step, c', c.h.lease[a]);
  }

  // A claim that wins, if the step is one, wins this lease.
  predicate Wins(c: Config, step: Step, lease: nat) {
    && step.DoClaim? && step.p in c.s.publishers && c.s.publishers[step.p].cell in c.s.cells
    && c.s.cells[c.s.publishers[step.p].cell].complete == 0
    && c.s.publishers[step.p].cell in c.h.lease && c.h.lease[c.s.publishers[step.p].cell] == lease
  }

  lemma WinStays(c: Config, step: Step, c': Config, lease: nat)
    requires Steps(c, step, c') && lease in c.h.won && !Wins(c, step, lease)
    ensures lease in c'.h.won && c'.h.won[lease] == c.h.won[lease]
  {
  }

  lemma ClaimsAnother(c: Config, step: Step, a: Addr)
    requires Reachable(c) && a in c.s.cells && a in c.h.lease && c.h.lease[a] in c.h.won
    ensures !Wins(c, step, c.h.lease[a])
  {
    ReachableInv(c);
    if Wins(c, step, c.h.lease[a]) {
      WonIsClaimed(c.s.cells, c.h.lease, c.h.leases, c.h.won, c.h.delivered, a, c.s.publishers[step.p].cell);
      assert false;
    }
  }

  lemma CellStays(c: Config, step: Step, c': Config, a: Addr)
    requires Steps(c, step, c') && a in c.s.cells && !OwnerStepOn(step, a)
    ensures a in c'.s.cells
  {
  }

  lemma WonIsClaimed(cells: map<Addr, Cell>, lease: map<Addr, nat>, leases: nat, won: map<nat, Publication>,
                     delivered: seq<Delivery>, a: Addr, b: Addr)
    requires CellsInv(cells, lease, leases) && LeasesInv(cells, lease, won, delivered)
    requires a in cells && b in cells && lease[a] in won && cells[b].complete == 0
    ensures lease[a] != lease[b]
  {
    assert LeaseInv(cells[a], lease[a], won, delivered);
  }

  lemma {:induction false} RunStaysWonWith(run: seq<Config>, steps: seq<Step>, i: nat, k: nat, a: Addr, state: nat)
    requires IsRun(run, steps) && i <= k <= |steps| && WonWith(run[i], a, state)
    requires forall n :: i <= n < k ==> !OwnerStepOn(steps[n], a)
    ensures WonWith(run[k], a, state)
    decreases k
  {
    if i < k {
      RunStaysWonWith(run, steps, i, k - 1, a, state);
      assert Steps(run[k - 1], steps[k - 1], run[k - 1 + 1]);
      RunIsReachable(run, steps, k - 1);
      StaysWonWith(run[k - 1], steps[k - 1], run[k], a, state);
    }
  }

  /**
    From call to answer: a `was_rejected` begun on the completed cell, before the owner
    reuses it, answers whether the call that won the lease was a rejection.
  */
  lemma AnswerIsTheWinners(run: seq<Config>, steps: seq<Step>, i: nat, k: nat, m: nat, n: nat, p: Pid, o: Pid, a: Addr,
                           state: nat)
    requires IsRun(run, steps) && ClaimAhead(run, steps, i, k, p) && k < m < n < |steps|
    requires steps[i] == StartPublish(p, a, state) && steps[k] == DoClaim(p)
    requires a in run[k].s.cells && run[k].s.cells[a].complete == 0
    requires forall j :: k < j < m ==> !OwnerStepOn(steps[j], a)
    requires steps[m] == StartObserve(o, a, true) && a in run[m].s.cells && IsComplete(run[m].s.cells[a])
    requires (forall j :: m < j <= n ==> o in run[j].s.observers) && steps[n] == DoReload(o)
    ensures Enabled(run[n].s, steps[n]) && Safe(run[n].s, steps[n])
    ensures AnswerOf(run[n].s, steps[n]) == Answer(state == REJECTED)
  {
    WinnerPublishesItsState(run, steps, i, k, p, a, state);
    RunStaysWonWith(run, steps, k + 1, m, a, state);
    RejectionIsAnswered(run, steps, m, n, o, a, true);
  }

  // ------------------------------------------------------------- the owner's token

  // The owner gives `a` a new lease with this kind and token.
  predicate GivesLease(step: Step, a: Addr, queued: bool, token: nat) {
    step == Allocate(a, queued, token) || step == ResetQueued(a, queued, token)
  }

  ghost predicate HasLease(c: Config, a: Addr, lease: nat, queued: bool, token: nat) {
    && a in c.s.cells && c.s.cells[a].queued == queued && c.s.cells[a].token == token
    && a in c.h.lease && c.h.lease[a] == lease
  }

  lemma StaysLeased(c: Config, step: Step, c': Config, a: Addr, lease: nat, queued: bool, token: nat)
    requires Steps(c, step, c') && HasLease(c, a, lease, queued, token) && !OwnerStepOn(step, a)
    ensures HasLease(c', a, lease, queued, token)
  {
    LeaseStays(c, step, c', a);
  }

  // A lease given at `i` and not taken back since.
  ghost predicate LeasedSince(run: seq<Config>, steps: seq<Step>, i: nat, k: nat, a: Addr, queued: bool, token: nat) {
    && i < k < |run| && k <= |steps| && GivesLease(steps[i], a, queued, token)
    && (forall n :: i < n < k ==> !OwnerStepOn(steps[n], a))
  }

  lemma {:induction false} LeaseKeepsItsToken(run: seq<Config>, steps: seq<Step>, i: nat, k: nat, a: Addr, queued: bool,
                                              token: nat)
    requires IsRun(run, steps) && LeasedSince(run, steps, i, k, a, queued, token)
    ensures HasLease(run[k], a, run[i].h.leases, queued, token)
    decreases k
  {
    assert Steps(run[k - 1], steps[k - 1], run[k - 1 + 1]);
    if k > i + 1 {
      LeaseKeepsItsToken(run, steps, i, k - 1, a, queued, token);
      StaysLeased(run[k - 1], steps[k - 1], run[k], a, run[i].h.leases, queued, token);
    }
  }

  // What `consume` returns is the token the owner gave with the lease, and the lease is that one.
  lemma DeliversTheOwnersToken(run: seq<Config>, steps: seq<Step>, i: nat, k: nat, a: Addr, queued: bool, token: nat)
    requires IsRun(run, steps) && k < |steps| && LeasedSince(run, steps, i, k, a, queued, token)
    requires steps[k] == ConsumeMark && run[k].s.consumer.GotToken? && run[k].s.consumer.first == a
    ensures run[k].s.consumer.token == token && queued
    ensures run[k + 1].h.delivered == run[k].h.delivered + [Delivery(run[i].h.leases, token)]
  {
    LeaseKeepsItsToken(run, steps, i, k, a, queued, token);
    assert Steps(run[k], steps[k], run[k + 1]);
    RunIsReachable(run, steps, k);
    ConsumeDelivers(run[k], steps[k], run[k + 1]);
    ReachableInv(run[k]);
    MarksWaiting(run[k].s.cells, run[k].s.head, run[k].h.queue, run[k].h.held, run[k].s.consumer);
  }

  // `reset_completed` reads as complete and as no rejection until the owner's next step.
  lemma {:induction false} ResetCompletedStays(run: seq<Config>, steps: seq<Step>, i: nat, k: nat, a: Addr)
    requires IsRun(run, steps) && i < k <= |steps| && steps[i] == ResetCompleted(a)
    requires forall n :: i < n < k ==> !OwnerStepOn(steps[n], a)
    ensures a in run[k].s.cells && IsComplete(run[k].s.cells[a]) && run[k].s.cells[a].complete == PUBLISHED
    decreases k
  {
    assert Steps(run[k - 1], steps[k - 1], run[k - 1 + 1]);
    if k > i + 1 {
      ResetCompletedStays(run, steps, i, k - 1, a);
      RunIsReachable(run, steps, k - 1);
      CompleteCellIsFrozen(run[k - 1], steps[k - 1], run[k], a);
    }
  }

  // ------------------------------------------------ observing a complete cell

  // The call of `o` on `a` has seen nothing but `cell` there.
  ghost predicate Watching(s: State, o: Pid, a: Addr, rejection: bool, cell: Cell) {
    o in s.observers && s.observers[o].cell == a && a in s.cells && s.cells[a] == cell
    && match s.observers[o]
       case LoadComplete(_, r) => r == rejection
       case LoadKind(_, r, value) => r == rejection && value == cell.complete
       case Reload(_) => rejection
  }

  // The running call keeps the owner away, so the complete cell and its lease stay.
  lemma WatchedStays(c: Config, step: Step, c': Config, o: Pid, a: Addr, rejection: bool, cell: Cell)
    requires Reachable(c) && Steps(c, step, c') && Watching(c.s, o, a, rejection, cell) && IsComplete(cell)
    ensures a in c'.s.cells && c'.s.cells[a] == cell
    ensures a in c.h.lease && a in c'.h.lease && c'.h.lease[a] == c.h.lease[a]
  {
    CompleteCellIsFrozen(c, step, c', a);
    ReachableInv(c);
    LeaseStays(c, step, c', a);
  }

  lemma LeaseStays(c: Config, step: Step, c': Config, a: Addr)
    requires Steps(c, step, c') && a in c.s.cells && a in c.h.lease && !OwnerStepOn(step, a)
    ensures a in c'.h.lease && c'.h.lease[a] == c.h.lease[a]
  {
  }

  lemma StaysWatching(c: Config, step: Step, c': Config, o: Pid, a: Addr, rejection: bool, cell: Cell)
    requires Steps(c, step, c') && Watching(c.s, o, a, rejection, cell) && o in c'.s.observers
    requires a in c'.s.cells && c'.s.cells[a] == cell
    ensures Watching(c'.s, o, a, rejection, cell)
  {
  }

  lemma RunStartsWatching(run: seq<Config>, steps: seq<Step>, n: nat, o: Pid, a: Addr, rejection: bool)
    requires IsRun(run, steps) && n < |steps| && steps[n] == StartObserve(o, a, rejection) && a in run[n].s.cells
    ensures Watching(run[n + 1].s, o, a, rejection, run[n].s.cells[a])
    ensures a in run[n].h.lease && a in run[n + 1].h.lease && run[n + 1].h.lease[a] == run[n].h.lease[a]
  {
    assert Steps(run[n], steps[n], run[n + 1]);
    RunIsReachable(run, steps, n);
    ReachableInv(run[n]);
  }

  lemma RunKeepsWatching(run: seq<Config>, steps: seq<Step>, n: nat, o: Pid, a: Addr, rejection: bool, cell: Cell)
    requires IsRun(run, steps) && n < |steps| && Watching(run[n].s, o, a, rejection, cell) && IsComplete(cell)
    requires o in run[n + 1].s.observers
    ensures Watching(run[n + 1].s, o, a, rejection, cell)
    ensures a in run[n].h.lease && a in run[n + 1].h.lease && run[n + 1].h.lease[a] == run[n].h.lease[a]
  {
    assert Steps(run[n], steps[n], run[n + 1]);
    RunIsReachable(run, steps, n);
    WatchedStays(run[n], steps[n], run[n + 1], o, a, rejection, cell);
    StaysWatching(run[n], steps[n], run[n + 1], o, a, rejection, cell);
  }

  lemma {:induction false} CallKeepsWatching(run: seq<Config>, steps: seq<Step>, i: nat, k: nat, o: Pid, a: Addr, rejection: bool)
    requires IsRun(run, steps) && i < k <= |steps| && steps[i] == StartObserve(o, a, rejection)
    requires a in run[i].s.cells && IsComplete(run[i].s.cells[a])
    requires forall n :: i < n <= k ==> o in run[n].s.observers
    ensures Watching(run[k].s, o, a, rejection, run[i].s.cells[a])
    ensures a in run[i].h.lease && a in run[k].h.lease && run[k].h.lease[a] == run[i].h.lease[a]
    decreases k
  {
    if k == i + 1 {
      RunStartsWatching(run, steps, i, o, a, rejection);
    } else {
      CallKeepsWatching(run, steps, i, k - 1, o, a, rejection);
      RunKeepsWatching(run, steps, k - 1, o, a, rejection, run[i].s.cells[a]);
    }
  }

  /**
    A cell complete when the call starts is answered for: `is_complete` ends by answering
    true, and `was_rejected` never answers at its first look, but goes on to its reload.
  */
  lemma CompleteCellIsAnswered(run: seq<Config>, steps: seq<Step>, i: nat, k: nat, o: Pid, a: Addr, rejection: bool)
    requires IsRun(run, steps) && i < k < |steps| && steps[i] == StartObserve(o, a, rejection)
    requires a in run[i].s.cells && IsComplete(run[i].s.cells[a])
    requires forall n :: i < n <= k ==> o in run[n].s.observers
    requires steps[k] == DoLoadKind(o)
    ensures Enabled(run[k].s, steps[k]) && Safe(run[k].s, steps[k])
    ensures if rejection then AnswerOf(run[k].s, steps[k]) == NoAnswer && o in run[k + 1].s.observers
                              && run[k + 1].s.observers[o].Reload?
            else AnswerOf(run[k].s, steps[k]) == Answer(true)
  {
    CallKeepsWatching(run, steps, i, k, o, a, rejection);
    assert Steps(run[k], steps[k], run[k + 1]);
  }

  // And the reload answers whether a rejection won the lease the cell had when the call began.
  lemma RejectionIsAnswered(run: seq<Config>, steps: seq<Step>, i: nat, k: nat, o: Pid, a: Addr, rejection: bool)
    requires IsRun(run, steps) && i < k < |steps| && steps[i] == StartObserve(o, a, rejection)
    requires a in run[i].s.cells && IsComplete(run[i].s.cells[a])
    requires forall n :: i < n <= k ==> o in run[n].s.observers
    requires steps[k] == DoReload(o)
    ensures Enabled(run[k].s, steps[k]) && Safe(run[k].s, steps[k]) && rejection && a in run[i].h.lease
    ensures AnswerOf(run[k].s, steps[k]) == Answer(true)
            <==> run[i].h.lease[a] in run[i].h.won && run[i].h.won[run[i].h.lease[a]].state == REJECTED
  {
    CallKeepsWatching(run, steps, i, k, o, a, rejection);
    assert Steps(run[k], steps[k], run[k + 1]);
    RunIsReachable(run, steps, i);
    ReachableInv(run[i]);
    var cell := run[i].s.cells[a];
    assert LeaseInv(cell, run[i].h.lease[a], run[i].h.won, run[i].h.delivered);
    ReloadIsExact(cell, run[i].h.lease[a], run[i].h.won, run[i].h.delivered);
  }
}
