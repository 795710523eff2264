/**
  What the lease completion protocol guarantees in every reachable configuration, for
  any number of publishers and observers, one consumer and an owner that reuses addresses.
*/
module LeaseTheorems {
  import opened Leases
  import opened LeaseInvariants

  // ------------------------------------------------------------ memory

  // No thread ever dereferences a cell its owner has released.
  lemma NoDanglingAccess(c: Config, step: Step)
    requires Reachable(c) && Enabled(c.s, step)
    ensures Touched(c.s, step) <= c.s.cells.Keys
  {
    ReachableInv(c);
    EnabledIsSafe(c, step);
  }

  lemma NotLinkedBy(cells: map<Addr, Cell>, publishers: map<Pid, Publisher>, list: seq<Addr>, a: Addr)
    requires PublishersInv(cells, publishers, list)
    requires a in cells && (!Waiting(cells[a]) || a in list)
    ensures !LinkedBy(publishers, a)
  {
    forall p
      ensures !LinkingOn(publishers, p, a)
    {
      if p in publishers {
        assert PublisherInv(cells, list, publishers[p]);
      }
    }
  }

  // The owner's check (no call in progress; unpublished or complete) is enough: the cell
  // is on no list, no winner still has to link it and the consumer does not hold it.
  lemma ReuseIsSafe(c: Config, a: Addr)
    requires Reachable(c) && Reusable(c.s, a)
    ensures a !in c.h.held + c.h.queue && !LinkedBy(c.s.publishers, a)
  {
    ReachableInv(c);
    ReusableIsUnlinked(c.s, a, c.h.held + c.h.queue);
    NotLinkedBy(c.s.cells, c.s.publishers, c.h.held + c.h.queue, a);
  }

  // ----------------------------------------------------------- the lists

  // The address reached by following `n` links from `a`; it stays where the list ends.
  function Walk(cells: map<Addr, Cell>, a: Addr, n: nat): Addr
    decreases n
  {
    if n == 0 || a !in cells then a else Walk(cells, cells[a].next, n - 1)
  }

  lemma {:induction false} WalkFollowsChain(cells: map<Addr, Cell>, first: Addr, list: seq<Addr>, end: Addr, n: nat)
    requires Chain(cells, first, list, end) && n <= |list|
    ensures Walk(cells, first, n) == After(list, n, end)
    decreases n
  {
    if n > 0 {
      var rest := list[1..];
      forall i | 0 <= i < |rest|
        ensures rest[i] in cells && cells[rest[i]].next == After(rest, i + 1, end)
      {
        assert list[i + 1] in cells && cells[list[i + 1]].next == After(list, i + 2, end);
      }
      assert cells[list[0]].next == After(rest, 0, end);
      WalkFollowsChain(cells, After(rest, 0, end), rest, end, n - 1);
    }
  }

  // Following the links from `first` visits exactly `list` and then reads null.
  ghost predicate Reads(cells: map<Addr, Cell>, first: Addr, list: seq<Addr>) {
    && (forall n :: 0 <= n < |list| ==> Walk(cells, first, n) == list[n])
    && Walk(cells, first, |list|) == 0
  }

  lemma ChainIsRead(cells: map<Addr, Cell>, first: Addr, list: seq<Addr>)
    requires Chain(cells, first, list, 0)
    ensures Reads(cells, first, list)
  {
    forall n | 0 <= n <= |list|
      ensures Walk(cells, first, n) == After(list, n, 0)
    {
      WalkFollowsChain(cells, first, list, 0, n);
    }
  }

  ghost predicate LinkedUnconsumed(s: State, a: Addr) {
    a in s.cells && Waiting(s.cells[a]) && !LinkedBy(s.publishers, a)
  }

  /**
    In every reachable configuration the links from the head end at null after finitely
    many cells; those and the consumer's detached cells are all distinct; and the two
    lists together are exactly the linked, unconsumed cells. Nothing is assumed of how
    stale a publisher's or the consumer's copy of the head is.
  */
  lemma ListsHoldExactlyTheUnconsumed(c: Config)
    requires Reachable(c)
    ensures Reads(c.s.cells, c.s.head, c.h.queue)
    ensures Distinct(c.h.held + c.h.queue) && 0 !in c.h.held + c.h.queue
    ensures forall a :: a in c.h.held + c.h.queue <==> LinkedUnconsumed(c.s, a)
  {
    ReachableInv(c);
    ChainIsRead(c.s.cells, c.s.head, c.h.queue);
    forall a
      ensures a in c.h.held + c.h.queue <==> LinkedUnconsumed(c.s, a)
    {
      if a in c.h.held + c.h.queue {
        NotLinkedBy(c.s.cells, c.s.publishers, c.h.held + c.h.queue, a);
      }
    }
  }

  // While it consumes, the consumer's own cursor reads exactly the detached list.
  lemma DetachedListIsRead(c: Config)
    requires Reachable(c) && c.s.consumer.Holding?
    ensures Reads(c.s.cells, c.s.consumer.first, c.h.held)
  {
    ReachableInv(c);
    ChainIsRead(c.s.cells, c.s.consumer.first, c.h.held);
  }

  // ---------------------------------------------------------- exactly once

  // A lease is won at most once: a winning claim finds no earlier winner.
  lemma OneWinnerPerLease(c: Config, step: Step, c': Config)
    requires Reachable(c) && Steps(c, step, c') && step.DoClaim?
    requires c.s.cells[c.s.publishers[step.p].cell].complete == 0
    ensures
      var pub := c.s.publishers[step.p];
      var cell := c.s.cells[pub.cell];
      && pub.cell in c.h.lease && c.h.lease[pub.cell] !in c.h.won
      && c'.h.won == c.h.won[c.h.lease[pub.cell] := Publication(pub.state, cell.queued, cell.token)]
  {
    ReachableInv(c);
    var a := c.s.publishers[step.p].cell;
    assert LeaseInv(c.s.cells[a], c.h.lease[a], c.h.won, c.h.delivered);
  }

  // `consume` returns the token its lease was published with, once: the lease has no
  // earlier delivery.
  lemma ConsumeDelivers(c: Config, step: Step, c': Config)
    requires Reachable(c) && Steps(c, step, c') && step.ConsumeMark?
    ensures
      var a := c.s.consumer.first;
      && a in c.h.lease && c.h.lease[a] in c.h.won
      && c.s.consumer.token == c.h.won[c.h.lease[a]].token
      && !IsDelivered(c.h.delivered, c.h.lease[a])
      && c'.h.delivered == c.h.delivered + [Delivery(c.h.lease[a], c.s.consumer.token)]
  {
    ConsumedIsOwed(c);
  }

  lemma ConsumedIsOwed(c: Config)
    requires Reachable(c) && c.s.consumer.GotToken?
    ensures
      var a := c.s.consumer.first;
      && c.h.held != []
      && a in c.h.lease && c.h.lease[a] in c.h.won
      && c.s.consumer.token == c.h.won[c.h.lease[a]].token
      && !IsDelivered(c.h.delivered, c.h.lease[a])
  {
    ReachableInv(c);
    MarksWaiting(c.s.cells, c.s.head, c.h.queue, c.h.held, c.s.consumer);
    WaitingIsOwed(c.s.cells, c.h.lease, c.h.won, c.h.delivered, c.s.consumer.first);
  }

  lemma WaitingIsOwed(cells: map<Addr, Cell>, lease: map<Addr, nat>, won: map<nat, Publication>,
                      delivered: seq<Delivery>, a: Addr)
    requires LeasesInv(cells, lease, won, delivered) && a in cells && a in lease && Waiting(cells[a])
    ensures lease[a] in won && won[lease[a]].token == cells[a].token && !IsDelivered(delivered, lease[a])
  {
    assert LeaseInv(cells[a], lease[a], won, delivered);
  }

  // No publication is consumed twice, and nothing is consumed that was not published.
  lemma DeliveredAtMostOnce(c: Config)
    requires Reachable(c)
    ensures forall j, k :: 0 <= j < k < |c.h.delivered| ==> c.h.delivered[j].lease != c.h.delivered[k].lease
    ensures forall j :: 0 <= j < |c.h.delivered| ==>
                          && c.h.delivered[j].lease in c.h.won
                          && c.h.won[c.h.delivered[j].lease].queued
                          && c.h.won[c.h.delivered[j].lease].token == c.h.delivered[j].token
  {
    ReachableInv(c);
  }

  // No publisher is running and the consumer has drained the queue.
  predicate Quiescent(s: State) {
    s.publishers == map[] && s.head == 0 && s.consumer.Idle?
  }

  lemma QuiescentListsEmpty(c: Config)
    requires ListsInv(c.s.cells, c.s.head, c.h.queue, c.h.held) && 0 !in c.s.cells
    requires ConsumerInv(c.s.cells, c.s.consumer, c.h.held)
    requires Quiescent(c.s)
    ensures c.h.held + c.h.queue == []
  {
  }

  lemma NothingPending(s: State, h: History, l: nat)
    requires s.publishers == map[] && h.held + h.queue == []
    requires CoverageInv(s.cells, s.publishers, h.held + h.queue)
    requires PendingInv(s.cells, h.lease, h.won, h.delivered)
    requires l in h.won && h.won[l].queued
    ensures IsDelivered(h.delivered, l)
  {
  }

  lemma QuiescentIsDelivered(c: Config, l: nat)
    requires Inv(c) && Quiescent(c.s)
    requires l in c.h.won && c.h.won[l].queued
    ensures Delivery(l, c.h.won[l].token) in c.h.delivered
  {
    QuiescentListsEmpty(c);
    NothingPending(c.s, c.h, l);
    var j :| 0 <= j < |c.h.delivered| && c.h.delivered[j].lease == l;
    assert c.h.delivered[j] == Delivery(l, c.h.won[l].token);
  }

  // At quiescence every queued publication has been delivered, so exactly once.
  lemma QuiescentDeliversAll(c: Config, l: nat)
    requires Reachable(c) && Quiescent(c.s)
    requires l in c.h.won && c.h.won[l].queued
    ensures Delivery(l, c.h.won[l].token) in c.h.delivered
  {
    ReachableInv(c);
    QuiescentIsDelivered(c, l);
  }

  // ------------------------------------------------------------ safe reuse

  // Once a cell reads complete its winner is gone: whoever still calls on it has lost.
  lemma CompleteMeansWinnerGone(c: Config, a: Addr)
    requires Reachable(c) && a in c.s.cells && IsComplete(c.s.cells[a])
    ensures !LinkedBy(c.s.publishers, a)
    ensures a !in c.h.held + c.h.queue
  {
    ReachableInv(c);
    CompleteIsNotWaiting(c.s.cells[a]);
    NotLinkedBy(c.s.cells, c.s.publishers, c.h.held + c.h.queue, a);
  }

  lemma CompleteIsNotWaiting(cell: Cell)
    ensures IsComplete(cell) ==> !Waiting(cell)
  {
  }

  predicate OwnerStepOn(step: Step, a: Addr) {
    (step.ResetQueued? || step.ResetCompleted? || step.Free?) && step.a == a
  }

  // From then on no step but the owner's changes the cell, and it stays complete.
  lemma CompleteCellIsFrozen(c: Config, step: Step, c': Config, a: Addr)
    requires Reachable(c) && Steps(c, step, c') && !OwnerStepOn(step, a)
    requires a in c.s.cells && IsComplete(c.s.cells[a])
    ensures a in c'.s.cells && c'.s.cells[a] == c.s.cells[a]
  {
    CompleteMeansWinnerGone(c, a);
    ReachableInv(c);
    FrozenStep(c, step, c', a);
  }

  lemma FrozenStep(c: Config, step: Step, c': Config, a: Addr)
    requires Steps(c, step, c') && !OwnerStepOn(step, a)
    requires a in c.s.cells && IsComplete(c.s.cells[a])
    requires !LinkedBy(c.s.publishers, a) && a !in c.h.held + c.h.queue
    requires ConsumerInv(c.s.cells, c.s.consumer, c.h.held)
    ensures a in c'.s.cells && c'.s.cells[a] == c.s.cells[a]
  {
    assert step.DoStoreNext? ==> !LinkingOn(c.s.publishers, step.p, a);
    assert step.ConsumeMark? ==> c.s.consumer.first == c.h.held[0];
    assert step.RequeueStore? ==> c.s.consumer.last in c.h.held;
  }

  // Within one lease the completion word goes from 0 to 1 or 2, and then gains bit 4.
  ghost predicate WordMoves(cell: Cell, cell': Cell) {
    || cell'.complete == cell.complete
    || (cell.complete == 0 && (cell'.complete == PUBLISHED || cell'.complete == REJECTED))
    || (Waiting(cell) && cell'.complete == cell.complete + CONSUMED)
  }

  lemma CompletionWordMoves(c: Config, step: Step, c': Config, a: Addr)
    requires Reachable(c) && Steps(c, step, c')
    requires a in c.s.cells && a in c.h.lease && a in c'.s.cells && a in c'.h.lease && c.h.lease[a] == c'.h.lease[a]
    ensures WordMoves(c.s.cells[a], c'.s.cells[a])
  {
    WordIsReady(c, step, a);
    WordStep(c, step, c', a);
  }

  lemma WordIsReady(c: Config, step: Step, a: Addr)
    requires Reachable(c) && Enabled(c.s, step) && Safe(c.s, step)
    requires a in c.s.cells && a in c.h.lease
    ensures step.DoClaim? ==> c.s.publishers[step.p].state in {PUBLISHED, REJECTED}
    ensures step.ConsumeMark? ==> Waiting(c.s.cells[c.s.consumer.first])
    ensures c.h.lease[a] < c.h.leases
  {
    ReachableInv(c);
    if step.DoClaim? {
      assert PublisherInv(c.s.cells, c.h.held + c.h.queue, c.s.publishers[step.p]);
    } else if step.ConsumeMark? {
      MarksWaiting(c.s.cells, c.s.head, c.h.queue, c.h.held, c.s.consumer);
    }
  }

  lemma WordStep(c: Config, step: Step, c': Config, a: Addr)
    requires Steps(c, step, c')
    requires step.DoClaim? ==> c.s.publishers[step.p].state in {PUBLISHED, REJECTED}
    requires step.ConsumeMark? ==> Waiting(c.s.cells[c.s.consumer.first])
    requires a in c.s.cells && a in c.h.lease && a in c'.s.cells && a in c'.h.lease
    requires c.h.lease[a] == c'.h.lease[a] < c.h.leases
    ensures WordMoves(c.s.cells[a], c'.s.cells[a])
  {
  }

  // An `is_complete` that answers true is right at the instant it answers.
  lemma CompleteAnswerIsTrue(c: Config, step: Step)
    requires Reachable(c) && step.DoLoadKind? && Enabled(c.s, step) && Safe(c.s, step)
    requires AnswerOf(c.s, step) == Answer(true)
    ensures IsComplete(c.s.cells[c.s.observers[step.o].cell])
  {
    ReachableInv(c);
    SeenIsComplete(c.s, c.s.observers[step.o]);
  }

  lemma SeenIsComplete(s: State, obs: Observer)
    requires ObserverInv(s.cells, obs) && obs.LoadKind? && SeenComplete(s, obs)
    requires s.cells[obs.cell].complete in {0, 1, 2, 5, 6}
    ensures IsComplete(s.cells[obs.cell])
  {
  }

  // Having found the cell complete, `was_rejected` answers whether a rejection won it.
  lemma RejectionAnswerIsExact(c: Config, step: Step)
    requires Reachable(c) && step.DoReload? && Enabled(c.s, step) && Safe(c.s, step)
    ensures
      var a := c.s.observers[step.o].cell;
      && IsComplete(c.s.cells[a])
      && a in c.h.lease
      && (AnswerOf(c.s, step) == Answer(true) <==>
          c.h.lease[a] in c.h.won && c.h.won[c.h.lease[a]].state == REJECTED)
  {
    ReachableInv(c);
    var a := c.s.observers[step.o].cell;
    assert ObserverInv(c.s.cells, c.s.observers[step.o]);
    ReloadIsExact(c.s.cells[a], c.h.lease[a], c.h.won, c.h.delivered);
  }

  lemma ReloadIsExact(cell: Cell, lease: nat, won: map<nat, Publication>, delivered: seq<Delivery>)
    requires LeaseInv(cell, lease, won, delivered) && IsComplete(cell)
    ensures cell.complete % 4 == REJECTED <==> lease in won && won[lease].state == REJECTED
  {
  }

  // --------------------------------------------------------------- requeue

  predicate Requeueing(c: Consumer) {
    c.FindTail? || c.TailLoad? || c.TailStore? || c.TailCas?
  }

  predicate Returned(s: State, step: Step) {
    step.RequeueCas? && s.consumer.TailCas? && s.head == s.consumer.head && !step.spurious
  }

  // While a requeue is in progress, nobody changes what it will return.
  lemma RequeueKeepsRemainder(c: Config, step: Step, c': Config)
    requires Reachable(c) && Steps(c, step, c')
    requires Requeueing(c.s.consumer) && !Returned(c.s, step)
    ensures Requeueing(c'.s.consumer)
    ensures c'.h.held == c.h.held && c'.s.consumer.first == c.s.consumer.first
  {
  }

  /**
    The compare-exchange that returns a list puts it, whole and in order, in front of
    the queue as it stands at that instant, and leaves nothing detached.
  */
  lemma RequeueReturnsRemainder(c: Config, step: Step, c': Config)
    requires Reachable(c) && Steps(c, step, c') && Returned(c.s, step)
    ensures c'.h.queue == c.h.held + c.h.queue && c'.h.held == [] && c'.s.consumer.Idle?
    ensures Reads(c'.s.cells, c'.s.head, c.h.held + c.h.queue)
  {
    RequeueEffect(c, step, c');
    RequeuedIsRead(c);
  }

  lemma RequeuedIsRead(c: Config)
    requires Reachable(c) && c.s.consumer.TailCas? && c.s.head == c.s.consumer.head
    ensures Reads(c.s.cells, c.s.consumer.first, c.h.held + c.h.queue)
  {
    ReachableInv(c);
    ReturnKeepsLists(c.s.cells, c.s.head, c.h.queue, c.s.consumer.first, c.h.held);
    ChainIsRead(c.s.cells, c.s.consumer.first, c.h.held + c.h.queue);
  }

  // With nothing detached, `has_ready` says whether a linked notification waits.
  lemma HasReadyIsExact(c: Config)
    requires Reachable(c) && c.s.consumer.Idle?
    ensures c.s.head != 0 <==> exists a :: LinkedUnconsumed(c.s, a)
  {
    ListsHoldExactlyTheUnconsumed(c);
    ReachableInv(c);
    assert c.h.held + c.h.queue == c.h.queue;
    if c.s.head != 0 {
      assert c.s.head in c.h.queue;
    }
  }

  // ---------------------------------------------------------- conservation

  ghost function QueuedLeases(won: map<nat, Publication>): set<nat> {
    set l | l in won && won[l].queued
  }

  ghost function Linkers(publishers: map<Pid, Publisher>): set<Pid> {
    set p | p in publishers && Linking(publishers[p])
  }

  // Publications so far, and where each of them is.
  ghost predicate Balanced(c: Config) {
    |QueuedLeases(c.h.won)| == |c.h.delivered| + |c.h.held| + |c.h.queue| + |Linkers(c.s.publishers)|
  }

  lemma PutSameLinking(publishers: map<Pid, Publisher>, p: Pid, pub: Publisher)
    requires Linking(pub) <==> p in publishers && Linking(publishers[p])
    ensures Linkers(publishers[p := pub]) == Linkers(publishers)
  {
  }

  lemma DropNonLinker(publishers: map<Pid, Publisher>, p: Pid)
    requires p in publishers && !Linking(publishers[p])
    ensures Linkers(publishers - {p}) == Linkers(publishers)
  {
  }

  lemma ClaimBalances(c: Config, step: Step, c': Config)
    requires Inv(c) && Balanced(c) && Steps(c, step, c') && step.DoClaim?
    ensures Balanced(c')
  {
    var pub := c.s.publishers[step.p];
    if c.s.cells[pub.cell].complete != 0 {
      DropNonLinker(c.s.publishers, step.p);
    } else {
      ClaimCounts(c.s, c.h, step.p);
    }
  }

  lemma ClaimCounts(s: State, h: History, p: Pid)
    requires CellsInv(s.cells, h.lease, h.leases) && LeasesInv(s.cells, h.lease, h.won, h.delivered)
    requires PublishersInv(s.cells, s.publishers, h.held + h.queue)
    requires p in s.publishers && s.publishers[p].Claim?
    requires s.publishers[p].cell in s.cells && s.cells[s.publishers[p].cell].complete == 0
    ensures
      var pub, cell := s.publishers[p], s.cells[s.publishers[p].cell];
      var won' := h.won[h.lease[pub.cell] := Publication(pub.state, cell.queued, cell.token)];
      if pub.queued then
        && |QueuedLeases(won')| == |QueuedLeases(h.won)| + 1
        && |Linkers(s.publishers[p := LoadHead(pub.cell)])| == |Linkers(s.publishers)| + 1
      else
        QueuedLeases(won') == QueuedLeases(h.won) && Linkers(s.publishers - {p}) == Linkers(s.publishers)
  {
    var pub := s.publishers[p];
    var cell := s.cells[pub.cell];
    var l := h.lease[pub.cell];
    assert PublisherInv(s.cells, h.held + h.queue, pub);
    assert LeaseInv(cell, l, h.won, h.delivered);
    var won' := h.won[l := Publication(pub.state, cell.queued, cell.token)];
    if pub.queued {
      assert QueuedLeases(won') == QueuedLeases(h.won) + {l};
      assert Linkers(s.publishers[p := LoadHead(pub.cell)]) == Linkers(s.publishers) + {p};
    } else {
      assert QueuedLeases(won') == QueuedLeases(h.won);
    }
  }

  lemma PublisherBalances(c: Config, step: Step, c': Config)
    requires Balanced(c) && Steps(c, step, c')
    requires step.StartPublish? || step.DoLoadQueue? || step.DoLoadHead? || step.DoStoreNext? || step.DoCasHead?
    ensures Balanced(c')
  {
    if step.DoCasHead? && c.s.head == c.s.publishers[step.p].head && !step.spurious {
      assert Linkers(c.s.publishers) == Linkers(c'.s.publishers) + {step.p};
    } else {
      PutSameLinking(c.s.publishers, step.p, c'.s.publishers[step.p]);
    }
  }

  lemma OtherBalances(c: Config, step: Step, c': Config)
    requires Balanced(c) && Steps(c, step, c')
    requires ConsumerInv(c.s.cells, c.s.consumer, c.h.held) && c.h.lease.Keys == c.s.cells.Keys
    requires !step.StartPublish? && !step.DoLoadQueue? && !step.DoLoadHead? && !step.DoStoreNext?
    requires !step.DoCasHead? && !step.DoClaim?
    ensures Balanced(c')
  {
    assert c'.s.publishers == c.s.publishers && c'.h.won == c.h.won;
  }

  lemma StepBalances(c: Config, step: Step, c': Config)
    requires Inv(c) && Balanced(c) && Steps(c, step, c')
    ensures Balanced(c')
  {
    if step.DoClaim? {
      ClaimBalances(c, step, c');
    } else if step.StartPublish? || step.DoLoadQueue? || step.DoLoadHead? || step.DoStoreNext? || step.DoCasHead? {
      PublisherBalances(c, step, c');
    } else {
      OtherBalances(c, step, c');
    }
  }

  lemma InitBalances(c: Config)
    requires Init(c)
    ensures Balanced(c)
  {
    assert QueuedLeases(c.h.won) == {} && Linkers(c.s.publishers) == {};
  }

  lemma {:induction false} RunBalances(run: seq<Config>, steps: seq<Step>, i: nat)
    requires IsRun(run, steps) && i <= |steps|
    ensures Balanced(run[i])
  {
    if i == 0 {
      InitBalances(run[0]);
    } else {
      RunBalances(run, steps, i - 1);
      RunKeepsInv(run, steps, i - 1);
      assert Steps(run[i - 1], steps[i - 1], run[i - 1 + 1]);
      StepBalances(run[i - 1], steps[i - 1], run[i]);
    }
  }

  /**
    Conservation: in every reachable configuration the queued publications so far are the
    ones delivered, the ones detached, the ones on the queue and the ones being linked.
  */
  lemma PublicationsAreConserved(c: Config)
    requires Reachable(c)
    ensures |QueuedLeases(c.h.won)| == |c.h.delivered| + |c.h.held| + |c.h.queue| + |Linkers(c.s.publishers)|
  {
    var run, steps :| IsRun(run, steps) && run[|steps|] == c;
    RunBalances(run, steps, |steps|);
  }
}
