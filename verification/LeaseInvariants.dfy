/**
  The inductive invariant of the lease completion protocol: every step of every
  interleaving keeps it, so it holds in every reachable configuration.
*/
module LeaseInvariants {
  import opened Leases

  // The address `i` places along a list that ends in `end`.
  function After(list: seq<Addr>, i: nat, end: Addr): Addr {
    if i < |list| then list[i] else end
  }

  // Following `next` from `first` visits exactly `list` and then reads `end`.
  ghost predicate Chain(cells: map<Addr, Cell>, first: Addr, list: seq<Addr>, end: Addr) {
    && first == After(list, 0, end)
    && (forall i :: 0 <= i < |list| ==> list[i] in cells && cells[list[i]].next == After(list, i + 1, end))
  }

  ghost predicate Distinct(list: seq<Addr>) {
    forall i, j :: 0 <= i < j < |list| ==> list[i] != list[j]
  }

  // Published, to be announced on the queue, and not consumed yet.
  predicate Waiting(c: Cell) {
    c.queued && (c.complete == PUBLISHED || c.complete == REJECTED)
  }

  // The winner of a queued cell's claim, which has still to link it.
  predicate Linking(p: Publisher) {
    p.LoadHead? || p.StoreNext? || p.CasHead?
  }

  ghost predicate CellsInv(cells: map<Addr, Cell>, lease: map<Addr, nat>, leases: nat) {
    && 0 !in cells
    && lease.Keys == cells.Keys
    && (forall a :: a in cells ==>
          && lease[a] < leases
          && cells[a].complete in {0, 1, 2, 5, 6}
          && (cells[a].complete > 4 ==> cells[a].queued))
    && (forall a, b :: a in cells && b in cells && lease[a] == lease[b] ==> a == b)
  }

  ghost predicate AllWaiting(cells: map<Addr, Cell>, list: seq<Addr>) {
    forall a :: a in list ==> a in cells && Waiting(cells[a])
  }

  ghost predicate ListsInv(cells: map<Addr, Cell>, head: Addr, queue: seq<Addr>, held: seq<Addr>) {
    && Distinct(held + queue)
    && AllWaiting(cells, held + queue)
    && Chain(cells, head, queue, 0)
  }

  ghost predicate ConsumerInv(cells: map<Addr, Cell>, consumer: Consumer, held: seq<Addr>) {
    match consumer
    case Idle => held == []
    case Holding(first) => held != [] && Chain(cells, first, held, 0)
    case GotNext(first, next) =>
      held != [] && Chain(cells, first, held, 0) && next == After(held, 1, 0)
    case GotToken(first, next, token) =>
      && held != [] && Chain(cells, first, held, 0) && next == After(held, 1, 0)
      && token == cells[first].token
    case FindTail(first, last) =>
      held != [] && Chain(cells, first, held, 0) && last in held
    case TailLoad(first, last) =>
      held != [] && Chain(cells, first, held, 0) && last == held[|held| - 1]
    case TailStore(first, last, _) =>
      && held != [] && last == held[|held| - 1] && last in cells
      && Chain(cells, first, held, cells[last].next)
    case TailCas(first, last, head) =>
      held != [] && Chain(cells, first, held, head) && last == held[|held| - 1]
  }

  ghost predicate PublisherInv(cells: map<Addr, Cell>, list: seq<Addr>, p: Publisher) {
    && p.cell in cells
    && (p.LoadQueue? || p.Claim? ==> p.state == PUBLISHED || p.state == REJECTED)
    && (p.Claim? ==> p.queued == cells[p.cell].queued)
    && (Linking(p) ==> Waiting(cells[p.cell]) && p.cell !in list)
    && (p.CasHead? ==> cells[p.cell].next == p.head)
  }

  // At most one publisher is linking any one cell.
  ghost predicate OneLinker(publishers: map<Pid, Publisher>) {
    forall p, q :: p in publishers && q in publishers && p != q && Linking(publishers[p]) && Linking(publishers[q]) ==>
                     publishers[p].cell != publishers[q].cell
  }

  ghost predicate PublishersInv(cells: map<Addr, Cell>, publishers: map<Pid, Publisher>, list: seq<Addr>) {
    && (forall p :: p in publishers ==> PublisherInv(cells, list, publishers[p]))
    && OneLinker(publishers)
  }

  ghost predicate LinkingOn(publishers: map<Pid, Publisher>, p: Pid, a: Addr) {
    p in publishers && Linking(publishers[p]) && publishers[p].cell == a
  }

  ghost predicate LinkedBy(publishers: map<Pid, Publisher>, a: Addr) {
    exists p :: LinkingOn(publishers, p, a)
  }

  // No published notification is lost: it is linked, detached, or being linked.
  ghost predicate CoverageInv(cells: map<Addr, Cell>, publishers: map<Pid, Publisher>, list: seq<Addr>) {
    forall a :: a in cells && Waiting(cells[a]) ==> a in list || LinkedBy(publishers, a)
  }

  ghost predicate ObserverInv(cells: map<Addr, Cell>, o: Observer) {
    && o.cell in cells
    && (o.LoadKind? ==> o.value in {0, cells[o.cell].complete, cells[o.cell].complete - 4})
    && (o.Reload? ==> IsComplete(cells[o.cell]))
  }

  ghost predicate ObserversInv(cells: map<Addr, Cell>, observers: map<Pid, Observer>) {
    forall o :: o in observers ==> ObserverInv(cells, observers[o])
  }

  ghost predicate IsDelivered(delivered: seq<Delivery>, lease: nat) {
    exists i :: 0 <= i < |delivered| && delivered[i].lease == lease
  }

  // Each live cell agrees with the publication its lease recorded.
  ghost predicate LeaseInv(c: Cell, lease: nat, won: map<nat, Publication>, delivered: seq<Delivery>) {
    && (lease in won ==> c.complete != 0 && won[lease] == Publication(c.complete % 4, c.queued, c.token))
    && (lease !in won ==> c.complete == 0 || (c.complete == PUBLISHED && !c.queued))
    && (IsDelivered(delivered, lease) <==> c.complete > 4)
  }

  ghost predicate LeasesInv(cells: map<Addr, Cell>, lease: map<Addr, nat>, won: map<nat, Publication>,
                            delivered: seq<Delivery>)
  {
    forall a :: a in cells && a in lease ==> LeaseInv(cells[a], lease[a], won, delivered)
  }

  ghost predicate LogInv(leases: nat, won: map<nat, Publication>, delivered: seq<Delivery>) {
    && (forall l :: l in won ==> l < leases && won[l].state in {PUBLISHED, REJECTED})
    && (forall i :: 0 <= i < |delivered| ==>
          && delivered[i].lease in won
          && won[delivered[i].lease].queued
          && won[delivered[i].lease].token == delivered[i].token)
    && (forall i, j :: 0 <= i < j < |delivered| ==> delivered[i].lease != delivered[j].lease)
  }

  ghost predicate Pending(cells: map<Addr, Cell>, lease: map<Addr, nat>, l: nat) {
    exists a :: a in cells && a in lease && lease[a] == l && Waiting(cells[a])
  }

  // Every queued publication is delivered, or its cell still waits to be.
  ghost predicate PendingInv(cells: map<Addr, Cell>, lease: map<Addr, nat>, won: map<nat, Publication>,
                             delivered: seq<Delivery>)
  {
    forall l :: l in won && won[l].queued ==> IsDelivered(delivered, l) || Pending(cells, lease, l)
  }

  ghost predicate SharedInv(s: State, h: History) {
    && CellsInv(s.cells, h.lease, h.leases)
    && ListsInv(s.cells, s.head, h.queue, h.held)
    && LeasesInv(s.cells, h.lease, h.won, h.delivered)
    && LogInv(h.leases, h.won, h.delivered)
    && PendingInv(s.cells, h.lease, h.won, h.delivered)
  }

  ghost predicate Inv(c: Config) {
    && SharedInv(c.s, c.h)
    && ConsumerInv(c.s.cells, c.s.consumer, c.h.held)
    && PublishersInv(c.s.cells, c.s.publishers, c.h.held + c.h.queue)
    && CoverageInv(c.s.cells, c.s.publishers, c.h.held + c.h.queue)
    && ObserversInv(c.s.cells, c.s.observers)
  }

  lemma InitKeepsInv(c: Config)
    requires Init(c)
    ensures Inv(c)
  {
  }

  lemma EnabledIsSafe(c: Config, step: Step)
    requires Inv(c) && Enabled(c.s, step)
    ensures Safe(c.s, step)
  {
  }

  // ------------------------------------------------------- frame lemmas

  ghost predicate SameAt(cells: map<Addr, Cell>, cells': map<Addr, Cell>, a: Addr) {
    a in cells && a in cells' && cells[a] == cells'[a]
  }

  lemma ChainFrame(cells: map<Addr, Cell>, cells': map<Addr, Cell>, first: Addr, list: seq<Addr>, end: Addr)
    requires Chain(cells, first, list, end)
    requires forall a :: a in list ==> SameAt(cells, cells', a)
    ensures Chain(cells', first, list, end)
  {
    forall i | 0 <= i < |list|
      ensures list[i] in cells' && cells'[list[i]].next == After(list, i + 1, end)
    {
      assert SameAt(cells, cells', list[i]);
    }
  }

  lemma ListsFrame(cells: map<Addr, Cell>, cells': map<Addr, Cell>, head: Addr, queue: seq<Addr>, held: seq<Addr>)
    requires ListsInv(cells, head, queue, held)
    requires forall a :: a in held + queue ==> SameAt(cells, cells', a)
    ensures ListsInv(cells', head, queue, held)
  {
    ChainFrame(cells, cells', head, queue, 0);
  }

  lemma ConsumerFrame(cells: map<Addr, Cell>, cells': map<Addr, Cell>, consumer: Consumer, held: seq<Addr>)
    requires ConsumerInv(cells, consumer, held)
    requires forall a :: a in held ==> SameAt(cells, cells', a)
    ensures ConsumerInv(cells', consumer, held)
  {
    if held != [] {
      assert SameAt(cells, cells', held[0]);
      assert SameAt(cells, cells', held[|held| - 1]);
      var end := if consumer.TailStore? then cells[consumer.last].next
                 else if consumer.TailCas? then consumer.head else 0;
      ChainFrame(cells, cells', consumer.first, held, end);
    }
  }

  lemma PublishersFrame(cells: map<Addr, Cell>, cells': map<Addr, Cell>, publishers: map<Pid, Publisher>,
                        list: seq<Addr>)
    requires PublishersInv(cells, publishers, list)
    requires forall p :: p in publishers ==> SameAt(cells, cells', publishers[p].cell)
    ensures PublishersInv(cells', publishers, list)
  {
    forall p | p in publishers
      ensures PublisherInv(cells', list, publishers[p])
    {
      assert PublisherInv(cells, list, publishers[p]);
    }
  }

  // Nobody calls on `a`, so changing or removing it is invisible to publishers.
  lemma PublishersOwner(s: State, a: Addr, cells': map<Addr, Cell>, list: seq<Addr>)
    requires PublishersInv(s.cells, s.publishers, list)
    requires Unobserved(s, a) || a !in s.cells
    requires forall b :: b in s.cells && b != a ==> SameAt(s.cells, cells', b)
    ensures PublishersInv(cells', s.publishers, list)
  {
    forall p | p in s.publishers
      ensures SameAt(s.cells, cells', s.publishers[p].cell)
    {
      assert PublisherInv(s.cells, list, s.publishers[p]);
    }
    PublishersFrame(s.cells, cells', s.publishers, list);
  }

  lemma ObserversOwner(s: State, a: Addr, cells': map<Addr, Cell>)
    requires ObserversInv(s.cells, s.observers)
    requires Unobserved(s, a) || a !in s.cells
    requires forall b :: b in s.cells && b != a ==> SameAt(s.cells, cells', b)
    ensures ObserversInv(cells', s.observers)
  {
    forall o | o in s.observers
      ensures ObserverInv(cells', s.observers[o])
    {
      assert ObserverInv(s.cells, s.observers[o]);
    }
  }

  lemma CoverageFrame(cells: map<Addr, Cell>, cells': map<Addr, Cell>, publishers: map<Pid, Publisher>, list: seq<Addr>)
    requires CoverageInv(cells, publishers, list)
    requires forall a :: a in cells' && Waiting(cells'[a]) ==> a in cells && Waiting(cells[a])
    ensures CoverageInv(cells', publishers, list)
  {
  }

  lemma PendingFrame(cells: map<Addr, Cell>, lease: map<Addr, nat>, cells': map<Addr, Cell>, lease': map<Addr, nat>,
                     won: map<nat, Publication>, delivered: seq<Delivery>)
    requires PendingInv(cells, lease, won, delivered)
    requires forall a :: a in cells && a in lease && Waiting(cells[a]) ==>
                           a in cells' && a in lease' && Waiting(cells'[a]) && lease'[a] == lease[a]
    ensures PendingInv(cells', lease', won, delivered)
  {
    forall l | l in won && won[l].queued
      ensures IsDelivered(delivered, l) || Pending(cells', lease', l)
    {
      if !IsDelivered(delivered, l) {
        assert Pending(cells, lease, l);
        var a :| a in cells && a in lease && lease[a] == l && Waiting(cells[a]);
        assert lease'[a] == l;
      }
    }
  }

  // --------------------------------------------------------- owner steps

  // The owner's licence to reuse a cell already puts it off both lists.
  lemma ReusableIsUnlinked(s: State, a: Addr, list: seq<Addr>)
    requires AllWaiting(s.cells, list) && Reusable(s, a)
    ensures a !in list
    ensures !Waiting(s.cells[a])
  {
  }

  lemma ListStays(cells: map<Addr, Cell>, cells': map<Addr, Cell>, list: seq<Addr>, a: Addr)
    requires AllWaiting(cells, list) && a !in list
    requires forall b :: b in cells && b != a ==> SameAt(cells, cells', b)
    ensures forall b :: b in list ==> SameAt(cells, cells', b)
  {
  }

  // A cell that is off both lists and unobserved can become anything not waiting.
  lemma ReplaceKeepsProcesses(c: Config, a: Addr, cells': map<Addr, Cell>)
    requires Inv(c) && a !in c.h.held + c.h.queue
    requires Unobserved(c.s, a) || a !in c.s.cells
    requires forall b :: b in c.s.cells && b != a ==> SameAt(c.s.cells, cells', b)
    requires forall b :: b in cells' && b != a ==> b in c.s.cells
    requires a in cells' ==> !Waiting(cells'[a])
    ensures ListsInv(cells', c.s.head, c.h.queue, c.h.held)
    ensures ConsumerInv(cells', c.s.consumer, c.h.held)
    ensures PublishersInv(cells', c.s.publishers, c.h.held + c.h.queue)
    ensures CoverageInv(cells', c.s.publishers, c.h.held + c.h.queue)
    ensures ObserversInv(cells', c.s.observers)
  {
    ListStays(c.s.cells, cells', c.h.held + c.h.queue, a);
    ListsFrame(c.s.cells, cells', c.s.head, c.h.queue, c.h.held);
    ConsumerFrame(c.s.cells, cells', c.s.consumer, c.h.held);
    PublishersOwner(c.s, a, cells', c.h.held + c.h.queue);
    ObserversOwner(c.s, a, cells');
    CoverageFrame(c.s.cells, cells', c.s.publishers, c.h.held + c.h.queue);
  }

  lemma FreshLeaseIsUndelivered(leases: nat, won: map<nat, Publication>, delivered: seq<Delivery>)
    requires LogInv(leases, won, delivered)
    ensures leases !in won && !IsDelivered(delivered, leases)
  {
  }

  // A new lease of `a` starts unpublished, or as an unqueued cell born complete.
  lemma RenewKeepsLog(s: State, h: History, a: Addr, cell: Cell)
    requires SharedInv(s, h) && a != 0
    requires a in s.cells ==> !Waiting(s.cells[a])
    requires cell.complete == 0 || (cell.complete == PUBLISHED && !cell.queued)
    ensures CellsInv(s.cells[a := cell], h.lease[a := h.leases], h.leases + 1)
    ensures LeasesInv(s.cells[a := cell], h.lease[a := h.leases], h.won, h.delivered)
    ensures LogInv(h.leases + 1, h.won, h.delivered)
    ensures PendingInv(s.cells[a := cell], h.lease[a := h.leases], h.won, h.delivered)
  {
    RenewKeepsLeases(s.cells, h.lease, h.leases, h.won, h.delivered, a, cell);
    PendingFrame(s.cells, h.lease, s.cells[a := cell], h.lease[a := h.leases], h.won, h.delivered);
  }

  lemma RenewKeepsLeases(cells: map<Addr, Cell>, lease: map<Addr, nat>, leases: nat, won: map<nat, Publication>,
                         delivered: seq<Delivery>, a: Addr, cell: Cell)
    requires LeasesInv(cells, lease, won, delivered) && LogInv(leases, won, delivered)
    requires cell.complete == 0 || (cell.complete == PUBLISHED && !cell.queued)
    ensures LeasesInv(cells[a := cell], lease[a := leases], won, delivered)
  {
    FreshLeaseIsUndelivered(leases, won, delivered);
  }

  lemma KeepsRenewal(c: Config, step: Step, c': Config)
    requires Inv(c) && (step.Allocate? || step.ResetQueued? || step.ResetCompleted?) && Steps(c, step, c')
    ensures Inv(c')
  {
    var a := step.a;
    assert a !in c.h.held + c.h.queue && (a in c.s.cells ==> !Waiting(c.s.cells[a])) by {
      if step.Allocate? {
        assert AllWaiting(c.s.cells, c.h.held + c.h.queue);
      } else {
        ReusableIsUnlinked(c.s, a, c.h.held + c.h.queue);
      }
    }
    RenewKeepsLog(c.s, c.h, a, c'.s.cells[a]);
    ReplaceKeepsProcesses(c, a, c'.s.cells);
  }

  // The configuration after a cell was freed.
  function Freed(c: Config, a: Addr): Config {
    Config(c.s.(cells := c.s.cells - {a}), c.h.(lease := c.h.lease - {a}))
  }

  lemma FreeEffect(c: Config, step: Step, c': Config)
    requires step.Free? && Steps(c, step, c')
    ensures Reusable(c.s, step.a) && step.a in c.s.cells && c' == Freed(c, step.a)
  {
  }

  lemma FreedKeeps(c: Config, a: Addr)
    requires Inv(c) && Reusable(c.s, a) && a in c.s.cells
    ensures Inv(Freed(c, a))
  {
    ReusableIsUnlinked(c.s, a, c.h.held + c.h.queue);
    ReplaceKeepsProcesses(c, a, c.s.cells - {a});
    RemoveKeepsLog(c.s.cells, c.h.lease, c.h.leases, c.h.won, c.h.delivered, a);
  }

  lemma KeepsFree(c: Config, step: Step, c': Config)
    requires Inv(c) && step.Free? && Steps(c, step, c')
    ensures Inv(c')
  {
    FreeEffect(c, step, c');
    FreedKeeps(c, step.a);
  }

  lemma RemoveKeepsLog(cells: map<Addr, Cell>, lease: map<Addr, nat>, leases: nat, won: map<nat, Publication>,
                       delivered: seq<Delivery>, a: Addr)
    requires CellsInv(cells, lease, leases) && LeasesInv(cells, lease, won, delivered)
    requires PendingInv(cells, lease, won, delivered)
    requires a in cells && !Waiting(cells[a])
    ensures CellsInv(cells - {a}, lease - {a}, leases)
    ensures LeasesInv(cells - {a}, lease - {a}, won, delivered)
    ensures PendingInv(cells - {a}, lease - {a}, won, delivered)
  {
    PendingFrame(cells, lease, cells - {a}, lease - {a}, won, delivered);
  }

  // ----------------------------------------------------- publisher steps

  // A publisher moves on; only a linking one stays linking, and on the same cell.
  lemma PutPublisher(cells: map<Addr, Cell>, publishers: map<Pid, Publisher>, list: seq<Addr>, p: Pid, pub: Publisher)
    requires PublishersInv(cells, publishers, list)
    requires PublisherInv(cells, list, pub)
    requires Linking(pub) ==> LinkingOn(publishers, p, pub.cell)
    ensures PublishersInv(cells, publishers[p := pub], list)
  {
  }

  lemma PutCoverage(cells: map<Addr, Cell>, publishers: map<Pid, Publisher>, list: seq<Addr>, p: Pid, pub: Publisher)
    requires CoverageInv(cells, publishers, list)
    requires p in publishers && Linking(publishers[p]) ==> Linking(pub) && pub.cell == publishers[p].cell
    ensures CoverageInv(cells, publishers[p := pub], list)
  {
    forall a | LinkedBy(publishers, a)
      ensures LinkedBy(publishers[p := pub], a)
    {
      var q :| LinkingOn(publishers, q, a);
      assert LinkingOn(publishers[p := pub], q, a);
    }
  }

  lemma DropPublisher(cells: map<Addr, Cell>, publishers: map<Pid, Publisher>, list: seq<Addr>, p: Pid)
    requires PublishersInv(cells, publishers, list)
    requires CoverageInv(cells, publishers, list)
    requires p in publishers && (Linking(publishers[p]) ==> publishers[p].cell in list)
    ensures PublishersInv(cells, publishers - {p}, list)
    ensures CoverageInv(cells, publishers - {p}, list)
  {
    forall a | a in cells && Waiting(cells[a]) && a !in list
      ensures LinkedBy(publishers - {p}, a)
    {
      var q :| LinkingOn(publishers, q, a);
      assert LinkingOn(publishers - {p}, q, a);
    }
  }

  lemma KeepsPublisherMove(c: Config, step: Step, c': Config)
    requires Inv(c) && Steps(c, step, c')
    requires step.StartPublish? || step.DoLoadQueue? || step.DoLoadHead?
    ensures Inv(c')
  {
    assert c'.h == c.h && c'.s == c.s.(publishers := c.s.publishers[step.p := c'.s.publishers[step.p]]);
    var list := c.h.held + c.h.queue;
    PutPublisher(c.s.cells, c.s.publishers, list, step.p, c'.s.publishers[step.p]);
    PutCoverage(c.s.cells, c.s.publishers, list, step.p, c'.s.publishers[step.p]);
  }

  lemma ClaimKeepsPublishers(cells: map<Addr, Cell>, publishers: map<Pid, Publisher>, list: seq<Addr>, p: Pid)
    requires PublishersInv(cells, publishers, list) && CoverageInv(cells, publishers, list)
    requires p in publishers && publishers[p].Claim? && cells[publishers[p].cell].complete == 0
    requires publishers[p].cell !in list
    ensures
      var a := publishers[p].cell;
      var cells' := cells[a := cells[a].(complete := publishers[p].state)];
      var publishers' := if publishers[p].queued then publishers[p := LoadHead(a)] else publishers - {p};
      PublishersInv(cells', publishers', list) && CoverageInv(cells', publishers', list)
  {
    var a := publishers[p].cell;
    var cells' := cells[a := cells[a].(complete := publishers[p].state)];
    forall q | q in publishers
      ensures PublisherInv(cells', list, publishers[q])
      ensures Linking(publishers[q]) ==> publishers[q].cell != a
    {
      assert PublisherInv(cells, list, publishers[q]);
    }
    if publishers[p].queued {
      var publishers' := publishers[p := LoadHead(a)];
      assert LinkingOn(publishers', p, a);
      forall b | b in cells' && Waiting(cells'[b]) && b !in list && b != a
        ensures LinkedBy(publishers', b)
      {
        var q :| LinkingOn(publishers, q, b);
        assert LinkingOn(publishers', q, b);
      }
    } else {
      CoverageFrame(cells, cells', publishers, list);
      assert PublishersInv(cells', publishers, list);
      DropPublisher(cells', publishers, list, p);
    }
  }

  lemma ClaimKeepsObservers(cells: map<Addr, Cell>, observers: map<Pid, Observer>, a: Addr, cell: Cell)
    requires ObserversInv(cells, observers)
    requires a in cells && cells[a].complete == 0
    ensures ObserversInv(cells[a := cell], observers)
  {
    forall o | o in observers
      ensures ObserverInv(cells[a := cell], observers[o])
    {
      assert ObserverInv(cells, observers[o]);
    }
  }

  lemma ClaimKeepsLog(s: State, h: History, a: Addr, state: nat)
    requires SharedInv(s, h)
    requires a in s.cells && s.cells[a].complete == 0
    requires state == PUBLISHED || state == REJECTED
    ensures
      var cell := s.cells[a];
      var cells' := s.cells[a := cell.(complete := state)];
      var won' := h.won[h.lease[a] := Publication(state, cell.queued, cell.token)];
      && CellsInv(cells', h.lease, h.leases)
      && LeasesInv(cells', h.lease, won', h.delivered)
      && LogInv(h.leases, won', h.delivered)
  {
    ClaimKeepsLeases(s.cells, h.lease, h.leases, h.won, h.delivered, a, state);
  }

  lemma ClaimKeepsLeases(cells: map<Addr, Cell>, lease: map<Addr, nat>, leases: nat, won: map<nat, Publication>,
                         delivered: seq<Delivery>, a: Addr, state: nat)
    requires CellsInv(cells, lease, leases) && LeasesInv(cells, lease, won, delivered)
    requires a in cells && cells[a].complete == 0
    requires state == PUBLISHED || state == REJECTED
    ensures lease[a] !in won
    ensures LeasesInv(cells[a := cells[a].(complete := state)], lease,
                      won[lease[a] := Publication(state, cells[a].queued, cells[a].token)], delivered)
  {
    var cells' := cells[a := cells[a].(complete := state)];
    var won' := won[lease[a] := Publication(state, cells[a].queued, cells[a].token)];
    assert LeaseInv(cells[a], lease[a], won, delivered);
    forall b | b in cells'
      ensures LeaseInv(cells'[b], lease[b], won', delivered)
    {
      assert LeaseInv(cells[b], lease[b], won, delivered);
    }
  }

  lemma ClaimKeepsPending(s: State, h: History, a: Addr, state: nat)
    requires SharedInv(s, h)
    requires a in s.cells && s.cells[a].complete == 0
    requires state == PUBLISHED || state == REJECTED
    ensures
      var cell := s.cells[a];
      PendingInv(s.cells[a := cell.(complete := state)], h.lease,
                 h.won[h.lease[a] := Publication(state, cell.queued, cell.token)], h.delivered)
  {
    var cell := s.cells[a];
    var cells' := s.cells[a := cell.(complete := state)];
    var won' := h.won[h.lease[a] := Publication(state, cell.queued, cell.token)];
    assert LeaseInv(cell, h.lease[a], h.won, h.delivered);
    PendingFrame(s.cells, h.lease, cells', h.lease, h.won, h.delivered);
    forall l | l in won' && won'[l].queued
      ensures IsDelivered(h.delivered, l) || Pending(cells', h.lease, l)
    {
      if l == h.lease[a] {
        assert Waiting(cells'[a]);
      }
    }
  }

  lemma KeepsDoClaim(c: Config, step: Step, c': Config)
    requires Inv(c) && step.DoClaim? && Steps(c, step, c')
    ensures Inv(c')
  {
    var list := c.h.held + c.h.queue;
    var pub := c.s.publishers[step.p];
    assert PublisherInv(c.s.cells, list, pub);
    if c.s.cells[pub.cell].complete != 0 {
      DropPublisher(c.s.cells, c.s.publishers, list, step.p);
    } else {
      assert pub.cell !in list by {
        assert AllWaiting(c.s.cells, list);
      }
      ClaimKeepsPublishers(c.s.cells, c.s.publishers, list, step.p);
      ClaimKeepsObservers(c.s.cells, c.s.observers, pub.cell, c'.s.cells[pub.cell]);
      ClaimKeepsLog(c.s, c.h, pub.cell, pub.state);
      ClaimKeepsPending(c.s, c.h, pub.cell, pub.state);
      UnlinkedChangeKeepsLists(c, pub.cell, c'.s.cells[pub.cell]);
    }
  }

  // Changing a cell that is on neither list keeps both lists and the consumer.
  lemma UnlinkedChangeKeepsLists(c: Config, a: Addr, cell: Cell)
    requires ListsInv(c.s.cells, c.s.head, c.h.queue, c.h.held)
    requires ConsumerInv(c.s.cells, c.s.consumer, c.h.held)
    requires a !in c.h.held + c.h.queue
    ensures ListsInv(c.s.cells[a := cell], c.s.head, c.h.queue, c.h.held)
    ensures ConsumerInv(c.s.cells[a := cell], c.s.consumer, c.h.held)
  {
    ListsFrame(c.s.cells, c.s.cells[a := cell], c.s.head, c.h.queue, c.h.held);
    ConsumerFrame(c.s.cells, c.s.cells[a := cell], c.s.consumer, c.h.held);
  }

  // Storing a link changes nothing but the link.
  lemma LinkKeepsOthers(s: State, h: History, a: Addr, next: Addr)
    requires SharedInv(s, h) && a in s.cells
    ensures
      var cells' := s.cells[a := s.cells[a].(next := next)];
      && CellsInv(cells', h.lease, h.leases)
      && LeasesInv(cells', h.lease, h.won, h.delivered)
      && PendingInv(cells', h.lease, h.won, h.delivered)
  {
    var cells' := s.cells[a := s.cells[a].(next := next)];
    PendingFrame(s.cells, h.lease, cells', h.lease, h.won, h.delivered);
    forall b | b in cells'
      ensures LeaseInv(cells'[b], h.lease[b], h.won, h.delivered)
    {
      assert LeaseInv(s.cells[b], h.lease[b], h.won, h.delivered);
    }
  }

  lemma LinkKeepsObservers(cells: map<Addr, Cell>, observers: map<Pid, Observer>, a: Addr, next: Addr)
    requires ObserversInv(cells, observers) && a in cells
    ensures ObserversInv(cells[a := cells[a].(next := next)], observers)
  {
    forall o | o in observers
      ensures ObserverInv(cells[a := cells[a].(next := next)], observers[o])
    {
      assert ObserverInv(cells, observers[o]);
    }
  }

  lemma StoreKeepsPublishers(cells: map<Addr, Cell>, publishers: map<Pid, Publisher>, list: seq<Addr>, p: Pid)
    requires PublishersInv(cells, publishers, list) && CoverageInv(cells, publishers, list)
    requires p in publishers && publishers[p].StoreNext?
    ensures
      var pub := publishers[p];
      var cells' := cells[pub.cell := cells[pub.cell].(next := pub.head)];
      var publishers' := publishers[p := CasHead(pub.cell, pub.head)];
      PublishersInv(cells', publishers', list) && CoverageInv(cells', publishers', list)
  {
    var pub := publishers[p];
    assert PublisherInv(cells, list, pub);
    var cells' := cells[pub.cell := cells[pub.cell].(next := pub.head)];
    forall q | q in publishers && q != p
      ensures PublisherInv(cells', list, publishers[q])
    {
      assert PublisherInv(cells, list, publishers[q]);
    }
    PutCoverage(cells, publishers, list, p, CasHead(pub.cell, pub.head));
    CoverageFrame(cells, cells', publishers[p := CasHead(pub.cell, pub.head)], list);
  }

  lemma KeepsDoStoreNext(c: Config, step: Step, c': Config)
    requires Inv(c) && step.DoStoreNext? && Steps(c, step, c')
    ensures Inv(c')
  {
    var list := c.h.held + c.h.queue;
    var pub := c.s.publishers[step.p];
    assert PublisherInv(c.s.cells, list, pub);
    StoreKeepsPublishers(c.s.cells, c.s.publishers, list, step.p);
    LinkKeepsOthers(c.s, c.h, pub.cell, pub.head);
    LinkKeepsObservers(c.s.cells, c.s.observers, pub.cell, pub.head);
    UnlinkedChangeKeepsLists(c, pub.cell, c'.s.cells[pub.cell]);
  }

  // The compare-exchange saw the head the link was stored for. Whether that address is
  // still the cell it was when the head was loaded plays no part.
  lemma PushKeepsLists(cells: map<Addr, Cell>, head: Addr, queue: seq<Addr>, held: seq<Addr>, a: Addr)
    requires ListsInv(cells, head, queue, held)
    requires a in cells && Waiting(cells[a]) && a !in held + queue
    requires cells[a].next == head
    ensures ListsInv(cells, a, [a] + queue, held)
  {
    var queue' := [a] + queue;
    forall i | 0 <= i < |queue'|
      ensures queue'[i] in cells && cells[queue'[i]].next == After(queue', i + 1, 0)
    {
      if i > 0 {
        assert queue'[i] == queue[i - 1];
      }
    }
    DistinctInsert(held, queue, a);
  }

  lemma DistinctInsert(held: seq<Addr>, queue: seq<Addr>, a: Addr)
    requires Distinct(held + queue) && a !in held + queue
    ensures Distinct(held + ([a] + queue))
  {
    var list, list' := held + queue, held + ([a] + queue);
    var m := |held|;
    assert forall i :: 0 <= i < m ==> list'[i] == list[i];
    assert forall i :: m < i < |list'| ==> list'[i] == list[i - 1];
  }

  // Replacing the list by one with the same members and one more cell.
  lemma GrowPublishers(cells: map<Addr, Cell>, publishers: map<Pid, Publisher>, list: seq<Addr>, list': seq<Addr>, p: Pid)
    requires PublishersInv(cells, publishers, list) && CoverageInv(cells, publishers, list)
    requires p in publishers && Linking(publishers[p])
    requires forall a :: a in list' <==> a in list || a == publishers[p].cell
    ensures PublishersInv(cells, publishers - {p}, list')
    ensures CoverageInv(cells, publishers - {p}, list')
  {
    forall q | q in publishers - {p}
      ensures PublisherInv(cells, list', publishers[q])
    {
      assert PublisherInv(cells, list, publishers[q]);
    }
    forall a | a in cells && Waiting(cells[a]) && a !in list'
      ensures LinkedBy(publishers - {p}, a)
    {
      var q :| LinkingOn(publishers, q, a);
      assert LinkingOn(publishers - {p}, q, a);
    }
  }

  lemma KeepsDoCasHead(c: Config, step: Step, c': Config)
    requires Inv(c) && step.DoCasHead? && Steps(c, step, c')
    ensures Inv(c')
  {
    var list := c.h.held + c.h.queue;
    var pub := c.s.publishers[step.p];
    assert PublisherInv(c.s.cells, list, pub);
    if c.s.head == pub.head && !step.spurious {
      PushKeepsLists(c.s.cells, c.s.head, c.h.queue, c.h.held, pub.cell);
      GrowPublishers(c.s.cells, c.s.publishers, list, c.h.held + c'.h.queue, step.p);
    } else {
      PutPublisher(c.s.cells, c.s.publishers, list, step.p, c'.s.publishers[step.p]);
      PutCoverage(c.s.cells, c.s.publishers, list, step.p, c'.s.publishers[step.p]);
    }
  }

  // ------------------------------------------------------ observer steps

  lemma KeepsObserverMove(c: Config, step: Step, c': Config)
    requires Inv(c) && Steps(c, step, c')
    requires step.StartObserve? || step.DoLoadComplete? || step.DoLoadKind? || step.DoReload?
    ensures Inv(c')
  {
    assert c'.h == c.h && c'.s == c.s.(observers := c'.s.observers);
    ObserverMoves(c.s, step, c.h);
  }

  lemma ObserverMoves(s: State, step: Step, h: History)
    requires ObserversInv(s.cells, s.observers) && CellsInv(s.cells, h.lease, h.leases)
    requires Enabled(s, step) && Safe(s, step)
    requires step.StartObserve? || step.DoLoadComplete? || step.DoLoadKind? || step.DoReload?
    ensures ObserversInv(s.cells, Apply(s, step).observers)
  {
    if step.DoLoadKind? {
      assert ObserverInv(s.cells, s.observers[step.o]);
    }
  }

  // ------------------------------------------------------ consumer steps

  lemma NothingAdded(list: seq<Addr>)
    ensures [] + list == list && list + [] == list
  {
  }

  // The configuration after the whole queue became the detached list.
  function Taken(c: Config): Config {
    Config(c.s.(head := 0, consumer := Held(c.s.head)), c.h.(queue := [], held := c.h.queue))
  }

  lemma TakeEffect(c: Config, step: Step, c': Config)
    requires step.Take? && Steps(c, step, c')
    ensures c.s.consumer == Idle && c' == Taken(c)
  {
  }

  lemma TakeKeepsLists(cells: map<Addr, Cell>, head: Addr, queue: seq<Addr>, held: seq<Addr>)
    requires ListsInv(cells, head, queue, held) && held == []
    ensures ListsInv(cells, 0, [], queue)
  {
    NothingAdded(queue);
  }

  lemma TakeKeepsConsumer(cells: map<Addr, Cell>, head: Addr, queue: seq<Addr>)
    requires Chain(cells, head, queue, 0) && 0 !in cells
    ensures ConsumerInv(cells, Held(head), queue)
  {
    assert queue != [] ==> queue[0] in cells;
  }

  lemma TakenKeeps(c: Config)
    requires Inv(c) && c.s.consumer == Idle
    ensures Inv(Taken(c))
  {
    TakeKeepsLists(c.s.cells, c.s.head, c.h.queue, c.h.held);
    TakeKeepsConsumer(c.s.cells, c.s.head, c.h.queue);
    NothingAdded(c.h.queue);
  }

  lemma KeepsTake(c: Config, step: Step, c': Config)
    requires Inv(c) && step.Take? && Steps(c, step, c')
    ensures Inv(c')
  {
    TakeEffect(c, step, c');
    TakenKeeps(c);
  }

  lemma KeepsConsumerMove(c: Config, step: Step, c': Config)
    requires Inv(c) && Steps(c, step, c')
    requires step.ConsumeNext? || step.ConsumeToken? || step.StartRequeue? || step.RequeueWalk? || step.RequeueLoad?
    ensures Inv(c')
  {
    assert c'.h == c.h && c'.s == c.s.(consumer := c'.s.consumer);
    ConsumerMoves(c.s, step, c.h);
  }

  lemma ConsumerMoves(s: State, step: Step, h: History)
    requires ConsumerInv(s.cells, s.consumer, h.held)
    requires AllWaiting(s.cells, h.held + h.queue) && 0 !in s.cells
    requires Enabled(s, step) && Safe(s, step)
    requires step.ConsumeNext? || step.ConsumeToken? || step.StartRequeue? || step.RequeueWalk? || step.RequeueLoad?
    ensures ConsumerInv(s.cells, Apply(s, step).consumer, h.held)
  {
    if step.RequeueWalk? {
      var i :| 0 <= i < |h.held| && h.held[i] == s.consumer.last;
      assert s.cells[h.held[i]].next == After(h.held, i + 1, 0);
      if i + 1 < |h.held| {
        assert h.held[i + 1] in h.held + h.queue;
      }
    }
  }

  // Consuming the first detached cell leaves the rest of the list detached.
  lemma MarkKeepsLists(cells: map<Addr, Cell>, head: Addr, queue: seq<Addr>, held: seq<Addr>, cell: Cell)
    requires ListsInv(cells, head, queue, held) && held != []
    ensures ListsInv(cells[held[0] := cell], head, queue, held[1..])
  {
    var list, list' := held + queue, held[1..] + queue;
    DistinctTail(held, queue);
    forall a | a in queue
      ensures SameAt(cells, cells[held[0] := cell], a)
    {
      assert a in list';
    }
    ChainFrame(cells, cells[held[0] := cell], head, queue, 0);
  }

  lemma DistinctTail(held: seq<Addr>, queue: seq<Addr>)
    requires Distinct(held + queue) && held != []
    ensures Distinct(held[1..] + queue)
    ensures forall a :: a in held[1..] + queue ==> a in held + queue && a != held[0]
  {
    var list, list' := held + queue, held[1..] + queue;
    assert list' == list[1..];
    forall a | a in list'
      ensures a in list && a != list[0]
    {
      var i :| 0 <= i < |list'| && list'[i] == a;
      assert list[i + 1] == a;
    }
  }

  lemma MarkKeepsConsumer(cells: map<Addr, Cell>, consumer: Consumer, held: seq<Addr>, cell: Cell)
    requires ConsumerInv(cells, consumer, held) && consumer.GotToken?
    requires Distinct(held) && 0 !in held
    ensures ConsumerInv(cells[held[0] := cell], Held(consumer.next), held[1..])
  {
    var rest := held[1..];
    forall a | a in rest
      ensures a != held[0]
    {
      var i :| 0 <= i < |rest| && rest[i] == a;
      assert held[i + 1] == a;
    }
    forall i | 0 <= i < |rest|
      ensures rest[i] in cells && cells[rest[i]].next == After(rest, i + 1, 0)
    {
      assert held[i + 1] in cells && cells[held[i + 1]].next == After(held, i + 2, 0);
    }
    assert Chain(cells, After(rest, 0, 0), rest, 0);
    ChainFrame(cells, cells[held[0] := cell], After(rest, 0, 0), rest, 0);
  }

  lemma DeliveredOneMore(delivered: seq<Delivery>, d: Delivery, l: nat)
    ensures IsDelivered(delivered + [d], l) <==> IsDelivered(delivered, l) || l == d.lease
  {
    var delivered' := delivered + [d];
    assert delivered'[|delivered|] == d;
    if IsDelivered(delivered, l) {
      var i :| 0 <= i < |delivered| && delivered[i].lease == l;
      assert delivered'[i].lease == l;
    }
  }

  lemma MarkKeepsLeases(cells: map<Addr, Cell>, lease: map<Addr, nat>, leases: nat, won: map<nat, Publication>,
                        delivered: seq<Delivery>, a: Addr, d: Delivery)
    requires CellsInv(cells, lease, leases) && LeasesInv(cells, lease, won, delivered)
    requires a in cells && Waiting(cells[a]) && d.lease == lease[a]
    ensures LeasesInv(cells[a := cells[a].(complete := WithConsumedBit(cells[a].complete))], lease, won, delivered + [d])
  {
    var cells' := cells[a := cells[a].(complete := WithConsumedBit(cells[a].complete))];
    forall b | b in cells'
      ensures LeaseInv(cells'[b], lease[b], won, delivered + [d])
    {
      assert LeaseInv(cells[b], lease[b], won, delivered);
      DeliveredOneMore(delivered, d, lease[b]);
    }
  }

  lemma MarkKeepsPending(cells: map<Addr, Cell>, lease: map<Addr, nat>, won: map<nat, Publication>,
                         delivered: seq<Delivery>, a: Addr, d: Delivery, cell: Cell)
    requires PendingInv(cells, lease, won, delivered)
    requires a in cells && a in lease && d.lease == lease[a]
    ensures PendingInv(cells[a := cell], lease, won, delivered + [d])
  {
    forall l | l in won && won[l].queued && !IsDelivered(delivered + [d], l)
      ensures Pending(cells[a := cell], lease, l)
    {
      DeliveredOneMore(delivered, d, l);
      assert Pending(cells, lease, l);
      var b :| b in cells && b in lease && lease[b] == l && Waiting(cells[b]);
      assert b != a && b in cells[a := cell];
    }
  }

  lemma MarkKeepsLog(cells: map<Addr, Cell>, lease: map<Addr, nat>, leases: nat, won: map<nat, Publication>,
                     delivered: seq<Delivery>, a: Addr, d: Delivery)
    requires CellsInv(cells, lease, leases) && LeasesInv(cells, lease, won, delivered) && LogInv(leases, won, delivered)
    requires a in cells && Waiting(cells[a]) && d == Delivery(lease[a], cells[a].token)
    ensures CellsInv(cells[a := cells[a].(complete := WithConsumedBit(cells[a].complete))], lease, leases)
    ensures LogInv(leases, won, delivered + [d])
  {
    assert LeaseInv(cells[a], lease[a], won, delivered);
  }

  lemma MarkKeepsPublishers(cells: map<Addr, Cell>, publishers: map<Pid, Publisher>, list: seq<Addr>, complete: nat)
    requires PublishersInv(cells, publishers, list) && CoverageInv(cells, publishers, list)
    requires list != [] && Distinct(list) && list[0] in cells && complete > 4
    ensures
      var cells' := cells[list[0] := cells[list[0]].(complete := complete)];
      PublishersInv(cells', publishers, list[1..]) && CoverageInv(cells', publishers, list[1..])
  {
    var cells' := cells[list[0] := cells[list[0]].(complete := complete)];
    var list' := list[1..];
    assert forall a :: a in list <==> a in list' || a == list[0];
    forall p | p in publishers
      ensures PublisherInv(cells', list', publishers[p])
    {
      assert PublisherInv(cells, list, publishers[p]);
    }
  }

  lemma MarkKeepsObservers(cells: map<Addr, Cell>, observers: map<Pid, Observer>, a: Addr)
    requires ObserversInv(cells, observers)
    requires a in cells && Waiting(cells[a])
    ensures ObserversInv(cells[a := cells[a].(complete := WithConsumedBit(cells[a].complete))], observers)
  {
    var cells' := cells[a := cells[a].(complete := WithConsumedBit(cells[a].complete))];
    forall o | o in observers
      ensures ObserverInv(cells', observers[o])
    {
      assert ObserverInv(cells, observers[o]);
    }
  }

  lemma HeldFirst(cells: map<Addr, Cell>, head: Addr, queue: seq<Addr>, held: seq<Addr>)
    requires ListsInv(cells, head, queue, held) && held != [] && 0 !in cells
    ensures var list := held + queue;
            && list != [] && list[0] == held[0] && list[1..] == held[1..] + queue
            && held[0] in cells && Waiting(cells[held[0]])
            && WithConsumedBit(cells[held[0]].complete) > 4
            && Distinct(list)
    ensures Distinct(held) && 0 !in held
  {
    var list := held + queue;
    assert list[0] in list;
    assert forall i :: 0 <= i < |held| ==> held[i] == list[i];
  }

  // The cell the consumer is about to mark is the first detached one, and waits.
  lemma MarksWaiting(cells: map<Addr, Cell>, head: Addr, queue: seq<Addr>, held: seq<Addr>, consumer: Consumer)
    requires ListsInv(cells, head, queue, held) && ConsumerInv(cells, consumer, held) && 0 !in cells
    requires consumer.GotToken?
    ensures held != [] && consumer.first == held[0] && held[0] in cells
    ensures Waiting(cells[held[0]]) && consumer.token == cells[held[0]].token
  {
    HeldFirst(cells, head, queue, held);
  }

  // The configuration after consuming the first detached cell.
  function Marked(c: Config): Config
    requires c.s.consumer.GotToken? && c.h.held != [] && c.h.held[0] in c.s.cells && c.h.held[0] in c.h.lease
  {
    var a := c.h.held[0];
    var cell := c.s.cells[a];
    Config(c.s.(cells := c.s.cells[a := cell.(complete := WithConsumedBit(cell.complete))],
                consumer := Held(c.s.consumer.next)),
           c.h.(held := c.h.held[1..], delivered := c.h.delivered + [Delivery(c.h.lease[a], cell.token)]))
  }

  lemma MarkedShared(c: Config)
    requires SharedInv(c.s, c.h) && ConsumerInv(c.s.cells, c.s.consumer, c.h.held) && c.s.consumer.GotToken?
    ensures SharedInv(Marked(c).s, Marked(c).h)
  {
    var h := c.h;
    var cells := c.s.cells;
    var a := h.held[0];
    var d := Delivery(h.lease[a], cells[a].token);
    HeldFirst(cells, c.s.head, h.queue, h.held);
    var cell := Marked(c).s.cells[a];
    MarkKeepsLists(cells, c.s.head, h.queue, h.held, cell);
    MarkKeepsLog(cells, h.lease, h.leases, h.won, h.delivered, a, d);
    MarkKeepsLeases(cells, h.lease, h.leases, h.won, h.delivered, a, d);
    MarkKeepsPending(cells, h.lease, h.won, h.delivered, a, d, cell);
  }

  lemma MarkedPublishers(c: Config)
    requires ListsInv(c.s.cells, c.s.head, c.h.queue, c.h.held) && 0 !in c.s.cells && c.s.consumer.GotToken?
    requires c.h.held != [] && c.h.held[0] in c.s.cells && c.h.held[0] in c.h.lease
    requires PublishersInv(c.s.cells, c.s.publishers, c.h.held + c.h.queue)
    requires CoverageInv(c.s.cells, c.s.publishers, c.h.held + c.h.queue)
    ensures PublishersInv(Marked(c).s.cells, c.s.publishers, c.h.held[1..] + c.h.queue)
    ensures CoverageInv(Marked(c).s.cells, c.s.publishers, c.h.held[1..] + c.h.queue)
  {
    HeldFirst(c.s.cells, c.s.head, c.h.queue, c.h.held);
    var a := c.h.held[0];
    var complete := WithConsumedBit(c.s.cells[a].complete);
    assert Marked(c).s.cells == c.s.cells[a := c.s.cells[a].(complete := complete)];
    MarkKeepsPublishers(c.s.cells, c.s.publishers, c.h.held + c.h.queue, complete);
  }

  lemma MarkEffect(c: Config, step: Step, c': Config)
    requires step.ConsumeMark? && Steps(c, step, c')
    requires ConsumerInv(c.s.cells, c.s.consumer, c.h.held) && c.h.lease.Keys == c.s.cells.Keys
    ensures c.s.consumer.GotToken? && c.h.held != [] && c.h.held[0] in c.s.cells && c.h.held[0] in c.h.lease
    ensures c' == Marked(c)
  {
  }

  lemma MarkedKeeps(c: Config)
    requires Inv(c) && c.s.consumer.GotToken?
    ensures Inv(Marked(c))
  {
    HeldFirst(c.s.cells, c.s.head, c.h.queue, c.h.held);
    MarkedShared(c);
    MarkedPublishers(c);
    MarkKeepsConsumer(c.s.cells, c.s.consumer, c.h.held, Marked(c).s.cells[c.h.held[0]]);
    MarkKeepsObservers(c.s.cells, c.s.observers, c.h.held[0]);
  }

  lemma KeepsConsumeMark(c: Config, step: Step, c': Config)
    requires Inv(c) && step.ConsumeMark? && Steps(c, step, c')
    ensures Inv(c')
  {
    MarkEffect(c, step, c');
    MarkedKeeps(c);
  }

  lemma LastIsOffQueue(held: seq<Addr>, queue: seq<Addr>)
    requires Distinct(held + queue) && held != []
    ensures held[|held| - 1] !in queue
  {
    var list := held + queue;
    assert list[|held| - 1] == held[|held| - 1];
    assert forall i :: 0 <= i < |queue| ==> list[|held| + i] == queue[i];
  }

  // The last detached cell's link is rewritten; the queue's own links are not.
  lemma TailKeepsLists(cells: map<Addr, Cell>, head: Addr, queue: seq<Addr>, held: seq<Addr>, last: Addr, next: Addr)
    requires ListsInv(cells, head, queue, held) && held != []
    requires last == held[|held| - 1] && last in cells
    ensures ListsInv(cells[last := cells[last].(next := next)], head, queue, held)
  {
    LastIsOffQueue(held, queue);
    ChainFrame(cells, cells[last := cells[last].(next := next)], head, queue, 0);
  }

  lemma TailKeepsConsumer(cells: map<Addr, Cell>, consumer: Consumer, held: seq<Addr>)
    requires ConsumerInv(cells, consumer, held) && consumer.TailStore? && Distinct(held)
    ensures ConsumerInv(cells[consumer.last := cells[consumer.last].(next := consumer.head)],
                        TailCas(consumer.first, consumer.last, consumer.head), held)
  {
  }

  lemma TailKeepsPublishers(cells: map<Addr, Cell>, publishers: map<Pid, Publisher>, list: seq<Addr>, last: Addr, next: Addr)
    requires PublishersInv(cells, publishers, list) && CoverageInv(cells, publishers, list)
    requires last in list && last in cells
    ensures PublishersInv(cells[last := cells[last].(next := next)], publishers, list)
    ensures CoverageInv(cells[last := cells[last].(next := next)], publishers, list)
  {
    var cells' := cells[last := cells[last].(next := next)];
    forall p | p in publishers
      ensures PublisherInv(cells', list, publishers[p])
    {
      assert PublisherInv(cells, list, publishers[p]);
    }
    CoverageFrame(cells, cells', publishers, list);
  }

  // The configuration after the last detached cell was linked to the head loaded before.
  function Linked(c: Config): Config
    requires c.s.consumer.TailStore? && c.s.consumer.last in c.s.cells
  {
    var cons := c.s.consumer;
    Config(c.s.(cells := c.s.cells[cons.last := c.s.cells[cons.last].(next := cons.head)],
                consumer := TailCas(cons.first, cons.last, cons.head)), c.h)
  }

  lemma LinkEffect(c: Config, step: Step, c': Config)
    requires step.RequeueStore? && Steps(c, step, c')
    ensures c.s.consumer.TailStore? && c.s.consumer.last in c.s.cells && c' == Linked(c)
  {
  }

  lemma LinkedKeeps(c: Config)
    requires Inv(c) && c.s.consumer.TailStore?
    ensures Inv(Linked(c))
  {
    var list := c.h.held + c.h.queue;
    var cons := c.s.consumer;
    assert list[|c.h.held| - 1] == cons.last;
    HeldFirst(c.s.cells, c.s.head, c.h.queue, c.h.held);
    TailKeepsLists(c.s.cells, c.s.head, c.h.queue, c.h.held, cons.last, cons.head);
    TailKeepsConsumer(c.s.cells, cons, c.h.held);
    TailKeepsPublishers(c.s.cells, c.s.publishers, list, cons.last, cons.head);
    LinkKeepsOthers(c.s, c.h, cons.last, cons.head);
    LinkKeepsObservers(c.s.cells, c.s.observers, cons.last, cons.head);
  }

  lemma KeepsRequeueStore(c: Config, step: Step, c': Config)
    requires Inv(c) && step.RequeueStore? && Steps(c, step, c')
    ensures Inv(c')
  {
    LinkEffect(c, step, c');
    LinkedKeeps(c);
  }

  // The returned list goes back in front of whatever the queue holds at this instant.
  lemma ReturnKeepsLists(cells: map<Addr, Cell>, head: Addr, queue: seq<Addr>, first: Addr, held: seq<Addr>)
    requires ListsInv(cells, head, queue, held)
    requires held != [] && Chain(cells, first, held, head)
    ensures ListsInv(cells, first, held + queue, [])
  {
    var list := held + queue;
    NothingAdded(list);
    forall i | 0 <= i < |list|
      ensures list[i] in cells && cells[list[i]].next == After(list, i + 1, 0)
    {
      if i >= |held| {
        assert list[i] == queue[i - |held|];
      }
    }
  }

  // A failed exchange goes back to storing the link, with the head it saw.
  lemma TailReloads(cells: map<Addr, Cell>, consumer: Consumer, held: seq<Addr>, head: Addr)
    requires ConsumerInv(cells, consumer, held) && consumer.TailCas?
    ensures ConsumerInv(cells, TailStore(consumer.first, consumer.last, head), held)
  {
    TailIsLast(cells, held, consumer.first, consumer.last, consumer.head);
  }

  lemma TailIsLast(cells: map<Addr, Cell>, held: seq<Addr>, first: Addr, last: Addr, end: Addr)
    requires held != [] && Chain(cells, first, held, end) && last == held[|held| - 1]
    ensures last in cells && cells[last].next == end
  {
  }

  // The configurations after the exchange that ends a requeue, made and not made.
  function Requeued(c: Config): Config
    requires c.s.consumer.TailCas?
  {
    Config(c.s.(head := c.s.consumer.first, consumer := Idle), c.h.(queue := c.h.held + c.h.queue, held := []))
  }

  function Reloaded(c: Config): Config
    requires c.s.consumer.TailCas?
  {
    Config(c.s.(consumer := TailStore(c.s.consumer.first, c.s.consumer.last, c.s.head)), c.h)
  }

  lemma RequeueEffect(c: Config, step: Step, c': Config)
    requires step.RequeueCas? && Steps(c, step, c')
    ensures c.s.consumer.TailCas?
    ensures if c.s.head == c.s.consumer.head && !step.spurious then c' == Requeued(c) else c' == Reloaded(c)
  {
  }

  lemma RequeuedKeeps(c: Config)
    requires Inv(c) && c.s.consumer.TailCas? && c.s.head == c.s.consumer.head
    ensures Inv(Requeued(c))
  {
    ReturnKeepsLists(c.s.cells, c.s.head, c.h.queue, c.s.consumer.first, c.h.held);
    NothingAdded(c.h.held + c.h.queue);
  }

  lemma ReloadedKeeps(c: Config)
    requires Inv(c) && c.s.consumer.TailCas?
    ensures Inv(Reloaded(c))
  {
    TailReloads(c.s.cells, c.s.consumer, c.h.held, c.s.head);
  }

  lemma KeepsRequeueCas(c: Config, step: Step, c': Config)
    requires Inv(c) && step.RequeueCas? && Steps(c, step, c')
    ensures Inv(c')
  {
    RequeueEffect(c, step, c');
    if c.s.head == c.s.consumer.head && !step.spurious {
      RequeuedKeeps(c);
    } else {
      ReloadedKeeps(c);
    }
  }

  lemma KeepsInv(c: Config, step: Step, c': Config)
    requires Inv(c) && Steps(c, step, c')
    ensures Inv(c')
  {
    if step.Allocate? || step.ResetQueued? || step.ResetCompleted? {
      KeepsRenewal(c, step, c');
    } else if step.Free? {
      KeepsFree(c, step, c');
    } else if step.StartPublish? || step.DoLoadQueue? || step.DoLoadHead? {
      KeepsPublisherMove(c, step, c');
    } else if step.DoClaim? {
      KeepsDoClaim(c, step, c');
    } else if step.DoStoreNext? {
      KeepsDoStoreNext(c, step, c');
    } else if step.DoCasHead? {
      KeepsDoCasHead(c, step, c');
    } else if step.StartObserve? || step.DoLoadComplete? || step.DoLoadKind? || step.DoReload? {
      KeepsObserverMove(c, step, c');
    } else if step.Take? {
      KeepsTake(c, step, c');
    } else if step.ConsumeMark? {
      KeepsConsumeMark(c, step, c');
    } else if step.RequeueStore? {
      KeepsRequeueStore(c, step, c');
    } else if step.RequeueCas? {
      KeepsRequeueCas(c, step, c');
    } else {
      KeepsConsumerMove(c, step, c');
    }
  }

  ghost predicate Reachable(c: Config) {
    exists run, steps :: IsRun(run, steps) && run[|steps|] == c
  }

  lemma {:induction false} RunKeepsInv(run: seq<Config>, steps: seq<Step>, i: nat)
    requires IsRun(run, steps) && i <= |steps|
    ensures Inv(run[i])
  {
    if i == 0 {
      InitKeepsInv(run[0]);
    } else {
      RunKeepsInv(run, steps, i - 1);
      assert Steps(run[i - 1], steps[i - 1], run[i - 1 + 1]);
      KeepsInv(run[i - 1], steps[i - 1], run[i]);
    }
  }

  lemma ReachableInv(c: Config)
    requires Reachable(c)
    ensures Inv(c)
  {
    var run, steps :| IsRun(run, steps) && run[|steps|] == c;
    RunKeepsInv(run, steps, |steps|);
  }

  // Every prefix of a run is a run, so every configuration on it is reachable.
  lemma RunIsReachable(run: seq<Config>, steps: seq<Step>, i: nat)
    requires IsRun(run, steps) && i <= |steps|
    ensures Reachable(run[i])
  {
    assert IsRun(run[..i + 1], steps[..i]);
    assert run[..i + 1][|steps[..i]|] == run[i];
  }
}
