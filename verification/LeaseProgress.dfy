/**
  Calls that nobody interrupts come to their end: from every reachable configuration, a
  publisher running alone returns within five steps and a requeue within its walk and three
  more, even when the queue head has moved since they last looked at it.
*/
module LeaseProgress {
  import opened Leases
  import opened LeaseInvariants
  import opened LeaseTheorems

  // ------------------------------------------------------------------ publishers

  // The operation a publisher does next, its compare-exchange not failing spuriously.
  function NextOf(p: Pid, pub: Publisher): Step {
    match pub
    case LoadQueue(_, _) => DoLoadQueue(p)
    case Claim(_, _, _) => DoClaim(p)
    case LoadHead(_) => DoLoadHead(p)
    case StoreNext(_, _) => DoStoreNext(p)
    case CasHead(_, _) => DoCasHead(p, false)
  }

  // The operations left to it. A head that has moved costs one more store and exchange.
  function OperationsLeft(s: State, p: Pid): (r: nat)
    ensures r <= 5 && (r == 0 <==> p !in s.publishers)
  {
    if p !in s.publishers then 0
    else
      match s.publishers[p]
      case LoadQueue(_, _) => 5
      case Claim(_, _, _) => 4
      case LoadHead(_) => 3
      case StoreNext(_, head) => if head == s.head then 2 else 4
      case CasHead(_, head) => if head == s.head then 1 else 3
  }

  // What `n` operations of `p` and of nobody else lead to.
  ghost predicate Alone(c: Config, p: Pid, n: nat, c': Config)
    decreases n
  {
    if n == 0 then c' == c
    else p in c.s.publishers && exists next :: Steps(c, NextOf(p, c.s.publishers[p]), next) && Alone(next, p, n - 1, c')
  }

  lemma StepIsReachable(c: Config, step: Step, next: Config)
    requires Reachable(c) && Steps(c, step, next)
    ensures Reachable(next)
  {
    var run, steps :| IsRun(run, steps) && run[|steps|] == c;
    var run', steps' := run + [next], steps + [step];
    assert IsRun(run', steps') && run'[|steps'|] == next;
  }

  lemma TakesStep(c: Config, step: Step) returns (next: Config)
    requires Reachable(c) && Enabled(c.s, step)
    ensures Steps(c, step, next) && Reachable(next)
  {
    NoDanglingAccess(c, step);
    next := Config(Apply(c.s, step), Record(c.s, c.h, step));
    StepIsReachable(c, step, next);
  }

  lemma PublisherAdvances(c: Config, p: Pid, next: Config)
    requires p in c.s.publishers && Steps(c, NextOf(p, c.s.publishers[p]), next)
    ensures OperationsLeft(next.s, p) < OperationsLeft(c.s, p)
  {
  }

  lemma PublisherLinks(c: Config, p: Pid, next: Config)
    requires p in c.s.publishers && Linking(c.s.publishers[p]) && Steps(c, NextOf(p, c.s.publishers[p]), next)
    ensures if p in next.s.publishers
            then && Linking(next.s.publishers[p]) && next.s.publishers[p].cell == c.s.publishers[p].cell
                 && next.h.queue == c.h.queue
            else next.h.queue == [c.s.publishers[p].cell] + c.h.queue
  {
  }

  lemma OneMoreAlone(c: Config, p: Pid, next: Config, n: nat, c': Config)
    requires p in c.s.publishers && Steps(c, NextOf(p, c.s.publishers[p]), next) && Alone(next, p, n, c')
    ensures Alone(c, p, n + 1, c')
  {
  }

  /**
    A `publish` call that nobody interrupts returns within five operations, whatever the
    head it last saw, and the cell it won is then in front of the queue.
  */
  lemma {:induction false} PublishReturnsAlone(c: Config, p: Pid) returns (n: nat, c': Config)
    requires Reachable(c) && p in c.s.publishers
    ensures n <= OperationsLeft(c.s, p) <= 5 && Alone(c, p, n, c') && Reachable(c') && p !in c'.s.publishers
    ensures Linking(c.s.publishers[p]) ==> c'.h.queue == [c.s.publishers[p].cell] + c.h.queue
    decreases OperationsLeft(c.s, p)
  {
    var next := TakesStep(c, NextOf(p, c.s.publishers[p]));
    PublisherAdvances(c, p, next);
    if Linking(c.s.publishers[p]) {
      PublisherLinks(c, p, next);
    }
    if p !in next.s.publishers {
      n, c' := 1, next;
      OneMoreAlone(c, p, next, 0, c');
    } else {
      var m;
      m, c' := PublishReturnsAlone(next, p);
      OneMoreAlone(c, p, next, m, c');
      n := m + 1;
    }
  }

  // --------------------------------------------------------------------- requeue

  function RequeueNext(consumer: Consumer): Step
    requires Requeueing(consumer)
  {
    if consumer.FindTail? then RequeueWalk
    else if consumer.TailLoad? then RequeueLoad
    else if consumer.TailStore? then RequeueStore
    else RequeueCas(false)
  }

  ghost function Place(list: seq<Addr>, a: Addr): (i: nat)
    requires a in list
    ensures i < |list| && list[i] == a
  {
    var i :| 0 <= i < |list| && list[i] == a;
    i
  }

  // The operations left to a requeue: the rest of its walk to the tail, and three.
  ghost function RequeueLeft(c: Config): nat {
    match c.s.consumer
    case FindTail(_, last) => if last in c.h.held then |c.h.held| - Place(c.h.held, last) + 3 else 0
    case TailLoad(_, _) => 3
    case TailStore(_, _, head) => if head == c.s.head then 2 else 4
    case TailCas(_, _, head) => if head == c.s.head then 1 else 3
    case _ => 0
  }

  ghost predicate RequeueAlone(c: Config, n: nat, c': Config)
    decreases n
  {
    if n == 0 then c' == c
    else
      Requeueing(c.s.consumer)
      && exists next :: Steps(c, RequeueNext(c.s.consumer), next) && RequeueAlone(next, n - 1, c')
  }

  lemma WalkingHeld(c: Config)
    requires Reachable(c) && Requeueing(c.s.consumer)
    ensures c.h.held != [] && Distinct(c.h.held) && 0 !in c.h.held
    ensures c.s.consumer.FindTail? ==> Chain(c.s.cells, c.s.consumer.first, c.h.held, 0) && c.s.consumer.last in c.h.held
  {
    ReachableInv(c);
    FrontIsDistinct(c.h.held, c.h.queue);
  }

  lemma FrontIsDistinct(a: seq<Addr>, b: seq<Addr>)
    requires Distinct(a + b)
    ensures Distinct(a)
  {
    forall i, j | 0 <= i < j < |a| ensures a[i] != a[j] {
      assert (a + b)[i] == a[i] && (a + b)[j] == a[j];
    }
  }

  lemma WalkEffect(c: Config, next: Config)
    requires c.s.consumer.FindTail? && Steps(c, RequeueWalk, next)
    ensures c.s.consumer.last in c.s.cells && next.h == c.h
    ensures
      var first, last := c.s.consumer.first, c.s.consumer.last;
      var link := c.s.cells[last].next;
      next.s.consumer == if link == 0 then TailLoad(first, last) else FindTail(first, link)
  {
  }

  // A link leads to the next place, and the last one to none.
  lemma LinkLeadsOn(cells: map<Addr, Cell>, first: Addr, held: seq<Addr>, last: Addr)
    requires Distinct(held) && 0 !in held && last in held && Chain(cells, first, held, 0)
    ensures last in cells
    ensures cells[last].next != 0 ==> cells[last].next in held && Place(held, cells[last].next) == Place(held, last) + 1
  {
    var i := Place(held, last);
    assert cells[held[i]].next == After(held, i + 1, 0);
    if i + 1 < |held| {
      assert held[i + 1] in held;
    }
  }

  lemma WalkAdvances(c: Config, next: Config)
    requires c.s.consumer.FindTail? && Steps(c, RequeueWalk, next)
    requires Distinct(c.h.held) && 0 !in c.h.held && c.s.consumer.last in c.h.held
    requires Chain(c.s.cells, c.s.consumer.first, c.h.held, 0)
    ensures Requeueing(next.s.consumer) && next.h == c.h && RequeueLeft(next) < RequeueLeft(c)
  {
    WalkEffect(c, next);
    LinkLeadsOn(c.s.cells, c.s.consumer.first, c.h.held, c.s.consumer.last);
  }

  lemma TailAdvances(c: Config, next: Config)
    requires Requeueing(c.s.consumer) && !c.s.consumer.FindTail? && Steps(c, RequeueNext(c.s.consumer), next)
    ensures if Requeueing(next.s.consumer) then next.h == c.h && RequeueLeft(next) < RequeueLeft(c)
            else next.s.consumer.Idle? && next.h.queue == c.h.held + c.h.queue && next.h.held == []
  {
  }

  lemma OneMoreRequeue(c: Config, next: Config, n: nat, c': Config)
    requires Requeueing(c.s.consumer) && Steps(c, RequeueNext(c.s.consumer), next) && RequeueAlone(next, n, c')
    ensures RequeueAlone(c, n + 1, c')
  {
  }

  lemma RequeueAdvances(c: Config) returns (next: Config)
    requires Reachable(c) && Requeueing(c.s.consumer)
    ensures Steps(c, RequeueNext(c.s.consumer), next) && Reachable(next)
    ensures if Requeueing(next.s.consumer) then next.h == c.h && RequeueLeft(next) < RequeueLeft(c)
            else next.s.consumer.Idle? && next.h.queue == c.h.held + c.h.queue && next.h.held == [] && 0 < RequeueLeft(c)
  {
    next := TakesStep(c, RequeueNext(c.s.consumer));
    if c.s.consumer.FindTail? {
      WalkingHeld(c);
      WalkAdvances(c, next);
    } else {
      TailAdvances(c, next);
    }
  }

  lemma RequeueIsShort(c: Config)
    requires Reachable(c) && Requeueing(c.s.consumer)
    ensures RequeueLeft(c) <= |c.h.held| + 3
  {
    WalkingHeld(c);
  }

  /**
    A `requeue` call that nobody interrupts returns after its walk and at most three more
    operations, with the whole list, in order, in front of the queue.
  */
  lemma {:induction false} RequeueReturnsAlone(c: Config) returns (n: nat, c': Config)
    requires Reachable(c) && Requeueing(c.s.consumer)
    ensures n <= RequeueLeft(c) <= |c.h.held| + 3 && RequeueAlone(c, n, c') && Reachable(c')
    ensures c'.s.consumer.Idle? && c'.h.held == [] && c'.h.queue == c.h.held + c.h.queue
    decreases RequeueLeft(c)
  {
    RequeueIsShort(c);
    var next := RequeueAdvances(c);
    if Requeueing(next.s.consumer) {
      var m;
      m, c' := RequeueReturnsAlone(next);
      OneMoreRequeue(c, next, m, c');
      n := m + 1;
    } else {
      n, c' := 1, next;
      OneMoreRequeue(c, next, 0, c');
    }
  }
}
