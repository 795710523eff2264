/**
  Lease completion cells and their notification queue, as a transition system.

  Every atomic load, store, swap, compare-exchange and fetch-or of `publish_state`,
  `is_complete`, `was_rejected`, `consume`, `take_ready` and `requeue` is one step, and
  steps of any number of publishers and observers, of the sole consumer and of the
  cells' owner interleave freely (sequentially consistent atomics). Addresses are
  reused: a cell may be reset in place, or freed and its address allocated again,
  while another thread still holds that address as a stale queue head.
*/
module Leases {

  // An address; zero is the null link.
  type Addr = nat
  type Pid = nat

  const PUBLISHED := 1
  const REJECTED := 2
  const CONSUMED := 4

  datatype Cell = Cell(complete: nat, queued: bool, next: Addr, token: nat)

  // A `publish_state` call in progress, named by the atomic operation it does next.
  datatype Publisher =
    | LoadQueue(cell: Addr, state: nat)
    | Claim(cell: Addr, state: nat, queued: bool)
    | LoadHead(cell: Addr)
    | StoreNext(cell: Addr, head: Addr)
    | CasHead(cell: Addr, head: Addr)

  // An `is_complete` or (with `rejection`) `was_rejected` call in progress.
  datatype Observer =
    | LoadComplete(cell: Addr, rejection: bool)
    | LoadKind(cell: Addr, rejection: bool, value: nat)
    | Reload(cell: Addr)

  // The sole consumer. Every state but `Idle` holds the detached list from `first`.
  datatype Consumer =
    | Idle
    | Holding(first: Addr)
    | GotNext(first: Addr, next: Addr)
    | GotToken(first: Addr, next: Addr, token: nat)
    | FindTail(first: Addr, last: Addr)
    | TailLoad(first: Addr, last: Addr)
    | TailStore(first: Addr, last: Addr, head: Addr)
    | TailCas(first: Addr, last: Addr, head: Addr)

  datatype State = State(
    cells: map<Addr, Cell>,
    head: Addr,
    publishers: map<Pid, Publisher>,
    observers: map<Pid, Observer>,
    consumer: Consumer)

  datatype Step =
    // The owner: a new cell, a reset in place, and the release of the memory.
    | Allocate(a: Addr, queued: bool, token: nat)
    | ResetQueued(a: Addr, queued: bool, token: nat)
    | ResetCompleted(a: Addr)
    | Free(a: Addr)
    // `publish` and `publish_rejected`; `spurious` is a weak compare-exchange failing.
    | StartPublish(p: Pid, a: Addr, state: nat)
    | DoLoadQueue(p: Pid)
    | DoClaim(p: Pid)
    | DoLoadHead(p: Pid)
    | DoStoreNext(p: Pid)
    | DoCasHead(p: Pid, spurious: bool)
    // `is_complete` and `was_rejected`.
    | StartObserve(o: Pid, a: Addr, rejection: bool)
    | DoLoadComplete(o: Pid)
    | DoLoadKind(o: Pid)
    | DoReload(o: Pid)
    // `take_ready`, `consume` and `requeue`.
    | Take
    | ConsumeNext
    | ConsumeToken
    | ConsumeMark
    | StartRequeue
    | RequeueWalk
    | RequeueLoad
    | RequeueStore
    | RequeueCas(spurious: bool)

  // What an observer returns to its caller, if the step ends its call.
  datatype Answer = NoAnswer | Answer(value: bool)

  // ------------------------------------------------------------------ steps

  // `value & 4 != 0`, and `fetch_or(4)`.
  predicate HasConsumedBit(value: nat) {
    (value / CONSUMED) % 2 == 1
  }

  function WithConsumedBit(value: nat): nat {
    if HasConsumedBit(value) then value else value + CONSUMED
  }

  // The two loads of `is_complete`, evaluated at one instant.
  predicate IsComplete(c: Cell) {
    if c.queued then HasConsumedBit(c.complete) else c.complete != 0
  }

  predicate Unobserved(s: State, a: Addr) {
    && (forall p | p in s.publishers :: s.publishers[p].cell != a)
    && (forall o | o in s.observers :: s.observers[o].cell != a)
  }

  // The owner's licence to reset or free: never published or observed complete, and
  // no call on the cell in progress. Nothing is assumed about the queue or the consumer.
  predicate Reusable(s: State, a: Addr) {
    a in s.cells && Unobserved(s, a) && (s.cells[a].complete == 0 || IsComplete(s.cells[a]))
  }

  predicate Enabled(s: State, step: Step) {
    match step
    case Allocate(a, _, _) => a != 0 && a !in s.cells
    case ResetQueued(a, _, _) => Reusable(s, a)
    case ResetCompleted(a) => Reusable(s, a)
    case Free(a) => Reusable(s, a)
    case StartPublish(p, a, state) =>
      p !in s.publishers && a in s.cells && (state == PUBLISHED || state == REJECTED)
    case DoLoadQueue(p) => p in s.publishers && s.publishers[p].LoadQueue?
    case DoClaim(p) => p in s.publishers && s.publishers[p].Claim?
    case DoLoadHead(p) => p in s.publishers && s.publishers[p].LoadHead?
    case DoStoreNext(p) => p in s.publishers && s.publishers[p].StoreNext?
    case DoCasHead(p, _) => p in s.publishers && s.publishers[p].CasHead?
    case StartObserve(o, a, _) => o !in s.observers && a in s.cells
    case DoLoadComplete(o) => o in s.observers && s.observers[o].LoadComplete?
    case DoLoadKind(o) => o in s.observers && s.observers[o].LoadKind?
    case DoReload(o) => o in s.observers && s.observers[o].Reload?
    case Take => s.consumer.Idle?
    case ConsumeNext => s.consumer.Holding?
    case ConsumeToken => s.consumer.GotNext?
    case ConsumeMark => s.consumer.GotToken?
    case StartRequeue => s.consumer.Holding?
    case RequeueWalk => s.consumer.FindTail?
    case RequeueLoad => s.consumer.TailLoad?
    case RequeueStore => s.consumer.TailStore?
    case RequeueCas(_) => s.consumer.TailCas?
  }

  // The cell a step dereferences, if any.
  function Touched(s: State, step: Step): (r: set<Addr>)
    requires Enabled(s, step)
  {
    match step
    case DoLoadQueue(p) => {s.publishers[p].cell}
    case DoClaim(p) => {s.publishers[p].cell}
    case DoStoreNext(p) => {s.publishers[p].cell}
    case DoLoadComplete(o) => {s.observers[o].cell}
    case DoLoadKind(o) => {s.observers[o].cell}
    case DoReload(o) => {s.observers[o].cell}
    case ConsumeNext => {s.consumer.first}
    case ConsumeToken => {s.consumer.first}
    case ConsumeMark => {s.consumer.first}
    case RequeueWalk => {s.consumer.last}
    case RequeueStore => {s.consumer.last}
    case _ => {}
  }

  // Every dereference is of a live cell.
  predicate Safe(s: State, step: Step)
    requires Enabled(s, step)
  {
    Touched(s, step) <= s.cells.Keys
  }

  function Held(first: Addr): Consumer {
    if first == 0 then Idle else Holding(first)
  }

  function Apply(s: State, step: Step): (s': State)
    requires Enabled(s, step) && Safe(s, step)
  {
    match step
    case Allocate(a, queued, token) =>
      s.(cells := s.cells[a := Cell(0, queued, 0, token)])
    case ResetQueued(a, queued, token) =>
      s.(cells := s.cells[a := Cell(0, queued, 0, token)])
    case ResetCompleted(a) =>
      s.(cells := s.cells[a := s.cells[a].(queued := false, complete := PUBLISHED)])
    case Free(a) =>
      s.(cells := s.cells - {a})
    case StartPublish(p, a, state) =>
      s.(publishers := s.publishers[p := LoadQueue(a, state)])
    case DoLoadQueue(p) =>
      var pub := s.publishers[p];
      s.(publishers := s.publishers[p := Claim(pub.cell, pub.state, s.cells[pub.cell].queued)])
    case DoClaim(p) =>
      var pub := s.publishers[p];
      var c := s.cells[pub.cell];
      if c.complete != 0 then
        s.(publishers := s.publishers - {p})
      else
        var cells := s.cells[pub.cell := c.(complete := pub.state)];
        if pub.queued then
          s.(cells := cells, publishers := s.publishers[p := LoadHead(pub.cell)])
        else
          s.(cells := cells, publishers := s.publishers - {p})
    case DoLoadHead(p) =>
      s.(publishers := s.publishers[p := StoreNext(s.publishers[p].cell, s.head)])
    case DoStoreNext(p) =>
      var pub := s.publishers[p];
      s.(cells := s.cells[pub.cell := s.cells[pub.cell].(next := pub.head)],
         publishers := s.publishers[p := CasHead(pub.cell, pub.head)])
    case DoCasHead(p, spurious) =>
      var pub := s.publishers[p];
      if s.head == pub.head && !spurious then
        s.(head := pub.cell, publishers := s.publishers - {p})
      else
        s.(publishers := s.publishers[p := StoreNext(pub.cell, s.head)])
    case StartObserve(o, a, rejection) =>
      s.(observers := s.observers[o := LoadComplete(a, rejection)])
    case DoLoadComplete(o) =>
      var obs := s.observers[o];
      s.(observers := s.observers[o := LoadKind(obs.cell, obs.rejection, s.cells[obs.cell].complete)])
    case DoLoadKind(o) =>
      var obs := s.observers[o];
      if obs.rejection && SeenComplete(s, obs) then
        s.(observers := s.observers[o := Reload(obs.cell)])
      else
        s.(observers := s.observers - {o})
    case DoReload(o) =>
      s.(observers := s.observers - {o})
    case Take =>
      s.(head := 0, consumer := Held(s.head))
    case ConsumeNext =>
      s.(consumer := GotNext(s.consumer.first, s.cells[s.consumer.first].next))
    case ConsumeToken =>
      var c := s.consumer;
      s.(consumer := GotToken(c.first, c.next, s.cells[c.first].token))
    case ConsumeMark =>
      var c := s.consumer;
      var cell := s.cells[c.first];
      s.(cells := s.cells[c.first := cell.(complete := WithConsumedBit(cell.complete))],
         consumer := Held(c.next))
    case StartRequeue =>
      s.(consumer := FindTail(s.consumer.first, s.consumer.first))
    case RequeueWalk =>
      var c := s.consumer;
      var next := s.cells[c.last].next;
      s.(consumer := if next == 0 then TailLoad(c.first, c.last) else FindTail(c.first, next))
    case RequeueLoad =>
      s.(consumer := TailStore(s.consumer.first, s.consumer.last, s.head))
    case RequeueStore =>
      var c := s.consumer;
      s.(cells := s.cells[c.last := s.cells[c.last].(next := c.head)],
         consumer := TailCas(c.first, c.last, c.head))
    case RequeueCas(spurious) =>
      var c := s.consumer;
      if s.head == c.head && !spurious then
        s.(head := c.first, consumer := Idle)
      else
        s.(consumer := TailStore(c.first, c.last, s.head))
  }

  // What `is_complete` makes of the value it loaded and the queue word it loads now.
  predicate SeenComplete(s: State, obs: Observer)
    requires obs.LoadKind? && obs.cell in s.cells
  {
    if s.cells[obs.cell].queued then HasConsumedBit(obs.value) else obs.value != 0
  }

  function AnswerOf(s: State, step: Step): (r: Answer)
    requires Enabled(s, step) && Safe(s, step)
  {
    match step
    case DoLoadKind(o) =>
      var obs := s.observers[o];
      if !obs.rejection then Answer(SeenComplete(s, obs))
      else if SeenComplete(s, obs) then NoAnswer
      else Answer(false)
    case DoReload(o) =>
      Answer(s.cells[s.observers[o].cell].complete % 4 == REJECTED)
    case _ => NoAnswer
  }

  // ---------------------------------------------------------------- history

  datatype Publication = Publication(state: nat, queued: bool, token: nat)
  datatype Delivery = Delivery(lease: nat, token: nat)

  /**
    What a run has done so far. It is computed from the concrete steps and never
    consulted by them, so every concrete run has exactly one history.
  */
  datatype History = History(
    queue: seq<Addr>,              // the cells linked from the head, newest first
    held: seq<Addr>,               // the consumer's detached, unconsumed cells
    lease: map<Addr, nat>,         // each cell's current lease
    leases: nat,                   // leases handed out so far
    won: map<nat, Publication>,    // the winning publication of each lease that has one
    delivered: seq<Delivery>)      // what `consume` returned, in order

  function Renew(h: History, a: Addr): History {
    h.(lease := h.lease[a := h.leases], leases := h.leases + 1)
  }

  function Record(s: State, h: History, step: Step): (h': History)
    requires Enabled(s, step) && Safe(s, step)
  {
    match step
    case Allocate(a, _, _) => Renew(h, a)
    case ResetQueued(a, _, _) => Renew(h, a)
    case ResetCompleted(a) => Renew(h, a)
    case Free(a) => h.(lease := h.lease - {a})
    case DoClaim(p) =>
      var pub := s.publishers[p];
      var c := s.cells[pub.cell];
      if c.complete == 0 && pub.cell in h.lease then
        h.(won := h.won[h.lease[pub.cell] := Publication(pub.state, c.queued, c.token)])
      else h
    case DoCasHead(p, spurious) =>
      if s.head == s.publishers[p].head && !spurious then
        h.(queue := [s.publishers[p].cell] + h.queue)
      else h
    case Take => h.(queue := [], held := h.queue)
    case ConsumeMark =>
      if h.held != [] && s.consumer.first in h.lease then
        h.(held := h.held[1..],
           delivered := h.delivered + [Delivery(h.lease[s.consumer.first], s.consumer.token)])
      else h
    case RequeueCas(spurious) =>
      if s.head == s.consumer.head && !spurious then
        h.(queue := h.held + h.queue, held := [])
      else h
    case _ => h
  }

  datatype Config = Config(s: State, h: History)

  ghost predicate Init(c: Config) {
    && c.s == State(map[], 0, map[], map[], Idle)
    && c.h == History([], [], map[], 0, map[], [])
  }

  ghost predicate Steps(c: Config, step: Step, c': Config) {
    && Enabled(c.s, step) && Safe(c.s, step)
    && c' == Config(Apply(c.s, step), Record(c.s, c.h, step))
  }

  // A run: `steps[i]` leads from `run[i]` to `run[i + 1]`.
  ghost predicate IsRun(run: seq<Config>, steps: seq<Step>) {
    && |run| == |steps| + 1
    && Init(run[0])
    && (forall i :: 0 <= i < |steps| ==> Steps(run[i], steps[i], run[i + 1]))
  }
}
