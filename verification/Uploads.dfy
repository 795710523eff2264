/**
  Upload events (unix/shared/src/upload_feedback.rs) on top of the lease completion
  machine: any number of upload records share one sequence counter and each owns two
  notification cells. A record's encoder runs `publish` and `finish_notifications` one
  atomic operation at a time, interleaved with every other step of the machine.
*/
module Uploads {
  import opened Leases
  import opened LeaseInvariants
  import LeaseTheorems

  type Id = nat

  const COUNTER_MAX: nat := 0xFFFF_FFFF_FFFF_FFFF

  datatype Outcome = Declined | Emitted

  // The record's one encoder, named by what it does next.
  datatype Encoder =
    | Resting
    | Check(outcome: Outcome)
    | Count(outcome: Outcome)
    | StoreSlot(outcome: Outcome, value: nat)
    | Notify(outcome: Outcome)
    | Notifying(outcome: Outcome)
    | Panicked
    | FinishEmitted
    | FinishingEmitted
    | FinishDeclined
    | FinishingDeclined
    | Finished

  datatype Upload = Upload(
    emittedCell: Addr, declinedCell: Addr,
    emitted: nat, declined: nat,
    encoder: Encoder,
    birth: nat, emittedLease: nat, declinedLease: nat)  // history: identities of this use

  function CellOf(up: Upload, o: Outcome): Addr {
    if o.Emitted? then up.emittedCell else up.declinedCell
  }

  function LeaseOf(up: Upload, o: Outcome): nat {
    if o.Emitted? then up.emittedLease else up.declinedLease
  }

  function SlotOf(up: Upload, o: Outcome): nat {
    if o.Emitted? then up.emitted else up.declined
  }

  function WithSlot(up: Upload, o: Outcome, value: nat): Upload {
    if o.Emitted? then up.(emitted := value) else up.(declined := value)
  }

  // A counter update: the event number handed out for one record's outcome.
  datatype Event = Event(birth: nat, outcome: Outcome, value: nat)

  datatype System = System(
    c: Config,
    counter: nat,
    uploads: map<Id, Upload>,
    births: nat,
    events: seq<Event>)  // history: counter updates in order

  datatype UStep =
    | Machine(step: Step)
    | NewUpload(u: Id, emittedCell: Addr, declinedCell: Addr)
    | Retire(u: Id)
    | BeginPublish(u: Id, outcome: Outcome)
    | DoCheck(u: Id)
    | DoCount(u: Id)
    | DoStoreSlot(u: Id)
    | BeginFinish(u: Id)
    | DoNotify(u: Id)
    | DoReturn(u: Id)

  // The outcome whose cell the encoder is about to publish, or is publishing.
  predicate AboutToNotify(e: Encoder, o: Outcome) {
    || e == Notify(o)
    || (e.FinishEmitted? && o.Emitted?)
    || (e.FinishDeclined? && o.Declined?)
  }

  predicate Calling(e: Encoder, o: Outcome) {
    || e == Notifying(o)
    || (e.FinishingEmitted? && o.Emitted?)
    || (e.FinishingDeclined? && o.Declined?)
  }

  // `finish_notifications` has begun: no event is published any more.
  predicate Finishing(e: Encoder) {
    e.FinishEmitted? || e.FinishingEmitted? || e.FinishDeclined? || e.FinishingDeclined? || e.Finished?
  }

  // `finish_notifications` is past this outcome's cell.
  predicate PastNotifying(e: Encoder, o: Outcome) {
    || e.Finished?
    || (o.Emitted? && (e.FinishDeclined? || e.FinishingDeclined?))
  }

  function NotifyTarget(e: Encoder): Outcome
    requires e.Notify? || e.FinishEmitted? || e.FinishDeclined?
  {
    if e.Notify? then e.outcome else if e.FinishEmitted? then Emitted else Declined
  }

  function CallStarted(e: Encoder): Encoder
    requires e.Notify? || e.FinishEmitted? || e.FinishDeclined?
  {
    if e.Notify? then Notifying(e.outcome) else if e.FinishEmitted? then FinishingEmitted else FinishingDeclined
  }

  function CallReturned(e: Encoder): Encoder
    requires e.Notifying? || e.FinishingEmitted? || e.FinishingDeclined?
  {
    if e.Notifying? then Resting else if e.FinishingEmitted? then FinishDeclined else Finished
  }

  ghost predicate InUse(uploads: map<Id, Upload>, a: Addr) {
    exists u, o :: u in uploads && CellOf(uploads[u], o) == a
  }

  predicate OwnerStep(step: Step) {
    step.Allocate? || step.ResetQueued? || step.ResetCompleted? || step.Free?
  }

  // The rest of the device leaves the records' notification cells to their encoders.
  ghost predicate Respects(uploads: map<Id, Upload>, step: Step) {
    && (step.StartPublish? ==> step.p !in uploads && !InUse(uploads, step.a))
    && (OwnerStep(step) ==> !InUse(uploads, step.a))
  }

  ghost predicate UEnabled(y: System, step: UStep) {
    match step
    case Machine(m) => Enabled(y.c.s, m) && Safe(y.c.s, m) && Respects(y.uploads, m)
    case NewUpload(u, e, d) =>
      && u !in y.uploads && u !in y.c.s.publishers && e != d
      && Available(y, e) && Available(y, d)
    case Retire(u) =>
      && u in y.uploads && y.uploads[u].encoder.Finished?
      && (forall o: Outcome :: CellOf(y.uploads[u], o) in y.c.s.cells && IsComplete(y.c.s.cells[CellOf(y.uploads[u], o)]))
    case BeginPublish(u, _) => u in y.uploads && y.uploads[u].encoder.Resting?
    case DoCheck(u) => u in y.uploads && y.uploads[u].encoder.Check?
    case DoCount(u) => u in y.uploads && y.uploads[u].encoder.Count?
    case DoStoreSlot(u) => u in y.uploads && y.uploads[u].encoder.StoreSlot?
    case BeginFinish(u) => u in y.uploads && y.uploads[u].encoder.Resting?
    case DoNotify(u) =>
      && u in y.uploads && u !in y.c.s.publishers
      && (y.uploads[u].encoder.Notify? || y.uploads[u].encoder.FinishEmitted? || y.uploads[u].encoder.FinishDeclined?)
      && CellOf(y.uploads[u], NotifyTarget(y.uploads[u].encoder)) in y.c.s.cells
    case DoReturn(u) =>
      && u in y.uploads && u !in y.c.s.publishers
      && (y.uploads[u].encoder.Notifying? || y.uploads[u].encoder.FinishingEmitted? || y.uploads[u].encoder.FinishingDeclined?)
  }

  // A queued, unpublished cell nobody else uses.
  ghost predicate Available(y: System, a: Addr) {
    && a in y.c.s.cells && a in y.c.h.lease
    && y.c.s.cells[a].queued && y.c.s.cells[a].complete == 0
    && !InUse(y.uploads, a)
    && (forall p :: p in y.c.s.publishers ==> y.c.s.publishers[p].cell != a)
  }

  ghost function MachineStep(c: Config, m: Step): Config
    requires Enabled(c.s, m) && Safe(c.s, m)
  {
    Config(Apply(c.s, m), Record(c.s, c.h, m))
  }

  ghost function UApply(y: System, step: UStep): System
    requires UEnabled(y, step)
  {
    match step
    case Machine(m) => y.(c := MachineStep(y.c, m))
    case NewUpload(u, e, d) =>
      y.(uploads := y.uploads[u := Upload(e, d, 0, 0, Resting, y.births, y.c.h.lease[e], y.c.h.lease[d])],
         births := y.births + 1)
    case Retire(u) => y.(uploads := y.uploads - {u})
    case BeginPublish(u, o) => Put(y, u, y.uploads[u].(encoder := Check(o)))
    case DoCheck(u) =>
      var up := y.uploads[u];
      var o := up.encoder.outcome;
      Put(y, u, up.(encoder := if SlotOf(up, o) != 0 then Resting else Count(o)))
    case DoCount(u) =>
      var up := y.uploads[u];
      var o := up.encoder.outcome;
      if y.counter >= COUNTER_MAX then
        Put(y, u, up.(encoder := Panicked))
      else
        Put(y, u, up.(encoder := StoreSlot(o, y.counter + 1))).(
          counter := y.counter + 1, events := y.events + [Event(up.birth, o, y.counter + 1)])
    case DoStoreSlot(u) =>
      var up := y.uploads[u];
      var o := up.encoder.outcome;
      Put(y, u, WithSlot(up, o, up.encoder.value).(encoder := Notify(o)))
    case BeginFinish(u) => Put(y, u, y.uploads[u].(encoder := FinishEmitted))
    case DoNotify(u) =>
      var up := y.uploads[u];
      Put(y, u, up.(encoder := CallStarted(up.encoder))).(
        c := MachineStep(y.c, StartPublish(u, CellOf(up, NotifyTarget(up.encoder)), PUBLISHED)))
    case DoReturn(u) => Put(y, u, y.uploads[u].(encoder := CallReturned(y.uploads[u].encoder)))
  }

  ghost function Put(y: System, u: Id, up: Upload): System {
    y.(uploads := y.uploads[u := up])
  }

  ghost predicate UInit(y: System) {
    Init(y.c) && y.counter == 0 && y.uploads == map[] && y.births == 0 && y.events == []
  }

  ghost predicate UNext(y: System, step: UStep, y': System) {
    UEnabled(y, step) && y' == UApply(y, step)
  }

  ghost predicate IsURun(run: seq<System>, steps: seq<UStep>) {
    && |run| == |steps| + 1
    && UInit(run[0])
    && (forall i :: 0 <= i < |steps| ==> UNext(run[i], steps[i], run[i + 1]))
  }

  ghost predicate UReachable(y: System) {
    exists run, steps :: IsURun(run, steps) && run[|steps|] == y
  }

  // ------------------------------------------------------------- invariant

  // One notification cell of one record.
  ghost predicate NotificationInv(s: State, lease: map<Addr, nat>, u: Id, up: Upload, o: Outcome) {
    var a := CellOf(up, o);
    && a in s.cells && a in lease && s.cells[a].queued && lease[a] == LeaseOf(up, o)
    && (forall p :: p in s.publishers && s.publishers[p].cell == a ==> p == u)
    && (s.cells[a].complete != 0 ==> SlotOf(up, o) != 0 || Finishing(up.encoder))
    && (SlotOf(up, o) != 0 && s.cells[a].complete == 0 ==>
          AboutToNotify(up.encoder, o) || Calling(up.encoder, o) || Finishing(up.encoder))
    && (Calling(up.encoder, o) && u !in s.publishers ==> s.cells[a].complete != 0)
    && (PastNotifying(up.encoder, o) ==> s.cells[a].complete != 0)
    && (up.encoder == Notify(o) || up.encoder == Notifying(o) ==> SlotOf(up, o) != 0)
    && (up.encoder == Count(o) ==> SlotOf(up, o) == 0)
    && (up.encoder.StoreSlot? && up.encoder.outcome == o ==> SlotOf(up, o) == 0 && up.encoder.value > 0)
  }

  // The record's publisher process runs only inside a call, on that call's cell.
  ghost predicate CallInv(publishers: map<Pid, Publisher>, u: Id, up: Upload) {
    u in publishers ==> exists o :: Calling(up.encoder, o) && publishers[u].cell == CellOf(up, o)
  }

  ghost predicate UploadInv(s: State, lease: map<Addr, nat>, u: Id, up: Upload) {
    && up.emittedCell != up.declinedCell
    && NotificationInv(s, lease, u, up, Emitted)
    && NotificationInv(s, lease, u, up, Declined)
    && CallInv(s.publishers, u, up)
  }

  // Each cell serves one record.
  ghost predicate CellsDisjoint(uploads: map<Id, Upload>) {
    forall u, v, o, n :: u in uploads && v in uploads && CellOf(uploads[u], o) == CellOf(uploads[v], n) ==>
                           u == v && o == n
  }

  ghost predicate UploadsInv(s: State, lease: map<Addr, nat>, uploads: map<Id, Upload>) {
    && (forall u :: u in uploads ==> UploadInv(s, lease, u, uploads[u]))
    && CellsDisjoint(uploads)
  }

  // An event number was handed out for this use of this slot.
  ghost predicate Issued(events: seq<Event>, birth: nat, o: Outcome) {
    exists i :: 0 <= i < |events| && events[i].birth == birth && events[i].outcome == o
  }

  ghost predicate SlotInv(events: seq<Event>, up: Upload, o: Outcome) {
    && (SlotOf(up, o) != 0 ==> Event(up.birth, o, SlotOf(up, o)) in events)
    && (up.encoder.StoreSlot? && up.encoder.outcome == o ==> Event(up.birth, o, up.encoder.value) in events)
    && (Issued(events, up.birth, o) ==>
          SlotOf(up, o) != 0 || (up.encoder.StoreSlot? && up.encoder.outcome == o))
  }

  ghost predicate EventsInv(counter: nat, uploads: map<Id, Upload>, births: nat, events: seq<Event>) {
    && counter <= COUNTER_MAX
    && (forall i :: 0 <= i < |events| ==> 0 < events[i].value <= counter && events[i].birth < births)
    && (forall i, j :: 0 <= i < j < |events| ==> events[i].value < events[j].value)
    && (forall i, j :: 0 <= i < j < |events| ==> events[i].birth != events[j].birth || events[i].outcome != events[j].outcome)
    && (forall u :: u in uploads ==>
          uploads[u].birth < births && SlotInv(events, uploads[u], Emitted) && SlotInv(events, uploads[u], Declined))
    && (forall u, v :: u in uploads && v in uploads && uploads[u].birth == uploads[v].birth ==> u == v)
  }

  ghost predicate UInv(y: System) {
    && Inv(y.c)
    && UploadsInv(y.c.s, y.c.h.lease, y.uploads)
    && EventsInv(y.counter, y.uploads, y.births, y.events)
  }

  // --------------------------------------------------- the machine's steps

  // What one machine step can do to a cell the owner leaves alone.
  ghost predicate CellProgress(c: Config, step: Step, c': Config, a: Addr) {
    && a in c.s.cells && a in c'.s.cells && a in c.h.lease && a in c'.h.lease
    && c'.s.cells[a].queued == c.s.cells[a].queued && c'.h.lease[a] == c.h.lease[a]
    && (c.s.cells[a].complete != 0 ==> c'.s.cells[a].complete != 0)
    && (c.s.cells[a].complete == 0 && c'.s.cells[a].complete != 0 ==>
          step.DoClaim? && step.p in c.s.publishers && c.s.publishers[step.p].cell == a)
  }

  lemma MachineMovesCell(c: Config, step: Step, c': Config, a: Addr)
    requires Steps(c, step, c') && a in c.s.cells && a in c.h.lease
    requires OwnerStep(step) ==> step.a != a
    requires step.ConsumeMark? ==> c.s.cells[c.s.consumer.first].complete != 0
    ensures CellProgress(c, step, c', a)
  {
  }

  // A publisher that leaves has left its cell published.
  lemma MachineMovesCall(c: Config, step: Step, c': Config, p: Pid)
    requires Steps(c, step, c') && p in c.s.publishers
    requires PublishersInv(c.s.cells, c.s.publishers, c.h.held + c.h.queue)
    requires c.s.publishers[p].cell in c.s.cells && c.s.cells[c.s.publishers[p].cell].queued
    ensures if p in c'.s.publishers
            then c'.s.publishers[p].cell == c.s.publishers[p].cell
            else c.s.publishers[p].cell in c'.s.cells && c'.s.cells[c.s.publishers[p].cell].complete != 0
  {
    MachineMovesPublisher(c, step, c', p);
    if p !in c'.s.publishers {
      MachineEndsCall(c, step, c', p);
    }
  }

  lemma MachineMovesPublisher(c: Config, step: Step, c': Config, p: Pid)
    requires Steps(c, step, c') && p in c.s.publishers
    ensures p in c'.s.publishers ==> c'.s.publishers[p].cell == c.s.publishers[p].cell
  {
  }

  lemma MachineEndsCall(c: Config, step: Step, c': Config, p: Pid)
    requires Steps(c, step, c') && p in c.s.publishers && p !in c'.s.publishers
    requires PublishersInv(c.s.cells, c.s.publishers, c.h.held + c.h.queue)
    requires c.s.publishers[p].cell in c.s.cells && c.s.cells[c.s.publishers[p].cell].queued
    ensures c.s.publishers[p].cell in c'.s.cells && c'.s.cells[c.s.publishers[p].cell].complete != 0
  {
    assert PublisherInv(c.s.cells, c.h.held + c.h.queue, c.s.publishers[p]);
  }

  lemma MachineKeepsPublishersOn(c: Config, step: Step, c': Config, a: Addr, p: Pid)
    requires Steps(c, step, c')
    requires step.StartPublish? ==> step.a != a
    requires p in c'.s.publishers && c'.s.publishers[p].cell == a
    ensures p in c.s.publishers && c.s.publishers[p].cell == a
  {
  }

  lemma MachineKeepsNotification(c: Config, step: Step, c': Config, u: Id, up: Upload, o: Outcome)
    requires Steps(c, step, c')
    requires PublishersInv(c.s.cells, c.s.publishers, c.h.held + c.h.queue)
    requires NotificationInv(c.s, c.h.lease, u, up, o) && CallInv(c.s.publishers, u, up)
    requires up.emittedCell != up.declinedCell
    requires OwnerStep(step) || step.StartPublish? ==> step.a != CellOf(up, o)
    requires step.ConsumeMark? ==> c.s.cells[c.s.consumer.first].complete != 0
    ensures NotificationInv(c'.s, c'.h.lease, u, up, o)
  {
    var a := CellOf(up, o);
    MachineMovesCell(c, step, c', a);
    forall p | p in c'.s.publishers && c'.s.publishers[p].cell == a
      ensures p == u
    {
      MachineKeepsPublishersOn(c, step, c', a, p);
    }
    if u in c.s.publishers {
      var n :| Calling(up.encoder, n) && c.s.publishers[u].cell == CellOf(up, n);
      if n == o {
        MachineMovesCall(c, step, c', u);
      }
    }
  }

  lemma MachineKeepsCall(c: Config, step: Step, c': Config, u: Id, up: Upload)
    requires Steps(c, step, c')
    requires PublishersInv(c.s.cells, c.s.publishers, c.h.held + c.h.queue)
    requires UploadInv(c.s, c.h.lease, u, up)
    requires step.StartPublish? ==> step.p != u
    ensures CallInv(c'.s.publishers, u, up)
  {
    if u in c'.s.publishers {
      assert u in c.s.publishers;
      MachineMovesCall(c, step, c', u);
    }
  }

  lemma MachineKeepsUpload(c: Config, step: Step, c': Config, u: Id, up: Upload)
    requires Steps(c, step, c')
    requires PublishersInv(c.s.cells, c.s.publishers, c.h.held + c.h.queue)
    requires UploadInv(c.s, c.h.lease, u, up)
    requires step.StartPublish? ==> step.p != u
    requires OwnerStep(step) || step.StartPublish? ==> step.a != up.emittedCell && step.a != up.declinedCell
    requires step.ConsumeMark? ==> c.s.cells[c.s.consumer.first].complete != 0
    ensures UploadInv(c'.s, c'.h.lease, u, up)
  {
    MachineKeepsNotification(c, step, c', u, up, Emitted);
    MachineKeepsNotification(c, step, c', u, up, Declined);
    MachineKeepsCall(c, step, c', u, up);
  }

  lemma MarksPublished(c: Config, step: Step)
    requires Inv(c) && Enabled(c.s, step) && Safe(c.s, step)
    ensures step.ConsumeMark? ==> c.s.cells[c.s.consumer.first].complete != 0
  {
    if step.ConsumeMark? {
      MarksWaiting(c.s.cells, c.s.head, c.h.queue, c.h.held, c.s.consumer);
    }
  }

  lemma MachineKeepsUploads(c: Config, step: Step, c': Config, uploads: map<Id, Upload>)
    requires Steps(c, step, c')
    requires PublishersInv(c.s.cells, c.s.publishers, c.h.held + c.h.queue)
    requires step.ConsumeMark? ==> c.s.cells[c.s.consumer.first].complete != 0
    requires UploadsInv(c.s, c.h.lease, uploads) && Respects(uploads, step)
    ensures UploadsInv(c'.s, c'.h.lease, uploads)
  {
    forall u | u in uploads
      ensures UploadInv(c'.s, c'.h.lease, u, uploads[u])
    {
      assert CellOf(uploads[u], Emitted) == uploads[u].emittedCell;
      assert CellOf(uploads[u], Declined) == uploads[u].declinedCell;
      MachineKeepsUpload(c, step, c', u, uploads[u]);
    }
  }

  lemma KeepsMachine(y: System, step: UStep, y': System)
    requires UInv(y) && step.Machine? && UNext(y, step, y')
    ensures UInv(y')
  {
    KeepsInv(y.c, step.step, y'.c);
    MarksPublished(y.c, step.step);
    MachineKeepsUploads(y.c, step.step, y'.c, y.uploads);
  }

  // -------------------------------------------------- the records' own steps

  lemma KeepsNewUpload(y: System, step: UStep, y': System)
    requires UInv(y) && step.NewUpload? && UNext(y, step, y')
    ensures UInv(y')
  {
    var up := y'.uploads[step.u];
    NewUploadIsValid(y, step, y');
    NewIsDisjoint(y.uploads, step.u, up);
    NewKeepsEvents(y.counter, y.uploads, y.births, y.events, step.u, up);
  }

  lemma NewUploadIsValid(y: System, step: UStep, y': System)
    requires step.NewUpload? && UNext(y, step, y')
    ensures UploadInv(y.c.s, y.c.h.lease, step.u, y'.uploads[step.u])
  {
  }

  lemma NewIsDisjoint(uploads: map<Id, Upload>, u: Id, up: Upload)
    requires CellsDisjoint(uploads) && u !in uploads && up.emittedCell != up.declinedCell
    requires !InUse(uploads, up.emittedCell) && !InUse(uploads, up.declinedCell)
    ensures CellsDisjoint(uploads[u := up])
  {
    forall v, o | v in uploads
      ensures CellOf(uploads[v], o) != up.emittedCell && CellOf(uploads[v], o) != up.declinedCell
    {
    }
  }

  lemma NewKeepsEvents(counter: nat, uploads: map<Id, Upload>, births: nat, events: seq<Event>, u: Id, up: Upload)
    requires EventsInv(counter, uploads, births, events)
    requires u !in uploads && up.birth == births && up.emitted == 0 && up.declined == 0 && up.encoder.Resting?
    ensures EventsInv(counter, uploads[u := up], births + 1, events)
  {
    assert SlotInv(events, up, Emitted) && SlotInv(events, up, Declined);
  }

  lemma KeepsRetire(y: System, step: UStep, y': System)
    requires UInv(y) && step.Retire? && UNext(y, step, y')
    ensures UInv(y')
  {
    RetireKeepsEvents(y.counter, y.uploads, y.births, y.events, step.u);
  }

  lemma RetireKeepsEvents(counter: nat, uploads: map<Id, Upload>, births: nat, events: seq<Event>, u: Id)
    requires EventsInv(counter, uploads, births, events)
    ensures EventsInv(counter, uploads - {u}, births, events)
  {
  }

  // Replacing one record by a later state of the same use.
  lemma PutKeepsUploads(s: State, lease: map<Addr, nat>, uploads: map<Id, Upload>, u: Id, up: Upload)
    requires UploadsInv(s, lease, uploads) && u in uploads
    requires up.emittedCell == uploads[u].emittedCell && up.declinedCell == uploads[u].declinedCell
    requires UploadInv(s, lease, u, up)
    ensures UploadsInv(s, lease, uploads[u := up])
  {
    DisjointAfterPut(uploads, u, up);
  }

  lemma PutKeepsEvents(counter: nat, uploads: map<Id, Upload>, births: nat, events: seq<Event>, u: Id, up: Upload)
    requires EventsInv(counter, uploads, births, events) && u in uploads
    requires up.birth == uploads[u].birth
    requires SlotInv(events, up, Emitted) && SlotInv(events, up, Declined)
    ensures EventsInv(counter, uploads[u := up], births, events)
  {
  }

  // Encoder moves that hand out no event number.
  predicate EncoderMove(step: UStep) {
    step.BeginPublish? || step.DoCheck? || step.DoStoreSlot? || step.BeginFinish? || step.DoReturn?
  }

  lemma MoveKeepsNotification(y: System, step: UStep, y': System, o: Outcome)
    requires EncoderMove(step) && UNext(y, step, y')
    requires UploadInv(y.c.s, y.c.h.lease, step.u, y.uploads[step.u])
    ensures NotificationInv(y'.c.s, y'.c.h.lease, step.u, y'.uploads[step.u], o)
  {
    var up := y.uploads[step.u];
    assert NotificationInv(y.c.s, y.c.h.lease, step.u, up, o);
    if step.DoReturn? && up.encoder.FinishingDeclined? && o.Emitted? {
      assert PastNotifying(up.encoder, o);
    }
  }

  lemma MoveKeepsCall(y: System, step: UStep, y': System)
    requires EncoderMove(step) && UNext(y, step, y')
    requires CallInv(y.c.s.publishers, step.u, y.uploads[step.u])
    ensures CallInv(y'.c.s.publishers, step.u, y'.uploads[step.u])
  {
  }

  lemma MoveKeepsSlot(y: System, step: UStep, y': System, o: Outcome)
    requires EncoderMove(step) && UNext(y, step, y')
    requires SlotInv(y.events, y.uploads[step.u], o)
    requires forall i :: 0 <= i < |y.events| ==> y.events[i].value > 0
    ensures SlotInv(y'.events, y'.uploads[step.u], o)
  {
  }

  lemma MoveKeepsUploads(y: System, step: UStep, y': System)
    requires UploadsInv(y.c.s, y.c.h.lease, y.uploads) && EncoderMove(step) && UNext(y, step, y')
    ensures UploadsInv(y.c.s, y.c.h.lease, y.uploads[step.u := y'.uploads[step.u]])
  {
    var u := step.u;
    assert UploadInv(y.c.s, y.c.h.lease, u, y.uploads[u]);
    MoveKeepsNotification(y, step, y', Emitted);
    MoveKeepsNotification(y, step, y', Declined);
    MoveKeepsCall(y, step, y');
    PutKeepsUploads(y.c.s, y.c.h.lease, y.uploads, u, y'.uploads[u]);
  }

  lemma MoveKeepsEvents(y: System, step: UStep, y': System)
    requires EventsInv(y.counter, y.uploads, y.births, y.events) && EncoderMove(step) && UNext(y, step, y')
    ensures EventsInv(y.counter, y.uploads[step.u := y'.uploads[step.u]], y.births, y.events)
  {
    MoveKeepsSlot(y, step, y', Emitted);
    MoveKeepsSlot(y, step, y', Declined);
    PutKeepsEvents(y.counter, y.uploads, y.births, y.events, step.u, y'.uploads[step.u]);
  }

  lemma KeepsEncoderMove(y: System, step: UStep, y': System)
    requires UInv(y) && EncoderMove(step) && UNext(y, step, y')
    ensures UInv(y')
  {
    assert y' == y.(uploads := y.uploads[step.u := y'.uploads[step.u]]);
    MoveKeepsUploads(y, step, y');
    MoveKeepsEvents(y, step, y');
  }

  // Issuing the next number adds an event larger than every earlier one.
  lemma CountKeepsSlot(events: seq<Event>, up: Upload, e: Event, o: Outcome)
    requires SlotInv(events, up, o)
    requires up.birth != e.birth || o != e.outcome
    ensures SlotInv(events + [e], up, o)
  {
    if Issued(events + [e], up.birth, o) {
      var i :| 0 <= i < |events + [e]| && (events + [e])[i].birth == up.birth && (events + [e])[i].outcome == o;
      assert events[i].birth == up.birth && events[i].outcome == o;
    }
  }

  lemma CountKeepsOwnSlot(events: seq<Event>, up: Upload, e: Event, o: Outcome)
    requires SlotInv(events, up, o) && up.encoder.Count? && SlotOf(up, up.encoder.outcome) == 0
    requires e.birth == up.birth && e.outcome == up.encoder.outcome
    ensures SlotInv(events + [e], up.(encoder := StoreSlot(e.outcome, e.value)), o)
  {
    var up' := up.(encoder := StoreSlot(e.outcome, e.value));
    assert (events + [e])[|events|] == Event(up'.birth, up'.encoder.outcome, up'.encoder.value);
    if o != e.outcome {
      CountKeepsSlot(events, up, e, o);
    }
  }

  lemma CountKeepsOrder(counter: nat, births: nat, events: seq<Event>, e: Event)
    requires forall i :: 0 <= i < |events| ==> 0 < events[i].value <= counter && events[i].birth < births
    requires forall i, j :: 0 <= i < j < |events| ==> events[i].value < events[j].value
    requires forall i, j :: 0 <= i < j < |events| ==> events[i].birth != events[j].birth || events[i].outcome != events[j].outcome
    requires !Issued(events, e.birth, e.outcome) && e.value == counter + 1
    ensures forall i, j :: 0 <= i < j < |events + [e]| ==> (events + [e])[i].value < (events + [e])[j].value
    ensures forall i, j :: 0 <= i < j < |events + [e]| ==>
                             (events + [e])[i].birth != (events + [e])[j].birth || (events + [e])[i].outcome != (events + [e])[j].outcome
  {
    var events' := events + [e];
    forall i, j | 0 <= i < j < |events'|
      ensures events'[i].value < events'[j].value
      ensures events'[i].birth != events'[j].birth || events'[i].outcome != events'[j].outcome
    {
      assert events'[i] == events[i];
      if j < |events| {
        assert events'[j] == events[j];
      }
    }
  }

  lemma CountKeepsSlots(y: System, u: Id, e: Event, v: Id)
    requires EventsInv(y.counter, y.uploads, y.births, y.events)
    requires u in y.uploads && y.uploads[u].encoder.Count? && v in y.uploads
    requires SlotOf(y.uploads[u], y.uploads[u].encoder.outcome) == 0
    requires e == Event(y.uploads[u].birth, y.uploads[u].encoder.outcome, y.counter + 1)
    ensures
      var uploads' := y.uploads[u := y.uploads[u].(encoder := StoreSlot(e.outcome, e.value))];
      SlotInv(y.events + [e], uploads'[v], Emitted) && SlotInv(y.events + [e], uploads'[v], Declined)
  {
    assert SlotInv(y.events, y.uploads[v], Emitted) && SlotInv(y.events, y.uploads[v], Declined);
    if v == u {
      CountKeepsOwnSlot(y.events, y.uploads[u], e, Emitted);
      CountKeepsOwnSlot(y.events, y.uploads[u], e, Declined);
    } else {
      CountKeepsSlot(y.events, y.uploads[v], e, Emitted);
      CountKeepsSlot(y.events, y.uploads[v], e, Declined);
    }
  }

  lemma CountKeepsEvents(y: System, u: Id, e: Event)
    requires EventsInv(y.counter, y.uploads, y.births, y.events)
    requires u in y.uploads && y.uploads[u].encoder.Count? && y.counter < COUNTER_MAX
    requires SlotOf(y.uploads[u], y.uploads[u].encoder.outcome) == 0
    requires e == Event(y.uploads[u].birth, y.uploads[u].encoder.outcome, y.counter + 1)
    ensures EventsInv(y.counter + 1, y.uploads[u := y.uploads[u].(encoder := StoreSlot(e.outcome, e.value))],
                      y.births, y.events + [e])
  {
    var uploads' := y.uploads[u := y.uploads[u].(encoder := StoreSlot(e.outcome, e.value))];
    assert SlotInv(y.events, y.uploads[u], Emitted) && SlotInv(y.events, y.uploads[u], Declined);
    CountKeepsOrder(y.counter, y.births, y.events, e);
    forall v | v in uploads'
      ensures SlotInv(y.events + [e], uploads'[v], Emitted) && SlotInv(y.events + [e], uploads'[v], Declined)
    {
      CountKeepsSlots(y, u, e, v);
    }
  }

  lemma CountKeepsUpload(s: State, lease: map<Addr, nat>, u: Id, up: Upload, encoder: Encoder)
    requires UploadInv(s, lease, u, up) && up.encoder.Count?
    requires encoder.Panicked? || (encoder.StoreSlot? && encoder.outcome == up.encoder.outcome && encoder.value > 0)
    ensures UploadInv(s, lease, u, up.(encoder := encoder))
    ensures SlotOf(up, up.encoder.outcome) == 0
  {
    assert NotificationInv(s, lease, u, up, Emitted) && NotificationInv(s, lease, u, up, Declined);
  }

  lemma CountEffect(y: System, step: UStep, y': System)
    requires step.DoCount? && UNext(y, step, y')
    ensures step.u in y.uploads && y.uploads[step.u].encoder.Count?
    ensures y' == if y.counter >= COUNTER_MAX then RanOut(y, step.u) else Counted(y, step.u)
  {
  }

  // The record asked for a number: the counter ran out, or it has one to store.
  ghost function RanOut(y: System, u: Id): System
    requires u in y.uploads
  {
    Put(y, u, y.uploads[u].(encoder := Panicked))
  }

  ghost function Counted(y: System, u: Id): System
    requires u in y.uploads && y.uploads[u].encoder.Count?
  {
    var up := y.uploads[u];
    var o := up.encoder.outcome;
    y.(uploads := y.uploads[u := up.(encoder := StoreSlot(o, y.counter + 1))],
       counter := y.counter + 1, events := y.events + [Event(up.birth, o, y.counter + 1)])
  }

  lemma RanOutKeeps(y: System, u: Id)
    requires UInv(y) && u in y.uploads && y.uploads[u].encoder.Count?
    ensures UInv(RanOut(y, u))
  {
    var up := y.uploads[u];
    CountKeepsUpload(y.c.s, y.c.h.lease, u, up, Panicked);
    PutKeepsUploads(y.c.s, y.c.h.lease, y.uploads, u, up.(encoder := Panicked));
    EncoderKeepsSlots(y.events, up, Panicked);
    PutKeepsEvents(y.counter, y.uploads, y.births, y.events, u, up.(encoder := Panicked));
  }

  lemma CountedKeeps(y: System, u: Id)
    requires UInv(y) && u in y.uploads && y.uploads[u].encoder.Count? && y.counter < COUNTER_MAX
    ensures UInv(Counted(y, u))
  {
    var up := y.uploads[u];
    var o := up.encoder.outcome;
    CountKeepsUpload(y.c.s, y.c.h.lease, u, up, StoreSlot(o, y.counter + 1));
    PutKeepsUploads(y.c.s, y.c.h.lease, y.uploads, u, up.(encoder := StoreSlot(o, y.counter + 1)));
    CountKeepsEvents(y, u, Event(up.birth, o, y.counter + 1));
  }

  lemma KeepsDoCount(y: System, step: UStep, y': System)
    requires UInv(y) && step.DoCount? && UNext(y, step, y')
    ensures UInv(y')
  {
    CountEffect(y, step, y');
    if y.counter >= COUNTER_MAX {
      RanOutKeeps(y, step.u);
    } else {
      CountedKeeps(y, step.u);
    }
  }

  lemma NotifyKeepsNotification(y: System, step: UStep, y': System, o: Outcome)
    requires step.DoNotify? && UNext(y, step, y')
    requires UploadInv(y.c.s, y.c.h.lease, step.u, y.uploads[step.u])
    ensures NotificationInv(y'.c.s, y'.c.h.lease, step.u, y'.uploads[step.u], o)
  {
    assert NotificationInv(y.c.s, y.c.h.lease, step.u, y.uploads[step.u], o);
  }

  lemma NotifyKeepsOthers(y: System, step: UStep, y': System, v: Id)
    requires step.DoNotify? && UNext(y, step, y')
    requires UploadsInv(y.c.s, y.c.h.lease, y.uploads) && v in y.uploads && v != step.u
    ensures UploadInv(y'.c.s, y'.c.h.lease, v, y.uploads[v])
  {
    var up := y.uploads[v];
    var a := CellOf(y.uploads[step.u], NotifyTarget(y.uploads[step.u].encoder));
    assert UploadInv(y.c.s, y.c.h.lease, v, up);
    assert CellOf(up, Emitted) != a && CellOf(up, Declined) != a;
  }

  lemma NotifyKeepsUploads(y: System, step: UStep, y': System)
    requires UploadsInv(y.c.s, y.c.h.lease, y.uploads) && step.DoNotify? && UNext(y, step, y')
    ensures UploadsInv(y'.c.s, y'.c.h.lease, y'.uploads)
  {
    var u := step.u;
    var up, up' := y.uploads[u], y'.uploads[u];
    var target := NotifyTarget(up.encoder);
    assert UploadInv(y.c.s, y.c.h.lease, u, up);
    NotifyKeepsNotification(y, step, y', Emitted);
    NotifyKeepsNotification(y, step, y', Declined);
    assert Calling(up'.encoder, target) && y'.c.s.publishers[u].cell == CellOf(up', target);
    forall v | v in y.uploads && v != u
      ensures UploadInv(y'.c.s, y'.c.h.lease, v, y'.uploads[v])
    {
      NotifyKeepsOthers(y, step, y', v);
    }
    DisjointAfterPut(y.uploads, u, up');
  }

  lemma EncoderKeepsSlots(events: seq<Event>, up: Upload, encoder: Encoder)
    requires SlotInv(events, up, Emitted) && SlotInv(events, up, Declined)
    requires !up.encoder.StoreSlot? && !encoder.StoreSlot?
    ensures SlotInv(events, up.(encoder := encoder), Emitted) && SlotInv(events, up.(encoder := encoder), Declined)
  {
  }

  lemma NotifyEffect(y: System, step: UStep, y': System) returns (start: Step)
    requires step.DoNotify? && UNext(y, step, y')
    ensures Steps(y.c, start, y'.c)
    ensures
      var up := y.uploads[step.u];
      y' == y.(c := y'.c, uploads := y.uploads[step.u := up.(encoder := CallStarted(up.encoder))])
  {
    var up := y.uploads[step.u];
    start := StartPublish(step.u, CellOf(up, NotifyTarget(up.encoder)), PUBLISHED);
  }

  lemma NotifyKeepsEvents(y: System, step: UStep, y': System)
    requires EventsInv(y.counter, y.uploads, y.births, y.events) && step.DoNotify? && UNext(y, step, y')
    ensures EventsInv(y'.counter, y'.uploads, y'.births, y'.events)
  {
    var _ := NotifyEffect(y, step, y');
    var up := y.uploads[step.u];
    EncoderKeepsSlots(y.events, up, CallStarted(up.encoder));
    PutKeepsEvents(y.counter, y.uploads, y.births, y.events, step.u, up.(encoder := CallStarted(up.encoder)));
  }

  lemma NotifyIsMachineStep(y: System, step: UStep, y': System)
    requires Inv(y.c) && step.DoNotify? && UNext(y, step, y')
    ensures Inv(y'.c)
  {
    var start := NotifyEffect(y, step, y');
    KeepsInv(y.c, start, y'.c);
  }

  lemma KeepsDoNotify(y: System, step: UStep, y': System)
    requires UInv(y) && step.DoNotify? && UNext(y, step, y')
    ensures UInv(y')
  {
    NotifyKeepsUploads(y, step, y');
    NotifyKeepsEvents(y, step, y');
    NotifyIsMachineStep(y, step, y');
  }

  lemma DisjointAfterPut(uploads: map<Id, Upload>, u: Id, up: Upload)
    requires CellsDisjoint(uploads) && u in uploads
    requires up.emittedCell == uploads[u].emittedCell && up.declinedCell == uploads[u].declinedCell
    ensures CellsDisjoint(uploads[u := up])
  {
    var uploads' := uploads[u := up];
    forall v, w, o, n | v in uploads' && w in uploads' && CellOf(uploads'[v], o) == CellOf(uploads'[w], n)
      ensures v == w && o == n
    {
      assert CellOf(uploads'[v], o) == CellOf(uploads[v], o);
      assert CellOf(uploads'[w], n) == CellOf(uploads[w], n);
    }
  }

  lemma KeepsUInv(y: System, step: UStep, y': System)
    requires UInv(y) && UNext(y, step, y')
    ensures UInv(y')
  {
    if step.Machine? {
      KeepsMachine(y, step, y');
    } else if step.NewUpload? {
      KeepsNewUpload(y, step, y');
    } else if step.Retire? {
      KeepsRetire(y, step, y');
    } else if step.DoCount? {
      KeepsDoCount(y, step, y');
    } else if step.DoNotify? {
      KeepsDoNotify(y, step, y');
    } else {
      KeepsEncoderMove(y, step, y');
    }
  }

  lemma {:induction false} URunKeepsInv(run: seq<System>, steps: seq<UStep>, i: nat)
    requires IsURun(run, steps) && i <= |steps|
    ensures UInv(run[i])
  {
    if i == 0 {
      InitKeepsInv(run[0].c);
    } else {
      URunKeepsInv(run, steps, i - 1);
      assert UNext(run[i - 1], steps[i - 1], run[i - 1 + 1]);
      KeepsUInv(run[i - 1], steps[i - 1], run[i]);
    }
  }

  lemma UReachableInv(y: System)
    requires UReachable(y)
    ensures UInv(y)
  {
    var run, steps :| IsURun(run, steps) && run[|steps|] == y;
    URunKeepsInv(run, steps, |steps|);
  }

  // ------------------------------------------------------------- theorems

  // Event numbers are nonzero and increase in the order the counter was updated.
  lemma EventNumbersIncrease(y: System)
    requires UReachable(y)
    ensures forall i :: 0 <= i < |y.events| ==> 0 < y.events[i].value
    ensures forall i, j :: 0 <= i < j < |y.events| ==> y.events[i].value < y.events[j].value
  {
    UReachableInv(y);
  }

  // A visible slot holds the number issued for it, and no two slots hold the same one.
  lemma SlotsHoldTheirOwnEvents(y: System, u: Id, o: Outcome, v: Id, n: Outcome)
    requires UReachable(y) && u in y.uploads && v in y.uploads
    requires SlotOf(y.uploads[u], o) != 0
    ensures Event(y.uploads[u].birth, o, SlotOf(y.uploads[u], o)) in y.events
    ensures SlotOf(y.uploads[v], n) == SlotOf(y.uploads[u], o) ==> u == v && o == n
  {
    UReachableInv(y);
    assert SlotInv(y.events, y.uploads[u], Emitted) && SlotInv(y.events, y.uploads[u], Declined);
    assert SlotInv(y.events, y.uploads[v], Emitted) && SlotInv(y.events, y.uploads[v], Declined);
    if SlotOf(y.uploads[v], n) == SlotOf(y.uploads[u], o) {
      var e, f := Event(y.uploads[u].birth, o, SlotOf(y.uploads[u], o)), Event(y.uploads[v].birth, n, SlotOf(y.uploads[v], n));
      SameNumberSameEvent(y.events, e, f);
    }
  }

  lemma SameNumberSameEvent(events: seq<Event>, e: Event, f: Event)
    requires forall i, j :: 0 <= i < j < |events| ==> events[i].value < events[j].value
    requires e in events && f in events && e.value == f.value
    ensures e == f
  {
    var i :| 0 <= i < |events| && events[i] == e;
    var j :| 0 <= j < |events| && events[j] == f;
  }

  lemma ReachableRecord(y: System, u: Id)
    requires UReachable(y) && u in y.uploads
    ensures UploadInv(y.c.s, y.c.h.lease, u, y.uploads[u])
    ensures SlotInv(y.events, y.uploads[u], Emitted) && SlotInv(y.events, y.uploads[u], Declined)
  {
    UReachableInv(y);
  }

  lemma RecordSlot(s: State, lease: map<Addr, nat>, events: seq<Event>, u: Id, up: Upload, o: Outcome)
    requires UploadInv(s, lease, u, up) && SlotInv(events, up, Emitted) && SlotInv(events, up, Declined)
    ensures NotificationInv(s, lease, u, up, o) && SlotInv(events, up, o)
  {
  }

  // The encoder never calls on a released cell, and never while a call is running.
  lemma NotifyIsAlwaysEnabled(y: System, u: Id)
    requires UReachable(y) && u in y.uploads
    requires y.uploads[u].encoder.Notify? || y.uploads[u].encoder.FinishEmitted? || y.uploads[u].encoder.FinishDeclined?
    ensures UEnabled(y, DoNotify(u))
  {
    ReachableRecord(y, u);
    RecordSlot(y.c.s, y.c.h.lease, y.events, u, y.uploads[u], NotifyTarget(y.uploads[u].encoder));
  }

  // No step changes a slot that is already set; a set needs an issued number.
  lemma SlotIsSetOnce(y: System, step: UStep, y': System, u: Id, o: Outcome)
    requires UReachable(y) && UNext(y, step, y') && u in y.uploads && u in y'.uploads
    ensures y'.uploads[u].birth == y.uploads[u].birth
    ensures SlotOf(y'.uploads[u], o) == SlotOf(y.uploads[u], o)
            || (SlotOf(y.uploads[u], o) == 0 && Event(y.uploads[u].birth, o, SlotOf(y'.uploads[u], o)) in y.events)
  {
    ReachableRecord(y, u);
    RecordSlot(y.c.s, y.c.h.lease, y.events, u, y.uploads[u], o);
  }

  // A notification that has been consumed announces a visible slot, or comes from a
  // record that publishes no more events.
  lemma ConsumedNotificationIsFinal(y: System, u: Id, o: Outcome)
    requires UReachable(y) && u in y.uploads
    requires CellOf(y.uploads[u], o) in y.c.s.cells && IsComplete(y.c.s.cells[CellOf(y.uploads[u], o)])
    ensures SlotOf(y.uploads[u], o) != 0 || Finishing(y.uploads[u].encoder)
  {
    ReachableRecord(y, u);
    RecordSlot(y.c.s, y.c.h.lease, y.events, u, y.uploads[u], o);
  }

  lemma FinishingStep(y: System, step: UStep, y': System, u: Id)
    requires UNext(y, step, y') && step != Retire(u)
    requires u in y.uploads && Finishing(y.uploads[u].encoder)
    ensures u in y'.uploads && Finishing(y'.uploads[u].encoder)
    ensures y'.uploads[u].emitted == y.uploads[u].emitted && y'.uploads[u].declined == y.uploads[u].declined
  {
  }

  // Once finishing, a record's slots never change again until it is retired: a slot that
  // is zero when its notification is consumed stays zero forever.
  lemma {:induction false} FinishedSlotsAreForever(run: seq<System>, steps: seq<UStep>, i: nat, j: nat, u: Id)
    requires IsURun(run, steps) && i <= j <= |steps|
    requires u in run[i].uploads && Finishing(run[i].uploads[u].encoder)
    requires forall k :: i <= k < j ==> steps[k] != Retire(u)
    ensures u in run[j].uploads && Finishing(run[j].uploads[u].encoder)
    ensures run[j].uploads[u].emitted == run[i].uploads[u].emitted
    ensures run[j].uploads[u].declined == run[i].uploads[u].declined
    decreases j - i
  {
    if i < j {
      assert UNext(run[i], steps[i], run[i + 1]);
      FinishingStep(run[i], steps[i], run[i + 1], u);
      FinishedSlotsAreForever(run, steps, i + 1, j, u);
    }
  }

  lemma URunIsReachable(run: seq<System>, steps: seq<UStep>, i: nat)
    requires IsURun(run, steps) && i <= |steps|
    ensures UReachable(run[i])
  {
    assert IsURun(run[..i + 1], steps[..i]);
    assert run[..i + 1][|steps[..i]|] == run[i];
  }

  lemma StaysRegistered(y: System, step: UStep, y': System, u: Id)
    requires UNext(y, step, y') && u in y.uploads && step != Retire(u)
    ensures u in y'.uploads
  {
  }

  lemma SetSlotStep(run: seq<System>, steps: seq<UStep>, n: nat, u: Id, o: Outcome)
    requires IsURun(run, steps) && n < |steps| && steps[n] != Retire(u)
    requires u in run[n].uploads && SlotOf(run[n].uploads[u], o) != 0
    ensures u in run[n + 1].uploads && SlotOf(run[n + 1].uploads[u], o) == SlotOf(run[n].uploads[u], o)
  {
    assert UNext(run[n], steps[n], run[n + 1]);
    URunIsReachable(run, steps, n);
    StaysRegistered(run[n], steps[n], run[n + 1], u);
    SlotIsSetOnce(run[n], steps[n], run[n + 1], u, o);
  }

  lemma {:induction false} SetSlotIsForever(run: seq<System>, steps: seq<UStep>, i: nat, j: nat, u: Id, o: Outcome)
    requires IsURun(run, steps) && i <= j <= |steps|
    requires u in run[i].uploads && SlotOf(run[i].uploads[u], o) != 0
    requires forall k :: i <= k < j ==> steps[k] != Retire(u)
    ensures u in run[j].uploads && SlotOf(run[j].uploads[u], o) == SlotOf(run[i].uploads[u], o)
    decreases j - i
  {
    if i < j {
      SetSlotStep(run, steps, i, u, o);
      SetSlotIsForever(run, steps, i + 1, j, u, o);
    }
  }

  /**
    Over any run, from the instant a notification is consumed its slot, set or not, keeps its
    value until the record is retired: whoever looks after the notification sees the end.
  */
  lemma ConsumedSlotIsForever(run: seq<System>, steps: seq<UStep>, i: nat, j: nat, u: Id, o: Outcome)
    requires IsURun(run, steps) && i <= j <= |steps| && u in run[i].uploads
    requires CellOf(run[i].uploads[u], o) in run[i].c.s.cells && IsComplete(run[i].c.s.cells[CellOf(run[i].uploads[u], o)])
    requires forall k :: i <= k < j ==> steps[k] != Retire(u)
    ensures u in run[j].uploads && SlotOf(run[j].uploads[u], o) == SlotOf(run[i].uploads[u], o)
  {
    URunIsReachable(run, steps, i);
    ConsumedNotificationIsFinal(run[i], u, o);
    if SlotOf(run[i].uploads[u], o) != 0 {
      SetSlotIsForever(run, steps, i, j, u, o);
    } else {
      FinishedSlotsAreForever(run, steps, i, j, u);
    }
  }

  // After `finish_notifications`, once the queue is drained, both of the record's
  // notifications have been delivered, each exactly once.
  lemma FinishDeliversBoth(y: System, u: Id, o: Outcome)
    requires UReachable(y) && u in y.uploads && y.uploads[u].encoder.Finished?
    requires LeaseTheorems.Quiescent(y.c.s)
    ensures
      var lease := LeaseOf(y.uploads[u], o);
      && lease in y.c.h.won
      && exists k :: 0 <= k < |y.c.h.delivered| && y.c.h.delivered[k] == Delivery(lease, y.c.h.won[lease].token)
                     && (forall n :: 0 <= n < |y.c.h.delivered| && n != k ==> y.c.h.delivered[n].lease != lease)
  {
    FinishedIsDelivered(y, u, o);
    var lease := LeaseOf(y.uploads[u], o);
    var k :| 0 <= k < |y.c.h.delivered| && y.c.h.delivered[k] == Delivery(lease, y.c.h.won[lease].token);
  }

  lemma FinishedIsDelivered(y: System, u: Id, o: Outcome)
    requires UReachable(y) && u in y.uploads && y.uploads[u].encoder.Finished?
    requires LeaseTheorems.Quiescent(y.c.s)
    ensures
      var lease := LeaseOf(y.uploads[u], o);
      lease in y.c.h.won && Delivery(lease, y.c.h.won[lease].token) in y.c.h.delivered
    ensures forall i, j :: 0 <= i < j < |y.c.h.delivered| ==> y.c.h.delivered[i].lease != y.c.h.delivered[j].lease
  {
    UReachableInv(y);
    var up := y.uploads[u];
    assert UploadInv(y.c.s, y.c.h.lease, u, up);
    FinishedIsWon(y.c, u, up, o);
    LeaseTheorems.QuiescentIsDelivered(y.c, LeaseOf(up, o));
  }

  lemma FinishedIsWon(c: Config, u: Id, up: Upload, o: Outcome)
    requires UploadInv(c.s, c.h.lease, u, up) && up.encoder.Finished?
    requires LeasesInv(c.s.cells, c.h.lease, c.h.won, c.h.delivered)
    ensures LeaseOf(up, o) in c.h.won && c.h.won[LeaseOf(up, o)].queued
  {
    assert NotificationInv(c.s, c.h.lease, u, up, o);
    var a := CellOf(up, o);
    assert LeaseInv(c.s.cells[a], c.h.lease[a], c.h.won, c.h.delivered);
  }
}
