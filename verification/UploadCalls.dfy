/**
  Whole calls of an upload record's encoder (unix/shared/src/upload_feedback.rs), with the
  steps of every other thread in between: what `publish` of one outcome does to the record,
  and what it leaves alone.
*/
module UploadCalls {
  import opened Leases
  import opened LeaseInvariants
  import opened Uploads

  function Other(o: Outcome): Outcome {
    if o.Emitted? then Declined else Emitted
  }

  // Inside a `publish` of this outcome.
  predicate Publishing(e: Encoder, o: Outcome) {
    !e.Resting? && (e == Check(o) || e == Count(o) || (e.StoreSlot? && e.outcome == o) || e == Notify(o) || e == Notifying(o))
  }

  // The same use of a record, with the outcome not published untouched.
  predicate SameUse(up: Upload, up': Upload, o: Outcome) {
    && up'.birth == up.birth
    && up'.emittedCell == up.emittedCell && up'.declinedCell == up.declinedCell
    && SlotOf(up', Other(o)) == SlotOf(up, Other(o))
  }

  // Since there were `start` events, those of this use are of this outcome.
  ghost predicate OnlyOf(start: nat, events: seq<Event>, birth: nat, o: Outcome) {
    forall n :: start <= n < |events| && events[n].birth == birth ==> events[n].outcome == o
  }

  ghost predicate NoneOf(start: nat, events: seq<Event>, birth: nat) {
    forall n :: start <= n < |events| ==> events[n].birth != birth
  }

  ghost predicate CountedSince(start: nat, events: seq<Event>, e: Event) {
    exists n :: start <= n < |events| && events[n] == e
  }

  // How far a `publish` that found the record as `up` has come.
  ghost predicate Reached(start: nat, events: seq<Event>, up: Upload, up': Upload, o: Outcome) {
    match up'.encoder
    case Check(_) => SlotOf(up', o) == SlotOf(up, o) && NoneOf(start, events, up.birth)
    case Count(_) => SlotOf(up', o) == SlotOf(up, o) == 0 && NoneOf(start, events, up.birth)
    case StoreSlot(_, value) => SlotOf(up', o) == SlotOf(up, o) == 0 && CountedSince(start, events, Event(up.birth, o, value))
    case _ => SlotOf(up, o) == 0 && CountedSince(start, events, Event(up.birth, o, SlotOf(up', o)))
  }

  // The record's `publish` of `o`, begun when it was `up` and `start` events were counted, is on its way.
  ghost predicate OnItsWay(start: nat, up: Upload, y: System, u: Id, o: Outcome) {
    && u in y.uploads && start <= |y.events|
    && SameUse(up, y.uploads[u], o) && Publishing(y.uploads[u].encoder, o)
    && OnlyOf(start, y.events, up.birth, o) && Reached(start, y.events, up, y.uploads[u], o)
  }

  /**
    What a `publish` that returned has done. A slot that was set stays, and nothing is counted.
    One that was not holds the number counted for it meanwhile, and its cell is published.
  */
  ghost predicate Returned(start: nat, up: Upload, y: System, u: Id, o: Outcome) {
    && u in y.uploads && start <= |y.events|
    && SameUse(up, y.uploads[u], o) && OnlyOf(start, y.events, up.birth, o)
    && (if SlotOf(up, o) != 0 then SlotOf(y.uploads[u], o) == SlotOf(up, o) && NoneOf(start, y.events, up.birth)
        else && SlotOf(y.uploads[u], o) != 0
             && CountedSince(start, y.events, Event(up.birth, o, SlotOf(y.uploads[u], o)))
             && CellOf(up, o) in y.c.s.cells && y.c.s.cells[CellOf(up, o)].complete != 0)
  }

  // The counter had run out: the record is left as it was.
  ghost predicate GaveOut(start: nat, up: Upload, y: System, u: Id, o: Outcome) {
    && u in y.uploads && start <= |y.events|
    && SameUse(up, y.uploads[u], o) && SlotOf(y.uploads[u], o) == SlotOf(up, o) == 0 && NoneOf(start, y.events, up.birth)
  }

  // ----------------------------------------------------------- one step of it

  // A step that is not this record's own.
  lemma ElsewhereKeeps(y: System, step: UStep, y': System, u: Id)
    requires UNext(y, step, y') && u in y.uploads && (step.Machine? || step.u != u)
    ensures u in y'.uploads && y'.uploads[u] == y.uploads[u]
  {
  }

  lemma ElsewhereCounts(y: System, step: UStep, y': System, u: Id)
    requires UReachable(y) && UNext(y, step, y') && u in y.uploads && (step.Machine? || step.u != u)
    ensures y'.events == y.events
            || exists e :: y'.events == y.events + [e] && e.birth != y.uploads[u].birth
  {
    CountsItsOwn(y, step, y');
    if step.DoCount? {
      ReachableBirths(y, step.u, u);
    }
  }

  lemma CountsItsOwn(y: System, step: UStep, y': System)
    requires UNext(y, step, y')
    ensures step.DoCount? ==> step.u in y.uploads
    ensures y'.events == y.events
            || (step.DoCount? && exists e :: y'.events == y.events + [e] && e.birth == y.uploads[step.u].birth)
  {
  }

  lemma ReachableBirths(y: System, u: Id, v: Id)
    requires UReachable(y) && u in y.uploads && v in y.uploads && u != v
    ensures y.uploads[u].birth != y.uploads[v].birth
  {
    UReachableInv(y);
    BirthsDiffer(y.counter, y.uploads, y.births, y.events, u, v);
  }

  lemma BirthsDiffer(counter: nat, uploads: map<Id, Upload>, births: nat, events: seq<Event>, u: Id, v: Id)
    requires EventsInv(counter, uploads, births, events) && u in uploads && v in uploads && u != v
    ensures uploads[u].birth != uploads[v].birth
  {
  }

  // One more event, of another use or of this one's outcome.
  lemma OneMoreEvent(start: nat, events: seq<Event>, e: Event, birth: nat, o: Outcome)
    requires start <= |events|
    ensures OnlyOf(start, events, birth, o) && (e.birth == birth ==> e.outcome == o) ==> OnlyOf(start, events + [e], birth, o)
    ensures NoneOf(start, events, birth) && e.birth != birth ==> NoneOf(start, events + [e], birth)
    ensures forall f :: CountedSince(start, events, f) ==> CountedSince(start, events + [e], f)
    ensures CountedSince(start, events + [e], e)
  {
    var all := events + [e];
    assert all[|events|] == e;
    forall f | CountedSince(start, events, f) ensures CountedSince(start, all, f) {
      var n :| start <= n < |events| && events[n] == f;
      assert all[n] == f;
    }
  }

  lemma ElsewhereOnItsWay(start: nat, up: Upload, y: System, step: UStep, y': System, u: Id, o: Outcome)
    requires UReachable(y) && UNext(y, step, y') && OnItsWay(start, up, y, u, o) && (step.Machine? || step.u != u)
    ensures OnItsWay(start, up, y', u, o)
  {
    ElsewhereKeeps(y, step, y', u);
    ElsewhereCounts(y, step, y', u);
    if y'.events != y.events {
      var e :| y'.events == y.events + [e] && e.birth != y.uploads[u].birth;
      OneMoreEvent(start, y.events, e, up.birth, o);
    }
  }

  // What the record's own step does, by where its encoder is.
  lemma OwnStep(y: System, step: UStep, y': System, u: Id, o: Outcome)
    requires UNext(y, step, y') && u in y.uploads && !step.Machine? && step.u == u && Publishing(y.uploads[u].encoder, o)
    ensures u in y'.uploads
    ensures
      var up := y.uploads[u];
      match up.encoder
      case Check(_) =>
        && y'.uploads[u] == up.(encoder := if SlotOf(up, o) != 0 then Resting else Count(o)) && y'.events == y.events
      case Count(_) =>
        if y.counter >= COUNTER_MAX then y'.uploads[u] == up.(encoder := Panicked) && y'.events == y.events
        else && y'.uploads[u] == up.(encoder := StoreSlot(o, y.counter + 1))
             && y'.events == y.events + [Event(up.birth, o, y.counter + 1)]
      case StoreSlot(_, value) =>
        y'.uploads[u] == WithSlot(up, o, value).(encoder := Notify(o)) && y'.events == y.events
      case Notify(_) =>
        && y'.uploads[u] == up.(encoder := Notifying(o)) && y'.events == y.events
        && u in y'.c.s.publishers && y'.c.s.publishers[u] == LoadQueue(CellOf(up, o), PUBLISHED)
      case _ =>
        && y'.uploads[u] == up.(encoder := Resting) && y'.events == y.events && y'.c == y.c && u !in y.c.s.publishers
  {
  }

  lemma SlotsApart(up: Upload, o: Outcome, value: nat)
    ensures SlotOf(WithSlot(up, o, value), o) == value && SlotOf(WithSlot(up, o, value), Other(o)) == SlotOf(up, Other(o))
  {
  }

  lemma OwnOnItsWay(start: nat, up: Upload, y: System, step: UStep, y': System, u: Id, o: Outcome)
    requires UNext(y, step, y') && OnItsWay(start, up, y, u, o) && !step.Machine? && step.u == u
    requires Publishing(y'.uploads[u].encoder, o)
    ensures OnItsWay(start, up, y', u, o)
  {
    OwnStep(y, step, y', u, o);
    var was := y.uploads[u];
    if was.encoder.Count? {
      OneMoreEvent(start, y.events, Event(up.birth, o, y.counter + 1), up.birth, o);
    } else if was.encoder.StoreSlot? {
      SlotsApart(was, o, was.encoder.value);
    }
  }

  lemma OwnReturns(start: nat, up: Upload, y: System, step: UStep, y': System, u: Id, o: Outcome)
    requires UReachable(y) && UNext(y, step, y') && OnItsWay(start, up, y, u, o) && !step.Machine? && step.u == u
    requires y'.uploads[u].encoder.Resting?
    ensures Returned(start, up, y', u, o)
  {
    OwnStep(y, step, y', u, o);
    if y.uploads[u].encoder.Notifying? {
      ReturnedIsPublished(y, u, o);
    }
  }

  lemma ReturnedIsPublished(y: System, u: Id, o: Outcome)
    requires UReachable(y) && u in y.uploads && y.uploads[u].encoder == Notifying(o) && u !in y.c.s.publishers
    ensures SlotOf(y.uploads[u], o) != 0
    ensures CellOf(y.uploads[u], o) in y.c.s.cells && y.c.s.cells[CellOf(y.uploads[u], o)].complete != 0
  {
    ReachableRecord(y, u);
    RecordSlot(y.c.s, y.c.h.lease, y.events, u, y.uploads[u], o);
  }

  // --------------------------------------------------------------- the call

  // From its beginning at `i` the call has not returned or panicked before `k`.
  ghost predicate StillPublishing(run: seq<System>, i: nat, k: nat, u: Id) {
    && i < k < |run|
    && forall n :: i < n < k ==> u in run[n].uploads && !run[n].uploads[u].encoder.Resting? && !run[n].uploads[u].encoder.Panicked?
  }

  lemma Begins(run: seq<System>, steps: seq<UStep>, i: nat, u: Id, o: Outcome)
    requires IsURun(run, steps) && i < |steps| && steps[i] == BeginPublish(u, o)
    ensures u in run[i].uploads && OnItsWay(|run[i].events|, run[i].uploads[u], run[i + 1], u, o)
  {
    assert UNext(run[i], steps[i], run[i + 1]);
  }

  lemma GoesOn(start: nat, up: Upload, run: seq<System>, steps: seq<UStep>, n: nat, u: Id, o: Outcome)
    requires IsURun(run, steps) && n < |steps| && OnItsWay(start, up, run[n], u, o)
    ensures OnItsWay(start, up, run[n + 1], u, o)
            || (u in run[n + 1].uploads && run[n + 1].uploads[u].encoder.Resting? && Returned(start, up, run[n + 1], u, o))
            || (u in run[n + 1].uploads && run[n + 1].uploads[u].encoder.Panicked? && GaveOut(start, up, run[n + 1], u, o)
                && run[n].counter == COUNTER_MAX)
  {
    assert UNext(run[n], steps[n], run[n + 1]);
    URunIsReachable(run, steps, n);
    if steps[n].Machine? || steps[n].u != u {
      ElsewhereOnItsWay(start, up, run[n], steps[n], run[n + 1], u, o);
    } else {
      OwnStep(run[n], steps[n], run[n + 1], u, o);
      CounterBound(run[n]);
      if run[n + 1].uploads[u].encoder.Resting? {
        OwnReturns(start, up, run[n], steps[n], run[n + 1], u, o);
      } else if !run[n + 1].uploads[u].encoder.Panicked? {
        OwnOnItsWay(start, up, run[n], steps[n], run[n + 1], u, o);
      }
    }
  }

  lemma CounterBound(y: System)
    requires UReachable(y)
    ensures y.counter <= COUNTER_MAX
  {
    UReachableInv(y);
  }

  lemma {:induction false} PublishGoesOn(run: seq<System>, steps: seq<UStep>, i: nat, k: nat, u: Id, o: Outcome)
    requires IsURun(run, steps) && StillPublishing(run, i, k, u) && k <= |steps| && steps[i] == BeginPublish(u, o)
    ensures u in run[i].uploads && u in run[k].uploads
    ensures
      var up := run[i].uploads[u];
      if run[k].uploads[u].encoder.Resting? then Returned(|run[i].events|, up, run[k], u, o)
      else if run[k].uploads[u].encoder.Panicked? then
        GaveOut(|run[i].events|, up, run[k], u, o) && run[k - 1].counter == COUNTER_MAX
      else OnItsWay(|run[i].events|, up, run[k], u, o)
    decreases k
  {
    Begins(run, steps, i, u, o);
    if k > i + 1 {
      PublishGoesOn(run, steps, i, k - 1, u, o);
      GoesOn(|run[i].events|, run[i].uploads[u], run, steps, k - 1, u, o);
    }
  }

  /**
    `publish` of an outcome that returns, whatever the other threads do meanwhile: the other
    outcome's slot is as it was and no number was counted for it. If the outcome's own slot was
    set, so is nothing else; if not, the slot holds the number counted for it during the call,
    and its own notification cell is published.
  */
  lemma PublishSetsItsOwnSlot(run: seq<System>, steps: seq<UStep>, i: nat, k: nat, u: Id, o: Outcome)
    requires IsURun(run, steps) && StillPublishing(run, i, k, u) && k <= |steps| && steps[i] == BeginPublish(u, o)
    requires u in run[k].uploads && run[k].uploads[u].encoder.Resting?
    ensures u in run[i].uploads && Returned(|run[i].events|, run[i].uploads[u], run[k], u, o)
  {
    PublishGoesOn(run, steps, i, k, u, o);
  }

  // It panics only over an exhausted counter, and then has changed nothing of the record.
  lemma PublishPanicsOnlyAtTheEnd(run: seq<System>, steps: seq<UStep>, i: nat, k: nat, u: Id, o: Outcome)
    requires IsURun(run, steps) && StillPublishing(run, i, k, u) && k <= |steps| && steps[i] == BeginPublish(u, o)
    requires u in run[k].uploads && run[k].uploads[u].encoder.Panicked?
    ensures u in run[i].uploads && GaveOut(|run[i].events|, run[i].uploads[u], run[k], u, o) && run[k - 1].counter == COUNTER_MAX
  {
    PublishGoesOn(run, steps, i, k, u, o);
  }

  // The one cell it publishes is the outcome's own, and as published, not rejected.
  lemma PublishNotifiesItsOwnCell(run: seq<System>, steps: seq<UStep>, i: nat, k: nat, u: Id, o: Outcome)
    requires IsURun(run, steps) && StillPublishing(run, i, k + 1, u) && k < |steps| && i < k
    requires steps[i] == BeginPublish(u, o) && steps[k] == DoNotify(u)
    ensures u in run[i].uploads && u in run[k + 1].c.s.publishers
    ensures run[k + 1].c.s.publishers[u] == LoadQueue(CellOf(run[i].uploads[u], o), PUBLISHED)
  {
    PublishGoesOn(run, steps, i, k, u, o);
    assert UNext(run[k], steps[k], run[k + 1]);
    OwnStep(run[k], steps[k], run[k + 1], u, o);
  }
}
