/**
  The reader of a test binary's standard output (unix/e2e/src/libtest.rs). A result is
  three writes, the name, the outcome word and the newline, and other text may land
  between any two of them.
*/
module Libtest {
  import opened TestEvents
  import opened Text
  import opened Wrappers

  // ------------------------------------------------------------- the summary

  function Tallied(entry: string, so: Summary): Summary {
    match SplitOnce(Trim(entry), " ")
    case None => so
    case Some((count, what)) =>
      match ParseU32(count)
      case None => so
      case Some(n) =>
        if what == "passed" then so.(passed := n)
        else if what == "failed" then so.(failed := n)
        else if what == "ignored" then so.(ignored := n)
        else if what == "filtered out" then so.(filteredOut := n)
        else so
  }

  function TalliedAll(entries: seq<string>, so: Summary): Summary
    decreases |entries|
  {
    if entries == [] then so else TalliedAll(entries[1..], Tallied(entries[0], so))
  }

  function Entries(counts: string): seq<string> {
    var verdict := SplitOnce(counts, ". ");
    Split(if verdict.None? then counts else verdict.value.1, "; ")
  }

  function SummaryOf(counts: string): Summary {
    TalliedAll(Entries(counts), Summary(0, 0, 0, 0))
  }

  method ParseSummary(counts: string) returns (summary: Summary)
    ensures summary == SummaryOf(counts)
  {
    var entries := Entries(counts);
    summary := Summary(0, 0, 0, 0);
    assert entries[0..] == entries;
    for i := 0 to |entries|
      invariant TalliedAll(entries[i..], summary) == SummaryOf(counts)
    {
      assert entries[i..][1..] == entries[i + 1..];
      summary := Tallied(entries[i], summary);
    }
  }

  // -------------------------------------------------------------- one reading

  predicate WordChar(alphanumeric: char -> bool, c: char) {
    alphanumeric(c) || c == '_'
  }

  // `word_after`: what follows `word` when the text opens with it as a whole word.
  function WordAfter(alphanumeric: char -> bool, word: string, tail: string): (r: Option<string>)
    ensures r.Some? ==> |r.value| + |word| <= |tail|
  {
    if !(word <= tail) then None
    else
      var rest := tail[|word|..];
      if rest != [] && WordChar(alphanumeric, rest[0]) then None else Some(Trim(rest))
  }

  // `parse_outcome`: nothing is left behind `ignored`, which carries a free-text reason.
  function ParseOutcome(alphanumeric: char -> bool, tail: string): (r: Option<(Outcome, string)>)
    ensures r.Some? ==> |r.value.1| < |tail|
  {
    var ok := WordAfter(alphanumeric, "ok", tail);
    if ok.Some? then Some((Outcome.Ok, ok.value))
    else
      var failed := WordAfter(alphanumeric, "FAILED", tail);
      if failed.Some? then Some((Failed, failed.value))
      else if "ignored" <= tail then Some((Ignored, ""))
      else None
  }

  const RESULT: string := "test result: "
  const TEST: string := "test "
  const DOTS: string := " ... "

  // `test NAME ... ` at the front of a line, and the rest.
  function Opening(line: string): (r: Option<(Name, string)>)
    ensures r.Some? ==> line == TEST + (r.value.0 + DOTS + r.value.1)
  {
    if TEST <= line then SplitOnce(line[|TEST|..], DOTS) else None
  }

  // What the reader makes of the text: a result on one line, an opening left open, an
  // outcome closing the one left open, and the counts.
  datatype Mark =
    | Inline(name: Name, outcome: Outcome)
    | Opened(name: Name)
    | Closed(name: Name, outcome: Outcome)
    | Counted(summary: Summary)

  function EventOf(mark: Mark): Event {
    match mark
    case Inline(name, outcome) => Finished(name, outcome)
    case Opened(name) => Started(name)
    case Closed(name, outcome) => Finished(name, outcome)
    case Counted(summary) => Tally(summary)
  }

  function EventsOf(marks: seq<Mark>): seq<Event> {
    seq(|marks|, i requires 0 <= i < |marks| => EventOf(marks[i]))
  }

  datatype Reading = Reading(marks: seq<Mark>, pending: Option<Name>)

  function Then(mark: Mark, more: Reading): Reading {
    Reading([mark] + more.marks, more.pending)
  }

  function Read(alphanumeric: char -> bool, pending: Option<Name>, line: string): Reading
    decreases |line|
  {
    if RESULT <= line then Reading([Counted(SummaryOf(line[|RESULT|..]))], pending)
    else
      match Opening(line)
      case Some((name, tail)) =>
        (match ParseOutcome(alphanumeric, tail)
         case None => Reading([Opened(name)], Some(name))
         case Some((outcome, rest)) => Then(Inline(name, outcome), Read(alphanumeric, None, rest)))
      case None =>
        (match ParseOutcome(alphanumeric, Trim(line))
         case None => Reading([], pending)
         case Some((outcome, rest)) =>
           if pending.None? then Reading([], None)
           else Then(Closed(pending.value, outcome), Read(alphanumeric, None, rest)))
  }

  // Every line of a process, in order.
  function Trace(alphanumeric: char -> bool, pending: Option<Name>, lines: seq<string>): Reading {
    TraceWith((p, line) => Read(alphanumeric, p, line), pending, lines)
  }

  function TraceWith(read: (Option<Name>, string) -> Reading, pending: Option<Name>, lines: seq<string>): Reading
    decreases |lines|
  {
    if lines == [] then Reading([], pending)
    else
      var first := read(pending, lines[0]);
      var more := TraceWith(read, first.pending, lines[1..]);
      Reading(first.marks + more.marks, more.pending)
  }

  lemma EventsThen(events: seq<Event>, mark: Mark, more: Reading)
    ensures events + EventsOf(Then(mark, more).marks) == events + [EventOf(mark)] + EventsOf(more.marks)
  {
  }

  lemma EventsOfOne(events: seq<Event>, mark: Mark)
    ensures events + EventsOf([mark]) == events + [EventOf(mark)] && events + EventsOf([]) == events
  {
  }

  // How a text is read, case by case.
  lemma ReadCases(alphanumeric: char -> bool, pending: Option<Name>, line: string)
    ensures var r := Read(alphanumeric, pending, line);
            if RESULT <= line then r == Reading([Counted(SummaryOf(line[|RESULT|..]))], pending)
            else if Opening(line).Some? then ReadsOpening(alphanumeric, Opening(line).value.0, Opening(line).value.1, r)
            else ReadsBare(alphanumeric, pending, Trim(line), r)
  {
  }

  predicate ReadsOpening(alphanumeric: char -> bool, name: Name, tail: string, r: Reading) {
    match ParseOutcome(alphanumeric, tail)
    case None => r == Reading([Opened(name)], Some(name))
    case Some((outcome, rest)) => r == Then(Inline(name, outcome), Read(alphanumeric, None, rest))
  }

  predicate ReadsBare(alphanumeric: char -> bool, pending: Option<Name>, line: string, r: Reading) {
    match ParseOutcome(alphanumeric, line)
    case None => r == Reading([], pending)
    case Some((outcome, rest)) =>
      if pending.None? then r == Reading([], None)
      else r == Then(Closed(pending.value, outcome), Read(alphanumeric, None, rest))
  }

  class Parser {
    const alphanumeric: char -> bool
    var pending: Option<Name>

    constructor (alphanumeric: char -> bool)
      ensures pending == None && this.alphanumeric == alphanumeric
    {
      this.alphanumeric := alphanumeric;
      pending := None;
    }

    method Line(line: string) returns (events: seq<Event>)
      modifies this
      ensures var r := Read(alphanumeric, old(pending), line); events == EventsOf(r.marks) && pending == r.pending
    {
      events := ReadInto(line, []);
    }

    method ReadInto(line: string, events: seq<Event>) returns (more: seq<Event>)
      modifies this
      ensures var r := Read(alphanumeric, old(pending), line);
              more == events + EventsOf(r.marks) && pending == r.pending
      decreases |line|, 1
    {
      ghost var r := Read(alphanumeric, pending, line);
      ReadCases(alphanumeric, pending, line);
      if RESULT <= line {
        var summary := ParseSummary(line[|RESULT|..]);
        EventsOfOne(events, Counted(summary));
        return events + [Tally(summary)];
      }
      var opening := Opening(line);
      if opening.Some? {
        more := ReadOpening(opening.value.0, opening.value.1, events, r);
      } else {
        more := ReadBare(Trim(line), events, r);
      }
    }

    method ReadOpening(name: Name, tail: string, events: seq<Event>, ghost r: Reading) returns (more: seq<Event>)
      requires ReadsOpening(alphanumeric, name, tail, r)
      modifies this
      ensures more == events + EventsOf(r.marks) && pending == r.pending
      decreases |tail|
    {
      var outcome := ParseOutcome(alphanumeric, tail);
      if outcome.None? {
        pending := Some(name);
        EventsOfOne(events, Opened(name));
        return events + [Started(name)];
      }
      var (word, rest) := outcome.value;
      EventsThen(events, Inline(name, word), Read(alphanumeric, None, rest));
      pending := None;
      more := ReadInto(rest, events + [Finished(name, word)]);
    }

    method ReadBare(line: string, events: seq<Event>, ghost r: Reading) returns (more: seq<Event>)
      requires ReadsBare(alphanumeric, pending, line, r)
      modifies this
      ensures more == events + EventsOf(r.marks) && pending == r.pending
      decreases |line|, 0
    {
      var outcome := ParseOutcome(alphanumeric, line);
      if outcome.None? || pending.None? {
        EventsOfOne(events, Opened(""));
        return events;
      }
      var (word, rest) := outcome.value;
      var name := pending.value;
      EventsThen(events, Closed(name, word), Read(alphanumeric, None, rest));
      pending := None;
      more := ReadInto(rest, events + [Finished(name, word)]);
    }
  }
}
