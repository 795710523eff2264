/**
  libtest's closing line, `test result: ok. 3 passed; 1 failed; ...` (unix/e2e/src/libtest.rs):
  spelled out from its counts and words, it is read back as those counts, and the loop that
  attributes crashes sees them.
*/
module LibtestSummary {
  import Attribution
  import opened Libtest
  import opened LibtestTheorems
  import opened TestEvents
  import opened Text
  import opened Wrappers

  const NEXT: string := "; "

  function Item(n: U32, what: string): string {
    Decimal(n) + " " + what
  }

  // What libtest prints behind the verdict.
  function Counts(passed: U32, failed: U32, ignored: U32, measured: U32, filteredOut: U32, closing: string): string {
    Item(passed, "passed") + NEXT +
    (Item(failed, "failed") + NEXT +
     (Item(ignored, "ignored") + NEXT +
      (Item(measured, "measured") + NEXT +
       (Item(filteredOut, "filtered out") + NEXT + closing))))
  }

  function SummaryLine(verdict: string, counts: string): string {
    "test result: " + (verdict + ". " + counts)
  }

  // The closing part, `finished in 0.01s`, is one entry and does not read as one of the counts.
  ghost predicate Closes(closing: string) {
    && SplitOnce(closing, NEXT).None?
    && forall count, what :: Trim(closing) == count + " " + what && ParseU32(count).Some? ==>
                               what !in {"passed", "failed", "ignored", "filtered out"}
  }

  // ------------------------------------------------------------------- entries

  lemma ItemSplits(n: U32, what: string)
    requires what != [] && Trimmed(what)
    ensures Trim(Item(n, what)) == Item(n, what) && SplitOnce(Item(n, what), " ") == Some((Decimal(n), what))
  {
    var item, digits := Item(n, what), Decimal(n);
    assert IsDigit(digits[0]) && item[0] == digits[0] && item[|item| - 1] == what[|what| - 1];
    TrimAround("", item, "");
    assert "" + item + "" == item;
    assert ' ' !in digits;
    SplitsOnce(digits, " ", what);
  }

  lemma ItemCounts(n: U32, what: string, so: Summary)
    requires what != [] && Trimmed(what)
    ensures
      var r := Tallied(Item(n, what), so);
      && (what == "passed" ==> r == so.(passed := n))
      && (what == "failed" ==> r == so.(failed := n))
      && (what == "ignored" ==> r == so.(ignored := n))
      && (what == "filtered out" ==> r == so.(filteredOut := n))
      && (what !in {"passed", "failed", "ignored", "filtered out"} ==> r == so)
  {
    ItemSplits(n, what);
    ParseDecimal(n);
  }

  lemma ClosingCountsNothing(closing: string, so: Summary)
    requires Closes(closing)
    ensures Tallied(closing, so) == so
  {
    var entry := Trim(closing);
    var parts := SplitOnce(entry, " ");
    if parts.Some? {
      assert entry == parts.value.0 + " " + parts.value.1;
    }
  }

  lemma ItemHasNoBreak(n: U32, what: string)
    requires ';' !in what
    ensures ';' !in Item(n, what)
  {
    assert ';' !in Decimal(n);
  }

  // The first item goes off the front of a list, and what follows it is counted after it.
  lemma ItemFirst(n: U32, what: string, rest: string, so: Summary)
    requires what != [] && Trimmed(what) && ';' !in what
    ensures TalliedAll(Split(Item(n, what) + NEXT + rest, NEXT), so)
            == TalliedAll(Split(rest, NEXT), Tallied(Item(n, what), so))
  {
    ItemHasNoBreak(n, what);
    SplitsOnce(Item(n, what), NEXT, rest);
    var entries := [Item(n, what)] + Split(rest, NEXT);
    assert entries[1..] == Split(rest, NEXT);
  }

  lemma ClosingLast(closing: string, so: Summary)
    requires Closes(closing)
    ensures TalliedAll(Split(closing, NEXT), so) == so
  {
    ClosingCountsNothing(closing, so);
    assert [closing][1..] == [];
  }

  lemma PassedFirst(n: U32, rest: string, so: Summary)
    ensures TalliedAll(Split(Item(n, "passed") + NEXT + rest, NEXT), so) == TalliedAll(Split(rest, NEXT), so.(passed := n))
  {
    ItemFirst(n, "passed", rest, so);
    ItemCounts(n, "passed", so);
  }

  lemma FailedFirst(n: U32, rest: string, so: Summary)
    ensures TalliedAll(Split(Item(n, "failed") + NEXT + rest, NEXT), so) == TalliedAll(Split(rest, NEXT), so.(failed := n))
  {
    ItemFirst(n, "failed", rest, so);
    ItemCounts(n, "failed", so);
  }

  lemma IgnoredFirst(n: U32, rest: string, so: Summary)
    ensures TalliedAll(Split(Item(n, "ignored") + NEXT + rest, NEXT), so) == TalliedAll(Split(rest, NEXT), so.(ignored := n))
  {
    ItemFirst(n, "ignored", rest, so);
    ItemCounts(n, "ignored", so);
  }

  lemma MeasuredFirst(n: U32, rest: string, so: Summary)
    ensures TalliedAll(Split(Item(n, "measured") + NEXT + rest, NEXT), so) == TalliedAll(Split(rest, NEXT), so)
  {
    ItemFirst(n, "measured", rest, so);
    ItemCounts(n, "measured", so);
  }

  lemma FilteredFirst(n: U32, rest: string, so: Summary)
    ensures TalliedAll(Split(Item(n, "filtered out") + NEXT + rest, NEXT), so) == TalliedAll(Split(rest, NEXT), so.(filteredOut := n))
  {
    ItemFirst(n, "filtered out", rest, so);
    ItemCounts(n, "filtered out", so);
  }

  lemma CountsAreRead(passed: U32, failed: U32, ignored: U32, measured: U32, filteredOut: U32, closing: string)
    requires Closes(closing)
    ensures TalliedAll(Split(Counts(passed, failed, ignored, measured, filteredOut, closing), NEXT), Summary(0, 0, 0, 0))
            == Summary(passed, failed, ignored, filteredOut)
  {
    var five := Item(filteredOut, "filtered out") + NEXT + closing;
    var four := Item(measured, "measured") + NEXT + five;
    var three := Item(ignored, "ignored") + NEXT + four;
    var two := Item(failed, "failed") + NEXT + three;
    PassedFirst(passed, two, Summary(0, 0, 0, 0));
    FailedFirst(failed, three, Summary(passed, 0, 0, 0));
    IgnoredFirst(ignored, four, Summary(passed, failed, 0, 0));
    MeasuredFirst(measured, five, Summary(passed, failed, ignored, 0));
    FilteredFirst(filteredOut, closing, Summary(passed, failed, ignored, 0));
    ClosingLast(closing, Summary(passed, failed, ignored, filteredOut));
  }

  // ------------------------------------------------------------------ the line

  lemma VerdictIsTakenOff(verdict: string, counts: string)
    requires '.' !in verdict
    ensures SummaryOf(verdict + ". " + counts) == TalliedAll(Split(counts, NEXT), Summary(0, 0, 0, 0))
  {
    SplitsOnce(verdict, ". ", counts);
  }

  /**
    The line libtest prints at the end, under either verdict and whatever closing part, is
    read as the counts on it, and as nothing else.
  */
  lemma SummaryIsRead(alphanumeric: char -> bool, pending: Option<Name>, verdict: string, passed: U32, failed: U32,
                      ignored: U32, measured: U32, filteredOut: U32, closing: string)
    requires (verdict == "ok" || verdict == "FAILED") && Closes(closing)
    ensures Read(alphanumeric, pending, SummaryLine(verdict, Counts(passed, failed, ignored, measured, filteredOut, closing)))
            == Reading([Counted(Summary(passed, failed, ignored, filteredOut))], pending)
  {
    var counts := Counts(passed, failed, ignored, measured, filteredOut, closing);
    var line := SummaryLine(verdict, counts);
    assert RESULT <= line && line[|RESULT|..] == verdict + ". " + counts;
    CountsAreRead(passed, failed, ignored, measured, filteredOut, closing);
    VerdictIsTakenOff(verdict, counts);
  }

  // ------------------------------------------------------------------ the loop

  lemma DigestOfTally(marks: seq<Mark>, summary: Summary)
    ensures Attribution.Digest(EventsOf(marks + [Counted(summary)]))
            == Attribution.Digest(EventsOf(marks)).(summary := Some(summary))
  {
    var events := EventsOf(marks + [Counted(summary)]);
    assert events[..|events| - 1] == EventsOf(marks);
    assert events[|events| - 1] == Tally(summary);
  }

  // A printed line after the results.
  lemma LineAfterPrints(prints: seq<Print>, line: string)
    requires (forall i :: 0 <= i < |prints| ==> KeepsToLines(prints[i])) && OneLine(line)
    ensures Lines(AllWritten(prints) + line + ['\n']) == AllLines(prints) + [line]
  {
    AllLinesAreLines(prints);
    AllWritesMakeLines(prints);
    UnlinesConcat(AllLines(prints), [line]);
    OneIsUnlined(line);
    Regroup(AllWritten(prints), line, ['\n']);
    SplitsBack(AllLines(prints) + [line]);
  }

  lemma OneIsUnlined(line: string)
    ensures Unlines([line]) == line + ['\n']
  {
    assert [line][1..] == [];
    assert line + ['\n'] + "" == line + ['\n'];
  }

  lemma SummaryKeepsToItsLine(verdict: string, passed: U32, failed: U32, ignored: U32, measured: U32, filteredOut: U32,
                              closing: string)
    requires (verdict == "ok" || verdict == "FAILED") && OneLine(closing) && closing != []
    ensures OneLine(SummaryLine(verdict, Counts(passed, failed, ignored, measured, filteredOut, closing)))
  {
    var five := Item(filteredOut, "filtered out") + NEXT + closing;
    ItemAhead(filteredOut, "filtered out", closing);
    var four := Item(measured, "measured") + NEXT + five;
    ItemAhead(measured, "measured", five);
    var three := Item(ignored, "ignored") + NEXT + four;
    ItemAhead(ignored, "ignored", four);
    var two := Item(failed, "failed") + NEXT + three;
    ItemAhead(failed, "failed", three);
    var counts := Item(passed, "passed") + NEXT + two;
    ItemAhead(passed, "passed", two);
    GluedIsOneLine(verdict + ". ", counts);
    GluedIsOneLine("test result: ", verdict + ". " + counts);
  }

  lemma ItemAhead(n: U32, what: string, rest: string)
    requires '\n' !in what && OneLine(rest) && rest != []
    ensures OneLine(Item(n, what) + NEXT + rest)
  {
    assert '\n' !in Decimal(n);
    GluedIsOneLine(Item(n, what) + NEXT, rest);
  }

  /**
    From the characters a process wrote, results and closing line, to what the loop acts on:
    its summary is the one printed, and the results are as they are without it.
  */
  lemma LoopSeesPrintedSummary(alphanumeric: char -> bool, prints: seq<Print>, verdict: string, passed: U32, failed: U32,
                               ignored: U32, measured: U32, filteredOut: U32, closing: string)
    requires forall i :: 0 <= i < |prints| ==> Fair(alphanumeric, prints[i]) && KeepsToLines(prints[i])
    requires (verdict == "ok" || verdict == "FAILED") && Closes(closing) && OneLine(closing) && closing != []
    ensures
      var line := SummaryLine(verdict, Counts(passed, failed, ignored, measured, filteredOut, closing));
      var text := AllWritten(prints) + line + ['\n'];
      var round := Attribution.Digest(EventsOf(Trace(alphanumeric, None, Lines(text)).marks));
      && round.summary == Some(Summary(passed, failed, ignored, filteredOut))
      && round.finished == AllCredits(alphanumeric, None, prints) && round.started == LeavesAll(alphanumeric, None, prints)
  {
    var line := SummaryLine(verdict, Counts(passed, failed, ignored, measured, filteredOut, closing));
    SummaryKeepsToItsLine(verdict, passed, failed, ignored, measured, filteredOut, closing);
    LineAfterPrints(prints, line);
    var before := Trace(alphanumeric, None, AllLines(prints));
    TraceConcat(alphanumeric, None, AllLines(prints), [line]);
    SummaryIsRead(alphanumeric, before.pending, verdict, passed, failed, ignored, measured, filteredOut, closing);
    TraceWithOne((p, l) => Read(alphanumeric, p, l), before.pending, line);
    DigestOfTally(before.marks, Summary(passed, failed, ignored, filteredOut));
    LoopSeesPrintedResults(alphanumeric, prints);
    WrittenLines(prints);
  }
}
