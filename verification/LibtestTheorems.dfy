/**
  What the libtest reader guarantees over any stream of lines, and what it recovers of a
  list of results printed with other text between the writes.
*/
module LibtestTheorems {
  import Attribution
  import opened Libtest
  import opened TestEvents
  import opened Text
  import opened Wrappers

  // ----------------------------------------------- every outcome has its opening

  // The opening left open after a mark.
  function OpenAfter(pending: Option<Name>, mark: Mark): Option<Name> {
    match mark
    case Inline(_, _) => None
    case Opened(name) => Some(name)
    case Closed(_, _) => None
    case Counted(_) => pending
  }

  function OpenAfterAll(pending: Option<Name>, marks: seq<Mark>): Option<Name>
    decreases |marks|
  {
    if marks == [] then pending else OpenAfterAll(OpenAfter(pending, marks[0]), marks[1..])
  }

  // Every closing outcome is credited to the opening left open.
  predicate Matched(pending: Option<Name>, marks: seq<Mark>)
    decreases |marks|
  {
    marks == []
    || ((marks[0].Closed? ==> pending == Some(marks[0].name)) && Matched(OpenAfter(pending, marks[0]), marks[1..]))
  }

  lemma {:induction false} MatchedConcat(pending: Option<Name>, a: seq<Mark>, b: seq<Mark>)
    requires Matched(pending, a) && Matched(OpenAfterAll(pending, a), b)
    ensures Matched(pending, a + b) && OpenAfterAll(pending, a + b) == OpenAfterAll(OpenAfterAll(pending, a), b)
    decreases |a|
  {
    if a == [] {
      assert a + b == b;
    } else {
      assert (a + b)[0] == a[0] && (a + b)[1..] == a[1..] + b;
      MatchedConcat(OpenAfter(pending, a[0]), a[1..], b);
    }
  }

  ghost predicate Accounts(pending: Option<Name>, r: Reading) {
    Matched(pending, r.marks) && r.pending == OpenAfterAll(pending, r.marks)
  }

  lemma AccountsThen(pending: Option<Name>, mark: Mark, more: Reading)
    requires Accounts(None, more) && (mark.Inline? || (mark.Closed? && pending == Some(mark.name)))
    ensures Accounts(pending, Then(mark, more))
  {
    assert ([mark] + more.marks)[1..] == more.marks;
  }

  lemma {:induction false} ReadAccounts(alphanumeric: char -> bool, pending: Option<Name>, line: string)
    ensures Accounts(pending, Read(alphanumeric, pending, line))
    decreases |line|
  {
    ReadCases(alphanumeric, pending, line);
    if !(RESULT <= line) {
      if Opening(line).Some? {
        var (name, tail) := Opening(line).value;
        OpeningAccounts(alphanumeric, pending, name, tail, Read(alphanumeric, pending, line));
      } else {
        BareAccounts(alphanumeric, pending, Trim(line), Read(alphanumeric, pending, line));
      }
    }
  }

  lemma OpeningAccounts(alphanumeric: char -> bool, pending: Option<Name>, name: Name, tail: string, r: Reading)
    requires ReadsOpening(alphanumeric, name, tail, r)
    ensures Accounts(pending, r)
    decreases |tail|
  {
    match ParseOutcome(alphanumeric, tail)
    case None =>
    case Some((outcome, rest)) =>
      ReadAccounts(alphanumeric, None, rest);
      AccountsThen(pending, Inline(name, outcome), Read(alphanumeric, None, rest));
  }

  lemma BareAccounts(alphanumeric: char -> bool, pending: Option<Name>, line: string, r: Reading)
    requires ReadsBare(alphanumeric, pending, line, r)
    ensures Accounts(pending, r)
    decreases |line|, 0
  {
    match ParseOutcome(alphanumeric, line)
    case None =>
    case Some((outcome, rest)) =>
      if pending.Some? {
        ReadAccounts(alphanumeric, None, rest);
        AccountsThen(pending, Closed(pending.value, outcome), Read(alphanumeric, None, rest));
      }
  }

  lemma {:induction false} TraceWithAccounts(read: (Option<Name>, string) -> Reading, pending: Option<Name>, lines: seq<string>)
    requires forall p, line :: Accounts(p, read(p, line))
    ensures Accounts(pending, TraceWith(read, pending, lines))
    decreases |lines|
  {
    if lines != [] {
      var first := read(pending, lines[0]);
      TraceWithAccounts(read, first.pending, lines[1..]);
      MatchedConcat(pending, first.marks, TraceWith(read, first.pending, lines[1..]).marks);
    }
  }

  lemma TraceAccounts(alphanumeric: char -> bool, pending: Option<Name>, lines: seq<string>)
    ensures Accounts(pending, Trace(alphanumeric, pending, lines))
  {
    forall p, line ensures Accounts(p, Read(alphanumeric, p, line)) {
      ReadAccounts(alphanumeric, p, line);
    }
    TraceWithAccounts((p, line) => Read(alphanumeric, p, line), pending, lines);
  }

  // `marks[j]` is the opening that `marks[i]` closes: nothing but counts lies between.
  predicate Closes(marks: seq<Mark>, j: int, i: int) {
    0 <= j < i < |marks| && marks[i].Closed? && marks[j] == Opened(marks[i].name)
    && forall k :: j < k < i ==> marks[k].Counted?
  }

  lemma {:induction false} MatchedHasOpening(pending: Option<Name>, marks: seq<Mark>, i: nat)
    requires Matched(pending, marks) && i < |marks| && marks[i].Closed?
    ensures (exists j :: Closes(marks, j, i))
            || (pending == Some(marks[i].name) && forall k :: 0 <= k < i ==> marks[k].Counted?)
    decreases |marks|
  {
    if i > 0 {
      var rest, before := marks[1..], i - 1;
      MatchedHasOpening(OpenAfter(pending, marks[0]), rest, before);
      if j :| Closes(rest, j, before) {
        assert Closes(marks, j + 1, i) by {
          forall k | j + 1 < k < i ensures marks[k].Counted? {
            assert rest[k - 1].Counted?;
          }
        }
      } else {
        assert forall k :: 0 < k < i ==> marks[k] == rest[k - 1];
        if marks[0].Opened? {
          assert Closes(marks, 0, i);
        }
      }
    }
  }

  /**
    Over any lines, every outcome that closes an opening closes one read before it, with
    its name, and no two outcomes close the same one.
  */
  lemma OutcomesCloseOpenings(alphanumeric: char -> bool, lines: seq<string>)
    ensures var marks := Trace(alphanumeric, None, lines).marks;
            (forall i :: 0 <= i < |marks| && marks[i].Closed? ==> exists j :: Closes(marks, j, i))
            && forall j, i, i' :: Closes(marks, j, i) && Closes(marks, j, i') ==> i == i'
  {
    var marks := Trace(alphanumeric, None, lines).marks;
    TraceAccounts(alphanumeric, None, lines);
    forall i | 0 <= i < |marks| && marks[i].Closed? ensures exists j :: Closes(marks, j, i) {
      MatchedHasOpening(None, marks, i);
    }
  }

  // ---------------------------------------------------- every opening is on its line

  predicate StandsAt(text: string, i: int, piece: string) {
    0 <= i <= |text| - |piece| && text[i..i + |piece|] == piece
  }

  // The pieces stand in the text in this order, none overlapping another.
  ghost predicate InOrder(text: string, pieces: seq<string>)
    decreases |pieces|
  {
    pieces == [] || exists i :: StandsAt(text, i, pieces[0]) && InOrder(text[i + |pieces[0]|..], pieces[1..])
  }

  function OpeningText(name: Name): string {
    TEST + (name + DOTS)
  }

  // The openings a reading found, as they were written.
  function OpeningsOf(marks: seq<Mark>): seq<string>
    decreases |marks|
  {
    if marks == [] then []
    else if marks[0].Inline? || marks[0].Opened? then [OpeningText(marks[0].name)] + OpeningsOf(marks[1..])
    else OpeningsOf(marks[1..])
  }

  // Text around a text that holds the pieces.
  lemma {:induction false} InOrderAround(front: string, text: string, back: string, pieces: seq<string>)
    requires InOrder(text, pieces)
    ensures InOrder(front + text + back, pieces)
    decreases |pieces|
  {
    if pieces != [] {
      var i :| StandsAt(text, i, pieces[0]) && InOrder(text[i + |pieces[0]|..], pieces[1..]);
      StandsInside(front, text, back, i, pieces[0]);
      InOrderAround([], text[i + |pieces[0]|..], back, pieces[1..]);
      assert StandsAt(front + text + back, |front| + i, pieces[0]);
    }
  }

  lemma StandsInside(front: string, text: string, back: string, i: int, piece: string)
    requires StandsAt(text, i, piece)
    ensures StandsAt(front + text + back, |front| + i, piece)
    ensures (front + text + back)[|front| + i + |piece|..] == [] + text[i + |piece|..] + back
  {
    var whole, at := front + text + back, |front| + i;
    assert whole[at..at + |piece|] == text[i..i + |piece|];
  }

  lemma InOrderFirst(piece: string, rest: string, pieces: seq<string>)
    requires InOrder(rest, pieces)
    ensures InOrder(piece + rest, [piece] + pieces)
  {
    var text, all := piece + rest, [piece] + pieces;
    assert all[0] == piece && all[1..] == pieces;
    assert StandsAt(text, 0, all[0]);
    assert text[0 + |all[0]|..] == rest;
  }

  // What is left behind an outcome is part of what it was read from.
  lemma OutcomeLeaves(alphanumeric: char -> bool, tail: string) returns (front: string, back: string)
    requires ParseOutcome(alphanumeric, tail).Some?
    ensures front + ParseOutcome(alphanumeric, tail).value.1 + back == tail
  {
    var (outcome, rest) := ParseOutcome(alphanumeric, tail).value;
    match outcome
    case Ignored => front, back := tail, [];
    case Ok => front, back := WordLeaves("ok", tail);
    case Failed => front, back := WordLeaves("FAILED", tail);
  }

  lemma WordLeaves(word: string, tail: string) returns (front: string, back: string)
    requires word <= tail
    ensures front + Trim(tail[|word|..]) + back == tail
  {
    var rest := tail[|word|..];
    var blanks := TrimStartParts(rest);
    back := TrimEndParts(TrimStart(rest));
    front := word + blanks;
    Regroup(word, blanks, Trim(rest));
    Regroup(word, blanks + Trim(rest), back);
    Regroup(blanks, Trim(rest), back);
  }

  lemma TrimLeaves(line: string) returns (front: string, back: string)
    ensures front + Trim(line) + back == line
  {
    front := TrimStartParts(line);
    back := TrimEndParts(TrimStart(line));
    Regroup(front, Trim(line), back);
  }

  // The openings read from one line are on that line, in order and apart from each other.
  lemma {:induction false} OpeningsAreOnTheLine(alphanumeric: char -> bool, pending: Option<Name>, line: string)
    ensures InOrder(line, OpeningsOf(Read(alphanumeric, pending, line).marks))
    decreases |line|, 2
  {
    ReadCases(alphanumeric, pending, line);
    if !(RESULT <= line) {
      if Opening(line).Some? {
        OpenLinePieces(alphanumeric, line, Read(alphanumeric, pending, line));
      } else {
        BareLinePieces(alphanumeric, pending, line, Read(alphanumeric, pending, line));
      }
    }
  }

  lemma OpenLinePieces(alphanumeric: char -> bool, line: string, r: Reading)
    requires Opening(line).Some? && ReadsOpening(alphanumeric, Opening(line).value.0, Opening(line).value.1, r)
    ensures InOrder(line, OpeningsOf(r.marks))
    decreases |line|, 0
  {
    var (name, tail) := Opening(line).value;
    OpeningPieces(alphanumeric, name, tail, r);
    Regroup(TEST, name + DOTS, tail);
  }

  lemma BareLinePieces(alphanumeric: char -> bool, pending: Option<Name>, line: string, r: Reading)
    requires ReadsBare(alphanumeric, pending, Trim(line), r)
    ensures InOrder(line, OpeningsOf(r.marks))
    decreases |line|, 1
  {
    BarePieces(alphanumeric, pending, Trim(line), r);
    var front, back := TrimLeaves(line);
    InOrderAround(front, Trim(line), back, OpeningsOf(r.marks));
  }

  lemma OpeningPieces(alphanumeric: char -> bool, name: Name, tail: string, r: Reading)
    requires ReadsOpening(alphanumeric, name, tail, r)
    ensures InOrder(OpeningText(name) + tail, OpeningsOf(r.marks))
    decreases |tail|
  {
    match ParseOutcome(alphanumeric, tail)
    case None =>
      InOrderFirst(OpeningText(name), tail, []);
      assert OpeningsOf(r.marks) == [OpeningText(name)] + [];
    case Some((outcome, rest)) =>
      var more := Read(alphanumeric, None, rest);
      OpeningsAreOnTheLine(alphanumeric, None, rest);
      var front, back := OutcomeLeaves(alphanumeric, tail);
      InOrderAround(front, rest, back, OpeningsOf(more.marks));
      InOrderFirst(OpeningText(name), tail, OpeningsOf(more.marks));
      assert r.marks[1..] == more.marks;
  }

  lemma BarePieces(alphanumeric: char -> bool, pending: Option<Name>, line: string, r: Reading)
    requires ReadsBare(alphanumeric, pending, line, r)
    ensures InOrder(line, OpeningsOf(r.marks))
    decreases |line|, 0
  {
    match ParseOutcome(alphanumeric, line)
    case None =>
    case Some((outcome, rest)) =>
      if pending.Some? {
        var more := Read(alphanumeric, None, rest);
        OpeningsAreOnTheLine(alphanumeric, None, rest);
        var front, back := OutcomeLeaves(alphanumeric, line);
        InOrderAround(front, rest, back, OpeningsOf(more.marks));
        assert r.marks[1..] == more.marks;
      }
  }

  // --------------------------------------------------- results among other text

  /**
    One printed result and the other text around its three writes. `ahead` is on the name's
    line before it. Between the name and the outcome land whole lines, `between`, and then
    `stuck`, which has no newline. `behind` lands before the result's own newline, and
    `after` are the lines that follow.
  */
  datatype Print = Print(ahead: string, name: Name, between: seq<string>, stuck: string, outcome: Outcome,
                         behind: string, after: seq<string>)

  function Word(outcome: Outcome): string {
    match outcome
    case Ok => "ok"
    case Failed => "FAILED"
    case Ignored => "ignored"
  }

  function Open(name: Name, tail: string): string {
    TEST + (name + DOTS + tail)
  }

  // The line the outcome stands on, from where other text may first stand on it.
  function LastLine(p: Print): string {
    p.stuck + (Word(p.outcome) + p.behind)
  }

  // The line the name stands on.
  function FirstLine(p: Print): string {
    p.ahead + Open(p.name, if p.between == [] then LastLine(p) else p.between[0])
  }

  // The lines the three writes and the other text make.
  function ResultLines(p: Print): seq<string> {
    if p.between == [] then [FirstLine(p)] else [FirstLine(p)] + (p.between[1..] + [LastLine(p)])
  }

  function PrintedLines(p: Print): seq<string> {
    ResultLines(p) + p.after
  }

  function AllLines(prints: seq<Print>): seq<string>
    decreases |prints|
  {
    if prints == [] then [] else PrintedLines(prints[0]) + AllLines(prints[1..])
  }

  // The writes, in the order they reach the stream.
  lemma WritesMakeLines(p: Print)
    ensures Unlines(PrintedLines(p)) == Written(p)
  {
    if p.between == [] {
      UnlinesOne(FirstLine(p), p.after);
      assert PrintedLines(p) == [FirstLine(p)] + p.after;
      WholeRegroups(p.ahead, p.name, p.stuck, Word(p.outcome), p.behind);
    } else {
      var others := p.between[1..];
      UnlinesOne(FirstLine(p), others + ([LastLine(p)] + p.after));
      UnlinesConcat(others, [LastLine(p)] + p.after);
      UnlinesOne(LastLine(p), p.after);
      assert PrintedLines(p) == [FirstLine(p)] + (others + ([LastLine(p)] + p.after));
      WritesRegroup(p.ahead, p.name, p.between[0], Unlines(others), p.stuck, Word(p.outcome), p.behind, Unlines(p.after));
    }
  }

  lemma UnlinesOne(line: string, rest: seq<string>)
    ensures Unlines([line] + rest) == line + ['\n'] + Unlines(rest)
  {
    assert ([line] + rest)[1..] == rest;
  }

  lemma WholeRegroups(ahead: string, name: string, stuck: string, word: string, behind: string)
    ensures ahead + Open(name, stuck + (word + behind)) == ahead + TEST + name + DOTS + "" + stuck + word + behind
  {
    OpenRegroups(ahead, name, stuck + (word + behind));
    Regroup(ahead + TEST + name + DOTS, stuck, word + behind);
    Regroup(ahead + TEST + name + DOTS + stuck, word, behind);
    assert ahead + TEST + name + DOTS + "" == ahead + TEST + name + DOTS;
  }

  lemma OpenRegroups(ahead: string, name: string, tail: string)
    ensures ahead + Open(name, tail) == ahead + TEST + name + DOTS + tail
  {
    Regroup(ahead, TEST, name + DOTS + tail);
    Regroup(ahead + TEST, name + DOTS, tail);
    Regroup(ahead + TEST, name, DOTS);
  }

  lemma WritesRegroup(ahead: string, name: string, first: string, others: string, stuck: string, word: string,
                      behind: string, after: string)
    ensures ahead + Open(name, first) + ['\n'] + (others + (stuck + (word + behind) + ['\n'] + after))
            == ahead + TEST + name + DOTS + (first + ['\n'] + others) + stuck + word + behind + ['\n'] + after
  {
    var front := ahead + TEST + name + DOTS;
    var last := stuck + (word + behind);
    OpenRegroups(ahead, name, first);
    Regroup(front, first, ['\n']);
    Regroup(front + (first + ['\n']), others, last + ['\n'] + after);
    Regroup(front, first + ['\n'], others);
    LastRegroups(front + (first + ['\n'] + others), stuck, word, behind, after);
  }

  lemma LastRegroups(front: string, stuck: string, word: string, behind: string, after: string)
    ensures front + (stuck + (word + behind) + ['\n'] + after) == front + stuck + word + behind + ['\n'] + after
  {
    var last := stuck + (word + behind);
    Regroup(front, last + ['\n'], after);
    Regroup(front, last, ['\n']);
    Regroup(front, stuck, word + behind);
    Regroup(front + stuck, word, behind);
  }

  // A line that opens no test.
  predicate Harmless(line: string) {
    RESULT <= line || Opening(line).None?
  }

  // A harmless line that does not open with an outcome either.
  predicate Unspoken(alphanumeric: char -> bool, line: string) {
    RESULT <= line || (Opening(line).None? && ParseOutcome(alphanumeric, Trim(line)).None?)
  }

  // A printed name the reader finds the end of: ` ... ` first occurs behind it, and the line
  // it opens is not taken for the summary.
  predicate ReadableName(name: Name) {
    SplitOnce(name + DOTS, DOTS) == Some((name, [])) && !("result: " <= name + DOTS)
  }

  // Every name without blanks is one, but for a single exception.
  lemma PlainNameIsReadable(name: Name)
    requires NoWhite(name)
    ensures ReadableName(name) <==> name != "result:"
  {
    SplitsOnce(name, DOTS, []);
    assert name + DOTS + [] == name + DOTS;
    assert IsWhite("result: "[7]);
    var line := name + DOTS;
    assert |name| < 7 ==> line[|name|] == ' ' && "result: "[|name|] != ' ';
    assert |name| == 7 ==> line[..7] == name && "result: "[..7] == "result:" && line[7] == ' ';
    assert |name| > 7 ==> line[7] == name[7];
  }

  // What the reader looks at for an outcome: text in front of the word, and text behind it.
  // Where the outcome is not on the name's line, white space around it is taken off.
  function Before(p: Print): string {
    if p.between == [] then p.stuck else TrimStart(p.stuck)
  }

  function Behind(p: Print): string {
    if p.between == [] then p.behind else TrimEnd(p.behind)
  }

  // What is read on after the outcome.
  function Rest(p: Print): string {
    if p.outcome.Ignored? then "" else Trim(p.behind)
  }

  predicate Continued(alphanumeric: char -> bool, outcome: Outcome, behind: string) {
    !outcome.Ignored? && behind != [] && (alphanumeric(behind[0]) || behind[0] == '_')
  }

  /**
    The outcome is heard: nothing stands in front of the word, nothing continues it, and it
    is not on the line of a name that is hidden by other text.
  */
  predicate Heard(alphanumeric: char -> bool, p: Print) {
    (p.ahead == [] || p.between != []) && Before(p) == [] && !Continued(alphanumeric, p.outcome, Behind(p))
  }

  // And the name, too, opens its line.
  predicate Intact(alphanumeric: char -> bool, p: Print) {
    p.ahead == [] && Heard(alphanumeric, p)
  }

  // In terms of the text alone: what stands before the outcome is nothing, or white space on a later line.
  lemma IntactMeans(alphanumeric: char -> bool, p: Print)
    ensures Intact(alphanumeric, p) <==>
              && p.ahead == []
              && (p.stuck == [] || (p.between != [] && AllWhite(p.stuck)))
              && !Continued(alphanumeric, p.outcome, Behind(p))
  {
    var front := TrimStartParts(p.stuck);
    assert TrimStart(p.stuck) == [] ==> p.stuck == front;
    if AllWhite(p.stuck) {
      TrimStartAround(p.stuck, "");
      assert p.stuck + "" == p.stuck;
    }
  }

  /**
    The other text opens no test and, where an outcome is awaited, opens with no outcome.
    The name is one the reader finds the end of.
  */
  predicate Fair(alphanumeric: char -> bool, p: Print) {
    && ReadableName(p.name)
    && (if p.ahead != [] then Unspoken(alphanumeric, FirstLine(p))
        else p.between == [] || ParseOutcome(alphanumeric, p.between[0]).None?)
    && (forall i :: 1 <= i < |p.between| ==> Unspoken(alphanumeric, p.between[i]))
    && ParseOutcome(alphanumeric, Before(p)).None?
    && (p.between != [] ==> Harmless(LastLine(p)))
    && Harmless(Rest(p))
    && (forall i :: 0 <= i < |p.after| ==>
          if Heard(alphanumeric, p) then Harmless(p.after[i]) else Unspoken(alphanumeric, p.after[i]))
  }

  // Whom an outcome heard now is credited to.
  function Addressee(pending: Option<Name>, p: Print): Option<Name> {
    if p.ahead == [] then Some(p.name) else pending
  }

  // What is read off one print, and what it leaves open.
  function Credits(alphanumeric: char -> bool, pending: Option<Name>, p: Print): seq<(Name, Outcome)> {
    var name := Addressee(pending, p);
    if Heard(alphanumeric, p) && name.Some? then [(name.value, p.outcome)] else []
  }

  function Leaves(alphanumeric: char -> bool, pending: Option<Name>, p: Print): Option<Name> {
    if Heard(alphanumeric, p) then None else Addressee(pending, p)
  }

  function AllCredits(alphanumeric: char -> bool, pending: Option<Name>, prints: seq<Print>): seq<(Name, Outcome)>
    decreases |prints|
  {
    if prints == [] then []
    else Credits(alphanumeric, pending, prints[0])
         + AllCredits(alphanumeric, Leaves(alphanumeric, pending, prints[0]), prints[1..])
  }

  function LeavesAll(alphanumeric: char -> bool, pending: Option<Name>, prints: seq<Print>): Option<Name>
    decreases |prints|
  {
    if prints == [] then pending
    else LeavesAll(alphanumeric, Leaves(alphanumeric, pending, prints[0]), prints[1..])
  }

  function FinishedOf(marks: seq<Mark>): seq<(Name, Outcome)>
    decreases |marks|
  {
    if marks == [] then []
    else if marks[0].Inline? || marks[0].Closed? then [(marks[0].name, marks[0].outcome)] + FinishedOf(marks[1..])
    else FinishedOf(marks[1..])
  }

  function ResultsOf(prints: seq<Print>): seq<(Name, Outcome)> {
    seq(|prints|, i requires 0 <= i < |prints| => (prints[i].name, prints[i].outcome))
  }

  lemma {:induction false} FinishedConcat(a: seq<Mark>, b: seq<Mark>)
    ensures FinishedOf(a + b) == FinishedOf(a) + FinishedOf(b)
    decreases |a|
  {
    if a == [] {
      assert a + b == b;
    } else {
      assert (a + b)[0] == a[0] && (a + b)[1..] == a[1..] + b;
      FinishedConcat(a[1..], b);
    }
  }

  lemma {:induction false} TraceWithConcat(read: (Option<Name>, string) -> Reading, pending: Option<Name>,
                                           a: seq<string>, b: seq<string>)
    ensures var first := TraceWith(read, pending, a);
            var more := TraceWith(read, first.pending, b);
            TraceWith(read, pending, a + b) == Reading(first.marks + more.marks, more.pending)
    decreases |a|
  {
    if a == [] {
      assert a + b == b;
      assert [] + TraceWith(read, pending, b).marks == TraceWith(read, pending, b).marks;
    } else {
      assert (a + b)[0] == a[0] && (a + b)[1..] == a[1..] + b;
      var head := read(pending, a[0]);
      TraceWithConcat(read, head.pending, a[1..], b);
      var rest := TraceWith(read, head.pending, a[1..]);
      var more := TraceWith(read, rest.pending, b);
      assert head.marks + (rest.marks + more.marks) == (head.marks + rest.marks) + more.marks;
    }
  }

  lemma TraceConcat(alphanumeric: char -> bool, pending: Option<Name>, a: seq<string>, b: seq<string>)
    ensures var first := Trace(alphanumeric, pending, a);
            var more := Trace(alphanumeric, first.pending, b);
            Trace(alphanumeric, pending, a + b) == Reading(first.marks + more.marks, more.pending)
  {
    TraceWithConcat((p, line) => Read(alphanumeric, p, line), pending, a, b);
  }

  // A reading that finished exactly these and left this open.
  ghost predicate Gives(r: Reading, finished: seq<(Name, Outcome)>, pending: Option<Name>) {
    FinishedOf(r.marks) == finished && r.pending == pending
  }

  lemma GivesConcat(alphanumeric: char -> bool, pending: Option<Name>, a: seq<string>, b: seq<string>,
                    mid: Option<Name>, finishedA: seq<(Name, Outcome)>, finishedB: seq<(Name, Outcome)>, end: Option<Name>)
    requires Gives(Trace(alphanumeric, pending, a), finishedA, mid)
    requires Gives(Trace(alphanumeric, mid, b), finishedB, end)
    ensures Gives(Trace(alphanumeric, pending, a + b), finishedA + finishedB, end)
  {
    TraceConcat(alphanumeric, pending, a, b);
    FinishedConcat(Trace(alphanumeric, pending, a).marks, Trace(alphanumeric, mid, b).marks);
  }

  lemma TraceOne(alphanumeric: char -> bool, pending: Option<Name>, line: string, finished: seq<(Name, Outcome)>, end: Option<Name>)
    requires Gives(Read(alphanumeric, pending, line), finished, end)
    ensures Gives(Trace(alphanumeric, pending, [line]), finished, end)
  {
    TraceWithOne((p, l) => Read(alphanumeric, p, l), pending, line);
  }

  lemma TraceWithOne(read: (Option<Name>, string) -> Reading, pending: Option<Name>, line: string)
    ensures TraceWith(read, pending, [line]) == read(pending, line)
  {
    var r := read(pending, line);
    assert [line][1..] == [] && r.marks + [] == r.marks;
  }

  lemma HarmlessReads(alphanumeric: char -> bool, line: string)
    requires Harmless(line)
    ensures Gives(Read(alphanumeric, None, line), [], None)
  {
    ReadCases(alphanumeric, None, line);
  }

  lemma UnspokenReads(alphanumeric: char -> bool, pending: Option<Name>, line: string)
    requires Unspoken(alphanumeric, line)
    ensures Gives(Read(alphanumeric, pending, line), [], pending)
  {
    ReadCases(alphanumeric, pending, line);
  }

  lemma {:induction false} HarmlessLines(alphanumeric: char -> bool, lines: seq<string>)
    requires forall i :: 0 <= i < |lines| ==> Harmless(lines[i])
    ensures Gives(Trace(alphanumeric, None, lines), [], None)
  {
    if lines != [] {
      HarmlessReads(alphanumeric, lines[0]);
      TraceOne(alphanumeric, None, lines[0], [], None);
      HarmlessLines(alphanumeric, lines[1..]);
      GivesConcat(alphanumeric, None, [lines[0]], lines[1..], None, [], [], None);
      assert [lines[0]] + lines[1..] == lines;
    }
  }

  lemma {:induction false} UnspokenLines(alphanumeric: char -> bool, pending: Option<Name>, lines: seq<string>)
    requires forall i :: 0 <= i < |lines| ==> Unspoken(alphanumeric, lines[i])
    ensures Gives(Trace(alphanumeric, pending, lines), [], pending)
  {
    if lines != [] {
      UnspokenReads(alphanumeric, pending, lines[0]);
      TraceOne(alphanumeric, pending, lines[0], [], pending);
      UnspokenLines(alphanumeric, pending, lines[1..]);
      GivesConcat(alphanumeric, pending, [lines[0]], lines[1..], pending, [], [], pending);
      assert [lines[0]] + lines[1..] == lines;
    }
  }

  // A readable name is read back whole, whatever follows.
  lemma OpenReads(name: Name, tail: string)
    requires ReadableName(name)
    ensures Opening(Open(name, tail)) == Some((name, tail)) && !(RESULT <= Open(name, tail))
  {
    var line := Open(name, tail);
    assert line[|TEST|..] == name + DOTS + tail;
    SplitsOnceMore(name, DOTS, tail);
    ResultIsNoName(name, tail);
  }

  lemma ResultIsNoName(name: Name, tail: string)
    requires ReadableName(name)
    ensures !(RESULT <= Open(name, tail))
  {
    var line := Open(name, tail);
    if |name| < 7 {
      assert line[5 + |name|] == ' ' && RESULT[5 + |name|] != ' ';
    } else {
      assert line[5..13] == (name + DOTS)[..8] && RESULT[5..13] == "result: ";
    }
  }

  // The outcome word is recognised exactly when what follows cannot continue it.
  lemma WordIsRead(alphanumeric: char -> bool, outcome: Outcome, behind: string)
    ensures !Continued(alphanumeric, outcome, behind) <==> ParseOutcome(alphanumeric, Word(outcome) + behind).Some?
    ensures ParseOutcome(alphanumeric, Word(outcome) + behind).Some? ==>
              ParseOutcome(alphanumeric, Word(outcome) + behind).value
              == (outcome, if outcome.Ignored? then "" else Trim(behind))
  {
    var tail := Word(outcome) + behind;
    assert tail[|Word(outcome)|..] == behind;
    assert tail[0] == Word(outcome)[0];
  }

  // Without its newline, text glued to the outcome as a word loses the result.
  lemma GluedTextLosesResult(alphanumeric: char -> bool, pending: Option<Name>, name: Name, outcome: Outcome, behind: string)
    requires ReadableName(name) && Continued(alphanumeric, outcome, behind)
    ensures Gives(Read(alphanumeric, pending, Open(name, Word(outcome) + behind)), [], Some(name))
  {
    WordIsRead(alphanumeric, outcome, behind);
    OpenedReads(alphanumeric, pending, name, Word(outcome) + behind);
  }

  // No text in front of an outcome word makes another outcome of it.
  lemma TextHidesWord(alphanumeric: char -> bool, front: string, outcome: Outcome, behind: string)
    requires front != [] && ParseOutcome(alphanumeric, front).None?
    ensures ParseOutcome(alphanumeric, front + (Word(outcome) + behind)).None?
  {
    var tail := front + (Word(outcome) + behind);
    HiddenWord(alphanumeric, "ok", front, outcome, behind);
    HiddenWord(alphanumeric, "FAILED", front, outcome, behind);
    NotAcross("ignored", front, outcome, behind);
    assert "ignored" <= tail ==> "ignored" <= front;
  }

  // A word at the front of the line ends in the text or starts at its end.
  lemma NotAcross(word: string, front: string, outcome: Outcome, behind: string)
    requires front != [] && (word == "ok" || word == "FAILED" || word == "ignored")
    ensures word <= front + (Word(outcome) + behind) ==> |word| <= |front| && word <= front
  {
    var tail := front + (Word(outcome) + behind);
    assert tail[|front|] == Word(outcome)[0] && tail[|front| + 1] == Word(outcome)[1];
    assert word <= tail ==> forall i :: 0 <= i < |word| ==> tail[i] == word[i];
    assert |front| < |word| ==> !(word <= tail);
    assert |word| <= |front| ==> tail[..|word|] == front[..|word|];
  }

  lemma HiddenWord(alphanumeric: char -> bool, word: string, front: string, outcome: Outcome, behind: string)
    requires front != [] && (word == "ok" || word == "FAILED") && WordAfter(alphanumeric, word, front).None?
    ensures WordAfter(alphanumeric, word, front + (Word(outcome) + behind)).None?
  {
    NotAcross(word, front, outcome, behind);
    var tail := front + (Word(outcome) + behind);
    if word <= tail {
      assert |front| > |word| ==> tail[|word|..][0] == front[|word|..][0];
    }
  }

  // So text in front of it, short of its newline, loses the result.
  lemma StuckTextLosesResult(alphanumeric: char -> bool, pending: Option<Name>, name: Name, outcome: Outcome,
                             stuck: string, behind: string)
    requires ReadableName(name) && stuck != [] && ParseOutcome(alphanumeric, stuck).None?
    ensures Gives(Read(alphanumeric, pending, Open(name, stuck + (Word(outcome) + behind))), [], Some(name))
  {
    TextHidesWord(alphanumeric, stuck, outcome, behind);
    OpenedReads(alphanumeric, pending, name, stuck + (Word(outcome) + behind));
  }

  // One letter is enough.
  lemma LetterLosesResult(alphanumeric: char -> bool)
    ensures Gives(Read(alphanumeric, None, "test a ... xok"), [], Some("a"))
  {
    PlainNameIsReadable("a");
    LetterIsNoOutcome(alphanumeric);
    OpenedReads(alphanumeric, None, "a", "xok");
    LetterLine();
  }

  lemma LetterLine()
    ensures Open("a", "xok") == "test a ... xok"
  {
    var line := TEST + ("a" + DOTS + "xok");
    assert |line| == 14;
  }

  lemma LetterIsNoOutcome(alphanumeric: char -> bool)
    ensures ParseOutcome(alphanumeric, "xok").None?
  {
    assert "xok"[0] == 'x';
  }

  // And a test that passed can be reported as failed, on the word of another's outcome.
  lemma OutcomeOfAnother(alphanumeric: char -> bool)
    ensures Gives(Trace(alphanumeric, None, ["test a ... xok", "ytest b ... hi", "FAILED"]), [("a", Failed)], None)
  {
    var first, second, last := "test a ... xok", "ytest b ... hi", "FAILED";
    LetterLosesResult(alphanumeric);
    HiddenNameReads(alphanumeric, Some("a"));
    FailureReads(alphanumeric, "a");
    TraceOne(alphanumeric, None, first, [], Some("a"));
    TraceOne(alphanumeric, Some("a"), second, [], Some("a"));
    TraceOne(alphanumeric, Some("a"), last, [("a", Failed)], None);
    ThreeLines(alphanumeric, first, second, last, Some("a"), [("a", Failed)]);
  }

  lemma ThreeLines(alphanumeric: char -> bool, first: string, second: string, last: string, open: Option<Name>,
                   finished: seq<(Name, Outcome)>)
    requires Gives(Trace(alphanumeric, None, [first]), [], open)
    requires Gives(Trace(alphanumeric, open, [second]), [], open)
    requires Gives(Trace(alphanumeric, open, [last]), finished, None)
    ensures Gives(Trace(alphanumeric, None, [first, second, last]), finished, None)
  {
    GivesConcat(alphanumeric, None, [first], [second], open, [], [], open);
    GivesConcat(alphanumeric, None, [first] + [second], [last], open, [], finished, None);
    assert [first] + [second] + [last] == [first, second, last];
    assert [] + finished == finished;
  }

  lemma HiddenNameReads(alphanumeric: char -> bool, pending: Option<Name>)
    ensures Gives(Read(alphanumeric, pending, "ytest b ... hi"), [], pending)
  {
    var line := "ytest b ... hi";
    assert line[0] == 'y' && line[|line| - 1] == 'i';
    assert Trim(line) == line;
    UnspokenReads(alphanumeric, pending, line);
  }

  lemma FailureReads(alphanumeric: char -> bool, name: Name)
    ensures Gives(Read(alphanumeric, Some(name), "FAILED"), [(name, Failed)], None)
  {
    assert Word(Failed) + "" == "FAILED";
    WordOpensNothing(Failed, "");
    WordIsRead(alphanumeric, Failed, "");
    WordEndsTrimmed(Failed);
    ReadCases(alphanumeric, Some(name), "FAILED");
    BareGives(alphanumeric, Some(name), "FAILED", Failed, "", Read(alphanumeric, Some(name), "FAILED"));
  }

  lemma ThenGives(mark: Mark, more: Reading)
    requires (mark.Inline? || mark.Closed?) && Gives(more, [], None)
    ensures Gives(Then(mark, more), [(mark.name, mark.outcome)], None)
  {
    assert ([mark] + more.marks)[1..] == more.marks;
  }

  lemma OpeningGives(alphanumeric: char -> bool, pending: Option<Name>, name: Name, tail: string, outcome: Outcome, rest: string)
    requires ReadableName(name)
    requires ParseOutcome(alphanumeric, tail) == Some((outcome, rest)) && Harmless(rest)
    ensures Gives(Read(alphanumeric, pending, Open(name, tail)), [(name, outcome)], None)
  {
    OpenReads(name, tail);
    ReadCases(alphanumeric, pending, Open(name, tail));
    HarmlessReads(alphanumeric, rest);
    ThenGives(Inline(name, outcome), Read(alphanumeric, None, rest));
  }

  lemma BareGives(alphanumeric: char -> bool, pending: Option<Name>, line: string, outcome: Outcome, rest: string, r: Reading)
    requires ReadsBare(alphanumeric, pending, line, r)
    requires ParseOutcome(alphanumeric, line) == Some((outcome, rest)) && Harmless(rest)
    ensures Gives(r, if pending.Some? then [(pending.value, outcome)] else [], None)
  {
    if pending.Some? {
      HarmlessReads(alphanumeric, rest);
      ThenGives(Closed(pending.value, outcome), Read(alphanumeric, None, rest));
    }
  }

  // What is made of the outcome, on the name's line or, its white space gone, on its own.
  lemma OutcomeIsHeard(alphanumeric: char -> bool, p: Print)
    requires ParseOutcome(alphanumeric, Before(p)).None?
    ensures
      var tail := Before(p) + (Word(p.outcome) + Behind(p));
      if Before(p) == [] && !Continued(alphanumeric, p.outcome, Behind(p))
      then ParseOutcome(alphanumeric, tail) == Some((p.outcome, Rest(p)))
      else ParseOutcome(alphanumeric, tail) == None
  {
    if Before(p) == [] {
      assert Before(p) + (Word(p.outcome) + Behind(p)) == Word(p.outcome) + Behind(p);
      WordIsRead(alphanumeric, p.outcome, Behind(p));
      TrimAfterTrimEnd(p.behind);
    } else {
      TextHidesWord(alphanumeric, Before(p), p.outcome, Behind(p));
    }
  }

  // The name's line.
  lemma FirstReads(alphanumeric: char -> bool, pending: Option<Name>, p: Print)
    requires Fair(alphanumeric, p)
    ensures if p.between == []
            then Gives(Read(alphanumeric, pending, FirstLine(p)),
                       Credits(alphanumeric, pending, p), Leaves(alphanumeric, pending, p))
            else Gives(Read(alphanumeric, pending, FirstLine(p)), [], Addressee(pending, p))
  {
    if p.ahead != [] {
      UnspokenReads(alphanumeric, pending, FirstLine(p));
    } else if p.between == [] {
      InlineReads(alphanumeric, pending, p);
    } else {
      assert p.ahead + Open(p.name, p.between[0]) == Open(p.name, p.between[0]);
      OpenedReads(alphanumeric, pending, p.name, p.between[0]);
    }
  }

  // The result on one line.
  lemma InlineReads(alphanumeric: char -> bool, pending: Option<Name>, p: Print)
    requires p.ahead == [] && p.between == []
    requires ReadableName(p.name) && ParseOutcome(alphanumeric, Before(p)).None? && Harmless(Rest(p))
    ensures Gives(Read(alphanumeric, pending, FirstLine(p)),
                  Credits(alphanumeric, pending, p), Leaves(alphanumeric, pending, p))
  {
    assert FirstLine(p) == Open(p.name, LastLine(p));
    OutcomeIsHeard(alphanumeric, p);
    if Heard(alphanumeric, p) {
      OpeningGives(alphanumeric, pending, p.name, LastLine(p), p.outcome, Rest(p));
    } else {
      OpenedReads(alphanumeric, pending, p.name, LastLine(p));
    }
  }

  // The outcome on a later line.
  lemma LastReads(alphanumeric: char -> bool, pending: Option<Name>, p: Print)
    requires p.between != [] && Harmless(LastLine(p)) && ParseOutcome(alphanumeric, Before(p)).None?
    requires Harmless(Rest(p))
    ensures Gives(Read(alphanumeric, pending, LastLine(p)),
                  if Heard(alphanumeric, p) && pending.Some? then [(pending.value, p.outcome)] else [],
                  if Heard(alphanumeric, p) then None else pending)
  {
    TrimsLast(p);
    OutcomeIsHeard(alphanumeric, p);
    if Heard(alphanumeric, p) {
      BlankOpensNothing(p.stuck, p.outcome, p.behind);
      ReadCases(alphanumeric, pending, LastLine(p));
      BareGives(alphanumeric, pending, Trim(LastLine(p)), p.outcome, Rest(p), Read(alphanumeric, pending, LastLine(p)));
    } else {
      UnspokenReads(alphanumeric, pending, LastLine(p));
    }
  }

  lemma BlankOpensNothing(stuck: string, outcome: Outcome, behind: string)
    requires TrimStart(stuck) == []
    ensures !(RESULT <= stuck + (Word(outcome) + behind))
  {
    var line := stuck + (Word(outcome) + behind);
    if stuck == [] {
      WordOpensNothing(outcome, behind);
      assert line == Word(outcome) + behind;
    } else {
      assert IsWhite(stuck[0]) && line[0] == stuck[0] && !IsWhite('t');
    }
  }

  lemma TrimsLast(p: Print)
    requires p.between != []
    ensures Trim(LastLine(p)) == Before(p) + (Word(p.outcome) + Behind(p))
  {
    var word, front := Word(p.outcome), TrimStart(p.stuck);
    WordEndsTrimmed(p.outcome);
    TrimStartOver(p.stuck, word + p.behind);
    Regroup(front, word, p.behind);
    LastOfConcat(front + word, "");
    assert (front + word)[|front + word| - 1] == word[|word| - 1];
    EndsTrimmed(front + word, p.behind);
    Regroup(front, word, TrimEnd(p.behind));
  }

  lemma TrimStartOver(front: string, rest: string)
    requires rest != [] && !IsWhite(rest[0])
    ensures TrimStart(front + rest) == TrimStart(front) + rest
  {
    var white := TrimStartParts(front);
    var core := TrimStart(front);
    assert front + rest == white + (core + rest);
    assert (core + rest)[0] == if core == [] then rest[0] else core[0];
    TrimStartAround(white, core + rest);
  }

  lemma WordOpensNothing(outcome: Outcome, behind: string)
    ensures !(RESULT <= Word(outcome) + behind) && Opening(Word(outcome) + behind).None?
  {
    assert (Word(outcome) + behind)[0] != 't';
  }

  lemma WordEndsTrimmed(outcome: Outcome)
    ensures Word(outcome) != [] && Trimmed(Word(outcome))
  {
  }

  lemma EndsTrimmed(word: string, behind: string)
    requires word != [] && !IsWhite(word[|word| - 1])
    ensures TrimEnd(word + behind) == word + TrimEnd(behind)
  {
    var back := TrimEndParts(behind);
    Regroup(word, TrimEnd(behind), back);
    LastOfConcat(word, TrimEnd(behind));
    TrimEndAround(word + TrimEnd(behind), back);
  }

  lemma LastOfConcat(a: string, b: string)
    requires a != []
    ensures (a + b)[|a + b| - 1] == if b == [] then a[|a| - 1] else b[|b| - 1]
  {
  }

  // The opening left open by the first line that landed behind it.
  lemma OpenedReads(alphanumeric: char -> bool, pending: Option<Name>, name: Name, first: string)
    requires ReadableName(name) && ParseOutcome(alphanumeric, first).None?
    ensures Gives(Read(alphanumeric, pending, Open(name, first)), [], Some(name))
  {
    OpenReads(name, first);
    ReadCases(alphanumeric, pending, Open(name, first));
  }

  lemma PrintGives(alphanumeric: char -> bool, pending: Option<Name>, p: Print)
    requires Fair(alphanumeric, p)
    ensures Gives(Trace(alphanumeric, pending, PrintedLines(p)),
                  Credits(alphanumeric, pending, p), Leaves(alphanumeric, pending, p))
  {
    ResultGives(alphanumeric, pending, p);
    AfterGives(alphanumeric, Leaves(alphanumeric, pending, p), p);
    NothingAfter(alphanumeric, pending, ResultLines(p), p.after,
                 Credits(alphanumeric, pending, p), Leaves(alphanumeric, pending, p));
  }

  lemma NothingAfter(alphanumeric: char -> bool, pending: Option<Name>, a: seq<string>, b: seq<string>,
                     finished: seq<(Name, Outcome)>, end: Option<Name>)
    requires Gives(Trace(alphanumeric, pending, a), finished, end) && Gives(Trace(alphanumeric, end, b), [], end)
    ensures Gives(Trace(alphanumeric, pending, a + b), finished, end)
  {
    GivesConcat(alphanumeric, pending, a, b, end, finished, [], end);
    assert finished + [] == finished;
  }

  lemma ResultGives(alphanumeric: char -> bool, pending: Option<Name>, p: Print)
    requires Fair(alphanumeric, p)
    ensures Gives(Trace(alphanumeric, pending, ResultLines(p)),
                  Credits(alphanumeric, pending, p), Leaves(alphanumeric, pending, p))
  {
    FirstReads(alphanumeric, pending, p);
    if p.between == [] {
      TraceOne(alphanumeric, pending, FirstLine(p), Credits(alphanumeric, pending, p), Leaves(alphanumeric, pending, p));
    } else {
      LaterOutcome(alphanumeric, pending, p);
    }
  }

  lemma AfterGives(alphanumeric: char -> bool, pending: Option<Name>, p: Print)
    requires Fair(alphanumeric, p) && (Heard(alphanumeric, p) ==> pending == None)
    ensures Gives(Trace(alphanumeric, pending, p.after), [], pending)
  {
    if Heard(alphanumeric, p) {
      HarmlessLines(alphanumeric, p.after);
    } else {
      UnspokenLines(alphanumeric, pending, p.after);
    }
  }

  lemma LaterOutcome(alphanumeric: char -> bool, pending: Option<Name>, p: Print)
    requires Fair(alphanumeric, p) && p.between != []
    requires Gives(Read(alphanumeric, pending, FirstLine(p)), [], Addressee(pending, p))
    ensures Gives(Trace(alphanumeric, pending, [FirstLine(p)] + (p.between[1..] + [LastLine(p)])),
                  Credits(alphanumeric, pending, p), Leaves(alphanumeric, pending, p))
  {
    var open, others := Addressee(pending, p), p.between[1..];
    var credits, leaves := Credits(alphanumeric, pending, p), Leaves(alphanumeric, pending, p);
    TraceOne(alphanumeric, pending, FirstLine(p), [], open);
    UnspokenLines(alphanumeric, open, others);
    LastReads(alphanumeric, open, p);
    TraceOne(alphanumeric, open, LastLine(p), credits, leaves);
    GivesConcat(alphanumeric, open, others, [LastLine(p)], open, [], credits, leaves);
    assert [] + credits == credits;
    GivesConcat(alphanumeric, pending, [FirstLine(p)], others + [LastLine(p)], open, [], credits, leaves);
  }

  // What any fair text makes of the results, those it loses included.
  lemma {:induction false} PrintsGive(alphanumeric: char -> bool, pending: Option<Name>, prints: seq<Print>)
    requires forall i :: 0 <= i < |prints| ==> Fair(alphanumeric, prints[i])
    ensures Gives(Trace(alphanumeric, pending, AllLines(prints)),
                  AllCredits(alphanumeric, pending, prints), LeavesAll(alphanumeric, pending, prints))
    decreases |prints|
  {
    if prints != [] {
      var first, rest := prints[0], prints[1..];
      var mid := Leaves(alphanumeric, pending, first);
      PrintGives(alphanumeric, pending, first);
      PrintsGive(alphanumeric, mid, rest);
      GivesConcat(alphanumeric, pending, PrintedLines(first), AllLines(rest), mid, Credits(alphanumeric, pending, first),
                  AllCredits(alphanumeric, mid, rest), LeavesAll(alphanumeric, mid, rest));
    }
  }

  ghost predicate AllIntact(alphanumeric: char -> bool, prints: seq<Print>) {
    forall i :: 0 <= i < |prints| ==> Intact(alphanumeric, prints[i])
  }

  lemma {:induction false} IntactCredits(alphanumeric: char -> bool, pending: Option<Name>, prints: seq<Print>)
    requires AllIntact(alphanumeric, prints)
    ensures AllCredits(alphanumeric, pending, prints) == ResultsOf(prints)
    decreases |prints|
  {
    if prints != [] {
      assert Intact(alphanumeric, prints[0]);
      IntactCredits(alphanumeric, None, prints[1..]);
      ResultsFront(prints);
    }
  }

  // One result each at most; a full count means nothing was lost.
  lemma {:induction false} CreditsCount(alphanumeric: char -> bool, pending: Option<Name>, prints: seq<Print>)
    ensures |AllCredits(alphanumeric, pending, prints)| <= |prints|
    ensures pending.None? && |AllCredits(alphanumeric, pending, prints)| == |prints| ==> AllIntact(alphanumeric, prints)
    decreases |prints|
  {
    if prints != [] {
      CreditsCount(alphanumeric, Leaves(alphanumeric, pending, prints[0]), prints[1..]);
    }
  }

  lemma ResultsFront(prints: seq<Print>)
    requires prints != []
    ensures ResultsOf(prints) == [(prints[0].name, prints[0].outcome)] + ResultsOf(prints[1..])
  {
  }

  /**
    Under fair text, the results are read back exactly, in order, if and only if every one
    of them is intact.
  */
  lemma ResultsAreRecovered(alphanumeric: char -> bool, prints: seq<Print>)
    requires forall i :: 0 <= i < |prints| ==> Fair(alphanumeric, prints[i])
    ensures FinishedOf(Trace(alphanumeric, None, AllLines(prints)).marks) == ResultsOf(prints)
            <==> AllIntact(alphanumeric, prints)
  {
    PrintsGive(alphanumeric, None, prints);
    CreditsCount(alphanumeric, None, prints);
    if AllIntact(alphanumeric, prints) {
      IntactCredits(alphanumeric, None, prints);
    }
  }

  // The characters of one printed result, write by write.
  function Written(p: Print): string {
    p.ahead + TEST + p.name + DOTS + Unlines(p.between) + p.stuck + Word(p.outcome) + p.behind + ['\n'] + Unlines(p.after)
  }

  function AllWritten(prints: seq<Print>): string
    decreases |prints|
  {
    if prints == [] then "" else Written(prints[0]) + AllWritten(prints[1..])
  }

  // Each piece keeps to its line.
  predicate KeepsToLines(p: Print) {
    '\n' !in p.ahead && '\n' !in p.name && '\n' !in p.stuck && OneLine(p.behind)
    && (forall i :: 0 <= i < |p.between| ==> OneLine(p.between[i]))
    && forall i :: 0 <= i < |p.after| ==> OneLine(p.after[i])
  }

  lemma GluedIsOneLine(front: string, line: string)
    requires '\n' !in front && OneLine(line) && line != []
    ensures OneLine(front + line)
  {
    assert (front + line)[|front + line| - 1] == line[|line| - 1];
  }

  lemma OpenIsOneLine(name: Name, tail: string)
    requires '\n' !in name && OneLine(tail)
    ensures OneLine(Open(name, tail))
  {
    var line := Open(name, tail);
    assert '\n' !in TEST && '\n' !in DOTS;
    assert tail != [] ==> line[|line| - 1] == tail[|tail| - 1];
    assert tail == [] ==> line[|line| - 1] == DOTS[4];
  }

  lemma WordIsOneLine(outcome: Outcome, behind: string)
    requires OneLine(behind)
    ensures OneLine(Word(outcome) + behind)
  {
    var line := Word(outcome) + behind;
    assert behind != [] ==> line[|line| - 1] == behind[|behind| - 1];
    assert behind == [] ==> line == Word(outcome);
  }

  lemma PrintedLinesAreLines(p: Print)
    requires KeepsToLines(p)
    ensures forall line :: line in PrintedLines(p) ==> OneLine(line)
  {
    FirstIsOneLine(p);
    forall line | line in PrintedLines(p) ensures OneLine(line) {
      LineOfPrint(p.between, FirstLine(p), LastLine(p), p.after, line);
    }
  }

  lemma LineOfPrint(between: seq<string>, first: string, last: string, after: seq<string>, line: string)
    requires line in (if between == [] then [first] else [first] + (between[1..] + [last])) + after
    ensures line == first || line == last || line in between || line in after
  {
  }

  lemma FirstIsOneLine(p: Print)
    requires KeepsToLines(p)
    ensures OneLine(FirstLine(p)) && OneLine(LastLine(p))
  {
    WordIsOneLine(p.outcome, p.behind);
    GluedIsOneLine(p.stuck, Word(p.outcome) + p.behind);
    var tail := if p.between == [] then LastLine(p) else p.between[0];
    OpenIsOneLine(p.name, tail);
    GluedIsOneLine(p.ahead, Open(p.name, tail));
  }

  lemma {:induction false} AllLinesAreLines(prints: seq<Print>)
    requires forall i :: 0 <= i < |prints| ==> KeepsToLines(prints[i])
    ensures forall line :: line in AllLines(prints) ==> OneLine(line)
    decreases |prints|
  {
    if prints != [] {
      PrintedLinesAreLines(prints[0]);
      AllLinesAreLines(prints[1..]);
    }
  }

  lemma {:induction false} AllWritesMakeLines(prints: seq<Print>)
    ensures Unlines(AllLines(prints)) == AllWritten(prints)
    decreases |prints|
  {
    if prints != [] {
      WritesMakeLines(prints[0]);
      AllWritesMakeLines(prints[1..]);
      UnlinesConcat(PrintedLines(prints[0]), AllLines(prints[1..]));
    }
  }

  // From the characters as they were written to the results.
  lemma WrittenResultsAreRecovered(alphanumeric: char -> bool, prints: seq<Print>)
    requires forall i :: 0 <= i < |prints| ==> Fair(alphanumeric, prints[i]) && KeepsToLines(prints[i])
    ensures FinishedOf(Trace(alphanumeric, None, Lines(AllWritten(prints))).marks) == ResultsOf(prints)
            <==> AllIntact(alphanumeric, prints)
  {
    WrittenLines(prints);
    ResultsAreRecovered(alphanumeric, prints);
  }

  lemma WrittenLines(prints: seq<Print>)
    requires forall i :: 0 <= i < |prints| ==> KeepsToLines(prints[i])
    ensures Lines(AllWritten(prints)) == AllLines(prints)
  {
    AllLinesAreLines(prints);
    SplitsBack(AllLines(prints));
    AllWritesMakeLines(prints);
  }

  // The attribution loop's digest of the events is what the reader finished and left open.
  lemma {:induction false} DigestIsReading(marks: seq<Mark>)
    ensures var round := Attribution.Digest(EventsOf(marks));
            round.finished == FinishedOf(marks) && round.started == OpenAfterAll(None, marks)
  {
    if marks == [] {
      assert EventsOf(marks) == [];
    } else {
      var last := |marks| - 1;
      var front := marks[..last];
      DigestIsReading(front);
      assert EventsOf(marks)[..last] == EventsOf(front);
      assert marks == front + [marks[last]] && [marks[last]][1..] == [];
      FinishedConcat(front, [marks[last]]);
      OpenConcat(None, front, [marks[last]]);
    }
  }

  lemma {:induction false} OpenConcat(pending: Option<Name>, a: seq<Mark>, b: seq<Mark>)
    ensures OpenAfterAll(pending, a + b) == OpenAfterAll(OpenAfterAll(pending, a), b)
    decreases |a|
  {
    if a == [] {
      assert a + b == b;
    } else {
      assert (a + b)[0] == a[0] && (a + b)[1..] == a[1..] + b;
      OpenConcat(OpenAfter(pending, a[0]), a[1..], b);
    }
  }

  // So what the loop acts on is what was printed, under the same condition, and a result that
  // was lost leaves its test the one that is taken to be running.
  lemma LoopSeesPrintedResults(alphanumeric: char -> bool, prints: seq<Print>)
    requires forall i :: 0 <= i < |prints| ==> Fair(alphanumeric, prints[i]) && KeepsToLines(prints[i])
    ensures
      var round := Attribution.Digest(EventsOf(Trace(alphanumeric, None, Lines(AllWritten(prints))).marks));
      && (round.finished == ResultsOf(prints) <==> AllIntact(alphanumeric, prints))
      && round.finished == AllCredits(alphanumeric, None, prints)
      && round.started == LeavesAll(alphanumeric, None, prints)
  {
    WrittenLines(prints);
    ResultsAreRecovered(alphanumeric, prints);
    PrintsGive(alphanumeric, None, prints);
    TraceAccounts(alphanumeric, None, AllLines(prints));
    DigestIsReading(Trace(alphanumeric, None, AllLines(prints)).marks);
  }
}
