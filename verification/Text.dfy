/**
  The standard string operations the line formats are read with: Unicode white space,
  trimming, lines, tokens, searching and `u32` decimals.
*/
module Text {
  import opened Wrappers

  lemma Regroup(a: string, b: string, c: string)
    ensures a + (b + c) == a + b + c
  {
  }

  // ------------------------------------------------------------ white space

  // The Unicode White_Space property.
  predicate IsWhite(c: char) {
    var n := c as int;
    9 <= n <= 13 || n == 0x20 || n == 0x85 || n == 0xA0 || n == 0x1680 || 0x2000 <= n <= 0x200A
    || n == 0x2028 || n == 0x2029 || n == 0x202F || n == 0x205F || n == 0x3000
  }

  predicate NoWhite(s: string) {
    forall i :: 0 <= i < |s| ==> !IsWhite(s[i])
  }

  predicate Trimmed(s: string) {
    s == [] || (!IsWhite(s[0]) && !IsWhite(s[|s| - 1]))
  }

  predicate AllWhite(s: string) {
    forall i :: 0 <= i < |s| ==> IsWhite(s[i])
  }

  function TrimStart(s: string): (r: string)
    ensures |r| <= |s| && (r != [] ==> !IsWhite(r[0]))
  {
    if s != [] && IsWhite(s[0]) then TrimStart(s[1..]) else s
  }

  function TrimEnd(s: string): (r: string)
    ensures r <= s && (r != [] ==> !IsWhite(r[|r| - 1]))
  {
    if s != [] && IsWhite(s[|s| - 1]) then TrimEnd(s[..|s| - 1]) else s
  }

  function Trim(s: string): string {
    TrimEnd(TrimStart(s))
  }

  lemma TrimIsTrimmed(s: string)
    ensures Trimmed(Trim(s))
  {
    var start, r := TrimStart(s), Trim(s);
    assert r != [] ==> r[0] == start[0];
  }

  lemma {:induction false} TrimStartKeeps(s: string, c: char)
    ensures c in TrimStart(s) ==> c in s
  {
    if s != [] && IsWhite(s[0]) {
      TrimStartKeeps(s[1..], c);
    }
  }

  lemma TrimKeeps(s: string, c: char)
    ensures c in Trim(s) ==> c in s
  {
    TrimStartKeeps(s, c);
  }

  // Trimming takes off exactly the white space around a trimmed core.
  lemma TrimAround(front: string, core: string, back: string)
    requires Trimmed(core) && core != [] && AllWhite(front) && AllWhite(back)
    ensures Trim(front + core + back) == core
  {
    TrimStartAround(front, core + back);
    assert front + (core + back) == front + core + back;
    TrimEndAround(core, back);
  }

  lemma {:induction false} TrimStartAround(front: string, rest: string)
    requires AllWhite(front) && (rest == [] || !IsWhite(rest[0]))
    ensures TrimStart(front + rest) == rest
  {
    if front == [] {
      assert front + rest == rest;
    } else {
      TrimStartAround(front[1..], rest);
      assert (front + rest)[1..] == front[1..] + rest;
    }
  }

  lemma {:induction false} TrimEndAround(core: string, back: string)
    requires (core == [] || !IsWhite(core[|core| - 1])) && AllWhite(back)
    ensures TrimEnd(core + back) == core
  {
    var s := core + back;
    if back == [] {
      assert s == core;
    } else {
      TrimEndAround(core, back[..|back| - 1]);
      assert s[..|s| - 1] == core + back[..|back| - 1];
    }
  }

  lemma {:induction false} TrimStartParts(s: string) returns (front: string)
    ensures s == front + TrimStart(s) && AllWhite(front)
  {
    if s != [] && IsWhite(s[0]) {
      var rest := TrimStartParts(s[1..]);
      front := [s[0]] + rest;
    } else {
      front := [];
    }
  }

  lemma {:induction false} TrimEndParts(s: string) returns (back: string)
    ensures s == TrimEnd(s) + back && AllWhite(back)
  {
    if s != [] && IsWhite(s[|s| - 1]) {
      var rest := TrimEndParts(s[..|s| - 1]);
      back := rest + [s[|s| - 1]];
    } else {
      back := [];
    }
  }

  // Trimming the end first changes nothing.
  lemma TrimAfterTrimEnd(s: string)
    ensures Trim(TrimEnd(s)) == Trim(s)
  {
    var front := TrimStartParts(s);
    var core := TrimStart(s);
    var back := TrimEndParts(core);
    TrimIsTrimmed(s);
    if Trim(s) == [] {
      TrimEndAround([], front + back);
      assert s == [] + (front + back);
    } else {
      assert s == (front + Trim(s)) + back;
      TrimEndAround(front + Trim(s), back);
      TrimAround(front, Trim(s), "");
      assert front + Trim(s) + "" == front + Trim(s);
    }
  }

  // ---------------------------------------------------------------- searching

  // The first position of `c`, or the length.
  function Find(s: string, c: char): (r: nat)
    ensures r <= |s| && c !in s[..r] && (r < |s| ==> s[r] == c)
  {
    if s == [] || s[0] == c then 0 else 1 + Find(s[1..], c)
  }

  lemma {:induction false} FindFirst(a: string, c: char, b: string)
    requires c !in a
    ensures Find(a + [c] + b, c) == |a|
  {
    if a != [] {
      FindFirst(a[1..], c, b);
      assert (a + [c] + b)[1..] == a[1..] + [c] + b;
    }
  }

  // `rsplit_once`: the parts around the last `c`.
  function SplitLast(s: string, c: char): (r: Option<(string, string)>)
    ensures r.None? <==> c !in s
    ensures r.Some? ==> s == r.value.0 + [c] + r.value.1 && c !in r.value.1
  {
    if s == [] then None
    else if s[|s| - 1] == c then Some((s[..|s| - 1], []))
    else
      var front := SplitLast(s[..|s| - 1], c);
      if front.None? then None else Some((front.value.0, front.value.1 + [s[|s| - 1]]))
  }

  lemma {:induction false} LastSplit(a: string, c: char, b: string)
    requires c !in b
    ensures SplitLast(a + [c] + b, c) == Some((a, b))
  {
    var s := a + [c] + b;
    if b == [] {
      assert s[..|s| - 1] == a;
    } else {
      var front := b[..|b| - 1];
      LastSplit(a, c, front);
      assert s[..|s| - 1] == a + [c] + front && front + [b[|b| - 1]] == b;
    }
  }

  // `split_once`: the parts around the first `sep`.
  function SplitOnce(s: string, sep: string): (r: Option<(string, string)>)
    requires sep != []
    ensures r.Some? ==> s == r.value.0 + sep + r.value.1
  {
    if |s| < |sep| then None
    else if sep <= s then Some(([], s[|sep|..]))
    else
      var rest := SplitOnce(s[1..], sep);
      if rest.None? then None else Some(([s[0]] + rest.value.0, rest.value.1))
  }

  lemma {:induction false} SplitsOnce(a: string, sep: string, b: string)
    requires sep != [] && sep[0] !in a
    ensures SplitOnce(a + sep + b, sep) == Some((a, b))
  {
    var s := a + sep + b;
    if a == [] {
      assert s == sep + b && s[|sep|..] == b;
    } else {
      assert s[0] == a[0] && s[1..] == a[1..] + sep + b;
      SplitsOnce(a[1..], sep, b);
      assert [a[0]] + a[1..] == a;
    }
  }

  // Where `sep` first occurs does not depend on what follows it.
  lemma {:induction false} SplitsOnceMore(a: string, sep: string, b: string)
    requires sep != [] && SplitOnce(a + sep, sep) == Some((a, []))
    ensures SplitOnce(a + sep + b, sep) == Some((a, b))
    decreases |a|
  {
    var s, t := a + sep, a + sep + b;
    assert t[..|sep|] == s[..|sep|];
    if a == [] {
      assert t == sep + b && t[|sep|..] == b;
    } else {
      assert s[1..] == a[1..] + sep && t[1..] == a[1..] + sep + b && t[0] == s[0] == a[0];
      assert !(sep <= s);
      var rest := SplitOnce(s[1..], sep);
      assert [a[0]] + rest.value.0 == a;
      SplitsOnceMore(a[1..], sep, b);
      assert [a[0]] + a[1..] == a;
    }
  }

  // `split`: the parts between every `sep`.
  function Split(s: string, sep: string): (r: seq<string>)
    requires sep != []
    decreases |s|
  {
    var first := SplitOnce(s, sep);
    if first.None? then [s] else [first.value.0] + Split(first.value.1, sep)
  }

  // -------------------------------------------------------------------- lines

  function StripReturn(line: string): string {
    if line != [] && line[|line| - 1] == '\r' then line[..|line| - 1] else line
  }

  // `str::lines`: a final line feed adds no line, and a carriage return before one goes too.
  function Lines(text: string): seq<string>
    decreases |text|
  {
    if text == [] then []
    else
      var n := Find(text, '\n');
      if n == |text| then [text] else [StripReturn(text[..n])] + Lines(text[n + 1..])
  }

  predicate OneLine(s: string) {
    '\n' !in s && (s == [] || s[|s| - 1] != '\r')
  }

  function Unlines(lines: seq<string>): string {
    if lines == [] then "" else lines[0] + ['\n'] + Unlines(lines[1..])
  }

  lemma {:induction false} LinesOfUnlines(lines: seq<string>)
    requires forall i :: 0 <= i < |lines| ==> OneLine(lines[i])
    ensures Lines(Unlines(lines)) == lines
  {
    if lines != [] {
      var text := Unlines(lines);
      FindFirst(lines[0], '\n', Unlines(lines[1..]));
      assert text[..|lines[0]|] == lines[0] && text[|lines[0]| + 1..] == Unlines(lines[1..]);
      LinesOfUnlines(lines[1..]);
    }
  }

  lemma SplitsBack(lines: seq<string>)
    requires forall line :: line in lines ==> OneLine(line)
    ensures Lines(Unlines(lines)) == lines
  {
    LinesOfUnlines(lines);
  }

  lemma {:induction false} LinesHaveNoFeed(text: string)
    ensures forall i :: 0 <= i < |Lines(text)| ==> '\n' !in Lines(text)[i]
    decreases |text|
  {
    if text != [] {
      var n := Find(text, '\n');
      if n == |text| {
        assert text[..n] == text;
      } else {
        LinesHaveNoFeed(text[n + 1..]);
      }
    }
  }

  lemma {:induction false} UnlinesConcat(a: seq<string>, b: seq<string>)
    ensures Unlines(a + b) == Unlines(a) + Unlines(b)
  {
    if a == [] {
      assert a + b == b;
    } else {
      UnlinesConcat(a[1..], b);
      assert (a + b)[1..] == a[1..] + b;
    }
  }

  // ------------------------------------------------------------------- tokens

  function WordEnd(s: string): (r: nat)
    ensures r <= |s| && NoWhite(s[..r]) && (r < |s| ==> IsWhite(s[r]))
  {
    if s == [] || IsWhite(s[0]) then 0
    else
      var r := WordEnd(s[1..]);
      assert s[..r + 1] == [s[0]] + s[1..][..r];
      1 + r
  }

  // `split_whitespace`.
  function Tokens(s: string): (r: seq<string>)
    ensures forall i :: 0 <= i < |r| ==> r[i] != [] && NoWhite(r[i])
    decreases |s|
  {
    var t := TrimStart(s);
    if t == [] then [] else [t[..WordEnd(t)]] + Tokens(t[WordEnd(t)..])
  }

  lemma TwoTokens(a: string, b: string)
    requires a != [] && NoWhite(a) && b != [] && NoWhite(b)
    ensures Tokens(a + (" " + b)) == [a, b]
  {
    FirstToken(a, " " + b);
    FirstToken(b, "");
    assert b + "" == b;
    TrimStartAround(" ", b);
    TrimStartAround("", b);
    assert "" + b == b;
  }

  lemma FirstToken(word: string, rest: string)
    requires word != [] && NoWhite(word) && (rest != [] ==> IsWhite(rest[0]))
    ensures Tokens(word + rest) == [word] + Tokens(rest)
  {
    var s := word + rest;
    WordEnds(word, rest);
    assert TrimStart(s) == s && s[..|word|] == word && s[|word|..] == rest;
  }

  lemma {:induction false} WordEnds(word: string, rest: string)
    requires NoWhite(word) && (rest != [] ==> IsWhite(rest[0]))
    ensures WordEnd(word + rest) == |word|
  {
    if word == [] {
      assert word + rest == rest;
    } else {
      WordEnds(word[1..], rest);
      assert (word + rest)[1..] == word[1..] + rest;
    }
  }

  // ----------------------------------------------------------------- decimals

  type U32 = n: nat | n <= 0xFFFF_FFFF

  function DigitChar(n: nat): (r: char)
    requires n < 10
    ensures IsDigit(r) && DigitValue(r) == n
  {
    ('0' as int + n) as char
  }

  predicate IsDigit(c: char) {
    '0' <= c <= '9'
  }

  function DigitValue(c: char): nat
    requires IsDigit(c)
  {
    c as int - '0' as int
  }

  predicate AllDigits(s: string) {
    forall i :: 0 <= i < |s| ==> IsDigit(s[i])
  }

  function Decimal(n: nat): (r: string)
    ensures r != [] && AllDigits(r)
  {
    if n < 10 then [DigitChar(n)] else Decimal(n / 10) + [DigitChar(n % 10)]
  }

  function Value(s: string): nat
    requires AllDigits(s)
  {
    if s == [] then 0 else 10 * Value(s[..|s| - 1]) + DigitValue(s[|s| - 1])
  }

  // `u32::from_str`: an optional plus sign, then digits alone, without overflow.
  function ParseU32(s: string): Option<U32> {
    var digits := if s != [] && s[0] == '+' then s[1..] else s;
    if digits == [] || !AllDigits(digits) || Value(digits) > 0xFFFF_FFFF then None else Some(Value(digits))
  }

  lemma {:induction false} ValueOfDecimal(n: nat)
    ensures Value(Decimal(n)) == n
  {
    if n >= 10 {
      ValueOfDecimal(n / 10);
      var s := Decimal(n);
      assert s[..|s| - 1] == Decimal(n / 10);
    } else {
      assert Decimal(n)[..0] == [];
    }
  }

  lemma ParseDecimal(n: U32)
    ensures ParseU32(Decimal(n)) == Some(n) && ParseU32(['+'] + Decimal(n)) == Some(n)
  {
    ValueOfDecimal(n);
    assert IsDigit(Decimal(n)[0]);
    assert (['+'] + Decimal(n))[1..] == Decimal(n);
  }

  lemma DigitsHaveNoWhite(s: string)
    requires AllDigits(s)
    ensures NoWhite(s)
  {
  }
}
