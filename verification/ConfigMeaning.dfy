/**
  What a config string says, told from its characters: lines end at '|', line feed or carriage return, and
  blanks are space, tab and vertical tab.
*/
module ConfigMeaning {
  import opened Collections
  import opened ConfigText

  predicate IsBlank(c: char) { c == ' ' || c == '\t' || c == '\U{0B}' }

  predicate EndsLine(c: char) { c == '|' || c == '\n' || c == '\r' }

  ghost predicate AllBlank(s: string) { forall k | 0 <= k < |s| :: IsBlank(s[k]) }

  ghost predicate AllBreaks(s: string) { forall k | 0 <= k < |s| :: EndsLine(s[k]) }

  /** Something on one line, without blanks around it. */
  ghost predicate IsToken(s: string)
  {
    s != [] && !IsBlank(s[0]) && !IsBlank(s[|s| - 1]) && forall k | 0 <= k < |s| :: !EndsLine(s[k])
  }

  /** A key is no comment and holds no equals sign. */
  ghost predicate IsKey(s: string)
  {
    IsToken(s) && s[0] != '#' && forall k | 0 <= k < |s| :: s[k] != '='
  }

  /** The line is a key, an equals sign and a value, with nothing but blanks in between and at the end. */
  ghost predicate LineSays(line: string, p: Pair)
  {
    && IsKey(p.key) && IsToken(p.val)
    && exists a, b, c :: AllBlank(a) && AllBlank(b) && AllBlank(c) && line == Spelled(p, a, b, c)
  }

  function Spelled(p: Pair, a: string, b: string, c: string): string
  {
    p.key + a + "=" + b + p.val + c
  }

  /** What is left of a line when the blanks in front are gone. */
  ghost predicate IsLine(line: string)
  {
    (line != [] ==> !IsBlank(line[0])) && forall k | 0 <= k < |line| :: !EndsLine(line[k])
  }

  lemma {:induction false} Characters(c: char)
    ensures Is(c, Blank) <==> IsBlank(c)
    ensures Is(c, Break) <==> EndsLine(c)
    ensures Is(c, Sign) <==> c == '='
  {
  }

  lemma {:induction false} AllCharacters()
    ensures forall c :: Is(c, Blank) <==> IsBlank(c)
    ensures forall c :: Is(c, Break) <==> EndsLine(c)
    ensures forall c :: Is(c, Sign) <==> c == '='
  {
    forall c ensures (Is(c, Blank) <==> IsBlank(c)) && (Is(c, Break) <==> EndsLine(c)) && (Is(c, Sign) <==> c == '=') {
      Characters(c);
    }
  }

  // ----- one line -----

  lemma {:induction false} TrimRightIs(token: string, blanks: string)
    requires token != [] && !IsBlank(token[|token| - 1]) && AllBlank(blanks)
    ensures TrimRight(token + blanks) == token
    decreases |blanks|
  {
    hide Is;
    AllCharacters();
    var s := token + blanks;
    if blanks != [] {
      var less := blanks[..|blanks| - 1];
      assert s[..|s| - 1] == token + less;
      TrimRightIs(token, less);
    } else {
      assert s == token;
    }
  }

  lemma {:induction false} SpelledParts(p: Pair, a: string, b: string, c: string)
    ensures Spelled(p, a, b, c) == (p.key + a) + "=" + (b + (p.val + c))
  {
  }

  lemma {:induction false} SignIsAt(front: string, tail: string)
    requires forall k | 0 <= k < |front| :: front[k] != '='
    ensures var line := front + "=" + tail;
      SpanTo(line, Sign) == |front| && line[..|front|] == front && line[|front| + 1..] == tail
  {
    hide Is, SpanTo;
    AllCharacters();
    var line := front + "=" + tail;
    assert forall k | 0 <= k < |front| :: line[k] == front[k];
    assert line[|front|] == '=';
    SpanToIs(line, Sign, |front|);
  }

  lemma {:induction false} TrimLeftIs(blanks: string, rest: string)
    requires AllBlank(blanks) && rest != [] && !IsBlank(rest[0])
    ensures TrimLeft(blanks + rest) == rest
  {
    hide Is, Span;
    AllCharacters();
    var s := blanks + rest;
    assert forall k | 0 <= k < |blanks| :: s[k] == blanks[k];
    assert s[|blanks|] == rest[0];
    SpanIs(s, Blank, |blanks|);
  }

  /** A line that says a pair is read as that pair. */
  lemma {:induction false} SpelledIsRead(line: string, p: Pair)
    requires LineSays(line, p)
    ensures PairOn(line) == Some(p)
  {
    hide Is, SpanTo, TrimRight, TrimLeft, Spelled, AllBlank;
    var a, b, c :| AllBlank(a) && AllBlank(b) && AllBlank(c) && line == Spelled(p, a, b, c);
    SpelledParts(p, a, b, c);
    KeyHasNoSign(p.key, a);
    SignIsAt(p.key + a, b + (p.val + c));
    assert line[0] == p.key[0];
    TrimRightIs(p.key, a);
    TrimLeftIs(b, p.val + c);
    TrimRightIs(p.val, c);
  }

  lemma {:induction false} KeyHasNoSign(key: string, blanks: string)
    requires IsKey(key) && AllBlank(blanks)
    ensures forall k | 0 <= k < |key + blanks| :: (key + blanks)[k] != '='
  {
  }

  lemma {:induction false} TrimmedTail(s: string)
    ensures |TrimRight(s)| <= |s| && s == TrimRight(s) + s[|TrimRight(s)|..] && AllBlank(s[|TrimRight(s)|..])
  {
    hide Is, TrimRight;
    AllCharacters();
    TrimRightEnds(s);
  }

  lemma {:induction false} LeadingBlanks(s: string)
    ensures |TrimLeft(s)| <= |s|
    ensures var n := |s| - |TrimLeft(s)|;
      && AllBlank(s[..n]) && s == s[..n] + TrimLeft(s) && s[n..] == TrimLeft(s)
      && (TrimLeft(s) != [] ==> !IsBlank(TrimLeft(s)[0]))
  {
    hide Is, Span;
    AllCharacters();
    SpanEnds(s, Blank);
  }

  lemma {:induction false} SignSplits(line: string)
    requires SpanTo(line, Sign) < |line|
    ensures var at := SpanTo(line, Sign);
      line == line[..at] + "=" + line[at + 1..] && forall k | 0 <= k < at :: line[k] != '='
  {
    hide Is, SpanTo;
    AllCharacters();
    SpanToEnds(line, Sign);
  }

  /** A pair that is read off a line is what the line says. */
  lemma {:induction false} ReadIsSpelled(line: string)
    requires IsLine(line) && PairOn(line).Some?
    ensures LineSays(line, PairOn(line).value)
  {
    hide Is, SpanTo, TrimRight, TrimLeft, AllBlank, Spelled, IsKey, IsToken, IsLine;
    var p, at := PairOn(line).value, SpanTo(line, Sign);
    var front, tail := line[..at], line[at + 1..];
    SignSplits(line);
    KeyIsKey(line, at, p.key);
    ValueIsToken(line, at + 1, p.val);
    TrimmedTail(front);
    var b, c := ValueParts(tail, p.val);
    SpelledParts(p, front[|p.key|..], b, c);
  }

  /** A value after its equals sign, with the blanks around it. */
  lemma {:induction false} ValueParts(tail: string, val: string) returns (b: string, c: string)
    requires val == TrimRight(TrimLeft(tail))
    ensures AllBlank(b) && AllBlank(c) && tail == b + (val + c)
  {
    hide Is, TrimRight, TrimLeft, AllBlank;
    LeadingBlanks(tail);
    var rest := TrimLeft(tail);
    TrimmedTail(rest);
    b, c := tail[..|tail| - |rest|], rest[|val|..];
  }

  lemma {:induction false} KeyIsKey(line: string, at: nat, key: string)
    requires IsLine(line) && 0 < at <= |line| && line[0] != '#' && (forall k | 0 <= k < at :: line[k] != '=')
    requires key == TrimRight(line[..at])
    ensures IsKey(key)
  {
    hide Is, TrimRight;
    AllCharacters();
    var front := line[..at];
    TrimRightEnds(front);
    assert forall k | 0 <= k < |key| :: key[k] == line[k];
  }

  lemma {:induction false} ValueIsToken(line: string, from: nat, val: string)
    requires IsLine(line) && from <= |line| && TrimLeft(line[from..]) != [] && val == TrimRight(TrimLeft(line[from..]))
    ensures IsToken(val)
  {
    hide Is, TrimRight, TrimLeft;
    AllCharacters();
    var tail := line[from..];
    var rest := TrimLeft(tail);
    LeadingBlanks(tail);
    TrimRightEnds(rest);
    assert forall k | 0 <= k < |rest| :: rest[k] == line[|line| - |rest| + k];
    assert forall k | 0 <= k < |val| :: val[k] == rest[k];
  }

  /** A pair is read off a line if and only if the line says it. */
  lemma {:induction false} ReadExactlyWhenSaid(line: string, p: Pair)
    requires IsLine(line)
    ensures PairOn(line) == Some(p) <==> LineSays(line, p)
  {
    if PairOn(line).Some? {
      ReadIsSpelled(line);
    }
    if LineSays(line, p) {
      SpelledIsRead(line, p);
    }
  }

  // ----- whole texts -----

  /** The text begins with this line: blanks, the line, and the breaks in front of the rest. */
  ghost predicate BeginsWith(s: string, blanks: string, line: string, breaks: string, rest: string)
  {
    && s == blanks + line + breaks + rest
    && AllBlank(blanks) && IsLine(line) && AllBreaks(breaks)
    && (rest != [] ==> breaks != [] && !EndsLine(rest[0]))
  }

  lemma {:induction false} FirstLineIs(s: string, blanks: string, line: string, breaks: string, rest: string)
    requires BeginsWith(s, blanks, line, breaks, rest)
    ensures FirstLine(s) == Line(|blanks|, |blanks| + |line|, |blanks| + |line| + |breaks|)
    ensures s[|blanks|..|blanks| + |line|] == line && s[|blanks| + |line| + |breaks|..] == rest
  {
    hide Is, Span, SpanTo;
    AllCharacters();
    var from, to := |blanks|, |blanks| + |line|;
    assert forall k | 0 <= k < from :: s[k] == blanks[k];
    assert forall k | from <= k < to :: s[k] == line[k - from];
    assert forall k | to <= k < to + |breaks| :: s[k] == breaks[k - to];
    assert to + |breaks| < |s| ==> s[to + |breaks|] == rest[0];
    SpanIs(s, Blank, from);
    SpanToIs(s[from..], Break, |line|);
    SpanIs(s[to..], Break, |breaks|);
  }

  /**
    Parsing reads a text line by line: the pair that the first line says, if it says one, and then the
    pairs of the rest.
  */
  lemma {:induction false} ParseReadsLines(s: string, blanks: string, line: string, breaks: string, rest: string)
    requires s != [] && BeginsWith(s, blanks, line, breaks, rest)
    ensures forall p | LineSays(line, p) :: Parse(s) == [p] + Parse(rest)
    ensures (forall p :: !LineSays(line, p)) ==> Parse(s) == Parse(rest)
  {
    hide PairOn, LineSays, FirstLine;
    FirstLineIs(s, blanks, line, breaks, rest);
    forall p ensures PairOn(line) == Some(p) <==> LineSays(line, p) {
      ReadExactlyWhenSaid(line, p);
    }
    if PairOn(line).Some? {
      assert LineSays(line, PairOn(line).value);
    } else {
      assert [] + Parse(rest) == Parse(rest);
    }
  }

  /** Every text begins with a line in that sense. */
  lemma {:induction false} EveryTextBegins(s: string)
    returns (blanks: string, line: string, breaks: string, rest: string)
    ensures BeginsWith(s, blanks, line, breaks, rest) && (s != [] ==> |rest| < |s|)
  {
    hide Is, SpanTo, Span, AllBlank, AllBreaks, IsLine;
    var l := FirstLine(s);
    blanks, line, breaks, rest := s[..l.begin], s[l.begin..l.end], s[l.end..l.next], s[l.next..];
    assert s == blanks + line + breaks + rest;
    LineParts(s);
  }

  lemma {:induction false} LineParts(s: string)
    ensures var l := FirstLine(s);
      && AllBlank(s[..l.begin]) && IsLine(s[l.begin..l.end]) && AllBreaks(s[l.end..l.next])
      && (l.next < |s| ==> l.end < l.next && !EndsLine(s[l.next]))
  {
    hide Is, SpanTo, Span, AllBlank, AllBreaks, IsLine;
    var l := FirstLine(s);
    LeadingBlanks(s);
    LineIsLine(s);
    BreaksAt(s, l.end);
  }

  lemma {:induction false} LineIsLine(s: string)
    ensures IsLine(s[FirstLine(s).begin..FirstLine(s).end])
  {
    hide Is, FirstLine;
    AllCharacters();
    LineHasNoBreak(s);
  }

  lemma {:induction false} BreaksAt(s: string, end: nat)
    requires end <= |s|
    ensures var next := end + Span(s[end..], Break);
      next <= |s| && AllBreaks(s[end..next]) && (next < |s| ==> !EndsLine(s[next]))
  {
    hide Is, Span;
    AllCharacters();
    SpanEnds(s[end..], Break);
  }
}
