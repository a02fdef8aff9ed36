/**
  Simplifying a config string in place (nvtxw3.cpp): the consumer writes to the front of the very
  buffer whose rest is still being parsed.
*/
module ConfigSimplifier {
  import opened Collections
  import opened ConfigText

  const NUL := 0 as char

  /** From a place on, the buffer holds text that ends at the terminator. */
  ghost predicate TextFrom(a: array<char>, from: nat, n: nat)
    reads a
  {
    from <= n < a.Length && a[n] == NUL && forall k | from <= k < n :: a[k] != NUL
  }

  method StrSpn(a: array<char>, i: nat, kind: Kind, ghost n: nat, ghost text: string) returns (k: nat)
    requires i <= n && TextFrom(a, i, n) && text == a[..] && kind != Nul
    ensures k == Span(text[i..n], kind)
  {
    k := 0;
    while Is(a[i + k], kind)
      invariant i + k <= n && forall j | 0 <= j < k :: Is(text[i..n][j], kind)
      decreases n - k
    {
      k := k + 1;
    }
    SpanIs(text[i..n], kind, k);
  }

  method StrCSpn(a: array<char>, i: nat, kind: Kind, ghost n: nat, ghost text: string) returns (k: nat)
    requires i <= n && TextFrom(a, i, n) && text == a[..]
    ensures k == SpanTo(text[i..n], kind)
  {
    k := 0;
    while a[i + k] != NUL && !Is(a[i + k], kind)
      invariant i + k <= n && forall j | 0 <= j < k :: !Is(text[i..n][j], kind)
      decreases n - k
    {
      k := k + 1;
    }
    SpanToIs(text[i..n], kind, k);
  }

  /** Drop trailing whitespace from a range that starts with something else. */
  method TrimEnd(a: array<char>, begin: nat, from: nat, ghost text: string) returns (end: nat)
    requires begin < from <= a.Length && !Is(a[begin], Blank) && text == a[..]
    ensures begin < end <= from && text[begin..end] == TrimRight(text[begin..from])
  {
    end := from;
    while Is(a[end - 1], Blank)
      invariant begin < end <= from
      invariant TrimRight(text[begin..end]) == TrimRight(text[begin..from])
      decreases end
    {
      assert text[begin..end][..end - 1 - begin] == text[begin..end - 1];
      end := end - 1;
    }
  }

  /** The first sign in a range, or the end of the range. */
  method FindSign(a: array<char>, begin: nat, end: nat, ghost text: string) returns (keyEnd: nat)
    requires begin <= end <= a.Length && text == a[..]
    ensures begin <= keyEnd <= end && keyEnd - begin == SpanTo(text[begin..end], Sign)
  {
    keyEnd := begin;
    while keyEnd < end && a[keyEnd] != '='
      invariant begin <= keyEnd <= end
      invariant forall k | 0 <= k < keyEnd - begin :: text[begin..end][k] != '='
    {
      keyEnd := keyEnd + 1;
    }
    SignAt(text[begin..end], keyEnd - begin);
  }

  /** The pair on a line as ranges of the buffer, if there is one. */
  method FindPair(a: array<char>, lineBegin: nat, lineEnd: nat, ghost n: nat, ghost text: string)
    returns (found: bool, keyEnd: nat, valBegin: nat, valEnd: nat)
    requires lineBegin <= lineEnd <= n && TextFrom(a, lineBegin, n) && text == a[..]
    requires lineBegin < lineEnd ==> !Is(a[lineBegin], Blank)
    requires !Is(a[lineEnd], Blank)
    ensures
      match PairOn(text[lineBegin..lineEnd])
      case None => !found
      case Some(p) =>
        && found && lineBegin < keyEnd < valBegin < valEnd <= lineEnd
        && p == Pair(text[lineBegin..keyEnd], text[valBegin..valEnd])
  {
    hide Is, Span, SpanTo, TrimRight, TrimLeft, PairOn;
    found, keyEnd, valBegin, valEnd := false, lineBegin, lineBegin, lineBegin;
    NoPair(text[lineBegin..lineEnd]);
    if lineBegin == lineEnd {
      return;
    }
    if a[lineBegin] == '#' {
      return;
    }
    keyEnd := FindSign(a, lineBegin, lineEnd, text);
    PairAt(text, lineBegin, lineEnd);
    if keyEnd == lineEnd {
      return;
    }
    if keyEnd == lineBegin {
      return;
    }
    valBegin := FindValue(a, keyEnd, lineEnd, n, text);
    if valBegin == lineEnd {
      return;
    }
    keyEnd := TrimEnd(a, lineBegin, keyEnd, text);
    valEnd := TrimEnd(a, valBegin, lineEnd, text);
    found := true;
  }

  /** Where a value begins behind the sign, or the end of the line. */
  method FindValue(a: array<char>, keyEnd: nat, lineEnd: nat, ghost n: nat, ghost text: string) returns (valBegin: nat)
    requires keyEnd < lineEnd <= n && TextFrom(a, keyEnd + 1, n) && text == a[..]
    requires !Is(a[lineEnd], Blank)
    ensures keyEnd < valBegin <= lineEnd && valBegin == keyEnd + 1 + Span(text[keyEnd + 1..lineEnd], Blank)
  {
    hide Is, Span;
    valBegin := keyEnd + 1;
    var skipped := StrSpn(a, valBegin, Blank, n, text);
    BlanksInLine(text[valBegin..n], lineEnd - valBegin);
    assert text[valBegin..n][..lineEnd - valBegin] == text[valBegin..lineEnd];
    valBegin := valBegin + skipped;
  }

  /** What a line of a text holds, by where its sign stands and how much whitespace follows it. */
  lemma {:induction false} PairAt(text: string, begin: nat, end: nat)
    requires begin < end <= |text| && text[begin] != '#'
    ensures
      var at := begin + SpanTo(text[begin..end], Sign);
      if at == end || at == begin then PairOn(text[begin..end]) == None
      else
        var from := at + 1 + Span(text[at + 1..end], Blank);
        if from == end then PairOn(text[begin..end]) == None
        else
          && PairOn(text[begin..end]) == Some(Pair(TrimRight(text[begin..at]), TrimRight(text[from..end])))
          && !Is(text[from], Blank)
  {
    hide Is, Span, SpanTo, TrimRight, TrimLeft, PairOn;
    var line := text[begin..end];
    PairParts(line);
    var at := SpanTo(line, Sign);
    if at < |line| {
      Parts(text, begin, end, at, 0);
      var skipped := Span(line[at + 1..], Blank);
      Parts(text, begin, end, at, skipped);
    }
  }

  lemma {:induction false} NoPair(line: string)
    ensures line == [] || line[0] == '#' ==> PairOn(line) == None
  {
  }

  /** What a line holds, by where its sign stands and how much whitespace follows it. */
  lemma {:induction false} PairParts(line: string)
    requires line != [] && line[0] != '#'
    ensures
      var at := SpanTo(line, Sign);
      if at == |line| || at == 0 then PairOn(line) == None
      else
        var skipped := Span(line[at + 1..], Blank);
        if at + 1 + skipped == |line| then PairOn(line) == None
        else
          && PairOn(line) == Some(Pair(TrimRight(line[..at]), TrimRight(line[at + 1 + skipped..])))
          && !Is(line[at + 1 + skipped], Blank)
  {
    hide Is, Span, SpanTo, TrimRight;
    var at := SpanTo(line, Sign);
    if at < |line| {
      var tail := line[at + 1..];
      var skipped := Span(tail, Blank);
      SpanEnds(tail, Blank);
      assert tail[skipped..] == line[at + 1 + skipped..];
      if skipped < |tail| {
        assert tail[skipped] == line[at + 1 + skipped];
      }
    }
  }

  lemma {:induction false} Parts(text: string, begin: nat, end: nat, at: nat, skipped: nat)
    requires begin + at + 1 + skipped <= end <= |text|
    ensures text[begin..end][..at] == text[begin..begin + at]
    ensures text[begin..end][at + 1 + skipped..] == text[begin + at + 1 + skipped..end]
  {
  }

  lemma {:induction false} SignAt(line: string, at: nat)
    requires at <= |line| && (forall k | 0 <= k < at :: line[k] != '=') && (at < |line| ==> line[at] == '=')
    ensures SpanTo(line, Sign) == at
  {
    SpanToIs(line, Sign, at);
  }

  /** Leading whitespace is the same with and without what follows the line. */
  lemma {:induction false} BlanksInLine(s: string, n: nat)
    requires n <= |s| && (n < |s| ==> !Is(s[n], Blank))
    ensures Span(s, Blank) == Span(s[..n], Blank)
  {
    hide Is, Span;
    var k := Span(s, Blank);
    SpanEnds(s, Blank);
    assert k <= n;
    SpanIs(s[..n], Blank, k);
  }

  // ----- writing -----

  /** The text with a part of it replaced. */
  function Overwrite(text: string, at: nat, part: string): (r: string)
    requires at + |part| <= |text|
    ensures |r| == |text|
  {
    text[..at] + part + text[at + |part|..]
  }

  lemma {:induction false} OverwriteNext(text: string, at: nat, a: string, b: string)
    requires at + |a| + |b| <= |text|
    ensures Overwrite(Overwrite(text, at, a), at + |a|, b) == Overwrite(text, at, a + b)
  {
  }

  lemma {:induction false} OverwriteSpares(text: string, at: nat, part: string, from: nat, to: nat)
    requires at + |part| <= from <= to <= |text|
    ensures Overwrite(text, at, part)[from..to] == text[from..to]
  {
  }

  method MemMove(a: array<char>, dst: nat, src: nat, size: nat)
    requires dst + size <= a.Length && src + size <= a.Length
    modifies a
    ensures a[..] == Overwrite(old(a[..]), dst, old(a[..])[src..src + size])
  {
    forall k | 0 <= k < size {
      a[dst + k] := a[src + k];
    }
  }

  method PutChar(a: array<char>, at: nat, c: char)
    requires at < a.Length
    modifies a
    ensures a[..] == Overwrite(old(a[..]), at, [c])
  {
    a[at] := c;
  }

  /** Write a pair at the write position, from ranges of the same buffer that lie behind it. */
  method ConsumeForSimplify(a: array<char>, curWrite: nat, keyBegin: nat, keyEnd: nat, valBegin: nat, valEnd: nat)
    returns (next: nat)
    requires curWrite <= keyBegin < keyEnd < valBegin < valEnd < a.Length
    modifies a
    ensures
      var text := old(a[..]);
      var line := RenderPair(Pair(text[keyBegin..keyEnd], text[valBegin..valEnd]));
      && next == curWrite + |line| <= valEnd + 1
      && a[..] == Overwrite(text, curWrite, line)
  {
    hide Overwrite;
    ghost var text := a[..];
    ghost var key, val := text[keyBegin..keyEnd], text[valBegin..valEnd];
    var size := keyEnd - keyBegin;
    MemMove(a, curWrite, keyBegin, size);
    next := curWrite + size;
    PutChar(a, next, '=');
    OverwriteNext(text, curWrite, key, "=");
    next := next + 1;
    OverwriteSpares(text, curWrite, key + "=", valBegin, valEnd);
    size := valEnd - valBegin;
    MemMove(a, next, valBegin, size);
    OverwriteNext(text, curWrite, key + "=", val);
    next := next + size;
    PutChar(a, next, '\n');
    OverwriteNext(text, curWrite, key + "=" + val, "\n");
    next := next + 1;
  }

  // ----- the whole buffer -----

  /** One step of the parser on what is left to read. */
  lemma {:induction false} ParseStep(done: seq<Pair>, text: string, at: nat)
    requires at < |text| && done + Parse(text[at..]) == Parse(text)
    ensures
      var l := FirstLine(text[at..]);
      var p := PairOn(text[at..][l.begin..l.end]);
      && text[at..][l.begin..l.end] == text[at + l.begin..at + l.end]
      && text[at..][l.next..] == text[at + l.next..]
      && (p.None? ==> done + Parse(text[at + l.next..]) == Parse(text))
      && (p.Some? ==> (done + [p.value]) + Parse(text[at + l.next..]) == Parse(text))
  {
    hide FirstLine, PairOn, Parse;
    var rest := text[at..];
    var l := FirstLine(rest);
    var p := PairOn(rest[l.begin..l.end]);
    Sliced(text, at, l.begin, l.end);
    Sliced(text, at, l.next, |rest|);
    ParseUnfold(rest);
    var more := Parse(rest[l.next..]);
    if p.Some? {
      Regroup(done, [p.value], more);
    } else {
      assert [] + more == more;
    }
  }

  lemma {:induction false} ParseUnfold(s: string)
    requires s != []
    ensures var l := FirstLine(s); Parse(s) == Maybe(PairOn(s[l.begin..l.end])) + Parse(s[l.next..])
  {
  }

  lemma {:induction false} Sliced(text: string, at: nat, from: nat, to: nat)
    requires at <= |text| && from <= to <= |text| - at
    ensures text[at..][from..to] == text[at + from..at + to]
    ensures to == |text| - at ==> text[at..][from..] == text[at + from..]
  {
  }

  /** Where the next line of the buffer begins and ends, and where the one after it begins. */
  method ReadLine(a: array<char>, curRead: nat, ghost n: nat, ghost text: string)
    returns (begin: nat, end: nat, next: nat)
    requires TextFrom(a, curRead, n) && text == a[..]
    ensures curRead <= begin <= end <= next <= n
    ensures Line(begin - curRead, end - curRead, next - curRead) == FirstLine(text[curRead..n])
    ensures !Is(a[end], Blank) && (begin < end ==> !Is(a[begin], Blank))
  {
    hide Span, SpanTo;
    var k := StrSpn(a, curRead, Blank, n, text);
    begin := curRead + k;
    k := StrCSpn(a, begin, Break, n, text);
    end := begin + k;
    k := StrSpn(a, end, Break, n, text);
    next := end + k;
    ghost var rest := text[curRead..n];
    assert rest[begin - curRead..] == text[begin..n] && rest[end - curRead..] == text[end..n];
    SpanEnds(rest, Blank);
    SpanToEnds(text[begin..n], Break);
  }

  /**
    Simplify a config string in place, in a buffer of just its length with the terminator. Unless
    nothing can be left out of the text, the buffer then holds exactly the simplified text, which means
    the same and would be left as it is; otherwise the simplified text fills the whole buffer and its last
    line break replaces the terminator that the parser reads next.
  */
  method SimplifyConfigHeapString(a: array<char>, ghost n: nat) returns (safe: bool, curWrite: nat)
    requires a.Length == n + 1 && TextFrom(a, 0, n)
    modifies a
    ensures safe <==> !Tight(old(a[..n]))
    ensures !safe ==> a[..] == Render(Parse(old(a[..n]))) && a[n] == '\n'
    ensures safe ==> TextFrom(a, 0, curWrite) && a[..curWrite] == Render(Parse(old(a[..n])))
    ensures safe ==> Parse(a[..curWrite]) == Parse(old(a[..n])) && Render(Parse(a[..curWrite])) == a[..curWrite]
  {
    hide Tight, Parse, Render;
    ghost var text := a[..n];
    ghost var done: seq<Pair> := [];
    var curRead := 0;
    curWrite := 0;
    assert text[0..] == text && [] + Parse(text) == Parse(text);
    EmptyIsNotTight();
    safe := true;
    while a[curRead] != NUL
      invariant Halfway(a[..], text, curRead, curWrite, done)
      decreases n - curRead
    {
      safe, curRead, curWrite, done := SimplifyLine(a, curRead, curWrite, text, done);
      if !safe {
        SimplifiedLength(text);
        RenderEndsWithBreak(done);
        assert a[n] == a[..][n];
        return;
      }
    }
    AtTerminator(a[..], text, curRead, curWrite, done);
    SimplifiedLength(text);
    ghost var before := a[..];
    a[curWrite] := NUL;
    assert a[..curWrite] == before[..curWrite];
    SimplifyingKeepsTheMeaning(text);
    NoNul(text, a[..curWrite]);
  }

  lemma {:induction false} RenderEndsWithBreak(ps: seq<Pair>)
    requires ps != []
    ensures Render(ps) != [] && Render(ps)[|Render(ps)| - 1] == '\n'
    decreases |ps|
  {
    if |ps| > 1 {
      RenderEndsWithBreak(ps[1..]);
    }
  }

  lemma {:induction false} NoNul(text: string, simplified: string)
    requires (forall k | 0 <= k < |text| :: text[k] != NUL) && simplified == Render(Parse(text))
    ensures forall k | 0 <= k < |simplified| :: simplified[k] != NUL
  {
    SimplifiedWithoutNul(text);
  }

  /** The unread text is untouched, and in front of it stands what was read, simplified. */
  ghost predicate Halfway(now: string, text: string, curRead: nat, curWrite: nat, done: seq<Pair>)
  {
    var n := |text|;
    && |now| == n + 1 && now[n] == NUL && (forall k | 0 <= k < n :: text[k] != NUL)
    && curWrite <= curRead <= n
    && now[curRead..n] == text[curRead..]
    && now[..curWrite] == Render(done)
    && done + Parse(text[curRead..]) == Parse(text)
  }

  lemma {:induction false} AtTerminator(now: string, text: string, curRead: nat, curWrite: nat, done: seq<Pair>)
    requires Halfway(now, text, curRead, curWrite, done) && now[curRead] == NUL
    ensures curRead == |text| && done == Parse(text)
  {
  }

  /** Read one line and write its pair, unless the terminator had to give way to the line break. */
  method SimplifyLine(a: array<char>, curRead: nat, curWrite: nat, ghost text: string, ghost done: seq<Pair>)
    returns (safe: bool, nextRead: nat, nextWrite: nat, ghost nowDone: seq<Pair>)
    requires Halfway(a[..], text, curRead, curWrite, done) && a[curRead] != NUL
    modifies a
    ensures safe ==> curRead < nextRead && Halfway(a[..], text, nextRead, nextWrite, nowDone)
    ensures !safe ==> nowDone == Parse(text) && |Render(nowDone)| == |text| + 1 && a[..] == Render(nowDone)
  {
    hide FirstLine, PairOn, RenderPair, Overwrite, Parse, Render, Is, Halfway;
    ghost var n, now := |text|, a[..];
    Reading(now, text, curRead, curWrite, done);
    var lineBegin, lineEnd, next := ReadLine(a, curRead, n, now);
    nextRead, nextWrite, nowDone, safe := next, curWrite, done, true;
    var found, keyEnd, valBegin, valEnd := FindPair(a, lineBegin, lineEnd, n, now);
    if found {
      ghost var p := Pair(now[lineBegin..keyEnd], now[valBegin..valEnd]);
      nextWrite := ConsumeForSimplify(a, curWrite, lineBegin, keyEnd, valBegin, valEnd);
      nowDone := done + [p];
      LineWritten(now, text, curRead, curWrite, done, p, lineBegin, lineEnd, next);
      safe := nextWrite <= nextRead;
    } else {
      LineSkipped(now, text, curRead, curWrite, done, lineBegin, lineEnd, next);
    }
  }

  /** What can be read halfway. */
  lemma {:induction false} Reading(now: string, text: string, curRead: nat, curWrite: nat, done: seq<Pair>)
    requires Halfway(now, text, curRead, curWrite, done)
    ensures curWrite <= curRead <= |text| < |now| && now[|text|] == NUL
    ensures forall k | curRead <= k < |text| :: now[k] != NUL
    ensures now[curRead..|text|] == text[curRead..]
  {
    StillText(now, text, curRead, |text|);
  }

  /** A line of the text as the buffer still holds it. */
  ghost predicate IsNextLine(text: string, curRead: nat, begin: nat, end: nat, next: nat)
  {
    && curRead <= begin <= end <= next <= |text|
    && Line(begin - curRead, end - curRead, next - curRead) == FirstLine(text[curRead..])
  }

  lemma {:induction false} LineSkipped(now: string, text: string, curRead: nat, curWrite: nat, done: seq<Pair>,
                                       begin: nat, end: nat, next: nat)
    requires Halfway(now, text, curRead, curWrite, done) && curRead < |text|
    requires IsNextLine(text, curRead, begin, end, next)
    requires PairOn(now[begin..end]) == None
    ensures curRead < next && Halfway(now, text, next, curWrite, done)
  {
    hide FirstLine, PairOn, Parse, Render;
    ParseStep(done, text, curRead);
    Inside(now, text, curRead, |text|, begin, end);
    Inside(now, text, curRead, |text|, next, |text|);
    assert text[next..] == text[next..|text|];
  }

  lemma {:induction false} LineWritten(now: string, text: string, curRead: nat, curWrite: nat, done: seq<Pair>, p: Pair,
                                       begin: nat, end: nat, next: nat)
    requires Halfway(now, text, curRead, curWrite, done) && curRead < |text|
    requires IsNextLine(text, curRead, begin, end, next)
    requires PairOn(now[begin..end]) == Some(p) && curWrite + |RenderPair(p)| <= end + 1
    ensures
      var after, nextWrite := Overwrite(now, curWrite, RenderPair(p)), curWrite + |RenderPair(p)|;
      && curRead < next
      && (nextWrite <= next ==> Halfway(after, text, next, nextWrite, done + [p]))
      && (nextWrite > next ==>
            && done + [p] == Parse(text) && |Render(done + [p])| == |text| + 1
            && after == Render(done + [p]))
  {
    hide FirstLine, PairOn, Parse, Render, RenderPair, Overwrite;
    var n := |text|;
    ParseStep(done, text, curRead);
    Inside(now, text, curRead, n, begin, end);
    Inside(now, text, curRead, n, next, n);
    assert text[next..] == text[next..n];
    RenderOneMore(done, p);
    Written(now, curWrite, RenderPair(p), next, n);
    if curWrite + |RenderPair(p)| > next {
      NothingLeft(text, done + [p]);
      var after := Overwrite(now, curWrite, RenderPair(p));
      assert after[..|after|] == after;
    }
  }

  lemma {:induction false} NothingLeft(text: string, done: seq<Pair>)
    ensures text[|text|..] == [] && Parse([]) == [] && done + [] == done
  {
  }

  lemma {:induction false} Inside(now: string, text: string, from: nat, n: nat, i: nat, j: nat)
    requires |text| == n < |now| && from <= i <= j <= n && now[from..n] == text[from..]
    ensures now[i..j] == text[i..j]
  {
    forall k | i <= k < j ensures now[k] == text[k] {
      assert now[k] == now[from..n][k - from] && text[k] == text[from..][k - from];
    }
  }

  lemma {:induction false} StillText(now: string, text: string, from: nat, n: nat)
    requires |text| == n < |now| && from <= n && now[from..n] == text[from..]
    requires forall k | 0 <= k < n :: text[k] != NUL
    ensures forall k | from <= k < n :: now[k] != NUL
  {
  }

  /** Writing in front of the read position adds to the written text and spares the rest. */
  lemma {:induction false} Written(text: string, at: nat, part: string, next: nat, n: nat)
    requires at + |part| <= |text| && n < |text| && next <= n
    ensures var r := Overwrite(text, at, part);
      && r[..at + |part|] == text[..at] + part
      && (at + |part| <= next ==> r[next..n] == text[next..n] && r[n] == text[n])
  {
  }

  lemma {:induction false} RenderOneMore(done: seq<Pair>, p: Pair)
    ensures Render(done + [p]) == Render(done) + RenderPair(p)
  {
    RenderConcat(done, [p]);
    assert [p][1..] == [];
  }
}
