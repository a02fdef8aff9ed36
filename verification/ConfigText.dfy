/**
  NVTXW config strings: lines with a key and a value (nvtxw3.h). What parsing means, and that
  simplified text means the same.
*/
module ConfigText {
  import opened Collections

  /** Kinds of characters: those trimmed, those that end a line, the sign between key and value, the terminator. */
  datatype Kind = Blank | Break | Sign | Nul

  predicate Is(c: char, kind: Kind)
  {
    match kind
    case Blank => c in [' ', '\t', 11 as char]
    case Break => c in "|\n\r"
    case Sign => c == '='
    case Nul => c == 0 as char
  }

  datatype Pair = Pair(key: string, val: string)

  /** How many characters at the front are of a kind. */
  function Span(s: string, kind: Kind): (k: nat)
    ensures k <= |s|
  {
    if s != [] && Is(s[0], kind) then 1 + Span(s[1..], kind) else 0
  }

  lemma {:induction false} SpanEnds(s: string, kind: Kind)
    ensures forall j | 0 <= j < Span(s, kind) :: Is(s[j], kind)
    ensures Span(s, kind) < |s| ==> !Is(s[Span(s, kind)], kind)
    decreases |s|
  {
    if s != [] && Is(s[0], kind) {
      SpanEnds(s[1..], kind);
    }
  }

  /** How many characters stand in front of the first one of a kind. */
  function SpanTo(s: string, kind: Kind): (k: nat)
    ensures k <= |s|
  {
    if s != [] && !Is(s[0], kind) then 1 + SpanTo(s[1..], kind) else 0
  }

  lemma {:induction false} SpanToEnds(s: string, kind: Kind)
    ensures forall j | 0 <= j < SpanTo(s, kind) :: !Is(s[j], kind)
    ensures SpanTo(s, kind) < |s| ==> Is(s[SpanTo(s, kind)], kind)
    decreases |s|
  {
    if s != [] && !Is(s[0], kind) {
      SpanToEnds(s[1..], kind);
    }
  }

  function TrimRight(s: string): (r: string)
    ensures |r| <= |s|
  {
    if s != [] && Is(s[|s| - 1], Blank) then TrimRight(s[..|s| - 1]) else s
  }

  lemma {:induction false} TrimRightEnds(s: string)
    ensures TrimRight(s) <= s && (TrimRight(s) != [] ==> !Is(TrimRight(s)[|TrimRight(s)| - 1], Blank))
    ensures forall k | |TrimRight(s)| <= k < |s| :: Is(s[k], Blank)
    decreases |s|
  {
    if s != [] && Is(s[|s| - 1], Blank) {
      TrimRightEnds(s[..|s| - 1]);
    }
  }

  function TrimLeft(s: string): string { s[Span(s, Blank)..] }

  /** The pair on a line, unless the line is blank, a comment, or lacks a key, a value or the sign between. */
  function PairOn(line: string): Option<Pair>
  {
    if line == [] || line[0] == '#' then None
    else
      var at := SpanTo(line, Sign);
      if at == |line| || at == 0 then None
      else
        var val := TrimLeft(line[at + 1..]);
        if val == [] then None else Some(Pair(TrimRight(line[..at]), TrimRight(val)))
  }

  /** A line after its leading whitespace: where it begins and ends, and where the next one begins. */
  datatype Line = Line(begin: nat, end: nat, next: nat)

  function FirstLine(s: string): (l: Line)
    ensures l.begin <= l.end <= l.next <= |s|
    ensures s != [] ==> l.next > 0
    ensures l.end < |s| ==> l.end < l.next
  {
    var begin := Span(s, Blank);
    var end := begin + SpanTo(s[begin..], Break);
    SpanEnds(s, Blank);
    SpanToEnds(s[begin..], Break);
    Line(begin, end, end + Span(s[end..], Break))
  }

  function Maybe<T>(o: Option<T>): seq<T> { if o.Some? then [o.value] else [] }

  function Parse(s: string): seq<Pair>
  {
    if s == [] then []
    else
      var l := FirstLine(s);
      Maybe(PairOn(s[l.begin..l.end])) + Parse(s[l.next..])
  }

  function RenderPair(p: Pair): string { p.key + "=" + p.val + "\n" }

  /** Simplified text: one line for each pair, without anything else. */
  function Render(ps: seq<Pair>): string
  {
    if ps == [] then [] else RenderPair(ps[0]) + Render(ps[1..])
  }

  // ----- pairs that can be written -----

  ghost predicate Without(s: string, kind: Kind)
  {
    forall k | 0 <= k < |s| :: !Is(s[k], kind)
  }

  ghost predicate Bare(s: string)
  {
    s != [] && !Is(s[0], Blank) && !Is(s[|s| - 1], Blank) && Without(s, Break)
  }

  ghost predicate Writable(p: Pair)
  {
    Bare(p.key) && p.key[0] != '#' && Without(p.key, Sign) && Bare(p.val)
  }

  ghost predicate AllWritable(ps: seq<Pair>)
  {
    forall k | 0 <= k < |ps| :: Writable(ps[k])
  }

  lemma {:induction false} TrimmedIsBare(s: string)
    requires s != [] && !Is(s[0], Blank) && Without(s, Break)
    ensures Bare(TrimRight(s)) && TrimRight(s)[0] == s[0]
  {
    hide Is, TrimRight;
    TrimRightEnds(s);
  }

  lemma {:induction false} PartWithout(s: string, from: nat, to: nat, kind: Kind)
    requires from <= to <= |s| && forall k | from <= k < to :: !Is(s[k], kind)
    ensures Without(s[from..to], kind)
  {
  }

  lemma {:induction false} PairIsWritable(line: string)
    requires Without(line, Break) && (line != [] ==> !Is(line[0], Blank)) && PairOn(line).Some?
    ensures Writable(PairOn(line).value)
  {
    hide Is, Span, SpanTo, TrimRight, Bare, Without;
    var at := SpanTo(line, Sign);
    assert forall k | 0 <= k < |line| :: !Is(line[k], Break) by { WithoutAny(line, Break); }
    var from := at + 1 + Span(line[at + 1..], Blank);
    var key, val := line[..at], line[from..];
    SpanToEnds(line, Sign);
    SpanEnds(line[at + 1..], Blank);
    assert val == TrimLeft(line[at + 1..]);
    PartWithout(line, 0, at, Sign);
    PartWithout(line, 0, at, Break);
    PartWithout(line, from, |line|, Break);
    assert key == line[0..at] && val == line[from..|line|];
    assert val[0] == line[at + 1..][from - at - 1];
    TrimmedIsBare(key);
    TrimmedIsBare(val);
    TrimmedWithout(key, Sign);
  }

  lemma {:induction false} WithoutAny(s: string, kind: Kind)
    requires Without(s, kind)
    ensures forall k | 0 <= k < |s| :: !Is(s[k], kind)
  {
  }

  lemma {:induction false} TrimmedWithout(s: string, kind: Kind)
    requires Without(s, kind)
    ensures Without(TrimRight(s), kind)
  {
    hide Is, TrimRight;
    TrimRightEnds(s);
  }

  lemma {:induction false} LineHasNoBreak(s: string)
    ensures var l := FirstLine(s);
      && Without(s[l.begin..l.end], Break)
      && (l.begin < l.end ==> !Is(s[l.begin], Blank))
  {
    hide Is, Span, SpanTo;
    var l := FirstLine(s);
    SpanEnds(s, Blank);
    SpanToEnds(s[l.begin..], Break);
    assert forall k | l.begin <= k < l.end :: s[k] == s[l.begin..][k - l.begin];
  }

  /** Everything that parsing finds can be written. */
  lemma {:induction false} ParsedPairsAreWritable(s: string)
    ensures AllWritable(Parse(s))
    decreases |s|
  {
    if s != [] {
      hide FirstLine, PairOn, Writable, Without, Is;
      var l := FirstLine(s);
      var line := s[l.begin..l.end];
      LineHasNoBreak(s);
      if PairOn(line).Some? {
        assert line[0] == s[l.begin];
        PairIsWritable(line);
      }
      ParsedPairsAreWritable(s[l.next..]);
      WritableConcat(Maybe(PairOn(line)), Parse(s[l.next..]));
    }
  }

  lemma {:induction false} WritableConcat(a: seq<Pair>, b: seq<Pair>)
    requires AllWritable(a) && AllWritable(b)
    ensures AllWritable(a + b)
  {
  }

  // ----- parsing undoes rendering -----

  lemma {:induction false} SpanIs(s: string, kind: Kind, k: nat)
    requires k <= |s| && (forall j | 0 <= j < k :: Is(s[j], kind)) && (k < |s| ==> !Is(s[k], kind))
    ensures Span(s, kind) == k
  {
    SpanEnds(s, kind);
  }

  lemma {:induction false} SpanToIs(s: string, kind: Kind, k: nat)
    requires k <= |s| && (forall j | 0 <= j < k :: !Is(s[j], kind)) && (k < |s| ==> Is(s[k], kind))
    ensures SpanTo(s, kind) == k
  {
    SpanToEnds(s, kind);
  }

  lemma {:induction false} BareIsTrimmed(s: string)
    requires Bare(s)
    ensures TrimRight(s) == s && TrimLeft(s) == s
  {
  }

  lemma {:induction false} SignIsSign()
    ensures Is('=', Sign) && !Is('=', Break) && Is('\n', Break) && !Is('=', Nul) && !Is('\n', Nul)
  {
  }

  lemma {:induction false} IsSign(c: char)
    ensures Is(c, Sign) <==> c == '='
  {
  }

  lemma {:induction false} PairOnRendered(p: Pair)
    requires Writable(p)
    ensures PairOn(p.key + "=" + p.val) == Some(p)
  {
    hide Is, Span, SpanTo, TrimRight, TrimLeft;
    SignIsSign();
    var line := p.key + "=" + p.val;
    assert forall j | 0 <= j < |p.key| :: line[j] == p.key[j];
    SpanToIs(line, Sign, |p.key|);
    assert line[..|p.key|] == p.key && line[|p.key| + 1..] == p.val;
    BareIsTrimmed(p.key);
    BareIsTrimmed(p.val);
  }

  lemma {:induction false} RenderedLine(p: Pair, rest: string)
    requires Writable(p) && (rest != [] ==> !Is(rest[0], Break))
    ensures
      var n := |p.key| + 1 + |p.val|;
      && FirstLine(RenderPair(p) + rest) == Line(0, n, n + 1)
      && (RenderPair(p) + rest)[..n] == p.key + "=" + p.val && (RenderPair(p) + rest)[n + 1..] == rest
  {
    hide Is, Span, SpanTo;
    SignIsSign();
    var s, n := RenderPair(p) + rest, |p.key| + 1 + |p.val|;
    SpanIs(s, Blank, 0);
    assert s[0..] == s;
    forall j | 0 <= j < n ensures !Is(s[j], Break) {
      if j < |p.key| {
        assert s[j] == p.key[j];
      } else if j > |p.key| {
        assert s[j] == p.val[j - |p.key| - 1];
      }
    }
    assert s[n] == '\n';
    SpanToIs(s, Break, n);
    assert s[n..] == ['\n'] + rest;
    SpanIs(s[n..], Break, 1);
  }

  /** Parsing undoes rendering. */
  lemma {:induction false} ParseUndoesRender(ps: seq<Pair>)
    requires AllWritable(ps)
    ensures Parse(Render(ps)) == ps
    decreases |ps|
  {
    hide FirstLine, PairOn, RenderPair, Writable;
    if ps != [] {
      var p, rest := ps[0], ps[1..];
      RenderStartsWithKey(rest);
      RenderedLine(p, Render(rest));
      PairOnRendered(p);
      ParseUndoesRender(rest);
      var s := Render(ps);
      assert s == RenderPair(p) + Render(rest);
    }
  }

  lemma {:induction false} RenderStartsWithKey(ps: seq<Pair>)
    requires AllWritable(ps)
    ensures Render(ps) != [] ==> !Is(Render(ps)[0], Break)
  {
  }

  /** Simplified text holds no terminator if the original holds none. */
  lemma {:induction false} PairWithoutNul(line: string)
    requires Without(line, Nul) && PairOn(line).Some?
    ensures Without(RenderPair(PairOn(line).value), Nul)
  {
    hide Is, Span, SpanTo, TrimRight, Without;
    WithoutAny(line, Nul);
    var at := SpanTo(line, Sign);
    var from := at + 1 + Span(line[at + 1..], Blank);
    var key, val := line[0..at], line[from..|line|];
    PartWithout(line, 0, at, Nul);
    PartWithout(line, from, |line|, Nul);
    TrimmedWithout(key, Nul);
    TrimmedWithout(val, Nul);
    assert line[..at] == key && TrimLeft(line[at + 1..]) == val;
    var a, b := TrimRight(key), TrimRight(val);
    SignIsSign();
    SingleWithout('=');
    SingleWithout('\n');
    WithoutConcat(a, "=", Nul);
    WithoutConcat(a + "=", b, Nul);
    WithoutConcat(a + "=" + b, "\n", Nul);
  }

  lemma {:induction false} SingleWithout(c: char)
    requires !Is(c, Nul)
    ensures Without([c], Nul)
  {
  }

  lemma {:induction false} WithoutConcat(a: string, b: string, kind: Kind)
    requires Without(a, kind) && Without(b, kind)
    ensures Without(a + b, kind)
  {
  }

  lemma {:induction false} SimplifiedWithoutNul(s: string)
    requires Without(s, Nul)
    ensures Without(Render(Parse(s)), Nul)
    decreases |s|
  {
    hide FirstLine, PairOn, RenderPair, Without, Is;
    if s == [] {
      EmptyWithout();
    } else {
      var l := FirstLine(s);
      var line, rest := s[l.begin..l.end], s[l.next..];
      WithoutAny(s, Nul);
      PartWithout(s, l.begin, l.end, Nul);
      PartWithout(s, l.next, |s|, Nul);
      assert rest == s[l.next..|s|];
      SimplifiedWithoutNul(rest);
      var p, more := PairOn(line), Parse(rest);
      if p.Some? {
        PairWithoutNul(line);
        WithoutConcat(RenderPair(p.value), Render(more), Nul);
        var all := [p.value] + more;
        assert all[0] == p.value && all[1..] == more;
      } else {
        assert [] + more == more;
      }
    }
  }

  lemma {:induction false} EmptyWithout()
    ensures Without(Render(Parse([])), Nul)
  {
  }

  /** Simplified text has the meaning of the original, and simplifying it again changes nothing. */
  lemma {:induction false} SimplifyingKeepsTheMeaning(s: string)
    ensures Parse(Render(Parse(s))) == Parse(s)
    ensures Render(Parse(Render(Parse(s)))) == Render(Parse(s))
  {
    ParsedPairsAreWritable(s);
    ParseUndoesRender(Parse(s));
  }

  // ----- how long simplified text gets -----

  /** Nothing can be left out of the text: pairs without spare characters, one break between them, none at the end. */
  ghost predicate Tight(s: string)
  {
    && s != [] && !Is(s[0], Blank)
    && var end := SpanTo(s, Break);
       && var p := PairOn(s[..end]);
          && p.Some? && s[..end] == p.value.key + "=" + p.value.val
          && (end < |s| ==> Tight(s[end + 1..]))
  }

  lemma {:induction false} PairFitsLine(line: string)
    requires PairOn(line).Some?
    ensures var p := PairOn(line).value;
      && |p.key| + 1 + |p.val| <= |line|
      && (|p.key| + 1 + |p.val| == |line| <==> line == p.key + "=" + p.val)
  {
    hide Is, Span, SpanTo, TrimRight;
    var p, at := PairOn(line).value, SpanTo(line, Sign);
    var key, tail := line[..at], line[at + 1..];
    var skipped := Span(tail, Blank);
    var val := tail[skipped..];
    assert p == Pair(TrimRight(key), TrimRight(val));
    SpanToEnds(line, Sign);
    IsSign(line[at]);
    TrimRightEnds(key);
    TrimRightEnds(val);
    assert line == key + "=" + tail;
    WholePrefix(TrimRight(key), key);
    WholePrefix(TrimRight(val), val);
    assert skipped == 0 ==> val == tail;
  }

  lemma {:induction false} WholePrefix(a: string, b: string)
    requires a <= b
    ensures |a| <= |b| && (|a| == |b| ==> a == b)
  {
  }

  lemma {:induction false} TightSplit(s: string)
    requires s != []
    ensures
      var l := FirstLine(s);
      var p := PairOn(s[l.begin..l.end]);
      Tight(s) <==> l.begin == 0 && p.Some? && s[..l.end] == p.value.key + "=" + p.value.val
                    && (l.end < |s| ==> l.next == l.end + 1 && Tight(s[l.end + 1..]))
  {
    hide Is, Span, SpanTo, PairOn;
    var l := FirstLine(s);
    SpanEnds(s, Blank);
    SpanToEnds(s[l.begin..], Break);
    assert l.begin == 0 <==> !Is(s[0], Blank);
    if l.begin == 0 {
      assert s[0..] == s && s[0..l.end] == s[..l.end];
      if l.end < |s| && l.end + 1 < |s| && Tight(s[l.end + 1..]) {
        NoBreakInFront(s[l.end + 1..]);
        SpanIs(s[l.end..], Break, 1);
      }
    }
  }

  lemma {:induction false} NoBreakInFront(s: string)
    requires Tight(s)
    ensures !Is(s[0], Break)
  {
  }

  /**
    Simplified text is at most one character longer than the original, and it is longer exactly when
    nothing can be left out of the original.
  */
  lemma {:induction false} SimplifiedLength(s: string)
    ensures |Render(Parse(s))| <= |s| + 1
    ensures |Render(Parse(s))| == |s| + 1 <==> Tight(s)
    decreases |s|
  {
    hide FirstLine, PairOn, Tight, Parse, Render;
    EmptyIsNotTight();
    if s != [] {
      var l := FirstLine(s);
      var line, rest := s[l.begin..l.end], s[l.next..];
      SimplifiedLength(rest);
      TightSplit(s);
      LengthStep(s);
      if PairOn(line).Some? {
        PairFitsLine(line);
        assert l.begin == 0 ==> line == s[..l.end];
        assert l.end == |s| ==> rest == [];
        assert l.next == l.end + 1 ==> rest == s[l.end + 1..];
      }
    }
  }

  lemma {:induction false} LengthStep(s: string)
    requires s != []
    ensures
      var l := FirstLine(s);
      var p := PairOn(s[l.begin..l.end]);
      |Render(Parse(s))| == |Render(Parse(s[l.next..]))| + if p.Some? then |p.value.key| + |p.value.val| + 2 else 0
  {
    hide FirstLine, PairOn;
    var l := FirstLine(s);
    var p, rest := PairOn(s[l.begin..l.end]), Parse(s[l.next..]);
    if p.Some? {
      var all := [p.value] + rest;
      assert all[0] == p.value && all[1..] == rest;
      assert |RenderPair(p.value)| == |p.value.key| + |p.value.val| + 2;
    } else {
      assert [] + rest == rest;
    }
  }

  lemma {:induction false} EmptyIsNotTight()
    ensures !Tight([]) && Parse([]) == [] && Render([]) == []
  {
  }

  lemma {:induction false} RenderConcat(a: seq<Pair>, b: seq<Pair>)
    ensures Render(a + b) == Render(a) + Render(b)
  {
    if a == [] {
      assert a + b == b;
    } else {
      hide RenderPair;
      RenderConcat(a[1..], b);
      var c := a + b;
      assert c[0] == a[0] && c[1..] == a[1..] + b;
      Regroup(RenderPair(a[0]), Render(a[1..]), Render(b));
    }
  }

  /** A config that ends with a line break can always be simplified in place. */
  lemma {:induction false} EndingWithABreakIsNotTight(s: string)
    requires s != [] && Is(s[|s| - 1], Break)
    ensures !Tight(s)
    decreases |s|
  {
    hide PairOn, Is, SpanTo;
    var end := SpanTo(s, Break);
    SpanToEnds(s, Break);
    if end == |s| - 1 {
      assert s[end + 1..] == [];
    } else if end < |s| {
      var rest := s[end + 1..];
      assert rest[|rest| - 1] == s[|s| - 1];
      EndingWithABreakIsNotTight(rest);
    }
  }

  /** Even the shortest config without a line break at its end gets longer. */
  lemma {:induction false} OneBarePairIsTight()
    ensures Tight("a=b") && |Render(Parse("a=b"))| == 4
  {
    var p := Pair("a", "b");
    PairOnRendered(p);
    assert "a" + "=" + "b" == "a=b";
    assert SpanTo("a=b", Break) == 3 by { SpanToIs("a=b", Break, 3); }
    assert "a=b"[..3] == "a=b";
    SimplifiedLength("a=b");
  }
}
