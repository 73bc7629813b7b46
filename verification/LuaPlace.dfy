/** What a token's line and touching mark say about the source bytes. */
module LuaPlace {
  import opened Bytes
  import opened LuaLexer
  import opened Optional
  import opened LuaCompact

  /** Where the tokens of `s` start, `s` itself starting at offset `at`. */
  function Starts(s: seq<byte>, at: nat): seq<nat>
    decreases |s|
  {
    if s == [] || Next(s).Failure? then [] else
    var (item, n) := Next(s).value;
    (if item == Literal then [at] else []) + Starts(s[n..], at + n)
  }

  /** The token is the bytes at `start`, on the line given by the breaks before it. */
  predicate PlacedAt(data: seq<byte>, start: nat, t: Token) {
    && start + |t.bytes| <= |data|
    && data[start..start + |t.bytes|] == t.bytes
    && t.line == Breaks(data[..start])
  }

  /** In order, without overlap, and touching exactly where nothing lies between. */
  predicate Chained(starts: seq<nat>, tokens: seq<Token>, i: nat)
    requires 0 < i < |starts| == |tokens|
  {
    && starts[i - 1] + |tokens[i - 1].bytes| <= starts[i]
    && (tokens[i].touches <==> starts[i - 1] + |tokens[i - 1].bytes| == starts[i])
  }

  ghost predicate Located(data: seq<byte>, starts: seq<nat>, tokens: seq<Token>) {
    && |starts| == |tokens|
    && (forall i :: 0 <= i < |tokens| ==> PlacedAt(data, starts[i], tokens[i]))
    && (forall i :: 0 < i < |tokens| ==> Chained(starts, tokens, i))
  }

  lemma {:induction false} NoBreaks(s: seq<byte>)
    requires forall i :: 0 <= i < |s| ==> !IsBreak(s[i])
    ensures Breaks(s) == 0
    decreases |s|
  {
    if s != [] { NoBreaks(s[1..]); }
  }

  /** An element never ends in the middle of a line break. */
  lemma ElementEndsClean(s: seq<byte>)
    requires s != [] && Next(s).Success?
    ensures var (item, n) := Next(s).value; Clean(s[..n], s[n..]) && After(item, s[..n]) == Breaks(s[..n])
  {
    var (item, n) := Next(s).value;
    OpenBreakIsLast(s[..n]);
    if item == Blank { NoBreaks(s[..n]); }
    if item == LineBreak { LineBreakClean(s); }
    if item == Comment { CommentEnds(s); }
    if item == Literal { LiteralEnds(s); }
  }

  lemma LineBreakClean(s: seq<byte>)
    requires s != [] && Next(s).Success? && Next(s).value.0 == LineBreak
    ensures var n := Next(s).value.1; Clean(s[..n], s[n..]) && Breaks(s[..n]) == 1
  {
    var n := Next(s).value.1;
    var head := s[..n];
    if IsPair(s) {
      assert IsPair(head) && head[2..] == [];
    } else {
      assert head == [s[0]] && head[1..] == [];
    }
  }

  lemma CommentEnds(s: seq<byte>)
    requires s != [] && Next(s).Success? && Next(s).value.0 == Comment
    ensures !IsBreak(s[Next(s).value.1 - 1])
  {
    var level := Bracket(s[2..]);
    if level.Some? { LongEnds(s[2..], level.value); }
  }

  lemma {:induction false} MarkerFound(s: seq<byte>, level: nat)
    requires FindMarker(s, level).Some?
    ensures s[FindMarker(s, level).value + level + 1] == CLOSE
    decreases |s|
  {
    if Marker(level) <= s {
      assert s[level + 1] == Marker(level)[level + 1];
    } else {
      hide Marker;
      MarkerFound(s[1..], level);
    }
  }

  lemma LongEnds(s: seq<byte>, level: nat)
    requires level + 2 <= |s| && LongLength(s, level).Some?
    ensures s[LongLength(s, level).value - 1] == CLOSE
  {
    hide FindMarker, Marker;
    MarkerFound(s[level + 2..], level);
  }

  lemma {:induction false} ShortEnds(s: seq<byte>, quote: byte)
    requires ShortLength(s, quote).Success?
    ensures s[ShortLength(s, quote).value - 1] == quote
    decreases |s|
  {
    if s[0] != quote {
      ShortEnds(s[if s[0] == BACKSLASH then EscapeLength(s) else 1..], quote);
    }
  }

  lemma LiteralEnds(s: seq<byte>)
    requires s != [] && Next(s).Success? && Next(s).value.0 == Literal
    ensures !IsBreak(s[Next(s).value.1 - 1])
  {
    if Bracket(s).Some? {
      LongEnds(s, Bracket(s).value);
    } else if IsQuote(s[0]) {
      ShortEnds(s[1..], s[0]);
    }
  }

  ghost predicate LocatedFrom(before: seq<byte>, s: seq<byte>, r: Lexed, gap: bool) {
    var starts := Starts(s, |before|);
    && Located(before + s, starts, r.tokens)
    && r.lines == Breaks(before + s)
    && (r.tokens != [] ==> starts[0] >= |before| && (r.tokens[0].touches <==> !gap && starts[0] == |before|))
  }

  /** After `before`, whose last token (if any, and no gap follows) ends where `s` starts. */
  lemma {:induction false} LocateFrom(before: seq<byte>, s: seq<byte>, gap: bool, r: Lexed)
    requires Clean(before, s) && Lex(s, Breaks(before), gap) == Success(r)
    ensures LocatedFrom(before, s, r, gap)
    decreases |s|
  {
    hide Next, Breaks, After, Clean, Located, LocatedFrom, Lex, Starts;
    if s == [] {
      LocateNone(before, r, gap);
    } else {
      var rest := LexOnce(s, Breaks(before), gap);
      var (item, n) := Next(s).value;
      ElementEndsClean(s);
      StepClean(before, s, n);
      LocateFrom(before + s[..n], s[n..], item != Literal, rest);
      if item == Literal { LocateFirst(before, s, gap, n, rest); } else { LocateGap(before, s, gap, n, rest); }
    }
  }

  lemma LocateNone(before: seq<byte>, r: Lexed, gap: bool)
    requires Lex([], Breaks(before), gap) == Success(r)
    ensures LocatedFrom(before, [], r, gap)
  {
    assert before + [] == before;
  }

  /** Reading an element and then the rest. */
  lemma LexOnce(s: seq<byte>, line: nat, gap: bool) returns (rest: Lexed)
    requires s != [] && Lex(s, line, gap).Success?
    ensures Next(s).Success?
    ensures var (item, n) := Next(s).value;
      && Lex(s[n..], line + After(item, s[..n]), item != Literal) == Success(rest)
      && Lex(s, line, gap).value == (if item == Literal then Lexed([Token(s[..n], line, !gap)] + rest.tokens, rest.lines) else rest)
  {
    hide Next, After;
    var (item, n) := Next(s).value;
    rest := Lex(s[n..], line + After(item, s[..n]), item != Literal).value;
  }

  lemma StepClean(before: seq<byte>, s: seq<byte>, n: nat)
    requires 0 < n <= |s| && Clean(before, s) && Clean(s[..n], s[n..])
    ensures Clean(before + s[..n], s[n..])
    ensures Breaks(before + s[..n]) == Breaks(before) + Breaks(s[..n])
  {
    assert s[..n][0] == s[0];
    BreaksConcat(before, s[..n]);
  }

  lemma LocateGap(before: seq<byte>, s: seq<byte>, gap: bool, n: nat, rest: Lexed)
    requires s != [] && Next(s).Success? && Next(s).value.0 != Literal && Next(s).value.1 == n
    requires LocatedFrom(before + s[..n], s[n..], rest, true)
    ensures LocatedFrom(before, s, rest, gap)
  {
    hide Next, Breaks, Located;
    assert (before + s[..n]) + s[n..] == before + s;
    assert [] + Starts(s[n..], |before| + n) == Starts(s[n..], |before| + n);
  }

  lemma LocateFirst(before: seq<byte>, s: seq<byte>, gap: bool, n: nat, rest: Lexed)
    requires s != [] && Next(s) == Success((Literal, n))
    requires LocatedFrom(before + s[..n], s[n..], rest, false)
    ensures LocatedFrom(before, s, Lexed([Token(s[..n], Breaks(before), !gap)] + rest.tokens, rest.lines), gap)
  {
    hide Next, Breaks, PlacedAt, Located;
    var data, at := before + s, |before| + n;
    assert (before + s[..n]) + s[n..] == data && |before + s[..n]| == at;
    var later := Starts(s[n..], at);
    assert Located(data, later, rest.tokens);
    var first := Token(s[..n], Breaks(before), !gap);
    FirstPlaced(before, s, first, n);
    PrependLocated(data, |before|, first, later, rest.tokens);
    assert Starts(s, |before|) == [|before|] + later;
  }

  lemma FirstPlaced(before: seq<byte>, s: seq<byte>, t: Token, n: nat)
    requires n <= |s| && t.bytes == s[..n] && t.line == Breaks(before)
    ensures PlacedAt(before + s, |before|, t)
  {
    hide Breaks;
    var data := before + s;
    assert data[|before|..|before| + n] == s[..n] && data[..|before|] == before;
  }

  lemma PrependLocated(data: seq<byte>, start: nat, t: Token, starts: seq<nat>, tokens: seq<Token>)
    requires Located(data, starts, tokens) && PlacedAt(data, start, t)
    requires tokens != [] ==> starts[0] >= start + |t.bytes| && (tokens[0].touches <==> starts[0] == start + |t.bytes|)
    ensures Located(data, [start] + starts, [t] + tokens)
  {
    hide PlacedAt;
    var ss, ts := [start] + starts, [t] + tokens;
    forall i | 0 <= i < |ts| ensures PlacedAt(data, ss[i], ts[i]) {
      if i > 0 { assert ts[i] == tokens[i - 1] && ss[i] == starts[i - 1]; }
    }
    forall i | 0 < i < |ts| ensures Chained(ss, ts, i) {
      assert ts[i] == tokens[i - 1] && ss[i] == starts[i - 1];
      if i > 1 { assert Chained(starts, tokens, i - 1); }
    }
  }

  /** The compacted text holds the source's tokens, in order, on the same lines, touching
      exactly where they touched, and as many line breaks in all. */
  lemma CompactKeepsPlaces(data: seq<byte>)
    requires Compact(data).Success?
    ensures var out := Compact(data).value; var tokens := Lex(data, 0, true).value.tokens;
      && Located(data, Starts(data, 0), tokens)
      && Located(out, Starts(out, 0), tokens)
      && Breaks(out) == Breaks(data)
  {
    var out := Compact(data).value;
    CompactKeepsProgram(data);
    LocateFrom([], data, true, Lex(data, 0, true).value);
    LocateFrom([], out, true, Lex(out, 0, true).value);
    assert [] + data == data && [] + out == out;
  }
}
