/** What `compact_source` writes, and that re-reading it gives the same program text. */
module LuaCompact {
  import opened Bytes
  import opened LuaLexer
  import opened Optional

  function Newlines(n: nat): (s: seq<byte>)
    ensures |s| == n
    ensures forall i :: 0 <= i < n ==> s[i] == LF
  {
    seq(n, i => LF)
  }

  /** The separator before a token: the missing line breaks, else one space where a
      gap was; nothing at the beginning of a line. */
  function Separator(t: Token, line: nat, atStart: bool): seq<byte> {
    if t.line > line then Newlines(t.line - line)
    else if atStart || t.touches then []
    else [SPACE]
  }

  /** Compact text of the tokens from `line` on; `atStart`: nothing on this line yet. */
  function Render(tokens: seq<Token>, lines: nat, line: nat, atStart: bool): seq<byte>
    decreases |tokens|
  {
    if tokens == [] then (if lines > line then Newlines(lines - line) else [])
    else
      var t := tokens[0];
      Separator(t, line, atStart) + t.bytes + Render(tokens[1..], lines, t.line + Breaks(t.bytes), false)
  }

  /** `compact_source`. */
  function Compact(data: seq<byte>): Result<seq<byte>> {
    if 0 in data then Failure(EmbeddedNul) else
    var lexed := Lex(data, 0, true);
    if lexed.Failure? then Failure(lexed.error)
    else Success(Render(lexed.value.tokens, lexed.value.lines, 0, true))
  }

  // ---- literals delimit themselves ----

  lemma SamePrefix(m: seq<byte>, s: seq<byte>, t: seq<byte>)
    requires |m| <= |s| && |m| <= |t| && s[..|m|] == t[..|m|]
    ensures m <= s <==> m <= t
  {
  }

  lemma FindOnce(s: seq<byte>, level: nat)
    requires s != [] && !(Marker(level) <= s)
    ensures var rest := FindMarker(s[1..], level);
      FindMarker(s, level) == if rest.None? then None else Some(rest.value + 1)
  {
    hide Marker;
  }

  lemma {:induction false} MarkerStable(s: seq<byte>, level: nat, more: seq<byte>)
    requires FindMarker(s, level).Some?
    ensures var k := FindMarker(s, level).value; FindMarker(s[..k + level + 2] + more, level) == Some(k)
    decreases |s|
  {
    hide Marker, FindMarker;
    var k := FindMarker(s, level).value;
    var t := s[..k + level + 2] + more;
    TakeKept(s, k + level + 2, level + 2, more);
    SamePrefix(Marker(level), s, t);
    if Marker(level) <= s {
      FindsAtOnce(s, level);
      FindsAtOnce(t, level);
    } else {
      FindOnce(s, level);
      FindOnce(t, level);
      DropKept(s, k + level + 2, more);
      MarkerStable(s[1..], level, more);
    }
  }

  lemma TakeKept(s: seq<byte>, k: nat, j: nat, more: seq<byte>)
    requires j <= k <= |s|
    ensures (s[..k] + more)[..j] == s[..j]
  {
  }

  lemma DropKept(s: seq<byte>, k: nat, more: seq<byte>)
    requires 0 < k <= |s|
    ensures (s[..k] + more)[1..] == s[1..][..k - 1] + more
  {
  }

  lemma FindsAtOnce(s: seq<byte>, level: nat)
    requires Marker(level) <= s
    ensures FindMarker(s, level) == Some(0)
  {
  }

  lemma {:induction false} CountEqualsStable(s: seq<byte>, t: seq<byte>, n: nat)
    requires n == CountEquals(s) < |s| && n < |t| && t[..n + 1] == s[..n + 1]
    ensures CountEquals(t) == n
    decreases n
  {
    assert s[n] == s[..n + 1][n] == t[n];
    if n > 0 {
      assert s[0] == s[..n + 1][0] == t[0];
      assert t[1..][..n] == t[..n + 1][1..] == s[1..][..n];
      CountEqualsStable(s[1..], t[1..], n - 1);
    }
  }

  lemma BracketStable(s: seq<byte>, t: seq<byte>)
    requires Bracket(s).Some? && Bracket(s).value + 2 <= |t|
    requires t[..Bracket(s).value + 2] == s[..Bracket(s).value + 2]
    ensures Bracket(t) == Bracket(s)
  {
    var n := Bracket(s).value;
    assert t[0] == t[..n + 2][0] == s[0];
    assert t[1..][..n + 1] == t[..n + 2][1..] == s[1..][..n + 1];
    CountEqualsStable(s[1..], t[1..], n);
    assert t[n + 1] == t[..n + 2][n + 1] == s[n + 1];
  }

  lemma LongStable(s: seq<byte>, more: seq<byte>)
    requires Bracket(s).Some? && LongLength(s, Bracket(s).value).Some?
    ensures var n := LongLength(s, Bracket(s).value).value; var t := s[..n] + more;
      Bracket(t) == Bracket(s) && LongLength(t, Bracket(t).value) == Some(n)
  {
    hide FindMarker, Marker, Bracket, CountEquals;
    var level := Bracket(s).value;
    var n := LongLength(s, level).value;
    var t := s[..n] + more;
    assert t[..level + 2] == s[..level + 2];
    BracketStable(s, t);
    var body := s[level + 2..];
    var k := FindMarker(body, level).value;
    MarkerStable(body, level, more);
    assert body[..k + level + 2] == s[level + 2..n];
    assert t[level + 2..] == body[..k + level + 2] + more;
  }

  lemma {:induction false} CountSpaceStable(s: seq<byte>, t: seq<byte>, n: nat)
    requires n == CountSpace(s) < |s| && n < |t| && t[..n + 1] == s[..n + 1]
    ensures CountSpace(t) == n
    decreases n
  {
    assert s[n] == s[..n + 1][n] == t[n];
    if n > 0 {
      assert s[0] == s[..n + 1][0] == t[0];
      assert t[1..][..n] == t[..n + 1][1..] == s[1..][..n];
      CountSpaceStable(s[1..], t[1..], n - 1);
    }
  }

  lemma EscapeStable(s: seq<byte>, t: seq<byte>)
    requires |s| >= 2 && EscapeLength(s) < |s| && EscapeLength(s) < |t| && !IsBreak(s[EscapeLength(s)])
    requires t[..EscapeLength(s) + 1] == s[..EscapeLength(s) + 1]
    ensures EscapeLength(t) == EscapeLength(s)
  {
    var n := EscapeLength(s);
    assert forall i :: 0 <= i <= n ==> t[i] == t[..n + 1][i] == s[i];
    if s[1] == LETTER_Z {
      assert t[2..][..n - 1] == t[..n + 1][2..] == s[2..][..n - 1];
      CountSpaceStable(s[2..], t[2..], n - 2);
    }
  }

  /** How far the first element of a short string's body reaches. */
  function BodyStep(s: seq<byte>): (n: nat)
    requires |s| >= 1 && (s[0] == BACKSLASH ==> |s| >= 2)
    ensures 1 <= n <= |s|
  {
    if s[0] == BACKSLASH then EscapeLength(s) else 1
  }

  lemma ShortOnce(s: seq<byte>, quote: byte)
    requires s != [] && s[0] != quote && ShortLength(s, quote).Success?
    ensures (s[0] == BACKSLASH ==> |s| >= 2) && !IsBreak(s[0])
    ensures var n := BodyStep(s); var rest := ShortLength(s[n..], quote);
      rest.Success? && ShortLength(s, quote).value == n + rest.value
  {
    hide EscapeLength;
  }

  lemma ShortFolds(s: seq<byte>, quote: byte)
    requires s != [] && s[0] != quote && !IsBreak(s[0]) && (s[0] == BACKSLASH ==> |s| >= 2)
    requires ShortLength(s[BodyStep(s)..], quote).Success?
    ensures ShortLength(s, quote) == Success(BodyStep(s) + ShortLength(s[BodyStep(s)..], quote).value)
  {
    hide EscapeLength;
  }

  lemma ShortStarts(s: seq<byte>, quote: byte)
    requires IsQuote(quote) && ShortLength(s, quote).Success?
    ensures s != [] && !IsBreak(s[0])
    ensures s[0] == quote ==> ShortLength(s, quote) == Success(1)
  {
    hide EscapeLength;
  }

  lemma StepStable(s: seq<byte>, t: seq<byte>)
    requires |s| >= 1 && (s[0] == BACKSLASH ==> |s| >= 2)
    requires BodyStep(s) < |s| && BodyStep(s) < |t| && !IsBreak(s[BodyStep(s)])
    requires t[..BodyStep(s) + 1] == s[..BodyStep(s) + 1]
    ensures t[0] == s[0] && BodyStep(t) == BodyStep(s)
  {
    hide EscapeLength;
    assert t[0] == t[..BodyStep(s) + 1][0] == s[0];
    if s[0] == BACKSLASH { EscapeStable(s, t); }
  }

  lemma {:induction false} ShortStable(s: seq<byte>, quote: byte, more: seq<byte>)
    requires IsQuote(quote) && ShortLength(s, quote).Success?
    ensures var n := ShortLength(s, quote).value; ShortLength(s[..n] + more, quote) == Success(n)
    decreases |s|
  {
    hide ShortLength, BodyStep;
    ShortStarts(s, quote);
    var n := ShortLength(s, quote).value;
    var t := s[..n] + more;
    assert t[0] == s[0];
    if s[0] == quote {
      FirstQuote(t, quote);
    } else {
      ShortOnce(s, quote);
      var step := BodyStep(s);
      ShortStarts(s[step..], quote);
      assert t[..step + 1] == s[..step + 1];
      StepStable(s, t);
      ShortStable(s[step..], quote, more);
      assert t[step..] == s[step..][..n - step] + more;
      ShortFolds(t, quote);
    }
  }

  lemma FirstQuote(s: seq<byte>, quote: byte)
    requires s != [] && s[0] == quote
    ensures ShortLength(s, quote) == Success(1)
  {
  }

  // ---- tokens stay apart ----

  predicate FirstIs(s: seq<byte>, t: Token, line: nat) {
    && t.line == line && s != [] && Next(s).Success?
    && Next(s).value.0 == Literal && t.bytes == s[..Next(s).value.1]
  }

  /** What `Lex` says of the first token when it starts right after another one. */
  lemma FirstToken(s: seq<byte>, line: nat, gap: bool)
    requires Lex(s, line, gap).Success? && Lex(s, line, gap).value.tokens != []
    ensures var t := Lex(s, line, gap).value.tokens[0];
      && t.bytes != [] && !IsBlank(t.bytes[0]) && !IsBreak(t.bytes[0]) && t.line >= line
      && (gap || t.line > line ==> !t.touches)
    ensures Lex(s, line, gap).value.tokens[0].touches ==> FirstIs(s, Lex(s, line, gap).value.tokens[0], line)
    decreases |s|
  {
    hide Next, After;
    var (item, n) := Next(s).value;
    if item != Literal { FirstToken(s[n..], line + After(item, s[..n]), true); }
  }

  lemma {:induction false} LinesGrow(s: seq<byte>, line: nat, gap: bool)
    requires Lex(s, line, gap).Success?
    ensures Lex(s, line, gap).value.lines >= line
    decreases |s|
  {
    hide Next, After;
    if s != [] {
      var (item, n) := Next(s).value;
      LinesGrow(s[n..], line + After(item, s[..n]), item != Literal);
    }
  }

  /** Text that follows a token starts with the same byte it followed in the source,
      or with a separator. */
  lemma FollowsSame(s: seq<byte>, line: nat, b: byte)
    requires Lex(s, line, false).Success? && !IsBlank(b) && !IsBreak(b)
    requires var r := Lex(s, line, false).value;
      var out := Render(r.tokens, r.lines, line, false); out != [] && out[0] == b
    ensures var r := Lex(s, line, false).value;
      r.tokens != [] && r.tokens[0].touches && FirstIs(s, r.tokens[0], line) && s[0] == b
  {
    var r := Lex(s, line, false).value;
    if r.tokens != [] { FirstToken(s, line, false); }
  }

  /** `=*[` cannot arise from compaction. */
  lemma {:induction false} OpensSame(s: seq<byte>, line: nat)
    requires Lex(s, line, false).Success?
    requires var r := Lex(s, line, false).value; OpensAfterEquals(Render(r.tokens, r.lines, line, false))
    ensures OpensAfterEquals(s)
    decreases |s|
  {
    hide Lex, Render, FirstIs;
    var r := Lex(s, line, false).value;
    var out := Render(r.tokens, r.lines, line, false);
    if CountEquals(out) == 0 {
      FollowsSame(s, line, OPEN);
    } else {
      FollowsSame(s, line, EQUALS);
      EqualsIsAlone(s);
      LexLiteral(s, 1, line, false);
      var rest := Lex(s[1..], line, false).value;
      RenderLiteral(s[..1], rest, line, false, false);
      var more := Render(rest.tokens, rest.lines, line, false);
      assert out == [] + (s[..1] + more) && out[1..] == more;
      OpensSame(s[1..], line);
    }
  }

  /** An equals sign is a token of its own. */
  lemma EqualsIsAlone(s: seq<byte>)
    requires s != [] && s[0] == EQUALS
    ensures Next(s) == Success((Literal, 1)) && Breaks(s[..1]) == 0
  {
    assert s[..1][1..] == [];
  }

  /** A literal is still that literal before the compacted rest of the source. */
  lemma LiteralStable(s: seq<byte>, line: nat)
    requires s != [] && Next(s).Success? && Next(s).value.0 == Literal
    requires Lex(s[Next(s).value.1..], line, false).Success?
    ensures var n := Next(s).value.1; var r := Lex(s[n..], line, false).value;
      Next(s[..n] + Render(r.tokens, r.lines, line, false)) == Next(s)
  {
    hide Lex, Render, LongLength, ShortLength, CountEquals;
    var n := Next(s).value.1;
    var r := Lex(s[n..], line, false).value;
    var more := Render(r.tokens, r.lines, line, false);
    if Bracket(s).Some? {
      LongLiteralStable(s, n, more);
    } else if IsQuote(s[0]) {
      ShortLiteralStable(s, n, more);
    } else {
      if s[0] == DASH && more != [] && more[0] == DASH { FollowsSame(s[1..], line, DASH); }
      if s[0] == OPEN && OpensAfterEquals(more) { OpensSame(s[1..], line); }
      ByteStable(s, more);
    }
  }

  lemma LongLiteralStable(s: seq<byte>, n: nat, more: seq<byte>)
    requires s != [] && Bracket(s).Some? && Next(s) == Success((Literal, n))
    ensures Next(s[..n] + more) == Next(s)
  {
    LongStable(s, more);
    hide LongLength, Bracket, CountEquals;
    assert (s[..n] + more)[0] == s[0] == OPEN by { BracketOpens(s); }
  }

  lemma BracketOpens(s: seq<byte>)
    requires Bracket(s).Some?
    ensures s != [] && s[0] == OPEN
  {
  }

  lemma ShortLiteralStable(s: seq<byte>, n: nat, more: seq<byte>)
    requires s != [] && IsQuote(s[0]) && Next(s) == Success((Literal, n))
    ensures Next(s[..n] + more) == Next(s)
  {
    hide ShortLength, LongLength, CountEquals;
    ShortStable(s[1..], s[0], more);
    var t := s[..n] + more;
    assert t[0] == s[0] && t[1..] == s[1..][..n - 1] + more;
  }

  /** A byte that opens nothing is a token unless what follows makes it a comment or bracket. */
  lemma ByteStable(s: seq<byte>, more: seq<byte>)
    requires s != [] && Next(s) == Success((Literal, 1)) && Bracket(s).None? && !IsQuote(s[0])
    requires s[0] == DASH ==> more == [] || more[0] != DASH
    requires s[0] == OPEN ==> !OpensAfterEquals(more)
    ensures Next(s[..1] + more) == Next(s)
  {
    hide ShortLength, LongLength, CountEquals;
    var t := s[..1] + more;
    assert t[0] == s[0] && t[1..] == more;
  }

  // ---- reading back ----

  lemma NewlineNext(s: seq<byte>)
    requires s != [] && s[0] == LF && (|s| > 1 ==> s[1] != CR)
    ensures Next(s) == Success((LineBreak, 1))
  {
    hide LongLength, ShortLength, Bracket;
  }

  lemma {:induction false} LexNewlines(k: nat, rest: seq<byte>, line: nat, gap: bool)
    requires rest != [] ==> rest[0] != CR
    ensures Lex(Newlines(k) + rest, line, gap) == Lex(rest, line + k, gap || k > 0)
    decreases k
  {
    hide Next, Lex;
    if k == 0 {
      assert Newlines(0) + rest == rest;
    } else {
      var s := Newlines(k) + rest;
      assert s[1..] == Newlines(k - 1) + rest;
      NewlineNext(s);
      LexGap(s, line, gap);
      LexNewlines(k - 1, rest, line + 1, true);
    }
  }

  /** Nothing on the next `k` lines: the text starts with `k` line breaks. */
  lemma RenderBreaks(r: Lexed, line: nat, k: nat, atStart: bool)
    requires k > 0 && r.lines >= line + k
    requires r.tokens != [] ==> r.tokens[0].line >= line + k
    ensures Render(r.tokens, r.lines, line, atStart) == Newlines(k) + Render(r.tokens, r.lines, line + k, true)
  {
    if r.tokens == [] {
      assert Newlines(r.lines - line) == Newlines(k) + Newlines(r.lines - line - k);
    } else {
      var t := r.tokens[0];
      assert Newlines(t.line - line) == Newlines(k) + Separator(t, line + k, true);
      var more := t.bytes + Render(r.tokens[1..], r.lines, t.line + Breaks(t.bytes), false);
      assert Newlines(k) + Separator(t, line + k, true) + more == Newlines(k) + (Separator(t, line + k, true) + more);
    }
  }

  lemma RenderStart(s: seq<byte>, line: nat, gap: bool, atStart: bool)
    requires Lex(s, line, gap).Success?
    ensures var r := Lex(s, line, gap).value; var out := Render(r.tokens, r.lines, line, atStart);
      out != [] ==> out[0] != CR
  {
    if Lex(s, line, gap).value.tokens != [] { FirstToken(s, line, gap); }
  }

  /** Reading what is written for a source gives the tokens of the source. */
  lemma {:induction false} ReadBack(s: seq<byte>, line: nat, gap: bool, atStart: bool)
    requires Lex(s, line, gap).Success? && (atStart ==> gap)
    ensures var r := Lex(s, line, gap).value;
      Lex(Render(r.tokens, r.lines, line, atStart), line, atStart) == Success(r)
    decreases |s|
  {
    hide Next, Render, Lex, After;
    if s == [] {
      ReadNothing(line, gap, atStart);
    } else {
      LexFirst(s, line, gap);
      var (item, n) := Next(s).value;
      if item == Literal {
        ReadLiteral(s, line, gap, atStart);
      } else {
        var k := After(item, s[..n]);
        LexGap(s, line, gap);
        ReadBack(s[n..], line + k, true, k > 0 || atStart);
        if k > 0 { ReadBreaks(s[n..], line, k, atStart); }
      }
    }
  }

  lemma ReadNothing(line: nat, gap: bool, atStart: bool)
    ensures Lex([], line, gap) == Success(Lexed([], line))
    ensures Lex(Render([], line, line, atStart), line, atStart) == Success(Lexed([], line))
  {
  }

  lemma LexFirst(s: seq<byte>, line: nat, gap: bool)
    requires s != [] && Lex(s, line, gap).Success?
    ensures Next(s).Success?
  {
    hide Next, After;
  }

  /** An element without a token leaves the reading to what follows it. */
  lemma LexGap(s: seq<byte>, line: nat, gap: bool)
    requires s != [] && Next(s).Success? && Next(s).value.0 != Literal
    ensures var (item, n) := Next(s).value; Lex(s, line, gap) == Lex(s[n..], line + After(item, s[..n]), true)
  {
    hide Next, After;
  }

  /** Line breaks before a text that reads back read back with it. */
  lemma ReadBreaks(s: seq<byte>, line: nat, k: nat, atStart: bool)
    requires k > 0 && Lex(s, line + k, true).Success?
    requires var r := Lex(s, line + k, true).value;
      Lex(Render(r.tokens, r.lines, line + k, true), line + k, true) == Success(r)
    ensures var r := Lex(s, line + k, true).value;
      Lex(Render(r.tokens, r.lines, line, atStart), line, atStart) == Success(r)
  {
    hide Next, Render, Lex;
    var r := Lex(s, line + k, true).value;
    RenderStart(s, line + k, true, true);
    BreaksRendered(s, line, k, atStart);
    LexNewlines(k, Render(r.tokens, r.lines, line + k, true), line, atStart);
  }

  lemma LexLiteral(s: seq<byte>, n: nat, line: nat, gap: bool)
    requires s != [] && Next(s) == Success((Literal, n))
    ensures var rest := Lex(s[n..], line + Breaks(s[..n]), false);
      Lex(s, line, gap) == if rest.Failure? then rest
      else Success(Lexed([Token(s[..n], line, !gap)] + rest.value.tokens, rest.value.lines))
  {
    hide Next, Breaks;
  }

  lemma {:induction false} ReadLiteral(s: seq<byte>, line: nat, gap: bool, atStart: bool)
    requires s != [] && Next(s).Success? && Next(s).value.0 == Literal
    requires Lex(s, line, gap).Success? && (atStart ==> gap)
    ensures var r := Lex(s, line, gap).value;
      Lex(Render(r.tokens, r.lines, line, atStart), line, atStart) == Success(r)
    decreases |s|, 0
  {
    hide Next, Breaks, Newlines, Lex, Render;
    var n := Next(s).value.1;
    LexLiteral(s, n, line, gap);
    var after := line + Breaks(s[..n]);
    var r := Lex(s[n..], after, false).value;
    var more := Render(r.tokens, r.lines, after, false);
    ReadBack(s[n..], after, false, false);
    LiteralStable(s, after);
    var t := s[..n] + more;
    assert t[..n] == s[..n] && t[n..] == more;
    RenderLiteral(s[..n], r, line, gap, atStart);
    if gap && !atStart {
      LexLiteral(t, n, line, true);
      LexSpace(t, line, false);
    } else {
      assert [] + t == t;
      LexLiteral(t, n, line, atStart);
    }
  }

  lemma RenderLiteral(bytes: seq<byte>, r: Lexed, line: nat, gap: bool, atStart: bool)
    ensures Render([Token(bytes, line, !gap)] + r.tokens, r.lines, line, atStart)
      == (if gap && !atStart then [SPACE] else []) + (bytes + Render(r.tokens, r.lines, line + Breaks(bytes), false))
  {
    hide Breaks, Newlines;
    var tokens := [Token(bytes, line, !gap)] + r.tokens;
    assert tokens[0] == Token(bytes, line, !gap) && tokens[1..] == r.tokens;
    var more := Render(r.tokens, r.lines, line + Breaks(bytes), false);
    assert [SPACE] + bytes + more == [SPACE] + (bytes + more);
    assert [] + bytes + more == [] + (bytes + more);
  }

  lemma LexSpace(t: seq<byte>, line: nat, gap: bool)
    ensures Lex([SPACE] + t, line, gap) == Lex(t, line, true)
  {
    var s := [SPACE] + t;
    assert Next(s) == Success((Blank, 1)) && s[1..] == t;
  }

  lemma {:induction false} BreaksBounded(s: seq<byte>)
    ensures Breaks(s) <= |s|
    decreases |s|
  {
    if s != [] { BreaksBounded(if IsPair(s) then s[2..] else s[1..]); }
  }

  /** Compact text is no longer than the source, up to a separator still owed. */
  lemma {:induction false} NeverLonger(s: seq<byte>, line: nat, gap: bool, atStart: bool)
    requires Lex(s, line, gap).Success? && (atStart ==> gap)
    ensures var r := Lex(s, line, gap).value;
      |Render(r.tokens, r.lines, line, atStart)| <= |s| + (if gap && !atStart then 1 else 0)
    decreases |s|
  {
    hide Next, Newlines, Lex, Render, After;
    if s == [] {
      ReadNothing(line, gap, atStart);
      assert |Render([], line, line, atStart)| == 0 by { NothingRendered(line, atStart); }
    } else {
      LexFirst(s, line, gap);
      var (item, n) := Next(s).value;
      if item == Literal {
        LexLiteral(s, n, line, gap);
        var after := line + Breaks(s[..n]);
        NeverLonger(s[n..], after, false, false);
        RenderLiteral(s[..n], Lex(s[n..], after, false).value, line, gap, atStart);
      } else {
        var k := After(item, s[..n]);
        LexGap(s, line, gap);
        NeverLonger(s[n..], line + k, true, k > 0 || atStart);
        if k > 0 {
          BreaksFit(item, s[..n]);
          BreaksRendered(s[n..], line, k, atStart);
        }
      }
    }
  }

  lemma NothingRendered(line: nat, atStart: bool)
    ensures Render([], line, line, atStart) == []
  {
  }

  lemma BreaksFit(item: Item, s: seq<byte>)
    requires s != []
    ensures After(item, s) <= |s|
  {
    BreaksBounded(s);
  }

  lemma BreaksRendered(s: seq<byte>, line: nat, k: nat, atStart: bool)
    requires k > 0 && Lex(s, line + k, true).Success?
    ensures var r := Lex(s, line + k, true).value;
      Render(r.tokens, r.lines, line, atStart) == Newlines(k) + Render(r.tokens, r.lines, line + k, true)
  {
    hide Next, Render, Lex;
    var r := Lex(s, line + k, true).value;
    LinesGrow(s, line + k, true);
    if r.tokens != [] { FirstToken(s, line + k, true); }
    RenderBreaks(r, line, k, atStart);
  }

  lemma {:induction false} TokensFromSource(s: seq<byte>, line: nat, gap: bool, b: byte)
    requires Lex(s, line, gap).Success? && b !in s
    ensures forall t :: t in Lex(s, line, gap).value.tokens ==> b !in t.bytes
    decreases |s|
  {
    if s != [] {
      var (item, n) := Next(s).value;
      TokensFromSource(s[n..], line + After(item, s[..n]), item != Literal, b);
    }
  }

  lemma {:induction false} RenderedBytes(tokens: seq<Token>, lines: nat, line: nat, atStart: bool, b: byte)
    requires forall t :: t in tokens ==> b !in t.bytes
    requires b != LF && b != SPACE
    ensures b !in Render(tokens, lines, line, atStart)
    decreases |tokens|
  {
    if tokens != [] {
      RenderedBytes(tokens[1..], lines, tokens[0].line + Breaks(tokens[0].bytes), false, b);
    }
  }

  /** Compaction keeps every token, its line and where tokens touch; compacting again
      changes nothing; the text never grows. */
  lemma CompactKeepsProgram(data: seq<byte>)
    requires Compact(data).Success?
    ensures var out := Compact(data).value;
      && Lex(out, 0, true) == Lex(data, 0, true)
      && Compact(out) == Success(out)
      && |out| <= |data|
  {
    var r := Lex(data, 0, true).value;
    ReadBack(data, 0, true, true);
    NeverLonger(data, 0, true, true);
    TokensFromSource(data, 0, true, 0);
    RenderedBytes(r.tokens, r.lines, 0, true, 0);
  }
}
