/** `compact_source` as written: one pass with an index, a growing output and a pending
    separator. It computes `Compact`. */
module LuaSource {
  import opened Bytes
  import opened LuaLexer
  import opened Optional
  import opened LuaCompact
  import LuaPlace
  import G = LuaGrammar

  predicate AtLineStart(output: seq<byte>) { output == [] || IsBreak(output[|output| - 1]) }

  /** The final result, given the output so far and the reading of what is left. */
  function Finished(output: seq<byte>, rest: Result<Lexed>, line: nat): Result<seq<byte>> {
    if rest.Failure? then Failure(rest.error)
    else Success(output + Render(rest.value.tokens, rest.value.lines, line, AtLineStart(output)))
  }

  method LineEnd(data: seq<byte>, index: nat) returns (end: nat)
    requires index <= |data|
    ensures end == index + LineLength(data[index..])
  {
    end := index;
    while end < |data| && !IsBreak(data[end])
      invariant index <= end <= |data|
      invariant LineLength(data[index..]) == end - index + LineLength(data[end..])
    {
      assert data[end..][1..] == data[end + 1..];
      end := end + 1;
    }
  }

  method SpaceEnd(data: seq<byte>, index: nat) returns (end: nat)
    requires index <= |data|
    ensures end == index + CountSpace(data[index..])
  {
    end := index;
    while end < |data| && (IsBlank(data[end]) || IsBreak(data[end]))
      invariant index <= end <= |data|
      invariant CountSpace(data[index..]) == end - index + CountSpace(data[end..])
    {
      assert data[end..][1..] == data[end + 1..];
      end := end + 1;
    }
  }

  /** `end` is just behind a backslash that starts an escape; the result is behind the escape. */
  method EscapeEnd(data: seq<byte>, at: nat) returns (end: nat)
    requires 0 < at < |data|
    ensures end == at - 1 + EscapeLength(data[at - 1..])
  {
    var escaped := data[at];
    var s := data[at - 1..];
    assert s[2..] == data[at + 1..] && s[1..] == data[at..];
    end := at + 1;
    if escaped == LETTER_Z {
      end := SpaceEnd(data, end);
    } else if IsBreak(escaped) {
      if end < |data| && IsBreak(data[end]) && data[end] != escaped { end := end + 1; }
    }
  }

  function Shifted(n: Result<nat>, offset: nat): Result<nat> {
    if n.Success? then Success(n.value + offset) else n
  }

  lemma ShortStep(data: seq<byte>, end: nat, quote: byte)
    requires end < |data| && data[end] != quote && !IsBreak(data[end])
    requires data[end] == BACKSLASH ==> end + 1 < |data|
    ensures var step := if data[end] == BACKSLASH then EscapeLength(data[end..]) else 1;
      Shifted(ShortLength(data[end..], quote), end) == Shifted(ShortLength(data[end + step..], quote), end + step)
  {
    hide EscapeLength;
    var s := data[end..];
    var step := if data[end] == BACKSLASH then EscapeLength(s) else 1;
    assert s[step..] == data[end + step..];
  }

  lemma ShortStops(data: seq<byte>, end: nat, quote: byte)
    requires end <= |data|
    requires end < |data| ==> data[end] == quote || IsBreak(data[end]) || (data[end] == BACKSLASH && end + 1 == |data|)
    ensures ShortLength(data[end..], quote)
      == if end < |data| && data[end] == quote then Success(1)
         else if end < |data| && IsBreak(data[end]) then Failure(BreakInString)
         else Failure(OpenShortString)
  {
    assert end == |data| ==> data[end..] == [];
  }

  /** The end of the short string that opens at `index`. */
  method ShortEnd(data: seq<byte>, index: nat) returns (r: Result<nat>)
    requires index < |data| && IsQuote(data[index])
    ensures r == Shifted(ShortLength(data[index + 1..], data[index]), index + 1)
  {
    hide ShortLength, EscapeLength;
    var quote := data[index];
    var end := index + 1;
    ghost var goal := Shifted(ShortLength(data[index + 1..], quote), index + 1);
    while end < |data| && data[end] != quote
      invariant index < end <= |data|
      invariant goal == Shifted(ShortLength(data[end..], quote), end)
    {
      if IsBreak(data[end]) {
        ShortStops(data, end, quote);
        return Failure(BreakInString);
      }
      if data[end] != BACKSLASH {
        ShortStep(data, end, quote);
        end := end + 1;
        continue;
      }
      end := end + 1;
      if end >= |data| {
        ShortStops(data, end - 1, quote);
        return Failure(OpenShortString);
      }
      ShortStep(data, end - 1, quote);
      end := EscapeEnd(data, end);
    }
    ShortStops(data, end, quote);
    if end >= |data| { return Failure(OpenShortString); }
    return Success(end + 1);
  }

  /** The end of the literal at `index`. */
  method LiteralEnd(data: seq<byte>, index: nat) returns (r: Result<nat>)
    requires index < |data| && !IsBlank(data[index]) && !IsBreak(data[index])
    requires !([DASH, DASH] <= data[index..])
    ensures var next := Next(data[index..]);
      && (next.Success? ==> next.value.0 == Literal && r == Success(index + next.value.1))
      && (next.Failure? ==> r == Failure(next.error))
    ensures r.Success? ==> index < r.value <= |data| && G.IsToken(data[index..r.value], data[r.value..])
    ensures r.Failure? ==> forall end :: index < end <= |data| ==> !G.IsToken(data[index..end], data[end..])
  {
    hide G.IsToken, LongLength, Bracket;
    ghost var s := data[index..];
    assert s[0] == data[index] && s[1..] == data[index + 1..];
    var bracket := Bracket(data[index..]);
    if bracket.Some? {
      var length := LongLength(data[index..], bracket.value);
      r := if length.None? then Failure(OpenLongString) else Success(index + length.value);
    } else if IsQuote(data[index]) {
      r := ShortEnd(data, index);
    } else {
      r := Success(index + 1);
    }
    TokenOnBytes(data, index);
  }

  lemma TokenOnBytes(data: seq<byte>, index: nat)
    requires index < |data|
    ensures var next := Next(data[index..]);
      && (next.Success? && next.value.0 == Literal ==>
            var end := index + next.value.1; G.IsToken(data[index..end], data[end..]))
      && (next.Failure? ==> forall end :: index < end <= |data| ==> !G.IsToken(data[index..end], data[end..]))
  {
    hide Next, G.IsToken;
    var s := data[index..];
    if Next(s).Success? {
      var n := Next(s).value.1;
      assert s[..n] == data[index..index + n] && s[n..] == data[index + n..];
      if Next(s).value.0 == Literal { G.LiteralIsToken(s); }
    } else {
      forall end | index < end <= |data| ensures !G.IsToken(data[index..end], data[end..]) {
        assert data[index..end] + data[end..] == s;
        if G.IsToken(data[index..end], data[end..]) { G.TokenIsNext(data[index..end], data[end..]); }
      }
    }
  }

  /** The end of the comment at `index`. */
  method CommentEnd(data: seq<byte>, index: nat) returns (r: Result<nat>)
    requires index < |data| && [DASH, DASH] <= data[index..]
    ensures var next := Next(data[index..]);
      && (next.Success? ==> next.value.0 == Comment && r == Success(index + next.value.1))
      && (next.Failure? ==> r == Failure(next.error))
    // the comment is one on the bytes themselves, and without an end there is none
    ensures r.Success? ==> index < r.value <= |data| && G.IsComment(data[index..r.value], data[r.value..])
    ensures r.Failure? ==> forall end :: index < end <= |data| ==> !G.IsComment(data[index..end], data[end..])
  {
    hide G.IsComment, LongLength, Bracket;
    ghost var s := data[index..];
    assert s[0] == [DASH, DASH][0] && s[1] == [DASH, DASH][1] && s[2..] == data[index + 2..];
    var bracket := Bracket(data[index + 2..]);
    if bracket.Some? {
      var length := LongLength(data[index + 2..], bracket.value);
      r := if length.None? then Failure(OpenLongComment) else Success(index + 2 + length.value);
    } else {
      var end := LineEnd(data, index + 2);
      r := Success(end);
    }
    CommentOnBytes(data, index);
  }

  lemma CommentOnBytes(data: seq<byte>, index: nat)
    requires index < |data| && [DASH, DASH] <= data[index..]
    ensures var next := Next(data[index..]);
      && (next.Success? && next.value.0 == Comment ==>
            var end := index + next.value.1; G.IsComment(data[index..end], data[end..]))
      && (next.Failure? ==> forall end :: index < end <= |data| ==> !G.IsComment(data[index..end], data[end..]))
  {
    hide Next, G.IsComment;
    var s := data[index..];
    if Next(s).Success? {
      var n := Next(s).value.1;
      assert s[..n] == data[index..index + n] && s[n..] == data[index + n..];
      if Next(s).value.0 == Comment { G.CommentIsComment(s); }
    } else {
      forall end | index < end <= |data| ensures !G.IsComment(data[index..end], data[end..]) {
        assert data[index..end] + data[end..] == s;
        if G.IsComment(data[index..end], data[end..]) { G.CommentIsNext(data[index..end], data[end..]); }
      }
    }
  }

  // ---- one turn of the loop ----

  /** `k` line breaks are written for an element that holds no token. */
  lemma Skipped(output: seq<byte>, s: seq<byte>, n: nat, k: nat, line: nat, gap: bool)
    requires s != [] && Next(s).Success? && Next(s).value.0 != Literal && n == Next(s).value.1
    requires k == After(Next(s).value.0, s[..n])
    ensures Finished(output, Lex(s, line, gap), line)
      == Finished(output + Newlines(k), Lex(s[n..], line + k, true), line + k)
    ensures k > 0 ==> AtLineStart(output + Newlines(k))
  {
    hide Next, After, Render;
    var rest := Lex(s[n..], line + k, true);
    var out := output + Newlines(k);
    if k == 0 {
      assert out == output;
    } else {
      assert out[|out| - 1] == LF;
      if rest.Success? {
        LinesGrow(s[n..], line + k, true);
        if rest.value.tokens != [] { FirstToken(s[n..], line + k, true); }
        RenderBreaks(rest.value, line, k, AtLineStart(output));
        var more := Render(rest.value.tokens, rest.value.lines, line + k, true);
        assert output + (Newlines(k) + more) == out + more;
      }
    }
  }

  /** A literal is written behind the separator still owed. */
  lemma Copied(output: seq<byte>, s: seq<byte>, n: nat, line: nat, pending: bool, out: seq<byte>)
    requires s != [] && Next(s) == Success((Literal, n))
    requires out == output + (if pending && !AtLineStart(output) then [SPACE] else []) + s[..n]
    ensures !AtLineStart(out)
    ensures Finished(output, Lex(s, line, pending || AtLineStart(output)), line)
      == Finished(out, Lex(s[n..], line + Breaks(s[..n]), false), line + Breaks(s[..n]))
  {
    hide Next, Render, Breaks, Lex, AtLineStart;
    var atStart := AtLineStart(output);
    var separator := if pending && !atStart then [SPACE] else [];
    CopiedEnds(output + separator, s, n);
    LexLiteral(s, n, line, pending || atStart);
    var after := line + Breaks(s[..n]);
    var rest := Lex(s[n..], after, false);
    if rest.Success? {
      RenderLiteral(s[..n], rest.value, line, pending || atStart, atStart);
      Joined(output, separator, s[..n], Render(rest.value.tokens, rest.value.lines, after, false));
    }
  }

  /** A literal does not end in a line break. */
  lemma CopiedEnds(output: seq<byte>, s: seq<byte>, n: nat)
    requires s != [] && Next(s) == Success((Literal, n))
    ensures !AtLineStart(output + s[..n])
  {
    hide Next;
    LuaPlace.LiteralEnds(s);
    var out := output + s[..n];
    assert out[|out| - 1] == s[n - 1];
  }

  lemma Joined(a: seq<byte>, b: seq<byte>, c: seq<byte>, d: seq<byte>)
    ensures a + b + c + d == a + (b + (c + d))
  {
  }

  /** The invariant of the main loop. */
  ghost predicate OnTrack(data: seq<byte>, index: nat, output: seq<byte>, pending: bool, line: nat) {
    && index <= |data|
    && Compact(data) == Finished(output, Lex(data[index..], line, pending || AtLineStart(output)), line)
  }

  lemma AfterSkip(data: seq<byte>, index: nat, output: seq<byte>, pending: bool, line: nat, end: nat, k: nat)
    requires OnTrack(data, index, output, pending, line) && index < end <= |data|
    requires var next := Next(data[index..]);
      && next.Success? && next.value.0 != Literal && next.value.1 == end - index
      && k == After(next.value.0, data[index..end])
    ensures OnTrack(data, end, output + Newlines(k), true, line + k)
    ensures k > 0 ==> OnTrack(data, end, output + Newlines(k), false, line + k)
  {
    hide Next, After, Compact, Lex, Finished, Newlines;
    var s := data[index..];
    assert s[..end - index] == data[index..end] && s[end - index..] == data[end..];
    Skipped(output, s, end - index, k, line, pending || AtLineStart(output));
  }

  lemma AfterCopy(data: seq<byte>, index: nat, output: seq<byte>, pending: bool, line: nat, end: nat, out: seq<byte>)
    requires OnTrack(data, index, output, pending, line) && index < end <= |data|
    requires Next(data[index..]) == Success((Literal, end - index))
    requires out == output + (if pending && !AtLineStart(output) then [SPACE] else []) + data[index..end]
    ensures OnTrack(data, end, out, false, line + Breaks(data[index..end]))
  {
    hide Next, Breaks, Compact, Lex, Finished;
    var s := data[index..];
    assert s[..end - index] == data[index..end] && s[end - index..] == data[end..];
    Copied(output, s, end - index, line, pending, out);
  }

  lemma Stuck(data: seq<byte>, index: nat, output: seq<byte>, pending: bool, line: nat)
    requires OnTrack(data, index, output, pending, line) && index < |data| && Next(data[index..]).Failure?
    ensures Compact(data) == Failure(Next(data[index..]).error)
  {
    hide Next, Compact;
  }

  lemma Started(data: seq<byte>)
    ensures if 0 in data then Compact(data) == Failure(EmbeddedNul) else OnTrack(data, 0, [], false, 0)
  {
    assert data[0..] == data;
    if Lex(data, 0, true).Success? {
      var r := Lex(data, 0, true).value;
      assert [] + Render(r.tokens, r.lines, 0, true) == Render(r.tokens, r.lines, 0, true);
    }
  }

  lemma BlankOrBreak(data: seq<byte>, index: nat)
    requires index < |data| && (IsBlank(data[index]) || IsBreak(data[index]))
    ensures IsBlank(data[index]) ==> Next(data[index..]) == Success((Blank, 1))
    ensures IsBreak(data[index]) ==> Next(data[index..]) == Success((LineBreak,
      if index + 1 < |data| && IsBreak(data[index + 1]) && data[index + 1] != data[index] then 2 else 1))
  {
    assert data[index..][0] == data[index];
    if index + 1 < |data| { assert data[index..][1] == data[index + 1]; }
  }

  method SkipComment(data: seq<byte>, index: nat, output: seq<byte>, pending: bool, ghost line: nat)
      returns (end: Result<nat>, out: seq<byte>, ghost after: nat)
    requires index < |data| && OnTrack(data, index, output, pending, line) && [DASH, DASH] <= data[index..]
    ensures end.Success? ==> index < end.value <= |data| && OnTrack(data, end.value, out, true, after)
    ensures end.Failure? ==> Compact(data) == Failure(end.error)
  {
    hide OnTrack, Compact, Next, Breaks, G.IsComment;
    end := CommentEnd(data, index);
    if end.Failure? {
      Stuck(data, index, output, pending, line);
      return end, output, line;
    }
    var breaks := Breaks(data[index..end.value]);
    AfterSkip(data, index, output, pending, line, end.value, breaks);
    out, after := output + Newlines(breaks), line + breaks;
  }

  method CopyLiteral(data: seq<byte>, index: nat, output: seq<byte>, pending: bool, ghost line: nat)
      returns (end: Result<nat>, out: seq<byte>, ghost after: nat)
    requires index < |data| && OnTrack(data, index, output, pending, line)
    requires !([DASH, DASH] <= data[index..]) && !IsBlank(data[index]) && !IsBreak(data[index])
    ensures end.Success? ==> index < end.value <= |data| && OnTrack(data, end.value, out, false, after)
    ensures end.Failure? ==> Compact(data) == Failure(end.error)
  {
    hide OnTrack, Compact, Next, Breaks, G.IsToken;
    end := LiteralEnd(data, index);
    if end.Failure? {
      Stuck(data, index, output, pending, line);
      return end, output, line;
    }
    out := output;
    if pending && output != [] && !IsBreak(output[|output| - 1]) { out := out + [SPACE]; }
    out, after := out + data[index..end.value], line + Breaks(data[index..end.value]);
    assert output + [] == output;
    AfterCopy(data, index, output, pending, line, end.value, out);
  }

  method CompactSource(data: seq<byte>) returns (r: Result<seq<byte>>)
    ensures r == Compact(data)
    // on the bytes: the texts that can be read, and their tokens in their places
    ensures r.Success? <==> 0 !in data && G.Readable(data)
    ensures r.Success? ==> forall p, q :: G.Reads(data, p) && G.Reads(r.value, q) ==>
      G.SameLayout(data, G.Placed(p, 0), r.value, G.Placed(q, 0)) && G.Sparse(q, false)
  {
    hide OnTrack, Compact, Next, Breaks, G.Reads, G.SameLayout, G.Sparse, G.Placed;
    G.CompactLaw(data);
    Started(data);
    if 0 in data { return Failure(EmbeddedNul); }
    var output: seq<byte>, pendingSpace, index := [], false, 0;
    ghost var line: nat := 0;
    while index < |data|
      invariant index <= |data| && OnTrack(data, index, output, pendingSpace, line)
    {
      var end: Result<nat>;
      if IsBlank(data[index]) {
        BlankOrBreak(data, index);
        AfterSkip(data, index, output, pendingSpace, line, index + 1, 0);
        assert output + Newlines(0) == output;
        pendingSpace := true;
        index := index + 1;
      } else if [DASH, DASH] <= data[index..] {
        end, output, line := SkipComment(data, index, output, pendingSpace, line);
        if end.Failure? { return Failure(end.error); }
        pendingSpace := true;
        index := end.value;
      } else if IsBreak(data[index]) {
        BlankOrBreak(data, index);
        var paired := index + 1 < |data| && IsBreak(data[index + 1]) && data[index + 1] != data[index];
        var length := if paired then 2 else 1;
        AfterSkip(data, index, output, pendingSpace, line, index + length, 1);
        output, line := output + Newlines(1), line + 1;
        pendingSpace := false;
        index := index + length;
      } else {
        end, output, line := CopyLiteral(data, index, output, pendingSpace, line);
        if end.Failure? { return Failure(end.error); }
        pendingSpace := false;
        index := end.value;
      }
    }
    Ended(data, output, pendingSpace, line);
    return Success(output);
  }

  lemma Ended(data: seq<byte>, output: seq<byte>, pending: bool, line: nat)
    requires OnTrack(data, |data|, output, pending, line)
    ensures Compact(data) == Success(output)
  {
    hide Compact;
    assert data[|data|..] == [] && output + [] == output;
  }
}
