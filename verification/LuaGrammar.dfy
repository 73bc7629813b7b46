/** Lua text said on its bytes (section 3.1 of the Lua Reference Manual): which stretches
    are comments, strings and single bytes, with no scanner in the definitions; and that
    the scanner, and so the compactor, reads text exactly this way. */
module LuaGrammar {
  import opened Bytes
  import opened LuaLexer
  import opened Optional
  import opened LuaCompact
  import LuaPlace

  // ---- the grammar ----

  function Opening(level: nat): seq<byte> { [OPEN] + seq(level, i => EQUALS) + [OPEN] }
  function Closing(level: nat): seq<byte> { [CLOSE] + seq(level, i => EQUALS) + [CLOSE] }

  predicate OccursAt(m: seq<byte>, s: seq<byte>, k: nat) { k + |m| <= |s| && s[k..k + |m|] == m }

  /** Some long bracket opens at the start of `s`. */
  ghost predicate OpensLong(s: seq<byte>) { exists level: nat :: Opening(level) <= s }

  /** A long bracket, up to the first closing bracket of its level. */
  ghost predicate IsLong(u: seq<byte>, level: nat) {
    && 2 * level + 4 <= |u| && Opening(level) <= u
    && OccursAt(Closing(level), u, |u| - level - 2)
    && forall k :: level + 2 <= k < |u| - level - 2 ==> !OccursAt(Closing(level), u, k)
  }

  predicate IsSpace(b: byte) { IsBlank(b) || IsBreak(b) }

  /** One escape of a quoted string, before `rest`: `\z` with all the space after it, an
      escaped line break, which CRLF and LFCR are too, or one escaped byte. */
  predicate IsEscape(u: seq<byte>, rest: seq<byte>) {
    && |u| >= 2 && u[0] == BACKSLASH
    && if u[1] == LETTER_Z then (forall i :: 2 <= i < |u| ==> IsSpace(u[i])) && (rest != [] ==> !IsSpace(rest[0]))
       else if IsBreak(u[1]) && |u| == 3 then IsBreak(u[2]) && u[2] != u[1]
       else |u| == 2 && !(IsBreak(u[1]) && rest != [] && IsBreak(rest[0]) && rest[0] != u[1])
  }

  /** A byte or an escape inside a quoted string. */
  predicate IsUnit(u: seq<byte>, quote: byte, rest: seq<byte>) {
    (|u| == 1 && u[0] != quote && u[0] != BACKSLASH && !IsBreak(u[0])) || IsEscape(u, rest)
  }

  /** `s` is these units and then the closing quote. */
  ghost predicate IsBody(s: seq<byte>, quote: byte, units: seq<seq<byte>>)
    decreases |units|
  {
    if units == [] then s == [quote] else
    && 0 < |units[0]| <= |s| && units[0] == s[..|units[0]|]
    && IsUnit(units[0], quote, s[|units[0]|..]) && IsBody(s[|units[0]|..], quote, units[1..])
  }

  /** A quoted string on its own: it ends with its first quote that no escape covers. */
  ghost predicate IsShort(u: seq<byte>) {
    |u| >= 2 && IsQuote(u[0]) && exists units :: IsBody(u[1..], u[0], units)
  }

  predicate NoBreak(s: seq<byte>) { forall i :: 0 <= i < |s| ==> !IsBreak(s[i]) }

  /** A comment before `rest`: in long brackets, or up to the end of its line. */
  ghost predicate IsComment(u: seq<byte>, rest: seq<byte>) {
    && |u| >= 2 && u[0] == u[1] == DASH
    && ((exists level: nat :: IsLong(u[2..], level))
        || (NoBreak(u[2..]) && !OpensLong(u[2..] + rest) && (rest != [] ==> IsBreak(rest[0]))))
  }

  ghost predicate IsGap(u: seq<byte>, rest: seq<byte>) { (|u| == 1 && IsSpace(u[0])) || IsComment(u, rest) }

  /** A string, or one byte that starts neither a string nor a comment. */
  ghost predicate IsToken(u: seq<byte>, rest: seq<byte>) {
    || (exists level: nat :: IsLong(u, level))
    || IsShort(u)
    || (|u| == 1 && !IsSpace(u[0]) && !IsQuote(u[0]) && !([DASH, DASH] <= u + rest) && !OpensLong(u + rest))
  }

  datatype Part = Gap(bytes: seq<byte>) | Tok(bytes: seq<byte>)

  ghost predicate IsPart(p: Part, rest: seq<byte>) { if p.Gap? then IsGap(p.bytes, rest) else IsToken(p.bytes, rest) }

  /** The text consists of these parts. */
  ghost predicate Reads(s: seq<byte>, parts: seq<Part>)
    decreases |parts|
  {
    if parts == [] then s == [] else
    var u := parts[0].bytes;
    && 0 < |u| <= |s| && u == s[..|u|] && IsPart(parts[0], s[|u|..]) && Reads(s[|u|..], parts[1..])
  }

  ghost predicate Readable(s: seq<byte>) { exists parts :: Reads(s, parts) }

  /** The tokens among the parts, and where they start. */
  datatype Span = Span(start: nat, bytes: seq<byte>)

  function Placed(parts: seq<Part>, at: nat): seq<Span>
    decreases |parts|
  {
    if parts == [] then [] else
    var p := parts[0];
    (if p.Tok? then [Span(at, p.bytes)] else []) + Placed(parts[1..], at + |p.bytes|)
  }

  // ---- long brackets ----

  lemma ClosingIsMarker(level: nat)
    ensures Closing(level) == Marker(level)
  {
  }

  lemma {:induction false} FindIsFirst(s: seq<byte>, level: nat)
    ensures var k := FindMarker(s, level);
      && (k.Some? ==> OccursAt(Closing(level), s, k.value) && forall i: nat :: i < k.value ==> !OccursAt(Closing(level), s, i))
      && (k.None? ==> forall i: nat :: !OccursAt(Closing(level), s, i))
    decreases |s|
  {
    hide Marker;
    var m := Closing(level);
    ClosingIsMarker(level);
    if m <= s {
      assert OccursAt(m, s, 0);
    } else if s != [] {
      FindIsFirst(s[1..], level);
      forall i: nat ensures OccursAt(m, s, i + 1) <==> OccursAt(m, s[1..], i) { OccursLater(m, s, i); }
      assert !OccursAt(m, s, 0);
      forall i: nat | i > 0 ensures OccursAt(m, s, i) <==> OccursAt(m, s[1..], i - 1) { OccursLater(m, s, i - 1); }
    }
  }

  lemma OccursLater(m: seq<byte>, s: seq<byte>, i: nat)
    requires s != []
    ensures OccursAt(m, s, i + 1) <==> OccursAt(m, s[1..], i)
  {
    if i + 1 + |m| <= |s| { assert s[1..][i..i + |m|] == s[i + 1..i + 1 + |m|]; }
  }

  lemma {:induction false} EqualsCounted(s: seq<byte>, n: nat)
    requires n < |s| && s[n] != EQUALS && forall i :: 0 <= i < n ==> s[i] == EQUALS
    ensures CountEquals(s) == n
    decreases n
  {
    if n > 0 { EqualsCounted(s[1..], n - 1); }
  }

  lemma BracketIsOpening(s: seq<byte>, level: nat)
    ensures Bracket(s) == Some(level) <==> Opening(level) <= s
  {
    var o := Opening(level);
    if Bracket(s) == Some(level) {
      assert forall i :: 0 < i <= level ==> s[i] == s[1..][i - 1] == EQUALS;
      assert s[..level + 2] == o;
    }
    if o <= s {
      assert forall i :: 0 <= i < |o| ==> s[i] == o[i];
      EqualsCounted(s[1..], level);
    }
  }

  lemma NoBracket(s: seq<byte>)
    ensures Bracket(s).None? <==> !OpensLong(s)
  {
    hide Bracket, Opening;
    if Bracket(s).Some? { BracketIsOpening(s, Bracket(s).value); }
    if OpensLong(s) {
      var level: nat :| Opening(level) <= s;
      BracketIsOpening(s, level);
    }
  }

  lemma OccursWithin(m: seq<byte>, s: seq<byte>, n: nat, a: nat, i: nat)
    requires a + i + |m| <= n <= |s|
    ensures OccursAt(m, s[..n], a + i) <==> OccursAt(m, s[a..], i)
  {
    assert s[..n][a + i..a + i + |m|] == s[a + i..a + i + |m|] == s[a..][i..i + |m|];
  }

  /** The length of a long bracket is that of the one long bracket there is. */
  lemma LongIsLong(s: seq<byte>, level: nat)
    requires Opening(level) <= s
    ensures LongLength(s, level).Some? ==> IsLong(s[..LongLength(s, level).value], level)
  {
    hide FindMarker, OccursAt;
    FindIsFirst(s[level + 2..], level);
    var m := Closing(level);
    if LongLength(s, level).Some? {
      var n := LongLength(s, level).value;
      var u := s[..n];
      OccursWithin(m, s, n, level + 2, n - 2 * level - 4);
      forall k | level + 2 <= k < n - level - 2 ensures !OccursAt(m, u, k) { OccursWithin(m, s, n, level + 2, k - level - 2); }
      assert Opening(level) <= u;
    }
  }

  lemma LongHasLength(u: seq<byte>, level: nat, s: seq<byte>)
    requires IsLong(u, level) && u <= s
    ensures LongLength(s, level) == Some(|u|) && Opening(level) <= s
  {
    hide FindMarker, OccursAt;
    var m, n := Closing(level), |u|;
    assert u == s[..n] && Opening(level) <= s;
    FindIsFirst(s[level + 2..], level);
    OccursWithin(m, s, n, level + 2, n - 2 * level - 4);
    var k := FindMarker(s[level + 2..], level);
    if k.Some? && k.value < n - 2 * level - 4 { OccursWithin(m, s, n, level + 2, k.value); }
  }

  // ---- quoted strings ----

  lemma EscapeIsEscape(s: seq<byte>, rest: seq<byte>)
    requires |s| >= 2 && s[0] == BACKSLASH
    requires rest != [] ==> EscapeLength(s) < |s| && rest[0] == s[EscapeLength(s)]
    ensures IsEscape(s[..EscapeLength(s)], rest)
  {
    var n := EscapeLength(s);
    if s[1] == LETTER_Z {
      assert forall i :: 2 <= i < n ==> s[i] == s[2..][i - 2];
      if n < |s| { assert s[n] == s[2..][n - 2]; }
    } else if IsPair(s[1..]) {
      assert s[2] == s[1..][1];
    } else if n < |s| {
      assert s[2] == s[1..][1];
    }
  }

  lemma {:induction false} SpaceCounted(s: seq<byte>, n: nat)
    requires n < |s| && !IsSpace(s[n]) && forall i :: 0 <= i < n ==> IsSpace(s[i])
    ensures CountSpace(s) == n
    decreases n
  {
    if n > 0 { SpaceCounted(s[1..], n - 1); }
  }

  lemma EscapeHasLength(u: seq<byte>, rest: seq<byte>, s: seq<byte>)
    requires IsEscape(u, rest) && rest != [] && u + rest <= s
    ensures EscapeLength(s) == |u|
  {
    var n := |u|;
    assert forall i :: 0 <= i < n ==> s[i] == (u + rest)[i] == u[i];
    assert s[n] == (u + rest)[n] == rest[0];
    if u[1] == LETTER_Z {
      assert forall i :: 0 <= i < n - 2 ==> s[2..][i] == u[i + 2];
      SpaceCounted(s[2..], n - 2);
    } else {
      assert s[1..][0] == u[1] && s[1..][1] == s[2];
    }
  }

  lemma {:induction false} ShortIsBody(s: seq<byte>, quote: byte) returns (units: seq<seq<byte>>)
    requires IsQuote(quote) && ShortLength(s, quote).Success?
    ensures IsBody(s[..ShortLength(s, quote).value], quote, units)
    decreases |s|
  {
    hide ShortLength, IsEscape;
    var n := ShortLength(s, quote).value;
    ShortStarts(s, quote);
    if s[0] == quote {
      FirstQuote(s, quote);
      units := [];
    } else {
      ShortOnce(s, quote);
      var m := BodyStep(s);
      var later := ShortIsBody(s[m..], quote);
      var rest := s[..n][m..];
      assert rest == s[m..][..n - m] && s[..n][..m] == s[..m];
      if s[0] == BACKSLASH { EscapeIsEscape(s, rest); }
      units := [s[..m]] + later;
      assert units[0] == s[..m] && units[1..] == later;
    }
  }

  lemma {:induction false} BodyHasLength(u: seq<byte>, quote: byte, units: seq<seq<byte>>, s: seq<byte>)
    requires IsBody(u, quote, units) && u <= s && IsQuote(quote)
    ensures ShortLength(s, quote) == Success(|u|)
    decreases |units|
  {
    hide ShortLength, EscapeLength, IsEscape;
    if units == [] {
      assert s[0] == u[0];
      FirstQuote(s, quote);
    } else {
      var m := |units[0]|;
      var rest := u[m..];
      BodyNotEmpty(rest, quote, units[1..]);
      assert u == units[0] + rest && s[0] == u[0] == units[0][0] && rest <= s[m..];
      if IsEscape(units[0], rest) {
        EscapeStarts(units[0], rest);
        EscapeHasLength(units[0], rest, s);
      }
      BodyHasLength(rest, quote, units[1..], s[m..]);
      ShortFolds(s, quote);
    }
  }

  lemma EscapeStarts(u: seq<byte>, rest: seq<byte>)
    requires IsEscape(u, rest)
    ensures |u| >= 2 && u[0] == BACKSLASH
  {
  }

  lemma BodyNotEmpty(s: seq<byte>, quote: byte, units: seq<seq<byte>>)
    requires IsBody(s, quote, units)
    ensures s != []
  {
  }

  // ---- one element ----

  lemma {:induction false} LineCounted(s: seq<byte>, n: nat)
    requires n <= |s| && (forall i :: 0 <= i < n ==> !IsBreak(s[i])) && (n < |s| ==> IsBreak(s[n]))
    ensures LineLength(s) == n
    decreases n
  {
    if n > 0 { LineCounted(s[1..], n - 1); }
  }

  lemma CommentIsComment(s: seq<byte>)
    requires s != [] && Next(s).Success? && Next(s).value.0 == Comment
    ensures IsComment(s[..Next(s).value.1], s[Next(s).value.1..])
  {
    hide LongLength, IsLong, Bracket, OpensLong;
    var n, t := Next(s).value.1, s[2..];
    var u, rest := s[..n], s[n..];
    assert u[2..] == t[..n - 2] && u[2..] + rest == t;
    if Bracket(t).Some? {
      BracketIsOpening(t, Bracket(t).value);
      LongIsLong(t, Bracket(t).value);
    } else {
      NoBracket(t);
      assert rest != [] ==> rest[0] == t[n - 2];
    }
  }

  lemma CommentIsNext(u: seq<byte>, rest: seq<byte>)
    requires IsComment(u, rest)
    ensures Next(u + rest) == Success((Comment, |u|))
  {
    hide LongLength, IsLong, Bracket, OpensLong, ShortLength;
    var s := u + rest;
    var t := s[2..];
    assert s[0] == u[0] && s[1] == u[1] && t == u[2..] + rest;
    if level: nat :| IsLong(u[2..], level) {
      LongHasLength(u[2..], level, t);
      BracketIsOpening(t, level);
    } else {
      NoBracket(t);
      assert forall i :: 0 <= i < |u| - 2 ==> t[i] == u[2..][i];
      assert rest != [] ==> t[|u| - 2] == rest[0];
      LineCounted(t, |u| - 2);
    }
  }

  lemma LiteralIsToken(s: seq<byte>)
    requires s != [] && Next(s).Success? && Next(s).value.0 == Literal
    ensures IsToken(s[..Next(s).value.1], s[Next(s).value.1..])
  {
    hide LongLength, IsLong, Bracket, OpensLong, ShortLength, IsBody;
    var n := Next(s).value.1;
    var u, rest := s[..n], s[n..];
    assert u + rest == s;
    if Bracket(s).Some? {
      BracketIsOpening(s, Bracket(s).value);
      LongIsLong(s, Bracket(s).value);
    } else if IsQuote(s[0]) {
      var units := ShortIsBody(s[1..], s[0]);
      assert u[1..] == s[1..][..n - 1];
    } else {
      NoBracket(s);
    }
  }

  lemma TokenIsNext(u: seq<byte>, rest: seq<byte>)
    requires IsToken(u, rest)
    ensures u != [] && Next(u + rest) == Success((Literal, |u|))
  {
    hide LongLength, Bracket, OpensLong, ShortLength, IsBody, OccursAt;
    var s := u + rest;
    if level: nat :| IsLong(u, level) {
      LongHasLength(u, level, s);
      BracketIsOpening(s, level);
      assert s[0] == Opening(level)[0];
    } else if IsShort(u) {
      var units :| IsBody(u[1..], u[0], units);
      assert s[0] == u[0] && s[1..] == u[1..] + rest;
      BodyHasLength(u[1..], u[0], units, s[1..]);
      QuoteOpensNothing(s);
    } else {
      NoBracket(s);
      assert s[0] == u[0];
    }
  }

  lemma QuoteOpensNothing(s: seq<byte>)
    requires s != [] && IsQuote(s[0])
    ensures Bracket(s).None?
  {
  }

  // ---- whole texts ----

  /** What the scanner says of the tokens of a text. */
  ghost predicate Agrees(spans: seq<Span>, starts: seq<nat>, tokens: seq<Token>) {
    && |spans| == |starts| == |tokens|
    && forall i :: 0 <= i < |spans| ==> spans[i] == Span(starts[i], tokens[i].bytes)
  }

  lemma AgreesFirst(span: Span, spans: seq<Span>, starts: seq<nat>, t: Token, tokens: seq<Token>)
    requires Agrees(spans, starts, tokens) && span.bytes == t.bytes
    ensures Agrees([span] + spans, [span.start] + starts, [t] + tokens)
  {
  }

  /** Space at the start of a text is a part of its own in every reading of it. */
  lemma SpaceFirst(s: seq<byte>, parts: seq<Part>)
    requires Reads(s, parts) && s != [] && IsSpace(s[0])
    ensures parts != [] && parts[0] == Gap([s[0]]) && Reads(s[1..], parts[1..])
  {
    hide IsLong, IsBody, OpensLong;
    var p, rest := parts[0], s[|parts[0].bytes|..];
    assert p.bytes[0] == s[0];
    if p.Tok? {
      TokenStarts(p.bytes, rest);
    }
  }

  lemma TokenStarts(u: seq<byte>, rest: seq<byte>)
    requires IsToken(u, rest)
    ensures u != [] && !IsSpace(u[0])
  {
    hide OccursAt, IsBody, OpensLong;
    if level: nat :| IsLong(u, level) { assert u[0] == Opening(level)[0]; }
  }

  lemma PlacedOne(parts: seq<Part>, at: nat)
    requires parts != []
    ensures var p := parts[0]; var rest := Placed(parts[1..], at + |p.bytes|);
      Placed(parts, at) == if p.Tok? then [Span(at, p.bytes)] + rest else rest
  {
    var rest := Placed(parts[1..], at + |parts[0].bytes|);
    assert [] + rest == rest;
  }

  lemma StartsOne(s: seq<byte>, at: nat)
    requires s != [] && Next(s).Success?
    ensures var (item, n) := Next(s).value; var rest := LuaPlace.Starts(s[n..], at + n);
      LuaPlace.Starts(s, at) == if item == Literal then [at] + rest else rest
  {
    hide Next;
    var (item, n) := Next(s).value;
    var rest := LuaPlace.Starts(s[n..], at + n);
    assert [] + rest == rest;
  }

  lemma SpaceNext(s: seq<byte>)
    requires s != [] && IsSpace(s[0])
    ensures Next(s) == Success((if IsBreak(s[0]) then LineBreak else Blank, if IsBreak(s[0]) && IsPair(s) then 2 else 1))
  {
    hide Bracket, LongLength, ShortLength;
  }

  /** Every reading of a text has the tokens the scanner finds, where it finds them. */
  lemma {:induction false} ReadingIsScanned(s: seq<byte>, parts: seq<Part>, line: nat, gap: bool, at: nat)
    requires Reads(s, parts)
    ensures Lex(s, line, gap).Success?
    ensures Agrees(Placed(parts, at), LuaPlace.Starts(s, at), Lex(s, line, gap).value.tokens)
    decreases |parts|
  {
    hide Next, IsGap, IsToken, Breaks, Agrees, Placed, Lex, LuaPlace.Starts;
    if parts == [] {
      NothingAgrees(line, gap, at);
    } else if IsSpace(s[0]) {
      hide Reads;
      SpaceFirst(s, parts);
      SpaceNext(s);
      PlacedOne(parts, at);
      var n := Next(s).value.1;
      if n == 2 {
        SpaceFirst(s[1..], parts[1..]);
        PlacedOne(parts[1..], at + 1);
        assert s[1..][1..] == s[2..] && parts[1..][1..] == parts[2..];
      }
      LexGap(s, line, gap);
      StartsOne(s, at);
      ReadingIsScanned(s[n..], parts[n..], line + After(Next(s).value.0, s[..n]), true, at + n);
    } else {
      PartScanned(s, parts, line, gap, at);
    }
  }

  lemma {:induction false} PartScanned(s: seq<byte>, parts: seq<Part>, line: nat, gap: bool, at: nat)
    requires Reads(s, parts) && s != [] && !IsSpace(s[0])
    ensures Lex(s, line, gap).Success?
    ensures Agrees(Placed(parts, at), LuaPlace.Starts(s, at), Lex(s, line, gap).value.tokens)
    decreases |parts|, 0
  {
    hide Next, IsGap, IsToken, Breaks, Agrees, Placed, Lex, LuaPlace.Starts;
    var u := parts[0].bytes;
    var n, rest := |u|, s[|u|..];
    assert u + rest == s && u == s[..n];
    PlacedOne(parts, at);
    if parts[0].Tok? {
      TokenIsNext(u, rest);
      LexLiteral(s, n, line, gap);
      StartsOne(s, at);
      var after := line + Breaks(u);
      ReadingIsScanned(rest, parts[1..], after, false, at + n);
      var later := Lex(rest, after, false).value;
      AgreesFirst(Span(at, u), Placed(parts[1..], at + n), LuaPlace.Starts(rest, at + n), Token(u, line, !gap), later.tokens);
    } else {
      GapIsComment(u, rest);
      CommentIsNext(u, rest);
      LexGap(s, line, gap);
      StartsOne(s, at);
      ReadingIsScanned(rest, parts[1..], line + After(Comment, u), true, at + n);
    }
  }

  lemma NothingAgrees(line: nat, gap: bool, at: nat)
    ensures Lex([], line, gap).Success?
    ensures Agrees(Placed([], at), LuaPlace.Starts([], at), Lex([], line, gap).value.tokens)
  {
  }

  lemma GapIsComment(u: seq<byte>, rest: seq<byte>)
    requires IsGap(u, rest) && u != [] && !IsSpace(u[0])
    ensures IsComment(u, rest)
  {
  }

  lemma PartFirst(s: seq<byte>, p: Part, more: seq<Part>)
    requires 0 < |p.bytes| <= |s| && p.bytes == s[..|p.bytes|]
    requires IsPart(p, s[|p.bytes|..]) && Reads(s[|p.bytes|..], more)
    ensures Reads(s, [p] + more)
  {
    hide IsPart;
    var all := [p] + more;
    assert all[0] == p && all[1..] == more;
  }

  lemma SpaceReads(s: seq<byte>, more: seq<Part>)
    requires s != [] && IsSpace(s[0]) && Reads(s[1..], more)
    ensures Reads(s, [Gap([s[0]])] + more)
  {
    hide Reads, IsComment;
    PartFirst(s, Gap([s[0]]), more);
  }

  /** What the scanner takes has a reading. */
  lemma {:induction false} ScannedIsReading(s: seq<byte>, line: nat, gap: bool) returns (parts: seq<Part>)
    requires Lex(s, line, gap).Success?
    ensures Reads(s, parts)
    decreases |s|
  {
    hide Next, IsGap, IsToken, After, Lex;
    if s == [] {
      parts := [];
    } else {
      var rest := LuaPlace.LexOnce(s, line, gap);
      var (item, n) := Next(s).value;
      var more := ScannedIsReading(s[n..], line + After(item, s[..n]), item != Literal);
      parts := ElementReads(s, more);
    }
  }

  lemma ElementReads(s: seq<byte>, more: seq<Part>) returns (parts: seq<Part>)
    requires s != [] && Next(s).Success? && Reads(s[Next(s).value.1..], more)
    ensures Reads(s, parts)
  {
    hide Next, Reads, IsComment, IsToken;
    var (item, n) := Next(s).value;
    if IsSpace(s[0]) {
      SpaceNext(s);
      if n == 2 {
        assert s[1..][1..] == s[2..];
        SpaceReads(s[1..], more);
        parts := [Gap([s[0]])] + ([Gap([s[1]])] + more);
        SpaceReads(s, [Gap([s[1]])] + more);
      } else {
        parts := [Gap([s[0]])] + more;
        SpaceReads(s, more);
      }
    } else if item == Comment {
      CommentIsComment(s);
      parts := [Gap(s[..n])] + more;
      PartFirst(s, Gap(s[..n]), more);
    } else {
      NoSpaceNext(s);
      LiteralIsToken(s);
      parts := [Tok(s[..n])] + more;
      PartFirst(s, Tok(s[..n]), more);
    }
  }

  lemma NoSpaceNext(s: seq<byte>)
    requires s != [] && Next(s).Success? && !IsSpace(s[0])
    ensures Next(s).value.0 in {Comment, Literal}
  {
    hide Bracket, LongLength, ShortLength;
  }

  /** A text has one reading. */
  lemma {:induction false} OneReading(s: seq<byte>, p: seq<Part>, q: seq<Part>)
    requires Reads(s, p) && Reads(s, q)
    ensures p == q
    decreases |p|
  {
    hide Next, IsPart;
    if s != [] {
      if IsSpace(s[0]) {
        SpaceFirst(s, p);
        SpaceFirst(s, q);
      } else {
        assert p[0].bytes + s[|p[0].bytes|..] == s && q[0].bytes + s[|q[0].bytes|..] == s;
        PartIsNext(p[0], s[|p[0].bytes|..]);
        PartIsNext(q[0], s[|q[0].bytes|..]);
      }
      OneReading(s[|p[0].bytes|..], p[1..], q[1..]);
      assert p == [p[0]] + p[1..] && q == [q[0]] + q[1..];
    }
  }

  lemma PartIsNext(p: Part, rest: seq<byte>)
    requires p.bytes != [] && !IsSpace(p.bytes[0]) && IsPart(p, rest)
    ensures Next(p.bytes + rest) == Success((if p.Tok? then Literal else Comment, |p.bytes|))
  {
    hide Next, IsComment, IsToken;
    if p.Tok? { TokenIsNext(p.bytes, rest); } else { CommentIsNext(p.bytes, rest); }
  }

  // ---- what the compactor writes ----

  /** Between tokens there are only line feeds, or a single space between two tokens; `tok`
      says that a token comes before. */
  predicate Sparse(parts: seq<Part>, tok: bool)
    decreases |parts|
  {
    parts == [] ||
    match parts[0]
    case Tok(_) => Sparse(parts[1..], true)
    case Gap(bytes) =>
      && (bytes == [LF] || (bytes == [SPACE] && tok && |parts| > 1 && parts[1].Tok?))
      && Sparse(parts[1..], false)
  }

  lemma {:induction false} NewlinesRead(k: nat, rest: seq<byte>, q: seq<Part>, tok: bool) returns (parts: seq<Part>)
    requires k > 0 && Reads(rest, q) && Sparse(q, false)
    ensures Reads(Newlines(k) + rest, parts) && Sparse(parts, tok)
  {
    hide Reads;
    var s := Newlines(k) + rest;
    if k == 1 {
      parts := q;
    } else {
      parts := NewlinesRead(k - 1, rest, q, false);
    }
    assert s[1..] == if k == 1 then rest else Newlines(k - 1) + rest;
    SpaceReads(s, parts);
    var more := parts;
    parts := [Gap([LF])] + more;
    assert parts[0] == Gap([LF]) && parts[1..] == more;
  }

  lemma LiteralRead(bytes: seq<byte>, more: seq<byte>, q: seq<Part>, spaced: bool) returns (parts: seq<Part>)
    requires bytes != [] && IsToken(bytes, more) && Reads(more, q) && Sparse(q, true)
    ensures Reads((if spaced then [SPACE] else []) + (bytes + more), parts) && Sparse(parts, spaced)
  {
    hide Reads, IsToken;
    var t := bytes + more;
    assert t[..|bytes|] == bytes && t[|bytes|..] == more;
    PartFirst(t, Tok(bytes), q);
    var rest := [Tok(bytes)] + q;
    assert rest[0] == Tok(bytes) && rest[1..] == q;
    if spaced {
      var s := [SPACE] + t;
      assert s[1..] == t;
      SpaceReads(s, rest);
      parts := [Gap([SPACE])] + rest;
      assert parts[0] == Gap([SPACE]) && parts[1..] == rest;
    } else {
      assert [] + t == t;
      parts := rest;
    }
  }

  /** What is written for a source reads as its tokens, sparsely separated. */
  lemma {:induction false} RenderReads(s: seq<byte>, line: nat, gap: bool, atStart: bool) returns (parts: seq<Part>)
    requires Lex(s, line, gap).Success? && (atStart ==> gap)
    ensures var r := Lex(s, line, gap).value;
      Reads(Render(r.tokens, r.lines, line, atStart), parts) && Sparse(parts, !atStart)
    decreases |s|
  {
    hide Next, Render, Lex, After, Breaks, Reads, Sparse, IsToken;
    if s == [] {
      parts := [];
      NothingRendered(line, gap, atStart);
    } else {
      LexFirst(s, line, gap);
      var (item, n) := Next(s).value;
      if item == Literal {
        LexLiteral(s, n, line, gap);
        var after := line + Breaks(s[..n]);
        var r := Lex(s[n..], after, false).value;
        var more := Render(r.tokens, r.lines, after, false);
        var q := RenderReads(s[n..], after, false, false);
        LiteralStable(s, after);
        var t := s[..n] + more;
        assert t[..n] == s[..n] && t[n..] == more;
        LiteralIsToken(t);
        RenderLiteral(s[..n], r, line, gap, atStart);
        parts := LiteralRead(s[..n], more, q, gap && !atStart);
        if !(gap && !atStart) { FirstIsToken(s[..n], more, parts); SparseAnyway(parts, !atStart); }
      } else {
        var k := After(item, s[..n]);
        LexGap(s, line, gap);
        parts := RenderReads(s[n..], line + k, true, k > 0 || atStart);
        if k > 0 {
          var r := Lex(s[n..], line + k, true).value;
          BreaksRendered(s[n..], line, k, atStart);
          parts := NewlinesRead(k, Render(r.tokens, r.lines, line + k, true), parts, !atStart);
        }
      }
    }
  }

  lemma NothingRendered(line: nat, gap: bool, atStart: bool)
    ensures Lex([], line, gap) == Success(Lexed([], line)) && Render([], line, line, atStart) == []
    ensures Reads([], []) && Sparse([], !atStart)
  {
  }

  lemma FirstIsToken(bytes: seq<byte>, more: seq<byte>, parts: seq<Part>)
    requires bytes != [] && IsToken(bytes, more) && Reads([] + (bytes + more), parts)
    ensures parts != [] && parts[0].Tok?
  {
    hide IsToken, IsComment, Next;
    var t := bytes + more;
    assert [] + t == t && t[0] == bytes[0];
    TokenStarts(bytes, more);
    TokenIsNext(bytes, more);
    var u, rest := parts[0].bytes, t[|parts[0].bytes|..];
    assert u + rest == t;
    PartIsNext(parts[0], rest);
  }

  lemma SparseAnyway(parts: seq<Part>, tok: bool)
    requires parts != [] && parts[0].Tok? && Sparse(parts, false)
    ensures Sparse(parts, tok)
  {
  }

  // ---- the law ----

  predicate Touching(spans: seq<Span>, i: nat)
    requires 0 < i < |spans|
  {
    spans[i - 1].start + |spans[i - 1].bytes| == spans[i].start
  }

  /** The `i`-th tokens are the same, behind equally many line breaks. */
  predicate SamePlace(data: seq<byte>, a: Span, out: seq<byte>, b: Span) {
    && a.start <= |data| && b.start <= |out|
    && a.bytes == b.bytes && Breaks(data[..a.start]) == Breaks(out[..b.start])
  }

  /** The same tokens in the same places, touching alike. */
  ghost predicate SameLayout(data: seq<byte>, a: seq<Span>, out: seq<byte>, b: seq<Span>) {
    && |a| == |b| && Breaks(data) == Breaks(out)
    && (forall i :: 0 <= i < |a| ==> SamePlace(data, a[i], out, b[i]))
    && (forall i :: 0 < i < |a| ==> (Touching(a, i) <==> Touching(b, i)))
  }

  /** Exactly the texts without NUL that have a reading are compacted. The output has one
      too: the same tokens on the same lines, touching where they touched, with nothing
      but line feeds and single spaces between them; compacting it changes nothing, and
      it is no longer than the source. */
  lemma CompactLaw(data: seq<byte>)
    ensures Compact(data).Success? <==> 0 !in data && Readable(data)
    ensures Compact(data).Success? ==>
      var out := Compact(data).value;
      && Readable(out) && Compact(out) == Success(out) && |out| <= |data|
      && forall p, q :: Reads(data, p) && Reads(out, q) ==> SameLayout(data, Placed(p, 0), out, Placed(q, 0)) && Sparse(q, false)
  {
    hide Reads, Lex, Placed, Breaks, Render, LuaPlace.Starts, SameLayout, Sparse;
    if p :| Reads(data, p) { ReadingIsScanned(data, p, 0, true, 0); }
    if Compact(data).Success? {
      var p := ScannedIsReading(data, 0, true);
      var out := Compact(data).value;
      CompactKeepsProgram(data);
      LuaPlace.CompactKeepsPlaces(data);
      var q := RenderReads(data, 0, true, true);
      assert Reads(data, p) && Reads(out, q);
      ReadingIsScanned(data, p, 0, true, 0);
      ReadingIsScanned(out, q, 0, true, 0);
      LocatedAlike(data, Placed(p, 0), out, Placed(q, 0),
                   LuaPlace.Starts(data, 0), LuaPlace.Starts(out, 0), Lex(data, 0, true).value.tokens);
      forall p', q' | Reads(data, p') && Reads(out, q') ensures p' == p && q' == q {
        OneReading(data, p, p');
        OneReading(out, q, q');
      }
    }
  }

  lemma LocatedAlike(data: seq<byte>, a: seq<Span>, out: seq<byte>, b: seq<Span>, s: seq<nat>, t: seq<nat>, tokens: seq<Token>)
    requires Agrees(a, s, tokens) && Agrees(b, t, tokens)
    requires LuaPlace.Located(data, s, tokens) && LuaPlace.Located(out, t, tokens) && Breaks(data) == Breaks(out)
    ensures SameLayout(data, a, out, b)
  {
    hide Breaks, SamePlace, Touching, LuaPlace.PlacedAt, LuaPlace.Chained;
    forall i | 0 <= i < |tokens| ensures SamePlace(data, a[i], out, b[i]) {
      PlacedAlike(data, s[i], out, t[i], tokens[i]);
    }
    forall i | 0 < i < |tokens| ensures Touching(a, i) <==> Touching(b, i) {
      ChainedAlike(a, s, tokens, i);
      ChainedAlike(b, t, tokens, i);
    }
  }

  lemma PlacedAlike(data: seq<byte>, i: nat, out: seq<byte>, j: nat, t: Token)
    requires LuaPlace.PlacedAt(data, i, t) && LuaPlace.PlacedAt(out, j, t)
    ensures SamePlace(data, Span(i, t.bytes), out, Span(j, t.bytes))
  {
    hide Breaks;
  }

  lemma ChainedAlike(spans: seq<Span>, starts: seq<nat>, tokens: seq<Token>, i: nat)
    requires Agrees(spans, starts, tokens) && 0 < i < |tokens| && LuaPlace.Chained(starts, tokens, i)
    ensures Touching(spans, i) <==> tokens[i].touches
  {
  }
}
