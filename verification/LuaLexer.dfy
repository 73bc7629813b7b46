/** The lexical layer `compact_source` works on: literals and single bytes, separated
    by blanks, comments and line breaks (section 3.1 of the Lua Reference Manual). */
module LuaLexer {
  import opened Bytes
  import opened Optional

  const LF: byte := 10
  const CR: byte := 13
  const SPACE: byte := 32
  const DOUBLE_QUOTE: byte := 34
  const SINGLE_QUOTE: byte := 39
  const DASH: byte := 45
  const EQUALS: byte := 61
  const OPEN: byte := 91
  const BACKSLASH: byte := 92
  const CLOSE: byte := 93
  const LETTER_Z: byte := 122

  predicate IsBlank(b: byte) { b == SPACE || b == 9 || b == 11 || b == 12 }
  predicate IsBreak(b: byte) { b == CR || b == LF }
  predicate IsQuote(b: byte) { b == SINGLE_QUOTE || b == DOUBLE_QUOTE }

  datatype Error = EmbeddedNul | OpenLongComment | OpenLongString | BreakInString | OpenShortString
  datatype Result<+T> = Success(value: T) | Failure(error: Error)

  /** CRLF and LFCR are one line break. */
  predicate IsPair(s: seq<byte>) { |s| >= 2 && IsBreak(s[0]) && IsBreak(s[1]) && s[0] != s[1] }

  function Breaks(s: seq<byte>): nat {
    if s == [] then 0
    else if IsPair(s) then 1 + Breaks(s[2..])
    else (if IsBreak(s[0]) then 1 else 0) + Breaks(s[1..])
  }

  function CountEquals(s: seq<byte>): (n: nat)
    ensures n <= |s|
    ensures n < |s| ==> s[n] != EQUALS
    ensures forall i :: 0 <= i < n ==> s[i] == EQUALS
  {
    if s != [] && s[0] == EQUALS then 1 + CountEquals(s[1..]) else 0
  }

  /** `=*[` at the start of `s`. */
  predicate OpensAfterEquals(s: seq<byte>) {
    CountEquals(s) < |s| && s[CountEquals(s)] == OPEN
  }

  /** The level of a long bracket opening at the start of `s`. */
  function Bracket(s: seq<byte>): (level: Option<nat>)
    ensures level.Some? ==> level.value + 2 <= |s| && s[0] == s[level.value + 1] == OPEN
  {
    if s != [] && s[0] == OPEN && OpensAfterEquals(s[1..]) then Some(CountEquals(s[1..])) else None
  }

  function Marker(level: nat): (m: seq<byte>)
    ensures |m| == level + 2 && m[0] == CLOSE && m[level + 1] == CLOSE
  {
    [CLOSE] + seq(level, i => EQUALS) + [CLOSE]
  }

  /** Offset of the first closing bracket of this level. */
  function FindMarker(s: seq<byte>, level: nat): (k: Option<nat>)
    ensures k.Some? ==> k.value + level + 2 <= |s|
  {
    if Marker(level) <= s then Some(0)
    else if s == [] then None
    else
      var rest := FindMarker(s[1..], level);
      if rest.None? then None else Some(rest.value + 1)
  }

  /** Length of the long string or long comment body that opens `s`. */
  function LongLength(s: seq<byte>, level: nat): (n: Option<nat>)
    requires level + 2 <= |s|
    ensures n.Some? ==> 2 * level + 4 <= n.value <= |s|
  {
    var k := FindMarker(s[level + 2..], level);
    if k.None? then None else Some(level + 2 + k.value + level + 2)
  }

  function CountSpace(s: seq<byte>): (n: nat)
    ensures n <= |s|
    ensures n < |s| ==> !IsBlank(s[n]) && !IsBreak(s[n])
    ensures forall i :: 0 <= i < n ==> IsBlank(s[i]) || IsBreak(s[i])
  {
    if s != [] && (IsBlank(s[0]) || IsBreak(s[0])) then 1 + CountSpace(s[1..]) else 0
  }

  /** Bytes of one backslash escape; `s` starts at the backslash and has more. */
  function EscapeLength(s: seq<byte>): (n: nat)
    requires |s| >= 2
    ensures 2 <= n <= |s|
  {
    if s[1] == LETTER_Z then 2 + CountSpace(s[2..])
    else if IsPair(s[1..]) then 3
    else 2
  }

  /** Length up to and including the closing quote; `s` starts after the opening one. */
  function ShortLength(s: seq<byte>, quote: byte): (n: Result<nat>)
    ensures n.Success? ==> 1 <= n.value <= |s|
    decreases |s|
  {
    if s == [] then Failure(OpenShortString)
    else if s[0] == quote then Success(1)
    else if IsBreak(s[0]) then Failure(BreakInString)
    else if s[0] == BACKSLASH && |s| == 1 then Failure(OpenShortString)
    else
      var n := if s[0] == BACKSLASH then EscapeLength(s) else 1;
      var rest := ShortLength(s[n..], quote);
      if rest.Success? then Success(n + rest.value) else rest
  }

  function LineLength(s: seq<byte>): (n: nat)
    ensures n <= |s|
    ensures n < |s| ==> IsBreak(s[n])
    ensures forall i :: 0 <= i < n ==> !IsBreak(s[i])
  {
    if s == [] || IsBreak(s[0]) then 0 else 1 + LineLength(s[1..])
  }

  datatype Item = Blank | LineBreak | Comment | Literal

  /** The lexical element at the start of `s` and its length. */
  function Next(s: seq<byte>): (r: Result<(Item, nat)>)
    requires s != []
    ensures r.Success? ==> 1 <= r.value.1 <= |s|
    ensures r.Success? && r.value.0 == Literal ==> !IsBlank(s[0]) && !IsBreak(s[0])
  {
    if IsBlank(s[0]) then Success((Blank, 1))
    else if |s| >= 2 && s[0] == DASH && s[1] == DASH then
      var level := Bracket(s[2..]);
      if level.None? then Success((Comment, 2 + LineLength(s[2..])))
      else
        var n := LongLength(s[2..], level.value);
        if n.None? then Failure(OpenLongComment) else Success((Comment, 2 + n.value))
    else if IsBreak(s[0]) then Success((LineBreak, if IsPair(s) then 2 else 1))
    else if Bracket(s).Some? then
      var n := LongLength(s, Bracket(s).value);
      if n.None? then Failure(OpenLongString) else Success((Literal, n.value))
    else if IsQuote(s[0]) then
      var n := ShortLength(s[1..], s[0]);
      if n.Failure? then Failure(n.error) else Success((Literal, 1 + n.value))
    else Success((Literal, 1))
  }

  /** A literal or single byte, its line, and whether it touches the one before it. */
  datatype Token = Token(bytes: seq<byte>, line: nat, touches: bool)
  datatype Lexed = Lexed(tokens: seq<Token>, lines: nat)

  function After(item: Item, bytes: seq<byte>): nat {
    match item
    case Blank => 0
    case LineBreak => 1
    case Comment => Breaks(bytes)
    case Literal => Breaks(bytes)
  }

  /** All tokens of `s`, which starts on `line`, after a gap or right after a token. */
  function Lex(s: seq<byte>, line: nat, gap: bool): Result<Lexed>
    decreases |s|
  {
    if s == [] then Success(Lexed([], line)) else
    var next := Next(s);
    if next.Failure? then Failure(next.error) else
    var (item, n) := next.value;
    var rest := Lex(s[n..], line + After(item, s[..n]), item != Literal);
    if rest.Failure? || item != Literal then rest
    else Success(Lexed([Token(s[..n], line, !gap)] + rest.value.tokens, rest.value.lines))
  }

  // ---- line breaks and concatenation ----

  /** A line break at the end of `s` that a following byte could still complete. */
  function OpenBreak(s: seq<byte>): Option<byte> {
    if s == [] then None
    else if IsPair(s) then OpenBreak(s[2..])
    else if |s| == 1 then (if IsBreak(s[0]) then Some(s[0]) else None)
    else OpenBreak(s[1..])
  }

  ghost predicate Clean(a: seq<byte>, b: seq<byte>) {
    OpenBreak(a).Some? && b != [] ==> !(IsBreak(b[0]) && b[0] != OpenBreak(a).value)
  }

  lemma {:induction false} BreaksConcat(a: seq<byte>, b: seq<byte>)
    requires Clean(a, b)
    ensures Breaks(a + b) == Breaks(a) + Breaks(b)
    ensures OpenBreak(a + b) == if b == [] then OpenBreak(a) else OpenBreak(b)
    decreases |a|
  {
    if a == [] {
      assert a + b == b;
    } else if IsPair(a) {
      assert (a + b)[2..] == a[2..] + b;
      BreaksConcat(a[2..], b);
    } else {
      assert (a + b)[1..] == a[1..] + b;
      assert IsPair(a + b) <==> IsPair(a) by {
        if |a| == 1 && IsBreak(a[0]) { assert OpenBreak(a) == Some(a[0]); }
      }
      BreaksConcat(a[1..], b);
      if b == [] { assert a + b == a; }
    }
  }

  lemma {:induction false} OpenBreakIsLast(a: seq<byte>)
    ensures OpenBreak(a).Some? ==> a != [] && a[|a| - 1] == OpenBreak(a).value && IsBreak(a[|a| - 1])
    decreases |a|
  {
    if IsPair(a) { OpenBreakIsLast(a[2..]); } else if |a| > 1 { OpenBreakIsLast(a[1..]); }
  }
}
