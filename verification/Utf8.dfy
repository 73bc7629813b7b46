/** The strict UTF-8 check of network names against section 4 of RFC 3629. */
module Utf8 {
  import opened Bytes

  /** A Unicode scalar value. */
  type Scalar = c: int | 0 <= c < 0xd800 || 0xdfff < c <= 0x10ffff

  function Trailing(c: int): byte { 0x80 + c % 64 }

  function Encode(c: Scalar): (s: seq<byte>)
    ensures 1 <= |s| <= 4
  {
    if c < 0x80 then [c]
    else if c < 0x800 then [0xc0 + c / 64, Trailing(c)]
    else if c < 0x1_0000 then [0xe0 + c / 4096, Trailing(c / 64), Trailing(c)]
    else [0xf0 + c / 262144, Trailing(c / 4096), Trailing(c / 64), Trailing(c)]
  }

  function EncodeAll(cs: seq<Scalar>): seq<byte> {
    if cs == [] then [] else Encode(cs[0]) + EncodeAll(cs[1..])
  }

  /** The string is the encoding of some sequence of scalar values. */
  ghost predicate IsText(s: seq<byte>) { exists cs: seq<Scalar> :: EncodeAll(cs) == s }

  // ---- what the validator does ----

  /** The bytes that follow a lead byte, the least code point of that length, and the
      bits the lead byte contributes; None for a byte that starts nothing. */
  datatype Lead = None | Lead(extra: nat, least: nat, bits: nat)

  function LeadOf(b: byte): Lead {
    if b < 0x80 then Lead(0, 0, b)
    else if 0xc2 <= b <= 0xdf then Lead(1, 0x80, b % 32)
    else if 0xe0 <= b <= 0xef then Lead(2, 0x800, b % 16)
    else if 0xf0 <= b <= 0xf4 then Lead(3, 0x1_0000, b % 8)
    else None
  }

  predicate IsTrailing(b: byte) { 0x80 <= b <= 0xbf }

  /** The code point of a lead's bits followed by trailing bytes. */
  function Assemble(bits: nat, s: seq<byte>): nat
    decreases |s|
  {
    if s == [] then bits else Assemble(bits * 64 + s[0] % 64, s[1..])
  }

  predicate AllTrailing(s: seq<byte>) { forall i :: 0 <= i < |s| ==> IsTrailing(s[i]) }

  /** The number of bytes of a well-formed character at the start of `s`, or 0. */
  function CharLength(s: seq<byte>): (n: nat)
    ensures n <= |s|
  {
    if s == [] || LeadOf(s[0]).None? then 0 else
    var lead := LeadOf(s[0]);
    if |s| <= lead.extra || !AllTrailing(s[1..1 + lead.extra]) then 0 else
    var c := Assemble(lead.bits, s[1..1 + lead.extra]);
    if c < lead.least || 0xd800 <= c <= 0xdfff || c > 0x10ffff then 0 else 1 + lead.extra
  }

  predicate Accepts(s: seq<byte>)
    decreases |s|
  {
    s == [] || (CharLength(s) > 0 && Accepts(s[CharLength(s)..]))
  }

  /** is_valid_utf8. */
  method IsValid(data: seq<byte>) returns (ok: bool)
    ensures ok <==> IsText(data)
  {
    hide CharLength, IsText;
    AcceptsExactlyText(data);
    var i := 0;
    assert data[0..] == data;
    while i < |data|
      invariant 0 <= i <= |data|
      invariant Accepts(data) == Accepts(data[i..])
    {
      var n := ReadChar(data, i);
      if n == 0 { return false; }
      assert data[i..][n..] == data[i + n..];
      i := i + n;
    }
    return true;
  }

  /** The body of its loop: one character, or 0. */
  method ReadChar(data: seq<byte>, i: nat) returns (n: nat)
    requires i < |data|
    ensures n == CharLength(data[i..])
  {
    hide Assemble;
    ghost var s := data[i..];
    assert s[0] == data[i];
    var lead := LeadOf(data[i]);
    if lead.None? { return 0; }
    if |data| - i <= lead.extra { return 0; }
    assert s[1..1 + lead.extra] == data[i + 1..i + 1 + lead.extra];
    var good, codePoint := ReadTrailing(data[i + 1..i + 1 + lead.extra], lead.bits);
    if !good { return 0; }
    if codePoint < lead.least || codePoint > 0x10ffff || 0xd800 <= codePoint <= 0xdfff { return 0; }
    return 1 + lead.extra;
  }

  method ReadTrailing(s: seq<byte>, bits: nat) returns (good: bool, codePoint: nat)
    ensures good <==> AllTrailing(s)
    ensures good ==> codePoint == Assemble(bits, s)
  {
    codePoint := bits;
    var j := 0;
    assert s[0..] == s;
    while j < |s|
      invariant 0 <= j <= |s|
      invariant forall k :: 0 <= k < j ==> IsTrailing(s[k])
      invariant Assemble(bits, s) == Assemble(codePoint, s[j..])
    {
      if s[j] < 0x80 || s[j] > 0xbf { return false, 0; }
      assert s[j..][0] == s[j] && s[j..][1..] == s[j + 1..];
      codePoint := codePoint * 64 + s[j] % 64;
      j := j + 1;
    }
    good := true;
  }

  // ---- it accepts exactly the encodings ----

  lemma AssembleOne(bits: nat, a: byte)
    ensures Assemble(bits, [a]) == bits * 64 + a % 64
  {
    assert [a][1..] == [];
  }

  lemma AssembleFew(bits: nat, a: byte, b: byte, c: byte)
    ensures Assemble(bits, [a]) == bits * 64 + a % 64
    ensures Assemble(bits, [a, b]) == (bits * 64 + a % 64) * 64 + b % 64
    ensures Assemble(bits, [a, b, c]) == ((bits * 64 + a % 64) * 64 + b % 64) * 64 + c % 64
  {
    AssembleOne(bits, a);
    AssembleOne(bits * 64 + a % 64, b);
    AssembleOne((bits * 64 + a % 64) * 64 + b % 64, c);
    assert [a, b][1..] == [b] && [a, b, c][1..] == [b, c] && [b, c][1..] == [c];
    assert Assemble(bits, [a, b, c]) == Assemble(bits * 64 + a % 64, [b, c]);
  }

  /** An encoded character is recognised, whatever follows it. */
  lemma EncodedIsChar(c: Scalar, rest: seq<byte>)
    ensures CharLength(Encode(c) + rest) == |Encode(c)|
  {
    var e := Encode(c);
    var s := e + rest;
    assert s[0] == e[0];
    var lead := LeadOf(s[0]);
    assert lead.Lead? && lead.extra == |e| - 1;
    assert s[1..1 + lead.extra] == e[1..];
    AssembleEncoded(c);
  }

  /** The lead byte announces the rest, and the pieces give back the code point. */
  ghost predicate Recognised(e: seq<byte>, c: int) {
    && e != [] && LeadOf(e[0]).Lead? && LeadOf(e[0]).extra == |e| - 1 && AllTrailing(e[1..])
    && Assemble(LeadOf(e[0]).bits, e[1..]) == c >= LeadOf(e[0]).least
  }

  lemma AssembleEncoded(c: Scalar)
    ensures Recognised(Encode(c), c)
  {
    hide Recognised;
    if c < 0x80 {
      One(c);
    } else if c < 0x800 {
      Two(c / 64, c % 64);
    } else if c < 0x1_0000 {
      EncodedThree(c);
    } else {
      EncodedFour(c);
    }
  }

  lemma EncodedThree(c: Scalar)
    requires 0x800 <= c < 0x1_0000
    ensures Recognised(Encode(c), c)
  {
    hide Recognised;
    Spread3(c);
    Three(c / 4096, c / 64 % 64, c % 64);
  }

  lemma EncodedFour(c: Scalar)
    requires 0x1_0000 <= c
    ensures Recognised(Encode(c), c)
  {
    hide Recognised;
    Spread4(c);
    Four(c / 262144, c / 4096 % 64, c / 64 % 64, c % 64);
  }

  lemma One(c: nat)
    requires c < 0x80
    ensures Recognised([c], c)
  {
    assert [c][1..] == [];
  }

  lemma Two(a: nat, b: nat)
    requires 2 <= a < 32 && b < 64
    ensures Recognised([0xc0 + a, 0x80 + b], a * 64 + b)
  {
    hide Assemble;
    var e: seq<byte> := [0xc0 + a, 0x80 + b];
    assert e[1..] == [0x80 + b] && LeadOf(e[0]) == Lead(1, 0x80, a);
    AssembleFew(a, 0x80 + b, 0, 0);
  }

  lemma Three(a: nat, b: nat, c: nat)
    requires a < 16 && b < 64 && c < 64 && (a * 64 + b) * 64 + c >= 0x800
    ensures Recognised([0xe0 + a, 0x80 + b, 0x80 + c], (a * 64 + b) * 64 + c)
  {
    hide Assemble;
    var e: seq<byte> := [0xe0 + a, 0x80 + b, 0x80 + c];
    assert e[1..] == [0x80 + b, 0x80 + c] && LeadOf(e[0]) == Lead(2, 0x800, a);
    AssembleFew(a, 0x80 + b, 0x80 + c, 0);
  }

  lemma Four(a: nat, b: nat, c: nat, d: nat)
    requires a < 5 && b < 64 && c < 64 && d < 64 && ((a * 64 + b) * 64 + c) * 64 + d >= 0x1_0000
    ensures Recognised([0xf0 + a, 0x80 + b, 0x80 + c, 0x80 + d], ((a * 64 + b) * 64 + c) * 64 + d)
  {
    hide Assemble;
    var e: seq<byte> := [0xf0 + a, 0x80 + b, 0x80 + c, 0x80 + d];
    assert e[1..] == [0x80 + b, 0x80 + c, 0x80 + d] && LeadOf(e[0]) == Lead(3, 0x1_0000, a);
    AssembleFew(a, 0x80 + b, 0x80 + c, 0x80 + d);
  }

  lemma Spread3(c: nat)
    ensures c == (c / 4096 * 64 + c / 64 % 64) * 64 + c % 64
  {
    assert c / 4096 == c / 64 / 64;
  }

  lemma Spread4(c: nat)
    ensures c == ((c / 262144 * 64 + c / 4096 % 64) * 64 + c / 64 % 64) * 64 + c % 64
  {
    assert c / 4096 == c / 64 / 64 && c / 262144 == c / 4096 / 64;
  }

  /** A recognised character is the encoding of its code point. */
  lemma CharIsEncoded(s: seq<byte>) returns (c: Scalar)
    requires CharLength(s) > 0
    ensures s[..CharLength(s)] == Encode(c)
  {
    var lead := LeadOf(s[0]);
    var n := 1 + lead.extra;
    c := Assemble(lead.bits, s[1..n]);
    var e := s[..n];
    assert e[1..] == s[1..n];
    RecognisedIsEncoded(e, c);
  }

  lemma RecognisedIsEncoded(e: seq<byte>, c: Scalar)
    requires Recognised(e, c)
    ensures e == Encode(c)
  {
    hide Assemble, Encode;
    if |e| == 1 {
      OneBack(e, c);
    } else if |e| == 2 {
      TwoBack(e, c);
    } else if |e| == 3 {
      ThreeBack(e, c);
    } else {
      FourBack(e, c);
    }
  }

  lemma TrailingBits(b: byte)
    requires IsTrailing(b)
    ensures 0x80 <= b <= 0xbf && b % 64 == b - 0x80
  {
  }

  /** What a lead byte contributes, by how much it announces. */
  lemma LeadBits(b: byte)
    requires LeadOf(b).Lead?
    ensures LeadOf(b).extra <= 3
    ensures LeadOf(b).extra == 1 ==> LeadOf(b) == Lead(1, 0x80, b - 0xc0) && 2 <= b - 0xc0 < 32
    ensures LeadOf(b).extra == 2 ==> LeadOf(b) == Lead(2, 0x800, b - 0xe0) && 0 <= b - 0xe0 < 16
    ensures LeadOf(b).extra == 3 ==> LeadOf(b) == Lead(3, 0x1_0000, b - 0xf0) && 0 <= b - 0xf0 < 5
  {
  }

  lemma OneBack(e: seq<byte>, c: Scalar)
    requires Recognised(e, c) && |e| == 1
    ensures e == Encode(c)
  {
    assert e[1..] == [];
  }

  lemma TwoBack(e: seq<byte>, c: Scalar)
    requires Recognised(e, c) && |e| == 2
    ensures e == Encode(c)
  {
    hide Assemble, LeadOf;
    LeadBits(e[0]);
    assert e[1..] == [e[1]] && IsTrailing(e[1..][0]);
    TrailingBits(e[1]);
    AssembleFew(LeadOf(e[0]).bits, e[1], 0, 0);
  }

  lemma ThreeBack(e: seq<byte>, c: Scalar)
    requires Recognised(e, c) && |e| == 3
    ensures e == Encode(c)
  {
    hide Assemble, Encode, LeadOf, IsTrailing;
    LeadBits(e[0]);
    var a := e[0] - 0xe0;
    assert e[1..] == [e[1], e[2]] && IsTrailing(e[1..][0]) && IsTrailing(e[1..][1]);
    TrailingBits(e[1]);
    TrailingBits(e[2]);
    AssembleFew(a, e[1], e[2], 0);
    EncodeThree(a, e[1] - 0x80, e[2] - 0x80, c);
  }

  lemma EncodeThree(a: nat, b: nat, d: nat, c: Scalar)
    requires a < 16 && b < 64 && d < 64 && c == (a * 64 + b) * 64 + d >= 0x800
    ensures Encode(c) == [0xe0 + a, 0x80 + b, 0x80 + d]
  {
    Digits3(a, b, d);
  }

  lemma FourBack(e: seq<byte>, c: Scalar)
    requires Recognised(e, c) && |e| > 3
    ensures e == Encode(c)
  {
    hide Assemble, Encode, LeadOf, IsTrailing;
    LeadBits(e[0]);
    var a := e[0] - 0xf0;
    assert |e| == 4;
    assert e[1..] == [e[1], e[2], e[3]] && IsTrailing(e[1..][0]) && IsTrailing(e[1..][1]) && IsTrailing(e[1..][2]);
    TrailingBits(e[1]);
    TrailingBits(e[2]);
    TrailingBits(e[3]);
    AssembleFew(a, e[1], e[2], e[3]);
    EncodeFour(a, e[1] - 0x80, e[2] - 0x80, e[3] - 0x80, c);
  }

  lemma EncodeFour(a: nat, b: nat, d: nat, f: nat, c: Scalar)
    requires a < 5 && b < 64 && d < 64 && f < 64 && c == ((a * 64 + b) * 64 + d) * 64 + f >= 0x1_0000
    ensures Encode(c) == [0xf0 + a, 0x80 + b, 0x80 + d, 0x80 + f]
  {
    Digits4(a, b, d, f);
  }

  lemma Digits3(a: nat, b: nat, c: nat)
    requires b < 64 && c < 64
    ensures var n := (a * 64 + b) * 64 + c; n % 64 == c && n / 64 % 64 == b && n / 4096 == a
  {
  }

  lemma Digits4(a: nat, b: nat, c: nat, d: nat)
    requires b < 64 && c < 64 && d < 64
    ensures var n := ((a * 64 + b) * 64 + c) * 64 + d;
      n % 64 == d && n / 64 % 64 == c && n / 4096 % 64 == b && n / 262144 == a
  {
  }

  lemma {:induction false} EncodedIsAccepted(cs: seq<Scalar>)
    ensures Accepts(EncodeAll(cs))
    decreases |cs|
  {
    if cs != [] {
      var e, rest := Encode(cs[0]), EncodeAll(cs[1..]);
      EncodedIsChar(cs[0], rest);
      assert (e + rest)[|e|..] == rest;
      EncodedIsAccepted(cs[1..]);
    }
  }

  lemma {:induction false} AcceptedIsEncoded(s: seq<byte>) returns (cs: seq<Scalar>)
    requires Accepts(s)
    ensures EncodeAll(cs) == s
    decreases |s|
  {
    if s == [] {
      cs := [];
    } else {
      var n := CharLength(s);
      var c := CharIsEncoded(s);
      var rest := AcceptedIsEncoded(s[n..]);
      cs := [c] + rest;
      assert cs[1..] == rest && s == s[..n] + s[n..];
    }
  }

  lemma AcceptsExactlyText(s: seq<byte>)
    ensures Accepts(s) <==> IsText(s)
  {
    if Accepts(s) {
      var cs := AcceptedIsEncoded(s);
    }
    if IsText(s) {
      var cs: seq<Scalar> :| EncodeAll(cs) == s;
      EncodedIsAccepted(cs);
    }
  }
}
