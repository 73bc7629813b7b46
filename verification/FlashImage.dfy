/** BK7258 flash images as bytes: packets with their CRC-16, whole images through the
    cipher, and the 16 bytes of an encrypted image that stay plaintext. */
module FlashImage {
  import opened FlashCipher

  function Filled(n: nat): (s: Octets)
    ensures |s| == n && forall i :: 0 <= i < n ==> s[i] == 0xff
  {
    seq(n, _ => 0xff)
  }

  // ---- flash CRC ----

  /** x^16 modulo x^16 + x^15 + x^2 + 1, when a bit is carried out. */
  function CrcPolynomial(carry: bool): bv16 { if carry then 0x8005 else 0 }

  function CrcBit(crc: bv16): bv16 { (crc << 1) ^ CrcPolynomial(crc & 0x8000 != 0) }

  function CrcBits(crc: bv16, n: nat): bv16
    decreases n
  {
    if n == 0 then crc else CrcBits(CrcBit(crc), n - 1)
  }

  function CrcByte(crc: bv16, b: bv8): bv16 { CrcBits(crc ^ ((b as bv16) << 8), 8) }

  function CrcFrom(crc: bv16, s: Octets): bv16
    decreases |s|
  {
    if s == [] then crc else CrcFrom(CrcByte(crc, s[0]), s[1..])
  }

  function HighByte(w: bv16): bv8 { (w >> 8) as bv8 }
  function LowByte(w: bv16): bv8 { (w & 0xff) as bv8 }

  function FlashCrc(s: Octets): (r: Octets)
    ensures |r| == 2
  {
    var crc := CrcFrom(0xffff, s);
    [HighByte(crc), LowByte(crc)]
  }

  method CrcBitsOf(start: bv16, n: nat) returns (crc: bv16)
    ensures crc == CrcBits(start, n)
  {
    crc := start;
    var bit := 0;
    while bit < n
      invariant 0 <= bit <= n
      invariant CrcBits(start, n) == CrcBits(crc, n - bit)
    {
      crc := CrcBit(crc);
      bit := bit + 1;
    }
  }

  method FlashCrcOf(s: Octets) returns (r: Octets)
    ensures r == FlashCrc(s)
  {
    hide CrcBits, HighByte, LowByte;
    var crc: bv16 := 0xffff;
    var i := 0;
    assert s[0..] == s;
    while i < |s|
      invariant 0 <= i <= |s|
      invariant CrcFrom(0xffff, s) == CrcFrom(crc, s[i..])
    {
      assert s[i..][0] == s[i] && s[i..][1..] == s[i + 1..];
      crc := CrcBitsOf(crc ^ ((s[i] as bv16) << 8), 8);
      i := i + 1;
    }
    r := [HighByte(crc), LowByte(crc)];
  }

  // ---- packets of 32 bytes and their CRC ----

  predicate PacketOk(packet: Octets) {
    |packet| == 34 && (packet == Filled(34) || FlashCrc(packet[..32]) == packet[32..])
  }

  function Unpack(source: Octets): (r: Result<Octets>)
    ensures r.Success? ==> |source| % 34 == 0 && |r.value| == |source| / 34 * 32
    decreases |source|
  {
    if source == [] then Success([]) else
    if |source| < 34 || !PacketOk(source[..34]) then Failure(SourceCrc) else
    var rest := Unpack(source[34..]);
    if rest.Failure? then rest else Success(source[..32] + rest.value)
  }

  function Pack(s: Octets): (r: Octets)
    requires |s| % 32 == 0
    ensures |r| == |s| / 32 * 34
    decreases |s|
  {
    if s == [] then [] else s[..32] + FlashCrc(s[..32]) + Pack(s[32..])
  }

  /** Every packet written passes the check on the way in. */
  lemma {:induction false} PackRoundTrip(s: Octets)
    requires |s| % 32 == 0
    ensures Unpack(Pack(s)) == Success(s)
    decreases |s|
  {
    hide FlashCrc;
    if s != [] {
      var head, crc, rest := s[..32], FlashCrc(s[..32]), Pack(s[32..]);
      var out := head + crc + rest;
      assert out[..34] == head + crc && out[34..] == rest && out[..32] == head;
      assert (head + crc)[..32] == head && (head + crc)[32..] == crc;
      PackRoundTrip(s[32..]);
      assert head + s[32..] == s;
    }
  }

  function Prefixed(s: Octets, rest: Result<Octets>): Result<Octets> {
    if rest.Failure? then rest else Success(s + rest.value)
  }

  /** One packet, then the rest. */
  lemma UnpackOnce(source: Octets, offset: nat, plain: Octets)
    requires offset < |source|
    ensures offset + 34 > |source| || !PacketOk(source[offset..offset + 34]) ==> Unpack(source[offset..]) == Failure(SourceCrc)
    ensures offset + 34 <= |source| && PacketOk(source[offset..offset + 34]) ==>
      Prefixed(plain, Unpack(source[offset..])) == Prefixed(plain + source[offset..offset + 32], Unpack(source[offset + 34..]))
  {
    hide PacketOk;
    var left := source[offset..];
    if offset + 34 <= |source| {
      assert left[..34] == source[offset..offset + 34] && left[34..] == source[offset + 34..];
      assert left[..32] == source[offset..offset + 32];
      var rest := Unpack(source[offset + 34..]);
      if rest.Success? { assert plain + (left[..32] + rest.value) == plain + left[..32] + rest.value; }
    }
  }

  lemma UnpackWhole(source: Octets)
    ensures Unpack(source) == Prefixed([], Unpack(source[0..]))
  {
    hide Unpack;
    assert source[0..] == source;
    if Unpack(source).Success? { assert [] + Unpack(source).value == Unpack(source).value; }
  }

  method UnpackPackets(source: Octets) returns (r: Result<Octets>)
    ensures r == Unpack(source)
  {
    hide PacketOk, Unpack;
    var plain: Octets := [];
    var offset := 0;
    UnpackWhole(source);
    while offset < |source|
      invariant 0 <= offset <= |source|
      invariant Unpack(source) == Prefixed(plain, Unpack(source[offset..]))
    {
      UnpackOnce(source, offset, plain);
      if offset + 34 > |source| || !PacketOk(source[offset..offset + 34]) { return Failure(SourceCrc); }
      plain := plain + source[offset..offset + 32];
      offset := offset + 34;
    }
    UnpackNothing(source[offset..], plain);
    return Success(plain);
  }

  lemma UnpackNothing(rest: Octets, plain: Octets)
    requires rest == []
    ensures Prefixed(plain, Unpack(rest)) == Success(plain)
  {
    assert plain + [] == plain;
  }

  // ---- whole images through the cipher ----

  /** One past the last block number with a valid address. */
  const BLOCKS: nat := 0x800_0000

  /** The `m`-th block of flash. */
  ghost function BlockAt(aes: Aes, key: Octets, x: Octets, m: nat, decrypt: bool): (r: Octets)
    requires |key| == 32 && |x| == 32 && m < BLOCKS
    ensures |r| == 32
  {
    Block(aes, key, x, 32 * m, decrypt).value
  }

  /** `n` blocks, the first being the `m`-th of flash. */
  ghost function Cipher(aes: Aes, key: Octets, s: Octets, m: nat, n: nat, decrypt: bool): (r: Octets)
    requires |key| == 32 && |s| == 32 * n && m + n <= BLOCKS
    ensures |r| == |s|
    decreases n
  {
    if n == 0 then []
    else BlockAt(aes, key, s[..32], m, decrypt) + Cipher(aes, key, s[32..], m + 1, n - 1, decrypt)
  }

  lemma {:induction false} CipherConcat(aes: Aes, key: Octets, a: Octets, b: Octets, m: nat, n: nat, k: nat, decrypt: bool)
    requires |key| == 32 && |a| == 32 * n && |b| == 32 * k && m + n + k <= BLOCKS
    ensures Cipher(aes, key, a + b, m, n + k, decrypt)
      == Cipher(aes, key, a, m, n, decrypt) + Cipher(aes, key, b, m + n, k, decrypt)
    decreases n
  {
    hide BlockAt, Permutation;
    if n == 0 {
      assert a + b == b;
    } else {
      assert (a + b)[..32] == a[..32] && (a + b)[32..] == a[32..] + b;
      CipherConcat(aes, key, a[32..], b, m + 1, n - 1, k, decrypt);
    }
  }

  lemma BlockAtRoundTrip(aes: Aes, key: Octets, x: Octets, m: nat)
    requires |key| == 32 && |x| == 32 && m < BLOCKS
    ensures BlockAt(aes, key, BlockAt(aes, key, x, m, false), m, true) == x
  {
    hide Permutation;
    BlockRoundTrip(aes, key, x, 32 * m);
  }

  lemma {:induction false} CipherRoundTrip(aes: Aes, key: Octets, s: Octets, m: nat, n: nat)
    requires |key| == 32 && |s| == 32 * n && m + n <= BLOCKS
    ensures Cipher(aes, key, Cipher(aes, key, s, m, n, false), m, n, true) == s
    decreases n
  {
    hide BlockAt, Permutation;
    if n > 0 {
      var head, rest := BlockAt(aes, key, s[..32], m, false), Cipher(aes, key, s[32..], m + 1, n - 1, false);
      assert (head + rest)[..32] == head && (head + rest)[32..] == rest;
      BlockAtRoundTrip(aes, key, s[..32], m);
      CipherRoundTrip(aes, key, s[32..], m + 1, n - 1);
      assert s[..32] + s[32..] == s;
    }
  }

  lemma CipherStep(aes: Aes, key: Octets, s: Octets, m: nat, n: nat, i: nat, decrypt: bool)
    requires |key| == 32 && |s| == 32 * n && m + n <= BLOCKS && i < n
    ensures Cipher(aes, key, s[32 * i..], m + i, n - i, decrypt)
      == BlockAt(aes, key, s[32 * i..32 * i + 32], m + i, decrypt)
       + Cipher(aes, key, s[32 * (i + 1)..], m + (i + 1), n - (i + 1), decrypt)
  {
    hide Permutation, BlockAt;
    var at := 32 * i;
    assert s[at..][..32] == s[at..at + 32] && s[at..][32..] == s[at + 32..];
  }

  method CipherImage(aes: Aes, key: Octets, s: Octets, m: nat, n: nat, decrypt: bool) returns (r: Octets)
    requires |key| == 32 && |s| == 32 * n && m + n <= BLOCKS
    ensures r == Cipher(aes, key, s, m, n, decrypt)
  {
    hide Permutation, Block, Cipher;
    r := [];
    ghost var all := Cipher(aes, key, s, m, n, decrypt);
    assert s[0..] == s && [] + all == all;
    var i := 0;
    while i < n
      invariant 0 <= i <= n
      invariant all == r + Cipher(aes, key, s[32 * i..], m + i, n - i, decrypt)
    {
      var block := CipherBlock(aes, key, s[32 * i..32 * i + 32], 32 * (m + i), decrypt);
      CipherStep(aes, key, s, m, n, i, decrypt);
      ghost var rest := Cipher(aes, key, s[32 * (i + 1)..], m + (i + 1), n - (i + 1), decrypt);
      assert r + (block.value + rest) == r + block.value + rest;
      r := r + block.value;
      i := i + 1;
    }
    assert Cipher(aes, key, s[32 * i..], m + i, n - i, decrypt) == [] && r + [] == r;
  }

  // ---- the plaintext hole ----

  const HOLE: nat := 0x100
  const HOLE_END: nat := 0x110

  /** The encrypted image with 16 bytes left in the clear. */
  function Holed(encrypted: Octets, plain: Octets): (r: Octets)
    requires |encrypted| == |plain| >= HOLE_END
    ensures |r| == |plain|
  {
    encrypted[..HOLE] + plain[HOLE..HOLE_END] + encrypted[HOLE_END..]
  }

  /** Three pieces: before the block with the hole, that block, and behind it. */
  lemma Split(aes: Aes, key: Octets, a: Octets, b: Octets, c: Octets, h: nat, n: nat, decrypt: bool)
    requires |key| == 32 && |a| == 32 * h && |b| == 32 && |c| == 32 * n && h + n < BLOCKS
    ensures Cipher(aes, key, a + b + c, 0, h + 1 + n, decrypt)
      == Cipher(aes, key, a, 0, h, decrypt) + Cipher(aes, key, b, h, 1, decrypt) + Cipher(aes, key, c, h + 1, n, decrypt)
  {
    hide BlockAt, Permutation, Cipher;
    CipherConcat(aes, key, a + b, c, 0, h + 1, n, decrypt);
    CipherConcat(aes, key, a, b, 0, h, 1, decrypt);
  }

  lemma HoledBlock(aes: Aes, key: Octets, b: Octets, first: Octets)
    requires |key| == 32 && |b| == 32 && |first| == 16
    ensures var eb := Cipher(aes, key, b, 8, 1, false);
      Cipher(aes, key, first + eb[16..], 8, 1, true)[16..] == b[16..]
  {
    hide Permutation, Block;
    CipherOne(aes, key, b, 8, false);
    var eb := Cipher(aes, key, b, 8, 1, false);
    CipherOne(aes, key, first + eb[16..], 8, true);
    SecondHalfSurvives(aes, key, b, 0x100, first);
  }

  lemma CipherOne(aes: Aes, key: Octets, b: Octets, m: nat, decrypt: bool)
    requires |key| == 32 && |b| == 32 && m < BLOCKS
    ensures Cipher(aes, key, b, m, 1, decrypt) == BlockAt(aes, key, b, m, decrypt)
  {
    hide Permutation, BlockAt;
    assert b[..32] == b && b[32..] == [];
    var e := BlockAt(aes, key, b, m, decrypt);
    assert e + [] == e;
  }

  /** Decoding an image with the hole loses nothing outside the hole. */
  lemma {:induction false} HoleIsHarmless(aes: Aes, key: Octets, plain: Octets, n: nat)
    requires |key| == 32 && |plain| == 32 * (n + 9) && n + 9 <= BLOCKS
    ensures var holed := Holed(Cipher(aes, key, plain, 0, n + 9, false), plain);
      var decoded := Cipher(aes, key, holed, 0, n + 9, true);
      decoded[..HOLE] == plain[..HOLE] && decoded[HOLE_END..] == plain[HOLE_END..]
  {
    hide Block, BlockAt, Cipher, Permutation;
    var a, b, c := plain[..0x100], plain[0x100..0x120], plain[0x120..];
    var ea := Cipher(aes, key, a, 0, 8, false);
    var eb := Cipher(aes, key, b, 8, 1, false);
    var ec := Cipher(aes, key, c, 9, n, false);
    assert plain == a + b + c;
    Split(aes, key, a, b, c, 8, n, false);
    var hb := b[..16] + eb[16..];
    HoledPieces(ea, eb, ec, a, b, c);
    Split(aes, key, ea, hb, ec, 8, n, true);
    CipherRoundTrip(aes, key, a, 0, 8);
    CipherRoundTrip(aes, key, c, 9, n);
    HoledBlock(aes, key, b, b[..16]);
    PiecesBehind(a, Cipher(aes, key, hb, 8, 1, true), b, c);
  }

  lemma HoledPieces(ea: Octets, eb: Octets, ec: Octets, a: Octets, b: Octets, c: Octets)
    requires |ea| == |a| == 0x100 && |eb| == |b| == 32 && |ec| == |c|
    ensures Holed(ea + eb + ec, a + b + c) == ea + (b[..16] + eb[16..]) + ec
  {
    var e, p := ea + eb + ec, a + b + c;
    assert e[..HOLE] == ea && p[HOLE..HOLE_END] == b[..16] && e[HOLE_END..] == eb[16..] + ec;
  }

  lemma PiecesBehind(a: Octets, db: Octets, b: Octets, c: Octets)
    requires |a| == 0x100 && |db| == |b| == 32 && db[16..] == b[16..]
    ensures (a + db + c)[..HOLE] == (a + b + c)[..HOLE] && (a + db + c)[HOLE_END..] == (a + b + c)[HOLE_END..]
  {
    assert (a + db + c)[HOLE_END..] == db[16..] + c && (a + b + c)[HOLE_END..] == b[16..] + c;
  }
}
