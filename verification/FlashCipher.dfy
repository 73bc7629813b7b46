/** The BK7258 flash cipher: 32-byte blocks in two independent halves, each AES between
    two additions of a tweak derived from the block address. AES is any keyed permutation
    of 16-byte blocks. */
module FlashCipher {
  type Octets = seq<bv8>

  datatype Error =
    | KeyLength | BlockAddressOrLength
    | LayoutFormat | LayoutCodePartitions | LayoutCodeRange | LayoutCrcAlignment | LayoutPageAlignment
    | LayoutRange | LayoutOverlapOrExecutable | LayoutImageLength
    | RblLength | RblMagic | RblPayloadLength | RblPadding | RblDigest
    | SourceCrc | BootromMarker | CodeVectorLayout
    | OutputLength | OutputDecrypt
    | AppLayout | AppPartitions | AppRange | AppLength | AppOverlap | AppVector

  datatype Result<+T> = Success(value: T) | Failure(error: Error)

  datatype Functions = Functions(encrypt: (Octets, Octets) -> Octets, decrypt: (Octets, Octets) -> Octets)

  /** Under every 16-byte key, decrypt undoes encrypt on 16-byte blocks and back. */
  ghost predicate Permutation(aes: Functions) {
    forall key: Octets, x: Octets | |key| == 16 && |x| == 16 ::
      && |aes.encrypt(key, x)| == 16 && aes.decrypt(key, aes.encrypt(key, x)) == x
      && |aes.decrypt(key, x)| == 16 && aes.encrypt(key, aes.decrypt(key, x)) == x
  }

  /** AES, or any other keyed permutation. */
  type Aes = aes: Functions | Permutation(aes) ghost witness Functions((key, x) => x, (key, x) => x)

  function Reversed(s: Octets): (r: Octets)
    ensures |r| == |s|
    ensures forall i :: 0 <= i < |s| ==> r[i] == s[|s| - 1 - i]
  {
    seq(|s|, i requires 0 <= i < |s| => s[|s| - 1 - i])
  }

  /** Every four bytes reversed; a shorter rest too. */
  function SwapWords(s: Octets): (r: Octets)
    ensures |r| == |s|
  {
    if |s| <= 4 then Reversed(s) else Reversed(s[..4]) + SwapWords(s[4..])
  }

  function Xor(a: Octets, b: Octets): (r: Octets)
    requires |a| == |b|
    ensures |r| == |a|
    ensures forall i :: 0 <= i < |a| ==> r[i] == a[i] ^ b[i]
  {
    seq(|a|, i requires 0 <= i < |a| => a[i] ^ b[i])
  }

  /** The address as a 16-byte big-endian number. */
  function AddressBytes(address: nat): (r: Octets)
    requires address < 0x1_0000_0000
    ensures |r| == 16
  {
    seq(12, _ => 0) + [(address / 0x100_0000 % 256) as bv8, (address / 0x1_0000 % 256) as bv8,
                       (address / 0x100 % 256) as bv8, (address % 256) as bv8]
  }

  /** One byte of a 128-bit number shifted left by one, `low` being the next lower byte. */
  function ShiftedByte(high: bv8, low: bv8): bv8 { (high << 1) | (low >> 7) }

  function ShiftedLeft(t: Octets): (r: Octets)
    ensures |r| == |t|
  {
    if t == [] then []
    else [ShiftedByte(t[0], if |t| > 1 then t[1] else 0)] + ShiftedLeft(t[1..])
  }

  /** Multiplication by x in GF(2^128): a big-endian shift that folds the carry back as 0x87. */
  function Doubled(t: Octets): (r: Octets)
    requires |t| == 16
    ensures |r| == 16
  {
    var s := ShiftedLeft(t);
    if t[0] >= 0x80 then s[15 := s[15] ^ 0x87] else s
  }

  // ---- one half ----

  /** A half between the two swaps: AES between two additions of the tweak. */
  ghost function Middle(aes: Aes, key: Octets, x: Octets, tweak: Octets, decrypt: bool): (r: Octets)
    requires |key| == |x| == |tweak| == 16
    ensures |r| == 16
  {
    var input := Xor(x, tweak);
    Xor(if decrypt then aes.decrypt(key, input) else aes.encrypt(key, input), tweak)
  }

  ghost function Half(aes: Aes, key: Octets, x: Octets, tweak: Octets, decrypt: bool): (r: Octets)
    requires |key| == |x| == |tweak| == 16
    ensures |r| == 16
  {
    SwapWords(Middle(aes, key, SwapWords(x), tweak, decrypt))
  }

  lemma XorTwice(a: Octets, b: Octets)
    requires |a| == |b|
    ensures Xor(Xor(a, b), b) == a
  {
    forall i | 0 <= i < |a| ensures (a[i] ^ b[i]) ^ b[i] == a[i] {}
  }

  lemma {:induction false} SwapTwice(s: Octets)
    requires |s| % 4 == 0
    ensures SwapWords(SwapWords(s)) == s
    decreases |s|
  {
    var r := SwapWords(s);
    if |s| > 4 {
      assert r[..4] == Reversed(s[..4]) && r[4..] == SwapWords(s[4..]);
      SwapTwice(s[4..]);
      assert Reversed(Reversed(s[..4])) == s[..4];
    }
  }

  /** Swapping works word by word, so on halves. */
  lemma SwapHalves(s: Octets)
    requires |s| == 32
    ensures SwapWords(s) == SwapWords(s[..16]) + SwapWords(s[16..])
  {
    SwapSplit(s, 4);
  }

  lemma {:induction false} SwapSplit(s: Octets, words: nat)
    requires 4 * words < |s|
    ensures SwapWords(s) == SwapWords(s[..4 * words]) + SwapWords(s[4 * words..])
    decreases words
  {
    if words > 0 {
      var t := s[4..];
      SwapSplit(t, words - 1);
      assert t[..4 * (words - 1)] == s[4..4 * words] && t[4 * (words - 1)..] == s[4 * words..];
      var head := s[..4 * words];
      assert head[..4] == s[..4] && head[4..] == s[4..4 * words];
      if words == 1 {
        assert head[4..] == [] && SwapWords(head) == Reversed(head) && head == s[..4];
      }
    }
  }

  lemma HalfRoundTrip(aes: Aes, key: Octets, x: Octets, tweak: Octets)
    requires |key| == |x| == |tweak| == 16
    ensures Half(aes, key, Half(aes, key, x, tweak, false), tweak, true) == x
  {
    var input := Xor(SwapWords(x), tweak);
    var output := aes.encrypt(key, input);
    SwapTwice(Xor(output, tweak));
    XorTwice(output, tweak);
    XorTwice(SwapWords(x), tweak);
    SwapTwice(x);
  }

  // ---- one block ----

  predicate ValidAddress(address: int) { 0 <= address <= 0xFFFF_FFE0 && address % 32 == 0 }

  function Tweak(aes: Aes, key: Octets, address: nat): Octets
    requires |key| == 32 && address < 0x1_0000_0000
  {
    aes.encrypt(key[16..], AddressBytes(address))
  }

  /** BekenXTS.block. */
  ghost function Block(aes: Aes, key: Octets, data: Octets, address: int, decrypt: bool): (r: Result<Octets>)
    requires |key| == 32
    ensures r.Success? <==> |data| == 32 && ValidAddress(address)
    ensures r.Success? ==> |r.value| == 32
  {
    if |data| != 32 || !ValidAddress(address) then Failure(BlockAddressOrLength) else
    var tweak := Tweak(aes, key, address);
    Success(Half(aes, key[..16], data[..16], tweak, decrypt) + Half(aes, key[..16], data[16..], Doubled(tweak), decrypt))
  }

  method CipherHalf(aes: Aes, key: Octets, x: Octets, tweak: Octets, decrypt: bool) returns (r: Octets)
    requires |key| == |x| == |tweak| == 16
    ensures r == Middle(aes, key, x, tweak, decrypt)
  {
    var value := Xor(x, tweak);
    value := if decrypt then aes.decrypt(key, value) else aes.encrypt(key, value);
    r := Xor(value, tweak);
  }

  /** The code's form: swap the whole block, treat the halves in turn while the tweak is
      doubled, swap the whole result. */
  method CipherBlock(aes: Aes, key: Octets, data: Octets, address: int, decrypt: bool) returns (r: Result<Octets>)
    requires |key| == 32
    ensures r == Block(aes, key, data, address, decrypt)
  {
    hide SwapWords, Middle, Doubled;
    if |data| != 32 || !ValidAddress(address) { return Failure(BlockAddressOrLength); }
    var tweak := aes.encrypt(key[16..], AddressBytes(address));
    var swapped := SwapWords(data);
    ghost var first := Middle(aes, key[..16], swapped[..16], tweak, decrypt);
    ghost var second := Middle(aes, key[..16], swapped[16..], Doubled(tweak), decrypt);
    SwapHalves(data);
    assert swapped[..16] == SwapWords(data[..16]) && swapped[16..] == SwapWords(data[16..]);
    ghost var start := tweak;
    var output: Octets := [];
    var offset := 0;
    while offset < 32
      invariant offset == 0 || offset == 16 || offset == 32
      invariant |tweak| == 16
      invariant offset == 0 ==> tweak == start && output == []
      invariant offset == 16 ==> tweak == Doubled(start) && output == first
      invariant offset == 32 ==> output == first + second
      decreases 32 - offset
    {
      assert swapped[16..32] == swapped[16..];
      var value := CipherHalf(aes, key[..16], swapped[offset..offset + 16], tweak, decrypt);
      output := output + value;
      tweak := Doubled(tweak);
      offset := offset + 16;
    }
    SwapHalves(output);
    assert output[..16] == first && output[16..] == second;
    return Success(SwapWords(output));
  }

  /** Decrypting inverts encrypting at the same address. */
  lemma {:induction false} BlockRoundTrip(aes: Aes, key: Octets, data: Octets, address: int)
    requires |key| == 32 && |data| == 32 && ValidAddress(address)
    ensures var e := Block(aes, key, data, address, false).value;
      Block(aes, key, e, address, true) == Success(data)
  {
    var tweak := Tweak(aes, key, address);
    var k := key[..16];
    HalfRoundTrip(aes, k, data[..16], tweak);
    HalfRoundTrip(aes, k, data[16..], Doubled(tweak));
    var e := Block(aes, key, data, address, false).value;
    assert e[..16] == Half(aes, k, data[..16], tweak, false) && e[16..] == Half(aes, k, data[16..], Doubled(tweak), false);
    assert data[..16] + data[16..] == data;
  }

  /** The halves are independent: replacing the first half of an encrypted block still
      decrypts the second half. */
  lemma {:induction false} SecondHalfSurvives(aes: Aes, key: Octets, data: Octets, address: int, first: Octets)
    requires |key| == 32 && |data| == 32 && ValidAddress(address) && |first| == 16
    ensures var e := Block(aes, key, data, address, false).value;
      var d := Block(aes, key, first + e[16..], address, true); d.Success? && d.value[16..] == data[16..]
  {
    var tweak := Tweak(aes, key, address);
    var k := key[..16];
    HalfRoundTrip(aes, k, data[16..], Doubled(tweak));
    var e := Block(aes, key, data, address, false).value;
    assert e[16..] == Half(aes, k, data[16..], Doubled(tweak), false);
    var x := first + e[16..];
    assert x[16..] == e[16..] && x[..16] == first;
  }
}
