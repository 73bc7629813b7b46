/** What the arithmetic of the flash cipher and its checksum is, apart from how it is
    computed: multiplication in GF(2^128), the word swap, the two halves of the key, and
    the CRC-16 as a linear code that catches every changed byte. */
module FlashMath {
  import opened FlashCipher
  import opened FlashImage
  import R = FlashRecovery

  // ---- tweaks as numbers ----

  function Word64(a: bv8, b: bv8, c: bv8, d: bv8, e: bv8, f: bv8, g: bv8, h: bv8): bv64 {
    ((a as bv64) << 56) | ((b as bv64) << 48) | ((c as bv64) << 40) | ((d as bv64) << 32)
      | ((e as bv64) << 24) | ((f as bv64) << 16) | ((g as bv64) << 8) | (h as bv64)
  }

  /** Sixteen bytes as one big-endian 128-bit number. */
  function Number(t: Octets): bv128
    requires |t| == 16
  {
    Join(Word64(t[0], t[1], t[2], t[3], t[4], t[5], t[6], t[7]), Word64(t[8], t[9], t[10], t[11], t[12], t[13], t[14], t[15]))
  }

  function Join(high: bv64, low: bv64): bv128 { ((high as bv128) << 64) | (low as bv128) }

  /** Multiplication by x modulo x^128 + x^7 + x^2 + x + 1. */
  function TimesX(n: bv128): bv128 { if n >> 127 == 1 then (n << 1) ^ 0x87 else n << 1 }

  lemma {:induction false} ShiftedAt(t: Octets, i: nat)
    requires i < |t|
    ensures ShiftedLeft(t)[i] == ShiftedByte(t[i], if i + 1 < |t| then t[i + 1] else 0)
    decreases |t|
  {
    hide ShiftedByte;
    if i > 0 { ShiftedAt(t[1..], i - 1); }
  }

  lemma ShiftBytes(a: bv8, b: bv8, c: bv8, d: bv8, e: bv8, f: bv8, g: bv8, h: bv8, next: bv8)
    ensures Word64(ShiftedByte(a, b), ShiftedByte(b, c), ShiftedByte(c, d), ShiftedByte(d, e),
                   ShiftedByte(e, f), ShiftedByte(f, g), ShiftedByte(g, h), ShiftedByte(h, next))
      == Shift(Word64(a, b, c, d, e, f, g, h), next)
  {
  }

  /** Shifted left by one, with the top bit of the next byte coming in. */
  function Shift(w: bv64, next: bv8): bv64 { (w << 1) | ((next >> 7) as bv64) }

  lemma AllShifted(t: Octets)
    requires |t| == 16
    ensures forall i :: 0 <= i < 15 ==> ShiftedLeft(t)[i] == ShiftedByte(t[i], t[i + 1])
    ensures ShiftedLeft(t)[15] == ShiftedByte(t[15], 0)
  {
    hide ShiftedByte, ShiftedLeft;
    forall i | 0 <= i < 15 ensures ShiftedLeft(t)[i] == ShiftedByte(t[i], t[i + 1]) { ShiftedAt(t, i); }
    ShiftedAt(t, 15);
  }

  function High(t: Octets): bv64
    requires |t| == 16
  {
    Word64(t[0], t[1], t[2], t[3], t[4], t[5], t[6], t[7])
  }

  function Low(t: Octets): bv64
    requires |t| == 16
  {
    Word64(t[8], t[9], t[10], t[11], t[12], t[13], t[14], t[15])
  }

  lemma HalvesShift(t: Octets)
    requires |t| == 16
    ensures High(ShiftedLeft(t)) == Shift(High(t), t[8]) && Low(ShiftedLeft(t)) == Shift(Low(t), 0)
  {
    hide ShiftedByte, ShiftedLeft, Word64, Shift;
    AllShifted(t);
    ShiftBytes(t[0], t[1], t[2], t[3], t[4], t[5], t[6], t[7], t[8]);
    ShiftBytes(t[8], t[9], t[10], t[11], t[12], t[13], t[14], t[15], 0);
  }

  lemma JoinShifts(high: bv64, low: bv64, a: bv64, b: bv64, carry: bv64)
    requires a == (high << 1) | carry && b == low << 1 && low >> 63 == carry
    ensures Join(a, b) == Twice(Join(high, low))
  {
  }

  lemma ShiftNone(w: bv64)
    ensures Shift(w, 0) == w << 1
  {
  }

  lemma ShiftSome(w: bv64, next: bv8)
    ensures Shift(w, next) == (w << 1) | ((next >> 7) as bv64)
  {
  }

  lemma WordTop(a: bv8, b: bv8, c: bv8, d: bv8, e: bv8, f: bv8, g: bv8, h: bv8)
    ensures Word64(a, b, c, d, e, f, g, h) >> 63 == (a >> 7) as bv64
  {
  }

  lemma JoinShifted(high: bv64, low: bv64, next: bv8)
    requires low >> 63 == (next >> 7) as bv64
    ensures Join(Shift(high, next), Shift(low, 0)) == Twice(Join(high, low))
  {
    hide Join, Twice, Shift;
    ShiftNone(low);
    ShiftSome(high, next);
    JoinShifts(high, low, Shift(high, next), Shift(low, 0), (next >> 7) as bv64);
  }

  function Twice(n: bv128): bv128 { n << 1 }

  lemma NumberShifts(t: Octets)
    requires |t| == 16
    ensures Number(ShiftedLeft(t)) == Twice(Number(t))
  {
    hide ShiftedLeft, Word64, Shift, Join, Twice;
    HalvesShift(t);
    WordTop(t[8], t[9], t[10], t[11], t[12], t[13], t[14], t[15]);
    JoinShifted(High(t), Low(t), t[8]);
  }

  /** The carry folded back, on the last byte, the lower word and the whole number. */
  function FoldByte(b: bv8): bv8 { b ^ 0x87 }
  function FoldWord(w: bv64): bv64 { w ^ 0x87 }
  function Fold(n: bv128): bv128 { n ^ 0x87 }

  lemma WordLast(a: bv8, b: bv8, c: bv8, d: bv8, e: bv8, f: bv8, g: bv8, h: bv8)
    ensures Word64(a, b, c, d, e, f, g, FoldByte(h)) == FoldWord(Word64(a, b, c, d, e, f, g, h))
  {
  }

  lemma JoinLast(high: bv64, low: bv64)
    ensures Join(high, FoldWord(low)) == Fold(Join(high, low))
  {
  }

  lemma NumberFolds(t: Octets)
    requires |t| == 16
    ensures Number(t[15 := FoldByte(t[15])]) == Fold(Number(t))
  {
    hide Word64, Join, FoldByte, FoldWord, Fold;
    WordLast(t[8], t[9], t[10], t[11], t[12], t[13], t[14], t[15]);
    JoinLast(High(t), Low(t));
  }

  predicate Carries(n: bv128) { n >> 127 == 1 }

  lemma JoinCarries(high: bv64, low: bv64, a: bv8)
    requires high >> 63 == (a >> 7) as bv64
    ensures Carries(Join(high, low)) <==> a >= 0x80
  {
  }

  lemma NumberCarries(t: Octets)
    requires |t| == 16
    ensures Carries(Number(t)) <==> t[0] >= 0x80
  {
    hide Word64, Join, Carries;
    WordTop(t[0], t[1], t[2], t[3], t[4], t[5], t[6], t[7]);
    JoinCarries(High(t), Low(t), t[0]);
  }

  lemma TimesXIs(n: bv128)
    ensures TimesX(n) == if Carries(n) then Fold(Twice(n)) else Twice(n)
  {
  }

  /** Doubling a tweak is multiplication by x. */
  lemma DoubledIsTimesX(t: Octets)
    requires |t| == 16
    ensures Number(Doubled(t)) == TimesX(Number(t))
  {
    hide Number, ShiftedLeft, TimesX, Twice, Fold, Carries;
    NumberShifts(t);
    NumberFolds(ShiftedLeft(t));
    NumberCarries(t);
    TimesXIs(Number(t));
  }

  // ---- words and keys ----

  /** Every whole word of four bytes is turned around in place. */
  lemma {:induction false} SwapAt(s: Octets, word: nat, i: nat)
    requires 4 * word + 4 <= |s| && i < 4
    ensures SwapWords(s)[4 * word + i] == s[4 * word + 3 - i]
    decreases word
  {
    if |s| > 4 && word > 0 {
      SwapAt(s[4..], word - 1, i);
      assert SwapWords(s)[4 * word + i] == SwapWords(s[4..])[4 * (word - 1) + i];
    }
  }

  /** The number that bytes spell, most significant first. */
  function BigEndian(s: Octets): nat {
    if s == [] then 0 else BigEndian(s[..|s| - 1]) * 256 + R.Value(s[|s| - 1])
  }

  lemma ByteBack(b: bv8)
    ensures R.Value(b) < 256 && R.Value(b) as bv8 == b
  {
  }

  /** The last byte spells the number modulo 256, the bytes before it the rest. */
  lemma LastByte(s: Octets, n: nat)
    requires s != [] && BigEndian(s) == n
    ensures BigEndian(s[..|s| - 1]) == n / 256 && s[|s| - 1] == (n % 256) as bv8
  {
    hide R.Value;
    ByteBack(s[|s| - 1]);
  }

  lemma {:induction false} NoughtSpelled(s: Octets)
    requires BigEndian(s) == 0
    ensures forall i :: 0 <= i < |s| ==> s[i] == 0
    decreases |s|
  {
    hide BigEndian;
    if s != [] {
      var k := |s| - 1;
      LastByte(s, 0);
      NoughtSpelled(s[..k]);
      assert forall i :: 0 <= i < k ==> s[i] == s[..k][i];
    }
  }

  lemma TwoBytes(s: Octets, n: nat)
    requires |s| >= 2 && BigEndian(s) == n
    ensures BigEndian(s[..|s| - 2]) == n / 0x1_0000
    ensures s[|s| - 2] == (n / 256 % 256) as bv8 && s[|s| - 1] == (n % 256) as bv8
  {
    hide BigEndian;
    var k := |s| - 1;
    LastByte(s, n);
    LastByte(s[..k], n / 256);
    assert s[..k][..k - 1] == s[..k - 1] && s[..k][k - 1] == s[k - 1];
  }

  lemma FourBytes(s: Octets, n: nat)
    requires |s| == 16 && BigEndian(s) == n < 0x1_0000_0000
    ensures BigEndian(s[..12]) == 0
    ensures s[12] == (n / 0x100_0000 % 256) as bv8 && s[13] == (n / 0x1_0000 % 256) as bv8
    ensures s[14] == (n / 256 % 256) as bv8 && s[15] == (n % 256) as bv8
  {
    hide BigEndian;
    TwoBytes(s, n);
    TwoBytes(s[..14], n / 0x1_0000);
    assert s[..14][..12] == s[..12] && s[..14][12] == s[12] && s[..14][13] == s[13];
    assert n / 0x1_0000 / 256 == n / 0x100_0000 && n / 0x1_0000 / 0x1_0000 == 0;
  }

  /** Sixteen bytes that spell an address are the ones the tweak is made from. */
  lemma AddressSpelled(s: Octets, address: nat)
    requires |s| == 16 && BigEndian(s) == address < 0x1_0000_0000
    ensures s == AddressBytes(address)
  {
    hide BigEndian;
    FourBytes(s, address);
    NoughtSpelled(s[..12]);
    assert s == s[..12] + [s[12], s[13], s[14], s[15]];
    assert s[..12] == seq(12, _ => 0 as bv8);
  }

  /** Words of the trailer and the vectors are stored least significant byte first. */
  lemma WordIsLittleEndian(s: Octets, at: nat)
    requires at + 4 <= |s|
    ensures R.Word(s, at) == BigEndian(Reversed(s[at..at + 4]))
  {
    hide R.Value;
    var a, b, c, d := s[at + 3], s[at + 2], s[at + 1], s[at];
    assert Reversed(s[at..at + 4]) == [a, b, c, d];
    assert [a][..0] == [] && BigEndian([a]) == R.Value(a);
    assert [a, b][..1] == [a] && BigEndian([a, b]) == BigEndian([a]) * 256 + R.Value(b);
    assert [a, b, c][..2] == [a, b] && BigEndian([a, b, c]) == BigEndian([a, b]) * 256 + R.Value(c);
    assert [a, b, c, d][..3] == [a, b, c];
  }

  /** One half of a block is XEX on swapped words: AES under the first half of the key
      between two additions of the tweak. */
  ghost predicate IsXex(aes: Aes, key: Octets, x: Octets, y: Octets, tweak: Octets, decrypt: bool)
    requires |key| == |x| == |y| == |tweak| == 16
  {
    var input, output := Xor(SwapWords(x), tweak), Xor(SwapWords(y), tweak);
    if decrypt then aes.encrypt(key, output) == input else aes.encrypt(key, input) == output
  }

  lemma HalfIsXex(aes: Aes, key: Octets, x: Octets, tweak: Octets, decrypt: bool)
    requires |key| == |x| == |tweak| == 16
    ensures IsXex(aes, key, x, Half(aes, key, x, tweak, decrypt), tweak, decrypt)
  {
    var input := Xor(SwapWords(x), tweak);
    var mid := if decrypt then aes.decrypt(key, input) else aes.encrypt(key, input);
    SwapTwice(Xor(mid, tweak));
    XorTwice(mid, tweak);
  }

  /** A block is two XEX halves. Their tweaks are the encryption, under the second half of
      the key, of the 16 bytes that spell the address, and that times x. */
  lemma BlockIsXex(aes: Aes, key: Octets, data: Octets, address: int, decrypt: bool, spelled: Octets, next: Octets)
    requires |key| == 32 && |data| == 32 && ValidAddress(address)
    requires |spelled| == 16 && BigEndian(spelled) == address
    requires |next| == 16 && Number(next) == TimesX(Number(aes.encrypt(key[16..], spelled)))
    ensures var r := Block(aes, key, data, address, decrypt).value; var tweak := aes.encrypt(key[16..], spelled);
      IsXex(aes, key[..16], data[..16], r[..16], tweak, decrypt) && IsXex(aes, key[..16], data[16..], r[16..], next, decrypt)
  {
    hide Half, IsXex, Doubled, Number, TimesX, BigEndian, AddressBytes;
    AddressSpelled(spelled, address);
    var tweak := aes.encrypt(key[16..], spelled);
    DoubledIsTimesX(tweak);
    SameNumber(next, Doubled(tweak));
    HalfIsXex(aes, key[..16], data[..16], tweak, decrypt);
    HalfIsXex(aes, key[..16], data[16..], next, decrypt);
    var r := Block(aes, key, data, address, decrypt).value;
    assert r[..16] == Half(aes, key[..16], data[..16], tweak, decrypt);
    assert r[16..] == Half(aes, key[..16], data[16..], next, decrypt);
  }

  lemma SameWord(a: bv8, b: bv8, c: bv8, d: bv8, e: bv8, f: bv8, g: bv8, h: bv8,
                 i: bv8, j: bv8, k: bv8, l: bv8, m: bv8, n: bv8, o: bv8, p: bv8)
    requires Word64(a, b, c, d, e, f, g, h) == Word64(i, j, k, l, m, n, o, p)
    ensures a == i && b == j && c == k && d == l && e == m && f == n && g == o && h == p
  {
  }

  lemma SameJoin(a: bv64, b: bv64, c: bv64, d: bv64)
    requires Join(a, b) == Join(c, d)
    ensures a == c && b == d
  {
  }

  lemma SameNumber(a: Octets, b: Octets)
    requires |a| == |b| == 16 && Number(a) == Number(b)
    ensures a == b
  {
    hide Word64, Join;
    SameJoin(High(a), Low(a), High(b), Low(b));
    SameWord(a[0], a[1], a[2], a[3], a[4], a[5], a[6], a[7], b[0], b[1], b[2], b[3], b[4], b[5], b[6], b[7]);
    SameWord(a[8], a[9], a[10], a[11], a[12], a[13], a[14], a[15], b[8], b[9], b[10], b[11], b[12], b[13], b[14], b[15]);
    assert forall i :: 0 <= i < 16 ==> a[i] == b[i];
  }

  // ---- the CRC-16 ----

  /** The step backwards: the polynomial is odd, so the last bit tells what was carried. */
  function BitBack(crc: bv16): bv16 { if crc & 1 != 0 then ((crc ^ 0x8005) >> 1) | 0x8000 else crc >> 1 }

  lemma CarriedBack(c: bv16)
    requires c & 0x8000 != 0
    ensures ((c << 1) ^ 0x8005) & 1 != 0 && ((((c << 1) ^ 0x8005) ^ 0x8005) >> 1) | 0x8000 == c
  {
  }

  lemma ShiftedBack(c: bv16)
    requires !(c & 0x8000 != 0)
    ensures !(((c << 1) ^ 0) & 1 != 0) && ((c << 1) ^ 0) >> 1 == c
  {
  }

  lemma BitAndBack(crc: bv16)
    ensures BitBack(CrcBit(crc)) == crc
  {
    if crc & 0x8000 != 0 { CarriedBack(crc); } else { ShiftedBack(crc); }
  }

  /** No step of the register forgets anything. */
  lemma {:induction false} CrcBitsDiffer(a: bv16, b: bv16, n: nat)
    ensures a != b ==> CrcBits(a, n) != CrcBits(b, n)
    decreases n
  {
    hide CrcBit, BitBack;
    if n > 0 {
      BitAndBack(a);
      BitAndBack(b);
      CrcBitsDiffer(CrcBit(a), CrcBit(b), n - 1);
    }
  }

  function Entering(crc: bv16, b: bv8): bv16 { crc ^ ((b as bv16) << 8) }

  function ByteOf(crc: bv16, entered: bv16): bv8 { ((crc ^ entered) >> 8) as bv8 }

  lemma EnteringAndBack(crc: bv16, x: bv8)
    ensures Entering(Entering(crc, x), x) == crc
  {
  }

  lemma ByteEntered(crc: bv16, x: bv8)
    ensures ByteOf(crc, Entering(crc, x)) == x
  {
  }

  lemma ByteEnters(crc: bv16, x: bv8)
    ensures CrcByte(crc, x) == CrcBits(Entering(crc, x), 8)
  {
    hide CrcBits;
  }

  lemma CrcByteDiffers(a: bv16, b: bv16, x: bv8, y: bv8)
    ensures a != b ==> CrcByte(a, x) != CrcByte(b, x)
    ensures x != y ==> CrcByte(a, x) != CrcByte(a, y)
  {
    hide CrcBits, CrcByte, Entering, ByteOf;
    ByteEnters(a, x);
    ByteEnters(b, x);
    ByteEnters(a, y);
    EnteringAndBack(a, x);
    EnteringAndBack(b, x);
    ByteEntered(a, x);
    ByteEntered(a, y);
    CrcBitsDiffer(Entering(a, x), Entering(b, x), 8);
    CrcBitsDiffer(Entering(a, x), Entering(a, y), 8);
  }

  /** The same bytes behind different registers leave them different. */
  lemma {:induction false} CrcFromDiffers(a: bv16, b: bv16, s: Octets)
    ensures a != b ==> CrcFrom(a, s) != CrcFrom(b, s)
    decreases |s|
  {
    hide CrcByte;
    if s != [] {
      CrcByteDiffers(a, b, s[0], s[0]);
      CrcFromDiffers(CrcByte(a, s[0]), CrcByte(b, s[0]), s[1..]);
    }
  }

  lemma {:induction false} CrcConcat(crc: bv16, s: Octets, t: Octets)
    ensures CrcFrom(crc, s + t) == CrcFrom(CrcFrom(crc, s), t)
    decreases |s|
  {
    hide CrcByte;
    if s == [] {
      assert s + t == t;
    } else {
      assert (s + t)[1..] == s[1..] + t;
      CrcConcat(CrcByte(crc, s[0]), s[1..], t);
    }
  }

  lemma CrcFirst(crc: bv16, x: bv8, rest: Octets)
    ensures CrcFrom(crc, [x] + rest) == CrcFrom(CrcByte(crc, x), rest)
  {
    hide CrcByte;
    assert ([x] + rest)[1..] == rest;
  }

  /** Every change of a single byte of a block changes its checksum. */
  lemma CrcCatchesByte(s: Octets, i: nat, b: bv8)
    requires i < |s| && s[i] != b
    ensures FlashCrc(s[i := b]) != FlashCrc(s)
  {
    hide CrcByte, CrcFrom, HighByte, LowByte;
    var head, tail, t := s[..i], s[i + 1..], s[i := b];
    assert s == head + ([s[i]] + tail) && t == head + ([b] + tail);
    var crc := CrcFrom(0xffff, head);
    CrcConcat(0xffff, head, [s[i]] + tail);
    CrcConcat(0xffff, head, [b] + tail);
    CrcFirst(crc, s[i], tail);
    CrcFirst(crc, b, tail);
    CrcByteDiffers(crc, crc, s[i], b);
    CrcFromDiffers(CrcByte(crc, s[i]), CrcByte(crc, b), tail);
    BytesOf(CrcFrom(0xffff, s), CrcFrom(0xffff, t));
  }

  lemma BytesXor(p: bv16, q: bv16)
    ensures p != q ==> (p >> 8) as bv8 != (q >> 8) as bv8 || (p & 0xff) as bv8 != (q & 0xff) as bv8
  {
  }

  lemma BytesOf(p: bv16, q: bv16)
    ensures p != q ==> HighByte(p) != HighByte(q) || LowByte(p) != LowByte(q)
  {
    BytesXor(p, q);
  }

  // ---- published check values ----

  const DIGITS: Octets := [0x31, 0x32, 0x33, 0x34, 0x35, 0x36, 0x37, 0x38, 0x39]

  lemma DigitSteps()
    ensures CrcByte(0xffff, 0x31) == 0x7da7
    ensures CrcByte(0x7da7, 0x32) == 0x26a1
    ensures CrcByte(0x26a1, 0x33) == 0x217d
    ensures CrcByte(0x217d, 0x34) == 0xfd7d
    ensures CrcByte(0xfd7d, 0x35) == 0xffb3
    ensures CrcByte(0xffb3, 0x36) == 0xb1b6
    ensures CrcByte(0xb1b6, 0x37) == 0x3517
    ensures CrcByte(0x3517, 0x38) == 0x972d
    ensures CrcByte(0x972d, 0x39) == 0xaee7
  {
  }

  /** The check value of CRC-16 with this polynomial, started with ones and not reflected. */
  lemma CrcCheckValue()
    ensures FlashCrc(DIGITS) == [0xae, 0xe7]
  {
    hide CrcFrom;
    FirstDigits();
  }

  lemma FirstDigits()
    ensures CrcFrom(0xffff, [0x31, 0x32, 0x33, 0x34, 0x35, 0x36, 0x37, 0x38, 0x39]) == 0xaee7
  {
    DigitSteps();
    hide CrcByte;
    CrcFirst(0xffff, 0x31, [0x32, 0x33, 0x34, 0x35, 0x36, 0x37, 0x38, 0x39]);
    assert [0x31] + [0x32, 0x33, 0x34, 0x35, 0x36, 0x37, 0x38, 0x39] == [0x31, 0x32, 0x33, 0x34, 0x35, 0x36, 0x37, 0x38, 0x39];
    CrcFirst(0x7da7, 0x32, [0x33, 0x34, 0x35, 0x36, 0x37, 0x38, 0x39]);
    assert [0x32] + [0x33, 0x34, 0x35, 0x36, 0x37, 0x38, 0x39] == [0x32, 0x33, 0x34, 0x35, 0x36, 0x37, 0x38, 0x39];
    MoreDigits();
  }

  lemma MoreDigits()
    ensures CrcFrom(0x26a1, [0x33, 0x34, 0x35, 0x36, 0x37, 0x38, 0x39]) == 0xaee7
  {
    DigitSteps();
    hide CrcByte;
    CrcFirst(0x26a1, 0x33, [0x34, 0x35, 0x36, 0x37, 0x38, 0x39]);
    assert [0x33] + [0x34, 0x35, 0x36, 0x37, 0x38, 0x39] == [0x33, 0x34, 0x35, 0x36, 0x37, 0x38, 0x39];
    CrcFirst(0x217d, 0x34, [0x35, 0x36, 0x37, 0x38, 0x39]);
    assert [0x34] + [0x35, 0x36, 0x37, 0x38, 0x39] == [0x34, 0x35, 0x36, 0x37, 0x38, 0x39];
    MiddleDigits();
  }

  lemma MiddleDigits()
    ensures CrcFrom(0xfd7d, [0x35, 0x36, 0x37, 0x38, 0x39]) == 0xaee7
  {
    DigitSteps();
    hide CrcByte;
    CrcFirst(0xfd7d, 0x35, [0x36, 0x37, 0x38, 0x39]);
    assert [0x35] + [0x36, 0x37, 0x38, 0x39] == [0x35, 0x36, 0x37, 0x38, 0x39];
    CrcFirst(0xffb3, 0x36, [0x37, 0x38, 0x39]);
    assert [0x36] + [0x37, 0x38, 0x39] == [0x36, 0x37, 0x38, 0x39];
    LastDigits();
  }

  lemma LastDigits()
    ensures CrcFrom(0xb1b6, [0x37, 0x38, 0x39]) == 0xaee7
  {
    DigitSteps();
    hide CrcByte;
    CrcFirst(0xb1b6, 0x37, [0x38, 0x39]);
    assert [0x37] + [0x38, 0x39] == [0x37, 0x38, 0x39];
    CrcFirst(0x3517, 0x38, [0x39]);
    assert [0x38] + [0x39] == [0x38, 0x39];
    CrcFirst(0x972d, 0x39, []);
    assert [0x39] + [] == [0x39];
    NoDigits();
  }

  lemma NoDigits()
    ensures CrcFrom(0xaee7, []) == 0xaee7
  {
  }

  /** The published FNV-1a values of "", "a" and "foobar". */
  lemma FnvCheckValues()
    ensures R.FnvFrom(0x811c_9dc5, []) == 0x811c_9dc5
    ensures R.FnvFrom(0x811c_9dc5, [0x61]) == 0xe40c_292c
    ensures R.FnvFrom(0x811c_9dc5, [0x66, 0x6f, 0x6f, 0x62, 0x61, 0x72]) == 0xbf9c_f968
  {
    FnvSteps();
    hide R.FnvStep;
    FnvFirst(0x811c_9dc5, 0x61, []);
    assert [0x61] + [] == [0x61 as bv8];
    FnvFirst(0x811c9dc5, 0x66, [0x6f, 0x6f, 0x62, 0x61, 0x72]);
    assert [0x66] + [0x6f, 0x6f, 0x62, 0x61, 0x72] == [0x66, 0x6f, 0x6f, 0x62, 0x61, 0x72];
    FnvFirst(0xe30c2799, 0x6f, [0x6f, 0x62, 0x61, 0x72]);
    assert [0x6f] + [0x6f, 0x62, 0x61, 0x72] == [0x6f, 0x6f, 0x62, 0x61, 0x72];
    FnvFirst(0x6222e842, 0x6f, [0x62, 0x61, 0x72]);
    assert [0x6f] + [0x62, 0x61, 0x72] == [0x6f, 0x62, 0x61, 0x72];
    FnvFirst(0xa9f37ed7, 0x62, [0x61, 0x72]);
    assert [0x62] + [0x61, 0x72] == [0x62, 0x61, 0x72];
    FnvFirst(0x3f5076ef, 0x61, [0x72]);
    assert [0x61] + [0x72] == [0x61, 0x72];
    FnvFirst(0x39aaa18a, 0x72, []);
    assert [0x72] + [] == [0x72];
  }

  lemma FnvFirst(value: bv32, x: bv8, rest: Octets)
    ensures R.FnvFrom(value, [x] + rest) == R.FnvFrom(R.FnvStep(value, x), rest)
  {
    hide R.FnvStep;
    assert ([x] + rest)[1..] == rest;
  }

  lemma FnvSteps()
    ensures R.FnvStep(0x811c_9dc5, 0x61) == 0xe40c_292c
    ensures R.FnvStep(0x811c9dc5, 0x66) == 0xe30c2799
    ensures R.FnvStep(0xe30c2799, 0x6f) == 0x6222e842
    ensures R.FnvStep(0x6222e842, 0x6f) == 0xa9f37ed7
    ensures R.FnvStep(0xa9f37ed7, 0x62) == 0x3f5076ef
    ensures R.FnvStep(0x3f5076ef, 0x61) == 0x39aaa18a
    ensures R.FnvStep(0x39aaa18a, 0x72) == 0xbf9cf968
  {
  }
}
