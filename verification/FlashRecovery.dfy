/** Complete recovery images: the RBL trailer, partition tables, validation, encryption
    and its self-checks. CRC-32 is a parameter. */
module FlashRecovery {
  import opened FlashCipher
  import opened FlashImage
  import opened Optional

  const PAGE: nat := 4096
  const MAX_IMAGE: nat := 16 * 1024 * 1024
  /** The recorded digests come from zlib.crc32, a parameter here. */
  type Crc32 = Octets -> nat

  // ---- the RBL trailer ----

  function Value(b: bv8): nat { b as nat }

  /** A little-endian 32-bit word. */
  function Word(s: Octets, at: nat): nat
    requires at + 4 <= |s|
  {
    Value(s[at]) + 0x100 * Value(s[at + 1]) + 0x1_0000 * Value(s[at + 2]) + 0x100_0000 * Value(s[at + 3])
  }

  function FnvStep(value: bv32, b: bv8): bv32 { (value ^ (b as bv32)) * 0x100_0193 }

  function FnvFrom(value: bv32, s: Octets): bv32
    decreases |s|
  {
    if s == [] then value else FnvFrom(FnvStep(value, s[0]), s[1..])
  }

  function Fnv(s: Octets): nat { FnvFrom(0x811c_9dc5, s) as nat }

  method FnvOf(s: Octets) returns (r: nat)
    ensures r == Fnv(s)
  {
    hide FnvStep;
    var value: bv32 := 0x811c_9dc5;
    var i := 0;
    assert s[0..] == s;
    while i < |s|
      invariant 0 <= i <= |s|
      invariant FnvFrom(0x811c_9dc5, s) == FnvFrom(value, s[i..])
    {
      assert s[i..][0] == s[i] && s[i..][1..] == s[i + 1..];
      value := FnvStep(value, s[i]);
      i := i + 1;
    }
    r := value as nat;
  }

  /** check_rbl on the bytes from the payload start on; the result counts from there. */
  function CheckTail(crc32: Crc32, tail: Octets, apStart: int): Result<nat> {
    if |tail| < PAGE then Failure(RblLength) else
    var headerStart := |tail| - PAGE;
    var header := tail[headerStart..headerStart + 96];
    if header[..6] != [0x52, 0x42, 0x4c, 0, 0, 0] then Failure(RblMagic) else
    var size := Word(header, 84);
    if size == 0 || size % 32 != 0 || size != Word(header, 88) || size < apStart + 8 || size > headerStart
    then Failure(RblPayloadLength) else
    if tail[size..headerStart] != Filled(headerStart - size) || tail[headerStart + 96..] != Filled(PAGE - 96)
    then Failure(RblPadding) else
    if Fnv(tail[..size]) != Word(header, 80) || crc32(tail[..size]) != Word(header, 76)
       || crc32(header[..92]) != Word(header, 92)
    then Failure(RblDigest)
    else Success(size)
  }

  /** check_rbl: the payload's end. */
  function CheckRbl(crc32: Crc32, plain: Octets, payloadStart: nat, apStart: int): (r: Result<nat>)
    ensures r.Success? ==> payloadStart + PAGE <= |plain| && payloadStart < r.value && apStart + 8 <= r.value <= |plain| - PAGE
  {
    if |plain| < PAGE + payloadStart then Failure(RblLength) else
    var size := CheckTail(crc32, plain[payloadStart..], apStart - payloadStart);
    if size.Failure? then size else Success(payloadStart + size.value)
  }

  /** check_rbl looks at nothing before the payload. */
  lemma RblIsLocal(crc32: Crc32, a: Octets, b: Octets, payloadStart: nat, apStart: int)
    requires |a| == |b| && (payloadStart <= |a| ==> a[payloadStart..] == b[payloadStart..])
    ensures CheckRbl(crc32, a, payloadStart, apStart) == CheckRbl(crc32, b, payloadStart, apStart)
  {
    hide CheckTail;
  }

  // ---- partition tables ----

  datatype Name = Bootloader | CpApp | ApApp | Other

  /** A table entry; a missing or non-integer number is None. */
  datatype Part = Part(name: Name, offset: Option<int>, size: Option<int>, execute: bool)

  /** Malformed: no object, no true crc_enable, or no list of objects. */
  datatype Table = Malformed | Table(sections: seq<Part>)

  datatype Range = Range(start: nat, end: nat)

  function Matches(sections: seq<Part>, name: Name): seq<Part> {
    if sections == [] then []
    else (if sections[0].name == name then [sections[0]] else []) + Matches(sections[1..], name)
  }

  /** The code partitions in order, physically contiguous from `end` on; also where they end. */
  function CodeRanges(sections: seq<Part>, names: seq<Name>, end: nat): (r: Result<(seq<Range>, nat)>)
    requires end % 34 == 0
    ensures r.Success? ==> Chain(r.value.0, end / 34 * 32, r.value.1 / 34 * 32) && |r.value.0| == |names|
    ensures r.Success? ==> r.value.1 % 34 == 0
    decreases |names|
  {
    if names == [] then Success(([], end)) else
    var found := Matches(sections, names[0]);
    if |found| != 1 then Failure(LayoutCodePartitions) else
    var part := found[0];
    if part.offset.None? || part.size.None? || part.offset.value != end || part.size.value <= 0 || !part.execute
    then Failure(LayoutCodeRange) else
    var next := end + part.size.value;
    if end % 34 != 0 || next % 34 != 0 then Failure(LayoutCrcAlignment) else
    var range := Range(end / 34 * 32, next / 34 * 32);
    if range.start % PAGE != 0 || range.end % PAGE != 0 then Failure(LayoutPageAlignment) else
    var rest := CodeRanges(sections, names[1..], next);
    if rest.Failure? then Failure(rest.error)
    else Success(([range] + rest.value.0, rest.value.1))
  }

  /** Non-empty page-aligned ranges, each starting where the one before it ends. */
  predicate Chain(ranges: seq<Range>, start: int, end: int) {
    if ranges == [] then start == end
    else
      && ranges[0].start == start < ranges[0].end
      && ranges[0].start % PAGE == 0 && ranges[0].end % PAGE == 0
      && Chain(ranges[1..], ranges[0].end, end)
  }

  function OtherParts(sections: seq<Part>, end: nat): Option<Error> {
    if sections == [] then None else
    var part := sections[0];
    if part.offset.None? || part.size.None? || part.offset.value < 0 || part.size.value <= 0 then Some(LayoutRange)
    else if part.name == Other && (part.execute || part.offset.value < end) then Some(LayoutOverlapOrExecutable)
    else OtherParts(sections[1..], end)
  }

  /** validate_layout. */
  function Layout(table: Table, imageSize: nat): (r: Result<seq<Range>>)
    ensures r.Success? ==>
      && |r.value| == 3 && imageSize % 34 == 0 && imageSize <= MAX_IMAGE
      && Chain(r.value, 0, imageSize / 34 * 32)
  {
    if table.Malformed? then Failure(LayoutFormat) else
    var code := CodeRanges(table.sections, [Bootloader, CpApp, ApApp], 0);
    if code.Failure? then Failure(code.error) else
    var (ranges, end) := code.value;
    var other := OtherParts(table.sections, end);
    if other.Some? then Failure(other.value)
    else if end != imageSize || end > MAX_IMAGE then Failure(LayoutImageLength)
    else Success(ranges)
  }

  // ---- recovery images ----

  /** `reset & ~0x10000000`. */
  function WithoutAlias(reset: nat): int {
    if reset / 0x1000_0000 % 2 == 1 then reset - 0x1000_0000 else reset
  }

  predicate VectorOk(plain: Octets, range: Range, codeEnd: nat)
    requires range.start + 8 <= |plain|
  {
    var stack, reset := Word(plain, range.start), Word(plain, range.start + 4);
    var flash := WithoutAlias(reset);
    var target := flash - flash % 2 - 0x200_0000;
    stack != 0 && stack != 0xffff_ffff && stack % 8 == 0 && reset % 2 == 1 && range.start <= target < codeEnd
  }

  datatype Recovery = Recovery(plain: Octets, ranges: seq<Range>)

  function Min(a: nat, b: nat): nat { if a < b then a else b }

  /** Everything encrypt_recovery checks before it uses the key. */
  function ValidateRecovery(crc32: Crc32, source: Octets, table: Table): (r: Result<Recovery>)
    ensures r.Success? ==> RecoveryOk(crc32, r.value, |source|)
  {
    var ranges := Layout(table, |source|);
    if ranges.Failure? then Failure(ranges.error) else
    var plain := Unpack(source);
    if plain.Failure? then Failure(plain.error) else
    ChainBounds(ranges.value, |plain.value|);
    var (p, rs) := (plain.value, ranges.value);
    if p[0x100..0x106] != [0x42, 0x4b, 0x37, 0x32, 0x33, 0x36] then Failure(BootromMarker) else
    var end := CheckRbl(crc32, p, rs[1].start, rs[2].start);
    if end.Failure? then Failure(end.error)
    else if !VectorOk(p, rs[0], rs[0].end) || !VectorOk(p, rs[1], Min(rs[1].end, end.value))
            || !VectorOk(p, rs[2], Min(rs[2].end, end.value)) then Failure(CodeVectorLayout)
    else Success(Recovery(p, rs))
  }

  ghost predicate RecoveryOk(crc32: Crc32, v: Recovery, size: nat) {
    && |v.ranges| == 3 && PAGE <= v.ranges[1].start
    && size % 34 == 0 && size <= MAX_IMAGE && |v.plain| == size / 34 * 32 && |v.plain| >= 3 * PAGE
    && CheckRbl(crc32, v.plain, v.ranges[1].start, v.ranges[2].start).Success?
  }

  lemma ChainBounds(ranges: seq<Range>, end: nat)
    requires |ranges| == 3 && Chain(ranges, 0, end)
    ensures PAGE <= ranges[1].start && ranges[0].start + PAGE <= end && ranges[1].start + PAGE <= end
    ensures ranges[2].start + PAGE <= end && 3 * PAGE <= end
  {
    assert Chain(ranges[1..], ranges[0].end, end) && ranges[1..][0] == ranges[1];
    assert Chain(ranges[1..][1..], ranges[1].end, end) && ranges[1..][1..][0] == ranges[2];
    assert Chain(ranges[1..][1..][1..], ranges[2].end, end);
    PagesApart(ranges[0]);
    PagesApart(ranges[1]);
    PagesApart(ranges[2]);
  }

  lemma PagesApart(r: Range)
    requires r.start % PAGE == 0 && r.end % PAGE == 0 && r.start < r.end
    ensures r.start + PAGE <= r.end
  {
  }

  lemma BlockCount(s: Octets, size: nat)
    requires |s| == size / 34 * 32 && size <= MAX_IMAGE
    ensures |s| == 32 * (size / 34) && size / 34 <= BLOCKS
  {
  }

  /** The checks encrypt_recovery makes of its own output. */
  function SelfChecks(crc32: Crc32, v: Recovery, size: nat, output: Octets, decoded: Octets): Result<Octets>
    requires |v.plain| >= HOLE_END && |decoded| == |v.plain| && |v.ranges| == 3
  {
    if |output| != size then Failure(OutputLength)
    else if decoded[..HOLE] != v.plain[..HOLE] || decoded[HOLE_END..] != v.plain[HOLE_END..] then Failure(OutputDecrypt)
    else
      var again := CheckRbl(crc32, decoded, v.ranges[1].start, v.ranges[2].start);
      if again.Failure? then Failure(again.error) else Success(output)
  }

  /** The encrypted image of `n` blocks with its hole. */
  ghost function Ciphertext(aes: Aes, key: Octets, plain: Octets, n: nat): (r: Octets)
    requires |key| == 32 && |plain| == 32 * n >= HOLE_END && n <= BLOCKS
    ensures |r| == 32 * n
  {
    Holed(Cipher(aes, key, plain, 0, n, false), plain)
  }

  /** What encrypt_recovery does with a validated image and a key. */
  ghost function Transform(aes: Aes, crc32: Crc32, v: Recovery, size: nat, key: Octets): Result<Octets>
    requires |key| == 32 && RecoveryOk(crc32, v, size)
  {
    hide Permutation, Cipher, Pack, Ciphertext, SelfChecks, CheckRbl;
    BlockCount(v.plain, size);
    var encrypted := Ciphertext(aes, key, v.plain, size / 34);
    SelfChecks(crc32, v, size, Pack(encrypted), Cipher(aes, key, encrypted, 0, size / 34, true))
  }

  /** encrypt_recovery. */
  ghost function EncryptRecovery(aes: Aes, crc32: Crc32, source: Octets, table: Table, key: Octets): Result<Octets>
  {
    var valid := ValidateRecovery(crc32, source, table);
    if valid.Failure? then Failure(valid.error)
    else if |key| != 32 then Failure(KeyLength)
    else Transform(aes, crc32, valid.value, |source|, key)
  }

  lemma SameTail(a: Octets, b: Octets, from: nat, start: nat)
    requires |a| == |b| && from <= start <= |a| && a[from..] == b[from..]
    ensures a[start..] == b[start..]
  {
    assert a[start..] == a[from..][start - from..] && b[start..] == b[from..][start - from..];
  }

  /** Once the inputs validate and the key has 32 bytes, no self-check can fire: the
      output has the source's length, every packet of it passes the CRC check, and it is
      the encrypted image but for the 16 bytes in the clear. */
  lemma {:induction false} RecoverySelfChecksNeverFire(aes: Aes, crc32: Crc32, source: Octets, table: Table, key: Octets)
    requires ValidateRecovery(crc32, source, table).Success? && |key| == 32
    ensures var plain := ValidateRecovery(crc32, source, table).value.plain;
      var n := |source| / 34;
      var out := EncryptRecovery(aes, crc32, source, table, key);
      && out.Success? && |out.value| == |source| && |plain| == 32 * n >= HOLE_END && n <= BLOCKS
      && Unpack(out.value) == Success(Ciphertext(aes, key, plain, n))
  {
    hide Permutation, Cipher, ValidateRecovery, CheckRbl, Pack, Unpack, Holed;
    var v := ValidateRecovery(crc32, source, table).value;
    var plain, n := v.plain, |source| / 34;
    BlockCount(plain, |source|);
    HoleIsHarmless(aes, key, plain, n - 9);
    var holed := Holed(Cipher(aes, key, plain, 0, n, false), plain);
    var decoded := Cipher(aes, key, holed, 0, n, true);
    PackRoundTrip(holed);
    SameTail(decoded, plain, HOLE_END, v.ranges[1].start);
    RblIsLocal(crc32, decoded, plain, v.ranges[1].start, v.ranges[2].start);
  }

  /** Exactly when the transform succeeds. */
  lemma {:induction false} RecoverySucceedsIff(aes: Aes, crc32: Crc32, source: Octets, table: Table, key: Octets)
    ensures EncryptRecovery(aes, crc32, source, table, key).Success?
      <==> ValidateRecovery(crc32, source, table).Success? && |key| == 32
  {
    hide Permutation, Cipher, ValidateRecovery, CheckRbl, Pack, Holed;
    if ValidateRecovery(crc32, source, table).Success? && |key| == 32 {
      RecoverySelfChecksNeverFire(aes, crc32, source, table, key);
    }
  }

  method EncryptRecoveryImage(aes: Aes, crc32: Crc32, source: Octets, table: Table, key: Octets) returns (r: Result<Octets>)
    ensures r == EncryptRecovery(aes, crc32, source, table, key)
  {
    hide Permutation, Cipher, ValidateRecovery, CheckRbl, Pack;
    var valid := ValidateRecovery(crc32, source, table);
    if valid.Failure? { return Failure(valid.error); }
    if |key| != 32 { return Failure(KeyLength); }
    var v, n := valid.value, |source| / 34;
    BlockCount(v.plain, |source|);
    var encrypted := CipherImage(aes, key, v.plain, 0, n, false);
    encrypted := encrypted[..HOLE] + v.plain[HOLE..HOLE_END] + encrypted[HOLE_END..];
    var output := Pack(encrypted);
    if |output| != |source| { return Failure(OutputLength); }
    var decoded := CipherImage(aes, key, encrypted, 0, n, true);
    if decoded[..HOLE] != v.plain[..HOLE] || decoded[HOLE_END..] != v.plain[HOLE_END..] { return Failure(OutputDecrypt); }
    var again := CheckRbl(crc32, decoded, v.ranges[1].start, v.ranges[2].start);
    return if again.Failure? then Failure(again.error) else Success(output);
  }
}
