/** Managed App images: a CP and an AP partition encrypted for their final address. */
module FlashApp {
  import opened FlashCipher
  import opened FlashImage
  import opened Optional
  import opened FlashRecovery

  /** A code partition: physical start and end. */
  function AppRangeOf(sections: seq<Part>, name: Name): (r: Result<Range>)
    ensures r.Success? ==> r.value.start < r.value.end <= MAX_IMAGE && Aligned(r.value.start) && Aligned(r.value.end)
  {
    var found := Matches(sections, name);
    if |found| != 1 then Failure(AppPartitions) else
    var part := found[0];
    if part.offset.None? || part.size.None? || part.offset.value < 0 || part.size.value <= 0 || !part.execute
    then Failure(AppRange) else
    var (start, end) := (part.offset.value, part.offset.value + part.size.value);
    if end > MAX_IMAGE then Failure(AppRange)
    else if start % 34 != 0 then Failure(LayoutCrcAlignment)
    else if Logical(start) % PAGE != 0 then Failure(AppRange)
    else if end % 34 != 0 then Failure(LayoutCrcAlignment)
    else if Logical(end) % PAGE != 0 then Failure(AppRange)
    else Success(Range(start, end))
  }

  function Logical(physical: nat): nat { physical / 34 * 32 }

  predicate Aligned(physical: nat) { physical % 34 == 0 && Logical(physical) % PAGE == 0 }

  function AppOthers(sections: seq<Part>, start: nat, end: nat): Option<Error> {
    if sections == [] then None else
    var part := sections[0];
    if part.name == CpApp || part.name == ApApp then AppOthers(sections[1..], start, end)
    else if part.offset.None? || part.size.None? || part.offset.value < 0 || part.size.value <= 0 then Some(AppLayout)
    else if part.offset.value < end && part.offset.value + part.size.value > start then Some(AppOverlap)
    else AppOthers(sections[1..], start, end)
  }

  predicate AppVectorOk(plain: Octets, offset: nat, limit: nat, base: nat)
    requires offset + 8 <= |plain|
  {
    var stack, reset := Word(plain, offset), Word(plain, offset + 4);
    var pc := reset - reset % 2 - 0x200_0000 - base;
    0x2800_0000 <= stack <= 0x280a_0000 && stack % 8 == 0 && reset % 2 == 1 && offset <= pc < limit
  }

  datatype App = App(plain: Octets, base: nat, apOffset: nat)

  /** What validate_app guarantees: whole blocks at addresses the cipher accepts. */
  ghost predicate AppOk(crc32: Crc32, app: App, size: nat) {
    && size % 34 == 0 && size <= MAX_IMAGE && |app.plain| == size / 34 * 32
    && app.base % 32 == 0 && app.base <= MAX_IMAGE
    && CheckRbl(crc32, app.plain, 0, app.apOffset).Success?
  }

  /** validate_app. */
  function ValidateApp(crc32: Crc32, source: Octets, table: Table): (r: Result<App>)
    ensures r.Success? ==> AppOk(crc32, r.value, |source|)
  {
    if table.Malformed? then Failure(AppLayout) else
    var cp := AppRangeOf(table.sections, CpApp);
    if cp.Failure? then Failure(cp.error) else
    var ap := AppRangeOf(table.sections, ApApp);
    if ap.Failure? then Failure(ap.error) else
    ValidateWindow(crc32, source, table.sections, cp.value, ap.value)
  }

  function ValidateWindow(crc32: Crc32, source: Octets, sections: seq<Part>, cp: Range, ap: Range): (r: Result<App>)
    requires cp.start < cp.end <= MAX_IMAGE && Aligned(cp.start) && ap.start < ap.end <= MAX_IMAGE
    ensures r.Success? ==> AppOk(crc32, r.value, |source|)
  {
    if cp.start == 0 || cp.end != ap.start || source == [] || |source| % 34 != 0 || |source| > ap.end - cp.start
    then Failure(AppLength) else
    var other := AppOthers(sections, cp.start, ap.end);
    if other.Some? then Failure(other.value) else
    hide CheckTail, Unpack, AppVectorOk;
    LogicalFacts(cp.start, ap.start);
    var plain := Unpack(source);
    if plain.Failure? then Failure(plain.error) else
    var (base, apOffset) := (Logical(cp.start), Logical(ap.start) - Logical(cp.start));
    var end := CheckRbl(crc32, plain.value, 0, apOffset);
    if end.Failure? then Failure(end.error)
    else if !AppVectorOk(plain.value, 0, Min(apOffset, end.value), base)
            || !AppVectorOk(plain.value, apOffset, end.value, base) then Failure(AppVector)
    else Success(App(plain.value, base, apOffset))
  }

  lemma LogicalFacts(a: nat, b: nat)
    requires a <= b <= MAX_IMAGE
    ensures Logical(a) <= Logical(b) <= MAX_IMAGE && Logical(a) % 32 == 0
  {
  }

  lemma AppBlocks(crc32: Crc32, app: App, size: nat)
    requires AppOk(crc32, app, size)
    ensures |app.plain| == 32 * (size / 34) && app.base == 32 * (app.base / 32) && app.base / 32 + size / 34 <= BLOCKS
  {
  }

  /** encrypt_app, self-checks included. */
  ghost function EncryptApp(aes: Aes, crc32: Crc32, source: Octets, table: Table, key: Octets): Result<Octets>
  {
    var valid := ValidateApp(crc32, source, table);
    if valid.Failure? then Failure(valid.error)
    else if |key| != 32 then Failure(KeyLength)
    else TransformApp(aes, crc32, valid.value, |source|, key)
  }

  ghost function TransformApp(aes: Aes, crc32: Crc32, app: App, size: nat, key: Octets): Result<Octets>
    requires |key| == 32 && AppOk(crc32, app, size)
  {
    hide Permutation, Cipher, Pack, CheckRbl, AppOk;
    AppBlocks(crc32, app, size);
    var (m, n) := (app.base / 32, size / 34);
    var encrypted := Cipher(aes, key, app.plain, m, n, false);
    var decoded := Cipher(aes, key, encrypted, m, n, true);
    if decoded != app.plain then Failure(OutputDecrypt) else
    var again := CheckRbl(crc32, decoded, 0, app.apOffset);
    if again.Failure? then Failure(again.error) else Success(Pack(encrypted))
  }

  /** A validated App and a 32-byte key always give an image of the source's length, in
      valid packets, that decrypts to the source's plaintext at its final address. */
  lemma {:induction false} AppSelfChecksNeverFire(aes: Aes, crc32: Crc32, source: Octets, table: Table, key: Octets)
    requires ValidateApp(crc32, source, table).Success? && |key| == 32
    ensures var app := ValidateApp(crc32, source, table).value;
      var (m, n) := (app.base / 32, |source| / 34);
      var out := EncryptApp(aes, crc32, source, table, key);
      && |app.plain| == 32 * n && m + n <= BLOCKS
      && out.Success? && |out.value| == |source|
      && Unpack(out.value) == Success(Cipher(aes, key, app.plain, m, n, false))
      && Cipher(aes, key, Unpack(out.value).value, m, n, true) == app.plain
  {
    hide Permutation, Cipher, ValidateApp, CheckRbl, Pack, Unpack;
    var app := ValidateApp(crc32, source, table).value;
    AppBlocks(crc32, app, |source|);
    var (m, n) := (app.base / 32, |source| / 34);
    CipherRoundTrip(aes, key, app.plain, m, n);
    PackRoundTrip(Cipher(aes, key, app.plain, m, n, false));
  }

  method EncryptAppImage(aes: Aes, crc32: Crc32, source: Octets, table: Table, key: Octets) returns (r: Result<Octets>)
    ensures r == EncryptApp(aes, crc32, source, table, key)
  {
    hide Permutation, Cipher, ValidateApp, CheckRbl, Pack, AppOk;
    var valid := ValidateApp(crc32, source, table);
    if valid.Failure? { return Failure(valid.error); }
    if |key| != 32 { return Failure(KeyLength); }
    var app := valid.value;
    AppBlocks(crc32, app, |source|);
    var encrypted := CipherImage(aes, key, app.plain, app.base / 32, |source| / 34, false);
    var decoded := CipherImage(aes, key, encrypted, app.base / 32, |source| / 34, true);
    if decoded != app.plain { return Failure(OutputDecrypt); }
    var again := CheckRbl(crc32, decoded, 0, app.apOffset);
    return if again.Failure? then Failure(again.error) else Success(Pack(encrypted));
  }
}
