/** Which images and partition tables the flash tool accepts: each check said on the
    bytes and entries themselves. */
module FlashAccept {
  import opened FlashCipher
  import opened FlashImage
  import opened FlashRecovery
  import opened Optional
  import opened FlashApp

  predicate AllOnes(s: Octets) { forall i :: 0 <= i < |s| ==> s[i] == 0xff }

  lemma FilledIsOnes(s: Octets)
    ensures s == Filled(|s|) <==> AllOnes(s)
  {
  }

  // ---- packets ----

  /** 34 ones, or 32 bytes and their CRC. */
  ghost predicate IsPacket(packet: Octets) {
    |packet| == 34 && ((forall i :: 0 <= i < 34 ==> packet[i] == 0xff) || packet == packet[..32] + FlashCrc(packet[..32]))
  }

  lemma PacketExactly(packet: Octets)
    ensures PacketOk(packet) <==> IsPacket(packet)
  {
    hide FlashCrc;
    if |packet| == 34 {
      var crc := FlashCrc(packet[..32]);
      assert packet == packet[..32] + packet[32..] && (packet[..32] + crc)[32..] == crc;
    }
  }

  /** Nothing but whole packets. */
  ghost predicate Packets(source: Octets) {
    |source| % 34 == 0 && forall k: nat :: 34 * k + 34 <= |source| ==> IsPacket(source[34 * k..34 * k + 34])
  }

  lemma PacketLater(source: Octets, k: nat)
    requires 34 <= |source| && 34 * k + 34 <= |source| - 34
    ensures source[34..][34 * k..34 * k + 34] == source[34 * (k + 1)..34 * (k + 1) + 34]
  {
  }

  lemma PacketsFirst(source: Octets)
    requires |source| >= 34
    ensures Packets(source) <==> IsPacket(source[..34]) && Packets(source[34..])
  {
    hide IsPacket;
    if Packets(source) {
      assert source[34 * 0..34 * 0 + 34] == source[..34];
      forall k: nat | 34 * k + 34 <= |source| - 34 ensures IsPacket(source[34..][34 * k..34 * k + 34]) {
        PacketLater(source, k);
        assert IsPacket(source[34 * (k + 1)..34 * (k + 1) + 34]);
      }
    }
    if IsPacket(source[..34]) && Packets(source[34..]) {
      forall k: nat | 34 * k + 34 <= |source| ensures IsPacket(source[34 * k..34 * k + 34]) {
        if k > 0 {
          PacketLater(source, k - 1);
          assert IsPacket(source[34..][34 * (k - 1)..34 * (k - 1) + 34]);
        }
      }
    }
  }

  /** Exactly sources of whole, valid packets unpack. */
  lemma {:induction false} UnpacksExactly(source: Octets)
    ensures Unpack(source).Success? <==> Packets(source)
    decreases |source|
  {
    hide PacketOk, IsPacket, Packets;
    if source == [] {
      NoPackets();
    } else if |source| < 34 {
      TooShort(source);
    } else {
      PacketsFirst(source);
      PacketExactly(source[..34]);
      UnpacksExactly(source[34..]);
    }
  }

  lemma NoPackets()
    ensures Packets([])
  {
  }

  lemma TooShort(source: Octets)
    requires 0 < |source| < 34
    ensures !Packets(source)
  {
  }

  /** The plaintext of the `k`-th packet. */
  lemma {:induction false} UnpackedAt(source: Octets, k: nat)
    requires Unpack(source).Success? && 34 * k + 34 <= |source|
    ensures 32 * k + 32 <= |Unpack(source).value|
    ensures Unpack(source).value[32 * k..32 * k + 32] == source[34 * k..34 * k + 32]
    decreases |source|
  {
    hide Unpack;
    UnpackFirst(source);
    var rest := Unpack(source[34..]).value;
    if k == 0 {
      assert (source[..32] + rest)[..32] == source[..32];
    } else {
      UnpackedAt(source[34..], k - 1);
      Behind(source[..32], rest, 32 * (k - 1), 32);
      PlainLater(source, 34 * (k - 1));
    }
  }

  lemma UnpackFirst(source: Octets)
    requires Unpack(source).Success? && source != []
    ensures |source| >= 34 && Unpack(source[34..]).Success? && Unpack(source).value == source[..32] + Unpack(source[34..]).value
  {
    hide PacketOk;
  }

  lemma Behind(a: Octets, b: Octets, i: nat, n: nat)
    requires i + n <= |b|
    ensures (a + b)[|a| + i..|a| + i + n] == b[i..i + n]
  {
  }

  lemma PlainLater(source: Octets, i: nat)
    requires 34 + i + 32 <= |source|
    ensures source[34..][i..i + 32] == source[34 + i..34 + i + 32]
  {
  }

  // ---- the RBL trailer ----

  predicate HasMagic(s: Octets) { s == [0x52, 0x42, 0x4c, 0, 0, 0] }

  predicate OnesIn(s: Octets, a: nat, b: nat)
    requires b <= |s|
  {
    forall i :: a <= i < b ==> s[i] == 0xff
  }

  /** A payload of `size` bytes from the start, ones up to a page from the end, and there a
      header with the magic, both sizes and all three digests, in ones. */
  ghost predicate IsRbl(crc32: Crc32, tail: Octets, apStart: int, size: nat) {
    && |tail| >= PAGE
    && var h := |tail| - PAGE;
    && 0 < size <= h && size % 32 == 0 && apStart + 8 <= size
    && HasMagic(tail[h..h + 6])
    && Word(tail, h + 84) == size == Word(tail, h + 88)
    && OnesIn(tail, size, h) && OnesIn(tail, h + 96, |tail|)
    && Fnv(tail[..size]) == Word(tail, h + 80) && crc32(tail[..size]) == Word(tail, h + 76)
    && crc32(tail[h..h + 92]) == Word(tail, h + 92)
  }

  lemma HeaderWord(tail: Octets, h: nat, at: nat)
    requires h + 96 <= |tail| && at + 4 <= 96
    ensures Word(tail[h..h + 96], at) == Word(tail, h + at)
  {
    hide Value;
    var header := tail[h..h + 96];
    assert header[at] == tail[h + at] && header[at + 1] == tail[h + at + 1];
    assert header[at + 2] == tail[h + at + 2] && header[at + 3] == tail[h + at + 3];
  }

  lemma OnesBetween(tail: Octets, a: nat, b: nat)
    requires a <= b <= |tail|
    ensures tail[a..b] == Filled(b - a) <==> OnesIn(tail, a, b)
  {
    var s := tail[a..b];
    FilledIsOnes(s);
    if AllOnes(s) {
      forall i | a <= i < b ensures tail[i] == 0xff { assert s[i - a] == 0xff; }
    }
    if forall i :: a <= i < b ==> tail[i] == 0xff {
      forall i | 0 <= i < |s| ensures s[i] == 0xff { assert tail[a + i] == 0xff; }
    }
  }

  lemma TailCases(crc32: Crc32, tail: Octets, apStart: int, size: nat)
    requires |tail| >= PAGE
    ensures var h := |tail| - PAGE; var header := tail[h..h + 96];
      CheckTail(crc32, tail, apStart) == Success(size) <==>
        && HasMagic(header[..6]) && 0 < size <= h && size % 32 == 0 && apStart + 8 <= size
        && Word(header, 84) == size == Word(header, 88)
        && tail[size..h] == Filled(h - size) && tail[h + 96..] == Filled(PAGE - 96)
        && Fnv(tail[..size]) == Word(header, 80) && crc32(tail[..size]) == Word(header, 76)
        && crc32(header[..92]) == Word(header, 92)
  {
    hide Fnv, Word, Filled;
  }

  /** The trailer check succeeds with a size exactly when the bytes are such an image. */
  lemma TailExactly(crc32: Crc32, tail: Octets, apStart: int, size: nat)
    ensures CheckTail(crc32, tail, apStart) == Success(size) <==> IsRbl(crc32, tail, apStart, size)
  {
    hide Fnv, Word, Filled, CheckTail, OnesIn, HasMagic;
    if |tail| < PAGE {
      ShortTail(crc32, tail, apStart);
    } else {
      var h := |tail| - PAGE;
      TailCases(crc32, tail, apStart, size);
      HeaderSame(tail, h);
      OnesBetween(tail, h + 96, |tail|);
      if size <= h { OnesBetween(tail, size, h); }
    }
  }

  lemma ShortTail(crc32: Crc32, tail: Octets, apStart: int)
    requires |tail| < PAGE
    ensures CheckTail(crc32, tail, apStart).Failure?
  {
  }

  /** The header is read in place. */
  lemma HeaderSame(tail: Octets, h: nat)
    requires h + 96 <= |tail|
    ensures var header := tail[h..h + 96];
      && header[..6] == tail[h..h + 6] && header[..92] == tail[h..h + 92] && tail[h + 96..|tail|] == tail[h + 96..]
      && Word(header, 76) == Word(tail, h + 76) && Word(header, 80) == Word(tail, h + 80)
      && Word(header, 84) == Word(tail, h + 84) && Word(header, 88) == Word(tail, h + 88) && Word(header, 92) == Word(tail, h + 92)
  {
    hide Word;
    HeaderWord(tail, h, 76);
    HeaderWord(tail, h, 80);
    HeaderWord(tail, h, 84);
    HeaderWord(tail, h, 88);
    HeaderWord(tail, h, 92);
  }

  // ---- partition tables ----

  /** This is the one entry of that name. */
  ghost predicate OnlyPart(sections: seq<Part>, name: Name, part: Part) {
    exists i :: 0 <= i < |sections| && sections[i] == part && part.name == name
      && forall j :: 0 <= j < |sections| && sections[j].name == name ==> j == i
  }

  lemma {:induction false} NoMatch(sections: seq<Part>, name: Name)
    ensures Matches(sections, name) == [] <==> forall j :: 0 <= j < |sections| ==> sections[j].name != name
    decreases |sections|
  {
    if sections != [] {
      NoMatch(sections[1..], name);
      var rest := sections[1..];
      assert forall j :: 0 <= j < |rest| ==> rest[j] == sections[j + 1];
      if forall j :: 0 <= j < |rest| ==> rest[j].name != name {
        forall j | 0 < j < |sections| ensures sections[j].name != name { assert rest[j - 1] == sections[j]; }
      }
    }
  }

  lemma {:induction false} OneMatch(sections: seq<Part>, name: Name, part: Part)
    ensures Matches(sections, name) == [part] <==> OnlyPart(sections, name, part)
    decreases |sections|
  {
    if sections != [] {
      var rest := sections[1..];
      assert forall j :: 0 <= j < |rest| ==> rest[j] == sections[j + 1];
      NoMatch(rest, name);
      OneMatch(rest, name, part);
      var more := Matches(rest, name);
      if sections[0].name == name {
        HeadMatches(sections, name, part);
        assert Matches(sections, name) == [sections[0]] + more;
        if more == [] { assert [sections[0]] + more == [sections[0]]; }
        if [sections[0]] + more == [part] { assert |more| == 0 && ([sections[0]] + more)[0] == part; }
      } else {
        TailMatches(sections, name, part);
        assert [] + more == more;
      }
    }
  }

  lemma HeadMatches(sections: seq<Part>, name: Name, part: Part)
    requires sections != [] && sections[0].name == name
    ensures OnlyPart(sections, name, part) <==>
      part == sections[0] && forall j :: 0 <= j < |sections[1..]| ==> sections[1..][j].name != name
  {
    var rest := sections[1..];
    if OnlyPart(sections, name, part) {
      var i :| 0 <= i < |sections| && sections[i] == part && forall j :: 0 <= j < |sections| && sections[j].name == name ==> j == i;
      assert i == 0;
      forall j | 0 <= j < |rest| ensures rest[j].name != name { assert rest[j] == sections[j + 1]; }
    }
    if part == sections[0] && forall j :: 0 <= j < |rest| ==> rest[j].name != name {
      assert forall j :: 0 < j < |sections| ==> sections[j] == rest[j - 1];
    }
  }

  lemma TailMatches(sections: seq<Part>, name: Name, part: Part)
    requires sections != [] && sections[0].name != name
    ensures OnlyPart(sections, name, part) <==> OnlyPart(sections[1..], name, part)
  {
    var rest := sections[1..];
    if OnlyPart(sections, name, part) {
      var i :| 0 <= i < |sections| && sections[i] == part && part.name == name
        && forall j :: 0 <= j < |sections| && sections[j].name == name ==> j == i;
      assert rest[i - 1] == part;
      forall j | 0 <= j < |rest| && rest[j].name == name ensures j == i - 1 { assert rest[j] == sections[j + 1]; }
    }
    if OnlyPart(rest, name, part) {
      var i :| 0 <= i < |rest| && rest[i] == part && forall j :: 0 <= j < |rest| && rest[j].name == name ==> j == i;
      assert sections[i + 1] == part;
      forall j | 0 <= j < |sections| && sections[j].name == name ensures j == i + 1 { assert j > 0 && rest[j - 1] == sections[j]; }
    }
  }

  /** An entry beside the code: a non-negative place and a size, and if it is none of the
      code partitions, not executable and behind them. */
  predicate PartOk(part: Part, end: nat) {
    && part.offset.Some? && part.size.Some? && part.offset.value >= 0 && part.size.value > 0
    && (part.name == Other ==> !part.execute && part.offset.value >= end)
  }

  lemma {:induction false} OthersExactly(sections: seq<Part>, end: nat)
    ensures OtherParts(sections, end).None? <==> forall i :: 0 <= i < |sections| ==> PartOk(sections[i], end)
    decreases |sections|
  {
    if sections != [] {
      var rest := sections[1..];
      OthersExactly(rest, end);
      if forall i :: 0 <= i < |rest| ==> PartOk(rest[i], end) {
        forall i | 0 < i < |sections| ensures PartOk(sections[i], end) { assert rest[i - 1] == sections[i]; }
      }
      assert forall i :: 0 <= i < |rest| ==> rest[i] == sections[i + 1];
    }
  }

  /** The one entry of this name is executable code from `start` to `end`, both at packet
      and, in plaintext, page boundaries. */
  ghost predicate CodePart(sections: seq<Part>, name: Name, start: nat, end: nat) {
    && OnlyPart(sections, name, Part(name, Some(start as int), Some(end - start), true)) && start < end
    && start % 34 == 0 && end % 34 == 0 && start / 34 * 32 % PAGE == 0 && end / 34 * 32 % PAGE == 0
  }

  /** Boot loader, CP and AP code in this order from zero on, filling the image; every
      other entry behind them. */
  ghost predicate IsLayout(sections: seq<Part>, imageSize: nat, cp: nat, ap: nat) {
    && CodePart(sections, Bootloader, 0, cp) && CodePart(sections, CpApp, cp, ap) && CodePart(sections, ApApp, ap, imageSize)
    && imageSize <= MAX_IMAGE
    && forall i :: 0 <= i < |sections| ==> PartOk(sections[i], imageSize)
  }

  function Ranges(cp: nat, ap: nat, size: nat): seq<Range> {
    [Range(0, cp / 34 * 32), Range(cp / 34 * 32, ap / 34 * 32), Range(ap / 34 * 32, size / 34 * 32)]
  }

  lemma CodeStep(sections: seq<Part>, names: seq<Name>, start: nat, next: nat)
    requires names != [] && start % 34 == 0 && CodePart(sections, names[0], start, next)
    ensures var rest := CodeRanges(sections, names[1..], next);
      CodeRanges(sections, names, start) == if rest.Failure? then Failure(rest.error)
        else Success(([Range(start / 34 * 32, next / 34 * 32)] + rest.value.0, rest.value.1))
  {
    hide Matches, OnlyPart;
    OneMatch(sections, names[0], Part(names[0], Some(start as int), Some(next - start), true));
  }

  lemma CodeStarts(sections: seq<Part>, names: seq<Name>, start: nat) returns (next: nat)
    requires names != [] && start % 34 == 0 && CodeRanges(sections, names, start).Success?
    ensures CodePart(sections, names[0], start, next)
  {
    hide OnlyPart, Matches;
    var part := Matches(sections, names[0])[0];
    next := start + part.size.value;
    MatchNamed(sections, names[0]);
    assert part == Part(names[0], Some(start as int), Some(next - start), true);
    assert Matches(sections, names[0]) == [part];
    OneMatch(sections, names[0], part);
  }

  lemma {:induction false} MatchNamed(sections: seq<Part>, name: Name)
    ensures forall i :: 0 <= i < |Matches(sections, name)| ==> Matches(sections, name)[i].name == name
    decreases |sections|
  {
    if sections != [] { MatchNamed(sections[1..], name); }
  }

  const CODE: seq<Name> := [Bootloader, CpApp, ApApp]

  lemma CodeTail()
    ensures CODE[0] == Bootloader && CODE[1..] == [CpApp, ApApp] && [CpApp, ApApp][1..] == [ApApp] && [ApApp][1..] == []
  {
  }

  lemma LayoutIf(sections: seq<Part>, size: nat, cp: nat, ap: nat)
    requires IsLayout(sections, size, cp, ap)
    ensures Layout(Table(sections), size) == Success(Ranges(cp, ap, size))
  {
    hide CodeRanges, OnlyPart, Matches, OtherParts, PartOk;
    CodeTail();
    CodeStep(sections, CODE, 0, cp);
    CodeStep(sections, [CpApp, ApApp], cp, ap);
    CodeStep(sections, [ApApp], ap, size);
    assert CodeRanges(sections, [], size) == Success(([], size)) by { NoCode(sections, size); }
    OthersExactly(sections, size);
    assert CODE == [Bootloader, CpApp, ApApp];
    var rs := Ranges(cp, ap, size);
    assert [rs[2]] + [] == [rs[2]] && [rs[1]] + [rs[2]] == [rs[1], rs[2]] && [rs[0]] + [rs[1], rs[2]] == rs;
  }

  lemma NoCode(sections: seq<Part>, end: nat)
    requires end % 34 == 0
    ensures CodeRanges(sections, [], end) == Success(([], end))
  {
  }

  lemma LayoutOnly(sections: seq<Part>, size: nat) returns (cp: nat, ap: nat)
    requires Layout(Table(sections), size).Success?
    ensures IsLayout(sections, size, cp, ap)
  {
    hide CodeRanges, OnlyPart, Matches, OtherParts, PartOk;
    CodeTail();
    assert CODE == [Bootloader, CpApp, ApApp];
    cp := CodeStarts(sections, CODE, 0);
    CodeStep(sections, CODE, 0, cp);
    ap := CodeStarts(sections, [CpApp, ApApp], cp);
    CodeStep(sections, [CpApp, ApApp], cp, ap);
    var end := CodeStarts(sections, [ApApp], ap);
    CodeStep(sections, [ApApp], ap, end);
    assert CodeRanges(sections, [], end) == Success(([], end)) by { NoCode(sections, end); }
    OthersExactly(sections, end);
  }

  /** Exactly such tables describe an image of this size. */
  lemma LayoutExactly(table: Table, size: nat)
    ensures Layout(table, size).Success? <==> table.Table? && exists cp, ap :: IsLayout(table.sections, size, cp, ap)
    ensures table.Table? ==> forall cp, ap :: IsLayout(table.sections, size, cp, ap) ==> Layout(table, size) == Success(Ranges(cp, ap, size))
  {
    hide IsLayout, Layout, Ranges;
    if Layout(table, size).Success? {
      assert table.Table? by { NotMalformed(table, size); }
      var cp, ap := LayoutOnly(table.sections, size);
    }
    if table.Table? {
      forall cp, ap | IsLayout(table.sections, size, cp, ap) ensures Layout(table, size) == Success(Ranges(cp, ap, size)) {
        LayoutIf(table.sections, size, cp, ap);
      }
    }
  }

  lemma NotMalformed(table: Table, size: nat)
    requires Layout(table, size).Success?
    ensures table.Table?
  {
  }

  // ---- recovery images ----

  /** The reset word is the odd (Thumb) address of code at an even offset of the flash
      window, seen through either of its two aliases. */
  predicate Resets(reset: nat, target: nat) {
    && target % 2 == 0 && Unaliased(0x200_0000 + target)
    && (reset == 0x200_0001 + target || reset == 0x1200_0001 + target)
  }

  /** An interrupt vector whose reset target lies between itself and `limit`. */
  ghost predicate IsVector(plain: Octets, at: nat, limit: nat)
    requires at + 8 <= |plain|
  {
    var stack, reset := Word(plain, at), Word(plain, at + 4);
    stack > 0 && stack % 8 == 0 && exists target :: at <= target < limit && Resets(reset, target)
  }

  predicate Unaliased(address: nat) { address / 0x1000_0000 % 2 == 0 }

  lemma AliasCleared(reset: nat)
    ensures var f := WithoutAlias(reset); f >= 0 && Unaliased(f) && (reset == f || reset == f + 0x1000_0000)
  {
  }

  lemma AliasOf(address: nat)
    requires Unaliased(address)
    ensures WithoutAlias(address) == WithoutAlias(address + 0x1000_0000) == address
  {
  }

  lemma NextUnaliased(address: nat)
    requires address % 2 == 0
    ensures Unaliased(address) <==> Unaliased(address + 1)
  {
  }

  lemma ResetExactly(reset: nat, target: int)
    ensures reset % 2 == 1 && target >= 0 && target == WithoutAlias(reset) - WithoutAlias(reset) % 2 - 0x200_0000 <==>
      target >= 0 && Resets(reset, target)
  {
    hide WithoutAlias, Unaliased;
    AliasCleared(reset);
    if target >= 0 && target % 2 == 0 {
      NextUnaliased(0x200_0000 + target);
      if Unaliased(0x200_0001 + target) { AliasOf(0x200_0001 + target); }
    }
  }

  lemma VectorExactly(plain: Octets, range: Range, limit: nat)
    requires range.start + 8 <= |plain|
    ensures VectorOk(plain, range, limit) <==> IsVector(plain, range.start, limit)
  {
    hide Word, WithoutAlias, Resets;
    var reset := Word(plain, range.start + 4);
    var flash := WithoutAlias(reset);
    var target := flash - flash % 2 - 0x200_0000;
    ResetExactly(reset, target);
    if t :| range.start <= t < limit && Resets(reset, t) { ResetExactly(reset, t); }
  }

  lemma CheckRblExactly(crc32: Crc32, plain: Octets, start: nat, apStart: int, size: nat)
    ensures CheckRbl(crc32, plain, start, apStart) == Success(start + size) <==>
      |plain| >= PAGE + start && IsRbl(crc32, plain[start..], apStart - start, size)
  {
    hide CheckTail, IsRbl;
    if |plain| >= PAGE + start { TailExactly(crc32, plain[start..], apStart - start, size); }
  }

  /** A recovery image: a table that describes it, valid packets, and in the plaintext the
      boot ROM marker, an RBL image from the CP code on and three interrupt vectors that
      point into their own code. */
  ghost predicate IsRecovery(crc32: Crc32, source: Octets, sections: seq<Part>, cp: nat, ap: nat, payload: nat) {
    && IsLayout(sections, |source|, cp, ap) && Packets(source) && Unpack(source).Success?
    && var p, rs := Unpack(source).value, Ranges(cp, ap, |source|);
    && 0x106 <= |p| && p[0x100..0x106] == [0x42, 0x4b, 0x37, 0x32, 0x33, 0x36]
    && |p| >= PAGE + rs[1].start && IsRbl(crc32, p[rs[1].start..], rs[2].start - rs[1].start, payload)
    && 8 <= |p| && rs[2].start + 8 <= |p|
    && IsVector(p, rs[0].start, rs[0].end)
    && IsVector(p, rs[1].start, Min(rs[1].end, rs[1].start + payload))
    && IsVector(p, rs[2].start, Min(rs[2].end, rs[1].start + payload))
  }

  lemma RecoveryIf(crc32: Crc32, source: Octets, sections: seq<Part>, cp: nat, ap: nat, payload: nat)
    requires IsRecovery(crc32, source, sections, cp, ap, payload)
    ensures ValidateRecovery(crc32, source, Table(sections)) == Success(Recovery(Unpack(source).value, Ranges(cp, ap, |source|)))
  {
    hide IsLayout, Layout, Unpack, Packets, IsRbl, CheckRbl, VectorOk, IsVector;
    LayoutIf(sections, |source|, cp, ap);
    var p, rs := Unpack(source).value, Ranges(cp, ap, |source|);
    CheckRblExactly(crc32, p, rs[1].start, rs[2].start, payload);
    VectorExactly(p, rs[0], rs[0].end);
    VectorExactly(p, rs[1], Min(rs[1].end, rs[1].start + payload));
    VectorExactly(p, rs[2], Min(rs[2].end, rs[1].start + payload));
  }

  lemma RecoveryOnly(crc32: Crc32, source: Octets, table: Table) returns (cp: nat, ap: nat, payload: nat)
    requires ValidateRecovery(crc32, source, table).Success?
    ensures table.Table? && IsRecovery(crc32, source, table.sections, cp, ap, payload)
  {
    hide IsLayout, Layout, Unpack, Packets, IsRbl, CheckRbl, VectorOk, IsVector, Chain;
    NotMalformed(table, |source|);
    cp, ap := LayoutOnly(table.sections, |source|);
    LayoutIf(table.sections, |source|, cp, ap);
    UnpacksExactly(source);
    var p, rs := Unpack(source).value, Ranges(cp, ap, |source|);
    ChainBounds(rs, |p|);
    var end := CheckRbl(crc32, p, rs[1].start, rs[2].start);
    RblBehind(crc32, p, rs[1].start, rs[2].start);
    payload := end.value - rs[1].start;
    CheckRblExactly(crc32, p, rs[1].start, rs[2].start, payload);
    VectorExactly(p, rs[0], rs[0].end);
    VectorExactly(p, rs[1], Min(rs[1].end, rs[1].start + payload));
    VectorExactly(p, rs[2], Min(rs[2].end, rs[1].start + payload));
  }

  lemma RblBehind(crc32: Crc32, plain: Octets, start: nat, apStart: int)
    requires CheckRbl(crc32, plain, start, apStart).Success?
    ensures CheckRbl(crc32, plain, start, apStart).value > start && |plain| >= PAGE + start
  {
    hide CheckTail;
  }

  /** Exactly recovery images validate, and so, with a 32-byte key, are transformed. */
  lemma RecoveryAccepted(aes: Aes, crc32: Crc32, source: Octets, table: Table, key: Octets)
    ensures EncryptRecovery(aes, crc32, source, table, key).Success? <==>
      |key| == 32 && table.Table? && exists cp, ap, payload :: IsRecovery(crc32, source, table.sections, cp, ap, payload)
  {
    hide EncryptRecovery, ValidateRecovery, IsRecovery, Permutation;
    RecoverySucceedsIff(aes, crc32, source, table, key);
    if ValidateRecovery(crc32, source, table).Success? {
      var cp, ap, payload := RecoveryOnly(crc32, source, table);
    }
    if table.Table? {
      if cp, ap, payload :| IsRecovery(crc32, source, table.sections, cp, ap, payload) {
        RecoveryIf(crc32, source, table.sections, cp, ap, payload);
      }
    }
  }

  // ---- App images ----

  /** An entry that is no App code and keeps clear of it. */
  predicate ClearOf(part: Part, start: nat, end: nat) {
    part.name == CpApp || part.name == ApApp ||
    (&& part.offset.Some? && part.size.Some? && part.offset.value >= 0 && part.size.value > 0
     && (part.offset.value >= end || part.offset.value + part.size.value <= start))
  }

  lemma {:induction false} AppOthersExactly(sections: seq<Part>, start: nat, end: nat)
    ensures AppOthers(sections, start, end).None? <==> forall i :: 0 <= i < |sections| ==> ClearOf(sections[i], start, end)
    decreases |sections|
  {
    if sections != [] {
      var rest := sections[1..];
      AppOthersExactly(rest, start, end);
      if forall i :: 0 <= i < |rest| ==> ClearOf(rest[i], start, end) {
        forall i | 0 < i < |sections| ensures ClearOf(sections[i], start, end) { assert rest[i - 1] == sections[i]; }
      }
      assert forall i :: 0 <= i < |rest| ==> rest[i] == sections[i + 1];
    }
  }

  lemma AppRangeExactly(sections: seq<Part>, name: Name, start: nat, end: nat)
    ensures AppRangeOf(sections, name) == Success(Range(start, end)) <==> CodePart(sections, name, start, end) && end <= MAX_IMAGE
  {
    hide OnlyPart, Matches;
    MatchNamed(sections, name);
    OneMatch(sections, name, Part(name, Some(start as int), Some(end - start), true));
    var found := Matches(sections, name);
    if |found| == 1 { assert found == [found[0]]; }
  }

  /** A vector with a stack in the RAM, whose reset target lies between itself and `limit`
      of the code that starts at the flash offset `base`. */
  ghost predicate IsAppVector(plain: Octets, at: nat, limit: int, base: nat)
    requires at + 8 <= |plain|
  {
    var stack, reset := Word(plain, at), Word(plain, at + 4);
    && stack % 8 == 0 && 0x2800_0000 <= stack <= 0x280a_0000
    && exists target :: at <= target < limit && AppResets(reset, base, target)
  }

  predicate AppResets(reset: nat, base: nat, target: nat) {
    (base + target) % 2 == 0 && reset == 0x200_0001 + base + target
  }

  lemma AppVectorExactly(plain: Octets, at: nat, limit: nat, base: nat)
    requires at + 8 <= |plain|
    ensures AppVectorOk(plain, at, limit, base) <==> IsAppVector(plain, at, limit, base)
  {
    hide Word;
    var reset := Word(plain, at + 4);
    if AppVectorOk(plain, at, limit, base) {
      assert AppResets(reset, base, reset - 1 - 0x200_0000 - base);
    }
  }

  /** An App image: CP and AP code side by side and clear of everything else, whole valid
      packets that fit, an RBL image, and two interrupt vectors that point into it. */
  ghost predicate IsApp(crc32: Crc32, source: Octets, sections: seq<Part>, cp: nat, ap: nat, end: nat, payload: nat) {
    && CodePart(sections, CpApp, cp, ap) && CodePart(sections, ApApp, ap, end) && 0 < cp && end <= MAX_IMAGE
    && (forall i :: 0 <= i < |sections| ==> ClearOf(sections[i], cp, end))
    && 0 < |source| <= end - cp && Packets(source) && Unpack(source).Success?
    && var p, apOffset := Unpack(source).value, Logical(ap) - Logical(cp);
    && |p| >= PAGE && IsRbl(crc32, p, apOffset, payload) && 0 <= apOffset && apOffset + 8 <= |p|
    && IsAppVector(p, 0, Min(apOffset, payload), Logical(cp)) && IsAppVector(p, apOffset, payload, Logical(cp))
  }

  lemma WindowExactly(crc32: Crc32, source: Octets, sections: seq<Part>, cp: Range, ap: Range, payload: nat)
    requires CodePart(sections, CpApp, cp.start, cp.end) && cp.end <= MAX_IMAGE
    requires CodePart(sections, ApApp, ap.start, ap.end) && ap.end <= MAX_IMAGE
    ensures IsApp(crc32, source, sections, cp.start, ap.start, ap.end, payload) && cp.end == ap.start ==>
      ValidateWindow(crc32, source, sections, cp, ap).Success?
  {
    hide CheckTail, Unpack, AppVectorOk, IsAppVector, OnlyPart, IsRbl, CheckRbl, ClearOf, AppOthers, Packets;
    if IsApp(crc32, source, sections, cp.start, ap.start, ap.end, payload) && cp.end == ap.start {
      AppOthersExactly(sections, cp.start, ap.end);
      WholePackets(source);
      LogicalFacts(cp.start, ap.start);
      var p, apOffset := Unpack(source).value, Logical(ap.start) - Logical(cp.start);
      assert p[0..] == p;
      CheckRblExactly(crc32, p, 0, apOffset, payload);
      AppVectorExactly(p, 0, Min(apOffset, payload), Logical(cp.start));
      AppVectorExactly(p, apOffset, payload, Logical(cp.start));
    }
  }

  lemma WholePackets(source: Octets)
    requires Packets(source)
    ensures |source| % 34 == 0
  {
  }

  lemma WindowOnly(crc32: Crc32, source: Octets, sections: seq<Part>, cp: Range, ap: Range) returns (payload: nat)
    requires CodePart(sections, CpApp, cp.start, cp.end) && cp.end <= MAX_IMAGE
    requires CodePart(sections, ApApp, ap.start, ap.end) && ap.end <= MAX_IMAGE
    requires ValidateWindow(crc32, source, sections, cp, ap).Success?
    ensures cp.end == ap.start && IsApp(crc32, source, sections, cp.start, ap.start, ap.end, payload)
  {
    hide CheckTail, Unpack, AppVectorOk, IsAppVector, OnlyPart, IsRbl, CheckRbl, ClearOf, AppOthers, Packets;
    AppOthersExactly(sections, cp.start, ap.end);
    UnpacksExactly(source);
    LogicalFacts(cp.start, ap.start);
    var p, apOffset := Unpack(source).value, Logical(ap.start) - Logical(cp.start);
    assert p[0..] == p;
    RblBehind(crc32, p, 0, apOffset);
    payload := CheckRbl(crc32, p, 0, apOffset).value;
    CheckRblExactly(crc32, p, 0, apOffset, payload);
    AppVectorExactly(p, 0, Min(apOffset, payload), Logical(cp.start));
    AppVectorExactly(p, apOffset, payload, Logical(cp.start));
  }

  /** Exactly App images validate. */
  lemma AppAccepted(crc32: Crc32, source: Octets, table: Table)
    ensures ValidateApp(crc32, source, table).Success? <==>
      table.Table? && exists cp, ap, end, payload :: IsApp(crc32, source, table.sections, cp, ap, end, payload)
  {
    hide ValidateWindow, IsApp, CodePart, AppRangeOf;
    if ValidateApp(crc32, source, table).Success? {
      var cp, ap := AppRangeOf(table.sections, CpApp).value, AppRangeOf(table.sections, ApApp).value;
      AppRangeExactly(table.sections, CpApp, cp.start, cp.end);
      AppRangeExactly(table.sections, ApApp, ap.start, ap.end);
      var payload := WindowOnly(crc32, source, table.sections, cp, ap);
    }
    if table.Table? {
      if cp, ap, end, payload :| IsApp(crc32, source, table.sections, cp, ap, end, payload) {
        AppParts(crc32, source, table.sections, cp, ap, end, payload);
        AppRangeExactly(table.sections, CpApp, cp, ap);
        AppRangeExactly(table.sections, ApApp, ap, end);
        WindowExactly(crc32, source, table.sections, Range(cp, ap), Range(ap, end), payload);
      }
    }
  }

  lemma AppParts(crc32: Crc32, source: Octets, sections: seq<Part>, cp: nat, ap: nat, end: nat, payload: nat)
    requires IsApp(crc32, source, sections, cp, ap, end, payload)
    ensures CodePart(sections, CpApp, cp, ap) && CodePart(sections, ApApp, ap, end) && ap <= MAX_IMAGE && end <= MAX_IMAGE
  {
    hide OnlyPart, IsRbl, Unpack, ClearOf, IsAppVector, Packets;
  }
}
