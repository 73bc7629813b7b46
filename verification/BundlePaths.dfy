/** The small functions of the archive reader said without their recursion: safe relative
    paths, the byte order of names, hexadecimal checksums, padding and parents. */
module BundlePaths {
  import opened Bytes
  import opened BundleTar
  import opened Optional

  // ---- safe paths ----

  /** Components with a slash between each two of them. */
  function Joined(cs: seq<Path>): Path
    decreases |cs|
  {
    if cs == [] then [] else if |cs| == 1 then cs[0] else cs[0] + [SLASH] + Joined(cs[1..])
  }

  /** A name that is a component: not empty, not "." or "..", without slash, colon or backslash. */
  predicate IsComponent(c: Path) {
    c != [] && c != [46] && c != [46, 46] && SLASH !in c && 58 !in c && 92 !in c
  }

  ghost predicate IsSafe(path: Path) {
    exists cs: seq<Path> :: cs != [] && path == Joined(cs) && forall i :: 0 <= i < |cs| ==> IsComponent(cs[i])
  }

  lemma {:induction false} SlashFound(path: Path, k: nat)
    requires k <= |path| && SLASH !in path[..k] && (k < |path| ==> path[k] == SLASH)
    ensures FirstSlash(path) == k
    decreases k
  {
    if k > 0 {
      assert path[0] in path[..k] && path[1..][..k - 1] == path[..k][1..];
      SlashFound(path[1..], k - 1);
    }
  }

  lemma {:induction false} BeforeSlash(path: Path)
    ensures SLASH !in path[..FirstSlash(path)] && (FirstSlash(path) < |path| ==> path[FirstSlash(path)] == SLASH)
    decreases |path|
  {
    if path != [] && path[0] != SLASH {
      BeforeSlash(path[1..]);
      var k := FirstSlash(path[1..]);
      assert path[..k + 1] == [path[0]] + path[1..][..k];
    }
  }

  lemma {:induction false} SafeIsJoined(path: Path) returns (cs: seq<Path>)
    requires SafeRelative(path)
    ensures cs != [] && path == Joined(cs) && forall i :: 0 <= i < |cs| ==> IsComponent(cs[i])
    decreases |path|
  {
    BeforeSlash(path);
    var k := FirstSlash(path);
    if k == |path| {
      cs := [path];
      assert path[..k] == path;
    } else {
      var rest := SafeIsJoined(path[k + 1..]);
      cs := [path[..k]] + rest;
      assert cs[1..] == rest && path == path[..k] + [SLASH] + path[k + 1..];
    }
  }

  lemma {:induction false} JoinedIsSafe(cs: seq<Path>)
    requires cs != [] && forall i :: 0 <= i < |cs| ==> IsComponent(cs[i])
    ensures SafeRelative(Joined(cs))
    decreases |cs|
  {
    var path, k := Joined(cs), |cs[0]|;
    if |cs| == 1 {
      assert path[..k] == path;
      SlashFound(path, k);
    } else {
      assert path[..k] == cs[0] && path[k] == SLASH && path[k + 1..] == Joined(cs[1..]);
      SlashFound(path, k);
      JoinedIsSafe(cs[1..]);
    }
  }

  /** A path is safe exactly when it is a list of components joined by slashes; so it has no
      empty component, no "." or ".." and does not start or end with a slash. */
  lemma SafeExactly(path: Path)
    ensures SafeRelative(path) <==> IsSafe(path)
  {
    hide SafeRelative, SafeComponent;
    if SafeRelative(path) { var cs := SafeIsJoined(path); }
    if cs: seq<Path> :| cs != [] && path == Joined(cs) && forall i :: 0 <= i < |cs| ==> IsComponent(cs[i]) { JoinedIsSafe(cs); }
  }

  // ---- the order of names ----

  /** At the first difference `a` has the smaller byte, or has ended. */
  ghost predicate Differs(a: Path, b: Path, k: nat) {
    && k <= |a| && k < |b| && a[..k] == b[..k]
    && (k == |a| || a[k] < b[k])
  }

  lemma SameFirst(a: Path, b: Path, k: nat)
    ensures Differs(a, b, k) && k > 0 ==> |a| > 0 && |b| > 0 && a[0] == b[0]
  {
    if Differs(a, b, k) && k > 0 { assert a[0] == a[..k][0] && b[0] == b[..k][0]; }
  }

  lemma {:induction false} BeforeExactly(a: Path, b: Path)
    ensures Before(a, b) <==> exists k: nat :: Differs(a, b, k)
    decreases |a|
  {
    if |b| > 0 && |a| > 0 && a[0] == b[0] {
      BeforeExactly(a[1..], b[1..]);
      if k: nat :| Differs(a[1..], b[1..], k) {
        assert a[..k + 1] == [a[0]] + a[1..][..k] && b[..k + 1] == [b[0]] + b[1..][..k];
        assert Differs(a, b, k + 1);
      }
      if k: nat :| Differs(a, b, k) {
        assert k > 0;
        assert a[1..][..k - 1] == a[..k][1..] && b[1..][..k - 1] == b[..k][1..];
        assert Differs(a[1..], b[1..], k - 1);
      }
    } else {
      if Before(a, b) { assert Differs(a, b, 0); }
      if k: nat :| Differs(a, b, k) { SameFirst(a, b, k); }
    }
  }

  /** Of two names exactly one comes first, unless they are equal. */
  lemma {:induction false} OneFirst(a: Path, b: Path)
    ensures Before(a, b) || Before(b, a) <==> a != b
    ensures !(Before(a, b) && Before(b, a))
    decreases |a|
  {
    if |a| > 0 && |b| > 0 && a[0] == b[0] {
      OneFirst(a[1..], b[1..]);
      assert a == [a[0]] + a[1..] && b == [b[0]] + b[1..];
    }
  }

  // ---- checksums in hexadecimal ----

  /** The digit of a value below 16, in lower or upper case. */
  function HexDigit(n: nat, upper: bool): byte
    requires n < 16
  {
    if n < 10 then 48 + n else if upper then 65 + n - 10 else 97 + n - 10
  }

  /** The digit is that of the value, in either case. */
  predicate IsDigit(ch: byte, n: nat)
    requires n < 16
  {
    ch == HexDigit(n, false) || ch == HexDigit(n, true)
  }

  function Power16(digits: nat): (p: nat)
    ensures p > 0
  {
    if digits == 0 then 1 else 16 * Power16(digits - 1)
  }

  /** The digit of `n` that counts 16 to the power `i`. */
  function DigitOf(n: nat, i: nat): nat { n / Power16(i) % 16 }

  /** The text is `n` in hexadecimal, padded with zeros; upper and lower case may mix. */
  ghost predicate Spells(text: seq<byte>, n: nat) {
    n < Power16(|text|) && forall i :: 0 <= i < |text| ==> IsDigit(text[i], DigitOf(n, |text| - 1 - i))
  }

  lemma DigitRead(ch: byte, n: nat)
    requires n < 16
    ensures HexNibble(ch) == Some(n) <==> IsDigit(ch, n)
  {
  }

  lemma NibbleBelow(ch: byte)
    ensures HexNibble(ch).Some? ==> HexNibble(ch).value < 16
  {
  }

  lemma DivideTwice(n: nat, p: nat)
    requires p > 0
    ensures n / (16 * p) == n / 16 / p
  {
    var q, r := n / 16 / p, n / 16 % p;
    assert n / 16 == q * p + r;
    assert n == (16 * p) * q + (16 * r + n % 16);
    QuotientIs(n, 16 * p, q, 16 * r + n % 16);
  }

  lemma QuotientIs(n: nat, d: nat, q: nat, r: nat)
    requires d > 0 && n == d * q + r && r < d
    ensures n / d == q
  {
    var x := n / d;
    assert n == d * x + n % d;
    if x < q { TimesGrows(d, x + 1, q); }
    if q < x { TimesGrows(d, q + 1, x); }
  }

  lemma TimesGrows(d: nat, a: nat, b: nat)
    requires a <= b
    ensures d * a <= d * b
  {
  }

  lemma DigitsShift(n: nat, i: nat)
    ensures DigitOf(n, i + 1) == DigitOf(n / 16, i)
  {
    DivideTwice(n, Power16(i));
  }

  lemma SpellsFirst(text: seq<byte>, n: nat)
    requires text != []
    ensures Spells(text, n) <==> Spells(text[..|text| - 1], n / 16) && IsDigit(text[|text| - 1], n % 16)
  {
    hide IsDigit, DigitOf;
    var k := |text| - 1;
    var front := text[..k];
    assert DigitOf(n, 0) == n % 16 by { OnesDigit(n); }
    forall i | 0 <= i < k ensures front[i] == text[i] && DigitOf(n, k - i) == DigitOf(n / 16, k - 1 - i) {
      DigitsShift(n, k - 1 - i);
    }
  }

  lemma OnesDigit(n: nat)
    ensures DigitOf(n, 0) == n % 16
  {
  }

  /** A text is read as a number exactly if it spells it. */
  lemma {:induction false} HexExactly(text: seq<byte>, n: nat)
    ensures HexValue(text) == Some(n) <==> Spells(text, n)
    decreases |text|
  {
    hide Spells, IsDigit, HexNibble;
    if text == [] {
      NothingSpelled(n);
    } else {
      var front, last := text[..|text| - 1], text[|text| - 1];
      SpellsFirst(text, n);
      HexExactly(front, n / 16);
      DigitRead(last, n % 16);
      NibbleBelow(last);
    }
  }

  lemma NothingSpelled(n: nat)
    ensures Spells([], n) <==> n == 0
  {
  }

  /** A checksum is read exactly if it is the eight digits of a number below 2^32. */
  lemma CrcExactly(text: seq<byte>, n: nat)
    ensures ParseCrc(text) == Some(n) <==> |text| == 8 && Spells(text, n)
    ensures Power16(8) == 0x1_0000_0000
  {
    HexExactly(text, n);
    assert Power16(2) == 256 && Power16(4) == 0x1_0000;
    assert Power16(6) == 0x100_0000;
  }

  // ---- padding and parents ----

  /** Padding is the least that fills the last block. */
  lemma PaddingFills(size: nat)
    ensures (size + Padding(size)) % BLOCK == 0 && Padding(size) < BLOCK
  {
  }

  /** The parent is everything before the last slash; without one there is none. */
  lemma {:induction false} ParentExactly(path: Path)
    ensures if SLASH in path
      then |Parent(path)| < |path| && Parent(path) == path[..|Parent(path)|]
        && path[|Parent(path)|] == SLASH && SLASH !in path[|Parent(path)| + 1..]
      else Parent(path) == []
    decreases |path|
  {
    if path != [] && path[|path| - 1] != SLASH {
      var front := path[..|path| - 1];
      ParentExactly(front);
      assert path == front + [path[|path| - 1]];
      if SLASH in front {
        var n := |Parent(front)|;
        assert path[n + 1..] == front[n + 1..] + [path[|path| - 1]] && path[..n] == front[..n];
      }
    }
  }
}
