/** The format-2 data install: which streams are accepted when the file system refuses no
    call. */
module BundleVerified {
  import opened Bytes
  import opened BundleTar
  import opened BundleFeed
  import opened BundleGrammar
  import opened BundleTurn
  import opened BundleData
  import opened BundleReach
  import opened Optional
  import A = BundleAdmit
  import BundleManifest
  import BundleOta
  import V = BundleVouch

  /** What the digest sees of an archive: of each entry its name, NUL, contents, NUL. */
  ghost function Canonical(es: seq<Located>, archive: seq<byte>): seq<byte> {
    if es == [] then [] else
    var l := es[|es| - 1];
    var contents := if BundleOta.Within(l, archive) then BundleOta.Contents(l, archive) else [];
    Canonical(es[..|es| - 1], archive) + (l.entry.path + [0] + contents + [0])
  }

  // ---- one entry ----

  /** What the install asks of the entry after `es`. */
  ghost predicate Next(root: Path, es: seq<Located>, e: Entry) {
    && Fits(root, e) && Before(LastPath(es), e.path)
    && TotalSize(es, IsPixa(e.path)) + e.size <= UINT64_MAX
  }

  /** The digest's counters follow the entries. */
  ghost predicate Follows(s: Tar) {
    && s.digest.lastPath == LastPath(s.past.entries)
    && s.digest.dataBytes == TotalSize(s.past.entries, false) && s.digest.pixaBytes == TotalSize(s.past.entries, true)
  }

  lemma DigestExactly(s: Tar, e: Entry)
    requires Follows(s)
    ensures var r := StartDigest(Opened(s, e), e);
      && (r.code == Ok <==> Before(LastPath(s.past.entries), e.path) && TotalSize(s.past.entries, IsPixa(e.path)) + e.size <= UINT64_MAX)
      && (r.code == Ok ==> Follows(r.tar))
  {
    hide Before, HasSuffix;
    var all := Opened(s, e).past.entries;
    assert all[..|all| - 1] == s.past.entries;
  }

  lemma DigestShape(s: Tar, e: Entry)
    ensures var t := StartDigest(s, e).tar;
      && t == s.(digest := t.digest, cur := s.cur.(hashing := t.cur.hashing))
  {
    hide Before, HasSuffix;
  }

  lemma EntryExactly(env: Env, root: Path, ck: Path, s: Tar, e: Entry, contents: seq<byte>)
    requires Accepting(env) && Follows(s) && s.ota.checksumSeen && s.ota.installNeeded && s.pos.phase == InHeader
    requires |contents| == e.size && (e.kind == Dir ==> e.size == 0)
    ensures TakeEntry(env, DataOptions(root, ck), s, e, contents).code == Ok <==> Next(root, s.past.entries, e)
  {
    hide TakeContents, StartDigest, StartData, StartApp, Before, TotalSize, LastPath, HasSuffix, SafeRelative;
    var o := DataOptions(root, ck);
    var start := StartEntry(env, o, s, e);
    if start.code != Ok { StaysRefused(env, o, start, e, contents); }
    if DATA_PREFIX <= e.path && e.kind == File {
      BundleOta.PathsDiffer(e);
      DigestExactly(s, e);
      DigestShape(Opened(s, e), e);
      var d := StartDigest(Opened(s, e), e);
      if d.code == Ok {
        A.DataEntry(env, o, d.tar, e, contents);
        NotNothing(e.path[|DATA_PREFIX|..]);
      }
    }
  }

  lemma NotNothing(p: Path)
    ensures SafeRelative(p) ==> p != []
  {
  }

  lemma EntryFollows(env: Env, root: Path, ck: Path, s: Tar, e: Entry, contents: seq<byte>)
    requires Accepting(env) && Follows(s) && s.ota.checksumSeen && s.ota.installNeeded && s.pos.phase == InHeader
    requires |contents| == e.size && Next(root, s.past.entries, e)
    requires TakeEntry(env, DataOptions(root, ck), s, e, contents).code == Ok
    ensures Follows(TakeEntry(env, DataOptions(root, ck), s, e, contents).tar)
  {
    hide StartDigest, StartData, StartApp, FinishFile, SinkCode, Before, TotalSize, LastPath, HasSuffix, Placeable;
    var o := DataOptions(root, ck);
    BundleOta.PathsDiffer(e);
    DigestExactly(s, e);
    DigestShape(Opened(s, e), e);
    var d := StartDigest(Opened(s, e), e).tar;
    StartDataTaken(env, root, ck, d, e);
    EntryEntered(env, o, s, e);
    var t := StartEntry(env, o, s, e).tar;
    SameCounters(t.digest, d.digest);
    if e.size > 0 {
      var x := Absorb(t, contents);
      assert x.digest.(input := []) == t.digest.(input := []) by { AbsorbCounters(t, contents); }
      FinishDigest(env, o, x);
      SameCounters(FinishFile(env, o, x).tar.digest, d.digest);
    }
    assert TakeEntry(env, o, s, e, contents).tar.past.entries == d.past.entries by {
      TakePosition(env, o, s, e, contents);
    }
  }

  lemma SameCounters(a: Digest, b: Digest)
    requires a.(input := []) == b.(input := [])
    ensures a.lastPath == b.lastPath && a.dataBytes == b.dataBytes && a.pixaBytes == b.pixaBytes
  {
    assert a.(input := []).lastPath == a.lastPath && b.(input := []).lastPath == b.lastPath;
    assert a.(input := []).dataBytes == a.dataBytes && b.(input := []).dataBytes == b.dataBytes;
    assert a.(input := []).pixaBytes == a.pixaBytes && b.(input := []).pixaBytes == b.pixaBytes;
  }

  lemma AbsorbCounters(s: Tar, bytes: seq<byte>)
    requires |bytes| <= s.pos.remaining
    ensures Absorb(s, bytes).digest.(input := []) == s.digest.(input := [])
  {
    hide SinkOf;
  }

  // ---- all entries ----

  ghost predicate Underway(env: Env, root: Path, ck: Path, m: DataManifest, s: Tar) {
    && Between(s) && Follows(s)
    && ModeInv(root, ck, false, m, s) && RunInv(root, ck, false, s) && V.VouchInv(env, root, s)
  }

  lemma {:induction false} FoldUnderway(env: Env, root: Path, ck: Path, m: DataManifest, s: Tar, bytes: seq<byte>)
    requires Underway(env, root, ck, m, s) && Fold(env, DataOptions(root, ck), s, bytes).code == Ok
    ensures var t := Fold(env, DataOptions(root, ck), s, bytes).tar;
      ModeInv(root, ck, false, m, t) && RunInv(root, ck, false, t) && V.VouchInv(env, root, t)
  {
    hide Fold, ModeInv, RunInv, V.VouchInv, WellFormed, Follows;
    FoldLogged(env, root, ck, false, m, s, bytes);
    V.FoldVouches(env, root, ck, m, s, bytes);
  }

  lemma ZeroUnderway(env: Env, root: Path, ck: Path, m: DataManifest, s: Tar, archive: seq<byte>, at: nat)
    requires Underway(env, root, ck, m, s) && s.pos.zeroBlocks < 2 && at + BLOCK <= |archive|
    requires ParseHeader(env, archive[at..at + BLOCK]).ZeroBlock?
    ensures Underway(env, root, ck, m, Zeroed(s, archive[at..at + BLOCK]))
  {
    hide Fold, ParseHeader, WellFormed, ModeInv, RunInv, V.VouchInv, TotalSize, LastPath;
    var block := archive[at..at + BLOCK];
    ZeroFold(env, DataOptions(root, ck), s, archive, at);
    ZeroIsFold(env, DataOptions(root, ck), s, block);
    FoldUnderway(env, root, ck, m, s, block);
  }

  /** An entry in its place, with zeros behind it. */
  ghost predicate InPlace(root: Path, archive: seq<byte>, es: seq<Located>, i: nat)
    requires i < |es|
  {
    Next(root, es[..i], es[i].entry) && ZeroPadded(archive, es[i])
  }

  lemma TurnExactly(env: Env, root: Path, ck: Path, m: DataManifest, s: Tar, archive: seq<byte>, at: nat, e: Entry)
    requires Accepting(env) && Underway(env, root, ck, m, s) && s.pos.zeroBlocks < 2
    requires After(at, e) <= |archive| && ParseHeader(env, archive[at..at + BLOCK]) == Header(e)
    ensures var r := TurnAt(env, DataOptions(root, ck), s, archive, at, e);
      && (r.code == Ok <==> Next(root, s.past.entries, e) && ZeroPadded(archive, Located(e, at + BLOCK)))
      && (r.code == Ok ==> Underway(env, root, ck, m, r.tar))
  {
    hide TakeEntry, Fold, ParseHeader, WellFormed, RunInv, LogShape, Opens, V.VouchInv, TotalSize, LastPath, Next;
    var o := DataOptions(root, ck);
    var h, contents := Heading(s, archive[at..at + BLOCK]), archive[at + BLOCK..at + BLOCK + e.size];
    var padding := archive[at + BLOCK + e.size..After(at, e)];
    assert e.kind == Dir ==> e.size == 0 by { ParsedDirectory(env, archive[at..at + BLOCK]); }
    EntryExactly(env, root, ck, h, e, contents);
    PaddingSlice(archive, Located(e, at + BLOCK), padding);
    TurnFold(env, o, s, archive, at, e);
    TurnIsFold(env, o, s, archive, at, e);
    var r := TurnAt(env, o, s, archive, at, e);
    if r.code == Ok {
      FoldUnderway(env, root, ck, m, s, archive[at..After(at, e)]);
      EntryFollows(env, root, ck, h, e, contents);
    }
  }

  lemma PaddingSlice(archive: seq<byte>, l: Located, padding: seq<byte>)
    requires l.at + l.entry.size + Padding(l.entry.size) <= |archive|
    requires padding == archive[l.at + l.entry.size..l.at + l.entry.size + Padding(l.entry.size)]
    ensures AllZero(padding) <==> ZeroPadded(archive, l)
  {
    hide Padding;
    var from := l.at + l.entry.size;
    if AllZero(padding) {
      forall p | from <= p < from + Padding(l.entry.size) ensures archive[p] == 0 { assert padding[p - from] == 0; }
    }
    if ZeroPadded(archive, l) {
      forall i | 0 <= i < |padding| ensures padding[i] == 0 { assert archive[from + i] == 0; }
    }
  }

  ghost predicate AllInPlace(root: Path, archive: seq<byte>, es: seq<Located>, from: nat) {
    forall i :: from <= i < |es| ==> InPlace(root, archive, es, i)
  }

  lemma {:induction false} DataTaken(env: Env, root: Path, ck: Path, m: DataManifest, s: Tar, archive: seq<byte>, at: nat, es: seq<Located>)
    requires Accepting(env) && Underway(env, root, ck, m, s) && at <= |archive| && |s.past.stream| == at
    requires Closed(env, archive, at, s.pos.zeroBlocks, true)
    requires es == s.past.entries + Scan(env, archive, at, s.pos.zeroBlocks)
    ensures AllTaken(env, DataOptions(root, ck), s, archive, at) <==> AllInPlace(root, archive, es, |s.past.entries|)
    ensures var t := EndState(env, DataOptions(root, ck), s, archive, at);
      AllTaken(env, DataOptions(root, ck), s, archive, at) ==> Underway(env, root, ck, m, t) && t.past.entries == es
    decreases |archive| - at
  {
    hide ParseHeader, TurnAt, Zeroed, AllTaken, EndState, Scan, Closed, InPlace, Underway;
    var o := DataOptions(root, ck);
    assert Between(s) by { UnderwayBetween(env, root, ck, m, s); }
    hide Between;
    if s.pos.zeroBlocks >= 2 || at + BLOCK > |archive| {
      NoneNext(env, o, s, archive, at);
    } else {
      match ParseHeader(env, archive[at..at + BLOCK]) {
        case Bad(_) => BadNext(env, archive, at, s.pos.zeroBlocks, true);
        case ZeroBlock =>
          ZeroNext(env, o, s, archive, at);
          ZeroFold(env, o, s, archive, at);
          ZeroedFields(s, archive[at..at + BLOCK]);
          ZeroUnderway(env, root, ck, m, s, archive, at);
          DataTaken(env, root, ck, m, Zeroed(s, archive[at..at + BLOCK]), archive, at + BLOCK, es);
        case Header(e) =>
          var j, l := |s.past.entries|, Located(e, at + BLOCK);
          HeaderNext(env, o, s, archive, at, e);
          TurnFold(env, o, s, archive, at, e);
          TurnExactly(env, root, ck, m, s, archive, at, e);
          assert es[j] == l && es == s.past.entries + [l] + Scan(env, archive, After(at, e), 0) && es[..j] == s.past.entries;
          FirstInPlace(root, archive, es, j);
          var r := TurnAt(env, o, s, archive, at, e);
          if r.code == Ok { DataTaken(env, root, ck, m, r.tar, archive, After(at, e), es); }
      }
    }
  }

  lemma UnderwayBetween(env: Env, root: Path, ck: Path, m: DataManifest, s: Tar)
    requires Underway(env, root, ck, m, s)
    ensures Between(s)
  {
  }

  lemma FirstInPlace(root: Path, archive: seq<byte>, es: seq<Located>, j: nat)
    requires j < |es|
    ensures AllInPlace(root, archive, es, j) <==>
      Next(root, es[..j], es[j].entry) && ZeroPadded(archive, es[j]) && AllInPlace(root, archive, es, j + 1)
  {
    hide Next, ZeroPadded;
    assert InPlace(root, archive, es, j) <==> Next(root, es[..j], es[j].entry) && ZeroPadded(archive, es[j]);
  }

  // ---- the archive as a whole ----

  lemma {:induction false} TotalsCounted(root: Path, archive: seq<byte>, es: seq<Located>, n: nat, pixa: bool)
    requires AllInPlace(root, archive, es, 0) && n <= |es|
    ensures TotalSize(es[..n], pixa) <= UINT64_MAX
  {
    hide Fits, Before, ZeroPadded, HasSuffix;
    if n > 0 {
      TotalsCounted(root, archive, es, n - 1, pixa);
      assert InPlace(root, archive, es, n - 1) && es[..n][..n - 1] == es[..n - 1];
    }
  }

  lemma InPlaceIsOrderly(root: Path, archive: seq<byte>, es: seq<Located>)
    ensures AllInPlace(root, archive, es, 0) <==>
      Orderly(root, es) && forall i :: 0 <= i < |es| ==> ZeroPadded(archive, es[i])
  {
    hide Fits, Before, ZeroPadded, HasSuffix, TotalSize, LastPath;
    if AllInPlace(root, archive, es, 0) {
      TotalsCounted(root, archive, es, |es|, true);
      TotalsCounted(root, archive, es, |es|, false);
      assert es[..|es|] == es;
      forall i | 0 <= i < |es|
        ensures Fits(root, es[i].entry) && Before(LastPath(es[..i]), es[i].entry.path) && ZeroPadded(archive, es[i])
      {
        assert InPlace(root, archive, es, i);
      }
    }
    if Orderly(root, es) && forall i :: 0 <= i < |es| ==> ZeroPadded(archive, es[i]) {
      forall i | 0 <= i < |es| ensures InPlace(root, archive, es, i) {
        OrderlyAt(root, es, i);
        OneMore(es, i);
      }
    }
  }

  lemma OneMore(es: seq<Located>, i: nat)
    requires i < |es|
    ensures var e := es[i].entry; TotalSize(es[..i + 1], IsPixa(e.path)) == TotalSize(es[..i], IsPixa(e.path)) + e.size
  {
    hide HasSuffix;
    assert es[..i + 1][..i] == es[..i];
  }

  lemma {:induction false} CanonIsCanonical(root: Path, files: seq<FileRec>, stream: seq<byte>, archive: seq<byte>)
    requires stream <= archive && forall j :: 0 <= j < |files| ==> V.Cut(root, stream, files[j])
    ensures V.Canon(files) == Canonical(BundleManifest.Sources(files), archive)
    decreases |files|
  {
    hide V.Cut;
    if files != [] {
      var n := |files| - 1;
      var front, f, es := files[..n], files[n], BundleManifest.Sources(files);
      CanonIsCanonical(root, front, stream, archive);
      assert es[..n] == BundleManifest.Sources(front) && es[n] == f.source;
      CutContents(root, f, stream, archive);
    }
  }

  lemma CutContents(root: Path, f: FileRec, stream: seq<byte>, archive: seq<byte>)
    requires stream <= archive && V.Cut(root, stream, f)
    ensures BundleOta.Within(f.source, archive) && f.bytes == BundleOta.Contents(f.source, archive)
  {
    hide Below, Writable, HasSuffix;
    assert BundleOta.Contents(f.source, archive) == BundleOta.Contents(f.source, stream);
  }

  /** The canonical digest input of an archive that is in place. */
  lemma DigestIsCanonical(env: Env, root: Path, ck: Path, m: DataManifest, s: Tar, archive: seq<byte>)
    requires Underway(env, root, ck, m, s) && s.past.stream <= archive
    ensures s.digest.input == Canonical(s.past.entries, archive)
  {
    hide WellFormed, ModeInv, RunInv, Follows, V.Cut, V.OnDisk, V.Sorted, Before, Replay;
    CanonIsCanonical(root, s.past.files, s.past.stream, archive);
  }

  /** The stream as the manifest of the release describes it: hash and both totals. */
  ghost predicate Described(m: DataManifest, h: Hasher, es: seq<Located>, archive: seq<byte>) {
    && h.hex(Canonical(es, archive)) == m.sha256
    && TotalSize(es, false) == m.dataBytes && TotalSize(es, true) == m.pixaBytes
  }

  lemma InstallExactly(env: Env, root: Path, ck: Path, m: DataManifest, h: Hasher, delivered: seq<byte>, inflated: bool)
    requires Accepting(env) && |m.sha256| == SHA_HEX && h.startOk
    ensures var r := Received(env, root, ck, m, delivered);
      InstallData(env, root, ck, m, h, delivered, inflated).code == Ok <==>
        && inflated && h.finishOk && Good(env, DataOptions(root, ck), Entered(env, m, ck), delivered)
        && Vouched(m, h, r.tar.digest)
  {
    hide Fold, Finish, Vouched, Release, Stops, ModeInv;
    var r := Received(env, root, ck, m, delivered);
    A.FinishOtaTaken(env, DataOptions(root, ck), r.tar);
    ReceivedLogged(env, root, ck, false, m, delivered);
    assert r.tar.ota.checksumSeen && r.tar.ota.appSeen by { ModeFlags(root, ck, m, r.tar); }
  }

  lemma ModeFlags(root: Path, ck: Path, m: DataManifest, s: Tar)
    requires ModeInv(root, ck, false, m, s)
    ensures s.ota.checksumSeen && s.ota.appSeen
  {
    hide LogShape, Opens;
  }

  lemma EnteredUnderway(env: Env, root: Path, ck: Path, m: DataManifest)
    requires |m.sha256| == SHA_HEX
    ensures Underway(env, root, ck, m, Entered(env, m, ck))
  {
    hide ModeInv, RunInv, V.VouchInv;
    EnteredInv(env, root, ck, false, m);
    V.StartIdle(env, root, ck, m);
  }

  /** When the file system refuses no call, a stream is installed exactly when the manifest's
      hash has its length, hashing and inflating go through, the archive is laid out to its
      end with two zero blocks and nothing but zeros behind them and behind every entry, its
      entries are data files with safe names in strictly ascending order, and hash and
      totals are the ones announced. */
  lemma DataAccepted(env: Env, root: Path, ck: Path, m: DataManifest, h: Hasher, delivered: seq<byte>, inflated: bool)
    requires Accepting(env)
    ensures var es := Entries(env, delivered);
      InstallData(env, root, ck, m, h, delivered, inflated).code == Ok <==>
        && |m.sha256| == SHA_HEX && h.startOk && h.finishOk && inflated
        && Closed(env, delivered, 0, 0, true)
        && Orderly(root, es) && (forall i :: 0 <= i < |es| ==> ZeroPadded(delivered, es[i]))
        && Described(m, h, es, delivered)
  {
    hide InstallData, Fold, Good, Closed, AllTaken, EndState, Scan, Underway, Orderly, ZeroPadded, AllInPlace, Canonical, TotalSize,
      Between, Entered;
    if |m.sha256| != SHA_HEX {
      InvalidDoesNothing(env, root, ck, m, h, delivered, inflated);
    } else if !h.startOk {
      NeverStarted(env, root, ck, m, h, delivered, inflated);
    } else {
      var o, s, es := DataOptions(root, ck), Entered(env, m, ck), Entries(env, delivered);
      InstallExactly(env, root, ck, m, h, delivered, inflated);
      EnteredUnderway(env, root, ck, m);
      UnderwayBetween(env, root, ck, m, s);
      EnteredInv(env, root, ck, false, m);
      assert delivered[0..] == delivered && [] + es == es;
      GoodIsTaken(env, o, s, delivered, 0);
      if Closed(env, delivered, 0, 0, true) {
        DataTaken(env, root, ck, m, s, delivered, 0, es);
        InPlaceIsOrderly(root, delivered, es);
        if Good(env, o, s, delivered) { EndDescribed(env, root, ck, m, h, delivered); }
      }
    }
  }

  lemma NeverStarted(env: Env, root: Path, ck: Path, m: DataManifest, h: Hasher, delivered: seq<byte>, inflated: bool)
    requires !h.startOk
    ensures InstallData(env, root, ck, m, h, delivered, inflated).code != Ok
  {
    hide Fold, Finish, Vouched, Release;
  }

  lemma EndDescribed(env: Env, root: Path, ck: Path, m: DataManifest, h: Hasher, delivered: seq<byte>)
    requires Good(env, DataOptions(root, ck), Entered(env, m, ck), delivered) && |m.sha256| == SHA_HEX
    requires var t := Received(env, root, ck, m, delivered).tar;
      Underway(env, root, ck, m, t) && t.past.entries == Entries(env, delivered)
    ensures Vouched(m, h, Received(env, root, ck, m, delivered).tar.digest) <==> Described(m, h, Entries(env, delivered), delivered)
  {
    hide Fold, WellFormed, ModeInv, RunInv, V.VouchInv, Canonical, TotalSize, Scan, LastPath, Entered;
    EnteredInv(env, root, ck, false, m);
    FoldReadsArchive(env, DataOptions(root, ck), Entered(env, m, ck), delivered);
    DigestIsCanonical(env, root, ck, m, Received(env, root, ck, m, delivered).tar, delivered);
  }
}
