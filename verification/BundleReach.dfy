/** What an archive makes a format-2 install open: an orderly archive on a file system that
    refuses nothing is taken header by header. */
module BundleReach {
  import opened Bytes
  import opened BundleTar
  import opened BundleFeed
  import opened BundleGrammar
  import opened BundleData
  import opened BundleTurn
  import opened Optional
  import BundleOta

  // ---- what accepted headers open ----

  /** The file this entry is written to was opened. */
  ghost predicate WasOpened(root: Path, e: Entry, log: seq<FsEvent>) {
    DATA_PREFIX <= e.path && e.kind == File && !IsPixa(e.path) ==>
      FsEvent(OpenTruncate(Target(root, e.path)), true) in log
  }

  ghost predicate AllOpened(root: Path, s: Tar) {
    forall i :: 0 <= i < |s.past.entries| ==> WasOpened(root, s.past.entries[i].entry, s.fsLog)
  }

  lemma StartOutputOpens(env: Env, o: Options, s: Tar, e: Entry)
    ensures var r := StartOutput(env, o, s, e);
      r.code == Ok && !IsPixa(e.path) ==> FsEvent(OpenTruncate(s.cur.dstPath), true) in r.tar.fsLog
  {
    hide StartContents, HasSuffix;
    var u := if Parent(s.cur.dstPath) == [] then s else Call(env, s, MakeDirs(Parent(s.cur.dstPath))).0;
    var w := Call(env, u, OpenTruncate(u.cur.dstPath)).0;
    assert w.fsLog[|u.fsLog|].op == OpenTruncate(s.cur.dstPath);
  }

  lemma StartDataOpens(env: Env, root: Path, ck: Path, s: Tar, e: Entry)
    requires DATA_PREFIX <= e.path && e.kind == File && s.ota.installNeeded
    ensures var r := StartData(env, DataOptions(root, ck), s, e); r.code == Ok ==> WasOpened(root, e, r.tar.fsLog)
  {
    hide StartOutput, HasSuffix, SafeRelative;
    var o := DataOptions(root, ck);
    var c := EnsureCleared(env, o, s).tar;
    var relative := e.path[|DATA_PREFIX|..];
    var t := c.(cur := c.cur.(entry := Entry(relative, e.size, e.kind), dstPath := RootPrefix(root) + relative));
    StartOutputOpens(env, o, SetOutput(t, ToFs), e);
  }

  lemma HeaderOpens(env: Env, root: Path, ck: Path, s: Tar, b: byte)
    requires AllOpened(root, s) && s.ota.installNeeded && s.pos.phase == InHeader
    ensures var r := HeaderByte(env, DataOptions(root, ck), s, b); r.code == Ok ==> AllOpened(root, r.tar)
  {
    hide StartEntry, WasOpened;
    var o := DataOptions(root, ck);
    var t := Headed(s, [b]);
    var u := t.(pos := t.pos.(header := [], zeroBlocks := 0));
    HeaderExtends(env, o, s, b);
    var r := HeaderByte(env, o, s, b);
    if |t.pos.header| >= BLOCK && ParseHeader(env, t.pos.header).Header? && r.code == Ok {
      var e := ParseHeader(env, t.pos.header).entry;
      EntryEntered(env, o, u, e);
      EntryOpens(env, root, ck, u, e);
      forall i | 0 <= i < |r.tar.past.entries| ensures WasOpened(root, r.tar.past.entries[i].entry, r.tar.fsLog) {
        if i < |s.past.entries| { StaysOpened(root, s.past.entries[i].entry, s.fsLog, r.tar.fsLog); }
      }
    }
  }

  lemma StaysOpened(root: Path, e: Entry, log: seq<FsEvent>, more: seq<FsEvent>)
    requires WasOpened(root, e, log) && log <= more
    ensures WasOpened(root, e, more)
  {
  }

  lemma EntryOpens(env: Env, root: Path, ck: Path, s: Tar, e: Entry)
    requires s.ota.installNeeded
    ensures var r := StartEntry(env, DataOptions(root, ck), s, e); r.code == Ok ==> WasOpened(root, e, r.tar.fsLog)
  {
    hide StartData, StartApp, HasSuffix, Before;
    BundleOta.PathsDiffer(e);
    if DATA_PREFIX <= e.path && e.kind == File {
      StartDataOpens(env, root, ck, StartDigest(Opened(s, e), e).tar, e);
    }
  }

  lemma ByteOpens(env: Env, root: Path, ck: Path, s: Tar, b: byte)
    requires AllOpened(root, s) && s.ota.installNeeded
    ensures var r := ByteStep(env, DataOptions(root, ck), s, b); r.code == Ok ==> AllOpened(root, r.tar)
  {
    hide HeaderByte, WasOpened, FinishFile, SinkCode, SinkOf;
    var o := DataOptions(root, ck);
    var r := ByteStep(env, o, s, b).tar;
    ByteExtends(env, o, s, b);
    if s.pos.phase == InHeader {
      HeaderOpens(env, root, ck, s, b);
    } else if ByteStep(env, o, s, b).code == Ok {
      assert r.past.entries == s.past.entries;
      forall i | 0 <= i < |s.past.entries| ensures WasOpened(root, s.past.entries[i].entry, r.fsLog) {
        StaysOpened(root, s.past.entries[i].entry, s.fsLog, r.fsLog);
      }
    }
  }

  lemma {:induction false} FoldOpens(env: Env, root: Path, ck: Path, m: DataManifest, s: Tar, bytes: seq<byte>)
    requires AllOpened(root, s) && WellFormed(s) && ModeInv(root, ck, false, m, s) && RunInv(root, ck, false, s)
    ensures var r := Fold(env, DataOptions(root, ck), s, bytes); r.code == Ok ==> AllOpened(root, r.tar)
    decreases |bytes|
  {
    hide ByteStep, AllOpened, WellFormed, RunInv, LogShape, Opens;
    if bytes != [] {
      var o := DataOptions(root, ck);
      ByteOpens(env, root, ck, s, bytes[0]);
      ByteLogged(env, root, ck, false, m, s, bytes[0]);
      ByteKeepsWellFormed(env, o, s, bytes[0]);
      var r := ByteStep(env, o, s, bytes[0]);
      if r.code == Ok { FoldOpens(env, root, ck, m, r.tar, bytes[1..]); }
    }
  }

  // ---- orderly archives ----

  /** A data file with a safe name that is short enough below the root. */
  predicate Fits(root: Path, e: Entry) {
    && DATA_PREFIX <= e.path && e.kind == File
    && Placeable(root, e.path[|DATA_PREFIX|..])
  }

  /** Bytes announced by the pixa entries, or by all the others. */
  function TotalSize(es: seq<Located>, pixa: bool): nat {
    if es == [] then 0 else
    var e := es[|es| - 1].entry;
    TotalSize(es[..|es| - 1], pixa) + if IsPixa(e.path) == pixa then e.size else 0
  }

  function LastPath(es: seq<Located>): Path { if es == [] then [] else es[|es| - 1].entry.path }

  /** Files that fit, in strictly ascending order, with totals that can be counted. */
  ghost predicate Orderly(root: Path, es: seq<Located>) {
    && (forall i :: 0 <= i < |es| ==> Fits(root, es[i].entry) && Before(LastPath(es[..i]), es[i].entry.path))
    && TotalSize(es, true) <= UINT64_MAX && TotalSize(es, false) <= UINT64_MAX
  }

  predicate ZeroPadded(archive: seq<byte>, l: Located) {
    forall p :: l.at + l.entry.size <= p < l.at + l.entry.size + Padding(l.entry.size) && p < |archive| ==> archive[p] == 0
  }

  /** The first `k` entries leave the parser in a state to read the next header. */
  ghost predicate Passable(root: Path, es: seq<Located>, k: nat, archive: seq<byte>)
    requires k < |es|
  {
    Orderly(root, es[..k + 1]) && forall i :: 0 <= i < k ==> ZeroPadded(archive, es[i])
  }

  lemma {:induction false} TotalSizeGrows(es: seq<Located>, k: nat, pixa: bool)
    requires k <= |es|
    ensures TotalSize(es[..k], pixa) <= TotalSize(es, pixa)
    decreases |es|
  {
    if k == |es| {
      assert es[..k] == es;
    } else {
      assert es[..|es| - 1][..k] == es[..k];
      TotalSizeGrows(es[..|es| - 1], k, pixa);
    }
  }

  // ---- where the entries of an archive lie ----

  lemma {:induction false} ScanAfter(env: Env, archive: seq<byte>, at: nat, zeros: nat)
    ensures forall i :: 0 <= i < |Scan(env, archive, at, zeros)| ==> at + BLOCK <= Scan(env, archive, at, zeros)[i].at <= |archive|
    decreases |archive| - at
  {
    if zeros < 2 && at + BLOCK <= |archive| {
      match ParseHeader(env, archive[at..at + BLOCK]) {
        case Bad(_) =>
        case ZeroBlock => ScanAfter(env, archive, at + BLOCK, zeros + 1);
        case Header(e) =>
          ScanAfter(env, archive, at + BLOCK + e.size + Padding(e.size), 0);
      }
    }
  }

  /** Of an archive read to some point, exactly the entries whose contents start by then
      are recorded. */
  lemma RecordedSoFar(env: Env, s: Tar, archive: seq<byte>, k: nat)
    requires WellFormed(s) && Honest(env, s) && OnTrack(env, s, archive) && k < |Entries(env, archive)|
    ensures k < |s.past.entries| <==> Entries(env, archive)[k].at <= |s.past.stream|
    ensures s.past.entries <= Entries(env, archive)
  {
    hide Scan;
    ScanAfter(env, archive, Next(s), s.pos.zeroBlocks);
    var es := Entries(env, archive);
    if k < |s.past.entries| {
      assert Parsed(env, s.past.entries[k], s.past.stream) && es[k] == s.past.entries[k];
    } else {
      assert es[k] == Scan(env, archive, Next(s), s.pos.zeroBlocks)[k - |s.past.entries|];
    }
  }

  // ---- steps that succeed ----

  lemma FinishTaken(env: Env, o: Options, s: Tar)
    requires Accepting(env) && o.manifest.None? && s.cur.output == ToFs
    ensures FinishFile(env, o, s).code == Ok
  {
    hide Record, CompleteOutput;
    CompleteTaken(env, CloseHash(s));
    CompleteTaken(env, CloseHash(s).(seen := s.seen));
  }

  lemma StartOutputTaken(env: Env, o: Options, s: Tar, e: Entry)
    requires Accepting(env) && o.manifest.None? && s.cur.output == ToFs && s.pos.phase == InHeader
    ensures var r := StartOutput(env, o, s, e);
      && r.code == Ok && r.tar.digest.(input := []) == s.digest.(input := [])
      && (e.size > 0 ==>
            r.tar.cur == s.cur.(outFile := if IsPixa(e.path) then s.cur.outFile else Some(s.cur.dstPath)))
  {
    hide HasSuffix, FinishFile;
    var u := if Parent(s.cur.dstPath) == [] then s else Call(env, s, MakeDirs(Parent(s.cur.dstPath))).0;
    var w := Call(env, u, OpenTruncate(u.cur.dstPath)).0;
    var x := if IsPixa(e.path) then u else w.(cur := w.cur.(outFile := Some(u.cur.dstPath)));
    FinishTaken(env, o, x);
    FinishDigest(env, o, x);
  }

  lemma FinishDigest(env: Env, o: Options, s: Tar)
    ensures FinishFile(env, o, s).tar.digest.(input := []) == s.digest.(input := [])
  {
    hide Record, VerifyManifest, FinishChecksum, CompleteOutput;
    var t := CloseHash(s);
    FinishChecksumShape(env, o, t);
    CompleteShape(env, t.(seen := VerifyManifest(env, o, t.cur, t.seen).1));
  }

  /** The current entry has somewhere to put its contents. */
  ghost predicate HasSink(s: Tar) {
    s.cur.output == ToFs && (IsPixa(s.cur.entry.path) || s.cur.outFile.Some?)
  }

  lemma StartDataTaken(env: Env, root: Path, ck: Path, s: Tar, e: Entry)
    requires Accepting(env) && Fits(root, e)
    requires s.ota.installNeeded && s.ota.checksumSeen && s.pos.phase == InHeader
    ensures var r := StartData(env, DataOptions(root, ck), s, e);
      && r.code == Ok && r.tar.digest.(input := []) == s.digest.(input := [])
      && (e.size > 0 ==> HasSink(r.tar))
  {
    hide StartOutput, HasSuffix, SafeRelative;
    var o := DataOptions(root, ck);
    var relative := e.path[|DATA_PREFIX|..];
    assert relative != [] by { SafeIsSomething(relative); }
    var c := EnsureCleared(env, o, s).tar;
    var t := c.(cur := c.cur.(entry := Entry(relative, e.size, e.kind), dstPath := RootPrefix(root) + relative));
    StartOutputTaken(env, o, SetOutput(t, ToFs), e);
    if IsPixa(e.path) { SuffixAbove(e.path); }
  }

  lemma SafeIsSomething(p: Path)
    requires SafeRelative(p)
    ensures p != []
  {
  }

  /** The digest's counters follow the recorded entries, and an entry being read has a sink
      and a place. */
  ghost predicate Steady(s: Tar) {
    var es := s.past.entries;
    && s.digest.lastPath == LastPath(es)
    && s.digest.dataBytes == TotalSize(es, false) && s.digest.pixaBytes == TotalSize(es, true)
    && (s.pos.phase == InFile ==> HasSink(s))
    && Placed(s)
  }

  ghost predicate Placed(s: Tar) {
    s.pos.phase != InHeader ==>
      && s.past.entries != []
      && var l := s.past.entries[|s.past.entries| - 1];
      var end := l.at + l.entry.size;
      && s.pos.padding <= Padding(l.entry.size)
      && (s.pos.phase == InFile ==> |s.past.stream| + s.pos.remaining == end && s.pos.padding == Padding(l.entry.size))
      && (s.pos.phase == InPadding ==> |s.past.stream| + s.pos.padding == end + Padding(l.entry.size))
  }

  lemma DigestTaken(s: Tar, e: Entry, all: seq<Located>)
    requires Steady(s) && s.past.entries + [Located(e, |s.past.stream|)] == all
    requires Before(LastPath(s.past.entries), e.path)
    requires TotalSize(all, true) <= UINT64_MAX && TotalSize(all, false) <= UINT64_MAX
    ensures var r := StartDigest(Opened(s, e), e);
      && r.code == Ok && r.tar.digest.lastPath == e.path
      && r.tar.digest.dataBytes == TotalSize(all, false) && r.tar.digest.pixaBytes == TotalSize(all, true)
  {
    hide Before, HasSuffix;
    assert all[..|all| - 1] == s.past.entries;
  }

  lemma EntryTaken(env: Env, root: Path, ck: Path, s: Tar, e: Entry, all: seq<Located>)
    requires Accepting(env) && Steady(s) && Fits(root, e)
    requires s.ota.installNeeded && s.ota.checksumSeen && s.pos.phase == InHeader
    requires all == s.past.entries + [Located(e, |s.past.stream|)]
    requires Before(LastPath(s.past.entries), e.path)
    requires TotalSize(all, true) <= UINT64_MAX && TotalSize(all, false) <= UINT64_MAX
    ensures var r := StartEntry(env, DataOptions(root, ck), s, e); r.code == Ok && Steady(r.tar)
  {
    hide StartData, StartDigest, StartApp, Before, TotalSize, HasSuffix, SafeRelative, HasSink;
    var o := DataOptions(root, ck);
    EntryEntered(env, o, s, e);
    BundleOta.PathsDiffer(e);
    DigestTaken(s, e, all);
    var d := StartDigest(Opened(s, e), e);
    assert d.tar.ota == s.ota && d.tar.pos.phase == InHeader by { DigestKeeps(Opened(s, e), e); }
    StartDataTaken(env, root, ck, d.tar, e);
    var t := StartData(env, o, d.tar, e).tar;
    assert t.digest.(input := []).lastPath == t.digest.lastPath;
    assert t.digest.(input := []).dataBytes == t.digest.dataBytes;
    assert t.digest.(input := []).pixaBytes == t.digest.pixaBytes;
    assert LastPath(all) == e.path;
  }

  lemma DigestKeeps(s: Tar, e: Entry)
    ensures var t := StartDigest(s, e).tar; t.ota == s.ota && t.pos == s.pos
  {
  }

  // ---- bytes on the way to an entry ----

  /** A reachable state before the `k`-th entry of an archive that is passable up to it. */
  ghost predicate Underway(env: Env, root: Path, s: Tar, archive: seq<byte>, k: nat) {
    && WellFormed(s) && Honest(env, s) && OnTrack(env, s, archive) && Steady(s)
    && s.ota.installNeeded && s.ota.checksumSeen
    && k < |Entries(env, archive)| && Passable(root, Entries(env, archive), k, archive)
  }

  lemma MoreToCome(env: Env, root: Path, s: Tar, archive: seq<byte>, k: nat)
    requires Underway(env, root, s, archive, k) && |s.past.stream| < Entries(env, archive)[k].at
    ensures !s.pos.done && |s.past.entries| <= k && s.past.entries <= Entries(env, archive)
    ensures Scan(env, archive, Next(s), s.pos.zeroBlocks) != []
    ensures Scan(env, archive, Next(s), s.pos.zeroBlocks)[0] == Entries(env, archive)[|s.past.entries|]
  {
    hide Steady, Passable;
    RecordedSoFar(env, s, archive, k);
  }

  lemma BlockTaken(env: Env, root: Path, ck: Path, s: Tar, block: seq<byte>, archive: seq<byte>, k: nat)
    requires Accepting(env) && Steady(s) && s.pos.phase == InHeader && s.ota.installNeeded && s.ota.checksumSeen
    requires k < |Entries(env, archive)| && Passable(root, Entries(env, archive), k, archive)
    requires |s.past.entries| <= k && s.past.entries <= Entries(env, archive)
    requires ParseHeader(env, block) == Header(Entries(env, archive)[|s.past.entries|].entry)
    requires Entries(env, archive)[|s.past.entries|].at == |s.past.stream|
    ensures var r := HeaderBlock(env, DataOptions(root, ck), s, block); r.code == Ok && Steady(r.tar)
  {
    hide StartEntry, Entries, Fits, Before, ParseHeader, Steady, TotalSize, LastPath, ZeroPadded;
    var es, j := Entries(env, archive), |s.past.entries|;
    OrderlyAt(root, es[..k + 1], j);
    assert es[..k + 1][j] == es[j] && es[..k + 1][..j] == s.past.entries;
    assert es[..k + 1][..j + 1] == s.past.entries + [es[j]];
    var t := s.(pos := s.pos.(zeroBlocks := 0));
    assert Steady(t) by { SteadyFrame(s, t); }
    EntryTaken(env, root, ck, t, es[j].entry, s.past.entries + [es[j]]);
  }

  lemma OrderlyAt(root: Path, es: seq<Located>, j: nat)
    requires Orderly(root, es) && j < |es|
    ensures Fits(root, es[j].entry) && Before(LastPath(es[..j]), es[j].entry.path)
    ensures TotalSize(es[..j + 1], true) <= UINT64_MAX && TotalSize(es[..j + 1], false) <= UINT64_MAX
  {
    hide Fits, Before, LastPath;
    TotalSizeGrows(es, j + 1, true);
    TotalSizeGrows(es, j + 1, false);
  }

  lemma SteadyFrame(s: Tar, t: Tar)
    requires Steady(s) && s.pos.phase == t.pos.phase == InHeader && t.past == s.past && t.digest == s.digest
    ensures Steady(t)
  {
  }

  lemma HeaderTaken(env: Env, root: Path, ck: Path, s: Tar, b: byte, archive: seq<byte>, k: nat)
    requires Accepting(env) && Underway(env, root, s, archive, k) && s.pos.phase == InHeader
    requires |s.past.stream| < Entries(env, archive)[k].at && s.past.stream + [b] <= archive
    ensures var r := HeaderByte(env, DataOptions(root, ck), s, b); r.code == Ok && Steady(r.tar)
  {
    hide StartEntry, Passable, Entries;
    MoreToCome(env, root, s, archive, k);
    BlockOf(s, b, archive);
    var t := Headed(s, [b]);
    if |t.pos.header| == BLOCK && ParseHeader(env, t.pos.header).Header? {
      BlockTaken(env, root, ck, t.(pos := t.pos.(header := [])), t.pos.header, archive, k);
    }
  }

  lemma FileTaken(env: Env, root: Path, ck: Path, s: Tar, b: byte)
    requires Accepting(env) && Steady(s) && s.pos.phase == InFile && s.pos.remaining > 0
    ensures var r := FileByte(env, DataOptions(root, ck), s, b); r.code == Ok && Steady(r.tar)
  {
    hide HasSuffix, FinishFile, TotalSize;
    var o := DataOptions(root, ck);
    var t := Absorb(s, [b]);
    FinishTaken(env, o, t);
    FinishPhase(env, o, t);
    FinishDigest(env, o, t);
    var d := FinishFile(env, o, t).tar.digest;
    assert d.(input := []).lastPath == d.lastPath && d.(input := []).dataBytes == d.dataBytes
        && d.(input := []).pixaBytes == d.pixaBytes;
  }

  lemma PaddingTaken(env: Env, root: Path, ck: Path, s: Tar, b: byte, archive: seq<byte>, k: nat)
    requires Underway(env, root, s, archive, k) && s.pos.phase == InPadding
    requires |s.past.stream| < Entries(env, archive)[k].at && s.past.stream + [b] <= archive
    ensures var r := PaddingByte(DataOptions(root, ck), s, b); r.code == Ok && Steady(r.tar)
  {
    hide Entries, TotalSize, Orderly, OnTrack, Honest;
    MoreToCome(env, root, s, archive, k);
    var i := |s.past.entries| - 1;
    assert ZeroPadded(archive, Entries(env, archive)[i]);
    assert archive[|s.past.stream|] == b;
  }

  lemma ByteTaken(env: Env, root: Path, ck: Path, s: Tar, b: byte, archive: seq<byte>, k: nat)
    requires Accepting(env) && Underway(env, root, s, archive, k)
    requires |s.past.stream| < Entries(env, archive)[k].at && s.past.stream + [b] <= archive
    ensures var r := ByteStep(env, DataOptions(root, ck), s, b); r.code == Ok && Steady(r.tar)
    ensures !s.pos.done
  {
    hide HeaderByte, FileByte, PaddingByte, Steady, Entries, OnTrack, Honest, Passable;
    MoreToCome(env, root, s, archive, k);
    match s.pos.phase
    case InHeader => HeaderTaken(env, root, ck, s, b, archive, k);
    case InFile => FileTaken(env, root, ck, s, b);
    case InPadding => PaddingTaken(env, root, ck, s, b, archive, k);
  }

  /** On a file system that refuses nothing, a passable archive is taken up to and including
      the header of its `k`-th entry. */
  lemma {:induction false} FoldTaken(env: Env, root: Path, ck: Path, m: DataManifest, s: Tar, bytes: seq<byte>,
                                     archive: seq<byte>, k: nat)
    requires Accepting(env) && Underway(env, root, s, archive, k)
    requires ModeInv(root, ck, false, m, s) && RunInv(root, ck, false, s)
    requires s.past.stream + bytes <= archive && |s.past.stream| + |bytes| == Entries(env, archive)[k].at
    ensures var r := Fold(env, DataOptions(root, ck), s, bytes);
      r.code == Ok && k < |r.tar.past.entries| && r.tar.past.entries[k] == Entries(env, archive)[k]
    decreases |bytes|
  {
    hide ByteStep, Entries, Honest, OnTrack, Steady, Passable, WellFormed, RunInv, LogShape, Opens;
    if bytes == [] {
      RecordedSoFar(env, s, archive, k);
    } else {
      var o := DataOptions(root, ck);
      ByteTaken(env, root, ck, s, bytes[0], archive, k);
      ByteKeepsWellFormed(env, o, s, bytes[0]);
      ByteKeepsHonest(env, o, s, bytes[0]);
      ByteOnTrack(env, o, s, bytes[0], archive);
      ByteLogged(env, root, ck, false, m, s, bytes[0]);
      assert s.past.stream + [bytes[0]] + bytes[1..] == s.past.stream + bytes;
      FoldTaken(env, root, ck, m, ByteStep(env, o, s, bytes[0]).tar, bytes[1..], archive, k);
    }
  }

  // ---- the file of an entry gets opened ----

  lemma EnteredUnderway(env: Env, root: Path, ck: Path, m: DataManifest, archive: seq<byte>, k: nat)
    requires |m.sha256| == SHA_HEX && k < |Entries(env, archive)| && Passable(root, Entries(env, archive), k, archive)
    ensures Underway(env, root, Entered(env, m, ck), archive, k)
  {
    hide Passable, OnTrack, Honest, Entries;
    StartOnTrack(env, Entered(env, m, ck), archive);
  }

  /** An entry the parser gets to, whatever follows it, has its file opened. */
  lemma ReachedIsOpened(env: Env, root: Path, ck: Path, m: DataManifest, archive: seq<byte>, k: nat)
    requires Accepting(env) && |m.sha256| == SHA_HEX
    requires k < |Entries(env, archive)| && Passable(root, Entries(env, archive), k, archive)
    ensures WasOpened(root, Entries(env, archive)[k].entry, Received(env, root, ck, m, archive).tar.fsLog)
  {
    hide Fold, Entries, Passable, WasOpened, ModeInv, RunInv, WellFormed, Underway;
    var o, s, at := DataOptions(root, ck), Entered(env, m, ck), Entries(env, archive)[k].at;
    EnteredInv(env, root, ck, false, m);
    EnteredUnderway(env, root, ck, m, archive, k);
    WithinArchive(env, archive, k);
    var front, rest := archive[..at], archive[at..];
    assert archive == front + rest && [] + front == front;
    FoldTaken(env, root, ck, m, s, front, archive, k);
    FoldOpens(env, root, ck, m, s, front);
    var t := Fold(env, o, s, front).tar;
    FoldConcat(env, o, s, front, rest);
    FoldExtends(env, o, t, rest);
    StaysOpened(root, t.past.entries[k].entry, t.fsLog, Received(env, root, ck, m, archive).tar.fsLog);
  }

  lemma WithinArchive(env: Env, archive: seq<byte>, k: nat)
    requires k < |Entries(env, archive)|
    ensures Entries(env, archive)[k].at <= |archive|
  {
    hide Scan;
    ScanAfter(env, archive, 0, 0);
  }
}
