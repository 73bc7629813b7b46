/** The format-2 data install and the order of its file-system calls. */
module BundleData {
  import opened Bytes
  import opened BundleTar
  import opened BundleFeed
  import opened BundleGrammar
  import opened Optional
  import BundleOta

  /** The fields of the segmented manifest this install checks. */
  datatype DataManifest = DataManifest(sha256: seq<byte>, dataBytes: nat, pixaBytes: nat)

  /** The borrowed SHA-256: `hex` is its digest, printed. */
  datatype Hasher = Hasher(startOk: bool, finishOk: bool, hex: seq<byte> -> seq<byte>)

  const NEWLINE: byte := 10
  const SHA_HEX: nat := 64

  function DataOptions(root: Path, checksumPath: Path): Options {
    Options(root, true, true, true, false, None, Some(checksumPath), false, false, true)
  }

  /** Parser state on entry: everything but the data entries counts as seen. */
  function Started(m: DataManifest): (s: Tar) {
    INIT.(ota := Ota(m.sha256 + [NEWLINE], true, false, true, false, true, false))
  }

  /** A removal that failed did so because there is no such file, and says so. */
  predicate Missing(env: Env, path: Path) { path !in env.disk && env.notFound([]) }

  /** `h2_bundle_archive_install_data_zlib` on the bytes the inflater delivers
      before it ends with or without an error. */
  function InstallData(env: Env, root: Path, checksumPath: Path, m: DataManifest,
                       h: Hasher, delivered: seq<byte>, inflated: bool): Step
  {
    if |m.sha256| != SHA_HEX then Step(InvalidArg, INIT) else
    var o := DataOptions(root, checksumPath);
    var (s, removed) := Call(env, Started(m), Remove(checksumPath));
    if !removed && !Missing(env, checksumPath) then Step(Fs, s) else
    if !h.startOk then Step(Callback, s) else
    var r := Fold(env, o, s, delivered);
    var code := Verdict(m, h, r, inflated);
    var f := if code == Ok then Finish(env, o, r.tar) else Step(code, r.tar);
    Step(f.code, Release(o, f.tar))
  }

  /** The same over the chunks the inflater hands to `feed_data_tar`. */
  method InstallDataStream(env: Env, root: Path, checksumPath: Path, m: DataManifest,
                           h: Hasher, chunks: seq<seq<byte>>, inflated: bool)
      returns (rc: Code, fsLog: seq<FsEvent>)
    ensures var r := InstallData(env, root, checksumPath, m, h, Flatten(chunks), inflated);
      rc == r.code && fsLog == r.tar.fsLog
  {
    if |m.sha256| != SHA_HEX { return InvalidArg, []; }
    var o := DataOptions(root, checksumPath);
    var (s, removed) := Call(env, Started(m), Remove(checksumPath));
    if !removed && !Missing(env, checksumPath) { return Fs, s.fsLog; }
    if !h.startOk { return Callback, s.fsLog; }
    var feeder := new TarFeeder(env, o, s);
    hide Fold, Finish, Vouched;
    rc := feeder.FeedAll(chunks);
    var tar := feeder.tar;
    if rc == Ok && (!inflated || !h.finishOk) {
      rc := Callback;
    } else if rc == Ok && !Vouched(m, h, tar.digest) {
      rc := Format;
    }
    if rc == Ok {
      var r := Finish(env, o, tar);
      rc, tar := r.code, r.tar;
    }
    fsLog := Release(o, tar).fsLog;
  }

  function Verdict(m: DataManifest, h: Hasher, r: Step, inflated: bool): Code {
    if r.code != Ok then r.code
    else if !inflated || !h.finishOk then Callback
    else if !Vouched(m, h, r.tar.digest) then Format
    else Ok
  }

  predicate Vouched(m: DataManifest, h: Hasher, d: Digest) {
    h.hex(d.input) == m.sha256 && d.dataBytes == m.dataBytes && d.pixaBytes == m.pixaBytes
  }

  // ---- the shape of the file-system log ----

  predicate Below(root: Path, p: Path) {
    RootPrefix(root) <= p && SafeRelative(p[|RootPrefix(root)|..])
  }

  /** A path an archive entry can make the installer write: safe below the root,
      short enough, and not a pixa archive, which is extracted instead. */
  predicate Writable(root: Path, p: Path) {
    && Below(root, p) && |p| < PATH_MAX
    && !IsPixa(DATA_PREFIX + p[|RootPrefix(root)|..])
  }

  predicate IsPixa(name: Path) { HasSuffix(name, PIXA_SUFFIX) }

  function Target(root: Path, name: Path): Path
    requires DATA_PREFIX <= name
  {
    RootPrefix(root) + name[|DATA_PREFIX|..]
  }

  /** An archive entry that would be written to the checksum file, or extracted over it. */
  predicate Names(root: Path, ck: Path, e: Entry) {
    && DATA_PREFIX <= e.path && e.kind == File
    && if IsPixa(e.path) then Inside(Target(root, e.path), ck) else Target(root, e.path) == ck
  }

  ghost predicate Clean(root: Path, ck: Path, es: seq<Located>) {
    forall i :: 0 <= i < |es| ==> !Names(root, ck, es[i].entry)
  }

  /** A call that only concerns files below the data root. */
  predicate DataOp(root: Path, op: FsOp) {
    match op
    case MakeDirs(_) => true
    case OpenTruncate(p) => Writable(root, p)
    case WriteByte(p, _) => Writable(root, p)
    case Sync(p) => Writable(root, p)
    case Close(p) => Writable(root, p)
    case ExtractPixa(p, _, _) => Below(root, p)
    case _ => false
  }

  /** A call that cannot bring the checksum file into being. */
  predicate Spares(ck: Path, op: FsOp) {
    match op
    case OpenTruncate(p) => p != ck
    case WriteByte(p, _) => p != ck
    case ExtractPixa(p, _, _) => !Inside(p, ck)
    case _ => true
  }

  predicate Clears(root: Path, op: FsOp) { op.ClearData? && op.root == root }

  /** The checksum goes first, the data is cleared once, and then only data is written;
      with `spare`, never the checksum file. */
  ghost predicate LogShape(root: Path, ck: Path, spare: bool, log: seq<FsEvent>) {
    && |log| >= 1 && log[0].op == Remove(ck)
    && (|log| >= 2 ==> Clears(root, log[1].op))
    && (forall i :: 2 <= i < |log| ==> DataOp(root, log[i].op))
    && (spare ==> forall i :: 2 <= i < |log| ==> Spares(ck, log[i].op))
  }

  ghost predicate Opens(root: Path, ck: Path, spare: bool, file: Option<Path>) {
    file.Some? ==> Writable(root, file.value) && (spare ==> file.value != ck)
  }

  /** Where the entry being read may be extracted to. */
  ghost predicate Extracts(root: Path, ck: Path, spare: bool, cur: Current) {
    Below(root, cur.dstPath) && (spare && IsPixa(cur.entry.path) ==> !Inside(cur.dstPath, ck))
  }

  /** Inside an entry: data has been cleared and the open file is a data file. */
  ghost predicate Logged(root: Path, ck: Path, spare: bool, s: Tar) {
    LogShape(root, ck, spare, s.fsLog) && |s.fsLog| >= 2 && Opens(root, ck, spare, s.cur.outFile)
  }

  lemma CallLogged(env: Env, root: Path, ck: Path, spare: bool, s: Tar, op: FsOp)
    requires Logged(root, ck, spare, s) && DataOp(root, op) && (spare ==> Spares(ck, op))
    ensures Logged(root, ck, spare, Call(env, s, op).0)
  {
    hide DataOp, Spares, Opens;
  }

  lemma ReleaseLogged(root: Path, ck: Path, spare: bool, o: Options, s: Tar)
    requires LogShape(root, ck, spare, s.fsLog) && Opens(root, ck, spare, s.cur.outFile)
    requires s.cur.outFile.Some? ==> |s.fsLog| >= 2
    ensures LogShape(root, ck, spare, Release(o, s).fsLog)
    ensures Release(o, s).cur.outFile.None?
    ensures |s.fsLog| >= 2 ==> Logged(root, ck, spare, Release(o, s))
  {
    hide Below, Writable;
  }

  lemma CompleteLogged(env: Env, root: Path, ck: Path, spare: bool, s: Tar)
    requires Logged(root, ck, spare, s) && Extracts(root, ck, spare, s.cur)
    ensures Logged(root, ck, spare, CompleteOutput(env, s).tar)
  {
    hide Below, Writable, HasSuffix, LogShape, Inside;
    if IsPixa(s.cur.entry.path) {
      CallLogged(env, root, ck, spare, s, ExtractPixa(s.cur.dstPath, s.cur.pixa, env.unpacked(s.fsLog)));
    } else if s.cur.outFile.Some? {
      var f := s.cur.outFile.value;
      CallLogged(env, root, ck, spare, s, Sync(f));
      CallLogged(env, root, ck, spare, Call(env, s, Sync(f)).0, Close(f));
    }
  }

  lemma FinishLogged(env: Env, root: Path, ck: Path, spare: bool, s: Tar)
    requires Logged(root, ck, spare, s) && Extracts(root, ck, spare, s.cur) && s.cur.output in {NoOutput, ToFs}
    ensures var r := FinishFile(env, DataOptions(root, ck), s).tar; Logged(root, ck, spare, r) && r.ota == s.ota
  {
    hide Below, Writable, HasSuffix, LogShape, Inside, CompleteOutput;
    var t := CloseHash(s);
    assert t.fsLog == s.fsLog && t.cur.outFile == s.cur.outFile;
    CompleteLogged(env, root, ck, spare, t);
    assert CompleteOutput(env, t).tar.ota == s.ota by { CompleteOta(env, t); }
  }

  lemma CompleteOta(env: Env, s: Tar)
    ensures CompleteOutput(env, s).tar.ota == s.ota
  {
    hide HasSuffix;
  }

  lemma StartOutputLogged(env: Env, root: Path, ck: Path, spare: bool, s: Tar, e: Entry)
    requires Logged(root, ck, spare, s) && Extracts(root, ck, spare, s.cur) && s.cur.output == ToFs
    requires IsPixa(e.path) || Opens(root, ck, spare, Some(s.cur.dstPath))
    ensures var r := StartOutput(env, DataOptions(root, ck), s, e).tar; Logged(root, ck, spare, r) && r.ota == s.ota
  {
    hide Below, Writable, HasSuffix, LogShape, FinishFile, Inside;
    var u := if Parent(s.cur.dstPath) == [] then s else Call(env, s, MakeDirs(Parent(s.cur.dstPath))).0;
    CallLogged(env, root, ck, spare, s, MakeDirs(Parent(s.cur.dstPath)));
    FinishLogged(env, root, ck, spare, u);
    if !IsPixa(e.path) {
      var w := Call(env, u, OpenTruncate(u.cur.dstPath)).0;
      CallLogged(env, root, ck, spare, u, OpenTruncate(u.cur.dstPath));
      FinishLogged(env, root, ck, spare, w.(cur := w.cur.(outFile := Some(u.cur.dstPath))));
    }
  }

  /** Parser states of this install: before the first entry nothing was cleared. */
  ghost predicate ModeInv(root: Path, ck: Path, spare: bool, m: DataManifest, s: Tar) {
    && LogShape(root, ck, spare, s.fsLog) && Opens(root, ck, spare, s.cur.outFile)
    && (s.cur.outFile.Some? || s.ota.cleared ==> |s.fsLog| >= 2)
    && s.ota.checksum == m.sha256 + [NEWLINE]
    && s.ota.checksumSeen && s.ota.appSeen && s.ota.installNeeded
  }

  /** The extra facts of states the feed loop continues from. */
  ghost predicate RunInv(root: Path, ck: Path, spare: bool, s: Tar) {
    && (s.ota.cleared <==> |s.fsLog| >= 2)
    && (s.pos.phase == InFile ==> s.ota.cleared && s.cur.output == ToFs && Extracts(root, ck, spare, s.cur))
  }

  lemma StartDataLogged(env: Env, root: Path, ck: Path, spare: bool, m: DataManifest, s: Tar, e: Entry)
    requires ModeInv(root, ck, spare, m, s) && RunInv(root, ck, spare, s) && s.pos.phase == InHeader && s.cur.outFile.None?
    requires DATA_PREFIX <= e.path && e.kind == File && (spare ==> !Names(root, ck, e))
    ensures var r := StartData(env, DataOptions(root, ck), s, e);
      ModeInv(root, ck, spare, m, r.tar) && (r.code == Ok ==> RunInv(root, ck, spare, r.tar))
  {
    hide StartOutput, HasSuffix, Inside, SafeRelative, EnsureCleared, LogShape;
    var o := DataOptions(root, ck);
    ClearedLogged(env, root, ck, spare, m, s);
    ClearedShape(env, o, s);
    var c := EnsureCleared(env, o, s);
    var relative := e.path[|DATA_PREFIX|..];
    if c.code == Ok && relative != [] && SafeRelative(relative) && |RootPrefix(root)| + |relative| + 1 <= PATH_MAX {
      assert DATA_PREFIX + relative == e.path;
      var dst := RootPrefix(root) + relative;
      assert dst[|RootPrefix(root)|..] == relative && dst == Target(root, e.path);
      if IsPixa(relative) { SuffixBelow(e.path); }
      var t := c.tar.(cur := c.tar.cur.(entry := Entry(relative, e.size, e.kind), dstPath := dst));
      StartOutputLogged(env, root, ck, spare, SetOutput(t, ToFs), e);
      StartOutputRuns(env, root, ck, spare, SetOutput(t, ToFs), e);
    }
  }

  lemma StartOutputRuns(env: Env, root: Path, ck: Path, spare: bool, s: Tar, e: Entry)
    requires s.cur.output == ToFs && Extracts(root, ck, spare, s.cur) && s.pos.phase == InHeader
    ensures var r := StartOutput(env, DataOptions(root, ck), s, e);
      r.code == Ok && r.tar.pos.phase == InFile ==> r.tar.cur.output == ToFs && Extracts(root, ck, spare, r.tar.cur)
  {
    hide Below, HasSuffix, Inside;
  }

  lemma StartLogged(env: Env, root: Path, ck: Path, spare: bool, m: DataManifest, s: Tar, e: Entry)
    requires ModeInv(root, ck, spare, m, s) && RunInv(root, ck, spare, s) && s.pos.phase == InHeader
    requires spare ==> !Names(root, ck, e)
    ensures var r := StartEntry(env, DataOptions(root, ck), s, e);
      ModeInv(root, ck, spare, m, r.tar) && (r.code == Ok ==> RunInv(root, ck, spare, r.tar))
  {
    var d := StartDigest(Opened(s, e), e).tar;
    assert d.fsLog == s.fsLog && d.ota == s.ota && d.cur.outFile == None;
    if DATA_PREFIX <= e.path && e.kind == File {
      BundleOta.PathsDiffer(e);
      StartDataLogged(env, root, ck, spare, m, d, e);
      hide StartData, LogShape;
    } else {
      hide StartOta, LogShape;
    }
  }

  lemma HeaderLogged(env: Env, root: Path, ck: Path, spare: bool, m: DataManifest, s: Tar, b: byte)
    requires ModeInv(root, ck, spare, m, s) && RunInv(root, ck, spare, s) && WellFormed(s) && s.pos.phase == InHeader
    requires spare ==> Clean(root, ck, HeaderByte(env, DataOptions(root, ck), s, b).tar.past.entries)
    ensures var r := HeaderByte(env, DataOptions(root, ck), s, b);
      ModeInv(root, ck, spare, m, r.tar) && (r.code == Ok ==> RunInv(root, ck, spare, r.tar))
  {
    hide StartEntry, LogShape, Names;
    var t := Headed(s, [b]);
    var u := t.(pos := t.pos.(header := [], zeroBlocks := 0));
    if |t.pos.header| == BLOCK && ParseHeader(env, t.pos.header).Header? {
      var e := ParseHeader(env, t.pos.header).entry;
      EntryEntered(env, DataOptions(root, ck), u, e);
      assert spare ==> !Names(root, ck, (u.past.entries + [Located(e, |u.past.stream|)])[|u.past.entries|].entry);
      StartLogged(env, root, ck, spare, m, u, e);
    }
  }

  lemma RefuseLogged(env: Env, root: Path, ck: Path, spare: bool, m: DataManifest, s: Tar, b: byte)
    requires ModeInv(root, ck, spare, m, s) && s.cur.output == ToFs && SinkCode(env, s, [b]) != Ok
    ensures ModeInv(root, ck, spare, m, Refuse(env, s, [b]))
  {
    hide HasSuffix, Below, Writable, SinkCode, Refuse;
    RefuseByte(env, s, b);
  }

  lemma AbsorbLogged(env: Env, root: Path, ck: Path, spare: bool, m: DataManifest, s: Tar, b: byte)
    requires ModeInv(root, ck, spare, m, s) && s.cur.output == ToFs && s.pos.remaining > 0
    ensures ModeInv(root, ck, spare, m, Absorb(s, [b])) && |s.fsLog| <= |Absorb(s, [b]).fsLog|
  {
    hide HasSuffix, Below, Writable;
  }

  lemma FileLogged(env: Env, root: Path, ck: Path, spare: bool, m: DataManifest, s: Tar, b: byte)
    requires ModeInv(root, ck, spare, m, s) && RunInv(root, ck, spare, s) && WellFormed(s) && s.pos.phase == InFile
    ensures var r := FileByte(env, DataOptions(root, ck), s, b);
      ModeInv(root, ck, spare, m, r.tar) && (r.code == Ok ==> RunInv(root, ck, spare, r.tar))
  {
    hide HasSuffix, Below, FinishFile, SinkCode, Refuse, LogShape, Inside, Opens;
    if SinkCode(env, s, [b]) != Ok {
      RefuseLogged(env, root, ck, spare, m, s, b);
    } else {
      var t := Absorb(s, [b]);
      AbsorbLogged(env, root, ck, spare, m, s, b);
      FinishLogged(env, root, ck, spare, t);
      FinishFileRuns(env, DataOptions(root, ck), t);
    }
  }

  lemma FinishFileRuns(env: Env, o: Options, s: Tar)
    requires s.cur.output == ToFs && o.manifest.None?
    ensures var r := FinishFile(env, o, s); r.tar.pos.phase != InFile
  {
    hide HasSuffix, Record;
  }

  lemma ByteLogged(env: Env, root: Path, ck: Path, spare: bool, m: DataManifest, s: Tar, b: byte)
    requires ModeInv(root, ck, spare, m, s) && RunInv(root, ck, spare, s) && WellFormed(s)
    requires spare ==> Clean(root, ck, ByteStep(env, DataOptions(root, ck), s, b).tar.past.entries)
    ensures var r := ByteStep(env, DataOptions(root, ck), s, b);
      ModeInv(root, ck, spare, m, r.tar) && (r.code == Ok ==> RunInv(root, ck, spare, r.tar))
  {
    hide HeaderByte, FileByte, LogShape, Clean, Opens;
    var o := DataOptions(root, ck);
    if !s.pos.done {
      var r := match s.pos.phase
        case InHeader => HeaderByte(env, o, s, b)
        case InFile => FileByte(env, o, s, b)
        case InPadding => PaddingByte(o, s, b);
      assert ModeInv(root, ck, spare, m, r.tar) && (r.code == Ok ==> RunInv(root, ck, spare, r.tar)) by {
        match s.pos.phase
        case InHeader => HeaderLogged(env, root, ck, spare, m, s, b);
        case InFile => FileLogged(env, root, ck, spare, m, s, b);
        case InPadding =>
      }
      ReleaseLogged(root, ck, spare, o, r.tar);
      assert Opens(root, ck, spare, None);
    }
  }

  lemma {:induction false} FoldLogged(env: Env, root: Path, ck: Path, spare: bool, m: DataManifest, s: Tar, bytes: seq<byte>)
    requires ModeInv(root, ck, spare, m, s) && RunInv(root, ck, spare, s) && WellFormed(s)
    requires spare ==> Clean(root, ck, Fold(env, DataOptions(root, ck), s, bytes).tar.past.entries)
    ensures var r := Fold(env, DataOptions(root, ck), s, bytes);
      ModeInv(root, ck, spare, m, r.tar) && (r.code == Ok ==> RunInv(root, ck, spare, r.tar))
    decreases |bytes|
  {
    hide ByteStep, ModeInv, RunInv, WellFormed, Names;
    if bytes != [] {
      var o := DataOptions(root, ck);
      var r := ByteStep(env, o, s, bytes[0]);
      FoldExtends(env, o, r.tar, bytes[1..]);
      ByteLogged(env, root, ck, spare, m, s, bytes[0]);
      ByteKeepsWellFormed(env, o, s, bytes[0]);
      if r.code == Ok { FoldLogged(env, root, ck, spare, m, r.tar, bytes[1..]); }
    }
  }

  // ---- the commit ----

  predicate CommitOp(ck: Path, op: FsOp) {
    op == OpenTruncate(ck) || op == Sync(ck) || op == Close(ck) || (op.WriteByte? && op.path == ck)
  }

  /** Disk contents of the checksum file: absent, or the start of `sum`. */
  ghost predicate Partial(disk: map<Path, seq<byte>>, ck: Path, sum: seq<byte>) {
    ck in disk ==> disk[ck] <= sum
  }

  /** From `from` on the log only writes the checksum file; where that was `absent`, every
      crash point leaves it absent or a prefix of `sum`. */
  ghost predicate Growing(disk: map<Path, seq<byte>>, log: seq<FsEvent>, from: nat, ck: Path, sum: seq<byte>, absent: bool) {
    && from <= |log|
    && (forall i :: from <= i < |log| ==> CommitOp(ck, log[i].op))
    && (absent ==> forall n :: from <= n <= |log| ==> Partial(Replay(disk, log[..n]), ck, sum))
  }

  lemma GrowingStep(disk: map<Path, seq<byte>>, log: seq<FsEvent>, from: nat, ck: Path, sum: seq<byte>, absent: bool, e: FsEvent)
    requires Growing(disk, log, from, ck, sum, absent) && CommitOp(ck, e.op)
    requires absent ==> Partial(Apply(Replay(disk, log), e), ck, sum)
    ensures Growing(disk, log + [e], from, ck, sum, absent)
  {
    hide Partial;
    var all := log + [e];
    BundleOta.ReplayStep(disk, log, e);
    if absent {
      forall n | from <= n <= |all| ensures Partial(Replay(disk, all[..n]), ck, sum) {
        if n <= |log| { assert all[..n] == log[..n]; } else { assert all[..n] == all; }
      }
    }
  }

  lemma {:induction false} WriteAllGrowing(env: Env, s: Tar, ck: Path, bytes: seq<byte>, from: nat, sum: seq<byte>, absent: bool)
    requires Growing(env.disk, s.fsLog, from, ck, sum, absent)
    requires absent ==> ck in Replay(env.disk, s.fsLog) && Replay(env.disk, s.fsLog)[ck] + bytes == sum
    ensures var r := WriteAll(env, s, ck, bytes).0;
      Growing(env.disk, r.fsLog, from, ck, sum, absent) && s.fsLog <= r.fsLog && r == s.(fsLog := r.fsLog)
    decreases |bytes|
  {
    if bytes != [] {
      hide Growing;
      var c := Call(env, s, WriteByte(ck, bytes[0]));
      var e := FsEvent(WriteByte(ck, bytes[0]), c.1);
      BundleOta.ReplayStep(env.disk, s.fsLog, e);
      if absent { assert Replay(env.disk, s.fsLog)[ck] + [bytes[0]] + bytes[1..] == sum; }
      GrowingStep(env.disk, s.fsLog, from, ck, sum, absent, e);
      if c.1 { WriteAllGrowing(env, c.0, ck, bytes[1..], from, sum, absent); }
    }
  }

  lemma QuietStep(env: Env, s: Tar, op: FsOp, from: nat, ck: Path, sum: seq<byte>, absent: bool)
    requires Growing(env.disk, s.fsLog, from, ck, sum, absent)
    requires op == Sync(ck) || op == Close(ck)
    ensures Growing(env.disk, Call(env, s, op).0.fsLog, from, ck, sum, absent)
  {
    assert s.fsLog[..|s.fsLog|] == s.fsLog;
    GrowingStep(env.disk, s.fsLog, from, ck, sum, absent, FsEvent(op, Call(env, s, op).1));
  }

  lemma WriteFileGrowing(env: Env, s: Tar, ck: Path, sum: seq<byte>)
    ensures var r := WriteFile(env, s, ck, sum).0;
      && Growing(env.disk, r.fsLog, |s.fsLog|, ck, sum, ck !in Replay(env.disk, s.fsLog))
      && s.fsLog <= r.fsLog && r == s.(fsLog := r.fsLog)
  {
    var from, absent := |s.fsLog|, ck !in Replay(env.disk, s.fsLog);
    assert s.fsLog[..from] == s.fsLog;
    var c := Call(env, s, OpenTruncate(ck));
    var e := FsEvent(OpenTruncate(ck), c.1);
    GrowingStep(env.disk, s.fsLog, from, ck, sum, absent, e);
    BundleOta.ReplayStep(env.disk, s.fsLog, e);
    hide Growing;
    if c.1 {
      assert [] + sum == sum;
      WriteAllGrowing(env, c.0, ck, sum, from, sum, absent);
      var u := WriteAll(env, c.0, ck, sum);
      QuietStep(env, u.0, Sync(ck), from, ck, sum, absent);
      var w := if u.1 then Call(env, u.0, Sync(ck)).0 else u.0;
      QuietStep(env, w, Close(ck), from, ck, sum, absent);
    }
  }

  // ---- where in a run the commit starts ----

  /** The log of a run: data calls, then from `k` on the commit. Past the first
      `received` calls, when the stream has ended, data calls only close or clear. */
  ghost predicate Committing(disk: map<Path, seq<byte>>, root: Path, ck: Path, spare: bool, sum: seq<byte>,
                             log: seq<FsEvent>, k: nat, received: nat) {
    && 1 <= k <= |log|
    && LogShape(root, ck, spare, log[..k])
    && Growing(disk, log, k, ck, sum, ck !in Replay(disk, log[..k]))
    && (k < |log| ==> 2 <= k && received <= k)
    && (forall i :: received <= i < k ==> log[i].op.Close? || log[i].op.ClearData?)
  }

  /** A log without a commit. */
  lemma DataOnly(disk: map<Path, seq<byte>>, root: Path, ck: Path, spare: bool, sum: seq<byte>, log: seq<FsEvent>, received: nat)
    requires LogShape(root, ck, spare, log)
    requires forall i :: received <= i < |log| ==> log[i].op.Close? || log[i].op.ClearData?
    ensures Committing(disk, root, ck, spare, sum, log, |log|, received)
  {
    assert log[..|log|] == log;
  }

  lemma ClearedLogged(env: Env, root: Path, ck: Path, spare: bool, m: DataManifest, s: Tar)
    requires ModeInv(root, ck, spare, m, s) && RunInv(root, ck, spare, s)
    ensures var c := EnsureCleared(env, DataOptions(root, ck), s);
      && LogShape(root, ck, spare, c.tar.fsLog) && s.fsLog <= c.tar.fsLog
      && c.tar == s.(fsLog := c.tar.fsLog, ota := c.tar.ota)
      && c.tar.ota.checksum == s.ota.checksum
      && (c.code == Ok ==> |c.tar.fsLog| >= 2)
      && (forall i :: |s.fsLog| <= i < |c.tar.fsLog| ==> c.tar.fsLog[i].op.ClearData?)
  {
    hide DataOp, Spares;
  }

  /** A finished install has the new checksum on disk. */
  ghost predicate Complete(env: Env, ck: Path, m: DataManifest, t: Tar) {
    ck in Replay(env.disk, t.fsLog) && Replay(env.disk, t.fsLog)[ck] == m.sha256 + [NEWLINE]
  }

  /** What the end of the stream adds to a run that was received up to state `s`. */
  ghost predicate Ended(env: Env, root: Path, ck: Path, spare: bool, m: DataManifest, s: Tar, r: Step, k: nat) {
    && Committing(env.disk, root, ck, spare, m.sha256 + [NEWLINE], r.tar.fsLog, k, |s.fsLog|)
    && r.tar.cur.outFile.None? && r.tar.past == s.past && s.fsLog <= r.tar.fsLog
    && (k < |r.tar.fsLog| ==>
          s.pos.phase == InHeader && r.tar.fsLog[..k] == EnsureCleared(env, DataOptions(root, ck), s).tar.fsLog)
    && (r.code == Ok ==> k < |r.tar.fsLog| && Complete(env, ck, m, r.tar))
  }

  lemma FinishOtaCommits(env: Env, root: Path, ck: Path, spare: bool, m: DataManifest, s: Tar) returns (k: nat)
    requires ModeInv(root, ck, spare, m, s) && RunInv(root, ck, spare, s) && s.cur.outFile.None?
    requires s.pos.phase == InHeader
    ensures Ended(env, root, ck, spare, m, s, FinishOta(env, DataOptions(root, ck), s), k)
  {
    hide WriteFile, LogShape, Growing, Replay, EnsureCleared;
    var sum := m.sha256 + [NEWLINE];
    ClearedLogged(env, root, ck, spare, m, s);
    var c := EnsureCleared(env, DataOptions(root, ck), s);
    k := |c.tar.fsLog|;
    if c.code != Ok {
      DataOnly(env.disk, root, ck, spare, sum, c.tar.fsLog, |s.fsLog|);
    } else {
      WriteFileGrowing(env, c.tar, ck, sum);
      BundleOta.WriteFileWrites(env, c.tar, ck, sum);
      WriteFileCalls(env, c.tar, ck, sum);
      var w := WriteFile(env, c.tar, ck, sum).0;
      assert w.fsLog[..k] == c.tar.fsLog;
    }
  }

  lemma {:induction false} WriteAllCalls(env: Env, s: Tar, path: Path, bytes: seq<byte>)
    ensures |s.fsLog| <= |WriteAll(env, s, path, bytes).0.fsLog|
    decreases |bytes|
  {
    if bytes != [] { WriteAllCalls(env, Call(env, s, WriteByte(path, bytes[0])).0, path, bytes[1..]); }
  }

  lemma WriteFileCalls(env: Env, s: Tar, path: Path, bytes: seq<byte>)
    ensures |s.fsLog| < |WriteFile(env, s, path, bytes).0.fsLog|
  {
    hide WriteAll;
    WriteAllCalls(env, Call(env, s, OpenTruncate(path)).0, path, bytes);
  }

  lemma FinishCommits(env: Env, root: Path, ck: Path, spare: bool, m: DataManifest, s: Tar) returns (k: nat)
    requires ModeInv(root, ck, spare, m, s) && RunInv(root, ck, spare, s)
    ensures Ended(env, root, ck, spare, m, s, Finish(env, DataOptions(root, ck), s), k)
  {
    hide Committing, Replay, FinishOta, EnsureCleared, LogShape;
    var o := DataOptions(root, ck);
    var r := Finish(env, o, s);
    if s.cur.outFile.Some? || s.cur.pixa != [] {
      ReleaseLogged(root, ck, spare, o, s);
      k := |r.tar.fsLog|;
      DataOnly(env.disk, root, ck, spare, m.sha256 + [NEWLINE], r.tar.fsLog, |s.fsLog|);
    } else if s.pos.phase != InHeader || s.pos.header != [] || s.pos.zeroBlocks < 2 {
      k := |r.tar.fsLog|;
      DataOnly(env.disk, root, ck, spare, m.sha256 + [NEWLINE], r.tar.fsLog, |s.fsLog|);
    } else {
      k := FinishOtaCommits(env, root, ck, spare, m, s);
    }
  }

  // ---- whole runs ----

  function Entered(env: Env, m: DataManifest, ck: Path): Tar { Call(env, Started(m), Remove(ck)).0 }

  lemma EnteredInv(env: Env, root: Path, ck: Path, spare: bool, m: DataManifest)
    requires |m.sha256| == SHA_HEX
    ensures var s := Entered(env, m, ck);
      && ModeInv(root, ck, spare, m, s) && RunInv(root, ck, spare, s) && WellFormed(s)
      && |s.fsLog| == 1 && s.fsLog[0].op == Remove(ck)
      && s.pos == INIT.pos && s.past == INIT.past
  {
  }

  /** The parser state when the inflater stops. */
  function Received(env: Env, root: Path, ck: Path, m: DataManifest, delivered: seq<byte>): Step {
    Fold(env, DataOptions(root, ck), Entered(env, m, ck), delivered)
  }

  ghost predicate Verified(env: Env, root: Path, ck: Path, m: DataManifest, h: Hasher,
                           delivered: seq<byte>, inflated: bool) {
    Verdict(m, h, Received(env, root, ck, m, delivered), inflated) == Ok
  }

  /** The old checksum could not be removed, which ends the run. */
  predicate Refused(env: Env, ck: Path, m: DataManifest) {
    !Entered(env, m, ck).fsLog[0].ok && !Missing(env, ck)
  }

  /** The run as a whole: the log clears and writes data and, only once everything was
      verified, commits. */
  ghost predicate Ran(env: Env, root: Path, ck: Path, spare: bool, m: DataManifest, h: Hasher,
                      delivered: seq<byte>, inflated: bool, k: nat) {
    var r := InstallData(env, root, ck, m, h, delivered, inflated);
    var s := Received(env, root, ck, m, delivered).tar;
    && Committing(env.disk, root, ck, spare, m.sha256 + [NEWLINE], r.tar.fsLog, k, |s.fsLog|)
    && r.tar.fsLog[0] == Entered(env, m, ck).fsLog[0]
    && (h.startOk ==> s.fsLog <= r.tar.fsLog)
    && (k < |r.tar.fsLog| ==>
          && Verified(env, root, ck, m, h, delivered, inflated)
          && r.tar.past == s.past && s.pos.phase == InHeader
          && r.tar.fsLog[..k] == EnsureCleared(env, DataOptions(root, ck), s).tar.fsLog)
    && (r.code == Ok ==> k < |r.tar.fsLog| && Complete(env, ck, m, r.tar))
  }

  /** The log at the point where the inflater stops. */
  lemma ReceivedLogged(env: Env, root: Path, ck: Path, spare: bool, m: DataManifest, delivered: seq<byte>)
    requires |m.sha256| == SHA_HEX && (spare ==> Clean(root, ck, Entries(env, delivered)))
    ensures var r := Received(env, root, ck, m, delivered); var s := Entered(env, m, ck);
      && ModeInv(root, ck, spare, m, r.tar) && (r.code == Ok ==> RunInv(root, ck, spare, r.tar))
      && LogShape(root, ck, spare, s.fsLog) && s.fsLog <= r.tar.fsLog && |s.fsLog| == 1
  {
    hide Fold, LogShape, Started, RunInv, Entries, Names;
    var o, s := DataOptions(root, ck), Entered(env, m, ck);
    EnteredInv(env, root, ck, spare, m);
    FoldReadsArchive(env, o, s, delivered);
    FoldLogged(env, root, ck, spare, m, s, delivered);
    FoldExtends(env, o, s, delivered);
  }

  /** A run that ends with the stream leaves a log without a commit. */
  lemma ReleasedOnly(env: Env, root: Path, ck: Path, spare: bool, m: DataManifest, s: Tar, sum: seq<byte>)
    requires ModeInv(root, ck, spare, m, s)
    ensures var log := Release(DataOptions(root, ck), s).fsLog;
      Committing(env.disk, root, ck, spare, sum, log, |log|, |s.fsLog|) && s.fsLog <= log
  {
    hide LogShape, Committing;
    ReleaseLogged(root, ck, spare, DataOptions(root, ck), s);
    DataOnly(env.disk, root, ck, spare, sum, Release(DataOptions(root, ck), s).fsLog, |s.fsLog|);
  }

  lemma InstallCommits(env: Env, root: Path, ck: Path, spare: bool, m: DataManifest, h: Hasher,
                       delivered: seq<byte>, inflated: bool) returns (k: nat)
    requires |m.sha256| == SHA_HEX && !Refused(env, ck, m)
    requires spare ==> Clean(root, ck, Entries(env, delivered))
    ensures Ran(env, root, ck, spare, m, h, delivered, inflated, k)
  {
    hide Fold, Finish, LogShape, Replay, Started, RunInv, ModeInv, EnsureCleared, Entries, Clean, Committing, Release;
    var o := DataOptions(root, ck);
    var sum := m.sha256 + [NEWLINE];
    ReceivedLogged(env, root, ck, spare, m, delivered);
    var r := Received(env, root, ck, m, delivered);
    if !h.startOk {
      k := 1;
      DataOnly(env.disk, root, ck, spare, sum, Entered(env, m, ck).fsLog, |r.tar.fsLog|);
    } else if Verdict(m, h, r, inflated) == Ok {
      k := FinishCommits(env, root, ck, spare, m, r.tar);
      NothingToRelease(o, Finish(env, o, r.tar).tar);
    } else {
      ReleasedOnly(env, root, ck, spare, m, r.tar, sum);
      k := |Release(o, r.tar).fsLog|;
    }
  }

  lemma NothingToRelease(o: Options, s: Tar)
    requires s.cur.outFile.None?
    ensures Release(o, s).fsLog == s.fsLog && Release(o, s).past == s.past
  {
  }

  lemma InvalidDoesNothing(env: Env, root: Path, ck: Path, m: DataManifest, h: Hasher,
                           delivered: seq<byte>, inflated: bool)
    requires |m.sha256| != SHA_HEX
    ensures InstallData(env, root, ck, m, h, delivered, inflated) == Step(InvalidArg, INIT)
  {
  }

  lemma RefusedStops(env: Env, root: Path, ck: Path, m: DataManifest, h: Hasher,
                     delivered: seq<byte>, inflated: bool)
    requires |m.sha256| == SHA_HEX && Refused(env, ck, m)
    ensures InstallData(env, root, ck, m, h, delivered, inflated) == Step(Fs, Entered(env, m, ck))
    ensures Entered(env, m, ck).fsLog == [FsEvent(Remove(ck), false)]
  {
  }

  lemma CommittedFirst(env: Env, root: Path, ck: Path, sum: seq<byte>, log: seq<FsEvent>, k: nat, received: nat)
    requires Committing(env.disk, root, ck, false, sum, log, k, received)
    ensures 1 <= k <= |log| && log[0].op == Remove(ck) && (k > 1 ==> Clears(root, log[1].op))
  {
    hide Growing, DataOp;
    assert log[..k][0] == log[0] && (k > 1 ==> log[..k][1] == log[1]);
  }

  // ---- clearing ----

  /** The data root is cleared by the second call, and no data call comes before it. */
  ghost predicate ClearsFirst(root: Path, log: seq<FsEvent>) {
    forall i :: 0 <= i < |log| ==>
      && (log[i].op.ClearData? ==> i == 1)
      && (DataOp(root, log[i].op) ==> i >= 2 && Clears(root, log[1].op))
  }

  lemma CommittingClearsFirst(disk: map<Path, seq<byte>>, root: Path, ck: Path, sum: seq<byte>, log: seq<FsEvent>,
                              k: nat, received: nat)
    requires Committing(disk, root, ck, false, sum, log, k, received)
    ensures ClearsFirst(root, log) && (k < |log| ==> Clears(root, log[1].op))
  {
    hide Below, Writable, Partial, Replay;
    assert forall i :: 0 <= i < k ==> log[i] == log[..k][i];
  }

  /** Data is cleared at most once, before any data write, and exactly once on success. */
  lemma ClearedOnceFirst(env: Env, root: Path, ck: Path, m: DataManifest, h: Hasher,
                         delivered: seq<byte>, inflated: bool)
    ensures var r := InstallData(env, root, ck, m, h, delivered, inflated);
      ClearsFirst(root, r.tar.fsLog) && (r.code == Ok ==> |r.tar.fsLog| >= 2 && Clears(root, r.tar.fsLog[1].op))
  {
    hide InstallData, Verified, Committing, Entered, Complete, Received;
    if |m.sha256| != SHA_HEX {
      InvalidDoesNothing(env, root, ck, m, h, delivered, inflated);
    } else if Refused(env, ck, m) {
      RefusedStops(env, root, ck, m, h, delivered, inflated);
    } else {
      var k := InstallCommits(env, root, ck, false, m, h, delivered, inflated);
      var log := InstallData(env, root, ck, m, h, delivered, inflated).tar.fsLog;
      var received := |Received(env, root, ck, m, delivered).tar.fsLog|;
      CommittedFirst(env, root, ck, m.sha256 + [NEWLINE], log, k, received);
      CommittingClearsFirst(env.disk, root, ck, m.sha256 + [NEWLINE], log, k, received);
    }
  }
}
