/** When an install clears the data root: an OTA with a clear callback does so before its
    first call on a file and never again, everything else never. */
module BundleClear {
  import opened Bytes
  import opened BundleTar
  import opened BundleFeed
  import opened BundleGrammar
  import opened Optional

  /** More calls, none of them a clear. */
  ghost predicate Spared(a: seq<FsEvent>, b: seq<FsEvent>) {
    a <= b && forall i :: |a| <= i < |b| ==> !b[i].op.ClearData?
  }

  lemma SparedNone(a: seq<FsEvent>)
    ensures Spared(a, a)
  {
  }

  lemma SparedOn(a: seq<FsEvent>, b: seq<FsEvent>, c: seq<FsEvent>)
    requires Spared(a, b) && Spared(b, c)
    ensures Spared(a, c)
  {
    assert a <= c;
    forall i | |a| <= i < |c| ensures !c[i].op.ClearData? {
      if i < |b| { assert c[i] == b[i]; }
    }
  }

  lemma SparedCall(log: seq<FsEvent>, e: FsEvent)
    requires !e.op.ClearData?
    ensures Spared(log, log + [e])
  {
  }

  /** Nothing is cleared between the two states. */
  ghost predicate Aside(s: Tar, t: Tar) { Spared(s.fsLog, t.fsLog) && t.ota.cleared == s.ota.cleared }

  lemma FinishFsAside(env: Env, o: Options, s: Tar)
    ensures Aside(s, FinishFs(env, o, s).tar)
  {
    hide HasSuffix, VerifyManifest, Record;
  }

  lemma FinishAside(env: Env, o: Options, s: Tar)
    ensures Aside(s, FinishFile(env, o, s).tar)
  {
    hide FinishFs, FinishChecksum, Spared;
    var t := CloseHash(s);
    SparedNone(s.fsLog);
    FinishFsAside(env, o, t);
    FinishChecksumShape(env, o, t);
  }

  lemma ContentsAside(env: Env, o: Options, s: Tar, e: Entry)
    ensures Aside(s, StartContents(env, o, s, e).tar)
  {
    hide FinishFile, Spared;
    SparedNone(s.fsLog);
    FinishAside(env, o, s);
  }

  lemma OutputAside(env: Env, o: Options, f: Tar, e: Entry)
    ensures Aside(f, StartOutput(env, o, f, e).tar)
  {
    hide HasSuffix, StartContents, Spared;
    var parent, dst := Parent(f.cur.dstPath), f.cur.dstPath;
    var u := if parent == [] then f else Call(env, f, MakeDirs(parent)).0;
    SparedNone(f.fsLog);
    SparedCall(f.fsLog, FsEvent(MakeDirs(parent), env.fsOk(f.fsLog, MakeDirs(parent))));
    ContentsAside(env, o, u, e);
    SparedOn(f.fsLog, u.fsLog, StartContents(env, o, u, e).tar.fsLog);
    var (w, isOpen) := Call(env, u, OpenTruncate(dst));
    SparedCall(u.fsLog, FsEvent(OpenTruncate(dst), isOpen));
    SparedOn(f.fsLog, u.fsLog, w.fsLog);
    var x := w.(cur := w.cur.(outFile := Some(dst)));
    ContentsAside(env, o, x, e);
    SparedOn(f.fsLog, w.fsLog, StartContents(env, o, x, e).tar.fsLog);
  }

  lemma FsAside(env: Env, o: Options, s: Tar, e: Entry, relative: Path)
    ensures Aside(s, StartFs(env, o, s, e, relative).tar)
  {
    hide HasSuffix, StartOutput, SafeRelative, Spared;
    var dst := RootPrefix(o.dstRoot) + relative;
    var t := s.(cur := s.cur.(dstPath := dst));
    SparedNone(s.fsLog);
    SparedCall(s.fsLog, FsEvent(MakeDirs(dst), env.fsOk(s.fsLog, MakeDirs(dst))));
    OutputAside(env, o, SetOutput(t, ToFs), e);
  }

  /** Entries that are not written below the root make no call. */
  predicate Elsewhere(output: Output) { output in {ToSkip, ToChecksum, ToApp} }

  lemma FinishElsewhere(env: Env, o: Options, s: Tar)
    requires Elsewhere(s.cur.output)
    ensures var t := FinishFile(env, o, s).tar; t.fsLog == s.fsLog && t.ota.cleared == s.ota.cleared && t.cur.outFile == s.cur.outFile && t.cur.output == s.cur.output
  {
    hide FinishFs, FinishChecksum;
    FinishChecksumShape(env, o, CloseHash(s));
  }

  lemma AppElsewhere(env: Env, o: Options, s: Tar, e: Entry)
    ensures var r := StartApp(env, o, s, e);
      && r.tar.fsLog == s.fsLog && r.tar.ota.cleared == s.ota.cleared && r.tar.cur.outFile == s.cur.outFile
      && (r.code == Ok ==> Elsewhere(r.tar.cur.output))
  {
    hide FinishFile;
    var t := SetOutput(s.(ota := s.ota.(appSeen := true)), ToApp);
    var u := AppCall(env, t, Begin(t.cur.appEntry)).0;
    FinishElsewhere(env, o, u.(ota := u.ota.(writerActive := true)));
  }

  // ---- the clear comes first ----

  predicate Clearing(o: Options) { o.otaLayout && o.hasClear }

  /** Behind the first `base` calls there is a clear exactly if this install clears, and it
      is the first of them. */
  ghost predicate ClearsFirst(o: Options, base: nat, log: seq<FsEvent>) {
    && base <= |log|
    && (forall i :: base <= i < |log| ==> (log[i].op.ClearData? <==> i == base && Clearing(o)))
    && (forall i :: base <= i < |log| && log[i].op.ClearData? ==> log[i].op.root == o.dstRoot)
  }

  /** An OTA makes no call before it is cleared. */
  ghost predicate ClearOk(o: Options, base: nat, log: seq<FsEvent>, cleared: bool) {
    && ClearsFirst(o, base, log)
    && (o.otaLayout && !cleared ==> |log| == base)
    && (Clearing(o) && cleared ==> |log| > base)
  }

  ghost predicate Kept(o: Options, base: nat, r: Step) {
    && ClearsFirst(o, base, r.tar.fsLog) && Unopened(o, base, r.tar)
    && (r.code == Ok ==> ClearOk(o, base, r.tar.fsLog, r.tar.ota.cleared) && Targets(o, r.tar))
  }

  /** Before the clear no file is open. */
  predicate Unopened(o: Options, base: nat, s: Tar) { Clearing(o) && |s.fsLog| <= base ==> s.cur.outFile.None? }

  /** Before the clear an OTA reads no contents that go below the root. */
  predicate Targets(o: Options, s: Tar) {
    o.otaLayout && !s.ota.cleared && s.pos.phase == InFile ==> Elsewhere(s.cur.output)
  }

  lemma SparedKeeps(o: Options, base: nat, a: seq<FsEvent>, b: seq<FsEvent>, cleared: bool)
    requires ClearOk(o, base, a, cleared) && Spared(a, b) && (!o.otaLayout || cleared || a == b)
    ensures ClearOk(o, base, b, cleared) && ClearsFirst(o, base, b) && (Clearing(o) && cleared ==> |b| > base)
  {
    forall i | base <= i < |b| ensures b[i].op.ClearData? <==> i == base && Clearing(o) {
      if i < |a| { assert b[i] == a[i]; }
    }
    forall i | base <= i < |b| && b[i].op.ClearData? ensures b[i].op.root == o.dstRoot {
      if i < |a| { assert b[i] == a[i]; }
    }
  }

  lemma OkClears(o: Options, base: nat, log: seq<FsEvent>, cleared: bool)
    requires ClearOk(o, base, log, cleared)
    ensures ClearsFirst(o, base, log)
  {
  }

  lemma ClearKeeps(env: Env, o: Options, base: nat, s: Tar)
    requires ClearOk(o, base, s.fsLog, s.ota.cleared) && o.otaLayout && s.ota.installNeeded
    ensures var r := EnsureCleared(env, o, s);
      ClearsFirst(o, base, r.tar.fsLog) && (r.code == Ok ==> ClearOk(o, base, r.tar.fsLog, true) && r.tar.ota.cleared)
  {
  }

  lemma FsKeeps(env: Env, o: Options, base: nat, s: Tar, e: Entry, relative: Path)
    requires ClearOk(o, base, s.fsLog, s.ota.cleared) && (!o.otaLayout || s.ota.cleared)
    ensures Kept(o, base, StartFs(env, o, s, e, relative))
  {
    hide StartFs, ClearsFirst;
    FsAside(env, o, s, e, relative);
    SparedKeeps(o, base, s.fsLog, StartFs(env, o, s, e, relative).tar.fsLog, s.ota.cleared);
  }

  lemma DataKeeps(env: Env, o: Options, base: nat, s: Tar, e: Entry)
    requires ClearOk(o, base, s.fsLog, s.ota.cleared) && o.otaLayout && DATA_PREFIX <= e.path && s.cur.outFile.None?
    ensures Kept(o, base, StartData(env, o, s, e))
  {
    hide StartFs, EnsureCleared, ClearOk, ClearsFirst;
    OkClears(o, base, s.fsLog, s.ota.cleared);
    if s.ota.installNeeded {
      ClearKeeps(env, o, base, s);
      ClearedShape(env, o, s);
      var c := EnsureCleared(env, o, s);
      if c.code == Ok {
        var relative := e.path[|DATA_PREFIX|..];
        FsKeeps(env, o, base, c.tar.(cur := c.tar.cur.(entry := Entry(relative, e.size, e.kind))), e, relative);
      }
    }
  }

  /** Only data entries of an OTA make calls. */
  lemma OtaElsewhere(env: Env, o: Options, s: Tar, e: Entry)
    ensures var r := StartOta(env, o, s, e);
      || (DATA_PREFIX <= e.path && r == StartData(env, o, s, e))
      || (&& r.tar.fsLog == s.fsLog && r.tar.ota.cleared == s.ota.cleared && r.tar.cur.outFile == s.cur.outFile
          && (r.code == Ok ==> Elsewhere(r.tar.cur.output)))
  {
    hide StartData, StartApp;
    AppElsewhere(env, o, s, e);
  }

  lemma OtaKeeps(env: Env, o: Options, base: nat, s: Tar, e: Entry)
    requires ClearOk(o, base, s.fsLog, s.ota.cleared) && o.otaLayout && s.cur.outFile.None?
    ensures Kept(o, base, StartOta(env, o, s, e))
  {
    hide StartOta, StartData, ClearOk, ClearsFirst;
    OkClears(o, base, s.fsLog, s.ota.cleared);
    OtaElsewhere(env, o, s, e);
    if DATA_PREFIX <= e.path { DataKeeps(env, o, base, s, e); }
  }

  lemma EntryKeeps(env: Env, o: Options, base: nat, s: Tar, e: Entry)
    requires ClearOk(o, base, s.fsLog, s.ota.cleared) && s.pos.phase == InHeader
    ensures Kept(o, base, StartEntry(env, o, s, e))
  {
    hide StartFs, StartOta, ClearOk, ClearsFirst;
    OkClears(o, base, s.fsLog, s.ota.cleared);
    var t := Opened(s, e);
    var d := (if o.digestMode then StartDigest(t, e) else Step(Ok, t)).tar;
    if o.otaLayout { OtaKeeps(env, o, base, d, e); } else { FsKeeps(env, o, base, d, e, e.path); }
  }

  // ---- bytes ----

  lemma HeaderKeeps(env: Env, o: Options, base: nat, s: Tar, b: byte)
    requires ClearOk(o, base, s.fsLog, s.ota.cleared) && s.pos.phase == InHeader && Unopened(o, base, s)
    ensures Kept(o, base, HeaderByte(env, o, s, b))
  {
    hide StartEntry, ParseHeader, ClearOk, ClearsFirst;
    OkClears(o, base, s.fsLog, s.ota.cleared);
    var t := Headed(s, [b]);
    var u := t.(pos := t.pos.(header := []));
    match ParseHeader(env, t.pos.header)
    case Header(e) => EntryKeeps(env, o, base, u.(pos := u.pos.(zeroBlocks := 0)), e);
    case _ =>
  }

  lemma AbsorbAside(env: Env, s: Tar, b: byte)
    requires s.pos.remaining > 0
    ensures Aside(s, Absorb(s, [b])) && Aside(s, Refuse(env, s, [b]))
    ensures Elsewhere(s.cur.output) ==> Absorb(s, [b]).fsLog == Refuse(env, s, [b]).fsLog == s.fsLog
  {
    hide HasSuffix, FileTakes, AppTakes;
  }

  lemma FileKeeps(env: Env, o: Options, base: nat, s: Tar, b: byte)
    requires ClearOk(o, base, s.fsLog, s.ota.cleared) && Targets(o, s) && s.pos.phase == InFile && s.pos.remaining > 0 && Unopened(o, base, s)
    ensures Kept(o, base, FileByte(env, o, s, b))
  {
    hide FinishFile, SinkCode, Refuse, Spared, ClearOk, ClearsFirst;
    var t, cleared := Absorb(s, [b]), s.ota.cleared;
    var f := FinishFile(env, o, t).tar;
    AbsorbAside(env, s, b);
    AbsorbSame(env, s, b);
    FinishAside(env, o, t);
    if Elsewhere(s.cur.output) { FinishElsewhere(env, o, t); }
    SparedKeeps(o, base, s.fsLog, t.fsLog, cleared);
    SparedKeeps(o, base, s.fsLog, Refuse(env, s, [b]).fsLog, cleared);
    SparedKeeps(o, base, t.fsLog, f.fsLog, cleared);
    FinishPhase(env, o, t);
  }

  lemma AbsorbSame(env: Env, s: Tar, b: byte)
    requires s.pos.remaining > 0
    ensures Refuse(env, s, [b]).cur == s.cur && Refuse(env, s, [b]).ota == s.ota
    ensures var t := Absorb(s, [b]); t.cur.outFile == s.cur.outFile && t.cur.output == s.cur.output && t.pos.phase == s.pos.phase && t.ota.cleared == s.ota.cleared
  {
  }

  lemma ByteKeeps(env: Env, o: Options, base: nat, s: Tar, b: byte)
    requires WellFormed(s) && ClearOk(o, base, s.fsLog, s.ota.cleared) && Targets(o, s) && Unopened(o, base, s)
    ensures Kept(o, base, ByteStep(env, o, s, b))
  {
    hide HeaderByte, FileByte, Release, Spared, ClearOk, ClearsFirst;
    OkClears(o, base, s.fsLog, s.ota.cleared);
    if !s.pos.done {
      match s.pos.phase
      case InHeader => HeaderKeeps(env, o, base, s, b); ReleaseKeeps(o, base, HeaderByte(env, o, s, b).tar);
      case InFile => FileKeeps(env, o, base, s, b); ReleaseKeeps(o, base, FileByte(env, o, s, b).tar);
      case InPadding => ReleaseKeeps(o, base, PaddingByte(o, s, b).tar);
    }
  }

  /** A close after an error is no clear; it can come first only where nothing is cleared. */
  lemma ReleaseKeeps(o: Options, base: nat, s: Tar)
    requires ClearsFirst(o, base, s.fsLog) && Unopened(o, base, s)
    ensures ClearsFirst(o, base, Release(o, s).fsLog) && Unopened(o, base, Release(o, s))
  {
  }

  lemma {:induction false} FoldKeeps(env: Env, o: Options, base: nat, s: Tar, bytes: seq<byte>)
    requires WellFormed(s) && ClearOk(o, base, s.fsLog, s.ota.cleared) && Targets(o, s) && Unopened(o, base, s)
    ensures Kept(o, base, Fold(env, o, s, bytes))
    decreases |bytes|
  {
    hide ByteStep, WellFormed, ClearOk, ClearsFirst;
    OkClears(o, base, s.fsLog, s.ota.cleared);
    if bytes != [] {
      ByteKeeps(env, o, base, s, bytes[0]);
      ByteKeepsWellFormed(env, o, s, bytes[0]);
      var r := ByteStep(env, o, s, bytes[0]);
      if r.code == Ok { FoldKeeps(env, o, base, r.tar, bytes[1..]); }
    }
  }

  lemma {:induction false} WriteAllSpared(env: Env, s: Tar, path: Path, bytes: seq<byte>)
    ensures Spared(s.fsLog, WriteAll(env, s, path, bytes).0.fsLog)
    decreases |bytes|
  {
    hide Spared;
    SparedNone(s.fsLog);
    if bytes != [] {
      var (t, ok) := Call(env, s, WriteByte(path, bytes[0]));
      SparedCall(s.fsLog, FsEvent(WriteByte(path, bytes[0]), ok));
      WriteAllSpared(env, t, path, bytes[1..]);
      SparedOn(s.fsLog, t.fsLog, WriteAll(env, t, path, bytes[1..]).0.fsLog);
    }
  }

  lemma WriteFileSpared(env: Env, s: Tar, path: Path, bytes: seq<byte>)
    ensures Spared(s.fsLog, WriteFile(env, s, path, bytes).0.fsLog)
  {
    hide WriteAll;
    WriteAllSpared(env, Call(env, s, OpenTruncate(path)).0, path, bytes);
  }

  lemma FinishKeeps(env: Env, o: Options, base: nat, s: Tar)
    requires ClearOk(o, base, s.fsLog, s.ota.cleared) && Unopened(o, base, s)
    ensures ClearsFirst(o, base, Finish(env, o, s).tar.fsLog)
  {
    hide EnsureCleared, WriteFile, Release, Spared, ClearOk, ClearsFirst;
    OkClears(o, base, s.fsLog, s.ota.cleared);
    ReleaseKeeps(o, base, s);
    if o.otaLayout && s.ota.installNeeded && o.checksumPath.Some? {
      ClearKeeps(env, o, base, s);
      var c := EnsureCleared(env, o, s);
      if c.code == Ok {
        var w := WriteFile(env, c.tar, o.checksumPath.value, c.tar.ota.checksum).0;
        WriteFileSpared(env, c.tar, o.checksumPath.value, c.tar.ota.checksum);
        SparedKeeps(o, base, c.tar.fsLog, w.fsLog, true);
      }
    }
  }

  /** Whatever the archive and whatever fails, an OTA with a clear callback clears its data
      root as its first call of all and never again; no other install clears anything. */
  lemma OtaClearsFirst(env: Env, o: Options, archive: seq<byte>)
    ensures var log := Install(env, o, archive).tar.fsLog;
      && (forall i :: 0 <= i < |log| ==> (log[i].op.ClearData? <==> i == 0 && o.otaLayout && o.hasClear))
      && (forall i :: 0 <= i < |log| && log[i].op.ClearData? ==> log[i].op.root == o.dstRoot)
  {
    hide Fold, Finish;
    assert ClearOk(o, 0, INIT.fsLog, INIT.ota.cleared);
    FoldKeeps(env, o, 0, INIT, archive);
    var r := Fold(env, o, INIT, archive);
    if r.code == Ok { FinishKeeps(env, o, 0, r.tar); }
  }
}
