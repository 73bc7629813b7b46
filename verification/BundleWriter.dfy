/** The app writer over whole installs: its calls come in order, and it is left open exactly
    by an archive that ends inside the app. */
module BundleWriter {
  import opened Bytes
  import opened BundleTar
  import opened BundleFeed
  import opened BundleGrammar
  import opened BundleTurn
  import opened Optional
  import H = BundleHandles

  // ---- what a history of calls leaves open ----

  /** An end that fails leaves the writer to be aborted. */
  predicate Writing(log: seq<AppEvent>) {
    log != [] &&
    var last := log[|log| - 1];
    match last.op
    case Begin(_) => last.ok
    case AppByte(_) => Writing(log[..|log| - 1])
    case End(_) => !last.ok && Writing(log[..|log| - 1])
    case Abort => false
  }

  /** One begin, then bytes, then an end or an abort. */
  predicate InOrder(log: seq<AppEvent>) {
    log == [] || (InOrder(log[..|log| - 1]) && Writing(log[..|log| - 1]) == !log[|log| - 1].op.Begin?)
  }

  lemma OneMore(log: seq<AppEvent>, e: AppEvent)
    requires InOrder(log) && Writing(log) == !e.op.Begin?
    ensures InOrder(log + [e])
    ensures Writing(log + [e]) == match e.op { case Begin(_) => e.ok case AppByte(_) => true case End(_) => !e.ok case Abort => false }
  {
    assert (log + [e])[..|log|] == log;
  }

  // ---- the parser knows whether the writer is open ----

  ghost predicate Known(o: Options, s: Tar) {
    InOrder(s.appLog) && Writing(s.appLog) == s.ota.writerActive && (s.ota.writerActive ==> o.hasWriter)
  }

  /** The writer is open for the entry at hand, which then has no file and no buffer. */
  ghost predicate Armed(o: Options, s: Tar) {
    && Known(o, s) && (s.ota.writerActive <==> s.cur.output == ToApp)
    && (s.ota.writerActive ==> s.cur.outFile.None? && s.cur.pixa == [])
  }

  ghost predicate WriterOk(o: Options, s: Tar) {
    if s.pos.phase == InFile then Armed(o, s) else Known(o, s) && !s.ota.writerActive
  }

  ghost predicate Handled(o: Options, r: Step) { Known(o, r.tar) && (r.code == Ok ==> WriterOk(o, r.tar)) }

  lemma ReleaseKnown(o: Options, s: Tar)
    requires Known(o, s) && o.hasAbort
    ensures Known(o, Release(o, s)) && !Release(o, s).ota.writerActive
  {
    hide InOrder, Writing;
    if s.ota.writerActive { OneMore(s.appLog, AppEvent(Abort, true)); }
  }

  lemma FinishAppKnown(env: Env, o: Options, s: Tar)
    requires Known(o, s) && s.ota.writerActive && o.hasAbort
    ensures Handled(o, FinishApp(env, o, s))
  {
    hide InOrder, Writing;
    var (t, ok) := AppCall(env, s, End(s.cur.appEntry));
    OneMore(s.appLog, AppEvent(End(s.cur.appEntry), ok));
    if !ok { OneMore(t.appLog, AppEvent(Abort, true)); }
  }

  lemma FinishFsQuiet(env: Env, o: Options, s: Tar)
    requires !s.ota.writerActive
    ensures var r := FinishFs(env, o, s);
      r.tar.appLog == s.appLog && r.tar.ota == s.ota && (r.code == Ok ==> r.tar.pos.phase != InFile)
  {
    hide VerifyManifest, HasSuffix, Record;
  }

  lemma FinishKnown(env: Env, o: Options, s: Tar)
    requires Armed(o, s) && o.hasAbort
    ensures Handled(o, FinishFile(env, o, s))
  {
    hide FinishFs, FinishApp, FinishChecksum, InOrder, Writing;
    var t := CloseHash(s);
    match s.cur.output
    case ToApp => FinishAppKnown(env, o, t);
    case ToChecksum => FinishChecksumShape(env, o, t);
    case ToSkip =>
    case _ => FinishFsQuiet(env, o, t);
  }

  // ---- headers ----

  /** The entry whose contents go to the writer. */
  predicate ForWriter(o: Options, e: Entry) { o.otaLayout && !o.skipApp && APP_PREFIX <= e.path && e.kind == File }

  /** An accepted header sends its contents to the writer or elsewhere, as its name says. */
  ghost predicate Sent(o: Options, e: Entry, r: Step) {
    Handled(o, r) && (r.code == Ok && r.tar.pos.phase == InFile ==> (r.tar.cur.output == ToApp <==> ForWriter(o, e)))
  }

  ghost predicate Closed(o: Options, s: Tar) {
    Known(o, s) && !s.ota.writerActive && s.pos.phase == InHeader && s.cur.output != ToApp && s.cur.outFile.None? && s.cur.pixa == []
  }

  lemma ContentsKnown(env: Env, o: Options, s: Tar, e: Entry)
    requires Armed(o, s) && (s.cur.output == ToApp <==> ForWriter(o, e)) && o.hasAbort
    ensures Sent(o, e, StartContents(env, o, s, e))
  {
    hide FinishFile, ForWriter, InOrder, Writing;
    FinishKnown(env, o, s);
    FinishPhase(env, o, s);
  }

  lemma FsKnown(env: Env, o: Options, s: Tar, e: Entry, relative: Path)
    requires Closed(o, s) && !ForWriter(o, e) && o.hasAbort
    ensures Sent(o, e, StartFs(env, o, s, e, relative))
  {
    hide HasSuffix, StartContents, SafeRelative, ForWriter, InOrder, Writing;
    var f := s.(cur := s.cur.(dstPath := RootPrefix(o.dstRoot) + relative, output := ToFs));
    var u := if Parent(f.cur.dstPath) == [] then f else Call(env, f, MakeDirs(Parent(f.cur.dstPath))).0;
    ContentsKnown(env, o, u, e);
    var w := Call(env, u, OpenTruncate(u.cur.dstPath)).0;
    ContentsKnown(env, o, w.(cur := w.cur.(outFile := Some(u.cur.dstPath))), e);
  }

  lemma DataKnown(env: Env, o: Options, s: Tar, e: Entry)
    requires Closed(o, s) && DATA_PREFIX <= e.path && o.hasAbort
    ensures Sent(o, e, StartData(env, o, s, e))
  {
    hide StartFs, EnsureCleared, InOrder, Writing;
    ClearedShape(env, o, s);
    assert e.path[0] == DATA_PREFIX[0];
    assert !ForWriter(o, e) by { if APP_PREFIX <= e.path { assert e.path[0] == APP_PREFIX[0]; } }
    var c := EnsureCleared(env, o, s).tar;
    var relative := e.path[|DATA_PREFIX|..];
    FsKnown(env, o, c.(cur := c.cur.(entry := Entry(relative, e.size, e.kind))), e, relative);
  }

  lemma AppKnown(env: Env, o: Options, s: Tar, e: Entry)
    requires Closed(o, s) && APP_PREFIX <= e.path && o.otaLayout && o.hasAbort
    ensures Sent(o, e, StartApp(env, o, s, e))
  {
    hide StartContents, InOrder, Writing;
    var t := SetOutput(s.(ota := s.ota.(appSeen := true)), ToApp);
    var (u, ok) := AppCall(env, t, Begin(s.cur.appEntry));
    OneMore(s.appLog, AppEvent(Begin(s.cur.appEntry), ok));
    if ok && o.hasWriter && !o.skipApp && e.kind == File {
      ContentsKnown(env, o, u.(ota := u.ota.(writerActive := true)), e);
    }
  }

  lemma OtaKnown(env: Env, o: Options, s: Tar, e: Entry)
    requires Closed(o, s) && o.otaLayout && o.hasAbort
    ensures Sent(o, e, StartOta(env, o, s, e))
  {
    hide StartApp, StartData, InOrder, Writing;
    if DATA_PREFIX <= e.path { DataKnown(env, o, s, e); }
    if APP_PREFIX <= e.path { AppKnown(env, o, s, e); }
    assert APP_PREFIX[0] == 97 && MANIFEST[0] == 109 && CHECKSUM[0] == 99;
  }

  lemma EntryKnown(env: Env, o: Options, s: Tar, e: Entry)
    requires WriterOk(o, s) && s.pos.phase == InHeader && o.hasAbort
    ensures Sent(o, e, StartEntry(env, o, s, e))
  {
    hide StartFs, StartOta, InOrder, Writing;
    var t := Opened(s, e);
    var d := if o.digestMode then StartDigest(t, e) else Step(Ok, t);
    if o.otaLayout { OtaKnown(env, o, d.tar, e); } else { FsKnown(env, o, d.tar, e, e.path); }
  }

  // ---- bytes ----

  /** Where the entry read last starts and ends, and whether the writer gets it. */
  ghost predicate Position(o: Options, s: Tar) {
    var es := s.past.entries;
    if s.pos.phase == InFile then
      && es != [] && var l := es[|es| - 1];
      && |s.past.stream| == l.at + l.entry.size - s.pos.remaining && s.pos.remaining > 0
      && (s.cur.output == ToApp <==> ForWriter(o, l.entry))
    else es != [] ==> |s.past.stream| >= es[|es| - 1].at + es[|es| - 1].entry.size
  }

  lemma EntryPlaced(env: Env, o: Options, s: Tar, e: Entry)
    requires WriterOk(o, s) && s.pos.phase == InHeader && o.hasAbort && (e.kind == Dir ==> e.size == 0)
    ensures var r := StartEntry(env, o, s, e); Handled(o, r) && (r.code == Ok ==> Position(o, r.tar))
  {
    hide StartEntry, ForWriter, InOrder, Writing;
    EntryKnown(env, o, s, e);
    EntryEntered(env, o, s, e);
    EntryRecorded(env, o, s, e);
  }

  lemma EntryRecorded(env: Env, o: Options, s: Tar, e: Entry)
    ensures var t := StartEntry(env, o, s, e).tar;
      && t.past.entries == s.past.entries + [Located(e, |s.past.stream|)] && t.past.stream == s.past.stream
      && t.pos.remaining == e.size && t.pos.padding == Padding(e.size)
  {
    hide StartFs, StartOta, StartDigest;
  }

  lemma HeaderKnown(env: Env, o: Options, s: Tar, b: byte)
    requires WriterOk(o, s) && Position(o, s) && s.pos.phase == InHeader && o.hasAbort
    ensures var r := HeaderByte(env, o, s, b); Handled(o, r) && (r.code == Ok ==> Position(o, r.tar))
  {
    hide StartEntry, ForWriter, InOrder, Writing;
    var t := Headed(s, [b]);
    var u := t.(pos := t.pos.(header := []));
    match ParseHeader(env, t.pos.header)
    case Header(e) => EntryPlaced(env, o, u.(pos := u.pos.(zeroBlocks := 0)), e);
    case _ =>
  }

  lemma AbsorbKnown(env: Env, o: Options, s: Tar, b: byte)
    requires WriterOk(o, s) && Position(o, s) && s.pos.phase == InFile
    ensures Armed(o, Absorb(s, [b])) && Absorb(s, [b]).pos.phase == InFile
    ensures Known(o, Refuse(env, s, [b]))
  {
    hide HasSuffix, ForWriter, InOrder, Writing;
    if s.cur.output == ToApp {
      assert AppBytes([b]) == [AppEvent(AppByte(b), true)];
      OneMore(s.appLog, AppEvent(AppByte(b), true));
      OneMore(s.appLog, AppEvent(AppByte(b), false));
      assert [b][..0] == [] && s.appLog + AppBytes([]) == s.appLog;
    }
  }

  lemma FileKnown(env: Env, o: Options, s: Tar, b: byte)
    requires WriterOk(o, s) && Position(o, s) && s.pos.phase == InFile && o.hasAbort
    ensures var r := FileByte(env, o, s, b); Handled(o, r) && (r.code == Ok ==> Position(o, r.tar))
  {
    hide FinishFile, SinkCode, SinkOf, Refuse, ForWriter, InOrder, Writing;
    AbsorbKnown(env, o, s, b);
    var t := Absorb(s, [b]);
    FinishKnown(env, o, t);
    FinishPhase(env, o, t);
  }

  lemma PaddingKnown(o: Options, s: Tar, b: byte)
    requires WriterOk(o, s) && Position(o, s) && s.pos.phase == InPadding
    ensures var r := PaddingByte(o, s, b); Handled(o, r) && (r.code == Ok ==> Position(o, r.tar))
  {
    hide ForWriter, InOrder, Writing;
  }

  ghost predicate Reading(o: Options, s: Tar) { WriterOk(o, s) && Position(o, s) && H.DoneBetween(s) }

  lemma ByteKnown(env: Env, o: Options, s: Tar, b: byte)
    requires Reading(o, s) && o.hasAbort
    ensures var r := ByteStep(env, o, s, b);
      InOrder(r.tar.appLog) && if r.code == Ok then Reading(o, r.tar) else !Writing(r.tar.appLog)
  {
    hide HeaderByte, FileByte, PaddingByte, Release, Position, InOrder, Writing;
    H.ByteDone(env, o, s, b);
    if !s.pos.done {
      match s.pos.phase
      case InHeader => HeaderKnown(env, o, s, b); ReleaseKnown(o, HeaderByte(env, o, s, b).tar);
      case InFile => FileKnown(env, o, s, b); ReleaseKnown(o, FileByte(env, o, s, b).tar);
      case InPadding => PaddingKnown(o, s, b); ReleaseKnown(o, PaddingByte(o, s, b).tar);
    }
  }

  lemma {:induction false} FoldKnown(env: Env, o: Options, s: Tar, bytes: seq<byte>)
    requires Reading(o, s) && o.hasAbort
    ensures var r := Fold(env, o, s, bytes);
      InOrder(r.tar.appLog) && if r.code == Ok then Reading(o, r.tar) else !Writing(r.tar.appLog)
    decreases |bytes|
  {
    hide ByteStep, Position, InOrder, Writing;
    if bytes != [] {
      ByteKnown(env, o, s, bytes[0]);
      var r := ByteStep(env, o, s, bytes[0]);
      if r.code == Ok { FoldKnown(env, o, r.tar, bytes[1..]); }
    }
  }

  // ---- whole installs ----

  /** The last entry of the archive is the app, and its contents are cut short. */
  predicate CutInApp(env: Env, o: Options, archive: seq<byte>) {
    var es := Entries(env, archive);
    es != [] && var l := es[|es| - 1]; ForWriter(o, l.entry) && |archive| < l.at + l.entry.size
  }

  lemma FinishQuiet(env: Env, o: Options, s: Tar)
    requires s.cur.outFile.None? && s.cur.pixa == []
    ensures var r := Finish(env, o, s); r.tar.appLog == s.appLog && (s.pos.phase == InFile ==> r.code == BadTar)
  {
    hide WriteFile;
    if o.checksumPath.Some? {
      var c := EnsureCleared(env, o, s).tar;
      WriteFileQuiet(env, c, o.checksumPath.value, c.ota.checksum);
    }
  }

  lemma {:induction false} WriteAllQuiet(env: Env, s: Tar, path: Path, bytes: seq<byte>)
    ensures WriteAll(env, s, path, bytes).0.appLog == s.appLog
    decreases |bytes|
  {
    if bytes != [] { WriteAllQuiet(env, Call(env, s, WriteByte(path, bytes[0])).0, path, bytes[1..]); }
  }

  lemma WriteFileQuiet(env: Env, s: Tar, path: Path, bytes: seq<byte>)
    ensures WriteFile(env, s, path, bytes).0.appLog == s.appLog
  {
    hide WriteAll;
    WriteAllQuiet(env, Call(env, s, OpenTruncate(path)).0, path, bytes);
  }

  /** With a writer that can be aborted, the install of any archive calls it in order and
      leaves it open exactly when the bytes were taken to their end and that is inside the
      app; every other failure aborts it and an accepted install has ended it. */
  lemma WriterLeftOpen(env: Env, o: Options, archive: seq<byte>)
    requires o.hasAbort
    ensures var r := Install(env, o, archive);
      && InOrder(r.tar.appLog)
      && (Writing(r.tar.appLog) <==> Fold(env, o, INIT, archive).code == Ok && CutInApp(env, o, archive))
      && (Writing(r.tar.appLog) ==> r.code == BadTar)
  {
    hide Fold, Finish, InOrder, Writing, Position, Entries, ForWriter;
    NothingWritten(o);
    FoldKnown(env, o, INIT, archive);
    var r := Fold(env, o, INIT, archive);
    if r.code == Ok {
      EndsInApp(env, o, archive);
      if r.tar.ota.writerActive { FinishQuiet(env, o, r.tar); } else { FinishReleases(env, o, r.tar); }
    }
  }

  lemma NothingWritten(o: Options)
    ensures Reading(o, INIT) && InOrder([]) && !Writing([])
  {
  }

  lemma FinishReleases(env: Env, o: Options, s: Tar)
    requires !s.ota.writerActive
    ensures Finish(env, o, s).tar.appLog == s.appLog
  {
    hide FinishOta;
    if s.cur.outFile.None? && s.cur.pixa == [] { FinishQuiet(env, o, s); }
  }

  lemma EndsInApp(env: Env, o: Options, archive: seq<byte>)
    requires Fold(env, o, INIT, archive).code == Ok && Reading(o, Fold(env, o, INIT, archive).tar)
    ensures var t := Fold(env, o, INIT, archive).tar;
      (t.pos.phase == InFile && t.cur.output == ToApp) <==> CutInApp(env, o, archive)
  {
    hide Fold, Entries, ForWriter, InOrder, Writing, WellFormed, Honest, OnTrack;
    assert Between(INIT) by { InitBetween(); }
    StartOnTrack(env, INIT, archive);
    FoldOnTrack(env, o, INIT, archive, archive);
    FoldKeepsWellFormed(env, o, INIT, archive);
    var t := Fold(env, o, INIT, archive).tar;
    NothingLeft(env, t, archive);
    ReadSoFar(env, t, archive);
  }

  lemma ReadSoFar(env: Env, s: Tar, archive: seq<byte>)
    requires OnTrack(env, s, archive) && (s.pos.done || s.past.stream == archive)
    ensures |s.past.stream| <= |archive| && (s.pos.phase == InFile ==> s.past.stream == archive)
  {
    hide Entries, Scan;
  }

  // ---- such an archive ----

  const SUM := Entry(CHECKSUM, 1, File)
  const CUT := Entry(APP_PREFIX + [120], 1, File)

  /** A writer and a file system that refuse nothing; a block names one of two entries by its first byte. */
  ghost function CutEnv(): Env {
    Env(block => Header(if block != [] && block[0] == CHECKSUM[0] then SUM else CUT), _ => 0, map[],
        (_, _) => true, _ => true, (_, _) => true, _ => true, _ => {}, _ => map[])
  }

  const CUT_OPTIONS := Options([], true, false, false, true, None, None, true, true, true)

  function Filled(n: nat, b: byte): (s: seq<byte>)
    ensures |s| == n
  {
    seq(n, _ => b)
  }

  /** The checksum entry, and the header of an app whose one byte is missing. */
  function CutArchive(): seq<byte> {
    Filled(BLOCK, CHECKSUM[0]) + [65] + Filled(BLOCK - 1, 0) + Filled(BLOCK, 0)
  }

  /** What the checksum entry leaves: the checksum is seen and the next header awaited. */
  lemma SumTaken(env: Env, o: Options, block: seq<byte>) returns (t: Tar)
    requires o == CUT_OPTIONS && |block| == BLOCK && ParseHeader(env, block) == Header(SUM)
    ensures Fold(env, o, INIT, block + [65] + Filled(BLOCK - 1, 0)) == Step(Ok, t)
    ensures t.pos == INIT.pos && t.ota.checksumSeen && !t.ota.appSeen && t.appLog == []
  {
    hide Fold, ParseHeader;
    var h := Heading(INIT, block);
    var r := StartEntry(env, o, h, SUM);
    assert CHECKSUM != MANIFEST;
    assert r == Step(Ok, SetPhase(SetOutput(Opened(h, SUM), ToChecksum), InFile));
    assert SinkCode(env, r.tar, [65]) == Ok;
    var f := FinishFile(env, o, Absorb(r.tar, [65]));
    assert f.code == Ok && f.tar.pos == h.pos.(phase := InPadding, padding := BLOCK - 1);
    assert TakeEntry(env, o, h, SUM, [65]) == f;
    InitBetween();
    WholeIsFold(env, o, INIT, block, SUM, [65], Filled(BLOCK - 1, 0));
    t := Padded(f.tar, Filled(BLOCK - 1, 0));
  }

  lemma CutBegun(env: Env, o: Options, s: Tar)
    requires o == CUT_OPTIONS && s.ota.checksumSeen && !s.ota.appSeen && env.appOk(s.appLog, Begin(CUT))
    ensures var r := StartEntry(env, o, s, CUT);
      && r.code == Ok && r.tar.pos.phase == InFile && r.tar.appLog == s.appLog + [AppEvent(Begin(CUT), true)]
      && r.tar.cur.outFile.None? && r.tar.cur.pixa == []
  {
    var t := Opened(s, CUT);
    var path := CUT.path;
    assert path[0] == 97 && path[1] == 112 && |path| == 5 && APP_PREFIX <= path;
    assert MANIFEST[0] == 109 && CHECKSUM[0] == 99 && DATA_PREFIX[0] == 100 && |APP| == 3;
    assert StartEntry(env, o, s, CUT) == StartApp(env, o, t, CUT);
    assert t.cur.appEntry == CUT;
  }

  /** The first byte tells the two blocks apart. */
  lemma CutBlocks()
    ensures ParseHeader(CutEnv(), Filled(BLOCK, CHECKSUM[0])) == Header(SUM) && ParseHeader(CutEnv(), Filled(BLOCK, 0)) == Header(CUT)
  {
    assert Filled(BLOCK, CHECKSUM[0])[0] == 99 && Filled(BLOCK, 0)[0] == 0;
  }

  /** An install that fails with the writer open: the archive stops after the app's header. */
  lemma WriterForgotten()
    ensures var r := Install(CutEnv(), CUT_OPTIONS, CutArchive()); r.code == BadTar && Writing(r.tar.appLog)
  {
    hide Fold, ParseHeader, StartEntry, Filled, FinishOta;
    var env, o := CutEnv(), CUT_OPTIONS;
    var first, last := Filled(BLOCK, CHECKSUM[0]), Filled(BLOCK, 0);
    CutBlocks();
    var t := SumTaken(env, o, first);
    var front := first + [65] + Filled(BLOCK - 1, 0);
    assert CutArchive() == front + last && last == last + [] && t.pos.header + last == last;
    FoldConcat(env, o, INIT, front, last);
    FoldHeaderEnd(env, o, t, last, []);
    var u := Headed(t, last).(pos := t.pos);
    CutBegun(env, o, u);
    var r := StartEntry(env, o, u, CUT);
    assert HeaderBlock(env, o, u, last) == r;
    FoldNothing(env, o, r.tar);
    assert r.tar.appLog == [AppEvent(Begin(CUT), true)];
  }
}
