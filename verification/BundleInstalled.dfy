/** What an accepted OTA archive leaves on disk when the data was outdated: the contents
    of its data files, where no later entry of the archive went over them. */
module BundleInstalled {
  import opened Bytes
  import opened BundleTar
  import opened BundleFeed
  import opened BundleGrammar
  import opened BundleOta
  import opened Optional
  import D = BundleData
  import V = BundleVouch

  predicate IsDataEntry(e: Entry) { DATA_PREFIX <= e.path }

  /** A file that is written as it is, below the data root. */
  predicate IsDataFile(e: Entry) { DATA_PREFIX <= e.path && e.kind == File && !D.IsPixa(e.path) }

  /** A later entry is written to the same place, or extracted over it. */
  ghost predicate Overwritten(root: Path, es: seq<Located>, i: nat)
    requires i < |es| && IsDataEntry(es[i].entry)
  {
    exists j :: i < j < |es| && D.Names(root, D.Target(root, es[i].entry.path), es[j].entry)
  }

  ghost predicate Installed(disk: map<Path, seq<byte>>, root: Path, l: Located, stream: seq<byte>)
    requires IsDataEntry(l.entry)
  {
    var p := D.Target(root, l.entry.path);
    Within(l, stream) && p in disk && disk[p] == Contents(l, stream)
  }

  ghost predicate Settled(env: Env, root: Path, es: seq<Located>, i: nat, stream: seq<byte>, log: seq<FsEvent>)
    requires i < |es|
  {
    IsDataFile(es[i].entry) ==> Overwritten(root, es, i) || Installed(Replay(env.disk, log), root, es[i], stream)
  }

  /** The first `n` entries are on disk, but for those overwritten. */
  ghost predicate AllSettled(env: Env, root: Path, es: seq<Located>, n: nat, stream: seq<byte>, log: seq<FsEvent>) {
    n <= |es| && forall i :: 0 <= i < n ==> Settled(env, root, es, i, stream, log)
  }

  ghost predicate NoData(es: seq<Located>) { forall i :: 0 <= i < |es| ==> !IsDataEntry(es[i].entry) }

  /** Calls that leave alone whatever `e` is not written to or extracted over. */
  ghost predicate OnlyTouches(env: Env, root: Path, e: Entry, before: seq<FsEvent>, after: seq<FsEvent>) {
    forall p :: !D.Names(root, p, e) ==> V.Kept(env, before, after, p)
  }

  lemma SettledStays(env: Env, root: Path, es: seq<Located>, i: nat, stream: seq<byte>, more: seq<byte>,
                     before: seq<FsEvent>, after: seq<FsEvent>)
    requires i + 1 < |es| && Settled(env, root, es, i, stream, before)
    requires OnlyTouches(env, root, es[|es| - 1].entry, before, after)
    ensures Settled(env, root, es, i, stream + more, after)
  {
    hide Replay, D.Names, D.IsPixa;
    if IsDataFile(es[i].entry) && !Overwritten(root, es, i) {
      var p := D.Target(root, es[i].entry.path);
      assert !D.Names(root, p, es[|es| - 1].entry);
      assert V.Kept(env, before, after, p);
      assert Contents(es[i], stream + more) == Contents(es[i], stream);
    }
  }

  lemma AllSettledStays(env: Env, root: Path, es: seq<Located>, stream: seq<byte>, more: seq<byte>,
                        before: seq<FsEvent>, after: seq<FsEvent>)
    requires es != [] && AllSettled(env, root, es, |es| - 1, stream, before)
    requires OnlyTouches(env, root, es[|es| - 1].entry, before, after)
    ensures AllSettled(env, root, es, |es| - 1, stream + more, after)
  {
    hide Settled, OnlyTouches;
    forall i | 0 <= i < |es| - 1 ensures Settled(env, root, es, i, stream + more, after) {
      SettledStays(env, root, es, i, stream, more, before, after);
    }
  }

  /** More of the stream and further entries change nothing for those settled. */
  lemma AllSettledGrows(env: Env, root: Path, es: seq<Located>, l: seq<Located>, n: nat, stream: seq<byte>,
                        more: seq<byte>, log: seq<FsEvent>)
    requires AllSettled(env, root, es, n, stream, log)
    ensures AllSettled(env, root, es + l, n, stream + more, log)
  {
    hide Replay, D.Names, D.IsPixa;
    forall i | 0 <= i < n ensures Settled(env, root, es + l, i, stream + more, log) {
      assert (es + l)[i] == es[i] && Settled(env, root, es, i, stream, log);
      if IsDataFile(es[i].entry) {
        if Overwritten(root, es, i) {
          var j :| i < j < |es| && D.Names(root, D.Target(root, es[i].entry.path), es[j].entry);
          assert (es + l)[j] == es[j];
        } else {
          assert Contents(es[i], stream + more) == Contents(es[i], stream);
        }
      }
    }
  }

  // ---- the invariant ----

  /** A data file is being read. */
  predicate InData(s: Tar) { s.pos.phase == InFile && s.cur.output !in {ToApp, ToChecksum, ToSkip} }

  /** The data file being read is on disk so far; a pixa archive is not written yet. */
  ghost predicate OutputOk(env: Env, root: Path, s: Tar, l: Located) {
    && DATA_PREFIX <= l.entry.path && l.entry.kind == File
    && s.cur.dstPath == D.Target(root, l.entry.path)
    && (D.IsPixa(s.cur.entry.path) ==> D.IsPixa(l.entry.path))
    && l.at <= |s.past.stream| && s.cur.crcInput == s.past.stream[l.at..]
    && var disk := Replay(env.disk, s.fsLog);
    if D.IsPixa(l.entry.path) then s.cur.outFile.None?
    else s.cur.outFile == Some(s.cur.dstPath) && s.cur.dstPath in disk && disk[s.cur.dstPath] == s.cur.crcInput
  }

  ghost predicate DiskInv(env: Env, o: Options, s: Tar) {
    var es := s.past.entries;
    && (!s.ota.checksumSeen ==> NoData(es))
    && (s.ota.installNeeded ==>
          && s.ota.checksumSeen && (!s.ota.cleared ==> NoData(es))
          && if InData(s)
             then es != [] && OutputOk(env, o.dstRoot, s, Last(s)) && AllSettled(env, o.dstRoot, es, |es| - 1, s.past.stream, s.fsLog)
             else AllSettled(env, o.dstRoot, es, |es|, s.past.stream, s.fsLog))
  }

  /** Without data entries there is nothing to settle. */
  lemma NoDataSettled(env: Env, root: Path, es: seq<Located>, stream: seq<byte>, log: seq<FsEvent>)
    requires NoData(es)
    ensures AllSettled(env, root, es, |es|, stream, log)
  {
  }

  /** Outside data files the history only grows. */
  lemma IdleKeepsDisk(env: Env, o: Options, s: Tar, t: Tar, more: seq<byte>)
    requires DiskInv(env, o, s) && !InData(s) && !InData(t)
    requires t.past.stream == s.past.stream + more && t.past.entries == s.past.entries
    requires t.fsLog == s.fsLog && t.ota.checksumSeen == s.ota.checksumSeen
    requires t.ota.installNeeded == s.ota.installNeeded && t.ota.cleared == s.ota.cleared
    ensures DiskInv(env, o, t)
  {
    hide Settled;
    assert s.past.entries + [] == s.past.entries;
    if s.ota.installNeeded {
      AllSettledGrows(env, o.dstRoot, s.past.entries, [], |s.past.entries|, s.past.stream, more, s.fsLog);
    }
  }

  // ---- reading a data file ----

  /** What the contents of a data file do to the log. */
  lemma AbsorbLog(env: Env, s: Tar, l: Located, bytes: seq<byte>, root: Path)
    requires OutputOk(env, root, s, l) && InData(s) && |bytes| <= s.pos.remaining && SinkCode(env, s, bytes) == Ok
    ensures var t := Absorb(s, bytes);
      && t.fsLog == (if D.IsPixa(l.entry.path) then s.fsLog else s.fsLog + Writes(s.cur.dstPath, bytes))
      && t.cur == s.cur.(crcInput := s.cur.crcInput + bytes, pixa := t.cur.pixa)
  {
    hide Replay, HasSuffix;
  }

  lemma AbsorbTouches(env: Env, o: Options, s: Tar, l: Located, bytes: seq<byte>)
    requires OutputOk(env, o.dstRoot, s, l) && InData(s) && |bytes| <= s.pos.remaining && SinkCode(env, s, bytes) == Ok
    ensures OutputOk(env, o.dstRoot, Absorb(s, bytes), l)
    ensures OnlyTouches(env, o.dstRoot, l.entry, s.fsLog, Absorb(s, bytes).fsLog)
  {
    hide Replay, HasSuffix, Absorb, SinkCode, Inside, Writes;
    AbsorbLog(env, s, l, bytes, o.dstRoot);
    AbsorbFields(s, bytes);
    TailGrows(s.past.stream, bytes, l.at);
    if !D.IsPixa(l.entry.path) { V.ReplayWrites(env.disk, s.fsLog, s.cur.dstPath, bytes); }
  }

  lemma AbsorbKeepsDisk(env: Env, o: Options, s: Tar, bytes: seq<byte>)
    requires DiskInv(env, o, s) && s.pos.phase == InFile && |bytes| <= s.pos.remaining && SinkCode(env, s, bytes) == Ok
    ensures DiskInv(env, o, Absorb(s, bytes))
  {
    hide OutputOk, AllSettled, OnlyTouches, SinkCode, HasSuffix;
    var t := Absorb(s, bytes);
    if !InData(s) {
      IdleKeepsDisk(env, o, s, t, bytes);
    } else if s.ota.installNeeded {
      AbsorbTouches(env, o, s, Last(s), bytes);
      AllSettledStays(env, o.dstRoot, s.past.entries, s.past.stream, bytes, s.fsLog, t.fsLog);
    }
  }

  // ---- finishing a data file ----

  lemma FinishFsTouches(env: Env, o: Options, s: Tar, root: Path, l: Located)
    requires OutputOk(env, root, s, l) && FinishFs(env, o, s).code == Ok
    ensures OnlyTouches(env, root, l.entry, s.fsLog, FinishFs(env, o, s).tar.fsLog)
    ensures !D.IsPixa(l.entry.path) ==> V.Kept(env, s.fsLog, FinishFs(env, o, s).tar.fsLog, s.cur.dstPath)
  {
    hide VerifyManifest, CompleteOutput, Replay, HasSuffix, Inside, Record;
    var t := s.(seen := VerifyManifest(env, o, s.cur, s.seen).1);
    forall p | !D.IsPixa(s.cur.entry.path) || !Inside(s.cur.dstPath, p)
      ensures V.Kept(env, s.fsLog, FinishFs(env, o, s).tar.fsLog, p)
    {
      V.CompleteKeepsDisk(env, t, p);
    }
    forall p | !D.Names(root, p, l.entry) ensures V.Kept(env, s.fsLog, FinishFs(env, o, s).tar.fsLog, p) {
      if D.IsPixa(s.cur.entry.path) { assert !Inside(s.cur.dstPath, p); }
    }
  }

  lemma LastInstalled(env: Env, root: Path, s: Tar, l: Located, after: seq<FsEvent>)
    requires OutputOk(env, root, s, l) && !D.IsPixa(l.entry.path)
    requires |s.past.stream| == l.at + l.entry.size && V.Kept(env, s.fsLog, after, s.cur.dstPath)
    ensures Installed(Replay(env.disk, after), root, l, s.past.stream)
  {
    hide Replay;
    assert Contents(l, s.past.stream) == s.past.stream[l.at..];
  }

  lemma AllButLast(env: Env, root: Path, es: seq<Located>, stream: seq<byte>, log: seq<FsEvent>)
    requires es != [] && AllSettled(env, root, es, |es| - 1, stream, log)
    requires Settled(env, root, es, |es| - 1, stream, log)
    ensures AllSettled(env, root, es, |es|, stream, log)
  {
  }

  /** A data file with all its bytes is on disk once it is finished. */
  lemma FinishFsKeepsDisk(env: Env, o: Options, s: Tar)
    requires DiskInv(env, o, SetPhase(s, InFile)) && s.ota.installNeeded && s.cur.output !in {ToApp, ToChecksum, ToSkip}
    requires s.past.entries != [] && |s.past.stream| == Last(s).at + Last(s).entry.size
    ensures var r := FinishFs(env, o, s); r.code == Ok ==> DiskInv(env, o, r.tar)
  {
    hide FinishFs, AllSettled, OnlyTouches, Replay, HasSuffix;
    FinishFsFrame(env, o, s);
    var r := FinishFs(env, o, s);
    if r.code == Ok {
      var es, l, root := s.past.entries, Last(s), o.dstRoot;
      assert OutputOk(env, root, s, l) by { assert OutputOk(env, root, SetPhase(s, InFile), l); }
      FinishFsTouches(env, o, s, root, l);
      assert s.past.stream + [] == s.past.stream;
      AllSettledStays(env, root, es, s.past.stream, [], s.fsLog, r.tar.fsLog);
      if !D.IsPixa(l.entry.path) { LastInstalled(env, root, s, l, r.tar.fsLog); }
      AllButLast(env, root, es, s.past.stream, r.tar.fsLog);
    }
  }

  lemma FinishOtherKeepsDisk(env: Env, o: Options, s: Tar)
    requires DiskInv(env, o, s) && s.pos.phase == InFile && s.cur.output in {ToApp, ToChecksum, ToSkip} && !s.cur.hashing
    ensures var r := FinishFile(env, o, s); r.code == Ok ==> DiskInv(env, o, r.tar)
  {
    hide AllSettled, NoData, FinishChecksum, FinishApp;
    FinishChecksumShape(env, o, s);
    FinishAppShape(env, o, s);
    var r := FinishFile(env, o, s).tar;
    if FinishFile(env, o, s).code == Ok && r.ota.installNeeded && !s.ota.installNeeded {
      NoDataSettled(env, o.dstRoot, s.past.entries, s.past.stream, s.fsLog);
    }
  }

  lemma FinishKeepsDisk(env: Env, o: Options, s: Tar)
    requires DiskInv(env, o, s) && Progress(s) && QuietInv(env, o, s)
    requires s.pos.phase == InFile && s.pos.remaining == 0 && !s.cur.hashing
    ensures var r := FinishFile(env, o, s); r.code == Ok ==> DiskInv(env, o, r.tar)
  {
    hide DiskInv, FinishFs, Outdated;
    if s.cur.output in {ToApp, ToChecksum, ToSkip} {
      FinishOtherKeepsDisk(env, o, s);
    } else {
      assert SetPhase(s, InFile) == s;
      FinishFsKeepsDisk(env, o, s);
    }
  }

  // ---- starting an entry ----

  /** An entry that is no data file joins those settled. */
  lemma OtherEntrySettled(env: Env, root: Path, es: seq<Located>, l: Located, stream: seq<byte>, log: seq<FsEvent>)
    requires AllSettled(env, root, es, |es|, stream, log) && !IsDataFile(l.entry)
    ensures AllSettled(env, root, es + [l], |es| + 1, stream, log)
  {
    hide Settled, IsDataFile;
    assert stream + [] == stream;
    AllSettledGrows(env, root, es, [l], |es|, stream, [], log);
    assert (es + [l])[|es|] == l;
    assert Settled(env, root, es + [l], |es|, stream, log) by { NoFileSettled(env, root, es + [l], |es|, stream, log); }
  }

  lemma NoFileSettled(env: Env, root: Path, es: seq<Located>, i: nat, stream: seq<byte>, log: seq<FsEvent>)
    requires i < |es| && !IsDataFile(es[i].entry)
    ensures Settled(env, root, es, i, stream, log)
  {
  }

  lemma NoDataAppend(es: seq<Located>, l: Located)
    requires NoData(es) && !IsDataEntry(l.entry)
    ensures NoData(es + [l])
  {
  }

  /** The entry is skipped, a directory, or goes to the app writer or the checksum. */
  lemma OtherStarts(env: Env, o: Options, s: Tar, t: Tar, l: Located)
    requires DiskInv(env, o, s) && !InData(s) && !InData(t)
    requires t.past.stream == s.past.stream && t.past.entries == s.past.entries + [l] && !IsDataFile(l.entry)
    requires t.ota.checksumSeen == s.ota.checksumSeen && t.ota.installNeeded == s.ota.installNeeded
    requires IsDataEntry(l.entry) ==> s.ota.checksumSeen && (s.ota.installNeeded ==> t.ota.cleared)
    requires s.ota.cleared ==> t.ota.cleared
    requires s.ota.installNeeded && (s.ota.cleared || !IsDataEntry(l.entry)) ==>
      forall p :: V.Kept(env, s.fsLog, t.fsLog, p)
    requires t.ota.cleared && !s.ota.cleared ==> IsDataEntry(l.entry)
    ensures DiskInv(env, o, t)
  {
    hide AllSettled, Replay;
    var es := s.past.entries;
    if !IsDataEntry(l.entry) && NoData(es) { NoDataAppend(es, l); }
    if s.ota.installNeeded {
      if s.ota.cleared || !IsDataEntry(l.entry) {
        KeptSettled(env, o.dstRoot, es, s.past.stream, s.fsLog, t.fsLog);
      } else {
        NoDataSettled(env, o.dstRoot, es, s.past.stream, t.fsLog);
      }
      OtherEntrySettled(env, o.dstRoot, es, l, s.past.stream, t.fsLog);
    }
  }

  lemma KeptSettled(env: Env, root: Path, es: seq<Located>, stream: seq<byte>, before: seq<FsEvent>, after: seq<FsEvent>)
    requires AllSettled(env, root, es, |es|, stream, before) && forall p :: V.Kept(env, before, after, p)
    ensures AllSettled(env, root, es, |es|, stream, after)
  {
    hide Replay, D.Names, D.IsPixa;
    forall i | 0 <= i < |es| ensures Settled(env, root, es, i, stream, after) {
      assert Settled(env, root, es, i, stream, before);
      if IsDataFile(es[i].entry) { assert V.Kept(env, before, after, D.Target(root, es[i].entry.path)); }
    }
  }

  lemma SameKept(env: Env, log: seq<FsEvent>)
    ensures forall p :: V.Kept(env, log, log, p)
  {
  }

  lemma OpenedTouches(env: Env, root: Path, s: Tar, x: Tar, e: Entry)
    requires DATA_PREFIX <= e.path && e.kind == File && s.ota.cleared && V.DiskOpened(env, root, s, x, e)
    ensures OnlyTouches(env, root, e, s.fsLog, x.fsLog)
  {
    hide Replay, HasSuffix;
  }

  /** The place of a data file is ready for its contents. */
  lemma DataFileReady(env: Env, o: Options, s: Tar, p: Tar, x: Tar, l: Located)
    requires DiskInv(env, o, s) && !InData(s) && s.ota.installNeeded && p == Opened(s, l.entry)
    requires l.at == |s.past.stream| && DATA_PREFIX <= l.entry.path && l.entry.kind == File
    requires x.past == p.past && x.ota == s.ota.(cleared := true) && V.DiskOpened(env, o.dstRoot, p, x, l.entry)
    requires x.cur == p.cur.(entry := Entry(l.entry.path[|DATA_PREFIX|..], l.entry.size, File),
      dstPath := D.Target(o.dstRoot, l.entry.path), output := ToFs,
      outFile := if D.IsPixa(l.entry.path) then None else Some(D.Target(o.dstRoot, l.entry.path)))
    ensures DiskInv(env, o, SetPhase(x, InFile))
  {
    hide AllSettled, Replay, HasSuffix, OnlyTouches;
    var es, all, root := s.past.entries, s.past.entries + [l], o.dstRoot;
    assert x.past.stream[l.at..] == [] && s.past.stream + [] == s.past.stream;
    if D.IsPixa(l.entry.path[|DATA_PREFIX|..]) { SuffixBelow(l.entry.path); }
    if !s.ota.cleared {
      NoDataSettled(env, root, es, s.past.stream, x.fsLog);
      AllSettledGrows(env, root, es, [l], |es|, s.past.stream, [], x.fsLog);
    } else {
      AllSettledGrows(env, root, es, [l], |es|, s.past.stream, [], s.fsLog);
      OpenedTouches(env, root, p, x, l.entry);
      AllSettledStays(env, root, all, s.past.stream, [], s.fsLog, x.fsLog);
    }
  }

  lemma DataFileStarts(env: Env, o: Options, s: Tar, e: Entry)
    requires DiskInv(env, o, s) && !InData(s) && s.ota.installNeeded && DATA_PREFIX <= e.path && e.kind == File
    ensures var r := StartData(env, o, Opened(s, e), e); r.code == Ok ==> DiskInv(env, o, r.tar)
  {
    hide StartData, DiskInv, FinishFs, HasSuffix, V.DiskOpened;
    var p, l := Opened(s, e), Located(e, |s.past.stream|);
    var x := V.DataShape(env, o, p, e);
    if StartData(env, o, p, e).code == Ok {
      DataFileReady(env, o, s, p, x, l);
      if e.size == 0 { FinishFsKeepsDisk(env, o, x); }
    }
  }

  lemma MakeDirsKept(env: Env, s: Tar, path: Path)
    ensures forall p :: V.Kept(env, s.fsLog, Call(env, s, MakeDirs(path)).0.fsLog, p)
  {
    V.MakeDirsKeepsDisk(env, s, path);
    hide Replay;
  }

  /** A data entry that is skipped, or is a directory. */
  lemma DataOtherShape(env: Env, o: Options, s: Tar, e: Entry)
    requires DATA_PREFIX <= e.path && (e.kind == Dir || !s.ota.installNeeded) && s.cur.output == NoOutput
    requires s.pos.phase == InHeader
    ensures var r := StartData(env, o, s, e); r.code == Ok ==>
      && s.ota.checksumSeen && !InData(r.tar)
      && r.tar.past == s.past && r.tar.ota == s.ota.(cleared := r.tar.ota.cleared)
      && (s.ota.installNeeded || s.ota.cleared ==> r.tar.ota.cleared)
      && (!s.ota.installNeeded ==> r.tar.ota == s.ota)
      && (s.ota.cleared && s.ota.installNeeded ==> forall p :: V.Kept(env, s.fsLog, r.tar.fsLog, p))
  {
    hide SafeRelative, Replay, EnsureCleared, V.Kept;
    ClearedShape(env, o, s);
    SameKept(env, s.fsLog);
    var c := EnsureCleared(env, o, s).tar;
    var relative := e.path[|DATA_PREFIX|..];
    var t := c.(cur := c.cur.(entry := Entry(relative, e.size, e.kind), dstPath := RootPrefix(o.dstRoot) + relative));
    MakeDirsKept(env, t, t.cur.dstPath);
  }

  lemma DataStarts(env: Env, o: Options, s: Tar, e: Entry)
    requires DiskInv(env, o, s) && !InData(s) && DATA_PREFIX <= e.path && s.pos.phase == InHeader
    ensures var r := StartData(env, o, Opened(s, e), e); r.code == Ok ==> DiskInv(env, o, r.tar)
  {
    hide StartData, Replay, AllSettled, D.IsPixa;
    if s.ota.installNeeded && e.kind == File {
      DataFileStarts(env, o, s, e);
    } else if StartData(env, o, Opened(s, e), e).code == Ok {
      DataOtherShape(env, o, Opened(s, e), e);
      var t := StartData(env, o, Opened(s, e), e).tar;
      if s.ota.installNeeded {
        OtherStarts(env, o, s, t, Located(e, |s.past.stream|));
      }
    }
  }

  lemma StartKeepsDisk(env: Env, o: Options, s: Tar, e: Entry)
    requires OtaRun(o) && DiskInv(env, o, s) && s.pos.phase == InHeader
    ensures var r := StartEntry(env, o, s, e); r.code == Ok ==> DiskInv(env, o, r.tar)
  {
    hide StartData, StartApp, DiskInv, V.Kept;
    PathsDiffer(e);
    var p := Opened(s, e);
    var r := StartOta(env, o, p, e);
    if r.code == Ok {
      if DATA_PREFIX <= e.path && e.path != MANIFEST && e.path != CHECKSUM {
        DataStarts(env, o, s, e);
      } else {
        StartAppShape(env, o, p, e);
        SameKept(env, s.fsLog);
        OtherStarts(env, o, s, r.tar, Located(e, |s.past.stream|));
      }
    }
  }

  // ---- whole runs ----

  lemma HeaderKeepsDisk(env: Env, o: Options, s: Tar, b: byte)
    requires OtaRun(o) && DiskInv(env, o, s) && s.pos.phase == InHeader
    ensures var r := HeaderByte(env, o, s, b); r.code == Ok ==> DiskInv(env, o, r.tar)
  {
    hide StartEntry, DiskInv;
    var t := Headed(s, [b]);
    IdleKeepsDisk(env, o, s, t, [b]);
    var u := t.(pos := t.pos.(header := []));
    match ParseHeader(env, t.pos.header)
    case Header(e) =>
      IdleKeepsDisk(env, o, s, u.(pos := u.pos.(zeroBlocks := 0)), [b]);
      StartKeepsDisk(env, o, u.(pos := u.pos.(zeroBlocks := 0)), e);
    case ZeroBlock => IdleKeepsDisk(env, o, s, HeaderBlock(env, o, u, t.pos.header).tar, [b]);
    case Bad(_) =>
  }

  lemma FileKeepsDisk(env: Env, o: Options, s: Tar, b: byte)
    requires Inv(env, o, s) && DiskInv(env, o, s) && s.pos.phase == InFile
    ensures var r := FileByte(env, o, s, b); r.code == Ok ==> DiskInv(env, o, r.tar)
  {
    hide DiskInv, FinishFile, SinkCode, AppInv, ChecksumInv, Outdated, Ordered, HasSuffix;
    if SinkCode(env, s, [b]) == Ok {
      AbsorbKeepsDisk(env, o, s, [b]);
      AbsorbKeepsFlow(env, o, s, [b]);
      var t := Absorb(s, [b]);
      if t.pos.remaining == 0 { FinishKeepsDisk(env, o, t); }
    }
  }

  lemma ByteKeepsDisk(env: Env, o: Options, s: Tar, b: byte)
    requires OtaRun(o) && Inv(env, o, s) && DiskInv(env, o, s)
    ensures var r := ByteStep(env, o, s, b); r.code == Ok ==> DiskInv(env, o, r.tar)
  {
    hide DiskInv, Inv, HeaderByte, FileByte;
    if !s.pos.done {
      match s.pos.phase
      case InHeader => HeaderKeepsDisk(env, o, s, b);
      case InFile => FileKeepsDisk(env, o, s, b);
      case InPadding =>
        if s.pos.padding > 0 {
          IdleKeepsDisk(env, o, s, Padded(s, [b]), [b]);
        } else {
          assert s.past.stream + [] == s.past.stream;
          IdleKeepsDisk(env, o, s, SetPhase(s, InHeader), []);
        }
    }
  }

  lemma {:induction false} FoldKeepsDisk(env: Env, o: Options, s: Tar, bytes: seq<byte>)
    requires OtaRun(o) && Inv(env, o, s) && DiskInv(env, o, s)
    ensures var r := Fold(env, o, s, bytes); r.code == Ok ==> Inv(env, o, r.tar) && DiskInv(env, o, r.tar)
    decreases |bytes|
  {
    hide DiskInv, Inv, ByteStep;
    if bytes != [] {
      ByteKeeps(env, o, s, bytes[0]);
      ByteKeepsDisk(env, o, s, bytes[0]);
      var r := ByteStep(env, o, s, bytes[0]);
      if r.code == Ok { FoldKeepsDisk(env, o, r.tar, bytes[1..]); }
    }
  }

  // ---- the end of the archive ----

  lemma {:induction false} WriteAllKeeps(env: Env, s: Tar, path: Path, bytes: seq<byte>, p: Path)
    requires p != path
    ensures V.Kept(env, s.fsLog, WriteAll(env, s, path, bytes).0.fsLog, p)
    decreases |bytes|
  {
    hide V.Kept;
    if bytes == [] {
      V.NothingKept(env, s.fsLog, p);
    } else {
      var op := WriteByte(path, bytes[0]);
      var c := Call(env, s, op).0;
      V.CallKept(env, s, op, p);
      WriteAllKeeps(env, c, path, bytes[1..], p);
      V.KeptOn(env, s.fsLog, c.fsLog, WriteAll(env, c, path, bytes[1..]).0.fsLog, p);
    }
  }

  lemma WriteFileKeeps(env: Env, s: Tar, path: Path, bytes: seq<byte>, p: Path)
    requires p != path
    ensures V.Kept(env, s.fsLog, WriteFile(env, s, path, bytes).0.fsLog, p)
  {
    hide WriteAll, V.Kept;
    var t := Call(env, s, OpenTruncate(path)).0;
    V.CallKept(env, s, OpenTruncate(path), p);
    WriteAllKeeps(env, t, path, bytes, p);
    var u := WriteAll(env, t, path, bytes).0;
    V.KeptOn(env, s.fsLog, t.fsLog, u.fsLog, p);
    V.CallKept(env, u, Sync(path), p);
    var w := if WriteAll(env, t, path, bytes).1 then Call(env, u, Sync(path)).0 else u;
    if w != u { V.KeptOn(env, s.fsLog, u.fsLog, w.fsLog, p); }
    V.CallKept(env, w, Close(path), p);
    V.KeptOn(env, s.fsLog, w.fsLog, Call(env, w, Close(path)).0.fsLog, p);
  }

  /** The last steps write only the checksum; a clear that comes as late as this finds no
      data entry in the archive. */
  lemma FinishKeepsFile(env: Env, o: Options, s: Tar, p: Path)
    requires OtaRun(o) && Finish(env, o, s).code == Ok && s.ota.cleared && o.checksumPath != Some(p)
    ensures V.Kept(env, s.fsLog, Finish(env, o, s).tar.fsLog, p)
  {
    hide WriteFile, Replay;
    if o.checksumPath.Some? { WriteFileKeeps(env, s, o.checksumPath.value, s.ota.checksum, p); }
  }

  /** A data file that neither a later entry nor the checksum goes over. */
  ghost predicate Remains(o: Options, es: seq<Located>, i: nat)
    requires i < |es|
  {
    && IsDataFile(es[i].entry) && !Overwritten(o.dstRoot, es, i)
    && o.checksumPath != Some(D.Target(o.dstRoot, es[i].entry.path))
  }

  ghost predicate DataInstalled(env: Env, o: Options, es: seq<Located>, archive: seq<byte>, log: seq<FsEvent>) {
    forall i :: 0 <= i < |es| && Remains(o, es, i) ==> Installed(Replay(env.disk, log), o.dstRoot, es[i], archive)
  }

  lemma FinishInstalls(env: Env, o: Options, s: Tar, archive: seq<byte>)
    requires OtaRun(o) && Finish(env, o, s).code == Ok && s.pos.phase == InHeader
    requires DiskInv(env, o, s) && s.ota.installNeeded && s.past.stream <= archive
    ensures DataInstalled(env, o, s.past.entries, archive, Finish(env, o, s).tar.fsLog)
  {
    hide Finish, Replay, D.Names, D.IsPixa;
    var es, log := s.past.entries, Finish(env, o, s).tar.fsLog;
    forall i | 0 <= i < |es| && Remains(o, es, i)
      ensures Installed(Replay(env.disk, log), o.dstRoot, es[i], archive)
    {
      assert Settled(env, o.dstRoot, es, i, s.past.stream, s.fsLog);
      FinishKeepsFile(env, o, s, D.Target(o.dstRoot, es[i].entry.path));
      assert Contents(es[i], archive) == Contents(es[i], s.past.stream);
    }
  }

  /** After an accepted OTA archive whose checksum was not yet installed, every data file of
      the archive that no later entry goes over is on disk byte for byte, whatever the
      clear and the extractions did. */
  lemma OtaInstallsData(env: Env, o: Options, archive: seq<byte>)
    requires OtaRun(o) && Install(env, o, archive).code == Ok
    requires Outdated(env, o, Install(env, o, archive).tar.ota.checksum)
    ensures DataInstalled(env, o, Entries(env, archive), archive, Install(env, o, archive).tar.fsLog)
  {
    hide Fold, Finish, Entries, DiskInv, DataInstalled, OrderInv, Outdated, AppInv, ChecksumInv;
    InitInv(env, o);
    assert DiskInv(env, o, INIT) by { InitDisk(env, o); }
    FoldKeepsDisk(env, o, INIT, archive);
    FoldReadsArchive(env, o, INIT, archive);
    var s := Fold(env, o, INIT, archive).tar;
    FinishOtaFrame(env, o, s);
    FinishInstalls(env, o, s, archive);
  }

  lemma InitDisk(env: Env, o: Options)
    ensures DiskInv(env, o, INIT)
  {
  }
}
