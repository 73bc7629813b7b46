/** File handles over whole installs: calls on files come in order, no install ends with a
    file open whatever fails on the way, and one that succeeds had no call fail. */
module BundleHandles {
  import opened Bytes
  import opened BundleTar
  import opened BundleFeed
  import opened BundleData
  import opened BundleTurn
  import opened Optional

  // ---- what a history of calls leaves open ----

  function Held(log: seq<FsEvent>): Option<Path> {
    if log == [] then None else
    var last := log[|log| - 1];
    match last.op
    case OpenTruncate(p) => if last.ok then Some(p) else Held(log[..|log| - 1])
    case Close(_) => None
    case _ => Held(log[..|log| - 1])
  }

  /** Only the open file is written, synced and closed; everything else waits until no
      file is open. */
  predicate Allowed(held: Option<Path>, op: FsOp) {
    match op
    case WriteByte(p, _) => held == Some(p)
    case Sync(p) => held == Some(p)
    case Close(p) => held == Some(p)
    case _ => held.None?
  }

  predicate Orderly(log: seq<FsEvent>) {
    log == [] || (Orderly(log[..|log| - 1]) && Allowed(Held(log[..|log| - 1]), log[|log| - 1].op))
  }

  /** From this call on all succeeded, and every file was closed right after it was synced. */
  predicate Durable(log: seq<FsEvent>, from: nat) {
    && (forall i :: from <= i < |log| ==> log[i].ok)
    && (forall i :: from <= i < |log| && log[i].op.Close? ==> i > 0 && log[i - 1].op == Sync(log[i].op.path))
  }

  function Hold(held: Option<Path>, e: FsEvent): Option<Path> {
    match e.op
    case OpenTruncate(p) => if e.ok then Some(p) else held
    case Close(_) => None
    case _ => held
  }

  lemma OneMore(log: seq<FsEvent>, e: FsEvent, from: nat)
    requires Orderly(log) && Allowed(Held(log), e.op)
    ensures Orderly(log + [e]) && Held(log + [e]) == Hold(Held(log), e)
    ensures Durable(log, from) && e.ok && !e.op.Close? ==> Durable(log + [e], from)
  {
    assert (log + [e])[..|log|] == log;
  }

  lemma {:induction false} ManyMore(log: seq<FsEvent>, p: Path, bytes: seq<byte>, from: nat)
    requires Orderly(log) && Held(log) == Some(p)
    ensures Orderly(log + Writes(p, bytes)) && Held(log + Writes(p, bytes)) == Some(p)
    ensures Durable(log, from) ==> Durable(log + Writes(p, bytes), from)
    decreases |bytes|
  {
    hide Orderly, Held, Durable;
    if bytes == [] {
      assert log + Writes(p, bytes) == log;
    } else {
      var front, e := bytes[..|bytes| - 1], FsEvent(WriteByte(p, bytes[|bytes| - 1]), true);
      ManyMore(log, p, front, from);
      OneMore(log + Writes(p, front), e, from);
      assert log + Writes(p, bytes) == log + Writes(p, front) + [e];
    }
  }

  // ---- the parser knows what is open ----

  ghost predicate Kept(s: Tar) { Orderly(s.fsLog) && Held(s.fsLog) == s.cur.outFile }

  /** No file is open and no contents are buffered. */
  predicate Empty(cur: Current) { cur.outFile.None? && cur.pixa == [] }

  ghost predicate FilesOk(s: Tar, from: nat) {
    Kept(s) && Durable(s.fsLog, from) && if s.pos.phase == InFile then OpenOk(s.cur) else Empty(s.cur)
  }

  /** A step that fails still knows what it left open. */
  ghost predicate Handled(r: Step, from: nat) { Kept(r.tar) && (r.code == Ok ==> FilesOk(r.tar, from)) }

  lemma CallKept(env: Env, s: Tar, op: FsOp, from: nat)
    requires Kept(s) && Allowed(s.cur.outFile, op) && !op.OpenTruncate? && !op.Close?
    ensures var (t, ok) := Call(env, s, op); Kept(t) && (Durable(s.fsLog, from) && ok ==> Durable(t.fsLog, from))
  {
    hide Orderly, Held, Durable;
    OneMore(s.fsLog, FsEvent(op, env.fsOk(s.fsLog, op)), from);
  }

  lemma ReleaseKept(o: Options, s: Tar)
    requires Kept(s)
    ensures var t := Release(o, s); Kept(t) && Empty(t.cur) && (s.cur.outFile.None? ==> t.fsLog == s.fsLog)
  {
    hide Orderly, Held;
    if s.cur.outFile.Some? { OneMore(s.fsLog, FsEvent(Close(s.cur.outFile.value), true), 0); }
  }

  lemma CloseKept(log: seq<FsEvent>, p: Path, synced: bool, closed: bool, from: nat)
    requires Orderly(log) && Held(log) == Some(p)
    ensures var all := log + [FsEvent(Sync(p), synced)] + [FsEvent(Close(p), closed)];
      && Orderly(log + [FsEvent(Sync(p), synced)]) && Held(log + [FsEvent(Sync(p), synced)]) == Some(p)
      && Orderly(all) && Held(all) == None
      && (Durable(log, from) && synced && closed ==> Durable(all, from))
  {
    var sync := FsEvent(Sync(p), synced);
    OneMore(log, sync, from);
    OneMore(log + [sync], FsEvent(Close(p), closed), from);
    var all := log + [sync] + [FsEvent(Close(p), closed)];
    assert all[|log|] == sync && forall i :: 0 <= i < |log| ==> all[i] == log[i];
  }

  lemma CompleteKept(env: Env, s: Tar, from: nat)
    requires Kept(s) && Durable(s.fsLog, from) && (HasSuffix(s.cur.entry.path, PIXA_SUFFIX) ==> s.cur.outFile.None?)
    ensures var r := CompleteOutput(env, s);
      Kept(r.tar) && (r.code == Ok ==> r.tar.cur.outFile.None? && Durable(r.tar.fsLog, from))
  {
    hide HasSuffix, Orderly, Held, Durable;
    if HasSuffix(s.cur.entry.path, PIXA_SUFFIX) {
      CallKept(env, s, ExtractPixa(s.cur.dstPath, s.cur.pixa, env.unpacked(s.fsLog)), from);
    } else if s.cur.outFile.Some? {
      var p := s.cur.outFile.value;
      var (u, synced) := Call(env, s, Sync(p));
      CloseKept(s.fsLog, p, synced, env.fsOk(u.fsLog, Close(p)), from);
    }
  }

  lemma FinishFsKept(env: Env, o: Options, s: Tar, from: nat)
    requires Kept(s) && Durable(s.fsLog, from) && (HasSuffix(s.cur.entry.path, PIXA_SUFFIX) ==> s.cur.outFile.None?)
    ensures Handled(FinishFs(env, o, s), from)
  {
    hide CompleteOutput, VerifyManifest, Record, HasSuffix, Orderly, Held, Durable;
    CompleteKept(env, s.(seen := VerifyManifest(env, o, s.cur, s.seen).1), from);
    ReleaseKept(o, s);
  }

  lemma FinishKept(env: Env, o: Options, s: Tar, from: nat)
    requires Kept(s) && Durable(s.fsLog, from) && OpenOk(s.cur)
    ensures Handled(FinishFile(env, o, s), from)
  {
    hide FinishFs, FinishChecksum, HasSuffix, Orderly, Held, Durable;
    FinishFsKept(env, o, CloseHash(s), from);
    FinishChecksumShape(env, o, CloseHash(s));
  }

  // ---- headers ----

  lemma ContentsKept(env: Env, o: Options, s: Tar, e: Entry, from: nat)
    requires Kept(s) && Durable(s.fsLog, from) && OpenOk(s.cur)
    ensures Handled(StartContents(env, o, s, e), from)
  {
    hide FinishFile, OpenOk, Orderly, Held, Durable;
    FinishKept(env, o, s, from);
  }

  lemma OutputKept(env: Env, o: Options, f: Tar, e: Entry, from: nat)
    requires Kept(f) && Durable(f.fsLog, from) && f.cur.outFile.None? && f.cur.output == ToFs
    requires HasSuffix(f.cur.entry.path, PIXA_SUFFIX) ==> HasSuffix(e.path, PIXA_SUFFIX)
    ensures Handled(StartOutput(env, o, f, e), from)
  {
    hide HasSuffix, StartContents, Orderly, Held, Durable;
    var dst := f.cur.dstPath;
    if Parent(dst) != [] { CallKept(env, f, MakeDirs(Parent(dst)), from); }
    var (u, made) := if Parent(dst) == [] then (f, true) else Call(env, f, MakeDirs(Parent(dst)));
    if made && HasSuffix(e.path, PIXA_SUFFIX) {
      ContentsKept(env, o, u, e, from);
    } else if made {
      var (w, isOpen) := Call(env, u, OpenTruncate(dst));
      OneMore(u.fsLog, FsEvent(OpenTruncate(dst), isOpen), from);
      if isOpen { ContentsKept(env, o, w.(cur := w.cur.(outFile := Some(dst))), e, from); }
    }
  }

  lemma FsKept(env: Env, o: Options, s: Tar, e: Entry, relative: Path, from: nat)
    requires Kept(s) && Durable(s.fsLog, from) && Empty(s.cur)
    requires HasSuffix(s.cur.entry.path, PIXA_SUFFIX) ==> HasSuffix(e.path, PIXA_SUFFIX)
    ensures Handled(StartFs(env, o, s, e, relative), from)
  {
    hide HasSuffix, StartOutput, SafeRelative, Orderly, Held, Durable;
    var dst := RootPrefix(o.dstRoot) + relative;
    var t := s.(cur := s.cur.(dstPath := dst));
    CallKept(env, t, MakeDirs(dst), from);
    OutputKept(env, o, SetOutput(t, ToFs), e, from);
  }

  lemma ClearKept(env: Env, o: Options, s: Tar, from: nat)
    requires Kept(s) && Durable(s.fsLog, from) && s.cur.outFile.None?
    ensures var r := EnsureCleared(env, o, s); Kept(r.tar) && (r.code == Ok ==> Durable(r.tar.fsLog, from))
  {
    hide Orderly, Held, Durable;
    CallKept(env, s, ClearData(o.dstRoot, env.wiped(s.fsLog)), from);
  }

  lemma DataKept(env: Env, o: Options, s: Tar, e: Entry, from: nat)
    requires Kept(s) && Durable(s.fsLog, from) && Empty(s.cur) && DATA_PREFIX <= e.path
    ensures Handled(StartData(env, o, s, e), from)
  {
    hide StartFs, EnsureCleared, HasSuffix, Orderly, Held, Durable;
    ClearedShape(env, o, s);
    ClearKept(env, o, s, from);
    var c := EnsureCleared(env, o, s);
    var relative := e.path[|DATA_PREFIX|..];
    if HasSuffix(relative, PIXA_SUFFIX) { SuffixBelow(e.path); }
    if c.code == Ok { FsKept(env, o, c.tar.(cur := c.tar.cur.(entry := Entry(relative, e.size, e.kind))), e, relative, from); }
  }

  lemma AppKept(env: Env, o: Options, s: Tar, e: Entry, from: nat)
    requires Kept(s) && Durable(s.fsLog, from) && Empty(s.cur)
    ensures Handled(StartApp(env, o, s, e), from)
  {
    hide StartContents, Orderly, Held, Durable;
    var t := s.(ota := s.ota.(appSeen := true));
    var u := AppCall(env, SetOutput(t, ToApp), Begin(t.cur.appEntry)).0;
    ContentsKept(env, o, u.(ota := u.ota.(writerActive := true)), e, from);
  }

  lemma EntryKept(env: Env, o: Options, s: Tar, e: Entry, from: nat)
    requires FilesOk(s, from) && s.pos.phase == InHeader
    ensures Handled(StartEntry(env, o, s, e), from)
  {
    hide StartFs, StartApp, StartData, HasSuffix, Orderly, Held, Durable;
    var t := Opened(s, e);
    var d := if o.digestMode then StartDigest(t, e) else Step(Ok, t);
    FsKept(env, o, d.tar, e, e.path, from);
    AppKept(env, o, d.tar, e, from);
    if DATA_PREFIX <= e.path { DataKept(env, o, d.tar, e, from); }
  }

  // ---- bytes ----

  lemma HeaderKept(env: Env, o: Options, s: Tar, b: byte, from: nat)
    requires FilesOk(s, from) && s.pos.phase == InHeader
    ensures Handled(HeaderByte(env, o, s, b), from)
  {
    hide StartEntry, ParseHeader, Orderly, Held, Durable;
    var t := Headed(s, [b]);
    var u := t.(pos := t.pos.(header := []));
    match ParseHeader(env, t.pos.header)
    case Header(e) => EntryKept(env, o, u.(pos := u.pos.(zeroBlocks := 0)), e, from);
    case _ =>
  }

  lemma AbsorbKept(s: Tar, b: byte, from: nat)
    requires FilesOk(s, from) && s.pos.phase == InFile && s.pos.remaining > 0
    ensures FilesOk(Absorb(s, [b]), from)
  {
    hide HasSuffix, Orderly, Held, Durable;
    if SinkOf(s.cur).FileSink? { ManyMore(s.fsLog, SinkOf(s.cur).path, [b], from); }
  }

  lemma RefuseKept(env: Env, s: Tar, b: byte, from: nat)
    requires FilesOk(s, from) && s.pos.phase == InFile
    ensures Kept(Refuse(env, s, [b]))
  {
    hide HasSuffix, Orderly, Held, Durable;
    if SinkOf(s.cur).FileSink? {
      var p := SinkOf(s.cur).path;
      var k := FileTakes(env, s.fsLog, p, [b]);
      if k == 0 {
        assert [b][..0] == [] && s.fsLog + Writes(p, []) == s.fsLog;
        OneMore(s.fsLog, FsEvent(WriteByte(p, b), false), from);
      }
    }
  }

  lemma FileKept(env: Env, o: Options, s: Tar, b: byte, from: nat)
    requires FilesOk(s, from) && s.pos.phase == InFile
    ensures Handled(FileByte(env, o, s, b), from)
  {
    hide FinishFile, SinkCode, Refuse, Absorb, OpenOk, Orderly, Held, Durable;
    if s.pos.remaining == 0 {
      FinishKept(env, o, s, from);
    } else {
      RefuseKept(env, s, b, from);
      AbsorbKept(s, b, from);
      assert Absorb(s, [b]).pos.phase == InFile by { AbsorbPhase(s, b); }
      FinishKept(env, o, Absorb(s, [b]), from);
    }
  }

  lemma AbsorbPhase(s: Tar, b: byte)
    requires s.pos.remaining > 0
    ensures Absorb(s, [b]).pos.phase == s.pos.phase
  {
  }

  /** The end marker is only found between entries. */
  ghost predicate DoneBetween(s: Tar) { s.pos.done ==> s.pos.phase == InHeader }

  /** After an error nothing is open. */
  lemma ByteKept(env: Env, o: Options, s: Tar, b: byte, from: nat)
    requires FilesOk(s, from) && DoneBetween(s)
    ensures var r := ByteStep(env, o, s, b); Handled(r, from) && (r.code == Ok || Empty(r.tar.cur))
  {
    hide HeaderByte, FileByte, Release, OpenOk, Orderly, Held, Durable;
    if !s.pos.done {
      match s.pos.phase
      case InHeader => HeaderKept(env, o, s, b, from); ReleaseKept(o, HeaderByte(env, o, s, b).tar);
      case InFile => FileKept(env, o, s, b, from); ReleaseKept(o, FileByte(env, o, s, b).tar);
      case InPadding => ReleaseKept(o, PaddingByte(o, s, b).tar);
    }
  }

  lemma FileDone(env: Env, o: Options, s: Tar, b: byte)
    ensures FileByte(env, o, s, b).tar.pos.done == s.pos.done
  {
    hide SinkCode, SinkOf, FinishFile;
  }

  lemma ByteDone(env: Env, o: Options, s: Tar, b: byte)
    requires DoneBetween(s)
    ensures var r := ByteStep(env, o, s, b); r.code == Ok ==> DoneBetween(r.tar)
  {
    hide FileByte, StartFs, StartOta, StartDigest;
    FileDone(env, o, s, b);
  }

  lemma {:induction false} FoldKept(env: Env, o: Options, s: Tar, bytes: seq<byte>, from: nat)
    requires FilesOk(s, from) && DoneBetween(s)
    ensures var r := Fold(env, o, s, bytes); Handled(r, from) && (r.code == Ok || Empty(r.tar.cur))
    decreases |bytes|
  {
    hide ByteStep, OpenOk, Orderly, Held, Durable;
    if bytes != [] {
      ByteKept(env, o, s, bytes[0], from);
      ByteDone(env, o, s, bytes[0]);
      var r := ByteStep(env, o, s, bytes[0]);
      if r.code == Ok { FoldKept(env, o, r.tar, bytes[1..], from); }
    }
  }

  // ---- the end of an install ----

  lemma {:induction false} WriteAllKept(env: Env, s: Tar, path: Path, bytes: seq<byte>, from: nat)
    requires Orderly(s.fsLog) && Held(s.fsLog) == Some(path) && Durable(s.fsLog, from)
    ensures var t := WriteAll(env, s, path, bytes).0;
      && Orderly(t.fsLog) && Held(t.fsLog) == Some(path) && t.cur == s.cur && t.pos == s.pos
      && (WriteAll(env, s, path, bytes).1 ==> Durable(t.fsLog, from))
    decreases |bytes|
  {
    hide Orderly, Held, Durable;
    if bytes != [] {
      var (t, ok) := Call(env, s, WriteByte(path, bytes[0]));
      OneMore(s.fsLog, FsEvent(WriteByte(path, bytes[0]), ok), from);
      if ok { WriteAllKept(env, t, path, bytes[1..], from); }
    }
  }

  /** The checksum file is closed whatever fails. */
  lemma WriteFileKept(env: Env, s: Tar, path: Path, bytes: seq<byte>, from: nat)
    requires Kept(s) && Durable(s.fsLog, from) && s.cur.outFile.None?
    ensures var (t, ok) := WriteFile(env, s, path, bytes);
      Kept(t) && t.cur == s.cur && (ok ==> Durable(t.fsLog, from))
  {
    hide Orderly, Held, Durable, WriteAll;
    var (t, isOpen) := Call(env, s, OpenTruncate(path));
    OneMore(s.fsLog, FsEvent(OpenTruncate(path), isOpen), from);
    if isOpen {
      WriteAllKept(env, t, path, bytes, from);
      var (u, written) := WriteAll(env, t, path, bytes);
      if written {
        var (w, synced) := Call(env, u, Sync(path));
        CloseKept(u.fsLog, path, synced, env.fsOk(w.fsLog, Close(path)), from);
      } else {
        OneMore(u.fsLog, FsEvent(Close(path), env.fsOk(u.fsLog, Close(path))), from);
      }
    }
  }

  lemma FinishOtaKept(env: Env, o: Options, s: Tar, from: nat)
    requires Kept(s) && Durable(s.fsLog, from) && Empty(s.cur)
    ensures var r := FinishOta(env, o, s); Kept(r.tar) && Empty(r.tar.cur) && (r.code == Ok ==> Durable(r.tar.fsLog, from))
  {
    hide EnsureCleared, WriteFile, Orderly, Held, Durable;
    ClearedShape(env, o, s);
    ClearKept(env, o, s, from);
    var c := EnsureCleared(env, o, s);
    if c.code == Ok && o.checksumPath.Some? {
      WriteFileKept(env, c.tar, o.checksumPath.value, c.tar.ota.checksum, from);
    }
  }

  lemma EndKept(env: Env, o: Options, s: Tar, from: nat)
    requires FilesOk(s, from)
    ensures var r := Finish(env, o, s); Kept(r.tar) && Empty(r.tar.cur) && (r.code == Ok ==> Durable(r.tar.fsLog, from))
  {
    hide FinishOta, Release, OpenOk, Orderly, Held, Durable;
    ReleaseKept(o, s);
    if Empty(s.cur) { FinishOtaKept(env, o, s, from); }
  }

  /** An install of any archive, with any failures, uses files in order and closes what it
      opens; it succeeds only if every call did, with every file synced before its close. */
  lemma FilesClosed(env: Env, o: Options, archive: seq<byte>)
    ensures var r := Install(env, o, archive);
      Orderly(r.tar.fsLog) && Held(r.tar.fsLog) == None && r.tar.cur.pixa == [] && (r.code == Ok ==> Durable(r.tar.fsLog, 0))
  {
    hide Fold, Finish, Orderly, Held, Durable;
    var from := 0;
    NothingOpen(from);
    FoldKept(env, o, INIT, archive, from);
    var r := Fold(env, o, INIT, archive);
    if r.code == Ok { EndKept(env, o, r.tar, from); }
  }

  lemma NothingOpen(from: nat)
    ensures Orderly([]) && Held([]) == None && Durable([], from)
  {
  }

  lemma RemovedFirst(env: Env, m: DataManifest, ck: Path)
    ensures FilesOk(Call(env, Started(m), Remove(ck)).0, 1)
  {
    OneMore([], FsEvent(Remove(ck), env.fsOk([], Remove(ck))), 1);
  }

  /** The same of a format-2 install, once it has removed the old checksum. */
  lemma DataFilesClosed(env: Env, root: Path, ck: Path, m: DataManifest, h: Hasher, delivered: seq<byte>, inflated: bool)
    ensures var r := InstallData(env, root, ck, m, h, delivered, inflated);
      Orderly(r.tar.fsLog) && Held(r.tar.fsLog) == None && r.tar.cur.pixa == [] && (r.code == Ok ==> Durable(r.tar.fsLog, 1))
  {
    hide Fold, Finish, Release, Vouched, OpenOk, Orderly, Held, Durable;
    var from := 1;
    NothingOpen(from);
    var o := DataOptions(root, ck);
    var (s, removed) := Call(env, Started(m), Remove(ck));
    RemovedFirst(env, m, ck);
    FoldKept(env, o, s, delivered, from);
    var r := Fold(env, o, s, delivered);
    ReleaseKept(o, r.tar);
    if r.code == Ok {
      EndKept(env, o, r.tar, from);
      ReleaseKept(o, Finish(env, o, r.tar).tar);
    }
  }
}
