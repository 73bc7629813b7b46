/** What a committed format-2 checksum vouches for: the canonical stream of the
    installed files, strictly sorted, and their contents on disk. */
module BundleVouch {
  import opened Bytes
  import opened BundleTar
  import opened BundleFeed
  import opened BundleGrammar
  import opened BundleCrash
  import opened BundleData
  import opened BundleReach
  import opened BundleTurn
  import opened Optional
  import BundleOta
  import BundleManifest

  function Name(f: FileRec): Path { f.source.entry.path }

  /** What the digest sees of one file. */
  function Hashed(f: FileRec): seq<byte> { Name(f) + [0] + f.bytes + [0] }

  /** The canonical stream of a list of files. */
  function Canon(files: seq<FileRec>): seq<byte> {
    if files == [] then [] else Canon(files[..|files| - 1]) + Hashed(files[|files| - 1])
  }

  /** Bytes of the pixa files, or of all the others. */
  function Total(files: seq<FileRec>, pixa: bool): nat {
    if files == [] then 0 else
    var f := files[|files| - 1];
    Total(files[..|files| - 1], pixa) + if IsPixa(Name(f)) == pixa then f.source.entry.size else 0
  }

  ghost predicate Sorted(files: seq<FileRec>) {
    forall i, j :: 0 <= i < j < |files| ==> Before(Name(files[i]), Name(files[j]))
  }

  /** A data file of the archive, cut out of the stream, and its place below the root. */
  ghost predicate Cut(root: Path, stream: seq<byte>, f: FileRec) {
    && DATA_PREFIX <= Name(f) && f.dst == Target(root, Name(f)) && Below(root, f.dst)
    && (IsPixa(Name(f)) || Writable(root, f.dst))
    && BundleOta.Within(f.source, stream) && f.bytes == BundleOta.Contents(f.source, stream)
  }

  ghost predicate OnDisk(disk: map<Path, seq<byte>>, f: FileRec) {
    IsPixa(Name(f)) || (f.dst in disk && disk[f.dst] == f.bytes)
  }

  ghost predicate FilesInv(env: Env, root: Path, s: Tar) {
    && (forall j :: 0 <= j < |s.past.files| ==> Cut(root, s.past.stream, s.past.files[j]))
    && (forall j :: 0 <= j < |s.past.files| ==> OnDisk(Replay(env.disk, s.fsLog), s.past.files[j]))
    && Sorted(s.past.files)
  }

  /** Between entries. */
  ghost predicate IdleInv(env: Env, root: Path, s: Tar) {
    && FilesInv(env, root, s)
    && s.past.entries == BundleManifest.Sources(s.past.files)
    && s.digest.input == Canon(s.past.files)
    && s.digest.dataBytes == Total(s.past.files, false) && s.digest.pixaBytes == Total(s.past.files, true)
    && (forall j :: 0 <= j < |s.past.files| ==>
          Name(s.past.files[j]) == s.digest.lastPath || Before(Name(s.past.files[j]), s.digest.lastPath))
    && (!s.ota.cleared ==> s.past.files == [])
  }

  /** The entry being read: which one, where it goes, how far it got. */
  ghost predicate Identity(root: Path, s: Tar, l: Located) {
    && s.past.entries == BundleManifest.Sources(s.past.files) + [l]
    && s.cur.appEntry == l.entry && DATA_PREFIX <= l.entry.path
    && s.cur.dstPath == Target(root, l.entry.path) && Below(root, s.cur.dstPath)
    && (IsPixa(l.entry.path) || Writable(root, s.cur.dstPath))
    && s.cur.entry == Entry(l.entry.path[|DATA_PREFIX|..], l.entry.size, File)
    && s.cur.output == ToFs && s.cur.hashing && s.ota.cleared
    && s.pos.remaining <= l.entry.size && |s.past.stream| == l.at + l.entry.size - s.pos.remaining
    && s.cur.crcInput == s.past.stream[l.at..]
    && (forall j :: 0 <= j < |s.past.files| ==> Before(Name(s.past.files[j]), l.entry.path))
  }

  ghost predicate Counted(s: Tar, l: Located) {
    && s.digest.lastPath == l.entry.path
    && s.digest.input == Canon(s.past.files) + l.entry.path + [0] + s.cur.crcInput
    && s.digest.dataBytes == Total(s.past.files, false) + (if IsPixa(l.entry.path) then 0 else l.entry.size)
    && s.digest.pixaBytes == Total(s.past.files, true) + (if IsPixa(l.entry.path) then l.entry.size else 0)
  }

  ghost predicate Output(env: Env, s: Tar, l: Located) {
    var disk := Replay(env.disk, s.fsLog);
    if IsPixa(l.entry.path) then s.cur.outFile.None?
    else s.cur.outFile == Some(s.cur.dstPath) && s.cur.dstPath in disk && disk[s.cur.dstPath] == s.cur.crcInput
  }

  ghost predicate ReadInv(env: Env, root: Path, s: Tar, l: Located) {
    FilesInv(env, root, s) && Identity(root, s, l) && Counted(s, l) && Output(env, s, l)
  }

  lemma {:induction false} BeforeTransitive(a: Path, b: Path, c: Path)
    requires Before(a, b) && Before(b, c)
    ensures Before(a, c)
    decreases |a|
  {
    if |a| > 0 && a[0] == b[0] == c[0] { BeforeTransitive(a[1..], b[1..], c[1..]); }
  }

  lemma {:induction false} PrefixNotAfter(a: Path, b: Path)
    requires a <= b
    ensures !Before(b, a)
    decreases |a|
  {
    if |a| > 0 { PrefixNotAfter(a[1..], b[1..]); }
  }

  /** Nothing extracted for a later name reaches an earlier file. */
  lemma DistinctTargets(root: Path, a: Path, b: Path)
    requires DATA_PREFIX <= a && DATA_PREFIX <= b && Before(a, b)
    ensures Target(root, a) != Target(root, b) && !Inside(Target(root, b), Target(root, a))
  {
    var n, p := |DATA_PREFIX|, |RootPrefix(root)|;
    assert Target(root, a)[p..] == a[n..] && Target(root, b)[p..] == b[n..];
    if Target(root, b) <= Target(root, a) {
      assert a == DATA_PREFIX + a[n..] && b == DATA_PREFIX + b[n..];
      assert b <= a;
      PrefixNotAfter(b, a);
    }
    assert Target(root, b) <= RootPrefix(Target(root, b));
  }

  lemma WritesSnoc(log: seq<FsEvent>, p: Path, bytes: seq<byte>, b: byte)
    ensures log + Writes(p, bytes + [b]) == (log + Writes(p, bytes)) + [FsEvent(WriteByte(p, b), true)]
  {
  }

  lemma {:induction false} ReplayWrites(disk: map<Path, seq<byte>>, log: seq<FsEvent>, p: Path, bytes: seq<byte>)
    requires p in Replay(disk, log)
    ensures var d := Replay(disk, log); Replay(disk, log + Writes(p, bytes)) == d[p := d[p] + bytes]
    decreases |bytes|
  {
    hide Replay;
    var d := Replay(disk, log);
    if bytes == [] {
      assert log + Writes(p, bytes) == log;
      assert d[p] + bytes == d[p] && d[p := d[p]] == d;
    } else {
      var front, b := bytes[..|bytes| - 1], bytes[|bytes| - 1];
      ReplayWrites(disk, log, p, front);
      WritesSnoc(log, p, front, b);
      assert bytes == front + [b];
      BundleOta.ReplayStep(disk, log + Writes(p, front), FsEvent(WriteByte(p, b), true));
      assert d[p] + front + [b] == d[p] + bytes;
    }
  }

  /** Growing the stream and touching no finished file keeps them. */
  lemma FilesKept(env: Env, root: Path, s: Tar, t: Tar, more: seq<byte>)
    requires FilesInv(env, root, s)
    requires t.past.files == s.past.files && t.past.stream == s.past.stream + more
    requires forall j :: 0 <= j < |s.past.files| ==> Kept(env, s.fsLog, t.fsLog, s.past.files[j].dst)
    ensures FilesInv(env, root, t)
  {
    hide Below, Writable, Replay, Before, HasSuffix;
    forall j | 0 <= j < |t.past.files| ensures Cut(root, t.past.stream, t.past.files[j]) {
      var f := s.past.files[j];
      assert Cut(root, s.past.stream, f);
      assert BundleOta.Contents(f.source, s.past.stream + more) == BundleOta.Contents(f.source, s.past.stream);
    }
    forall j | 0 <= j < |t.past.files| ensures OnDisk(Replay(env.disk, t.fsLog), t.past.files[j]) {
      assert OnDisk(Replay(env.disk, s.fsLog), s.past.files[j]) && Kept(env, s.fsLog, t.fsLog, s.past.files[j].dst);
    }
  }

  /** The calls from one log to the other left this file alone. */
  ghost predicate Kept(env: Env, before: seq<FsEvent>, after: seq<FsEvent>, p: Path) {
    var a, b := Replay(env.disk, before), Replay(env.disk, after);
    p in a ==> p in b && b[p] == a[p]
  }

  lemma CanonAppend(files: seq<FileRec>, f: FileRec)
    ensures Canon(files + [f]) == Canon(files) + Hashed(f)
    ensures Total(files + [f], true) == Total(files, true) + if IsPixa(Name(f)) then f.source.entry.size else 0
    ensures Total(files + [f], false) == Total(files, false) + if IsPixa(Name(f)) then 0 else f.source.entry.size
  {
    assert (files + [f])[..|files|] == files;
  }

  // ---- reading an entry ----

  lemma DistinctCurrent(env: Env, root: Path, s: Tar, l: Located)
    requires FilesInv(env, root, s) && Identity(root, s, l)
    ensures forall j :: 0 <= j < |s.past.files| ==>
      s.past.files[j].dst != s.cur.dstPath && !Inside(s.cur.dstPath, s.past.files[j].dst)
  {
    hide Below, Writable, Replay, HasSuffix, Before, Inside;
    forall j | 0 <= j < |s.past.files|
      ensures s.past.files[j].dst != s.cur.dstPath && !Inside(s.cur.dstPath, s.past.files[j].dst)
    {
      assert Cut(root, s.past.stream, s.past.files[j]);
      DistinctTargets(root, Name(s.past.files[j]), l.entry.path);
    }
  }

  /** Where the bytes of the current entry go on disk. */
  lemma AbsorbWrites(env: Env, root: Path, s: Tar, l: Located, bytes: seq<byte>)
    requires Identity(root, s, l) && Output(env, s, l) && |bytes| <= s.pos.remaining && SinkCode(env, s, bytes) == Ok
    ensures var t := Absorb(s, bytes); var d := Replay(env.disk, s.fsLog);
      && t.cur == s.cur.(crcInput := s.cur.crcInput + bytes, pixa := t.cur.pixa)
      && (if IsPixa(l.entry.path) then t.fsLog == s.fsLog
          else s.cur.dstPath in d && Replay(env.disk, t.fsLog) == d[s.cur.dstPath := d[s.cur.dstPath] + bytes])
  {
    if HasSuffix(s.cur.entry.path, PIXA_SUFFIX) { SuffixBelow(l.entry.path); }
    if !IsPixa(l.entry.path) { ReplayWrites(env.disk, s.fsLog, s.cur.dstPath, bytes); }
    hide Replay, HasSuffix, Below, Writable;
  }

  lemma AbsorbIdentity(root: Path, s: Tar, l: Located, bytes: seq<byte>)
    requires Identity(root, s, l) && |bytes| <= s.pos.remaining
    ensures Identity(root, Absorb(s, bytes), l)
  {
    hide Below, Writable, HasSuffix, Before;
    assert (s.past.stream + bytes)[l.at..] == s.past.stream[l.at..] + bytes;
  }

  lemma AbsorbCounted(root: Path, s: Tar, l: Located, bytes: seq<byte>)
    requires Identity(root, s, l) && Counted(s, l) && |bytes| <= s.pos.remaining
    ensures Counted(Absorb(s, bytes), l)
  {
    hide Below, Writable, HasSuffix, Before, Canon, Total;
    var prefix := Canon(s.past.files) + l.entry.path + [0];
    assert prefix + s.cur.crcInput + bytes == prefix + (s.cur.crcInput + bytes);
  }

  lemma AbsorbPast(s: Tar, bytes: seq<byte>)
    requires |bytes| <= s.pos.remaining
    ensures Absorb(s, bytes).past == s.past.(stream := s.past.stream + bytes)
  {
    hide SinkOf;
  }

  lemma AbsorbReads(env: Env, root: Path, s: Tar, l: Located, bytes: seq<byte>)
    requires ReadInv(env, root, s, l) && |bytes| <= s.pos.remaining && SinkCode(env, s, bytes) == Ok
    ensures ReadInv(env, root, Absorb(s, bytes), l)
  {
    hide Replay, HasSuffix, FilesInv, Counted, Absorb, SinkCode, Below, Writable, Before, Inside;
    var t := Absorb(s, bytes);
    AbsorbWrites(env, root, s, l, bytes);
    DistinctCurrent(env, root, s, l);
    AbsorbIdentity(root, s, l, bytes);
    AbsorbCounted(root, s, l, bytes);
    AbsorbPast(s, bytes);
    FilesKept(env, root, s, t, bytes);
  }

  // ---- finishing an entry ----

  lemma HashedAssoc(c: seq<byte>, f: FileRec)
    ensures c + Name(f) + [0] + f.bytes + [0] == c + Hashed(f)
  {
  }

  lemma CountedAppend(s: Tar, t: Tar, l: Located, f: FileRec)
    requires Counted(s, l) && f.source == l && f.bytes == s.cur.crcInput
    requires t.past.files == s.past.files + [f] && t.digest == s.digest.(input := s.digest.input + [0])
    ensures t.digest.input == Canon(t.past.files)
    ensures t.digest.dataBytes == Total(t.past.files, false) && t.digest.pixaBytes == Total(t.past.files, true)
  {
    CanonAppend(s.past.files, f);
    HashedAssoc(Canon(s.past.files), f);
    hide Canon, Total, HasSuffix;
  }

  /** A call that cannot change this file. */
  predicate Harmless(op: FsOp, p: Path) {
    match op
    case OpenTruncate(q) => q != p
    case WriteByte(q, _) => q != p
    case Remove(q) => q != p
    case ClearData(_, _) => false
    case ExtractPixa(q, _, _) => !Inside(q, p)
    case _ => true
  }

  lemma CallKept(env: Env, s: Tar, op: FsOp, p: Path)
    requires Harmless(op, p)
    ensures Kept(env, s.fsLog, Call(env, s, op).0.fsLog, p)
  {
    hide Replay, Inside;
    BundleOta.ReplayStep(env.disk, s.fsLog, FsEvent(op, Call(env, s, op).1));
  }

  lemma KeptOn(env: Env, a: seq<FsEvent>, b: seq<FsEvent>, c: seq<FsEvent>, p: Path)
    requires Kept(env, a, b, p) && Kept(env, b, c, p)
    ensures Kept(env, a, c, p)
  {
    hide Replay;
  }

  /** Completing an output file leaves every file as it is; an extraction may change
      what lies at or below its target. */
  lemma CompleteKeepsDisk(env: Env, s: Tar, p: Path)
    ensures var t := CompleteOutput(env, s).tar;
      !IsPixa(s.cur.entry.path) || !Inside(s.cur.dstPath, p) ==> Kept(env, s.fsLog, t.fsLog, p)
  {
    hide HasSuffix, Inside, Replay, Kept;
    if !IsPixa(s.cur.entry.path) || !Inside(s.cur.dstPath, p) {
      if IsPixa(s.cur.entry.path) {
        CallKept(env, s, ExtractPixa(s.cur.dstPath, s.cur.pixa, env.unpacked(s.fsLog)), p);
      } else if s.cur.outFile.None? {
        assert Kept(env, s.fsLog, s.fsLog, p) by { NothingKept(env, s.fsLog, p); }
      } else {
        var f := s.cur.outFile.value;
        var c := Call(env, s, Sync(f)).0;
        CallKept(env, s, Sync(f), p);
        CallKept(env, c, Close(f), p);
        KeptOn(env, s.fsLog, c.fsLog, Call(env, c, Close(f)).0.fsLog, p);
      }
    }
  }

  lemma FinishFsKept(env: Env, o: Options, s: Tar, p: Path)
    ensures var r := FinishFs(env, o, s);
      r.code == Ok && (!IsPixa(s.cur.entry.path) || !Inside(s.cur.dstPath, p)) ==> Kept(env, s.fsLog, r.tar.fsLog, p)
  {
    hide VerifyManifest, CompleteOutput, HasSuffix, Inside, Record, Kept;
    CompleteKeepsDisk(env, s.(seen := VerifyManifest(env, o, s.cur, s.seen).1), p);
  }

  lemma NothingKept(env: Env, log: seq<FsEvent>, p: Path)
    ensures Kept(env, log, log, p)
  {
  }

  lemma FinishEffect(env: Env, o: Options, s: Tar, p: Path)
    requires o.manifest.None? && s.cur.output == ToFs && s.cur.hashing
    ensures var r := FinishFile(env, o, s);
      r.code == Ok ==>
        && r.tar.past == s.past.(files := s.past.files + [Record(s)])
        && r.tar.digest == s.digest.(input := s.digest.input + [0])
        && r.tar.ota == s.ota
        && (!IsPixa(s.cur.entry.path) || !Inside(s.cur.dstPath, p) ==> Kept(env, s.fsLog, r.tar.fsLog, p))
  {
    hide HasSuffix, Replay, CompleteOutput, Inside, Kept;
    var t := CloseHash(s);
    CompleteKeepsDisk(env, t.(seen := s.seen), p);
    CompleteShape(env, t.(seen := s.seen));
    assert t.fsLog == s.fsLog && Record(t) == Record(s);
  }

  lemma RecordIs(s: Tar, root: Path, l: Located)
    requires Identity(root, s, l)
    ensures var f := Record(s); f.source == l && f.bytes == s.cur.crcInput && f.dst == s.cur.dstPath
  {
    hide Below, Writable, HasSuffix;
  }

  lemma FilesAppend(env: Env, root: Path, s: Tar, f: FileRec)
    requires FilesInv(env, root, s) && Cut(root, s.past.stream, f) && OnDisk(Replay(env.disk, s.fsLog), f)
    requires forall j :: 0 <= j < |s.past.files| ==> Before(Name(s.past.files[j]), Name(f))
    ensures FilesInv(env, root, s.(past := s.past.(files := s.past.files + [f])))
  {
    hide Replay, Before, Cut, OnDisk;
    var was := s.past.files;
    assert forall j :: 0 <= j < |was| ==> (was + [f])[j] == was[j];
    assert (was + [f])[|was|] == f;
  }

  /** Whatever finishing the entry does on disk, no file finished before is touched. */
  lemma FinishKeepsFiles(env: Env, root: Path, o: Options, s: Tar, l: Located)
    requires o.manifest.None? && ReadInv(env, root, s, l) && s.pos.remaining == 0
    ensures var r := FinishFile(env, o, s); r.code == Ok ==> FilesInv(env, root, r.tar)
  {
    hide FinishFile, Record, Below, Writable, Replay, HasSuffix, Before, FilesInv, Inside;
    var f := Record(s);
    RecordIs(s, root, l);
    DistinctCurrent(env, root, s, l);
    FinishEffect(env, o, s, f.dst);
    var r := FinishFile(env, o, s).tar;
    if FinishFile(env, o, s).code == Ok {
      assert s.past.stream[l.at..] == BundleOta.Contents(l, s.past.stream);
      if IsPixa(s.cur.entry.path) { SuffixBelow(l.entry.path); }
      var u := s.(past := r.past, fsLog := r.fsLog);
      forall j | 0 <= j < |s.past.files| ensures Kept(env, s.fsLog, u.fsLog, s.past.files[j].dst) {
        FinishEffect(env, o, s, s.past.files[j].dst);
      }
      assert s.past.stream + [] == s.past.stream;
      FilesKept(env, root, s, u.(past := s.past), []);
      FilesAppend(env, root, u.(past := s.past), f);
      FilesFrame(env, root, u, r);
    }
  }

  lemma FilesFrame(env: Env, root: Path, s: Tar, t: Tar)
    requires FilesInv(env, root, s) && t.past == s.past && t.fsLog == s.fsLog
    ensures FilesInv(env, root, t)
  {
  }

  lemma FinishIdle(env: Env, root: Path, o: Options, s: Tar, l: Located)
    requires o.manifest.None? && ReadInv(env, root, s, l) && s.pos.remaining == 0
    ensures var r := FinishFile(env, o, s); r.code == Ok ==> IdleInv(env, root, r.tar)
  {
    hide FinishFile, Record, Below, Writable, Replay, HasSuffix, Before, Canon, Total, FilesInv, Sorted, Hashed;
    FinishEffect(env, o, s, []);
    FinishKeepsFiles(env, root, o, s, l);
    RecordIs(s, root, l);
    var r := FinishFile(env, o, s);
    var f := Record(s);
    if r.code == Ok {
      var was := s.past.files;
      CountedAppend(s, r.tar, l, f);
      BundleManifest.SourcesAppend(was, f);
      assert forall j :: 0 <= j < |was| ==> (was + [f])[j] == was[j];
      assert (was + [f])[|was|] == f;
    }
  }

  // ---- starting an entry ----

  /** The files when the contents of an entry start: its own is open and empty, and
      unless the root was only now cleared the others are as they were. */
  ghost predicate DiskOpened(env: Env, root: Path, s: Tar, x: Tar, e: Entry)
    requires DATA_PREFIX <= e.path
  {
    var disk, dst := Replay(env.disk, x.fsLog), Target(root, e.path);
    && (!IsPixa(e.path) ==> dst in disk && disk[dst] == [])
    && (s.ota.cleared ==> forall p :: p != dst ==> Kept(env, s.fsLog, x.fsLog, p))
  }

  /** An opened data file, before its first byte. */
  lemma OpenedReads(env: Env, root: Path, s: Tar, e: Entry, x: Tar, l: Located)
    requires IdleInv(env, root, s) && l == Located(e, |s.past.stream|) && e.kind == File && DATA_PREFIX <= e.path
    requires Below(root, Target(root, e.path)) && (IsPixa(e.path) || Writable(root, Target(root, e.path)))
    requires Before(s.digest.lastPath, e.path)
    requires x.past == s.past.(entries := s.past.entries + [l])
    requires x.pos.remaining == e.size && x.digest.lastPath == e.path
    requires x.digest.input == s.digest.input + e.path + [0]
    requires x.digest.dataBytes == s.digest.dataBytes + (if IsPixa(e.path) then 0 else e.size)
    requires x.digest.pixaBytes == s.digest.pixaBytes + (if IsPixa(e.path) then e.size else 0)
    requires x.cur == Current(ToFs, Entry(e.path[|DATA_PREFIX|..], e.size, File), e,
      if IsPixa(e.path) then None else Some(Target(root, e.path)), [], [], Target(root, e.path), true)
    requires x.ota.cleared && DiskOpened(env, root, s, x, e)
    ensures ReadInv(env, root, x, l)
  {
    LaterName(env, root, s, e.path);
    assert x.past.stream[l.at..] == [];
    assert s.past.stream + [] == s.past.stream;
    assert x.digest.input == x.digest.input + [];
    hide Below, Writable, Replay, HasSuffix, Before, Canon, Total, Cut, OnDisk, Sorted, FilesInv;
    FilesKept(env, root, s, x, []);
    assert Identity(root, x, l);
    assert Counted(x, l);
    assert Output(env, x, l);
  }

  lemma LaterName(env: Env, root: Path, s: Tar, name: Path)
    requires IdleInv(env, root, s) && DATA_PREFIX <= name && Before(s.digest.lastPath, name)
    ensures forall j :: 0 <= j < |s.past.files| ==>
      Before(Name(s.past.files[j]), name) && s.past.files[j].dst != Target(root, name)
  {
    var was := s.past.files;
    hide Below, Writable, Replay, HasSuffix, Canon, Total;
    forall j | 0 <= j < |was| ensures Before(Name(was[j]), name) && was[j].dst != Target(root, name) {
      assert Cut(root, s.past.stream, was[j]);
      if Name(was[j]) != s.digest.lastPath { BeforeTransitive(Name(was[j]), s.digest.lastPath, name); }
      DistinctTargets(root, Name(was[j]), name);
    }
  }

  lemma MakeDirsKeepsDisk(env: Env, s: Tar, p: Path)
    ensures Replay(env.disk, Call(env, s, MakeDirs(p)).0.fsLog) == Replay(env.disk, s.fsLog)
  {
    BundleOta.ReplayStep(env.disk, s.fsLog, FsEvent(MakeDirs(p), Call(env, s, MakeDirs(p)).1));
  }

  lemma OutputShape(env: Env, o: Options, f: Tar, e: Entry) returns (x: Tar)
    requires f.cur.outFile.None?
    ensures x == f.(fsLog := x.fsLog, cur := f.cur.(outFile := if IsPixa(e.path) then None else Some(f.cur.dstPath)))
    ensures var r := StartOutput(env, o, f, e); r.code == Ok ==>
      && r == StartContents(env, o, x, e)
      && Replay(env.disk, x.fsLog) ==
         if IsPixa(e.path) then Replay(env.disk, f.fsLog) else Replay(env.disk, f.fsLog)[f.cur.dstPath := []]
  {
    hide StartContents;
    var p := Parent(f.cur.dstPath);
    MakeDirsKeepsDisk(env, f, p);
    var u := if p == [] then f else Call(env, f, MakeDirs(p)).0;
    if IsPixa(e.path) {
      x := u.(cur := u.cur.(outFile := None));
    } else {
      var c := Call(env, u, OpenTruncate(u.cur.dstPath));
      BundleOta.ReplayStep(env.disk, u.fsLog, FsEvent(OpenTruncate(u.cur.dstPath), c.1));
      x := c.0.(cur := c.0.cur.(outFile := Some(u.cur.dstPath)));
    }
    hide Replay, HasSuffix;
  }

  /** The state in which the contents of a data entry start. */
  lemma DataShape(env: Env, o: Options, s: Tar, e: Entry) returns (x: Tar)
    requires DATA_PREFIX <= e.path && e.kind == File && s.ota.installNeeded && s.cur.outFile.None? && s.cur.output == NoOutput
    ensures var r := StartData(env, o, s, e); var dst := Target(o.dstRoot, e.path); r.code == Ok ==>
      && r == StartContents(env, o, x, e)
      && Below(o.dstRoot, dst) && (IsPixa(e.path) || Writable(o.dstRoot, dst))
      && x.past == s.past && x.pos == s.pos && x.digest == s.digest && x.ota == s.ota.(cleared := true)
      && x.cur == s.cur.(entry := Entry(e.path[|DATA_PREFIX|..], e.size, File), dstPath := dst,
                         output := ToFs, outFile := if IsPixa(e.path) then None else Some(dst))
      && DiskOpened(env, o.dstRoot, s, x, e)
  {
    hide Replay, HasSuffix, StartOutput, StartContents, SafeRelative;
    var relative := e.path[|DATA_PREFIX|..];
    var dst := RootPrefix(o.dstRoot) + relative;
    var c := EnsureCleared(env, o, s).tar;
    assert dst[|RootPrefix(o.dstRoot)|..] == relative && DATA_PREFIX + relative == e.path;
    var t := c.(cur := c.cur.(entry := Entry(relative, e.size, e.kind)));
    var f := SetOutput(t.(cur := t.cur.(dstPath := dst)), ToFs);
    x := OutputShape(env, o, f, e);
  }

  lemma EntryIsData(env: Env, root: Path, ck: Path, s: Tar, e: Entry)
    ensures var r := StartEntry(env, DataOptions(root, ck), s, e); r.code == Ok ==>
      && DATA_PREFIX <= e.path && e.kind == File
      && StartDigest(Opened(s, e), e).code == Ok
      && r == StartData(env, DataOptions(root, ck), StartDigest(Opened(s, e), e).tar, e)
  {
    hide StartDigest, StartData, StartApp;
    BundleOta.PathsDiffer(e);
  }

  lemma StartVouches(env: Env, root: Path, ck: Path, s: Tar, e: Entry) returns (l: Located)
    requires IdleInv(env, root, s) && s.ota.installNeeded && s.pos.phase == InHeader
    ensures var r := StartEntry(env, DataOptions(root, ck), s, e); r.code == Ok ==>
      if r.tar.pos.phase == InFile then ReadInv(env, root, r.tar, l) else IdleInv(env, root, r.tar)
  {
    hide StartEntry, StartData, StartContents, IdleInv, ReadInv, Replay, HasSuffix, Before, Below, Writable;
    var o := DataOptions(root, ck);
    l := Located(e, |s.past.stream|);
    EntryIsData(env, root, ck, s, e);
    if StartEntry(env, o, s, e).code == Ok {
      var d := StartDigest(Opened(s, e), e);
      var x := DataShape(env, DataOptions(root, ck), d.tar, e);
      StartReads(env, root, s, e, d, x, l);
      ContentsVouch(env, root, o, x, e, l);
    }
  }

  lemma StartReads(env: Env, root: Path, s: Tar, e: Entry, d: Step, x: Tar, l: Located)
    requires IdleInv(env, root, s) && e.kind == File && DATA_PREFIX <= e.path && l == Located(e, |s.past.stream|)
    requires d == StartDigest(Opened(s, e), e) && d.code == Ok
    requires Below(root, Target(root, e.path)) && (IsPixa(e.path) || Writable(root, Target(root, e.path)))
    requires x.past == d.tar.past && x.pos == d.tar.pos && x.digest == d.tar.digest && x.ota.cleared
    requires x.cur == d.tar.cur.(entry := Entry(e.path[|DATA_PREFIX|..], e.size, File), dstPath := Target(root, e.path),
                                 output := ToFs, outFile := if IsPixa(e.path) then None else Some(Target(root, e.path)))
    requires DiskOpened(env, root, d.tar, x, e)
    ensures ReadInv(env, root, x, l)
  {
    hide IdleInv, ReadInv, Below, Writable, Replay, HasSuffix, Kept;
    assert d.tar.fsLog == s.fsLog && d.tar.ota == s.ota;
    OpenedReads(env, root, s, e, x, l);
  }

  lemma CountedFrame(s: Tar, t: Tar, l: Located)
    requires Counted(s, l) && t.past == s.past && t.digest == s.digest && t.cur == s.cur
    ensures Counted(t, l)
  {
  }

  lemma ContentsVouch(env: Env, root: Path, o: Options, x: Tar, e: Entry, l: Located)
    requires o.manifest.None? && ReadInv(env, root, x, l) && x.pos.remaining == e.size && x.pos.phase == InHeader
    ensures var r := StartContents(env, o, x, e); r.code == Ok ==>
      if r.tar.pos.phase == InFile then ReadInv(env, root, r.tar, l) else IdleInv(env, root, r.tar)
  {
    hide FinishFile, IdleInv, FilesInv, Counted, Replay, HasSuffix, Below, Writable, Before;
    if e.size == 0 {
      FinishIdle(env, root, o, x, l);
      FinishFileRuns(env, o, x);
    } else {
      assert FilesInv(env, root, SetPhase(x, InFile)) by { FilesFrame(env, root, x, SetPhase(x, InFile)); }
      assert Counted(SetPhase(x, InFile), l) by { CountedFrame(x, SetPhase(x, InFile), l); }
    }
  }

  // ---- whole runs ----

  ghost predicate VouchInv(env: Env, root: Path, s: Tar) {
    if s.pos.phase == InFile then exists l :: ReadInv(env, root, s, l) else IdleInv(env, root, s)
  }

  lemma IdleGrows(env: Env, root: Path, s: Tar, t: Tar, more: seq<byte>)
    requires IdleInv(env, root, s)
    requires t.past == s.past.(stream := s.past.stream + more) && t.digest == s.digest && t.fsLog == s.fsLog
    requires t.ota == s.ota
    ensures IdleInv(env, root, t)
  {
    hide Below, Writable, Replay, HasSuffix, Before, Canon, Total;
    forall j | 0 <= j < |t.past.files| ensures Cut(root, t.past.stream, t.past.files[j]) {
      var f := s.past.files[j];
      assert Cut(root, s.past.stream, f);
      assert BundleOta.Contents(f.source, s.past.stream + more) == BundleOta.Contents(f.source, s.past.stream);
    }
  }

  lemma HeaderVouches(env: Env, root: Path, ck: Path, s: Tar, b: byte)
    requires IdleInv(env, root, s) && s.ota.installNeeded && s.pos.phase == InHeader && WellFormed(s)
    ensures var r := HeaderByte(env, DataOptions(root, ck), s, b); r.code == Ok ==> VouchInv(env, root, r.tar)
  {
    hide IdleInv, ReadInv, StartEntry;
    var t := Headed(s, [b]);
    IdleGrows(env, root, s, t, [b]);
    var u := t.(pos := t.pos.(header := [], zeroBlocks := 0));
    IdleGrows(env, root, s, u, [b]);
    match ParseHeader(env, t.pos.header)
    case Header(e) => var l := StartVouches(env, root, ck, u, e);
    case ZeroBlock =>
      IdleGrows(env, root, s, HeaderBlock(env, DataOptions(root, ck), t.(pos := t.pos.(header := [])), t.pos.header).tar, [b]);
    case Bad(_) =>
  }

  lemma FileVouches(env: Env, root: Path, o: Options, s: Tar, b: byte, l: Located)
    requires ReadInv(env, root, s, l) && o.manifest.None? && s.pos.phase == InFile && s.pos.remaining > 0
    ensures var r := FileByte(env, o, s, b); r.code == Ok ==>
      if r.tar.pos.phase == InFile then ReadInv(env, root, r.tar, l) else IdleInv(env, root, r.tar)
  {
    hide IdleInv, ReadInv, FinishFile, SinkOf;
    if SinkCode(env, s, [b]) == Ok {
      AbsorbReads(env, root, s, l, [b]);
      var t := Absorb(s, [b]);
      if t.pos.remaining == 0 { FinishIdle(env, root, o, t, l); }
      ReadsToFs(env, root, t, l);
      FinishFileRuns(env, o, t);
    }
  }

  lemma ByteVouches(env: Env, root: Path, ck: Path, s: Tar, b: byte)
    requires VouchInv(env, root, s) && s.ota.installNeeded && WellFormed(s)
    ensures var r := ByteStep(env, DataOptions(root, ck), s, b); r.code == Ok ==> VouchInv(env, root, r.tar)
  {
    hide IdleInv, ReadInv, HeaderByte, FileByte, Release;
    var o := DataOptions(root, ck);
    if !s.pos.done {
      match s.pos.phase
      case InHeader => HeaderVouches(env, root, ck, s, b);
      case InFile =>
        var l :| ReadInv(env, root, s, l);
        FileVouches(env, root, o, s, b, l);
      case InPadding => IdleGrows(env, root, s, Padded(s, [b]), [b]);
    }
  }

  lemma ReadsToFs(env: Env, root: Path, s: Tar, l: Located)
    requires ReadInv(env, root, s, l)
    ensures s.cur.output == ToFs
  {
  }

  lemma {:induction false} FoldVouches(env: Env, root: Path, ck: Path, m: DataManifest, s: Tar, bytes: seq<byte>)
    requires VouchInv(env, root, s) && WellFormed(s) && ModeInv(root, ck, false, m, s) && RunInv(root, ck, false, s)
    ensures var r := Fold(env, DataOptions(root, ck), s, bytes); r.code == Ok ==> VouchInv(env, root, r.tar)
    decreases |bytes|
  {
    if bytes != [] {
      hide ByteStep, VouchInv, WellFormed, RunInv, LogShape;
      var o := DataOptions(root, ck);
      ByteVouches(env, root, ck, s, bytes[0]);
      ByteLogged(env, root, ck, false, m, s, bytes[0]);
      ByteKeepsWellFormed(env, o, s, bytes[0]);
      var r := ByteStep(env, o, s, bytes[0]);
      if r.code == Ok { FoldVouches(env, root, ck, m, r.tar, bytes[1..]); }
    }
  }

  /** What an installed checksum stands for, on a given disk: it is the hash of the
      canonical stream of the files, which are strictly sorted, add up to both announced
      totals and, unless they are pixa archives or the checksum file itself, lie on
      disk byte for byte as the stream carried them. */
  ghost predicate Vouches(root: Path, ck: Path, m: DataManifest, h: Hasher, past: History, disk: map<Path, seq<byte>>) {
    var files := past.files;
    && h.hex(Canon(files)) == m.sha256
    && Total(files, false) == m.dataBytes && Total(files, true) == m.pixaBytes
    && Sorted(files)
    && past.entries == BundleManifest.Sources(files)
    && (forall j :: 0 <= j < |files| ==> Cut(root, past.stream, files[j]))
    && (forall j :: 0 <= j < |files| ==> files[j].dst == ck || OnDisk(disk, files[j]))
  }

  lemma StartIdle(env: Env, root: Path, ck: Path, m: DataManifest)
    ensures VouchInv(env, root, Entered(env, m, ck))
  {
  }

  /** The commit writes only the checksum file. */
  lemma {:induction false} CommitKeepsFile(disk: map<Path, seq<byte>>, log: seq<FsEvent>, k: nat, n: nat, ck: Path, p: Path)
    requires k <= n <= |log| && p != ck && forall i :: k <= i < |log| ==> CommitOp(ck, log[i].op)
    ensures var a, b := Replay(disk, log[..k]), Replay(disk, log[..n]);
      p in a ==> p in b && b[p] == a[p]
    decreases n
  {
    if k < n {
      CommitKeepsFile(disk, log, k, n - 1, ck, p);
      BundleOta.ReplayStep(disk, log[..n - 1], log[n - 1]);
      assert log[..n] == log[..n - 1] + [log[n - 1]];
    }
  }

  /** At every point of a commit the files it vouches for are on disk. */
  lemma CommitVouchesAt(env: Env, root: Path, ck: Path, m: DataManifest, h: Hasher, s: Tar, log: seq<FsEvent>, k: nat, n: nat)
    requires IdleInv(env, root, s) && Vouched(m, h, s.digest)
    requires k <= n <= |log| && log[..k] == EnsureCleared(env, DataOptions(root, ck), s).tar.fsLog
    requires forall i :: k <= i < |log| ==> CommitOp(ck, log[i].op)
    ensures Vouches(root, ck, m, h, s.past, Replay(env.disk, log[..n]))
  {
    hide Replay, Below, Writable, HasSuffix, Canon, Total, Before, Cut;
    forall j | 0 <= j < |s.past.files| ensures s.past.files[j].dst == ck || OnDisk(Replay(env.disk, log[..n]), s.past.files[j]) {
      var f := s.past.files[j];
      assert OnDisk(Replay(env.disk, s.fsLog), f) && log[..k] == s.fsLog;
      if f.dst != ck { CommitKeepsFile(env.disk, log, k, n, ck, f.dst); }
    }
  }

  /** The run up to the end of the stream, for every crash point past it. */
  lemma ReceivedVouches(env: Env, root: Path, ck: Path, m: DataManifest, h: Hasher,
                        delivered: seq<byte>, inflated: bool, spare: bool, k: nat, n: nat)
    requires |m.sha256| == SHA_HEX && Ran(env, root, ck, spare, m, h, delivered, inflated, k)
    requires var r := InstallData(env, root, ck, m, h, delivered, inflated).tar; k < |r.fsLog| && k <= n <= |r.fsLog|
    ensures var r := InstallData(env, root, ck, m, h, delivered, inflated).tar;
      Vouches(root, ck, m, h, r.past, Replay(env.disk, r.fsLog[..n]))
  {
    hide InstallData, Fold, Replay, Vouches, IdleInv, ReadInv, ModeInv, RunInv, WellFormed, Vouched, Entered, LogShape, EnsureCleared;
    EnteredInv(env, root, ck, false, m);
    StartIdle(env, root, ck, m);
    FoldVouches(env, root, ck, m, Entered(env, m, ck), delivered);
    var s := Received(env, root, ck, m, delivered).tar;
    CommitVouchesAt(env, root, ck, m, h, s, InstallData(env, root, ck, m, h, delivered, inflated).tar.fsLog, k, n);
  }

  /** A successful install leaves the new checksum on disk, and that checksum vouches for
      every entry of the archive. */
  lemma CommitVouches(env: Env, root: Path, ck: Path, m: DataManifest, h: Hasher,
                      delivered: seq<byte>, inflated: bool)
    requires InstallData(env, root, ck, m, h, delivered, inflated).code == Ok
    ensures var s := InstallData(env, root, ck, m, h, delivered, inflated).tar;
      var disk := Replay(env.disk, s.fsLog);
      && Vouches(root, ck, m, h, s.past, disk)
      && ck in disk && disk[ck] == m.sha256 + [NEWLINE]
      && s.past.stream <= delivered && s.past.entries == Entries(env, delivered)
  {
    hide InstallData, Replay, Vouches, Entries, Growing, Verified;
    AcceptedNotRefused(env, root, ck, m, h, delivered, inflated);
    var k := InstallCommits(env, root, ck, false, m, h, delivered, inflated);
    var log := InstallData(env, root, ck, m, h, delivered, inflated).tar.fsLog;
    ReceivedVouches(env, root, ck, m, h, delivered, inflated, false, k, |log|);
    assert log[..|log|] == log;
    AcceptedReads(env, root, ck, m, h, delivered, inflated);
  }

  lemma AcceptedNotRefused(env: Env, root: Path, ck: Path, m: DataManifest, h: Hasher, delivered: seq<byte>, inflated: bool)
    requires InstallData(env, root, ck, m, h, delivered, inflated).code == Ok
    ensures |m.sha256| == SHA_HEX && !Refused(env, ck, m)
  {
    hide InstallData;
    if |m.sha256| != SHA_HEX {
      InvalidDoesNothing(env, root, ck, m, h, delivered, inflated);
    } else if Refused(env, ck, m) {
      RefusedStops(env, root, ck, m, h, delivered, inflated);
    }
  }

  lemma AcceptedReads(env: Env, root: Path, ck: Path, m: DataManifest, h: Hasher, delivered: seq<byte>, inflated: bool)
    requires InstallData(env, root, ck, m, h, delivered, inflated).code == Ok
    ensures var past := Received(env, root, ck, m, delivered).tar.past;
      past.stream <= delivered && past.entries == Entries(env, delivered)
  {
    hide Fold, Finish, Entries, Vouched;
    AcceptedNotRefused(env, root, ck, m, h, delivered, inflated);
    EnteredInv(env, root, ck, false, m);
    FoldReadsArchive(env, DataOptions(root, ck), Entered(env, m, ck), delivered);
  }

  /** The new checksum is never on disk without the data it stands for: wherever a run
      stops, if the checksum file holds it then either nothing was touched or it
      vouches for what is on disk at that point. */
  lemma CrashVouches(env: Env, root: Path, ck: Path, m: DataManifest, h: Hasher,
                     delivered: seq<byte>, inflated: bool, n: nat)
    requires Clean(root, ck, Entries(env, delivered))
    requires var log := InstallData(env, root, ck, m, h, delivered, inflated).tar.fsLog;
      n <= |log| && var disk := Replay(env.disk, log[..n]); ck in disk && disk[ck] == m.sha256 + [NEWLINE]
    ensures var s := InstallData(env, root, ck, m, h, delivered, inflated).tar;
      var disk := Replay(env.disk, s.fsLog[..n]);
      disk == env.disk || Vouches(root, ck, m, h, s.past, disk)
  {
    hide InstallData, Vouches, Entries, Clean, Verified, Replay, Received;
    var log := InstallData(env, root, ck, m, h, delivered, inflated).tar.fsLog;
    if n == 0 {
      NothingReplayed(env.disk, log);
    } else if |m.sha256| != SHA_HEX {
      InvalidDoesNothing(env, root, ck, m, h, delivered, inflated);
    } else if Refused(env, ck, m) {
      RefusedStops(env, root, ck, m, h, delivered, inflated);
      RefusedReplayed(env.disk, log, n, ck);
    } else {
      var k := InstallCommits(env, root, ck, true, m, h, delivered, inflated);
      SparedLog(env, root, ck, m.sha256 + [NEWLINE], log, k, |Received(env, root, ck, m, delivered).tar.fsLog|);
      if n <= k {
        StaysAbsent(env.disk, ck, log[..n]);
      } else {
        ReceivedVouches(env, root, ck, m, h, delivered, inflated, true, k, n);
      }
    }
  }

  lemma NothingReplayed(disk: map<Path, seq<byte>>, log: seq<FsEvent>)
    ensures Replay(disk, log[..0]) == disk
  {
  }

  lemma RefusedReplayed(disk: map<Path, seq<byte>>, log: seq<FsEvent>, n: nat, ck: Path)
    requires log == [FsEvent(Remove(ck), false)] && n <= |log|
    ensures Replay(disk, log[..n]) == disk
  {
    assert log[..1][..0] == [];
  }

  // ---- an archive that names the checksum file ----

  /** A file entry for the checksum file itself, one byte longer than a checksum. */
  function Overlap(root: Path, ck: Path): Entry
    requires Below(root, ck)
  {
    Entry(DATA_PREFIX + ck[|RootPrefix(root)|..], SHA_HEX + 2, File)
  }

  lemma OverlapStarts(env: Env, root: Path, ck: Path, s: Tar) returns (x: Tar)
    requires Writable(root, ck) && Accepting(env)
    requires s.ota.installNeeded && s.ota.checksumSeen && s.digest == Digest([], [], 0, 0) && s.pos.phase == InHeader
    ensures StartEntry(env, DataOptions(root, ck), s, Overlap(root, ck)) == Step(Ok, SetPhase(x, InFile))
    ensures SinkOf(x.cur) == FileSink(ck)
    ensures x.pos.remaining == SHA_HEX + 2 && x.pos.done == s.pos.done
    ensures ck in Replay(env.disk, x.fsLog) && Replay(env.disk, x.fsLog)[ck] == []
  {
    hide StartFs, SafeRelative, StartApp, HasSuffix, Replay, Accepting, StartData, RootPrefix, Before;
    var e := Overlap(root, ck);
    var n := |DATA_PREFIX|;
    assert e.path[n..] == ck[|RootPrefix(root)|..] && Target(root, e.path) == ck;
    assert !IsPixa(e.path);
    if IsPixa(e.path[n..]) { SuffixBelow(e.path); }
    BundleOta.PathsDiffer(e);
    assert Before([], e.path) by { FirstName(e.path); }
    var d := StartDigest(Opened(s, e), e).tar;
    StartDataTaken(env, root, ck, d, e);
    x := DataShape(env, DataOptions(root, ck), d, e);
  }

  lemma FirstName(name: Path)
    requires name != []
    ensures Before([], name)
  {
  }

  lemma OverlapFolds(env: Env, root: Path, ck: Path, m: DataManifest, block: seq<byte>, sum: seq<byte>) returns (x: Tar)
    requires Writable(root, ck) && Accepting(env) && |block| == BLOCK && |sum| == SHA_HEX + 1
    requires env.parse(block) == Header(Overlap(root, ck))
    ensures SinkOf(x.cur) == FileSink(ck) && x.pos.remaining == SHA_HEX + 2
    ensures ck in Replay(env.disk, x.fsLog) && Replay(env.disk, x.fsLog)[ck] == []
    ensures Fold(env, DataOptions(root, ck), Entered(env, m, ck), block + sum)
      == Step(Ok, Absorb(SetPhase(x, InFile), sum))
  {
    hide StartEntry, Replay, Writable, Accepting, Fold, HasSuffix;
    var o := DataOptions(root, ck);
    var s := Entered(env, m, ck);
    FoldHeaderEnd(env, o, s, block, sum);
    var t := Headed(s, block);
    assert t.pos.header == block;
    x := OverlapStarts(env, root, ck, t.(pos := t.pos.(header := [], zeroBlocks := 0)));
    FileTakesAll(env, x.fsLog, ck, sum);
    OverlapReads(env, o, SetPhase(x, InFile), ck, sum);
  }

  lemma OverlapReads(env: Env, o: Options, s: Tar, ck: Path, sum: seq<byte>)
    requires SinkOf(s.cur) == FileSink(ck) && FileTakes(env, s.fsLog, ck, sum) == |sum|
    requires !s.pos.done && s.pos.phase == InFile && |sum| < s.pos.remaining
    ensures Fold(env, o, s, sum) == Step(Ok, Absorb(s, sum))
  {
    hide ByteStep, Absorb;
    FoldFile(env, o, s, sum, []);
    assert sum + [] == sum;
  }

  /** The condition is needed, for every checksum path an archive can write: one header
      block naming it and the bytes of a checksum, cut short there, leave a
      complete checksum for data nobody verified. */
  lemma CrashCounterexample(env: Env, root: Path, ck: Path, m: DataManifest, h: Hasher, block: seq<byte>) returns (n: nat)
    requires Writable(root, ck) && Accepting(env) && |m.sha256| == SHA_HEX && h.startOk
    requires |block| == BLOCK && env.parse(block) == Header(Overlap(root, ck))
    ensures var delivered := block + (m.sha256 + [NEWLINE]);
      var log := InstallData(env, root, ck, m, h, delivered, false).tar.fsLog;
      && n <= |log|
      && ck in Replay(env.disk, log[..n]) && Replay(env.disk, log[..n])[ck] == m.sha256 + [NEWLINE]
      && !Survives(env, root, ck, m, h, delivered, false, n)
  {
    hide Fold, Replay, HasSuffix, Writable;
    var o := DataOptions(root, ck);
    var sum := m.sha256 + [NEWLINE];
    var x := OverlapFolds(env, root, ck, m, block, sum);
    var t := Absorb(SetPhase(x, InFile), sum);
    n := |t.fsLog|;
    ReplayWrites(env.disk, x.fsLog, ck, sum);
    assert [] + sum == sum;
    var log := InstallData(env, root, ck, m, h, block + sum, false).tar.fsLog;
    assert log == Release(o, t).fsLog;
    assert log[..n] == t.fsLog;
  }
}
