/** `tar_state_feed` over arbitrary chunks, refined to the byte-at-a-time `Fold`. */
module BundleFeed {
  import opened Bytes
  import opened BundleTar
  import opened Optional

  /** What every reachable parser state keeps; each loop turn then consumes a byte. */
  ghost predicate WellFormed(s: Tar) {
    && |s.pos.header| < BLOCK
    && |s.ota.checksum| < CHECKSUM_CAP
    && (s.pos.phase == InFile ==> s.pos.remaining > 0)
    && (s.pos.phase == InPadding ==> s.pos.padding > 0)
    && (s.cur.output == ToChecksum ==> !s.cur.hashing)
  }

  /** Bytes one at a time (`a`) and a chunk (`b`): same result code and same effects; on
      success the same parser state. On failure the digest of the chunk may have
      seen more, for it is fed before the bytes are written. */
  ghost predicate SameOutcome(a: Step, b: Step) {
    a.code == b.code && SameEffects(a.tar, b.tar) && (a.code == Ok ==> a.tar == b.tar)
  }

  ghost predicate SameEffects(a: Tar, b: Tar) {
    && a.fsLog == b.fsLog
    && a.appLog == b.appLog
    && a.digest.input <= b.digest.input
    && a.past.files == b.past.files
    && a.cur.outFile == b.cur.outFile && a.ota.writerActive == b.ota.writerActive
  }

  // ---- what the parts of an entry's life change ----

  lemma CompleteShape(env: Env, s: Tar)
    ensures var t := CompleteOutput(env, s).tar; t == s.(fsLog := t.fsLog, cur := s.cur.(outFile := t.cur.outFile))
  {
    hide HasSuffix;
  }

  /** Finishing a file below the root records it, and otherwise only closes it. */
  lemma FinishFsShape(env: Env, o: Options, s: Tar)
    ensures var r := FinishFs(env, o, s); r.code == Ok ==>
      r.tar == AfterFile(s.(seen := r.tar.seen, fsLog := r.tar.fsLog,
        past := s.past.(files := s.past.files + [Record(s)]),
        cur := s.cur.(outFile := r.tar.cur.outFile, pixa := [])))
  {
    hide CompleteOutput, VerifyManifest, Record, HasSuffix;
    CompleteShape(env, s.(seen := VerifyManifest(env, o, s.cur, s.seen).1));
  }

  lemma FinishAppShape(env: Env, o: Options, s: Tar)
    ensures var r := FinishApp(env, o, s); r.code == Ok ==>
      r.tar == AfterFile(s.(appLog := s.appLog + [AppEvent(End(s.cur.appEntry), true)], ota := s.ota.(writerActive := false)))
  {
  }

  lemma FinishChecksumShape(env: Env, o: Options, s: Tar)
    ensures var r := FinishChecksum(env, o, s);
      && r.tar == s.(ota := s.ota.(checksumSeen := r.tar.ota.checksumSeen, installNeeded := r.tar.ota.installNeeded))
      && (r.code == Ok ==> !s.ota.checksumSeen && r.tar.ota.checksumSeen)
  {
    hide InstalledChecksum;
    var ota := FinishChecksum(env, o, s).tar.ota;
    assert FinishChecksum(env, o, s).tar == s.(ota := ota);
    assert ota == s.ota.(checksumSeen := ota.checksumSeen, installNeeded := ota.installNeeded);
  }

  /** An accepted app entry: where its contents go, and what the writer has seen. */
  lemma StartAppShape(env: Env, o: Options, s: Tar, e: Entry)
    requires s.pos.phase == InHeader
    ensures var r := StartApp(env, o, s, e); r.code == Ok ==>
      && s.ota.checksumSeen
      && r.tar == s.(pos := s.pos.(phase := r.tar.pos.phase), digest := r.tar.digest, appLog := r.tar.appLog,
           cur := s.cur.(output := r.tar.cur.output, hashing := r.tar.cur.hashing),
           ota := s.ota.(appSeen := r.tar.ota.appSeen, writerActive := r.tar.ota.writerActive))
      && (!s.cur.hashing ==> !r.tar.cur.hashing && r.tar.digest == s.digest)
      && r.tar.cur.output in {ToApp, ToSkip} && (r.tar.pos.phase == InFile ==> e.size > 0)
      && (r.tar.pos.phase == InPadding ==> s.pos.padding > 0)
      && (e.kind == File ==> !s.ota.appSeen) && r.tar.ota.appSeen == (s.ota.appSeen || e.kind == File)
      && (r.tar.cur.output == ToApp ==> e.kind == File)
  {
    hide StartApp, StartContents;
    StartAppCases(env, o, s, e);
    AppContentsShape(env, o, AppBegun(s), e);
  }

  function AppSeen(s: Tar): Tar { s.(ota := s.ota.(appSeen := true)) }

  function AppBegun(s: Tar): Tar {
    s.(ota := s.ota.(appSeen := true, writerActive := true), cur := s.cur.(output := ToApp),
       appLog := s.appLog + [AppEvent(Begin(s.cur.appEntry), true)])
  }

  lemma StartAppCases(env: Env, o: Options, s: Tar, e: Entry)
    ensures var r := StartApp(env, o, s, e); r.code == Ok ==>
      && s.ota.checksumSeen
      && if e.kind == Dir then r.tar == SetPhase(SetOutput(s, ToSkip), InHeader)
         else
           && !s.ota.appSeen
           && if o.skipApp then r.tar == SetPhase(SetOutput(AppSeen(s), ToSkip), if e.size == 0 then InHeader else InFile)
              else r == StartContents(env, o, AppBegun(s), e)
  {
    hide StartContents;
  }

  lemma ClearedShape(env: Env, o: Options, s: Tar)
    ensures var c := EnsureCleared(env, o, s);
      && c.tar == s.(fsLog := c.tar.fsLog, ota := s.ota.(cleared := c.tar.ota.cleared))
      && (s.ota.cleared ==> c.tar == s)
      && (c.code == Ok && s.ota.installNeeded ==> c.tar.ota.cleared)
      && (c.tar.ota.cleared ==> s.ota.cleared || c.code == Ok)
  {
  }

  lemma AppContentsShape(env: Env, o: Options, s: Tar, e: Entry)
    requires s.cur.output == ToApp && s.pos.phase == InHeader
    ensures var r := StartContents(env, o, s, e); r.code == Ok ==>
      && r.tar == s.(pos := s.pos.(phase := r.tar.pos.phase), digest := r.tar.digest, appLog := r.tar.appLog,
           cur := s.cur.(hashing := r.tar.cur.hashing), ota := s.ota.(writerActive := r.tar.ota.writerActive))
      && (!s.cur.hashing ==> !r.tar.cur.hashing && r.tar.digest == s.digest)
      && (r.tar.pos.phase == InFile ==> e.size > 0) && (r.tar.pos.phase == InPadding ==> s.pos.padding > 0)
  {
    hide FinishApp, FinishFs, FinishChecksum;
    FinishAppShape(env, o, CloseHash(s));
  }

  /** What names a pixa archive below the data prefix names one with it. */
  lemma SuffixBelow(name: Path)
    requires DATA_PREFIX <= name && HasSuffix(name[|DATA_PREFIX|..], PIXA_SUFFIX)
    ensures HasSuffix(name, PIXA_SUFFIX)
  {
    var t := name[|DATA_PREFIX|..];
    assert name[|name| - |PIXA_SUFFIX|..] == t[|t| - |PIXA_SUFFIX|..];
  }

  lemma SuffixAbove(name: Path)
    requires DATA_PREFIX <= name && HasSuffix(name, PIXA_SUFFIX)
    ensures HasSuffix(name[|DATA_PREFIX|..], PIXA_SUFFIX)
  {
    var n, t := |DATA_PREFIX|, name[|DATA_PREFIX|..];
    var k := |name| - |PIXA_SUFFIX|;
    assert name[n - 1] == DATA_PREFIX[n - 1] == SLASH;
    assert forall i :: k <= i < |name| ==> name[i] == name[k..][i - k] == PIXA_SUFFIX[i - k] != SLASH;
    assert t[|t| - |PIXA_SUFFIX|..] == name[k..];
  }

  // ---- well-formed states ----

  lemma FinishFileKeeps(env: Env, o: Options, s: Tar)
    requires WellFormed(SetPhase(s, InHeader))
    ensures var r := FinishFile(env, o, s); r.code == Ok ==> WellFormed(r.tar)
  {
    hide FinishFs, FinishApp, FinishChecksum, Record;
    var t := CloseHash(s);
    FinishFsShape(env, o, t);
    FinishAppShape(env, o, t);
    FinishChecksumShape(env, o, t);
  }

  lemma StartOutputKeeps(env: Env, o: Options, s: Tar, e: Entry)
    requires WellFormed(s) && s.pos.phase == InHeader && s.pos.remaining == e.size && s.cur.output != ToChecksum
    ensures var r := StartOutput(env, o, s, e); r.code == Ok ==> WellFormed(r.tar)
  {
    hide FinishFile;
    var u := if Parent(s.cur.dstPath) == [] then s else Call(env, s, MakeDirs(Parent(s.cur.dstPath))).0;
    var w := Call(env, u, OpenTruncate(u.cur.dstPath)).0;
    FinishFileKeeps(env, o, u);
    FinishFileKeeps(env, o, w.(cur := w.cur.(outFile := Some(u.cur.dstPath))));
  }

  lemma StartFsKeeps(env: Env, o: Options, s: Tar, e: Entry, relative: Path)
    requires WellFormed(s) && s.pos.phase == InHeader && s.pos.remaining == e.size && s.cur.output != ToChecksum
    ensures var r := StartFs(env, o, s, e, relative); r.code == Ok ==> WellFormed(r.tar)
  {
    var t := s.(cur := s.cur.(dstPath := RootPrefix(o.dstRoot) + relative));
    StartOutputKeeps(env, o, SetOutput(t, ToFs), e);
  }

  lemma StartAppKeeps(env: Env, o: Options, s: Tar, e: Entry)
    requires WellFormed(s) && s.pos.phase == InHeader && s.pos.remaining == e.size && s.cur.output != ToChecksum
    ensures var r := StartApp(env, o, s, e); r.code == Ok ==> WellFormed(r.tar)
  {
    hide StartApp;
    StartAppShape(env, o, s, e);
  }

  lemma StartDataKeeps(env: Env, o: Options, s: Tar, e: Entry)
    requires WellFormed(s) && s.pos.phase == InHeader && s.pos.remaining == e.size && s.cur.output != ToChecksum
    requires DATA_PREFIX <= e.path
    ensures var r := StartData(env, o, s, e); r.code == Ok ==> WellFormed(r.tar)
  {
    hide StartFs, EnsureCleared;
    ClearedShape(env, o, s);
    var c := EnsureCleared(env, o, s).tar;
    var relative := e.path[|DATA_PREFIX|..];
    StartFsKeeps(env, o, c.(cur := c.cur.(entry := Entry(relative, e.size, e.kind))), e, relative);
  }

  lemma StartEntryKeeps(env: Env, o: Options, s: Tar, e: Entry)
    requires WellFormed(s) && s.pos.phase == InHeader
    ensures var r := StartEntry(env, o, s, e); r.code == Ok ==> WellFormed(r.tar)
  {
    hide StartFs, StartApp, StartData, HasSuffix;
    var t := Opened(s, e);
    var d := if o.digestMode then StartDigest(t, e) else Step(Ok, t);
    StartFsKeeps(env, o, d.tar, e, e.path);
    StartAppKeeps(env, o, d.tar, e);
    if DATA_PREFIX <= e.path {
      assert e.path[0] != CHECKSUM[0];
      StartDataKeeps(env, o, d.tar, e);
    }
  }

  lemma HeaderBlockKeeps(env: Env, o: Options, s: Tar, block: seq<byte>)
    requires WellFormed(s) && s.pos.phase == InHeader
    ensures var r := HeaderBlock(env, o, s, block); r.code == Ok ==> WellFormed(r.tar)
  {
    match ParseHeader(env, block)
    case Header(e) => StartEntryKeeps(env, o, s.(pos := s.pos.(zeroBlocks := 0)), e);
    case _ =>
  }

  lemma FileKeepsWellFormed(env: Env, o: Options, s: Tar, b: byte)
    requires WellFormed(s) && s.pos.phase == InFile
    ensures var r := FileByte(env, o, s, b); r.code == Ok ==> WellFormed(r.tar)
  {
    hide FinishFile, AppTakes, FileTakes, HasSuffix;
    if SinkCode(env, s, [b]) == Ok { FinishFileKeeps(env, o, Absorb(s, [b])); }
  }

  lemma ByteKeepsWellFormed(env: Env, o: Options, s: Tar, b: byte)
    requires WellFormed(s)
    ensures var r := ByteStep(env, o, s, b); r.code == Ok ==> WellFormed(r.tar)
  {
    hide HeaderBlock, FileByte;
    if !s.pos.done {
      match s.pos.phase
      case InHeader =>
        var t := Headed(s, [b]);
        HeaderBlockKeeps(env, o, t.(pos := t.pos.(header := [])), t.pos.header);
      case InFile => FileKeepsWellFormed(env, o, s, b);
      case InPadding =>
    }
  }

  /** Accepted bytes never leave the well-formed states. */
  lemma {:induction false} FoldKeepsWellFormed(env: Env, o: Options, s: Tar, bytes: seq<byte>)
    requires WellFormed(s)
    ensures var r := Fold(env, o, s, bytes); r.code == Ok ==> WellFormed(r.tar)
    decreases |bytes|
  {
    hide ByteStep, WellFormed;
    if bytes != [] {
      ByteKeepsWellFormed(env, o, s, bytes[0]);
      var r := ByteStep(env, o, s, bytes[0]);
      if r.code == Ok { FoldKeepsWellFormed(env, o, r.tar, bytes[1..]); }
    }
  }

  /** Feeding `a` and then `b` is feeding `a + b`. */
  lemma {:induction false} FoldConcat(env: Env, o: Options, s: Tar, a: seq<byte>, b: seq<byte>)
    ensures Fold(env, o, s, a + b) ==
      var r := Fold(env, o, s, a); if r.code == Ok then Fold(env, o, r.tar, b) else r
    decreases |a|
  {
    if a == [] {
      assert a + b == b;
    } else {
      var r := ByteStep(env, o, s, a[0]);
      assert (a + b)[1..] == a[1..] + b;
      if r.code == Ok { FoldConcat(env, o, r.tar, a[1..], b); }
    }
  }

  // ---- the history is about the bytes fed ----

  /** An accepted header is the block that ends where its contents start. */
  ghost predicate Parsed(env: Env, l: Located, stream: seq<byte>) {
    BLOCK <= l.at <= |stream| && ParseHeader(env, stream[l.at - BLOCK..l.at]) == Header(l.entry)
  }

  ghost predicate Honest(env: Env, s: Tar) {
    && |s.pos.header| <= |s.past.stream| && s.past.stream[|s.past.stream| - |s.pos.header|..] == s.pos.header
    && (s.pos.phase != InHeader ==> s.pos.header == [])
    && forall i :: 0 <= i < |s.past.entries| ==> Parsed(env, s.past.entries[i], s.past.stream)
  }

  lemma GrowKeepsHonest(env: Env, s: Tar, t: Tar, more: seq<byte>)
    requires forall i :: 0 <= i < |s.past.entries| ==> Parsed(env, s.past.entries[i], s.past.stream)
    requires t.past.stream == s.past.stream + more && t.past.entries == s.past.entries
    ensures forall i :: 0 <= i < |t.past.entries| ==> Parsed(env, t.past.entries[i], t.past.stream)
  {
    forall i | 0 <= i < |t.past.entries| ensures Parsed(env, t.past.entries[i], t.past.stream) {
      var at := s.past.entries[i].at;
      assert Parsed(env, s.past.entries[i], s.past.stream);
      assert t.past.stream[at - BLOCK..at] == s.past.stream[at - BLOCK..at];
    }
  }

  lemma HeaderKeepsHonest(env: Env, o: Options, s: Tar, b: byte)
    requires WellFormed(s) && Honest(env, s) && s.pos.phase == InHeader
    ensures var r := HeaderByte(env, o, s, b);
      r.code == Ok ==> Honest(env, r.tar) && r.tar.past.stream == s.past.stream + [b]
  {
    hide StartFs, StartOta, StartDigest;
    var t := Headed(s, [b]);
    GrowKeepsHonest(env, s, t, [b]);
    var n := |t.past.stream|;
    var block := t.pos.header;
    assert |block| <= n && t.past.stream[n - |block|..] == block;
    if |block| == BLOCK && ParseHeader(env, block).Header? {
      var l := Located(ParseHeader(env, block).entry, n);
      assert t.past.stream[n - BLOCK..n] == block;
      assert Parsed(env, l, t.past.stream);
    }
  }

  lemma ByteKeepsHonest(env: Env, o: Options, s: Tar, b: byte)
    requires WellFormed(s) && Honest(env, s)
    ensures var r := ByteStep(env, o, s, b);
      r.code == Ok ==> Honest(env, r.tar) && r.tar.past.stream == s.past.stream + if s.pos.done then [] else [b]
  {
    hide FinishFile;
    if !s.pos.done {
      match s.pos.phase
      case InHeader => HeaderKeepsHonest(env, o, s, b); hide HeaderByte;
      case InFile => GrowKeepsHonest(env, s, Absorb(s, [b]), [b]);
      case InPadding => GrowKeepsHonest(env, s, Padded(s, [b]), [b]);
    }
  }

  ghost predicate Extends(s: Tar, t: Tar) {
    s.past.stream <= t.past.stream && s.past.entries <= t.past.entries && s.fsLog <= t.fsLog
  }

  lemma HeaderExtends(env: Env, o: Options, s: Tar, b: byte)
    ensures Extends(s, HeaderByte(env, o, s, b).tar)
  {
    hide StartFs, StartOta, StartDigest;
  }

  lemma FileExtends(env: Env, o: Options, s: Tar, b: byte)
    ensures Extends(s, FileByte(env, o, s, b).tar)
  {
    hide FinishFile, SinkCode, SinkOf, FileTakes, AppTakes;
  }

  /** Whatever becomes of a byte, nothing recorded before it is lost. */
  lemma ByteExtends(env: Env, o: Options, s: Tar, b: byte)
    ensures Extends(s, ByteStep(env, o, s, b).tar)
  {
    hide HeaderByte, FileByte;
    HeaderExtends(env, o, s, b);
    FileExtends(env, o, s, b);
  }

  lemma {:induction false} FoldExtends(env: Env, o: Options, s: Tar, bytes: seq<byte>)
    ensures Extends(s, Fold(env, o, s, bytes).tar)
    decreases |bytes|
  {
    hide ByteStep;
    if bytes != [] {
      ByteExtends(env, o, s, bytes[0]);
      FoldExtends(env, o, ByteStep(env, o, s, bytes[0]).tar, bytes[1..]);
    }
  }

  // ---- what a run of bytes inside one phase does ----

  lemma AbsorbConcat(s: Tar, a: seq<byte>, b: seq<byte>)
    requires |a| + |b| <= s.pos.remaining
    ensures Absorb(Absorb(s, a), b) == Absorb(s, a + b)
  {
    hide HasSuffix, Writes, AppBytes;
    assert s.cur.crcInput + a + b == s.cur.crcInput + (a + b);
    assert s.past.stream + a + b == s.past.stream + (a + b);
    assert s.digest.input + a + b == s.digest.input + (a + b);
    assert SinkOf(Absorb(s, a).cur) == SinkOf(s.cur);
    match SinkOf(s.cur)
    case ChecksumSink => assert s.ota.checksum + a + b == s.ota.checksum + (a + b);
    case AppSink => AppBytesConcat(s.appLog, a, b);
    case PixaSink => assert s.cur.pixa + a + b == s.cur.pixa + (a + b);
    case FileSink(p) => WritesConcat(s.fsLog, p, a, b);
    case _ =>
  }

  lemma AppBytesConcat(log: seq<AppEvent>, a: seq<byte>, b: seq<byte>)
    ensures log + AppBytes(a) + AppBytes(b) == log + AppBytes(a + b)
  {
  }

  lemma WritesConcat(log: seq<FsEvent>, p: Path, a: seq<byte>, b: seq<byte>)
    ensures log + Writes(p, a) + Writes(p, b) == log + Writes(p, a + b)
  {
  }

  lemma AbsorbNothing(s: Tar)
    ensures Absorb(s, []) == s
  {
    assert s.cur.crcInput + [] == s.cur.crcInput;
    assert s.past.stream + [] == s.past.stream;
    assert s.digest.input + [] == s.digest.input;
    match SinkOf(s.cur)
    case ChecksumSink => assert s.ota.checksum + [] == s.ota.checksum;
    case AppSink => assert s.appLog + AppBytes([]) == s.appLog;
    case PixaSink => assert s.cur.pixa + [] == s.cur.pixa;
    case FileSink(p) => assert s.fsLog + Writes(p, []) == s.fsLog;
    case _ =>
  }

  lemma {:induction false} FileTakesConcat(env: Env, log: seq<FsEvent>, path: Path, a: seq<byte>, b: seq<byte>)
    ensures FileTakes(env, log, path, a + b) ==
      var k := FileTakes(env, log, path, a);
      if k < |a| then k else |a| + FileTakes(env, log + Writes(path, a), path, b)
    decreases |a|
  {
    if a == [] {
      assert a + b == b && log + Writes(path, a) == log;
    } else {
      var first := FsEvent(WriteByte(path, a[0]), true);
      FileTakesConcat(env, log + [first], path, a[1..], b);
      assert (a + b)[1..] == a[1..] + b;
      assert log + [first] + Writes(path, a[1..]) == log + Writes(path, a);
    }
  }

  lemma {:induction false} AppTakesConcat(env: Env, log: seq<AppEvent>, a: seq<byte>, b: seq<byte>)
    ensures AppTakes(env, log, a + b) ==
      var k := AppTakes(env, log, a);
      if k < |a| then k else |a| + AppTakes(env, log + AppBytes(a), b)
    decreases |a|
  {
    if a == [] {
      assert a + b == b && log + AppBytes(a) == log;
    } else {
      var first := AppEvent(AppByte(a[0]), true);
      AppTakesConcat(env, log + [first], a[1..], b);
      assert (a + b)[1..] == a[1..] + b;
      assert log + [first] + AppBytes(a[1..]) == log + AppBytes(a);
    }
  }

  /** A sink takes a chunk exactly when it takes the front and then the rest. */
  lemma SinkConcat(env: Env, s: Tar, a: seq<byte>, b: seq<byte>)
    requires |a| + |b| <= s.pos.remaining
    ensures SinkCode(env, s, a + b) == Ok <==> SinkCode(env, s, a) == Ok && SinkCode(env, Absorb(s, a), b) == Ok
  {
    match SinkOf(s.cur)
    case AppSink => AppTakesConcat(env, s.appLog, a, b);
    case FileSink(p) => FileTakesConcat(env, s.fsLog, p, a, b);
    case _ =>
  }

  lemma ByteAbsorbed(env: Env, o: Options, s: Tar, b: byte)
    requires !s.pos.done && s.pos.phase == InFile && 1 < s.pos.remaining && SinkCode(env, s, [b]) == Ok
    ensures ByteStep(env, o, s, b) == Step(Ok, Absorb(s, [b]))
  {
    hide SinkCode, SinkOf, FinishFile;
  }

  lemma {:induction false} FoldFile(env: Env, o: Options, s: Tar, bytes: seq<byte>, rest: seq<byte>)
    requires !s.pos.done && s.pos.phase == InFile && |bytes| < s.pos.remaining && SinkCode(env, s, bytes) == Ok
    ensures Fold(env, o, s, bytes + rest) == Fold(env, o, Absorb(s, bytes), rest)
    decreases |bytes|
  {
    hide SinkCode, SinkOf, ByteStep;
    if bytes == [] {
      AbsorbNothing(s);
      assert bytes + rest == rest;
    } else {
      var b := [bytes[0]];
      assert b + bytes[1..] == bytes;
      SinkConcat(env, s, b, bytes[1..]);
      ByteAbsorbed(env, o, s, bytes[0]);
      assert (bytes + rest)[1..] == bytes[1..] + rest;
      FoldFile(env, o, Absorb(s, b), bytes[1..], rest);
      AbsorbConcat(s, b, bytes[1..]);
    }
  }

  /** The last chunk of an entry absorbs it all and finishes the entry. */
  lemma FoldFileEnd(env: Env, o: Options, s: Tar, bytes: seq<byte>, rest: seq<byte>)
    requires !s.pos.done && s.pos.phase == InFile && 0 < |bytes| == s.pos.remaining && SinkCode(env, s, bytes) == Ok
    ensures Fold(env, o, s, bytes + rest) ==
      var r := FinishFile(env, o, Absorb(s, bytes));
      if r.code == Ok then Fold(env, o, r.tar, rest) else Step(r.code, Release(o, r.tar))
  {
    hide FinishFile, Release;
    var front, last := bytes[..|bytes| - 1], bytes[|bytes| - 1];
    assert bytes == front + [last];
    SinkConcat(env, s, front, [last]);
    assert bytes + rest == front + ([last] + rest);
    FoldFile(env, o, s, front, [last] + rest);
    assert ([last] + rest)[1..] == rest;
    AbsorbConcat(s, front, [last]);
  }

  /** How much of a chunk its sink takes before it refuses the rest. */
  function Taken(env: Env, s: Tar, bytes: seq<byte>): nat {
    match SinkOf(s.cur)
    case ChecksumSink => if |s.ota.checksum| < CHECKSUM_CAP then CHECKSUM_CAP - 1 - |s.ota.checksum| else 0
    case AppSink => AppTakes(env, s.appLog, bytes)
    case FileSink(p) => FileTakes(env, s.fsLog, p, bytes)
    case _ => 0
  }

  /** A refused chunk splits where the sink stops, and the byte there is refused on its own. */
  lemma RefusedAt(env: Env, s: Tar, bytes: seq<byte>, k: nat)
    requires WellFormed(s) && 0 < |bytes| <= s.pos.remaining && SinkCode(env, s, bytes) != Ok
    requires k == Taken(env, s, bytes)
    ensures k < |bytes| && (SinkOf(s.cur).NoSink? || SinkCode(env, s, bytes[..k]) == Ok)
    ensures SinkCode(env, Absorb(s, bytes[..k]), [bytes[k]]) == SinkCode(env, s, bytes)
  {
    hide HasSuffix;
    var a, b, c := bytes[..k], [bytes[k]], bytes[k + 1..];
    assert a + b + c == bytes;
    assert SinkOf(Absorb(s, a).cur) == SinkOf(s.cur);
    match SinkOf(s.cur)
    case AppSink =>
      AppTakesConcat(env, s.appLog, a + b, c);
      AppTakesConcat(env, s.appLog, a, b);
    case FileSink(p) =>
      FileTakesConcat(env, s.fsLog, p, a + b, c);
      FileTakesConcat(env, s.fsLog, p, a, b);
    case _ =>
  }

  lemma RefuseByte(env: Env, s: Tar, b: byte)
    requires SinkCode(env, s, [b]) != Ok
    ensures Refuse(env, s, [b]) == (match SinkOf(s.cur)
      case AppSink => s.(digest := Hash(s, [b]), appLog := s.appLog + [AppEvent(AppByte(b), false)])
      case FileSink(p) => s.(digest := Hash(s, [b]), fsLog := s.fsLog + [FsEvent(WriteByte(p, b), false)])
      case _ => s.(digest := Hash(s, [b])))
  {
    hide HasSuffix;
    assert [b][..0] == [];
    match SinkOf(s.cur)
    case AppSink => assert s.appLog + AppBytes([]) == s.appLog;
    case FileSink(p) => assert s.fsLog + Writes(p, []) == s.fsLog;
    case _ =>
  }

  lemma HashMore(s: Tar, bytes: seq<byte>, k: nat)
    requires k < |bytes| <= s.pos.remaining
    ensures Hash(Absorb(s, bytes[..k]), [bytes[k]]).input <= Hash(s, bytes).input
  {
    hide SinkOf, Writes, AppBytes;
  }

  lemma RefuseAfter(env: Env, s: Tar, bytes: seq<byte>, k: nat)
    requires 0 < |bytes| <= s.pos.remaining && k < |bytes| && k == Taken(env, s, bytes)
    requires SinkCode(env, Absorb(s, bytes[..k]), [bytes[k]]) != Ok
    ensures SameEffects(Refuse(env, Absorb(s, bytes[..k]), [bytes[k]]), Refuse(env, s, bytes))
  {
    hide HasSuffix, FileTakes, AppTakes, SinkCode, Hash;
    var t := Absorb(s, bytes[..k]);
    RefuseByte(env, t, bytes[k]);
    assert SinkOf(t.cur) == SinkOf(s.cur);
    HashMore(s, bytes, k);
  }

  lemma ReleaseSame(o: Options, a: Tar, b: Tar)
    requires SameEffects(a, b)
    ensures SameEffects(Release(o, a), Release(o, b))
  {
  }

  lemma ByteRefused(env: Env, o: Options, s: Tar, bytes: seq<byte>)
    requires !s.pos.done && s.pos.phase == InFile && s.pos.remaining > 0
    requires |bytes| > 0 && SinkCode(env, s, [bytes[0]]) != Ok
    ensures Fold(env, o, s, bytes) ==
      Step(SinkCode(env, s, [bytes[0]]), Release(o, Refuse(env, s, [bytes[0]])))
  {
    hide SinkCode, Refuse, Release;
  }

  /** A chunk a sink refuses is refused by the byte-wise form too, at the byte where
      the sink stops and with the same calls before it. */
  lemma FoldFileRefused(env: Env, o: Options, s: Tar, bytes: seq<byte>, rest: seq<byte>)
    requires WellFormed(s) && !s.pos.done && s.pos.phase == InFile
    requires 0 < |bytes| <= s.pos.remaining && SinkCode(env, s, bytes) != Ok
    ensures SameOutcome(Fold(env, o, s, bytes + rest), Step(SinkCode(env, s, bytes), Release(o, Refuse(env, s, bytes))))
  {
    hide SinkCode, Refuse, Release, Fold, SameEffects;
    var k := Taken(env, s, bytes);
    RefusedAt(env, s, bytes, k);
    RefuseAfter(env, s, bytes, k);
    var t, tail := Absorb(s, bytes[..k]), bytes[k..] + rest;
    assert bytes + rest == bytes[..k] + tail && tail[0] == bytes[k];
    ByteRefused(env, o, t, tail);
    ReleaseSame(o, Refuse(env, t, [bytes[k]]), Refuse(env, s, bytes));
    if SinkOf(s.cur).NoSink? {
      AbsorbNothing(s);
      assert bytes[..k] == [] && [] + tail == tail;
    } else {
      FoldFile(env, o, s, bytes[..k], tail);
    }
  }

  lemma {:induction false} FoldHeader(env: Env, o: Options, s: Tar, bytes: seq<byte>, rest: seq<byte>)
    requires !s.pos.done && s.pos.phase == InHeader && |s.pos.header| + |bytes| < BLOCK
    ensures Fold(env, o, s, bytes + rest) == Fold(env, o, Headed(s, bytes), rest)
    decreases |bytes|
  {
    if bytes == [] {
      assert s.pos.header + [] == s.pos.header && s.past.stream + [] == s.past.stream;
      assert bytes + rest == rest;
    } else {
      var t := Headed(s, [bytes[0]]);
      assert ByteStep(env, o, s, bytes[0]) == Step(Ok, t);
      assert (bytes + rest)[1..] == bytes[1..] + rest;
      FoldHeader(env, o, t, bytes[1..], rest);
      HeadedConcat(s, [bytes[0]], bytes[1..]);
      assert [bytes[0]] + bytes[1..] == bytes;
    }
  }

  lemma HeadedConcat(s: Tar, a: seq<byte>, b: seq<byte>)
    ensures Headed(Headed(s, a), b) == Headed(s, a + b)
  {
    assert s.pos.header + a + b == s.pos.header + (a + b);
    assert s.past.stream + a + b == s.past.stream + (a + b);
  }

  lemma FoldHeaderEnd(env: Env, o: Options, s: Tar, bytes: seq<byte>, rest: seq<byte>)
    requires !s.pos.done && s.pos.phase == InHeader && 0 < |bytes| && |s.pos.header| + |bytes| == BLOCK
    ensures Fold(env, o, s, bytes + rest) ==
      var t := Headed(s, bytes);
      var r := HeaderBlock(env, o, t.(pos := t.pos.(header := [])), t.pos.header);
      if r.code == Ok then Fold(env, o, r.tar, rest) else Step(r.code, Release(o, r.tar))
  {
    hide HeaderBlock, Release;
    var front, last := bytes[..|bytes| - 1], bytes[|bytes| - 1];
    assert bytes + rest == front + ([last] + rest);
    FoldHeader(env, o, s, front, [last] + rest);
    assert ([last] + rest)[1..] == rest;
    HeadedConcat(s, front, [last]);
    assert front + [last] == bytes;
  }

  predicate AllZero(bytes: seq<byte>) { forall i :: 0 <= i < |bytes| ==> bytes[i] == 0 }

  lemma {:induction false} FoldPadding(env: Env, o: Options, s: Tar, bytes: seq<byte>, rest: seq<byte>)
    requires !s.pos.done && s.pos.phase == InPadding && 0 < s.pos.padding && |bytes| <= s.pos.padding
    requires o.digestMode ==> AllZero(bytes)
    ensures Fold(env, o, s, bytes + rest) == Fold(env, o, Padded(s, bytes), rest)
    decreases |bytes|
  {
    if bytes == [] {
      assert s.past.stream + [] == s.past.stream;
      assert bytes + rest == rest;
    } else {
      var t := Padded(s, [bytes[0]]);
      assert ByteStep(env, o, s, bytes[0]) == Step(Ok, t);
      assert (bytes + rest)[1..] == bytes[1..] + rest;
      assert s.past.stream + [bytes[0]] + bytes[1..] == s.past.stream + bytes;
      assert Padded(s, bytes) == Padded(t, bytes[1..]);
      if |bytes| == 1 {
        assert bytes[1..] + rest == rest;
        assert t.past.stream + [] == t.past.stream;
      } else {
        FoldPadding(env, o, t, bytes[1..], rest);
      }
    }
  }

  lemma {:induction false} FoldPaddingRefused(env: Env, o: Options, s: Tar, bytes: seq<byte>, rest: seq<byte>, k: nat)
    requires !s.pos.done && s.pos.phase == InPadding && 0 < s.pos.padding && |bytes| <= s.pos.padding
    requires o.digestMode && k < |bytes| && bytes[k] != 0 && AllZero(bytes[..k])
    ensures SameOutcome(Fold(env, o, s, bytes + rest), Step(BadTar, Release(o, s)))
  {
    var tail := bytes[k..] + rest;
    assert bytes + rest == bytes[..k] + tail;
    FoldPadding(env, o, s, bytes[..k], tail);
    assert tail[0] == bytes[k];
  }

  lemma {:induction false} FoldDone(env: Env, o: Options, s: Tar, bytes: seq<byte>)
    requires s.pos.done
    ensures Fold(env, o, s, bytes) == Step(if o.digestMode && !AllZero(bytes) then BadTar else Ok, s)
    decreases |bytes|
  {
    if bytes != [] {
      FoldDone(env, o, s, bytes[1..]);
      assert AllZero(bytes) <==> bytes[0] == 0 && AllZero(bytes[1..]);
    }
  }

  lemma FoldNothing(env: Env, o: Options, s: Tar)
    ensures Fold(env, o, s, []) == Step(Ok, s)
  {
  }

  /** The parser with its loops over cursor and remaining length. */
  class TarFeeder {
    const env: Env
    const options: Options
    var tar: Tar

    constructor (env: Env, options: Options, initial: Tar)
      ensures this.env == env && this.options == options && tar == initial
    {
      this.env := env;
      this.options := options;
      tar := initial;
    }

    /** The result this parser would reach on `bytes`, byte by byte. */
    ghost function After(bytes: seq<byte>): Step
      reads this
    {
      Fold(env, options, tar, bytes)
    }

    method ConsumeHeaderBytes(data: seq<byte>, cursor: nat) returns (rc: Code, next: nat)
      requires WellFormed(tar) && !tar.pos.done && tar.pos.phase == InHeader && cursor < |data|
      modifies this
      ensures cursor < next <= |data|
      ensures rc == Ok ==> After(data[next..]) == old(After(data[cursor..])) && WellFormed(tar)
      ensures rc != Ok ==> old(After(data[cursor..])) == Step(rc, Release(options, tar))
    {
      ghost var before := tar;
      var want := BLOCK - |tar.pos.header|;
      if want > |data| - cursor { want := |data| - cursor; }
      next := cursor + want;
      var bytes := data[cursor..next];
      assert data[cursor..] == bytes + data[next..];
      tar := Headed(tar, bytes);
      var header := tar.pos.header;
      if |header| < BLOCK {
        FoldHeader(env, options, before, bytes, data[next..]);
        return Ok, next;
      }
      FoldHeaderEnd(env, options, before, bytes, data[next..]);
      tar := tar.(pos := tar.pos.(header := []));
      HeaderBlockKeeps(env, options, tar, header);
      var r := HeaderBlock(env, options, tar, header);
      tar := r.tar;
      rc := r.code;
    }

    method ConsumeFileBytes(data: seq<byte>, cursor: nat) returns (rc: Code, next: nat)
      requires WellFormed(tar) && !tar.pos.done && tar.pos.phase == InFile && cursor < |data|
      modifies this
      ensures cursor <= next <= |data|
      ensures rc == Ok ==> cursor < next && After(data[next..]) == old(After(data[cursor..])) && WellFormed(tar)
      ensures rc != Ok ==> SameOutcome(old(After(data[cursor..])), Step(rc, Release(options, tar)))
    {
      ghost var before := tar;
      var take := |data| - cursor;
      if take > tar.pos.remaining { take := tar.pos.remaining; }
      next := cursor + take;
      var bytes := data[cursor..next];
      assert data[cursor..] == bytes + data[next..];
      rc := SinkCode(env, tar, bytes);
      if rc != Ok {
        FoldFileRefused(env, options, before, bytes, data[next..]);
        tar := Refuse(env, tar, bytes);
        return rc, cursor;
      }
      tar := Absorb(tar, bytes);
      if tar.pos.remaining == 0 {
        FoldFileEnd(env, options, before, bytes, data[next..]);
        FinishFileKeeps(env, options, tar);
        var r := FinishFile(env, options, tar);
        tar := r.tar;
        rc := r.code;
      } else {
        FoldFile(env, options, before, bytes, data[next..]);
      }
    }

    method ConsumePaddingBytes(data: seq<byte>, cursor: nat) returns (rc: Code, next: nat)
      requires WellFormed(tar) && !tar.pos.done && tar.pos.phase == InPadding && cursor < |data|
      modifies this
      ensures cursor <= next <= |data|
      ensures rc == Ok ==> cursor < next && After(data[next..]) == old(After(data[cursor..])) && WellFormed(tar)
      ensures rc != Ok ==> SameOutcome(old(After(data[cursor..])), Step(rc, Release(options, tar)))
    {
      ghost var before := tar;
      var take := |data| - cursor;
      if take > tar.pos.padding { take := tar.pos.padding; }
      next := cursor + take;
      var bytes := data[cursor..next];
      assert data[cursor..] == bytes + data[next..];
      if options.digestMode {
        for i := 0 to take
          invariant AllZero(bytes[..i])
          invariant tar == before
        {
          if bytes[i] != 0 {
            FoldPaddingRefused(env, options, before, bytes, data[next..], i);
            return BadTar, cursor;
          }
        }
        assert bytes[..take] == bytes;
      }
      FoldPadding(env, options, before, bytes, data[next..]);
      tar := Padded(tar, bytes);
      rc := Ok;
    }

    /** Behind the end marker of a hashed archive only zeros are taken. */
    method CheckTrailing(data: seq<byte>, cursor: nat) returns (rc: Code)
      requires cursor <= |data|
      ensures rc == if options.digestMode && tar.pos.done && !AllZero(data[cursor..]) then BadTar else Ok
    {
      if options.digestMode && tar.pos.done {
        for i := cursor to |data|
          invariant forall k :: cursor <= k < i ==> data[k] == 0
        {
          if data[i] != 0 {
            assert data[cursor..][i - cursor] != 0;
            return BadTar;
          }
        }
      }
      rc := Ok;
    }

    /** `tar_state_feed`: any chunk gives what its bytes give one at a time. */
    method Feed(data: seq<byte>) returns (rc: Code)
      requires WellFormed(tar)
      modifies this
      ensures SameOutcome(old(After(data)), Step(rc, tar))
      ensures rc == Ok ==> WellFormed(tar)
    {
      hide Fold, WellFormed, Release, AllZero;
      var cursor := 0;
      assert data[0..] == data;
      while cursor < |data| && !tar.pos.done
        invariant 0 <= cursor <= |data|
        invariant WellFormed(tar)
        invariant After(data[cursor..]) == old(After(data))
        decreases |data| - cursor
      {
        match tar.pos.phase {
          case InHeader => rc, cursor := ConsumeHeaderBytes(data, cursor);
          case InFile => rc, cursor := ConsumeFileBytes(data, cursor);
          case InPadding => rc, cursor := ConsumePaddingBytes(data, cursor);
        }
        if rc != Ok {
          tar := Release(options, tar);
          return;
        }
      }
      rc := CheckTrailing(data, cursor);
      if tar.pos.done {
        FoldDone(env, options, tar, data[cursor..]);
      } else {
        assert data[cursor..] == [];
        FoldNothing(env, options, tar);
      }
    }

    /** Any way of cutting the stream into chunks has one outcome. */
    method FeedAll(chunks: seq<seq<byte>>) returns (rc: Code)
      requires WellFormed(tar)
      modifies this
      ensures SameOutcome(old(After(Flatten(chunks))), Step(rc, tar))
      ensures rc == Ok ==> WellFormed(tar)
    {
      var i := 0;
      assert chunks[0..] == chunks;
      while i < |chunks|
        invariant 0 <= i <= |chunks|
        invariant WellFormed(tar)
        invariant After(Flatten(chunks[i..])) == old(After(Flatten(chunks)))
      {
        ghost var before := tar;
        assert chunks[i..][0] == chunks[i] && chunks[i..][1..] == chunks[i + 1..];
        FoldConcat(env, options, before, chunks[i], Flatten(chunks[i + 1..]));
        rc := Feed(chunks[i]);
        if rc != Ok { return; }
        i := i + 1;
      }
      rc := Ok;
    }
  }

  /** The verdict on a whole archive, byte by byte. */
  function Install(env: Env, o: Options, archive: seq<byte>): Step {
    var r := Fold(env, o, INIT, archive);
    if r.code == Ok then Finish(env, o, r.tar) else r
  }

  /** `h2_bundle_archive_install_zlib_tar` from the inflater on: whatever chunks it
      delivers, the install has the outcome of the bytes. */
  method InstallStream(env: Env, o: Options, chunks: seq<seq<byte>>) returns (rc: Code, tar: Tar)
    ensures SameOutcome(Install(env, o, Flatten(chunks)), Step(rc, tar))
  {
    hide Fold, Finish;
    var feeder := new TarFeeder(env, o, INIT);
    rc := feeder.FeedAll(chunks);
    tar := feeder.tar;
    if rc == Ok {
      var r := Finish(env, o, tar);
      rc, tar := r.code, r.tar;
    }
  }
}
