/** The archive format on the bytes alone, and its agreement with the parser: a run
    records exactly the headers a reader of the whole archive would find. */
module BundleGrammar {
  import opened Bytes
  import opened BundleTar
  import opened BundleFeed
  import opened Optional

  /** Entries from offset `at` on: a header block, contents, padding to the block
      size, the next header; two zero blocks in a row end the archive. */
  function Scan(env: Env, archive: seq<byte>, at: nat, zeros: nat): seq<Located>
    decreases |archive| - at
  {
    if zeros >= 2 || at + BLOCK > |archive| then [] else
    match ParseHeader(env, archive[at..at + BLOCK])
    case Bad(_) => []
    case ZeroBlock => Scan(env, archive, at + BLOCK, zeros + 1)
    case Header(e) =>
      [Located(e, at + BLOCK)] + Scan(env, archive, at + BLOCK + e.size + Padding(e.size), 0)
  }

  function Entries(env: Env, archive: seq<byte>): seq<Located> { Scan(env, archive, 0, 0) }

  /** Where the next header block starts. */
  function Next(s: Tar): int {
    match s.pos.phase
    case InHeader => |s.past.stream| - |s.pos.header|
    case InFile => |s.past.stream| + s.pos.remaining + s.pos.padding
    case InPadding => |s.past.stream| + s.pos.padding
  }

  /** The entries of the archive are those recorded and those still to come. */
  ghost predicate OnTrack(env: Env, s: Tar, archive: seq<byte>) {
    && s.past.stream <= archive && Next(s) >= 0
    && (s.pos.done <==> s.pos.zeroBlocks >= 2)
    && (s.pos.phase != InHeader ==> s.pos.zeroBlocks == 0)
    && Entries(env, archive) == s.past.entries + Scan(env, archive, Next(s), s.pos.zeroBlocks)
  }

  /** What a rejected run leaves behind is a beginning of the archive too. */
  ghost predicate Prefix(env: Env, s: Tar, archive: seq<byte>) {
    s.past.stream <= archive && s.past.entries <= Entries(env, archive)
  }

  // ---- the phase after a header ----

  ghost predicate AtEntry(s: Tar, e: Entry) {
    && s.pos.phase == InHeader && s.pos.remaining == e.size && s.pos.padding == Padding(e.size)
    && (e.kind == Dir ==> e.size == 0)
  }

  ghost predicate Advances(e: Entry, r: Step) {
    r.code == Ok ==> r.tar.pos.phase == if e.size == 0 then InHeader else InFile
  }

  lemma ContentsEntered(env: Env, o: Options, s: Tar, e: Entry)
    requires AtEntry(s, e)
    ensures Advances(e, StartContents(env, o, s, e))
  {
  }

  lemma OutputEntered(env: Env, o: Options, s: Tar, e: Entry)
    requires AtEntry(s, e)
    ensures Advances(e, StartOutput(env, o, s, e))
  {
    hide StartContents;
    var u := if Parent(s.cur.dstPath) == [] then s else Call(env, s, MakeDirs(Parent(s.cur.dstPath))).0;
    var w := Call(env, u, OpenTruncate(u.cur.dstPath)).0;
    ContentsEntered(env, o, u, e);
    ContentsEntered(env, o, w.(cur := w.cur.(outFile := Some(u.cur.dstPath))), e);
  }

  lemma FsEntered(env: Env, o: Options, s: Tar, e: Entry, relative: Path)
    requires AtEntry(s, e)
    ensures Advances(e, StartFs(env, o, s, e, relative))
  {
    hide StartOutput;
    var t := s.(cur := s.cur.(dstPath := RootPrefix(o.dstRoot) + relative));
    OutputEntered(env, o, SetOutput(t, ToFs), e);
  }

  lemma AppEntered(env: Env, o: Options, s: Tar, e: Entry)
    requires AtEntry(s, e)
    ensures Advances(e, StartApp(env, o, s, e))
  {
    hide StartContents;
    var t := s.(ota := s.ota.(appSeen := true));
    var u := AppCall(env, SetOutput(t, ToApp), Begin(t.cur.appEntry)).0;
    ContentsEntered(env, o, u.(ota := u.ota.(writerActive := true)), e);
  }

  lemma DataEntered(env: Env, o: Options, s: Tar, e: Entry)
    requires AtEntry(s, e) && DATA_PREFIX <= e.path
    ensures Advances(e, StartData(env, o, s, e))
  {
    hide StartFs;
    var c := EnsureCleared(env, o, s).tar;
    var relative := e.path[|DATA_PREFIX|..];
    FsEntered(env, o, c.(cur := c.cur.(entry := Entry(relative, e.size, e.kind))), e, relative);
  }

  lemma EntryEntered(env: Env, o: Options, s: Tar, e: Entry)
    requires s.pos.phase == InHeader && (e.kind == Dir ==> e.size == 0)
    ensures var r := StartEntry(env, o, s, e);
      && Advances(e, r)
      && r.tar.past.stream == s.past.stream
      && r.tar.past.entries == s.past.entries + [Located(e, |s.past.stream|)]
      && r.tar.pos == s.pos.(phase := r.tar.pos.phase, remaining := e.size, padding := Padding(e.size))
  {
    hide StartFs, StartApp, StartData;
    var t := Opened(s, e);
    var d := if o.digestMode then StartDigest(t, e) else Step(Ok, t);
    FsEntered(env, o, d.tar, e, e.path);
    AppEntered(env, o, d.tar, e);
    if DATA_PREFIX <= e.path { DataEntered(env, o, d.tar, e); }
  }

  // ---- one byte ----

  lemma BlockOf(s: Tar, b: byte, archive: seq<byte>)
    requires |s.pos.header| <= |s.past.stream|
    requires s.past.stream[|s.past.stream| - |s.pos.header|..] == s.pos.header && s.past.stream + [b] <= archive
    ensures var n := |s.past.stream| + 1; archive[|s.past.stream| - |s.pos.header|..n] == s.pos.header + [b]
  {
    var k := |s.past.stream| - |s.pos.header|;
    assert archive[k..|s.past.stream|] == s.past.stream[k..];
  }

  lemma BlockOnTrack(env: Env, o: Options, s: Tar, block: seq<byte>, archive: seq<byte>)
    requires s.pos.phase == InHeader && s.pos.header == [] && !s.pos.done && |block| == BLOCK
    requires s.past.stream <= archive && |s.past.stream| >= BLOCK && s.pos.zeroBlocks < 2
    requires archive[|s.past.stream| - BLOCK..|s.past.stream|] == block
    requires Entries(env, archive) == s.past.entries + Scan(env, archive, |s.past.stream| - BLOCK, s.pos.zeroBlocks)
    ensures var r := HeaderBlock(env, o, s, block);
      Prefix(env, r.tar, archive) && (r.code == Ok ==> OnTrack(env, r.tar, archive))
  {
    hide StartEntry, ParseHeader;
    var n := |s.past.stream|;
    match ParseHeader(env, block) {
      case Header(e) =>
        assert e.kind == Dir ==> e.size == 0 by { ParsedDirectory(env, block); }
        EntryEntered(env, o, s.(pos := s.pos.(zeroBlocks := 0)), e);
        var rest := Scan(env, archive, n + e.size + Padding(e.size), 0);
        assert s.past.entries + ([Located(e, n)] + rest) == s.past.entries + [Located(e, n)] + rest;
      case _ =>
    }
  }

  lemma ParsedDirectory(env: Env, block: seq<byte>)
    requires ParseHeader(env, block).Header?
    ensures var e := ParseHeader(env, block).entry; e.kind == Dir ==> e.size == 0
  {
  }

  lemma HeaderOnTrack(env: Env, o: Options, s: Tar, b: byte, archive: seq<byte>)
    requires WellFormed(s) && Honest(env, s) && !s.pos.done && s.pos.phase == InHeader
    requires OnTrack(env, s, archive) && s.past.stream + [b] <= archive
    ensures var r := HeaderByte(env, o, s, b);
      Prefix(env, r.tar, archive) && (r.code == Ok ==> OnTrack(env, r.tar, archive))
  {
    hide HeaderBlock, Scan;
    BlockOf(s, b, archive);
    var t := Headed(s, [b]);
    if |t.pos.header| == BLOCK {
      BlockOnTrack(env, o, t.(pos := t.pos.(header := [])), t.pos.header, archive);
    }
  }

  lemma FileOnTrack(env: Env, o: Options, s: Tar, b: byte, archive: seq<byte>)
    requires WellFormed(s) && Honest(env, s) && !s.pos.done && s.pos.phase == InFile
    requires OnTrack(env, s, archive) && s.past.stream + [b] <= archive
    ensures var r := FileByte(env, o, s, b);
      Prefix(env, r.tar, archive) && (r.code == Ok ==> OnTrack(env, r.tar, archive))
  {
    hide SinkCode, FinishFile, Scan;
    if SinkCode(env, s, [b]) == Ok {
      FinishPhase(env, o, Absorb(s, [b]));
    }
  }

  lemma FinishPhase(env: Env, o: Options, s: Tar)
    ensures var r := FinishFile(env, o, s);
      r.code == Ok ==> r.tar.pos.phase == if s.pos.padding > 0 then InPadding else InHeader
  {
  }

  lemma ByteOnTrack(env: Env, o: Options, s: Tar, b: byte, archive: seq<byte>)
    requires WellFormed(s) && Honest(env, s) && !s.pos.done
    requires OnTrack(env, s, archive) && s.past.stream + [b] <= archive
    ensures var r := ByteStep(env, o, s, b);
      Prefix(env, r.tar, archive) && (r.code == Ok ==> OnTrack(env, r.tar, archive))
  {
    hide HeaderByte, FileByte, Scan;
    match s.pos.phase
    case InHeader => HeaderOnTrack(env, o, s, b, archive);
    case InFile => FileOnTrack(env, o, s, b, archive);
    case InPadding =>
  }

  // ---- whole runs ----

  lemma {:induction false} FoldOnTrack(env: Env, o: Options, s: Tar, bytes: seq<byte>, archive: seq<byte>)
    requires WellFormed(s) && Honest(env, s) && OnTrack(env, s, archive)
    requires s.pos.done || s.past.stream + bytes == archive
    ensures var r := Fold(env, o, s, bytes);
      && Prefix(env, r.tar, archive)
      && (r.code == Ok ==> OnTrack(env, r.tar, archive) && (r.tar.pos.done || r.tar.past.stream == archive))
    decreases |bytes|
  {
    hide ByteStep, Honest, WellFormed, Scan;
    if s.pos.done {
      FoldDone(env, o, s, bytes);
    } else if bytes == [] {
      assert s.past.stream + [] == s.past.stream;
    } else {
      ByteKeepsWellFormed(env, o, s, bytes[0]);
      ByteKeepsHonest(env, o, s, bytes[0]);
      ByteOnTrack(env, o, s, bytes[0], archive);
      var r := ByteStep(env, o, s, bytes[0]);
      if r.code == Ok {
        assert s.past.stream + [bytes[0]] + bytes[1..] == s.past.stream + bytes;
        FoldOnTrack(env, o, r.tar, bytes[1..], archive);
      }
    }
  }

  /** An archive the parser takes to its end holds no entry it has not recorded. */
  lemma NothingLeft(env: Env, s: Tar, archive: seq<byte>)
    requires OnTrack(env, s, archive) && (s.pos.done || s.past.stream == archive) && WellFormed(s)
    ensures s.past.entries == Entries(env, archive)
  {
    assert Scan(env, archive, Next(s), s.pos.zeroBlocks) == [];
    assert s.past.entries + [] == s.past.entries;
  }

  /** Before the first byte everything is still to come. */
  lemma StartOnTrack(env: Env, s: Tar, archive: seq<byte>)
    requires s.pos == INIT.pos && s.past == INIT.past
    ensures OnTrack(env, s, archive) && Honest(env, s) && s.past.stream + archive == archive
  {
    hide Scan, ParseHeader;
    assert s.past.stream == [] && s.past.entries == [] && Next(s) == 0;
    assert [] + Entries(env, archive) == Entries(env, archive);
  }

  /** Every run reads a beginning of the archive; one that takes all of it has found
      exactly the entries laid out in it. */
  lemma FoldReadsArchive(env: Env, o: Options, s: Tar, archive: seq<byte>)
    requires WellFormed(s) && s.pos == INIT.pos && s.past == INIT.past
    ensures var r := Fold(env, o, s, archive);
      && Prefix(env, r.tar, archive)
      && (r.code == Ok ==> r.tar.past.entries == Entries(env, archive))
  {
    hide Fold, WellFormed, OnTrack, Entries, Honest;
    StartOnTrack(env, s, archive);
    FoldOnTrack(env, o, s, archive, archive);
    FoldKeepsWellFormed(env, o, s, archive);
    var r := Fold(env, o, s, archive);
    if r.code == Ok { NothingLeft(env, r.tar, archive); }
  }
}
