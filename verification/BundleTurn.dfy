/** Whole archives entry by entry: the verdict of the parser said on complete entries, with
    no byte position left in it. */
module BundleTurn {
  import opened Bytes
  import opened BundleTar
  import opened BundleFeed
  import opened BundleGrammar
  import opened Optional

  /** The archive is laid out to its end: whole entries, then two zero blocks, with nothing
      but zeros behind them if `strict`; or else one zero block that ends the stream. */
  predicate Closed(env: Env, archive: seq<byte>, at: nat, zeros: nat, strict: bool)
    decreases |archive| - at
  {
    if at > |archive| then false
    else if zeros >= 2 then strict ==> AllZero(archive[at..])
    else if at == |archive| then zeros == 1 && !strict
    else if at + BLOCK > |archive| then false
    else match ParseHeader(env, archive[at..at + BLOCK])
    case Bad(_) => false
    case ZeroBlock => Closed(env, archive, at + BLOCK, zeros + 1, strict)
    case Header(e) => Closed(env, archive, at + BLOCK + e.size + Padding(e.size), 0, strict)
  }

  /** Between two entries, with none of them left open. */
  ghost predicate Between(s: Tar) {
    && WellFormed(s) && s.pos.phase == InHeader && s.pos.header == []
    && (s.pos.done <==> s.pos.zeroBlocks >= 2)
    && s.cur.outFile.None? && s.cur.pixa == []
  }

  /** `tar_state_finish` finds the stream at its end. */
  predicate Stops(o: Options, s: Tar) {
    && s.cur.outFile.None? && s.cur.pixa == [] && s.pos.phase == InHeader && s.pos.header == []
    && s.pos.zeroBlocks > 0 && (o.digestMode ==> s.pos.zeroBlocks >= 2)
  }

  /** The rest of the stream is taken, and ends an archive. */
  predicate Good(env: Env, o: Options, s: Tar, bytes: seq<byte>) {
    var r := Fold(env, o, s, bytes);
    r.code == Ok && Stops(o, r.tar)
  }

  // ---- one entry ----

  /** The header block of an entry is in. */
  function Heading(s: Tar, block: seq<byte>): Tar {
    var t := Headed(s, block);
    t.(pos := t.pos.(header := [], zeroBlocks := 0))
  }

  /** The contents of an entry whose header had the outcome `r`. */
  function TakeContents(env: Env, o: Options, r: Step, e: Entry, contents: seq<byte>): Step {
    if r.code != Ok || e.size == 0 then r
    else if SinkCode(env, r.tar, contents) != Ok || |contents| > r.tar.pos.remaining then Step(Fs, r.tar)
    else FinishFile(env, o, Absorb(r.tar, contents))
  }

  /** A header and all its contents. */
  function TakeEntry(env: Env, o: Options, s: Tar, e: Entry, contents: seq<byte>): Step {
    TakeContents(env, o, StartEntry(env, o, s, e), e, contents)
  }

  /** An entry with its padding. */
  function TakeWhole(env: Env, o: Options, s: Tar, e: Entry, contents: seq<byte>, padding: seq<byte>): Step {
    var r := TakeEntry(env, o, s, e, contents);
    if r.code != Ok then r
    else if o.digestMode && !AllZero(padding) then Step(BadTar, r.tar)
    else if padding == [] || |padding| > r.tar.pos.padding then r
    else Step(Ok, Padded(r.tar, padding))
  }

  lemma NoContents(env: Env, o: Options, r: Step, e: Entry)
    requires e.size == 0
    ensures forall contents :: TakeContents(env, o, r, e, contents) == r
  {
  }

  lemma StaysRefused(env: Env, o: Options, r: Step, e: Entry, contents: seq<byte>)
    requires r.code != Ok
    ensures TakeContents(env, o, r, e, contents) == r
  {
  }

  /** Without hashing, padding decides nothing. */
  lemma PaddingIgnored(env: Env, o: Options, s: Tar, e: Entry, contents: seq<byte>, padding: seq<byte>)
    requires !o.digestMode
    ensures var r := TakeEntry(env, o, s, e, contents); var w := TakeWhole(env, o, s, e, contents, padding);
      w.code == r.code && w.tar.seen == r.tar.seen && w.tar.fsLog == r.tar.fsLog && w.tar.ota == r.tar.ota
  {
    hide TakeEntry;
  }

  lemma TakePosition(env: Env, o: Options, s: Tar, e: Entry, contents: seq<byte>)
    requires s.pos.phase == InHeader && (e.kind == Dir ==> e.size == 0) && |contents| == e.size
    ensures var r := TakeEntry(env, o, s, e, contents); r.code == Ok ==>
      && r.tar.pos.phase == (if Padding(e.size) > 0 then InPadding else InHeader)
      && r.tar.pos.padding == Padding(e.size)
      && r.tar.pos.zeroBlocks == s.pos.zeroBlocks && r.tar.pos.done == s.pos.done && r.tar.pos.header == s.pos.header
      && r.tar.past.stream == s.past.stream + contents
      && r.tar.past.entries == s.past.entries + [Located(e, |s.past.stream|)]
  {
    hide StartEntry, FinishFile, SinkCode, SinkOf;
    EntryEntered(env, o, s, e);
    var r := StartEntry(env, o, s, e);
    if r.code == Ok {
      if e.size == 0 {
        assert s.past.stream + [] == s.past.stream;
      } else {
        FinishPhase(env, o, Absorb(r.tar, contents));
      }
    }
  }

  /** The bytes of a header and its contents do what the entry does. */
  lemma ContentsFold(env: Env, o: Options, s: Tar, block: seq<byte>, e: Entry, contents: seq<byte>, rest: seq<byte>)
    requires Between(s) && s.pos.zeroBlocks < 2 && |block| == BLOCK && ParseHeader(env, block) == Header(e)
    requires |contents| == e.size
    ensures var r := TakeEntry(env, o, Heading(s, block), e, contents);
      var all := Fold(env, o, s, block + (contents + rest));
      if r.code == Ok then all == Fold(env, o, r.tar, rest) else all.code != Ok
  {
    hide StartEntry, FinishFile, SinkCode, SinkOf, Fold, Release, ParseHeader, SameEffects;
    var h, t := Heading(s, block), Headed(s, block);
    assert s.pos.header + block == block;
    FoldHeaderEnd(env, o, s, block, contents + rest);
    assert e.kind == Dir ==> e.size == 0 by { ParsedDirectory(env, block); }
    EntryEntered(env, o, h, e);
    var r := StartEntry(env, o, h, e);
    assert HeaderBlock(env, o, t.(pos := t.pos.(header := [])), block) == r;
    if r.code == Ok {
      assert WellFormed(r.tar) by { StartEntryKeeps(env, o, h, e); }
      if e.size == 0 {
        assert contents + rest == rest;
      } else if SinkCode(env, r.tar, contents) == Ok {
        FoldFileEnd(env, o, r.tar, contents, rest);
      } else {
        FoldFileRefused(env, o, r.tar, contents, rest);
      }
    }
  }

  lemma {:induction false} FirstNonZero(bytes: seq<byte>) returns (k: nat)
    requires !AllZero(bytes)
    ensures k < |bytes| && bytes[k] != 0 && AllZero(bytes[..k])
  {
    k := 0;
    while bytes[k] == 0
      invariant k < |bytes| && AllZero(bytes[..k])
      decreases |bytes| - k
    {
      k := k + 1;
    }
  }

  lemma PaddingFold(env: Env, o: Options, s: Tar, padding: seq<byte>, rest: seq<byte>)
    requires !s.pos.done && s.pos.phase == InPadding && 0 < |padding| <= s.pos.padding
    ensures if o.digestMode && !AllZero(padding) then Fold(env, o, s, padding + rest).code != Ok
      else Fold(env, o, s, padding + rest) == Fold(env, o, Padded(s, padding), rest)
  {
    hide Fold, SameEffects;
    if o.digestMode && !AllZero(padding) {
      var k := FirstNonZero(padding);
      FoldPaddingRefused(env, o, s, padding, rest, k);
    } else {
      FoldPadding(env, o, s, padding, rest);
    }
  }

  /** The bytes of an entry do what the entry does. */
  lemma WholeFold(env: Env, o: Options, s: Tar, block: seq<byte>, e: Entry, contents: seq<byte>, padding: seq<byte>, rest: seq<byte>)
    requires Between(s) && s.pos.zeroBlocks < 2 && |block| == BLOCK && ParseHeader(env, block) == Header(e)
    requires |contents| == e.size && |padding| == Padding(e.size)
    ensures var r := TakeWhole(env, o, Heading(s, block), e, contents, padding);
      var all := Fold(env, o, s, block + (contents + (padding + rest)));
      && (if r.code == Ok then all == Fold(env, o, r.tar, rest) else all.code != Ok)
      && (r.code == Ok ==>
            && r.tar.pos.phase == InHeader && r.tar.pos.header == [] && r.tar.pos.zeroBlocks == 0 && !r.tar.pos.done
            && r.tar.past.stream == s.past.stream + block + contents + padding
            && r.tar.past.entries == s.past.entries + [Located(e, |s.past.stream| + BLOCK)])
  {
    hide TakeEntry, Fold, ParseHeader, AllZero;
    var h := Heading(s, block);
    ContentsFold(env, o, s, block, e, contents, padding + rest);
    assert e.kind == Dir ==> e.size == 0 by { ParsedDirectory(env, block); }
    TakePosition(env, o, h, e, contents);
    var r := TakeEntry(env, o, h, e, contents);
    if r.code == Ok {
      if padding == [] {
        assert AllZero([]) by { NothingIsZero(); }
        assert padding + rest == rest && r.tar.past.stream + [] == r.tar.past.stream;
      } else {
        PaddingFold(env, o, r.tar, padding, rest);
      }
    }
  }

  lemma NothingIsZero()
    ensures AllZero([])
  {
  }

  /** A stream that ends inside an entry ends no archive. */
  lemma Truncated(env: Env, o: Options, s: Tar, block: seq<byte>, e: Entry, bytes: seq<byte>)
    requires Between(s) && s.pos.zeroBlocks < 2 && |block| == BLOCK && ParseHeader(env, block) == Header(e)
    requires |bytes| < e.size + Padding(e.size)
    ensures !Good(env, o, s, block + bytes)
  {
    hide Fold, ParseHeader, AllZero, SameEffects;
    if |bytes| < e.size {
      CutInContents(env, o, s, block, e, bytes);
    } else {
      var contents, padding := bytes[..e.size], bytes[e.size..];
      assert contents + padding == bytes && padding + [] == padding;
      ContentsFold(env, o, s, block, e, contents, padding);
      assert e.kind == Dir ==> e.size == 0 by { ParsedDirectory(env, block); }
      TakePosition(env, o, Heading(s, block), e, contents);
      var r := TakeEntry(env, o, Heading(s, block), e, contents);
      if r.code == Ok {
        FoldNothing(env, o, r.tar);
        if padding == [] {
          assert !Stops(o, r.tar);
        } else {
          PaddingFold(env, o, r.tar, padding, []);
          FoldNothing(env, o, Padded(r.tar, padding));
        }
      }
    }
  }

  lemma CutInContents(env: Env, o: Options, s: Tar, block: seq<byte>, e: Entry, bytes: seq<byte>)
    requires Between(s) && s.pos.zeroBlocks < 2 && |block| == BLOCK && ParseHeader(env, block) == Header(e)
    requires |bytes| < e.size
    ensures !Good(env, o, s, block + bytes)
  {
    hide StartEntry, SinkCode, SinkOf, Fold, Release, ParseHeader, SameEffects;
    var h, t := Heading(s, block), Headed(s, block);
    assert s.pos.header + block == block && bytes + [] == bytes;
    FoldHeaderEnd(env, o, s, block, bytes);
    assert e.kind == Dir ==> e.size == 0 by { ParsedDirectory(env, block); }
    EntryEntered(env, o, h, e);
    var r := StartEntry(env, o, h, e);
    assert HeaderBlock(env, o, t.(pos := t.pos.(header := [])), block) == r;
    if r.code == Ok {
      assert WellFormed(r.tar) by { StartEntryKeeps(env, o, h, e); }
      if bytes == [] {
        FoldNothing(env, o, r.tar);
      } else if SinkCode(env, r.tar, bytes) == Ok {
        FoldFile(env, o, r.tar, bytes, []);
        FoldNothing(env, o, Absorb(r.tar, bytes));
      } else {
        FoldFileRefused(env, o, r.tar, bytes, []);
      }
    }
  }

  // ---- a finished entry leaves nothing open ----

  /** What is open while an entry is read: no file for a pixa archive, and nothing for
      entries that are not written below the root. */
  ghost predicate OpenOk(cur: Current) {
    if cur.output in {ToApp, ToChecksum, ToSkip} then cur.outFile.None? && cur.pixa == []
    else HasSuffix(cur.entry.path, PIXA_SUFFIX) ==> cur.outFile.None?
  }

  lemma FinishFsCloses(env: Env, o: Options, s: Tar)
    requires HasSuffix(s.cur.entry.path, PIXA_SUFFIX) ==> s.cur.outFile.None?
    ensures var r := FinishFs(env, o, s); r.code == Ok ==> r.tar.cur.outFile.None? && r.tar.cur.pixa == []
  {
    hide HasSuffix, VerifyManifest, Record;
  }

  lemma FinishCloses(env: Env, o: Options, s: Tar)
    requires OpenOk(s.cur)
    ensures var r := FinishFile(env, o, s); r.code == Ok ==> r.tar.cur.outFile.None? && r.tar.cur.pixa == []
  {
    hide HasSuffix, FinishFs, FinishApp, FinishChecksum;
    var t := CloseHash(s);
    FinishFsCloses(env, o, t);
    FinishAppShape(env, o, t);
    FinishChecksumShape(env, o, t);
  }

  /** An accepted header opens what its contents need, or with no contents closes it again. */
  ghost predicate Opening(e: Entry, r: Step) {
    r.code == Ok ==> if e.size == 0 then r.tar.cur.outFile.None? && r.tar.cur.pixa == [] else OpenOk(r.tar.cur)
  }

  lemma ContentsOpen(env: Env, o: Options, s: Tar, e: Entry)
    requires OpenOk(s.cur)
    ensures Opening(e, StartContents(env, o, s, e))
  {
    hide FinishFile, HasSuffix;
    FinishCloses(env, o, s);
  }

  lemma FsOpens(env: Env, o: Options, s: Tar, e: Entry, relative: Path)
    requires s.cur.outFile.None? && s.cur.pixa == [] && (e.kind == Dir ==> e.size == 0)
    requires HasSuffix(s.cur.entry.path, PIXA_SUFFIX) ==> HasSuffix(e.path, PIXA_SUFFIX)
    ensures Opening(e, StartFs(env, o, s, e, relative))
  {
    hide HasSuffix, StartContents, SafeRelative;
    var t := s.(cur := s.cur.(dstPath := RootPrefix(o.dstRoot) + relative, output := ToFs));
    var u := if Parent(t.cur.dstPath) == [] then t else Call(env, t, MakeDirs(Parent(t.cur.dstPath))).0;
    var w := Call(env, u, OpenTruncate(u.cur.dstPath)).0;
    if HasSuffix(e.path, PIXA_SUFFIX) {
      ContentsOpen(env, o, u, e);
    } else {
      ContentsOpen(env, o, w.(cur := w.cur.(outFile := Some(u.cur.dstPath))), e);
    }
  }

  lemma DataOpens(env: Env, o: Options, s: Tar, e: Entry)
    requires s.cur.outFile.None? && s.cur.pixa == [] && (e.kind == Dir ==> e.size == 0) && DATA_PREFIX <= e.path
    ensures Opening(e, StartData(env, o, s, e))
  {
    hide StartFs, EnsureCleared, HasSuffix;
    ClearedShape(env, o, s);
    var c := EnsureCleared(env, o, s).tar;
    var relative := e.path[|DATA_PREFIX|..];
    if HasSuffix(relative, PIXA_SUFFIX) { SuffixBelow(e.path); }
    FsOpens(env, o, c.(cur := c.cur.(entry := Entry(relative, e.size, e.kind))), e, relative);
  }

  lemma AppOpens(env: Env, o: Options, s: Tar, e: Entry)
    requires s.cur.outFile.None? && s.cur.pixa == [] && s.pos.phase == InHeader
    ensures Opening(e, StartApp(env, o, s, e))
  {
    hide StartApp;
    StartAppShape(env, o, s, e);
  }

  lemma EntryOpening(env: Env, o: Options, s: Tar, e: Entry)
    requires s.pos.phase == InHeader && (e.kind == Dir ==> e.size == 0)
    ensures Opening(e, StartEntry(env, o, s, e))
  {
    hide StartFs, StartApp, StartData, HasSuffix;
    var t := Opened(s, e);
    var d := if o.digestMode then StartDigest(t, e) else Step(Ok, t);
    FsOpens(env, o, d.tar, e, e.path);
    AppOpens(env, o, d.tar, e);
    if DATA_PREFIX <= e.path { DataOpens(env, o, d.tar, e); }
  }

  lemma TakeCloses(env: Env, o: Options, s: Tar, e: Entry, contents: seq<byte>)
    requires s.pos.phase == InHeader && (e.kind == Dir ==> e.size == 0)
    ensures var r := TakeEntry(env, o, s, e, contents); r.code == Ok ==> r.tar.cur.outFile.None? && r.tar.cur.pixa == []
  {
    hide StartEntry, FinishFile, SinkCode, HasSuffix;
    EntryOpening(env, o, s, e);
    var t := StartEntry(env, o, s, e).tar;
    if e.size > 0 && StartEntry(env, o, s, e).code == Ok && |contents| <= t.pos.remaining {
      FinishCloses(env, o, Absorb(t, contents));
    }
  }

  // ---- whole archives ----

  function After(at: nat, e: Entry): nat { at + BLOCK + e.size + Padding(e.size) }

  /** The entry whose header block is at `at`. */
  function TurnAt(env: Env, o: Options, s: Tar, archive: seq<byte>, at: nat, e: Entry): Step
    requires After(at, e) <= |archive|
  {
    TakeWhole(env, o, Heading(s, archive[at..at + BLOCK]), e,
              archive[at + BLOCK..at + BLOCK + e.size], archive[at + BLOCK + e.size..After(at, e)])
  }

  function Zeroed(s: Tar, block: seq<byte>): Tar {
    var t := Headed(s, block);
    t.(pos := t.pos.(header := [], zeroBlocks := s.pos.zeroBlocks + 1, done := s.pos.zeroBlocks + 1 >= 2))
  }

  /** Every entry from `at` on is taken, each in the state the ones before it leave. */
  ghost predicate AllTaken(env: Env, o: Options, s: Tar, archive: seq<byte>, at: nat)
    decreases |archive| - at
  {
    if s.pos.zeroBlocks >= 2 || at + BLOCK > |archive| then true else
    match ParseHeader(env, archive[at..at + BLOCK])
    case Bad(_) => true
    case ZeroBlock => AllTaken(env, o, Zeroed(s, archive[at..at + BLOCK]), archive, at + BLOCK)
    case Header(e) =>
      After(at, e) <= |archive| ==>
        var r := TurnAt(env, o, s, archive, at, e);
        r.code == Ok && AllTaken(env, o, r.tar, archive, After(at, e))
  }

  /** The state they leave. */
  ghost function EndState(env: Env, o: Options, s: Tar, archive: seq<byte>, at: nat): Tar
    decreases |archive| - at
  {
    if s.pos.zeroBlocks >= 2 || at + BLOCK > |archive| then s else
    match ParseHeader(env, archive[at..at + BLOCK])
    case Bad(_) => s
    case ZeroBlock => EndState(env, o, Zeroed(s, archive[at..at + BLOCK]), archive, at + BLOCK)
    case Header(e) =>
      if After(at, e) <= |archive| then EndState(env, o, TurnAt(env, o, s, archive, at, e).tar, archive, After(at, e)) else s
  }

  lemma ZeroedFields(s: Tar, block: seq<byte>)
    ensures var t := Zeroed(s, block);
      t.past == s.past.(stream := s.past.stream + block) && t.seen == s.seen && t.fsLog == s.fsLog && t.ota == s.ota
  {
  }

  lemma InitBetween()
    ensures Between(INIT)
  {
  }

  // One step of the readings of an archive.

  lemma HeaderNext(env: Env, o: Options, s: Tar, archive: seq<byte>, at: nat, e: Entry)
    requires s.pos.zeroBlocks < 2 && at + BLOCK <= |archive| && ParseHeader(env, archive[at..at + BLOCK]) == Header(e)
    ensures Scan(env, archive, at, s.pos.zeroBlocks) == [Located(e, at + BLOCK)] + Scan(env, archive, After(at, e), 0)
    ensures Closed(env, archive, at, s.pos.zeroBlocks, o.digestMode) == Closed(env, archive, After(at, e), 0, o.digestMode)
    ensures Closed(env, archive, at, s.pos.zeroBlocks, o.digestMode) ==> After(at, e) <= |archive|
    ensures After(at, e) <= |archive| ==>
      var r := TurnAt(env, o, s, archive, at, e);
      && AllTaken(env, o, s, archive, at) == (r.code == Ok && AllTaken(env, o, r.tar, archive, After(at, e)))
      && EndState(env, o, s, archive, at) == EndState(env, o, r.tar, archive, After(at, e))
  {
    hide ParseHeader, TurnAt, Padding;
  }

  lemma ZeroNext(env: Env, o: Options, s: Tar, archive: seq<byte>, at: nat)
    requires s.pos.zeroBlocks < 2 && at + BLOCK <= |archive| && ParseHeader(env, archive[at..at + BLOCK]).ZeroBlock?
    ensures var t, z := Zeroed(s, archive[at..at + BLOCK]), s.pos.zeroBlocks + 1;
      && Scan(env, archive, at, s.pos.zeroBlocks) == Scan(env, archive, at + BLOCK, z)
      && Closed(env, archive, at, s.pos.zeroBlocks, o.digestMode) == Closed(env, archive, at + BLOCK, z, o.digestMode)
      && AllTaken(env, o, s, archive, at) == AllTaken(env, o, t, archive, at + BLOCK)
      && EndState(env, o, s, archive, at) == EndState(env, o, t, archive, at + BLOCK)
  {
    hide ParseHeader, TurnAt, Padding;
  }

  lemma NoneNext(env: Env, o: Options, s: Tar, archive: seq<byte>, at: nat)
    requires s.pos.zeroBlocks >= 2 || at + BLOCK > |archive|
    ensures Scan(env, archive, at, s.pos.zeroBlocks) == []
    ensures AllTaken(env, o, s, archive, at) && EndState(env, o, s, archive, at) == s
  {
  }

  /** A block that is no header leaves nothing laid out. */
  lemma BadNext(env: Env, archive: seq<byte>, at: nat, zeros: nat, strict: bool)
    requires zeros < 2 && at + BLOCK <= |archive| && ParseHeader(env, archive[at..at + BLOCK]).Bad?
    ensures !Closed(env, archive, at, zeros, strict)
  {
  }

  lemma Cut(archive: seq<byte>, at: nat, e: Entry)
    requires After(at, e) <= |archive|
    ensures archive[at..] == archive[at..at + BLOCK]
      + (archive[at + BLOCK..at + BLOCK + e.size] + (archive[at + BLOCK + e.size..After(at, e)] + archive[After(at, e)..]))
  {
  }

  lemma TurnFold(env: Env, o: Options, s: Tar, archive: seq<byte>, at: nat, e: Entry)
    requires Between(s) && s.pos.zeroBlocks < 2 && After(at, e) <= |archive|
    requires ParseHeader(env, archive[at..at + BLOCK]) == Header(e)
    ensures var r := TurnAt(env, o, s, archive, at, e);
      && (if r.code == Ok then Fold(env, o, s, archive[at..]) == Fold(env, o, r.tar, archive[After(at, e)..])
          else Fold(env, o, s, archive[at..]).code != Ok)
      && (r.code == Ok ==>
            && Between(r.tar) && r.tar.pos.zeroBlocks == 0
            && r.tar.past.stream == s.past.stream + archive[at..After(at, e)]
            && r.tar.past.entries == s.past.entries + [Located(e, |s.past.stream| + BLOCK)])
  {
    hide TakeEntry, TakeWhole, Fold, ParseHeader, WellFormed;
    var block, contents, padding := archive[at..at + BLOCK], archive[at + BLOCK..at + BLOCK + e.size],
      archive[at + BLOCK + e.size..After(at, e)];
    var r := TurnAt(env, o, s, archive, at, e);
    Cut(archive, at, e);
    WholeFold(env, o, s, block, e, contents, padding, archive[After(at, e)..]);
    if r.code == Ok {
      assert archive[at..After(at, e)] == block + contents + padding;
      assert s.past.stream + block + contents + padding == s.past.stream + (block + contents + padding);
      TurnCloses(env, o, s, block, e, contents, padding);
      assert WellFormed(r.tar) by {
        WholeIsFold(env, o, s, block, e, contents, padding);
        FoldKeepsWellFormed(env, o, s, block + contents + padding);
      }
    }
  }

  lemma WholeIsFold(env: Env, o: Options, s: Tar, block: seq<byte>, e: Entry, contents: seq<byte>, padding: seq<byte>)
    requires Between(s) && s.pos.zeroBlocks < 2 && |block| == BLOCK && ParseHeader(env, block) == Header(e)
    requires |contents| == e.size && |padding| == Padding(e.size)
    ensures var r := TakeWhole(env, o, Heading(s, block), e, contents, padding);
      r.code == Ok ==> Fold(env, o, s, block + contents + padding) == r
  {
    hide TakeWhole, Fold, ParseHeader, WellFormed;
    WholeFold(env, o, s, block, e, contents, padding, []);
    assert block + (contents + (padding + [])) == block + contents + padding;
    FoldNothing(env, o, TakeWhole(env, o, Heading(s, block), e, contents, padding).tar);
  }

  /** An entry that is taken is what its bytes do, so whatever bytes keep it keeps. */
  lemma TurnIsFold(env: Env, o: Options, s: Tar, archive: seq<byte>, at: nat, e: Entry)
    requires Between(s) && s.pos.zeroBlocks < 2 && After(at, e) <= |archive|
    requires ParseHeader(env, archive[at..at + BLOCK]) == Header(e)
    ensures var r := TurnAt(env, o, s, archive, at, e);
      r.code == Ok ==> Fold(env, o, s, archive[at..After(at, e)]) == r
  {
    hide TakeWhole, Fold, ParseHeader, WellFormed;
    var block, contents, padding := archive[at..at + BLOCK], archive[at + BLOCK..at + BLOCK + e.size],
      archive[at + BLOCK + e.size..After(at, e)];
    WholeIsFold(env, o, s, block, e, contents, padding);
    assert archive[at..After(at, e)] == block + contents + padding;
  }

  lemma ZeroIsFold(env: Env, o: Options, s: Tar, block: seq<byte>)
    requires Between(s) && s.pos.zeroBlocks < 2 && |block| == BLOCK && ParseHeader(env, block).ZeroBlock?
    ensures Fold(env, o, s, block) == Step(Ok, Zeroed(s, block))
  {
    hide Fold, ParseHeader, WellFormed;
    assert block[0..BLOCK] == block == block[0..] && block[BLOCK..] == [];
    ZeroFold(env, o, s, block, 0);
    FoldNothing(env, o, Zeroed(s, block));
  }

  lemma TurnCloses(env: Env, o: Options, s: Tar, block: seq<byte>, e: Entry, contents: seq<byte>, padding: seq<byte>)
    requires s.pos.phase == InHeader && ParseHeader(env, block) == Header(e)
    ensures var r := TakeWhole(env, o, Heading(s, block), e, contents, padding);
      r.code == Ok ==> r.tar.cur.outFile.None? && r.tar.cur.pixa == []
  {
    hide TakeEntry, ParseHeader;
    assert e.kind == Dir ==> e.size == 0 by { ParsedDirectory(env, block); }
    TakeCloses(env, o, Heading(s, block), e, contents);
  }

  lemma ZeroFold(env: Env, o: Options, s: Tar, archive: seq<byte>, at: nat)
    requires Between(s) && s.pos.zeroBlocks < 2 && at + BLOCK <= |archive|
    requires ParseHeader(env, archive[at..at + BLOCK]).ZeroBlock?
    ensures var t := Zeroed(s, archive[at..at + BLOCK]);
      && Between(t) && t.pos.zeroBlocks == s.pos.zeroBlocks + 1
      && Fold(env, o, s, archive[at..]) == Fold(env, o, t, archive[at + BLOCK..])
  {
    hide Fold, ParseHeader;
    var block := archive[at..at + BLOCK];
    assert archive[at..] == block + archive[at + BLOCK..] && s.pos.header + block == block;
    FoldHeaderEnd(env, o, s, block, archive[at + BLOCK..]);
  }

  lemma BadFold(env: Env, o: Options, s: Tar, archive: seq<byte>, at: nat)
    requires Between(s) && s.pos.zeroBlocks < 2 && at + BLOCK <= |archive|
    requires ParseHeader(env, archive[at..at + BLOCK]).Bad?
    ensures var code := ParseHeader(env, archive[at..at + BLOCK]).code;
      Fold(env, o, s, archive[at..]).code == if code == Ok then BadTar else code
  {
    hide Fold, ParseHeader, Release;
    var block := archive[at..at + BLOCK];
    assert archive[at..] == block + archive[at + BLOCK..] && s.pos.header + block == block;
    FoldHeaderEnd(env, o, s, block, archive[at + BLOCK..]);
  }

  /** After whatever was taken, a header that does not parse decides the install, with the
      parser's error, whatever follows it. */
  lemma BadHeaderIsReported(env: Env, o: Options, taken: seq<byte>, rest: seq<byte>, s: Tar)
    requires Fold(env, o, INIT, taken) == Step(Ok, s) && Between(s) && s.pos.zeroBlocks < 2
    requires |rest| >= BLOCK && ParseHeader(env, rest[..BLOCK]).Bad? && ParseHeader(env, rest[..BLOCK]).code != Ok
    ensures Install(env, o, taken + rest).code == ParseHeader(env, rest[..BLOCK]).code
  {
    hide Fold, ParseHeader, Finish;
    FoldConcat(env, o, INIT, taken, rest);
    assert rest[0..] == rest && rest[0..BLOCK] == rest[..BLOCK];
    BadFold(env, o, s, rest, 0);
  }

  /** Less than a block is left: only nothing at all can end the archive. */
  lemma RestFold(env: Env, o: Options, s: Tar, bytes: seq<byte>)
    requires Between(s) && s.pos.zeroBlocks < 2 && |bytes| < BLOCK
    ensures Good(env, o, s, bytes) <==> bytes == [] && s.pos.zeroBlocks == 1 && !o.digestMode
    ensures bytes == [] ==> Fold(env, o, s, bytes) == Step(Ok, s)
  {
    hide Fold;
    assert bytes + [] == bytes;
    FoldHeader(env, o, s, bytes, []);
    FoldNothing(env, o, Headed(s, bytes));
    if bytes == [] { assert s.pos.header + [] == s.pos.header && s.past.stream + [] == s.past.stream; }
  }

  lemma CutShort(env: Env, o: Options, s: Tar, archive: seq<byte>, at: nat, e: Entry)
    requires Between(s) && s.pos.zeroBlocks < 2 && at + BLOCK <= |archive| < After(at, e)
    requires ParseHeader(env, archive[at..at + BLOCK]) == Header(e)
    ensures !Good(env, o, s, archive[at..])
  {
    hide Good, ParseHeader, WellFormed;
    assert archive[at..] == archive[at..at + BLOCK] + archive[at + BLOCK..];
    Truncated(env, o, s, archive[at..at + BLOCK], e, archive[at + BLOCK..]);
  }

  /** A stream is taken to its end exactly when the archive in it is laid out to its end and
      every entry is taken; it then leaves the state the entries leave. */
  lemma {:induction false} GoodIsTaken(env: Env, o: Options, s: Tar, archive: seq<byte>, at: nat)
    requires Between(s) && at <= |archive|
    ensures Good(env, o, s, archive[at..]) <==>
      Closed(env, archive, at, s.pos.zeroBlocks, o.digestMode) && AllTaken(env, o, s, archive, at)
    ensures Good(env, o, s, archive[at..]) ==>
      Fold(env, o, s, archive[at..]) == Step(Ok, EndState(env, o, s, archive, at)) && Between(EndState(env, o, s, archive, at))
    decreases |archive| - at
  {
    hide Fold, ParseHeader, WellFormed, TurnAt, Zeroed, AllZero;
    if s.pos.zeroBlocks >= 2 {
      FoldDone(env, o, s, archive[at..]);
    } else if at + BLOCK > |archive| {
      RestFold(env, o, s, archive[at..]);
    } else {
      match ParseHeader(env, archive[at..at + BLOCK]) {
        case Bad(_) => BadFold(env, o, s, archive, at);
        case ZeroBlock =>
          ZeroFold(env, o, s, archive, at);
          GoodIsTaken(env, o, Zeroed(s, archive[at..at + BLOCK]), archive, at + BLOCK);
        case Header(e) =>
          if After(at, e) > |archive| {
            CutShort(env, o, s, archive, at, e);
          } else {
            TurnFold(env, o, s, archive, at, e);
            var r := TurnAt(env, o, s, archive, at, e);
            if r.code == Ok { GoodIsTaken(env, o, r.tar, archive, After(at, e)); }
          }
      }
    }
  }

  // ---- a file system that refuses nothing ----

  ghost predicate Accepting(env: Env) { forall log, op :: env.fsOk(log, op) }

  /** A safe name that is short enough below the root. */
  predicate Placeable(root: Path, relative: Path) {
    SafeRelative(relative) && |RootPrefix(root)| + |relative| + 1 <= PATH_MAX
  }

  lemma {:induction false} FileTakesAll(env: Env, log: seq<FsEvent>, path: Path, bytes: seq<byte>)
    requires Accepting(env)
    ensures FileTakes(env, log, path, bytes) == |bytes|
    decreases |bytes|
  {
    if bytes != [] { FileTakesAll(env, log + [FsEvent(WriteByte(path, bytes[0]), true)], path, bytes[1..]); }
  }

  lemma CompleteTaken(env: Env, s: Tar)
    requires Accepting(env)
    ensures CompleteOutput(env, s).code == Ok
  {
    hide HasSuffix;
  }

  /** What a finished file needs beside the file system. */
  lemma FinishFsTaken(env: Env, o: Options, s: Tar)
    requires Accepting(env)
    ensures var (code, seen) := VerifyManifest(env, o, s.cur, s.seen); var r := FinishFs(env, o, s);
      (r.code == Ok <==> code == Ok) && (r.code == Ok ==> r.tar.seen == seen)
  {
    hide CompleteOutput, VerifyManifest, Record, Release;
    var t := s.(seen := VerifyManifest(env, o, s.cur, s.seen).1);
    CompleteTaken(env, t);
    CompleteShape(env, t);
  }

  /** A file below the root can be opened, and then its contents follow. */
  lemma FsTaken(env: Env, o: Options, s: Tar, e: Entry, relative: Path) returns (x: Tar)
    requires Accepting(env) && e.kind == File && s.cur.outFile.None?
    ensures !Placeable(o.dstRoot, relative) ==> StartFs(env, o, s, e, relative).code != Ok
    ensures var dst := RootPrefix(o.dstRoot) + relative;
      Placeable(o.dstRoot, relative) ==>
        && StartFs(env, o, s, e, relative) == StartContents(env, o, x, e)
        && x == s.(fsLog := x.fsLog, cur := s.cur.(dstPath := dst, output := ToFs,
             outFile := if HasSuffix(e.path, PIXA_SUFFIX) then None else Some(dst)))
  {
    hide StartContents, HasSuffix, SafeRelative;
    var dst := RootPrefix(o.dstRoot) + relative;
    var t := s.(cur := s.cur.(dstPath := dst, output := ToFs));
    var u := if Parent(dst) == [] then t else Call(env, t, MakeDirs(Parent(dst))).0;
    var w := Call(env, u, OpenTruncate(dst)).0;
    x := if HasSuffix(e.path, PIXA_SUFFIX) then u else w.(cur := w.cur.(outFile := Some(dst)));
  }

  lemma DirTaken(env: Env, o: Options, s: Tar, e: Entry, relative: Path)
    requires Accepting(env) && e.kind == Dir
    ensures var r := StartFs(env, o, s, e, relative);
      (r.code == Ok <==> Placeable(o.dstRoot, relative)) && (r.code == Ok ==> r.tar.seen == s.seen)
  {
    hide SafeRelative;
  }

  /** Contents below the root are all taken; the manifest alone decides. */
  lemma ContentsTaken(env: Env, o: Options, x: Tar, e: Entry, contents: seq<byte>)
    requires Accepting(env) && x.cur.output == ToFs && x.cur.crcInput == [] && |contents| == e.size == x.pos.remaining
    requires HasSuffix(x.cur.entry.path, PIXA_SUFFIX) || x.cur.outFile.Some?
    ensures var (code, seen) := VerifyManifest(env, o, x.cur.(crcInput := contents), x.seen);
      var r := TakeContents(env, o, StartContents(env, o, x, e), e, contents);
      (r.code == Ok <==> code == Ok) && (r.code == Ok ==> r.tar.seen == seen)
  {
    hide FinishFs, HasSuffix, VerifyManifest, FileTakes;
    if e.size == 0 {
      assert x.cur.(crcInput := contents) == x.cur;
      FinishFsTaken(env, o, CloseHash(x));
      SameVerdict(env, o, x.cur, CloseHash(x).cur, x.seen);
    } else {
      var y := SetPhase(x, InFile);
      if x.cur.outFile.Some? { FileTakesAll(env, x.fsLog, x.cur.outFile.value, contents); }
      var z := Absorb(y, contents);
      assert [] + contents == contents;
      FinishFsTaken(env, o, CloseHash(z));
      SameVerdict(env, o, x.cur.(crcInput := contents), CloseHash(z).cur, x.seen);
    }
  }

  lemma SameVerdict(env: Env, o: Options, a: Current, b: Current, seen: set<nat>)
    requires a.entry == b.entry && a.crcInput == b.crcInput
    ensures VerifyManifest(env, o, a, seen) == VerifyManifest(env, o, b, seen)
  {
  }
}
