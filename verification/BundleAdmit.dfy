/** The OTA layout: which archives are accepted when neither the file system nor the app
    writer refuses a call. */
module BundleAdmit {
  import opened Bytes
  import opened BundleTar
  import opened BundleFeed
  import opened BundleGrammar
  import opened BundleTurn
  import opened BundleOta
  import opened Optional

  ghost predicate Obliging(env: Env) { Accepting(env) && forall log, op :: env.appOk(log, op) }

  /** `h2_bundle_install_ota` passes no manifest of its own. */
  ghost predicate OtaCall(o: Options) { OtaRun(o) && o.manifest.None? }

  /** The checksum file can be asked for: it is named, and if it is there it can be read. */
  ghost predicate Readable(env: Env, o: Options, log: seq<FsEvent>) {
    && o.checksumPath.Some? && o.checksumPath.value != []
    && (o.checksumPath.value in Replay(env.disk, log) ==> env.readOk(log))
  }

  /** A data entry that can be put below the root; the root itself only as a directory. */
  predicate DataPlaceable(root: Path, e: Entry)
    requires DATA_PREFIX <= e.path
  {
    var relative := e.path[|DATA_PREFIX|..];
    if relative == [] then e.kind == Dir else Placeable(root, relative)
  }

  // ---- one entry ----

  /** What the flags of the installer ask of an entry. */
  ghost predicate Allowed(env: Env, o: Options, s: Tar, e: Entry) {
    if IsManifest(e) then !s.ota.manifestSeen && !s.ota.checksumSeen && e.kind == File && e.size > 0
    else if IsChecksum(e) then
      && e.kind == File && 1 <= e.size < CHECKSUM_CAP && !s.ota.checksumSeen
      && |s.ota.checksum| + e.size < CHECKSUM_CAP && (o.skipData || Readable(env, o, s.fsLog))
    else if (e.path == DATA || e.path == APP) && e.kind == Dir then true
    else if DATA_PREFIX <= e.path then s.ota.checksumSeen && (s.ota.installNeeded ==> DataPlaceable(o.dstRoot, e))
    else if APP_PREFIX <= e.path then
      s.ota.checksumSeen && (e.kind == File ==> !s.ota.appSeen && (o.skipApp || o.hasWriter))
    else false
  }

  lemma SkipTaken(env: Env, o: Options, s: Tar, e: Entry, contents: seq<byte>)
    requires s.cur.output == ToSkip && |contents| == e.size == s.pos.remaining
    ensures TakeContents(env, o, Step(Ok, s), e, contents).code == Ok
  {
    hide HasSuffix;
  }

  lemma DataEntry(env: Env, o: Options, s: Tar, e: Entry, contents: seq<byte>)
    requires Accepting(env) && o.manifest.None? && DATA_PREFIX <= e.path
    requires s.cur == Current(NoOutput, e, e, None, [], [], s.cur.dstPath, s.cur.hashing)
    requires |contents| == e.size == s.pos.remaining && (e.kind == Dir ==> e.size == 0)
    ensures TakeContents(env, o, StartData(env, o, s, e), e, contents).code == Ok <==>
      s.ota.checksumSeen && (s.ota.installNeeded ==> DataPlaceable(o.dstRoot, e))
  {
    hide TakeContents, StartFs, EnsureCleared, HasSuffix, SafeRelative, StartContents;
    var r := StartData(env, o, s, e);
    if r.code != Ok { StaysRefused(env, o, r, e, contents); }
    if s.ota.checksumSeen {
      if !s.ota.installNeeded {
        SkipTaken(env, o, r.tar, e, contents);
      } else {
        ClearedShape(env, o, s);
        assert EnsureCleared(env, o, s).code == Ok by { ClearTaken(env, o, s); }
        var c := EnsureCleared(env, o, s).tar;
        var relative := e.path[|DATA_PREFIX|..];
        var t := c.(cur := c.cur.(entry := Entry(relative, e.size, e.kind)));
        if e.kind == Dir {
          NoContents(env, o, r, e);
          if relative != [] { DirTaken(env, o, t, e, relative); }
        } else if relative != [] {
          var x := FsTaken(env, o, t, e, relative);
          if HasSuffix(e.path, PIXA_SUFFIX) { SuffixAbove(e.path); }
          if Placeable(o.dstRoot, relative) { ContentsTaken(env, o, x, e, contents); }
        }
      }
    }
  }

  lemma ClearTaken(env: Env, o: Options, s: Tar)
    requires Accepting(env)
    ensures EnsureCleared(env, o, s).code == Ok
  {
  }

  lemma {:induction false} AppTakesAll(env: Env, log: seq<AppEvent>, bytes: seq<byte>)
    requires Obliging(env)
    ensures AppTakes(env, log, bytes) == |bytes|
    decreases |bytes|
  {
    if bytes != [] { AppTakesAll(env, log + [AppEvent(AppByte(bytes[0]), true)], bytes[1..]); }
  }

  lemma AppEntry(env: Env, o: Options, s: Tar, e: Entry, contents: seq<byte>)
    requires Obliging(env) && APP_PREFIX <= e.path
    requires s.cur == Current(NoOutput, e, e, None, [], [], s.cur.dstPath, false)
    requires |contents| == e.size == s.pos.remaining && (e.kind == Dir ==> e.size == 0)
    ensures TakeContents(env, o, StartApp(env, o, s, e), e, contents).code == Ok <==>
      s.ota.checksumSeen && (e.kind == File ==> !s.ota.appSeen && (o.skipApp || o.hasWriter))
  {
    hide TakeContents, StartContents, AppTakes;
    var r := StartApp(env, o, s, e);
    if r.code != Ok { StaysRefused(env, o, r, e, contents); }
    if s.ota.checksumSeen {
      if e.kind == Dir {
        NoContents(env, o, r, e);
      } else if !s.ota.appSeen {
        if o.skipApp {
          SkipTaken(env, o, r.tar, e, contents);
        } else if o.hasWriter {
          WriterTaken(env, o, AppBegun(s), e, contents);
        }
      }
    }
  }

  lemma WriterTaken(env: Env, o: Options, s: Tar, e: Entry, contents: seq<byte>)
    requires Obliging(env) && s.cur.output == ToApp && |contents| == e.size == s.pos.remaining
    ensures TakeContents(env, o, StartContents(env, o, s, e), e, contents).code == Ok
  {
    hide FinishChecksum, FinishFs, AppTakes;
    AppTakesAll(env, s.appLog, contents);
  }

  lemma ChecksumFinishes(env: Env, o: Options, s: Tar)
    ensures FinishChecksum(env, o, s).code == Ok <==>
      !s.ota.checksumSeen && s.ota.checksum != [] && (o.skipData || Readable(env, o, s.fsLog))
  {
    hide Replay;
  }

  lemma ChecksumContents(env: Env, o: Options, s: Tar, e: Entry, contents: seq<byte>)
    requires s.cur.output == ToChecksum && !s.cur.hashing && 0 < |contents| == e.size == s.pos.remaining
    ensures TakeContents(env, o, Step(Ok, s), e, contents).code == Ok <==>
      && !s.ota.checksumSeen
      && |s.ota.checksum| + e.size < CHECKSUM_CAP && (o.skipData || Readable(env, o, s.fsLog))
  {
    hide FinishChecksum, FinishApp, FinishFs, Readable, HasSuffix;
    ChecksumFinishes(env, o, Absorb(s, contents));
  }

  lemma ChecksumEntry(env: Env, o: Options, s: Tar, e: Entry, contents: seq<byte>)
    requires IsChecksum(e) && |contents| == e.size == s.pos.remaining
    requires s.cur == Current(NoOutput, e, e, None, [], [], s.cur.dstPath, false)
    ensures TakeContents(env, o, StartOta(env, o, s, e), e, contents).code == Ok <==>
      && e.kind == File && 1 <= e.size < CHECKSUM_CAP && !s.ota.checksumSeen
      && |s.ota.checksum| + e.size < CHECKSUM_CAP && (o.skipData || Readable(env, o, s.fsLog))
  {
    hide TakeContents, Readable, StartData, StartApp;
    PathsDiffer(e);
    var r := StartOta(env, o, s, e);
    if r.code == Ok { ChecksumContents(env, o, r.tar, e, contents); } else { StaysRefused(env, o, r, e, contents); }
  }

  lemma OtherEntry(env: Env, o: Options, s: Tar, e: Entry, contents: seq<byte>)
    requires |contents| == e.size == s.pos.remaining && !IsChecksum(e) && (e.kind == Dir ==> e.size == 0)
    requires IsManifest(e) || !IsBody(e)
    ensures TakeContents(env, o, StartOta(env, o, s, e), e, contents).code == Ok <==> Allowed(env, o, s, e)
  {
    hide TakeContents;
    PathsDiffer(e);
    var r := StartOta(env, o, s, e);
    if r.code == Ok { SkipTaken(env, o, r.tar, e, contents); } else { StaysRefused(env, o, r, e, contents); }
    if e.size == 0 { NoContents(env, o, r, e); }
  }

  /** The verdict on one entry. */
  lemma OtaEntry(env: Env, o: Options, s: Tar, e: Entry, contents: seq<byte>)
    requires Obliging(env) && OtaCall(o)
    requires (e.kind == Dir ==> e.size == 0) && |contents| == e.size
    ensures TakeEntry(env, o, s, e, contents).code == Ok <==> Allowed(env, o, s, e)
  {
    hide TakeContents, StartData, StartApp, Replay, DataPlaceable;
    PathsDiffer(e);
    var p := Opened(s, e);
    assert StartEntry(env, o, s, e) == StartOta(env, o, p, e);
    if IsChecksum(e) {
      ChecksumEntry(env, o, p, e, contents);
    } else if IsManifest(e) || !IsBody(e) {
      OtherEntry(env, o, p, e, contents);
    } else if DATA_PREFIX <= e.path {
      DataEntry(env, o, p, e, contents);
    } else {
      AppEntry(env, o, p, e, contents);
    }
  }

  // ---- all entries ----

  predicate Known(e: Entry) {
    IsManifest(e) || IsChecksum(e) || IsBody(e) || ((e.path == DATA || e.path == APP) && e.kind == Dir)
  }

  /** The checksum this archive announces is not the one on disk. */
  ghost predicate Stale(env: Env, o: Options, es: seq<Located>, archive: seq<byte>) {
    exists i :: 0 <= i < |es| && IsChecksum(es[i].entry) && Within(es[i], archive) && Outdated(env, o, Contents(es[i], archive))
  }

  /** What an entry needs beyond its place in the order of entries. */
  ghost predicate Fine(env: Env, o: Options, archive: seq<byte>, es: seq<Located>, e: Entry) {
    && Known(e)
    && (IsAppFile(e) ==> o.skipApp || o.hasWriter)
    && (IsChecksum(e) ==> o.skipData || Readable(env, o, []))
    && (DATA_PREFIX <= e.path && Stale(env, o, es, archive) ==> DataPlaceable(o.dstRoot, e))
  }

  ghost predicate AllFine(env: Env, o: Options, archive: seq<byte>, es: seq<Located>, from: seq<Located>) {
    forall i :: 0 <= i < |from| ==> Fine(env, o, archive, es, from[i].entry)
  }

  /** The state between two entries of an archive that keeps the order of entries. */
  ghost predicate Underway(env: Env, o: Options, s: Tar, archive: seq<byte>, es: seq<Located>) {
    && Between(s) && Inv(env, o, s) && s.past.stream <= archive && s.past.entries <= es && Grammar(es)
  }

  lemma StaleIsNeeded(env: Env, o: Options, s: Tar, archive: seq<byte>, es: seq<Located>)
    requires Underway(env, o, s, archive, es) && s.ota.checksumSeen
    ensures Stale(env, o, es, archive) <==> s.ota.installNeeded
  {
    hide WellFormed, OrderInv, Outdated, Progress, AppInv, Announced;
    var more, rest := archive[|s.past.stream|..], es[|s.past.entries|..];
    assert s.past.stream + more == archive && s.past.entries + rest == es;
    AnnouncedGrows(s.past.entries, rest, s.past.stream, more, s.ota.checksum);
    OnlyChecksum(es, archive, s.ota.checksum);
    HasOne(es);
  }

  lemma HasOne(es: seq<Located>)
    requires Has(IsChecksum, es)
    ensures exists i :: 0 <= i < |es| && IsChecksum(es[i].entry)
  {
  }

  /** Before the checksum nothing has been called. */
  lemma Untouched(env: Env, o: Options, s: Tar, archive: seq<byte>, es: seq<Located>)
    requires Underway(env, o, s, archive, es) && !s.ota.checksumSeen
    ensures s.fsLog == [] && s.ota.checksum == []
  {
    hide WellFormed, OrderInv, Outdated, Progress, AppInv, Announced;
  }

  /** In an ordered archive the flags ask nothing more. */
  lemma PlaceInOrder(s: Tar, es: seq<Located>, e: Entry)
    requires OrderInv(s) && s.pos.phase == InHeader && Grammar(es)
    requires |s.past.entries| < |es| && s.past.entries <= es && es[|s.past.entries|].entry == e
    ensures IsManifest(e) ==> !s.ota.manifestSeen && !s.ota.checksumSeen && e.kind == File && e.size > 0
    ensures IsChecksum(e) ==> !s.ota.checksumSeen && e.kind == File && 1 <= e.size < CHECKSUM_CAP
    ensures IsBody(e) ==> s.ota.checksumSeen
    ensures IsAppFile(e) ==> !s.ota.appSeen
  {
    var j := |s.past.entries|;
    assert es[..j] == s.past.entries;
    assert forall i :: 0 <= i < j ==> s.past.entries[i] == es[i];
  }

  lemma AllowedIsFine(env: Env, o: Options, s: Tar, archive: seq<byte>, es: seq<Located>, e: Entry)
    requires OtaCall(o) && Underway(env, o, s, archive, es)
    requires |s.past.entries| < |es| && es[|s.past.entries|].entry == e
    ensures Allowed(env, o, s, e) <==> Fine(env, o, archive, es, e)
  {
    hide OrderInv, FlowInv, WellFormed, Grammar, Stale, DataPlaceable, Readable;
    PathsDiffer(e);
    PlaceInOrder(s, es, e);
    if s.ota.checksumSeen {
      StaleIsNeeded(env, o, s, archive, es);
    } else {
      Untouched(env, o, s, archive, es);
    }
  }

  lemma OtaTurn(env: Env, o: Options, s: Tar, archive: seq<byte>, at: nat, e: Entry)
    requires Obliging(env) && OtaCall(o) && Between(s) && s.pos.zeroBlocks < 2
    requires After(at, e) <= |archive| && ParseHeader(env, archive[at..at + BLOCK]) == Header(e)
    ensures TurnAt(env, o, s, archive, at, e).code == Ok <==> Allowed(env, o, s, e)
    ensures Inv(env, o, s) && TurnAt(env, o, s, archive, at, e).code == Ok ==> Inv(env, o, TurnAt(env, o, s, archive, at, e).tar)
  {
    hide TakeEntry, TakeWhole, ParseHeader, Fold, Inv, Allowed, WellFormed;
    var h, contents := Heading(s, archive[at..at + BLOCK]), archive[at + BLOCK..at + BLOCK + e.size];
    assert e.kind == Dir ==> e.size == 0 by { ParsedDirectory(env, archive[at..at + BLOCK]); }
    OtaEntry(env, o, h, e, contents);
    assert Allowed(env, o, h, e) == Allowed(env, o, s, e) by { SameFlags(env, o, s, h, e); }
    PaddingIgnored(env, o, h, e, contents, archive[at + BLOCK + e.size..After(at, e)]);
    TurnIsFold(env, o, s, archive, at, e);
    if Inv(env, o, s) { FoldKeeps(env, o, s, archive[at..After(at, e)]); }
  }

  lemma SameFlags(env: Env, o: Options, s: Tar, t: Tar, e: Entry)
    requires t.ota == s.ota && t.fsLog == s.fsLog
    ensures Allowed(env, o, s, e) == Allowed(env, o, t, e)
  {
  }

  lemma FineFirst(env: Env, o: Options, archive: seq<byte>, es: seq<Located>, l: Located, rest: seq<Located>)
    ensures AllFine(env, o, archive, es, [l] + rest) <==> Fine(env, o, archive, es, l.entry) && AllFine(env, o, archive, es, rest)
  {
    hide Fine;
    var all := [l] + rest;
    assert all[0] == l && forall i :: 0 <= i < |rest| ==> all[i + 1] == rest[i];
  }

  lemma {:induction false} OtaTaken(env: Env, o: Options, s: Tar, archive: seq<byte>, at: nat, es: seq<Located>)
    requires Obliging(env) && OtaCall(o) && Underway(env, o, s, archive, es)
    requires at <= |archive| && s.past.stream == archive[..at]
    requires Closed(env, archive, at, s.pos.zeroBlocks, false) && es == s.past.entries + Scan(env, archive, at, s.pos.zeroBlocks)
    ensures AllTaken(env, o, s, archive, at) <==> AllFine(env, o, archive, es, Scan(env, archive, at, s.pos.zeroBlocks))
    ensures AllTaken(env, o, s, archive, at) ==>
      Inv(env, o, EndState(env, o, s, archive, at)) && EndState(env, o, s, archive, at).past.entries == es
    decreases |archive| - at
  {
    hide ParseHeader, WellFormed, TurnAt, Zeroed, AllTaken, EndState, Scan, Closed, AllFine, Fine, Allowed, Inv, Grammar;
    if s.pos.zeroBlocks >= 2 || at + BLOCK > |archive| {
      NoneNext(env, o, s, archive, at);
      NothingFine(env, o, archive, es);
    } else {
      match ParseHeader(env, archive[at..at + BLOCK]) {
        case Bad(_) => BadNext(env, archive, at, s.pos.zeroBlocks, false);
        case ZeroBlock =>
          var block := archive[at..at + BLOCK];
          ZeroNext(env, o, s, archive, at);
          ZeroFold(env, o, s, archive, at);
          ZeroedFields(s, block);
          ZeroKeepsInv(env, o, s, block);
          assert archive[..at] + block == archive[..at + BLOCK];
          OtaTaken(env, o, Zeroed(s, block), archive, at + BLOCK, es);
        case Header(e) =>
          var l, rest := Located(e, at + BLOCK), Scan(env, archive, After(at, e), 0);
          HeaderNext(env, o, s, archive, at, e);
          assert es[|s.past.entries|] == l && es == s.past.entries + [l] + rest;
          FineTurn(env, o, s, archive, at, e, es);
          FineFirst(env, o, archive, es, l, rest);
          var r := TurnAt(env, o, s, archive, at, e);
          if r.code == Ok { OtaTaken(env, o, r.tar, archive, After(at, e), es); }
      }
    }
  }

  lemma FineTurn(env: Env, o: Options, s: Tar, archive: seq<byte>, at: nat, e: Entry, es: seq<Located>)
    requires Obliging(env) && OtaCall(o) && Underway(env, o, s, archive, es) && s.pos.zeroBlocks < 2
    requires After(at, e) <= |archive| && s.past.stream == archive[..at] && ParseHeader(env, archive[at..at + BLOCK]) == Header(e)
    requires s.past.entries + [Located(e, at + BLOCK)] <= es
    ensures var r := TurnAt(env, o, s, archive, at, e);
      && (r.code == Ok <==> Fine(env, o, archive, es, e))
      && (r.code == Ok ==>
            && Underway(env, o, r.tar, archive, es) && r.tar.pos.zeroBlocks == 0
            && r.tar.past.stream == archive[..After(at, e)]
            && r.tar.past.entries == s.past.entries + [Located(e, at + BLOCK)])
  {
    hide ParseHeader, WellFormed, TurnAt, Fine, Allowed, Inv, Grammar, Obliging;
    TurnFold(env, o, s, archive, at, e);
    OtaTurn(env, o, s, archive, at, e);
    AllowedIsFine(env, o, s, archive, es, e);
    assert archive[..at] + archive[at..After(at, e)] == archive[..After(at, e)];
  }

  lemma NothingFine(env: Env, o: Options, archive: seq<byte>, es: seq<Located>)
    ensures AllFine(env, o, archive, es, [])
  {
  }

  lemma ZeroKeepsInv(env: Env, o: Options, s: Tar, block: seq<byte>)
    requires OtaRun(o) && Between(s) && s.pos.zeroBlocks < 2 && |block| == BLOCK && ParseHeader(env, block).ZeroBlock?
    requires Inv(env, o, s)
    ensures Inv(env, o, Zeroed(s, block))
  {
    hide Fold, Inv, ParseHeader, Between;
    ZeroIsFold(env, o, s, block);
    FoldKeeps(env, o, s, block);
  }

  // ---- the end ----

  lemma {:induction false} WriteAllTaken(env: Env, s: Tar, path: Path, bytes: seq<byte>)
    requires Accepting(env)
    ensures WriteAll(env, s, path, bytes).1
    decreases |bytes|
  {
    if bytes != [] { WriteAllTaken(env, Call(env, s, WriteByte(path, bytes[0])).0, path, bytes[1..]); }
  }

  lemma FinishOtaTaken(env: Env, o: Options, s: Tar)
    requires Accepting(env) && o.otaLayout && o.manifest.None?
    ensures Finish(env, o, s).code == Ok <==>
      Stops(o, s) && s.ota.checksumSeen && s.ota.appSeen && (o.skipData || o.checksumPath.Some?)
  {
    hide WriteAll, Release, EnsureCleared;
    ClearTaken(env, o, s);
    var c := EnsureCleared(env, o, s).tar;
    if o.checksumPath.Some? {
      var path := o.checksumPath.value;
      WriteAllTaken(env, Call(env, c, OpenTruncate(path)).0, path, c.ota.checksum);
    }
  }

  lemma FineNames(env: Env, o: Options, archive: seq<byte>, es: seq<Located>)
    requires AllFine(env, o, archive, es, es) && Grammar(es)
    ensures o.skipData || o.checksumPath.Some?
  {
    hide Ordered, AtMostOne, Stale, DataPlaceable;
    var i :| 0 <= i < |es| && IsChecksum(es[i].entry);
    assert Fine(env, o, archive, es, es[i].entry);
  }

  lemma OtaAcceptedIf(env: Env, o: Options, archive: seq<byte>)
    requires Obliging(env) && OtaCall(o) && Closed(env, archive, 0, 0, false)
    requires var es := Entries(env, archive); Grammar(es)
    ensures var es := Entries(env, archive); Install(env, o, archive).code == Ok <==> AllFine(env, o, archive, es, es)
  {
    hide Fold, Finish, Stops, Closed, AllTaken, Scan, EndState, AllFine, ParseHeader, WellFormed, Inv, Ordered;
    var es := Entries(env, archive);
    assert archive[0..] == archive && archive[..0] == [] && [] + es == es;
    assert Between(INIT) by { InitBetween(); }
    InitInv(env, o);
    GoodIsTaken(env, o, INIT, archive, 0);
    OtaTaken(env, o, INIT, archive, 0, es);
    var r := Fold(env, o, INIT, archive);
    FinishOtaTaken(env, o, r.tar);
    if AllTaken(env, o, INIT, archive, 0) {
      assert r.tar.ota.checksumSeen && r.tar.ota.appSeen by { EndFlags(env, o, r.tar, es); }
      FineNames(env, o, archive, es);
    }
  }

  lemma EndFlags(env: Env, o: Options, s: Tar, es: seq<Located>)
    requires Inv(env, o, s) && s.pos.phase == InHeader && s.past.entries == es && Grammar(es)
    ensures s.ota.checksumSeen && s.ota.appSeen
  {
    hide FlowInv, WellFormed, Ordered;
  }

  /** When neither file system nor writer refuses a call, an OTA archive is accepted exactly
      when it is laid out to its end, its entries come in the order of the layout, every
      name is one the layout knows, there is a writer for the app file and a readable place
      for the checksum unless they are skipped, and, if the checksum is not the installed
      one, every data entry has a place below the root. */
  lemma OtaAccepted(env: Env, o: Options, archive: seq<byte>)
    requires Obliging(env) && OtaCall(o)
    ensures var es := Entries(env, archive);
      Install(env, o, archive).code == Ok <==>
        Closed(env, archive, 0, 0, false) && Grammar(es) && AllFine(env, o, archive, es, es)
  {
    hide Fold, Finish, Stops, Closed, AllTaken, Scan, AllFine, ParseHeader, Grammar, WellFormed;
    var es := Entries(env, archive);
    assert archive[0..] == archive;
    assert Between(INIT) by { InitBetween(); }
    GoodIsTaken(env, o, INIT, archive, 0);
    if Install(env, o, archive).code == Ok {
      AcceptedOta(env, o, archive);
      FinishOtaTaken(env, o, Fold(env, o, INIT, archive).tar);
    }
    if Closed(env, archive, 0, 0, false) && Grammar(es) { OtaAcceptedIf(env, o, archive); }
  }
}
