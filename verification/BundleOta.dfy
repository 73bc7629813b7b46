/** The OTA layout: what every accepted stream looks like and what it does. */
module BundleOta {
  import opened Bytes
  import opened BundleTar
  import opened BundleFeed
  import opened BundleGrammar
  import opened Optional
  import BundleManifest

  ghost predicate OtaRun(o: Options) { o.otaLayout && !o.digestMode }

  predicate IsManifest(e: Entry) { e.path == MANIFEST }
  predicate IsChecksum(e: Entry) { e.path == CHECKSUM }
  predicate IsAppFile(e: Entry) { APP_PREFIX <= e.path && e.kind == File }
  predicate IsBody(e: Entry) { DATA_PREFIX <= e.path || APP_PREFIX <= e.path }

  lemma PathsDiffer(e: Entry)
    ensures !(IsManifest(e) && IsChecksum(e))
    ensures IsBody(e) ==> !IsManifest(e) && !IsChecksum(e)
    ensures !(DATA_PREFIX <= e.path && APP_PREFIX <= e.path)
    ensures (e.path == DATA || e.path == APP) ==> !IsManifest(e) && !IsChecksum(e) && !IsBody(e)
  {
    assert MANIFEST[0] == 109 && CHECKSUM[0] == 99 && DATA[0] == DATA_PREFIX[0] == 100 && APP[0] == APP_PREFIX[0] == 97;
    assert |DATA| < |DATA_PREFIX| && |APP| < |APP_PREFIX|;
  }

  // ---- the order of entries ----

  ghost predicate Has(p: Entry -> bool, es: seq<Located>) {
    exists i :: 0 <= i < |es| && p(es[i].entry)
  }

  ghost predicate AtMostOne(p: Entry -> bool, es: seq<Located>) {
    forall i, j :: 0 <= i < j < |es| ==> !(p(es[i].entry) && p(es[j].entry))
  }

  /** Everything matching `later` comes after something matching `earlier`. */
  ghost predicate Preceded(later: Entry -> bool, earlier: Entry -> bool, es: seq<Located>) {
    forall j :: 0 <= j < |es| && later(es[j].entry) ==> Has(earlier, es[..j])
  }

  ghost predicate NotAfter(first: Entry -> bool, second: Entry -> bool, es: seq<Located>) {
    forall i, j :: 0 <= i < j < |es| ==> !(second(es[i].entry) && first(es[j].entry))
  }

  ghost predicate Shapes(es: seq<Located>) {
    forall i :: 0 <= i < |es| ==>
      && (IsManifest(es[i].entry) ==> es[i].entry.kind == File && es[i].entry.size > 0)
      && (IsChecksum(es[i].entry) ==> es[i].entry.kind == File && 1 <= es[i].entry.size < CHECKSUM_CAP)
  }

  ghost predicate Ordered(es: seq<Located>) {
    && Shapes(es)
    && AtMostOne(IsManifest, es) && AtMostOne(IsAppFile, es)
    && NotAfter(IsManifest, IsChecksum, es)
    && Preceded(IsBody, IsChecksum, es)
  }

  ghost predicate InChecksum(s: Tar) { s.pos.phase == InFile && s.cur.output == ToChecksum }

  ghost predicate OrderInv(s: Tar) {
    var es := s.past.entries;
    && !s.cur.hashing
    && Ordered(es)
    && s.ota.manifestSeen == Has(IsManifest, es)
    && s.ota.appSeen == Has(IsAppFile, es)
    && (s.ota.checksumSeen || InChecksum(s) <==> Has(IsChecksum, es))
    && (!(s.ota.checksumSeen && InChecksum(s)) ==> AtMostOne(IsChecksum, es))
  }

  lemma HasAppend(p: Entry -> bool, es: seq<Located>, l: Located)
    ensures Has(p, es + [l]) <==> Has(p, es) || p(l.entry)
  {
    var all := es + [l];
    assert all[|es|] == l;
    if Has(p, es) {
      var i :| 0 <= i < |es| && p(es[i].entry);
      assert all[i] == es[i];
    }
  }

  lemma OrderedAppend(es: seq<Located>, l: Located)
    requires Ordered(es) && Shapes([l])
    requires IsManifest(l.entry) ==> !Has(IsManifest, es) && !Has(IsChecksum, es)
    requires IsAppFile(l.entry) ==> !Has(IsAppFile, es)
    requires IsBody(l.entry) ==> Has(IsChecksum, es)
    ensures Ordered(es + [l])
  {
    var all := es + [l];
    assert all[..|es|] == es;
    assert [l][0] == l;
    assert forall i :: 0 <= i < |es| ==> all[i] == es[i] && all[..i] == es[..i];
    assert all[|es|] == l;
  }

  /** What `start_entry` requires of an entry in this layout. */
  ghost predicate Admits(s: Tar, e: Entry) {
    && Shapes([Located(e, 0)])
    && (IsManifest(e) ==> !s.ota.manifestSeen && !s.ota.checksumSeen)
    && (IsAppFile(e) ==> !s.ota.appSeen)
    && (IsBody(e) ==> s.ota.checksumSeen)
  }

  /** Flags after an accepted header; the rest of the entry only moves bytes. */
  ghost predicate Begun(s: Tar, t: Tar, e: Entry) {
    && !t.cur.hashing
    && t.past.entries == s.past.entries && t.past.stream == s.past.stream
    && t.ota.manifestSeen == (s.ota.manifestSeen || IsManifest(e))
    && t.ota.appSeen == (s.ota.appSeen || IsAppFile(e))
    && t.ota.checksumSeen == s.ota.checksumSeen
    && t.ota.checksum == s.ota.checksum && t.ota.installNeeded == s.ota.installNeeded
    && (InChecksum(t) <==> IsChecksum(e))
    && (t.pos.phase == InFile ==> t.pos.remaining == e.size && t.cur.appEntry == e && t.cur.crcInput == [])
    && (t.pos.phase == InFile && t.cur.output == ToApp ==> IsAppFile(e))
    && (t.pos.phase == InFile && t.cur.output !in {ToApp, ToChecksum, ToSkip} ==> s.ota.checksumSeen && s.ota.installNeeded)
  }

  /** Finishing a file written below the root touches neither flags nor entries. */
  lemma FinishFsFrame(env: Env, o: Options, s: Tar)
    ensures var r := FinishFs(env, o, s); r.code == Ok ==>
      && r.tar.past.entries == s.past.entries && r.tar.past.stream == s.past.stream
      && r.tar.ota == s.ota && r.tar.appLog == s.appLog
      && r.tar.pos.phase != InFile && r.tar.cur.hashing == s.cur.hashing
  {
    hide FinishFs, Record;
    FinishFsShape(env, o, s);
  }

  /** A file below the root has been opened (or, if empty, finished). */
  ghost predicate Placed(f: Tar, t: Tar, e: Entry) {
    && t.past.entries == f.past.entries && t.past.stream == f.past.stream
    && t.ota == f.ota && t.appLog == f.appLog && !t.cur.hashing
    && (t.pos.phase == InFile ==>
          t.cur.output == ToFs && t.pos.remaining == e.size && t.cur.appEntry == e && t.cur.crcInput == [])
  }

  lemma StartContentsFrame(env: Env, o: Options, x: Tar, e: Entry)
    requires x.cur.output == ToFs && !x.cur.hashing && x.pos.remaining == e.size && x.cur.crcInput == []
    requires x.cur.appEntry == e
    ensures var r := StartContents(env, o, x, e); r.code == Ok ==> Placed(x, r.tar, e)
  {
    hide FinishFs;
    FinishFsFrame(env, o, x);
  }

  lemma StartFsFrame(env: Env, o: Options, s: Tar, e: Entry, relative: Path)
    requires s.cur.output == NoOutput && !s.cur.hashing && s.pos.remaining == e.size && s.cur.crcInput == []
    requires s.cur.appEntry == e
    ensures var r := StartFs(env, o, s, e, relative); r.code == Ok ==> Placed(s, r.tar, e)
  {
    hide StartOutput, StartContents, SafeRelative;
    var t := s.(cur := s.cur.(dstPath := RootPrefix(o.dstRoot) + relative));
    var f := SetOutput(t, ToFs);
    var x := BundleManifest.StartOutputShape(env, o, f, e);
    assert x.cur.output == x.cur.(outFile := None).output && x.cur.hashing == x.cur.(outFile := None).hashing;
    assert x.cur.crcInput == x.cur.(outFile := None).crcInput && x.cur.appEntry == x.cur.(outFile := None).appEntry;
    StartContentsFrame(env, o, x, e);
  }

  lemma StartDataFrame(env: Env, o: Options, s: Tar, e: Entry)
    requires DATA_PREFIX <= e.path && s.pos.phase == InHeader && s.pos.remaining == e.size
    requires s.cur == Current(NoOutput, e, e, None, [], [], s.cur.dstPath, false)
    ensures var r := StartData(env, o, s, e);
      r.code == Ok ==> Begun(s, r.tar, e) && r.tar.appLog == s.appLog && s.ota.checksumSeen
  {
    hide StartFs, EnsureCleared;
    PathsDiffer(e);
    ClearedShape(env, o, s);
    var c := EnsureCleared(env, o, s).tar;
    var relative := e.path[|DATA_PREFIX|..];
    StartFsFrame(env, o, c.(cur := c.cur.(entry := Entry(relative, e.size, e.kind))), e, relative);
  }

  lemma StartAppFrame(env: Env, o: Options, s: Tar, e: Entry)
    requires APP_PREFIX <= e.path && s.pos.phase == InHeader && s.pos.remaining == e.size
    requires s.cur == Current(NoOutput, e, e, None, [], [], s.cur.dstPath, false)
    ensures var r := StartApp(env, o, s, e);
      r.code == Ok ==> Begun(s, r.tar, e) && Admits(s, e)
  {
    hide StartApp;
    PathsDiffer(e);
    StartAppShape(env, o, s, e);
  }

  lemma StartOtaFrame(env: Env, o: Options, s: Tar, e: Entry)
    requires s.pos.phase == InHeader && s.pos.remaining == e.size
    requires s.cur == Current(NoOutput, e, e, None, [], [], s.cur.dstPath, false)
    ensures var r := StartOta(env, o, s, e); r.code == Ok ==> Begun(s, r.tar, e) && Admits(s, e)
  {
    PathsDiffer(e);
    hide StartData, StartApp;
    if DATA_PREFIX <= e.path { StartDataFrame(env, o, s, e); }
    if APP_PREFIX <= e.path { StartAppFrame(env, o, s, e); }
  }

  lemma StartKeepsOrder(env: Env, o: Options, s: Tar, e: Entry)
    requires OtaRun(o) && OrderInv(s) && s.pos.phase == InHeader
    ensures var r := StartEntry(env, o, s, e); r.code == Ok ==> OrderInv(r.tar)
  {
    var p := Opened(s, e);
    var l := Located(e, |s.past.stream|);
    StartOtaFrame(env, o, p, e);
    hide StartOta;
    var r := StartOta(env, o, p, e);
    if r.code == Ok {
      assert Shapes([l]) by { assert [Located(e, 0)][0].entry == e; }
      OrderedAppend(s.past.entries, l);
      HasAppend(IsManifest, s.past.entries, l);
      HasAppend(IsAppFile, s.past.entries, l);
      HasAppend(IsChecksum, s.past.entries, l);
      if !(s.ota.checksumSeen && InChecksum(r.tar)) { AtMostOneAppend(s.past.entries, l); }
    }
  }

  lemma AtMostOneAppend(es: seq<Located>, l: Located)
    requires AtMostOne(IsChecksum, es) && (IsChecksum(l.entry) ==> !Has(IsChecksum, es))
    ensures AtMostOne(IsChecksum, es + [l])
  {
    var all := es + [l];
    assert all[|es|] == l;
    assert forall i :: 0 <= i < |es| ==> all[i] == es[i];
  }

  lemma FinishFrame(env: Env, o: Options, s: Tar)
    requires !s.cur.hashing
    ensures var r := FinishFile(env, o, s);
      r.code == Ok ==>
        && r.tar.past.entries == s.past.entries && r.tar.past.stream == s.past.stream
        && r.tar.pos.phase != InFile && !r.tar.cur.hashing
        && r.tar.ota.manifestSeen == s.ota.manifestSeen && r.tar.ota.appSeen == s.ota.appSeen
        && (s.cur.output == ToChecksum ==> !s.ota.checksumSeen)
        && r.tar.ota.checksumSeen == (s.ota.checksumSeen || s.cur.output == ToChecksum)
        && r.tar.ota.checksum == s.ota.checksum
  {
    hide FinishFs, FinishApp, FinishChecksum;
    FinishFsFrame(env, o, s);
    FinishAppShape(env, o, s);
    FinishChecksumShape(env, o, s);
  }

  lemma ByteKeepsOrder(env: Env, o: Options, s: Tar, b: byte)
    requires OtaRun(o) && OrderInv(s) && WellFormed(s)
    ensures var r := ByteStep(env, o, s, b); r.code == Ok ==> OrderInv(r.tar)
  {
    hide StartEntry, FinishFile, SinkCode, SinkOf, Ordered, Has, AtMostOne;
    if !s.pos.done {
      match s.pos.phase
      case InHeader =>
        var t := Headed(s, [b]);
        if |t.pos.header| == BLOCK {
          match ParseHeader(env, t.pos.header)
          case Header(e) => StartKeepsOrder(env, o, t.(pos := t.pos.(header := [], zeroBlocks := 0)), e);
          case _ =>
        }
      case InFile =>
        var t := Absorb(s, [b]);
        if s.pos.remaining == 1 { FinishFrame(env, o, t); }
      case InPadding =>
    }
  }


  // ---- where the bytes of an entry go ----

  function Last(s: Tar): Located
    requires s.past.entries != []
  {
    s.past.entries[|s.past.entries| - 1]
  }

  /** The stream offset inside the entry being read. */
  ghost predicate Progress(s: Tar) {
    s.pos.phase == InFile ==>
      && s.past.entries != [] && Last(s).entry == s.cur.appEntry
      && s.pos.remaining <= s.cur.appEntry.size
      && |s.past.stream| == Last(s).at + s.cur.appEntry.size - s.pos.remaining
  }

  ghost predicate Within(l: Located, stream: seq<byte>) { l.at + l.entry.size <= |stream| }

  function Contents(l: Located, stream: seq<byte>): seq<byte>
    requires Within(l, stream)
  {
    stream[l.at..l.at + l.entry.size]
  }

  /** Calls a writer sees for one application image. */
  function WriterCalls(e: Entry, image: seq<byte>): seq<AppEvent> {
    [AppEvent(Begin(e), true)] + AppBytes(image) + [AppEvent(End(e), true)]
  }

  ghost predicate Delivered(es: seq<Located>, stream: seq<byte>, log: seq<AppEvent>) {
    exists i :: 0 <= i < |es| && IsAppFile(es[i].entry) && Within(es[i], stream)
      && log == WriterCalls(es[i].entry, Contents(es[i], stream))
  }

  ghost predicate InApp(s: Tar) { s.pos.phase == InFile && s.cur.output == ToApp }

  ghost predicate AppInv(o: Options, s: Tar) {
    if InApp(s) then
      && s.past.entries != [] && IsAppFile(Last(s).entry) && Last(s).at <= |s.past.stream|
      && s.appLog == [AppEvent(Begin(s.cur.appEntry), true)] + AppBytes(s.past.stream[Last(s).at..])
      && s.ota.appSeen && !o.skipApp
    else if s.ota.appSeen && !o.skipApp then Delivered(s.past.entries, s.past.stream, s.appLog)
    else s.appLog == []
  }

  /** The announced checksum is the contents of the checksum entry. */
  ghost predicate Announced(es: seq<Located>, stream: seq<byte>, checksum: seq<byte>) {
    exists i :: 0 <= i < |es| && IsChecksum(es[i].entry) && Within(es[i], stream)
      && checksum == Contents(es[i], stream)
  }

  ghost predicate ChecksumInv(s: Tar) {
    if InChecksum(s) then
      !s.ota.checksumSeen ==>
        && s.past.entries != [] && IsChecksum(Last(s).entry) && Last(s).at <= |s.past.stream|
        && s.ota.checksum == s.past.stream[Last(s).at..]
    else if s.ota.checksumSeen then Announced(s.past.entries, s.past.stream, s.ota.checksum)
    else s.ota.checksum == []
  }

  /** Nothing touches the file system unless the checksum asked for an install. */
  ghost predicate QuietInv(env: Env, o: Options, s: Tar) {
    && (s.ota.installNeeded ==> s.ota.checksumSeen)
    && (!s.ota.installNeeded ==> s.fsLog == [])
    && (s.pos.phase == InFile && s.cur.output !in {ToApp, ToChecksum, ToSkip} ==> s.ota.installNeeded)
    && (s.ota.checksumSeen && !InChecksum(s) ==> s.ota.installNeeded == Outdated(env, o, s.ota.checksum))
  }

  /** The checksum file, as it is before the install, is missing or holds other bytes. */
  ghost predicate Outdated(env: Env, o: Options, checksum: seq<byte>) {
    && !o.skipData
    && !(o.checksumPath.Some? && o.checksumPath.value in env.disk && env.disk[o.checksumPath.value] == checksum)
  }

  ghost predicate FlowInv(env: Env, o: Options, s: Tar) {
    Progress(s) && AppInv(o, s) && ChecksumInv(s) && QuietInv(env, o, s)
  }

  lemma DeliveredGrows(es: seq<Located>, l: seq<Located>, stream: seq<byte>, more: seq<byte>, log: seq<AppEvent>)
    requires Delivered(es, stream, log)
    ensures Delivered(es + l, stream + more, log)
  {
    var i :| 0 <= i < |es| && IsAppFile(es[i].entry) && Within(es[i], stream)
      && log == WriterCalls(es[i].entry, Contents(es[i], stream));
    assert (es + l)[i] == es[i];
    assert Contents(es[i], stream + more) == Contents(es[i], stream);
  }

  lemma AnnouncedGrows(es: seq<Located>, l: seq<Located>, stream: seq<byte>, more: seq<byte>, checksum: seq<byte>)
    requires Announced(es, stream, checksum)
    ensures Announced(es + l, stream + more, checksum)
  {
    var i :| 0 <= i < |es| && IsChecksum(es[i].entry) && Within(es[i], stream) && checksum == Contents(es[i], stream);
    assert (es + l)[i] == es[i];
    assert Contents(es[i], stream + more) == Contents(es[i], stream);
  }

  /** Bytes outside file contents, and finished headers, only extend the history. */
  lemma IdleKeepsFlow(env: Env, o: Options, s: Tar, t: Tar, more: seq<byte>, l: seq<Located>)
    requires FlowInv(env, o, s) && s.pos.phase != InFile && t.pos.phase != InFile
    requires t.past.stream == s.past.stream + more && t.past.entries == s.past.entries + l
    requires t.ota == s.ota && t.fsLog == s.fsLog && t.appLog == s.appLog
    ensures FlowInv(env, o, t)
  {
    if s.ota.appSeen && !o.skipApp { DeliveredGrows(s.past.entries, l, s.past.stream, more, s.appLog); }
    if s.ota.checksumSeen { AnnouncedGrows(s.past.entries, l, s.past.stream, more, s.ota.checksum); }
  }

  /** What absorbing contents leaves alone, and what it adds to. */
  lemma AbsorbFields(s: Tar, bytes: seq<byte>)
    requires |bytes| <= s.pos.remaining
    ensures var t := Absorb(s, bytes);
      && t.past.entries == s.past.entries && t.past.stream == s.past.stream + bytes
      && t.pos == s.pos.(remaining := s.pos.remaining - |bytes|)
      && t.cur.output == s.cur.output && t.cur.appEntry == s.cur.appEntry
      && t.ota == s.ota.(checksum := if s.cur.output == ToChecksum then s.ota.checksum + bytes else s.ota.checksum)
      && t.appLog == (if s.cur.output == ToApp then s.appLog + AppBytes(bytes) else s.appLog)
      && (s.cur.output in {ToApp, ToChecksum, ToSkip} ==> t.fsLog == s.fsLog)
  {
    hide HasSuffix;
  }

  lemma TailGrows(stream: seq<byte>, bytes: seq<byte>, at: nat)
    requires at <= |stream|
    ensures (stream + bytes)[at..] == stream[at..] + bytes
  {
  }

  lemma AbsorbKeepsApp(o: Options, s: Tar, bytes: seq<byte>)
    requires AppInv(o, s) && Progress(s) && s.pos.phase == InFile && |bytes| <= s.pos.remaining
    ensures AppInv(o, Absorb(s, bytes))
  {
    hide Absorb, Delivered, AppBytes;
    AbsorbFields(s, bytes);
    if InApp(s) {
      TailGrows(s.past.stream, bytes, Last(s).at);
      AppBytesConcat([AppEvent(Begin(s.cur.appEntry), true)], s.past.stream[Last(s).at..], bytes);
    } else if s.ota.appSeen && !o.skipApp {
      DeliveredGrows(s.past.entries, [], s.past.stream, bytes, s.appLog);
      assert s.past.entries + [] == s.past.entries;
    }
  }

  lemma AbsorbKeepsChecksum(s: Tar, bytes: seq<byte>)
    requires ChecksumInv(s) && s.pos.phase == InFile && |bytes| <= s.pos.remaining
    ensures ChecksumInv(Absorb(s, bytes))
  {
    hide Absorb, Announced;
    AbsorbFields(s, bytes);
    if InChecksum(s) {
      if !s.ota.checksumSeen { TailGrows(s.past.stream, bytes, Last(s).at); }
    } else if s.ota.checksumSeen {
      AnnouncedGrows(s.past.entries, [], s.past.stream, bytes, s.ota.checksum);
      assert s.past.entries + [] == s.past.entries;
    }
  }

  lemma AbsorbKeepsFlow(env: Env, o: Options, s: Tar, bytes: seq<byte>)
    requires FlowInv(env, o, s) && s.pos.phase == InFile && |bytes| <= s.pos.remaining
    ensures FlowInv(env, o, Absorb(s, bytes))
  {
    hide Absorb, AppInv, ChecksumInv, Outdated;
    AbsorbFields(s, bytes);
    AbsorbKeepsApp(o, s, bytes);
    AbsorbKeepsChecksum(s, bytes);
  }

  /** A complete checksum is compared with all of the file: it is never as long as what
      is read of one. */
  lemma ChecksumDecides(env: Env, o: Options, s: Tar)
    requires s.fsLog == [] && |s.ota.checksum| < CHECKSUM_CAP
    ensures var r := FinishChecksum(env, o, s);
      r.code == Ok ==> r.tar.ota.installNeeded == Outdated(env, o, s.ota.checksum)
  {
    assert Replay(env.disk, []) == env.disk;
  }

  lemma FinishChecksumKeepsFlow(env: Env, o: Options, s: Tar)
    requires FlowInv(env, o, s) && InChecksum(s) && s.pos.remaining == 0 && |s.ota.checksum| < CHECKSUM_CAP
    ensures var r := FinishChecksum(env, o, s); r.code == Ok ==> FlowInv(env, o, AfterFile(r.tar))
  {
    hide InstalledChecksum, Outdated;
    if !s.ota.checksumSeen {
      ChecksumDecides(env, o, s);
      assert Contents(s.past.entries[|s.past.entries| - 1], s.past.stream) == s.past.stream[Last(s).at..];
    }
  }

  lemma FinishAppKeepsFlow(env: Env, o: Options, s: Tar)
    requires FlowInv(env, o, s) && InApp(s) && s.pos.remaining == 0
    ensures var r := FinishApp(env, o, s); r.code == Ok ==> FlowInv(env, o, r.tar)
  {
    hide InstalledChecksum;
    assert Contents(s.past.entries[|s.past.entries| - 1], s.past.stream) == s.past.stream[Last(s).at..];
  }

  lemma FinishFsKeepsFlow(env: Env, o: Options, s: Tar)
    requires FlowInv(env, o, s) && s.pos.phase == InFile && s.cur.output !in {ToApp, ToChecksum, ToSkip}
    ensures var r := FinishFs(env, o, s); r.code == Ok ==> FlowInv(env, o, r.tar)
  {
    hide FinishFs, Outdated;
    FinishFsFrame(env, o, s);
  }

  lemma FinishKeepsFlow(env: Env, o: Options, s: Tar)
    requires FlowInv(env, o, s) && s.pos.phase == InFile && s.pos.remaining == 0 && !s.cur.hashing
    requires |s.ota.checksum| < CHECKSUM_CAP
    ensures var r := FinishFile(env, o, s); r.code == Ok ==> FlowInv(env, o, r.tar)
  {
    hide FinishChecksum, FinishApp, FinishFs;
    match s.cur.output
    case ToChecksum => FinishChecksumKeepsFlow(env, o, s);
    case ToApp => FinishAppKeepsFlow(env, o, s);
    case ToSkip =>
    case _ => FinishFsKeepsFlow(env, o, s);
  }

  /** The writer and file-system calls an accepted header makes. */
  ghost predicate Called(o: Options, s: Tar, t: Tar, e: Entry) {
    && (!s.ota.installNeeded ==> t.fsLog == s.fsLog)
    && (if IsAppFile(e) && !o.skipApp then
          if e.size == 0 then
            t.pos.phase != InFile && t.appLog == s.appLog + [AppEvent(Begin(e), true)] + [AppEvent(End(e), true)]
          else InApp(t) && t.appLog == s.appLog + [AppEvent(Begin(e), true)]
        else !InApp(t) && t.appLog == s.appLog)
  }

  lemma StartAppCalls(env: Env, o: Options, s: Tar, e: Entry)
    requires APP_PREFIX <= e.path && s.pos.phase == InHeader
    requires s.cur == Current(NoOutput, e, e, None, [], [], s.cur.dstPath, false)
    ensures var r := StartApp(env, o, s, e); r.code == Ok ==> Called(o, s, r.tar, e)
  {
    hide FinishFs, FinishChecksum;
  }

  lemma StartOtaCalls(env: Env, o: Options, s: Tar, e: Entry)
    requires s.pos.phase == InHeader && s.pos.remaining == e.size
    requires s.cur == Current(NoOutput, e, e, None, [], [], s.cur.dstPath, false)
    ensures var r := StartOta(env, o, s, e); r.code == Ok ==> Called(o, s, r.tar, e)
  {
    PathsDiffer(e);
    hide StartApp, StartFs;
    if APP_PREFIX <= e.path { StartAppCalls(env, o, s, e); }
    if DATA_PREFIX <= e.path {
      StartDataFrame(env, o, s, e);
      assert e.path != DATA && e.path != APP && !(APP_PREFIX <= e.path);
    }
  }

  lemma StartKeepsFlow(env: Env, o: Options, s: Tar, e: Entry)
    requires OtaRun(o) && FlowInv(env, o, s) && OrderInv(s) && s.pos.phase == InHeader
    ensures var r := StartEntry(env, o, s, e); r.code == Ok ==> FlowInv(env, o, r.tar)
  {
    var p := Opened(s, e);
    var l := Located(e, |s.past.stream|);
    assert p.past.stream == s.past.stream + [];
    IdleKeepsFlow(env, o, s, p, [], [l]);
    StartOtaFrame(env, o, p, e);
    StartOtaCalls(env, o, p, e);
    PathsDiffer(e);
    hide StartOta, Outdated;
    var t := StartOta(env, o, p, e).tar;
    if StartOta(env, o, p, e).code == Ok {
      assert Last(t) == l && t.past.stream[l.at..] == [];
      assert Contents(Located(e, l.at).(entry := e.(size := 0)), t.past.stream) == [];
      StartedFlow(env, o, p, t, e, l);
    }
  }

  lemma StartedFlow(env: Env, o: Options, p: Tar, t: Tar, e: Entry, l: Located)
    requires FlowInv(env, o, p) && p.pos.phase == InHeader && p.past.entries != [] && Last(p) == l
    requires l == Located(e, |p.past.stream|)
    requires Begun(p, t, e) && Called(o, p, t, e) && Admits(p, e)
    ensures FlowInv(env, o, t)
  {
    PathsDiffer(e);
    assert t.past.stream[l.at..] == [];
    assert AppBytes([]) == [];
    if IsAppFile(e) && !o.skipApp {
      assert p.appLog == [];
      if e.size == 0 {
        var i := |p.past.entries| - 1;
        assert Contents(t.past.entries[i], t.past.stream) == [];
        assert t.appLog == WriterCalls(e, []);
      } else {
        assert t.appLog == [AppEvent(Begin(e), true)] + AppBytes(t.past.stream[l.at..]);
      }
    }
  }

  lemma HeaderKeepsFlow(env: Env, o: Options, s: Tar, block: seq<byte>)
    requires OtaRun(o) && FlowInv(env, o, s) && OrderInv(s) && s.pos.phase == InHeader
    ensures var r := HeaderBlock(env, o, s, block); r.code == Ok ==> FlowInv(env, o, r.tar)
  {
    hide StartEntry;
    assert s.past.entries + [] == s.past.entries && s.past.stream + [] == s.past.stream;
    match ParseHeader(env, block)
    case Header(e) =>
      var u := s.(pos := s.pos.(zeroBlocks := 0));
      IdleKeepsFlow(env, o, s, u, [], []);
      StartKeepsFlow(env, o, u, e);
    case ZeroBlock => IdleKeepsFlow(env, o, s, HeaderBlock(env, o, s, block).tar, [], []);
    case Bad(_) =>
  }

  lemma HeaderByteKeepsFlow(env: Env, o: Options, s: Tar, b: byte)
    requires OtaRun(o) && FlowInv(env, o, s) && OrderInv(s) && WellFormed(s) && s.pos.phase == InHeader
    ensures var r := HeaderByte(env, o, s, b); r.code == Ok ==> FlowInv(env, o, r.tar)
  {
    hide FlowInv, HeaderBlock, Ordered;
    assert s.past.entries + [] == s.past.entries;
    var t := Headed(s, [b]);
    var u := t.(pos := t.pos.(header := []));
    IdleKeepsFlow(env, o, s, t, [b], []);
    IdleKeepsFlow(env, o, s, u, [b], []);
    HeaderKeepsFlow(env, o, u, t.pos.header);
  }

  lemma ChecksumFits(env: Env, s: Tar, b: byte)
    requires WellFormed(s) && s.pos.remaining > 0 && SinkCode(env, s, [b]) == Ok
    ensures |Absorb(s, [b]).ota.checksum| < CHECKSUM_CAP
  {
    hide HasSuffix, FileTakes, AppTakes;
  }

  lemma FileByteKeepsFlow(env: Env, o: Options, s: Tar, b: byte)
    requires FlowInv(env, o, s) && OrderInv(s) && WellFormed(s) && s.pos.phase == InFile
    ensures var r := FileByte(env, o, s, b); r.code == Ok ==> FlowInv(env, o, r.tar)
  {
    hide FlowInv, FinishFile, SinkCode, Ordered, HasSuffix;
    AbsorbKeepsFlow(env, o, s, [b]);
    if s.pos.remaining == 1 && SinkCode(env, s, [b]) == Ok {
      ChecksumFits(env, s, b);
      FinishKeepsFlow(env, o, Absorb(s, [b]));
    }
  }

  lemma ByteKeepsFlow(env: Env, o: Options, s: Tar, b: byte)
    requires OtaRun(o) && FlowInv(env, o, s) && OrderInv(s) && WellFormed(s)
    ensures var r := ByteStep(env, o, s, b); r.code == Ok ==> FlowInv(env, o, r.tar)
  {
    hide FlowInv, HeaderByte, FileByte, OrderInv;
    if !s.pos.done {
      match s.pos.phase
      case InHeader => HeaderByteKeepsFlow(env, o, s, b);
      case InFile => FileByteKeepsFlow(env, o, s, b);
      case InPadding =>
        assert s.past.entries + [] == s.past.entries;
        IdleKeepsFlow(env, o, s, Padded(s, [b]), [b], []);
    }
  }

  // ---- whole streams ----

  ghost predicate Inv(env: Env, o: Options, s: Tar) {
    WellFormed(s) && OrderInv(s) && FlowInv(env, o, s)
  }

  lemma ByteKeeps(env: Env, o: Options, s: Tar, b: byte)
    requires OtaRun(o) && Inv(env, o, s)
    ensures var r := ByteStep(env, o, s, b); r.code == Ok ==> Inv(env, o, r.tar)
  {
    hide OrderInv, FlowInv, WellFormed, ByteStep;
    ByteKeepsWellFormed(env, o, s, b);
    ByteKeepsOrder(env, o, s, b);
    ByteKeepsFlow(env, o, s, b);
  }

  lemma {:induction false} FoldKeeps(env: Env, o: Options, s: Tar, bytes: seq<byte>)
    requires OtaRun(o) && Inv(env, o, s)
    ensures var r := Fold(env, o, s, bytes); r.code == Ok ==> Inv(env, o, r.tar)
    decreases |bytes|
  {
    hide Inv, ByteStep;
    if bytes != [] {
      ByteKeeps(env, o, s, bytes[0]);
      var r := ByteStep(env, o, s, bytes[0]);
      if r.code == Ok { FoldKeeps(env, o, r.tar, bytes[1..]); }
    }
  }

  lemma InitInv(env: Env, o: Options)
    ensures Inv(env, o, INIT)
  {
  }

  /** What the committed checksum file holds. */
  ghost predicate Committed(env: Env, o: Options, s: Tar) {
    && o.checksumPath.Some?
    && var disk := Replay(env.disk, s.fsLog);
    && o.checksumPath.value in disk && disk[o.checksumPath.value] == s.ota.checksum
  }

  lemma ReplayStep(disk: map<Path, seq<byte>>, log: seq<FsEvent>, e: FsEvent)
    ensures Replay(disk, log + [e]) == Apply(Replay(disk, log), e)
  {
    assert (log + [e])[..|log|] == log;
  }

  lemma {:induction false} WriteAllAppends(env: Env, s: Tar, path: Path, bytes: seq<byte>)
    requires path in Replay(env.disk, s.fsLog)
    ensures var r := WriteAll(env, s, path, bytes);
      && r.0 == s.(fsLog := r.0.fsLog)
      && path in Replay(env.disk, r.0.fsLog)
      && (r.1 ==> Replay(env.disk, r.0.fsLog)[path] == Replay(env.disk, s.fsLog)[path] + bytes)
    decreases |bytes|
  {
    if bytes != [] {
      var c := Call(env, s, WriteByte(path, bytes[0]));
      ReplayStep(env.disk, s.fsLog, FsEvent(WriteByte(path, bytes[0]), c.1));
      WriteAllAppends(env, c.0, path, bytes[1..]);
      assert [bytes[0]] + bytes[1..] == bytes;
    }
  }

  lemma WriteFileWrites(env: Env, s: Tar, path: Path, bytes: seq<byte>)
    ensures var r := WriteFile(env, s, path, bytes);
      && r.0 == s.(fsLog := r.0.fsLog)
      && (r.1 ==> path in Replay(env.disk, r.0.fsLog) && Replay(env.disk, r.0.fsLog)[path] == bytes)
  {
    var c := Call(env, s, OpenTruncate(path));
    ReplayStep(env.disk, s.fsLog, FsEvent(OpenTruncate(path), c.1));
    if c.1 {
      WriteAllAppends(env, c.0, path, bytes);
      var u := WriteAll(env, c.0, path, bytes);
      if u.1 {
        assert [] + bytes == bytes;
        var w := Call(env, u.0, Sync(path));
        ReplayStep(env.disk, u.0.fsLog, FsEvent(Sync(path), w.1));
        ReplayStep(env.disk, w.0.fsLog, FsEvent(Close(path), Call(env, w.0, Close(path)).1));
      }
    }
  }

  lemma FinishOtaFrame(env: Env, o: Options, s: Tar)
    requires OtaRun(o) && Finish(env, o, s).code == Ok
    ensures var t := Finish(env, o, s).tar;
      && s.pos.phase == InHeader && s.ota.checksumSeen && s.ota.appSeen
      && t.past == s.past && t.appLog == s.appLog && t.ota.checksum == s.ota.checksum
      && (o.skipData || !s.ota.installNeeded ==> t.fsLog == s.fsLog)
      && (!o.skipData && s.ota.installNeeded ==> Committed(env, o, t))
  {
    hide WriteFile, Replay;
    if !o.skipData && s.ota.installNeeded {
      var c := EnsureCleared(env, o, s).tar;
      WriteFileWrites(env, c, o.checksumPath.value, c.ota.checksum);
    }
  }

  ghost predicate Grammar(es: seq<Located>) {
    && Ordered(es)
    && AtMostOne(IsChecksum, es) && Has(IsChecksum, es) && Has(IsAppFile, es)
  }

  /** What becomes of the announced checksum: equal to the file on disk, no file-system
      call at all; otherwise the file holds it in the end. */
  ghost predicate Answered(env: Env, o: Options, s: Tar, checksum: seq<byte>) {
    if !Outdated(env, o, checksum) then s.fsLog == [] else
    && o.checksumPath.Some?
    && var disk := Replay(env.disk, s.fsLog);
    o.checksumPath.value in disk && disk[o.checksumPath.value] == checksum
  }

  /** Every accepted OTA archive: at most one manifest before the one checksum of
      1..127 bytes, data and app entries only after it, one application file whose
      bytes reach the writer in order; a checksum entry equal to the checksum file means
      no file-system call at all, any other one is what the file holds in the end. */
  lemma AcceptedOta(env: Env, o: Options, archive: seq<byte>)
    requires OtaRun(o) && Install(env, o, archive).code == Ok
    ensures var s := Install(env, o, archive).tar; var es := Entries(env, archive);
      && Grammar(es)
      && Announced(es, archive, s.ota.checksum)
      && (if o.skipApp then s.appLog == [] else Delivered(es, archive, s.appLog))
      && (forall i :: 0 <= i < |es| && IsChecksum(es[i].entry) ==>
            Within(es[i], archive) && Contents(es[i], archive) == s.ota.checksum && Answered(env, o, s, Contents(es[i], archive)))
  {
    hide Fold, Finish, Entries, Delivered, Announced, Contents, IsChecksum, Ordered, Replay, InstalledChecksum;
    InitInv(env, o);
    FoldKeeps(env, o, INIT, archive);
    FoldReadsArchive(env, o, INIT, archive);
    var s := Fold(env, o, INIT, archive).tar;
    FinishOtaFrame(env, o, s);
    var more := archive[|s.past.stream|..];
    assert s.past.stream + more == archive && s.past.entries + [] == s.past.entries;
    AnnouncedGrows(s.past.entries, [], s.past.stream, more, s.ota.checksum);
    if !o.skipApp { DeliveredGrows(s.past.entries, [], s.past.stream, more, s.appLog); }
    OnlyChecksum(s.past.entries, archive, s.ota.checksum);
  }

  lemma OnlyChecksum(es: seq<Located>, stream: seq<byte>, checksum: seq<byte>)
    requires Announced(es, stream, checksum) && AtMostOne(IsChecksum, es)
    ensures forall i :: 0 <= i < |es| && IsChecksum(es[i].entry) ==>
      Within(es[i], stream) && Contents(es[i], stream) == checksum
  {
    hide IsChecksum;
    var k :| 0 <= k < |es| && IsChecksum(es[k].entry) && Within(es[k], stream) && checksum == Contents(es[k], stream);
    assert forall i :: 0 <= i < |es| && IsChecksum(es[i].entry) ==> i == k;
  }

  // ---- rejected archives ----

  /** The first checksum entry, complete, differs from the one on disk. */
  ghost predicate AsksInstall(env: Env, o: Options, es: seq<Located>, stream: seq<byte>) {
    exists i :: 0 <= i < |es| && IsChecksum(es[i].entry) && !Has(IsChecksum, es[..i])
      && Within(es[i], stream) && Outdated(env, o, Contents(es[i], stream))
  }

  lemma AsksGrows(env: Env, o: Options, es: seq<Located>, stream: seq<byte>, all: seq<Located>, archive: seq<byte>)
    requires AsksInstall(env, o, es, stream) && es <= all && stream <= archive
    ensures AsksInstall(env, o, all, archive)
  {
    hide Outdated;
    var i :| 0 <= i < |es| && IsChecksum(es[i].entry) && !Has(IsChecksum, es[..i])
      && Within(es[i], stream) && Outdated(env, o, Contents(es[i], stream));
    assert all[i] == es[i] && all[..i] == es[..i];
    assert Contents(es[i], archive) == Contents(es[i], stream);
  }

  /** No call to the file system before a checksum asked for an install, in states
      that continue and in states that end a run. */
  ghost predicate Quiet(env: Env, o: Options, s: Tar) {
    AsksInstall(env, o, s.past.entries, s.past.stream) || Idle(s)
  }

  ghost predicate Idle(s: Tar) { !s.ota.installNeeded && s.fsLog == [] && s.cur.outFile.None? }

  lemma SettledAsks(env: Env, o: Options, s: Tar)
    requires Inv(env, o, s) && s.ota.installNeeded && !InChecksum(s)
    ensures AsksInstall(env, o, s.past.entries, s.past.stream)
  {
    hide Outdated, Ordered;
    var es := s.past.entries;
    var i :| 0 <= i < |es| && IsChecksum(es[i].entry) && Within(es[i], s.past.stream)
      && s.ota.checksum == Contents(es[i], s.past.stream);
    assert !Has(IsChecksum, es[..i]) by {
      assert forall j :: 0 <= j < i ==> es[..i][j] == es[j];
    }
  }

  /** What a step from a quiet state may do. */
  ghost predicate Hushed(r: Step) {
    && r.tar.fsLog == [] && r.tar.cur.outFile.None?
    && (r.tar.ota.installNeeded ==> r.code == Ok && r.tar.pos.phase != InFile)
  }

  lemma FinishHushed(env: Env, o: Options, s: Tar)
    requires Idle(s) && s.cur.output in {ToApp, ToChecksum, ToSkip}
    ensures Hushed(FinishFile(env, o, s))
  {
    hide InstalledChecksum;
  }

  lemma AppFinishHushed(env: Env, o: Options, s: Tar)
    requires Idle(s)
    ensures var r := FinishApp(env, o, s); Hushed(r) && !r.tar.ota.installNeeded
  {
  }

  lemma AppContentsHushed(env: Env, o: Options, s: Tar, e: Entry)
    requires Idle(s) && s.cur.output == ToApp
    ensures var r := StartContents(env, o, s, e); Hushed(r) && !r.tar.ota.installNeeded
  {
    hide FinishApp, FinishFs, FinishChecksum;
    AppFinishHushed(env, o, CloseHash(s));
  }

  lemma StartAppHushed(env: Env, o: Options, s: Tar, e: Entry)
    requires Idle(s)
    ensures Hushed(StartApp(env, o, s, e)) && !StartApp(env, o, s, e).tar.ota.installNeeded
  {
    hide StartContents;
    var t := s.(ota := s.ota.(appSeen := true));
    var u := AppCall(env, SetOutput(t, ToApp), Begin(t.cur.appEntry)).0;
    AppContentsHushed(env, o, u.(ota := u.ota.(writerActive := true)), e);
  }

  lemma StartOtaHushed(env: Env, o: Options, s: Tar, e: Entry)
    requires Idle(s)
    ensures Hushed(StartOta(env, o, s, e)) && !StartOta(env, o, s, e).tar.ota.installNeeded
  {
    hide StartApp, StartFs;
    StartAppHushed(env, o, s, e);
  }

  lemma HeaderHushed(env: Env, o: Options, s: Tar, b: byte)
    requires OtaRun(o) && Idle(s)
    ensures Hushed(HeaderByte(env, o, s, b))
  {
    hide StartOta;
    var t := Headed(s, [b]);
    var u := t.(pos := t.pos.(header := [], zeroBlocks := 0));
    match ParseHeader(env, t.pos.header)
    case Header(e) => StartOtaHushed(env, o, Opened(u, e), e);
    case _ =>
  }

  lemma FileHushed(env: Env, o: Options, s: Tar, b: byte)
    requires Idle(s) && s.cur.output in {ToApp, ToChecksum, ToSkip}
    ensures Hushed(FileByte(env, o, s, b))
  {
    hide FinishFile, AppTakes;
    FinishHushed(env, o, s);
    if s.pos.remaining > 0 && SinkCode(env, s, [b]) == Ok { FinishHushed(env, o, Absorb(s, [b])); }
  }

  lemma ByteHushed(env: Env, o: Options, s: Tar, b: byte)
    requires OtaRun(o) && Inv(env, o, s) && Idle(s)
    ensures Hushed(ByteStep(env, o, s, b))
  {
    hide HeaderByte, FileByte, OrderInv, Outdated, Announced, Delivered, AppInv, ChecksumInv, Progress;
    if s.pos.phase == InFile { FileHushed(env, o, s, b); } else { HeaderHushed(env, o, s, b); }
  }

  lemma ByteQuiet(env: Env, o: Options, s: Tar, b: byte)
    requires OtaRun(o) && Inv(env, o, s) && Quiet(env, o, s)
    ensures var r := ByteStep(env, o, s, b); Quiet(env, o, r.tar) && (r.code == Ok ==> Inv(env, o, r.tar))
  {
    hide ByteStep, AsksInstall, Inv;
    var r := ByteStep(env, o, s, b);
    ByteKeeps(env, o, s, b);
    if Idle(s) {
      ByteHushed(env, o, s, b);
      if r.tar.ota.installNeeded { SettledAsks(env, o, r.tar); }
    } else {
      ByteExtends(env, o, s, b);
      AsksGrows(env, o, s.past.entries, s.past.stream, r.tar.past.entries, r.tar.past.stream);
    }
  }

  lemma {:induction false} FoldQuiet(env: Env, o: Options, s: Tar, bytes: seq<byte>)
    requires OtaRun(o) && Inv(env, o, s) && Quiet(env, o, s)
    ensures Quiet(env, o, Fold(env, o, s, bytes).tar)
    decreases |bytes|
  {
    hide Quiet, Inv, ByteStep;
    if bytes != [] {
      ByteQuiet(env, o, s, bytes[0]);
      var r := ByteStep(env, o, s, bytes[0]);
      if r.code == Ok { FoldQuiet(env, o, r.tar, bytes[1..]); }
    }
  }

  lemma FinishIdle(env: Env, o: Options, s: Tar)
    requires OtaRun(o) && Idle(s)
    ensures Finish(env, o, s).tar.fsLog == []
  {
    hide WriteFile;
  }

  /** Accepted or not, an archive whose checksum entry is the one already installed, or
      that ends before its checksum is complete, causes no file-system call. */
  lemma QuietUnlessOutdated(env: Env, o: Options, archive: seq<byte>)
    requires OtaRun(o) && Install(env, o, archive).tar.fsLog != []
    ensures AsksInstall(env, o, Entries(env, archive), archive)
  {
    hide Fold, Finish, Entries, AsksInstall;
    InitInv(env, o);
    FoldQuiet(env, o, INIT, archive);
    FoldReadsArchive(env, o, INIT, archive);
    var s := Fold(env, o, INIT, archive).tar;
    if Idle(s) {
      FinishIdle(env, o, s);
    } else {
      AsksGrows(env, o, s.past.entries, s.past.stream, Entries(env, archive), archive);
    }
  }
}
