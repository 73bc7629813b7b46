/** The plain layout: which archives are accepted, and what they leave on disk. */
module BundlePlain {
  import opened Bytes
  import opened BundleTar
  import opened BundleFeed
  import opened BundleGrammar
  import opened BundleTurn
  import opened BundleManifest
  import opened BundlePaths
  import opened Optional
  import V = BundleVouch

  ghost predicate PlainRun(o: Options) { !o.otaLayout && !o.digestMode }

  // ---- one entry ----

  /** The manifest line of this name is not used up and has this size and CRC. */
  ghost predicate Due(env: Env, m: seq<ManifestEntry>, seen: set<nat>, e: Entry, contents: seq<byte>) {
    var k := Find(m, e.path);
    k.Some? && Matches(env, m[k.value], e.size, contents) && k.value !in seen
  }

  /** Files are checked against the manifest, if there is one. */
  predicate Checked(o: Options, e: Entry) { e.kind == File && o.manifest.Some? }

  function Used(o: Options, seen: set<nat>, e: Entry): set<nat> {
    if !Checked(o, e) then seen else
    var k := Find(o.manifest.value, e.path);
    if k.Some? then seen + {k.value} else seen
  }

  lemma VerifiedWhenDue(env: Env, o: Options, cur: Current, seen: set<nat>)
    ensures var (code, next) := VerifyManifest(env, o, cur, seen);
      && (code == Ok <==> o.manifest.None? || Due(env, o.manifest.value, seen, cur.entry, cur.crcInput))
      && (code == Ok && o.manifest.Some? ==> next == seen + {Find(o.manifest.value, cur.entry.path).value})
      && (o.manifest.None? ==> next == seen)
  {
    hide Find, Matches;
  }

  lemma PlainEntry(env: Env, o: Options, s: Tar, e: Entry, contents: seq<byte>)
    requires Accepting(env) && PlainRun(o) && s.pos.phase == InHeader
    requires (e.kind == Dir ==> e.size == 0) && |contents| == e.size
    ensures var r := TakeEntry(env, o, s, e, contents);
      && (r.code == Ok <==> Placeable(o.dstRoot, e.path) && (Checked(o, e) ==> Due(env, o.manifest.value, s.seen, e, contents)))
      && (r.code == Ok ==> r.tar.seen == Used(o, s.seen, e))
  {
    hide StartFs, StartContents, TakeContents, VerifyManifest, Matches, Placeable, HasSuffix, Find;
    var p := Opened(s, e);
    assert StartEntry(env, o, s, e) == StartFs(env, o, p, e, e.path);
    if e.kind == Dir {
      DirTaken(env, o, p, e, e.path);
      assert TakeEntry(env, o, s, e, contents) == StartFs(env, o, p, e, e.path) by { NoContents(env, o, StartFs(env, o, p, e, e.path), e); }
    } else {
      var x := FsTaken(env, o, p, e, e.path);
      if Placeable(o.dstRoot, e.path) {
        ContentsTaken(env, o, x, e, contents);
        VerifiedWhenDue(env, o, x.cur.(crcInput := contents), x.seen);
      } else {
        StaysRefused(env, o, StartFs(env, o, p, e, e.path), e, contents);
      }
    }
  }

  // ---- all entries ----

  /** Each file in turn uses up a line of the manifest, and in the end all are used. */
  ghost predicate Checks(env: Env, m: seq<ManifestEntry>, archive: seq<byte>, files: seq<Located>, seen: set<nat>)
    decreases |files|
  {
    if files == [] then forall i :: 0 <= i < |m| ==> i in seen else
    var f := files[0];
    && f.at + f.entry.size <= |archive|
    && Due(env, m, seen, f.entry, archive[f.at..f.at + f.entry.size])
    && Checks(env, m, archive, files[1..], seen + {Find(m, f.entry.path).value})
  }

  ghost predicate AllPlaceable(root: Path, es: seq<Located>) {
    forall i :: 0 <= i < |es| ==> Placeable(root, es[i].entry.path)
  }

  ghost predicate Demands(env: Env, o: Options, archive: seq<byte>, es: seq<Located>, seen: set<nat>) {
    AllPlaceable(o.dstRoot, es) && (o.manifest.Some? ==> Checks(env, o.manifest.value, archive, FileEntries(es), seen))
  }

  lemma {:induction false} FileEntriesFirst(l: Located, es: seq<Located>)
    ensures FileEntries([l] + es) == (if l.entry.kind == File then [l] else []) + FileEntries(es)
    decreases |es|
  {
    var all := [l] + es;
    if es == [] {
      assert all[..|all| - 1] == [];
    } else {
      var front := es[..|es| - 1];
      assert all[..|all| - 1] == [l] + front && all[|all| - 1] == es[|es| - 1];
      FileEntriesFirst(l, front);
    }
  }

  lemma DemandsFirst(env: Env, o: Options, archive: seq<byte>, l: Located, es: seq<Located>, seen: set<nat>)
    requires l.at + l.entry.size <= |archive|
    ensures Demands(env, o, archive, [l] + es, seen) <==>
      && Placeable(o.dstRoot, l.entry.path)
      && (Checked(o, l.entry) ==> Due(env, o.manifest.value, seen, l.entry, archive[l.at..l.at + l.entry.size]))
      && Demands(env, o, archive, es, Used(o, seen, l.entry))
  {
    hide Placeable, Matches, Find, FileEntries;
    FileEntriesFirst(l, es);
    var all := [l] + es;
    assert AllPlaceable(o.dstRoot, all) <==> Placeable(o.dstRoot, l.entry.path) && AllPlaceable(o.dstRoot, es) by {
      assert all[0] == l && forall i :: 0 <= i < |es| ==> all[i + 1] == es[i];
    }
    var files := FileEntries(es);
    if l.entry.kind == File {
      assert ([l] + files)[0] == l && ([l] + files)[1..] == files;
    } else {
      assert [] + files == files;
    }
  }

  lemma PlainTurn(env: Env, o: Options, s: Tar, archive: seq<byte>, at: nat, e: Entry)
    requires Accepting(env) && PlainRun(o) && Between(s)
    requires After(at, e) <= |archive| && ParseHeader(env, archive[at..at + BLOCK]) == Header(e)
    ensures var r := TurnAt(env, o, s, archive, at, e); var contents := archive[at + BLOCK..at + BLOCK + e.size];
      && (r.code == Ok <==> Placeable(o.dstRoot, e.path) && (Checked(o, e) ==> Due(env, o.manifest.value, s.seen, e, contents)))
      && (r.code == Ok ==> r.tar.seen == Used(o, s.seen, e))
  {
    hide TakeEntry, TakeWhole, ParseHeader, Placeable, Due, Find;
    var h, contents := Heading(s, archive[at..at + BLOCK]), archive[at + BLOCK..at + BLOCK + e.size];
    assert e.kind == Dir ==> e.size == 0 by { ParsedDirectory(env, archive[at..at + BLOCK]); }
    PlainEntry(env, o, h, e, contents);
    PaddingIgnored(env, o, h, e, contents, archive[at + BLOCK + e.size..After(at, e)]);
  }

  lemma {:induction false} PlainTaken(env: Env, o: Options, s: Tar, archive: seq<byte>, at: nat)
    requires Accepting(env) && PlainRun(o) && Between(s) && at <= |archive| && s.past.stream == archive[..at]
    requires Closed(env, archive, at, s.pos.zeroBlocks, false)
    ensures AllTaken(env, o, s, archive, at) && AllSeen(o, EndState(env, o, s, archive, at).seen) <==>
      Demands(env, o, archive, Scan(env, archive, at, s.pos.zeroBlocks), s.seen)
    decreases |archive| - at
  {
    hide ParseHeader, WellFormed, TurnAt, Zeroed, Demands, AllTaken, EndState, Scan, Closed, Due, Used, Checked, Placeable, AllSeen;
    if s.pos.zeroBlocks >= 2 || at + BLOCK > |archive| {
      NoneNext(env, o, s, archive, at);
      NothingDemanded(env, o, archive, s.seen);
    } else {
      match ParseHeader(env, archive[at..at + BLOCK]) {
        case Bad(_) => BadNext(env, archive, at, s.pos.zeroBlocks, false);
        case ZeroBlock =>
          var block := archive[at..at + BLOCK];
          ZeroNext(env, o, s, archive, at);
          ZeroFold(env, o, s, archive, at);
          ZeroedFields(s, block);
          assert archive[..at] + block == archive[..at + BLOCK];
          PlainTaken(env, o, Zeroed(s, block), archive, at + BLOCK);
        case Header(e) =>
          HeaderNext(env, o, s, archive, at, e);
          TurnFold(env, o, s, archive, at, e);
          PlainTurn(env, o, s, archive, at, e);
          var r := TurnAt(env, o, s, archive, at, e);
          DemandsFirst(env, o, archive, Located(e, at + BLOCK), Scan(env, archive, After(at, e), 0), s.seen);
          if r.code == Ok {
            assert archive[..at] + archive[at..After(at, e)] == archive[..After(at, e)];
            PlainTaken(env, o, r.tar, archive, After(at, e));
          }
      }
    }
  }

  lemma NothingDemanded(env: Env, o: Options, archive: seq<byte>, seen: set<nat>)
    ensures Demands(env, o, archive, [], seen) <==> AllSeen(o, seen)
  {
  }

  // ---- the manifest as a whole ----

  lemma FindDistinct(m: seq<ManifestEntry>, k: nat)
    requires DistinctPaths(m) && k < |m|
    ensures Find(m, m[k].path) == Some(k)
  {
    hide Find;
    var f := Find(m, m[k].path);
    assert f.Some? && m[f.value].path == m[k].path;
  }

  /** The lines used up by these files. */
  ghost predicate UsedBy(m: seq<ManifestEntry>, files: seq<Located>, seen: set<nat>) {
    forall k: nat :: k in seen <==> exists j :: 0 <= j < |files| && Find(m, files[j].entry.path) == Some(k)
  }

  lemma UsedByOneMore(m: seq<ManifestEntry>, files: seq<Located>, f: Located, k: nat, seen: set<nat>)
    requires UsedBy(m, files, seen) && Find(m, f.entry.path) == Some(k)
    ensures UsedBy(m, files + [f], seen + {k})
  {
    hide Find;
    var all := files + [f];
    assert all[|files|] == f && forall j :: 0 <= j < |files| ==> all[j] == files[j];
    forall i: nat ensures i in seen + {k} <==> exists j :: 0 <= j < |all| && Find(m, all[j].entry.path) == Some(i) {
      if i in seen {
        var j :| 0 <= j < |files| && Find(m, files[j].entry.path) == Some(i);
        assert all[j] == files[j];
      }
      if j :| 0 <= j < |all| && Find(m, all[j].entry.path) == Some(i) {
        assert j == |files| || Find(m, files[j].entry.path) == Some(i);
      }
    }
  }

  /** A file of a matching archive finds its line, and finds it unused. */
  lemma BijectionIsDue(env: Env, m: seq<ManifestEntry>, archive: seq<byte>, files: seq<Located>, n: nat, seen: set<nat>)
    requires Bijection(env, m, archive, files) && n < |files| && UsedBy(m, files[..n], seen)
    ensures var f := files[n];
      f.at + f.entry.size <= |archive| && Due(env, m, seen, f.entry, archive[f.at..f.at + f.entry.size])
  {
    hide Find, Spells, ParseCrc, UsedBy;
    var f := files[n];
    assert Listed(env, m, archive, f);
    var crc := env.crc32(archive[f.at..f.at + f.entry.size]);
    var k: nat :| k < |m| && m[k].path == f.entry.path && m[k].size == f.entry.size
      && |m[k].checksumHex| == 8 && Spells(m[k].checksumHex, crc);
    CrcExactly(m[k].checksumHex, crc);
    FindDistinct(m, k);
    BijectionUnused(env, m, archive, files, n, seen, k);
  }

  lemma BijectionUnused(env: Env, m: seq<ManifestEntry>, archive: seq<byte>, files: seq<Located>, n: nat, seen: set<nat>, k: nat)
    requires Bijection(env, m, archive, files) && n < |files| && UsedBy(m, files[..n], seen)
    requires k < |m| && m[k].path == files[n].entry.path
    ensures k !in seen
  {
    hide Find, Listed, Present;
    assert forall j :: 0 <= j < n ==> files[..n][j] == files[j] && files[j].entry.path != files[n].entry.path;
  }

  lemma BijectionUsesAll(env: Env, m: seq<ManifestEntry>, archive: seq<byte>, files: seq<Located>, seen: set<nat>)
    requires Bijection(env, m, archive, files) && UsedBy(m, files, seen)
    ensures forall i :: 0 <= i < |m| ==> i in seen
  {
    hide Find, Listed;
    forall i | 0 <= i < |m| ensures i in seen {
      assert Present(m[i].path, files);
      var j :| 0 <= j < |files| && files[j].entry.path == m[i].path;
      FindDistinct(m, i);
      assert Find(m, files[j].entry.path) == Some(i);
    }
  }

  lemma {:induction false} BijectionChecks(env: Env, m: seq<ManifestEntry>, archive: seq<byte>, files: seq<Located>, n: nat, seen: set<nat>)
    requires Bijection(env, m, archive, files) && n <= |files| && UsedBy(m, files[..n], seen)
    ensures Checks(env, m, archive, files[n..], seen)
    decreases |files| - n
  {
    hide Find, Bijection, UsedBy;
    if n == |files| {
      assert files[..n] == files;
      BijectionUsesAll(env, m, archive, files, seen);
    } else {
      BijectionIsDue(env, m, archive, files, n, seen);
      var f := files[n];
      var k := Find(m, f.entry.path).value;
      assert files[n..][0] == f && files[n..][1..] == files[n + 1..] && files[..n + 1] == files[..n] + [f];
      UsedByOneMore(m, files[..n], f, k, seen);
      BijectionChecks(env, m, archive, files, n + 1, seen + {k});
    }
  }

  // ---- whole archives ----

  lemma FinishExactly(env: Env, o: Options, s: Tar)
    requires PlainRun(o)
    ensures Finish(env, o, s).code == Ok <==> Stops(o, s) && AllSeen(o, s.seen)
    ensures Finish(env, o, s).code == Ok ==> Finish(env, o, s).tar == s
  {
    hide Release;
  }

  /** On a file system that refuses nothing, a plain archive is accepted exactly when it is
      laid out to its end, every name in it is safe and short enough, and its files
      correspond one to one to the lines of the manifest, if there is one. */
  lemma PlainAccepted(env: Env, o: Options, archive: seq<byte>)
    requires Accepting(env) && PlainRun(o)
    ensures Install(env, o, archive).code == Ok <==>
      && Closed(env, archive, 0, 0, false)
      && AllPlaceable(o.dstRoot, Entries(env, archive))
      && (o.manifest.Some? ==> Bijection(env, o.manifest.value, archive, FileEntries(Entries(env, archive))))
  {
    hide Fold, Finish, Stops, Closed, AllTaken, Scan, FileEntries, Bijection, Checks, AllPlaceable, WellFormed, ParseHeader;
    var es := Entries(env, archive);
    assert archive[0..] == archive && archive[..0] == [];
    assert Between(INIT) by { InitBetween(); }
    GoodIsTaken(env, o, INIT, archive, 0);
    var r := Fold(env, o, INIT, archive);
    FinishExactly(env, o, r.tar);
    if Closed(env, archive, 0, 0, false) { PlainTaken(env, o, INIT, archive, 0); }
    if o.manifest.Some? {
      var files := FileEntries(es);
      if Install(env, o, archive).code == Ok { InstalledMatchesManifest(env, o, archive); }
      if Bijection(env, o.manifest.value, archive, files) {
        assert files[..0] == [] && files[0..] == files;
        BijectionChecks(env, o.manifest.value, archive, files, 0, {});
      }
    }
  }

  // ---- the files it leaves ----

  function PlaceOf(root: Path, e: Entry): Path { RootPrefix(root) + e.path }

  /** The entry is written to this place, or extracted over it. */
  predicate GoesOver(root: Path, p: Path, e: Entry) {
    e.kind == File && if HasSuffix(e.path, PIXA_SUFFIX) then Inside(PlaceOf(root, e), p) else PlaceOf(root, e) == p
  }

  ghost predicate NoneGoesOver(root: Path, p: Path, es: seq<Located>) {
    forall i :: 0 <= i < |es| ==> !GoesOver(root, p, es[i].entry)
  }

  predicate IsPlainFile(e: Entry) { e.kind == File && !HasSuffix(e.path, PIXA_SUFFIX) }

  ghost predicate Holds(disk: map<Path, seq<byte>>, root: Path, e: Entry, contents: seq<byte>) {
    PlaceOf(root, e) in disk && disk[PlaceOf(root, e)] == contents
  }

  /** Every file of the archive that no later entry goes over is on disk byte for byte. */
  ghost predicate FilesOnDisk(disk: map<Path, seq<byte>>, root: Path, archive: seq<byte>, es: seq<Located>) {
    forall i :: 0 <= i < |es| && IsPlainFile(es[i].entry) && NoneGoesOver(root, PlaceOf(root, es[i].entry), es[i + 1..]) ==>
      && es[i].at + es[i].entry.size <= |archive|
      && Holds(disk, root, es[i].entry, archive[es[i].at..es[i].at + es[i].entry.size])
  }

  /** What one entry does on disk. */
  ghost predicate DoneOnDisk(env: Env, root: Path, before: seq<FsEvent>, after: seq<FsEvent>, e: Entry, contents: seq<byte>) {
    && (forall p :: !GoesOver(root, p, e) ==> V.Kept(env, before, after, p))
    && (IsPlainFile(e) ==> Holds(Replay(env.disk, after), root, e, contents))
  }

  lemma ContentsOnDisk(env: Env, o: Options, x: Tar, e: Entry, contents: seq<byte>)
    requires x.cur.entry == e && x.cur.output == ToFs && e.kind == File && |contents| == e.size == x.pos.remaining
    requires x.cur.dstPath == PlaceOf(o.dstRoot, e)
    requires x.cur.outFile == if HasSuffix(e.path, PIXA_SUFFIX) then None else Some(x.cur.dstPath)
    requires IsPlainFile(e) ==> Holds(Replay(env.disk, x.fsLog), o.dstRoot, e, [])
    requires TakeContents(env, o, StartContents(env, o, x, e), e, contents).code == Ok
    ensures DoneOnDisk(env, o.dstRoot, x.fsLog, TakeContents(env, o, StartContents(env, o, x, e), e, contents).tar.fsLog, e, contents)
  {
    hide FinishFs, HasSuffix, Replay, FileTakes, V.Kept, Inside;
    var dst := x.cur.dstPath;
    var y := if e.size == 0 then x else Absorb(SetPhase(x, InFile), contents);
    if e.size > 0 && IsPlainFile(e) {
      V.ReplayWrites(env.disk, x.fsLog, dst, contents);
      assert [] + contents == contents;
    }
    assert IsPlainFile(e) ==> Holds(Replay(env.disk, y.fsLog), o.dstRoot, e, contents);
    var z := CloseHash(y);
    var r := FinishFs(env, o, z);
    assert r == TakeContents(env, o, StartContents(env, o, x, e), e, contents);
    forall p | !GoesOver(o.dstRoot, p, e) ensures V.Kept(env, x.fsLog, r.tar.fsLog, p) {
      assert V.Kept(env, x.fsLog, y.fsLog, p) by { WrittenElsewhere(env, x, y, e, contents, p); }
      V.FinishFsKept(env, o, z, p);
      V.KeptOn(env, x.fsLog, y.fsLog, r.tar.fsLog, p);
    }
    if IsPlainFile(e) {
      V.FinishFsKept(env, o, z, dst);
      assert Holds(Replay(env.disk, r.tar.fsLog), o.dstRoot, e, contents) by { StillHolds(env, o.dstRoot, y.fsLog, r.tar.fsLog, e, contents); }
    }
  }

  lemma StillHolds(env: Env, root: Path, before: seq<FsEvent>, after: seq<FsEvent>, e: Entry, contents: seq<byte>)
    requires Holds(Replay(env.disk, before), root, e, contents) && V.Kept(env, before, after, PlaceOf(root, e))
    ensures Holds(Replay(env.disk, after), root, e, contents)
  {
    hide Replay;
  }

  lemma WrittenElsewhere(env: Env, x: Tar, y: Tar, e: Entry, contents: seq<byte>, p: Path)
    requires IsPlainFile(e) ==> x.cur.dstPath in Replay(env.disk, x.fsLog) && p != x.cur.dstPath
    requires y.fsLog == if e.size > 0 && IsPlainFile(e) then x.fsLog + Writes(x.cur.dstPath, contents) else x.fsLog
    ensures V.Kept(env, x.fsLog, y.fsLog, p)
  {
    hide Replay, HasSuffix;
    if e.size > 0 && IsPlainFile(e) { V.ReplayWrites(env.disk, x.fsLog, x.cur.dstPath, contents); }
  }

  lemma EntryOnDisk(env: Env, o: Options, s: Tar, e: Entry, contents: seq<byte>)
    requires PlainRun(o) && s.pos.phase == InHeader && (e.kind == Dir ==> e.size == 0) && |contents| == e.size
    requires TakeEntry(env, o, s, e, contents).code == Ok
    ensures DoneOnDisk(env, o.dstRoot, s.fsLog, TakeEntry(env, o, s, e, contents).tar.fsLog, e, contents)
  {
    hide StartOutput, StartContents, TakeContents, HasSuffix, Replay, SafeRelative, Inside;
    var p := Opened(s, e);
    var t := p.(cur := p.cur.(dstPath := PlaceOf(o.dstRoot, e)));
    var start := StartEntry(env, o, s, e);
    if start.code != Ok { StaysRefused(env, o, start, e, contents); }
    if e.kind == Dir {
      NoContents(env, o, start, e);
      V.MakeDirsKeepsDisk(env, t, t.cur.dstPath);
    } else {
      var f := SetOutput(t, ToFs);
      var x := V.OutputShape(env, o, f, e);
      assert start == StartOutput(env, o, f, e);
      assert x.cur.entry == e && x.cur.output == ToFs && x.cur.dstPath == PlaceOf(o.dstRoot, e);
      ContentsOnDisk(env, o, x, e, contents);
      var after := TakeEntry(env, o, s, e, contents).tar.fsLog;
      forall q | !GoesOver(o.dstRoot, q, e) ensures V.Kept(env, s.fsLog, after, q) {
        OpenedElsewhere(env, o.dstRoot, s.fsLog, x.fsLog, e, q);
        V.KeptOn(env, s.fsLog, x.fsLog, after, q);
      }
    }
  }

  lemma OpenedElsewhere(env: Env, root: Path, before: seq<FsEvent>, after: seq<FsEvent>, e: Entry, q: Path)
    requires e.kind == File && !GoesOver(root, q, e)
    requires Replay(env.disk, after) ==
      if HasSuffix(e.path, PIXA_SUFFIX) then Replay(env.disk, before) else Replay(env.disk, before)[PlaceOf(root, e) := []]
    ensures V.Kept(env, before, after, q)
  {
    hide Replay, HasSuffix, Inside;
  }

  lemma TurnOnDisk(env: Env, o: Options, s: Tar, archive: seq<byte>, at: nat, e: Entry)
    requires PlainRun(o) && Between(s) && After(at, e) <= |archive| && ParseHeader(env, archive[at..at + BLOCK]) == Header(e)
    requires TurnAt(env, o, s, archive, at, e).code == Ok
    ensures DoneOnDisk(env, o.dstRoot, s.fsLog, TurnAt(env, o, s, archive, at, e).tar.fsLog, e, archive[at + BLOCK..at + BLOCK + e.size])
  {
    hide TakeEntry, TakeWhole, ParseHeader, DoneOnDisk;
    var h, contents := Heading(s, archive[at..at + BLOCK]), archive[at + BLOCK..at + BLOCK + e.size];
    assert e.kind == Dir ==> e.size == 0 by { ParsedDirectory(env, archive[at..at + BLOCK]); }
    PaddingIgnored(env, o, h, e, contents, archive[at + BLOCK + e.size..After(at, e)]);
    EntryOnDisk(env, o, h, e, contents);
  }

  /** What no entry goes over stays as it was. */
  ghost predicate OthersKept(env: Env, root: Path, before: seq<FsEvent>, after: seq<FsEvent>, es: seq<Located>) {
    forall p :: NoneGoesOver(root, p, es) ==> V.Kept(env, before, after, p)
  }

  lemma {:induction false} AllOnDisk(env: Env, o: Options, s: Tar, archive: seq<byte>, at: nat)
    requires PlainRun(o) && Between(s) && at <= |archive|
    requires Closed(env, archive, at, s.pos.zeroBlocks, false) && AllTaken(env, o, s, archive, at)
    ensures var es, log := Scan(env, archive, at, s.pos.zeroBlocks), EndState(env, o, s, archive, at).fsLog;
      OthersKept(env, o.dstRoot, s.fsLog, log, es) && FilesOnDisk(Replay(env.disk, log), o.dstRoot, archive, es)
    decreases |archive| - at
  {
    hide ParseHeader, WellFormed, TurnAt, Zeroed, AllTaken, EndState, Scan, Closed, OthersKept, FilesOnDisk, DoneOnDisk, Replay;
    if s.pos.zeroBlocks >= 2 || at + BLOCK > |archive| {
      NoneNext(env, o, s, archive, at);
      NothingOnDisk(env, o.dstRoot, s.fsLog, archive);
    } else {
      match ParseHeader(env, archive[at..at + BLOCK]) {
        case Bad(_) => BadNext(env, archive, at, s.pos.zeroBlocks, false);
        case ZeroBlock =>
          var block := archive[at..at + BLOCK];
          ZeroNext(env, o, s, archive, at);
          ZeroFold(env, o, s, archive, at);
          ZeroedFields(s, block);
          AllOnDisk(env, o, Zeroed(s, block), archive, at + BLOCK);
        case Header(e) =>
          HeaderNext(env, o, s, archive, at, e);
          TurnFold(env, o, s, archive, at, e);
          TurnOnDisk(env, o, s, archive, at, e);
          var t := TurnAt(env, o, s, archive, at, e).tar;
          AllOnDisk(env, o, t, archive, After(at, e));
          FirstOnDisk(env, o.dstRoot, s.fsLog, t.fsLog, EndState(env, o, t, archive, After(at, e)).fsLog, archive,
                      Located(e, at + BLOCK), Scan(env, archive, After(at, e), 0));
      }
    }
  }

  lemma NothingOnDisk(env: Env, root: Path, log: seq<FsEvent>, archive: seq<byte>)
    ensures OthersKept(env, root, log, log, []) && FilesOnDisk(Replay(env.disk, log), root, archive, [])
  {
    forall p ensures V.Kept(env, log, log, p) { V.NothingKept(env, log, p); }
  }

  lemma FirstOnDisk(env: Env, root: Path, a: seq<FsEvent>, b: seq<FsEvent>, c: seq<FsEvent>, archive: seq<byte>, l: Located, es: seq<Located>)
    requires l.at + l.entry.size <= |archive|
    requires DoneOnDisk(env, root, a, b, l.entry, archive[l.at..l.at + l.entry.size])
    requires OthersKept(env, root, b, c, es) && FilesOnDisk(Replay(env.disk, c), root, archive, es)
    ensures OthersKept(env, root, a, c, [l] + es) && FilesOnDisk(Replay(env.disk, c), root, archive, [l] + es)
  {
    hide DoneOnDisk, OthersKept, FilesOnDisk;
    FirstOthersKept(env, root, a, b, c, l, archive[l.at..l.at + l.entry.size], es);
    FirstFilesOnDisk(env, root, a, b, c, archive, l, es);
  }

  lemma FirstOthersKept(env: Env, root: Path, a: seq<FsEvent>, b: seq<FsEvent>, c: seq<FsEvent>, l: Located, contents: seq<byte>, es: seq<Located>)
    requires DoneOnDisk(env, root, a, b, l.entry, contents) && OthersKept(env, root, b, c, es)
    ensures OthersKept(env, root, a, c, [l] + es)
  {
    hide Replay, V.Kept, GoesOver, Holds;
    var all := [l] + es;
    assert all[0] == l && forall i :: 0 <= i < |es| ==> es[i] == all[i + 1];
    forall p | NoneGoesOver(root, p, all) ensures V.Kept(env, a, c, p) {
      assert !GoesOver(root, p, all[0].entry);
      assert NoneGoesOver(root, p, es);
      V.KeptOn(env, a, b, c, p);
    }
  }

  lemma FirstFilesOnDisk(env: Env, root: Path, a: seq<FsEvent>, b: seq<FsEvent>, c: seq<FsEvent>, archive: seq<byte>, l: Located, es: seq<Located>)
    requires l.at + l.entry.size <= |archive|
    requires DoneOnDisk(env, root, a, b, l.entry, archive[l.at..l.at + l.entry.size])
    requires OthersKept(env, root, b, c, es) && FilesOnDisk(Replay(env.disk, c), root, archive, es)
    ensures FilesOnDisk(Replay(env.disk, c), root, archive, [l] + es)
  {
    hide Replay, V.Kept, GoesOver, Holds, NoneGoesOver;
    var all := [l] + es;
    assert all[0] == l && all[1..] == es;
    forall i | 0 <= i < |all| && IsPlainFile(all[i].entry) && NoneGoesOver(root, PlaceOf(root, all[i].entry), all[i + 1..])
      ensures all[i].at + all[i].entry.size <= |archive|
      ensures Holds(Replay(env.disk, c), root, all[i].entry, archive[all[i].at..all[i].at + all[i].entry.size])
    {
      if i == 0 {
        StillHolds(env, root, b, c, l.entry, archive[l.at..l.at + l.entry.size]);
      } else {
        assert all[i] == es[i - 1] && all[i + 1..] == es[i..];
      }
    }
  }

  /** After an accepted plain archive, on any file system: each file that no later entry is
      written or extracted over is on disk byte for byte, and every file no entry goes over
      is as it was. */
  lemma PlainInstalls(env: Env, o: Options, archive: seq<byte>)
    requires PlainRun(o) && Install(env, o, archive).code == Ok
    ensures var es, log := Entries(env, archive), Install(env, o, archive).tar.fsLog;
      && FilesOnDisk(Replay(env.disk, log), o.dstRoot, archive, es)
      && OthersKept(env, o.dstRoot, [], log, es)
  {
    hide Fold, Finish, Stops, Closed, AllTaken, Scan, EndState, OthersKept, FilesOnDisk, ParseHeader, WellFormed;
    assert archive[0..] == archive;
    assert Between(INIT) by { InitBetween(); }
    GoodIsTaken(env, o, INIT, archive, 0);
    FinishExactly(env, o, Fold(env, o, INIT, archive).tar);
    AllOnDisk(env, o, INIT, archive, 0);
  }
}
