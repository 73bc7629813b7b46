/** Plain layout with a manifest: an accepted archive and its manifest are in bijection. */
module BundleManifest {
  import opened Bytes
  import opened BundleTar
  import opened BundleFeed
  import opened BundleGrammar
  import opened BundlePaths
  import opened Optional

  function FileEntries(entries: seq<Located>): seq<Located> {
    if entries == [] then [] else
    var last := entries[|entries| - 1];
    FileEntries(entries[..|entries| - 1]) + if last.entry.kind == File then [last] else []
  }

  function Sources(files: seq<FileRec>): (r: seq<Located>)
    ensures |r| == |files|
    ensures forall j :: 0 <= j < |files| ==> r[j] == files[j].source
  {
    seq(|files|, j requires 0 <= j < |files| => files[j].source)
  }

  ghost predicate Plain(o: Options) {
    !o.otaLayout && !o.digestMode && o.manifest.Some?
  }

  /** A finished file carries exactly its entry's bytes of the archive. */
  ghost predicate Genuine(f: FileRec, stream: seq<byte>) {
    && f.path == f.source.entry.path
    && f.source.at + f.source.entry.size <= |stream|
    && f.bytes == stream[f.source.at..f.source.at + f.source.entry.size]
  }

  ghost predicate Verified(env: Env, m: seq<ManifestEntry>, f: FileRec) {
    var k := Find(m, f.path);
    k.Some? && Matches(env, m[k.value], f.source.entry.size, f.bytes)
  }

  ghost predicate Covered(m: seq<ManifestEntry>, files: seq<FileRec>, k: nat) {
    exists j :: 0 <= j < |files| && Find(m, files[j].path) == Some(k)
  }

  ghost predicate Tally(env: Env, m: seq<ManifestEntry>, files: seq<FileRec>, seen: set<nat>) {
    && (forall j :: 0 <= j < |files| ==> Verified(env, m, files[j]) && Find(m, files[j].path).value in seen)
    && (forall k :: k in seen ==> Covered(m, files, k))
    && (forall i, j :: 0 <= i < j < |files| ==> files[i].path != files[j].path)
  }

  /** The entry being read: the last header, with its bytes so far. */
  ghost predicate Reading(s: Tar) {
    && |s.past.entries| > 0
    && var last := s.past.entries[|s.past.entries| - 1];
    && s.cur.entry == last.entry && last.entry.kind == File
    && s.cur.output in {NoOutput, ToFs} && !s.cur.hashing
    && s.pos.remaining <= last.entry.size
    && |s.past.stream| == last.at + last.entry.size - s.pos.remaining
    && s.cur.crcInput == s.past.stream[last.at..]
  }

  ghost predicate Inv(env: Env, o: Options, s: Tar, reading: bool)
    requires o.manifest.Some?
  {
    && (forall j :: 0 <= j < |s.past.files| ==> Genuine(s.past.files[j], s.past.stream))
    && Tally(env, o.manifest.value, s.past.files, s.seen)
    && (reading ==> Reading(s))
    && FileEntries(s.past.entries) ==
       Sources(s.past.files) + if reading then [s.past.entries[|s.past.entries| - 1]] else []
  }

  lemma SourcesAppend(files: seq<FileRec>, f: FileRec)
    ensures Sources(files + [f]) == Sources(files) + [f.source]
  {
  }

  lemma CoveredAppend(m: seq<ManifestEntry>, files: seq<FileRec>, f: FileRec, k: nat)
    requires Covered(m, files, k) || Find(m, f.path) == Some(k)
    ensures Covered(m, files + [f], k)
  {
    hide Find;
    if Covered(m, files, k) {
      var j :| 0 <= j < |files| && Find(m, files[j].path) == Some(k);
      assert (files + [f])[j] == files[j];
    } else {
      assert (files + [f])[|files|] == f;
    }
  }

  lemma TallyAppend(env: Env, m: seq<ManifestEntry>, files: seq<FileRec>, seen: set<nat>, f: FileRec)
    requires Tally(env, m, files, seen) && Verified(env, m, f) && Find(m, f.path).value !in seen
    ensures Tally(env, m, files + [f], seen + {Find(m, f.path).value})
  {
    hide Find, Covered, Verified;
    VerifiedFound(env, m, f);
    var all, now := files + [f], seen + {Find(m, f.path).value};
    assert all[|files|] == f && forall j :: 0 <= j < |files| ==> all[j] == files[j];
    forall k | k in now ensures Covered(m, all, k) { CoveredAppend(m, files, f, k); }
  }

  lemma VerifiedFound(env: Env, m: seq<ManifestEntry>, f: FileRec)
    requires Verified(env, m, f)
    ensures Find(m, f.path).Some? && Find(m, f.path).value < |m|
  {
    hide Matches;
  }

  lemma FinishEffect(env: Env, o: Options, s: Tar)
    requires Plain(o) && s.cur.output in {NoOutput, ToFs} && !s.cur.hashing
    ensures var r := FinishFile(env, o, s);
      r.code == Ok ==>
        var k := Find(o.manifest.value, s.cur.entry.path);
        && r.tar.past == s.past.(files := s.past.files + [Record(s)])
        && r.tar.pos.phase != InFile
        && k.Some? && k.value !in s.seen && r.tar.seen == s.seen + {k.value}
        && Matches(env, o.manifest.value[k.value], s.cur.entry.size, s.cur.crcInput)
  {
    hide Matches, Record, HasSuffix, Find;
    var seen := VerifyManifest(env, o, s.cur, s.seen).1;
    var c := CompleteOutput(env, s.(seen := seen));
    assert c.tar.past == s.past && c.tar.seen == seen;
  }

  lemma FinishKeeps(env: Env, o: Options, s: Tar)
    requires Plain(o) && Inv(env, o, s, true) && s.pos.remaining == 0
    ensures var r := FinishFile(env, o, s); r.code == Ok ==> Inv(env, o, r.tar, false) && r.tar.pos.phase != InFile
  {
    hide FinishFile, Matches;
    FinishEffect(env, o, s);
    var r := FinishFile(env, o, s);
    if r.code == Ok {
      var f := Record(s);
      assert Genuine(f, s.past.stream);
      TallyAppend(env, o.manifest.value, s.past.files, s.seen, f);
      SourcesAppend(s.past.files, f);
    }
  }

  lemma OpenedKeeps(env: Env, o: Options, s: Tar, e: Entry)
    requires Plain(o) && Inv(env, o, s, false)
    ensures Inv(env, o, Opened(s, e), e.kind == File)
  {
    var t := Opened(s, e);
    assert t.past.entries[..|t.past.entries| - 1] == s.past.entries;
    assert t.past.stream[|s.past.stream|..] == [];
  }

  /** Directories and the open call change nothing the invariant speaks of. */
  lemma StartOutputShape(env: Env, o: Options, f: Tar, e: Entry) returns (x: Tar)
    ensures x.past == f.past && x.seen == f.seen && x.pos == f.pos && x.cur.(outFile := None) == f.cur.(outFile := None)
    ensures x.ota == f.ota && x.digest == f.digest && x.appLog == f.appLog
    ensures var r := StartOutput(env, o, f, e); r.code == Ok ==> r == StartContents(env, o, x, e)
  {
    hide StartContents;
    var u := if Parent(f.cur.dstPath) == [] then f else Call(env, f, MakeDirs(Parent(f.cur.dstPath))).0;
    if HasSuffix(e.path, PIXA_SUFFIX) {
      x := u.(cur := u.cur.(outFile := f.cur.outFile));
    } else {
      var w := Call(env, u, OpenTruncate(u.cur.dstPath)).0;
      x := w.(cur := w.cur.(outFile := Some(u.cur.dstPath)));
    }
  }

  lemma InvFrame(env: Env, o: Options, s: Tar, t: Tar, reading: bool)
    requires o.manifest.Some? && Inv(env, o, s, reading)
    requires t.past == s.past && t.seen == s.seen && t.pos.remaining == s.pos.remaining
    requires t.cur.entry == s.cur.entry && t.cur.crcInput == s.cur.crcInput && t.cur.hashing == s.cur.hashing
    requires t.cur.output in {NoOutput, ToFs}
    ensures Inv(env, o, t, reading)
  {
  }

  lemma StartFileKeeps(env: Env, o: Options, p: Tar, e: Entry)
    requires Plain(o) && Inv(env, o, p, true) && p.pos.remaining == e.size && p.cur.output in {NoOutput, ToFs}
    ensures var r := StartOutput(env, o, p, e);
      r.code == Ok ==> Inv(env, o, r.tar, r.tar.pos.phase == InFile)
  {
    hide Inv, FinishFile, StartOutput;
    var x := StartOutputShape(env, o, p, e);
    assert x.cur.(outFile := None).output == p.cur.output;
    InvFrame(env, o, p, x, true);
    if e.size == 0 {
      FinishKeeps(env, o, x);
    } else {
      InvFrame(env, o, x, SetPhase(x, InFile), true);
    }
  }

  lemma StartKeeps(env: Env, o: Options, s: Tar, e: Entry)
    requires Plain(o) && Inv(env, o, s, false) && s.pos.phase == InHeader
    ensures var r := StartEntry(env, o, s, e);
      r.code == Ok ==> Inv(env, o, r.tar, r.tar.pos.phase == InFile)
  {
    OpenedKeeps(env, o, s, e);
    hide Inv, StartOutput, SafeRelative;
    var p := Opened(s, e);
    var t := p.(cur := p.cur.(dstPath := RootPrefix(o.dstRoot) + e.path));
    if e.kind == File {
      InvFrame(env, o, p, SetOutput(t, ToFs), true);
      StartFileKeeps(env, o, SetOutput(t, ToFs), e);
    } else {
      InvFrame(env, o, p, SetPhase(Call(env, t, MakeDirs(t.cur.dstPath)).0, InHeader), false);
    }
  }

  lemma GenuineGrows(f: FileRec, stream: seq<byte>, more: seq<byte>)
    requires Genuine(f, stream)
    ensures Genuine(f, stream + more)
  {
    var a, b := f.source.at, f.source.at + f.source.entry.size;
    assert (stream + more)[a..b] == stream[a..b];
  }

  lemma GrowKeeps(env: Env, o: Options, s: Tar, t: Tar, more: seq<byte>)
    requires Plain(o) && Inv(env, o, s, false)
    requires t.past == s.past.(stream := s.past.stream + more) && t.seen == s.seen
    ensures Inv(env, o, t, false)
  {
    forall j | 0 <= j < |s.past.files| { GenuineGrows(s.past.files[j], s.past.stream, more); }
  }

  lemma AbsorbKeeps(env: Env, o: Options, s: Tar, bytes: seq<byte>)
    requires Plain(o) && Inv(env, o, s, true) && |bytes| <= s.pos.remaining
    ensures Inv(env, o, Absorb(s, bytes), true)
  {
    forall j | 0 <= j < |s.past.files| { GenuineGrows(s.past.files[j], s.past.stream, bytes); }
    var at := s.past.entries[|s.past.entries| - 1].at;
    assert (s.past.stream + bytes)[at..] == s.past.stream[at..] + bytes;
  }

  lemma ByteKeeps(env: Env, o: Options, s: Tar, b: byte)
    requires Plain(o) && Inv(env, o, s, s.pos.phase == InFile) && WellFormed(s)
    ensures var r := ByteStep(env, o, s, b); r.code == Ok ==> Inv(env, o, r.tar, r.tar.pos.phase == InFile)
  {
    hide StartEntry, FinishFile, SinkCode, SinkOf, Tally, FileEntries, Genuine;
    if !s.pos.done {
      match s.pos.phase
      case InHeader =>
        var t := Headed(s, [b]);
        GrowKeeps(env, o, s, t, [b]);
        if |t.pos.header| == BLOCK {
          match ParseHeader(env, t.pos.header)
          case Header(e) => StartKeeps(env, o, t.(pos := t.pos.(header := [], zeroBlocks := 0)), e);
          case _ =>
        }
      case InFile =>
        AbsorbKeeps(env, o, s, [b]);
        if s.pos.remaining == 1 { FinishKeeps(env, o, Absorb(s, [b])); }
      case InPadding =>
        GrowKeeps(env, o, s, Padded(s, [b]), [b]);
    }
  }

  lemma {:induction false} FoldKeeps(env: Env, o: Options, s: Tar, bytes: seq<byte>)
    requires Plain(o) && Inv(env, o, s, s.pos.phase == InFile) && WellFormed(s)
    ensures var r := Fold(env, o, s, bytes); r.code == Ok ==> Inv(env, o, r.tar, r.tar.pos.phase == InFile)
    decreases |bytes|
  {
    if bytes != [] {
      ByteKeeps(env, o, s, bytes[0]);
      ByteKeepsWellFormed(env, o, s, bytes[0]);
      var r := ByteStep(env, o, s, bytes[0]);
      if r.code == Ok { FoldKeeps(env, o, r.tar, bytes[1..]); }
    }
  }

  lemma InitKeeps(env: Env, o: Options)
    requires Plain(o)
    ensures Inv(env, o, INIT, false) && WellFormed(INIT)
  {
  }

  ghost predicate DistinctPaths(m: seq<ManifestEntry>) {
    forall i, j :: 0 <= i < j < |m| ==> m[i].path != m[j].path
  }

  /** Some manifest line names this file, its size and the CRC of its bytes. */
  ghost predicate Listed(env: Env, m: seq<ManifestEntry>, stream: seq<byte>, file: Located) {
    && file.at + file.entry.size <= |stream|
    && exists k :: 0 <= k < |m| && m[k].path == file.entry.path && m[k].size == file.entry.size &&
         |m[k].checksumHex| == 8 && Spells(m[k].checksumHex, env.crc32(stream[file.at..file.at + file.entry.size]))
  }

  ghost predicate Present(path: Path, files: seq<Located>) {
    exists j :: 0 <= j < |files| && files[j].entry.path == path
  }

  /** Archive files and manifest lines correspond one to one, with equal path, size and CRC. */
  ghost predicate Bijection(env: Env, m: seq<ManifestEntry>, stream: seq<byte>, files: seq<Located>) {
    && |files| == |m|
    && DistinctPaths(m)
    && (forall i, j :: 0 <= i < j < |files| ==> files[i].entry.path != files[j].entry.path)
    && (forall j :: 0 <= j < |files| ==> Listed(env, m, stream, files[j]))
    && (forall k :: 0 <= k < |m| ==> Present(m[k].path, files))
  }

  lemma {:induction false} SetSize(n: nat, s: set<nat>)
    requires forall k: nat :: k in s <==> k < n
    ensures |s| == n
  {
    if n == 0 {
      assert s == {};
    } else {
      SetSize(n - 1, s - {n - 1});
    }
  }

  lemma CoveredFront(m: seq<ManifestEntry>, files: seq<FileRec>, n: nat, k: nat)
    requires |files| == n + 1 && Covered(m, files, k) && Find(m, files[n].path) != Some(k)
    ensures Covered(m, files[..n], k)
  {
    hide Find;
    var j :| 0 <= j < |files| && Find(m, files[j].path) == Some(k);
    assert files[..n][j] == files[j];
  }

  lemma TallyFront(env: Env, m: seq<ManifestEntry>, files: seq<FileRec>, seen: set<nat>, n: nat)
    requires Tally(env, m, files, seen) && |files| == n + 1
    ensures Find(m, files[n].path).Some? && Find(m, files[n].path).value in seen
    ensures Tally(env, m, files[..n], seen - {Find(m, files[n].path).value})
  {
    hide Find, Covered, Verified;
    VerifiedFound(env, m, files[n]);
    var k := Find(m, files[n].path).value;
    var front := files[..n];
    forall j | j in seen - {k} ensures Covered(m, front, j) { CoveredFront(m, files, n, j); }
    forall i | 0 <= i < n
      ensures Verified(env, m, front[i]) && Find(m, front[i].path).Some? && Find(m, front[i].path).value in seen - {k}
    {
      VerifiedFound(env, m, files[i]);
      assert front[i] == files[i] && files[i].path != files[n].path;
    }
  }

  /** Distinct manifest indices of the finished files, counted. */
  lemma {:induction false} SeenSize(env: Env, m: seq<ManifestEntry>, files: seq<FileRec>, seen: set<nat>)
    requires Tally(env, m, files, seen)
    ensures |seen| == |files|
    decreases |files|
  {
    if files == [] {
      assert seen == {};
    } else {
      var n := |files| - 1;
      TallyFront(env, m, files, seen, n);
      hide Tally;
      SeenSize(env, m, files[..n], seen - {Find(m, files[n].path).value});
    }
  }

  lemma CoveredFound(m: seq<ManifestEntry>, files: seq<FileRec>, k: nat) returns (j: nat)
    requires Covered(m, files, k)
    ensures k < |m| && j < |files| && files[j].path == m[k].path && Find(m, m[k].path) == Some(k)
  {
    hide Find;
    j :| 0 <= j < |files| && Find(m, files[j].path) == Some(k);
  }

  lemma TallyCovers(env: Env, m: seq<ManifestEntry>, files: seq<FileRec>, seen: set<nat>)
    requires Tally(env, m, files, seen)
    requires forall i :: 0 <= i < |m| ==> i in seen
    ensures |files| == |m| && DistinctPaths(m)
    ensures forall k :: 0 <= k < |m| ==> NamedIn(m[k].path, files)
  {
    hide Find, Covered, Verified;
    forall k | k in seen ensures k < |m| { var j := CoveredFound(m, files, k); }
    SetSize(|m|, seen);
    SeenSize(env, m, files, seen);
    forall k | 0 <= k < |m| ensures NamedIn(m[k].path, files) && Find(m, m[k].path) == Some(k) {
      var j := CoveredFound(m, files, k);
    }
    forall i, j | 0 <= i < j < |m| ensures m[i].path != m[j].path {
      assert Find(m, m[i].path) == Some(i) && Find(m, m[j].path) == Some(j);
    }
  }

  ghost predicate NamedIn(path: Path, files: seq<FileRec>) { exists j :: 0 <= j < |files| && files[j].path == path }

  lemma GenuineListed(env: Env, m: seq<ManifestEntry>, stream: seq<byte>, f: FileRec)
    requires Genuine(f, stream) && Verified(env, m, f)
    ensures Listed(env, m, stream, f.source)
  {
    hide Spells, ParseCrc;
    var k := Find(m, f.path).value;
    assert m[k].path == f.source.entry.path;
    CrcExactly(m[k].checksumHex, env.crc32(f.bytes));
  }

  lemma BijectionFromTally(env: Env, m: seq<ManifestEntry>, stream: seq<byte>, files: seq<FileRec>, seen: set<nat>)
    requires Tally(env, m, files, seen)
    requires forall i :: 0 <= i < |m| ==> i in seen
    requires forall j :: 0 <= j < |files| ==> Genuine(files[j], stream)
    ensures Bijection(env, m, stream, Sources(files))
  {
    TallyCovers(env, m, files, seen);
    var sources := Sources(files);
    hide Listed, Matches;
    forall j | 0 <= j < |files| ensures Listed(env, m, stream, sources[j]) {
      GenuineListed(env, m, stream, files[j]);
    }
    forall k | 0 <= k < |m| ensures Present(m[k].path, sources) {
      var j :| 0 <= j < |files| && files[j].path == m[k].path;
      assert Genuine(files[j], stream) && sources[j].entry.path == m[k].path;
    }
    forall i, j | 0 <= i < j < |files| ensures sources[i].entry.path != sources[j].entry.path {
      assert Genuine(files[i], stream) && Genuine(files[j], stream);
    }
  }

  lemma FinishPlain(env: Env, o: Options, s: Tar)
    requires Plain(o) && Finish(env, o, s).code == Ok
    ensures Finish(env, o, s).tar == s && s.pos.phase == InHeader && AllSeen(o, s.seen)
  {
  }

  lemma ListedGrows(env: Env, m: seq<ManifestEntry>, stream: seq<byte>, archive: seq<byte>, file: Located)
    requires stream <= archive && Listed(env, m, stream, file)
    ensures Listed(env, m, archive, file)
  {
    hide Spells;
    assert archive[file.at..file.at + file.entry.size] == stream[file.at..file.at + file.entry.size];
  }

  /** A successful install means the files of the archive and the manifest correspond
      exactly: an entry missing or repeated on either side, or of another size or
      CRC, is an error. */
  lemma InstalledMatchesManifest(env: Env, o: Options, archive: seq<byte>)
    requires Plain(o) && Install(env, o, archive).code == Ok
    ensures Bijection(env, o.manifest.value, archive, FileEntries(Entries(env, archive)))
  {
    hide Fold, Finish, Tally, FileEntries, Genuine, Listed, Entries;
    InitKeeps(env, o);
    FoldKeeps(env, o, INIT, archive);
    FoldReadsArchive(env, o, INIT, archive);
    var s := Fold(env, o, INIT, archive).tar;
    FinishPlain(env, o, s);
    var files := FileEntries(s.past.entries);
    assert Sources(s.past.files) + [] == Sources(s.past.files);
    assert files == Sources(s.past.files);
    BijectionFromTally(env, o.manifest.value, s.past.stream, s.past.files, s.seen);
    forall j | 0 <= j < |files| ensures Listed(env, o.manifest.value, archive, files[j]) {
      ListedGrows(env, o.manifest.value, s.past.stream, archive, files[j]);
    }
  }
}
