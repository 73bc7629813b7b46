/** What a crash between any two file-system calls of a format-2 install leaves of the
    checksum file. */
module BundleCrash {
  import opened Bytes
  import opened BundleTar
  import opened BundleFeed
  import opened BundleGrammar
  import opened BundleData
  import opened BundleReach
  import opened BundleTurn
  import BundleOta

  // ---- crash points ----

  /** A call that leaves a checksum file on disk. */
  predicate Creates(e: FsEvent, ck: Path) {
    match e.op
    case OpenTruncate(p) => e.ok && p == ck
    case WriteByte(p, _) => e.ok && p == ck
    case ExtractPixa(p, _, made) => Inside(p, ck) && ck in made
    case _ => false
  }

  lemma {:induction false} StaysAbsent(disk: map<Path, seq<byte>>, ck: Path, log: seq<FsEvent>)
    requires |log| >= 1 && log[0].op == Remove(ck) && (log[0].ok || ck !in disk)
    requires forall i :: 0 <= i < |log| ==> !Creates(log[i], ck)
    ensures ck !in Replay(disk, log)
    decreases |log|
  {
    hide Inside;
    var front := log[..|log| - 1];
    if |log| == 1 {
      assert front == [];
    } else {
      StaysAbsent(disk, ck, front);
    }
  }

  lemma CreatedIsThere(disk: map<Path, seq<byte>>, ck: Path, log: seq<FsEvent>, i: nat)
    requires i < |log| && Creates(log[i], ck)
    ensures ck in Replay(disk, log[..i + 1])
  {
    hide Inside;
    BundleOta.ReplayStep(disk, log[..i], log[i]);
    assert log[..i + 1] == log[..i] + [log[i]];
  }

  /** What a crash after `n` file-system calls can leave behind. */
  ghost predicate Consistent(env: Env, ck: Path, sum: seq<byte>, log: seq<FsEvent>, n: nat, received: nat, verified: bool)
    requires n <= |log|
  {
    var disk := Replay(env.disk, log[..n]);
    // nothing happened yet, or the old checksum could not be removed: data is untouched
    || (disk == env.disk && n <= 1 && forall i :: 0 <= i < n ==> log[i].op == Remove(ck))
    // the checksum file is gone
    || ck !in disk
    // the new checksum is being written, after everything was received and verified
    || (disk[ck] <= sum && n > received && verified)
  }

  lemma UntouchedConsistent(env: Env, ck: Path, sum: seq<byte>, log: seq<FsEvent>, n: nat, received: nat, verified: bool)
    requires n <= |log| && n <= 1 && (n == 1 ==> log[0] == FsEvent(Remove(ck), false))
    ensures Consistent(env, ck, sum, log, n, received, verified)
  {
    if n == 1 {
      assert log[..1] == [log[0]];
      assert [log[0]][..0] == [];
    } else {
      assert log[..0] == [];
    }
  }

  /** While no data call makes a checksum file, every point of a run is consistent. */
  lemma CommittingConsistent(env: Env, root: Path, ck: Path, spare: bool, sum: seq<byte>, log: seq<FsEvent>,
                             k: nat, n: nat, received: nat, verified: bool)
    requires Committing(env.disk, root, ck, spare, sum, log, k, received) && 1 <= n <= |log|
    requires log[0].ok || ck !in env.disk
    requires forall i :: 0 <= i < k && i < received ==> !Creates(log[i], ck)
    requires k < |log| ==> verified
    ensures Consistent(env, ck, sum, log, n, received, verified)
  {
    hide DataOp, Replay, Inside;
    var data := log[..k];
    assert log[0] == data[0];
    assert forall i :: 0 <= i < k ==> !Creates(log[i], ck);
    if n <= k {
      StaysAbsent(env.disk, ck, log[..n]);
    } else {
      StaysAbsent(env.disk, ck, data);
      assert Partial(Replay(env.disk, log[..n]), ck, sum);
    }
  }

  /** Crash point `n` of an install. */
  ghost predicate Survives(env: Env, root: Path, ck: Path, m: DataManifest, h: Hasher,
                           delivered: seq<byte>, inflated: bool, n: nat)
    requires n <= |InstallData(env, root, ck, m, h, delivered, inflated).tar.fsLog|
  {
    Consistent(env, ck, m.sha256 + [NEWLINE], InstallData(env, root, ck, m, h, delivered, inflated).tar.fsLog, n,
      |Received(env, root, ck, m, delivered).tar.fsLog|, Verified(env, root, ck, m, h, delivered, inflated))
  }

  /** No call made for the archive's entries leaves a checksum file behind. */
  ghost predicate Untouching(env: Env, root: Path, ck: Path, m: DataManifest, h: Hasher,
                             delivered: seq<byte>, inflated: bool) {
    var log := InstallData(env, root, ck, m, h, delivered, inflated).tar.fsLog;
    forall i :: 0 <= i < |log| && i < |Received(env, root, ck, m, delivered).tar.fsLog| ==> !Creates(log[i], ck)
  }

  lemma UntouchingSurvives(env: Env, root: Path, ck: Path, m: DataManifest, h: Hasher,
                           delivered: seq<byte>, inflated: bool, n: nat)
    requires n <= |InstallData(env, root, ck, m, h, delivered, inflated).tar.fsLog|
    requires Untouching(env, root, ck, m, h, delivered, inflated)
    ensures Survives(env, root, ck, m, h, delivered, inflated, n)
  {
    hide InstallData, Verified, Consistent, Entered, Received, Creates, Committing;
    var log := InstallData(env, root, ck, m, h, delivered, inflated).tar.fsLog;
    var received := |Received(env, root, ck, m, delivered).tar.fsLog|;
    var sum, verified := m.sha256 + [NEWLINE], Verified(env, root, ck, m, h, delivered, inflated);
    if |m.sha256| != SHA_HEX {
      InvalidDoesNothing(env, root, ck, m, h, delivered, inflated);
      UntouchedConsistent(env, ck, sum, log, 0, received, verified);
    } else if Refused(env, ck, m) {
      RefusedStops(env, root, ck, m, h, delivered, inflated);
      UntouchedConsistent(env, ck, sum, log, n, received, verified);
    } else if n == 0 {
      UntouchedConsistent(env, ck, sum, log, 0, received, verified);
    } else {
      var k := InstallCommits(env, root, ck, false, m, h, delivered, inflated);
      CommittedFirst(env, root, ck, sum, log, k, received);
      CommittingConsistent(env, root, ck, false, sum, log, k, n, received, verified);
    }
  }

  /** Exactly when every crash point is consistent: the archive's entries leave no
      checksum file behind before the commit. */
  lemma CrashExact(env: Env, root: Path, ck: Path, m: DataManifest, h: Hasher, delivered: seq<byte>, inflated: bool)
    ensures Untouching(env, root, ck, m, h, delivered, inflated) <==>
      forall n :: 0 <= n <= |InstallData(env, root, ck, m, h, delivered, inflated).tar.fsLog| ==>
        Survives(env, root, ck, m, h, delivered, inflated, n)
  {
    hide InstallData, Received, Survives;
    var log := InstallData(env, root, ck, m, h, delivered, inflated).tar.fsLog;
    if Untouching(env, root, ck, m, h, delivered, inflated) {
      forall n | 0 <= n <= |log| ensures Survives(env, root, ck, m, h, delivered, inflated, n) {
        UntouchingSurvives(env, root, ck, m, h, delivered, inflated, n);
      }
    } else {
      var i :| 0 <= i < |log| && i < |Received(env, root, ck, m, delivered).tar.fsLog| && Creates(log[i], ck);
      TouchedFails(env, root, ck, m, h, delivered, inflated, i);
    }
  }

  lemma TouchedFails(env: Env, root: Path, ck: Path, m: DataManifest, h: Hasher,
                     delivered: seq<byte>, inflated: bool, i: nat)
    requires var log := InstallData(env, root, ck, m, h, delivered, inflated).tar.fsLog;
      i < |log| && i < |Received(env, root, ck, m, delivered).tar.fsLog| && Creates(log[i], ck)
    ensures !Survives(env, root, ck, m, h, delivered, inflated, i + 1)
  {
    hide InstallData, Received, Replay, Inside, Verified;
    CreatedIsThere(env.disk, ck, InstallData(env, root, ck, m, h, delivered, inflated).tar.fsLog, i);
  }

  /** Format-2 installs are crash consistent unless the archive names the checksum file:
      at every point of every run that file is unchanged with the data untouched,
      absent, or a prefix of the new checksum whose data was completely received,
      hashed and counted. */
  lemma CrashConsistent(env: Env, root: Path, ck: Path, m: DataManifest, h: Hasher,
                        delivered: seq<byte>, inflated: bool, n: nat)
    requires Clean(root, ck, Entries(env, delivered))
    requires n <= |InstallData(env, root, ck, m, h, delivered, inflated).tar.fsLog|
    ensures Survives(env, root, ck, m, h, delivered, inflated, n)
  {
    hide InstallData, Received, Survives, Creates, Entries, Clean, Committing, Entered, Verified;
    var log := InstallData(env, root, ck, m, h, delivered, inflated).tar.fsLog;
    if |m.sha256| != SHA_HEX {
      InvalidDoesNothing(env, root, ck, m, h, delivered, inflated);
    } else if Refused(env, ck, m) {
      RefusedStops(env, root, ck, m, h, delivered, inflated);
      assert !Creates(log[0], ck) by { RemoveCreatesNothing(log[0], ck); }
    } else {
      var k := InstallCommits(env, root, ck, true, m, h, delivered, inflated);
      SparedLog(env, root, ck, m.sha256 + [NEWLINE], log, k, |Received(env, root, ck, m, delivered).tar.fsLog|);
    }
    UntouchingSurvives(env, root, ck, m, h, delivered, inflated, n);
  }

  lemma RemoveCreatesNothing(e: FsEvent, ck: Path)
    requires e.op == Remove(ck)
    ensures !Creates(e, ck)
  {
  }

  lemma SparedLog(env: Env, root: Path, ck: Path, sum: seq<byte>, log: seq<FsEvent>, k: nat, received: nat)
    requires Committing(env.disk, root, ck, true, sum, log, k, received)
    ensures 1 <= k <= |log| && log[0].op == Remove(ck) && (k < |log| ==> received <= k)
    ensures forall i :: 0 <= i < k ==> !Creates(log[i], ck)
  {
    hide Growing, DataOp, Inside;
    assert forall i :: 0 <= i < k ==> log[i] == log[..k][i];
  }

  // ---- archives that name the checksum file ----

  /** The stream was fed to the parser, which took all of it. */
  ghost predicate TookAll(env: Env, root: Path, ck: Path, m: DataManifest, h: Hasher, delivered: seq<byte>) {
    && |m.sha256| == SHA_HEX && !Refused(env, ck, m) && h.startOk
    && Received(env, root, ck, m, delivered).code == Ok
  }

  /** The first entry that names the checksum file, if any, is no pixa archive, and the
      archive is passable up to it. */
  ghost predicate NamedInOrder(root: Path, ck: Path, es: seq<Located>, archive: seq<byte>) {
    forall k :: 0 <= k < |es| && Clean(root, ck, es[..k]) && Names(root, ck, es[k].entry) ==>
      !IsPixa(es[k].entry.path) && Passable(root, es, k, archive)
  }

  /** The install is started on a file system that refuses nothing. */
  ghost predicate Unhindered(env: Env, m: DataManifest, h: Hasher) {
    Accepting(env) && |m.sha256| == SHA_HEX && h.startOk
  }

  /** A file opened for an entry that names the checksum file is that file. */
  lemma OpenedIsTouched(env: Env, root: Path, ck: Path, m: DataManifest, h: Hasher, delivered: seq<byte>, inflated: bool, e: Entry)
    requires |m.sha256| == SHA_HEX && !Refused(env, ck, m) && h.startOk
    requires Names(root, ck, e) && !IsPixa(e.path)
    requires WasOpened(root, e, Received(env, root, ck, m, delivered).tar.fsLog)
    ensures !Untouching(env, root, ck, m, h, delivered, inflated)
  {
    hide Inside, InstallData, Committing, Received, Verified, HasSuffix;
    var t := Received(env, root, ck, m, delivered).tar;
    var at :| 0 <= at < |t.fsLog| && t.fsLog[at] == FsEvent(OpenTruncate(ck), true);
    var k := InstallCommits(env, root, ck, false, m, h, delivered, inflated);
    var log := InstallData(env, root, ck, m, h, delivered, inflated).tar.fsLog;
    assert log[at] == t.fsLog[at] && Creates(log[at], ck);
  }

  lemma TakenIsOpened(env: Env, root: Path, ck: Path, m: DataManifest, h: Hasher, delivered: seq<byte>, i: nat)
    requires TookAll(env, root, ck, m, h, delivered) && i < |Entries(env, delivered)|
    ensures WasOpened(root, Entries(env, delivered)[i].entry, Received(env, root, ck, m, delivered).tar.fsLog)
  {
    hide Fold, Entries, ModeInv, RunInv, WellFormed, Started, WasOpened;
    var s := Entered(env, m, ck);
    EnteredInv(env, root, ck, false, m);
    FoldReadsArchive(env, DataOptions(root, ck), s, delivered);
    FoldOpens(env, root, ck, m, s, delivered);
  }

  lemma {:induction false} FirstNamed(root: Path, ck: Path, es: seq<Located>, i: nat) returns (k: nat)
    requires i < |es| && Names(root, ck, es[i].entry)
    ensures k < |es| && Clean(root, ck, es[..k]) && Names(root, ck, es[k].entry)
    decreases i
  {
    hide Names;
    if Clean(root, ck, es[..i]) { return i; }
    var j :| 0 <= j < i && Names(root, ck, es[..i][j].entry);
    k := FirstNamed(root, ck, es, j);
  }

  /** An archive that names the checksum file touches it, if the parser takes the archive or
      if the archive is passable so far. */
  lemma NamedIsTouched(env: Env, root: Path, ck: Path, m: DataManifest, h: Hasher, delivered: seq<byte>, inflated: bool)
    requires !Clean(root, ck, Entries(env, delivered))
    requires
      || (TookAll(env, root, ck, m, h, delivered) && NoPixaOver(root, ck, Entries(env, delivered)))
      || (Unhindered(env, m, h) && NamedInOrder(root, ck, Entries(env, delivered), delivered))
    ensures !Untouching(env, root, ck, m, h, delivered, inflated)
  {
    hide Entries, Names, Untouching, WasOpened, Passable, Received, HasSuffix;
    var es := Entries(env, delivered);
    var i :| 0 <= i < |es| && Names(root, ck, es[i].entry);
    if TookAll(env, root, ck, m, h, delivered) && NoPixaOver(root, ck, es) {
      TakenIsOpened(env, root, ck, m, h, delivered, i);
      OpenedIsTouched(env, root, ck, m, h, delivered, inflated, es[i].entry);
    } else {
      var k := FirstNamed(root, ck, es, i);
      ReachedIsOpened(env, root, ck, m, delivered, k);
      OpenedIsTouched(env, root, ck, m, h, delivered, inflated, es[k].entry);
    }
  }

  ghost predicate NoPixaOver(root: Path, ck: Path, es: seq<Located>) {
    forall i :: 0 <= i < |es| && IsPixa(es[i].entry.path) ==> !Names(root, ck, es[i].entry)
  }

  /** The exact condition on the archive: every crash point is consistent if and only if no
      entry names the checksum file. It is asked either that the file system refuses
      nothing and the archive is passable up to the first entry naming it, or that the
      parser takes the stream; and that this entry is no pixa archive. */
  lemma CrashIffUnnamed(env: Env, root: Path, ck: Path, m: DataManifest, h: Hasher, delivered: seq<byte>, inflated: bool)
    requires
      || (TookAll(env, root, ck, m, h, delivered) && NoPixaOver(root, ck, Entries(env, delivered)))
      || (Unhindered(env, m, h) && NamedInOrder(root, ck, Entries(env, delivered), delivered))
    ensures Clean(root, ck, Entries(env, delivered)) <==>
      forall n :: 0 <= n <= |InstallData(env, root, ck, m, h, delivered, inflated).tar.fsLog| ==>
        Survives(env, root, ck, m, h, delivered, inflated, n)
  {
    hide InstallData, Survives, Clean, Entries, Untouching, TookAll, NoPixaOver, NamedInOrder;
    if Clean(root, ck, Entries(env, delivered)) {
      forall n | 0 <= n <= |InstallData(env, root, ck, m, h, delivered, inflated).tar.fsLog|
        ensures Survives(env, root, ck, m, h, delivered, inflated, n)
      {
        CrashConsistent(env, root, ck, m, h, delivered, inflated, n);
      }
    } else {
      NamedIsTouched(env, root, ck, m, h, delivered, inflated);
      CrashExact(env, root, ck, m, h, delivered, inflated);
    }
  }

  // ---- the default place of the checksum file ----

  const HIDDEN: Path := [46, 99, 104, 101, 99, 107, 115, 117, 109]

  lemma HiddenNotInside(p: Path, r: Path)
    requires r != [] && r[|r| - 1] == 97
    ensures !Inside(p + r, p + HIDDEN)
  {
    var t, ck := p + r, p + HIDDEN;
    assert t[|t| - 1] == 97 && ck[|ck| - 1] == 109;
    assert forall i :: |p| <= i < |ck| ==> ck[i] == HIDDEN[i - |p|] != SLASH;
    assert RootPrefix(t)[|t|] == SLASH;
  }

  /** With the checksum in `.checksum` directly below the root, as in the default
      configuration, one archive path alone names it. */
  lemma HiddenChecksum(root: Path, e: Entry)
    ensures Names(root, RootPrefix(root) + HIDDEN, e) <==> e.kind == File && e.path == DATA_PREFIX + HIDDEN
  {
    hide Inside, RootPrefix;
    if DATA_PREFIX <= e.path && e.kind == File {
      var p, r := RootPrefix(root), e.path[|DATA_PREFIX|..];
      assert e.path == DATA_PREFIX + r && Target(root, e.path) == p + r;
      assert (p + r)[|p|..] == r && (p + HIDDEN)[|p|..] == HIDDEN;
      if IsPixa(e.path) {
        assert e.path[|e.path| - 1] == PIXA_SUFFIX[4];
        if r != [] { HiddenNotInside(p, r); }
      }
    }
  }

  predicate NamesHidden(e: Entry) { e.kind == File && e.path == DATA_PREFIX + HIDDEN }

  /** The first file `data/.checksum` of the archive, if any, can be got to. */
  ghost predicate HiddenInOrder(root: Path, es: seq<Located>, archive: seq<byte>) {
    forall k :: 0 <= k < |es| && NamesHidden(es[k].entry) && (forall i :: 0 <= i < k ==> !NamesHidden(es[i].entry)) ==>
      Passable(root, es, k, archive)
  }

  /** In the default configuration an install is crash consistent if and only if the archive
      holds no file `data/.checksum`, given a file system that refuses nothing and an
      archive passable up to that file, or a stream the parser takes. */
  lemma DefaultCrashIff(env: Env, root: Path, m: DataManifest, h: Hasher, delivered: seq<byte>, inflated: bool)
    requires
      || TookAll(env, root, RootPrefix(root) + HIDDEN, m, h, delivered)
      || (Unhindered(env, m, h) && HiddenInOrder(root, Entries(env, delivered), delivered))
    ensures var ck := RootPrefix(root) + HIDDEN;
      (forall i :: 0 <= i < |Entries(env, delivered)| ==> !NamesHidden(Entries(env, delivered)[i].entry)) <==>
      forall n :: 0 <= n <= |InstallData(env, root, ck, m, h, delivered, inflated).tar.fsLog| ==>
        Survives(env, root, ck, m, h, delivered, inflated, n)
  {
    hide InstallData, Survives, Names, Entries, TookAll, RootPrefix, Passable, Unhindered;
    var ck, es := RootPrefix(root) + HIDDEN, Entries(env, delivered);
    forall i | 0 <= i < |es|
      ensures Names(root, ck, es[i].entry) <==> NamesHidden(es[i].entry)
      ensures IsPixa(es[i].entry.path) ==> !Names(root, ck, es[i].entry)
    {
      HiddenChecksum(root, es[i].entry);
      HiddenIsNoPixa();
    }
    if HiddenInOrder(root, es, delivered) {
      forall k | 0 <= k < |es| && Clean(root, ck, es[..k]) && Names(root, ck, es[k].entry)
        ensures Passable(root, es, k, delivered)
      {
        assert forall i :: 0 <= i < k ==> es[..k][i] == es[i];
      }
    }
    CrashIffUnnamed(env, root, ck, m, h, delivered, inflated);
  }

  lemma HiddenIsNoPixa()
    ensures !IsPixa(DATA_PREFIX + HIDDEN)
  {
    var name := DATA_PREFIX + HIDDEN;
    assert name[|name| - 1] == 109 && PIXA_SUFFIX[4] == 97;
  }
}
