/** The streaming tar installer of libs/bundle as a byte transducer.

    `Tar` is the parser record, `Env` the outside world, `ByteStep` what one byte
    of the uncompressed stream does. File-system, app-writer and digest traffic
    is kept in three logs, so "the same effects" is equality of logs.
 */
module BundleTar {
  import opened Bytes
  import opened Optional

  /** Archive paths are C strings: bytes without the terminating NUL. */
  type Path = seq<byte>

  datatype Code =
    | Ok | InvalidArg | NoSpace | Fs | BadTar | UnsafePath | UnsupportedEntry | Pixa | Manifest | Layout
    | Format | Callback

  datatype EntryKind = File | Dir
  datatype Entry = Entry(path: Path, size: nat, kind: EntryKind)
  datatype HeaderResult = Bad(code: Code) | ZeroBlock | Header(entry: Entry)
  datatype ManifestEntry = ManifestEntry(path: Path, checksumHex: seq<byte>, size: nat)

  datatype FsOp =
    | MakeDirs(path: Path) | OpenTruncate(path: Path) | WriteByte(path: Path, value: byte)
    | Sync(path: Path) | Close(path: Path) | Remove(path: Path) | ClearData(root: Path, gone: set<Path>)
    | ExtractPixa(path: Path, data: seq<byte>, made: map<Path, seq<byte>>)
  datatype FsEvent = FsEvent(op: FsOp, ok: bool)

  datatype AppOp = Begin(entry: Entry) | AppByte(value: byte) | End(entry: Entry) | Abort
  datatype AppEvent = AppEvent(op: AppOp, ok: bool)

  /** The outside world. `fsOk` and `appOk` decide every call, down to each byte
      written, from the history of calls before it. `wiped` and `unpacked` are what
      the clear callback and a pixa extraction do to the files, whether or not they
      then report success. `notFound` says whether a removal that fails for want of the
      file says so, or reports some other error. */
  datatype Env = Env(
    parse: seq<byte> -> HeaderResult,
    crc32: seq<byte> -> nat,
    disk: map<Path, seq<byte>>,
    fsOk: (seq<FsEvent>, FsOp) -> bool,
    readOk: seq<FsEvent> -> bool,
    appOk: (seq<AppEvent>, AppOp) -> bool,
    notFound: seq<FsEvent> -> bool,
    wiped: seq<FsEvent> -> set<Path>,
    unpacked: seq<FsEvent> -> map<Path, seq<byte>>)

  datatype Options = Options(
    dstRoot: Path, otaLayout: bool, digestMode: bool, skipApp: bool, skipData: bool,
    manifest: Option<seq<ManifestEntry>>, checksumPath: Option<Path>,
    hasWriter: bool, hasAbort: bool, hasClear: bool)

  datatype Phase = InHeader | InFile | InPadding
  datatype Output = NoOutput | ToFs | ToApp | ToChecksum | ToSkip

  /** An accepted header and the stream offset where its contents start. */
  datatype Located = Located(entry: Entry, at: nat)
  /** A file the installer finished: its archive entry, its bytes, where it went. */
  datatype FileRec = FileRec(source: Located, path: Path, bytes: seq<byte>, dst: Path, pixa: bool)

  datatype Cursor = Cursor(
    phase: Phase, header: seq<byte>, remaining: nat, padding: nat, zeroBlocks: nat, done: bool)
  datatype Current = Current(
    output: Output, entry: Entry, appEntry: Entry, outFile: Option<Path>, pixa: seq<byte>,
    crcInput: seq<byte>, dstPath: Path, hashing: bool)
  datatype Ota = Ota(
    checksum: seq<byte>, checksumSeen: bool, manifestSeen: bool, appSeen: bool,
    writerActive: bool, installNeeded: bool, cleared: bool)
  datatype Digest = Digest(input: seq<byte>, lastPath: Path, dataBytes: nat, pixaBytes: nat)
  /** History: the bytes consumed, the headers accepted and the files finished so far. */
  datatype History = History(stream: seq<byte>, entries: seq<Located>, files: seq<FileRec>)

  /** `tar_state_t`, with its fields grouped by what they are about. */
  datatype Tar = Tar(
    pos: Cursor, cur: Current, ota: Ota, digest: Digest, seen: set<nat>,
    fsLog: seq<FsEvent>, appLog: seq<AppEvent>, past: History)

  datatype Step = Step(code: Code, tar: Tar)

  const BLOCK: nat := 512
  const CHECKSUM_CAP: nat := 128
  const PATH_MAX: nat := 384
  const UINT64_MAX: nat := 0xFFFF_FFFF_FFFF_FFFF

  const MANIFEST: Path := [109, 97, 110, 105, 102, 101, 115, 116]
  const CHECKSUM: Path := [99, 104, 101, 99, 107, 115, 117, 109]
  const DATA: Path := [100, 97, 116, 97]
  const APP: Path := [97, 112, 112]
  const DATA_PREFIX: Path := [100, 97, 116, 97, 47]
  const APP_PREFIX: Path := [97, 112, 112, 47]
  const PIXA_SUFFIX: Path := [46, 112, 105, 120, 97]
  const SLASH: byte := 47

  const NO_ENTRY := Entry([], 0, File)

  const INIT := Tar(
    Cursor(InHeader, [], 0, 0, 0, false),
    Current(NoOutput, NO_ENTRY, NO_ENTRY, None, [], [], [], false),
    Ota([], false, false, false, false, false, false),
    Digest([], [], 0, 0), {}, [], [], History([], [], []))

  predicate HasSuffix(path: Path, suffix: Path) {
    |suffix| <= |path| && path[|path| - |suffix|..] == suffix
  }

  /** `strcmp(a, b) < 0` on bytes. */
  predicate Before(a: Path, b: Path) {
    |b| > 0 && (|a| == 0 || a[0] < b[0] || (a[0] == b[0] && Before(a[1..], b[1..])))
  }

  function Padding(size: nat): nat {
    if size % BLOCK == 0 then 0 else BLOCK - size % BLOCK
  }

  /** One component of a relative path: not empty, ".", "..", and free of ':' and '\'. */
  predicate SafeComponent(c: Path) {
    c != [] && c != [46] && c != [46, 46] && 58 !in c && 92 !in c
  }

  function FirstSlash(path: Path): (k: nat)
    ensures k <= |path|
  {
    if path == [] || path[0] == SLASH then 0 else 1 + FirstSlash(path[1..])
  }

  predicate SafeRelative(path: Path)
    decreases |path|
  {
    var k := FirstSlash(path);
    SafeComponent(path[..k]) && (k == |path| || SafeRelative(path[k + 1..]))
  }

  function RootPrefix(root: Path): Path {
    if root != [] && root[|root| - 1] != SLASH then root + [SLASH] else root
  }

  function Parent(path: Path): Path {
    if path == [] then [] else if path[|path| - 1] == SLASH then path[..|path| - 1]
    else Parent(path[..|path| - 1])
  }

  /** Nothing below the byte level rewrites what was read, moves the cursor or forgets a call. */
  ghost predicate SameReading(s: Tar, t: Tar) {
    && t.past.stream == s.past.stream && t.past.entries == s.past.entries
    && t.pos == s.pos.(phase := t.pos.phase)
    && s.fsLog <= t.fsLog
  }

  // ---- calls to the outside ----

  function Call(env: Env, s: Tar, op: FsOp): (r: (Tar, bool)) {
    var ok := env.fsOk(s.fsLog, op);
    (s.(fsLog := s.fsLog + [FsEvent(op, ok)]), ok)
  }

  function AppCall(env: Env, s: Tar, op: AppOp): (r: (Tar, bool)) {
    var ok := env.appOk(s.appLog, op);
    (s.(appLog := s.appLog + [AppEvent(op, ok)]), ok)
  }

  /** `release_entry_buffers`. */
  function Release(o: Options, s: Tar): Tar {
    var abort := s.ota.writerActive && o.hasWriter && o.hasAbort;
    s.(appLog := if abort then s.appLog + [AppEvent(Abort, true)] else s.appLog,
       ota := s.ota.(writerActive := s.ota.writerActive && !abort),
       fsLog := if s.cur.outFile.Some? then s.fsLog + [FsEvent(Close(s.cur.outFile.value), true)] else s.fsLog,
       cur := s.cur.(outFile := None, pixa := []))
  }

  // ---- disk contents ----

  /** `p` is `dir` itself or lies below it. */
  predicate Inside(dir: Path, p: Path) { p == dir || RootPrefix(dir) <= p }

  /** A clear removes some of the files below the root. */
  function Wipe(disk: map<Path, seq<byte>>, root: Path, gone: set<Path>): map<Path, seq<byte>> {
    map p | p in disk && !(p in gone && Inside(root, p)) :: disk[p]
  }

  /** An extraction may leave anything at and below its target, and nothing else changed. */
  function Unpack(disk: map<Path, seq<byte>>, dir: Path, made: map<Path, seq<byte>>): map<Path, seq<byte>> {
    (map p | p in disk && !Inside(dir, p) :: disk[p]) + (map p | p in made && Inside(dir, p) :: made[p])
  }

  /** What a call does to the files. A clear or an extraction that fails may have
      done part of its work; any other failed call did nothing. */
  function Apply(disk: map<Path, seq<byte>>, e: FsEvent): map<Path, seq<byte>> {
    match e.op
    case ClearData(root, gone) => Wipe(disk, root, gone)
    case ExtractPixa(p, _, made) => Unpack(disk, p, made)
    case OpenTruncate(p) => if e.ok then disk[p := []] else disk
    case WriteByte(p, b) => if !e.ok then disk else if p in disk then disk[p := disk[p] + [b]] else disk[p := [b]]
    case Remove(p) => if e.ok then disk - {p} else disk
    case _ => disk
  }

  /** The files after a history of calls; directories are not tracked. */
  function Replay(disk: map<Path, seq<byte>>, log: seq<FsEvent>): map<Path, seq<byte>> {
    if log == [] then disk
    else Apply(Replay(disk, log[..|log| - 1]), log[|log| - 1])
  }

  /** `read_installed_checksum`: at most `CHECKSUM_CAP` bytes; a missing file is empty. */
  function InstalledChecksum(env: Env, o: Options, fsLog: seq<FsEvent>): Option<seq<byte>> {
    if o.checksumPath.None? || o.checksumPath.value == [] then None else
    var disk := Replay(env.disk, fsLog);
    if o.checksumPath.value !in disk then Some([])
    else if !env.readOk(fsLog) then None
    else
      var all := disk[o.checksumPath.value];
      Some(if |all| <= CHECKSUM_CAP then all else all[..CHECKSUM_CAP])
  }

  // ---- manifest ----

  function HexNibble(ch: byte): Option<nat> {
    if 48 <= ch <= 57 then Some(ch - 48)
    else if 97 <= ch <= 102 then Some(10 + ch - 97)
    else if 65 <= ch <= 70 then Some(10 + ch - 65)
    else None
  }

  function HexValue(text: seq<byte>): Option<nat> {
    if text == [] then Some(0) else
    var high := HexValue(text[..|text| - 1]);
    var low := HexNibble(text[|text| - 1]);
    if high.None? || low.None? then None else Some(high.value * 16 + low.value)
  }

  /** `parse_crc32_hex`. */
  function ParseCrc(text: seq<byte>): Option<nat> {
    if |text| != 8 then None else HexValue(text)
  }

  /** `h2_bundle_manifest_find`: the first entry with this path. */
  function Find(entries: seq<ManifestEntry>, path: Path): (r: Option<nat>)
    ensures r.Some? ==> r.value < |entries| && entries[r.value].path == path
    ensures r.Some? ==> forall i :: 0 <= i < r.value ==> entries[i].path != path
    ensures r.None? ==> forall i :: 0 <= i < |entries| ==> entries[i].path != path
  {
    if entries == [] then None
    else if entries[0].path == path then Some(0)
    else
      var rest := Find(entries[1..], path);
      if rest.None? then None else Some(rest.value + 1)
  }

  predicate Matches(env: Env, m: ManifestEntry, size: nat, bytes: seq<byte>) {
    m.size == size && ParseCrc(m.checksumHex) == Some(env.crc32(bytes))
  }

  /** `verify_manifest_entry`. */
  function VerifyManifest(env: Env, o: Options, cur: Current, seen: set<nat>): (r: (Code, set<nat>)) {
    if o.manifest.None? then (Ok, seen) else
    var found := Find(o.manifest.value, cur.entry.path);
    if found.None? then (Manifest, seen)
    else if !Matches(env, o.manifest.value[found.value], cur.entry.size, cur.crcInput) then (Manifest, seen)
    else if found.value in seen then (Manifest, seen)
    else (Ok, seen + {found.value})
  }

  // ---- entries ----

  function SetPhase(s: Tar, phase: Phase): Tar { s.(pos := s.pos.(phase := phase)) }
  function SetOutput(s: Tar, output: Output): Tar { s.(cur := s.cur.(output := output)) }

  function AfterFile(s: Tar): Tar {
    SetPhase(s, if s.pos.padding > 0 then InPadding else InHeader)
  }

  /** `finish_checksum_entry`. */
  function FinishChecksum(env: Env, o: Options, s: Tar): (r: Step)
    ensures SameReading(s, r.tar)
  {
    if s.ota.checksumSeen || s.ota.checksum == [] then Step(Layout, s) else
    var t := s.(ota := s.ota.(checksumSeen := true));
    if o.skipData then Step(Ok, t.(ota := t.ota.(installNeeded := false))) else
    var installed := InstalledChecksum(env, o, t.fsLog);
    if installed.None? then Step(Fs, t)
    else Step(Ok, t.(ota := t.ota.(installNeeded := installed.value != t.ota.checksum)))
  }

  /** Extract the buffered pixa, or sync and close the output file. */
  function CompleteOutput(env: Env, s: Tar): (r: Step)
    ensures SameReading(s, r.tar)
  {
    if HasSuffix(s.cur.entry.path, PIXA_SUFFIX) then
      var (u, ok) := Call(env, s, ExtractPixa(s.cur.dstPath, s.cur.pixa, env.unpacked(s.fsLog)));
      Step(if ok then Ok else Pixa, u)
    else if s.cur.outFile.None? then Step(Ok, s)
    else
      var (u, ok) := Call(env, s, Sync(s.cur.outFile.value));
      if !ok then Step(Fs, u) else
      var (w, closed) := Call(env, u, Close(s.cur.outFile.value));
      Step(if closed then Ok else Fs, w.(cur := w.cur.(outFile := None)))
  }

  function Record(s: Tar): FileRec {
    var source := if s.past.entries == [] then Located(s.cur.entry, 0)
      else s.past.entries[|s.past.entries| - 1];
    FileRec(source, s.cur.entry.path, s.cur.crcInput, s.cur.dstPath,
            HasSuffix(s.cur.entry.path, PIXA_SUFFIX))
  }

  function FinishFs(env: Env, o: Options, s: Tar): (r: Step)
    ensures SameReading(s, r.tar)
  {
    var (code, seen) := VerifyManifest(env, o, s.cur, s.seen);
    if code != Ok then Step(code, Release(o, s)) else
    var r := CompleteOutput(env, s.(seen := seen));
    var kept := if r.code == Ok
      then r.tar.(past := r.tar.past.(files := r.tar.past.files + [Record(s)])) else r.tar;
    Step(r.code, AfterFile(kept.(cur := kept.cur.(pixa := []))))
  }

  function FinishApp(env: Env, o: Options, s: Tar): (r: Step)
    ensures SameReading(s, r.tar)
  {
    var (t, ok) := AppCall(env, s, End(s.cur.appEntry));
    var u := if !ok && o.hasAbort then t.(appLog := t.appLog + [AppEvent(Abort, true)]) else t;
    Step(if ok then Ok else Callback, AfterFile(u.(ota := u.ota.(writerActive := false))))
  }

  /** The NUL that ends a hashed entry. */
  function CloseHash(s: Tar): Tar {
    if s.cur.hashing
    then s.(digest := s.digest.(input := s.digest.input + [0]), cur := s.cur.(hashing := false))
    else s
  }

  /** `finish_file_entry`. */
  function FinishFile(env: Env, o: Options, s0: Tar): (r: Step)
    ensures SameReading(s0, r.tar)
  {
    var s := CloseHash(s0);
    match s.cur.output
    case ToChecksum => var r := FinishChecksum(env, o, s); Step(r.code, AfterFile(r.tar))
    case ToApp => FinishApp(env, o, s)
    case ToSkip => Step(Ok, AfterFile(s))
    case _ => FinishFs(env, o, s)
  }

  /** `ensure_data_cleared`. */
  function EnsureCleared(env: Env, o: Options, s: Tar): (r: Step)
    ensures SameReading(s, r.tar)
  {
    if s.ota.cleared || !s.ota.installNeeded then Step(Ok, s)
    else if !o.hasClear then Step(Ok, s.(ota := s.ota.(cleared := true)))
    else
      var (t, ok) := Call(env, s, ClearData(o.dstRoot, env.wiped(s.fsLog)));
      if ok then Step(Ok, t.(ota := t.ota.(cleared := true))) else Step(Callback, t)
  }

  /** The tail of `start_entry`: directories and files written below the root. */
  function StartFs(env: Env, o: Options, s: Tar, e: Entry, relative: Path): (r: Step)
    ensures SameReading(s, r.tar)
  {
    if !SafeRelative(relative) then Step(UnsafePath, s)
    else if |RootPrefix(o.dstRoot)| + |relative| + 1 > PATH_MAX then Step(NoSpace, s)
    else
      var dst := RootPrefix(o.dstRoot) + relative;
      var t := s.(cur := s.cur.(dstPath := dst));
      if e.kind == Dir then
        var (u, ok) := Call(env, t, MakeDirs(dst));
        if ok then Step(Ok, SetPhase(u, InHeader)) else Step(Fs, u)
      else
        StartOutput(env, o, SetOutput(t, ToFs), e)
  }

  function StartOutput(env: Env, o: Options, f: Tar, e: Entry): (r: Step)
    ensures SameReading(f, r.tar)
  {
    var (u, ok) := if Parent(f.cur.dstPath) == [] then (f, true)
      else Call(env, f, MakeDirs(Parent(f.cur.dstPath)));
    if !ok then Step(Fs, u)
    else if HasSuffix(e.path, PIXA_SUFFIX) then StartContents(env, o, u, e)
    else
      var (w, isOpen) := Call(env, u, OpenTruncate(u.cur.dstPath));
      if !isOpen then Step(Fs, w)
      else StartContents(env, o, w.(cur := w.cur.(outFile := Some(u.cur.dstPath))), e)
  }

  function StartContents(env: Env, o: Options, s: Tar, e: Entry): (r: Step)
    ensures SameReading(s, r.tar)
  {
    if e.size == 0 then FinishFile(env, o, s) else Step(Ok, SetPhase(s, InFile))
  }

  function StartApp(env: Env, o: Options, s: Tar, e: Entry): (r: Step)
    ensures SameReading(s, r.tar)
  {
    if !s.ota.checksumSeen then Step(Layout, s)
    else if e.kind == Dir then Step(Ok, SetPhase(SetOutput(s, ToSkip), InHeader))
    else if s.ota.appSeen then Step(Layout, s)
    else
      var t := s.(ota := s.ota.(appSeen := true));
      if o.skipApp then
        Step(Ok, SetPhase(SetOutput(t, ToSkip), if e.size == 0 then InHeader else InFile))
      else if !o.hasWriter then Step(Layout, t)
      else
        var (u, ok) := AppCall(env, SetOutput(t, ToApp), Begin(t.cur.appEntry));
        if !ok then Step(Callback, u)
        else StartContents(env, o, u.(ota := u.ota.(writerActive := true)), e)
  }

  function StartData(env: Env, o: Options, s: Tar, e: Entry): (r: Step)
    requires DATA_PREFIX <= e.path
    ensures SameReading(s, r.tar)
  {
    if !s.ota.checksumSeen then Step(Layout, s)
    else if !s.ota.installNeeded then
      Step(Ok, SetPhase(SetOutput(s, ToSkip), if e.size == 0 then InHeader else InFile))
    else
      var c := EnsureCleared(env, o, s);
      if c.code != Ok then c else
      var relative := e.path[|DATA_PREFIX|..];
      if relative == [] then
        if e.kind != Dir then Step(Layout, c.tar)
        else Step(Ok, SetPhase(SetOutput(c.tar, ToSkip), InHeader))
      else
        var t := c.tar.(cur := c.tar.cur.(entry := Entry(relative, e.size, e.kind)));
        StartFs(env, o, t, e, relative)
  }

  function StartOta(env: Env, o: Options, s: Tar, e: Entry): (r: Step)
    ensures SameReading(s, r.tar)
  {
    if e.path == MANIFEST then
      if s.ota.manifestSeen || s.ota.checksumSeen || e.kind != File || e.size == 0 then Step(Layout, s)
      else Step(Ok, SetPhase(SetOutput(s.(ota := s.ota.(manifestSeen := true)), ToSkip), InFile))
    else if e.path == CHECKSUM then
      if e.kind != File || e.size == 0 || e.size >= CHECKSUM_CAP then Step(Layout, s)
      else Step(Ok, SetPhase(SetOutput(s, ToChecksum), InFile))
    else if (e.path == DATA || e.path == APP) && e.kind == Dir then
      Step(Ok, SetPhase(SetOutput(s, ToSkip), InHeader))
    else if DATA_PREFIX <= e.path then StartData(env, o, s, e)
    else if APP_PREFIX <= e.path then StartApp(env, o, s, e)
    else Step(Layout, s)
  }

  /** The canonical data digest sees path, NUL, contents, NUL of each data file. */
  function StartDigest(s: Tar, e: Entry): (r: Step)
    ensures SameReading(s, r.tar)
  {
    if !Before(s.digest.lastPath, e.path) then Step(Layout, s)
    else
      var d := s.digest.(lastPath := e.path, input := s.digest.input + e.path + [0]);
      var t := s.(cur := s.cur.(hashing := true));
      if HasSuffix(e.path, PIXA_SUFFIX) then
        if e.size > UINT64_MAX - d.pixaBytes then Step(NoSpace, t.(digest := d))
        else Step(Ok, t.(digest := d.(pixaBytes := d.pixaBytes + e.size)))
      else
        if e.size > UINT64_MAX - d.dataBytes then Step(NoSpace, t.(digest := d))
        else Step(Ok, t.(digest := d.(dataBytes := d.dataBytes + e.size)))
  }

  function Opened(s: Tar, e: Entry): Tar {
    s.(pos := s.pos.(remaining := e.size, padding := Padding(e.size)),
       cur := Current(NoOutput, e, e, None, [], [], s.cur.dstPath, false),
       past := s.past.(entries := s.past.entries + [Located(e, |s.past.stream|)]))
  }

  /** `start_entry`. */
  function StartEntry(env: Env, o: Options, s0: Tar, e: Entry): Step {
    var s := Opened(s0, e);
    if o.digestMode && !(DATA_PREFIX <= e.path && e.kind == File) then Step(Layout, s) else
    var d := if o.digestMode then StartDigest(s, e) else Step(Ok, s);
    if d.code != Ok then d
    else if o.otaLayout then StartOta(env, o, d.tar, e)
    else StartFs(env, o, d.tar, e, e.path)
  }

  // ---- bytes ----

  function Consumed(s: Tar, bytes: seq<byte>): Tar {
    s.(past := s.past.(stream := s.past.stream + bytes))
  }

  /** `h2_bundle_tar_parse_header`: a directory that announces contents is refused. */
  function ParseHeader(env: Env, block: seq<byte>): HeaderResult {
    match env.parse(block)
    case Header(e) => if e.kind == Dir && e.size != 0 then Bad(BadTar) else Header(e)
    case other => other
  }

  /** A whole header block has arrived. */
  function HeaderBlock(env: Env, o: Options, s: Tar, block: seq<byte>): Step {
    match ParseHeader(env, block)
    case Bad(code) => Step(if code == Ok then BadTar else code, s)
    case ZeroBlock =>
      Step(Ok, s.(pos := s.pos.(zeroBlocks := s.pos.zeroBlocks + 1, done := s.pos.zeroBlocks + 1 >= 2)))
    case Header(e) => StartEntry(env, o, s.(pos := s.pos.(zeroBlocks := 0)), e)
  }

  function Writes(path: Path, bytes: seq<byte>): (w: seq<FsEvent>)
    ensures |w| == |bytes|
  {
    seq(|bytes|, i requires 0 <= i < |bytes| => FsEvent(WriteByte(path, bytes[i]), true))
  }

  function AppBytes(bytes: seq<byte>): (w: seq<AppEvent>)
    ensures |w| == |bytes|
  {
    seq(|bytes|, i requires 0 <= i < |bytes| => AppEvent(AppByte(bytes[i]), true))
  }

  /** Where the contents of the current entry go. */
  datatype Sink = ChecksumSink | AppSink | SkipSink | PixaSink | FileSink(path: Path) | NoSink

  function SinkOf(cur: Current): Sink {
    match cur.output
    case ToChecksum => ChecksumSink
    case ToApp => AppSink
    case ToSkip => SkipSink
    case _ =>
      if HasSuffix(cur.entry.path, PIXA_SUFFIX) then PixaSink
      else if cur.outFile.Some? then FileSink(cur.outFile.value) else NoSink
  }

  /** How many of these bytes the file system takes before it refuses one. */
  function FileTakes(env: Env, log: seq<FsEvent>, path: Path, bytes: seq<byte>): (k: nat)
    ensures k <= |bytes|
    decreases |bytes|
  {
    if bytes == [] || !env.fsOk(log, WriteByte(path, bytes[0])) then 0
    else 1 + FileTakes(env, log + [FsEvent(WriteByte(path, bytes[0]), true)], path, bytes[1..])
  }

  function AppTakes(env: Env, log: seq<AppEvent>, bytes: seq<byte>): (k: nat)
    ensures k <= |bytes|
    decreases |bytes|
  {
    if bytes == [] || !env.appOk(log, AppByte(bytes[0])) then 0
    else 1 + AppTakes(env, log + [AppEvent(AppByte(bytes[0]), true)], bytes[1..])
  }

  function Hash(s: Tar, bytes: seq<byte>): Digest {
    if s.cur.hashing then s.digest.(input := s.digest.input + bytes) else s.digest
  }

  /** Contents the sink accepts reach the digest, the sink of this entry and its CRC. */
  function Absorb(s: Tar, bytes: seq<byte>): Tar
    requires |bytes| <= s.pos.remaining
  {
    var sink := SinkOf(s.cur);
    s.(pos := s.pos.(remaining := s.pos.remaining - |bytes|),
       cur := s.cur.(crcInput := s.cur.crcInput + bytes,
                     pixa := if sink.PixaSink? then s.cur.pixa + bytes else s.cur.pixa),
       ota := if sink.ChecksumSink? then s.ota.(checksum := s.ota.checksum + bytes) else s.ota,
       digest := Hash(s, bytes),
       fsLog := if sink.FileSink? then s.fsLog + Writes(sink.path, bytes) else s.fsLog,
       appLog := if sink.AppSink? then s.appLog + AppBytes(bytes) else s.appLog,
       past := s.past.(stream := s.past.stream + bytes))
  }

  /** The code a sink reports for `bytes`. */
  function SinkCode(env: Env, s: Tar, bytes: seq<byte>): Code {
    match SinkOf(s.cur)
    case ChecksumSink => if |s.ota.checksum| + |bytes| >= CHECKSUM_CAP then Layout else Ok
    case AppSink => if AppTakes(env, s.appLog, bytes) < |bytes| then Callback else Ok
    case FileSink(p) => if FileTakes(env, s.fsLog, p, bytes) < |bytes| then Fs else Ok
    case NoSink => Fs
    case _ => Ok
  }

  /** After a refusal the digest has seen all of `bytes`; a file or the app writer
      has taken those before the refused one. */
  function Refuse(env: Env, s: Tar, bytes: seq<byte>): Tar {
    var t := s.(digest := Hash(s, bytes));
    match SinkOf(s.cur)
    case AppSink =>
      var k := AppTakes(env, s.appLog, bytes);
      if k == |bytes| then t
      else t.(appLog := s.appLog + AppBytes(bytes[..k]) + [AppEvent(AppByte(bytes[k]), false)])
    case FileSink(p) =>
      var k := FileTakes(env, s.fsLog, p, bytes);
      if k == |bytes| then t
      else t.(fsLog := s.fsLog + Writes(p, bytes[..k]) + [FsEvent(WriteByte(p, bytes[k]), false)])
    case _ => t
  }

  function FileByte(env: Env, o: Options, s: Tar, b: byte): Step {
    if s.pos.remaining == 0 then FinishFile(env, o, s)
    else if SinkCode(env, s, [b]) != Ok then Step(SinkCode(env, s, [b]), Refuse(env, s, [b]))
    else
      var t := Absorb(s, [b]);
      if t.pos.remaining == 0 then FinishFile(env, o, t) else Step(Ok, t)
  }

  function Padded(s: Tar, bytes: seq<byte>): Tar
    requires |bytes| <= s.pos.padding
  {
    var left := s.pos.padding - |bytes|;
    Consumed(s, bytes).(pos := s.pos.(padding := left, phase := if left == 0 then InHeader else InPadding))
  }

  function PaddingByte(o: Options, s: Tar, b: byte): Step {
    if o.digestMode && b != 0 then Step(BadTar, s)
    else if s.pos.padding == 0 then Step(Ok, SetPhase(s, InHeader))
    else Step(Ok, Padded(s, [b]))
  }

  function Headed(s: Tar, bytes: seq<byte>): Tar {
    Consumed(s, bytes).(pos := s.pos.(header := s.pos.header + bytes))
  }

  function HeaderByte(env: Env, o: Options, s: Tar, b: byte): Step {
    var t := Headed(s, [b]);
    if |t.pos.header| < BLOCK then Step(Ok, t)
    else HeaderBlock(env, o, t.(pos := t.pos.(header := [])), t.pos.header)
  }

  /** What the installer does with one byte of the archive. */
  function ByteStep(env: Env, o: Options, s: Tar, b: byte): Step {
    if s.pos.done then Step(if o.digestMode && b != 0 then BadTar else Ok, s)
    else
      var r := match s.pos.phase
        case InHeader => HeaderByte(env, o, s, b)
        case InFile => FileByte(env, o, s, b)
        case InPadding => PaddingByte(o, s, b);
      if r.code == Ok then r else Step(r.code, Release(o, r.tar))
  }

  /** The simple form: bytes one at a time, stopping at the first error. */
  function Fold(env: Env, o: Options, s: Tar, bytes: seq<byte>): Step
    decreases |bytes|
  {
    if bytes == [] then Step(Ok, s)
    else
      var r := ByteStep(env, o, s, bytes[0]);
      if r.code != Ok then r else Fold(env, o, r.tar, bytes[1..])
  }

  // ---- end of archive ----

  /** `bundle_fs_write_all` for the checksum file, one byte at a time. */
  function WriteAll(env: Env, s: Tar, path: Path, bytes: seq<byte>): (r: (Tar, bool))
    decreases |bytes|
  {
    if bytes == [] then (s, true)
    else
      var (t, ok) := Call(env, s, WriteByte(path, bytes[0]));
      if !ok then (t, false) else WriteAll(env, t, path, bytes[1..])
  }

  /** `bundle_fs_write_file`. */
  function WriteFile(env: Env, s: Tar, path: Path, bytes: seq<byte>): (r: (Tar, bool)) {
    var (t, isOpen) := Call(env, s, OpenTruncate(path));
    if !isOpen then (t, false) else
    var (u, written) := WriteAll(env, t, path, bytes);
    var (w, synced) := if written then Call(env, u, Sync(path)) else (u, false);
    var (x, closed) := Call(env, w, Close(path));
    (x, synced && closed)
  }

  function FinishOta(env: Env, o: Options, s: Tar): Step {
    if !s.ota.checksumSeen || !s.ota.appSeen || (!o.skipData && o.checksumPath.None?) then Step(Layout, s)
    else if o.skipData || !s.ota.installNeeded then Step(Ok, s)
    else
      var c := EnsureCleared(env, o, s);
      if c.code != Ok then c else
      var (t, ok) := WriteFile(env, c.tar, o.checksumPath.value, c.tar.ota.checksum);
      Step(if ok then Ok else Fs, t)
  }

  predicate AllSeen(o: Options, seen: set<nat>) {
    o.manifest.Some? ==> forall i :: 0 <= i < |o.manifest.value| ==> i in seen
  }

  /** `tar_state_finish`. */
  function Finish(env: Env, o: Options, s: Tar): Step {
    if s.cur.outFile.Some? || s.cur.pixa != [] then Step(BadTar, Release(o, s))
    else if s.pos.phase != InHeader || s.pos.header != [] then Step(BadTar, s)
    else if s.pos.zeroBlocks == 0 || (o.digestMode && s.pos.zeroBlocks < 2) then Step(BadTar, s)
    else
      var c := if o.otaLayout then FinishOta(env, o, s) else Step(Ok, s);
      if c.code == Ok && !AllSeen(o, c.tar.seen) then Step(Manifest, c.tar) else c
  }
}
