# GizOS core protocols in Dafny

A model of the parts of GizOS where state, concurrency or a byte transformation carries a
property over every run, with proofs of those properties. `dafny verify dfyconfig.toml` checks the
whole project.

**BLE Wi-Fi provisioning** (`WifiService`, `WifiObject`, `WifiRuns`, `WifiLedger`, `WifiLink`,
`WifiActive`). A worker task, Host callbacks, GATT writes and the callers of the advertising functions
share one mutex that is dropped around Host calls. `WifiService` says what each critical section does
to the service, `WifiObject` does in place what the sections over the two circular queues do, and
`WifiRuns` interleaves all sections with an adversarial Host. Over all runs: a notification in flight
goes to the handle whose write asked for it, in the generation of that write, and the connection is
frozen meanwhile; deferred transitions take effect in arrival order; Host advertising starts and stops
alternate. `WifiLedger` keeps books on every request from acceptance to the worker, `WifiLink` ties the
connection to the Host's history and drives advertising to its end, and `WifiActive` says exactly when
the advertising flag can be trusted.

**Bundle installer** (`BundleTar`, `BundleFeed`, `BundlePaths`, `BundleGrammar`, `BundleTurn`,
`BundleManifest`, `BundleOta`, `BundlePlain`, `BundleAdmit`, `BundleInstalled`, `BundleHandles`,
`BundleWriter`, `BundleClear`, `BundleData`, `BundleVerified`, `BundleReach`, `BundleCrash`, `BundleVouch`). The
chunk-fed tar state machine (ustar interchange format, pax utility of IEEE Std 1003.1) as a fold over
single bytes with file-system, app-writer and digest traffic in logs; every call, down to each byte
written, may fail. `BundleFeed` proves the chunk-fed parser equal to the fold, `BundleGrammar` proves
that a run reads exactly the entries a reader of the whole archive finds, and `BundleTurn` that a run
takes whole entries, so the other modules speak of the archive's bytes. For each of the three layouts
there is a theorem that says exactly which archives are accepted (`PlainAccepted`, `OtaAccepted`,
`DataAccepted`) and one that says what they leave on disk. Files are closed whatever fails
(`BundleHandles`); the app writer is left open exactly by an archive that ends inside the app
(`BundleWriter`), which `WriterForgotten` exhibits. Crash consistency of format-2 data installs holds
for every data root and checksum path, the default `/data` and `/data/.checksum` included, as long as
no archive entry names the checksum file. `CrashExact` says of every run exactly when it holds;
`CrashIffUnnamed` and `DefaultCrashIff` say it of the archive, in the default configuration exactly
when there is no file `data/.checksum` in it, which rests on `BundleReach`: an orderly archive is taken
up to any of its entries. `CrashCounterexample` gives a failing archive for every path an archive can
write.

**BLE-KCP byte stream** (`KcpStream`, `KcpObject`, `KcpRuns`, `KcpProgress`, `KcpEnding`,
`KcpRegistry`, `KcpServer`). Byte rings, a bounded datagram queue and a worker over KCP, taken as a
channel in which messages arrive and are acknowledged in any order and are received in the order sent.
Two ends run against each other over a network that loses, repeats and reorders datagrams: what is
read is a prefix of what was written, every drain goes as far as it can, what has arrived gets read,
and an end is final for everybody. The allocator registry is a linked list checked against a ledger of
live blocks; the server runs one session after another and gives every ready peer one.

**Audio mixer** (`Mixer`, `MixerRuns`, `MixerProgress`, `MixerDrain`). Track slots under one mutex with
any number of threads, the mixer's read among them, failing waits, broadcasts and queue closes; and the
drain marker protocol.

**Lua compactor** (`LuaLexer`, `LuaCompact`, `LuaPlace`, `LuaGrammar`, `LuaSource`). `compact_source`
keeps every literal and byte of a program, its line number and where it touches the one before it.
`LuaGrammar` states this on the bytes alone, with comments, strings and gaps as section 3.1 of the Lua
Reference Manual describes them and no reference to the scanner.

**OpenAPI reference walker** (`ReferenceWalker`), **BK7258 images** (`FlashCipher`, `FlashImage`,
`FlashMath`, `FlashRecovery`, `FlashApp`, `FlashAccept`) with AES as any keyed permutation, and the
**UTF-8 check** of network names (`Utf8`, section 4 of RFC 3629).

`Bytes`, `Optional` and `Rings` are shared: octet sequences, values that may be missing, and circular
buffers in arrays.

## Model

| member | source | states |
|---|---|---|
| WifiService.Apply | libs/ble_wifi_config/src/h2_ble_wifi_config_service.c:776-860 | a transition changes the connection as its own fold step says and leaves the deferred queue, the sending and closing flags and the advertising window alone |
| WifiService.Drain | libs/ble_wifi_config/src/h2_ble_wifi_config_service.c:871-898 | afterwards nothing is deferred, and after an overflow there is no connection |
| WifiObject.Provisioner.PostEvent | libs/ble_wifi_config/src/h2_ble_wifi_config_service.c:117-132 | the circular event queue keeps the newest eight events in order |
| WifiObject.Provisioner.ApplyTransition | libs/ble_wifi_config/src/h2_ble_wifi_config_service.c:776-860 | updates connection, requests, advertising and events in place exactly as the specification of one transition |
| WifiObject.Provisioner.DrainTransitions | libs/ble_wifi_config/src/h2_ble_wifi_config_service.c:871-898 | the loop over the circular queue applies all deferred transitions oldest first, or the loss of the connection after an overflow |
| WifiObject.Provisioner.DeferTransition | libs/ble_wifi_config/src/h2_ble_wifi_config_service.c:901-912 | appends to the circular queue, or records the overflow when it is full |
| WifiObject.Provisioner.ReceiveEvent | libs/ble_wifi_config/src/h2_ble_wifi_config_service.c:979-990 | defers while a send is in flight, otherwise drains and applies |
| WifiObject.Provisioner.WriteCommand | libs/ble_wifi_config/src/h2_ble_wifi_config_service.c:652-700 | malformed, stale, stop, unsubscribed, repeated and fresh scan commands with their replies |
| WifiObject.Provisioner.RejectProvisionWrite | libs/ble_wifi_config/src/h2_ble_wifi_config_service.c:710-726 | the failure result is owed to the writing handle under the current generation |
| WifiObject.Provisioner.TakeWork | libs/ble_wifi_config/src/h2_ble_wifi_config_service.c:582-641 | one worker turn takes events, restore, reject, credentials and scan in that order of priority; what it takes is no longer waiting and runs under the peer that wrote it, everything else still waits, and with something waiting on an open service it takes something |
| WifiObject.Provisioner.EndNotify | libs/ble_wifi_config/src/h2_ble_wifi_config_service.c:206-221 | clears the send, drains, and reports whether the peer is still the same |
| WifiObject.Provisioner.FailAdvertising | libs/ble_wifi_config/src/h2_ble_wifi_config_service.c:223-233 | the failure is the newest event of the circular queue, and nothing that is left can start advertising again |
| WifiRuns.NotifyReachesItsPeer | libs/ble_wifi_config/src/h2_ble_wifi_config_service.c:169-221 | in every reachable state a notify in flight goes to the handle whose write asked for it, in the generation current when that write came |
| WifiRuns.FrozenWhileSending | libs/ble_wifi_config/src/h2_ble_wifi_config_service.c:186-210 | between any two states of a run with a send in flight throughout, the connection and the work item are the same |
| WifiRuns.TransitionsLinearize | libs/ble_wifi_config/src/h2_ble_wifi_config_service.c:776-990 | with no send in flight nothing is deferred and, unless a transition was dropped, the connection is the fold of all received transitions; with one in flight it is the fold of a prefix and the queue is the rest |
| WifiRuns.OverflowLosesConnection | libs/ble_wifi_config/src/h2_ble_wifi_config_service.c:871-888 | once an overflowed queue drains there is no connection, no scan request and no pending credentials |
| WifiRuns.HostCallsAlternate | libs/ble_wifi_config/src/h2_ble_wifi_config_service.c:223-330 | no successful start follows another without a successful stop; with adv_mutex free the reset flag says whether the last success was a start; after a successful stop or a latched failure no start is called before a new window is opened |
| WifiRuns.RunKeepsPeer | libs/ble_wifi_config/src/h2_ble_wifi_config_service.c:582-762 | every pending or running request carries the handle and the generation of the write that made it |
| WifiRuns.RunKeepsWindow | libs/ble_wifi_config/src/h2_ble_wifi_config_service.c:1210-1289 | the advertising invariant for every position of the holder of adv_mutex |
| WifiLedger.NoRequestIsLost | libs/ble_wifi_config/src/h2_ble_wifi_config_service.c:582-762 | in every run every accepted rejection, provisioning or scan request was taken up, merged into a waiting one or cancelled, or is the one still waiting; none is lost or served twice |
| WifiLedger.AcceptedExactly | libs/ble_wifi_config/src/h2_ble_wifi_config_service.c:652-762 | credentials and scan commands are accepted exactly from the connected peer of an open service, credentials only while none wait or run, a scan only from a subscriber |
| WifiLedger.TurnTakesUp | libs/ble_wifi_config/src/h2_ble_wifi_config_service.c:582-641 | an idle worker with no event and no restart due takes up the next request, for the peer whose write was accepted |
| WifiLedger.RequestIsServed | libs/ble_wifi_config/src/h2_ble_wifi_config_service.c:582-641 | however many events wait, that many turns and one more bring the next request to the worker |
| WifiLedger.SendReachesHost | libs/ble_wifi_config/src/h2_ble_wifi_config_service.c:169-205 | a work item's frame goes to the Host exactly when the peer whose write was accepted is still connected and subscribed and the channel has an attribute |
| WifiLedger.StopReachesScan | libs/ble_wifi_config/src/h2_ble_wifi_config_service.c:652-700 | whatever takes a scan back marks a running one to stop, and the mark stays until the worker is done |
| WifiLedger.BusyExactly | libs/ble_wifi_config/src/h2_ble_wifi_config_service.c:582-641 | in every run the running flags are set exactly while the worker is on credentials, or on a scan |
| WifiLedger.ClosedTakesNothing | libs/ble_wifi_config/src/h2_ble_wifi_config_service.c:1156-1208 | whatever happens after close, no write is accepted and no work taken |
| WifiLink.ConnectionIsHistory | libs/ble_wifi_config/src/h2_ble_wifi_config_service.c:776-990 | in every run without a dropped event and outside a notify there is a connection exactly when a peer connected that has not left, with its latest MTU and subscriptions, and the generation counts the peers |
| WifiLink.DropLosesConnection | libs/ble_wifi_config/src/h2_ble_wifi_config_service.c:871-912 | an event that finds the deferred queue full costs the connection when the send is over |
| WifiLink.PeerIsReported | libs/ble_wifi_config/src/h2_ble_wifi_config_service.c:776-860 | a peer that comes or goes, or an MTU that is too small, is the newest event |
| WifiLink.LossAsksForRestore | libs/ble_wifi_config/src/h2_ble_wifi_config_service.c:776-860 | losing the peer of an open, healthy window makes the next idle turn restore advertising |
| WifiLink.RestoreStartsHost | libs/ble_wifi_config/src/h2_ble_wifi_config_service.c:235-300 | a restore of an idle window stops the Host if it must, starts it once and leaves it advertising |
| WifiLink.OpenStartsHost | libs/ble_wifi_config/src/h2_ble_wifi_config_service.c:1210-1262 | opening a window that may open, with a Host that obeys, leaves it advertising |
| WifiLink.PauseStopsHost | libs/ble_wifi_config/src/h2_ble_wifi_config_service.c:301-322 | pausing a window that is not to be kept stops the Host and keeps the window |
| WifiLink.StopStopsHost | libs/ble_wifi_config/src/h2_ble_wifi_config_service.c:1264-1289 | stopping closes the window and stops the Host if it may be advertising |
| WifiLink.BeaconIsFollowed | libs/ble_wifi_config/src/h2_ble_wifi_config_service.c:923-990 | the flag follows the Host's own reports, unless the window is shut or a peer holds it |
| WifiActive.NeverActiveWithPeer | libs/ble_wifi_config/src/h2_ble_wifi_config_service.c:776-860 | in every run a restart is due only without a peer; a connectable window with a peer never counts as advertising if and only if none is opened over a peer while the flag still stands |
| WifiActive.StaleFlag | libs/ble_wifi_config/src/h2_ble_wifi_config_service.c:1210-1262 | a run in which it does: the Host reports advertising during a start it then fails, a peer connects and the next window opens |
| WifiActive.RestoreLeavesActive | libs/ble_wifi_config/src/h2_ble_wifi_config_service.c:260-300 | a window that is already advertising is left alone by a restore |
| WifiActive.LateReportWins | libs/ble_wifi_config/src/h2_ble_wifi_config_service.c:246-258 | a report that comes between the Host's return from a start and the service's taking note of it is the one that counts |
| BundleFeed.FoldConcat | libs/bundle/src/h2_bundle_archive.c:831-860 | feeding two byte strings in turn is feeding their concatenation, result code and all effects included |
| BundleFeed.FoldKeepsWellFormed | libs/bundle/src/h2_bundle_archive.c:719-860 | accepted bytes never leave the well-formed parser states |
| BundleFeed.TarFeeder.ConsumeHeaderBytes | libs/bundle/src/h2_bundle_archive.c:719-752 | consumes at least one byte and has the effect of its bytes one at a time |
| BundleFeed.TarFeeder.ConsumeFileBytes | libs/bundle/src/h2_bundle_archive.c:754-809 | consumes at least one byte and has the effect of its bytes one at a time; a write or app write refused midway leaves the same calls behind |
| BundleFeed.TarFeeder.ConsumePaddingBytes | libs/bundle/src/h2_bundle_archive.c:811-829 | consumes at least one byte and has the effect of its bytes one at a time |
| BundleFeed.TarFeeder.Feed | libs/bundle/src/h2_bundle_archive.c:831-860 | a chunk gives what its bytes give one at a time, failing writes included: code, parser state, files, CRC and digest input, file-system and app-writer calls |
| BundleFeed.TarFeeder.FeedAll | libs/bundle/src/h2_bundle_archive.c:831-860 | any chunking of a stream has the outcome of the stream, up to the byte a write fails at |
| BundleFeed.InstallStream | libs/bundle/src/h2_bundle_archive.c:983-1081 | an install depends only on the inflated bytes, not on the chunks; which bytes are accepted is said by BundlePlain.PlainAccepted and BundleAdmit.OtaAccepted |
| BundlePaths.SafeExactly | libs/bundle/src/h2_bundle_path.c:7-41 | a path is safe exactly when it is components joined by slashes, none of them empty, `.` or `..` or with a colon or backslash |
| BundlePaths.BeforeExactly | libs/bundle/src/h2_bundle_archive.c:457-479 | one name comes before another exactly when it is a proper prefix or smaller at the first byte that differs |
| BundlePaths.OneFirst | libs/bundle/src/h2_bundle_archive.c:457-479 | of two different names exactly one comes first |
| BundlePaths.CrcExactly | libs/bundle/src/h2_bundle_manifest.c:104-155 | a checksum is read exactly if it is the eight hexadecimal digits, in either case, of a number below 2^32 |
| BundlePaths.PaddingFills | libs/bundle/src/h2_bundle_tar.c:149-153 | padding is the least that fills the last block |
| BundlePaths.ParentExactly | libs/bundle/src/h2_bundle_path.c:72-95 | the parent of a path is everything before its last slash, and nothing without one |
| BundleGrammar.FoldReadsArchive | libs/bundle/src/h2_bundle_archive.c:719-860 | every run, rejected ones too, has read a beginning of the archive and of its list of entries; an accepted run has read exactly the entries that header blocks, sizes, padding and two zero blocks lay out, so no header is skipped or made up |
| BundleTurn.GoodIsTaken | libs/bundle/src/h2_bundle_archive.c:719-903 | a stream is taken to its end exactly when the archive in it is laid out to its end and every entry is taken whole, and it then leaves the state the entries leave |
| BundleTurn.BadHeaderIsReported | libs/bundle/src/h2_bundle_archive.c:719-752 | after whatever was taken, a header that does not parse decides the install with the parser's error, whatever follows |
| BundlePlain.PlainAccepted | libs/bundle/src/h2_bundle_archive.c:412-618 | on a file system that refuses nothing a plain archive is accepted exactly when it is laid out to its end, every name is safe and short enough and its files are in bijection with the manifest, if there is one |
| BundlePlain.PlainInstalls | libs/bundle/src/h2_bundle_archive.c:580-717 | after an accepted plain archive, on any file system, every file that no later entry goes over is on disk byte for byte, and what no entry goes over is as it was |
| BundleHandles.FilesClosed | libs/bundle/src/h2_bundle_archive.c:580-903 | in an install of any archive with any failures only the open file is written, synced and closed, and at the end no file is open and nothing buffered; the install succeeds only if every call did, with every file synced right before its close |
| BundleHandles.DataFilesClosed | libs/bundle/src/h2_bundle_archive.c:911-962 | the same of format-2 installs, from the removal of the old checksum on |
| BundleWriter.WriterLeftOpen | libs/bundle/src/h2_bundle_archive.c:346-366 | with a writer that can be aborted, every install calls it in order, and leaves it open if and only if the bytes were taken to their end and that lies inside the app; every other failure aborts it |
| BundleWriter.WriterForgotten | libs/bundle/src/h2_bundle_archive.c:862-872 | such an archive: a checksum entry and the header of an app whose byte is missing |
| BundleManifest.InstalledMatchesManifest | libs/bundle/src/h2_bundle_archive.c:412-439 | a successful plain install means the files laid out in the archive bytes and the manifest lines are in bijection by path, with matching sizes and the CRCs of those bytes |
| BundleManifest.BijectionFromTally | libs/bundle/src/h2_bundle_archive.c:895-903 | verifying every file once and seeing every manifest line makes the two sides correspond |
| BundleOta.AcceptedOta | libs/bundle/src/h2_bundle_archive.c:441-578 | accepted OTA archives, read as bytes: at most one manifest before the one checksum of 1 to 127 bytes, data and app entries only after it, one app file whose bytes reach the writer in order; a checksum equal to the bytes in the checksum file means no file-system call, any other is what that file holds in the end |
| BundleOta.QuietUnlessOutdated | libs/bundle/src/h2_bundle_archive.c:183-261 | accepted or rejected, an archive causes a file-system call only if its first checksum entry is complete and the checksum file on disk is missing or holds other bytes |
| BundleAdmit.OtaAccepted | libs/bundle/src/h2_bundle_archive.c:441-903 | when neither file system nor writer refuses a call, an OTA archive is accepted exactly when it is laid out to its end, its entries come in the order of the layout with known names, there is a writer and a readable place for the checksum unless they are skipped, and, if the checksum on disk is another, every data entry has a place below the root |
| BundleClear.OtaClearsFirst | libs/bundle/src/h2_bundle_archive.c:246-261 | whatever the archive and whatever fails, an OTA with a clear callback clears its data root as its first call of all and never again, and no other install clears anything |
| BundleInstalled.OtaInstallsData | libs/bundle/src/h2_bundle_archive.c:505-618 | after an accepted OTA whose checksum was not yet installed, every data file of the archive that no later entry and not the checksum goes over lies on disk byte for byte, whatever the clear and the extractions did |
| BundleOta.StartKeepsOrder | libs/bundle/src/h2_bundle_archive.c:441-618 | admitting an entry keeps the order of manifest, checksum, data and app entries |
| BundleData.InstallDataStream | libs/bundle/src/h2_bundle_archive.c:911-962 | a format-2 install depends only on the inflated bytes; which bytes are accepted is said by BundleVerified.DataAccepted |
| BundleVerified.DataAccepted | libs/bundle/src/h2_bundle_archive.c:911-962 | when the file system refuses no call, a stream is installed exactly when the manifest's hash has its length, hashing and inflating go through, the archive is laid out to its end with zeros behind every entry and behind the end, its entries are data files with safe names in strictly ascending order, and hash and totals are the ones announced |
| BundleCrash.CrashConsistent | libs/bundle/src/h2_bundle_archive.c:911-962 | for every root and checksum path, if no entry of the archive names the checksum file, then after any number of file-system calls that file is unchanged with data untouched, absent, or a prefix of the new one after everything was received, hashed and counted |
| BundleCrash.CrashExact | libs/bundle/src/h2_bundle_archive.c:911-962 | every crash point of a run is consistent if and only if no call made for the archive's entries leaves a checksum file behind |
| BundleCrash.CrashIffUnnamed | libs/bundle/src/h2_bundle_archive.c:441-618 | every crash point is consistent if and only if no entry of the archive names the checksum file, for a file system that refuses nothing and an archive that is orderly up to the first such entry, or for any stream the parser takes; that entry is to be no pixa archive |
| BundleCrash.DefaultCrashIff | libs/bundle/src/h2_bundle_archive.c:939-961 | with the checksum in `.checksum` below the root an install is crash consistent if and only if the archive holds no file `data/.checksum`, for a file system that refuses nothing and an archive that is orderly up to that file, or for any stream the parser takes |
| BundleReach.FoldTaken | libs/bundle/src/h2_bundle_archive.c:441-829 | on a file system that refuses nothing, an archive of safe, short enough, strictly sorted data files with countable totals and zero padding is taken up to and including the header of any of its entries |
| BundleReach.ReachedIsOpened | libs/bundle/src/h2_bundle_archive.c:580-612 | such an entry, whatever follows it, has its file opened for writing |
| BundleCrash.HiddenChecksum | projects/h2loader/libs/h2loader/include/h2_loader_package.h:19-20 | with `.checksum` directly below the data root, as in the default configuration, the one path that names it is `data/.checksum` |
| BundleData.ClearedOnceFirst | libs/bundle/src/h2_bundle_archive.c:246-261 | in every run data is cleared at most once, before any data write, and exactly once on success |
| BundleVouch.CommitVouches | libs/bundle/src/h2_bundle_archive.c:862-894 | after a successful install the checksum on disk is the hash of the strictly sorted files of the archive, which are all its entries, add up to both totals and, but for pixa archives and the checksum file itself, lie on disk as carried, whatever clears and extractions did |
| BundleVouch.CrashVouches | libs/bundle/src/h2_bundle_archive.c:862-962 | if no entry of the archive names the checksum file, then wherever a run stops a complete new checksum on disk means that the disk is as it was before or that the checksum vouches for the files on disk at that point |
| BundleVouch.CrashCounterexample | libs/bundle/src/h2_bundle_archive.c:457-479 | for every checksum path an archive can write, one header block naming it followed by the bytes of a checksum leaves a complete checksum for unverified data |
| Rings.Ring.Write | libs/bleikcp/src/h2_bleikcp.c:217-225 | two block copies append the bytes to the ring's contents |
| Rings.Ring.Read | libs/bleikcp/src/h2_bleikcp.c:227-235 | two block copies take the oldest bytes off the ring's contents |
| KcpObject.Stream.FeedKcp | libs/bleikcp/src/h2_bleikcp.c:312-330 | the loop feeds queued datagrams in order until none is left or one is bad, which stays queued |
| KcpObject.Stream.FillKcp | libs/bleikcp/src/h2_bleikcp.c:332-348 | the loop cuts the ring into messages until it is empty, the send window is full or KCP refuses one, and records the outstanding count |
| KcpObject.Stream.TakeFromKcp | libs/bleikcp/src/h2_bleikcp.c:350-367 | the loop moves whole messages into the receive ring until the next one has not arrived or does not fit, or is too long |
| KcpObject.Stream.TurnBegin | libs/bleikcp/src/h2_bleikcp.c:387-392 | the locked half of a worker turn before the update: an open, healthy end is left with no queued datagram and nothing unsent that the window has room for |
| KcpObject.Stream.TurnEnd | libs/bleikcp/src/h2_bleikcp.c:398-420 | the locked half of a worker turn after the update: no arrived message that fits is left behind, and a fatal status closes and stops |
| KcpObject.Stream.Accept | libs/bleikcp/src/h2_bleikcp.c:626-657 | a datagram is queued in order, or dropped when closing or full |
| KcpObject.Stream.TryWrite | libs/bleikcp/src/h2_bleikcp.c:710-738 | write appends all of its bytes, blocks, or fails without effect |
| KcpObject.Stream.TryRead | libs/bleikcp/src/h2_bleikcp.c:680-708 | read takes the oldest bytes, also after closing, and fails only on an empty ring |
| KcpObject.Stream.TryFlush | libs/bleikcp/src/h2_bleikcp.c:740-759 | flush succeeds exactly on a healthy stream with nothing unsent or unacknowledged, and waits exactly while something is and the stream is open |
| KcpObject.Stream.Shut | libs/bleikcp/src/h2_bleikcp.c:571-591 | the first reason to close stays, no byte is lost by closing, and no flush waits on a closed stream |
| KcpRuns.StreamDelivers | libs/bleikcp/src/h2_bleikcp.c:332-437 | in every run of two ends: without a fatal status written bytes are the messages sent followed by the ring, outstanding messages stay within the send window, and bytes read are a prefix of bytes written at the peer |
| KcpRuns.FlushMeansAcknowledged | libs/bleikcp/src/h2_bleikcp.c:740-759 | flush returning OK means every accepted byte was sent, has arrived and is acknowledged |
| KcpRuns.FlushReturnsWhenAcknowledged | libs/bleikcp/src/h2_bleikcp.c:740-759 | with an empty ring, everything acknowledged and no fatal status flush returns OK |
| KcpRuns.DrainTxKeeps | libs/bleikcp/src/h2_bleikcp.c:332-348 | filling KCP conserves the written bytes and respects the send window |
| KcpRuns.DrainRxKeeps | libs/bleikcp/src/h2_bleikcp.c:350-367 | emptying KCP conserves the received bytes and the ring's capacity |
| KcpProgress.DrainRxMaximal | libs/bleikcp/src/h2_bleikcp.c:350-367 | drain_rx moves whole messages in order until the next one is missing or does not fit, and fails only on one longer than the MTU |
| KcpProgress.DrainInputMaximal | libs/bleikcp/src/h2_bleikcp.c:312-330 | drain_input feeds every datagram before the first bad one, which stays queued; KCP then knows exactly what they carried and acknowledged |
| KcpProgress.DrainTxMaximal | libs/bleikcp/src/h2_bleikcp.c:332-348 | drain_tx hands over messages of at most the segment size until the ring is empty or the window full, or KCP refuses one |
| KcpProgress.PollLeavesNothing | libs/bleikcp/src/h2_bleikcp.c:387-392 | in every run, after the first half of a turn no datagram waits, all they said is known and nothing is held back that could be sent, unless the end has failed |
| KcpProgress.CollectLeavesNothing | libs/bleikcp/src/h2_bleikcp.c:398-420 | in every run, after the second half of a turn of a healthy end the next message has not arrived or is longer than the free ring |
| KcpProgress.ArrivedIsRead | libs/bleikcp/src/h2_bleikcp.c:350-437 | when everything written has arrived and fits, one half turn and one read give the reader all of it |
| KcpEnding.EndIsFinal | libs/bleikcp/src/h2_bleikcp.c:571-591 | whatever happens after a stream has ended, its reason, its unsent bytes and what it has left to read stay as they were |
| KcpEnding.NobodyWaits | libs/bleikcp/src/h2_bleikcp.c:680-759 | on an ended stream every call returns: arrived bytes can be read, a flush of acknowledged bytes succeeds unless something failed, all else gets the reason |
| KcpEnding.FailureEnds | libs/bleikcp/src/h2_bleikcp.c:398-420 | in every run the second half of a turn that found a failure ends the stream with it |
| KcpEnding.CloseEnds | libs/bleikcp/src/h2_bleikcp.c:571-591 | closing an idle open stream ends it, for the reason given if that is an error |
| KcpRegistry.Registry.Alloc | libs/bleikcp/src/h2_bleikcp.c:46-58 | a block from a PAL allocator is linked with that allocator; a libc or failed allocation is not |
| KcpRegistry.Registry.Free | libs/bleikcp/src/h2_bleikcp.c:60-76 | the walk unlinks exactly the block of that address and releases it to its own allocator, or to libc |
| KcpRegistry.Registry.Init | libs/bleikcp/src/h2_bleikcp.c:78-88 | counts references and refuses to overflow |
| KcpRegistry.Registry.Shutdown | libs/bleikcp/src/h2_bleikcp.c:90-101 | only the last shutdown needs an empty registry |
| KcpRegistry.RegistryIsLedger | libs/bleikcp/src/h2_bleikcp.c:46-101 | after every history the list holds exactly the live blocks with the allocators they came from, and every free went where an independent ledger says |
| KcpRegistry.LastShutdown | libs/bleikcp/src/h2_bleikcp.c:90-101 | the last shutdown succeeds exactly when no PAL block is live |
| KcpServer.OneSession | libs/bleikcp/src/h2_bleikcp_server.c:37-241 | in every reachable state at most one stream exists, a pending dispatch means a connected, subscribed, idle, open server, one with a large enough MTU has its dispatch pending, and callbacks and close reach only existing streams |
| KcpServer.HandledConnectionIsFrozen | libs/bleikcp/src/h2_bleikcp_server.c:145-241 | between any two states of a run inside one session the connection handle is the same and valid |
| KcpServer.SessionIsReached | libs/bleikcp/src/h2_bleikcp_server.c:52-143 | while a handler runs, its peer's datagrams, its leaving or unsubscribing, and close reach its stream, and no other peer does |
| KcpServer.ReadyIsTaken | libs/bleikcp/src/h2_bleikcp_server.c:145-182 | the dispatch task takes up a ready peer within two turns of its loop |
| KcpServer.ReadyIsServed | libs/bleikcp/src/h2_bleikcp_server.c:145-205 | and if its stream comes up while the peer is there, the handler runs on it |
| KcpServer.SessionEnds | libs/bleikcp/src/h2_bleikcp_server.c:206-241 | a session that ends and joins leaves the server waiting for any central, with no stream |
| KcpServer.ServerObject.ReceiveConnected | libs/bleikcp/src/h2_bleikcp_server.c:52-66 | a second central changes nothing, a first one starts no session by connecting, and a session waits only on a connected, subscribed, idle, open server |
| KcpServer.ServerObject.ReceiveMtu | libs/bleikcp/src/h2_bleikcp_server.c:67-75 | another peer's MTU changes nothing; this peer's lets a session wait only once it has subscribed and the MTU is large enough, and never calls one off |
| KcpServer.ServerObject.ReceiveSubscription | libs/bleikcp/src/h2_bleikcp_server.c:76-100 | a session comes to wait only for this connection, subscribed and with a large enough MTU, while none is handled; unsubscribing calls it off and names the stream to close |
| KcpServer.ServerObject.ReceiveDisconnected | libs/bleikcp/src/h2_bleikcp_server.c:102-121 | no session waits afterwards, and the handle is given up exactly when no session holds it |
| KcpServer.ServerObject.TakeSession | libs/bleikcp/src/h2_bleikcp_server.c:145-182 | a session starts only from a waiting one, on a valid subscribed connection, and makes the server busy |
| KcpServer.ServerObject.PublishStream | libs/bleikcp/src/h2_bleikcp_server.c:195-205 | callbacks find the stream from now on, and the handler runs exactly while the connection is still the one of the session |
| KcpServer.ServerObject.SettleSession | libs/bleikcp/src/h2_bleikcp_server.c:222-238 | after a joined session the server is as when it opened but for closing and unreported events; after a failed join the stream stays and no session can start |
| Mixer.Enter | libs/audio_mixer/src/h2_audio_mixer.c:282-340 | at most one closer owns a track; an available slot is left alone and a repeated close succeeds on it |
| Mixer.Finish | libs/audio_mixer/src/h2_audio_mixer.c:341-369 | the queues go only with no operation in flight, and a successful close leaves the slot available |
| Mixer.SlotTable.BeginOperation | libs/audio_mixer/src/h2_audio_mixer.c:55-77 | an operation starts exactly on an open track, whose queues are there; the invariant of all slots is kept |
| Mixer.SlotTable.EndOperation | libs/audio_mixer/src/h2_audio_mixer.c:79-98 | undoes the begin and nothing else, unless it ended the last operation of a closing track whose closer could not be woken |
| Mixer.SlotTable.EnterClose | libs/audio_mixer/src/h2_audio_mixer.c:289-340 | queues and operations stay whatever the outcome, one closer at most owns the track, no operation can begin after it, and exactly the available slots refuse it unchanged |
| Mixer.SlotTable.FinishClose | libs/audio_mixer/src/h2_audio_mixer.c:341-369 | the queues go only with no operation in flight, the slot is available exactly after success, and any other end leaves it for a later close |
| Mixer.SlotTable.MixTracks | libs/audio_mixer/src/h2_audio_mixer.c:602-699 | the mixer's loop reads every open track up to the failing one, finds a queue in each and gives up none |
| Mixer.SlotTable.TakeSlot | libs/audio_mixer/src/h2_audio_mixer.c:519-600 | takes the first slot that is neither active nor closing, and none during close_all; a track that was made is open with both queues and takes operations, one that was not leaves the slot free |
| MixerRuns.OperationsKeepTheirQueues | libs/audio_mixer/src/h2_audio_mixer.c:55-369 | in every run of write, drain, close, create, read and close_all a thread inside write or drain still has its queues in a slot not taken again, no queues are destroyed twice, and one thread at most owns a close |
| MixerRuns.QueuesGoWhenQuiet | libs/audio_mixer/src/h2_audio_mixer.c:173-196 | the step that destroys queues or takes a slot again finds no operation in flight on it |
| MixerRuns.ReadGivesUpNothing | libs/audio_mixer/src/h2_audio_mixer.c:602-610 | in every state that satisfies the invariant of the runs the mixer's read deactivates no track |
| MixerRuns.CloseAllLeavesNothingOpen | libs/audio_mixer/src/h2_audio_mixer.c:721-760 | whenever close_all returned OK no slot was active or closing as it cleared closing_all |
| MixerProgress.CreatedTrackOpens | libs/audio_mixer/src/h2_audio_mixer.c:519-600 | in every run a created track takes an operation at once, and no other track is touched |
| MixerProgress.OwnerCloses | libs/audio_mixer/src/h2_audio_mixer.c:341-369 | an owner whose track has no operation left closes it: the queues are destroyed once and the slot is free |
| MixerProgress.CloseCloses | libs/audio_mixer/src/h2_audio_mixer.c:282-369 | closing an open, quiet track succeeds when no call fails |
| MixerProgress.SecondCloserSucceeds | libs/audio_mixer/src/h2_audio_mixer.c:289-340 | a second closer waits, and when the owner of the close succeeds it does too, also as part of a close_all |
| MixerProgress.CloseAllSucceeds | libs/audio_mixer/src/h2_audio_mixer.c:721-760 | a close_all that meets no operation, no other closer and no failing call returns OK with every slot free |
| MixerDrain.DrainMeansMixed | libs/audio_mixer/src/h2_audio_mixer.c:239-280 | a drain that returns OK means everything the producer had queued when it called was taken by the mixer, whatever stale acknowledgements came first |
| MixerDrain.DrainCompletes | libs/audio_mixer/src/h2_audio_mixer.c:239-280 | once the mixer has taken everything up to the marker, the drain returns OK |
| LuaCompact.CompactKeepsProgram | libs/lua/embed_resource.py:12-94 | reading compacted text with the scanner gives the same tokens, lines and touching; compacting again changes nothing; the text never grows |
| LuaGrammar.CompactLaw | libs/lua/embed_resource.py:12-94 | exactly the texts without NUL that have a reading as comments, gaps and tokens are compacted; the output has one too, of the same tokens on the same lines, touching where they touched, with nothing but line feeds and single spaces between; compacting it changes nothing and it is no longer |
| LuaGrammar.OneReading | libs/lua/embed_resource.py:12-94 | a text has at most one reading |
| LuaGrammar.ReadingIsScanned | libs/lua/embed_resource.py:25-94 | every reading has the tokens the scanner finds, where it finds them |
| LuaPlace.CompactKeepsPlaces | libs/lua/embed_resource.py:12-94 | each token the scanner finds lies in source and output as its own bytes, behind equally many line breaks, touching its predecessor in both or in neither |
| LuaCompact.ReadBack | libs/lua/embed_resource.py:25-94 | what is written for any rest of a source reads back as that rest |
| LuaCompact.LiteralStable | libs/lua/embed_resource.py:60-92 | a literal before the compacted rest ends where it ended before the source's rest |
| LuaCompact.NeverLonger | libs/lua/embed_resource.py:25-94 | the output is no longer than the source, up to a separator still owed |
| LuaSource.ShortEnd | libs/lua/embed_resource.py:67-88 | the loop over a short string with its escapes finds the closing quote or the right error |
| LuaSource.CommentEnd | libs/lua/embed_resource.py:32-50 | the bytes up to the end are a comment, a long one up to the first closing bracket of its level or a short one up to the end of the line, or no long comment can end |
| LuaSource.CompactSource | libs/lua/embed_resource.py:12-94 | the one-pass loop computes the compaction, errors included, and succeeds exactly on texts without NUL that have a reading |
| ReferenceWalker.Walker.Visit | tools/openapi_codegen/schema.go:1064-1122 | terminates, restores the visiting set, fails only on a fault reachable from the file, and otherwise has finished everything reachable |
| ReferenceWalker.Validate | tools/openapi_codegen/schema.go:1047-1057 | succeeds exactly when everything reachable is usable and nothing reachable refers back to itself, and then has visited exactly the reachable files |
| ReferenceWalker.FinishedIsSound | tools/openapi_codegen/schema.go:1116-1121 | finished files are closed under references and free of cycles |
| FlashCipher.CipherBlock | tools/bazel/bk7258_flash_aes.py:28-41 | the loop over a swapped block with a doubled tweak treats the two halves independently, and rejects bad lengths and addresses |
| FlashCipher.BlockRoundTrip | tools/bazel/bk7258_flash_aes.py:28-41 | decrypting inverts encrypting at the same address |
| FlashCipher.SecondHalfSurvives | tools/bazel/bk7258_flash_aes.py:28-41 | replacing the first half of an encrypted block does not disturb the second |
| FlashMath.BlockIsXex | tools/bazel/bk7258_flash_aes.py:14-41 | a block is two XEX halves on swapped words under the first half of the key; the tweaks are the encryption, under the second half, of the 16 bytes that spell the address, and that times x modulo x^128 + x^7 + x^2 + x + 1 |
| FlashMath.DoubledIsTimesX | tools/bazel/bk7258_flash_aes.py:37-39 | doubling a tweak is multiplication by x in GF(2^128) |
| FlashMath.SwapAt | tools/bazel/bk7258_flash_aes.py:14-16 | every word of four bytes is turned around in place |
| FlashMath.WordIsLittleEndian | tools/bazel/bk7258_flash_aes.py:96-118 | the words of trailer and vectors are little-endian |
| FlashMath.CrcCatchesByte | tools/bazel/bk7258_flash_aes.py:44-50 | changing any one byte of a block changes its CRC-16 |
| FlashMath.CrcCheckValue | tools/bazel/bk7258_flash_aes.py:44-50 | the check value of this CRC-16 on the nine digits |
| FlashMath.FnvCheckValues | tools/bazel/bk7258_flash_aes.py:113-115 | the published FNV-1a values of three strings |
| FlashImage.FlashCrcOf | tools/bazel/bk7258_flash_aes.py:44-50 | the nested loops compute the CRC-16 of the bytes |
| FlashImage.UnpackPackets | tools/bazel/bk7258_flash_aes.py:124-130 | the loop strips the CRCs of valid packets and rejects any other source |
| FlashAccept.UnpacksExactly | tools/bazel/bk7258_flash_aes.py:124-130 | exactly sources of whole packets with the right CRC, or all ones, unpack |
| FlashAccept.UnpackedAt | tools/bazel/bk7258_flash_aes.py:124-130 | the k-th 32 bytes of the plaintext are those of the k-th packet |
| FlashImage.PackRoundTrip | tools/bazel/bk7258_flash_aes.py:147 | every packet written passes the check on the way in |
| FlashImage.CipherRoundTrip | tools/bazel/bk7258_flash_aes.py:150 | decrypting a whole image at its addresses inverts encrypting it |
| FlashImage.HoleIsHarmless | tools/bazel/bk7258_flash_aes.py:146-152 | an image with 16 bytes left in the clear decodes to the plaintext everywhere else |
| FlashRecovery.Layout | tools/bazel/bk7258_flash_aes.py:59-93 | an accepted layout is three contiguous page-aligned ranges from zero that fill the image |
| FlashRecovery.CheckRbl | tools/bazel/bk7258_flash_aes.py:96-118 | an accepted trailer puts the payload end behind the AP vector and before the trailer |
| FlashAccept.LayoutExactly | tools/bazel/bk7258_flash_aes.py:59-93 | a table is accepted exactly when its code parts, contiguous from zero and page aligned, fill the image and every other part is sound and clear of them, and the ranges are then these |
| FlashAccept.TailExactly | tools/bazel/bk7258_flash_aes.py:96-118 | the trailer check gives a size exactly for an image with the magic, that size twice, filled padding and the three digests |
| FlashRecovery.FnvOf | tools/bazel/bk7258_flash_aes.py:113-115 | the loop over a payload computes its 32-bit FNV-1a hash, which the trailer check compares |
| FlashRecovery.RecoverySelfChecksNeverFire | tools/bazel/bk7258_flash_aes.py:121-155 | for validated inputs and a 32-byte key no self-check fires, the length is kept and every output packet is valid |
| FlashRecovery.RecoverySucceedsIff | tools/bazel/bk7258_flash_aes.py:121-155 | the transform succeeds exactly for validated inputs and a 32-byte key |
| FlashAccept.RecoveryAccepted | tools/bazel/bk7258_flash_aes.py:121-155 | the transform succeeds exactly for a 32-byte key and a source that is a recovery image: layout, packets, boot ROM marker, trailer and three interrupt vectors whose reset words are odd addresses of their own code |
| FlashRecovery.EncryptRecoveryImage | tools/bazel/bk7258_flash_aes.py:121-155 | the imperative form computes the transform, errors included |
| FlashApp.ValidateApp | tools/bazel/bk7258_flash_aes.py:158-208 | an accepted App is whole blocks at addresses the cipher accepts with a valid trailer |
| FlashAccept.AppAccepted | tools/bazel/bk7258_flash_aes.py:158-208 | an App validates exactly when CP and AP code lie side by side clear of everything else, the packets are valid and fit, and trailer and both vectors are right |
| FlashApp.AppSelfChecksNeverFire | tools/bazel/bk7258_flash_aes.py:211-220 | for a validated App and a 32-byte key no self-check fires, packets are valid and decrypt to the plaintext at the final address |
| FlashApp.EncryptAppImage | tools/bazel/bk7258_flash_aes.py:211-220 | the imperative form computes the App transform, errors included |
| Utf8.IsValid | libs/ble_wifi_config/src/h2_ble_wifi_config_protocol.c:163-207 | accepts exactly the encodings of sequences of Unicode scalar values |
| Utf8.EncodedIsAccepted | libs/ble_wifi_config/src/h2_ble_wifi_config_protocol.c:163-207 | every encoding is accepted |
| Utf8.AcceptedIsEncoded | libs/ble_wifi_config/src/h2_ble_wifi_config_protocol.c:163-207 | everything accepted is the encoding of the scalar values it decodes to |

## Left out

Assumptions of the theorems:

- Wi-Fi service: connection generations do not wrap, the Host never reports a write from the invalid handle, attribute handles are constant once registered, and other services do not start or stop the default advertisement.
- Wi-Fi worker: while a work item runs it may notify, pause and resume in any order and number, which includes every order the code uses.
- KCP: each message of at most the segment size is one segment, acknowledgements name only messages that arrived, and a message that can be peeked can be received.
- KCP server: the model starts when open has succeeded; the failure path of open may set closing with a dispatch pending.
- Mixer: mutex operations do not fail, drain sequences do not wrap, and one producer writes and drains a track.
- Bundle: CRC-32, SHA-256 and the header parser are arbitrary functions, but for directories that announce contents, which are refused. The file system and the app writer decide every call from the calls before it, and a write of several bytes is one call per byte. A clear may remove any files below the data root and a pixa extraction may change anything at or below its target, also when they then fail; any other failed call changes no file. A removal reports a missing file only if the file is missing.
- Flash: AES is any keyed permutation, CRC-32 any function, and a JSON table is given by its parsed entries.

Not modelled:

- Statistics counters, progress reports, wake-ups, timeouts, fairness and real clocks.
- Allocation failures in the bundle parser, a failing digest update and the payload counter overflow check.
- Crash consistency of the older zlib-tar OTA path, which does not remove the checksum first.
- BundlePlain.PlainAccepted: asks for a file system that refuses nothing, because one that refuses a call makes the install fail wherever that call is; so do BundleAdmit.OtaAccepted, of the writer too, and BundleVerified.DataAccepted.
- BundleWriter.WriterLeftOpen: asks for a writer with an abort, because nothing can close one without after a failure.
- BundleCrash.CrashConsistent: asks that no entry of the delivered archive names the checksum file, because the property fails otherwise; BundleCrash.CrashExact and BundleCrash.CrashIffUnnamed give the exact conditions.
- BundleCrash.CrashIffUnnamed: leaves open what happens when the first entry over the checksum file is a pixa archive, because that depends on what is extracted there, and when the file system refuses a call before it; BundleCrash.CrashExact covers both.
- BundleCrash.DefaultCrashIff: leaves open the file systems that refuse a call before the parser gets to the file, as BundleCrash.CrashIffUnnamed does.
- BundleVouch.CommitVouches: says of a pixa archive that its bytes were hashed and handed to the extraction, not what was extracted, because extraction is not modelled.
- The Wi-Fi critical sections that only set flags are functions of the state and not methods that update fields.
- Decoding of credentials and encoding of frames, the Wi-Fi connect sequence and the mapping of failure reasons, which would only add easy members.
- The wait loops of read, write, flush and close: each attempt under the lock is modelled, blocking is a step that changes nothing.
- The KCP output retry loop, which appears only as a failure that sets the fatal status.
- Audio sample arithmetic, volume factors, and stale track handles used after their slot was taken again.
- Collecting and sorting references in a JSON document and resolving paths; a file is given with its classified references in order.
- Object flattening and model naming of the OpenAPI generator, its C output, command lines, PAL providers, build and packaging scripts.
