# claudy-p2p: a verified model

claudy-p2p shares a directory between two machines over a WebRTC tunnel. A signalling server pairs an owner and a viewer
in a room; on each side a supervisor keeps one PeerConnection and one multiplexed session alive and rebuilds them when
they fail; the tunnel carries a Noise-encrypted byte stream cut into messages; the owner serves WebDAV through a junk
filter and a short-lived cache; peers' keys are pinned on first use; a desktop app reads its children's logs.

The project models these parts and proves what they keep over whole runs. Where the source updates fields, a class has
the same fields and one method per operation, and each method is proved to change the state as a specification function
says; the theorems are about runs of those functions, with every lock region, channel operation and guarded callback as
one step, so that all interleavings are covered. Where a promise turned out not to hold on all inputs, the exact
condition under which it holds is proved, or a run that breaks it is exhibited.

| files | part |
|---|---|
| `Supervisor`, `Session` | the epoch supervisor as a step relation, and the session object it is about |
| `SupervisorHistory` | what is held and dialled, told from the events of the run |
| `SupervisorSafety` | one live pair at a time, ready channels, and exactly when one is closed twice |
| `SupervisorAccounting`, `SupervisorQuiescence` | where rebuilds come from, and exactly when they come to rest |
| `SupervisorRelay`, `SupervisorReports`, `SupervisorOverlap` | relay fallback: the counter, what was reported, and which overlaps of callbacks matter |
| `Paths`, `Upstream`, `Cache` | path cleaning, the file system below the cache, the cache |
| `CacheTransparency`, `CacheEdges` | exactness for sequential calls, and the exact edges of its scope |
| `CacheUse` | what the cache passes on to the disk, and what it saves asking for |
| `CacheStaleness`, `CacheOverFilter` | bounded staleness for concurrent calls; the cache stacked on the junk filter |
| `Frames`, `PeerConn`, `SecureConn`, `SecureStream` | frames, the message stream, the encrypted stream, and both end to end |
| `Hub`, `HubTheorems` | the signalling server |
| `Client`, `ClientRuns` | its reconnecting client, one call at a time and with calls interleaved |
| `Keyring`, `LogPipe`, `Filter` | pinned keys across crashes, log lines, the junk filter |
| `Wrappers` | the shared option datatype |

## Results that are not what the comments lead one to expect

* A viewer can close its ready channel twice, which ends the process: the session is installed under the lock, the
  channel is closed after the unlock, and a rebuild between the two reuses the open channel.
  `SupervisorSafety.DoubleCloseExactly` gives the condition, `DoubleCloseReachable` a run from the start.
* The watchdog of a session has no epoch guard. The rebuild that closes a session is therefore charged to the next epoch,
  and after one re-announcement by the server a healthy link can rebuild any number of times.
  `SupervisorQuiescence.QuiescenceExactly` gives the condition, after every run of either side: what is pending, parked,
  under way, watched or about to be watched must amount to at most one unit.
* Relay-only does not always follow the reports. The callback of a success and that of a failure can reach the counter in
  the wrong order; `SupervisorReports.ReportsDecideRelay` holds when opposite callbacks do not overlap,
  `SupervisorOverlap.OverlapExactly` says which overlap breaks it, `ReorderedRun` is such a run: one PeerConnection fails,
  the next connects and fails before the callback of its success has run.
* A listing is taken from the open directory but stored under its opening path. After a rename, or a second drain, it can
  make the cache answer for paths that never existed: `CacheEdges.ReaddirExactly`, `MovedHandleInvents`, and for
  concurrent calls `CacheStaleness.AskExactly`, `MovedHandleIsUnseen`.
* Removing or renaming a subtree, and renaming a file that is open for writing, can leave stale entries until they expire:
  `CacheEdges.SubtreeRemovalExactly`, `SubtreeRenameExactly`, `RenameExactly`.
* A refused join leaves an empty room behind (`HubTheorems.PairTightExactly`, `RefusedJoinLeavesRoom`).
* A pin whose save failed is gone after a reopen (`Keyring.UnsavedPinIsLost`); memory and file are tracked separately in
  `Keyring.RunRefinesHistory`.
* A directory holding only hidden junk looks empty and cannot be replaced by a rename (`Filter.HiddenJunkBlocksRename`;
  `Filter.FilterRestrictsExactly` is the general condition).
* `Recv` reads the connection field without the write lock; called while a `Send` redials it finds none and panics,
  though the client is open (`ClientRuns.ReadPanicsExactly`, `OpenClientCanPanic`).
* The log banner stays at "connected" through lines that report a failed or closed link (`LogPipe.ConnectedExactly`).

Comments the code does not follow: `sdpRaceWindow` is described as 10 s and is 30 s; `OpenFile` of the cache says that
closing cannot be hooked, and `cachedFile.Close` does invalidate; `peer.Conn.Write` describes back-pressure that is
commented out; `NormalizeNFC` shows itself outside the junk filter and is used inside it. The model follows the code.

## Model

| member | source | states |
|---|---|---|
| Session.Session.constructor | claudy-p2p/cmd/dav-client/main.go:94-103 | a new session is the initial state of the supervisor runs, with the first build already requested, and satisfies the invariant |
| Session.Session.HeldIsCurrent | claudy-p2p/cmd/dav-client/main.go:202-300 | at any time the held session and PeerConnection are open and of the current epoch, and every ready channel is closed or the present one |
| Session.Session.SnapshotMux | claudy-p2p/cmd/dav-client/main.go:108-112 | the session and the ready channel are read together |
| Session.Session.RequestRebuild | claudy-p2p/cmd/dav-client/main.go:114-119 | a request leaves a token in the one-slot channel and never blocks |
| Session.Session.TakeToken | claudy-p2p/cmd/dav-client/main.go:184 | the loop takes the one token |
| Session.Session.EndBackoff | claudy-p2p/cmd/dav-client/main.go:187-193 | after an error and a pause the loop asks again |
| Session.Session.Rebuild | claudy-p2p/cmd/dav-client/main.go:202-230 | the lock region closes what is held, then starts the next epoch, or on failure keeps the epoch number and backs off |
| Session.Session.CloseCurrent | claudy-p2p/cmd/dav-client/main.go:203-211 | the held session and PeerConnection, if any, are closed and forgotten, and nothing else changes |
| Session.Session.RenewReady | claudy-p2p/cmd/dav-client/main.go:220-228 | the ready channel is replaced exactly when it has been closed |
| Session.Session.StartEpoch | claudy-p2p/cmd/dav-client/main.go:218-229 | the epoch advances by one, owns the new PeerConnection and captures the ready channel its install will close |
| Session.Session.SendOffer | claudy-p2p/cmd/dav-client/main.go:268-320 | an offer that cannot be made or sent is an error of the rebuild |
| Session.Session.OnStateChange | claudy-p2p/cmd/dav-client/main.go:232-265 | a callback of a past epoch changes nothing; a live one parks a reset, a classification or a request, and a mere disconnection nothing |
| Session.Session.ResetFails | claudy-p2p/cmd/dav-client/main.go:248-252 | a success resets the failure counter under the lock |
| Session.Session.TestRace | claudy-p2p/cmd/dav-client/main.go:146-153 | a failure inside the race window skips the counter and only asks for a rebuild |
| Session.Session.CountFailure | claudy-p2p/cmd/dav-owner/main.go:157-165 | the first failure in a row retries directly, later ones go on to escalate |
| Session.Session.Escalate | claudy-p2p/cmd/dav-client/main.go:163-166 | relay-only is set and a rebuild is still asked for |
| Session.Session.PassRequest | claudy-p2p/cmd/dav-client/main.go:262-263 | a callback ends in a request |
| Session.Session.OnOpen | claudy-p2p/cmd/dav-client/main.go:273-281 | a callback of a past epoch does not dial |
| Session.Session.DialReturns | claudy-p2p/cmd/dav-client/main.go:283-288 | a new session waits to be installed, a failed dial asks for a rebuild |
| Session.Session.InstallSession | claudy-p2p/cmd/dav-client/main.go:290-298 | a session of a past epoch goes to be closed; otherwise it is held, and a viewer has its channel still to close |
| Session.Session.DropLate | claudy-p2p/cmd/dav-client/main.go:291-296 | a session of a past epoch is closed |
| Session.Session.AnnounceReady | claudy-p2p/cmd/dav-client/main.go:299-308 | the captured channel is closed and the watchdog starts; a channel already closed ends the process |
| Session.Session.WatchdogFires | claudy-p2p/cmd/dav-client/main.go:302-308 | the watchdog asks for a rebuild, whatever the epoch |
| Session.Session.HandleSignal | claudy-p2p/cmd/dav-owner/main.go:326-350 | a re-announcement asks for a rebuild, an envelope the PeerConnection refused as stale records the time |
| SupervisorSafety.InvStep | claudy-p2p/cmd/dav-client/main.go:202-312 | every step of either role keeps the invariant on PeerConnections, sessions, dials and ready channels |
| SupervisorSafety.OnePairAtATime | claudy-p2p/cmd/dav-client/main.go:202-300 | after any run at most one pair is held, both of the current epoch; every other PeerConnection is closed and every session is in exactly one of in flight, held, closed |
| SupervisorSafety.NoStrandedWaiter | claudy-p2p/cmd/dav-client/main.go:220-228 | a ready channel handed out at any moment of a run is closed at its end or still the present one |
| SupervisorSafety.InstallWakesAll | claudy-p2p/cmd/dav-client/main.go:452-467 | when the current epoch finishes installing, every ready channel ever made is closed, so every waiting proxy goroutine wakes |
| SupervisorSafety.CarefulRunsCloseOnce | claudy-p2p/cmd/dav-client/main.go:290-300 | runs that start no epoch between an install and its close never close a channel twice, and a held session's channel is closed or about to be |
| SupervisorSafety.CollisionPanics | claudy-p2p/cmd/dav-client/main.go:220-228 | from any calm state with a close pending there is a continuation that closes the shared channel twice |
| SupervisorSafety.DoubleCloseExactly | claudy-p2p/cmd/dav-client/main.go:290-300 | starting an epoch can lead to a double close if and only if the close of the present ready channel is still pending |
| SupervisorSafety.DoubleCloseReachable | claudy-p2p/cmd/dav-client/main.go:333-338 | such a run exists from the initial state: the peer's return triggers the rebuild between install and close |
| SupervisorHistory.HeldIsHistory | claudy-p2p/cmd/dav-client/main.go:202-300 | after any run the epoch is the number of builds, the session held the last one installed in its own epoch since the last rebuild, the PeerConnection held that of the last rebuild |
| SupervisorHistory.DialingIsHistory | claudy-p2p/cmd/dav-client/main.go:273-288 | a dial is under way exactly for the epochs whose channel opened while they were current and whose dial has not returned |
| SupervisorHistory.DialsAreLive | claudy-p2p/cmd/dav-client/main.go:277-283 | every dial that returns was begun by a channel that opened while its epoch was current, the epoch counted from the builds |
| SupervisorAccounting.RebuildsArePaidFor | claudy-p2p/cmd/dav-client/main.go:170-196 | over any run, rebuilds started plus rebuilds still owed are at most those owed at first plus one for each charging event |
| SupervisorAccounting.RebuildBound | claudy-p2p/cmd/dav-owner/main.go:178-203 | rebuilds are at most 1 + failures and closings of the then current epoch + errors of dials begun in their own epoch + re-announcements + rebuild errors + sessions installed in their own epoch, all told from the events alone |
| SupervisorAccounting.NoRequestLost | claudy-p2p/cmd/dav-client/main.go:114-119 | after a live failure or closing, a failed build, offer or dial, the end of a back-off, a watchdog, a passed-on request or a re-announcement, a request is still on its way at the end of the run or a later rebuild has started |
| SupervisorAccounting.FirstRequestKept | claudy-p2p/cmd/dav-client/main.go:170-171 | so is the request that run makes at the start |
| SupervisorAccounting.DeathIsServed | claudy-p2p/cmd/dav-client/main.go:302-308 | after a watched session dies its watchdog can still ask, or a request is on its way, or a later rebuild has started |
| SupervisorQuiescence.QuiescenceExactly | claudy-p2p/cmd/dav-client/main.go:170-312 | after every run, the rebuilds to come without further trouble from outside are bounded if and only if the process has ended or the potential (token or back-off, parked requests and failures, build under way, watchdogs, and one watchdog that may still start) is at most one; then there is at most one |
| SupervisorQuiescence.PotentialStep | claudy-p2p/cmd/dav-client/main.go:170-312 | no step that brings no trouble raises the potential |
| SupervisorQuiescence.NotBounded | claudy-p2p/cmd/dav-client/main.go:302-308 | from potential two on, in any state that keeps the invariant, every bound is exceeded by some run without trouble |
| SupervisorQuiescence.OneReturnRebuildsForEver | claudy-p2p/cmd/dav-client/main.go:302-308 | from the start, one re-announcement and no trouble suffice for any number of rebuilds, on either side |
| SupervisorRelay.RelayRefinesHistory | claudy-p2p/cmd/dav-client/main.go:154-166 | relay-only is set or about to be exactly when it was forced or the counter was incremented twice with no reset between |
| SupervisorRelay.RelaySticks | claudy-p2p/cmd/dav-owner/main.go:166-169 | relay-only is never taken back |
| SupervisorRelay.ClassifierRefinesHistory | claudy-p2p/cmd/dav-client/main.go:147-153 | a failure is counted exactly when no stale envelope was refused in the 30 s before it |
| SupervisorRelay.LastRaceIsLatest | claudy-p2p/cmd/dav-client/main.go:345-355 | the recorded instant is that of the latest refusal, and none is later than the clock |
| SupervisorReports.ReportsDecideRelay | claudy-p2p/cmd/dav-client/main.go:232-265 | when opposite callbacks do not overlap, relay-only is set exactly when it was forced or two live failures, neither preceded by a refused envelope within 30 s of its callback looking at the clock, were reported with no live success between them |
| SupervisorReports.CountHasItsReport | claudy-p2p/cmd/dav-owner/main.go:227-252 | every increment of the counter belongs to one report, a failure live when it was made, whose own callback saw no refused envelope in the 30 s before |
| SupervisorReports.CountedOnce | claudy-p2p/cmd/dav-owner/main.go:157-160 | no report is counted twice |
| SupervisorOverlap.OverlapExactly | claudy-p2p/cmd/dav-client/main.go:232-265 | after every orderly run, the next live report leaves the outcome as reported in all orderly continuations if and only if it meets no parked callback of the opposite kind, or relay-only is set or about to be, or three failures are counted or about to be |
| SupervisorOverlap.ReorderedRun | claudy-p2p/cmd/dav-client/main.go:232-265 | a run from the start whose outcome is not the one reported: Failed on one PeerConnection, then Connected and Failed on the next |
| Paths.NormalizeIsRender | claudy-p2p/internal/ownerfs/statcache.go:87-96 | a cache key is a slash followed by the cleaned elements, whatever the client sent |
| Paths.KeyIsCanonical | claudy-p2p/internal/ownerfs/statcache.go:84-96 | no element of a key is empty, "." or "..", or has a slash |
| Paths.RenderKey | claudy-p2p/internal/ownerfs/statcache.go:91 | keys are recovered from their strings |
| Paths.NormalizeIdempotent | claudy-p2p/internal/ownerfs/statcache.go:84-96 | normalizing twice is normalizing once, and two names share an entry exactly when their elements agree |
| Paths.DotDotTakesBack | claudy-p2p/internal/ownerfs/statcache.go:84-96 | ".." takes back the plain element before it, wherever in a name the two stand |
| Paths.DotDotIdlesAtRoot | claudy-p2p/internal/ownerfs/statcache.go:91 | ".." at the root changes nothing |
| Paths.DotDotIsParent | claudy-p2p/internal/ownerfs/statcache.go:91 | a name followed by ".." has the key of the parent |
| Paths.PlainIsChild | claudy-p2p/internal/ownerfs/statcache.go:91 | a name followed by a plain element has the key of that child |
| Paths.DotIsIdle | claudy-p2p/internal/ownerfs/statcache.go:91 | a trailing slash and "." change nothing |
| Paths.RelativeUpsStay | claudy-p2p/internal/ownerfs/filter.go:67-68 | cleaning a relative name keeps the ".." that have nothing to take back |
| Paths.RelativeTakesBack | claudy-p2p/internal/ownerfs/filter.go:67-68 | and takes back a plain element with the ".." after it |
| Paths.SeededKeyIsStatKey | claudy-p2p/internal/ownerfs/statcache.go:212-215 | the key seeded for a child is the key a later Stat of it computes |
| Paths.DirIsParent | claudy-p2p/internal/ownerfs/statcache.go:103-108 | path.Dir of a key is the key of the directory whose entries are dropped |
| Cache.CachedFS.InvalidateName | claudy-p2p/internal/ownerfs/statcache.go:102-110 | the entry, the parent's entry and the parent's listing are dropped, nothing else |
| Cache.CachedFS.MkdirName | claudy-p2p/internal/ownerfs/statcache.go:112-116 | the new upstream and cache state |
| Cache.CachedFS.RemoveName | claudy-p2p/internal/ownerfs/statcache.go:118-122 | the new state, including open files that lose their name |
| Cache.CachedFS.RenameName | claudy-p2p/internal/ownerfs/statcache.go:124-129 | the new state, including open files that move |
| Cache.CachedFS.Stat | claudy-p2p/internal/ownerfs/statcache.go:131-146 | a live entry answers, otherwise the upstream's answer is stored and returned |
| Cache.CachedFS.OpenFile | claudy-p2p/internal/ownerfs/statcache.go:153-162 | any modifying flag invalidates first, even when the open then fails |
| Cache.CachedFS.CloseFile | claudy-p2p/internal/ownerfs/statcache.go:173-179 | a writable handle invalidates the name it was opened under, after the flush |
| Cache.CachedFS.Readdir | claudy-p2p/internal/ownerfs/statcache.go:186-219 | a live listing answers, otherwise the listing is stored and an entry seeded for each row |
| CacheTransparency.EditKeeps | claudy-p2p/internal/ownerfs/statcache.go:98-110 | on any tree, after any edit of one childless path, dropping what invalidate drops leaves only right entries |
| CacheTransparency.OrdinaryRunsAreSound | claudy-p2p/internal/ownerfs/statcache.go:102-219 | every run of ordinary calls keeps all entries and listings right |
| CacheTransparency.StatIsTransparent | claudy-p2p/internal/ownerfs/statcache.go:131-146 | after any ordinary run, and at any time, Stat answers what the upstream would; for a path being written, at least the kind is right |
| CacheTransparency.ReaddirIsTransparent | claudy-p2p/internal/ownerfs/statcache.go:186-219 | a full listing names each child once and each row is right |
| CacheTransparency.CloseRestores | claudy-p2p/internal/ownerfs/statcache.go:173-179 | closing the last writable handle of a path makes its Stat exact at once, drops the listing it is a row of, and keeps everything else right |
| CacheUse.DiskIsAsWithout | claudy-p2p/internal/ownerfs/statcache.go:112-179 | whatever calls are made, in or out of scope, the disk and the open files are what the same calls make of them without a cache |
| CacheUse.CacheIsInvisible | claudy-p2p/internal/ownerfs/statcache.go:131-146 | after an ordinary run a Stat through the cache answers what it would after the run without a cache; for a path being written, at least the kind is right |
| CacheUse.StatIsKept | claudy-p2p/internal/ownerfs/statcache.go:131-146 | an answer the upstream was asked for is served for 250 ms, and not a moment longer |
| CacheUse.StatIsAskedOnce | claudy-p2p/internal/ownerfs/statcache.go:131-146 | meanwhile every Stat of the name is served, whatever is called but edits of the name or in it |
| CacheUse.ListingIsAskedOnce | claudy-p2p/internal/ownerfs/statcache.go:203-216 | a listing asked for serves for 250 ms the listings of the directory and the Stats of its rows |
| CacheUse.ListingServesOn | claudy-p2p/internal/ownerfs/statcache.go:186-201 | for as long as nothing in the directory is edited |
| CacheUse.OpenForgets | claudy-p2p/internal/ownerfs/statcache.go:153-162 | opening with any of the five modifying flags forgets the name, its directory and the listing it is a row of |
| CacheEdges.ReaddirExactly | claudy-p2p/internal/ownerfs/statcache.go:203-216 | a listing that reaches the upstream leaves the cache right if and only if the directory the handle holds has the children that stand at its opening path; for a removed directory or a drained handle, if and only if nothing stands there |
| CacheEdges.SecondDrainExactly | claudy-p2p/internal/ownerfs/statcache.go:203-216 | draining a directory handle a second time leaves the cache right if and only if the directory is empty |
| CacheEdges.MovedHandleInvents | claudy-p2p/internal/ownerfs/statcache.go:186-219 | three ordinary calls and a listing through a moved handle make Stat answer for a path that never existed |
| CacheEdges.RenameExactly | claudy-p2p/internal/ownerfs/statcache.go:124-129 | after renaming a path with nothing below it, all that can follow within scope is answered as the upstream would if and only if the renamed file is not open for writing |
| CacheEdges.UnsettledIsReachable | claudy-p2p/internal/ownerfs/statcache.go:153-162 | one open from an empty disk leads to a rename of the failing kind |
| CacheEdges.InvalidateIsTight | claudy-p2p/internal/ownerfs/statcache.go:98-110 | nothing that invalidate drops could be kept: making a directory changes what Stat says of it and of its parent, and the listing |
| CacheEdges.TruncationShows | claudy-p2p/internal/ownerfs/statcache.go:153-157 | nor can the entry of a file that is truncated by being opened |
| CacheEdges.SubtreeRemovalExactly | claudy-p2p/internal/ownerfs/statcache.go:118-122 | removing a subtree leaves the cache right if and only if nothing inside it is cached |
| CacheEdges.SubtreeRenameExactly | claudy-p2p/internal/ownerfs/statcache.go:124-129 | renaming a subtree leaves the cache right if and only if nothing inside it is cached, nor anything inside the target that its arrival makes wrong |
| CacheStaleness.StalenessIsBounded | claudy-p2p/internal/ownerfs/statcache.go:131-219 | for any interleaving of calls, edits and invalidations, every answer was shown by a look made for its key, before the call returned and during it or less than 250 ms before it read the clock, if listings that reach the upstream reflect their key |
| CacheStaleness.SecondStat | claudy-p2p/internal/ownerfs/statcache.go:131-146 | of two Stats of one name the second is served from the first look if and only if it begins within 250 ms of it |
| CacheStaleness.AskExactly | claudy-p2p/internal/ownerfs/statcache.go:203-216 | what a handle lists is a listing of its key if and only if the handle reflects the key |
| CacheStaleness.UnreflectedIsUnseen | claudy-p2p/internal/ownerfs/statcache.go:203-216 | a listing asked through a handle that does not reflect its key was not shown for that key by the look it came from |
| CacheStaleness.MovedHandleIsUnseen | claudy-p2p/internal/ownerfs/statcache.go:186-219 | a listing through a moved handle returns what the upstream never showed for that path |
| CacheStaleness.SeedKeeps | claudy-p2p/internal/ownerfs/statcache.go:212-215 | each seeded entry was shown by the same look that gave the listing |
| Frames.ChunksCover | claudy-p2p/internal/peer/conn.go:240-251 | the pieces of a payload join to the payload |
| Frames.ChunksSmall | claudy-p2p/internal/peer/conn.go:240-243 | no piece is empty or larger than the limit |
| Frames.ParsePrint | claudy-p2p/internal/secure/noise.go:243-270 | parsing printed frames gives back the frames and goes on with what follows |
| Frames.PrintParse | claudy-p2p/internal/secure/noise.go:243-254 | printing what was parsed, with the unfinished rest, gives back the bytes |
| Frames.LengthOnTheWire | claudy-p2p/internal/secure/noise.go:243-270 | the length comes first, high byte before low byte, then as many bytes of payload |
| PeerConn.Conn.Read | claudy-p2p/internal/peer/conn.go:161-188 | a read takes the next bytes in order, as many as fit and one message holds, and loses none; it fails only with nothing left over and no message there, or after the end or the deadline, and then takes none |
| PeerConn.Conn.ReadFull | claudy-p2p/internal/secure/noise.go:243-252 | exactly the bytes asked for, however messages cut them, or fewer and a fault; without an end or a deadline only for want of bytes |
| PeerConn.Conn.Close | claudy-p2p/internal/peer/conn.go:257-263 | from then on the connection is done and nothing else has changed |
| PeerConn.Conn.Write | claudy-p2p/internal/peer/conn.go:200-254 | the messages sent are the leading pieces of the payload, counted exactly, as many as get through before the end, the deadline or a refusal; a fault exactly when that is not all |
| PeerConn.MessageSizes | claudy-p2p/internal/peer/conn.go:240-244 | messages have 16384 bytes, the last one at most that |
| SecureConn.Conn.ReadFrame | claudy-p2p/internal/secure/noise.go:243-254 | without fault, the first frame of the pending bytes is returned and what follows it is left; a fault has its cause below, or no whole frame is there |
| SecureConn.Conn.Read | claudy-p2p/internal/secure/noise.go:182-208 | the kept tail is served first, always; otherwise a read succeeds if and only if a frame comes without fault and opens under the next counter, and what does not fit is kept; a failed one hands out nothing and keeps the counter |
| SecureConn.Conn.Write | claudy-p2p/internal/secure/noise.go:212-233 | as many leading chunks as the channel lets through and counter values last go out as one sealed frame each, under consecutive counters; an error exactly when that is not all |
| SecureConn.Conn.SendChunk | claudy-p2p/internal/secure/noise.go:222-228 | a chunk becomes one whole message exactly if the channel lets one through, and uses up one counter value either way |
| SecureConn.Conn.WriteFrame | claudy-p2p/internal/secure/noise.go:257-270 | header and body go out in one write; a body too long for its length field is refused |
| SecureStream.StreamIsAQueue | claudy-p2p/internal/secure/noise.go:182-233 | for all write and read sizes, what was read is a prefix of what was written, all of it exactly when nothing is buffered or in flight, and the sender's counter is the receiver's plus the frames in flight |
| SecureStream.ReadMakesProgress | claudy-p2p/internal/secure/noise.go:182-208 | while something written has not been read, a read with room for a byte brings at least one |
| SecureStream.EverythingArrives | claudy-p2p/internal/secure/noise.go:182-233 | whatever has been written can be read, with a buffer of any size |
| SecureStream.PrefixUnderAnyFault | claudy-p2p/internal/secure/noise.go:182-208 | with failed sends, lost or rewritten bytes below, but no forged frame, what was read is still a prefix of what was accepted, with no gap |
| SecureStream.SizeArithmetic | claudy-p2p/internal/secure/noise.go:49-53 | L bytes make L/16320 messages rounded up, each at most 16338 bytes and one message, and L plus 18 per message in all |
| SecureStream.BothDirections | claudy-p2p/internal/secure/noise.go:142-173 | each end opens with the state the other seals with, so both directions are queues |
| Hub.Hub.Pair | claudy-p2p/cmd/signal/main.go:146-171 | the slot is taken over, its former holder closed and reported, the counterpart returned; a bad role is refused with the room already made |
| Hub.Hub.Counterpart | claudy-p2p/cmd/signal/main.go:173-190 | the holder of the other slot |
| Hub.Hub.Drop | claudy-p2p/cmd/signal/main.go:196-212 | the slot is cleared only for its present holder, and an empty room is deleted |
| HubTheorems.SlotIsHistory | claudy-p2p/cmd/signal/main.go:146-212 | in every run a slot holds exactly the last connection that joined it, if that one has not left |
| HubTheorems.SlotAfterDrop | claudy-p2p/cmd/signal/main.go:192-212 | a displaced connection's late drop never evicts its successor |
| HubTheorems.RoomsAreHeld | claudy-p2p/cmd/signal/main.go:209-211 | while joins name proper roles a room exists exactly when one of its slots is held |
| HubTheorems.PairTightExactly | claudy-p2p/cmd/signal/main.go:149-170 | a join leaves no room held by nobody if and only if its role is proper or its room was there |
| HubTheorems.RefusedJoinLeavesRoom | claudy-p2p/cmd/signal/main.go:97-103 | one refused join leaves a room that nobody holds |
| HubTheorems.PairingIsAnnounced | claudy-p2p/cmd/signal/main.go:113-119 | whenever both slots are held, the handler of whichever of these two connections joined second has written, or still has to write, to each a ready about the other with the key it joined with; frames of earlier pairings do not count |
| HubTheorems.AnnouncementsAreTrue | claudy-p2p/cmd/signal/main.go:113-119 | every ready ever written or pending tells one role of a room the key its counterpart joined with |
| HubTheorems.ForwardsStayInRoom | claudy-p2p/cmd/signal/main.go:216-235 | every forwarded envelope goes from one role of a room to the other role of the same room |
| HubTheorems.EnvelopesGoOn | claudy-p2p/cmd/signal/main.go:216-235 | what has been written for a connection, with what its pump has in hand, is exactly what was read from it while the slot opposite was held, in order, with the text as read, to the holder at that moment |
| HubTheorems.OfferReaches | claudy-p2p/cmd/signal/main.go:89-235 | two that join are told of each other, and an envelope of the one reaches the other |
| Client.Client.FirstJoin | claudy-p2p/internal/signaling/client.go:99-107 | a client is handed out exactly if its join went out at the first write or after one redial, and has written it on the first connection or after a redial on a later one, and nothing else |
| Client.Client.ReconnectLocked | claudy-p2p/internal/signaling/client.go:202-240 | the loop waits min(250·2^k, 5000) ms the k-th time and keeps only a connection on which the join has gone out; it gives up only when the client is closed, and then holds none |
| Client.Client.WriteEnvelope | claudy-p2p/internal/signaling/client.go:145-160 | success is exactly one write of the envelope, after at most one redial whose join precedes it; failure is none; the call panics exactly when an earlier redial gave up |
| Client.Client.Recv | claudy-p2p/internal/signaling/client.go:165-192 | no envelope is passed over: it returns at the first entry that is not a recoverable error, with the envelope if it is one; each recoverable error costs one redial, with its attempts and waits, and one join; it stops early only at a final error or a redial that gave up |
| Client.JoinFirstExtends | claudy-p2p/internal/signaling/client.go:193-200 | the join-first property of the write history survives a join, and an envelope on a connection that has joined |
| Client.WaitsAt | claudy-p2p/internal/signaling/client.go:208-239 | the waits of a loop with n failed attempts are n, the first 250 ms and each later one twice the one before, but at most 5000 |
| Client.TriesBounded | claudy-p2p/internal/signaling/client.go:208-227 | the attempt that ends the loop is the first that connects |
| ClientRuns.JoinIsFirst | claudy-p2p/internal/signaling/client.go:193-200 | from whatever Dial hands out, however Sends, the Recv, their redials and Close interleave, the first frame on every connection is the join |
| ClientRuns.SentExactlyOnce | claudy-p2p/internal/signaling/client.go:145-160 | in every interleaving a Send that returned nil has written its envelope exactly once, and any other Send not at all |
| ClientRuns.SendReturns | claudy-p2p/internal/signaling/client.go:145-160 | in every interleaving a Send returns nil at its first write that goes through, an error at a write that fails for good, at its second if that fails, and when its redial gives up, and not before |
| ClientRuns.SendRecovers | claudy-p2p/internal/signaling/client.go:153-159 | a Send whose first write fails redials, joins on the new connection and writes there |
| ClientRuns.RecvRecovers | claudy-p2p/internal/signaling/client.go:175-188 | a Recv whose read fails redials, joins on the new connection and reads there |
| ClientRuns.ReadPanicsExactly | claudy-p2p/internal/signaling/client.go:165-172 | the unlocked read of Recv finds no connection if and only if somebody is redialling or a redial has given up |
| ClientRuns.WritePanicsExactly | claudy-p2p/internal/signaling/client.go:145-152 | a Send finds no connection if and only if a redial has given up |
| ClientRuns.OpenClientCanPanic | claudy-p2p/internal/signaling/client.go:165-172 | a Recv called while a Send redials panics on a client nobody closed |
| Keyring.Keyring.OpenKeyring | claudy-p2p/internal/identity/keyring.go:51-77 | no file gives no pins, a file the pins of its list; a directory that cannot be made, an unreadable and a torn file are errors |
| Keyring.Keyring.List | claudy-p2p/internal/identity/keyring.go:127-136 | the one alias-sorted list of the pins, whatever order the map is walked in |
| Keyring.Keyring.SaveLocked | claudy-p2p/internal/identity/keyring.go:139-159 | the files after a save that ends well, fails, or dies at any point |
| Keyring.Keyring.CheckPeer | claudy-p2p/internal/identity/keyring.go:85-111 | a new alias is pinned, a matching key bumps its time, another key changes nothing; the verdict and the files for every way the save may end |
| Keyring.Keyring.ForgetPeer | claudy-p2p/internal/identity/keyring.go:115-123 | the alias is dropped and saved; an unknown alias is no error and no write |
| Keyring.OneSortedList | claudy-p2p/internal/identity/keyring.go:134 | two alias-sorted lists of the same entries are equal |
| Keyring.ReloadsToTheSame | claudy-p2p/internal/identity/keyring.go:65-76 | the list that was saved reloads to the same pins |
| Keyring.SaveIsAtomic | claudy-p2p/internal/identity/keyring.go:151-158 | however a save ends, reopening finds the pins before it or after it, and after exactly when the rename was done |
| Keyring.PinnedIsFirst | claudy-p2p/internal/identity/keyring.go:95-104 | the pinned key is the first offered since the alias was last forgotten |
| Keyring.RunRefinesHistory | claudy-p2p/internal/identity/keyring.go:51-159 | over every run with failed saves, crashes and reopens, memory pins what the surviving events pin and the file what was pinned at the last completed save |
| Keyring.TimesAreHistory | claudy-p2p/internal/identity/keyring.go:85-111 | every entry, in memory and in the file, carries the time its key was first offered since the last Forget and the time it was offered last |
| Keyring.TrustOnFirstUse | claudy-p2p/internal/identity/keyring.go:85-111 | when saves succeed, a key is trusted exactly when no other key came first since the last Forget, across any number of reopens |
| Keyring.UnsavedPinIsLost | claudy-p2p/internal/identity/keyring.go:97-104 | after a failed save and a reopen any key is trusted, though before the reopen only the pinned one was |
| LogPipe.Subprocess.PushLogLine | claudy-p2p/cmd/claudy/main.go:132-157 | the log is the last 200 lines ever pushed and the status is that of the whole history |
| LogPipe.Subprocess.Exit | claudy-p2p/cmd/claudy/main.go:182-190 | the exit of the child is one more event of the history, and the status follows it |
| LogPipe.Subprocess.Snapshot | claudy-p2p/cmd/claudy/main.go:112-127 | the status, the whole seconds since the start, the mount path and the last 30 lines ever pushed |
| LogPipe.Subprocess.AllLogs | claudy-p2p/cmd/claudy/main.go:102-108 | the last 200 lines ever pushed |
| LogPipe.Subprocess.PipeToLog | claudy-p2p/cmd/claudy/main.go:195-220 | however a stream is cut into reads, the lines pushed are those of the whole stream, trailing CRs trimmed, an unfinished last piece kept as it is |
| LogPipe.PipesDoNotMix | claudy-p2p/cmd/claudy/main.go:179-180 | with several pipes interleaving, each contributes in order a prefix of its stream's lines, and all of them once it has ended |
| LogPipe.PrintedLinesComeBack | claudy-p2p/cmd/claudy/main.go:203-210 | lines printed with any number of CRs before the newline are logged as they were |
| LogPipe.LinesOf | claudy-p2p/cmd/claudy/main.go:195-220 | the lines of a stream are those printed, and what follows the last newline as it is, unless empty |
| LogPipe.EveryStream | claudy-p2p/cmd/claudy/main.go:195-220 | every stream is of that form |
| LogPipe.LastIsEnd | claudy-p2p/cmd/claudy/main.go:135-137 | what is kept of the log is its end |
| LogPipe.ConnectedExactly | claudy-p2p/cmd/claudy/main.go:138-156 | the status is "connected" exactly when the tunnel came up and no wait, relay switch or exit followed |
| LogPipe.StatusExactly | claudy-p2p/cmd/claudy/main.go:138-156 | the status is the word, from a table of markers, of the last event that sets it; "paired" and "reconnecting" do not set it while the tunnel is up |
| LogPipe.ContainsExactly | claudy-p2p/cmd/claudy/main.go:139-152 | a marker is found exactly if it stands somewhere in the line |
| Filter.JunkByKey | claudy-p2p/internal/ownerfs/filter.go:67-78 | the junk test of a name depends only on its normalized key, and is a test of the key's last element |
| Filter.JunkNames | claudy-p2p/internal/ownerfs/filter.go:42-78 | a plain last element is junk exactly if it is one of the ten names or begins with "._" |
| Filter.JunkIsSwallowed | claudy-p2p/internal/ownerfs/filter.go:88-155 | a call that names junk leaves the disk as it is; changes are said to be done, looks find nothing, an open for writing discards |
| Filter.FilterRestrictsExactly | claudy-p2p/internal/ownerfs/filter.go:88-137 | a call naming no junk acts on the shown tree as the unfiltered file system acts on a tree without junk, if and only if no hidden parent and no hidden clutter in a rename's target decides it |
| Filter.JunkLeavesNoTrace | claudy-p2p/internal/ownerfs/filter.go:88-137 | a run's tree and its other replies are those of the run without the calls that name junk |
| Filter.FilteredRunIsRestriction | claudy-p2p/internal/ownerfs/filter.go:88-137 | a whole run through the filter shows what the decent calls show on a disk that holds no junk |
| Filter.HiddenJunkBlocksRename | claudy-p2p/internal/ownerfs/filter.go:121-130 | a directory that looks empty cannot be replaced when junk is in it |
| Filter.FilterRows | claudy-p2p/internal/ownerfs/filter.go:166-181 | in-place compaction leaves exactly the kept rows in order at the front and nothing changed behind; on an inner error all rows are passed on |
| Filter.KeepPicks | claudy-p2p/internal/ownerfs/filter.go:173-180 | the kept rows are the rows at increasing positions that are all the positions of rows not junk |
| Filter.FilteredListing | claudy-p2p/internal/ownerfs/filter.go:166-181 | a full listing through the filter is the full listing of the shown tree |
| CacheOverFilter.StackIsTransparent | claudy-p2p/cmd/dav-owner/main.go:413-420 | with the cache on top of the junk filter, on any disk, after any run a Stat answers what the filter would answer for the disk as it is now |
| CacheOverFilter.StackListsShown | claudy-p2p/cmd/dav-owner/main.go:413-420 | and whatever rows, junk and all, the disk gives the filter, a full listing names exactly the shown children of a shown directory |

## Left out

- The Noise, yamux, pion, WebSocket and JSON libraries: ciphers, sessions, channels and encodings are abstract. Ciphers
  are assumed to open what they seal, with a tag of 16 bytes; JSON is assumed to read back what it wrote.
- Key conversion, identity files and the handshake messages: library calls; only the assignment of the two cipher states
  is modelled.
- The shutdown branch of `run`: it closes without clearing the fields, so the supervisor results are about runs before it.
- The owner's accept loop and backlog, and anything else that does not touch the session fields.
- A PeerConnection that reported Failed reports nothing after it but Closed, and nothing after Closed; a dial begun on one
  that is over never succeeds. Nothing in the source restarts such a PeerConnection.
- Several tunnel channels on one PeerConnection: one OnOpen per epoch is assumed.
- The time limit of a waiting proxy goroutine, and its giving up when a rebuild took the session away after waking it.
- `AcceptStream`, `OpenStream` and the copying of bytes between connections.
- Deadlines as instants: a deadline strikes after some number of messages, and DataChannel.Send refuses after some
  number. The high-water gate of `peer.Conn.Write` is disabled in the source, so no bound on buffered bytes is claimed.
- Unicode normalization below the cache: names are taken to be normalized already.
- Cache.CachedFS.Readdir: the paginated form (count > 0), which bypasses the cache, is not modelled, rows have no fixed
  order, and what the upstream file answers is a parameter, constrained in the runs by `Cache.UpstreamLists`.
- Cache.CachedFS.Stat: the error kinds of a failed Stat are merged into one answer, "missing".
- CacheTransparency.StatIsTransparent: the ordinary runs it speaks of remove only files and empty directories, rename
  only childless paths no writable handle is open at, and list a directory through a handle that is where it was opened
  and has not been drained, or whose listing is cached; what happens outside that scope is what `CacheEdges` decides.
- CacheTransparency.CloseRestores: it speaks of the path the handle was opened under; for a rename meanwhile see
  `CacheEdges.RenameExactly`.
- CacheStaleness.StalenessIsBounded: a listing of nothing counts as shown for a path at which nothing stands.
- CacheOverFilter.StackIsTransparent: nothing shown lies below a path that is removed or renamed, and a discarded file is
  not listed.
- SupervisorOverlap.OverlapExactly: it decides the first overlap; after it the run is orderly.
- What a moved directory's open handle lists is taken to be the directory's content where it is now; a file system that
  looks the entries up again under the opening path would list less.
- File contents: a node's size and times are one number.
- Two forwards or a forward and a ready written to one WebSocket at the same time, which the library forbids.
- Client.Client.Recv: one call at a time; with Sends beside it, only what ClientRuns states, where a Recv is one reader
  whose envelopes are not named.
- Which WebSocket errors are recoverable: the outcome of a write or a read says it.
- Ready, the first blocking read of the client, and the keepalive pings of the server.
- Several processes on one keyring file: the last writer wins, nothing is promised.
- Keyring.Keyring.CheckPeer: aliases are strings that survive JSON unchanged, and base64 is taken as the key itself.
- Filter.FilterRestrictsExactly: renaming a path onto itself is refused in the model; writes go through a handle opened
  under the same name.
- The desktop app's start and stop of children, HTTP handlers, mounting, folder pickers, power locks and the frontend.
