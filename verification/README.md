# Verified model of the burrow server

Burrow servers ("burrows") peer with each other, gossip signed board posts and
exchange signed file catalogs; each also serves uploads, doors, mail sessions,
search and backups to its own callers, and a desktop shell talks to it. This
project models the parts of that system whose correctness is not visible in any
one function, and proves what they promise over whole runs: hostile peers,
interleavings, failed writes and crashes included.

`dafny verify dfyconfig.toml` checks everything.

## How the model is laid out

The source's pure code is modelled by functions, its stateful objects by classes
and its loops by methods with loop invariants. Each stateful method is proved
equal to a specification function on values; state machines built from those same
functions (`Next` for one step, `After` for a run) carry the theorems over runs.

| files | what they model |
|---|---|
| `Transcript`, `Handshake` | the bytes both servers sign, and the three-message server-to-server handshake on an attacker's network |
| `FloodNode`, `FloodNet`, `FloodHandlers` | one burrow's part in board gossip, many burrows with FIFO sessions, and the stateful frame handlers |
| `FloodProvenance`, `FloodConvergence`, `FloodTermination`, `FloodMesh`, `FloodLoss` | what every gossip run keeps: authorship, delivery everywhere, quiescence, and exactly when a lost offer leaves a post behind |
| `OriginPins`, `Hex` | the trusted origin-key registry and its file |
| `CatalogModel`, `CatalogStore`, `CatalogRuns`, `CatalogRevocation`, `LocalCatalog` | the peer-catalog cache with its watermarks and approvals, and the burrow's own catalog chain |
| `UploadStaging`, `UploadQuota` | position-addressed upload staging, and the quota under its commit lock |
| `DoorLedger`, `Doors`, `DoorRuns` | prepaid daily door time |
| `BackupPaths`, `Backup`, `BackupRuns` | snapshots, verification, restore, and snapshots of a busy burrow |
| `BinkpFrame`, `BinkpPump` | mail-session framing, the socket pump and file transfer |
| `VisibleSearch` | library search with authorization ahead of the limit |
| `HistoryMirror`, `Base64` | the desktop shell's history mirror and its base64 decoder |
| `Base`, `Names` | shared types and the rule for server names |

Idealizations used throughout: a signature verifies under a key only if that
key's holder signed exactly those bytes; content ids and hashes are collision
free; JSON and postcard encodings decode to what was encoded. Clocks, read
sizes, whether a write succeeds and when the process dies are parameters or
free choices, so the theorems hold for all of them. The handshake's attacker may
have honest keys sign any message that does not begin with the handshake's
context; the other signature contexts of the source do not begin with it.

## Where the code and its own words differ

The model follows the code in each case.

- The ticket field `have` is called the verified staged bytes, the resume
  high-water. It is the largest end of anything accepted, so it need not be the
  length of a staged prefix: `HighWaterIsPrefixExactlyWhen` says exactly when a
  put keeps it one, and `EmptyPutRaisesTheMark` gives a put that does not.
- The local catalog is said to survive restarts so that peers are never shown an
  older generation as fresh. The write is a best effort that replaces the file in
  place: `RestartContinuesExactlyWhen`, with `GenerationReissued` as a run that
  issues a generation twice.
- The approval file is rejected whole if two keys share an origin, while approving
  a key does not look at other keys' origins: `ApprovalMayShareOrigin`,
  `SharedOriginVoidsTheFile`, `ApprovalsSurviveExactlyWhen`.
- The handshake transcript names both keys in role order but not the signer's
  role, so a burrow accepts its own reflected signature from a stranger that
  claims the burrow's own key: `AgreementExactlyWhenKeysDiffer`.
- A metered door run may end up to a millisecond after midnight:
  `DeadlinePassesMidnightExactlyWhen`, `DeadlineDoesPassMidnight`.
- A false positive of an edge's Bloom filter is said to suppress at worst a
  redundant offer, never a needed ingest (`apps/server/src/federation.rs:180-182`).
  An offer the peer needs is suppressed just as well, and so is one that a lagging
  bus skips (`apps/server/src/federation.rs:845-847`); both wait for a history
  pass. In the model the filter may report any id it never got and the bus may
  lag: `LostOfferLeavesAGap` is a run that ends quiet with the post missing, and
  `MarkedExactlyWhen`, `ArrivedExactlyWhen`, `WalkArrivedExactlyWhen` and
  `HeldExactlyWhenReached` say exactly when that is so.
- Trusted pins are said to persist (`apps/server/src/fed_flood.rs:11-12`). A boot
  that cannot read the pin file starts from nothing, and the next pin written
  replaces the file: `UnreadableBootRebinds`, with `PinsKeptExactlyWhen` for when
  nothing is lost.
- Watermarks are said to survive restarts (`apps/server/src/fed_catalog.rs:38-42`).
  A boot that cannot read the cache file forgets them:
  `WatermarkNeverFallsExactlyWhen`, `BlindBootTakesAnything`.
- A quota of the largest 64-bit number is no quota, because the sum saturates:
  `GatePassesExactlyWhen`.

## Model

| member | source | states |
|---|---|---|
| Transcript.SignableInjective | apps/server/src/federation.rs:396-419 | a signature over a transcript fixes both keys, both origins and both nonces, for all origins shorter than 65536 bytes |
| Transcript.TranscriptInjective | apps/server/src/federation.rs:398-419 | the encoding itself is injective, byte string by byte string |
| Transcript.WrappedLengthCollides | apps/server/src/federation.rs:412-415 | from 65536 bytes on the 16-bit length wraps and two different pairs of origins get the same transcript |
| Handshake.InjectiveAgreement | apps/server/src/federation.rs:598-675 | in every run against an active attacker, an acceptance of another honest burrow's key is matched by exactly one session of that burrow in the opposite role over the same keys, origins and nonces, which matches no other acceptance |
| Handshake.AcceptedOriginIsTrue | apps/server/src/federation.rs:1432-1464 | the origin an honest peer is accepted under, by dialer or listener, is that peer's own |
| Handshake.UndisturbedAccepts | apps/server/src/federation.rs:1403-1472 | two burrows of different origins that are left alone accept each other, on the same terms |
| Handshake.AgreementExactlyWhenKeysDiffer | apps/server/src/federation.rs:616-670 | agreement between two burrows holds in every run if and only if their keys differ |
| Handshake.ReflectionIsAdmitted | apps/server/src/federation.rs:624-674 | the run that shows it: a stranger claims the burrow's own key and returns the burrow's own signature |
| FloodHandlers.FloodEdge.MaybeOffer | apps/server/src/federation.rs:1029-1051 | an unread bus event is offered exactly if the peer's interest covers its board and the filter does not report its id, and is then marked; the filter reports every id it got and may report others |
| FloodHandlers.FloodEdge.HandleIHave | apps/server/src/federation.rs:1053-1113 | the ids asked for are exactly those neither stored nor in the duplicate gate, in order; over-long offers change nothing |
| FloodHandlers.FloodEdge.HandlePull | apps/server/src/federation.rs:1115-1190 | what is served is exactly the held events of that board whose origin key can be vouched for, at most 256, and their ids are marked seen |
| FloodHandlers.FloodEdge.IngestFedEvent | apps/server/src/federation.rs:1238-1361 | one delivered event through every refusal, the trusted-key check, the duplicate gate, the board service and the re-fire |
| FloodHandlers.FloodEdge.HandleEvents | apps/server/src/federation.rs:1192-1236 | a delivery is the fold of its events; an unknown board or an over-long delivery changes nothing |
| FloodHandlers.Burrow.ReconcileFollowups | crates/server-core/src/boards.rs:692-730 | parked follow-ups of a newly arrived post are applied if authorized and dropped if not, all others untouched |
| FloodHandlers.Burrow.IngestBoardEvent | crates/server-core/src/boards.rs:553-605 | a post, a follow-up of a stored post and a parked follow-up each change exactly their row |
| FloodProvenance.Provenance | apps/server/src/federation.rs:1192-1396 | after any run with hostile peers, a stored foreign event verifies under the key pinned for its origin, and if an honest burrow holds that key, that burrow authored the very event in this run |
| FloodProvenance.IssuedWasAuthored | apps/server/src/federation.rs:1238-1300 | everything an honest key ever signed was authored by its holder, under its own origin |
| FloodProvenance.AppliedIsAuthorized | crates/server-core/src/boards.rs:553-730 | a foreign edit or tombstone in force is by its target's author or from its target's server, even when it arrived first |
| FloodProvenance.FloodNeverPins | apps/server/src/federation.rs:1363-1396 | no run without an explicit trust step changes a pin, whatever is flooded |
| FloodProvenance.PinsOnlyByTrust | apps/server/src/fed_flood.rs:134-173 | one step adds at most the trusted pin and never changes or drops one |
| FloodConvergence.SeenMeansHeldOrFlying | apps/server/src/federation.rs:1029-1186 | an id really inserted in an edge's filter means the peer holds the post or a message carrying it is in flight, after any run, whatever the filter also reports |
| FloodConvergence.MarkedExactlyWhen | apps/server/src/federation.rs:836-1051 | once its bus is read out, a session from a holder with a subscribed peer has marked the post if and only if no loss of its offer, to the filter or to lag, is outstanding |
| FloodConvergence.Convergence | apps/server/src/federation.rs:1029-1361 | after any run, if the sessions along a walk of ready, subscribed honest burrows are quiet, a post at one end is at the other, or some session of the walk lost its offer with nothing sent about it since |
| FloodTermination.Lighter | apps/server/src/federation.rs:1029-1361 | every offer, receipt or discard strictly lowers a weight over missing rows, bus events and messages |
| FloodTermination.GossipDiesOut | apps/server/src/federation.rs:1029-1361 | no run of deliveries is longer than the weight of the state it starts in, on any topology |
| FloodTermination.RefiresOnce | apps/server/src/federation.rs:1290-1353 | in any run, one burrow's re-fires of one id are the same step and the same place in its delivery |
| FloodMesh.DrainExists | apps/server/src/federation.rs:1029-1361 | from every state some run of deliveries, bounded by the weight, leaves nothing to deliver |
| FloodMesh.MeshSettles | apps/server/src/federation.rs:1029-1361 | after any history, delivering what is pending ends, and then every burrow on a ready, subscribed walk from a holder of the post holds it, or a session of the walk has a lost offer outstanding |
| FloodLoss.HeldExactlyWhenReached | apps/server/src/federation.rs:836-1361 | in a settled mesh of ready burrows a burrow holds a post if and only if sessions that marked it lead there from a burrow that wrote it or got it from a burrow that is not honest |
| FloodLoss.ArrivedExactlyWhen | apps/server/src/federation.rs:836-1051 | over the only session into a burrow, a held and wanted post has arrived if and only if no lost offer of it is outstanding |
| FloodLoss.WalkArrivedExactlyWhen | apps/server/src/federation.rs:836-1051 | along a walk of such sessions the post is at every burrow if and only if no session has a lost offer outstanding |
| FloodLoss.LostOfferLeavesAGap | apps/server/src/federation.rs:180-182 | one post and one false report, or one lag, end in a settled mesh whose subscribed, ready peer is without the post |
| OriginPins.FloodState.Trust | apps/server/src/fed_flood.rs:145-173 | every refusal, and the order persist-then-publish: a failed write leaves the readers' map alone |
| OriginPins.FloodState.PersistPins | apps/server/src/fed_flood.rs:243-266 | the file becomes exactly the map, or stays as it was |
| OriginPins.ReadPinFile | apps/server/src/fed_flood.rs:188-241 | the loop with its early exits loads all of a good file and nothing of a bad or unreadable one |
| OriginPins.ReadPersisted | apps/server/src/fed_flood.rs:188-266 | reading after persisting is the identity on every registry |
| OriginPins.RegistryOnlyGrows | apps/server/src/fed_flood.rs:134-266 | over every run of trusts, failed writes, deaths around the rename and restarts, readable or not, the registry is a bijection of at most 4096 valid names and readers see only what the file holds; while nothing is overwritten, no origin is seen under two keys and readers of the whole file miss no earlier pin |
| OriginPins.PinsKeptExactlyWhen | apps/server/src/fed_flood.rs:134-266 | no pin once on disk is ever dropped or rebound if and only if no pin is written over a file holding another that the last boot did not read |
| OriginPins.ReadableRunsHideNothing | apps/server/src/fed_flood.rs:134-241 | while every boot reads its file, readers see all of it and nothing is ever overwritten |
| OriginPins.UnreadableBootRebinds | apps/server/src/fed_flood.rs:145-191 | the run that shows it: a pin, an unreadable boot, and the same origin pinned to another key |
| OriginPins.InsertedExactlyWhen | apps/server/src/fed_flood.rs:145-173 | the origin is bound to the key afterwards if and only if the answer was inserted or existing |
| Hex.DecodeEncode | apps/server/src/fed_flood.rs:216-254 | a key survives its hexadecimal form |
| CatalogStore.CatalogState.LoadPeers | apps/server/src/fed_catalog.rs:161-186 | never over live state, nothing from an unreadable or invalid file; payloads of unapproved tuples are hidden before anything is visible |
| CatalogStore.CatalogState.PersistCurrent | apps/server/src/fed_catalog.rs:188-202 | the file becomes one record per watermark, or stays as it was |
| CatalogStore.CatalogState.RevokePeer | apps/server/src/fed_catalog.rs:252-270 | the payload is hidden and the marker retired whether or not the write succeeds |
| CatalogStore.CatalogState.BeginFetch | apps/server/src/fed_catalog.rs:272-302 | the approval, name and capacity refusals, and a new marker exactly when the key is new or its origin changed |
| CatalogStore.CatalogState.StoreVerified | apps/server/src/fed_catalog.rs:304-353 | tests, retention and write before publication, in the specification's order |
| CatalogStore.CatalogState.IngestFetched | apps/server/src/fed_catalog.rs:521-535 | size and signature under the fetched key come first |
| CatalogStore.CatalogState.Wants | apps/server/src/fed_catalog.rs:357-363 | fresher than the watermark, revoked or not |
| CatalogStore.CatalogState.ApprovedPeerCatalogs | apps/server/src/fed_catalog.rs:237-250 | exactly the payloads whose stored tuple is approved at the read, in strictly ascending key order |
| CatalogStore.CatalogState.WriteCache | apps/server/src/fed_catalog/cache.rs:118-164 | records are exactly the snapshot of the map; a watermark without origin fails the write |
| CatalogStore.ReadCache | apps/server/src/fed_catalog/cache.rs:75-115 | accepts a file if and only if every record and both retention limits hold |
| CatalogStore.TrimCache | apps/server/src/fed_catalog/cache.rs:169-190 | the loop with running counts computes the retention specification |
| CatalogStore.OrderAfter | apps/server/src/fed_catalog.rs:336-342 | one more than the largest retention order in use |
| CatalogModel.TrimKeeps | apps/server/src/fed_catalog/cache.rs:169-190 | a trim keeps every watermark, ends within both limits, drops only payloads older than all it keeps, and leaves a store within limits alone |
| CatalogModel.NewestSurvives | apps/server/src/fed_catalog.rs:336-348 | the payload just stored is never the one evicted |
| CatalogModel.ReadBack | apps/server/src/fed_catalog/cache.rs:53-164 | what a sound store writes is accepted on reading and gives back every watermark, origin, order and payload |
| CatalogRuns.WatermarkNeverFallsExactlyWhen | apps/server/src/fed_catalog.rs:161-363 | no interleaving of fetches, failed writes, operator transactions, evictions, crashes and reloads lowers a watermark, if and only if no boot fails to read the cache file over a watermark |
| CatalogRuns.FileCoversTheVisible | apps/server/src/fed_catalog.rs:188-353 | after every run the file passes its own checks and is never behind a visible watermark |
| CatalogRuns.BlindBootTakesAnything | apps/server/src/fed_catalog.rs:161-176 | after a boot that cannot read the cache file, an approved peer's catalog is listed whatever its generation |
| CatalogRuns.StoredExactlyWhenWanted | apps/server/src/fed_catalog.rs:318-363 | a verified catalog of a live fetch is stored if and only if `wants` says it is fresher |
| CatalogRuns.ListedIsCurrent | apps/server/src/fed_catalog.rs:237-250 | after any run, what search lists is signed by its own key, at its key's watermark and of a tuple approved at that moment |
| CatalogRuns.NoLateCommit | apps/server/src/fed_catalog.rs:237-353 | a fetch begun before its key was revoked or changed origin never commits afterwards, however often the key is approved again |
| CatalogRuns.ApprovalsSurviveExactlyWhen | apps/server/src/federation.rs:1696-1876 | a reboot gives back the persisted approvals if and only if the file passes its own checks |
| CatalogRuns.ApprovalMayShareOrigin | apps/server/src/federation.rs:1798-1836 | two keys can come to be approved for one origin |
| CatalogRuns.SharedOriginVoidsTheFile | apps/server/src/federation.rs:1696-1745 | and then a reboot forgets every approval but the configured ones |
| CatalogRevocation.RevocationSurvives | apps/server/src/federation.rs:1838-1849 | once a hand revocation's withdrawal is on disk, whatever is later listed for the key has a generation above its watermark, through any crash, reload and re-approval, even if that revocation's cache write failed, or some boot in between could not read the cache file |
| LocalCatalog.Local.LocalCatalog | apps/server/src/fed_catalog.rs:376-416 | an unchanged listing is reused, a changed one supersedes the last by one generation |
| LocalCatalog.OneChainExactlyWhen | apps/server/src/fed_catalog.rs:133-416 | what is shown and what is on disk are links of one chain, all through a run of rebuilds, bad writes and restarts, if and only if no boot fails to read a catalog that is there |
| LocalCatalog.ChangedListingSupersedes | apps/server/src/fed_catalog.rs:386-400 | a changed listing links to what peers were shown, one generation on |
| LocalCatalog.RestartContinuesExactlyWhen | apps/server/src/fed_catalog.rs:133-157 | the generations go on rising across a restart if and only if the boot reads a catalog not behind the last one shown, which on one chain is the last one shown |
| LocalCatalog.GenerationReissued | apps/server/src/fed_catalog.rs:405-416 | a failed write and a restart issue generation 2 twice, for different listings |
| UploadStaging.ReceiveBoundedUpload | apps/server/src/handlers9.rs:263-302 | success if and only if the stream ends cleanly exactly at the declared size and the disk takes it; whatever happens the file changes by exactly the prefix that fits, for every way the reads are cut |
| UploadStaging.TransferRegistry.ChunkPut | apps/server/src/handlers9.rs:810-870 | a refused put changes nothing, one cut short by the disk lands its prefix and raises nothing, an accepted one is written where it says and raises `have` to its end |
| UploadStaging.TransferRegistry.BulkUpload | apps/server/src/handlers9.rs:169-261 | the ticket checks, the bounded write, and `have` raised only by a stream accepted whole |
| UploadStaging.TransferRegistry.CloseSession | apps/server/src/handlers9.rs:135-153 | exactly the session's tickets go, and exactly their staging files are handed back |
| UploadStaging.WriteJoins | apps/server/src/handlers9.rs:278-288 | adjacent writes are one write, which is why the cutting of a stream cannot matter |
| UploadStaging.OrderIndependent | apps/server/src/handlers9.rs:834-860 | two runs of pieces of one content that cover the same positions leave the same file, whatever their order, repetition and interleaving |
| UploadStaging.StagedExactlyWhen | apps/server/src/handlers9.rs:834-860 | the staged file is the content if and only if it is long enough and every hole is a zero of the content |
| UploadStaging.CoveringGivesContent | apps/server/src/handlers9.rs:834-860 | pieces that cover the content stage exactly the content |
| UploadStaging.SizeBound | apps/server/src/handlers9.rs:812-866 | no accepted write reaches the declared size, and `have` never exceeds it |
| UploadStaging.HandlersStageSlices | apps/server/src/handlers9.rs:810-870 | both handlers let through only pieces inside the declared size, and slices of the content when the peer sends it |
| UploadStaging.HighWaterIsPrefixExactlyWhen | apps/server/src/handlers9.rs:91-92 | a put leaves `have` the length of a staged prefix if and only if nothing was missing between the old mark and the put |
| UploadStaging.EmptyPutRaisesTheMark | apps/server/src/handlers9.rs:861-867 | an empty put at the end raises `have` to the whole size with nothing staged |
| UploadQuota.NeverOverQuota | apps/server/src/handlers9.rs:896-945 | with one quota in force, no interleaving of filings, failures, cancellations and deletions takes an account over it |
| UploadQuota.GatePassesExactlyWhen | apps/server/src/upload_gate.rs:99-126 | the gate passes if and only if both limits hold and the space in use is known, with the saturated quota as the one exception |
| UploadQuota.OpenFilingsMayExceed | apps/server/src/handlers8.rs:367-409 | filings that do not fit together can each pass the early check, so the check under the lock is the one that counts |
| Doors.UsageLease.Start | apps/server/src/doors.rs:204-217 | refused when the day has changed; otherwise the budget is cut to the rest of the day |
| Doors.UsageLease.Finish | apps/server/src/doors.rs:225-252 | the reservation is taken out first, so a lease settles at most once, by the rounded-up elapsed time |
| Doors.UsageLease.Deadline | apps/server/src/doors.rs:204-223 | known once a run with a budget has started; on the wall clock a metered run's deadline is less than a millisecond past the midnight that ends its day |
| Doors.ReserveRun | apps/server/src/doors.rs:130-158 | an unmetered door never touches the ledger; a metered one asks for the rest of the day under the session cap |
| Doors.WindowEndsAtMidnight | apps/server/src/doors.rs:161-177 | the window is the current UTC day and ends at its midnight, up to the fraction of a millisecond cut off |
| Doors.DeadlinePassesMidnightExactlyWhen | apps/server/src/doors.rs:161-223 | a deadline passes midnight if and only if the budget is the whole rest of the day and the start was not on a whole millisecond, and by less than one |
| Doors.DeadlineDoesPassMidnight | apps/server/src/doors.rs:161-223 | a wall time at which it does |
| DoorLedger.GrantedExactlyWhen | crates/store-server/src/doors.rs:22-85 | a reservation is granted if and only if a real account has time left, gets all it asked for or all there is, and touches no other budget |
| DoorRuns.AllowanceConserved | crates/store-server/src/doors.rs:22-118 | after any run, a budget's charge is what live reservations hold plus what settled ones used, rounded up and capped at their grants, and is within the daily limit |
| DoorRuns.NeverUndercharged | apps/server/src/doors.rs:179-252 | the charge never undercounts the real time used, each run up to its grant, through crashes and failed settlements |
| DoorRuns.SettledOnce | crates/store-server/src/doors.rs:87-118 | once settled, a reservation's charge never changes again short of deleting the account |
| DoorRuns.UnstartedIsFree | apps/server/src/doors.rs:331-371 | a run that never started, or did not spawn, gets its whole grant back |
| BackupPaths.SafeRelPath | apps/server/src/backup.rs:523-533 | every accepted name is a non-empty path of plain components |
| BackupPaths.RefusedExactlyWhen | apps/server/src/backup.rs:523-533 | reading a name as root, current, parent and plain components, it is accepted if and only if it has components and all are plain; in terms of the text, refused if and only if it is empty, starts with a slash or a dot component, or has a double dot anywhere |
| BackupPaths.SlashRoundTrip | apps/server/src/backup.rs:523-548 | the written form of a path is read back as that path |
| Backup.WalkBlobs | apps/server/src/backup.rs:268-286 | the directory-stack walk plans every stored file but temporaries, each once, and ends |
| Backup.CopyAndManifest | apps/server/src/backup.rs:242-330 | the snapshot holds exactly the files to be taken and the database, and its manifest describes exactly those, sorted by name |
| Backup.VerifySnapshot | apps/server/src/backup.rs:142-176 | accepts if and only if the manifest's version is right and every entry's path, size and hash hold |
| Backup.RestoreOffline | apps/server/src/backup.rs:178-221 | refused without a change while a burrow answers or the snapshot does not verify; otherwise the old directory is set aside whole and exactly the manifest's files are restored |
| Backup.DescribedRestores | apps/server/src/backup.rs:142-221 | a snapshot whose manifest describes its files verifies and restores to exactly those files |
| BackupRuns.SnapshotHoldsItsBlobs | apps/server/src/backup.rs:116-140 | however uploads and other writers interleave, a completed snapshot holds, for every blob its database references, the bytes the id stands for |
| BackupRuns.SnapshotRestores | apps/server/src/backup.rs:116-330 | however other writers interleave, the manifest such a run itself builds verifies, and its restore is exactly what was copied, database and referenced blobs included |
| BinkpFrame.DecodeEncoded | crates/legacy-binkp/src/frame.rs:68-126 | an encoded block is decoded again, whatever follows it |
| BinkpFrame.DecodeIgnoresTheRest | crates/legacy-binkp/src/frame.rs:99-126 | a decided block does not change when more bytes arrive |
| BinkpPump.DriveSession | apps/server/src/ftn.rs:630-718 | for every session and every way the reads are cut, the pump ends as if the whole stream were decoded from its front |
| BinkpPump.Pump.Perform | apps/server/src/ftn.rs:720-778 | a batch of actions does what each does in turn, up to the first that ends or fails the session |
| BinkpPump.Pump.Stream | apps/server/src/ftn.rs:739-747 | a body goes out as data blocks of at most 32767 bytes |
| BinkpPump.FileArrives | apps/server/src/ftn.rs:633-778 | a file cut into blocks by the sender is appended back to the same bytes and closed with its last block |
| BinkpPump.AnnouncementOpens | crates/legacy-binkp/src/session.rs:433-454 | an announced file starts empty, and an empty one is complete at once |
| BinkpPump.ArrivesExactlyWhen | crates/legacy-binkp/src/session.rs:456-472 | under a wrong announced size a file still arrives whole, with nothing left over, if and only if that size falls within its last block |
| VisibleSearch.Search | apps/server/src/handlers8.rs:178-205 | ends over any library, changing or not; over one that stays the same it is the simple search of the full newest-first order |
| VisibleSearch.FirstVisibleExactly | apps/server/src/handlers8.rs:87-106 | that search returns exactly the first visible rows up to the limit, and fails if and only if a check fails before enough are found |
| VisibleSearch.BelowIsTheRest | crates/store-server/src/repo6.rs:594-628 | the page under a row's cursor continues the order exactly after that row |
| VisibleSearch.DescendingIsSorted | crates/store-server/src/repo6.rs:610-617 | the full order is strictly newest first with ids breaking ties |
| HistoryMirror.Window.Start | apps/desktop/src/native-shim.js:24-53 | a load resumes from the entry's marker and the stored top, or from nothing |
| HistoryMirror.Window.PushState | apps/desktop/src/native-shim.js:54-60 | a push that throws moves nothing; one that succeeds branches |
| HistoryMirror.Window.ReplaceState | apps/desktop/src/native-shim.js:61-64 | only the current entry changes, and keeps its marker |
| HistoryMirror.Window.OnPopState | apps/desktop/src/native-shim.js:65-76 | marked entry, fragment link and unknown entry, each as the listener treats it |
| HistoryMirror.Window.Navigate | apps/desktop/src/native-shim.js:91-101 | a menu destination is a push followed by a harmless event, and nothing when already there |
| HistoryMirror.MirrorIsAccurate | apps/desktop/src/native-shim.js:24-77 | from a fresh window, over every run of pushes, replaces, traversals, fragment links and reloads, `index` is the true position, `last` the true top, and the menu offers exactly what exists |
| HistoryMirror.BackAndForwardUndo | apps/desktop/src/native-shim.js:102-112 | Back and Forward undo each other wherever they are offered |
| HistoryMirror.ResetIsAccurateExactlyWhen | apps/desktop/src/native-shim.js:71-74 | the reset for unknown entries is right if and only if there is one entry |
| HistoryMirror.ReloadWithoutStorageExactlyWhen | apps/desktop/src/native-shim.js:30-35 | a reload without session storage is right if and only if it happens at the top |
| Base64.DecodeBase64 | apps/desktop/src/transfers.rs:832-859 | the bit-shifting loop, on checked 32-bit numbers, computes the group-wise meaning of the digits, or refuses |
| Base64.PendingIsSmall | apps/desktop/src/transfers.rs:843-857 | the pending bits number 0, 2, 4 or 6 and the accumulator is below two to that power |
| Base64.DecodesWhatWasEncoded | apps/desktop/src/transfers.rs:829-859 | any text whose letters are the encoding of some bytes decodes to those bytes, wherever padding and whitespace stand |
| Base64.EncodingsAreRead | apps/desktop/src/transfers.rs:829-859 | both the padded and the unpadded encoding of section 4 of RFC 4648 decode, and with a blank inserted anywhere |
| Base64.RefusedExactlyWhen | apps/desktop/src/transfers.rs:844-849 | a text is refused if and only if some byte is neither a digit nor padding nor whitespace |

## Left out

- FloodHandlers.FloodEdge.IngestFedEvent: a storage error in the board service, after which the source releases the reservation of an id it has already marked (`apps/server/src/federation.rs:1308-1334`), is not modelled; the service either stores or forbids.
- Subscription exchange and history catch-up logic: interests are fixed during a run, and a history offer is any offer of held ids that the interest covers.
- Frames over their bounds: the source closes the session, the model drops the frame and lets the session do nothing more.
- Ingest budgets, rate limits and denied keys: refusals in front of the modelled steps; they remove runs.
- Thread retention and duplicate-window eviction: rows and duplicate-gate entries are kept, as the once-only re-fire needs.
- Follow-ups in convergence: delivery everywhere is claimed for posts only; for follow-ups authorship and authorization are proved.
- Handshake approval and connection state: agreement is about authentication; what an approved or pending peer may do next is in the catalog and flood modules.
- Dial targets without a key: configured targets are known by key in the catalog runs, and revocation excludes configured keys, as the source refuses to revoke them.
- Peer-cache file bytes: its own signature, version byte and total size limit are not modelled; a file is read as it was written or, at the boot's choice, not at all.
- Markers of different keys: one load gives all reloaded entries one marker, since only markers of one key are ever compared.
- Collecting the local listing: which files are public is a parameter of `LocalCatalog`, and so is its collection before the lock.
- Download tickets, bandwidth throttling and the per-account transfer cap: easy members, or not one atomic step in the source.
- Quota changes during a run: `NeverOverQuota` fixes the limits, because lowering a quota cannot undo files already kept.
- Door processes, node leases and drop files: the ledger and the lease see only when a run starts and ends.
- Timestamped snapshot names, file modes, symbolic links and the database's own integrity check: input and output around the modelled copy.
- The peer-catalog cache in snapshots: the source does not take it, so the model does not either.
- Mail-session greeting, authentication and acknowledgement handling: the pump is proved for every session; of the session only announcement and data are modelled.
- Inbound file names: taken to be sanitized already.
- Full-text matching: which rows match a query is a parameter of the search; their order, paging and authorization are modelled.
- Histories with entries from before the shim loaded and same-address fragment links: the mirror resets there by design; `ResetIsAccurateExactlyWhen` says when that is right.
- Download reservations, attempt ids and save dialogs of the desktop shell: easy members.
- The remaining request handlers, command line, telnet shell, feeds, port mapping and directory announcements: thin dispatch over services that are not part of this model.
