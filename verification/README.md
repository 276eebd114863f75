# Verified models of the release, recovery and live-test logic

This project models, in Dafny 4.11, the stateful logic outside the product packages: the seed archive writer, the
event-stream reader of the live tests, the detached session daemon, the two scheduled backup jobs, the resume session,
the desktop (RFB) client, the inspector driver, alert delivery, and the two policy checkers of the release. The main
results are for all inputs, chunkings, interleavings or runs of the modelled steps; a member that only shows where the
code does less gives a single run or a family of them.

Run `dafny verify dfyconfig.toml` to check the whole project.

## How the files follow the source

| files | source | what is modelled |
|---|---|---|
| `OctalFields`, `Ustar`, `TarHeaders`, `TarArchive`, `TarTree` | `scripts/build-pglite-seed.ts` | the archive writer on octets, and an independent reader of the ustar format of IEEE Std 1003.1 |
| `Text`, `Framers`, `EventStream`, `LiveUpdates` | `examples/e2e/contract-messages.ts`, the child drivers, `examples/native/controller.ts` | chunked text, line framing, blocks of an event stream, the turn |
| `SessionDaemon` | `examples/resume/daemon.ts`, `daemon-lock.ts`, `launcher.ts` | launchers and daemons, interleaved file operation by file operation |
| `ManagerBackup`, `AccountBackups`, `Calendar`, `BackupWindow` | `deploy/recovery/*` | the crash-restart job, admit then poll, the window name |
| `Workspaces`, `ResumeSession` | `examples/resume/session.ts`, `gateway.ts` | generations and their gateways, with every `await` a point of interleaving |
| `ChunkedStream`, `Rfb`, `DesktopMessages`, `DesktopClient` | `examples/e2e/desktop-client.ts` | the reader over a socket that closes itself when too much is unread, the handshake, capture and input, against encoders and decoders written from RFC 6143 |
| `InspectorDriver` | `examples/e2e/managed-purge-bootstrap-debugger.ts` | ids, deferreds, and the breakpoint barrier |
| `Monitoring` | `examples/e2e/monitoring-fixture.ts`, `monitoring-notification.ts` | the search, the cursors and the episodes |
| `Boundaries` | `scripts/check-boundaries.ts` | the layering and the publication check, and what they say about dependency chains |
| `ImagePolicy`, `Publication` | `scripts/image-policy.ts`, `scripts/publish-candidate-images.ts` | the image set, and the order of checks and registry writes |
| `Common`, `Bytes` | | sequence and octet helpers |

## Where the code does less than one would expect

Each of these is proved. The member named states the exact condition under which the code meets the expectation,
or, where it says so, a case in which it does not.

- **Chunks of an event stream.** The buffer is normalised again with every chunk, so a text with CR CR LF is cut into
  different blocks depending on its chunks. The blocks do not depend on the chunks if and only if the text has no
  CR CR LF (`EventStream.ChunksInvisibleIff`). With it the outcome of a turn can differ as well: so it does for any two
  blocks that start and end a turn and any line behind them (`LiveUpdates.OutcomeDependsOnChunks`).
- **Archive fields.** Sizes and times of `8^11` and more, times before 1970, and names with a NUL are written without
  an error, but a standard reader does not return them. Everything else reads back (`TarArchive.ArchiveRoundTrip`).
- **Window names.** `toISOString()` has ten characters before the `T` only for the years 0 to 9999. Outside them the
  name loses the date (`BackupWindow.SharedName`, `BackupWindow.NamesCollide`).
- **Large desktop messages.** With more than 8 MiB unread the client closes its own socket, and later messages are
  dropped. A handshake or a capture gets what it needs if and only if no needed octet comes after that
  (`DesktopClient.ConnectSucceeds`, `DesktopClient.CaptureSucceeds`). However the server cuts its stream, the capture
  succeeds if and only if the whole update has at most 8 MiB and one octet (`DesktopClient.EveryChunkingCaptured`).
- **Desktop pixels.** A capture reads every pixel as 32 bits, so with 8 or 16 bits per pixel it throws in the middle
  of an update (`DesktopClient.CaptureSucceeds`).
- **The breakpoint barrier.** Arming or resuming while a barrier is still waiting leaves its waiter pending for ever,
  also when the driver fails. In every other run a failure settles everything (`InspectorDriver.Driver.Drive`).
- **The published connection file.** A daemon that is stopped while it still sets up removes the file before its own
  line of control is at its end, and may then publish. Ownership of the file is safe after a removal if and only if
  that line had ended, by its rename or its failure (`SessionDaemon.RemovalIff`).
- **A lock that stays.** The lock is freed in some continuation if and only if its holder still runs and none of the
  three steps of its cleanup has thrown (`SessionDaemon.LockFreedIff`). A holder can die (`SessionDaemon.HolderCanDie`),
  and its cleanup can throw (`SessionDaemon.HolderCanBreak`).
- **Account backups.** An operation reported as failed is polled like one that is pending, up to the first answer at
  or after the deadline (`AccountBackups.FailedIsPolled`).
- **Gateways of late resumes.** A resume that goes ahead while the session is being closed makes a gateway that is not
  stopped. At the end of `close` a gateway still serves if and only if, among the events let in while it waited, there
  is a creation or a resume of a member with no further `close` after it (`ResumeSession.Session.Close`). A resume of
  any member during the first wait is such an event (`ResumeSession.CloseDuringResume`, `ResumeSession.LateResume`).
- **Overlapping waits for alerts.** A wait sets the cursor of its family only after its match. The cursors go forward,
  and no batch is used twice, if and only if no wait is overtaken in between by another wait or a fault of its family
  (`Monitoring.Fixture.ForwardIff`); two waits for one firing can both use the same batch (`Monitoring.Fixture.TwoWaits`).
- **Layering.** A dependency type that the table does not know, or a second project of the same name, can hide a chain
  that goes outwards (`Boundaries.UnknownTypeHides` and `Boundaries.SharedNameHides` give cases). What a clean report
  does say, for every list of projects, is that every project has a type and no chain of known types goes outwards as
  the check resolves names (`Boundaries.LayeringExact`).

## Model

| member | source | states |
|---|---|---|
| `OctalFields.FieldRoundTrip` | scripts/build-pglite-seed.ts:62-64 | a standard reader gets a number back from its field exactly when it is not negative and fits the width, and only then the text has the width of the field |
| `OctalFields.DigitsFit` | scripts/build-pglite-seed.ts:63 | the octal text of a number has at most `width` digits exactly when the number is below 8^width |
| `OctalFields.ValueOfDigits` | scripts/build-pglite-seed.ts:63 | reading the octal digits of a number gives that number |
| `Bytes.WriteAt` | scripts/build-pglite-seed.ts:70-80 | a buffer write replaces the octets at its offset, stops at the end of the buffer, and changes nothing else |
| `TarHeaders.TarHeader` | scripts/build-pglite-seed.ts:67-82 | throws exactly for a name over 100 octets; otherwise the buffer filled write by write is the specified header |
| `TarHeaders.PutAllField` | scripts/build-pglite-seed.ts:70-78 | whatever the sequence of writes, octets that no later write touches keep what this write put there |
| `TarHeaders.UnsummedLaidOut` | scripts/build-pglite-seed.ts:69-78 | no field write disturbs another: each field holds its own text, also when a number overflows its field, and the prefix stays empty when none does |
| `TarHeaders.ChecksumFits` | scripts/build-pglite-seed.ts:79-80 | the octet sum of a header is at most 130560, below 8^6, and its six-digit text reads back as the sum |
| `TarHeaders.SummedChecksum` | scripts/build-pglite-seed.ts:78-80 | the stored checksum reads as the sum of the finished header with its own field taken as spaces, and writing it changes only that field |
| `TarHeaders.HeaderRoundTrip` | scripts/build-pglite-seed.ts:67-82 | a standard reader gets name, mode, size, time and type back exactly when size and time fit eleven octal digits, else it rejects; no header is a zero block |
| `TarArchive.PreorderAppend` | scripts/build-pglite-seed.ts:86-94 | the entries of two runs of siblings are those of the first, then those of the second |
| `TarArchive.BlockFaithful` | scripts/build-pglite-seed.ts:91-92 | each entry is a nonzero header, its data, and zeros up to the next 512-octet boundary |
| `TarArchive.Layout` | scripts/build-pglite-seed.ts:91-97 | in the finished archive every header starts on a 512-octet boundary and its data is zero padded up to the next one |
| `TarArchive.ReadStep` | scripts/build-pglite-seed.ts:91-92 | reading one block in front of an archive gives its entry and then the rest, exactly when the entry is representable |
| `TarArchive.EndMarker` | scripts/build-pglite-seed.ts:97 | two zero blocks end the read with no entry |
| `TarArchive.ArchiveRoundTrip` | scripts/build-pglite-seed.ts:84-99 | reading an archive gives exactly its entries, and nothing is left over, if and only if every size and time is below 8^11 (and no time negative) and no name has a NUL |
| `TarTree.FirstLongIs` | scripts/build-pglite-seed.ts:68 | the error names the first entry, in walk order, whose path is over 100 octets |
| `TarTree.TarBuilder.Push` | scripts/build-pglite-seed.ts:91-92 | pushing one entry fails exactly for a long path, and else appends its header, data and padding |
| `TarTree.TarBuilder.AddNode` | scripts/build-pglite-seed.ts:87-94 | one turn of the loop appends the entry and then everything below it |
| `TarTree.TarBuilder.Add` | scripts/build-pglite-seed.ts:86-95 | the recursive loop over growing blocks appends the pre-order list, or stops at its first long path |
| `TarTree.TarDirectory` | scripts/build-pglite-seed.ts:84-99 | the program returns the archive of the tree's pre-order list, or the error of the first long path |
| `TarTree.RebuildPreorder` | scripts/build-pglite-seed.ts:86-94 | the flat pre-order list determines the directory tree |
| `TarTree.TreeRoundTrip` | scripts/build-pglite-seed.ts:84-99 | for every directory tree without long paths: the archive reads back exactly when each entry is representable, and extracting it restores the tree with permission bits and whole seconds |
| `Text.IndexOfFirst` | examples/e2e/contract-messages.ts:75 | the boundary found is the leftmost occurrence, and -1 means there is none |
| `Text.CutJoins` | examples/e2e/contract-messages.ts:75-79 | cutting at a separator loses nothing and leaves no separator in the rest |
| `Text.CutAppend` | examples/e2e/contract-messages.ts:74-79 | cutting more text first cuts what was there, then the rest together with the new text |
| `Framers.TakeLines` | examples/e2e/managed-purge-bootstrap-debugger.ts:35-40 | the index-and-slice loop takes every complete line off a buffer and keeps the tail |
| `Framers.ReadLines` | examples/e2e/managed-purge-bootstrap-debugger.ts:31-42 | whatever the chunks, the lines received are the newline-terminated lines of the whole stream, and the unterminated tail is kept |
| `Framers.SplitIsCut` | examples/native/controller.ts:11-12 | splitting at newlines and popping the last piece gives the same lines and tail as cutting line by line |
| `Framers.StartupOutput` | examples/native/controller.ts:6-18 | whatever the chunks, the split-and-pop framer with its last flush gives the same lines, and a nonempty tail as one more |
| `Framers.LinesHaveNoNewline` | examples/e2e/managed-purge-bootstrap-debugger.ts:36-39 | no framed line and no tail holds a newline, and terminated lines plus tail are the text |
| `Framers.CommandLoop` | examples/e2e/managed-interruption-child.ts:26-42 | whatever the chunks, every complete line up to the first that does not parse gets exactly one reply, in order, with its own id and the result of its own reconciliation |
| `EventStream.NormalizeAppend` | examples/e2e/contract-messages.ts:74 | replacing CR LF works piece by piece as long as no cut falls inside a pair |
| `EventStream.NormalizeAgain` | examples/e2e/contract-messages.ts:74 | normalising a buffer that was normalised before equals normalising the text once, for a buffer whose text has no CR CR LF |
| `EventStream.ReceiveIs` | examples/e2e/contract-messages.ts:74-79 | after any text without CR CR LF, one more chunk completes the blocks that normalising and cutting the longer text at once would add |
| `EventStream.ChunkInvariant` | examples/e2e/contract-messages.ts:68-79 | any chunking of a text without CR CR LF drains what normalising the whole text once and cutting it leftmost gives |
| `EventStream.CutAtDoubled` | examples/e2e/contract-messages.ts:74 | cutting a text just behind its first CR CR LF makes it lose a character, so the drained text differs |
| `EventStream.ChunksInvisibleIff` | examples/e2e/contract-messages.ts:68-79 | all chunkings of a text drain the same blocks and rest if and only if the text has no CR CR LF |
| `LiveUpdates.SseEvent` | examples/e2e/contract-messages.ts:46-59 | the loop over the lines of a block yields the event of the block, and none when its data is not an object |
| `LiveUpdates.EventNameIs` | examples/e2e/contract-messages.ts:47-50 | the event name is that of the last event line, and "message" without one |
| `LiveUpdates.FoldMeaning` | examples/e2e/contract-messages.ts:80-97 | the turn ends at the first "stable" after an eligible message or a "running"; its updates are the eligible messages before it without repeated neighbours |
| `LiveUpdates.UpdatesKept` | examples/e2e/contract-messages.ts:80-90 | every update kept is the text of an agent message with an id above the baseline, and no two neighbours are equal |
| `LiveUpdates.EarlyReturn` | examples/e2e/contract-messages.ts:94-97 | nothing after the block that ended the turn changes the outcome |
| `LiveUpdates.ObserveLiveUpdates` | examples/e2e/contract-messages.ts:67-99 | the incremental reader, with its buffer and early return, gives the outcome of folding all blocks the chunks complete |
| `LiveUpdates.OutcomeChunkInvariant` | examples/e2e/contract-messages.ts:61-103 | for a text without CR CR LF the outcome is that of normalising it once, cutting it at blank lines, and folding the events |
| `LiveUpdates.OutcomeDependsOnChunks` | examples/e2e/contract-messages.ts:74 | for any block that starts a turn and any block that reports it stable and any text after it in one line, also an empty one, there is a text with CR CR LF for which one cut behind that makes the difference between no outcome and the finished turn |
| `LiveUpdates.ReportIsBlock` | examples/e2e/contract-messages.ts:46-59 | such blocks exist |
| `SessionDaemon.AtMostOneHolder` | examples/resume/daemon-lock.ts:8-17 | in every interleaving of any number of launchers and daemons at most one daemon is between claim and release, and the lock is its own |
| `SessionDaemon.ReleaseOwn` | examples/resume/daemon.ts:18-26 | a release removes the lock of its own claim, never a successor's |
| `SessionDaemon.ReleaseOnce` | examples/resume/daemon.ts:20-24 | however often closing is asked for, a daemon releases at most once |
| `SessionDaemon.DeadHolderKeepsLock` | examples/resume/daemon-lock.ts:10-15 | a lock whose holder is dead is never removed and never taken again |
| `SessionDaemon.LockFreedIff` | examples/resume/daemon.ts:18-35 | from every reachable state some continuation frees the lock if and only if its holder still runs and neither its stack cleanup, nor its removal of the file, nor its release has thrown |
| `SessionDaemon.HolderCanDie` | examples/resume/daemon-lock.ts:8-17 | some run ends with a dead holder, after which no continuation frees the lock |
| `SessionDaemon.HolderCanBreak` | examples/resume/daemon.ts:18-35 | some run ends with a holder that still runs but whose cleanup has thrown, after which no continuation frees the lock |
| `SessionDaemon.RemovalIff` | examples/resume/daemon.ts:18-62 | as long as daemons remove the file only at the end of their own line, ownership of the file is safe in every continuation of a removal if and only if that removal too comes after the rename or a failure; otherwise the daemon alone leaves a file without a lock |
| `SessionDaemon.SettledIsQuiet` | examples/resume/daemon.ts:18-62 | if every removal comes after the daemon's rename or failure, no write or rename follows a removal, and a visible file is always the lock holder's |
| `SessionDaemon.FileBelongsToHolder` | examples/resume/daemon.ts:43-56 | if no daemon writes or renames after its own removal, a visible connection file always describes the session of the current lock holder |
| `SessionDaemon.LauncherReturnsHolder` | examples/resume/launcher.ts:11-68 | a launcher returns only the connection of a daemon that has published and holds the lock at that moment |
| `SessionDaemon.SameSession` | examples/resume/launcher.ts:44-68 | launchers that return with no release in between return the same session |
| `SessionDaemon.StoppedOnlyWithoutLock` | examples/resume/launcher.ts:51-56 | "startup stopped" is raised exactly when the lock is absent, after the launcher's own daemon exited with 0; that daemon lost the claim or was asked to stop and has released |
| `SessionDaemon.LateRenameBreaks` | examples/resume/daemon.ts:18-26 | a rename after the daemon's own removal leaves a file without a lock holder once it releases |
| `SessionDaemon.PremiseNeeded` | examples/resume/daemon.ts:18-56 | some run of a single daemon, stopped while it publishes, ends with a file and no lock |
| `SessionDaemon.QuietRenamesAreNotEnough` | examples/resume/daemon.ts:43-56 | some run in which no rename follows a removal still ends with a file of a daemon that does not hold the lock |
| `ManagerBackup.Job.Identify` | deploy/recovery/manager-backup.ts:31-36 | a window's operation id is written before anything uses it, an issued id is never replaced, and a damaged file stops the run |
| `ManagerBackup.Job.Perform` | deploy/recovery/manager-backup.ts:38-51 | the capture is called at most once, with the recorded id; the last receipt only moves to this window's, together with a success |
| `ManagerBackup.Job.Run` | deploy/recovery/manager-backup.ts:19-58 | with a throw or a crash at any write: identities and receipts are kept, a started or failed run never loses the last good receipt, and a run returns exactly when nothing around it goes wrong, leaving a success that names its capture; a run that throws reports a failure with the old receipt |
| `ManagerBackup.Job.Schedule` | deploy/recovery/manager-backup.ts:13-59 | over any sequence of runs with crashes, captures of one window carry one operation id and captures of different windows different ids |
| `ManagerBackup.OneIdPerWindow` | deploy/recovery/manager-backup.ts:31-47 | in every consistent disk state two captures share an operation id exactly when they share a window |
| `ManagerBackup.HealthMeans` | deploy/recovery/manager-backup.ts:23-53 | the receipt the health file names exists and came from a completed capture, and "succeeded" names the receipt of the recorded operation |
| `AccountBackups.AdmitAll` | deploy/recovery/account-backups.ts:28-40 | the first loop admits every ready account in order and sorts the others out |
| `AccountBackups.Follow` | deploy/recovery/account-backups.ts:43-56 | polling ends under any clock that advances, takes at least one poll even past the deadline, goes on exactly while the capture is pending and the answer came in time, and completes exactly when the capture succeeded and is listed |
| `AccountBackups.StopsOnce` | deploy/recovery/account-backups.ts:44-49 | the answers and the clock fix after how many polls the polling stops |
| `AccountBackups.FailedIsPolled` | deploy/recovery/account-backups.ts:44-49 | an operation always reported as failed is polled up to exactly the first answer at or after the deadline, and is never completed |
| `AccountBackups.FollowAll` | deploy/recovery/account-backups.ts:43-57 | every admitted capture is polled, and each one completes or counts as one failure |
| `AccountBackups.BackupAccounts` | deploy/recovery/account-backups.ts:23-60 | every ready account is admitted before the first poll; an error counts the refusals and the captures that did not succeed; a normal return means that every ready account was admitted and is in its inventory, and lists all those operations |
| `AccountBackups.EachAccountOnce` | deploy/recovery/account-backups.ts:28-40 | every account is counted exactly once: unavailable, refused or captured |
| `AccountBackups.CapturesAre` | deploy/recovery/account-backups.ts:32-36 | the captures are exactly the ready accounts whose admission was answered, with the id of the answer |
| `AccountBackups.ReturnedMeans` | deploy/recovery/account-backups.ts:57-59 | there is no failure if and only if every ready account was admitted and every capture succeeded and appears in its inventory |
| `BackupWindow.NamesAreWindows` | deploy/recovery/backup-window.ts:1-4 | for the years 0 to 9999 two instants have the same name exactly when floor(ms / 43200000) agrees, and names sort as the windows do |
| `BackupWindow.SharedName` | deploy/recovery/backup-window.ts:1-4 | for all instants, when exactly two names are equal: outside four-digit years, when year, month and half of the day agree |
| `BackupWindow.NamesCollide` | deploy/recovery/backup-window.ts:3 | in every year written with a sign, two different windows have one name |
| `BackupWindow.PlainRange` | deploy/recovery/backup-window.ts:3 | the instants with four-digit years are those from -62167219200000 up to 253402300800000 |
| `Calendar.CivilOrder` | deploy/recovery/backup-window.ts:3 | the order of calendar dates is the order of days |
| `Calendar.YearUnique` | deploy/recovery/backup-window.ts:3 | a day belongs to one year |
| `Workspaces.GoneForever` | examples/resume/gateway.ts:18-20 | a workspace that is terminating or ended never leaves those states |
| `Workspaces.RevokedForGood` | examples/resume/gateway.ts:18-20 | a state never leads back to one in which the gateway forwards exactly when it is terminating or an end; "queued" does lead back |
| `ResumeSession.Session.Gateway` | examples/resume/session.ts:16-30 | a new gateway is listed before its admission is asked for, and is bound to nothing |
| `ResumeSession.Session.BeginResume` | examples/resume/session.ts:44-48 | a resume goes ahead exactly for an id of the session, and otherwise makes no gateway |
| `ResumeSession.Session.Admit` | examples/resume/session.ts:49-61 | an answered admission binds its gateway once, and appends the generation with the source it was resumed from |
| `ResumeSession.Session.Arrive` | examples/resume/gateway.ts:15-17 | a request to an unbound gateway is refused, one to a stopped gateway is not served, any other goes off to read the state of the bound workspace |
| `ResumeSession.Session.Read` | examples/resume/gateway.ts:17-21 | the state that is read, of the workspace bound to the gateway, decides the answer |
| `ResumeSession.Session.Drive` | examples/resume/session.ts:16-61 | over every run: generations only grow, each source is an earlier member, each gateway is bound at most once and to a member, nothing is forwarded for a workspace that was gone at any earlier point, and the members, the open admissions and the number of gateways still serving are as the events tell |
| `ResumeSession.Session.WaitFor` | examples/resume/session.ts:79-89 | a wait returns only in a state it waited for; it throws only for a failed request, a state that rules the wait out, or time that ran out in another state |
| `ResumeSession.Session.EndOne` | examples/resume/session.ts:134-146 | the part of `close` for one generation: it goes on only when that has ended, and throws only for a failed request or its own time limit |
| `ResumeSession.Session.Close` | examples/resume/session.ts:132-146 | closing returns only when every generation has ended, also those a late resume appended meanwhile; at its end a gateway still serves if and only if an event let in while closing, a creation or a resume of a member at that point, made one and no later event stopped the gateways |
| `ResumeSession.OpenMeans` | examples/resume/session.ts:16-61 | over every list of events a gateway is open at the end exactly when one was open before and none stopped them, or some event made one and none after it stopped them |
| `ResumeSession.Session.ServingIff` | examples/resume/session.ts:16-61 | in every session, after any events, a gateway serves exactly when some event, a creation or a resume of a member, made one and no later event stopped the gateways |
| `ResumeSession.Session.ClosedQuietly` | examples/resume/session.ts:132-146 | if no event let in while closing creates or resumes, no gateway serves at its end |
| `ResumeSession.CloseDuringResume` | examples/resume/session.ts:44-61 | a resume of any member during the first wait of `close`, with no second `close`, leaves a gateway serving, however `close` ends |
| `ResumeSession.LateResume` | examples/resume/session.ts:132-146 | a new session with one generation that is closed and resumed in this way ends with a gateway that serves |
| `ResumeSession.Session.AwaitStart` | examples/resume/session.ts:73-76 | the readiness wait of `detach` ends in readiness, or throws for a failed request, an ended workspace or its time limit |
| `ResumeSession.Session.Detach` | examples/resume/session.ts:70-90 | detaching returns only when the generation that was last at the call is preserved, and throws without one, for a failed request, for an ended workspace, or for a time limit |
| `ResumeSession.Root` | examples/resume/session.ts:44-59 | every lineage ends at a created generation that is not later |
| `ResumeSession.RootStays` | examples/resume/session.ts:44-59 | a lineage never changes, whatever joins the session later |
| `ResumeSession.OneRoot` | examples/resume/session.ts:32-61 | if only the first generation was created, every generation descends from it |
| `ResumeSession.BindOne` | examples/resume/session.ts:39-40 | binding a fresh gateway keeps gateways and generations in one-to-one correspondence |
| `Rfb.RectLengthExact` | examples/e2e/desktop-client.ts:73 | the length of every rectangle stays below 2^53 |
| `ChunkedStream.TakeIsNext` | examples/e2e/desktop-client.ts:27-45 | a read returns the next octets, and what can still be read afterwards is a part of what follows them |
| `ChunkedStream.ReadsSucceed` | examples/e2e/desktop-client.ts:11-45 | a sequence of reads succeeds if and only if enough is sent and no needed octet comes after a message that left more than 8 MiB behind the start of the read in progress |
| `ChunkedStream.LateCutFails` | examples/e2e/desktop-client.ts:13 | whenever reads need more than 8 MiB and one octet, some cut of the stream makes them fail |
| `ChunkedStream.EveryChunkingArrives` | examples/e2e/desktop-client.ts:11-45 | reads succeed for every cut of the stream into messages if and only if they need at most 8 MiB and one octet |
| `DesktopClient.Desktop.OnMessage` | examples/e2e/desktop-client.ts:11-15 | a message is appended to the buffer, and the socket is closed once it holds more than 8 MiB |
| `DesktopClient.Desktop.Arrive` | examples/e2e/desktop-client.ts:11-15 | a message that comes at any time is taken in, or dropped if the socket is already closing |
| `DesktopClient.Desktop.Await` | examples/e2e/desktop-client.ts:28-41 | a read goes on waiting until it has enough, and gives up exactly when the socket has ended, is closing or stalls with less |
| `DesktopClient.Desktop.Read` | examples/e2e/desktop-client.ts:27-45 | successive reads return consecutive slices of what the server sends; a read fails exactly when too little comes before the end, a stall, or the client's own close |
| `DesktopClient.Desktop.Connect` | examples/e2e/desktop-client.ts:46-59 | the handshake succeeds exactly when the octets sent parse and its reads get them, and then has taken just these; the version, the security type, the shared flag and the encodings are sent in order, up to where it throws |
| `DesktopClient.ConnectSucceeds` | examples/e2e/desktop-client.ts:46-58 | with a well-formed server the handshake succeeds if and only if no authentication is offered and every octet of it arrives |
| `DesktopClient.EveryChunkingConnects` | examples/e2e/desktop-client.ts:11-58 | it succeeds for every cut into messages if and only if the handshake has at most 8 MiB and one octet |
| `DesktopMessages.HelloRoundTrip` | examples/e2e/desktop-client.ts:46-58 | the octets of a well-formed handshake of RFC 6143 parse whole, and are accepted exactly when they offer no authentication |
| `DesktopMessages.HelloConsumesOne` | examples/e2e/desktop-client.ts:46-58 | whatever octets the handshake accepts are one complete handshake and what follows it |
| `DesktopClient.Desktop.ScanWords` | examples/e2e/desktop-client.ts:75 | the loop over 32-bit pixels collects the set of their values |
| `DesktopClient.Desktop.ScanShort` | examples/e2e/desktop-client.ts:75 | the loop over pixels of one or two octets throws exactly when there is a pixel |
| `DesktopClient.Desktop.ScanPixels` | examples/e2e/desktop-client.ts:75 | the loop collects the 32-bit values of the pixels, and throws when pixels have fewer than four octets and there is one |
| `DesktopClient.Desktop.CaptureRects` | examples/e2e/desktop-client.ts:70-76 | the loop over rectangles succeeds exactly when they parse and its reads get them, and collects their pixels and colors |
| `DesktopClient.Desktop.Capture` | examples/e2e/desktop-client.ts:60-82 | a capture sends one request and succeeds exactly when an update parses, its reads get it, and it has at least three colors |
| `DesktopMessages.UpdateRoundTrip` | examples/e2e/desktop-client.ts:66-76 | the octets of a well-formed update parse whole, with the pixels of its rectangles, exactly for 32-bit pixels or no pixels |
| `DesktopMessages.UpdateConsumesOne` | examples/e2e/desktop-client.ts:66-76 | whatever octets a capture accepts are one complete update of RFC 6143 and what follows it |
| `DesktopClient.CaptureSucceeds` | examples/e2e/desktop-client.ts:11-78 | the capture of a well-formed update succeeds if and only if pixels have 32 bits, there are at least three colors, and no needed octet comes after the unread length has passed 8 MiB |
| `DesktopClient.EveryChunkingCaptured` | examples/e2e/desktop-client.ts:11-78 | a 32-bit update of three colors is captured however it is cut into messages if and only if it has at most 8 MiB and one octet |
| `DesktopClient.LargeRectangleFails` | examples/e2e/desktop-client.ts:13 | an update with a rectangle of more than 8 MiB has a cut into messages for which the capture throws |
| `DesktopClient.Desktop.Type` | examples/e2e/desktop-client.ts:90-97 | typing sends the messages of every character, and then of Return |
| `DesktopMessages.TypeDecodes` | examples/e2e/desktop-client.ts:83-97 | a server reads what was typed as every character pressed and released in order, and then Return |
| `DesktopClient.Desktop.Click` | examples/e2e/desktop-client.ts:98-107 | a click sends a move, a press and a release to the place, in this order |
| `DesktopMessages.ClickDecodes` | examples/e2e/desktop-client.ts:98-107 | a server reads a click as a move, a press and a release at one place |
| `DesktopMessages.RequestsDecode` | examples/e2e/desktop-client.ts:59-65 | a server reads a full update request of the announced size, and raw encoding only |
| `InspectorDriver.Driver.Send` | examples/e2e/managed-purge-bootstrap-debugger.ts:123-129 | a request takes a new id and a new deferred, recorded before it is sent |
| `InspectorDriver.Driver.Reconcile` | examples/e2e/managed-purge-bootstrap-debugger.ts:160-166 | a command takes its id from the same sequence |
| `InspectorDriver.Driver.OnEndpoint` | examples/e2e/managed-purge-bootstrap-debugger.ts:78-84 | the address in the diagnostics resolves the endpoint, once |
| `InspectorDriver.Driver.OnReply` | examples/e2e/managed-purge-bootstrap-debugger.ts:147-151 | a reply settles the deferred of its own id and no other, and a second one finds nothing |
| `InspectorDriver.Driver.OnCommandReply` | examples/e2e/managed-purge-bootstrap-debugger.ts:70-76 | the same for the reply to a command |
| `InspectorDriver.Driver.OnPaused` | examples/e2e/managed-purge-bootstrap-debugger.ts:133-146 | a pause is the armed barrier, whose waiter is resolved, or is answered with one resume request |
| `InspectorDriver.Driver.Arm` | examples/e2e/managed-purge-bootstrap-debugger.ts:181-182 | arming replaces the barrier, and gives up the waiter of one that was never reached |
| `InspectorDriver.Driver.Disarm` | examples/e2e/managed-purge-bootstrap-debugger.ts:215-219 | resuming clears the barrier |
| `InspectorDriver.Driver.Fail` | examples/e2e/managed-purge-bootstrap-debugger.ts:85-91 | a failure rejects every pending deferred but the waiters given up, changes no other, and so settles everything exactly when none was given up |
| `InspectorDriver.Driver.Drive` | examples/e2e/managed-purge-bootstrap-debugger.ts:55-220 | over every order of events: all ids are distinct, nothing settled changes, and a waiter is given up if and only if the barrier is armed or cleared while one waits |
| `InspectorDriver.DistinctIds` | examples/e2e/managed-purge-bootstrap-debugger.ts:124-127 | ids from one increasing sequence are pairwise distinct |
| `InspectorDriver.ArmedTwice` | examples/e2e/managed-purge-bootstrap-debugger.ts:181-182 | arming twice and then failing leaves the first waiter pending |
| `Monitoring.AgreesIsEqual` | examples/e2e/monitoring-notification.ts:23-27 | as many keys and every expected pair present means the two label maps are equal, and conversely |
| `Monitoring.MatchingNotification` | examples/e2e/monitoring-notification.ts:10-31 | the match is the earliest batch at or after the cursor that carries a wanted alert with expected labels, and no match means there is none |
| `Monitoring.FaultLabelsCount` | examples/e2e/monitoring-notification.ts:33-35 | the filter keeps exactly the label sets within the scope, each as often as it occurs |
| `Monitoring.Fixture.StartFault` | examples/e2e/monitoring-fixture.ts:137-140 | a new fault moves the cursor past everything delivered and forgets the episode |
| `Monitoring.Fixture.CallFiring` | examples/e2e/monitoring-fixture.ts:145-160 | waiting for a firing begins with the label sets that were found, and changes nothing else |
| `Monitoring.Fixture.Poll` | examples/e2e/monitoring-fixture.ts:121-132 | a poll matches exactly when a batch at or after the cursor carries what is waited for, takes the earliest, and leaves the cursor alone |
| `Monitoring.Fixture.Commit` | examples/e2e/monitoring-fixture.ts:133-134 | only a wait that has matched goes on, and it sets the cursor of its own family just past its own batch, whatever happened since |
| `Monitoring.Fixture.Record` | examples/e2e/monitoring-fixture.ts:160 | a delivered firing records the labels of its match for its family only |
| `Monitoring.Fixture.CallResolved` | examples/e2e/monitoring-fixture.ts:163-171 | waiting for the end throws exactly when no firing was delivered in the episode, and else waits for just its labels |
| `Monitoring.Fixture.Drive` | examples/e2e/monitoring-fixture.ts:121-173 | over every run, with any number of overlapping waits: the cursors are those of the log, every use is of a batch that carries the alert, an end is used only after a firing with its labels, and the cursors go forward if and only if no wait was overtaken |
| `Monitoring.Fixture.ForwardIff` | examples/e2e/monitoring-fixture.ts:121-140 | in every state of every run, the cursors have only gone forward if and only if no wait saw the cursor of its family set past its batch between its match and its own move |
| `Monitoring.Fixture.DriveAlone` | examples/e2e/monitoring-fixture.ts:121-173 | over every run in which nothing comes between a match and the cursor it sets, the cursors go forward |
| `Monitoring.Fixture.TwoWaits` | examples/e2e/monitoring-fixture.ts:121-135 | in every state in which a firing is deliverable, two overlapping waits for it use one batch |
| `Monitoring.NeverBack` | examples/e2e/monitoring-fixture.ts:133-138 | when the cursors go forward, that of a family is never below what it was at any earlier time |
| `Monitoring.ResolvedAfterFiring` | examples/e2e/monitoring-fixture.ts:163-172 | a resolved delivery is a later batch than a delivered firing of the family with the same labels |
| `Boundaries.TypeTagIsFirst` | scripts/check-boundaries.ts:29 | a project's type is its first tag that names a type |
| `Boundaries.DisallowedIsOutward` | scripts/check-boundaries.ts:17-23 | the table disallows exactly the dependencies from an inner to an outer layer, between the types it knows |
| `Boundaries.ProjectBoundaryViolations` | scripts/check-boundaries.ts:25-43 | the report is empty exactly when every project has a type and no dependency that resolves to an outer layer, and every line of it is true |
| `Boundaries.PublishedDependencyViolations` | scripts/check-boundaries.ts:48-60 | the report is empty exactly when no published project depends on a private one, and every line of it is true |
| `Boundaries.LayeringExact` | scripts/check-boundaries.ts:25-43 | for every list of projects, the report is clean if and only if every project has a type and no dependency chain of known types, of any length and as the check resolves names, ends further out than it starts |
| `Boundaries.LayeringByName` | scripts/check-boundaries.ts:25-43 | with unique names, the same of chains by name |
| `Boundaries.LayeringIsGlobal` | scripts/check-boundaries.ts:25-43 | with unique names and known types only, a clean report holds if and only if no dependency chain of any length ends further out than it starts |
| `Boundaries.PublishedExact` | scripts/check-boundaries.ts:45-60 | for every list of projects, the report is clean if and only if everything a published package reaches, as the check resolves names, is published |
| `Boundaries.PublishedIsGlobal` | scripts/check-boundaries.ts:45-60 | with unique names, the same of everything it reaches by name |
| `Boundaries.UnknownIsIgnored` | scripts/check-boundaries.ts:36-37 | a dependency from or to a type the table does not know is never reported |
| `Boundaries.UnknownTypeHides` | scripts/check-boundaries.ts:36-38 | three projects whose only dependencies are a chain outwards, over a type in the middle that the table does not know, have a clean report |
| `Boundaries.SharedNameHides` | scripts/check-boundaries.ts:26 | of a project and two others that share the name it depends on, the report is clean when the last of these is not further out, although the other is |
| `ImagePolicy.AssertImageSet` | scripts/image-policy.ts:21-35 | a record list of any length is accepted if and only if the commit is full, every record is a passing candidate of it, and the list is a permutation of all role and architecture pairs; each refusal names a record or key that is indeed wrong |
| `ImagePolicy.KeyTells` | scripts/image-policy.ts:27 | a joined key determines role and architecture |
| `ImagePolicy.PermutationOfDistinct` | scripts/image-policy.ts:23-34 | a list is a permutation of a duplicate-free one exactly when it has no duplicates and the same members |
| `ImagePolicy.ProductMembers` | scripts/image-policy.ts:23 | the expected keys cover every role with every architecture, and nothing else |
| `Publication.Validate` | scripts/publish-candidate-images.ts:65-66 | it goes on only after the evidence of every record was checked |
| `Publication.PushAll` | scripts/publish-candidate-images.ts:75-98 | each record is pushed once and in order, with its own digest |
| `Publication.OneOfEach` | scripts/publish-candidate-images.ts:100-101 | from a complete set, the references of a role hold exactly one image of each architecture |
| `Publication.PublishCandidateImages` | scripts/publish-candidate-images.ts:55-116 | however it ends, no registry write precedes the validation of the whole complete set; it ends normally exactly when the set is complete and every tool accepts, with one index per role that holds exactly one image of each architecture |

## Left out

- Authentication, response status and decoding of `observeLiveUpdates`: chunks are decoded text, and `JSON.parse` is a parameter.
- UTF-8 across chunks: the debuggers' `lines` decodes each chunk on its own, so the framers stand for ASCII streams.
- The time stamps of `startupOutput`, and the compression, hashing and database work around `tarDirectory`.
- The order in which `readdir` lists a directory, which is an input here.
- Log output of the launcher, `launchSession` and `stopSession`: they only use a connection that `startSession` returned.
- How long a wait may take: time is a parameter of `backupAccounts`, and elsewhere a wait may end at any point.
- Durability of a single write in the manager job: a write takes effect or not, and then goes on, throws or crashes; the folder lock excludes a second run.
- The HTTP layer of `backupAccounts`, and server answers that change between two requests of the same kind for one account.
- The workspace API: it may answer an admission with any id, and moves a workspace along the transition table of its contract.
- `ResumeSession.Session.Close`: does not model the deletion of checkpoints, because it comes after the end of a generation and changes no state that is modelled; nor the control server.
- `DesktopClient.Desktop.Capture`: does not model pixel formats other than 8, 16 and 32 bits, which RFC 6143 excludes, nor the hash of the pixels.
- Two socket messages delivered before the reads of the first go on: a message is taken in, and the reads it satisfies run, before the next one.
- The script search of `arm`, `ownerIdentity`, and the time limits on requests of the inspector driver: a rejected resume request is one more failure, which the events allow at any point.
- `Monitoring.Fixture.CallFiring`: does not model how the alerts are fetched and filtered by family and state before; the label sets found are its input. A wait that runs out of time is one that is not polled again.
- `boundaryViolations`, which matches two regular expressions against source files.
- `assertImageScan` and the single checks on the evidence of a record, which are flat conjunctions: the evidence of a record is a parameter.
- Docker, Kubernetes, Prometheus and browser orchestration.
