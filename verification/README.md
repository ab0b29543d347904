# PDS_Backup: a model of the backup protocol and its proofs

PDS_Backup keeps a folder of a client mirrored on a server. A watcher compares the folder with its record of it and
pushes events into a bounded queue; a client thread sends one command per event, without waiting, as long as its window
of unanswered messages has room; the server carries the commands out on three stores (the user's folder on disk, the
table `savedFiles` and the map `_elements`) and answers them in order; after a broken connection the client sends its
whole window again. Answers carry no sequence numbers, commands are delivered at least once, and the three stores are
updated one after the other, so the system works only because of invariants that the code nowhere states. This project
states and proves them.

`dafny verify dfyconfig.toml` checks everything.

## How the model is laid out

| file | what it holds |
|---|---|
| Base, Validator, Mac, Locate, Hex | entries, paths, messages; the checks on names and times; canonical MAC addresses and folder names; how an element's relative path is found; the hexadecimal form of hashes |
| Table | the server table as a sequence of rows (its schema allows duplicates) and the effect of every statement on it |
| Server, Client | the commands and the answers as state transformers: the specification of the two `ProtocolManager` classes |
| ServerProtocol, ClientProtocol | the two classes as the program has them: fields changed step by step, loops over rows, elements and window indices; every method is proved against the specification above |
| Ring | both circular vectors as classes over arrays, and all interleavings of producers and consumer |
| Watcher | the polling loops as methods that change the record in place |
| Transfer, Wire, Framing | files cut into DATA messages, the server reading its stream of messages, messages on a byte stream |
| Coherence, Guarantees, Answers, RowTimes | what the server promises for every command and every session: stores that agree, answers that tell the truth, nothing else changed, times in the table |
| Replay, ReplayLimits | when sending a window again is harmless, and when not |
| System | the whole system as a state machine: watcher, queue, window, both directions of the connection, server, lost connections |
| Alignment, Records, Progress, SyncServer, Ledger, Sync, Steps, Startup, Unrest | what holds in every reachable state of that machine, what the client records and sends, that agreement is reached, also after the program has been started again, and what goes wrong while the folder does not rest |
| Retrieve, Restore, FolderTimes | getting a backup back, server side and client side; from the request and the session before it to the restored folder; the times of restored directories |

Main results:

* **Synchronisation.** `Sync.Synchronises`: from agreement, under every interleaving of watcher, client, server and
  network, with lost connections and repeated sending, no error is ever answered, and whenever nothing is under way and
  nothing is left to notice, watcher, client database, server map and server disk all equal the snapshot: files *and*
  directories. `Sync.DrainingSynchronises` and `Sync.CanSynchronise` show that without failures this point is reached
  within a bound known in advance, `Steps.CanAlwaysSynchronise` that a lost connection does not prevent it, `Sync.FirstBackup` applies this to a client and a server that know nothing yet,
  `Sync.RoundsSynchronise` to any number of snapshots one after the other, and `Startup.RestartSynchronises` to a program
  that is started again on a folder that has changed. `Unrest.ModifyThenDeleteLeavesFile` shows why the folder has to
  rest in between.
* **Alignment.** `Alignment.AlwaysAligned`, with the exact condition for a reconnection in
  `Alignment.ReconnectAlignedIff` and a run that does harm otherwise in `Unrest.StaleStoreIsReached`.
* **Nothing is lost**, and exactly one failing write loses something: `Alignment.AccountIff`, `Alignment.NothingEverLost`.
* **Replay.** `ReplayLimits.ReplayIff`: over any number of interrupted attempts, for every state of the server and every
  window of PROB, STOR, DELE, MKD and RMD over given paths, sending again is harmless if and only if these paths stay out
  of each other's way; for PROB, STOR and DELE this means that no path goes through another (`ReplayLimits.FilesReplayIff`).
* **Three stores, one truth.** `Guarantees.RunKeeps`, `Coherence.RecoveryRestores`, `Coherence.RecoveryIsComplete`,
  `Guarantees.ErrorChangesNothing`, `Guarantees.RecursiveRemoveIsExact`, `Guarantees.TimesStayExact`.
* **Answers tell the truth.** For each of the five commands, each answer is given if and only if the state of its path says
  so, and what an OK claims is then so on disk, in the map and in the table: `Answers.StoreTells`, `Answers.MakeTells` and
  their like; no command changes anything elsewhere (`Answers.NothingElse`).
* **The client records what was acknowledged, and nothing else**, over every run: `Records.DatabaseIsAcknowledged`; and
  no STOR is ever under way with another content than that of its hash: `Records.AlwaysHonest`.
* **Retrieve reproduces the backup**, files and directories, of every machine asked for, if and only if every file sent is
  smaller than 2 GiB: `Restore.RetrieveFor` takes a request from the server's method to the client's;
  `Restore.SessionComesBack` starts from any session before it. Times of files are those of the last STOR, times of
  directories are given by `FolderTimes.RetrievedFolderTimes`.

The digest is a parameter everywhere (`sha`). Where different contents must have different hashes, this is a hypothesis
about the contents in play (`Base.InjectiveOn`), never about all byte strings. Clocks, the answers of a full queue,
the order of directory listings, the sizes of partial reads and writes and the moment at which a connection breaks are
parameters or nondeterministic steps.

## Where code and documentation differ

The model follows the code; each difference is a lemma.

* README.md:104-105 says that sending the window again misses no event. `Alignment.HeaderFailureLoses`: an event is lost
  when writing the STOR message fails, since it has left the window and is pushed back only after the write.
* README.md:100-105 says that an answer belongs to the first message of the window. `Alignment.ReconnectAlignedIff`: after
  a reconnection this is true exactly if no unanswered STOR in the window has become stale, because such an entry is
  stepped over but stays in the window. `Unrest.StaleStoreIsReached` is a run that gets there from a first backup.
* README.md:121-122 says that last write times on the server are those of the client. `Guarantees.TimesStayExact`: the
  directory in which `create_directories` makes the first missing parent gets the server's time.
* README.md:63-64 says that in case of success any implication of the command is guaranteed. `Answers.MakeTells`: MKD is answered OK(created) where a
  file is, if that file has the very time asked for, since server/ProtocolManager.cpp:917-923 looks at the time only.
* README.md:121-122 says that times on the server are those of the client. `RowTimes.RunUpToDate`: in the table they are not
  where a PROB has changed them, since server/ProtocolManager.cpp:521-525 does not write the row; a later retrieval gives
  back the older time (`Restore.SessionComesBack`).
* README.md:91-93 says that users may retrieve all their files. `Retrieve.RetrieveSucceedsIff`: only if each of them is
  smaller than 2 GiB, since sizes are written to the table with 64 bits and read with 32. Offline changes are found all the
  same (`Coherence.RecoveryIsComplete`), because hashes are compared as well.
* myLibraries/Validator.cpp:41-49 accepts user names with a "+". `Locate.OwnElementsAreLocated`: no element of such a user's folder is
  found, because the base path goes unescaped into a regular expression; the constructor of Directory_entry then throws.
  The statements about sessions and recovery are about users without "+" and paths without line breaks, for which the same
  lemma shows that every element is found.
* README.md:61-62 says that every message gets a suitable response. `Guarantees.ErrorChangesNothing`: a command that
  fails validation gets none; and a refused STOR is followed by one ERR for each of its DATA messages
  (`Wire.RefusedStorIsAnsweredByItsData`).

## Model

| member | source | states |
|---|---|---|
| Sync.Synchronises | client/FileSystemWatcher.cpp:44-117 | over every run from agreement (events pushed at program start, watcher, send, serve, receive, failed writes of data, lost connections, repeated sending) the client is never stopped, no ERR is under way, and when nothing is under way or left to notice all stores equal the snapshot: entries, contents, times of files |
| Sync.StepInSync | client/ProtocolManager.cpp:252-461 | every single step keeps the synchronisation invariant: each path is at its old or its new state everywhere, an event under way is the difference at its path, or before it repeats the old entry at program start, and no other event is about that path; answers under way tell the truth |
| Sync.RunInSync | client/main.cpp:372-441 | the invariant holds over runs of any length |
| Sync.QuietIsSynced | server/ProtocolManager.cpp:467-877 | in a state of the invariant with nothing pending and no difference left, record, database, map and disk are those of the snapshot |
| Sync.DrainingSynchronises | client/main.cpp:372-441 | a run without failures has at most as many steps as the measure says, and where no step is possible everybody agrees |
| Sync.CanSynchronise | client/main.cpp:372-441 | from every state of a synchronisation with an open connection such a run exists |
| Sync.SomethingMoves | client/main.cpp:385-441 | as long as something is under way or unnoticed, some step that cannot fail is enabled |
| Steps.CanAlwaysSynchronise | client/main.cpp:372-441 | a run to agreement exists from every state of a synchronisation, connected or not |
| Steps.DownIsNotStuck | client/main.cpp:340-365 | a client without connection can connect, and send its window again, if and only if anything is queued or unanswered |
| Steps.DifferenceTells | client/FileSystemWatcher.cpp:44-117 | what is reported about a path, as an if and only if for each kind of report; what is neither file nor directory is passed over and its record stays |
| Steps.EnteringIsTrue | client/FileSystemWatcher.cpp:44-159 | whatever enters the queue, also at start, is true of the folder at that moment and is accounted for; nothing else enters |
| Steps.ReportedAtStartIff | client/FileSystemWatcher.cpp:133-149 | an unchanged recorded file is reported again after a start of the program if and only if it has 2 GiB or more |
| Steps.ServerOutlivesConnection | server/ProtocolManager.cpp:253-308 | the server carries out what it has received, connected or not, with the same outcome |
| Steps.ExceptionStopsClient | client/ProtocolManager.cpp:436-438 | an exception of the server reaches the client, which stops and keeps window and database as they are |
| Steps.ReconnectSeesOfflineChanges | server/ProtocolManager.cpp:55-128 | what has changed in the server's folder during a session is known, in all three stores, after a new connection |
| Sync.FirstBackup | client/main.cpp:372-441 | for every folder with acceptable names, elements of other types among it or not, from an empty client and an empty server a run exists after which database, map and server disk hold just its files and directories |
| Sync.NextRound | client/FileSystemWatcher.cpp:44-117 | where one round has ended the next can begin, whatever the folder becomes |
| Sync.RoundsSynchronise | client/FileSystemWatcher.cpp:44-117 | over any number of rounds everybody agrees on each snapshot in turn |
| Sync.RequeueInSync | client/FileSystemWatcher.cpp:151-158 | pushing the next element read at start keeps the invariant |
| SyncServer.EchoIsHarmless | server/ProtocolManager.cpp:467-529 | the command of such an event is answered OK and leaves its path as it was |
| SyncServer.DueKeepsHolding | server/ProtocolManager.cpp:467-529 | and stays so while PROB or MKD for the change behind it is carried out |
| Startup.RestartIsAgreed | client/FileSystemWatcher.cpp:133-159 | where a round has ended the program may be started again on a changed folder, with what recoverFromDB pushes |
| Startup.RestartSynchronises | client/main.cpp:146-157 | every run of the restarted program ends in agreement on the new snapshot |
| Unrest.ModifyThenDeleteLeavesFile | server/ProtocolManager.cpp:833-840 | a run in which a file is modified and deleted before its STOR: the deletion is refused, everything comes to rest and the server keeps the old file |
| Sync.NoticeInSync | client/FileSystemWatcher.cpp:44-117 | an accepted report concerns a path no event is about, and is the difference between old state and snapshot there |
| Sync.ServeInSync | server/ProtocolManager.cpp:253-308 | carrying out the next command keeps the invariant, earlier answers stay true |
| Sync.AnsweredInSync | client/ProtocolManager.cpp:363-447 | after an OK the client database holds the entry of the snapshot at that path and is unchanged elsewhere |
| Sync.TransferInSync | client/ProtocolManager.cpp:314-355 | turning the PROB at the head into a STOR at the tail keeps the invariant, also when writing the data fails |
| Sync.ReconnectInSync | client/ProtocolManager.cpp:210-239 | a new session and sending any part of the window again keep the invariant |
| SyncServer.DispatchCloser | server/ProtocolManager.cpp:270-289 | a due command never fails, leaves its path as in the snapshot unless it asks for the file, and leaves every other path alone or removes what the snapshot lacks |
| SyncServer.ProbeCloser | server/ProtocolManager.cpp:467-529 | the same for PROB: answered found only if the server already has this very content, by collision freedom on the contents in play |
| SyncServer.StoreFileCloser | server/ProtocolManager.cpp:552-770 | the same for STOR, though parents may be made before their own MKD |
| SyncServer.RemoveFileCloser | server/ProtocolManager.cpp:787-877 | the same for DELE: the guard on the hash never refuses a due deletion |
| SyncServer.MakeDirCloser | server/ProtocolManager.cpp:891-988 | the same for MKD, on a missing, an implicitly made or a catalogued directory |
| SyncServer.RemoveDirCloser | server/ProtocolManager.cpp:1003-1113 | the same for the recursive RMD: everything below goes, and nothing of it belongs to the snapshot |
| Alignment.MismatchIsUnreachable | client/ProtocolManager.cpp:313-361 | in an aligned state receive() throws if and only if the server answered ERR(exception): no path or hash mismatch, no unexpected code |
| Alignment.StepAligned | client/ProtocolManager.cpp:252-461 | answers in flight followed by commands not yet carried out match the window entry by entry, kept by every step |
| Alignment.AlwaysAligned | client/ProtocolManager.cpp:293-361 | the same over every run with any number of broken connections, failed writes and changes of the folder |
| Alignment.ReceiveAligned | client/ProtocolManager.cpp:313-355 | in particular through popping the head and pushing a STOR at the tail |
| Alignment.ServeAligned | server/ProtocolManager.cpp:253-308 | in particular through the server: exactly one fitting answer per command |
| Alignment.ResendCarries | client/ProtocolManager.cpp:216-238 | recoverFromError sends one command per entry, and the right one, if and only if it steps over none |
| Alignment.ReconnectAlignedIff | client/ProtocolManager.cpp:216-229 | a completed reconnection is aligned if and only if the window holds no stale storeSent entry |
| Alignment.StaleStoreIsRecordedAsStored | client/ProtocolManager.cpp:226-228 | otherwise: the answer to the deletion behind a stale STOR makes the client record a file the server never received |
| Unrest.StaleStoreIsReached | client/ProtocolManager.cpp:226-228 | a run from a first backup that gets there: the database records a file that neither folder nor server has, and the connection is stuck |
| Alignment.AccountIff | client/ProtocolManager.cpp:334-351 | accepted events = queue + window + resolved, after a step if and only if it is not the failing write of a STOR message |
| Alignment.HeaderFailureLoses | client/ProtocolManager.cpp:334-351 | that write loses exactly the event at the head |
| Alignment.NothingEverLost | client/main.cpp:428-436 | over every run without that failure no accepted event is lost |
| Records.OnlyOkRecords | client/ProtocolManager.cpp:363-432 | the database changes in one kind of step only, processing an OK, and then as the event at the head says |
| Records.DatabaseIsAcknowledged | client/ProtocolManager.cpp:363-432 | over every run, with errors, lost connections and repeated sending, it is the old one with the acknowledged events recorded in it, in order |
| Records.RecordMeans | client/Database.cpp:251-441 | what recording an event does to each path |
| Records.RecordedWasAcknowledged | client/ProtocolManager.cpp:363-412 | what is new in the database about a path was acknowledged by the server |
| Records.ErrorsAreSkipped | client/ProtocolManager.cpp:414-446 | an ERR about one message pops it and records nothing; only one about the session stops the client |
| Records.SendIsFollowedIff | client/ProtocolManager.cpp:314-355 | SEND is followed by STOR if and only if the file still has the content asked about |
| Records.ResendSplits | client/ProtocolManager.cpp:210-239 | the window is sent again entry by entry |
| Records.ResendOfOne | client/ProtocolManager.cpp:217-238 | and an entry is stepped over if and only if it is a STOR whose file has gone or changed |
| Records.AlwaysHonest | client/ProtocolManager.cpp:339-354 | over every run, the folder changing at any moment, every STOR under way carries the content of its hash |
| Progress.NeverStuck | client/ProtocolManager.cpp:174-176 | with anything pending some send, serve or receive step is enabled, even with a full window; the one exception is a window of size 0 |
| Progress.NoticeSettlesOne | client/FileSystemWatcher.cpp:44-117 | a report takes away exactly one difference and makes none |
| Progress.DrainingDecreases | client/main.cpp:418-441 | every step without failure lowers the measure over differences, queue and both channels, or stops the client |
| Coherence.RecoveryRestores | server/ProtocolManager.cpp:55-128 | whatever changed offline, recovery loads exactly the catalogued elements that exist, as they are; the three stores agree again if and only if none of them has become something other than a file or directory |
| Coherence.RecoveryIsComplete | server/ProtocolManager.cpp:55-128 | for what a session left, after any offline change to files and directories of any size, all three stores agree again, times in rows included |
| Coherence.RecoveryRepairsRows | server/ProtocolManager.cpp:101-124 | for rows of any origin: they equal the map afterwards, times included, if and only if a row that reads like its element is like it |
| Coherence.SmallSizesAreFaithful | server/Database.cpp:204 | with sizes below 2^31 nothing can hide |
| Coherence.RecoveredView | server/ProtocolManager.cpp:61-98 | the catalogue after recovery, path by path: kept, repaired or dropped |
| Coherence.ReloadKeepsElements | server/ProtocolManager.cpp:55-128 | a new session loads the map of the last one, up to times of directories |
| Coherence.ParentsCreated | server/ProtocolManager.cpp:705-728 | create_directories keeps a folder a folder, adds exactly the missing parents and changes the time of one directory at most |
| Coherence.TouchedIsWhereItIsMade | server/ProtocolManager.cpp:705-728 | that directory is the one in which the first missing parent is made |
| Coherence.ProbeKeeps | server/ProtocolManager.cpp:467-529 | PROB keeps disk, rows and map in agreement |
| Coherence.StoreFileKeeps | server/ProtocolManager.cpp:685-761 | STOR keeps them in agreement, also when it replaces a file or makes parents |
| Coherence.RemoveFileKeeps | server/ProtocolManager.cpp:787-877 | DELE keeps them in agreement |
| Coherence.MakeDirKeeps | server/ProtocolManager.cpp:891-988 | MKD keeps them in agreement |
| Coherence.RemoveDirKeeps | server/ProtocolManager.cpp:1003-1113 | RMD keeps them in agreement |
| Coherence.DispatchClosed | server/ProtocolManager.cpp:270-289 | whatever the catalogue says, every command leaves a real folder: all ancestors are directories |
| Guarantees.HandleKeeps | server/ProtocolManager.cpp:253-319 | any command, valid or not, keeps the three stores in agreement, and only times in rows may lag |
| Guarantees.RunKeeps | server/ProtocolManager.cpp:253-319 | so does any session |
| Guarantees.ErrorChangesNothing | server/ProtocolManager.cpp:310-366 | one answer to an accepted command, none to a refused one; after an error answer all three stores are as the recovery left them |
| Guarantees.AnswersFit | server/ProtocolManager.cpp:467-1113 | a valid command gets one answer, of a kind the client expects for it; a SEND repeats its path and hash |
| Guarantees.OthersUntouched | server/Database.cpp:262-656 | no command touches the rows of another user or another machine of the user |
| Guarantees.RecursiveRemoveIsExact | server/ProtocolManager.cpp:1058-1112 | after OK(removed) for d nothing named d or d/... is left in any store; everything else is unchanged, names with the same beginning included |
| Guarantees.BelowIsPrefix | server/ProtocolManager.cpp:1083-1088 | being below a directory is having its name and a slash as a prefix |
| Guarantees.TimesStayExact | server/ProtocolManager.cpp:709-732 | recorded times stay those on disk if and only if STOR or MKD does not make its first missing parent inside a catalogued directory |
| Guarantees.StoreFileTimes | server/ProtocolManager.cpp:705-732 | the same for STOR alone |
| Guarantees.MakeDirTimes | server/ProtocolManager.cpp:927-969 | the same for MKD alone |
| Answers.ProbeTells | server/ProtocolManager.cpp:494-528 | PROB: OK(found) if and only if a catalogued file with this hash is there, and then it has this time; ERR(notAFile) if and only if a directory is; SEND otherwise; nothing else changes |
| Answers.StoreTells | server/ProtocolManager.cpp:685-761 | STOR: OK(created) if and only if the data is what was announced and nothing bars the way; then disk, map and row hold the file, with the client's time; otherwise the failure it is |
| Answers.DeleteTells | server/ProtocolManager.cpp:807-876 | DELE: OK(removed) if and only if this very content was there, and then it is nowhere; OK(notThere) if and only if nothing was catalogued; refused otherwise, with nothing changed |
| Answers.MakeTells | server/ProtocolManager.cpp:914-987 | MKD: ERR(notADir) where something else is, ERR(exception) where the way is barred, else OK(created), and then disk, map and row hold the directory, with the client's time; but for an element that has this time already, be it a file |
| Answers.RemoveTells | server/ProtocolManager.cpp:1022-1112 | RMD: OK(removed) if and only if a catalogued directory was there, and then it is nowhere; OK(notThere) and ERR(notADir) exactly otherwise |
| Answers.VanishedElement | server/ProtocolManager.cpp:787-1055 | an element removed on the server during the session: DELE and RMD forget it, STOR and MKD make it again, PROB raises an exception if and only if it was asked to change its time |
| Answers.NothingElse | server/ProtocolManager.cpp:467-1113 | no command changes disk, map or rows at any other path, except what RMD takes along and directories on the way to what STOR and MKD make |
| Answers.SilentIff | server/ProtocolManager.cpp:310-319 | no answer if and only if the path, or the time of a command that has one, is malformed |
| Answers.SpellingIsIrrelevant | server/ProtocolManager.cpp:482-491 | a command does the same with any spelling of its path |
| RowTimes.DispatchUpToDate | server/ProtocolManager.cpp:735-756 | each row is as the map, but where a PROB has changed the time since it was written; STOR and MKD write the client's time |
| RowTimes.RunUpToDate | server/ProtocolManager.cpp:521-525 | the same over whole sessions |
| RowTimes.BeginsUpToDate | server/ProtocolManager.cpp:101-128 | a session begins with all rows as the map, whatever has happened to the folder in between |
| Replay.SwapOrHide | server/ProtocolManager.cpp:787-877 | two commands on one path commute or the second hides the first, unless the first is a successful STOR |
| Replay.OneEarly | client/ProtocolManager.cpp:210-239 | doing any one command of a list beforehand makes no difference to doing the list |
| Replay.PrefixEarly | client/ProtocolManager.cpp:210-239 | nor does doing any part of it beforehand |
| Replay.FinalAgain | server/ProtocolManager.cpp:1058-1112 | nor with recursive removals among the commands |
| Replay.DispatchIsFair | server/ProtocolManager.cpp:467-1113 | each of the five commands acts on every path as the algebra says, and raises an exception exactly where the state of its path says so, in every coherent store |
| Replay.RunCells | server/ProtocolManager.cpp:253-308 | a session acts on every path as the list of the commands before its first exception says |
| Replay.KeptAgain | client/ProtocolManager.cpp:210-239 | after part of a window the whole window gets exactly as far as it would have got |
| Replay.ReplayIsHarmless | client/ProtocolManager.cpp:210-239 | after any number of interrupted attempts and one complete one, every path has the content, time and catalogue entry that one undisturbed sending leaves, and the session ends alike |
| ReplayLimits.ReplayIff | client/ProtocolManager.cpp:210-239 | this holds for every store, window and attempts over given paths if and only if no file is stored at or above a directory that is made, or above a file, and no directory is removed above anything stored or made, or where one is made |
| ReplayLimits.FilesReplayIff | client/ProtocolManager.cpp:210-239 | for PROB, STOR and DELE alone: if and only if no path goes through another |
| ReplayLimits.FileAboveFile | server/ProtocolManager.cpp:721-724 | a window of STOR and DELE in which a path changes from file to directory: its second sending stops, and the last STOR is lost |
| ReplayLimits.FileAboveMade | server/ProtocolManager.cpp:721-724 | the same with MKD |
| ReplayLimits.RemovedAboveWritten | server/ProtocolManager.cpp:1025-1029 | what is stored or made goes with the directory the first time and stays the second time |
| ReplayLimits.RemovedAndMade | server/ProtocolManager.cpp:1025-1029 | RMD then MKD: the second time removes what the directory held |
| ReplayLimits.RemoveDirIsNotReplayable | server/ProtocolManager.cpp:1025-1029 | on an empty store STOR, RMD and MKD keep the file the first time and lose it the second time |
| Watcher.FileSystemWatcher.PollGone | client/FileSystemWatcher.cpp:48-64 | every recorded element that is gone is reported once; the record changes only where the queue took the report |
| Watcher.FileSystemWatcher.PollListed | client/FileSystemWatcher.cpp:68-113 | the same for the listing, which passes over other types and files that cannot be opened |
| Watcher.FileSystemWatcher.Poll | client/FileSystemWatcher.cpp:44-117 | in one poll each difference is reported once, except those of unopenable files, and replaying the accepted reports over the old record gives the new one |
| Watcher.FileSystemWatcher.Report | client/main.cpp:153-157 | one call of the callback: the record follows exactly if the queue took the event |
| Watcher.FileSystemWatcher.RecoverFromDB | client/FileSystemWatcher.cpp:133-159 | at start the record is the database as read back, and the queue gets one event per recorded element that still exists, all of them unless stopped |
| Watcher.PollIsExact | client/FileSystemWatcher.cpp:44-117 | the differences left after a poll are the old ones without the accepted ones, and their number falls by the number accepted |
| Watcher.ProgressIsPlayable | client/FileSystemWatcher.cpp:44-117 | each accepted report is the difference at its path when it is made, given those before it |
| Watcher.PollIsNotices | client/main.cpp:153-157 | a poll of the class is a run of Notice steps of the system, which ends with the same record |
| Ring.IsBoundedSequence | myLibraries/Circular_vector.h:140-163 | the modular empty, full and size, in unsigned arithmetic, are those of a sequence of at most capacity - 1 elements |
| Ring.ContentsAt | myLibraries/Circular_vector.h:46-48 | the i-th element is in slot (start + i) mod capacity |
| Ring.Walk | client/ProtocolManager.cpp:211-216 | going from start to end with wrap-around meets each element once, in order, and ends |
| Ring.PushAppends | myLibraries/Circular_vector.h:68-71 | push appends, and on a full ring, which it does not guard against, empties it |
| Ring.PopRemoves | myLibraries/Circular_vector.h:89-95 | pop removes the head, and on an empty ring brings back a full ring of old slots |
| Ring.CircularVector.constructor | myLibraries/Circular_vector.h:57-59 | an empty vector with room for size elements |
| Ring.CircularVector.Push | myLibraries/Circular_vector.h:68-71 | on the array: contents are the old ones and the element |
| Ring.CircularVector.Pop | myLibraries/Circular_vector.h:89-95 | on the array: contents are the old ones without the first |
| Ring.CircularVector.Get | myLibraries/Circular_vector.h:104-109 | returns the head and removes it |
| Ring.CircularVector.Front | myLibraries/Circular_vector.h:80-82 | the head |
| Ring.CircularVector.IsEmpty | myLibraries/Circular_vector.h:140-142 | true if and only if there are no contents |
| Ring.CircularVector.IsFull | myLibraries/Circular_vector.h:151-153 | true if and only if the contents are as many as fit |
| Ring.CircularVector.Size | myLibraries/Circular_vector.h:161-163 | the number of elements |
| Ring.TsCircularVector.PushOrStop | myLibraries/Circular_vector.h:246-262 | pushes when there is room, refuses only when told to stop |
| Ring.TsCircularVector.TryPush | myLibraries/Circular_vector.h:272-285 | never waits: appends, or refuses and changes nothing when full |
| Ring.TsCircularVector.Front | myLibraries/Circular_vector.h:294-303 | the head of a queue that is not empty |
| Ring.TsCircularVector.Pop | myLibraries/Circular_vector.h:330-342 | removes it |
| Ring.TsCircularVector.TryGetUntil | myLibraries/Circular_vector.h:375-393 | returns the head and removes it, or nothing when told to stop |
| Ring.TsCircularVector.CanGet | myLibraries/Circular_vector.h:401-404 | true if and only if something is there |
| Ring.ActKeepsFifo | myLibraries/Circular_vector.h:224-393 | each critical section keeps: accepted = removed + contents, below capacity, the consumer's slot is the head |
| Ring.ActMeans | myLibraries/Circular_vector.h:272-342 | an offer is accepted, at the tail, if and only if there is room; what is removed is the head |
| Ring.AlwaysFifo | myLibraries/Circular_vector.h:224-393 | so does every interleaving of any number of producers and the consumer |
| Ring.FrontThenPop | client/main.cpp:432-434 | between front() and pop() no producer writes the slot being read, and pop() removes the element that was read |
| ServerProtocol.ProtocolManager.Scan | server/ProtocolManager.cpp:61-98 | the scan of the rows splits them into described as is, changed and gone |
| ServerProtocol.ProtocolManager.UpdateAll | server/ProtocolManager.cpp:101-111 | one UPDATE after the other amounts to the batch |
| ServerProtocol.ProtocolManager.DeleteAll | server/ProtocolManager.cpp:114-121 | one DELETE after the other amounts to the batch |
| ServerProtocol.ProtocolManager.RecoverFromDB | server/ProtocolManager.cpp:55-128 | the method does what the specification of recovery says |
| ServerProtocol.ProtocolManager.ProbeFile | server/ProtocolManager.cpp:494-528 | state, answer and liveness are those of the specification of PROB |
| ServerProtocol.ProtocolManager.StoreOne | server/ProtocolManager.cpp:673-761 | those of STOR, saving and restoring the time of the parent around the rename |
| ServerProtocol.ProtocolManager.MoveInto | server/ProtocolManager.cpp:712-732 | saving and restoring makes the rename invisible in the parent's time |
| ServerProtocol.ProtocolManager.RemoveOne | server/ProtocolManager.cpp:807-876 | those of DELE |
| ServerProtocol.ProtocolManager.CutOut | server/ProtocolManager.cpp:850-867 | removal leaves the parent's time as it was |
| ServerProtocol.ProtocolManager.MakeDirectory | server/ProtocolManager.cpp:914-987 | those of MKD |
| ServerProtocol.ProtocolManager.RemoveDirectory | server/ProtocolManager.cpp:1022-1112 | those of RMD, with the elements dropped one after the other in the order of the iterator |
| ServerProtocol.ProtocolManager.Carry | server/ProtocolManager.cpp:270-289 | recovery, validation and dispatch of one command |
| ServerProtocol.ProtocolManager.Receive | server/ProtocolManager.cpp:253-366 | one receive() on the stream of messages, DATA run included |
| ClientProtocol.ProtocolManager.Send | client/ProtocolManager.cpp:252-271 | window full: nothing; unsupported: dropped; else written, and remembered exactly if the write succeeded |
| ClientProtocol.ProtocolManager.SendStore | client/ProtocolManager.cpp:334-355 | the window holds the STOR event again exactly if its first message was written |
| ClientProtocol.ProtocolManager.Receive | client/ProtocolManager.cpp:293-461 | window, database and socket change as the specification of receive() says, for every answer and every point at which writing may fail; push never meets a full window |
| ClientProtocol.ProtocolManager.ResendOne | client/ProtocolManager.cpp:217-238 | one entry is stepped over, or its command and data are written |
| ClientProtocol.ProtocolManager.RecoverFromError | client/ProtocolManager.cpp:210-239 | the loop over ring indices ends and writes the whole window in order, or a front part of it when the connection breaks |
| ClientProtocol.SendFront | client/main.cpp:428-436 | the front leaves the queue exactly if it is in the window, or is of an unsupported type |
| Wire.ServeOne | server/ProtocolManager.cpp:600-671 | reading a written command, with its whole DATA run, amounts to carrying it out and consumes nothing else |
| Wire.StreamIsCommands | server/ProtocolManager.cpp:253-308 | reading a stream amounts to carrying out the commands one by one, whatever the chunk size |
| Wire.OneAnswerEach | server/ProtocolManager.cpp:253-366 | valid commands are answered one for one, in order and fittingly; only an exception ends this early, and is the answer to its command |
| Wire.RefusedStorIsAnsweredByItsData | server/ProtocolManager.cpp:566-571 | a refused STOR gets no answer, but each of its DATA messages an ERR |
| Wire.InterruptedStor | server/ProtocolManager.cpp:626-645 | a STOR whose DATA run another message interrupts is answered ERR(unexpected), that message is lost and nothing is stored; if the connection ends first there is no answer |
| Wire.StrayMessage | server/ProtocolManager.cpp:291-299 | a message that is no command is answered ERR(unexpected) and changes nothing |
| Transfer.SendFile | client/ProtocolManager.cpp:831-843 | the reading loop emits the blocks of the file |
| Transfer.BlocksShape | server/ProtocolManager.cpp:1379-1387 | L/N + 1 messages, all but the last of exactly N bytes, only the last flagged, which carries L mod N bytes |
| Transfer.ReceiveRun | server/ProtocolManager.cpp:600-658 | the receiving loop: whole file, interrupted, or cut off |
| Transfer.RoundTrip | server/ProtocolManager.cpp:600-658 | the receiver gets the file back and consumes nothing beyond it |
| Transfer.BrokenRun | server/ProtocolManager.cpp:626-645 | a run that anything but DATA breaks off gives no file, and what is left begins after the intruder |
| Transfer.HashOfFile | myLibraries/Directory_entry.cpp:94-112 | hashing in blocks of 1024 bytes is hashing the file |
| Framing.NumberOf | myLibraries/Socket.cpp:160-171 | the length in network order round-trips |
| Framing.ParseFrame | myLibraries/Socket.cpp:230-244 | a framed non-empty message is read back if and only if it is shorter than 2^32, a longer one is cut to the wrapped length |
| Framing.CutFrame | myLibraries/Socket.cpp:157-183 | of a stream that ends inside a message nothing is taken for that message |
| Framing.FramesRoundTrip | myLibraries/Socket.cpp:157-183 | a stream of frames is the list of messages |
| Framing.Write | myLibraries/Socket.cpp:199-218 | the loop sends all bytes in order, however send cuts them, and ends |
| Framing.Read | myLibraries/Socket.cpp:123-145 | the loop returns the next len bytes, however recv cuts them, or fails if the peer closes first |
| Framing.SendString | myLibraries/Socket.cpp:230-244 | length, then message |
| Framing.RecvString | myLibraries/Socket.cpp:157-183 | exactly one message is consumed |
| Framing.Exchange | myLibraries/Socket.cpp:157-244 | whatever the pieces on either side, the list of messages arrives |
| Validator.UsernameMeans | myLibraries/Validator.cpp:41-49 | names of letters, digits and _ @ + , - . , the comma being accepted because "+-." is a range |
| Validator.AcceptedPathIs | myLibraries/Validator.cpp:130-145 | which paths are accepted, character by character, and what they are rewritten to |
| Validator.FixedPoints | myLibraries/Validator.cpp:130-145 | which paths are accepted unchanged |
| Validator.ValidationIsStable | myLibraries/Validator.cpp:130-145 | validating again changes nothing, except after an input that ends in two slashes or backslashes |
| Validator.PrintedTimeIsValid | myLibraries/Validator.cpp:204-213 | a time printed as weekday, day month year hour:minute zone is accepted |
| Validator.ValidTimeHasParts | myLibraries/Validator.cpp:204-213 | and nothing else is |
| Mac.CanonicalForm | myLibraries/Validator.cpp:85-101 | accepted if and only if six groups of at most two hexadecimal digits, and rewritten to what getMAC prints for these six bytes |
| Mac.PrintedIsCanonical | myLibraries/Socket.cpp:325-335 | what getMAC prints is accepted and left alone |
| Mac.SameBytesSameForm | myLibraries/Validator.cpp:96-98 | two spellings have one form if and only if they mean the same bytes; canonicalising is idempotent |
| Mac.DropZerosMeans | myLibraries/Validator.cpp:96 | the first replacement strips the leading zero of each group |
| Mac.FillMeans | myLibraries/Validator.cpp:97-98 | the other two put 0 into each empty group |
| Mac.FoldersAreDistinct | server/ProtocolManager.cpp:232-235 | user and machine can be read off the folder name |
| Hex.StringToHex | myLibraries/RandomNumberGenerator.cpp:95-107 | the loop computes the Base16 encoding |
| Hex.HexToString | myLibraries/RandomNumberGenerator.cpp:160-174 | the loop decodes, or fails on an odd length or a wrong digit |
| Hex.DecodeEncode | myLibraries/RandomNumberGenerator.cpp:95-174 | decoding the encoding of any bytes returns them |
| Hex.EncodeDecode | myLibraries/RandomNumberGenerator.cpp:160-174 | exactly the even-length strings of digits decode, to the bytes whose encoding is their upper-case form |
| Hex.ValueDigit | myLibraries/RandomNumberGenerator.cpp:122-148 | the lookup table and the digits agree |
| Table.SizeRoundTrip | server/Database.cpp:204 | a size survives the table if and only if it is below 2^31 |
| Table.LowBitsSurvive | server/Database.cpp:204 | what is read back agrees with the size in its low 32 bits, the upper half being a sign extension |
| Table.InsertEffect | server/Database.cpp:262-314 | one owner's catalogue gains one entry; one row per path survives exactly if the path was new |
| Table.UpdateEffect | server/Database.cpp:585-637 | the entry is replaced if there is one, nothing else changes |
| Table.RemoveEffect | server/Database.cpp:352-388 | the entry goes, nothing else changes |
| Table.SelectIsView | server/Database.cpp:164-241 | forAll visits the catalogue |
| Table.UpdateWithEffect | server/ProtocolManager.cpp:101-111 | the effect of a batch of updates on every owner's catalogue |
| Table.RemoveSetEffect | server/ProtocolManager.cpp:1092-1104 | the effect of a batch of deletions on every owner's catalogue |
| Retrieve.MacsAreDistinct | server/Database.cpp:505-564 | each machine with an element once, and no other |
| Retrieve.RetrieveServer.RetrieveUserData | server/ProtocolManager.cpp:1184-1329 | what is written and what leaves the table, for all machines, one machine, none named, a malformed address |
| Retrieve.RetrieveServer.SendRows | server/ProtocolManager.cpp:1282-1325 | the loop sends the unchanged elements and deletes the rows of the others |
| Retrieve.RetrieveClient.RetrieveFiles | client/ProtocolManager.cpp:484-580 | the loop ends well exactly if the stream of messages says so, and leaves that folder |
| Retrieve.ItemsFirst | client/ProtocolManager.cpp:484-580 | items are taken in one by one, whatever comes after them |
| Retrieve.StreamIsItems | client/ProtocolManager.cpp:903-1177 | what the server writes is understood item by item |
| Retrieve.AcceptItem | client/ProtocolManager.cpp:903-1094 | an item that does not get in the way of the earlier ones is accepted and changes no file of theirs |
| Retrieve.PlanIsReproduced | client/ProtocolManager.cpp:484-580 | a list of such items, into an empty folder, is accepted to the end and leaves exactly its files and directories, and those on the way to them |
| Retrieve.CoherentIsHealthy | server/ProtocolManager.cpp:735-756 | what a session leaves meets the hypotheses of the next two rows, and all of it will be sent |
| Retrieve.RetrieveReproduces | server/ProtocolManager.cpp:1184-1395 | whatever has gone or changed on the server, retrieving into an empty folder ends on OK(retrieved) with exactly the files whose copy still has the recorded hash, with content and recorded time, each in its owner's folder, all directories that are still there, and no folder that is neither one of them nor above an item |
| Retrieve.RetrieveSucceedsIff | server/Database.cpp:204 | it does so if and only if every file that is sent is smaller than 2 GiB |
| Retrieve.DroppedAreOutdated | server/ProtocolManager.cpp:1287-1297 | afterwards the table lists, for the owners asked for, exactly the elements that were sent, and all elements of the others |
| Retrieve.RootsSeparate | server/ProtocolManager.cpp:1355-1361 | elements of different owners never meet on the client |
| Retrieve.LargeFileStopsRetrieve | client/ProtocolManager.cpp:1045-1056 | a file of 2 GiB or more is refused by the client in every state of the destination |
| Retrieve.RetrieveServer.Collect | server/ProtocolManager.cpp:1200-1235 | the loop over machines collects the rows of each |
| Restore.AskedMeans | server/ProtocolManager.cpp:1200-1262 | a request is refused if and only if it names no machine or no address; a request for all means each machine with an element, once; one for a machine that machine, however spelled |
| Restore.CollectedAreWanted | server/ProtocolManager.cpp:1200-1262 | the rows collected are exactly those of the user, on all machines or on the one named |
| Restore.RetrieveFor | server/ProtocolManager.cpp:1184-1329 | request, server and client together: ends on OK(retrieved) if and only if the request makes sense and every file sent is smaller than 2 GiB, and then reproduces all that was asked for |
| Restore.RestoredExactly | client/ProtocolManager.cpp:1068-1093 | a file whose row is up to date comes back just as the server has it |
| Restore.SessionComesBack | server/ProtocolManager.cpp:735-756 | after any session and a retrieval, each catalogued file is back with the server's content, and with its time unless a PROB has changed that since |
| Restore.AcceptMeans | client/ProtocolManager.cpp:903-1176 | one item: accepted if and only if its time is valid, its content is what was announced and nothing else is in its way; what the destination is then, path by path |
| Restore.OmittedIff | server/ProtocolManager.cpp:1287-1322 | an element is not sent, and leaves the table, if and only if nothing has its name any more or it is a file and what has its name has another hash |
| Restore.OnlyItsWordEndsIt | client/ProtocolManager.cpp:491-579 | after any items only OK(retrieved) ends a retrieval well: not the end of the connection, an error, another OK or any message out of place |
| Restore.BrokenFileEndsIt | client/ProtocolManager.cpp:960-1034 | nor does a file that breaks off |
| FolderTimes.RetrievedFolderTimes | client/ProtocolManager.cpp:1126-1173 | a retrieved directory has its recorded time, or the client's clock if and only if a later item makes its first missing parent in it |
| Locate.OwnElementsAreLocated | myLibraries/Directory_entry.cpp:70-87 | an element below a user's folder is found, and under its own name, if and only if its path has no line break, for names without "+"; for names with "+" and without "." never |
| Locate.LocatedIff | myLibraries/Directory_entry.cpp:70-84 | below a base path without "+" an element is found if and only if its path begins like the base path, "." standing for anything but a line break, and goes on with a slash and no line break |
| Locate.PlainIsLocated | myLibraries/Directory_entry.cpp:70-84 | below a base path of plain characters the match is unique and gives the relative path |

## Left out

- ReplayLimits.ReplayIff: times of directories are not part of what is compared, and the condition is about the paths of a window, not about single windows: a particular window over paths that are not separated may still be harmless.
- Sync.Synchronises: the snapshot stays stable until everything is quiet (needed: Unrest.ModifyThenDeleteLeavesFile) and no path changes its type, which the server refuses.
- Startup.RestartSynchronises: the program was stopped when everything was quiet; events that were under way when it was stopped are lost with its memory, and the database may then lag behind the server. Recorded sizes are below 2^31.
- Retrieve.RetrieveReproduces: user names with "+" are excluded, since recovery and retrieval end in ERR(exception) for them (Locate.OwnElementsAreLocated); names with both "+" and "." may or may not work.
- Sync.Synchronises: times of directories on the server's disk are not claimed, because create_directories moves them; recorded times of directories are exact only if no second connection was needed (`exact`).
- Alignment.AlwaysAligned: requires names and times that pass the Validator unchanged; a command that does not is never answered.
- FolderTimes.RetrievedFolderTimes: the client's clock has one value during the whole retrieval.
- Restore.SessionComesBack: about a retrieval that ends well and was asked for rows of this owner; when it does so is Restore.RetrieveFor.
- ClientProtocol.ProtocolManager.RecoverFromError: says nothing about a window with a storeSent directory, which no run produces.
- The tables: SQLite statements, transactions and error codes are replaced by operations on a sequence of rows (server) and on a map (client); the Database classes are therefore values inside the protocol classes, not objects of their own. removeAll is not modelled.
- The five server handlers each start with recovery and validation; the model does both once, before the dispatch (`Carry`).
- The communicate loop is modelled by the steps of `System` and by `SendFront`; select, timeouts, retries and idle closing are nondeterministic choices among these steps.
- Channels are unbounded: TCP back-pressure, by which client and server could block each other, is not modelled.
- A file changing between the check of its hash and the reading of its content, and a file that cannot be opened while it is being sent.
- TLS, certificates, wolfSSL, the inside of SHA-256 and random names; temporary files and the temporary folder below the destination.
- Authentication, passwords, protocol versions and VER messages, Protobuf encoding, configuration, arguments, console output.
- Calendar formatting of times: a time is a string that the Validator accepts and that setting and reading back preserves.
- Paths with "..", with doubled slashes or with drive letters as the file system would resolve them; base paths and watched folders whose own names mean something in a regular expression; in sessions, users with "+" and paths with line breaks.
- Whether the root folder of a user exists (no command can observe it), and its time.
- Two sessions of the same user and machine at a time; the thread pool of the server.
- Condition variables beyond their predicates: lost wake-ups, shutdown and notification order.
- Ring capacities beyond INT_MAX; empty messages in recvString, which index an empty vector.
- The search for a network interface in getMAC; Directory_entry::updateValues, which nothing calls.
