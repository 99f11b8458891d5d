# BoredomOS: the state that must survive

BoredomOS is CubeSat flight firmware. This project models the five parts of it whose
guarantees hold only over whole runs, and proves those guarantees:

- **The flight log.** A ring of `n` files and an index on an SD card (`Cards`, `RingSpec`,
  `SdDataRing`). Every change of the card is one operation; each call of `SdData` is proved
  to perform exactly the list of operations `RingSpec` gives for it, and power may fail
  between any two of them. A slot holds what has been synced, and the unsynced tail is part
  of RAM, so a power cut is simply the loss of RAM. `RingSafety`, `RingLog`, `RingBounds`,
  `RingSyncs` and `LogHead` prove what every run keeps, and `LogReader` that what is logged can be read back.
- **Log download.** The server side of the MAVLink log messages (117 to 122), two ports
  sharing one reading handle, interleaved with the log itself (`DownloadSpec`, `SdWrite`).
  `DownloadSafety` and `DownloadProgress` prove that what is delivered is what the file held
  and that every download ends, `DownloadListing` that a listing and a download agree; `Pacing` bounds its share of a port's queue.
- **Boot counters.** The checksummed backup registers, store by store (`RecoveryBlock`), and
  the choice of configuration over any sequence of resets (`Boots`).
- **The telemetry schedule.** Deadlines modulo 2^32 against the same deadlines in time that
  never wraps (`Schedule`).
- **The clock.** A ladder of sources, an epoch shifted with the clock, and reads that retry
  across a carry (`SystemClock`). `WdtTiming` is the watchdog's choice of period.

Code that changes state is a class or a method with loops, as in the firmware; what it
computes is a function, and the theorems about runs are lemmas about that function.

`Sys`, `Event` and `RunOps` in `RingSpec` describe a run: calls that finish, calls cut after
any number of operations, and damage to the index. Damage is admitted only as missing, out of
range, or naming a full slot: `begin()` takes an index that names some other slot that is not
full at its word (lib/SdData/SdData.cpp:81-87).

Some results turned out to need a condition that the code does not state:

- A download is faithful only if the ring has at least two files. With one file a rotation
  moves into the slot it left, `writeRecord` sees no change of slot, and the download goes on
  into the new file: `DownloadProgress.OneFileMixesFiles` gives such a run for every size. The firmware's own ring has four (lib/SdData/SdData.h:34).
- A listing ends only on a ring of fewer than 256 files, since its slot counter has eight bits
  and wraps before it reaches a larger count (`DownloadProgress.ListingLoopEnds`).
- The counts are kept in eight bits, so they are the history's counts modulo 256, and the
  counts themselves with fewer than 256 resets between clears (`Boots.CountsAreHistory`,
  `Boots.CountsAreExact`).
- A clock set between whose read and write some seconds tick loses exactly those seconds of
  elapsed time (`SystemClock.ElapsedIsTicks`).
- A schedule entry sends one message a turn. One that is two intervals behind stays behind, so
  the first turn must come less than two intervals after the seed: less than one after the
  start for the entries seeded a whole interval back (`Schedule.OneTurnCatchesUp`, `Schedule.FirstTurnMustBeSooner`).

Where code and documentation differ the code is followed. A listing skips a file that exists
but is empty (src/sdwrite.cpp:377-378) while the count in each entry includes it
(src/sdwrite.cpp:366-371); the written requirements ask for an entry for each file
that exists.

## Model

| member | source | states |
|---|---|---|
| SdDataRing.SdData.ReadLogIndex | lib/SdData/SdData.cpp:11-19 | A missing or out-of-range index reads as slot 0, any other as itself |
| SdDataRing.SdData.WriteLogIndex | lib/SdData/SdData.cpp:124-134 | One operation: the index on the card becomes the current slot |
| SdDataRing.SdData.SlotIsFull | lib/SdData/SdData.cpp:30-39 | True exactly of a slot that exists and whose synced size has reached the limit; an absent slot is not full |
| SdDataRing.SdData.WriteRaw | lib/SdData/SdData.cpp:148-156 | Puts everything accepted so far and the new bytes on the card in one sync, and never rotates; does nothing with no file held |
| SdDataRing.SdData.NotifyOpened | lib/SdData/SdData.cpp:49-54 | Each preamble chunk reaches the card by its own sync, in order, and nothing stays unsynced |
| SdDataRing.SdData.OpenNextSlot | lib/SdData/SdData.cpp:199-216 | The card goes through exactly: sync of the closed file, removal of what the next slot held if anything, the index, open, preamble; the handle is then on the next slot with nothing unsynced |
| SdDataRing.SdData.FindResumeSlot | lib/SdData/SdData.cpp:79-87 | The walk's answer: the first slot in ring order from the index that is not full, or none |
| SdDataRing.SdData.ResumeAt | lib/SdData/SdData.cpp:95-105 | Going on in a slot is exactly: the index if it has to move, open, preamble |
| SdDataRing.SdData.RotateFrom | lib/SdData/SdData.cpp:89-93 | With all slots full, exactly the operations of a rotation from the indexed one |
| SdDataRing.SdData.Begin | lib/SdData/SdData.cpp:73-106 | The card goes through exactly the operations of the specification's resume or rotation, and the handle is on the slot chosen |
| SdDataRing.SdData.End | lib/SdData/SdData.cpp:108-114 | Syncs the held file's tail and releases it, and does nothing with none held |
| SdDataRing.SdData.Write | lib/SdData/SdData.cpp:158-186 | The exact operations of a write: a sync once 4096 bytes have gathered, a rotation once the file has reached its size, nothing for an empty record or with no file held |
| RingSpec.RunIsApply | lib/SdData/SdData.cpp:73-216 | The operation list of a run, cuts and damage included, is exactly what takes the card from its start to its end |
| RingSafety.NoFileHoldsTwoPasses | lib/SdData/SdData.cpp:188-216 | On every run, with power cut between any two card operations and the index lost, out of range or naming a full slot at any time: once the ring has put something into another slot, nothing is put into a slot again before it is removed, whether what it holds came from this run or was there at its start |
| RingSafety.BlankCardHoldsOnePassPerFile | lib/SdData/SdData.cpp:188-216 | The same from a card that has never been written, with no condition on the card |
| RingSafety.FullFilesAreNotReopened | lib/SdData/SdData.cpp:65-98 | On every such run no file that is full at that moment is ever opened for appending |
| RingSafety.RunStaysRing | lib/SdData/SdData.cpp:56-106 | After every single operation of every such run the card still has the ring's shape: full files behind and absent ones ahead, or all others full |
| RingSafety.RunLegal | lib/SdData/SdData.cpp:73-216 | Every run is, operation by operation, one the ring's discipline allows, and leaves the handle on the ring's slot |
| RingSafety.WalkFinds | lib/SdData/SdData.cpp:79-87 | The walk passes only full slots and stops at the first that is not, or after all of them |
| RingSafety.ResumePoint | lib/SdData/SdData.cpp:79-98 | On a card of the ring's shape, where the walk stops depends on the shape alone and not on which full slot the index names |
| RingSafety.DamagedIndexResumesTheSame | lib/SdData/SdData.cpp:11-19 | On every card a run can leave with some slot not full, an index lost or naming a full slot leads to the slot the index as it was would have led to, and that slot is not full |
| RingLog.LogConserved | lib/SdData/SdData.cpp:188-216 | Over any allowed operations with the index intact: bytes held and bytes made durable, in order, are the bytes removed followed by the bytes held now |
| RingLog.RefinesBoundedLog | lib/SdData/SdData.cpp:158-216 | At every operation of every run without index damage: the ring is a suffix of all durable bytes, each removal takes the file after the index and only off a ring whose files are all full, and after the first removal at least (n-1) times the size is retained |
| RingLog.RingIsDurableSuffix | lib/SdData/SdData.cpp:158-216 | From a blank card, the files from the slot after the current one round to it are, at every operation, a suffix of everything that became durable |
| RingLog.WrappedStaysFull | lib/SdData/SdData.cpp:199-210 | Once a file has been removed, or all others are full, every file but the current one is full ever after |
| RingBounds.BeginEffect | lib/SdData/SdData.cpp:79-105 | For any n, any card and any index: begin appends its preamble to the first slot in ring order that is not full, removes nothing and leaves every other slot alone; only with all full does it remove exactly one file, the one after the index |
| RingBounds.NextSlotEffect | lib/SdData/SdData.cpp:206-215 | A rotation leaves the next slot holding exactly the preamble, the index naming it, and every other slot unchanged |
| RingBounds.CardUseIsBounded | lib/SdData/SdData.cpp:148-186 | On every run the sync counter is the length of the unsynced tail and below 4096 between calls, and no file ever exceeds the size plus one preamble plus one record |
| RingBounds.EveryFileIsSmall | lib/SdData/SdData.cpp:30-39 | That bound on each file after any number of operations of the run, reopenings and cuts included |
| RingBounds.CutCostsABoundedTail | lib/SdData/SdData.cpp:170-179 | A cut anywhere in a write loses only the end of what had been accepted, which is under 4096 bytes and one record |
| RingSyncs.AppendBatches | lib/SdData/SdData.cpp:172-179 | A record causes a sync if and only if 4096 bytes have gathered, and then uses them up |
| RingSyncs.WritesAreBatched | lib/SdData/SdData.cpp:158-179 | Any number of writes to one file with no rotation: 4096 times the syncs, plus what is gathered at the end, is at most what was gathered at the start plus the bytes accepted |
| RingSyncs.SyncsAreBounded | lib/SdData/SdData.cpp:148-216 | The same over any run with cuts, rotations and reopenings, apart from five syncs an opening and one for each end or cut |
| LogFormat.LittleEndianRoundTrip | src/sdwrite.cpp:66-74 | An integer field reads back as the value written |
| LogFormat.HeadTimeOfRecord | src/sdwrite.cpp:286-296 | A TIME record read back gives its unix time, or 0 when it was written with no source |
| LogReader.PreambleDefines | src/sdwrite.cpp:129-138 | The bytes of the preamble define TIME, SYS and PWR: type, length, name, format and every column read back from them |
| LogReader.DefinitionReadsBack | src/sdwrite.cpp:56-64 | Any definition that fits its fields reads back from its FMT record, columns split at the commas |
| LogReader.SysBytes | src/sdwrite.cpp:76-84 | The bytes of a SYS record: time at 3, free heap at 11, then the seven stack marks in order |
| LogReader.PwrBytes | src/sdwrite.cpp:86-94 | The bytes of a PWR record: time at 3, millivolts at 11, signed percentage at 13 |
| LogReader.TimeBytes | src/sdwrite.cpp:66-74 | The bytes of a TIME record: time at 3, unix time at 11, source at 15 with its number |
| LogReader.RecordsReadBack | src/sdwrite.cpp:456-486 | Every field of every record reads back by its column's name through nothing but the preamble's definitions, and each record is as long as they declare |
| LogReader.OpeningReadsBack | src/sdwrite.cpp:140-190 | An opening defines before it uses: preamble, TIME, the definition of RST, then the RST record, every field of which reads back by it; a task is named only after a fault |
| LogHead.OpeningChunksAreAnOpening | src/sdwrite.cpp:156-190 | What an opening writes starts with the constant preamble followed by a TIME record |
| LogHead.RunHeaded | src/sdwrite.cpp:156-170 | At every operation of every run each file's head is what the opening that created it wrote there |
| LogHead.TimeIsOfHead | src/sdwrite.cpp:279-297 | Reading at offset 356 finds the head's own TIME record, or bytes that are reported as 0 |
| LogHead.SlotTimeIsOfItsHead | src/sdwrite.cpp:208-297 | On every run from a blank slot with cuts between preamble writes and any reopenings, the time reported is 0 or that of the TIME record written by the opening that created the head |
| SdWrite.SdWriter.BeginStream | src/sdwrite.cpp:316-343 | A request replaces its port's download and fixes its end; no 32-bit sum overflows for any count |
| SdWrite.SdWriter.StopStream | src/sdwrite.cpp:308-314 | Ends one port's download and releases the handle only if that port holds it |
| SdWrite.SdWriter.BeginListing | src/sdwrite.cpp:299-306 | A listing starts from slot 0 with the requested range |
| SdWrite.SdWriter.CountFiles | src/sdwrite.cpp:364-371 | The number of files that exist and the highest id among them |
| SdWrite.SdWriter.AdvanceListing | src/sdwrite.cpp:373-378 | The eight-bit counter stops just past the next slot to report, or at the end; for fewer than 256 files |
| SdWrite.SdWriter.ServiceListing | src/sdwrite.cpp:360-392 | Posts the entry of the next listed slot that has a size, or ends the listing; for fewer than 256 files |
| SdWrite.SdWriter.ServiceStream | src/sdwrite.cpp:395-446 | Posts what the specification of a stream posts, on that port and no other, and leaves the other port's download alone |
| SdWrite.SdWriter.ReadHandle | src/sdwrite.cpp:427-444 | Reads the bytes at the handle's position, as many as asked or as there are, and moves past them |
| SdWrite.SdWriter.WriteRecord | src/sdwrite.cpp:456-500 | The ring takes the encoded record as one write; if that moved the ring, exactly the downloads of the slot it moved into end with an empty message |
| SdWrite.SdWriter.ServiceOne | src/sdwrite.cpp:537-548 | A pass does one piece of work on the first port in turn with work and room, or none |
| SdWrite.PassPostsOnce | src/sdwrite.cpp:537-548 | A pass posts at most one message, of the log protocol, on a port where it found room |
| SdWrite.PassIsPaced | src/sdwrite.cpp:246-252 | To each port's queue a pass is nothing, or the room check and the one post that `Pacing` assumes |
| SdWrite.PortsTakeTurns | src/sdwrite.cpp:537-548 | A port with work and at most one item in its queue is served by this pass or the next |
| SdWrite.SdWriter.TimeOfSlot | src/sdwrite.cpp:279-297 | The head's unix time by the byte tests the code makes, 0 for a short or foreign head |
| DownloadSafety.AnswerTilesTheRange | src/sdwrite.cpp:333-342 | An answer's chunks tile the requested range in strides of 90 with no gap or overlap; one running to the end of the file has exactly one message shorter than 90, its last; one stopping short has no empty message |
| DownloadSafety.ServeFollows | src/sdwrite.cpp:395-446 | One service of a stream posts the next message of that answer, or nothing while the other port reads, and ends only when the answer is complete |
| DownloadSafety.DownloadsAreFaithful | src/sdwrite.cpp:395-500 | For any interleaving of writes, rotations, requests and passes on both ports, what was posted for a request is a prefix of the answer made of the bytes its file held when the request arrived; all of it if it finished; and one empty message more, with the request's id and the offset reached, if the slot was reused |
| DownloadSafety.WorldsOk | src/sdwrite.cpp:308-500 | On every such run a held handle belongs to an active download of a real file and sits at its position, and every port's stream stands exactly after what it has sent |
| DownloadSafety.ReuseOk | src/sdwrite.cpp:488-499 | A rotation into a served slot ends that download with one empty message, and leaves every other download valid on the changed card |
| DownloadSafety.EndReleases | src/sdwrite.cpp:308-314 | Ending one port's download keeps the handle in order and leaves the other port's download and handle alone |
| DownloadSafety.WriteGrows | lib/SdData/SdData.cpp:158-215 | A write only makes files longer, except in the slot a rotation moves into |
| DownloadProgress.DownloadsFinish | src/sdwrite.cpp:512-549 | With no new requests and room on both ports, all listings and downloads have finished after as many passes as a stated measure, whatever is logged between |
| DownloadProgress.PassFalls | src/sdwrite.cpp:538-548 | Every pass with work lowers that measure, also one that only finds the handle taken |
| DownloadProgress.LogNoRise | src/sdwrite.cpp:488-499 | Logging, rotations included, never raises it |
| DownloadProgress.ListingReportsEachFile | src/sdwrite.cpp:373-391 | With fewer than 256 files, a listing posts one entry for each slot in range with a size, each once, in order of id |
| DownloadProgress.ListingLoopEnds | src/sdwrite.cpp:373-374 | The eight-bit slot counter reaches the number of files if and only if that is below 256 |
| DownloadProgress.LogCountIsFiles | src/sdwrite.cpp:364-371 | The count in an entry is the number of files that exist and the last id the highest among them |
| DownloadListing.ListingAgreesWithDownloads | src/sdwrite.cpp:299-392 | Each entry of a listing is in range and true of the file its id downloads: size, time, how many files there are and the highest id; ids ascend; no file in range with a size is left out |
| DownloadListing.EntryIsDownloadable | src/sdwrite.cpp:328-340 | Asking for all of a listed file is answered with its bytes, as many as the entry said |
| DownloadProgress.OneFileMixesFiles | src/sdwrite.cpp:458-499 | With a ring of one file, of any size, there is a run in which a download posts bytes of the next file |
| Pacing.AtMostTwoPaced | src/sdwrite.cpp:246-252 | With the check and the post as separate steps among any other posts and receives, a queue never holds more than two log messages, so a post by another task fails only with seven other items queued |
| RecoveryBlock.Recovery.ComputeChecksum | src/recovery.cpp:20-27 | The 8-bit sum over the counters and markers |
| RecoveryBlock.OneByteChangeIsDetected | src/recovery.cpp:20-35 | A valid block does not validate with any one of its 23 bytes changed, magic and checksum included |
| RecoveryBlock.Recovery.WriteByte | src/recovery.cpp:56-63 | The byte replaced, the block valid again, and registers 0 to 3 untouched |
| RecoveryBlock.Recovery.SetConsecutiveCount | src/recovery.cpp:72-75 | Only the consecutive count of the boot's fields changes, and the block is valid |
| RecoveryBlock.Recovery.SetCumulativeCount | src/recovery.cpp:82-85 | Only the cumulative count of the boot's fields changes, and the block is valid |
| RecoveryBlock.Recovery.SetCumulativeSnapshot | src/recovery.cpp:92-95 | Only the snapshot of the boot's fields changes, and the block is valid |
| RecoveryBlock.Recovery.SetDeliberateReset | src/recovery.cpp:154-157 | Only the marker of the boot's fields changes, and the block is valid |
| RecoveryBlock.WithByteFields | src/recovery.cpp:56-63 | A setter changes its own byte, the checksum and the magic, and leaves the block valid whatever it held |
| RecoveryBlock.Recovery.Reinitialise | src/recovery.cpp:37-46 | A valid block of zeros; every register outside it as it was |
| RecoveryBlock.Recovery.RecordFault | src/recovery.cpp:107-120 | Performs exactly the listed register stores in order: name, phase, checksum, magic |
| RecoveryBlock.Recovery.GetFaultTask | src/recovery.cpp:122-133 | The stored name up to a NUL with unprintable bytes as '?', or empty if the block is not valid |
| RecoveryBlock.Recovery.ConsumeDeliberateReset | src/recovery.cpp:145-152 | Returns the marker once: afterwards it is none, with every other field as it was |
| RecoveryBlock.FaultRecordIsAllOrNothing | src/recovery.cpp:107-120 | After any prefix of a fault record's stores the phase is what it was, or it is the fault's and the whole name is stored; registers 0 to 3 are untouched |
| RecoveryBlock.FaultNameRoundTrip | src/recovery.cpp:107-133 | A completed record leaves a valid block with the fault's phase, from which the name reads back cut at 15 bytes or a NUL, each byte outside 32 to 126 as a question mark |
| Boots.UpdateCountersAndDecideConfiguration | src/main.cpp:281-324 | The counters, the snapshot, the marker and the decision after a boot, as functions of those before it and the reason |
| Boots.ReasonRoundTrip | src/main.cpp:391-400 | A stored reset reason reads back as itself by the numbers reported, and no other number stands for one |
| Boots.BootSequence | src/main.cpp:377-406 | An invalid block is cleared first and outranks the decoded reason; the previous phase and fault name are read before they are overwritten |
| Boots.Watch.Check | src/mavlink.cpp:1402-1413 | The consecutive count is cleared once after five minutes; a reduced boot marks a retry and resets once after thirty |
| Boots.CommandReboot | src/mavlink.cpp:1136-1151 | A commanded reboot leaves all counts zero and its marker set |
| Boots.CountsAreHistory | src/main.cpp:281-324 | Over any sequence of boots the stored counts are the history's modulo 256, and a reduced boot's snapshot is its own count |
| Boots.CountsAreExact | src/main.cpp:292-301 | With fewer than 256 resets between clears they are the history's counts: resets since the last clear, and unmarked watchdog or software resets since the last stable run |
| Boots.NormalIffUnderThresholdOrRetry | src/main.cpp:303-321 | A boot is normal if and only if fewer than 3 faults and fewer than 10 resets are counted, or it directly follows an automatic retry |
| Boots.RetryStartsNormal | src/main.cpp:309-314 | The boot after an automatic retry starts normal, even after the counters have wrapped |
| Boots.CommandStartsNormal | src/mavlink.cpp:1143-1151 | The boot after a commanded reboot starts normal, whatever the reset looks like, with the counts of a fresh board |
| Boots.LeavingReducedTakesTime | src/mavlink.cpp:1404-1413 | With no command and the block intact, a board in the reduced configuration boots normal only after a stable five minutes or a retry's thirty |
| Boots.EntriesAreApart | src/mavlink.cpp:1409-1413 | Entries into the reduced configuration with a retry between them are at least its interval apart, whatever else happened; those with a normal boot between, no command and an intact block, at least the stability window |
| Schedule.Scheduler.constructor | src/mavlink.cpp:991-1006 | The ten entries' intervals, seeds and enabled flags |
| Schedule.Scheduler.ComputeWait | src/mavlink.cpp:1083-1091 | The least wait after which some enabled entry on some port is due, and at most 1000 ms |
| Schedule.Scheduler.SetInterval | src/mavlink.cpp:1160-1185 | Zero or less disables, under the floor is refused and changes nothing, anything else arms from the time passed in; the other port and rows are untouched |
| Schedule.Scheduler.FireDue | src/mavlink.cpp:1388-1396 | Exactly the due entries are sent, once each and in order, and only their deadlines move, by one interval |
| Schedule.Scheduler.TakeTurn | src/mavlink.cpp:1039-1396 | A command for a port arms, with the time read before the wait, or disables that port's housekeeping and nothing else; every other entry only fires, at the time read after it; what is sent is what was due |
| Schedule.DueThenAndNotBefore | src/mavlink.cpp:1087-1089 | The computed time to an entry's deadline is the least after which the code's own test holds |
| Schedule.NoDrift | src/mavlink.cpp:1388-1396 | Through any number of wraps and turns however late within the width, the stored deadline is the seed or arming time plus interval times messages sent |
| Schedule.PunctualStaysUpToDate | src/mavlink.cpp:1388-1396 | An entry less than an interval behind stays so while turns are no further apart than its interval |
| Schedule.SentOncePerInterval | src/mavlink.cpp:991-1006 | From the start, on any row, port and configuration, with turns no further apart than the interval and the first less than two intervals after the seed: messages sent are the whole intervals since the seed, and the 32-bit delta is the true one |
| Schedule.SendTimes | src/mavlink.cpp:991-1006 | When each row is due after so many messages, in milliseconds from the start: heartbeat 0, system time 500, battery 0 every two seconds and not in the reduced configuration, SYS_STATUS 750, housekeeping never until armed |
| Schedule.OneTurnCatchesUp | src/mavlink.cpp:1391-1394 | After a turn an entry is up to date if and only if it was less than two intervals behind |
| Schedule.FirstTurnMustBeSooner | src/mavlink.cpp:993-1005 | A first turn a whole interval late leaves the heartbeat one message short of its count |
| SystemClock.SystemTime.Begin | lib/SystemTime/SystemTime.cpp:52-94 | The initial source and reading by the ladder, for a clock that takes times and for one that refuses them; the epoch is the reading |
| SystemClock.SystemTime.SetUnixTime | lib/SystemTime/SystemTime.cpp:163-269 | Accepted exactly if plausible, from no worse a source, and either the second held or a clock write that worked; moved exactly if accepted and different; and the whole state after |
| SystemClock.SystemTime.ReseedFromDs1307 | lib/SystemTime/SystemTime.cpp:271-280 | A set to the DS1307's reading from that source, or nothing without one |
| SystemClock.SystemTime.PushToDs1307 | lib/SystemTime/SystemTime.cpp:282-298 | The DS1307 then reads a plausible internal time; nothing else changes |
| SystemClock.PushSetsTheOther | lib/SystemTime/SystemTime.cpp:282-298 | After a push a DS1307 that is present reads a plausible internal time, and is as it was otherwise; the internal clock, epoch and source never change |
| SystemClock.PushCarriesTheGroundsTime | lib/SystemTime/SystemTime.cpp:282-298 | Set from the ground, drifted apart, pushed: the start after any restart is seeded with the ground's time and all the seconds since |
| SystemClock.AcceptedExactlyWhen | lib/SystemTime/SystemTime.cpp:163-181 | A set is accepted if and only if the time is from 2022 on and fits 32 bits, the source is no worse than the one held, and the clock takes it or already reads it |
| SystemClock.EpochFollowsTheClock | lib/SystemTime/SystemTime.cpp:240-245 | The shifted epoch survives its narrowing to 32 bits if and only if the uptime is no more than the time set |
| SystemClock.ElapsedIsTicks | lib/SystemTime/SystemTime.cpp:151-156 | Over any ticks and sets, accepted or refused, elapsed time is the seconds passed less those that ticked inside a set, below the plausibility floor |
| SystemClock.ElapsedSinceBegin | lib/SystemTime/SystemTime.cpp:151-156 | With each set's read and write in one second, elapsed whole seconds are the ticks since begin |
| SystemClock.RankNeverWorsens | lib/SystemTime/SystemTime.cpp:179-181 | The source's rank never worsens over any run, and the ground's stays the ground's |
| SystemClock.SetIsAllOrNothing | lib/SystemTime/SystemTime.cpp:163-269 | An accepted time is what both clocks then read, but for a repeat, the DS1307's own or one that is absent, where the DS1307 only ticks; a refused one changes neither clock, epoch nor source |
| SystemClock.GetUnixTimeUsec | lib/SystemTime/SystemTime.cpp:112-144 | A matching pair gives the exact time at an instant within the call, rounded down to a microsecond; four torn pairs give the whole second of a last read; a failed read gives 0 |
| SystemClock.ReadingsAdvance | lib/SystemTime/SystemTime.cpp:126-144 | Matching readings of successive calls never decrease, and a fallback is behind by less than a second |
| SystemClock.ShortCallsAreExact | lib/SystemTime/SystemTime.cpp:119-140 | A call of at most three seconds never falls back |
| WdtTiming.SelectWdtTiming | src/main.cpp:351-367 | The chosen setting has the shortest of the 70 true periods that are at least the request; none is found exactly above 5592 ms |
| WdtTiming.FloorsDecideTheRequest | src/main.cpp:357-358 | Comparing floored microseconds decides exactly what the true rational period would |
| WdtTiming.FloorsKeepTheOrder | src/main.cpp:357-358 | Flooring orders any two of the periods as they are truly ordered |

## Left out

- FAT and the SD library: removing a file, overwriting the index, creating a file and syncing are each atomic, and opens, appends and reads in range succeed in full; a failed open, a short read and a torn directory entry are not modelled, nor bytes that reach the card before their sync.
- The open callback: a call takes the preamble it will write as a list of chunks; `LogFormat.OpeningChunks` gives the firmware's own.
- Index damage that names a slot neither full nor current: `begin()` accepts such an index, so the safety of the ring is not claimed for it; and the bounded log is claimed for an intact index only.
- DownloadsAreFaithful: assumes 2 to 128 files (the slot is an `int8_t`) and files below 2^32 bytes, and records what is posted; that a post finds the queue with room is what the pacing check arranges, except against posts of other tasks between check and post, which `Pacing` allows. A rotation notice may be refused by a full queue in the same way.
- DownloadsFinish: is stated for ports that always have room, since a port whose writer never drains its queue is served nothing.
- The card task's drain of its request queue: requests, records and passes are events in any order rather than items of a bounded queue.
- Pacing: items are told apart only as log message, rotation notice or anything else.
- Boots.Watch.Check: takes the elapsed milliseconds as a number; the 32-bit count they come from wraps long after both windows.
- The reset itself, the decoding of the reset flags, register protection and the watchdog's registers are not part of this model.
- Setters of phase and reason: they are `WriteByte` at their offsets and are not separate members; those of the counters and the marker are, and say which field they change.
- Schedule: what each entry sends, the drop counters, the housekeeping cursor, message parsing and replies, and the two further periodic jobs of the same loop (clock reconciliation, the battery record), which use the same comparison.
- Commands with a float parameter: the interval arrives as the integer it converts to.
- SystemClock.SystemTime.Begin: an internal clock reading at or above 2^32 would not fit the epoch; the clock's calendar ends before that.
- SystemClock.ElapsedIsTicks: for an internal clock that is counting, as it is after a start that found it so or could write it; one that is stopped shows no elapsed time.
- SetUnixTime: reads of the internal clock succeed there and whole seconds only are followed; a reader between its two stores is excluded by the suspended scheduler, and one between its own two loads is not modelled. The DS1307 is a second clock that may read anything, without its two-digit year.
- GetUnixTimeUsec: no set happens within a call, and the counter is phase-locked to the second.
- The CLI, battery arithmetic, link drivers, task creation, stack and memory budgets: easy or outside this firmware's own code.
