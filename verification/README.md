# Verified model of the broker's storage, replication, consumer groups and framing

The project models four linked parts of the message broker in Dafny and proves
what they promise. `dafny verify dfyconfig.toml` checks all of it.

**Log storage** (`Bytes`, `DiskRecord`, `RecordFormat`, `LogImage`,
`OffsetIndex`, `Segment`, `Partition`, `Recovery`, `Refinement`). A partition is
a list of segment files; a segment file is a byte string of self-delimiting
records with a sparse index that is searched by bisection. Classes hold the bytes
and keep, as ghost state, the flat list of records those bytes stand for. The
main result is `Refinement.WriteThenRead`: whatever the batches, the segment size
and the index interval, a fetch gives back the very messages that were written,
from the offset on, also after closing and reopening. The checksum is an arbitrary function; a compression
codec is an arbitrary inverse pair. A memory map is the file's bytes at the time
it was made.

**Replication** (`ReplicaState`, `WatermarkExact`, `Cluster`,
`ReplicaAssignment`). Offset reports, watermark, elections and broker failures
are methods proved against transition relations that leave open which member of
a hash set is picked; the theorems are about every run of those relations.

**Consumer groups** (`Coordinator`, `OffsetText`, `OffsetCommits`,
`GroupDelivery`). The coordinator's table under joins, leaves, heartbeats and
sweeps; the text file in which offsets survive a restart; overlapping commits at
the level of single lock and file operations; and the client's offset tracking,
request by request, with what it has delivered.

**Framing, retention and locks** (`Codec`, `Retention`, `PartitionLocks`).
Length-prefixed frames over arbitrary chunks; the retention sweep; and the locks
of a partition at the level of single acquisitions.

How to read it: a method of the program is a Dafny method on a class (or on the
value it works on) with its loops; it is proved against a function or a
transition relation on values; the lemmas then prove what the program promises
about those, in terms of the inputs and of the events of a run alone. Hash iteration order is a nondeterministic choice. Clocks, random
identifiers, live brokers and directory listings are parameters. Where the code
falls short of a promise, the project proves the exact condition under which the
promise holds, and gives a run that breaks it as a witness.

## Model

| member | source | states |
|---|---|---|
| DiskRecord.Encode | storage/src/record.rs:62-111 | the two growing buffers together hold offset, length, checksum and body in that order, each field at its fixed width |
| DiskRecord.Decode | storage/src/record.rs:114-208 | what a decode returns and consumes is determined by the bytes left in the reader; a length below 4 is a panic of its own, not an error |
| DiskRecord.EncodedHeader | storage/src/record.rs:62-108 | an encoding starts with the offset, a length that counts everything from the checksum on, and the checksum of everything behind it |
| DiskRecord.EncodedBody | storage/src/record.rs:82-108 | behind that come compression code 0 to 3, time, key length or all ones, key, value length and packed value, each at its byte |
| DiskRecord.ParseOutcome | storage/src/record.rs:114-151 | on any bytes: a short header or body is a short read, a length below 4 underflows, and a whole frame is Corruption if and only if its checksum field is not the checksum of its body |
| DiskRecord.ParseBodyOutcome | storage/src/record.rs:154-208 | a compression code above 3 is refused whatever follows; otherwise the fields come back, unpacked by the codec of codes 1 to 3, and a value that cannot be unpacked is an error |
| DiskRecord.DamageIsFound | storage/src/record.rs:143-151 | a record whose body was changed on disk is Corruption whenever the checksums of the two bodies differ |
| Bytes.U32BytesAre | storage/src/record.rs:80-80 | four-byte numbers are written with the most significant byte first |
| Bytes.U64BytesOf | storage/src/index.rs:64-66 | so are eight-byte ones, and they are read back that way |
| DiskRecord.KeyRoundTrip | storage/src/record.rs:91-97 | a key is read back with nothing else consumed, except that a key of 2^31 bytes or more is read as no key |
| DiskRecord.RecordRoundTrip | storage/src/record.rs:62-208 | decoding an encoded record followed by any bytes gives the record and leaves exactly those bytes, for any checksum and any inverse codecs |
| DiskRecord.RoundTripExactly | storage/src/record.rs:62-208 | without compression that holds if and only if the key is below 2^31 bytes and the body below 2^32 |
| DiskRecord.TornRecordFails | storage/src/record.rs:114-141 | every proper prefix of an encoding fails to decode as a short read, and never underflows |
| DiskRecord.SerializedSizeIsExact | storage/src/record.rs:51-60 | serialized_size is the size on disk if and only if compression keeps the value's length |
| RecordFormat.FormatOfFaithful | storage/src/record.rs:62-208 | the format handle that the other modules use stands for exactly this encoding and decoding |
| LogImage.ParseAllOfImage | storage/src/record.rs:114-208 | decoding any concatenation of encodings plus a torn tail yields those records in order and stops at the tail |
| LogImage.ImageInjective | storage/src/record.rs:62-208 | two lists of records with torn tails and the same bytes are the same list and the same tail |
| LogImage.NextRecord | storage/src/segment.rs:277-288 | a reader that has passed k records decodes record k next, or fails when only the torn tail is left |
| OffsetIndex.OffsetIndex.Append | storage/src/index.rs:62-78 | the write lands at the file's cursor while the count grows; a consistent index, also one whose file ends in a partial entry, stays consistent if and only if the cursor was behind the last whole entry |
| OffsetIndex.OffsetIndex.Lookup | storage/src/index.rs:81-106 | the bisection finds the position stored with the largest offset not above the target, or nothing when there is none |
| OffsetIndex.EntriesAppend | storage/src/index.rs:62-71 | sixteen bytes written behind the last whole entry are read back as one more entry and leave the others as they were |
| OffsetIndex.EntryLayout | storage/src/index.rs:62-71 | entry i lies at byte 16i, its offset in the first eight bytes and its position in the next |
| OffsetIndex.OffsetIndex.Open | storage/src/index.rs:41-59 | reopening reads the same entries but leaves the cursor at the start |
| Segment.LogSegment.Append | storage/src/segment.rs:158-214 | the batch's bytes go behind whatever the file holds, with consecutive offsets, and the old next offset is returned; a segment that can take the batch, as every segment never reopened can, holds its records behind its own, with every index entry at the byte where its own record starts |
| Segment.LogSegment.NoteInIndex | storage/src/segment.rs:187-191 | an entry is made for the record about to be written exactly when an interval of records has gone by |
| Segment.LogSegment.ScanForNextOffset | storage/src/segment.rs:340-355 | the scan finds the offset behind the last whole record if and only if the file is empty or holds a whole record; otherwise it skips one offset |
| Segment.LogSegment.Open | storage/src/segment.rs:114-154 | opening files that hold given records and a torn tail gives a segment with exactly those records |
| Segment.LogSegment.Read | storage/src/segment.rs:217-249 | from wherever the index points, the scan ends and returns the very record with this offset, as a scan from byte 0 would; in a segment never reopened it decodes at most one interval of records; only an offset that a reopened torn file skipped is in range and unreadable |
| Segment.LogSegment.ReadBatch | storage/src/segment.rs:252-292 | the records from the start offset on, up to the count, as a slice of the segment's records, although the scan starts at an index entry |
| Segment.FloorStartsAt | storage/src/segment.rs:232-238 | the position a lookup returns is where the record with the entry's own offset starts, and no later entry is usable |
| Segment.ScanIsShort | storage/src/segment.rs:187-196 | entries sit at base + N, base + 2N and so on, so a target lies less than one interval behind the record its scan starts at |
| Segment.IndexGrows | storage/src/segment.rs:187-191 | an entry with the current end of file keeps the index sound for the record written there next |
| Partition.Partition.FindSegmentIndex | storage/src/partition.rs:240-261 | the bisection finds the last segment whose base is not above the offset |
| Partition.Partition.Fetch | storage/src/partition.rs:165-213 | as many records as asked for, or all there are from the offset on; record i has the topic, the partition, offset + i, and the key, value and time of that record of the flat log |
| Partition.Partition.FetchSegment | storage/src/partition.rs:176-202 | one turn of the fetch loop extends what was gathered to a longer stretch of the flat log, and stays put only at the log's end |
| Partition.Partition.Append | storage/src/partition.rs:124-162 | a non-empty batch goes to a new segment if and only if the last log file has at least max_size bytes, and leaves that file alone; otherwise its bytes go behind it; the old next offset is returned; when the segment can take the batch, its messages land field by field at the end of the flat log; an empty batch is an error and changes nothing |
| Partition.Partition.Rotate | storage/src/partition.rs:137-148 | rotation adds an empty segment at the last one's next offset, which is the end of the flat log unless an offset was skipped, and changes no record |
| Partition.EmptySegmentIsFullOnlyAtZero | storage/src/segment.rs:310-312 | an empty segment asks for rotation onto its own base offset if and only if the size limit is 0 |
| Partition.Partition.NextOffset | storage/src/partition.rs:216-223 | the next offset is the length of the flat log, or one more after reopening on nothing but a torn record |
| Partition.Partition.Open | storage/src/partition.rs:73-119 | files that hold a flat log, listed in any order, open as a partition with that log and the same segments; a directory without segments is an error |
| Partition.IncreasingUnique | storage/src/partition.rs:104-104 | the sorted list of base offsets does not depend on the order of the directory listing |
| Recovery.Reopen | storage/src/partition.rs:73-119 | closing and reopening gives the same segments, log and next offset, and one index interval of appends before the reopened index would be written to |
| Recovery.CutImage | storage/src/segment.rs:340-355 | a file cut at any byte holds its whole records and a tail that is the start of one record |
| Recovery.ReopenAfterCut | storage/src/segment.rs:114-154 | after the last file was cut at any byte, reopening yields exactly the whole records, and no offset is skipped if and only if the cut left at least one of them, or nothing |
| Refinement.AppendAll | storage/src/partition.rs:124-162 | any list of non-empty batches ends up in a fresh partition as one flat log, each append returning the number of messages before it; every segment but the last has a file of at least max_size bytes, and none had reached that before its last batch |
| Refinement.WriteThenRead | storage/src/partition.rs:41-213 | for any batches, segment size and index interval a fetch returns min(max, messages from the offset on) records, record i with offset + i and the very message written there, before and after closing and reopening |
| Refinement.FlatAt | storage/src/partition.rs:124-162 | message j of batch i is the one at the offset its append returned, plus j |
| PartitionLocks.NeverStuck | storage/src/partition.rs:129-237 | no deadlock: while any append, fetch, flush or next-offset task is unfinished, some task's next step takes no lock or a lock that nobody holds |
| PartitionLocks.ReadersSeeWholeAppends | storage/src/segment.rs:163-204 | whoever shares the segment list sees all parts of every segment agree, and exactly the records of the appends that have ended, in their order |
| PartitionLocks.NothingChangesUnderReaders | storage/src/partition.rs:165-213 | nothing changes between a fetch's first and last lock operation |
| PartitionLocks.OuterLockMatters | storage/src/segment.rs:262-270 | without the outer lock an append and a fetch that start with no locks can run to a point where, about to remap and about to look into the index, they wait for each other |
| PartitionLocks.AppendIsNested | storage/src/segment.rs:163-204 | an append takes no lock it already has, remap included, and gives back the outer lock last |
| PartitionLocks.FetchIsOrdered | storage/src/segment.rs:257-270 | a fetch over any segments takes its locks in increasing rank |
| PartitionLocks.AppendSettles | storage/src/segment.rs:176-204 | run to its end, an append with or without rotation leaves all parts of every segment in agreement, with its own records behind the others |
| ReplicaState.PartitionReplicaState.UpdateReplicaOffset | broker/src/cluster.rs:110-125 | the offset is recorded; the reporter is in sync afterwards if and only if it is the leader, no leader offset is known, or it is at most the threshold behind it; everyone else keeps their place; the watermark is the least in-sync offset |
| ReplicaState.PartitionReplicaState.UpdateHighWatermark | broker/src/cluster.rs:128-142 | the watermark is the minimum over the in-sync set, for every iteration order, and stays when the set is empty |
| ReplicaState.PartitionReplicaState.ElectNewLeader | broker/src/cluster.rs:145-176 | any in-sync member may be elected; with none, the first replica is, and joins the set; with no replicas nothing changes |
| ReplicaState.ReachableStates | broker/src/cluster.rs:87-182 | in every run the leader is in the in-sync set, and every in-sync member holds everything acknowledgeable unless an unsafe election came before and no report since |
| ReplicaState.RecordedIsLastReport | broker/src/cluster.rs:87-112 | in every run the offset recorded for a broker is the last one it reported, or 0 for a replica that reported nothing |
| ReplicaState.InSyncExactlyWhen | broker/src/cluster.rs:110-173 | who is in sync after each event, as an if-and-only-if on the event and the recorded offsets |
| ReplicaState.CaughtUpStays | broker/src/cluster.rs:114-122 | in every run a broker whose report is at most the threshold behind the leader stays in sync until its own next report or failure |
| ReplicaState.LaggingStaysOut | broker/src/cluster.rs:117-122 | a follower that reports further behind is out until it reports caught up, or is the first replica when an election finds nobody else |
| ReplicaState.LeaderChangesExactlyWhen | broker/src/cluster.rs:145-176 | only the failure of the leader changes the leader, to another in-sync member or else the first replica, and each raises the epoch by one |
| ReplicaState.AcknowledgedExactlyWhen | broker/src/replication.rs:277-280 | after a report an offset can be acknowledged if and only if every in-sync member has one at least as high recorded; failures change nothing about it |
| ReplicaState.FailureKeepsCoveredExactlyWhen | broker/src/cluster.rs:145-176 | a broker's failure leaves an in-sync member without something acknowledgeable if and only if an election finds the set empty and the first replica lacks it |
| ReplicaState.AlwaysCoveredExactlyWhen | broker/src/cluster.rs:87-182 | in every run the in-sync members always hold everything acknowledgeable if and only if all its elections are safe in this sense |
| ReplicaState.ReportKeepsWatermarkExactlyWhen | broker/src/cluster.rs:110-142 | a report lowers the watermark if and only if it is below it and does not take its follower out of the in-sync set |
| ReplicaState.FallsExactlyWhen | broker/src/cluster.rs:110-176 | so with safe elections the watermark of a run falls at exactly these reports |
| ReplicaState.WatermarkBound | broker/src/cluster.rs:110-176 | with safe elections and no leader reporting less than before, whatever followers report, the watermark never falls more than (epoch + 1) lag thresholds below any value it had |
| ReplicaState.NothingAcknowledgedIsLost | broker/src/replication.rs:277-280 | with threshold 0 what could once be acknowledged can be ever after, and is held by the leader after any number of failovers |
| WatermarkExact.BoundIsReached | broker/src/cluster.rs:110-176 | for every threshold and every number of elections some run loses exactly that much, even with no empty-set election and no report that shrinks, so the bound cannot be improved |
| WatermarkExact.EmptySetElectionLosesAll | broker/src/cluster.rs:160-173 | witness of an unsafe election: it can pick a leader that holds nothing of what was acknowledged |
| WatermarkExact.ShrinkingReportLosesAll | broker/src/cluster.rs:110-142 | witness of a leader's report that shrinks: the watermark falls all the way, even with threshold 0 |
| Cluster.ClusterMetadata.HandleBrokerFailure | broker/src/cluster.rs:315-333 | every partition loses the failed broker from its in-sync set, those it led elect, and exactly these elections are reported |
| Cluster.ClusterMetadata.CheckBrokerHealth | broker/src/replication.rs:224-255 | working from a stale copy of the leaders, a check fails exactly the brokers that are dead and led some partition when the copy was taken |
| Cluster.TickMakesProgress | broker/src/replication.rs:224-255 | a check that finds a partition's leader dead makes the number of dead in-sync members smaller; one that finds it alive keeps it |
| Cluster.LiveLeaderWithin | broker/src/replication.rs:224-255 | a partition with a live in-sync member has a live leader after at most as many checks as it had dead in-sync members, and from then on |
| ReplicaAssignment.Assign | broker/src/replication.rs:57-86 | the leader is the live broker at place partition mod n and replica i the one at (partition + i) mod n, as many as the factor and the live brokers allow, all distinct |
| ReplicaAssignment.LeadersBalanced | broker/src/replication.rs:57-86 | of any partitions in a row, any two live brokers are assigned as leader of the same number, give or take one |
| ReplicaAssignment.EqualLoadPerRound | broker/src/replication.rs:72-80 | any n partitions in a row give each of n live brokers exactly as many replicas as one partition has |
| Coordinator.ConsumerGroup.Rebalance | broker/src/coordinator.rs:73-121 | for every hash order, each known partition of the members' combined topics goes to exactly one member, loads differ by at most one, and the generation grows |
| Coordinator.GroupCoordinator.JoinGroup | broker/src/coordinator.rs:152-200 | the member is added to an existing or new group, which is rebalanced, and its own share is returned; other groups stay |
| Coordinator.GroupCoordinator.LeaveGroup | broker/src/coordinator.rs:203-227 | a member that leaves triggers a rebalance of the rest, or removes the group when it was the last; unknown groups and members are told apart |
| Coordinator.GroupCoordinator.Heartbeat | broker/src/coordinator.rs:230-239 | only the member's own time changes, and nobody is ever told to rejoin |
| Coordinator.GroupCoordinator.CheckHeartbeats | broker/src/coordinator.rs:242-281 | a sweep removes exactly the expired members, rebalances the groups that lost some, drops the empty ones and leaves the others alone |
| Coordinator.ReachableIsHealthy | broker/src/coordinator.rs:73-281 | after any run of joins, leaves, heartbeats, sweeps and topic changes no group is empty and every division is exclusive, complete and even |
| Coordinator.OneOwner | broker/src/coordinator.rs:73-121 | in every reachable group a partition is assigned if and only if some member asked for its topic and the topic had that many partitions at the last rebalance, and then to one member, once |
| Coordinator.CountsOfRebalance | broker/src/coordinator.rs:73-121 | a rebalance, and nothing else, makes a group go by the partition counts of its moment |
| Coordinator.MemberAfter | broker/src/coordinator.rs:152-281 | who is in a group after each event, as an if-and-only-if; a sweep removes a member exactly when its group is looked at more than the timeout after its last heartbeat |
| Coordinator.HeardAfter | broker/src/coordinator.rs:53-60 | a member was last heard of when it last joined or sent a heartbeat, and has the topics of its last join |
| Coordinator.InGroupExactlyWhen | broker/src/coordinator.rs:63-70 | in every run a member not heard of since a join or heartbeat is in the group if and only if no sweep has looked at the group later than the timeout after it |
| Coordinator.OutUntilJoin | broker/src/coordinator.rs:242-281 | and once out it stays out until it joins again |
| Coordinator.GenerationMarksChange | broker/src/coordinator.rs:73-121 | a group whose generation did not change has the same members with the same assignments |
| Coordinator.LoadIsFairShare | broker/src/coordinator.rs:106-112 | each member has the number of partitions divided by the number of members, rounded up or down |
| OffsetText.Load | broker/src/offset_manager.rs:54-69 | the entry of every line that parses is inserted, later ones over earlier ones; see ParseLineExactly |
| OffsetText.Persist | broker/src/offset_manager.rs:150-163 | each offset of the group is written as one line, in any order |
| OffsetText.DecimalRoundTrip | broker/src/offset_manager.rs:58-61 | the decimal text of a number is parsed back as that number by every type that has room for it |
| OffsetText.DecimalDigit | broker/src/offset_manager.rs:160-163 | digit i of the decimal text counts what the digits behind it cannot hold |
| OffsetText.DecimalLength | broker/src/offset_manager.rs:160-163 | and there are no more digits than the number needs |
| OffsetText.ParseLineExactly | broker/src/offset_manager.rs:54-69 | exactly the lines topic:partition=offset with two numbers in range, and a topic with neither separator, are read |
| OffsetText.LineEnds | broker/src/offset_manager.rs:54-54 | a newline ends a line, together with a carriage return before it |
| OffsetText.RoundTrip | broker/src/offset_manager.rs:54-163 | loading what was persisted gives the map back, for every line order, if and only if no topic contains a colon, an equals sign or a newline |
| OffsetText.Restart | broker/src/offset_manager.rs:34-168 | persisting and loading into an empty map restores the offsets under exactly that condition |
| OffsetCommits.QuietGroupIsSynced | broker/src/offset_manager.rs:79-168 | however commits overlapped, whenever none of a group is in flight its file is the text of its offsets in memory |
| OffsetCommits.QuietRestartRestores | broker/src/offset_manager.rs:34-168 | a restart at such a moment restores every committed offset, if and only if the topics are clean |
| OffsetCommits.LastInsertionWins | broker/src/offset_manager.rs:86-90 | in every run memory holds for each place the offset that the commit inserted last for it had begun with |
| OffsetCommits.WithoutInsertion | broker/src/offset_manager.rs:86-90 | a place for which no commit inserted keeps what it had |
| OffsetCommits.QuietRestartResumes | broker/src/offset_manager.rs:34-168 | a restart while no commit of the group is in flight restores, for each place, the offset of the last commit |
| OffsetCommits.WriteKeeps | broker/src/offset_manager.rs:160-163 | persisters at different positions of one truncated file, holes included, write identical bytes and so never undo each other |
| OffsetCommits.InsertionKeeps | broker/src/offset_manager.rs:86-90 | an insertion excludes every persister, so a file that waits for nobody is in step with memory then |
| OffsetCommits.FinishedCommitsAreOnDisk | broker/src/offset_manager.rs:146-168 | in every run, unless a commit of the group is between its truncation and its release, the file holds the group's offsets as of an earlier moment, by when every finished commit had been inserted |
| OffsetCommits.CrashOutsideWindow | broker/src/offset_manager.rs:34-168 | outside that window a restart restores the offsets of such a moment, if and only if their topics are clean |
| OffsetCommits.RestartResumesNoEarlier | broker/src/offset_manager.rs:79-168 | so no finished commit is lost: for each one a restart outside the window restores its own offset, or that of a commit inserted for the same place after it |
| OffsetCommits.CrashAfterTruncation | broker/src/offset_manager.rs:158-163 | and the window is real: at every truncation of every run the group has committed offsets, and a crash just then restores none |
| GroupDelivery.Consumer.JoinGroup | client/src/consumer.rs:66-126 | nothing changes when the join itself fails; otherwise the tracked offset of each assigned partition, up to the request that fails, is the committed one, or 0 when none is committed, and every other key is as before |
| GroupDelivery.Consumer.PollGroup | client/src/consumer.rs:465-502 | offsets move over what the fetches brought, see PollGathers; an error in the middle keeps the moves and drops the records; auto-commit comes before the return, and its failure is ignored |
| GroupDelivery.Consumer.CommitOffsets | client/src/consumer.rs:258-299 | all tracked offsets are sent, also of partitions no longer assigned, in any order, until a request fails; that one may have reached the broker |
| GroupDelivery.SentByKey | client/src/consumer.rs:265-296 | what was sent is committed at the tracked offset, and every other committed offset is as before |
| GroupDelivery.FetchGathers | client/src/consumer.rs:474-491 | one fetch gathers the records from the tracked offset on, as many as asked for or as there are, and the offset moves by that many |
| GroupDelivery.PollGathers | client/src/consumer.rs:465-502 | a whole poll gathers that much from each assigned partition, in their order, moves each tracked offset by what its partition gave, and leaves the others alone |
| GroupDelivery.ResumesAtCommitted | client/src/consumer.rs:103-109 | in every run the first fetch of a partition after a join starts exactly at the offset committed then, or at 0: nothing below it comes again, nothing above it is skipped |
| GroupDelivery.TakesOverAtCommit | client/src/consumer.rs:103-109 | a member that takes a partition over goes on at the very record at which another was when it made the last commit |
| GroupDelivery.GoesOnWhereItEnded | client/src/consumer.rs:474-491 | a member that keeps polling goes on where its last fetch ended |
| GroupDelivery.EverythingBelowIsSeen | client/src/consumer.rs:258-299 | in every run without seeks and in which no poll is cut short harmfully, each record below the group's committed offset or below any member's tracked offset was delivered, or is in the hands of a poll about to return |
| GroupDelivery.CutKeepsExactlyWhen | client/src/consumer.rs:465-502 | a failing poll or a disappearing member keeps this true if and only if each record it had fetched is above the committed offset and all remaining tracked offsets, or was delivered, or is in other hands |
| GroupDelivery.FailedPollKeepsExactlyWhen | client/src/consumer.rs:479-491 | for a failing poll: if and only if the records it had fetched were delivered before or are in other hands |
| GroupDelivery.CrashKeepsExactlyWhen | client/src/consumer.rs:493-501 | for a disappearing member: if and only if each such record is above the committed offset and all other members' offsets, or seen elsewhere |
| GroupDelivery.CrashAfterAutoCommit | client/src/consumer.rs:494-501 | witness: a member that disappears between auto-commit and return loses a record that is committed and was never delivered |
| GroupDelivery.PollReaches | client/src/consumer.rs:465-502 | a poll that returns is a run of single fetches that delivers what it returns |
| GroupDelivery.JoinReaches | client/src/consumer.rs:103-109 | a join is a run of single offset requests |
| GroupDelivery.CommitReaches | client/src/consumer.rs:265-296 | a commit, complete or cut short, is a run of single commit requests |
| Codec.Encode | protocol/src/codec.rs:64-87 | one frame is appended, or nothing when the message is over the limit |
| Codec.Decode | protocol/src/codec.rs:23-58 | an incomplete frame leaves the buffer as it was; an oversized one is an error before its bytes arrive; a whole one is consumed exactly |
| Codec.FrameLayout | protocol/src/codec.rs:64-87 | a frame is the length of the payload in four bytes, the most significant first, and the payload |
| Codec.FrontOf | protocol/src/codec.rs:23-45 | whether a buffer waits, is refused or gives a frame depends on those four bytes and ten mebibytes alone |
| Codec.ReceiveAll | protocol/src/codec.rs:23-58 | for any bytes in any chunks the receiver gets the messages, the error and the remainder of decoding all bytes at once |
| Codec.DrainMore | protocol/src/codec.rs:23-58 | decoding what has arrived, and later the remainder with what follows, is decoding everything at once |
| Codec.DrainFrames | protocol/src/codec.rs:93-157 | decoding the frames of any list of messages within the limit gives that list and leaves an unfinished frame untouched |
| Codec.StopsAtBadPayload | protocol/src/codec.rs:47-58 | a payload that cannot be deserialised ends the decoding behind the messages before it; its frame is consumed and what is behind it stays |
| Codec.StopsAtOversized | protocol/src/codec.rs:31-40 | an announced length over ten mebibytes ends it with nothing of that frame consumed |
| Codec.ReceiveFrames | protocol/src/codec.rs:93-157 | however the bytes of a list of messages are cut into chunks, the receiver gets exactly that list |
| Retention.RetentionManager.SegmentsToDelete | storage/src/retention.rs:135-163 | the base offsets of the leading segments the policy gives up one after the other, where the running size is the sum of the remaining sizes and never underflows |
| Retention.CutIsUnique | storage/src/retention.rs:135-163 | that contract has exactly one answer, the one found by dropping one segment at a time |
| Retention.SizeCutIsShortest | storage/src/retention.rs:93-93 | under a size limit it is the shortest prefix after which the rest fits the limit or is down to the floor |
| Retention.TimeCutExactlyWhen | storage/src/retention.rs:92-92 | under an age limit it ends at the first segment created no longer ago than the whole seconds of the limit, or where only the floor is left |
| Retention.CondemnsExactlyWhen | storage/src/retention.rs:85-98 | what each policy gives up, as an if-and-only-if on creation time, clock, remaining bytes and remaining count |
| Retention.BothCoversEach | storage/src/retention.rs:94-96 | age and size limits together delete at least what either alone deletes |

## Left out

- TCP, task scheduling, timers, tracing, configuration, metrics, request dispatch, topic directories, partitioners and the producer: plumbing without state of its own.
- bincode, CRC-32, gzip, snappy, LZ4 and mmap internals: serialisation and compression are abstract inverse pairs that never fail to encode, the checksum is arbitrary, and a map is the file's bytes when it was made. The two codecs run the same code on different message types and are one generic model.
- I/O errors, fsync and appends that stop partway: every append that starts also ends. `create` is modelled for paths that do not exist; on existing files the source keeps their contents while it counts from 0.
- File names of segments are the base offsets themselves; the twenty-digit padding, and other parsable names a directory could hold, are not modelled.
- Integer widths: offsets, sizes and counts that would pass 2^64 are excluded by preconditions, since the source does not handle them. `leader_epoch` and `generation` do not wrap at 2^32.
- Segment.LogSegment.Append: says what the file, the next offset and the answer are for every segment, but which records the file then holds only for one that can take the batch. A reopened segment can until its index would be written to, because the reopened index writes at the start of its file, and one with a torn tail cannot, because the source appends behind the torn bytes; what those bytes decode to depends on the checksum.
- Partition.Partition.Append: the same for the partition.
- Partition.Partition.Create: requires a positive size limit, see Partition.EmptySegmentIsFullOnlyAtZero.
- DiskRecord.Decode: does not say where an error leaves the reader, since no caller reads on. The unchecked `length - 4` is reported as LengthUnderflow, the panic of a checked build.
- PartitionLocks.NeverStuck: the size test that decides on rotation, and the segments a fetch or a flush visits, are arbitrary choices here, and lock fairness is left to the lock; sizes are counted in records, and records are opaque. Tasks cancelled while they hold locks are not modelled.
- Cluster.ClusterMetadata.AddPartition: models the creation of a partition's state only. Setting replicas of an existing partition resets the in-sync set without its offsets, and nothing is claimed about that. A partition map entry is locked for as long as one method touches it; a check is not interleaved with reports.
- ReplicaAssignment.Assign: requires a positive replication factor when a broker is alive, as the source panics otherwise.
- ReplicaState.WatermarkBound: one-directional for the bound itself; ReplicaState.AlwaysCoveredExactlyWhen and ReplicaState.FallsExactlyWhen are the exact laws for its two conditions.
- OffsetCommits.QuietGroupIsSynced: for runs without deletion of a group's offsets, which removes the file without the lock that persisters hold. Offsets of a group whose name is empty or is no file name are not modelled, nor are I/O errors while persisting.
- OffsetText.Load: one file into one group's map; the directory listing around it is not modelled.
- GroupDelivery.EverythingBelowIsSeen: for members that do not seek. The client's plain (group-less) subscription is left out.
- Coordinator.GroupCoordinator.JoinGroup: says nothing about what clients still hold from before a rebalance; the source never tells them. A random member identifier that collides with an existing one replaces that member.
- Retention.RetentionManager.SegmentsToDelete: clock readings are an input, and the total size must be below 2^64. Nothing in the source applies the result to a partition.
