# Model of the iSCSI target, its backing stores and its reservations

A Dafny 4.11 model of the storage target in this repository: the iSCSI engine of
`Paxos_2_1/tgt`, its Paxos volume backing store and the programs that create and extend
volumes, and the parts of `tgt-master/usr` they run on: the virtual tape, persistent
reservations, the task set, the completion threads, the AIO batcher and CRC-32C; and the
rounds of `Paxos_2_1/paxos` by which the servers of a cell agree.
`dafny verify dfyconfig.toml` checks all of it.

Most modules have the same two layers. A specification on values says what one step does to
the state; lemmas about it speak of every run. A class has the fields of the C structure, and
each of its methods, which keeps the branches and loops of the C function it is named after,
is proved to do to those fields what the specification says. Where threads interleave, the
specification is a state machine over the steps between which a thread can be interrupted.

- `Bytes`, `Crc32c`: big-endian fields; the digest, table-driven and bitwise (section 13.1 of
  RFC 7143), and what it detects.
- `PduFormat`, `RxFraming`: a one-shot PDU parser, which takes exactly what has the layout of a
  PDU, and the resumable receive state machine; the machine delivers what the parser delivers,
  however the reads are cut.
- `TxFraming`: the resumable transmit state machine; the receiver's parser gives back what
  was sent. `Padding`: the zeros it writes into the buffer behind the data, and what they do to
  data sent from one buffer in segments. `Conversation`: the two machines at the ends of one
  connection.
- `CmdSn`: command reordering in 32-bit serial arithmetic (section 4.2.2.1 of RFC 7143).
  `DuplicateSn`: what becomes of a run with a CmdSN in it twice.
- `WriteTransfer`, `DataIn`: the data phases of WRITE and READ (sections 11.7 and 11.8).
- `TextKeys`: text keys, printed, parsed and sent in fragments (sections 6.1, 11.10, 11.11).
  `TextLoops`: whole lists of them.
- `CssVolume`, `CssRequest`: the striped, lazily created volume as a flat disk, and the SCSI
  commands on it. `VolumeTree`: its directory tree, base 64. `VolumeOpener`: the size and depth
  the opener reads off that tree.
- `TapeFormat`, `Tape`: the linked list of checksummed headers in the tape file, as a
  sequence of blocks with a cursor. `TapeChecksum`: what the checksum would tell.
- `Reservations`, `ReservationCode`: persistent reservations (section 5.6 of SPC-3), on values
  and on the list of registration objects with its holder pointer. `ReservationLaws`: what each
  service action does to keys, holder and generation, seen from outside. `ReservationTypes`:
  the type on record, over runs.
- `TaskSet`, `OrderedTasks`: SIMPLE, ORDERED and HEAD OF QUEUE commands (section 8 of SAM-3).
- `NamedMutex`, `CompletionPipe`, `AioBatch`: the pool of named mutexes, the hand-over between
  main, worker and ack threads, and batched asynchronous I/O.
- `PaxosRounds`, `PaxosAgreement`, `PaxosDisagreement`: the messages of one Paxos instance
  between n servers, with the tags the rounds compare and the commands the servers execute;
  rules under which no two servers execute different commands; runs that break one of them.
- `Wrappers`, `Sets`: what several of these share.

## Where the code does less than one would expect

Each item names the theorem that says when the code does it and when not, and the lemma with
an input that shows it.

- Two Paxos servers can execute different commands in one instance. In every run of every cell
  in which five rules are obeyed that the code does not enforce they do not
  (`PaxosAgreement.CarefulRunsAgree`):
  - when an acceptance completes the majority, every server counted has accepted in the
    leader's round (the acceptances of earlier rounds stay counted);
  - no server accepts in a round below one it has accepted in (RecvBegin accepts a higher
    round without joining it);
  - a leader does not cast if one of those it has heard from had decided;
  - a redirected Begin carries the tag that was cast;
  - a Begin carries the command of the server its tag names (a leader that takes a tag over
    keeps the command it has, and says that it has the one of the tag).

  Retries, lost Collects and leaders that lag are free to happen, and in every cell there are
  runs that obey the rules and decide (`PaxosDisagreement.CarefulRunDecides`). Of the sets of these five
  rules, the whole set and no other makes every run agree (`PaxosDisagreement.AgreementIff`):
  for each rule there is a run that breaks it alone, in which two servers
  execute different commands (`StaleCountRun`, `FallingVoteRun`, `DecidedAnswerRun`,
  `OtherTagRun`, `OtherCommandRun`). This compares sets of rules, not runs: a single run that
  breaks a rule may agree all the same.
- The transmit machine writes the padding of a PDU into the buffer behind its data. Data-In PDUs
  and the fragments of a text response are segments of one buffer, so that the padding of one
  stands in the next before that goes out. The bytes so covered arrive as zeros, the others as
  they are (`Padding.SentAt`); a buffer arrives as it was exactly if the covered bytes are zeros
  already (`Padding.SentIff`), and every buffer of n bytes does exactly if the segment length m
  is a multiple of four or n <= m (`Padding.AllSentIff`). So it is for a READ
  (`DataIn.Read`, `DataIn.ArrivesIff`) and a text response (`TextKeys.Exchange`,
  `TextKeys.AllAnswersArriveIff`). It happens: m is the initiator's MaxRecvDataSegmentLength,
  any number from 512 on (`DataIn.OddReadLosesByte`, `TextKeys.OddFragmentCutsValue`).
- A CmdSN that is already waiting is put into the pending list a second time. The list stays
  strictly sorted exactly if no waiting command has the same CmdSN (`CmdSn.WaitingKeepsOrder`).
  In every run, once ExpCmdSN has passed a number that waited twice, no waiting command
  executes any more, and an arriving one exactly if its CmdSN is the expected one
  (`DuplicateSn.DuplicateBlocks`; `CmdSn.DuplicateStalls` is such a run).
- A WRITE whose command PDU brings all data but has F clear can be queued twice: once at its
  turn and once with the empty final Data-Out. A command is queued at most once exactly if F is
  set, or data is left to come, or the final Data-Out does not come after the command's turn
  (`WriteTransfer.WriteDelivers`); both orders happen (`WriteTransfer.FullImmediateWithoutFinal`).
- PREEMPT with a non-zero service-action key under an all-registrants reservation can free the
  registration the holder pointer is on. The invariant of the reservations survives a service
  action exactly if it is not that one (`Reservations.InvIffNotDangling`), and that one is
  reachable (`Reservations.DanglingIsReachable`).
- PREEMPT stores its type and scope unchecked. The type on record stays one RESERVE accepts
  exactly if no service action is a PREEMPT that takes over with one it refuses
  (`ReservationTypes.TypedIff`, over runs `ReservationTypes.TypedInRunIff`); it happens
  (`ReservationTypes.FirstReserves`, `ReservationTypes.PreemptStoresUnknownType`).
- bs_css_open reads the size of a volume off its directories, where a leaf directory without a
  segment counts as 64 segments of 2 MB, and takes the depth from that size. It finds the file
  size, the number of segments rounded up and the depth the volume was made with exactly if every
  leaf directory shows that file size and N <= 64^L - 64, L the layers of N
  (`VolumeOpener.Opener.OpenGeometry`); a leaf directory shows it exactly if it has a written
  segment or the file size is 2 MB (`VolumeOpener.AllShowIff`). Five segments are made one level
  deep and opened two levels deep (`VolumeTree.SmallVolumeMismatch`). extendISCSIVol leaves the
  tree of the larger volume exactly if the number of layers stays (`VolumeTree.ExtendIsCreateIff`).
- A key with an equals sign in it does not survive printing and parsing
  (`TextKeys.RoundTripIff`, with the loops around it `TextLoops.PrintAndParse`).
- A SIMPLE command can pass an ORDERED one that waits (`TaskSet.SimplePassesOrdered`); commands
  start in arrival order exactly if none starts on arrival while others wait
  (`TaskSet.ArrivalOrderIff`).
- A HEAD OF QUEUE command that is done lifts the block an ORDERED command still needs. A SIMPLE
  command that arrives starts beside a running ORDERED one exactly if the last start or
  completion of an ORDERED or HEAD command is a completion, that is a HEAD command has completed
  since and nothing blocked again (`OrderedTasks.SimpleStartsBesideIff`). Over a run, ORDERED commands
  run alone exactly if no HEAD command arrives while one runs (`OrderedTasks.OrderedAloneIff`). The run
  that shows it is `OrderedTasks.HeadUnblocksOrdered`.
- Backward SPACE over blocks stops at the first block and reports nothing, whatever the count:
  the header it looks at is never that of the beginning of the tape (`Tape.Drive.SpaceBlocks`).
  Backward SPACE over filemarks counts the block under the cursor
  (`Tape.Drive.SpaceFilemarkReverse`). A variable read of length 0 on a filemark reports nothing,
  and a read on one that is reported has another length (`Tape.UnreportedIff`). A variable read of
  length 0 stays before a block with data, again and again (`Tape.MovesIff`).
- A wrong checksum of a tape header is only logged. The header is read as written exactly if
  its fields are as written (`TapeChecksum.DecodesIff`), while the checksum would tell any change
  inside four bytes of them (`TapeChecksum.ChecksumSeesBurst`); a header whose type is damaged is
  read with the damaged type (`TapeChecksum.DamagedTypeIsRead`).
- An io_submit error other than EAGAIN drops the commands of the batch; every command reaches
  the kernel exactly if none is answered so (`AioBatch.AllReachKernelIff`).
- After a bad header digest the receive handler closes the connection but still goes on to the
  data state within the same call; nothing is delivered (`RxFraming.Connection.RecvHdigest`).

## The Paxos rounds

The steps of `PaxosRounds` are the functions of `Paxos_2_1/paxos/src/Paxos.c`, with the value
split as there: `tag` is v_Server of RndValue, `from` its v_From, `cmd` is MetaCmdRnd, and the
assertions of the code are conditions of a step. What the steps must keep is the invariant of
`PaxosAgreement`: votes are for cast tags, and of two rounds with different tags a majority has
left the lower one without accepting in it. What the test plan in
`Paxos_2_1/paxos/test/TestPaxos.c` asks for, that the command decided is executed everywhere, is
agreement.

- `DoNewRound`: NewRound, lines 505-585; `PaxosAgreement.NewRoundKeeps`.
- `CastBy`: Continue, lines 485-502, and the cast in GatherLast, lines 654-677;
  `PaxosAgreement.ContinueKeeps`.
- `Counts`, `DoRecvLast`, `Casts`: GatherLast, SendBeginCast and BeginCast, lines 590-770;
  `PaxosAgreement.RecvLastKeeps`, `PaxosAgreement.CastSafe`. GatherLast replaces RndValue and
  leaves MetaCmdRnd, lines 640-649.
- `RecvRedirect`: BeginCastRedirect, lines 773-797; `PaxosAgreement.RecvRedirectKeeps`.
- `Tallies`, `DoRecvAccept`: GatherAccept, lines 799-858, with the command a leader without one
  takes, lines 822-835; `PaxosAgreement.RecvAcceptKeeps`. RndAccQuo is cleared with the page only,
  line 1421.
- `RecvOld`: GatherOldRound, lines 860-871; `PaxosAgreement.RecvOldKeeps`.
- `DoRecvCollect`, `Answer`: RecvCollect, lines 876-1009; `PaxosAgreement.RecvCollectKeeps`.
- `DoRecvBegin`: RecvBegin, lines 1011-1109; `PaxosAgreement.RecvBeginKeeps`.
- `RecvSuccess`: RecvSuccess, lines 1154-1219, and the receipt of a decided instance by a server
  that lags, lines 2462-2485; `PaxosAgreement.RecvSuccessKeeps`.
- `Catchup`: CatchupInstanceRpl, lines 1649-1690; `PaxosAgreement.CatchupKeeps`.
- `Agreement`: what ExecUp hands on to be executed, line 1341.

## Model

| member | source | states |
|---|---|---|
| Crc32c.TableEntry | tgt-master/usr/libcrc32c.c:88-154 | every one of the 256 literals is eight shift-xor steps of its index |
| Crc32c.StepsXor | tgt-master/usr/libcrc32c.c:66-76 | n shift-xor steps are linear over xor |
| Crc32c.TableStep | tgt-master/usr/libcrc32c.c:161-170 | one lookup, xor and shift is eight shift-xor steps of the whole register |
| Crc32c.CrcBitwise | tgt-master/usr/libcrc32c.c:66-76 | the bit loop computes Crc, for every seed and byte string |
| Crc32c.CrcTable | tgt-master/usr/libcrc32c.c:161-170 | the table loop computes the same Crc |
| Crc32c.ByteStepIsBitSerial | tgt-master/usr/libcrc32c.c:66-76 | mixing a byte in at once equals a shift register fed bit by bit, least significant first |
| Crc32c.CrcConcat | Paxos_2_1/tgt/iscsid.c:2131-2135 | a crc continued over the AHS is the crc of BHS and AHS together |
| Crc32c.CrcSeedInjective | tgt-master/usr/libcrc32c.c:161-170 | after any message two different seeds give different registers |
| Crc32c.CrcOfWord | tgt-master/usr/libcrc32c.c:161-170 | up to four bytes move the register as their little-endian word does |
| Crc32c.DigestDetectsBurst | tgt-master/usr/libcrc32c.c:161-170 | messages that differ only inside a window of four bytes have different digests |
| Crc32c.DigestLeavesResidue | Paxos_2_1/tgt/iscsid.c:2122-2140 | a message followed by its stored digest leaves one value in the register, whatever the message: the digest is inverted and stored low byte first |
| Bytes.GetPut | tgt-master/usr/be_byteshift.h:4-80 | reading back k big-endian bytes gives the value modulo 256^k |
| Bytes.PutGet | tgt-master/usr/be_byteshift.h:4-80 | and writing out what was read gives the bytes back |
| Bytes.BeDigit | tgt-master/usr/be_byteshift.h:4-80 | byte i of a field of k bytes is digit k - 1 - i of the value in base 256 |
| PduFormat.OneShotStable | Paxos_2_1/tgt/iscsid.c:2055-2215 | once the parser has decided, further bytes do not change the PDU or the rejection |
| PduFormat.ParseAllSplit | Paxos_2_1/tgt/iscsid.c:2055-2215 | parsing a stream is parsing any beginning of it and going on with the rest and what was left over |
| PduFormat.OneShotAssembled | Paxos_2_1/tgt/iscsid.c:2122-2185 | a header, padded data and digest put together are one frame if the digest is right, a rejection if not, and too short without it |
| PduFormat.DataLengthIff | Paxos_2_1/tgt/iscsid.c:2086-2088 | the data length the code reads is n exactly if bytes 5 to 7 of the header are n as a big-endian field |
| PduFormat.FrameIff | Paxos_2_1/tgt/iscsid.c:2055-2215 | if the header says n bytes of data, the parser takes a PDU exactly if what it takes is BHS, four bytes of AHS for each word byte 4 says, header digest, data of the least multiple of the padding that is at least n, and data digest, both digests right, and before full feature phase AHS and data within 8192 bytes |
| PduFormat.FramesAreTheStream | Paxos_2_1/tgt/iscsid.c:2055-2215 | the frames of a stream, put on the wire again one after the other, are its bytes up to those left over |
| RxFraming.Connection.EpRead | Paxos_2_1/tgt/iscsid.c:2027-2053 | a read takes a front part of what has arrived, at most as much as asked for, and EAGAIN takes nothing |
| RxFraming.Connection.DoRecv | Paxos_2_1/tgt/iscsid.c:2027-2053 | the bytes of one read go where the state reads to, the count goes down by them, the next state is entered exactly when it is 0 |
| RxFraming.Connection.InitAhs | Paxos_2_1/tgt/iscsid.c:2073-2112 | after the BHS the machine reads the AHS, the header digest or the data, or closes on a header that is refused |
| RxFraming.Connection.RecvHdigest | Paxos_2_1/tgt/iscsid.c:2122-2141 | the digest is checked over BHS and AHS; a bad one closes and rejects the stream |
| RxFraming.Connection.InitData | Paxos_2_1/tgt/iscsid.c:2142-2159 | the data length of DataLengthIff is rounded up to the padding; before full feature phase the PDU must fit the login buffer |
| RxFraming.Connection.RecvData | Paxos_2_1/tgt/iscsid.c:2160-2164 | no byte is lost across the pauses of the data state |
| RxFraming.Connection.RecvDdigest | Paxos_2_1/tgt/iscsid.c:2165-2172 | nor across those of the data digest |
| RxFraming.Connection.CheckDdigest | Paxos_2_1/tgt/iscsid.c:2173-2185 | the data digest is checked over the padded data |
| RxFraming.Connection.Deliver | Paxos_2_1/tgt/iscsid.c:2191-2215 | a complete PDU is handed over once, as received, and the next header is awaited |
| RxFraming.Connection.RxHandler | Paxos_2_1/tgt/iscsid.c:2055-2215 | one call, from any resting state and for any read results, keeps what is delivered equal to the parser's frames of the bytes consumed, and takes at least one read result |
| RxFraming.Connection.Receive | Paxos_2_1/tgt/iscsid.c:2055-2215 | repeated calls deliver exactly the frames of the whole stream and stop on close |
| RxFraming.ReceiveStream | Paxos_2_1/tgt/iscsid.c:2027-2215 | two cuts of the same bytes into partial, empty and full reads give the same PDUs and the same close |
| TxFraming.Sender.DoSend | Paxos_2_1/tgt/iscsid.c:2217-2243 | a partial write leaves the rest to be sent, the next state is entered exactly when nothing is left |
| TxFraming.Sender.InitData | Paxos_2_1/tgt/iscsid.c:2321-2344 | the zeros to four bytes are written behind the data in the buffer of the response and sent with it; no data ends the PDU |
| TxFraming.Sender.TxHandler | Paxos_2_1/tgt/iscsid.c:2245-2407 | one call goes on in the wire image of the response, or the socket has failed |
| TxFraming.Sender.Transmit | Paxos_2_1/tgt/iscsid.c:2217-2407 | under any partial writes and digest settings the bytes sent are the wire image, or a beginning of it on failure; the buffer is left with the padding behind the data |
| TxFraming.WireParses | Paxos_2_1/tgt/iscsid.c:2217-2407 | the receiver's parser reads the wire image back as the same BHS and padded data and uses exactly its bytes |
| TxFraming.StreamParses | Paxos_2_1/tgt/iscsid.c:2217-2407 | so does a whole conversation of PDUs, in order, with nothing left over |
| Padding.PadInPlace | Paxos_2_1/tgt/iscsid.c:2321-2344 | the buffer is as it was but for the zeros behind the data, and the size is rounded up |
| Padding.SentAt | Paxos_2_1/tgt/iscsid.c:2321-2344 | of data sent from one buffer in segments, a byte arrives as it was unless it is behind a segment boundary and within the padding of the segment before, which makes it zero |
| Padding.SentIff | Paxos_2_1/tgt/iscsid.c:2321-2344 | a buffer arrives as it was exactly if all bytes so covered are zeros already |
| Padding.AllSentIff | Paxos_2_1/tgt/iscsid.c:2321-2344 | every buffer of n bytes arrives as it was exactly if the segment length is a multiple of four or one segment is enough |
| Conversation.SendAll | Paxos_2_1/tgt/iscsid.c:2217-2407 | responses sent one after the other, each from a buffer of its own and in the mode the history calls for, are the wire images in order |
| Conversation.SendAndReceive | Paxos_2_1/tgt/iscsid.c:2027-2407 | sent by the transmit machine and received by the receive machine, under any partial writes and reads, the PDUs delivered are those sent, in order, and the connection stays open |
| CmdSn.SessionQueue.TaskQueue | Paxos_2_1/tgt/iscsid.c:1590-1640 | the object does what Queue says and refuses exactly the non-immediate commands before ExpCmdSN |
| CmdSn.BeforeInWindow | tgt-master/usr/util.h:84-87 | less than 2^31 apart the wrapped comparison is the order of the unwrapped numbers |
| CmdSn.DrainKeeps | Paxos_2_1/tgt/iscsid.c:1605-1621 | the drain loop stops at the first gap with the invariant in place |
| CmdSn.DrainFrame | Paxos_2_1/tgt/iscsid.c:1605-1621 | the drain moves commands from pending to executed and loses or repeats none |
| CmdSn.ExecutesInOrder | Paxos_2_1/tgt/iscsid.c:1590-1640 | for arrivals in any order inside the window, across the wrap: executed are numbers 0, 1, 2, … each once up to the first gap, ExpCmdSN is the start plus their count modulo 2^32, the rest wait strictly sorted after it |
| CmdSn.AllArrivedAllExecuted | Paxos_2_1/tgt/iscsid.c:1590-1640 | when numbers 0 to n-1 have arrived all have executed in order and none is pending |
| CmdSn.WaitingKeepsOrder | Paxos_2_1/tgt/iscsid.c:1631-1637 | a waiting command keeps the list strictly sorted exactly if its CmdSN is not in it |
| CmdSn.ArrivalConserved | Paxos_2_1/tgt/iscsid.c:1601-1638 | a task is refused, without effect, exactly if it is not immediate and 1 to 2^31 behind ExpCmdSN; any other is executed, pending or executed at once from then on, and so is all that was there |
| CmdSn.ImmediateAside | Paxos_2_1/tgt/iscsid.c:1601-1602 | in every run, whatever the numbers, immediate tasks execute as they come and the others fare as if there were none |
| CmdSn.StaleHeadBlocks | Paxos_2_1/tgt/iscsid.c:1605-1621 | a pending command ExpCmdSN has passed stays first and no pending command executes |
| DuplicateSn.DuplicateBlocks | Paxos_2_1/tgt/iscsid.c:1590-1640 | in every run, once a waiting CmdSN has arrived again and ExpCmdSN has passed it, no waiting command leaves the list and an arrival executes exactly if it has the expected CmdSN |
| CmdSn.DuplicateStalls | Paxos_2_1/tgt/iscsid.c:1590-1640 | a run where that happens: command 8 has arrived, all before it have executed, it never does |
| WriteTransfer.Task.constructor | Paxos_2_1/tgt/iscsid.c:1673-1683 | the command PDU sets offset, r2t_count and the unsolicited flag; a command in turn is executed at once |
| WriteTransfer.Task.ScsiCmdExecute | Paxos_2_1/tgt/iscsid.c:1389-1406 | a WRITE with data to come asks for an R2T unless unsolicited data is owed, one without is queued |
| WriteTransfer.Task.DataOutPdu | Paxos_2_1/tgt/iscsid.c:1542-1588 | a Data-Out moves offset and r2t_count, stores its bytes, and a final one executes the command again |
| WriteTransfer.Task.SendR2tPdu | Paxos_2_1/tgt/iscsid.c:1168-1191 | an R2T asks from offset on for MaxBurst bytes, or for all that is still wanted if that is less |
| WriteTransfer.R2tsCount | Paxos_2_1/tgt/iscsid.c:1168-1191 | R2Ts up to the end of the transfer number the bytes asked for over MaxBurst, rounded up |
| WriteTransfer.Task.LeavePending | Paxos_2_1/tgt/iscsid.c:1605-1621 | the drain loop executes a command that waited for its CmdSN |
| WriteTransfer.StepKeeps | Paxos_2_1/tgt/iscsid.c:1542-1588 | every step keeps the accounting, the tiling and the phase |
| WriteTransfer.StepDescends | Paxos_2_1/tgt/iscsid.c:1542-1588 | and comes nearer to the end |
| WriteTransfer.NeverStuck | Paxos_2_1/tgt/iscsid.c:1389-1406 | until the command is queued something can happen |
| WriteTransfer.OrdinaryRun | Paxos_2_1/tgt/iscsid.c:1168-1191 | with F set or data left to come the command is queued at most once, with all data, within 4 * length + 4 events |
| WriteTransfer.AllImmediateRun | Paxos_2_1/tgt/iscsid.c:1673-1683 | with all data in a command PDU with F clear it is queued at most once exactly if the Data-Out does not follow its turn |
| WriteTransfer.WriteDelivers | Paxos_2_1/tgt/iscsid.c:1168-1191 | in every run offset plus r2t_count is the length, immediate, unsolicited and solicited pieces tile what arrived, no R2T goes out while unsolicited data is owed, each asks for MaxBurst bytes or for the end of the transfer, a queued command has had as few R2Ts as its solicited bytes need, none goes out and nothing is queued before its turn, a queued command has r2t_count 0 and the initiator's data, and it is queued at most once exactly if F is set, data is left to come or the final Data-Out does not follow its turn |
| WriteTransfer.FullImmediateWithoutFinal | Paxos_2_1/tgt/iscsid.c:1673-1683 | all data immediate with F clear: queued twice in turn or if the turn comes first, once if the empty Data-Out comes first |
| DataIn.Task.DataRspBuild | Paxos_2_1/tgt/iscsid.c:1114-1166 | a Data-In carries the next segment with its offset and DataSN; F, and the status if it collapses, on the last |
| DataIn.Task.SendOne | Paxos_2_1/tgt/iscsid.c:1800-1835 | the next segment goes out as the buffer has it and its padding is left in the buffer; the task goes back on the list while there is more to send and is freed otherwise |
| DataIn.Task.TransmitAll | Paxos_2_1/tgt/iscsid.c:1930-1954 | the loop emits all segments, each of the buffer as the paddings before it left it, exactly one status, in the last Data-In or a response of its own, and frees the task once |
| DataIn.SegmentsIsCeiling | Paxos_2_1/tgt/iscsid.c:1139-1151 | the number of Data-In PDUs is n / m rounded up |
| DataIn.ReassembleContiguous | Paxos_2_1/tgt/iscsid.c:1114-1166 | an initiator that stores payloads at their offsets has the beginning of what went out |
| DataIn.WholeTransferReassembles | Paxos_2_1/tgt/iscsid.c:1114-1166 | and after the whole transfer all that went out, that is Sent of the buffer |
| DataIn.ArrivesIff | Paxos_2_1/tgt/iscsid.c:1114-1166 | which is the buffer as it was before the transfer exactly if the bytes covered by paddings are zeros |
| DataIn.Read | Paxos_2_1/tgt/iscsid.c:1930-1954 | a whole READ through task and initiator: what is got is the buffer exactly if the covered bytes are zeros, and always if the segment length is a multiple of four or one PDU is enough |
| DataIn.OddReadLosesByte | Paxos_2_1/tgt/iscsid.c:2321-2344 | a READ of 1026 bytes in PDUs of 513 gets a zero for byte 513, whatever it is |
| TextKeys.Response.KeyAdd | Paxos_2_1/tgt/iscsid.c:160-203 | a pair is appended whole or dropped, dropped exactly when it does not fit and no Text Request is answered |
| TextKeys.Scan | Paxos_2_1/tgt/iscsid.c:133-158 | the scanning loop finds the first occurrence within the bytes left |
| TextKeys.NextKey | Paxos_2_1/tgt/iscsid.c:133-158 | the pair found, in place, is the first of the buffer; only the equals sign is overwritten |
| TextKeys.ParsePrinted | Paxos_2_1/tgt/iscsid.c:133-203 | printed pairs with clean keys come back in order, with nothing left over |
| TextKeys.RoundTripIff | Paxos_2_1/tgt/iscsid.c:133-203 | a list of pairs of C strings comes back exactly if no key has an equals sign |
| TextKeys.PrintParsed | Paxos_2_1/tgt/iscsid.c:133-158 | for any bytes, the parsed pairs printed again and the leftover are the input |
| TextLoops.AddAll | Paxos_2_1/tgt/iscsid.c:160-203 | a loop of text_key_add leaves the printed list of the pairs that are kept, all of them in the answer to a Text Request, else those that fit |
| TextLoops.NextAll | Paxos_2_1/tgt/iscsid.c:133-158 | a loop of next_key yields the parsed list of the buffer as it was, and how much is left over |
| TextLoops.PrintAndParse | Paxos_2_1/tgt/iscsid.c:133-203 | both loops in a row give the pairs back exactly if no key has an equals sign |
| TextKeys.TextExchange.ExecText | Paxos_2_1/tgt/iscsid.c:900-948 | one Text Request takes the next fragment out of the response buffer and advances the pointer into it, FINAL if it is the last, and a wrong tag is rejected |
| TextKeys.TextExchange.Transmit | Paxos_2_1/tgt/iscsid.c:2321-2344 | the padding of a fragment is written at the start of what is left of the response |
| TextKeys.Ask | Paxos_2_1/tgt/iscsid.c:900-948 | the first fragment and what is left, as it will go out, are the response as it will go out |
| TextKeys.Continue | Paxos_2_1/tgt/iscsid.c:900-948 | so are the next fragment and what is left after it |
| TextKeys.Exchange | Paxos_2_1/tgt/iscsid.c:900-948 | the fragments of an exchange, sent from the response buffer with padding in place, make up the response exactly if the bytes covered by paddings are zeros; all but the last are full, FINAL and the reserved tag are on the last alone |
| TextKeys.AllAnswersArriveIff | Paxos_2_1/tgt/iscsid.c:900-948 | every response of n bytes arrives as printed exactly if the fragment length is a multiple of four or one fragment is enough |
| TextKeys.OddFragmentCutsValue | Paxos_2_1/tgt/iscsid.c:900-948 | a value that crosses the boundary of a fragment of 513 bytes arrives with a NUL there |
| CssVolume.Volume.constructor | Paxos_2_1/tgt/bs_css.c:467-682 | a flag is set exactly for the segments that exist |
| CssVolume.Volume.GetFp | Paxos_2_1/tgt/bs_css.c:1045-1098 | a disk offset is segment, offset in it and how much of it follows |
| CssVolume.Volume.WriteSegment | Paxos_2_1/tgt/bs_css.c:1188-1281 | one pass, the first write and truncate included, changes exactly its range of the flat disk |
| CssVolume.Volume.Write | Paxos_2_1/tgt/bs_css.c:1099-1281 | a write of any length across segments changes exactly its range of the flat disk |
| CssVolume.Volume.ReadSegment | Paxos_2_1/tgt/bs_css.c:1188-1281 | a segment that is absent reads as zeros |
| CssVolume.Volume.Read | Paxos_2_1/tgt/bs_css.c:1099-1281 | a read across segments returns exactly its range of the flat disk |
| CssVolume.FlatUpdate | Paxos_2_1/tgt/bs_css.c:1188-1281 | changing one segment changes its range of the disk and no other byte |
| CssVolume.FlatPut | Paxos_2_1/tgt/bs_css.c:1188-1281 | overwriting part of a segment is overwriting that part of the disk |
| CssRequest.DoWrite | Paxos_2_1/tgt/bs_css.c:248-291 | WRITE and WRITE AND VERIFY put the data on the flat disk; without the mode page they fail with the data written |
| CssRequest.DoOrWrite | Paxos_2_1/tgt/bs_css.c:144-172 | after ORWRITE a bit of the range is set exactly if it was set on the disk or is set in the data; the rest of the disk is as it was |
| CssRequest.DoOrWriteTwice | Paxos_2_1/tgt/bs_css.c:144-172 | a second ORWRITE of the same data changes nothing |
| CssRequest.DoCompareAndWrite | Paxos_2_1/tgt/bs_css.c:173-235 | COMPARE AND WRITE writes its second half exactly if the first is on the disk, and otherwise changes nothing and reports the first difference |
| CssRequest.FindDifference | Paxos_2_1/tgt/bs_css.c:204-223 | the loop finds the first byte that differs |
| CssRequest.DoWriteSame | Paxos_2_1/tgt/bs_css.c:292-334 | WRITE SAME leaves one stamped copy after the other, and with UNMAP nothing changes |
| CssRequest.CopyAt | Paxos_2_1/tgt/bs_css.c:309-333 | copy k is k blocks behind the first and carries that offset |
| CssRequest.CopyReads | Paxos_2_1/tgt/bs_css.c:309-325 | read back, a copy is the block, with the low 32 bits of its offset in its first four bytes or the low 64 in its first eight if stamped |
| CssRequest.CopiesLength | Paxos_2_1/tgt/bs_css.c:309-333 | n copies fill n blocks |
| CssRequest.DoRead | Paxos_2_1/tgt/bs_css.c:335-353 | READ returns the range of the flat disk |
| CssRequest.DoVerify | Paxos_2_1/tgt/bs_css.c:366-399 | VERIFY succeeds exactly if the data is on the disk |
| VolumeTree.PathPrefix | Paxos_2_1/tgt/createISCSIVol.c:180-222 | a directory on the path of a segment is the path of the segment number shifted by 6 bits a level |
| VolumeTree.DigitAt | Paxos_2_1/tgt/createISCSIVol.c:204-204 | the digit computed at a level is the base-64 digit of the path |
| VolumeTree.SameDigitSamePrefix | Paxos_2_1/tgt/createISCSIVol.c:208-216 | skipping mkdir for the cached digit is sound: equal digits at a level of neighbouring segments mean equal directories down to it |
| VolumeTree.Volume.MakeParents | Paxos_2_1/tgt/createISCSIVol.c:198-217 | one pass adds exactly the directories above its segment and leaves its digits in the cache |
| VolumeTree.Volume.CountLayers | Paxos_2_1/tgt/createISCSIVol.c:181-186 | the loop counts the base-64 digits |
| VolumeTree.Volume.MakeAll | Paxos_2_1/tgt/createISCSIVol.c:188-222 | the loop adds the directories above all its segments and no other |
| VolumeTree.Volume.Create | Paxos_2_1/tgt/createISCSIVol.c:160-222 | the parent directory of every segment is in place and nothing else |
| VolumeTree.Volume.Extend | Paxos_2_1/tgt/extendISCSIVol.c:152-182 | the old tree and the directories above the new segments |
| VolumeTree.ExtendIsCreateIff | Paxos_2_1/tgt/extendISCSIVol.c:152-182 | extending gives the tree of the larger volume exactly if the number of layers stays |
| VolumeTree.DirIff | Paxos_2_1/tgt/createISCSIVol.c:328-364 | which directories exist below a directory |
| VolumeTree.Volume.LeafDirNumber | Paxos_2_1/tgt/createISCSIVol.c:328-364 | the recursion counts the leaf directories below a directory |
| VolumeTree.Volume.VolumeSize | Paxos_2_1/tgt/createISCSIVol.c:365-370 | the reported size is the number of segments rounded up to a multiple of 64, times the file size |
| VolumeTree.OpenerDepthIff | Paxos_2_1/tgt/bs_css.c:467-530 | a number of segments and that number rounded up to 64 have the same depth exactly if N <= 64^L - 64, which OpenGeometry applies to what the opener reads |
| VolumeTree.SmallVolumeMismatch | Paxos_2_1/tgt/bs_css.c:467-682 | five segments are made one level deep and opened two levels deep |
| VolumeOpener.Opener.GetSize | Paxos_2_1/tgt/bs_css.c:940-1044 | size and capacity are a function of the tree: the file size of the first leaf directory below, and 64 segments of it for each leaf directory up to the first subdirectory that shows another size, which is all of them exactly if none does |
| VolumeOpener.Opener.OpenGeometry | Paxos_2_1/tgt/bs_css.c:467-530 | file size, number of segments and depth are those of the volume as made, rounded up, exactly if every leaf directory shows its file size and N <= 64^L - 64 |
| VolumeOpener.AllShowIff | Paxos_2_1/tgt/bs_css.c:940-1044 | every leaf directory shows the file size exactly if it is the default or a segment has been written in each |
| TapeFormat.DecodeEncode | tgt-master/usr/libssc.c:185-233 | a header read back is the header written, with a matching checksum |
| TapeChecksum.DecodesIff | tgt-master/usr/libssc.c:185-209 | a header reads as the one written exactly if its fields are the bytes written, whatever the checksum |
| TapeChecksum.ChecksumSeesBurst | tgt-master/usr/libssc.c:211-233 | with the fields changed inside four neighbouring bytes the checksum matches exactly if nothing changed |
| TapeChecksum.DamagedTypeIsRead | tgt-master/usr/libssc.c:185-209 | a header whose type has been overwritten has a wrong checksum and is read with that type |
| TapeFormat.Linked | tgt-master/usr/bs_ssc.c:122-193 | on the file curr is the header's own offset, next is behind the data and leads to the header whose prev points back and whose number is one more, the end of data points to itself and is the last |
| TapeFormat.OffGrows | tgt-master/usr/bs_ssc.c:122-193 | headers and data of different positions do not overlap |
| TapeFormat.HeaderReads | tgt-master/usr/libssc.c:185-209 | the header of every position reads back from its offset |
| TapeFormat.AppendHolds | tgt-master/usr/bs_ssc.c:122-193 | the three writes of append_blk at position p leave a file that holds the blocks before p and the new one |
| TapeFormat.NewTapeHolds | tgt-master/usr/tgtimg.c:269-337 | a new tape holds no block |
| Tape.Drive.constructor | tgt-master/usr/bs_ssc.c:617-660 | a new tape is opened at the first position |
| Tape.Drive.SkipNext | tgt-master/usr/bs_ssc.c:74-80 | one position on, the end of data to itself |
| Tape.Drive.SkipPrev | tgt-master/usr/bs_ssc.c:82-94 | one position back, never resting on the beginning-of-tape header |
| Tape.Drive.Rewind | tgt-master/usr/bs_ssc.c:96-114 | the cursor is at 0 |
| Tape.Drive.AppendBlk | tgt-master/usr/bs_ssc.c:122-193 | the blocks are those before the cursor and the new one, the cursor is behind it |
| Tape.Drive.WriteFilemarks | tgt-master/usr/bs_ssc.c:462-472 | n filemarks replace everything from the cursor on |
| Tape.Drive.Write6 | tgt-master/usr/bs_ssc.c:501-542 | the buffer, whole or cut into blocks of the mode's length, replaces everything from the cursor on; what is reported does not undo it |
| Tape.Drive.SpaceBlocks | tgt-master/usr/bs_ssc.c:269-307 | forward to min(p + k, n), end of data reported exactly if p + k >= n; backward to max(0, p - k), nothing reported |
| Tape.Drive.SpaceFilemarkForward | tgt-master/usr/bs_ssc.c:223-247 | behind the k-th filemark, or at the end of data with fewer |
| Tape.Drive.SpaceFilemarkReverse | tgt-master/usr/bs_ssc.c:195-221 | counts from the block under the cursor and ends one position before the last filemark counted |
| Tape.BackOverOne | tgt-master/usr/bs_ssc.c:195-221 | backward over one filemark ends one position before the nearest one, that under the cursor included, and at the beginning if that is the first block |
| Tape.BackComposes | tgt-master/usr/bs_ssc.c:195-221 | backward over m and then over n filemarks is backward over m + n |
| Tape.Drive.SpaceToEnd | tgt-master/usr/bs_ssc.c:553-561 | ends, at the end of data |
| Tape.Drive.VarRead | tgt-master/usr/bs_ssc.c:309-368 | the data, the report with the sign of its number, and the cursor, which moves on whenever data is handed over, for every length and every kind of block |
| Tape.UnreportedIff | tgt-master/usr/bs_ssc.c:309-368 | a variable read reports nothing exactly on a block of its length, and with length 0 on a filemark, which is passed, or at the end of data |
| Tape.ReportIff | tgt-master/usr/bs_ssc.c:320-345 | which report a variable read makes of what is under the cursor, and its number: how much more was asked for than there is |
| Tape.MovesIff | tgt-master/usr/bs_ssc.c:346-368 | the cursor moves on exactly past a filemark, past a block some of which was asked for, and past an empty block of which nothing was |
| Tape.Drive.FixedRead | tgt-master/usr/bs_ssc.c:370-431 | the buffer has the blocks up to the first that is not of the mode's length, and they are reported transferred exactly if there is none; otherwise a filemark with the blocks missing, or a format error, with the cursor where the run ended |
| Tape.FixedIsVar | tgt-master/usr/bs_ssc.c:370-431 | a fixed read of blocks of positive length does what variable reads of that length would, up to the first that reports something; a filemark it passes as that read would, anything else it stays before |
| Tape.CutReadsBack | tgt-master/usr/bs_ssc.c:370-431 | a fixed read of blocks cut from a buffer returns the buffer |
| Tape.FixedRoundTrip | tgt-master/usr/bs_ssc.c:433-561 | blocks of fixed length written at any position, spaced back over and read in one command come back as written |
| Tape.VarRoundTrip | tgt-master/usr/bs_ssc.c:433-561 | blocks of any lengths written at any position, spaced back over and read one by one with any lengths that move the cursor come back in order, each as much of it as was asked for, and the reports say by how much the lengths differ; with the lengths they have, they come back whole (ExactReads) |
| Tape.ExactReads | tgt-master/usr/bs_ssc.c:433-561 | reads of the blocks' own lengths give them back as they were and report nothing |
| Reservations.InvIffNotDangling | tgt-master/usr/spc.c:1288-1612 | one registration a nexus, no zero key and a null or live holder survive a service action exactly if it is not the dangling PREEMPT |
| Reservations.InvInEveryRun | tgt-master/usr/spc.c:1288-1612 | and so any run without it |
| Reservations.DanglingIsReachable | tgt-master/usr/spc.c:1524-1612 | three service actions lead to a state where a PREEMPT dangles |
| Reservations.AllRegistrantsPersists | tgt-master/usr/spc.c:1196-1256 | an all-registrants reservation keeps type and scope through any registration change until the last registrant leaves |
| ReservationTypes.AllRegistrantsPersistsInRun | tgt-master/usr/spc.c:1196-1256 | so it does through every run of registrations and reservations in which a registrant remains |
| ReservationTypes.LastRegistrantEnds | tgt-master/usr/spc.c:1196-1256 | and at the end of such a run the last registrant's leaving ends it |
| ReservationTypes.TypedIff | tgt-master/usr/spc.c:1524-1612 | the type and scope on record stay ones RESERVE accepts exactly if the service action is not a PREEMPT that takes over with others |
| ReservationTypes.TypedInRunIff | tgt-master/usr/spc.c:1524-1612 | and in a run at every step exactly if none is |
| ReservationTypes.FirstReserves | tgt-master/usr/spc.c:1288-1402 | two registrations and a RESERVE lead to the state PreemptStoresUnknownType starts from |
| ReservationTypes.PreemptStoresUnknownType | tgt-master/usr/spc.c:1524-1612 | there a PREEMPT with the undefined type 2 and scope 5 succeeds and records both |
| Reservations.HolderStaysOneStep | tgt-master/usr/spc.c:1347-1612 | no service action but those that may end it ends a reservation |
| Reservations.HolderStays | tgt-master/usr/spc.c:1709-1745 | through every run without those A stays holder, also after changing its key, is never refused, and every other nexus is refused exactly by the conflict bits of the type |
| Reservations.AllRegistrantsAccess | tgt-master/usr/spc.c:1709-1745 | under an all-registrants reservation exactly the registrants are never refused |
| ReservationLaws.AcceptedIff | tgt-master/usr/spc.c:1288-1612 | when each service action is accepted, in terms of the keys registered and the holder |
| ReservationLaws.RefusedIff | tgt-master/usr/spc.c:1288-1612 | when it is refused with CHECK CONDITION and when with a conflict; a refused one changes nothing |
| ReservationLaws.KeysAfter | tgt-master/usr/spc.c:1288-1612 | the key of every nexus after any service action: only REGISTER sets one, CLEAR removes all, PREEMPT those it names but never its sender's |
| ReservationLaws.HoldAfter | tgt-master/usr/spc.c:1288-1612 | the holder, scope and type after any service action |
| ReservationLaws.OverIff | tgt-master/usr/spc.c:1192-1612 | a reservation is over exactly after an accepted RELEASE by a holder, an unregistration of its one holder or the last registrant, a CLEAR, or the dangling PREEMPT; then no nexus is refused anything |
| ReservationLaws.OverForOneIff | tgt-master/usr/spc.c:1192-1612 | one holder's reservation is its no more exactly after its RELEASE or unregistration, a CLEAR, or a PREEMPT of its key by another |
| ReservationLaws.ReleaseFrees | tgt-master/usr/spc.c:1436-1446 | a holder that names its key, scope and type frees the unit for every nexus, and every registration keeps nexus and key |
| ReservationLaws.GenerationAfter | tgt-master/usr/spc.c:1192-1612 | the generation counts accepted REGISTER, CLEAR and PREEMPT, and a REGISTER that ends a reservation twice |
| ReservationCode.LogicalUnit.IsPrHolder | tgt-master/usr/spc.c:1009-1019 | the holder itself, or any registration under an all-registrants type |
| ReservationCode.LogicalUnit.UnregisterAndClean | tgt-master/usr/spc.c:1196-1256 | the registration leaves the list; the holder's reservation is dropped or handed to the first registration left |
| ReservationCode.LogicalUnit.PrRegister | tgt-master/usr/spc.c:1288-1345 | a registrant gives its key unless forced, others key 0; a new key keeps place, scope and type of the registration, key 0 unregisters it, and the holder pointer stays null or live |
| ReservationCode.LogicalUnit.PrReserve | tgt-master/usr/spc.c:1347-1402 | only registrants, only known types and the LU scope; an existing reservation is left alone and reserved again successfully exactly by a holder with its type and scope |
| ReservationCode.LogicalUnit.PrRelease | tgt-master/usr/spc.c:1404-1473 | a registrant that is no holder succeeds without effect; a holder with the right key, scope and type ends the reservation, all registrations stay |
| ReservationCode.LogicalUnit.PrClear | tgt-master/usr/spc.c:1475-1522 | a registrant with its key ends the reservation and removes every registration |
| ReservationCode.LogicalUnit.PrPreempt | tgt-master/usr/spc.c:1524-1612 | who survives, who holds afterwards and the generation, as DoPreempt says; in the dangling case the pointer is left on a registration that is not in the list, otherwise it is null or live |
| ReservationCode.LogicalUnit.AccessChecked | tgt-master/usr/spc.c:1709-1745 | on the objects the same verdict as AccessCheck, of which HolderStays and AllRegistrantsAccess speak |
| TaskSet.ApplyKeeps | tgt-master/usr/target.c:1155-1189 | an arrival or completion keeps active_cmd equal to the running commands, blocked justified by a running ORDERED or HEAD command, every command in one place, the queue in arrival order and its first command not startable |
| TaskSet.NoStall | tgt-master/usr/target.c:1240-1293 | while a command waits one runs, and each completion leaves one command fewer |
| TaskSet.ExactlyOnce | tgt-master/usr/target.c:1155-1293 | an arrived command waits, runs or is complete, in exactly one place, and starts and completes at most once |
| OrderedTasks.StartsIff | tgt-master/usr/target.c:1052-1082 | which arrivals start at once in every reachable state: HEAD always, SIMPLE unless blocked, ORDERED and unknown if nothing runs; the others wait behind all that wait |
| OrderedTasks.UnknownIsOrdered | tgt-master/usr/target.c:1074-1078 | an unknown attribute is that of an ORDERED command |
| TaskSet.OrderedIsFence | tgt-master/usr/target.c:1052-1093 | an ORDERED command starts only when everything that arrived before it is complete |
| OrderedTasks.BlockedIff | tgt-master/usr/target.c:1052-1093 | in every run the queue is blocked exactly if the last start or completion of an ORDERED or HEAD command is a start |
| OrderedTasks.SimpleStartsBesideIff | tgt-master/usr/target.c:1052-1093 | a SIMPLE command that arrives starts beside a running ORDERED one exactly if that last entry is a completion, and exactly if a HEAD command has completed since the ORDERED one started and nothing has blocked again |
| OrderedTasks.OrderedAloneIff | tgt-master/usr/target.c:1155-1293 | throughout a run ORDERED commands run alone exactly if no HEAD command arrives while one runs |
| OrderedTasks.OrderedRunsAlone | tgt-master/usr/target.c:1052-1093 | so without HEAD OF QUEUE commands a running ORDERED command is the only one running |
| OrderedTasks.HeadUnblocksOrdered | tgt-master/usr/target.c:1273-1293 | a run with one, where a SIMPLE command starts beside the ORDERED one |
| TaskSet.DrainInOrder | tgt-master/usr/target.c:1240-1267 | a completion starts waiting commands from the front of the queue, in queue order |
| TaskSet.ArrivalOrderIff | tgt-master/usr/target.c:1155-1189 | commands start in arrival order exactly if none starts on arrival while others wait |
| TaskSet.SimplePassesOrdered | tgt-master/usr/target.c:1064-1071 | a SIMPLE command does that, past a waiting ORDERED one |
| TaskSet.Queue.CmdEnabled | tgt-master/usr/target.c:1052-1082 | which attribute may start, and an unknown one becomes ORDERED |
| TaskSet.Queue.Perform | tgt-master/usr/target.c:1084-1093 | a started command is counted and ORDERED and HEAD block |
| TaskSet.Queue.TargetCmdPerform | tgt-master/usr/target.c:1155-1189 | an arrival, with the invariant kept |
| TaskSet.Queue.PostCmdDone | tgt-master/usr/target.c:1240-1267 | the loop starts waiting commands from the front until one may not start, which DrainInOrder and ApplyKeeps speak of |
| TaskSet.Queue.CmdDone | tgt-master/usr/target.c:1273-1293 | a completion, with the invariant kept |
| NamedMutex.ApplyKeeps | Paxos_2_1/tgt/paxos_css.c:72-146 | every step of every thread keeps names, counts, owners and the free list consistent |
| NamedMutex.MutualExclusion | Paxos_2_1/tgt/paxos_css.c:72-146 | two calls for one name never hold together, and calls for different names use different mutexes |
| NamedMutex.FreeIffIdle | Paxos_2_1/tgt/paxos_css.c:117-146 | an entry's count is its holder and waiters, and a mutex is on the free list, once, exactly if it has neither |
| NamedMutex.NoLostLock | Paxos_2_1/tgt/paxos_css.c:72-146 | a waiting call can take its mutex or another call for the name holds it, and when all are over every mutex is free |
| NamedMutex.PoolIsPeak | Paxos_2_1/tgt/paxos_css.c:72-146 | mutexes are reused: in every run as many are made as names were live when most were |
| NamedMutex.FirstFreedFirstUsed | Paxos_2_1/tgt/paxos_css.c:85-98 | of the free mutexes the one freed first is used first |
| NamedMutex.Pool.LockEnter | Paxos_2_1/tgt/paxos_css.c:72-110 | the critical section of css_mutex_lock finds, recycles or makes the mutex of the name and counts the caller |
| NamedMutex.Pool.LockAcquire | Paxos_2_1/tgt/paxos_css.c:109-110 | the mutex is taken |
| NamedMutex.Pool.MutexUnlock | Paxos_2_1/tgt/paxos_css.c:117-146 | the mutex is released and, with no user left, unnamed and freed; a name that is not live is refused |
| CompletionPipe.ApplyKeeps | tgt-master/usr/bs.c:109-187 | every step of every thread keeps the token, the ack list and the commands consistent |
| CompletionPipe.OneToken | tgt-master/usr/bs.c:109-187 | one token in all, and the ack thread and the main thread are never at the ack list together |
| CompletionPipe.ExactlyOnePlace | tgt-master/usr/bs.c:220-253 | every submission is pending, in a worker, finished, acknowledged or completed, in exactly one |
| CompletionPipe.InOrder | tgt-master/usr/bs.c:220-253 | with one worker commands complete in submission order |
| CompletionPipe.NeverStuck | tgt-master/usr/bs.c:109-187 | if no thread can take a step everything submitted is completed |
| CompletionPipe.EveryRunEnds | tgt-master/usr/bs.c:109-187 | without further submissions every interleaving has at most Potential steps |
| CompletionPipe.Notifier.constructor | tgt-master/usr/bs.c:329-368 | the token starts in the command pipe |
| CompletionPipe.Notifier.CmdSubmit | tgt-master/usr/bs.c:462-478 | a submission is last in the pending list |
| CompletionPipe.Notifier.WorkerTake | tgt-master/usr/bs.c:220-240 | a worker takes the first pending command |
| CompletionPipe.Notifier.WorkerFinish | tgt-master/usr/bs.c:241-253 | and puts it last into the finished list |
| CompletionPipe.Notifier.AckRound | tgt-master/usr/bs.c:109-155 | a round of the ack thread is a run of steps that moves all finished commands, in order, and passes the token on |
| CompletionPipe.Notifier.RequestDone | tgt-master/usr/bs.c:157-187 | a round of the main thread is a run of steps that completes the whole ack list in order and passes the token on |
| AioBatch.ApplyKeeps | tgt-master/usr/bs_aio.c:119-183 | an arrival, a batch with any answer and a completion keep counters, order and conservation |
| AioBatch.CountersAndOrder | tgt-master/usr/bs_aio.c:119-183 | nwaiting is the wait list's length, npending the commands in flight and at most 128, commands leave in arrival order, the kernel has a subsequence of it, each of which is in flight or done |
| AioBatch.AllReachKernelIff | tgt-master/usr/bs_aio.c:143-164 | every command reaches the kernel in arrival order exactly if no batch with commands was answered with an error other than EAGAIN |
| AioBatch.FullBatch | tgt-master/usr/bs_aio.c:125-131 | a batch taken in full leaves nothing waiting or the depth used up |
| AioBatch.KernelTakes | tgt-master/usr/bs_aio.c:143-183 | the kernel gets as many commands as it answers, those that waited longest; on EAGAIN all keep waiting, on another error those of the batch wait no more |
| AioBatch.RunGrants | tgt-master/usr/bs_aio.c:143-183 | in every run the kernel has been given as many commands as its answers add up to |
| AioBatch.AioInfo.Fetch | tgt-master/usr/bs_aio.c:136-141 | the batch is the front of the wait list |
| AioBatch.AioInfo.PushBack | tgt-master/usr/bs_aio.c:165-170 | what the kernel did not take is in front again, in order |
| AioBatch.AioInfo.SubmitBatch | tgt-master/usr/bs_aio.c:119-183 | one batch for partial, EAGAIN and failing answers |
| AioBatch.Devices.AddDevice | tgt-master/usr/bs_aio.c:391-405 | an added device is idle and off the list, and the other devices are as before |
| AioBatch.Devices.SubmitDevBatch | tgt-master/usr/bs_aio.c:119-183 | and a device is on the list exactly if commands wait |
| AioBatch.Devices.SubmitAllDevs | tgt-master/usr/bs_aio.c:185-197 | the devices of the list get one batch each in order, up to the first error, which is that of a dropped batch; the others are untouched |
| AioBatch.Devices.Enqueue | tgt-master/usr/bs_aio.c:199-232 | a command waits and its device is on the list |
| AioBatch.Devices.CmdSubmitLast | tgt-master/usr/bs_aio.c:234-235 | the last command of a group submits every device with waiting commands, up to the first error |
| AioBatch.Devices.CmdSubmitMore | tgt-master/usr/bs_aio.c:237-240 | another one submits its device exactly if that fills the depth |
| AioBatch.NotLastIff | tgt-master/usr/bs_aio.c:237-240 | such a command is submitted, with those that wait, only if with it those waiting and in flight are 128; else nothing but its waiting happens |
| AioBatch.BatchWhenNeeded | tgt-master/usr/bs_aio.c:237-240 | it is the first that would leave waiting what fills the kernel's queue, and the batch taken in full leaves none waiting |
| AioBatch.Devices.CmdSubmit | tgt-master/usr/bs_aio.c:199-241 | both, chosen by the mark of the command |
| AioBatch.Devices.GetCompletions | tgt-master/usr/bs_aio.c:271-317 | whatever commands are submitted to whatever devices while completions are reported, the call is a sequence of steps of all devices: what io_getevents hands over leaves the flight, each submission does what bs_aio_cmd_submit does, and the batch of what waits comes at the end, exactly if all announced completions are in |
| AioBatch.Devices.OneRound | tgt-master/usr/bs_aio.c:293-309 | one io_getevents, each of its commands reported with any submissions in between |
| AioBatch.AllReachable | tgt-master/usr/bs_aio.c:271-317 | through these steps every device stays reachable, so that counters, depth bound and order hold for it at each of them |
| PaxosAgreement.CarefulRunsAgree | Paxos_2_1/paxos/test/TestPaxos.c:99-144 | the command decided is the one every server executes: in a cell of any size above one, under any loss, repetition and reordering of messages, with any retries and any leaders, runs that obey the five rules end with no two servers having decided on different commands |
| PaxosDisagreement.AgreementIff | Paxos_2_1/paxos/test/TestPaxos.c:99-144 | of the sets of the five rules, the whole set makes every run of every cell do so, and no other set does |
| PaxosDisagreement.CarefulRunDecides | Paxos_2_1/paxos/test/TestPaxos.c:99-125 | in every cell of more than one server there is a run that obeys all five rules and decides |
| PaxosAgreement.ContinueCastsOwn | Paxos_2_1/paxos/test/TestPaxos.c:69-83 | in any state a leader that goes on with a free instance casts the command it was given under its own tag |
| PaxosAgreement.RefusedLeaderGoesAbove | Paxos_2_1/paxos/test/TestPaxos.c:88-98 | in any state a leader whose Collect or Begin is refused learns the round it is behind, stops gathering, and its next round is above that and is joined by the server that refused |
| PaxosDisagreement.DecidedAnswerRun | Paxos_2_1/paxos/test/TestPaxos.c:126-144 | with Success and catch-up lost, a run that breaks only the rule on servers heard from that had decided, and ends with two commands decided |
| PaxosDisagreement.OtherCommandRun | Paxos_2_1/paxos/test/TestPaxos.c:99-125 | a run that breaks only the rule on the command of the tag: the tag is handed on, another command is executed under it |
| PaxosDisagreement.OtherTagRun | Paxos_2_1/paxos/test/TestPaxos.c:266-275 | a run that breaks only the rule on the tag of a redirected Begin |
| PaxosDisagreement.StaleCountRun | Paxos_2_1/paxos/test/TestPaxos.c:173-180 | with an Accept from before a retry still counted, a run that breaks only the rule on acceptances counted |
| PaxosDisagreement.FallingVoteRun | Paxos_2_1/paxos/test/TestPaxos.c:145-154 | with a Collect that does not arrive, a run that breaks only the rule against accepting in a lower round |

## Left out

- Sockets, epoll, signals, sessions of the Paxos file system, shared memory, allocation failure, logging and every administration and probe program. Reads and writes of the network appear as scripts of results, files as byte sequences that do not fail.
- RDMA transports, login and parameter negotiation, CHAP, and the fields of a header other than those framing needs; their files are not part of this model. What a header or a finished PDU does to the session is a function of the history (`PduFormat.Server`).
- The receive machine's choice of buffer: the model appends bytes to sequences where the code writes through a pointer into the task or login buffer, so aliasing of buffers is not covered there. An AHS is not modelled on the transmit side, which never sends one.
- Padding.PadInPlace: requires room for the padding behind the data; what lies behind the buffers of the code is not part of this model.
- RxFraming.ReceiveStream: speaks of streams without an end of file; `RxFraming.Connection.Receive` also covers one.
- WriteTransfer.Task.SendR2tPdu: r2t_count and the data lengths are unbounded integers here and 32-bit in the code.
- TxFraming.WireParses: requires the header's data length to be the size of the data, which the response builders, not the transmit machine, see to.
- CmdSn.ExecutesInOrder: requires distinct numbers inside the window, as the protocol demands of the initiator; what a duplicate does is stated apart.
- Tape.Drive.WriteFilemarks: file offsets stay below 2^63, as the signed file offset demands.
- Tape.Drive.Write6: requires the buffer to hold the blocks the command names, which the code does not check.
- READ POSITION, and the checks of READ(6) and SPACE for illegal code fields: constant replies.
- Session failure, retries and failing reads or writes in bs_css_read_write; volumes that are regular files; UNMAP, which is disabled in the source.
- VolumeOpener.Opener.GetSize: directory entries are met in ascending order, as the code leaves the order to css_readdir; a directory that is not part of a created volume, and errors of opening one, are not covered.
- Errors of mkdir and concurrent changes of the tree while its leaves are counted.
- REGISTER AND MOVE, and the unit attentions other nexuses get; READ KEYS and READ RESERVATION.
- Task-management aborts of queued commands, and commands that complete inside the call that starts them: a completion is always a step of its own.
- The failure paths of css_lock around the named mutexes, and unlocking a name one does not hold, which the callers never do.
- CompletionPipe.InOrder: for one backing store and its workers; the signal-based notification is not modelled.
- AioBatch.Devices.GetCompletions: what target_cmd_io_done does besides submitting commands, and the order on the device list, are not part of the steps; AioBatch.Devices.SubmitAllDevs states that order.
- AioBatch.Devices.CmdSubmitMore: operations other than reads and writes never reach the wait list and are not modelled; nor are errors of the eventfd read.
- The ring buffer of log.c, the sheepdog store, mode pages and MMC tables: they would add easy members or are not visible from both ends.
- Of the Paxos library, everything but the rounds of one instance: pages and other instances, suppressed acceptances, the application's validation, elections and leases, restarts, and a cell of one server. Which rounds are started and when is left open.
- PaxosAgreement.CarefulRunsAgree: for runs that obey the five rules, since in others agreement fails.
- PaxosDisagreement.AgreementIff: compares sets of rules; which single runs that break a rule agree nevertheless is not stated.
- PaxosAgreement.ApplyKeeps: round numbers are unbounded here and 32-bit in the code, a server is given at most one command for an instance, as the request path does, and a server's record is a value, since the steps of all servers are one state machine.
