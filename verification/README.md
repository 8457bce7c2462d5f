# Morse Micro 802.11ah driver: verified models of its logic

This project models the parts of the Morse driver that hold logic of their own, separate from the kernel,
and proves what they promise. All of it checks with `dafny verify dfyconfig.toml`. Keep the option
set there when running Dafny on the files themselves: without it the solver is too slow on the lemmas about the
literals of the CRC tables.

| module | models | main results |
|---|---|---|
| `Crc16Algebra`, `Crc16Tables`, `Crc16` | the CRC-16/XMODEM routines | all forms equal a bit-serial shift register; combining two CRCs is the CRC of the concatenation |
| `CommandProtocol` | the host-to-chip command protocol | in every interleaving a caller is woken by a response to its own call |
| `ScanMachine` | the hardware scan state machine | each accepted scan is completed exactly once, each scheduled scan ends exactly once, and exactly which races break that |
| `ScanLists`, `ScanTlv`, `ScanWire` | channel list, power list and TLV encoder | exact duplicate-free lists, exact sizes, records and powers read back |
| `CoreFile`, `Coredump` | the coredump ELF writer | the file stays in bounds, segments do not overlap, and the file reads back |
| `Cac` | Centralized Authentication Control | the bounds hold in every run, sixty quiet ticks always recover, percentages round-trip |
| `Survey` | the channel survey table | the array equals a map of totals after any additions |
| `Bytes`, `Wrappers` | bytes, little-endian integers, optional values | used by the others |

Objects whose fields the driver updates in place are classes whose methods are proved against functions on the
values of those fields. The state machines are transition systems made of the very functions those methods are
proved against, so that the theorems about runs speak about the driver's own regions between taking and
releasing a lock.

## What is assumed of the surroundings

- Commands: `cmd_wait` admits one caller at a time. The chip answers a command at most once however often it
  is sent (command.c:641-648). Responses may be delayed, reordered and lost.
- Scans: mac80211 runs its callbacks one at a time. Everything else (done events, the timeout work, restarts,
  the device stopping) may interleave at every point where the driver does not hold its lock. Whether a
  stop command failed or the device has been stopped is looked at once, before waiting; looking, waking or
  giving up, and taking the lock again are separate steps.
- Hosts are little-endian with 64-bit `size_t`, as the CRC routine and the power list require.
- Memory allocation, reads of chip memory and the results of queueing and sending commands are parameters and
  may fail at any point.
- The channel tables and the conversion of powers are arbitrary functions.

## Where the code falls short of what it promises

Each of these is stated as an exact condition, with a proof that the promise holds exactly when the condition does.

- `multmodp` never returns when its first argument is 0 (`Crc16.MultTerminatesIffNonzero`). No call made by
  the driver passes 0, because no power of x reduces to 0 (`Crc16.PowerNonzero`).
- Stepping over a TLV by `sizeof(tlv)` (hw_scan.c:997) adds the size of a pointer, not of the header. With
  pointers of more than four bytes the walk that prints a command goes astray in every scan command
  (`ScanTlv.EveryCommandMisread`), and is right only for one record at most (`ScanTlv.PointerStepWalk`).
- The length in a command's header is 16 bits wide and leads to the end of the command exactly when that is
  shorter than 65536 bytes (`ScanTlv.FixedPartReads`).
- A cancel or timeout that has given up waiting completes the scan whatever the state is by then. If the scan
  ended in the meantime mac80211 is told twice; a forced finish while a scheduled scan is stopping completes a
  scan nobody started. `ScanMachine.CompletedExactlyOnce` shows that nothing else can go wrong, and
  `ScanMachine.TimelyRunsComplete` gives an environment in which nothing does, restarts under a waiting
  cancel included (`ScanMachine.RestartUnderCancel`).
- A timeout that gave up ends a scheduled scan that began in the meantime without telling mac80211
  (`ScanMachine.SchedEndedExactlyOnce`, `ScanMachine.TimeoutLosesSched`).
- A start that stops a scheduled scan first does not clear the completion, as one from IDLE does
  (hw_scan.c:1101-1113). A completion left over from the stop wakes the cancel of the new scan while that scan is
  still on, and nothing else does (`ScanMachine.WokenBeforeEndOnlyByLeftover`, `ScanMachine.LeftoverWakesCancel`).
- The first pass over the powers misses a first power of INT_MIN. The array is then too short for the distinct
  powers unless a later change of power brings back an earlier one (`ScanLists.PowersFitExactly`,
  `ScanLists.IntMinIsMissed`). The 8-bit count makes 255 the most powers the list can hold
  (`ScanLists.ScanParams.BuildPowers`), and a channel's six-bit index makes 64 the most that can be told
  apart (`ScanWire.PreparePowers`).
- The room for the channel list is computed as an `int` and kept in 16 bits. The list is always the first
  channels asked for, up to that room, and is complete exactly when the room as kept suffices
  (`ScanLists.ScanParams.BuildChannels`); it always does below 65536 (`ScanLists.SmallRoomSuffices`), and with
  one channel requested 65536 times the list is empty (`ScanLists.RoomWraps`).
- A status is returned from a caller's buffer that is too short for one, or into which a response too short to
  carry one was copied, so it is whatever the buffer held (`CommandProtocol.StatusReturned`).
- A response that is 4095 calls late is taken as the answer to a call that reuses its sequence number
  (`CommandProtocol.MatchIsOwn`, `CommandProtocol.AgedResponseIsTaken`).
- Percentages beyond 3203 either way do not survive the 16-bit scaling (`Cac.PercentRoundTrip`).
- With 65536 or more program headers the payload of a coredump starts inside the header table
  (`CoreFile.ClearOfHeaders`).

The comments in the default authentication rules call the decreases "increase" and the increases "decrease"
(cac.c:30-37); the model follows the numbers. The header of `cac_set_threshold_change` says the period restarts
when the threshold is increased (cac.c:101-103); the code restarts it on every change.

## Model

| member | source | states |
|---|---|---|
| `Crc16Algebra.StepXor` | driver/morse_driver-1.16.4/crc16_xmodem.c:261 | one shift of the register is linear over xor |
| `Crc16Algebra.StepsInjective` | driver/morse_driver-1.16.4/crc16_xmodem.c:260-261 | any number of shifts never merges two registers: x is a unit modulo p |
| `Crc16Algebra.MulXor` | driver/morse_driver-1.16.4/crc16_xmodem.c:334-348 | the product modulo p distributes over xor |
| `Crc16Algebra.MulStep` | driver/morse_driver-1.16.4/crc16_xmodem.c:345 | shifting the second factor shifts the product |
| `Crc16Algebra.MulStepLeft` | driver/morse_driver-1.16.4/crc16_xmodem.c:345 | shifting the first factor shifts the product |
| `Crc16Algebra.MulCommutes` | driver/morse_driver-1.16.4/crc16_xmodem.c:334-348 | the product modulo p is commutative |
| `Crc16Algebra.MulAssociates` | driver/morse_driver-1.16.4/crc16_xmodem.c:334-348 | the product modulo p is associative |
| `Crc16Algebra.MulPower` | driver/morse_driver-1.16.4/crc16_xmodem.c:372-375 | multiplying by x^n is shifting n times |
| `Crc16Algebra.SwapTwice` | driver/morse_driver-1.16.4/crc16_xmodem.c:290-293 | swapping the two bytes twice changes nothing |
| `Crc16Tables.TableByteCorrect` | driver/morse_driver-1.16.4/crc16_xmodem.c:10-37 | every literal of table_byte is its index followed by eight shifts |
| `Crc16Tables.TableWordCorrect0` | driver/morse_driver-1.16.4/crc16_xmodem.c:39-65 | every literal of row 0 is the swapped CRC of its index byte |
| `Crc16Tables.TableWordCorrect7` | driver/morse_driver-1.16.4/crc16_xmodem.c:222-247 | every literal of row 7 is the swapped CRC of its index byte and seven zero bytes |
| `Crc16Tables.TableWordEntry` | driver/morse_driver-1.16.4/crc16_xmodem.c:39-248 | entry i of row k is, swapped, byte i followed by k zero bytes, for all eight rows |
| `Crc16.CrcIsBitSerial` | driver/morse_driver-1.16.4/crc16_xmodem.h:11-19 | the byte-wise CRC is a shift register fed the message bit by bit, most significant bit first |
| `Crc16.CrcLinear` | driver/morse_driver-1.16.4/crc16_xmodem.c:250-264 | start value and data contribute independently to a CRC |
| `Crc16.CrcAppend` | driver/morse_driver-1.16.4/crc16_xmodem.h:11-12 | the CRC of a concatenation continues from the CRC of its first part |
| `Crc16.PartialByte` | driver/morse_driver-1.16.4/crc16_xmodem.c:266-275 | k shifts over a byte whose other bits are clear feed exactly its top k bits |
| `Crc16.SplitByte` | driver/morse_driver-1.16.4/crc16_xmodem.c:266-275 | the top k bits and then the other 8 - k bits are the whole byte, for every k in 0..8 |
| `Crc16.ByteStep` | driver/morse_driver-1.16.4/crc16_xmodem.c:285 | one table lookup feeds one byte into the register |
| `Crc16.Absorb` | driver/morse_driver-1.16.4/crc16_xmodem.c:316-322 | one of the eight lookups takes one more byte into the swapped accumulator |
| `Crc16.WordLanes` | driver/morse_driver-1.16.4/crc16_xmodem.c:313-315 | the swapped register folded into the data word leaves the CRC of the eight bytes the same |
| `Crc16.WordStep` | driver/morse_driver-1.16.4/crc16_xmodem.c:313-322 | eight lookups feed eight bytes into the swapped register |
| `Crc16.CrcBit` | driver/morse_driver-1.16.4/crc16_xmodem.c:250-264 | the reference CRC of the buffer, 0 for a null buffer |
| `Crc16.CrcRem` | driver/morse_driver-1.16.4/crc16_xmodem.c:266-275 | feeds the top bits of the low byte of val, bit by bit, for 0 to 8 bits |
| `Crc16.CrcByte` | driver/morse_driver-1.16.4/crc16_xmodem.c:277-288 | the same CRC through the byte table, for every buffer |
| `Crc16.CrcWords` | driver/morse_driver-1.16.4/crc16_xmodem.c:310-326 | the middle loop continues the CRC over n whole words |
| `Crc16.CrcWord` | driver/morse_driver-1.16.4/crc16_xmodem.c:296-332 | the same CRC for every start value, length and alignment |
| `Crc16.MultModP` | driver/morse_driver-1.16.4/crc16_xmodem.c:334-348 | ends on a nonzero first argument and gives the product modulo p |
| `Crc16.MultTerminatesIffNonzero` | driver/morse_driver-1.16.4/crc16_xmodem.c:338-346 | the loop reaches its exit if and only if the first argument is not 0 |
| `Crc16.PowerNonzero` | driver/morse_driver-1.16.4/crc16_xmodem.c:355-375 | no power of x is 0 modulo p, so every call made from combine ends |
| `Crc16.TableCombSquares` | driver/morse_driver-1.16.4/crc16_xmodem.c:350-353 | each literal is the square of the one before, and the last squares to the first |
| `Crc16.TableCombIsPower` | driver/morse_driver-1.16.4/crc16_xmodem.c:350-367 | the entry at j modulo 15 is x^(2^j), for every j |
| `Crc16.X8nModP` | driver/morse_driver-1.16.4/crc16_xmodem.c:355-370 | x^(8n) modulo p for every n, through the wrapping table |
| `Crc16.CombineCorrect` | driver/morse_driver-1.16.4/crc16_xmodem.c:372-375 | shifting the first CRC by the second block's length and adding its CRC is the CRC of both blocks |
| `Crc16.CrcComb` | driver/morse_driver-1.16.4/crc16_xmodem.c:372-375 | for all blocks and start values whose CRCs are given, the CRC of the two blocks run together |
| `CommandProtocol.NextSeqOf` | driver/morse_driver-1.16.4/command.c:133-135 | the n-th call has a sequence number in 1..4095 that repeats with period 4095 |
| `CommandProtocol.HostIds` | driver/morse_driver-1.16.4/command.c:136-142 | a host id is a nonzero 16-bit value and gives its sequence number back |
| `CommandProtocol.SameSeq` | driver/morse_driver-1.16.4/command.c:133-136 | two calls share a sequence number exactly when a multiple of 4095 calls apart |
| `CommandProtocol.StatusReturned` | driver/morse_driver-1.16.4/command.c:662-674 | a woken call returns the response's status whatever the buffer held, if and only if no buffer is used or buffer and response both hold a status |
| `CommandProtocol.StaleStatus` | driver/morse_driver-1.16.4/command.c:181 | otherwise some buffer makes it return something else |
| `CommandProtocol.CopiedBytes` | driver/morse_driver-1.16.4/command.c:665-669 | the buffer holds the response up to the shorter of both lengths and its own bytes behind |
| `CommandProtocol.StepKeepsInv` | driver/morse_driver-1.16.4/command.c:132-198 | every step of caller, queue, chip and network keeps the protocol invariant |
| `CommandProtocol.MatchIsOwn` | driver/morse_driver-1.16.4/command.c:649-656 | a matching response answers the call in progress if and only if it is at most 4094 calls old |
| `CommandProtocol.RunKeepsInv` | driver/morse_driver-1.16.4/command.c:132-198 | the invariant holds after every run |
| `CommandProtocol.WokenByOwnResponse` | driver/morse_driver-1.16.4/command.c:641-681 | in every interleaving a caller is woken only by a response with its message id and sequence, taken during the attempt it waits on, and answering this very call if no response is over 4094 calls late |
| `CommandProtocol.SequenceInRange` | driver/morse_driver-1.16.4/command.c:132-142 | in every run the sequence stays in 1..4095, host ids are nonzero, and there are at most two attempts |
| `CommandProtocol.WokenReturnsStatus` | driver/morse_driver-1.16.4/command.c:171-198 | in every run a woken attempt yields the status of the response that was taken, and ends the call unless that status is -ETIMEDOUT on the first attempt; a buffer long enough for a status holds the response |
| `CommandProtocol.OwnResponseIsTaken` | driver/morse_driver-1.16.4/command.c:641-681 | in every run a response to either attempt of the call in progress is taken and wakes the caller, while an attempt is with the chip |
| `CommandProtocol.ExpiredIsRetriedOnce` | driver/morse_driver-1.16.4/command.c:175-198 | in every run a wait that ran out is retried exactly once, then ends in -ETIMEDOUT, and leaves neither completion nor request behind |
| `CommandProtocol.SignalsOnlyPresentCaller` | driver/morse_driver-1.16.4/command.c:677-681 | in every run the completion, which lives on a caller's stack and stays set after a failed enqueue, is signalled only while its own caller is waiting for it or about to conclude |
| `CommandProtocol.AgedResponseIsTaken` | driver/morse_driver-1.16.4/command.c:649-650 | a run in which a response 4095 calls old wakes a caller it does not answer |
| `CommandProtocol.CommandLink.Begin` | driver/morse_driver-1.16.4/command.c:132-136 | takes the next sequence number |
| `CommandProtocol.CommandLink.QueueRequest` | driver/morse_driver-1.16.4/command.c:158-164 | sets the completion, clears it on a retry, and fills the slot if queueing succeeds |
| `CommandProtocol.CommandLink.ConcludeAttempt` | driver/morse_driver-1.16.4/command.c:172-195 | clears completion and slot and picks the result |
| `CommandProtocol.CommandLink.ProcessResponse` | driver/morse_driver-1.16.4/command.c:631-683 | ignores a response that does not match; otherwise copies or keeps the status and wakes the caller |
| `ScanMachine.StepBalances` | driver/morse_driver-1.16.4/hw_scan.c:1181-1327 | a step keeps "one completion is owed exactly while RUNNING or ABORTING" if and only if it is not one of three named races |
| `ScanMachine.CompletedExactlyOnce` | driver/morse_driver-1.16.4/hw_scan.c:1080-1327 | over every run each accepted scan is completed exactly once and no other, if and only if the run has none of those races |
| `ScanMachine.InvKept` | driver/morse_driver-1.16.4/hw_scan.c:1080-1463 | every step keeps which states a callback can find, that SCHED_STOPPING belongs to a stop under way, and that completions are there only when a scan is over or were left over |
| `ScanMachine.RunKeepsInv` | driver/morse_driver-1.16.4/hw_scan.c:1080-1463 | so does every run |
| `ScanMachine.StepBalancesSched` | driver/morse_driver-1.16.4/hw_scan.c:1302-1463 | a step keeps "a scheduled scan is on for mac80211 exactly while SCHED or being stopped by a new scan" if and only if it is not one named race |
| `ScanMachine.SchedEndedExactlyOnce` | driver/morse_driver-1.16.4/hw_scan.c:1302-1463 | over every run each scheduled scan ends for mac80211 exactly once, by its own request or by being told, if and only if the run has none of those races |
| `ScanMachine.StopLeavesIdle` | driver/morse_driver-1.16.4/hw_scan.c:1253-1256 | in every run the stopping of a scheduled scan, woken or not, leaves IDLE, and SCHED_STOPPING never outlives it |
| `ScanMachine.WokenBeforeEndOnlyByLeftover` | driver/morse_driver-1.16.4/hw_scan.c:1210-1212 | in every run a cancel waiting for a scan that is on is woken if and only if a completion was left over from before that scan |
| `ScanMachine.StartsExactlyFromIdle` | driver/morse_driver-1.16.4/hw_scan.c:1094-1160 | a scan, or a scheduled scan, starts exactly when the device is started, the state is IDLE and nothing fails, and then no completion is left over |
| `ScanMachine.RelaunchStarts` | driver/morse_driver-1.16.4/hw_scan.c:1106-1110 | a start that stopped a scheduled scan first begins a scan exactly when nothing fails, and keeps the completions that are there |
| `ScanMachine.EndsAreSignalled` | driver/morse_driver-1.16.4/hw_scan.c:1238-1327 | every end by an event or a restart raises the completion once |
| `ScanMachine.TimelyStep` | driver/morse_driver-1.16.4/hw_scan.c:1210-1226 | in an environment that rules out four ways for a scan to end or start under a cancel bound to give up, no step is a race and the environment's invariant is kept |
| `ScanMachine.TimelyRunsComplete` | driver/morse_driver-1.16.4/hw_scan.c:1080-1327 | in such an environment every run completes each accepted scan exactly once, whether it ends by event, cancel, timeout or restart, and ends each scheduled scan exactly once |
| `ScanMachine.RestartUnderCancel` | driver/morse_driver-1.16.4/mac.c:6440-6470 | a restart that stops the device and ends a scan under a waiting cancel is such a run, and completes it once |
| `ScanMachine.InitialIsBalanced` | driver/morse_driver-1.16.4/hw_scan.c:1283-1291 | the machine starts with nothing owed and nothing pending |
| `ScanMachine.LateDoneCompletesTwice` | driver/morse_driver-1.16.4/hw_scan.c:1210-1226 | a run from the start in which a scan is completed twice by an event and a cancel |
| `ScanMachine.LateDoneAfterTimeout` | driver/morse_driver-1.16.4/hw_scan.c:1275-1281 | a run from the start in which a scan is completed twice by an event and the timeout |
| `ScanMachine.FinishWhileStoppingCompletesNothing` | driver/morse_driver-1.16.4/hw_scan.c:1313-1327 | a run from the start in which a scan is completed that was never started |
| `ScanMachine.TimeoutLosesSched` | driver/morse_driver-1.16.4/hw_scan.c:1221-1225 | a run from the start in which a timeout ends a scheduled scan behind mac80211's back |
| `ScanMachine.LeftoverWakesCancel` | driver/morse_driver-1.16.4/hw_scan.c:1106-1110 | a run from the start in which a completion left over wakes a cancel while its scan is on |
| `ScanMachine.HwScanContext.LaunchScan` | driver/morse_driver-1.16.4/hw_scan.c:1109-1178 | a start that fails is owed nothing and leaves IDLE |
| `ScanMachine.HwScanContext.OpsHwScan` | driver/morse_driver-1.16.4/hw_scan.c:1080-1179 | rejects, stops a scheduled scan first, or launches; success and an accepted scan are the same |
| `ScanMachine.HwScanContext.CancelBegin` | driver/morse_driver-1.16.4/hw_scan.c:1186-1208 | only a running scan is aborted and waited for |
| `ScanMachine.HwScanContext.MayWait` | driver/morse_driver-1.16.4/hw_scan.c:1210-1211 | waits unless the command failed or the device is stopped at that moment |
| `ScanMachine.HwScanContext.CancelEnd` | driver/morse_driver-1.16.4/hw_scan.c:1221-1225 | completes whatever the state is and goes to IDLE |
| `ScanMachine.HwScanContext.ScanDoneEvent` | driver/morse_driver-1.16.4/hw_scan.c:1238-1273 | completes an active scan, always raises the completion and goes to IDLE |
| `ScanMachine.HwScanContext.FinishSched` | driver/morse_driver-1.16.4/hw_scan.c:1302-1311 | ends a scheduled scan and nothing else |
| `ScanMachine.HwScanContext.FinishScan` | driver/morse_driver-1.16.4/hw_scan.c:1313-1327 | completes in every state but IDLE and SCHED |
| `ScanMachine.HwScanContext.OpsSchedStart` | driver/morse_driver-1.16.4/hw_scan.c:1337-1415 | starts from IDLE only and returns to IDLE on failure |
| `ScanMachine.HwScanContext.StopSchedBegin` | driver/morse_driver-1.16.4/hw_scan.c:1422-1443 | only a scheduled scan is stopped and waited for; a requested stop ends it for mac80211 |
| `ScanMachine.HwScanContext.StopSchedEnd` | driver/morse_driver-1.16.4/hw_scan.c:1452-1454 | goes to IDLE after a failed wait |
| `ScanMachine.HwScanContext.SchedScanStopped` | driver/morse_driver-1.16.4/hw_scan.c:1457-1462 | tells mac80211 that its scheduled scan has stopped |
| `ScanLists.PrimariesMembers` | driver/morse_driver-1.16.4/hw_scan.c:633-663 | taking a wide channel apart yields exactly its defined 1 and 2 MHz primaries |
| `ScanLists.WantedFits` | driver/morse_driver-1.16.4/hw_scan.c:690-706 | the room computed in advance is always enough |
| `ScanLists.WantedMembers` | driver/morse_driver-1.16.4/hw_scan.c:715-725 | what is inserted is exactly what some requested channel asks for |
| `ScanLists.ScanListExact` | driver/morse_driver-1.16.4/hw_scan.c:676-725 | the list is repeat-free, holds exactly the channels asked for, in either mode, and fits the room |
| `ScanLists.CountsChanges` | driver/morse_driver-1.16.4/hw_scan.c:727-760 | distinct powers never outnumber the changes of power, and are as many exactly when no change brings back an earlier power |
| `ScanLists.PowersFitExactly` | driver/morse_driver-1.16.4/hw_scan.c:727-760 | the distinct powers fit the array if and only if the first power is not INT_MIN or a later change brings back an earlier power |
| `ScanLists.IntMinIsMissed` | driver/morse_driver-1.16.4/hw_scan.c:682 | an input that meets the failing condition: a single channel of power INT_MIN has no room for its power |
| `ScanLists.CountRoom` | driver/morse_driver-1.16.4/hw_scan.c:690-706 | computes that room |
| `ScanLists.RoomMeans` | driver/morse_driver-1.16.4/hw_scan.c:698-705 | 12 entries for an 8 MHz channel, 6 for a 4 MHz one, 1 for any other and in survey mode |
| `ScanLists.ScanParams.IsInList` | driver/morse_driver-1.16.4/hw_scan.c:551-562 | true exactly for members of the list |
| `ScanLists.ScanParams.Insert` | driver/morse_driver-1.16.4/hw_scan.c:572-590 | adds a channel once, at the end, as long as there is room; reports a missing or full list |
| `ScanLists.ScanParams.InsertPrimaries` | driver/morse_driver-1.16.4/hw_scan.c:634-662 | the list gains the primaries of one width in order, up to its room; fails only when full or missing |
| `ScanLists.ScanParams.Deconstruct` | driver/morse_driver-1.16.4/hw_scan.c:603-666 | the list gains all primaries of a wide channel, up to its room; fails only when full or missing; rejects exactly the narrow channels |
| `ScanLists.ScanParams.InsertRequested` | driver/morse_driver-1.16.4/hw_scan.c:715-725 | for every request the list is the first channels asked for, without repeats, up to its room; no insertion fails when the computed room is there |
| `ScanLists.ScanParams.BuildChannels` | driver/morse_driver-1.16.4/hw_scan.c:690-725 | for every request the first channels asked for up to the 16-bit room, and the whole list of ScanListExact if and only if that room is no less than the list; below 65536 no insertion fails |
| `ScanLists.SmallRoomSuffices` | driver/morse_driver-1.16.4/hw_scan.c:690-713 | a computed room below 65536 always suffices |
| `ScanLists.RoomWraps` | driver/morse_driver-1.16.4/hw_scan.c:713 | a narrow channel requested 65536 times leaves no room at all |
| `ScanLists.ScanParams.CountPowers` | driver/morse_driver-1.16.4/hw_scan.c:727-735 | counts the runs of equal powers |
| `ScanLists.ScanParams.IndexPower` | driver/morse_driver-1.16.4/hw_scan.c:747-760 | finds the power or adds it at the end; says when that write is past the array and when the count shows it |
| `ScanLists.ScanParams.AssignPower` | driver/morse_driver-1.16.4/hw_scan.c:743-763 | one channel gets the index of its power |
| `ScanLists.ScanParams.FillPowers` | driver/morse_driver-1.16.4/hw_scan.c:743-765 | overruns exactly when the distinct powers outnumber an array of at most 255, and returns -EFAULT exactly then unless the array has 255 entries and the count wraps; otherwise the list is the distinct powers, every channel pointing at its own, if and only if they are at most 255 |
| `ScanLists.ScanParams.BuildPowers` | driver/morse_driver-1.16.4/hw_scan.c:727-765 | overruns its array exactly when the first power is INT_MIN, no change brings back a power, and the count gets that far; -EFAULT exactly then, but for the wrapping count; otherwise it holds the distinct powers if and only if they are at most 255 |
| `ScanTlv.SizeIsExact` | driver/morse_driver-1.16.4/hw_scan.c:784-823 | the size reserved is exactly the bytes written, for every start and scheduled start |
| `ScanTlv.WalkFindsRecords` | driver/morse_driver-1.16.4/hw_scan.c:978-998 | stepping by header and length finds exactly the records and stops at the end, if and only if every payload fits 16 bits |
| `ScanTlv.RecordAt` | driver/morse_driver-1.16.4/hw_scan.c:979-997 | at each of those offsets stands the record's tag, length and payload |
| `ScanTlv.HoldsRecorded` | driver/morse_driver-1.16.4/hw_scan.c:834-860 | the bytes written are those records one after the other |
| `ScanTlv.PointerStepWalk` | driver/morse_driver-1.16.4/hw_scan.c:997 | stepping by more than the header is right if and only if there is at most one record and it fits its length field |
| `ScanTlv.TwoRecords` | driver/morse_driver-1.16.4/hw_scan.c:837-839 | every scan command has at least two records |
| `ScanTlv.LongStepFails` | driver/morse_driver-1.16.4/hw_scan.c:997 | with two records or more, of any size, such a walk is wrong wherever it stops |
| `ScanTlv.EveryCommandMisread` | driver/morse_driver-1.16.4/hw_scan.c:978-998 | so it is wrong for every scan and scheduled scan command |
| `ScanTlv.CommandWalks` | driver/morse_driver-1.16.4/hw_scan.c:978-998 | in a built command the walk by headers finds the records exactly when they fit, and the walk by pointer size never does |
| `ScanTlv.PackedFields` | driver/morse_driver-1.16.4/hw_scan.c:211-231 | every field of a packed channel reads back, cut to its width |
| `ScanTlv.WidthsDecode` | driver/morse_driver-1.16.4/hw_scan.c:39-48 | the two width fields decode to the channel's width in MHz and to at most 2 MHz |
| `ScanTlv.PowerOfChannel` | driver/morse_driver-1.16.4/hw_scan.c:76-84 | a channel's word leads to the power list entry at the low six bits of its index, or to none |
| `ScanTlv.PlanReadsBack` | driver/morse_driver-1.16.4/hw_scan.c:399-402 | every scan plan reads back from its record |
| `ScanTlv.MatchSetReadsBack` | driver/morse_driver-1.16.4/hw_scan.c:360-373 | every match set reads back: threshold, BSSID and name |
| `ScanWire.SixBitsTell64` | driver/morse_driver-1.16.4/hw_scan.c:51-54 | whatever the list and the indices, at most 64 distinct powers can be recovered |
| `ScanWire.WireIsLossless` | driver/morse_driver-1.16.4/hw_scan.c:76-84 | from a list of the distinct powers every power is recovered if and only if there are at most 64 |
| `ScanWire.PackList` | driver/morse_driver-1.16.4/hw_scan.c:251-255 | every channel of the list with its frequency, width and power index |
| `ScanWire.PreparePowers` | driver/morse_driver-1.16.4/hw_scan.c:727-765 | from the channel list to the encoded command: the firmware recovers every channel's power if and only if there are at most 64 distinct powers |
| `ScanWire.ReadsScan` | driver/morse_driver-1.16.4/hw_scan.c:837-845 | walking a command by its headers finds exactly its channel and power records and, exactly when asked for, its home dwell and probe request |
| `ScanWire.ReadsSched` | driver/morse_driver-1.16.4/hw_scan.c:851-857 | walking a scheduled scan command finds its info and, exactly when given, its match sets and plans |
| `ScanWire.InfoReadsBack` | driver/morse_driver-1.16.4/hw_scan.c:428-429 | delay, threshold and dwell time read back |
| `ScanWire.BuildScan` | driver/morse_driver-1.16.4/hw_scan.c:1146-1155 | from a request to the bytes: walking them by headers and decoding gives back the channels of the list with frequency and width, the list being exactly what was asked for if and only if the room suffices, and every channel's power if and only if there are at most 64 |
| `ScanTlv.AddChannelList` | driver/morse_driver-1.16.4/hw_scan.c:240-265 | writes the channel record and nothing else, and returns its end |
| `ScanTlv.AddPowerList` | driver/morse_driver-1.16.4/hw_scan.c:274-291 | writes the power record and nothing else, and returns its end |
| `ScanTlv.AddBlock` | driver/morse_driver-1.16.4/hw_scan.c:300-336 | writes a header and one block (probe request, home dwell, scheduled scan info) |
| `ScanTlv.AddFilter` | driver/morse_driver-1.16.4/hw_scan.c:347-376 | writes the match sets, names padded by the zeros of the allocation |
| `ScanTlv.AddPlans` | driver/morse_driver-1.16.4/hw_scan.c:387-405 | writes the scan plans |
| `ScanTlv.InsertScanTlvs` | driver/morse_driver-1.16.4/hw_scan.c:837-845 | writes the records every scan has, one after the other |
| `ScanTlv.InsertSchedTlvs` | driver/morse_driver-1.16.4/hw_scan.c:851-857 | writes the records of a scheduled scan, one after the other |
| `ScanTlv.InsertTlvs` | driver/morse_driver-1.16.4/hw_scan.c:834-860 | writes all records of the command and ends right behind them |
| `ScanTlv.FlagsTell` | driver/morse_driver-1.16.4/command.c:2194-2210 | every flag is set exactly in its case, and a stored scan is not started |
| `ScanTlv.FixedPartReads` | driver/morse_driver-1.16.4/command.c:2212-2219 | flags and dwell time read back, and the length leads to the end exactly below 65536 bytes |
| `ScanTlv.InitHeader` | driver/morse_driver-1.16.4/command.c:65-76 | message id and length, untouched when the 16-bit length is below the header's |
| `ScanTlv.BuildCommand` | driver/morse_driver-1.16.4/command.c:2176-2219 | -ENOMEM, or a buffer of the computed size rounded to words with the fixed part, exactly the records behind it, and zeros in the rounding |
| `CoreFile.NoteRoundTrip` | driver/morse_driver-1.16.4/coredump.c:106-132 | a note parses back to its name, type and data if and only if both sizes fit 32 bits |
| `CoreFile.NotesAligned` | driver/morse_driver-1.16.4/coredump.c:115-116 | names, data and notes are aligned to words with less than a word of padding |
| `CoreFile.FilledExactly` | driver/morse_driver-1.16.4/coredump.c:158-193 | the payload never exceeds the computed size; it fills it exactly when every region is general and every nonempty one was read |
| `CoreFile.ClearOfHeaders` | driver/morse_driver-1.16.4/coredump.c:411-413 | the payload starts behind the program headers if and only if there are fewer than 65536 |
| `CoreFile.SegmentsApart` | driver/morse_driver-1.16.4/coredump.c:320-321 | segments follow one another without overlap |
| `CoreFile.SegmentsDisjoint` | driver/morse_driver-1.16.4/coredump.c:407-421 | no segment overlaps the header table, another segment or the end of the file |
| `CoreFile.HeaderMeans` | driver/morse_driver-1.16.4/coredump.c:305-321 | header i describes segment i and its bytes; headers past the last are unused |
| `CoreFile.EhdrFields` | driver/morse_driver-1.16.4/coredump.c:325-339 | every field of the ELF header reads back: a 32-bit little-endian RISC-V core file with its program headers right behind the header |
| `CoreFile.PhdrFields` | driver/morse_driver-1.16.4/coredump.c:305-312 | all eight fields of a program header read back |
| `CoreFile.LoadOfRegion` | driver/morse_driver-1.16.4/coredump.c:296-321 | every general region, in order, has a readable, writable and executable loadable segment at its start with what was read of it |
| `CoreFile.SelectsBack` | driver/morse_driver-1.16.4/coredump.c:415-421 | the note segments parse to the notes and the others are the regions read |
| `CoreFile.CoreReadsBack` | driver/morse_driver-1.16.4/coredump.c:373-421 | a reader that checks the ELF header and finds the table by e_phoff, e_phentsize and e_phnum gets exactly the segments, hence the notes and the region contents |
| `Coredump.NoteList.Append` | driver/morse_driver-1.16.4/coredump.c:106-132 | appends the note, name padded to whole words, or reports -ENOMEM |
| `Coredump.SizeOfRegions` | driver/morse_driver-1.16.4/coredump.c:158-173 | size and count of all regions, general or not |
| `Coredump.SizeOfNotes` | driver/morse_driver-1.16.4/coredump.c:175-193 | size and count of all notes |
| `Coredump.CopyRegion` | driver/morse_driver-1.16.4/coredump.c:305-318 | writes header and contents, or a header of size zero when the read fails |
| `Coredump.PlaceRegion` | driver/morse_driver-1.16.4/coredump.c:296-322 | one region extends the layout by its segment, or by none when it is not general |
| `Coredump.CopyMemoryRegions` | driver/morse_driver-1.16.4/coredump.c:286-323 | all regions in bounds; with fewer than 65536 headers the layout holds exactly the general regions |
| `Coredump.CopyNote` | driver/morse_driver-1.16.4/coredump.c:205-229 | writes a note's header and bytes over a zeroed file |
| `Coredump.PlaceNote` | driver/morse_driver-1.16.4/coredump.c:205-230 | one note extends the layout by its segment |
| `Coredump.CopyNotes` | driver/morse_driver-1.16.4/coredump.c:195-231 | all notes in bounds, each with its segment |
| `Coredump.Build` | driver/morse_driver-1.16.4/coredump.c:373-436 | for any regions, notes and failed reads every write is in bounds; with fewer than 65536 headers the file is laid out as its segments, and within 32-bit offsets it reads back as the regions read and the notes given |
| `Cac.RunsStayValid` | driver/morse_driver-1.16.4/cac.c:54-64 | in every run the threshold stays in 0..1023 and the period counter below 1000 |
| `Cac.LagFalls` | driver/morse_driver-1.16.4/cac.c:143-177 | every tick brings recovery at least one tick nearer |
| `Cac.SixtyQuietTicksRecover` | driver/morse_driver-1.16.4/cac.c:27-39 | from every reachable state under the default rules, sixty ticks without a counted frame end at 1023 |
| `Cac.FiftyNineTicksMayNotSuffice` | driver/morse_driver-1.16.4/cac.c:27-39 | sixty is the least such number: a run from the start after which fifty-nine do not suffice |
| `Cac.FirstRuleDecides` | driver/morse_driver-1.16.4/cac.c:108-141 | the change is that of the first deciding rule, with the limits spelled out; an increase applies only at the end of a period and below the maximum |
| `Cac.DefaultRulesMean` | driver/morse_driver-1.16.4/cac.c:27-39 | the change the default rules make for every number of frames |
| `Cac.TickMeans` | driver/morse_driver-1.16.4/cac.c:143-177 | a tick moves the threshold by that change within 0..1023, restarts the period whenever it ends or the threshold moves, and raises the threshold only at the end of a period |
| `Cac.FramesCounted` | driver/morse_driver-1.16.4/cac.c:41-52 | any authentication frames change only the count, by the number of first frames, in 16 bits |
| `Cac.SwitchingMeans` | driver/morse_driver-1.16.4/cac.c:222-305 | an access point is switched on at the maximum with the default rules; a station's state is left alone |
| `Cac.MoreFramesNeverRelax` | driver/morse_driver-1.16.4/cac.c:94-141 | under well-ordered rules more frames never give a larger change |
| `Cac.DefaultRulesWellOrdered` | driver/morse_driver-1.16.4/cac.c:27-39 | the default rules are well ordered |
| `Cac.PercentRoundTrip` | driver/morse_driver-1.16.4/cac.h:87-102 | scaling down and rounding back is the identity if and only if the scaled value fits 16 bits |
| `Cac.PercentScales` | driver/morse_driver-1.16.4/cac.h:88-91 | the value is the percentage of 1023 truncated toward zero |
| `Cac.RulesRoundTrip` | driver/morse_driver-1.16.4/command.c:300-350 | a list of rules is read back unchanged if and only if every change fits |
| `Cac.Controller.Init` | driver/morse_driver-1.16.4/cac.c:273-305 | enables once; an access point starts at the maximum with the default rules |
| `Cac.Controller.Deinit` | driver/morse_driver-1.16.4/cac.c:222-237 | disables and keeps everything else |
| `Cac.Controller.CountAuth` | driver/morse_driver-1.16.4/cac.c:41-52 | counts only the first frame of an authentication, in 16 bits |
| `Cac.Controller.ChangeThreshold` | driver/morse_driver-1.16.4/cac.c:54-64 | adds the change, held within 0..1023 |
| `Cac.Controller.FindChange` | driver/morse_driver-1.16.4/cac.c:108-141 | the change of the first deciding rule |
| `Cac.Controller.TimerWork` | driver/morse_driver-1.16.4/cac.c:143-177 | one tick of the run that the theorems are about |
| `Cac.Controller.CfgSet` | driver/morse_driver-1.16.4/command.c:323-350 | accepts one to eight rules, scaled; otherwise an error and no change |
| `Cac.Controller.CfgGet` | driver/morse_driver-1.16.4/command.c:300-321 | gives back exactly the rules that were set, if and only if they all fit, and zeros behind them |
| `Survey.ValidMeans` | driver/morse_driver-1.16.4/mac.c:2326-2342 | a valid table is a prefix of used slots in which no channel repeats |
| `Survey.ViewHas` | driver/morse_driver-1.16.4/mac.c:2380-2385 | every channel of the map is in some used slot |
| `Survey.ViewAt` | driver/morse_driver-1.16.4/mac.c:2380-2385 | every used slot is in the map with its usage |
| `Survey.ViewSize` | driver/morse_driver-1.16.4/mac.c:2305-2307 | there are as many channels as used slots |
| `Survey.Store` | driver/morse_driver-1.16.4/mac.c:2326-2342 | writing a channel's slot, or the first empty one, updates the map there and nowhere else |
| `Survey.TableIsTotals` | driver/morse_driver-1.16.4/mac.c:2317-2348 | after any additions at all each channel held has the sums of its listen and receive times modulo 2^64 and its latest noise, channels are missing only if the table is full, and a record without a frequency is none |
| `Survey.Table.Init` | driver/morse_driver-1.16.4/mac.c:2294-2315 | an empty table, or none and -ENOMEM |
| `Survey.Table.AddUsage` | driver/morse_driver-1.16.4/mac.c:2317-2348 | the map gains the record; it fails exactly when every slot holds another channel |
| `Survey.Table.GetRecord` | driver/morse_driver-1.16.4/mac.c:2371-2387 | finds a record exactly when the map has the channel, stopping at the first empty slot |

## Left out

- Crc16.MultModP: its precondition excludes a zero first argument, on which the source loop does not end; `Crc16.MultTerminatesIffNonzero` says so exactly.
- ScanLists.ScanParams.BuildPowers: a write past the end of the array is reported and changes nothing else in the model.
- ScanWire.BuildScan: stops where building the power list returned -EFAULT after overrunning its array; the source sends the command all the same.
- Coredump.Build: the reader that recovers the contents needs a file below 2^32 bytes, the reach of 32-bit offsets; the list of notes the driver fills in and the stop information are parameters.
- Coredump.CopyRegion: how a region is read from the chip (word rounding, register or bulk access) is a parameter that either yields the bytes or fails.
- CommandProtocol.CommandLink.ProcessResponse: events that are not responses, and a chip without a command queue, are not part of the model.
- The `aborted` flag of a scan completion, and the results of scheduled scans.
- When the timeout of a scan is due: the timeout work may fire whenever it is queued.
- Power save, bus claim and release, locks, timers, completions and buffers of the kernel, except as boundaries between steps, a count of completions and a pending slot.
- Building probe requests, the printing of a scan command, and the saved configuration of a scan.
- Inserting the authentication control element into frames.
- The bus layers, firmware download and reset, regulatory tables, rate control, data path, beacons, mesh, monitor mode and vendor commands: input and output, or single branches around code outside the repository.
