# Light Display show interpreter in Dafny

The Light Display utility drives up to 64 channels of Christmas lights from a
Raspberry Pi. A show file lists timed commands: `play`, `on`/`fade_in`,
`off`/`fade_out`, `mirror`, `unmirror`, `add`, `restart`, `end` and, in the
class-based version, `continue`. The interpreter has two versions:

- the legacy procedural `main` in `lightDisplay.cpp`, with 8 channels;
- the `light_display` class in `light_display.cpp`/`light_display.h`, with 64
  channels.

This project models both in one class, `Display.LightDisplay`. A `Variant`
(`Legacy` or `Refactored`) supplies the constants in which the two differ:

| constant | Legacy | Refactored |
|---|---|---|
| number of channel slots (MAX_CHANNELS) | 8 | 64 |
| mirror slots scanned for slaves | all 8 | currentChannels |
| the value a reset leaves in a mirror slot | 0 | -1 |
| the setter's initial remembered bank | 0 | -1 |
| command that overwrites the command register on `restart` | `end` | `restart` |

Two further behaviours differ:

- `continue` is an unknown opcode in the legacy version, which also never
  leaves its outer loop.
- Only the class resets its state after the night wait of `restart night`.

Modules:

- **`Pins`**: the GPIO protocol of one channel-setter call, as a log of
  `(pin, value)` writes. The protocol is enable off, the decoder address
  lines when the bank changed, the bank's 8 data pins, enable on. A ghost
  list of `Frame`s, one per call, explains the log.
- **`MirrorTable`**: the mirror table as a graph from slave to master. The
  setter recurses forever on a cycle it reaches, so it needs the table
  acyclic when it runs. A ghost rank (slaves rank below their master) witnesses that, and
  is also the setter's termination measure. `Reached` is the set of
  channels a setter call changes.
- **`Clock`**: one iteration of the command wait as a pure function over
  reals. The iteration adopts a fresh poll of the time file, extrapolates by
  the elapsed time, or pauses. It also holds the schedule test that involves
  `add` and the wait for a fresh timestamp after `play`.
- **`Night`**: the day-of-year fold and the night window of `restart night`.
- **`Show`**: the default `.show` extension, the opcodes, the loop
  conditions and the choice of the next show file. An opcode is a datatype;
  a token that is no opcode is kept as `Other(token)`, and the command
  register starts as `Other("start")`.
- **`Display`**: the class.
  - State: levels, mirror table, remembered bank, pin log, clock, `add`,
    line counter, restart mark, command register, file names and the lines
    reported as unknown.
  - The channel setter, `reset` and the command wait.
  - Opcode dispatch, `executeCommand`, a show's command loop and the outer
    loops of both versions.

The model follows the code where the code and its comments disagree. Each
discrepancy is stated in the model and proved:

- Every decoder bit is `bank % 2`, so only banks 0 and 7 get the right
  address (`Pins.DecoderBitsCollapse`).
- `continue` is not exempt from pause detection (`Clock.ContinueCanPause`).
- `reset` clears the levels without writing any pin
  (`Display.LightDisplay.Reset` has no `log` in its frame).
- `add` shifts the schedule, so a positive `add` delays the commands that
  follow it (`Clock.AddShiftsSchedule`).
- Under daylight-saving time the hour after midnight is never night
  (`Night.DstFirstHourNotNight`).


A show file must end with a command that stops the show; the file headers
demand this. Each `on` or `off` must meet a mirror table that is acyclic as
a whole, as the header of `channel_setter` demands (light_display.h:90-91).
That is stronger than what the setter needs. The setter only follows the
slaves of its target (light_display.cpp:282-286), so it runs through a
cycle it never reaches: the show `mirror 3 4`, `mirror 4 3`, `on 1`, `end`
works in the source but is not acceptable here. The table may change between
two `on`/`off` commands:
the show `mirror 2 1`, `unmirror 2`, `mirror 1 2`, `on 1` is accepted
(`Display.MirrorSwapAcceptable`). Each show starts from the empty table a
reset leaves, so two shows may mirror in opposite directions.

## Model

| member | source | states |
|---|---|---|
| Pins.BankOf | lightDisplay.cpp:252 | the bank of channel c is the b with 8b <= c-1 < 8b+8 |
| Pins.SelectedLatch | lightDisplay.cpp:257-262 | the latch the three written address bits select is 0 for even banks and 7 for odd ones |
| Pins.DecoderBitsCollapse | light_display.cpp:266-271 | banks of equal parity get identical address writes; bank 1 selects latch 7 and bank 2 selects latch 0 |
| Pins.FrameShape | lightDisplay.cpp:251-269 | a setter call's writes start with enable := 0, end with enable := 1, and carry the bank's whole 8-level word just before the end, with 3 address writes only when addressed |
| Pins.AddressedAt | lightDisplay.cpp:254-270 | in every recorded call, the address lines were driven exactly when its bank differed from the previous call's bank (or from the initial remembered bank) |
| MirrorTable.TwoWayMirrorCyclic | lightDisplay.cpp:243 | two channels mirroring each other admit no rank, so the table is not acyclic and the setter may not run on it |
| MirrorTable.RankedAfterEdit | light_display.cpp:140-151 | editing one mirror slot keeps a rank valid when the new master (if any) ranks above the slave |
| MirrorTable.ReachedRange | lightDisplay.cpp:271-275 | every channel a setter call reaches is a channel number |
| MirrorTable.ReachedTransitive | light_display.cpp:282-286 | whatever a reached channel reaches is reached too |
| MirrorTable.ReachedClosed | lightDisplay.cpp:271-275 | a scanned slave of a reached channel is reached |
| MirrorTable.ReachedSound | light_display.cpp:282-286 | a reached channel other than the target is a scanned slot whose master is reached |
| MirrorTable.ChainReached | lightDisplay.cpp:271-275 | for a mirror chain a -> b -> c, setting c reaches a, b and c |
| MirrorTable.NoSlavesOnlyTarget | light_display.cpp:282-286 | with no slave of c, setting c changes only c |
| MirrorTable.UnmirroredNotReached | light_display.cpp:146-151 | a channel whose slot holds no master (after `unmirror` or a reset) is never changed by setting another channel |
| Clock.StepBranch | light_display.cpp:86-101 | a known poll different from the adopted one is always adopted, and only such a poll is; otherwise a clock at least 0.6 s past the adopted poll pauses every command but `restart` and `end`, and a less stale one extrapolates; only that case pauses |
| Clock.Step | lightDisplay.cpp:151-166 | a known poll different from the adopted one is adopted, and the current time then equals it; the adopted value changes in no other way; otherwise the clock stands still exactly when it is at least 0.6 s past the adopted poll and the command is not `restart`/`end`, and advances by the elapsed time in every other case |
| Clock.AddShiftsSchedule | lightDisplay.cpp:145-201 | a command at offset s with accumulated add is due exactly when one at s + add would be with no add; raising add never makes a command due earlier |
| Clock.ExemptNeverPauses | lightDisplay.cpp:158 | `restart` and `end` never take the pause branch, and their extrapolation never moves the clock back |
| Clock.ContinueCanPause | light_display.cpp:93 | with a stale poll, `continue` pauses while `end` extrapolates |
| Clock.AdoptOnce | light_display.cpp:86-90 | after a poll is adopted, seeing the same poll again extrapolates from it |
| Clock.RunKeepsAnchor | lightDisplay.cpp:145-169 | with non-negative elapsed times, the current time never falls behind the last adopted poll |
| Clock.RunStaysNearPoll | light_display.cpp:80-104 | for a command that can pause, extrapolation never runs more than 0.6 s plus one step past the last adopted poll |
| Clock.ExemptRunAdvances | lightDisplay.cpp:156-166 | for `restart`/`end` with a stalled poll, the clock advances by exactly the total elapsed time |
| Clock.StalePollScenario | light_display.cpp:80-104 | a poll p seen at local times 0, 0.2, 0.4 and 0.7 is extrapolated to p + 0.7; the clock then pauses for `on`, keeps running for `end`, and adopts a new poll q at once |
| Clock.Wait | lightDisplay.cpp:145-169 | the number of samples the command wait uses: the first after which the command is due, or all of them, and the command was due after no fewer |
| Clock.WaitUnique | light_display.cpp:80-104 | any count with those two properties is the wait's count |
| Clock.AwaitFreshTimestamp | lightDisplay.cpp:176 | the wait after `play` stops at the first poll that is known and differs from the value seen before the track, and every earlier poll was not |
| Night.RealDayFold | light_display.cpp:324-333 | for days 0..365 the fold lies in 0..183 and equals the distance from day 11 folded at 183 |
| Night.NightWindows | light_display.cpp:334 | night ends between 4.69 and 7.74 and begins between 16.83 and 19.88; night holds exactly in [0, end] and [begin, 24]; midnight is night and noon is not |
| Night.DstFirstHourNotNight | light_display.cpp:328-334 | under daylight-saving time, 00:00 to 00:59 is never night |
| Night.AwaitNight | lightDisplay.cpp:304-323 | the night wait stops at the first local time that is night, and every earlier one was not |
| Show.WithDefaultExtension | lightDisplay.cpp:122-124 | the result has a `.`, extends the name, and equals the name exactly when the name already has a `.` |
| Show.DefaultExtensionIdempotent | light_display.cpp:184-186 | the rule is idempotent, and it appends exactly `.show` to a name without `.` |
| Show.TerminalCommands | light_display.cpp:175-202 | a show stops exactly after `end`, `restart` or (class only) `continue`; the class's outer loop continues unless `end`, the legacy one always continues |
| Show.Parse | light_display.cpp:106-166 | the dispatch chain's classification of a token: the opcode spelled by the token, and `Other` exactly when the token is no keyword |
| Show.ParseSpelling | lightDisplay.cpp:170-219 | classifying the spelling of an opcode gives that opcode back |
| Show.SelectShow | light_display.cpp:179-197 | the show argument is always cleared; the operator is prompted only when not restarting; the file has a `.` unless it is the previous file reused |
| Show.SelectShowLegacy | lightDisplay.cpp:117-134 | the operator is prompted only when not restarting and without an argument; the file has a `.` unless it is the previous file reused |
| Show.GivenNameUsedOnce | light_display.cpp:179-197 | across two passes, a name given to the class is used for the first show only; the next show reuses that file after `restart` and prompts otherwise |
| Show.NamelessSelection | light_display.cpp:179-187 | with no name given, the class chooses as the legacy loop does: it prompts exactly when not restarting, and reuses the previous file after `restart` |
| Show.ArgumentNamesEveryShow | lightDisplay.cpp:117-134 | across two legacy passes, an argument names both shows without a prompt; without one, the second reuses the first file after `restart` and prompts otherwise |
| Display.MirrorEdit | light_display.cpp:140-151 | a command changes a mirror slot only when it is the slave slot of `mirror`/`unmirror`, or when it is the class's `restart night` |
| Display.NoMasterRanked | light_display.cpp:55-58 | after a reset no slot names a master, so the table is acyclic under any rank |
| Display.RankKept | light_display.h:90-91 | every opcode keeps a rank valid when its `mirror` edits respect it |
| Display.MirrorSwapAcceptable | light_display.cpp:140-151 | the show `mirror 2 1`, `unmirror 2`, `mirror 1 2`, `on 1` meets an acyclic table at its `on` and is accepted |
| Display.ShowLength | light_display.cpp:202-205 | a show runs at most its script; every command before the last one run keeps it running, and the last one stops it unless the script ran out |
| Display.ShowLengthFrom | lightDisplay.cpp:138-220 | the same count for a show already at line i while still running |
| Display.RunsThroughLength | light_display.cpp:202-205 | line n - 1 can still be reached exactly when n is at most the show's length |
| Display.ShowEnds | light_display.cpp:202-205 | a show that stops after a terminal command, or runs out of script, has run exactly its length |
| Display.StoppedBy | light_display.cpp:202 | the stopping opcode, when there is one, is that of the show's last command, and it stops the show |
| Display.StoppedByStops | light_display.h:24-26 | a show has a stopping command exactly when some command of its script stops it |
| Display.ShowsSoFarNext | light_display.cpp:175-219 | one more pass of the class's outer loop keeps its file choice: the given name first, then the previous file after `restart` and the typed name otherwise, with no earlier show stopped by `end` |
| Display.LegacyShowsSoFarNext | lightDisplay.cpp:103-231 | one more legacy pass keeps its file choice: the argument every time, or without one the previous file after `restart` and the typed name otherwise |
| Display.SetterRunLevels | light_display.cpp:253-288 | a setter call sets exactly the reached channels to the level, records the target's own frame first, only appends frames, and remembers the bank of its last frame |
| Display.SlavesRunLevels | light_display.cpp:282-286 | the loop over the first i slots sets exactly the slaves reached through them, only appends frames, and remembers the bank of its last frame |
| Display.Dispatched | light_display.cpp:106-166 | the dispatch chain on the whole machine: only `on`/`off` record setter calls or move the bank, only they and the class's `restart night` change levels, and only `restart night` moves the line counter or the clock |
| Display.LineEffect | light_display.cpp:70-168 | one line on the whole machine: the record of setter calls only grows, the line is counted unless a night reset zeroes it, and nothing is recorded unless the line fires an `on`/`off` |
| Display.DispatchEffect | light_display.cpp:106-166 | the dispatch chain's effect stated field by field (levels, table, bank, frames, clock, polls, add, line, song, reports) is `Dispatched` |
| Display.CommandEffect | light_display.cpp:70-168 | executeCommand's effect stated field by field, with the wait's sample count, is `LineEffect` |
| Display.MachineAfter | light_display.cpp:202-205 | a sequence of lines run one by one: the record of setter calls only grows, and without a night reset every line is counted |
| Display.MachineAfterSnoc | light_display.cpp:202-205 | running one more line after a sequence is running it on the machine the sequence left |
| Display.MirrorNotRetroactive | light_display.cpp:140-151 | `on 1` then `mirror 2 1`, dispatched by executeCommand on a fresh class: channel 2 now names channel 1 as master yet stays off |
| Display.MirrorFollowsMaster | light_display.cpp:282-286 | `mirror 2 1` then `on 1`, dispatched by executeCommand on a fresh class: channels 1 and 2 are on, and the unmirrored channel 3 stays off |
| Display.LightDisplay.constructor | light_display.cpp:13-24 | all levels 0, every mirror slot empty, remembered bank initial, empty pin log, add 0, line 0, command "start", not restarting |
| Display.LightDisplay.BankWrites | lightDisplay.cpp:265-268 | the data writes are pin i := level of channel 8b+i+1 for i = 0..7, in order |
| Display.LightDisplay.WriteBank | light_display.cpp:260-281 | one channel's level changes and the log grows by exactly the frame of that call, addressed iff its bank differs from the remembered one |
| Display.LightDisplay.ChannelSetter | light_display.cpp:253-288 | levels, remembered bank and recorded frames are those of the depth-first `SetterRun`: one frame per call, the target's first, then each scanned slave's in slot order; the levels are the old ones with every reached channel at the level |
| Display.LightDisplay.SetSlaves | light_display.cpp:282-286 | levels, remembered bank and recorded frames are those of `SlavesRun`: the setter run on every scanned slave of the target, in slot order |
| Display.LightDisplay.Reset | light_display.cpp:52-68 | levels 0, mirror slots empty, initTime and prevTime are the two polls, line 0, add 0, currTime 0, command "start"; the pin log is not in its frame |
| Display.LightDisplay.AwaitDue | lightDisplay.cpp:145-169 | the clock after the wait is the clock run over the samples used; the command is then due or the samples ran out, and it was not due at any earlier sample |
| Display.LightDisplay.Dispatch | light_display.cpp:106-166 | on/off run the setter (levels, bank and frames as `SetterRun`); every other opcode leaves the pin log, bank and levels alone; mirror/unmirror edit one slot; add accumulates; restart marks and (night, class) resets; song, reports and register as the opcode says |
| Display.LightDisplay.DispatchRestart | light_display.cpp:126-134 | `restart` marks the restart and holds its stored opcode; `restart night` in the class resets levels, table, line, add and clock to the two polls; otherwise nothing else changes |
| Display.LightDisplay.DispatchRest | light_display.cpp:135-166 | `add` accumulates its seconds, `mirror`/`unmirror` edit the slave's slot, `end` and the class's `continue` do nothing, an unknown opcode reports its line |
| Display.LightDisplay.ExecuteCommand | light_display.cpp:70-168 | the line is counted; the wait uses the `Clock.Wait` samples, the command fires exactly when due after them, and the clock is that run; restart, song, reports, register, levels, pin log, bank, table and add change as the dispatched opcode says, and not at all when it did not fire |
| Display.LightDisplay.BeginShow | light_display.cpp:177-197 | reset (levels, table, line, add, clock from the two polls), then the file chosen by `Show.SelectShow`, restart cleared; pin log, bank, song and reports are outside its frame |
| Display.LightDisplay.BeginShowLegacy | lightDisplay.cpp:105-134 | reset (levels, table, line, add, clock from the two polls), then the file chosen by `Show.SelectShowLegacy`, restart cleared; pin log, bank, song and reports are outside its frame |
| Display.LightDisplay.ExecuteLine | light_display.cpp:204 | one line of an acceptable show: the whole machine (levels, table, bank, frames, clock, polls, add, line, song, reports) is `LineEffect` of the old one, it fires as `LineFires` says, an `on`/`off` sets the levels by `Assign` over the reached channels, and the register and restart mark are as executeCommand leaves them |
| Display.LightDisplay.ShowStep | light_display.cpp:202-205 | one pass of the show loop runs one line through `ExecuteLine`: it fires exactly as `LineFires` says, the loop's register, restart mark and table move on by that line, and the next line is still reachable |
| Display.LightDisplay.RunLines | light_display.cpp:202-205 | the command loop runs lines while the show runs; unless a wait stalls it stops at the script's end or after a stopping command, with the table and restart mark as the lines left them |
| Display.LightDisplay.RunShow | light_display.cpp:202-205 | unless a wait stalls, exactly `ShowLength` commands run; the register holds the last one's stored opcode, the table is as those lines left it, and, from an unset mark, the restart mark is set iff the last command was `restart` |
| Display.LightDisplay.RunSession | light_display.cpp:177-218 | the file is chosen by `Show.SelectShow`; a file that cannot be opened leaves the register at "start"; unless a wait stalls, the restart mark is set iff the show stopped on `restart`, and the register holds `end` iff it stopped on `end` |
| Display.LightDisplay.RunShows | light_display.cpp:175-219 | the outer loop runs shows until one stops on `end`, the sessions run out or a wait stalls; it records each show's file and stop |
| Display.LightDisplay.RunDisplay | light_display.cpp:171-222 | the loop ends exactly at the first show stopped by `end` (no earlier show was), and then everything is reset; the first file is the given name's and each later one is the previous file after `restart` and the typed name otherwise |
| Display.LightDisplay.RunSessionLegacy | lightDisplay.cpp:104-230 | the file is chosen by `Show.SelectShowLegacy`; unless a wait stalls, the show runs `ShowLength` commands and the restart mark is set iff it stopped on `restart` |
| Display.LightDisplay.RunLegacy | lightDisplay.cpp:103-231 | the legacy outer loop never leaves by itself: it runs every session unless a wait stalls; an argument names every file, and without one a show reuses the previous file after `restart` and prompts otherwise |

## Left out

- The hardware: wiringPi setup, `pinMode`, and what the writes do electrically.
  Pin writes are the `(pin, value)` log.
- Audio playback: `playsong`, `mpg123` and the music thread with its joins.
  `play` only records the song name.
- Reading `time.txt`, `clock()` and `time()`/`localtime`. The polls, elapsed
  times and local times are parameters. One iteration of the clock sees one
  poll, where the source reads the file up to three times.
- The busy waits have no termination guarantee in the source. They are
  searches over finite sequences of samples that may run out:
  - the pause wait;
  - the `play` wait (`Clock.AwaitFreshTimestamp`);
  - the night wait (`Night.AwaitNight`).
  A command wait that runs out of samples is reported as not fired.
- Logging, console output and the prompt. The prompt's answer is a parameter.
- Reading and tokenising the show file. A show is a list of `ScriptLine`s:
  the parsed command plus the samples and polls its execution consumes. A
  file that cannot be opened is `None`.
- A show file without a stopping command. At the end of such a file the
  source reads nothing new and dispatches its last command again, forever.
  `Display.SessionAcceptable` requires every file that opens to contain a
  stopping command, as the file headers demand. `RunShow` by itself still
  accepts a script that runs out, and then stops there.
- Floating point. Times and night constants are reals.
- Both correction constants are 0, as in the source.
- main.cpp.
- The lines of light_display.cpp that would not compile:
  - the `void` constructor;
  - `timeStamp` without a call;
  - a missing `;`;
  - `char*` plus string.
  The model follows their evident logic.
- Overflow of the `char` buffers. Commands are required to fit the 10-byte
  opcode buffer; the 30-byte song buffer is not modelled.
- Channel numbers outside 1..MAX_CHANNELS (out-of-bounds array accesses in
  the source). `Display.WellFormed` requires them to be in range.
- A mirror cycle met by `on` or `off`: the setter recurses until the stack
  overflows. `Display.ShowAcceptable` requires the whole scanned table to
  be acyclic at every `on`/`off`, as the header demands. This also rejects
  a show whose cycle the setter never reaches (`mirror 3 4`, `mirror 4 3`,
  `on 1`, `end`), which the source runs through. Between two `on`/`off`
  commands the table may hold a cycle.
- ExecuteLine: the whole-machine effect (`LineEffect`) is stated here and
  per command by `ExecuteCommand`, tied together by `Display.CommandEffect`.
- ShowStep: does not pass on `ExecuteLine`'s whole-machine clause
  (`Snapshot() == LineEffect(...)`); it keeps only whether the line fired,
  the register, restart mark and table. With that clause the calling loop's
  proof exceeds the resource limit.
- RunLines: the loop carries only the register, restart mark, mirror table
  and reachability, not the whole-machine state after n lines
  (`Display.MachineAfter`); with it the loop's proof exceeds the resource
  limit.
- RunShow: likewise states the register, restart mark and table after the
  show, not the levels, pin log, clock, `add`, line, song or reports
  (`Display.MachineAfter` defines them).
