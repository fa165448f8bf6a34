# A verified model of PiBot's control core

PiBot drives a small robot and a stepper arm from a host agent over a serial or I2C link. This Dafny
project models the parts of it that carry hard promises and proves those promises for all inputs and
all runs:

- **The wire protocol** (`Text`, `Crc`, `SeqNumbers`, `Codec*`, `Framing`, `Echo`, `Firmware*`). The
  CRC-8 loop is tied to polynomial division over GF(2), and from that come the error classes it always
  detects. Encoding and decoding are inverse, frames survive any cutting of the byte stream and the
  32-byte zero-padded I2C blocks, and the C++ tokenising parser reads what the host wrote.
- **The drive gate** (`DriveSafety`, `DriveLaws`, `DriveAcceptance`, `Controller`, `Sequence*`). The latch, the
  clamp, the rate limit and the deadman as timed steps with safety over whole runs, and exactly what gets
  through; replies routed by 8-bit sequence number; the scripted sequencer that must keep the deadman fed.
- **The arm** (`Trajectory*`, `ArmGate`, `ArmManager`, `ArmTelemetry`, `Programs`, `ProgramLaws`,
  `ProgramRunner`, `Runner*`). Trapezoidal ramps, the joint gate, board routing and the telemetry
  cache, the nested-loop program language, and the abortable runner interleaved with e-stops.
- **Sizing** (`TubeSizing`, `JointSizing`, `CadDimensions`, `MotorChoice`). The tube bisections, the
  distal-mass table and the choice of motor and gear, over exact reals.
- **Files and fan-out** (`Toml*`, `Fanout*`). The TOML writer against a reader of the emitted subset, and
  the drop-oldest queues of the camera broker and the video relay.

Code that changes state step by step is a class or a method with loops, proved against a specification
function; the laws are lemmas about those functions. Wire bytes are characters below 256; floats are
reals; time is an argument of each step.

`dafny verify dfyconfig.toml` checks everything.

## Where the code does less than its documentation

- A program run aborted during its last step reports "completed", although the step was cut short; only a
  Cartesian move the gate turns down after the abort makes it "failed"
  (`RunnerLaws.AbortInLastStepReportsCompleted`, exact for every phase; `EstopWhileSolvingFails`;
  `CutShortReportsCompleted` is an example).
- An `estop` sent as an ordinary command goes on the wire but latches nothing on the host: in every run the
  latch is set if and only if a trip came after the last resume (`DriveLaws.LatchedIffTripped`,
  `OnlyTripsStopMotion`; `SubmittedEstopDoesNotLatch` is an example).
- Host-generated stops are numbered by their own counter, so the acknowledgement of one resolves another
  command's caller: in every run, exactly when a recent caller waits under that number whose entry no older
  caller has popped (`Controller.HostStopAckMisleadsIff`; `HostStopAckMisleads` is an example).
- A caller that gives up late pops whatever stands under its number, so a newer caller's reply is then lost;
  in every run, exactly so (`Controller.ReplyResolvesExactly`; `ReplyIsLost` is an example).
- A message does not survive the wire exactly when it sets something that is not sent in the place of its own
  name, such as an argument outside the schema, or when a text argument is one that `int()` or `float()`
  accepts (`CodecRoundTrip.RoundTrip`; `UnknownArgumentIsLost` and `NumericTextIsReadAsNumber` are examples).
- A played sequence does not notice a latched e-stop at a step that is neither a motion nor an `estop`: it
  aborts exactly if a held motion is repeated next, or a motion or `estop` still to come is reached, and
  otherwise runs on and returns 0 (`SequenceLaws.LatchedSequenceEnds`; `LatchGoesUnnoticed` is an example).
- A telemetry cycle that raises loses the angles it has drained from all boards, so a board that raises every
  cycle freezes the cached angles of the others: exactly the angles whose last report was drained by a raising
  cycle are stale (`ArmTelemetry.CacheIsLastAngle`, `RaisingFreezes`; `DrainedAngleIsLost` is an example).
- A `moveJ` to a pose that leaves out a joint with cached telemetry fails the run although the gate accepts
  it (`RunnerLaws.MoveJStartsIff`).
- The tube search returns 500 mm without an error when even 500 mm is inadequate
  (`TubeSizing.StressOdIsLeast`; `InadequateTubeIsReturned` is an example).
- `size_joint` caps the reported speed by the step-rate ceiling but not by the motor's top speed: it exceeds
  the latter exactly when both target and ceiling do (`MotorChoice.OverspeedIff`, `FullSpeedIffFastPair`;
  `OverspeedIsReportedAsReached` is an example).
- The TOML writer takes JSON string escaping for a subset of TOML's. It is not beyond U+FFFF, where JSON
  uses surrogate pairs; the emitted file then cannot be read (`TomlLaws.DumpsRoundTrips`, exact condition).
- Two flipped bits 127 or a multiple of 127 positions apart leave the CRC unchanged
  (`Crc.DoubleErrorsDetected`).

## Model

| member | source | states |
|---|---|---|
| Crc.HostCrc8 | pibot/protocol/codec.py:90-97 | the host's loop, whose register is wider than a byte and kept to one by masks, computes the byte-wide checksum of every payload |
| Crc.FirmwareCrc8 | firmware/pibot_esp32/protocol.cpp:7-16 | the firmware's loop computes the checksum of the first `len` bytes |
| Crc.CrcIsTheRemainder | pibot/protocol/codec.py:90-97 | a byte is the CRC of the data if and only if it is a remainder of data(x)·x^8 by x^8+x^2+x+1 over GF(2) |
| Crc.OddErrorsDetected | pibot/protocol/codec.py:90-97 | payloads of equal length that differ in an odd number of bits never share a CRC |
| Crc.BurstErrorsDetected | pibot/protocol/codec.py:90-97 | payloads that differ only within eight consecutive bits never share a CRC |
| Crc.DoubleErrorsDetected | pibot/protocol/codec.py:90-97 | flipping two bits leaves the CRC unchanged if and only if their distance is a multiple of 127 |
| Crc.PeriodsAre127Multiples | pibot/protocol/codec.py:90-97 | shifting the register brings every value back exactly after multiples of 127 steps |
| CodecIntegrity.OddCorruptionRejected | pibot/protocol/codec.py:214-221 | a valid frame with an odd number of payload bits flipped, marker and CRC field intact, is rejected by decode |
| CodecIntegrity.BurstCorruptionRejected | pibot/protocol/codec.py:214-221 | a valid frame whose payload is damaged only within eight consecutive bits is rejected by decode |
| CodecIntegrity.PairCorruptionRejected | pibot/protocol/codec.py:214-221 | a valid frame with two payload bits flipped fewer than 127 positions apart is rejected by decode |
| CodecIntegrity.DecodeChecks | pibot/protocol/codec.py:160-177 | decoding any marked line, whatever its CRC field holds, compares that field with the payload's checksum after the encoding check |
| CodecIntegrity.PayloadVerdict | pibot/protocol/codec.py:222-236 | a payload is understood exactly if it has two pieces, the first a number of 0 to 255, and as many more as its name's schema, neither fewer nor more; then number, name and arguments, each under its name and with the type its text reads as, else the reason in the source's order |
| SeqNumbers.SeqTracker.Next | pibot/protocol/codec.py:107-110 | the k-th number handed out is k mod 256 |
| SeqNumbers.SeqTracker.Observe | pibot/protocol/codec.py:112-122 | classifies a number against the last one seen and remembers it |
| SeqNumbers.NoComplaintIffConsecutive | pibot/protocol/codec.py:112-122 | a stream of numbers draws no complaint if and only if each is the successor mod 256 of the one before |
| SeqNumbers.ComplaintAt | pibot/protocol/codec.py:112-122 | a repeated number is a duplicate, any other that is not the successor is out of order |
| CodecRoundTrip.RoundTrip | pibot/protocol/codec.py:186-236 | decoding the encoding of any message that has its schema's arguments, and no separator in what is sent, succeeds; it gives the same message if and only if nothing is set that is not sent, every argument stands in the place of its own name (in the schema, or arg0, arg1, … without one), and no text is one that int() or float() accepts |
| CodecRoundTrip.DecodesAsRead | pibot/protocol/codec.py:137-236 | exactly what comes back for any such message: only what is sent, schema arguments in schema order, others named by position, each read as an int, else a float, else text |
| CodecRoundTrip.UnknownArgumentIsLost | pibot/protocol/codec.py:190-193 | an example: a stop command with an argument is decoded without it |
| CodecRoundTrip.EncodesToOneLine | pibot/protocol/codec.py:186-198 | every such message, carriable or not, encodes to exactly one newline-terminated line |
| Framing.FrameBuffer.Feed | pibot/transport/base.py:24-25 | appends the bytes to the buffer |
| Framing.FrameBuffer.NextFrame | pibot/transport/base.py:27-34 | pops the first complete frame if there is one, keeps every other byte, and leaves the frames still to come unchanged |
| Framing.ChunkingIsIrrelevant | pibot/transport/base.py:24-34 | the frames received depend on the bytes alone, not on where the stream was cut |
| Framing.Reassembly | pibot/transport/base.py:24-34 | whole frames, cut anywhere, come back as they were |
| Framing.I2CTransport.Send | pibot/transport/i2c.py:61-70 | writes the 32-byte slices of the frame in order; a bus fault at block k leaves exactly the first k blocks written and closes the link |
| Framing.I2CTransport.Recv | pibot/transport/i2c.py:72-92 | one receive call against any script of bus reads returns, consumes and buffers what its specification says, faults and deadlines included |
| Framing.RecvConserves | pibot/transport/i2c.py:72-92 | a receive call loses and invents no byte: buffered plus read bytes are the returned frame plus what stays buffered |
| Framing.PumpReturnsLines | pibot/transport/i2c.py:72-92 | repeated receive calls return exactly the lines of the delivered bytes, however the blocks fall |
| Framing.BlockReassembly | pibot/transport/i2c.py:61-92 | zero-free frames cut into padded blocks anywhere, empty polls included, come back whole |
| Framing.SentBlocksArrive | pibot/transport/i2c.py:61-92 | end to end: the blocks Send writes for zero-free frames fit 32 bytes, and padded and read back they are those frames |
| Echo.StreamDelivers | pibot/transport/base.py:24-34 | any list of carriable messages, its bytes cut anywhere, arrives as exactly that list |
| Echo.BlocksDeliver | pibot/transport/i2c.py:65-88 | the same through zero-padded 32-byte blocks and empty polls |
| Echo.EchoResponder.Feed | pibot/control/echo.py:31-37 | returns the answers to the frames completed by the chunk, in order, and keeps the incomplete rest and the telemetry count |
| Echo.EchoResponder.HandleFrame | pibot/control/echo.py:39-58 | the answers to one frame and the telemetry numbers used up |
| Echo.ConversationIgnoresChunking | pibot/control/echo.py:31-37 | for arbitrary bytes the peer's concatenated output does not depend on how they were cut |
| Echo.CommandsAcknowledged | pibot/control/echo.py:39-58 | for commands the peer owes one ACK each, in order, and telemetry with consecutive numbers after the pings only |
| Echo.AnswersAreRead | pibot/control/echo.py:39-58 | what the other end decodes from the answer to any frame: one NAK with the reason for an undecodable one, nothing for what is no command, an ACK of the command's number, and numbered battery telemetry after a ping |
| Firmware.ParseCommand | firmware/pibot_esp32/protocol.cpp:18-71 | on any line without NUL the in-place parser accepts, rejects with the same reason, and fills the command as a specification over token lists says; which lines that accepts is FirmwareIntegrity.LineVerdict |
| Firmware.Tokenise | firmware/pibot_esp32/protocol.cpp:48-71 | reads sequence number, truncated name and at most four arguments from the scratch buffer's tokens |
| Firmware.StrTok | firmware/pibot_esp32/protocol.cpp:48-66 | finds the next token by overwriting its comma with NUL, and resumes at what follows |
| Firmware.ReadArgs | firmware/pibot_esp32/protocol.cpp:66-68 | the values of the first four remaining tokens |
| FirmwareAgreement.FirmwareAgrees | firmware/pibot_esp32/protocol.cpp:18-71 | a host-encoded schema command with integer arguments is accepted if and only if its payload is under 96 bytes, and then parser and host decoder read the same number, full name and arguments |
| FirmwareAgreement.AtofReadsPoint | firmware/pibot_esp32/protocol.cpp:66-68 | an argument written as digits with a point is read as the integer of all the digits, the point moved left by as many places as stood after it |
| FirmwareIntegrity.LineVerdict | firmware/pibot_esp32/protocol.cpp:18-63 | any line: "marker" or "frame" without a leading > or a star; else its payload is refused exactly if its CRC over GF(2) is not what the last field says, it is over 95 bytes, or it has fewer than two non-empty pieces, in that order |
| FirmwareIntegrity.TokensAreThePieces | firmware/pibot_esp32/protocol.cpp:48-66 | strtok's tokens are the non-empty pieces between commas |
| FirmwareIntegrity.OddCorruptionRefused | firmware/pibot_esp32/protocol.cpp:31-37 | an accepted line with an odd number of payload bits flipped is refused with "crc" |
| FirmwareIntegrity.BurstCorruptionRefused | firmware/pibot_esp32/protocol.cpp:31-37 | so is one whose payload is damaged only within eight consecutive bits |
| FirmwareIntegrity.PairCorruptionRefused | firmware/pibot_esp32/protocol.cpp:31-37 | and one with two payload bits flipped fewer than 127 positions apart |
| DriveSafety.EStop.Trip | pibot/control/safety.py:72-73 | latches |
| DriveSafety.Watchdog.Feed | pibot/control/safety.py:95-96 | restarts the deadman window at the current time |
| DriveSafety.AgentSafety.Submit | agent/safety.py:49-62 | the latch, rate and clamp checks in the source's order decide; an accepted frame goes out clamped and feeds the deadman, a refused one changes nothing; what clamped means is DriveAcceptance.AcceptedFrame |
| DriveSafety.AgentSafety.TripEstop | agent/safety.py:69-72 | latches and puts a stop on the wire in the same step |
| DriveSafety.AgentSafety.Resume | agent/safety.py:74-75 | clears the latch and nothing else |
| DriveSafety.AgentSafety.Tick | agent/safety.py:77-80 | stops the robot once when the deadman has expired |
| DriveLaws.ClampIsWithinLimits | pibot/control/safety.py:40-59 | every clamped drive, servo or motor frame is inside the limits |
| DriveLaws.ClampIdempotent | pibot/control/safety.py:40-59 | clamping twice is clamping once |
| DriveAcceptance.ClampsToNearest | pibot/control/safety.py:36-59 | a command is clamped exactly if its arguments are there and numeric; each goes to itself or the end of its range on its side, a pwm to its whole part; kind, name, number and id stay |
| DriveAcceptance.InRangePassesUnchanged | pibot/control/safety.py:40-59 | a command within the limits passes unchanged |
| DriveAcceptance.OutcomeIs | agent/safety.py:49-62 | the outcome by condition: motion refused while latched, then within the minimum interval of the last motion, then incomplete commands raise, else sent |
| DriveAcceptance.AcceptedFrame | agent/safety.py:49-62 | an accepted command appends exactly one client frame with those arguments at that time, the command itself if within limits; any other appends none |
| DriveAcceptance.MotionAcceptedIff | agent/safety.py:49-62 | in every run a complete motion command is accepted if and only if no trip came after the last resume and no motion frame on the wire is younger than the minimum interval |
| DriveAcceptance.HostStopsFit | agent/safety.py:69-87 | in every run the host's own stops are stop commands numbered in turn, and the ticker sends one only after more than the deadman window without a frame, and not after a stop |
| DriveLaws.EveryMotionFrameIsSafe | agent/safety.py:49-67 | in every run every motion frame on the wire is inside the limits and any two are at least the minimum interval apart |
| DriveLaws.TripHolds | agent/safety.py:69-75 | every trip puts a stop on the wire at once and no motion frame follows it before the next resume |
| DriveLaws.LatchedIffTripped | agent/safety.py:49-80 | in every run the latch is set if and only if a trip came after the last resume, whatever is submitted |
| DriveLaws.OnlyTripsStopMotion | agent/safety.py:49-75 | a motion command is refused as stopped exactly then; in a run without a trip never, estop commands notwithstanding |
| DriveLaws.SubmittedEstopDoesNotLatch | agent/safety.py:49-72 | an example of that: a submitted estop command is sent, and a drive command right after it is accepted |
| DriveLaws.DeadmanFires | agent/safety.py:77-87 | with ticks at most P apart, after any frame other than a stop another frame is on the wire within the deadman window plus P |
| DriveLaws.TicksDoNotSpam | agent/safety.py:77-87 | tick-generated stops never outnumber the accepted non-stop commands by more than one |
| Controller.TransportController.Submit | agent/control.py:86-101 | takes the next number, registers the caller and sends in one step; a refused command leaves no waiting caller |
| Controller.TransportController.OnFrame | agent/control.py:118-133 | a reply resolves the waiting caller registered under its number, if any, and nothing else |
| Controller.TransportController.OnTimeout | agent/control.py:98-101 | a timeout cancels its caller only; a late timer, firing after the reply but before its caller resumes, discards that reply where the runtime does so and has no effect otherwise |
| Controller.TransportController.OnWake | agent/control.py:98-101 | a resumed caller leaves the table, taking along whatever stands under its number |
| Controller.ReplyResolvesExactly | agent/control.py:118-133 | in every run a reply resolves caller c if and only if c is still waiting, is among the last 256 submissions, used the reply's number, and no older caller with that number has popped its entry since |
| Controller.ReplyFrameResolves | agent/control.py:118-133 | an encoded ACK or NAK read from the link has exactly the effect of that reply |
| Controller.NothingMisrouted | agent/control.py:86-133 | in every run, reused numbers included, a timely reply (to a command within 256 submissions, to a host stop while no recent caller waits under its number) resolves nobody but the caller it answers |
| Controller.RepliesReachTheirCallers | agent/control.py:86-133 | a reply that comes within 256 submissions of its command resolves that command's caller if and only if it still waits and its entry was not popped, and nobody else; no entry is popped in runs that never reuse the number of a command in flight |
| Controller.ResolvedOnce | agent/control.py:118-133 | in any run whatsoever no caller is resolved twice |
| Controller.HowCallsEnd | agent/control.py:98-101 | an answered caller returns its reply, an unanswered one ends by its timer, and a late timer decides as the runtime has it |
| Controller.AnswersAreOwn | agent/control.py:86-133 | whatever a caller gets back is the reply to its own command, in every run, reused numbers included, whose replies to commands come within 256 submissions and whose host stops are acknowledged only while no recent caller waits under their number |
| Controller.HostStopAckMisleadsIff | agent/safety.py:82-87 | in every run a host stop's acknowledgement changes anything if and only if one of the last 256 callers waits under its number with its entry not popped, and then that caller takes it for its own |
| Controller.HostStopAckMisleads | agent/safety.py:82-87 | an example of that: the acknowledgement of the first host stop resolves the first command's caller |
| Controller.ReplyIsLost | agent/control.py:98-101 | an example of a lost reply: caller 0 gives up after its number has come round again and takes caller 256's entry along |
| Sequence.LoadSequence | pibot/control/sequence.py:47-64 | the items' times, commands and arguments, sorted by time with equal times in file order, or an error exactly when some item is malformed |
| Sequence.Play | pibot/control/sequence.py:86-121 | through any rounds of the scheduler the dispatch log, the exit code and the gate's state are what the round-by-round specification says; what of it reaches the wire is SequenceDelivery.EntriesReachTheWire |
| SequenceLaws.PlaysInOrder | pibot/control/sequence.py:98-121 | each step is first dispatched once, in time order and not before its time; only the motion last dispatched is repeated; nothing is sent after an aborting reply |
| SequenceLaws.LatchedSequenceEnds | pibot/control/sequence.py:82-121 | how a sequence ends that finds the gate latched, and not resumed: aborted if and only if the held motion is repeated in the next round, or a motion or estop is still to come before any command the gate cannot encode; failed if such a command comes first; otherwise completed, every remaining step having gone through |
| SequenceLaws.LatchGoesUnnoticed | pibot/control/sequence.py:82-121 | an example: a ping sequence played to a latched gate completes |
| SequenceDelivery.EntriesReachTheWire | pibot/control/sequence.py:74-121 | in every run each acknowledged dispatch has its own client frame on the wire, at its time and in order, with the step's name and arguments, clamped and unchanged if within limits; with no other client active there is no other client frame |
| SequenceDelivery.HowItEnds | pibot/control/sequence.py:74-121 | a sequence ends failed only at a step that lacks an argument or has one that is no number, and aborted only with the gate latched |
| SequenceDelivery.CompleteStepsNeverFail | pibot/control/sequence.py:74-121 | so a sequence of complete, numeric steps never ends failed |
| SequenceLaws.DeadmanNeverExpires | pibot/control/sequence.py:115-119 | while the current step is a motion the deadman does not expire before the next round if keepalive gap plus minimum motion interval is at most the deadman window, rejected keepalives notwithstanding |
| Sorting.SortIsStable | pibot/control/sequence.py:64 | sorting keeps the elements of each key in their original order |
| Trajectory.SampleTimes | pibot/arm/trajectory.py:41-53 | the sampling loop terminates with the multiples of the period below the end, and the end itself, or the error for a non-positive time or rate |
| Trajectory.TimesIncrease | pibot/arm/trajectory.py:41-53 | sample times start at zero, strictly increase and end at the requested time |
| Trajectory.SamplesAreSpaced | pibot/arm/trajectory.py:41-53 | samples are one period apart, the last at most that and a nanosecond after the one before |
| Trajectory.ProgressIsMonotoneAndLipschitz | pibot/arm/trajectory.py:56-71 | progress goes from 0 to 1, never falls and is Lipschitz with constant 1/(seconds·(1−accel_fraction)), so continuous across its pieces |
| Trajectory.ProgressIsSymmetric | pibot/arm/trajectory.py:56-71 | p(t) + p(T−t) = 1 |
| Trajectory.ProgressAcceleratesGently | pibot/arm/trajectory.py:56-71 | the curve starts and ends at rest and never accelerates by more than 1/(ta·(T−ta)): it departs from its tangent by at most half that times the time squared, and its speed changes at most that times the time |
| Trajectory.JointTrajectory | pibot/arm/trajectory.py:74-103 | succeeds exactly when start and goal cover the same joints and the parameters are in range, and then returns the sampled ramp |
| TrajectoryLaws.RampIsSmooth | pibot/arm/trajectory.py:74-103 | the returned frames lie on a path whose progress runs from 0 to 1, never back, at bounded rate, with positive later time steps |
| TrajectoryLaws.StepsSumToDuration | pibot/arm/trajectory.py:94-103 | the time steps add up to the requested seconds |
| TrajectoryLaws.LastIsGoal | pibot/arm/trajectory.py:94-103 | the last target is exactly the goal |
| TrajectoryLaws.AlwaysBetween | pibot/arm/trajectory.py:94-103 | every commanded angle lies between start and goal |
| TrajectoryLaws.SpeedBound | pibot/arm/manager.py:158-169 | no segment commands a joint faster than its distance times the Lipschitz constant |
| TrajectoryLaws.TravelIsDistance | pibot/arm/manager.py:158-169 | per joint, speed times dt adds up to exactly the distance from start to goal |
| TrajectoryLaws.PlaybackNeverFails | pibot/arm/manager.py:142-169 | playing a ramp never reaches an error branch whenever it is aborted; unaborted it sends one motion per joint and segment and sleeps exactly the requested time |
| TrajectoryLaws.FullPlaybackCount | pibot/arm/manager.py:142-169 | unaborted playback sends exactly (number of sampling intervals) × (number of joints) motions |
| TrajectoryLaws.GatedPlaybackWithinLimits | pibot/arm/safety.py:148-175 | played towards a gate-clamped goal from inside the limits, every commanded angle is inside them |
| ArmGate.GateIsSafe | pibot/arm/safety.py:85-146 | a request gets through if and only if its joint is configured, nothing is latched unless it stops a joint, and absolute moves are homed; then every number is itself or the end of its range on its side, and safe requests pass unchanged |
| ArmGate.Move | pibot/arm/safety.py:148-175 | the loop returns the clamped targets or the reason of the first joint, in request order, that has a problem |
| ArmGate.MoveIsSafe | pibot/arm/safety.py:148-175 | a synchronized move is accepted if and only if nothing is latched, the time is positive and every joint is configured, homed and has telemetry; then each target is the nearest value inside its joint's limits |
| ArmManager.LinearJointMap | pibot/arm/manager.py:48-55 | the nested loops list the boards' channels in order |
| ArmManager.LinearMapIsBijective | pibot/arm/manager.py:48-55 | the map is a bijection between joints 0..n−1 and (board, channel) slots, with the board offset plus channel as inverse |
| ArmManager.Open | pibot/arm/manager.py:61-79 | a manager with nothing sent, or the ValueError exactly when a joint or the gripper is on a board without a transport |
| ArmManager.Manager.Send | pibot/arm/manager.py:106-108 | appends one command to one board and keeps every board's numbers consecutive mod 256 whatever the interleaving |
| ArmManager.Manager.JMove | pibot/arm/manager.py:110-121 | one command on the joint's own slot, or the IndexError with nothing sent |
| ArmManager.MotionsReachTheirSlots | pibot/arm/manager.py:106-121 | each board is sent exactly the motions of its own joints, in order, as jmove commands with the channel, the angle as deg, the speed as dps and consecutive numbers |
| ArmManager.Manager.Broadcast | pibot/arm/manager.py:202-215 | exactly one command per board |
| ArmManager.BroadcastReachesAll | pibot/arm/manager.py:202-215 | every board is sent the order once, with its own next number |
| ArmManager.Manager.MoveSynchronized | pibot/arm/manager.py:123-140 | commands for the joints in order up to the first that has no current angle, speeds scaled to arrive together |
| ArmManager.Manager.RunTrajectory | pibot/arm/manager.py:142-169 | for every abort behaviour the commands sent, the time slept and the outcome are those of frame-by-frame playback |
| ArmManager.SegmentVerdict | pibot/arm/manager.py:162-167 | a segment stops at its first joint that cannot be moved, a KeyError if it is missing from the frame before and an IndexError if the arm does not have it; those before it were sent |
| ArmManager.PlaysThroughIff | pibot/arm/manager.py:142-169 | unaborted playback goes through if and only if every later frame has positive time and only joints that the frame before has and the arm has |
| ArmTelemetry.Drain.Positions | pibot/arm/manager.py:218-249 | one cycle yields for each joint the freshest angle of its slot and nothing for silent boards, or raises; undecodable frames are skipped; the gripper follows what was taken, up to the frame that raises |
| ArmTelemetry.GripperIsLast | pibot/arm/manager.py:239-245 | the gripper state is what the last grip frame said |
| ArmTelemetry.Drain.Turn | agent/app.py:347-370 | a failed cycle keeps the cache, any other merges into it |
| ArmTelemetry.CacheIsLastAngle | agent/app.py:347-370 | over any cycles, if boards report all their channels, the cache holds for each joint the last angle drained if the cycle that drained it did not raise, and otherwise what it held before that cycle; nothing for a joint never drained |
| ArmTelemetry.CacheIsLastAngleUnlessRaised | agent/app.py:347-370 | so it holds the last angle drained wherever no raising cycle took a joints frame from the board |
| ArmTelemetry.RaisingFreezes | agent/app.py:358-363 | while every cycle raises, whichever board is to blame, no cached angle changes |
| ArmTelemetry.DrainedAngleIsLost | pibot/arm/manager.py:227-249 | an example: an angle drained from board 0 is lost because board 1 sends a frame that cannot be converted |
| ArmTelemetry.CommandsAndTelemetryAgree | pibot/arm/manager.py:110-112 | the angle reported on the channel a joint's commands go to is the angle that joint gets |
| Programs.StepDict | pibot/arm/programs.py:91-105 | the dictionary of a step, nested steps included |
| ProgramLaws.ProgramRoundTrip | pibot/arm/programs.py:159-178 | whatever from_dict accepts is well formed and from_dict(as_dict(p)) is p |
| ProgramLaws.WellFormedRoundTrip | pibot/arm/programs.py:107-178 | every well-formed program is accepted from its own dictionary, unchanged |
| ProgramLaws.ExpandIsFlat | pibot/arm/programs.py:185-192 | expansion yields no loop and has the length given by products over loops and sums over bodies |
| ProgramLaws.ExpandIsNonEmpty | pibot/arm/programs.py:138-192 | an accepted step expands to at least one step |
| ProgramLaws.FlatMeansNested | pibot/arm/programs.py:180-192 | executing the flat list has the same effect, for any effect and failure behaviour of steps, as interpreting the nested loops |
| ProgramRunner.ArmAgent.OnEstop | agent/app.py:620-624 | latches and sets the abort flag before anything is sent |
| ProgramRunner.ArmAgent.OnRunRequest | agent/app.py:1020-1040 | refused while a run is on or without a program; otherwise clears the abort flag and starts the flattened program |
| ProgramRunner.ArmAgent.OnTick | agent/app.py:747-936 | the runner's next step, from loading to the last segment, has the specified effect on the whole agent state; what each step sets in motion is in RunnerEffects |
| ProgramRunner.ArmAgent.RunTop | agent/app.py:892-926 | stops, completes or begins the next step |
| ProgramRunner.ArmAgent.BeginJoints | agent/app.py:757-777 | gates a joint move and samples its ramp, or fails the run |
| ProgramRunner.ArmAgent.RunSegment | agent/app.py:774-780 | sends one segment unless aborted; a finished move becomes the cached position |
| RunnerEffects.RequestBeginsRun | agent/app.py:1020-1040 | an accepted request clears the abort flag and begins the unrolled program at step 1; any other changes nothing |
| RunnerEffects.ToolStepSends | agent/app.py:864-870 | a tool step sets exactly one thing in motion: the tool on if the step says on, else off |
| RunnerEffects.GripStepSends | agent/app.py:857-863 | a grip step sends its angle, or the nearer of 0 and 180 |
| RunnerEffects.BadStepFails | agent/app.py:829-871 | a step without what it needs, with an unknown pose or of an unknown kind fails the run and sends nothing |
| RunnerEffects.WaitTakes | agent/app.py:747-754 | unaborted, a wait of d seconds takes exactly the number of steps whose sleeps, of 0.05 seconds or what is left, add up to d, and starts nothing |
| RunnerEffects.SegmentIsSent | pibot/arm/manager.py:155-169 | an unaborted segment sends every joint of its frame to the frame's angle, at the speed that covers the distance in the frame's time |
| RunnerEffects.MoveJPlays | agent/app.py:757-780 | an unaborted joint move sends one segment per sampling interval; their times add up to the step's seconds, the last one sends every joint of the pose to the nearest angle its limits allow, and those angles are then the cached positions |
| RunnerEffects.SolvedFramesArePlayed | agent/app.py:799-822 | a Cartesian move that is not refused plays the solver's frames, towards the last of them |
| RunnerEffects.MoveIsFinished | agent/app.py:774-822 | a move played to its end makes its goal the cached angles of its joints and leaves the other joints' alone |
| RunnerLaws.AbortedRunStartsNothing | agent/app.py:874-936 | after an e-stop or stop request in mid-run that run starts no step, segment, grip or tool send whatever arrives, clear_estop included, and is over after two more of its own steps |
| RunnerLaws.OnlyUnabortedTicksStart | agent/app.py:743-744 | in every state only the runner's own step starts anything, and only while neither latch nor abort flag is set |
| RunnerLaws.AbortedRunReports | agent/app.py:787-926 | whatever events follow the abort, the run ends with the status its phase and the state at its next own step determine; until then only latch, homed joints and cached angles can change |
| RunnerLaws.AbortInLastStepReportsCompleted | agent/app.py:892-926 | a run aborted in any phase reports failed if and only if it was solving a Cartesian move that is then refused; otherwise completed if and only if its last step had begun, and else stopped at the step begun last, or at step 1 before any |
| RunnerLaws.EstopWhileSolvingFails | agent/app.py:787-836 | an e-stop still latched when a Cartesian move has been solved ends the run as failed at that step, the last one included |
| RunnerLaws.CutShortReportsCompleted | agent/app.py:892-926 | an example from start-up: an e-stop inside a program's only step, and the run reports completed |
| RunnerLaws.SteadyStep | agent/app.py:874-936 | every event keeps: steps 1..current begun once each in order; current never falls within a run and never exceeds the unchanged total |
| RunnerLaws.EveryRunIsSteady | agent/app.py:874-936 | from start-up, over any events with accepted programs, current_step is at most total_steps and a completed run began every step |
| RunnerLaws.MoveJStartsIff | agent/app.py:757-777 | a joint move starts if and only if the gate accepts it and the pose covers exactly the cached joints; otherwise the run fails |
| RunnerLaws.MoveJStaysWithinLimits | agent/app.py:757-780 | whatever happens meanwhile, a move begun inside the limits never fails and commands only angles inside them |
| TubeSizing.RequiredTubeOd | pibot/arm/sizing.py:275-294 | for any wall, moment and limit, negative and zero ones included, the hundred-step loop returns the upper end of the bisection bracket for the section modulus, or stops at a zero division |
| TubeSizing.RequiredTubeOdForStiffness | pibot/arm/sizing.py:314-335 | likewise for the second moment of area, twice the wall when no limit applies |
| TubeSizing.TubeDimension | pibot/arm/sizing.py:455-491 | the larger of the two diameters, governed by deflection when that one is strictly larger, for any wall; or the zero division of either search |
| TubeSizing.BisectionFindsLeast | pibot/arm/sizing.py:287-294 | for any upward-closed requirement the bisection's result is adequate if and only if the largest value is, and exceeds no adequate value by more than (hi−lo)/2^n |
| TubeSizing.SectionModulusGrows | pibot/arm/sizing.py:283-285 | the section modulus strictly increases with the diameter, solid or hollow |
| TubeSizing.SecondMomentGrows | pibot/arm/sizing.py:324-326 | the second moment strictly increases with the diameter |
| TubeSizing.StressOdIsLeast | pibot/arm/sizing.py:275-294 | the bending stress at the returned diameter is within the limit if and only if it is at 500 mm; the diameter is least up to (0.5−lo)/2^100; if even 500 mm fails the result is 500 mm |
| TubeSizing.InadequateTubeIsReturned | pibot/arm/sizing.py:275-294 | an example: 500 mm comes back although the stress is above the limit there |
| TubeSizing.StiffnessOdIsLeast | pibot/arm/sizing.py:306-335 | the same for the cantilever droop |
| TubeSizing.LinkMeetsBothLimits | pibot/arm/sizing.py:484-488 | the maximum of the two keeps both stress and droop within limits if and only if 500 mm does, and is least up to the same resolution among diameters that do |
| JointSizing.DistalMasses | pibot/arm/sizing.py:418-434 | the loop builds the table defined by the shift recurrence: own link, then the next motor and table shifted by the link length, the payload last |
| JointSizing.ParallelAxis | pibot/arm/sizing.py:159-169 | shifting all loads changes mass, moment and inertia as the parallel-axis theorem says |
| JointSizing.LoadShrinksTowardsTip | pibot/arm/sizing.py:418-434 | for non-negative masses and lengths neither gravity moment nor inertia ever grows from base to tip |
| JointSizing.StaticTorqueShrinks | pibot/arm/sizing.py:159-164 | so a gravity-loaded joint never needs less static torque than any joint beyond it |
| MotorChoice.SizeJoint | pibot/arm/sizing.py:509-608 | candidates, choice, margin and achievable speed from the arm's own table, or the error for an empty catalogue, a zero divisor, or a link section that cannot be computed |
| CadDimensions.Section | pibot/arm/sizing.py:455-491 | whether the link's section is found or an error raised, tube or bar, and the tube's diameter |
| CadDimensions.TubeSizedIff | pibot/arm/sizing.py:275-335 | with a wall that is not negative, a tube is found if and only if none of the divisors is zero where it is used: safety factor, stiffness ratio, allowable stress, modulus |
| CadDimensions.TubeHolds | pibot/arm/sizing.py:455-491 | the tube bears bending moment × structural factor × safety factor within yield and droops at most length/ratio if and only if a 500 mm tube does, and is least up to the search's resolution among those that do |
| MotorChoice.AdequateIffCovered | pibot/arm/sizing.py:544-567 | adequate if and only if some catalogue pair covers the torque, and then margin at least 1; the choice is lexicographically smallest among the fast covering pairs, else among the covering ones, else closest |
| MotorChoice.AdequateIffBurdenHeld | pibot/arm/sizing.py:509-567 | adequate if and only if some motor's usable torque through some gear holds the safety factor times gravity and acceleration of everything beyond the joint; and then the chosen pair does |
| MotorChoice.MarginOverBurden | pibot/arm/sizing.py:580-581 | margin × safety factor × that burden is the chosen motor's usable torque through the chosen gear |
| MotorChoice.AchievableSpeed | pibot/arm/sizing.py:572-608 | the reported speed needs no more than the step-rate ceiling and is the target if and only if the target does not |
| MotorChoice.OverspeedIff | pibot/arm/sizing.py:547-608 | the reported speed exceeds the chosen motor's top speed if and only if the target does and the step-rate ceiling lies above that top speed too |
| MotorChoice.FullSpeedIffFastPair | pibot/arm/sizing.py:544-608 | an adequate joint reaches its target speed within both limits if and only if some catalogue pair covers the torque and is fast enough |
| MotorChoice.OverspeedIsReportedAsReached | pibot/arm/sizing.py:547-608 | an example: an arm with one joint, motor and gear is adequate at full target speed with the motor at five times its top speed |
| Toml.Output.EmitTable | pibot/tomlio.py:58-87 | appends exactly the table's lines, or reports the TypeError if and only if something in it cannot be written |
| Toml.Dump | pibot/tomlio.py:37-41 | the document's text, or the TypeError if and only if somewhere in the mapping stands a value of an unknown type, or a None or a mapping as an item of an inline list |
| Toml.RenderValue | pibot/tomlio.py:98-111 | the text of any value, or none if and only if it is or holds an unknown type, a None or a mapping |
| TomlText.StringReads | pibot/tomlio.py:105-107 | a JSON-escaped string reads back as itself if it has no character beyond U+FFFF, and not at all otherwise |
| TomlText.ValueReads | pibot/tomlio.py:98-111 | every written value, nested arrays included, reads back as itself under the same condition |
| TomlText.LineReads | pibot/tomlio.py:75-95 | every emitted key/value line and header, bare and quoted keys, reads back as that line under the same condition |
| TomlLaws.EmitFills | pibot/tomlio.py:58-87 | a table's lines read into an empty table fill it with what the table means and touch nothing else; sub-tables of array elements land in the right element |
| TomlLaws.DumpsRoundTrips | pibot/tomlio.py:37-95 | a nested mapping is refused under exactly that condition; otherwise reading the emitted text rebuilds it with None dropped, if no written key or string has a character beyond U+FFFF, and fails if one has |
| TomlLaws.EmojiIsLost | pibot/tomlio.py:105-107 | a one-string document that cannot be read back |
| Fanout.Hub.Subscribe | agent/video.py:53-57 | a new empty queue at the end of the list, and the subscribing step of the run-level model |
| Fanout.Hub.Unsubscribe | agent/video.py:59-62 | removes that queue only, an unknown one being ignored: the unsubscribing step of the model |
| Fanout.Hub.Push | agent/video.py:89-93 | delivers to the subscribed queues and no others, each dropping its oldest when full: the publishing step of the model |
| Fanout.Hub.Take | agent/video.py:53-62 | a subscriber gets its queue's oldest frame, or none: the taking step of the model |
| Fanout.CameraBroker.Capture | agent/video.py:81-93 | frame i of the stream carries number i |
| Fanout.VideoRelay.OnMessage | pibot/mc/video_relay.py:60-86 | one upstream message has the specified effect on the pending header and on what is pushed |
| FanoutLaws.QueuesAreFaithful | agent/video.py:53-93 | over any interleaving of subscribing, unsubscribing, publishing and taking each queue is the newest frames since the last one taken, the frames taken are frames of the stream at strictly increasing positions, and taken, queued and dropped add up to offered |
| FanoutLaws.ReadersAreIndependent | agent/video.py:53-93 | what a reader holds, took and lost is what it would be without any other reader |
| FanoutLaws.CompleteUnlessDropped | agent/video.py:89-93 | a reader misses nothing exactly when nothing was dropped for it, always so without a size limit |
| FanoutLaws.RelayPushesPairs | pibot/mc/video_relay.py:68-86 | what the relay pushes is, in order, headers with the first body that follows each: no header twice, none with another's body |
| FanoutLaws.EveryPairIsPushed | pibot/mc/video_relay.py:68-86 | every header followed by a body with neither in between is pushed if the connection is open |

## Left out

- Floating-point rounding, infinities and NaN: reals throughout; `math.pi` is the constant to 15 digits.
- The JSON wire encoding, `tomllib`, YAML and `asyncio` themselves.
- Float arguments on the wire keep the text `repr` gives them; which tokens `float()` accepts is modelled, the number it makes of one is not.
- Python's `int()`, `float()` and `strip()` beyond ASCII, integers of more than 4300 digits, and booleans as message arguments.
- FirmwareAgreement.FirmwareAgrees: host-encoded integer commands only; the C++ CRC field parse is looser than the host's, so arbitrary frames need not agree. Exponents, "inf" and "nan" in `atof` and the 16-bit `int` of AVR boards are not modelled.
- Send failures inside the arm manager and the drive gate; the link is taken to accept what is sent.
- Controller.RepliesReachTheirCallers: a reply that comes 256 or more submissions after its command, or acknowledges a host stop while a recent caller waits under its number, may be misrouted; `HostStopAckMisleadsIff` shows that the latter is needed.
- CodecRoundTrip.RoundTrip: a name or text with a comma or newline in it, a NAK reason with a newline or a final carriage return, a number outside 0–255 and a missing schema argument (which is an error) are outside the law.
- SequenceLaws.DeadmanNeverExpires: rounds at most the keepalive gap apart, the clock ideal and what other clients do in between left free.
- TrajectoryLaws.GatedPlaybackWithinLimits: moveJ only; a Cartesian move discards the gate's clamped targets, and its interpolation and inverse kinematics are a parameter of the runner.
- ArmTelemetry.CacheIsLastAngle: for boards that report all their channels, and drain writes only. A read that raises is treated like a frame that cannot be converted.
- RunnerLaws.AbortedRunStartsNothing: states what is begun; a send already handed to a worker thread may still finish, and the firmware's own latch is not shown. A run request is one step, and storage failures while loading poses are left out.
- ProgramRunner.ArmAgent.OnTick: program names, messages and timestamps of the reported status are not part of the state, and a test for the abort flag may fall between any two steps.
- Programs.StepDict: `str()` of non-strings and `float()`/`int()` of strings are parameters of the reader.
- TubeSizing.LinkMeetsBothLimits: wall thickness, modulus and allowable stress positive, and a wall thin enough for the search range to be non-empty; outside that the search's result is specified, but not that it is least.
- MotorChoice.OverspeedIff: gear ratio and steps per motor revolution of the chosen pair positive.
- MotorChoice.SizeJoint: the CAD texts, driver currents and notes are not part of the result.
- CadDimensions.Section: of a rectangular bar only whether its roots exist, not their value; the motor's mounting pattern and the pulley diameters, which cannot fail, are left out.
- TomlLaws.DumpsRoundTrips: against a reader for the emitted subset (parents before children, one space around "="); float tokens are kept as text, lone surrogates are not characters here, non-string keys are left out.
- Fanout.Hub.Take: waiting for a frame is left out; an empty queue answers at once.
- The Arduino and STM32 copies of the C++ parser are the same text as the ESP32 one, which is modelled.
- HTTP and WebSocket handlers, provisioning, storage, the network scanner, teleoperation maps and the user interface: input/output or thin wrappers that would only add easy members.
