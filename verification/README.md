# Verification model of the servo firmware

This project models the algorithmic cores of a brushless servo controller firmware and proves properties of them with
Dafny 4.11. `dafny verify dfyconfig.toml` checks everything.

## What is modelled

- **BiSS-C encoder frames** (`BitStrings`, `Crc6`, `Crc6Algebra`, `BisscExtract`, `BisscFrames`, `BisscOutcomes`): the
  batched start-bit scan, the multiply trick, the table CRC and the whole frame extraction as loops over a byte
  buffer, each proved equal to a bit-by-bit reference; the round trip with an encoder; and exactly which wire errors
  the CRC reports.
- **From DQ voltage to PWM** (`Foc`, `VoltageControl`) and the **current limits** (`CurrentLimits`,
  `CurrentOutcomes`), over exact reals. Sine and cosine are any pair with `s*s + c*c <= 1` (`== 1` where an inverse is
  claimed), and the square root is any non-negative `r` with `r*r == x`.
- **The trajectory planner** (`TrajectoryPlanner`, `PlannerOutcomes`, `PositionCommand`, `PositionLoop`,
  `CommandOutcomes`): the acceleration choice, the three sub-planners and the whole command update, as specification
  functions and as methods that update the status in place.
- **Output position** (`OutputUnwrap`, `Homing`, `OutputPosition`, `OutputOutcomes`): the wrapped 64-bit position as
  integers reduced by `Wrap64`, the quantised encoder readings, latching, and homing to a reference.
- **Hall sensors** (`HallTracking`): from three lines to a count, from counts to a position in the motor.
- **The mode machine** (`ServoModes`, `ServoControl`, `ServoOutcomes`): every interrupt and main-loop call as one
  step, over every interleaving; the hardware, the operator and the control laws' outcomes are inputs of the steps.
  `ServoControl` holds the same steps as methods on the servo's fields.
- **Serial transport** (`UartFramer`, `Crc8`, `FdcanusbText`, `FdcanusbServer`, `LineOutcomes`, `UartTransmitter`,
  `PrintedLines`) and the **two-transport multiplexer** (`TransportMux`, `MuxOutcomes`) with the two ports that feed
  it: DMA, peers and the configuration are the callers, so every order of arrivals and of servers that come and go is
  covered.
- **Flash writing** (`DoubleWord`, `FlashWriter`, `FlashCoalescer`, `FlashOutcomes`, `CoalescerOutcomes`) with a flash
  that refuses to program a word that is not erased.
- **I2C timing** (`I2cTiming`).

Code that the firmware runs step by step is modelled as methods on arrays and class fields, each equal to a
specification function; the main results are lemmas about those functions, over all inputs and all runs. The modules
named after outcomes say, for every input, what a whole operation leaves behind, in terms of that input.

## What the proofs found

- The voltage-DQ command limits d and q separately, so a command in a corner of that square is clipped by the bridge
  (`VoltageControl.SquareCanClip`, and `VoltageControl.VoltageDqEverywhereIff` for exactly which commands); the
  current loop limits to the disc and never clips.
- In exact reals the planner at rest stays where it is for ever, not done, if and only if the target is closer than
  `a*dt*dt` (`TrajectoryPlanner.RestStallsIff`). The firmware's rounding of positions hides this.
- The velocity bound of the trapezoid planner needs `a*dt <= 2*limit` (or a limit of zero); a coarser step leaves the
  band (`TrajectoryPlanner.CoarseStepLeavesBand`).
- The velocity-limited planner gives a target up when less than one cycle's travel is left and does not move on, so a
  move to a fixed target ends short of it by up to `velocity_limit*dt` (`PlannerOutcomes.ArrivesShort` says by how
  much).
- Without limits and target, the first cycle from an unset control position uses the motor's captured velocity and not
  the commanded one (`CommandOutcomes.FirstFreeCycleIsTheMotors`).
- The difference between absolute and relative position is published before homing changes the absolute one, so for
  the one cycle that homes it is out of date (`OutputOutcomes.DifferenceLagsHoming`).
- Homing with a reduction that does not divide a turn can leave the encoder's own angle behind
  (`Homing.EncoderAngleKeptIff`, and `Homing.TwoFifthsLosesAngle` for one); only the commutation path checks for a
  whole-number reduction.
- The hall position uses the C remainder, so a large negative offset can make the intermediate remainder -5; a forward
  move of two sectors is then taken for four back (`HallTracking.AcceptTracksIff` says exactly when,
  `HallTracking.FollowsEveryRunIff` for which configurations it can happen).
- Two wire errors 63 bit positions apart pass the CRC-6, which takes an encoder of 56 data bits or more
  (`BisscFrames.TwoFlipsReported`).
- A line with an empty payload and a checksum is refused as "missing data", while the same line without a checksum is
  delivered as long as checksums are not mandatory; after that an empty payload cannot be sent at all
  (`FdcanusbServer.FrameArrivesIff`).
- With both aux ports serial, aux1's UART server displaces aux2's, which keeps its pending read and write and is no
  longer polled. When aux1 is configured again, aux2's server is handed back, and the multiplexer starts a read on it
  that is still pending: the server's assert fires (`TransportMux.ReadAssertFires` is the shortest such run,
  `TransportMux.WriteAssertFires` one for writes). `TransportMux.RunStopsIff` says exactly which runs end like that,
  and `TransportMux.WithoutReturnNeverStops` and `TransportMux.OnePortNeverStops` that no others do.
- The comment on the fault mode says that the output stage loses power at once and the driver stays enabled. The code
  keeps regulating zero current while the cooldown counter is above `cooldown_brake`, and disables the driver in the
  first cycle that finds the counter at zero; the model follows the code (`ServoModes.PowerGoesOff` says exactly how
  long, `ServoModes.FaultedStillPowered` is a servo that is faulted and powered).
- With field weakening disabled its filtered current is still added to the d current while it decays, without a limit
  code (`CurrentLimits.SuccessMeansRequestIff`, and `CurrentLimits.FilterIsAdded` for a cycle that does it).
- Error code 3 of the I2C search cannot occur (`I2cTiming.NoHighError`). The search also refuses inputs for which
  registers exist that meet every bound of the bus: exactly those where the low time's share of the cycle does not fit
  its field (`I2cTiming.SuccessIffFeasible`, and `I2cTiming.SlowBusIsRefused` for an input).
- The bootloader's shadow word starts at zero after reset and at all ones after each flush, so the unwritten bytes of
  the first word collected are programmed as zeros, and only those (`FlashWriter.BlankAroundIff`,
  `FlashWriter.FirstUpdateLeavesZeros`). The configuration store's shadow always starts at zero
  (`FlashCoalescer.SessionStores`). It does not look at the outcome of programming, so bytes written over words that
  are in use are lost without a failure (`CoalescerOutcomes.UsedWordsAreSpared`).

## Model

| member | source | states |
|---|---|---|
| `Crc6.LookupIsDivision` | moteus-r4-parent/fw/bissc_extract.h:64-76 | every entry of the 64-entry table is the remainder of its index times x^6 modulo x^6 + x + 1 |
| `Crc6.LookupStep` | moteus-r4-parent/fw/bissc_extract.h:109-125 | one lookup continues the bit-serial register over six more message bits |
| `Crc6.ComputeBisscCrc` | moteus-r4-parent/fw/bissc_extract.h:87-126 | the table CRC, with its ten or five lookups, is the bit-serial CRC of the message; leading zeros, and so the skipped lookups, do not matter for any message of up to 60 bits |
| `Crc6Algebra.CrcIsRemainder` | moteus-r4-parent/fw/bissc_extract.h:78-80 | a value is the CRC of a message if and only if it is the remainder of the message times x^6 on division by x^6 + x + 1 |
| `Crc6Algebra.RemainderIsUnique` | moteus-r4-parent/fw/bissc_extract.h:78-80 | that remainder is unique, so the statement above pins the CRC down |
| `Crc6Algebra.CrcIsLinear` | moteus-r4-parent/fw/bissc_extract.h:87-126 | the CRC of the XOR of two messages is the XOR of their CRCs |
| `Crc6Algebra.SyndromeChecks` | moteus-r4-parent/fw/bissc_extract.h:327-337 | message and check bits together divide evenly exactly when the check bits are the CRC of the message |
| `Crc6Algebra.BurstIsCaught` | moteus-r4-parent/fw/bissc_extract.h:334-345 | any non-zero error confined to six consecutive bits has a non-zero syndrome |
| `Crc6Algebra.OrderIs63` | moteus-r4-parent/fw/bissc_extract.h:78-80 | x has multiplicative order exactly 63 modulo the polynomial |
| `Crc6Algebra.TwoBitsCaught` | moteus-r4-parent/fw/bissc_extract.h:334-345 | two flipped bits have a non-zero syndrome if and only if their distance is not a multiple of 63 |
| `BisscExtract.GatheredValue` | moteus-r4-parent/fw/bissc_extract.h:57-62 | the multiplication by 0x08040201 collects one bit of each of four samples, most significant first |
| `BisscExtract.FindHighAligned` | moteus-r4-parent/fw/bissc_extract.h:160-186 | the scan of four samples at a time with count-trailing-zeros finds the sample that scanning one by one finds |
| `BisscExtract.FindStartBit` | moteus-r4-parent/fw/bissc_extract.h:138-186 | for every buffer, alignment and search limit the result is the first high sample after the first low one, or -1 |
| `BisscExtract.ExtractDataBits` | moteus-r4-parent/fw/bissc_extract.h:191-234 | batches of four plus a remainder collect exactly the bits of the line, in 32 or 64 bits, with nothing shifted out |
| `BisscExtract.ExtractCrcBits` | moteus-r4-parent/fw/bissc_extract.h:241-273 | the six CRC bits come out inverted and in order |
| `BisscExtract.ComputeFrameCrc` | moteus-r4-parent/fw/bissc_extract.h:331-334 | the word built from data, error and warning is the payload bit string, and its CRC is the CRC of that string |
| `BisscExtract.FillFrame` | moteus-r4-parent/fw/bissc_extract.h:336-359 | which result fields are set on a mismatch and on success, with and without debug fields |
| `BisscExtract.ExtractBisscFrame` | moteus-r4-parent/fw/bissc_extract.h:288-360 | on every buffer, alignment, pin and width the extraction equals the bit-by-bit reference decoder, including both early errors |
| `BisscFrames.StartIsFound` | moteus-r4-parent/fw/bissc_extract.h:135-137 | a frame whose START bit lies in the search window is found at that bit |
| `BisscFrames.RoundTrip` | moteus-r4-parent/fw/bissc_extract.h:276-287 | idle, ACK, START, CDS, data, error, warning and inverted CRC decode to exactly the data and flags that were encoded |
| `BisscFrames.AcceptedFramesCheck` | moteus-r4-parent/fw/bissc_extract.h:315-345 | no frame is accepted unless it fits the buffer and its CRC matches |
| `BisscFrames.ErrorIsReported` | moteus-r4-parent/fw/bissc_extract.h:327-345 | an error pattern on the wire is reported as a CRC mismatch if and only if its syndrome is not zero |
| `BisscFrames.BurstIsReported` | moteus-r4-parent/fw/bissc_extract.h:327-345 | every corruption within six consecutive data, status or CRC bits is reported, single flips included |
| `BisscFrames.TwoFlipsReported` | moteus-r4-parent/fw/bissc_extract.h:327-345 | two flips are reported if and only if they are not 63 positions apart |
| `BisscOutcomes.AnyCapture` | moteus-r4-parent/fw/bissc_extract.h:288-360 | for any capture at all, noise included: no START bit among the first 25 samples, a frame that is cut off, a CRC that does not match, or a frame with exactly the data bits and active-low flags behind the START bit; what is reported in each case, field by field, with nothing read into a frame that is not accepted and both CRCs in the debug fields whenever they are stored |
| `BisscOutcomes.StartIsUnique` | moteus-r4-parent/fw/bissc_extract.h:135-186 | there is at most one START bit: the first high sample behind a low one |
| `Foc.InverseIsParkThenClark` | moteus-r4-parent/fw/foc.h:93-142 | the combined inverse transform equals inverse Park followed by inverse Clark |
| `Foc.ForwardIsClarkThenPark` | moteus-r4-parent/fw/foc.h:78-131 | the combined forward transform equals Clark followed by Park |
| `Foc.DqRoundTrip` | moteus-r4-parent/fw/foc.h:78-102 | forward after inverse is the identity on every DQ vector when sine and cosine are exact |
| `Foc.SomeAngleIsApart` | moteus-r4-parent/fw/foc.h:93-102 | a DQ vector that is too long for the row of the first two phases has an angle at which those phases are further apart than the bound |
| `Foc.PhaseRoundTrip` | moteus-r4-parent/fw/foc.h:78-102 | inverse after forward is the identity on balanced phases |
| `VoltageControl.RateIsUsable` | moteus-r4-parent/fw/bldc_servo_control.h:123-174 | the PWM window keeps some voltage range exactly when the sampling time is at most a quarter of the period |
| `VoltageControl.CenteringRealises` | moteus-r4-parent/fw/bldc_servo_control.h:750-768 | min/max centring keeps every phase-to-phase voltage |
| `VoltageControl.UnclippedIff` | moteus-r4-parent/fw/bldc_servo_control.h:750-768 | centring yields three duties inside the PWM range if and only if the phase spread fits the usable voltage, and only then does the clamp change nothing |
| `VoltageControl.LimitedVoltage` | moteus-r4-parent/fw/bldc_servo_control.h:1009-1022 | the limited vector lies in the disc of the maximum voltage, keeps signs, never grows, and gives d priority over q |
| `VoltageControl.DiscFits` | moteus-r4-parent/fw/bldc_servo_control.h:366-367 | a DQ vector of at most max_V in any direction has a phase spread that fits the bridge |
| `VoltageControl.NoClipping` | moteus-r4-parent/fw/bldc_servo_control.h:1009-1022 | end to end, at every angle and for either output sign: limit, inverse transform and centring give duties inside the range, the clamp is the identity, and the phase-to-phase voltages are the commanded ones |
| `VoltageControl.SignTurnsTorque` | moteus-r4-parent/fw/bldc_servo_control.h:770-787 | measured at the motor, the output sign turns the q voltage and leaves the d voltage |
| `VoltageControl.VoltageDqUnclippedIff` | moteus-r4-parent/fw/bldc_servo_control.h:795-815 | for the voltage-DQ command, which limits d and q separately: it reaches the motor unclipped if and only if the phase spread of what it drives fits the usable voltage |
| `VoltageControl.VoltageDqEverywhereIff` | moteus-r4-parent/fw/bldc_servo_control.h:795-815 | it does so at every angle if and only if the squared length of the limited vector, times 9/4 + k^2 for the decimal k of the transform, is at most the squared usable voltage |
| `VoltageControl.VoltageDqInDisc` | moteus-r4-parent/fw/bldc_servo_control.h:795-815 | it does so at every angle in particular when the two limited axes together lie in the disc of the maximum voltage |
| `VoltageControl.SquareCanClip` | moteus-r4-parent/fw/bldc_servo_control.h:795-815 | limiting d and q separately admits a command that the bridge clips |
| `VoltageControl.NearestInSquare` | moteus-r4-parent/fw/bldc_servo_control.h:795-815 | the command limited on each axis is, on both axes, the nearest to the one asked for of all those within the square |
| `VoltageControl.PwmStage.DoPwmControl` | moteus-r4-parent/fw/bldc_servo_control.h:739-745 | the stored duties are the clamped ones |
| `VoltageControl.PwmStage.DoBalancedVoltageControl` | moteus-r4-parent/fw/bldc_servo_control.h:750-768 | the stored duties are the clamped centred ones |
| `VoltageControl.PwmStage.DriveLimited` | moteus-r4-parent/fw/bldc_servo_control.h:1009-1022 | limiting, transforming and driving in place stores duties that realise the limited voltages |
| `CurrentLimits.PositionShrinks` | moteus-r4-parent/fw/bldc_servo_control.h:831-859 | the position-bound stage never flips the sign or grows the magnitude, and reports itself exactly when it changes the current; how much it must take away is `CurrentOutcomes.PositionLeaves` |
| `CurrentLimits.VelocityShrinks` | moteus-r4-parent/fw/bldc_servo_control.h:861-877 | the same for the velocity stage |
| `CurrentLimits.EffectiveMaxBounds` | moteus-r4-parent/fw/bldc_servo_control.h:879-904 | the effective maximum current lies between zero and the configured maximum |
| `CurrentLimits.PowerLimited` | moteus-r4-parent/fw/bldc_servo_control.h:980-1000 | the power stage scales both currents so that the power is at most, and when it acts exactly, the limit |
| `CurrentLimits.ChainIsSound` | moteus-r4-parent/fw/bldc_servo_control.h:831-1000 | all stages composed: sign and magnitude, both current bounds, the power bound, and no limit code if and only if the request and the field-weakening current went through unchanged, power was below its limit, and field weakening is disabled or adds nothing |
| `CurrentLimits.SuccessMeansRequestIff` | moteus-r4-parent/fw/bldc_servo_control.h:915-965 | without a limit code the d current is the requested one if and only if the field-weakening filter adds nothing; disabled, it may still be decaying |
| `CurrentLimits.FilterIsAdded` | moteus-r4-parent/fw/bldc_servo_control.h:915-965 | one cycle in numbers: no current requested, field weakening disabled with one ampere left in its filter, one ampere driven and nothing reported |
| `CurrentLimits.CurrentLoop.LimitCommand` | moteus-r4-parent/fw/bldc_servo_control.h:817-1003 | the in-place sequence of limiters computes that composition, of which `CurrentOutcomes.LimitsAreTightest` says exactly what it leaves |
| `CurrentOutcomes.PositionLeaves` | moteus-r4-parent/fw/bldc_servo_control.h:831-859 | the position-bound stage leaves exactly its share: everything inside the bounds, inwards or with bounds ignored, nothing from the derating width on, and linearly less of the request in between; it reports itself exactly outside the bounds and outwards |
| `CurrentOutcomes.VelocityLeaves` | moteus-r4-parent/fw/bldc_servo_control.h:861-877 | the velocity stage leaves at most the maximum current times the rest of the derating width, driving on only; which code it reports |
| `CurrentOutcomes.HeatLeaves` | moteus-r4-parent/fw/bldc_servo_control.h:879-913 | the temperature stage caps at the mixture of full and derated current of the hotter sensor; which code it reports |
| `CurrentOutcomes.LimitsAreTightest` | moteus-r4-parent/fw/bldc_servo_control.h:817-1003 | the whole chain exactly: the q current is what position bounds, velocity and temperature leave of the request, the d current what temperature leaves of the request and the field weakening, with the code of the last limit that took something away, and both scaled to the power limit exactly when the power would be at or above it |
| `CurrentOutcomes.OutwardsIsLimited` | moteus-r4-parent/fw/bldc_servo_control.h:831-1003 | outside a bound and driving outwards, whatever the other limits do, no more is left than the share of the position bounds, and a limit is reported |
| `CurrentOutcomes.NothingBeyondTheWidth` | moteus-r4-parent/fw/bldc_servo_control.h:831-1003 | from the derating width on the outward q current is zero, and a limit is reported |
| `TrajectoryPlanner.VelocityStaysWithin` | moteus-r4-parent/fw/bldc_servo_position.h:272-291 | once within the velocity limit every sub-planner stays within it, provided one accelerating step is at most twice the limit |
| `TrajectoryPlanner.CoarseStepLeavesBand` | moteus-r4-parent/fw/bldc_servo_position.h:213-235 | with a coarser step there is a motion that leaves the band, so the proviso is needed |
| `TrajectoryPlanner.RampBetween` | moteus-r4-parent/fw/bldc_servo_position.h:30-64 | the velocity ramp moves towards its goal and never past it |
| `TrajectoryPlanner.RampFinishes` | moteus-r4-parent/fw/bldc_servo_position.h:30-64 | the ramp reaches its goal exactly within ceil(|dv| / (a dt)) + 1 cycles |
| `TrajectoryPlanner.LateEnough` | moteus-r4-parent/fw/bldc_servo_position.h:139-166 | accelerating or cruising is chosen only while stopping stays possible |
| `TrajectoryPlanner.BrakingConserves` | moteus-r4-parent/fw/bldc_servo_position.h:93-96 | one braking step conserves the speed squared over twice the distance |
| `TrajectoryPlanner.NoOvershoot` | moteus-r4-parent/fw/bldc_servo_position.h:97-181 | a step that starts closing on a reachable target ends on the same side of it, still able to stop there |
| `TrajectoryPlanner.BrakeRunIsParabola` | moteus-r4-parent/fw/bldc_servo_position.h:93-181 | any number of braking steps: the recomputed deceleration stays constant, speed falls linearly, and the run ends at rest on the target or not at all |
| `TrajectoryPlanner.StoppingDistanceSwitches` | moteus-r4-parent/fw/bldc_servo_position.h:139-166 | at the stopping distance itself the switching condition holds |
| `TrajectoryPlanner.StillSwitches` | moteus-r4-parent/fw/bldc_servo_position.h:139-166 | a planner that has switched to braking switches again in every later cycle of the same braking |
| `TrajectoryPlanner.BrakingIsPlanned` | moteus-r4-parent/fw/bldc_servo_position.h:97-181 | there one cycle of the planner is the braking step, from either side and for any speed of the target |
| `TrajectoryPlanner.PlannerKeepsBraking` | moteus-r4-parent/fw/bldc_servo_position.h:97-181 | once it has switched, any number of planner cycles are braking steps: the speed towards the target falls linearly and is used up exactly when the target is reached |
| `TrajectoryPlanner.StaysOnTheWay` | moteus-r4-parent/fw/bldc_servo_position.h:97-181 | any number of planner cycles from a closing start that can stop at the target, through accelerating, cruising, braking and slowing down above the velocity limit: the motion stays on its side of the target, moving towards it and able to stop there, at least until a cycle begins with less than one step of speed left to brake with or at the target itself |
| `TrajectoryPlanner.RestStallsIff` | moteus-r4-parent/fw/bldc_servo_position.h:139-166 | at rest the planner chooses zero acceleration if and only if the target is closer than a dt^2 |
| `TrajectoryPlanner.StallIsForever` | moteus-r4-parent/fw/bldc_servo_position.h:183-270 | there the motion is a fixed point that is never reported as done |
| `PlannerOutcomes.GoalAtOnce` | moteus-r4-parent/fw/bldc_servo_position.h:30-64 | velocity mode without an acceleration limit takes the clamped command at once and is done |
| `PlannerOutcomes.RampStep` | moteus-r4-parent/fw/bldc_servo_position.h:30-64 | with one it takes the velocity nearest to the goal that one step reaches, with the acceleration that accounts for the change, and exactly when it finishes |
| `PlannerOutcomes.AdvanceIs` | moteus-r4-parent/fw/bldc_servo_position.h:213-270 | exactly what an accelerating cycle leaves: the planned velocity, or the limit in its direction when the limit lies strictly between it and the velocity before; and done with the velocity of the target, the target dropped, exactly when the velocity reaches, passes or comes within half a step of that and the target is within ten cycles |
| `PlannerOutcomes.HeadsForTarget` | moteus-r4-parent/fw/bldc_servo_position.h:66-91 | a velocity-limited cycle heads for the target at the limit while more than a step is left, and otherwise is done with the velocity of the target |
| `PlannerOutcomes.ArrivesShort` | moteus-r4-parent/fw/bldc_servo_position.h:66-91 | any fixed target, any distance: the velocity-limited planner closes in by one step a cycle, through the whole command update, is done after exactly as many cycles as there are whole steps and one more, and stays short of the target by exactly the remainder |
| `PlannerOutcomes.CountWhole` | moteus-r4-parent/fw/bldc_servo_position.h:66-91 | every distance is some number of whole steps and such a remainder |
| `PositionCommand.CommandIsBounded` | moteus-r4-parent/fw/bldc_servo_position.h:429-479 | the control position ends inside the position bounds or on the stop position, and does not move on past a stop |
| `PositionCommand.SlipIsBounded` | moteus-r4-parent/fw/bldc_servo_position.h:398-414 | the control position stays within the slip limit of the motor unless a bound holds it |
| `PositionCommand.VelocityLimitHolds` | moteus-r4-parent/fw/bldc_servo_position.h:293-489 | the velocity limit holds over a whole command cycle |
| `PositionCommand.CycleDoesNotOvershoot` | moteus-r4-parent/fw/bldc_servo_position.h:293-396 | no overshoot through a whole cycle, integration of the position included |
| `PositionLoop.PositionStatus.DoVelocityModeLimits` | moteus-r4-parent/fw/bldc_servo_position.h:30-64 | the in-place velocity ramp equals its specification |
| `PositionLoop.PositionStatus.DoVelocityOnlyLimit` | moteus-r4-parent/fw/bldc_servo_position.h:66-91 | the in-place velocity-only planner equals its specification |
| `PositionLoop.PositionStatus.DoVelocityAndAccelLimits` | moteus-r4-parent/fw/bldc_servo_position.h:183-270 | the in-place trapezoid planner equals its specification |
| `PositionLoop.PositionStatus.DoUpdateTrajectory` | moteus-r4-parent/fw/bldc_servo_position.h:272-291 | the choice between the sub-planners |
| `PositionLoop.PositionStatus.DoUpdateCommand` | moteus-r4-parent/fw/bldc_servo_position.h:293-489 | the whole in-place command update equals its specification, whose outcome is `CommandOutcomes.CycleIs` |
| `CommandOutcomes.CycleIs` | moteus-r4-parent/fw/bldc_servo_position.h:293-489 | the outcome of one command update, for every motion and every setting: it starts from the target, the control position, or the captured position and velocity of the motor; moves by the mean of the velocities before and after the plan, or by the new one when not accelerating, within the velocity of the motor; follows the motor as the nearest position and velocity within the slip; and ends within the bounds, or on a stop position that the command leads away from, in these cases and no others at rest |
| `CommandOutcomes.StartsAtMotor` | moteus-r4-parent/fw/bldc_servo_position.h:325-342 | with some limit set, a cycle from an unset position is the cycle from the position of the motor, with its filtered velocity, or at rest below the capture threshold |
| `CommandOutcomes.StaysNearMotor` | moteus-r4-parent/fw/bldc_servo_position.h:293-396 | from an unset position with some limit set, and no slip, bound or stop acting, the control position ends no further from the motor than the larger of the captured and the planned velocity takes it |
| `CommandOutcomes.JumpsToTarget` | moteus-r4-parent/fw/bldc_servo_position.h:325-332 | without limits the position is the target, moved by one cycle of the commanded velocity |
| `CommandOutcomes.GoesOnFreely` | moteus-r4-parent/fw/bldc_servo_position.h:312-342 | without limits and target it moves by one cycle of the commanded velocity |
| `CommandOutcomes.FirstFreeCycleIsTheMotors` | moteus-r4-parent/fw/bldc_servo_position.h:312-342 | but from an unset position the first such cycle moves by the captured velocity instead, whatever is commanded |
| `OutputUnwrap.WrapAbsorbs` | moteus-r4-parent/fw/motor_position.h:434-451 | wrapping an operand first does not change a wrapped sum or difference |
| `OutputUnwrap.QuantiseIsNear` | moteus-r4-parent/fw/motor_position.h:869-877 | a truncated reading lies within one raw unit of 2^24 of its share of the truncated encoder step |
| `OutputUnwrap.Thresholds` | moteus-r4-parent/fw/motor_position.h:776-785 | readings near either end fall on the right side of the high-word thresholds whenever the step resolves the movement |
| `OutputUnwrap.EighthResolves` | moteus-r4-parent/fw/motor_position.h:776-785 | an eighth of a turn between readings is resolved for every encoder step of at least 2^36 |
| `OutputUnwrap.RebaseFollows` | moteus-r4-parent/fw/motor_position.h:889-908 | the modulo moves by exactly the encoder turn crossed: minus one, none or one step |
| `OutputPosition.DigestIsSound` | moteus-r4-parent/fw/motor_position.h:864-877 | every active reading on the scale gives a sample that agrees with its quantised form, for either sign |
| `OutputPosition.TrackStep` | moteus-r4-parent/fw/motor_position.h:879-922 | one reading moves relative and absolute position by exactly the unwrapped quantised distance, and the modulo by at most one whole step |
| `OutputPosition.PositionsFollow` | moteus-r4-parent/fw/motor_position.h:864-922 | over any run whose readings are less than a resolvable distance apart the relative position is the exact unwrapped sum modulo 2^64, with or without homing; the absolute position moves along whenever nothing homes |
| `OutputPosition.UnwrapsFromPowerOn` | moteus-r4-parent/fw/motor_position.h:879-922 | from power-on at any angle the first reading is position zero, and every later relative position is the whole turns since then times the encoder step plus the difference of the quantised angles, modulo 2^64 |
| `OutputPosition.OffsetIsKept` | moteus-r4-parent/fw/motor_position.h:914-922 | absolute minus relative position never changes again once homing is over, and homing does not repeat |
| `OutputPosition.ReadingsAreSmooth` | moteus-r4-parent/fw/motor_position.h:864-877 | encoder readings whose true angle moves less than the resolvable distance give such a run |
| `OutputPosition.TurnFollowedIff` | moteus-r4-parent/fw/motor_position.h:889-908 | whatever the distance between readings: a true turn back is followed if and only if the last reading is in the low quarter of the step and the next above 0.75, a turn on if and only if it is in the high quarter and the next below 0.25, and no turn if and only if neither holds |
| `OutputPosition.QuarterTurnIsMissed` | moteus-r4-parent/fw/motor_position.h:898-908 | two instances: from 0.24 back across the end to 0.76 is followed, from 0.26 to 0.99 is missed |
| `OutputPosition.MotorPosition.TrackEncoder` | moteus-r4-parent/fw/motor_position.h:879-922 | the in-place update of modulo, relative and absolute position |
| `OutputPosition.MotorPosition.SetOutputPositionNearest` | moteus-r4-parent/fw/motor_position.h:458-470 | ignored without an absolute source or reference, otherwise the nearest position |
| `OutputPosition.MotorPosition.UpdateOutput` | moteus-r4-parent/fw/motor_position.h:864-984 | the whole in-place output update: tracking, latching, loss of the source, homing to the reference; which position it stores is said by the lemmas of `OutputOutcomes` |
| `OutputOutcomes.StoredIsNear` | moteus-r4-parent/fw/motor_position.h:464-491 | each conversion stores the turns it is given, in units of 2^-48, up to what it truncates |
| `OutputOutcomes.StateIs` | moteus-r4-parent/fw/motor_position.h:864-984 | exactly when an update latches, homes, loses the source or changes nothing, for every state and reading |
| `OutputOutcomes.LatchedHomesByBoth` | moteus-r4-parent/fw/motor_position.h:965-982 | an update that homes a latched absolute encoder behind a reduction stores whole turns, within half a turn of zero, from an angle of the encoder within half a reduction step of the reference |
| `OutputOutcomes.UnreducedHomesByEncoder` | moteus-r4-parent/fw/motor_position.h:965-982 | without a reduction it stores the own angle of the encoder |
| `OutputOutcomes.RelativeEncoderHomesByReference` | moteus-r4-parent/fw/motor_position.h:965-982 | an encoder that is no longer absolute homes by the reference alone |
| `OutputOutcomes.RelativeHomesByReference` | moteus-r4-parent/fw/motor_position.h:965-982 | from a position that was never latched the residue of the reference angle is stored |
| `OutputOutcomes.LatchStoresAngle` | moteus-r4-parent/fw/motor_position.h:924-938 | latching stores the own angle of the encoder within half a reduction step of zero |
| `OutputOutcomes.RelativeIsTracked` | moteus-r4-parent/fw/motor_position.h:879-984 | latching and homing change the absolute position only |
| `OutputOutcomes.OtherwiseMovesAlong` | moteus-r4-parent/fw/motor_position.h:914-922 | any other update moves the absolute position by exactly as much as the relative one |
| `OutputOutcomes.DifferenceIsPublished` | moteus-r4-parent/fw/motor_position.h:961-963 | the published difference is that of the positions stored, unless the update homes |
| `OutputOutcomes.DifferenceLagsHoming` | moteus-r4-parent/fw/motor_position.h:961-982 | in the update that homes it is the one from before homing, and the next update that has a position puts it right |
| `Homing.WrapCprIsResidue` | moteus-r4-parent/fw/motor_position.h:504-519 | truncating division gives the residue in [0, cpr) for negative values too |
| `Homing.BalancedIsResidue` | moteus-r4-parent/fw/motor_position.h:493-502 | the balanced wrap gives the residue in [-cpr/2, cpr/2) |
| `Homing.BalancedIsCanonical` | moteus-r4-parent/fw/motor_position.h:493-502 | congruent values wrap to the same value |
| `Homing.DisambiguationIsNearest` | moteus-r4-parent/fw/motor_position.h:1493-1514 | the chosen angle is congruent to the encoder and within half a reduction step of the reference |
| `Homing.HalfPeriodIsNearest` | moteus-r4-parent/fw/motor_position.h:1493-1514 | within half a period means no congruent angle is closer |
| `Homing.HomesToReference` | moteus-r4-parent/fw/motor_position.h:1479-1522 | with an absolute reduced encoder and a reference: whole turns from the encoder angle nearest the reference, within half a turn of the request |
| `Homing.EncoderAngleKeptIff` | moteus-r4-parent/fw/motor_position.h:1516-1520 | counting whole turns keeps the encoder angle for every request if and only if the reduction divides a turn |
| `Homing.TwoFifthsLosesAngle` | moteus-r4-parent/fw/motor_position.h:1516-1520 | with a reduction of two fifths some request is answered with a position that is none of the encoder's angles, whatever encoder and reference read |
| `Homing.HomesWithoutReference` | moteus-r4-parent/fw/motor_position.h:1531-1539 | without a usable reference: the congruent angle within half a reduction step of the request |
| `Homing.HomesRelativeEncoder` | moteus-r4-parent/fw/motor_position.h:1523-1528 | with a relative encoder: the reference angle itself |
| `Homing.LatchAgreesWithHoming` | moteus-r4-parent/fw/motor_position.h:924-938 | the position latched at power-on and the one used for homing are the same angle, for either sign |
| `HallTracking.OneLineIsOneSector` | moteus-r4-parent/fw/aux_common.h:227-246 | between codes of real positions one changed line is one sector either way, and conversely, for every polarity |
| `HallTracking.SensorStep` | moteus-r4-parent/fw/aux_common.h:215-246 | the nonce advances exactly on moves by one sector and the error count exactly on longer ones |
| `HallTracking.SensorCounts` | moteus-r4-parent/fw/aux_common.h:215-246 | both count by exactly one, the nonce modulo 256 |
| `HallTracking.FirstAndBroken` | moteus-r4-parent/fw/aux_common.h:215-246 | the first reading is passed on whatever it is, and the two codes that no rotor position gives read as the first sector |
| `HallTracking.HallStatus.ApplyHallReading` | moteus-r4-parent/fw/aux_common.h:215-246 | the in-place update of bits, count, nonce and error |
| `HallTracking.ValueIsCongruent` | moteus-r4-parent/fw/motor_position.h:1073-1088 | the value stays in [0, cpr) and always agrees with the accepted sector modulo six |
| `HallTracking.DeltaIsNearestIff` | moteus-r4-parent/fw/motor_position.h:1083-1086 | the computed move is the nearest one if and only if a remainder of -5 does not meet the last sector |
| `HallTracking.AcceptTracksIff` | moteus-r4-parent/fw/motor_position.h:1073-1097 | one accepted reading after a true move of at most two sectors moves the value by exactly that move if and only if it is not the one combination that is lost |
| `HallTracking.RunTracks` | moteus-r4-parent/fw/motor_position.h:1073-1097 | over any run of accepted readings of which none is the lost one the value equals the true sector index modulo the counts of a revolution |
| `HallTracking.LosesNothingIff` | moteus-r4-parent/fw/motor_position.h:1073-1088 | no single reading of a configuration can be lost if and only if the motor has one pole pair, or the offset is at least -10 with sign 1, or at most 5 with sign -1 |
| `HallTracking.FollowsEveryRunIff` | moteus-r4-parent/fw/motor_position.h:1073-1097 | exactly these configurations follow every run of accepted readings with moves of at most two sectors |
| `HallTracking.UnsafeRunIsLost` | moteus-r4-parent/fw/motor_position.h:1073-1088 | any other configuration has such a run that is not followed |
| `HallTracking.SafeRunTracks` | moteus-r4-parent/fw/motor_position.h:1073-1097 | with such a configuration every run of accepted readings is followed, moves by two sectors included |
| `HallTracking.RawRunTracks` | moteus-r4-parent/fw/motor_position.h:1069-1097 | sensor and source composed, over raw line readings with moves of at most one sector: the value is the true sector index modulo the counts of a revolution, for every offset and polarity, and no error is counted |
| `HallTracking.SkippingRunTracks` | moteus-r4-parent/fw/motor_position.h:1069-1097 | the same over raw readings that may skip sectors, as long as the rotor is within two sectors of the last reading passed on whenever another is: the value is the true sector index at the last reading passed on, and the error count grows by exactly the readings that skip |
| `HallTracking.PowerOnSettles` | moteus-r4-parent/fw/motor_position.h:1069-1097 | the first raw reading after power-on starts such a run, wherever the rotor is |
| `HallTracking.NegativeOffsetLosesTwoSectors` | moteus-r4-parent/fw/motor_position.h:1073-1088 | a large negative offset turns a forward move of two sectors into four back |
| `HallTracking.HallSource.UpdateFromHall` | moteus-r4-parent/fw/motor_position.h:1069-1097 | the in-place update, ignoring a repeated nonce |
| `ServoModes.StepTakesEdge` | moteus-r4-parent/fw/bldc_servo_control.h:1526-1757 | every interrupt and every main-loop call takes only the allowed mode edges, never reaches an unusable mode, and every fault has a code |
| `ServoModes.FaultIsSticky` | moteus-r4-parent/fw/bldc_servo_control.h:1532-1623 | a fault is left only by a stop command, a position timeout only by a stop command or a fault |
| `ServoModes.ArmedIsHealthy` | moteus-r4-parent/fw/bldc_servo_control.h:1590-1668 | no interrupt that saw a driver, voltage or temperature fault leaves the motor armed, and none enters a bounded mode from outside the bounds |
| `ServoModes.StepStaysConsistent` | moteus-r4-parent/fw/bldc_servo.cc:1081-1108 | one step keeps the calibration counters equal to what an outside observer saw |
| `ServoModes.ArmedMeansCalibrated` | moteus-r4-parent/fw/bldc_servo.cc:1081-1108 | over every interleaving from power-on: an armed motor means the driver reported enabled and exactly 256 samples averaged within 200 of 2048 per phase since the servo last left stopped, the offsets in use are those averages, and unless it timed out the driver is still enabled |
| `ServoModes.WatchdogFiresOnTime` | moteus-r4-parent/fw/bldc_servo_control.h:1635-1674 | over any run of control interrupts without a new command the position timeout comes once the number of cycles times the period has reached the timeout, neither earlier nor later |
| `ServoModes.RestingStep` | moteus-r4-parent/fw/bldc_servo_control.h:1434-1449 | one cycle of a stopped or faulted servo: the output stage is powered afterwards if and only if more than the braking part of the cooldown is left and it was powered or has been driven; the driver is disabled if and only if no cooldown is left |
| `ServoModes.PowerGoesOff` | moteus-r4-parent/fw/bldc_servo_control.h:1434-1449 | the same over any number of cycles: exactly how long the stage can stay powered, and exactly when the driver is disabled |
| `ServoModes.FaultKeepsDriving` | moteus-r4-parent/fw/bldc_servo_control.h:1434-1449 | an interrupt that sees the gate driver's fault in a current mode leaves the servo faulted with the stage powered |
| `ServoModes.FaultedStillPowered` | moteus-r4-parent/fw/bldc_servo_control.h:1434-1449 | one such servo, in numbers |
| `ServoOutcomes.IsrEndsIn` | moteus-r4-parent/fw/bldc_servo_control.h:1532-1757 | exactly which mode an interrupt ends in when no control law faults: stopped if and only if a stop is commanded; the commanded mode, or the position timeout if and only if the time has run out, whenever the servo is ready, healthy and not refused; fault if and only if something is wrong; and enabling, calibrating and calibrated likewise |
| `ServoOutcomes.IsrSays` | moteus-r4-parent/fw/bldc_servo_control.h:1532-1757 | exactly which fault or limit it reports, by cause and precedence, and that a law that faults turns all of it into its own fault and nothing else |
| `ServoOutcomes.IsrDrives` | moteus-r4-parent/fw/bldc_servo_control.h:1434-1449 | exactly the cooldown it leaves, and when the stage is powered and the driver enabled afterwards |
| `ServoOutcomes.StopCoasts` | moteus-r4-parent/fw/bldc_servo_control.h:1434-1449 | a servo that drives current and is then told to stop: for how many cycles it stays powered, and when its driver is disabled |
| `ServoOutcomes.MainLoopDoes` | moteus-r4-parent/fw/bldc_servo.cc:222-428 | exactly what each call of the main loop changes: mode, fault, command and driver state, and nothing else |
| `ServoOutcomes.ArmedIsObeyed` | moteus-r4-parent/fw/bldc_servo_control.h:1532-1623 | over every interleaving from power-on: an armed servo that has not timed out is in the mode of the command that was the latest at the last interrupt, as heard from the events alone |
| `ServoOutcomes.CommandTimesOut` | moteus-r4-parent/fw/bldc_servo_control.h:1635-1674 | a bounded command with a timeout and nothing after it: its mode for exactly the cycles that the timeout covers, and timed out after |
| `ServoOutcomes.StartsUp` | moteus-r4-parent/fw/bldc_servo.cc:1081-1108 | from stopped, a command to drive, an enabled driver and 256 healthy interrupts: calibrated with the averages as offsets and then armed as asked, or faulted over the calibration |
| `ServoOutcomes.AcceptedIff` | moteus-r4-parent/fw/bldc_servo.cc:1081-1108 | a calibration is accepted if and only if every average is within 200 counts of 2048 |
| `ServoOutcomes.OffsetsStayNear` | moteus-r4-parent/fw/bldc_servo.cc:1081-1108 | over every run from power-on the offsets in use stay within 200 counts of 2048 |
| `ServoOutcomes.RestsAfterPowerOn` | moteus-r4-parent/fw/bldc_servo_control.h:1532-1757 | any number of interrupts after power-on leave the servo as it was: stopped, unpowered, its driver disabled and no fault |
| `ServoControl.BldcServo.MaybeChangeMode` | moteus-r4-parent/fw/bldc_servo_control.h:1532-1623 | the in-place mode change; the asserts on uncommandable modes are unreachable, and which mode is entered is part of `ServoOutcomes.IsrEndsIn` |
| `ServoControl.BldcServo.Calibrate` | moteus-r4-parent/fw/bldc_servo.cc:1081-1108 | the in-place accumulation and check of the current offsets |
| `ServoControl.BldcServo.DoControl` | moteus-r4-parent/fw/bldc_servo_control.h:1628-1757 | the whole in-place control interrupt equals its step, of which `ServoOutcomes.IsrEndsIn`, `IsrSays` and `IsrDrives` say everything an observer sees |
| `ServoControl.BldcServo.CheckPhaseMonitors` | moteus-r4-parent/fw/bldc_servo.cc:876-881 | the overrun check equals its step |
| `ServoControl.BldcServo.PollMillisecond` | moteus-r4-parent/fw/bldc_servo.cc:336-360 | the driver enable poll equals its step |
| `ServoControl.BldcServo.Accept` | moteus-r4-parent/fw/bldc_servo.cc:222-250 | an uncommandable mode is ignored, a bad command faults, everything else becomes the command |
| `ServoControl.BldcServo.RequestFault` | moteus-r4-parent/fw/bldc_servo.cc:419-428 | a fault request does not overwrite an earlier fault |
| `UartFramer.LinesAreRuns` | moteus-r4-parent/fw/uart_fdcanusb_micro_server.h:153-216 | lines are non-empty and hold no newline |
| `UartFramer.LinesAreTheStream` | moteus-r4-parent/fw/uart_fdcanusb_micro_server.h:153-216 | put together, the lines of a finished stream are every other byte of it in order |
| `UartFramer.LinesConcat` | moteus-r4-parent/fw/uart_fdcanusb_micro_server.h:203-215 | cutting a stream after a newline cuts its lines in two |
| `UartFramer.StepStaysInFrame` | moteus-r4-parent/fw/uart_fdcanusb_micro_server.h:133-216 | one arriving byte or one poll, with bytes arriving before DMA stops and while it is off, keeps the buffer the exact unconsumed rest of the bytes stored and the lines exactly those of the bytes consumed |
| `UartFramer.AlwaysInFrame` | moteus-r4-parent/fw/uart_fdcanusb_micro_server.h:133-216 | so it is in every run, whatever the timing, and afresh behind every overlong line that is discarded |
| `UartFramer.InOrder` | moteus-r4-parent/fw/uart_fdcanusb_micro_server.h:153-216 | at any moment the lines handed over are the first lines of everything stored |
| `UartFramer.Drained` | moteus-r4-parent/fw/uart_fdcanusb_micro_server.h:153-216 | with no newline left in the buffer the lines handed over are all the lines of everything stored, independent of timing |
| `UartFramer.PollsHandOver` | moteus-r4-parent/fw/uart_fdcanusb_micro_server.h:153-216 | whatever has gathered in the buffer: as many polls as it holds bytes hand over every line in it, in order, and leave no newline, when nothing comes meanwhile |
| `UartFramer.NothingLostIff` | moteus-r4-parent/fw/uart_fdcanusb_micro_server.h:133-216 | everything stored is every byte that came over the wire, in order, if and only if each arriving byte found room, the bytes stuck during a restart fit and no line was discarded |
| `UartFramer.LinesOfTheWire` | moteus-r4-parent/fw/uart_fdcanusb_micro_server.h:133-216 | then the lines handed over are the first lines of the bytes of the wire, and all of them once no newline is left in the buffer, whatever the timing |
| `UartFramer.ShallowIsLossFree` | moteus-r4-parent/fw/uart_fdcanusb_micro_server.h:171-182 | a receiver in which the unconsumed bytes with those that come next stay below 254 loses nothing |
| `UartFramer.UartReceiver.Arrive` | moteus-r4-parent/fw/uart_fdcanusb_micro_server.h:133-151 | in place: a byte is stored behind the held ones, or lost when the buffer is full |
| `UartFramer.UartReceiver.StartDmaRead` | moteus-r4-parent/fw/uart_fdcanusb_micro_server.h:133-151 | in place: the stuck bytes that fit are stored behind the held ones |
| `UartFramer.UartReceiver.ProcessDmaRx` | moteus-r4-parent/fw/uart_fdcanusb_micro_server.h:153-216 | in place: the whole poll, with its search, its hand-over, its move and its discard |
| `Crc8.LookupIsDivision` | moteus-r4-parent/fw/uart_fdcanusb_micro_server.h:436-439 | every entry of the 16-entry table is four bit steps of its index |
| `Crc8.TableIsDivision` | moteus-r4-parent/fw/uart_fdcanusb_micro_server.h:441-449 | one table step is four steps of the bit-serial division by 0x97 |
| `Crc8.ComputeCrc8` | moteus-r4-parent/fw/uart_fdcanusb_micro_server.h:441-449 | the table CRC of any text is its bit-serial remainder |
| `Crc8.CorruptionIsSeen` | moteus-r4-parent/fw/uart_fdcanusb_micro_server.h:441-449 | changing any single byte of a text changes its CRC |
| `FdcanusbText.CrcRoundTrip` | moteus-r4-parent/fw/uart_fdcanusb_micro_server.h:451-466 | a text with the printed checksum validates and comes back unchanged |
| `FdcanusbText.CorruptLineIsRejected` | moteus-r4-parent/fw/uart_fdcanusb_micro_server.h:223-262 | a line with a good checksum is refused once any one byte before the star is changed |
| `FdcanusbText.IdRoundTrip` | moteus-r4-parent/fw/uart_fdcanusb_micro_server.h:277-291 | the eight printed digits of a 32-bit identifier parse back to it |
| `FdcanusbText.DataRoundTrip` | moteus-r4-parent/fw/uart_fdcanusb_micro_server.h:315-330 | printed payload bytes parse back to themselves |
| `FdcanusbServer.FindStar` | moteus-r4-parent/fw/uart_fdcanusb_micro_server.h:224-231 | the backward scan finds the last star |
| `FdcanusbServer.ReadId` | moteus-r4-parent/fw/uart_fdcanusb_micro_server.h:277-291 | the digit loop equals the recursive parse, with both of its errors |
| `FdcanusbServer.ReadData` | moteus-r4-parent/fw/uart_fdcanusb_micro_server.h:315-330 | the pair loop equals the recursive parse up to the capacity |
| `FdcanusbServer.UartServer.ValidateChecksum` | moteus-r4-parent/fw/uart_fdcanusb_micro_server.h:223-262 | which lines pass, when checksums become mandatory, and what is stripped |
| `FdcanusbServer.UartServer.ProcessLine` | moteus-r4-parent/fw/uart_fdcanusb_micro_server.h:265-349 | the in-place handling of a line: every reply and delivery, of which `LineOutcomes.AnyLine` says what they are for any line |
| `FdcanusbServer.FrameRoundTrip` | moteus-r4-parent/fw/uart_fdcanusb_micro_server.h:265-349 | a frame printed for this device with its prefix, source and destination is delivered as exactly that source, destination and payload |
| `FdcanusbServer.PrintedLineSurvivesFraming` | moteus-r4-parent/fw/uart_fdcanusb_micro_server.h:162-216 | the framer hands the printed line over whole and alone |
| `FdcanusbServer.CorruptLineDeliversNothing` | moteus-r4-parent/fw/uart_fdcanusb_micro_server.h:265-269 | a corrupted line delivers nothing and leaves the read pending |
| `FdcanusbServer.FrameArrivesIff` | moteus-r4-parent/fw/uart_fdcanusb_micro_server.h:223-349 | every server and every printed frame, with or without checksum: it is delivered as itself if and only if it carries the prefix of the server, a read is pending, it has a checksum once checksums are mandatory, and has none when its payload is empty; one for another prefix changes nothing and gets no reply, one that finds no read is acknowledged and dropped, and in the other cases the line is refused, with which message |
| `LineOutcomes.CheckIs` | moteus-r4-parent/fw/uart_fdcanusb_micro_server.h:223-262 | any line: it is checked if and only if it ends in a star and two hexadecimal digits, passes if and only if these are the CRC of everything before the star, and is then stripped of the star and the spaces before it |
| `LineOutcomes.IdIs` | moteus-r4-parent/fw/uart_fdcanusb_micro_server.h:277-297 | any text: the identifier is the number of all digits before the first space modulo 2^32, and which error it is instead |
| `LineOutcomes.DataIs` | moteus-r4-parent/fw/uart_fdcanusb_micro_server.h:312-330 | any text: the payload is that of the pairs of digits up to a blank, the end or the capacity, byte for byte, or refused if one of them is no digit |
| `LineOutcomes.AnyLine` | moteus-r4-parent/fw/uart_fdcanusb_micro_server.h:223-349 | any line at all: which of the replies and which delivery it leads to, read off the characters of the line |
| `LineOutcomes.OnlyOwnFramesArrive` | moteus-r4-parent/fw/uart_fdcanusb_micro_server.h:265-349 | whatever the line, a delivery means that its identifier carries the prefix of the server, a read was pending, the checksum was there if it had to be, and source, destination and bytes are those of the line |
| `UartTransmitter.RcvReadsBack` | moteus-r4-parent/fw/uart_fdcanusb_micro_server.h:53-92 | what the device prints parses back to the same identifier and payload, and its checksum holds |
| `PrintedLines.DeviceLineIsFramed` | moteus-r4-parent/fw/uart_fdcanusb_micro_server.h:62-92 | what the device prints is handed over by a framer as one line |
| `PrintedLines.DeviceLineIsChecked` | moteus-r4-parent/fw/uart_fdcanusb_micro_server.h:62-92 | that line has a good checksum exactly when one was asked for, and leaves the printed text; the separator before an empty payload goes with it |
| `PrintedLines.HostReadsBack` | moteus-r4-parent/fw/uart_fdcanusb_micro_server.h:62-86 | behind its first word the text reads back as identifier and payload |
| `UartTransmitter.StepConserves` | moteus-r4-parent/fw/uart_fdcanusb_micro_server.h:94-130 | one legal call: every byte accepted is sent, in flight or pending, in order, every continuation has run or is the one waiting, no data waits while DMA is idle, and what was accepted before stays accepted |
| `UartTransmitter.RunConserves` | moteus-r4-parent/fw/uart_fdcanusb_micro_server.h:94-130 | so it is after every legal run of calls |
| `UartTransmitter.FiresAfterSending` | moteus-r4-parent/fw/uart_fdcanusb_micro_server.h:108-130 | a continuation runs only at the completion of the DMA transfer that sent the last byte of its write |
| `UartTransmitter.StepGrows` | moteus-r4-parent/fw/uart_fdcanusb_micro_server.h:94-130 | nothing that was sent or run is taken back |
| `UartTransmitter.NothingIsCut` | moteus-r4-parent/fw/uart_fdcanusb_micro_server.h:385-394 | when every text fits where it comes, what is accepted is everything handed in |
| `UartTransmitter.AllSent` | moteus-r4-parent/fw/uart_fdcanusb_micro_server.h:94-130 | after any legal run from idle: with DMA idle everything accepted has been sent in order and every continuation has run once, in order |
| `UartTransmitter.Drains` | moteus-r4-parent/fw/uart_fdcanusb_micro_server.h:108-130 | from any state that a run reaches two finished transfers send everything accepted and run every continuation; a poll without a finished transfer changes nothing |
| `UartTransmitter.Transmitter.MaybeStartPendingWrite` | moteus-r4-parent/fw/uart_fdcanusb_micro_server.h:396-411 | in place: the buffers swap only when DMA is idle, and the buffer DMA owns is not the one being filled |
| `UartTransmitter.Transmitter.AppendToWriteBuffer` | moteus-r4-parent/fw/uart_fdcanusb_micro_server.h:385-394 | in place: the text that fits goes behind the pending bytes, and DMA starts when idle |
| `UartTransmitter.Transmitter.AsyncWrite` | moteus-r4-parent/fw/uart_fdcanusb_micro_server.h:94-100 | in place: the same, with its continuation |
| `UartTransmitter.Transmitter.WriteFrame` | moteus-r4-parent/fw/uart_fdcanusb_micro_server.h:53-100 | in place: the same for a printed frame |
| `UartTransmitter.Transmitter.Poll` | moteus-r4-parent/fw/uart_fdcanusb_micro_server.h:108-130 | in place: exactly what the completion of a transfer changes, and what its continuation starts |
| `TransportMux.FlagsRoundTripIff` | moteus-r4-parent/fw/multi_transport_datagram_server.h:37-40 | the id byte routes a reply to its query's transport, and cleaning restores the flags if and only if the transport left that byte clear |
| `TransportMux.ReplyFindsItsQuery` | moteus-r4-parent/fw/multi_transport_datagram_server.h:210-228 | after any run without leftovers: a delivered query keeps its data up to the reader's capacity, and its answer goes back on its transport with its own flags and the prefix in force |
| `TransportMux.RunKeeps` | moteus-r4-parent/fw/multi_transport_datagram_server.h:45-236 | over every legal run from construction, whatever ports come and go and whatever callbacks ask for: every read and every UART write asked for has run its callback once, in order, or is the one pending; until an assert fires the flags mirror the transports up to what a returned server still owes, a waiting read is listened to on every transport, and every transport has the prefix in force |
| `TransportMux.ReadsConserved` | moteus-r4-parent/fw/multi_transport_datagram_server.h:45-236 | what that says of each read: the answers are to the reads asked for, in order, none twice and none skipped, and only the last can still be waiting |
| `TransportMux.WritesConserved` | moteus-r4-parent/fw/multi_transport_datagram_server.h:73-169 | the same for UART writes, across every change of server |
| `MuxOutcomes.PortsAre` | moteus-r4-parent/fw/moteus_controller.cc:583-598 | as heard from the events alone, while no assert has fired: a server is there exactly when a port is serial, aux2's is kept exactly when both are, and the prefix is the last one set |
| `MuxOutcomes.ReadsAreAnswered` | moteus-r4-parent/fw/multi_transport_datagram_server.h:172-208 | a read is answered exactly when a transport completes one while it waits: with an error for an error or an empty datagram, and otherwise with as much of it as there is room for and flags that lead back to that transport; no other event answers one |
| `MuxOutcomes.WritesAreReported` | moteus-r4-parent/fw/multi_transport_datagram_server.h:98-169 | the write that its server completes is told what the server says; every other write callback is told that it failed |
| `MuxOutcomes.ReplyIsSent` | moteus-r4-parent/fw/multi_transport_datagram_server.h:73-108 | after any run: a reply goes to the transport that its id byte names, with that byte cleared and the last prefix set; to UART with no port serial it fails at once and nothing is sent |
| `TransportMux.StepStopsIff` | moteus-r4-parent/fw/moteus_controller.cc:583-598 | one event fires an assert of a transport if and only if a request meets a server that came back owing it, or a server comes back with its read unanswered while a read waits |
| `TransportMux.RunStopsIff` | moteus-r4-parent/fw/moteus_controller.cc:583-598 | so a run ends in such an assert if and only if one of its events does that |
| `TransportMux.WithoutReturnNeverStops` | moteus-r4-parent/fw/uart_fdcanusb_micro_server.h:44-61 | in every run in which no displaced server comes back with a read or a write unanswered, no assert ever fires and the flags equal the transports' own |
| `TransportMux.OnePortNeverStops` | moteus-r4-parent/fw/moteus_controller.cc:583-598 | in particular in every run in which only one of the two ports is ever serial |
| `TransportMux.TakeoverAndReturnStops` | moteus-r4-parent/fw/moteus_controller.cc:583-598 | aux2's server being listened to when aux1's takes over, any traffic in between, and a read waiting when aux1's goes away: the assert fires |
| `TransportMux.ReadAssertFires` | moteus-r4-parent/fw/uart_fdcanusb_micro_server.h:44-51 | the shortest such run, from construction |
| `TransportMux.WriteAssertFires` | moteus-r4-parent/fw/uart_fdcanusb_micro_server.h:53-58 | a run in which the write assert fires instead |
| `TransportMux.Mux.AsyncRead` | moteus-r4-parent/fw/multi_transport_datagram_server.h:45-71 | in place: the read waits, and every transport that is not in flight is started |
| `TransportMux.Mux.AsyncWrite` | moteus-r4-parent/fw/multi_transport_datagram_server.h:73-108 | in place: routing by the query's id with cleaned flags; without a UART server the callback fails at once |
| `TransportMux.Mux.HandleCanRead` | moteus-r4-parent/fw/multi_transport_datagram_server.h:172-190 | in place: a CAN completion goes to the pending read, if any, and its callback's requests follow |
| `TransportMux.Mux.HandleUartRead` | moteus-r4-parent/fw/multi_transport_datagram_server.h:192-208 | in place: the same for UART |
| `TransportMux.Mux.HandleUartWrite` | moteus-r4-parent/fw/multi_transport_datagram_server.h:98-104 | in place: a finished UART write runs the callback that is pending, if any |
| `TransportMux.Mux.SetPrefix` | moteus-r4-parent/fw/multi_transport_datagram_server.h:126-132 | in place: every transport that is there gets the prefix |
| `TransportMux.Mux.SetActiveUartServer` | moteus-r4-parent/fw/multi_transport_datagram_server.h:137-169 | in place, for any server, one that is still reading or writing included: a pending UART write fails, its callback runs, and the new server gets the prefix and is listened to if a read waits; the same server changes nothing |
| `TransportMux.Controller.Aux1Came` | moteus-r4-parent/fw/moteus_controller.cc:586-591 | in place: aux1's new server takes over |
| `TransportMux.Controller.Aux1Gone` | moteus-r4-parent/fw/moteus_controller.cc:586-591 | in place: aux2's server, as it was left, or none takes over before aux1's is destroyed |
| `TransportMux.Controller.Aux2Came` | moteus-r4-parent/fw/moteus_controller.cc:593-598 | in place: aux2's new server takes over unless aux1 has one |
| `TransportMux.Controller.Aux2Gone` | moteus-r4-parent/fw/moteus_controller.cc:593-598 | in place: aux1's server stays, or none is left |
| `FlashWriter.DisciplinedMeans` | moteus-r4-parent/fw/can_bootloader.cc:190-244 | in a disciplined log no erasure or program operation occurs twice, every program operation follows the erasure of its sector, and no erasure is tried again once it has succeeded |
| `FlashWriter.SectorByBank` | moteus-r4-parent/fw/can_bootloader.cc:224-236 | the sector index by bank is the address divided by 2048, and words do not cross sectors |
| `FlashWriter.ProtectedNeverChanges` | moteus-r4-parent/fw/can_bootloader.cc:698-725 | the bootloader's own range never changes, whatever is called in whatever order and whatever goes wrong |
| `FlashWriter.ErasedFirstAlways` | moteus-r4-parent/fw/can_bootloader.cc:123-244 | in any order of calls, with failures and retries, the failing erasures being in the log too: since unlock no sector is erased twice or tried again once erased, and nothing is programmed before its sector is erased |
| `FlashWriter.ErasedFirstMeans` | moteus-r4-parent/fw/can_bootloader.cc:224-244 | what that says of any two operations of the log |
| `FlashWriter.PutsAreTidy` | moteus-r4-parent/fw/can_bootloader.cc:165-222 | while bytes are written in ascending order: flash and shadow hold exactly the bytes accepted, and each word is programmed once behind its sector's one erasure |
| `FlashWriter.SessionCommits` | moteus-r4-parent/fw/can_bootloader.cc:123-222 | unlock, bytes in ascending order, lock: disciplined in any case; successful without faults; and when successful flash is, byte for byte, the bytes written, blank beside them in the sectors touched but zero in the first word collected since construction, and unchanged in all other sectors, of which none was erased |
| `FlashWriter.BlankAroundIff` | moteus-r4-parent/fw/can_bootloader.cc:217-219 | the bytes beside the written ones are all blank if and only if nothing was written, a word had been flushed since construction, or the first word has no holes |
| `FlashWriter.RunCommits` | moteus-r4-parent/fw/can_bootloader.cc:673-696 | the same for one run of consecutive bytes, in terms of its start and length |
| `FlashWriter.RunBlankIff` | moteus-r4-parent/fw/can_bootloader.cc:217-219 | for one run the bytes around it are blank if and only if it is empty, a word had been flushed before, or it starts on a word and is at least a word long |
| `FlashWriter.FirstUpdateLeavesZeros` | moteus-r4-parent/fw/can_bootloader.cc:286-286 | the first update since construction, of one byte, leaves a zero beside it; the same update later leaves it blank |
| `FlashOutcomes.RefusedIff` | moteus-r4-parent/fw/can_bootloader.cc:698-725 | a byte is refused outright if and only if the writer is locked or the address is outside flash or in the bootloader, by their addresses; any other failure comes from the hardware |
| `FlashOutcomes.WordsProgrammed` | moteus-r4-parent/fw/can_bootloader.cc:123-222 | bytes in any order: an update that succeeds has programmed exactly the words of the erased sectors that are not blank afterwards, so a word that is there already costs no operation |
| `FlashOutcomes.FullWordIsInFlash` | moteus-r4-parent/fw/can_bootloader.cc:165-187 | a word of which all eight bytes have been accepted is in flash at once, before any other byte or the lock |
| `FlashWriter.Writer.Unlock` | moteus-r4-parent/fw/can_bootloader.cc:123-150 | in place: all sectors count as not erased, and nothing else changes |
| `FlashWriter.Writer.MaybeEraseSector` | moteus-r4-parent/fw/can_bootloader.cc:224-244 | in place: exactly one erase operation unless the sector is erased already, which is logged as failing or leaves the sector blank |
| `FlashWriter.Writer.FlushWord` | moteus-r4-parent/fw/can_bootloader.cc:190-222 | in place: exactly the operations and the new flash of flushing a word |
| `FlashWriter.Writer.ProgramByte` | moteus-r4-parent/fw/can_bootloader.cc:165-187 | in place: making room, collecting, and flushing a complete word |
| `FlashWriter.Writer.Lock` | moteus-r4-parent/fw/can_bootloader.cc:152-163 | in place: flushing what is left and locking |
| `FlashWriter.Writer.WriteByte` | moteus-r4-parent/fw/can_bootloader.cc:698-725 | in place: what is refused, and the byte otherwise |
| `FlashWriter.Writer.Update` | moteus-r4-parent/fw/can_bootloader.cc:673-725 | in place: unlock, the write command and lock are the session of that run of bytes, and when all three succeed every byte of flash is what `RunCommits` says |
| `FlashWriter.Writer.WriteFlash` | moteus-r4-parent/fw/can_bootloader.cc:673-696 | in place: consecutive bytes until one fails |
| `FlashCoalescer.SessionStores` | moteus-r4-parent/fw/stm32g4_flash.h:30-87 | erase, bytes in ascending order, lock: flash is, byte for byte, the bytes written, zeros beside them in their words, and blank words elsewhere |
| `CoalescerOutcomes.FullWordIsInFlash` | moteus-r4-parent/fw/stm32g4_flash.h:62-79 | the same for the configuration store |
| `CoalescerOutcomes.UsedWordsAreSpared` | moteus-r4-parent/fw/stm32g4_flash.h:62-87 | without an erasure before them no bytes whatever change a word that is not blank |
| `FlashCoalescer.Coalescer.ProgramByte` | moteus-r4-parent/fw/stm32g4_flash.h:62-79 | in place: making room, ORing the byte into the shadow, and flushing a complete word |
| `FlashCoalescer.Coalescer.FlushWord` | moteus-r4-parent/fw/stm32g4_flash.h:82-87 | in place: the word is programmed if it is erased, and the shadow starts at zero again |
| `FlashCoalescer.Coalescer.Lock` | moteus-r4-parent/fw/stm32g4_flash.h:55-60 | in place: flushing what is left |
| `I2cTiming.NoHighError` | moteus-r4-parent/fw/stm32_i2c_timing.h:161-167 | the search never fails over the SCL high time |
| `I2cTiming.SuccessIsSound` | moteus-r4-parent/fw/stm32_i2c_timing.h:58-212 | found values meet every minimum, the maximum hold time and the requested cycle, give the low time its share, fit their fields and unpack from the register word |
| `I2cTiming.SuccessIsComplete` | moteus-r4-parent/fw/stm32_i2c_timing.h:58-212 | if any register values with a prescaler meet the bus, and the share of the low time fits its field, the search with that prescaler succeeds |
| `I2cTiming.SuccessIffFeasible` | moteus-r4-parent/fw/stm32_i2c_timing.h:58-212 | success with a prescaler if and only if some registers meet the bus and the share of the low time fits its field |
| `I2cTiming.FeasibleIff` | moteus-r4-parent/fw/stm32_i2c_timing.h:58-212 | when some registers with a prescaler meet the bus, in terms of the input alone |
| `I2cTiming.SlowBusIsRefused` | moteus-r4-parent/fw/stm32_i2c_timing.h:137-155 | at 64 MHz and 8 kHz there are registers that meet every bound of the bus, and every prescaler is refused |
| `I2cTiming.ErrorsMean` | moteus-r4-parent/fw/stm32_i2c_timing.h:58-212 | each error of one prescaler names the first of low time, hold time, maximum hold time and setup time that no value of its field can meet |
| `I2cTiming.FieldsAreLeast` | moteus-r4-parent/fw/stm32_i2c_timing.h:58-212 | every field found is the least that reaches what it must |
| `I2cTiming.MeetsBusIff` | moteus-r4-parent/fw/stm32_i2c_timing.h:64-135 | meeting the bus means meeting the figures of the three modes in nanoseconds, and a rate that is no faster than the one asked for |
| `I2cTiming.CalculateI2cTiming` | moteus-r4-parent/fw/stm32_i2c_timing.h:215-229 | the smallest prescaler with which registers can meet the bus and the share fits is used, and error 1 means that there is none |

## Left out

- IEEE rounding, NaN payloads and the 2^-16 truncation of positions: reals and options stand in for floats, and
  completion of the position and acceleration trajectory, which depends on that truncation, is not claimed.
- Casts of out-of-range floats to int32: undefined in the source; the model's conversions are exact.
- PositionCommand.VelocityLimitHolds: requires the planner's step to satisfy the proviso of `VelocityStaysWithin`,
  which is false of the code without it.
- TrajectoryPlanner.NoOvershoot: says nothing of a step on which the velocity-limit snap, the motor-velocity clamp or
  slip fires.
- TrajectoryPlanner.StaysOnTheWay: is about the acceleration choice alone, without the snap to the velocity limit and
  the arrival check; a cycle that brakes with less than one step of speed left may end beyond rest.
- TrajectoryPlanner.PlannerKeepsBraking: is about the acceleration choice; the arrival check may end the motion
  earlier.
- TrajectoryPlanner.StallIsForever: is about exact reals; an acceleration limit of zero is excluded because the source
  divides by it.
- CommandOutcomes.StaysNearMotor: takes slip, bounds and stop position as not acting; with them `CycleIs` says what
  they do.
- ServoOutcomes.IsrEndsIn: is about a law that does not fault; `IsrSays` adds what a law that faults changes.
- ServoModes.ArmedMeansCalibrated: takes the driver poll's check and set as one step; an interrupt between them is not
  modelled. Modes past the last one are refused when a register is written, before they become commands.
- ServoModes.PowerGoesOff: the control laws are inputs (a fault, a limit code, whether the phases were driven); their
  PID and field-weakening arithmetic is not part of this model.
- UartFramer.AlwaysInFrame: is about the bytes stored; those that arrive at a full buffer are lost
  (`UartFramer.NothingLostIff` says when none are), and the framing of a discarded line's remaining bytes starts in
  its middle, as in the source.
- UartTransmitter.Transmitter.AppendToWriteBuffer: text that does not fit its buffer is cut off, as in the source.
- TransportMux.RunKeeps: takes the client to ask for one read and one UART write at a time, as the asserts demand, and
  its callbacks to ask for reads and writes only; they do not change ports or the prefix. After an assert has fired
  nothing more happens. The client itself (the register protocol) is not part of this model.
- TransportMux.Mux.HandleCanRead: a datagram that completes while no read is pending is dropped, as in the source.
- FlashWriter.SessionCommits: is about ascending addresses and a session that is given up at its first failure; going
  back to a word already flushed is refused by the hardware. An interrupted program or erase operation is modelled as
  one that changes nothing.
- CoalescerOutcomes.UsedWordsAreSpared: the hardware's exception for programming all zeros over a word in use is not
  part of this model.
- FlashCoalescer.SessionStores: is about ascending addresses; a byte written twice into one word is the OR of both.
- HallTracking.RunTracks: excludes the reading that the source loses; moves of more than two sectors between accepted
  readings are ambiguous and not claimed.
- HallTracking.SkippingRunTracks: takes the source to be updated after every reading of the lines.
- Homing.ScaledIsRatio: takes the gear ratio as positive; a negative one is not part of this model.
- The position warp of an incremental encoder at its index pulse, PLL and hall velocity estimation, commutation
  angles, thermistors, telemetry, configuration and text command handlers, and all register-level hardware code.
- The CRC path for widths other than six bits: the configuration check refuses every other width, so the fallback is
  dead.
- Floating-point copies of raw positions, the debug output and the cached derived constants.
