# Sensorbox 1.5 power module: a Dafny model

This project models the two parts of the Sensorbox 1.5 integration that carry its logic.

**The acquisition client `Sensorbox`** polls the power module of a SmartEVSE Sensorbox 1.5
over Modbus TCP. It sends one "Read Input Registers" request (function code 0x04, section 6.4
of the Modbus Application Protocol Specification V1.1b3) for 20 registers at address 0 of
unit 10. It then decodes three IEEE 754 binary32 phase currents. Each current is split over
two 16-bit registers, high word first: L1 at word 0x10, L2 at 0x12, L3 at 0x0E. Each current
is scaled by 230 V and by the calibration factor, and the three phase powers are summed into
a total. Before reading, the client connects when it has no connected client. It makes at
most three attempts, five seconds apart, and then gives up with a "not ready" error.

**The energy integrator `calculate_energy_usage`** takes the recorded history of the
total-power sensor. It skips states that are "unknown", "unavailable" or not a number. It adds
the trapezoid `(p_prev + p_cur) / 2 * hours / 1000` kWh for each valid sample and the valid
sample before it.

Modules:

- `Results` (results.dfy): `Option` and `Result`, standing for Python's `None` and for raised
  exceptions.
- `Binary32` (binary32.dfy): joining two words into a 32-bit pattern, the exact value of a
  binary32 pattern, and IEEE-style scaling and addition over reals, with infinities and NaN.
- `Registers` (registers.dfy): `read_float`, `parse_power_module`, and `read_power_module`'s
  handling of the device's answer, as functions with lemmas.
- `Device` (device.dfy): class `Sensorbox` with the `client` and `data` fields. It holds the
  retry loop `AsyncSetup`, `AsyncUpdateData`, `ReadPowerModule` and `AsyncClose`. Beside the
  class are the pure functions that specify the retry count and close.
- `Energy` (energy.dfy): the specification `EnergyOf`, which is the trapezoid sum over
  `ValidSamples`. The method `CalculateEnergyUsage` is the source's loop, proved equal to it.
  The lemmas cover skipping, additivity, ordering and the sign of the result.

Where the outside world answers, the model takes the answer as a parameter:

- `network(i)` is the outcome of connect attempt `i` of a setup.
- `device(request)` is the device's response to a read request.
- `History` is what the recorder query returned.
- `parse` is Python's `float()` applied to a state string.

Timestamps are integer microseconds in UTC.

Notes on the source's behaviour that the model keeps:

- A register block needs at least 20 words, because the highest offset, 0x12, reads words
  0x12 and 0x13. Any shorter block fails with an index error.
- The calibration factor is any real number. Nothing in the source rejects zero or negative
  factors, and `Scale` gives IEEE results for them (infinity times 0 is NaN).
- `async_close` only closes the existing client object. The model keeps that client and marks
  it not connected, so the next poll sets up again.
- Non-finite patterns are not rejected: exponent field 0xFF decodes to an infinity or to NaN,
  which then flows through the scaling and the sum.

## Model

| member | source | states |
|---|---|---|
| `Binary32.Word32Of` | custom_components/sensorbox15/sensorbox.py:98-99 | the 32-bit pattern built from two registers has the first register as its high 16 bits and the second as its low 16 bits |
| `Binary32.SplitJoin` | custom_components/sensorbox15/sensorbox.py:98-99 | every 32-bit pattern is the join of its own high and low words (the join is onto) |
| `Binary32.JoinInjective` | custom_components/sensorbox15/sensorbox.py:98-99 | two register pairs that join to the same pattern are the same pair |
| `Binary32.Decode` | custom_components/sensorbox15/sensorbox.py:98-100 | a pattern decodes to a finite value exactly when its exponent field is not 0xFF; to NaN exactly when the exponent field is 0xFF and the fraction is non-zero; otherwise to an infinity whose sign is the sign bit |
| `Binary32.DecodeNegated` | custom_components/sensorbox15/sensorbox.py:98-100 | setting the sign bit negates the decoded value, for finite values, infinities and NaN |
| `Binary32.DecodeOnePointFive` | custom_components/sensorbox15/sensorbox.py:98-100 | the pattern 0x3FC00000 (registers 0x3FC0, 0x0000) is exactly 1.5 |
| `Binary32.SignificandOf` | custom_components/sensorbox15/sensorbox.py:98-100 | the integer significand of a subnormal is below 2^23; that of a normal number lies in [2^23, 2^24) and carries the fraction in its low 23 bits |
| `Binary32.HalfReciprocal` | custom_components/sensorbox15/sensorbox.py:98-100 | the scale 2^-n used for negative exponents is the reciprocal of 2^n |
| `Binary32.DecodeZero` | custom_components/sensorbox15/sensorbox.py:98-100 | the all-zero pattern is 0 |
| `Binary32.ScaleScale` | custom_components/sensorbox15/sensorbox.py:84-86 | multiplying by a and then by b equals multiplying by a * b, for every float and every pair of factors |
| `Binary32.ScaleAdd` | custom_components/sensorbox15/sensorbox.py:84-87 | multiplying a sum by k equals summing the multiplied terms, with infinities and NaN included |
| `Registers.ReadFloat` | custom_components/sensorbox15/sensorbox.py:95-100 | `read_float` succeeds exactly when `index + 1 < len(registers)`; otherwise it fails with an index error and never reads out of range |
| `Registers.ReadFloatWords` | custom_components/sensorbox15/sensorbox.py:96-100 | in range, the value is the decoding of `registers[index] * 65536 + registers[index + 1]` |
| `Registers.ReadFloatLocal` | custom_components/sensorbox15/sensorbox.py:96-100 | `read_float` at `index` depends only on the words at `index` and `index + 1` |
| `Registers.PhasePower` | custom_components/sensorbox15/sensorbox.py:84-86 | a phase can be computed exactly when its two words exist |
| `Registers.ParsePowerModule` | custom_components/sensorbox15/sensorbox.py:82-93 | parsing succeeds exactly when the block has at least 20 words (0x12 + 2); on success the keys are exactly the four power keys; `l1_power`, `l2_power` and `l3_power` are the floats read at words 0x10, 0x12 and 0x0E (high word first) each scaled by 230 * calibration, and the total is the sum of the three phases |
| `Registers.PhaseLinear` | custom_components/sensorbox15/sensorbox.py:84-86 | each phase is the decoded float scaled once by the single factor 230 * calibration, for infinities and NaN as well |
| `Registers.PhaseFactor` | custom_components/sensorbox15/sensorbox.py:84-86 | scaling by 230 V and then by the calibration equals one scaling by their product; for a finite reading the phase power is `value * (230 * calibration)`, linear in the calibration |
| `Registers.PhaseWordsOnly` | custom_components/sensorbox15/sensorbox.py:84-86 | L1 depends only on words 0x10/0x11, L2 only on 0x12/0x13, L3 only on 0x0E/0x0F |
| `Registers.OtherWordsIrrelevant` | custom_components/sensorbox15/sensorbox.py:84-86 | two blocks of at least 20 words that agree on words 0x0E..0x13 parse to the same result, whatever their other words and lengths |
| `Registers.CalibrationScales` | custom_components/sensorbox15/sensorbox.py:84-93 | multiplying the calibration by any factor k multiplies all four readings by k; doubling it doubles every phase and the total |
| `Registers.L1Example` | custom_components/sensorbox15/sensorbox.py:84 | words 0x3FC0, 0x0000 at offset 0x10 with calibration 1.0 give `l1_power` = 345.0 |
| `Registers.PowerModuleResult` | custom_components/sensorbox15/sensorbox.py:74-80 | an exception response gives the empty dictionary, with no retry; a raised connection error propagates; a register answer gives exactly `ParsePowerModule`'s dictionary for those words, so it succeeds exactly when it has at least 20 words and then holds the four power keys, each phase being the float at its offset scaled by 230 * calibration |
| `Device.AttemptsFrom` | custom_components/sensorbox15/sensorbox.py:31-53 | counting from attempt k, the loop stops after the first accepted connect or after attempt 3, whichever comes first; every attempt before the last was refused |
| `Device.SetupAttempts` | custom_components/sensorbox15/sensorbox.py:31-53 | a setup makes between 1 and `MAX_RETRIES` = 3 attempts |
| `Device.SetupAttemptsSpec` | custom_components/sensorbox15/sensorbox.py:31-57 | setup connects exactly when one of the first three attempts is accepted, and then it stops at the first accepted one; otherwise it makes exactly 3 attempts |
| `Device.FirstAccepted` | custom_components/sensorbox15/sensorbox.py:33-38 | when attempt k is the first accepted one, setup makes k + 1 attempts |
| `Device.AllRefused` | custom_components/sensorbox15/sensorbox.py:52-57 | when all three attempts fail, setup makes exactly 3 attempts and does not connect |
| `Device.Closed` | custom_components/sensorbox15/sensorbox.py:102-105 | closing keeps an existing client (same host and port) and disconnects it; with no client there is still none |
| `Device.CloseIdempotent` | custom_components/sensorbox15/sensorbox.py:102-105 | closing twice equals closing once, and a closed client is never connected, so the next poll sets up again |
| `Device.Sensorbox.constructor` | custom_components/sensorbox15/sensorbox.py:21-27 | a new object keeps host, port and calibration, and starts with no client and an empty dictionary |
| `Device.Sensorbox.AsyncSetup` | custom_components/sensorbox15/sensorbox.py:29-57 | the number of attempts is `SetupAttempts`; setup succeeds exactly when the last attempt was accepted; on failure the error is "not ready" after exactly 3 attempts; the delays are `RETRY_DELAY` = 5 seconds, one fewer than the attempts (2 after three failures); `client` is the last fresh client, connected exactly on success |
| `Device.Sensorbox.ReadPowerModule` | custom_components/sensorbox15/sensorbox.py:74-80 | the method sends the request (address 0, count 20, unit 10) and its result is `PowerModuleResult` of the device's answer |
| `Device.Sensorbox.AsyncUpdateData` | custom_components/sensorbox15/sensorbox.py:59-72 | setup runs only when there is no client or it is not connected; if that setup fails, the error propagates before any read; otherwise the result is the read's result; on success `data` becomes exactly the returned dictionary and the client is connected, and on failure `data` is unchanged |
| `Device.Sensorbox.AsyncClose` | custom_components/sensorbox15/sensorbox.py:102-105 | the new client is `Closed` of the old one; it is safe with no client; afterwards the next update sets up again |
| `Energy.AsSample` | custom_components/sensorbox15/energy.py:39-47 | a state gives a sample exactly when it is neither "unknown" nor "unavailable" and parses as a number; the sample is that number at the state's update time |
| `Energy.CalculateEnergyUsage` | custom_components/sensorbox15/energy.py:14-59 | an uninitialised recorder gives the distinct error and nothing else does; a missing entity gives 0; otherwise the loop's result is `EnergyOf` of the entity's states |
| `Energy.EnergyStep` | custom_components/sensorbox15/energy.py:38-57 | one loop iteration: a skipped state changes neither the valid samples nor the energy; a valid one is appended and adds the trapezoid from the previous valid sample, or nothing when it is the first |
| `Energy.ValidSamplesSnoc` | custom_components/sensorbox15/energy.py:38-45 | appending a state appends its sample, or nothing when it is skipped |
| `Energy.TrapezoidSumSnoc` | custom_components/sensorbox15/energy.py:49-57 | each new valid sample adds exactly `(p_prev + p_cur)/2 * (dt/3600) / 1000` for the last valid sample before it |
| `Energy.ValidSamplesAppend` | custom_components/sensorbox15/energy.py:38-45 | the valid samples of a concatenation are those of the parts, in order |
| `Energy.FewerThanTwoValid` | custom_components/sensorbox15/energy.py:34-49 | with fewer than two valid samples the energy is 0 |
| `Energy.InvalidStateIgnored` | custom_components/sensorbox15/energy.py:39-57 | inserting an "unknown", "unavailable" or unparseable state anywhere changes neither the valid samples nor the energy |
| `Energy.TrapezoidSumSplit` | custom_components/sensorbox15/energy.py:49-54 | a sample sequence split at a shared sample sums to the sum of the two parts |
| `Energy.EnergySplit` | custom_components/sensorbox15/energy.py:38-57 | additivity: the energy of a history split at a valid state is the energy up to that state plus the energy from it |
| `Energy.TrapezoidSumIsPairSum` | custom_components/sensorbox15/energy.py:49-54 | the accumulated result equals the sum over all consecutive valid pairs of their trapezoids, summed first pair first |
| `Energy.SameInstantContributesNothing` | custom_components/sensorbox15/energy.py:50-54 | two samples with the same timestamp contribute 0, whatever their powers, and there is no division by the interval |
| `Energy.RepeatedStateIgnored` | custom_components/sensorbox15/energy.py:49-57 | a valid state recorded twice in a row counts once |
| `Energy.ConstantPower` | custom_components/sensorbox15/energy.py:49-54 | under a constant power P the sum telescopes to P times the hours from the first to the last sample, divided by 1000 |
| `Energy.ValidSamplesOrdered` | custom_components/sensorbox15/energy.py:38-45 | skipping states keeps the remaining samples in time order |
| `Energy.TrapezoidSumNonNegative` | custom_components/sensorbox15/energy.py:49-54 | samples in time order with non-negative powers sum to a non-negative energy |
| `Energy.EnergyNonNegative` | custom_components/sensorbox15/energy.py:38-57 | a history whose timestamps never decrease and whose valid powers are all at least 0 integrates to at least 0 |
| `Energy.OneAndAHalfKilowattHours` | custom_components/sensorbox15/energy.py:38-57 | 1000 W, then "unavailable", then 2000 W one hour after the first integrate to exactly 1.5 kWh |

## Left out

- Network I/O is not modelled: the pymodbus client, its `connect`, `read_input_registers` and `close`. They are oracles: the outcome of each connect attempt and the answer to the read request.
- The Modbus TCP framing and the byte layout of the request and response PDUs belong to the client library and are not modelled.
- `asyncio.sleep` is not modelled; its durations are returned as the list `delays`. Logging is not modelled. The three kinds of connect failure differ only in their log line.
- Creating `AsyncModbusTcpClient` is taken never to raise. An exception there would leave the previous `client` in place, and the model always installs the fresh client.
- A read that raises leaves the client as it was in the model. Whether pymodbus marks the client disconnected afterwards is not modelled.
- Floating-point rounding is not modelled: the products `value * 230 * calibration` and the sums are exact real arithmetic with IEEE rules for infinities and NaN. Overflow to infinity and the sign of zero are not modelled either. Decoding itself is exact, because every binary32 value is a binary64 value.
- The energy arithmetic is exact real arithmetic; the source's float rounding is not modelled.
- Python's `float()` on a state string is the parameter `parse`. Strings such as "nan" or "inf", which `float()` accepts, are outside what a real-valued `parse` can return.
- The recorder query (`get_significant_states` through the executor) is not modelled; the model takes its result. A recorder that is not initialised is the `RecorderNotInitialized` answer. The query window `start_time`/`end_time` only selects the states and does not appear in the model.
- `dt_util.as_utc` is not modelled: timestamps are taken as integer microseconds in UTC.
- The host's periodic polling (coordinator.py), the configuration flow and its live probe (config_flow.py), sensor presentation and rounding to 2 decimals (sensor.py), and the constants file (const.py) are not part of this model. The defaults it needs (port 26, poll interval 3 s, calibration 1.0) are constants in `Device`.
- The two timers and concurrency between them are not modelled; each operation runs to completion.
