# QuadRF LoRa modem: verified model

A Dafny model of the parts of the modem whose correctness is a matter of
arithmetic and state rather than of signal quality, with proofs of what they
promise each other. `dafny verify dfyconfig.toml` checks all of it.

## What is modelled

**The LoRa coding chain** (`Bits`, `Modulo`, `Crc`, `Gray`, `Hamming`, `Header`,
`WhiteningTable`, `Interleaver`, `SoftHamming`, `Frame`). Payload bytes become whitened nibbles
with a header and a checksum, then Hamming codewords, diagonally interleaved
words and chips, and come back from chip values or from log-likelihood rows.
Encoder and decoder are the program's loops, proved against recursive
functions; `FrameCorrection` and `FrameLimits` prove what the whole chain
guarantees: error correction for entire frames, exact round trips, exact
lengths for any input, and the exact errors the checksum cannot see.
`CrcRemainder` and `HeaderErrors` say what the two checksums are. The
spreading factor is symbolic, from 7 up to 16, the widest the symbol type and
the block buffers hold.

**Receiving** (`HeaderCheck`, `Kalman`, `OptimalTrack`, `SlipSearch`, `FrameEnd`,
`Receiver`). The header check after eight symbols, the carrier filter with its
pass back, the beam search over slips with its shared covariance, the
arbitration at the end of a frame, and the streaming state machine over a
sliding buffer. `OptimalTrack` proves what the filter and the smoother compute:
the cheapest course of the carrier through the observations.

**Exact linear algebra** (`LinearAlgebra`, `Elimination`, `RidgeSolve`,
`Legendre`, `WanderFit`). Gauss-Jordan elimination on the regularised normal
matrix, in place, with its success condition, the Legendre recurrences, and
the problem the wander fit poses.

**Filtering** (`Fir`, `Ddc`). The streaming decimator and the two-stage down
converter against one convolution of the whole stream.

**Transmitting** (`Transmitter`, `Interlock`, `Synth`). The burst queue against
an abstract sample stream; the amplifier interlock as atomic sections of the
transmit thread interleaved with enqueueing, modem changes, shutdown and
outside gain writes; synthesizer words and the oscillator follower.

**Protocols** (`LittleEndian`, `AirIpc`, `ProtoWire`, `PhoneApi`, `MeshAir`,
`Session`). Frame deframing, protobuf messages, mesh frames and the phone
session. `Session.PhoneToPhone` joins them with the coding chain: Data sent
by one phone in a frame damaged within the decoder's tolerance reaches the
other phone unchanged, under an exact condition on the packet.

`Wrappers` and `Numbers` hold what several modules share.

## How the source is rendered

- `double` and `float` values are exact reals. Sample values, demodulator
  results, log-likelihoods, filter designs and the key stream of the channel
  cipher (counter mode, section 6.5 of NIST SP 800-38A) are arbitrary inputs
  or arbitrary functions, so the results hold for whatever they are.
- Fixed-width integers are unbounded numbers with the wrap, the remainder or
  the bound written out where the program has one. `%` in the model never
  returns a negative number; the program reaches the same values by adding
  the modulus first.
- An object whose methods change its fields is a class; each method is proved
  against a function of the old state. What the functions promise is proved in
  lemmas beside them.

## Where the program does not meet a property

Each has a lemma with the input that shows it and, where one exists, the exact
condition under which the property holds.

- A frame with an empty payload, or with more than 255 bytes, does not come
  back: the length byte is taken modulo 256 and zero is an invalid header.
  `FrameCorrection.RoundTripExactly` gives the equivalence.
- An empty burst (no warmup, no gap, an empty frame) ahead of a nonempty one
  makes a pull go silent with samples pending, so two pulls differ from one.
  `Transmitter.EmptyBurstSplits` is the input, `Transmitter.StreamExactly` the
  equivalence.
- A shutdown in the middle of a write lets the mute follow a silent chunk that
  was not written. `Interlock.ShutdownCutsTheChunk` is the run;
  `Interlock.MutesAfterWholeChunks` is the equivalence: the chunk was written
  whole unless a shutdown or a stream error fell between its pull and its last
  sample.
- A phone packet that carries ciphertext besides its Data is sent as the
  ciphertext, so other Data may come back. `Session.CiphertextReplacesData` is
  the input, `Session.DataSurvivesAir`, `Session.LoopbackDelivers` and
  `Session.PhoneToPhone` give the exact condition.
- A phone's configuration request with nonce zero is written as no field and
  so cannot be read back; minus zero as SNR loses its sign.
  `PhoneApi.ToRadioRoundTrip` and `PhoneApi.PacketRoundTrip` say exactly what
  comes back.
- The synthesizer misses a request from zero up by more than half a step
  exactly when the rounded step count does not fit the dividers
  (`Synth.WithinHalfStep`); nothing up to 10 GHz is affected.

## Where code and documentation differ

The model follows the code.

- `include/phy/dsp/ddc.hpp:19` announces floor((hist + n) / decim) outputs per
  call. Over all calls the filter emits the number of samples fed over the
  decimation, rounded up (`Fir.DecimatingFir.Process`, `Fir.CeilDivBounds`).
- `apps/quadrf_lora_phy.cpp:842-848` says that muting waits for the write of
  pure silence; the shutdown case above is the exception.

## Model

| member | source | states |
|---|---|---|
| `Crc.ShiftByte` | src/lora/coding.cpp:31-41 | the loop that shifts one byte into the register, bit by bit, computes the CRC step used by the algebra below |
| `Crc.ComputePayloadCrc` | src/lora/coding.cpp:43-57 | the loop over all but the last two bytes, with those two entering by exclusive or, computes the payload checksum of any payload, the short ones included |
| `Crc.PayloadCrcLinear` | src/lora/coding.cpp:31-57 | the checksum of the difference of two payloads of one length is the difference of their checksums |
| `Crc.AdjacentBytesDetected` | src/lora/coding.cpp:43-57 | payloads that differ at most in two adjacent bytes, at any position of the pair including the tail, have equal checksums if and only if they are equal |
| `Crc.CollisionShape` | src/lora/coding.cpp:43-57 | the exact shape of every undetected error: two payloads collide if and only if the CRC register over the differing heads equals the difference of the last two bytes |
| `CrcRemainder.ChecksumIsRemainder` | src/lora/coding.cpp:31-57 | from two bytes on, the payload checksum is the remainder of the payload, read as one polynomial over GF(2), by x^16 + x^12 + x^5 + 1: the last two bytes go in unmultiplied |
| `CrcRemainder.ShortChecksumIsRemainder` | src/lora/coding.cpp:43-51 | below two bytes it is the remainder of the payload times x^16 |
| `CrcRemainder.RemainderUnique` | src/lora/coding.cpp:31-41 | there is only one such remainder, and one quotient, so the checksum is it |
| `Gray.ComputeGrayDecode` | src/lora/coding.cpp:159-165 | the loop of shifts and exclusive ors computes the gray decoding of a word of any width |
| `Gray.GrayMapsInverse` | src/lora/coding.cpp:159-169 | the two gray maps undo each other, in both orders, on words of any width |
| `Gray.PlainRead` | src/lora/coding.cpp:316-323 | a full-rate word is read back if and only if the received chip is the chip sent modulo 2^sf |
| `Gray.ReducedLattice` | src/lora/coding.cpp:183-187 | the parity bit and the zero force the chip of every reduced-rate word onto 4q + 1 |
| `Gray.DecisionWindow` | include/phy/lora/coding.hpp:49-56 | the value under a lattice chip is read if and only if the chip error modulo 2^sf is -1, 0, 1 or 2 |
| `Gray.ReducedRead` | include/phy/lora/coding.hpp:49-56 | the data bits of a reduced-rate word come back if and only if the received chip lies in that window around the chip sent |
| `Hamming.EncodedBits` | src/lora/coding.cpp:98-114 | bit by bit, what the packed codeword of each rate carries: four data bits and then the parities of that rate |
| `Hamming.DecodeErrorPattern` | src/lora/coding.cpp:116-157 | decoding is translation invariant: the effect of an error pattern does not depend on the codeword it hits |
| `Hamming.Recovered` | src/lora/coding.cpp:116-157 | a nibble is recovered from a damaged codeword if and only if the decoder maps the bare error pattern to zero |
| `Hamming.SingleBitPattern` | src/lora/coding.cpp:133-152 | at rates 3 and 4 every pattern of at most one bit is mapped to zero |
| `Hamming.HammingCorrects` | src/lora/coding.cpp:98-157 | one wrong bit anywhere is corrected at rates 3 and 4, and an intact codeword decodes at every rate |
| `Header.HeaderRoundTrip` | src/lora/coding.cpp:61-96 | a header parses to what it was built from, and is valid unless the length is zero |
| `HeaderErrors.HeaderWord` | src/lora/coding.cpp:76-85 | the first three header nibbles, read together, are sixteen times the length, twice the rate and the flag |
| `HeaderErrors.ChecksumLinear` | src/lora/coding.cpp:61-72 | the header checksum of combined nibbles is the combination of the checksums |
| `HeaderErrors.ChecksumColumns` | src/lora/coding.cpp:61-72 | the column each of the twelve data bits contributes to it |
| `HeaderErrors.HeadersApart` | src/lora/coding.cpp:61-96 | two received headers that agree with their checksums are the same in all seventeen bits or differ in at least three |
| `HeaderErrors.HeaderErrorsDetected` | src/lora/coding.cpp:76-96 | a header with one or two of its seventeen bits wrong is never taken for valid, whatever it announces |
| `WhiteningTable.TableOpens` | src/lora/coding.cpp:12-14 | the shift register that stands for the whitening table runs through its first row |
| `Header.StreamRoundTrip` | src/lora/coding.cpp:221-292 | payload and checksum read back from the whitened nibble stream, whatever follows it |
| `Header.CrcRoundTrip` | src/lora/coding.cpp:234-292 | the four checksum nibbles assemble to the checksum that was sent |
| `Interleaver.InterleaveBlock` | src/lora/coding.cpp:171-190 | the loops fill exactly the first symbols of the block with the diagonal words, reduced-rate suffix included, and leave the rest of the buffer alone |
| `Interleaver.DeinterleaveBlock` | src/lora/coding.cpp:192-202 | the loops gather every codeword from its diagonal and leave the rest of the buffer alone |
| `Interleaver.OwnerInverse` | src/lora/coding.cpp:178-179 | in each symbol the map between bit position and codeword is its own inverse |
| `Interleaver.DiagonalBit` | src/lora/coding.cpp:178-183 | bit j of symbol i, from the top, is bit i of the codeword j + 1 below i around the block, so bit 0 of symbol 0 comes from the last codeword |
| `Interleaver.DamageStaysInOneBit` | src/lora/coding.cpp:171-202 | whatever replaces symbol k, every codeword keeps all its bits but one |
| `Interleaver.BlockRoundTrip` | src/lora/coding.cpp:171-202 | gathering undoes the interleaver on intact blocks |
| `Interleaver.ReducedSymbol` | src/lora/coding.cpp:183-187 | a reduced-rate symbol holds its data above a parity bit and a zero, and fits in sf bits |
| `SoftHamming.HammingDecodeSoft` | src/lora/coding.cpp:454-479 | the search loop returns the first best nibble with a margin that is never negative, that every other codeword trails by at least, and that one trails by exactly as soon as one other scores at least -1e300 |
| `SoftHamming.MarginAttained` | src/lora/coding.cpp:467-477 | the same about the margin as a function of the log-likelihoods: nonnegative, respected by every other codeword and attained by one |
| `SoftHamming.MaximumLikelihood` | src/lora/coding.cpp:454-479 | for arbitrary real log-likelihoods no codeword scores more than the chosen one, and every other one trails it by at least the reported margin |
| `SoftHamming.MarginProtects` | include/phy/lora/coding.hpp:117-119 | a change of the log-likelihoods that is smaller in total than the margin keeps the nibble |
| `SoftHamming.SignsDecide` | src/lora/coding.cpp:454-479 | log-likelihoods with the signs of a codeword decode to its nibble at every rate |
| `SoftHamming.SoftCorrects` | src/lora/coding.cpp:454-479 | at rates 3 and 4 one bit may say anything below cr - 1 times the support of the others |
| `SoftHamming.MinimumDistance` | src/lora/coding.cpp:98-114 | different codewords differ in at least cr bits at rates 3 and 4 |
| `Frame.BuildStream` | src/lora/coding.cpp:221-240 | the encoder's loops build the header, the whitened payload low nibble first, and the checksum nibbles |
| `Frame.EncodeStream` | src/lora/coding.cpp:242-267 | the block loop emits the header block and then payload blocks until every nibble is sent |
| `Frame.EncodeFrame` | src/lora/coding.cpp:217-268 | the encoder emits the chips of the specified frame for every payload |
| `Frame.DecodeHardBlock` | src/lora/coding.cpp:307-330 | one block of chips to nibbles, as gather and Hamming decoding of what the chips read as |
| `Frame.DecodeFrame` | src/lora/coding.cpp:296-350 | for any symbol vector the decoding loop terminates, stays in bounds and computes the specified result, with its early exits |
| `Frame.FinishPayload` | src/lora/coding.cpp:273-292 | dewhitened bytes and checksum test from a complete nibble stream |
| `Frame.DecodeSoftBlock` | src/lora/coding.cpp:493-518 | one block of log-likelihood rows scattered to codewords and decided with margins |
| `Frame.DecodeFrameSoft` | src/lora/coding.cpp:481-551 | the soft decoding loop computes the specified result for any rows |
| `Frame.LeastPairMargin` | src/lora/coding.cpp:539-548 | the loop over the four pairs of a tail nibble and its checksum partner: no pair has both margins below the result, and unless it is unbounded some pair has it as its larger margin |
| `FrameCorrection.BlockSurvives` | src/lora/coding.cpp:98-202 | a block with one arbitrary symbol (rates 3 and 4) or arbitrary parity symbols (rates 1 and 2), all others in their windows, decodes to its nibbles |
| `FrameCorrection.BlockExact` | src/lora/coding.cpp:116-157 | at every rate a block decodes to its nibbles if and only if the decoder maps the error pattern of each of its codewords to zero |
| `FrameCorrection.PatternBit` | src/lora/coding.cpp:192-202 | bit i of a codeword's error pattern is set if and only if symbol i was read with the wrong bit for that codeword |
| `FrameCorrection.LowRateExact` | src/lora/coding.cpp:153-156 | at rates 1 and 2 that tolerance is exact: the block decodes to its nibbles if and only if its four data symbols land |
| `FrameCorrection.FrameLength` | src/lora/coding.cpp:204-268 | the encoder emits exactly frameSymbolCount symbols |
| `FrameCorrection.FrameDecoded` | src/lora/coding.cpp:296-350 | if every block reads right the whole result is determined: header, payload, passing checksum and symbols consumed, whatever rows follow |
| `FrameCorrection.DamagedFrameDelivered` | src/lora/coding.cpp:217-350 | error correction for whole frames: one replaced symbol in the header block and in each payload block of rate 3 or 4, every other symbol within its window, and the decoder still returns the frame sent, for payloads of 1 to 255 bytes |
| `FrameCorrection.RoundTripExactly` | src/lora/coding.cpp:217-350 | an undamaged frame round trips if and only if its payload has 1 to 255 bytes, at every rate, checksum setting and LDRO setting |
| `FrameCorrection.SoftFrameDelivered` | src/lora/coding.cpp:481-551 | soft decoding delivers the frame when every bit has the sign of the bit sent, and with one weak liar in each block of rate 3 or 4 |
| `FrameLimits.LengthDecides` | src/lora/coding.cpp:296-350 | for any rows with a valid header the payload appears if and only if the announced number of symbols is there, and exactly that many are consumed |
| `FrameLimits.ConsumedRowsDecide` | src/lora/coding.cpp:296-350 | the result depends on no symbol behind those consumed, and its header on the first eight alone |
| `FrameLimits.TailBlindness` | src/lora/coding.cpp:43-57 | a stream that differs from a passing one only in the last two bytes and the checksum passes if and only if each of the four nibble pairs carries one and the same change on both sides |
| `FrameLimits.TailMarginGuards` | src/lora/coding.cpp:535-548 | two different passing decisions with the same head differ in a nibble that was decided with at least the tail margin |
| `HeaderCheck.HeaderCheck.CheckHeader` | src/lora/receiver.cpp:1377-1455 | nothing happens before eight symbols or twice; else the hard header, the soft header, the first shift or the first rival with a valid header is accepted and fixes the symbol count, or the state is left as it was |
| `HeaderCheck.HeaderCheck.TryShifts` | src/lora/receiver.cpp:1389-1427 | the first shift that gives a valid header is applied to values, soft rows, observations and references alike; without one nothing changes |
| `HeaderCheck.HeaderCheck.MoveAll` | src/lora/receiver.cpp:1409-1424 | one accepted shift moves the whole tracked state |
| `HeaderCheck.ShiftIsCoherent` | src/lora/receiver.cpp:1410-1424 | a shift keeps the soft evidence under every value and every residual against the carrier reference |
| `HeaderCheck.NeededIsExact` | src/lora/receiver.cpp:1449-1454 | whatever later symbols read, the header decoded from the values stays the accepted one, and the payload is there from the announced symbol count on and not before |
| `HeaderCheck.DisplacementsCovered` | src/lora/receiver.cpp:1400-1405 | the list of shifts covers an unbroken range of chip displacements, modulo 2^sf, and nothing outside it: -2 to 3, or -1 - 4k to 2 + 4k under wander |
| `HeaderCheck.LatticeStepsEnough` | src/lora/receiver.cpp:1400-1401 | the lattice steps tried reach one and a half times the expected wander with none to spare, between one step and eight |
| `HeaderCheck.DisplacedHeaderFound` | src/lora/receiver.cpp:1389-1427 | a header that one shift of the list brings into its windows, one symbol replaced besides, is never given up, and is read as sent unless an earlier candidate parses too |
| `HeaderCheck.CommonDisplacementFound` | src/lora/receiver.cpp:1389-1427 | any common displacement in that range never costs a frame its header |
| `LinearAlgebra.InverseBothSides` | src/lora/wander.cpp:86-94 | for a symmetric matrix a left inverse is symmetric and an inverse on both sides |
| `Elimination.EquivalentKept` | src/lora/wander.cpp:57-85 | two augmented matrices whose rows come from each other say the same about every vector |
| `Elimination.ReducedIsInverse` | src/lora/wander.cpp:86-94 | once the left half is the identity the right half is the inverse |
| `Elimination.StuckMeansNearlySingular` | src/lora/wander.cpp:64-66 | an elimination stuck in some column exhibits a vector that the original matrix nearly annihilates |
| `RidgeSolve.BuildNormal` | src/lora/wander.cpp:35-48 | the accumulation loops build diag(prior) + A'WA and A'Wy |
| `RidgeSolve.FindPivot` | src/lora/wander.cpp:58-63 | the largest entry of the column at or below the diagonal |
| `RidgeSolve.BringUp` | src/lora/wander.cpp:67-71 | exchanging rows keeps the augmented matrix equivalent to the one it came from |
| `RidgeSolve.Normalise` | src/lora/wander.cpp:72-75 | scaling the pivot row keeps it equivalent and makes the pivot one |
| `RidgeSolve.ClearRow` | src/lora/wander.cpp:76-84 | subtracting the pivot row keeps it equivalent and clears one entry of the column |
| `RidgeSolve.GaussJordan` | src/lora/wander.cpp:57-85 | success leaves the inverse in the right half; failure happens only for a matrix that sends some vector with a unit entry to one with every entry below the pivot bound |
| `RidgeSolve.Solve` | src/lora/wander.cpp:29-95 | success means cov is symmetric and inverse to the normal matrix on both sides and x solves the normal equations, for any number of rows; nonnegative weights succeed with a prior on every parameter, and also without one on the first when a weighted row holds it |
| `RidgeSolve.SolutionIsOptimal` | include/phy/lora/wander.hpp:46-50 | the cost of any other vector is the solution's cost plus the curvature of the difference, so with nonnegative weights and priors none is smaller |
| `RidgeSolve.RegularisedIsRegular` | src/lora/wander.cpp:64-66 | a regularised normal matrix is never nearly singular |
| `RidgeSolve.AnchoredIsRegular` | src/lora/wander.cpp:64-66 | without a prior on the first parameter one weighted row whose first entry is 1 keeps the normal matrix away from singular |
| `Legendre.DerivativeRecurrence` | src/lora/wander.cpp:22-26 | the program's short recurrence is the derivative of the value recurrence, at every order and point |
| `Legendre.LegendreAt` | src/lora/wander.cpp:16-27 | the loop stores values and derivatives of all orders |
| `WanderFit.Configure` | src/lora/wander.cpp:97-113 | at the clamped order the prior is zero on the constant and the inverse square of the expected size, never below 0.02, on every other coefficient |
| `WanderFit.PriorSizes` | src/lora/wander.cpp:97-113 | the expected size of coefficient i is the wander over 1 + i, or 0.02 if that is more |
| `WanderFit.ValueBound` | src/lora/wander.cpp:16-27 | on the symbol no Legendre value of order n exceeds 3^n |
| `WanderFit.FitIsAnchored` | src/lora/wander.cpp:204-219 | the fit's own problem, with that prior and Legendre rows, is one the solver is bound to solve as soon as one weight is at least 1e-290 |
| `Kalman.PredictPsd` | src/lora/receiver.cpp:1488-1492 | prediction keeps a covariance a covariance |
| `Kalman.UpdatePsd` | src/lora/receiver.cpp:1493-1497 | conditioning on an observation keeps it one, with the position gain in [0, 1) and neither variance growing |
| `Kalman.StepValid` | src/lora/receiver.cpp:1487-1499 | one recursion step has a strictly positive innovation variance and a valid covariance |
| `Kalman.RunValid` | src/lora/receiver.cpp:1484-1499 | over every time-ordered list of observations with q >= 0 the covariance stays valid and the cost never falls |
| `Kalman.RunGains` | src/lora/receiver.cpp:1484-1499 | over every such list each innovation variance is strictly positive and each position gain is in [0, 1) |
| `Kalman.GatedGains` | src/lora/receiver.cpp:1281-1308 | the same at every observation of a gated pass, the skipped ones included |
| `Kalman.SharedClock` | src/lora/receiver.cpp:1485-1499 | gains and covariance depend on the times and weights only, not on the values observed |
| `Kalman.WanderProcessQ` | include/phy/lora/wander.hpp:33-41 | the process intensity is capped so that one symbol adds at most the squared expected wander |
| `Kalman.ProcessQIs` | include/phy/lora/wander.hpp:33-41 | the intensity is q T^5 where one symbol of it stays below the squared expected wander, and otherwise the one that adds exactly that |
| `Kalman.CarrierFilter.SmoothSymbol` | src/lora/receiver.cpp:1268-1348 | a symbol's gated forward pass leaves the state of an ordinary filter run over exactly the observations that were not skipped, keeps the covariance valid, meets a positive innovation variance and a position gain in [0, 1) at every observation, and records the run for the pass back, which is made from two observations on |
| `Kalman.CarrierFilter.Observe` | src/lora/receiver.cpp:1281-1308 | an observation beyond four standard deviations is skipped, never the first one; any other one is folded in by the filter's step and recorded |
| `Kalman.SmoothBack` | src/lora/receiver.cpp:1318-1347 | the loop back over the records computes the smoothing recursion, the skip of a nearly singular prediction included |
| `OptimalTrack.NoCourseIsCheaper` | src/lora/receiver.cpp:1484-1499 | for every course of the carrier through the observations, bent or straight: what it deviates from the prior, what its bends cost against the process noise and what the observations say against it are together at least the filter's cost and the deviation of its end from the filter's final state |
| `OptimalTrack.CheapestCourse` | src/lora/receiver.cpp:1484-1499 | and to every end there is a course that costs exactly that |
| `OptimalTrack.FilterIsOptimal` | src/lora/receiver.cpp:1281-1308 | so the filter's final state is the end of the cheapest course, and only it is, and the filter's cost is what that course costs |
| `OptimalTrack.BendIsDeviation` | src/lora/receiver.cpp:1488-1490 | the cost of a bend is the deviation of the departure under what the process noise adds |
| `OptimalTrack.ExactObservations` | src/lora/receiver.cpp:1281-1308 | observations of a straight course on which the filter stands cost it nothing and keep it there |
| `OptimalTrack.SmootherIsOptimal` | src/lora/receiver.cpp:1318-1347 | the smoothed points are the cheapest course of all through the observations, as long as no predicted covariance has a determinant below 1e-18 |
| `OptimalTrack.NoiseOf` | src/lora/receiver.cpp:1493 | an observation's variance is one over its weight and the square of three hundredths of a chip |
| `OptimalTrack.StartDeviation` | src/lora/receiver.cpp:1481-1482 | the prior of a slip path: a thousand chips for the carrier, 4 sigma + 1 a symbol for its drift |
| `OptimalTrack.ScoreIsLeast` | src/lora/receiver.cpp:1500-1520 | a list of offsets never scores more than six for each slip and what any course of the carrier costs through the observations moved by the offsets |
| `OptimalTrack.ScoreIsAttained` | src/lora/receiver.cpp:1500-1520 | and for one course it scores exactly that |
| `SlipSearch.SharedGains` | src/lora/receiver.cpp:1485-1499 | the covariance recursion, run once per symbol, gives every path's gains |
| `SlipSearch.Carry` | src/lora/receiver.cpp:1508-1514 | a path carried with the shared gains is where its own filter over the shifted observations would be |
| `SlipSearch.CarriedScores` | src/lora/receiver.cpp:1502-1516 | a carried path's metric is six per slip plus the innovation cost of a filter run alone on the longer offset list |
| `SlipSearch.PartialSort` | src/lora/receiver.cpp:1518-1520 | the kept paths come in order of metric and none left out is better, as a rearrangement of the candidates |
| `SlipSearch.KeepBest` | src/lora/receiver.cpp:1518-1521 | at most 48 distinct candidates are kept, sorted, with nothing better left out |
| `SlipSearch.CandidatesComplete` | src/lora/receiver.cpp:1500-1517 | every admissible one-symbol extension of a kept path is among the candidates |
| `SlipSearch.CandidatesDistinct` | src/lora/receiver.cpp:1500-1517 | no offset list is a candidate twice |
| `SlipSearch.PickedIsStep` | src/lora/receiver.cpp:1518-1526 | keeping the selected candidates is one step of the specified beam |
| `SlipSearch.Advance` | src/lora/receiver.cpp:1484-1527 | one symbol of the search takes the beam, with true scores, one specified step on |
| `SlipSearch.TraceBack` | src/lora/receiver.cpp:1528-1536 | following the parent pointers returns exactly the offsets the path carried |
| `SlipSearch.Search` | src/lora/receiver.cpp:1457-1537 | the paths returned are the last beam of a run of the specified beam search |
| `SlipSearch.SlipSearch` | src/lora/receiver.cpp:1457-1537 | no paths without symbols or without a wander model, else the last beam |
| `SlipSearch.BeamShape` | src/lora/receiver.cpp:1500-1527 | every survivor has one offset per symbol, starts and moves by nothing or one chip, or four at a reduced-rate symbol, up or down, and occurs once |
| `SlipSearch.BeamSize` | src/lora/receiver.cpp:1518-1521 | after k symbols there are exactly min(3^k, 48) survivors |
| `SlipSearch.CostMonotone` | src/lora/receiver.cpp:1506-1514 | a prefix never costs more than the whole list |
| `SlipSearch.SurvivesOrBeaten` | src/lora/receiver.cpp:1500-1527 | any admissible offset list survives or was met on its way by a full beam that scores no worse |
| `SlipSearch.ExhaustiveWhileSmall` | src/lora/receiver.cpp:1457-1537 | while 3^n <= 48 every admissible list survives and the first survivor is the best of all |
| `FrameEnd.FrameEnd.FinalizeData` | src/lora/receiver.cpp:1539-1779 | exactly one frame is queued; its values, result, synchronisation flag and soft mark follow from the undone slips, the settled arbitration and the confirmation of a weak pass, and the count of softly decoded frames goes with the mark |
| `FrameEnd.FrameEnd.UndoSlips` | src/lora/receiver.cpp:1540-1583 | only a frame that fails its checksum is moved along a slip path, values and soft rows together, along the first path that passes or else the best one |
| `FrameEnd.PickPath` | src/lora/receiver.cpp:1566-1573 | the first path whose values pass, else path zero |
| `FrameEnd.FrameEnd.Arbitrate` | src/lora/receiver.cpp:1585-1726 | a frame that does not fail its checksum stands as the hard decoder reads it; one that fails is the soft decoder's where that passes on its rows as they are, and otherwise goes through the repairs; the synchronisation flag is set by a soft pass and by a first hard pass with a checksum |
| `FrameEnd.FrameEnd.SearchRepairs` | src/lora/receiver.cpp:1605-1726 | the candidates are tried in the listed order up to the first that passes; when none does, the soft decoder a chip down, then a chip up, and else the failed frame as it was |
| `FrameEnd.FrameEnd.Repair` | src/lora/receiver.cpp:1605-1712 | the candidates tried are a start of the list of repairs, and none before the last passes |
| `FrameEnd.FrameEnd.TryDecode` | src/lora/receiver.cpp:1606-1614 | a candidate is adopted, values and result together, only if its header is valid and its checksum passes |
| `FrameEnd.FrameEnd.RetrySoft` | src/lora/receiver.cpp:1595-1604 | the soft decoder replaces the result only when it passes with a sufficient tail margin |
| `FrameEnd.FrameEnd.Confirm` | src/lora/receiver.cpp:1732-1758 | a weak hard pass keeps its checksum flag only if the soft path passes with the same payload, on rows moved with the values |
| `FrameEnd.QueuedFrameIsConsistent` | src/lora/receiver.cpp:1539-1779 | a queued frame not marked soft-decoded carries header and payload of the hard decode of its values; with checksums on, a passing frame has the header flag; at most 117 + 2n repairs were tried and none before the last passes |
| `FrameEnd.OnlyFailedFramesRepaired` | src/lora/receiver.cpp:1595-1726 | a frame is repaired or decoded softly if and only if its header is valid, announces a checksum, and the checksum fails |
| `FrameEnd.FailedFramePassedNowhere` | src/lora/receiver.cpp:1595-1758 | a frame queued as failed although the soft decoder is on passed at none of its three shifts and with none of the repairs, unless the confirmation withdrew a pass |
| `FrameEnd.SoftPassExactly` | src/lora/receiver.cpp:1595-1604 | a soft result passes if and only if the raw one does, with the header flag the link asks for and at least the tail margin |
| `FrameEnd.ChipStepExactly` | src/lora/receiver.cpp:1737-1743 | a symbol counts as moved a chip up or down if and only if it reads what that move makes of it |
| `FrameEnd.RepairCount` | src/lora/receiver.cpp:1616-1711 | the list of repairs of n symbols has at most 117 + 2n entries |
| `FrameEnd.EvidenceFollows` | src/lora/receiver.cpp:40-46 | a value and its soft row moved by the same shift still meet at the same evidence |
| `FrameEnd.Anchors` | src/lora/receiver.cpp:1623-1634 | at most six symbols read more than a quarter chip off, worst first, and none left out is worse |
| `FrameEnd.Rivals` | src/lora/receiver.cpp:1675-1680 | at most eight rivals, closest first, and none left out was closer |
| `Receiver.Receiver.Feed` | src/lora/receiver.cpp:159-163 | a chunk extends the stream and is processed; buffer, base and absolute position stay one slice of it |
| `Receiver.Receiver.Append` | src/lora/receiver.cpp:160-161 | taking in a chunk keeps that slice, whatever the receiver is at and whatever the signal processing does |
| `Receiver.Receiver.Process` | src/lora/receiver.cpp:209-221 | if every frame, wherever it may end, resumes searching past the run it was found in, the loop stops: in SEARCH with fewer than 6 sps + sps/2 + 8 samples, in SYNC short of its span, in DATA waiting for a window (or at a ratio that is not positive) |
| `Receiver.Receiver.SmallCorrectionsResume` | src/lora/receiver.cpp:951-964 | frames do resume past their run when they start no earlier than it and no correction, trial shift included, takes back more than a symbol at the ratios that occur |
| `Receiver.Receiver.StepSearch` | src/lora/receiver.cpp:223-260 | every window read lies inside the buffer and the scan advances by a symbol; SYNC is entered at the start of six windows in a row that are strong and near one another, and no six such windows since the search began are passed over |
| `Receiver.Receiver.StepSync` | src/lora/receiver.cpp:262-273 | waits for the whole synchronisation span, then enters DATA at the start found or resumes searching past the run, whatever the outcome |
| `Receiver.Receiver.StepData` | src/lora/receiver.cpp:787-811 | whatever the symbols come to: stops only for a window that is not yet there; otherwise the frame ends, with every symbol called for by what the one before it announced, and because the count announced last is reached, or a symbol called it off, or it is the longest possible, or the buffer is lost; searching resumes no earlier than a symbol past its start plus the moves of all its symbols, so past the run whenever that is |
| `Receiver.Receiver.Collect` | src/lora/receiver.cpp:791-811 | the loop over the symbols ends because the frame is done, for one of those reasons, or waits with fewer symbols than announced |
| `Receiver.Receiver.FullCount` | src/lora/receiver.cpp:791 | a frame that ends with its count full has exactly the number announced, unless its last symbol lowered that |
| `Receiver.Receiver.TakeSymbol` | src/lora/receiver.cpp:791-974 | one symbol, whatever it comes to: its first window is sampled at the position reached, the one kept at the shift kept, all in full and in bounds; the position moves by the symbol's length, the shift and the correction; the count announced and the call to stop are this symbol's; a first window that comes out short, at a ratio that is not positive, changes nothing |
| `Receiver.Receiver.Refine` | src/lora/receiver.cpp:856-894 | a trial shift whose window is not in the buffer is passed over; the shift kept is none or one of those tried, and its window is whole when it is read again |
| `Receiver.Receiver.ReadWindow` | src/lora/receiver.cpp:864-872 | a window is interpolated at positions inside the buffer only and is whole if and only if all its positions are; at a positive ratio one that passes the length test is |
| `Receiver.Receiver.Resample` | src/dsp/resampler.cpp:38-51 | every sample produced was readable, and a window readable throughout is produced in full |
| `Receiver.Receiver.TrimFront` | src/lora/receiver.cpp:193-200 | trimming keeps the buffer a slice of the stream, never past what has arrived |
| `Receiver.Receiver.ResetToSearch` | src/lora/receiver.cpp:202-207 | searching never resumes before the buffer |
| `Receiver.Receiver.Flush` | src/lora/receiver.cpp:173-178 | a frame under way, and only that, is finished at the end of the stream |
| `Receiver.WindowReadable` | src/lora/receiver.cpp:791-805 | every interpolation position of a window that passes the length test lies inside the buffer |
| `Fir.DecimatingFir.Process` | src/dsp/ddc.cpp:113-123 | for any chunking the outputs of all calls together are the zero-history convolution of everything fed, decimated |
| `Fir.FilteredPrefix` | src/dsp/ddc.cpp:113-123 | what has been emitted stays right however the stream goes on |
| `Fir.CeilDivBounds` | src/dsp/ddc.cpp:113-123 | the number of outputs after n samples is n over the decimation, rounded up |
| `Ddc.TwoStagesAreOne` | src/dsp/ddc.cpp:155-171 | filtering with h1 and decimating by m1, then with h2 by two, is one filter with taps summed over i + j m1, decimated by 2 m1 |
| `Ddc.CascadeResponse` | src/dsp/ddc.cpp:158-172 | the constructor's double loop tabulates exactly those taps |
| `Ddc.CascadeIsNested` | src/dsp/ddc.cpp:161-169 | a window under the cascade taps is the second filter's sum over windows under the first |
| `Ddc.CountsAgree` | src/dsp/ddc.cpp:263-269 | decimating twice gives as many outputs as decimating once by the whole ratio |
| `Ddc.TableWalk` | src/dsp/ddc.cpp:190-198 | walking the oscillator table of repeated periods is walking the period |
| `Ddc.TimesAlgebra` | src/dsp/ddc.cpp:222-244 | the mixer's product is that of complex numbers: one is neutral, i squared is minus one, it associates, commutes and distributes |
| `Ddc.Ddc.Mix` | src/dsp/ddc.cpp:222-250 | a chunk is mixed with the oscillator at its place in the whole stream, wrapping in the table |
| `Ddc.Ddc.Process` | src/dsp/ddc.cpp:216-270 | for any chunking the outputs of all calls together are one convolution of the whole mixed stream, or the stream itself when passed through |
| `Ddc.Ddc.constructor` | src/dsp/ddc.cpp:125-204 | which stages exist for a ratio, and that a new converter has seen nothing |
| `Transmitter.Transmitter.PullInto` | src/lora/transmitter.cpp:79-97 | the loop fills the buffer with the next samples of the line and leaves the rest of the line |
| `Transmitter.Transmitter.StartNextBurst` | src/lora/transmitter.cpp:46-62 | the next waiting frame becomes the burst, only when none is on the air: sample by sample the carrier at its amplitude, then the frame, then silence |
| `Transmitter.Transmitter.FillFromBurst` | src/lora/transmitter.cpp:64-77 | what fits of the burst is copied and no longer pending |
| `Transmitter.Transmitter.Enqueue` | src/lora/transmitter.cpp:15-24 | a payload of at most 255 bytes is encoded, modulated and queued last; a longer one changes nothing |
| `Transmitter.Transmitter.EnqueueFrame` | src/lora/transmitter.cpp:26-29 | a frame is queued last |
| `Transmitter.Transmitter.ClearQueue` | src/lora/transmitter.cpp:41-44 | waiting frames are dropped, the burst on the air is not truncated |
| `Transmitter.Transmitter.IsIdle` | src/lora/transmitter.cpp:36-39 | idle if and only if no frame waits and no sample of a burst is left |
| `Transmitter.PullsTheStream` | src/lora/transmitter.cpp:46-97 | an unbroken queue is pulled as the concatenation of its bursts, silence only after its end |
| `Transmitter.StreamExactly` | src/lora/transmitter.cpp:46-97 | nothing pending is skipped for silence, at any length of pull, if and only if no empty burst waits ahead of one with samples |
| `Transmitter.PaddedIsUnbroken` | src/lora/transmitter.cpp:46-62 | with any warmup or gap every queue is unbroken, whatever the frames |
| `Transmitter.PullSplits` | src/lora/transmitter.cpp:79-97 | two pulls are one longer pull |
| `Transmitter.EnqueueAppends` | src/lora/transmitter.cpp:26-29 | queueing appends the frame's burst to the stream |
| `Transmitter.NothingLostOrRepeated` | src/lora/transmitter.cpp:26-97 | over any run of queueing, pulling and clearing in which no empty burst is queued ahead of one with samples: sent and pending together are the rest of the first burst and the bursts of the frames kept, whole and first in first out, where only frames still waiting at a clear are not kept; and each pull is silent only behind the last pending sample |
| `Transmitter.QueueIsSuffix` | src/lora/transmitter.cpp:26-97 | at every point of a run the frames waiting are the last ones queued, and all of them still count as kept |
| `Transmitter.NonemptyIsUnbroken` | src/lora/transmitter.cpp:46-62 | runs of nonempty bursts meet that condition |
| `Transmitter.EmptyBurstSplits` | src/lora/transmitter.cpp:79-97 | the input on which it fails: an empty frame without warmup and gap makes two pulls differ from one |
| `Interlock.StepKeepsSafe` | apps/quadrf_lora_phy.cpp:839-888 | every atomic section of every thread keeps the interlock |
| `Interlock.RunsAreSafe` | apps/quadrf_lora_phy.cpp:693-888 | in every state of every interleaving: non-silent samples were written unmuted, and every mute followed an all-silence chunk and brought back the gain of the matching unmute |
| `Interlock.MutesAfterWholeChunks` | apps/quadrf_lora_phy.cpp:851-886 | every mute of every run followed an all-silence chunk, and the chunk had been written whole if and only if no shutdown or stream error fell between its pull and its last sample |
| `Interlock.WholeChunkExactly` | apps/quadrf_lora_phy.cpp:864-874 | the same equivalence at every mute check, whether it mutes or not |
| `Interlock.GainComesBack` | apps/quadrf_lora_phy.cpp:719-754 | in every run a mute brings the receive gain back to what it was at the matching unmute, whatever was written to it in between, or to the configured one after a failed readback, and puts the amplifier off |
| `Interlock.DuckedWhileOn` | apps/quadrf_lora_phy.cpp:719-754 | in every run the receive gain is zero while the amplifier is on, unless somebody else wrote it since the unmute |
| `Interlock.WantedToSend` | apps/quadrf_lora_phy.cpp:852-874 | in every iteration of every run the amplifier is wanted if and only if there was something to send before the pull, and is then on from the first write on |
| `Interlock.UnmutesOnlyToSend` | apps/quadrf_lora_phy.cpp:852-863 | it goes on only in an iteration that found something to send |
| `Interlock.ShutdownCutsTheChunk` | apps/quadrf_lora_phy.cpp:864-886 | the run on which a mute follows a chunk of which nothing was written, for every chunk length, carrier, gap and frame: a shutdown right before the silent chunk is written |
| `Interlock.TwoSilentChunksMute` | apps/quadrf_lora_phy.cpp:875-886 | with nothing to send two silent chunks put the amplifier off and bring the gain back |
| `Interlock.RadioThread.PullSection` | apps/quadrf_lora_phy.cpp:852-859 | the section under the modem lock is one step of the protocol and keeps it safe |
| `Interlock.RadioThread.UnmuteSection` | apps/quadrf_lora_phy.cpp:860-863 | the unmute section is one step of the protocol and keeps it safe |
| `Interlock.RadioThread.CheckSection` | apps/quadrf_lora_phy.cpp:875-886 | the mute check is one step of the protocol and keeps it safe |
| `Synth.DividersAreSteps` | src/radio/synth.cpp:117-130 | integer and fractional divider together, carry included, are the frequency rounded to steps of 80/2^20 MHz |
| `Synth.QuantizedSteps` | src/radio/synth.cpp:117-136 | the synthesizer makes that step count modulo the divider range |
| `Synth.WithinHalfStep` | src/radio/synth.cpp:117-136 | from zero up the result is within 80/2^21 MHz of the request if and only if the rounded step count fits the dividers |
| `Synth.BandFits` | src/radio/synth.cpp:117-136 | everything from 0 to 10000 MHz is within 80/2^21 MHz |
| `Synth.LoFollower.Poll` | apps/quadrf_lora_phy.cpp:775-820 | one poll of the follower, the receiver written first and the transmitter last |
| `Synth.HandledMoveIsPlaced` | apps/quadrf_lora_phy.cpp:800-820 | over any run of outside moves and polls, starting with oscillators where the synthesizers can put them: after every poll that handled a move the transmitter sits exactly on the channel, that is where the deciding oscillator had been moved, the receiver on its rounded channel minus IF, and nothing is left to retune |
| `Synth.HandledMoveIsClose` | apps/quadrf_lora_phy.cpp:800-820 | with the program's synthesizers the receiver then is within 80/2^21 MHz of channel minus IF while that is from 0 to 10000 MHz |
| `Synth.RunStaysRounded` | apps/quadrf_lora_phy.cpp:775-827 | oscillators that sit where the synthesizers can put them do so after any run of moves and polls |
| `Synth.SynthIsSettled` | src/radio/synth.cpp:117-136 | asking the synthesizer for what it makes changes nothing |
| `Synth.PollSettles` | apps/quadrf_lora_phy.cpp:800-827 | after any poll another one retunes nothing |
| `Synth.RunSettles` | apps/quadrf_lora_phy.cpp:800-827 | over any run of outside moves and polls, once the moves stop the first poll settles the radio for good |
| `Synth.SmallMovesAreLeft` | src/radio/synth.cpp:152-162 | over any run, outside moves that each stay within the tolerance of the expected frequencies are never answered: they do not add up, and channel and expectations stay as they were |
| `LittleEndian.LeRoundTrip` | include/quadrf/air_ipc.hpp:142-178 | a word written low byte first reads back, at any width |
| `LittleEndian.LowByteFirst` | include/quadrf/air_ipc.hpp:142-178 | byte i carries the word's digit of weight 256^i |
| `LittleEndian.SignedRoundTrip` | include/quadrf/air_ipc.hpp:242-288 | a signed value in range survives its two's complement field |
| `AirIpc.Deframer.FeedChunk` | include/quadrf/air_ipc.hpp:322-387 | the byte loop appends exactly the frames the byte machine completes, and the good-frame count grows by their number |
| `AirIpc.FeedSound` | include/quadrf/air_ipc.hpp:322-387 | whatever arrives, the body read is shorter than its announced length, which is within bounds, and the good-frame count is the number handed out |
| `AirIpc.HeadAccepted` | include/quadrf/air_ipc.hpp:322-387 | six bytes open a body if and only if they are the magic pair, version 1, one of the three types and a length from 1 to 279, high byte first |
| `AirIpc.CutHeadRecovered` | include/quadrf/air_ipc.hpp:322-387 | a frame whose head is cut off by the next one costs one rejection, and the next one is recovered |
| `AirIpc.AnyChunking` | include/quadrf/air_ipc.hpp:322-387 | how the bytes are cut into chunks does not matter |
| `AirIpc.FrameRecovered` | include/quadrf/air_ipc.hpp:184-198 | an encoded frame is recovered exactly from either hunting state |
| `AirIpc.FramesRecovered` | include/quadrf/air_ipc.hpp:184-387 | any list of frames is recovered in order with no rejection counted |
| `AirIpc.NoiseKeepsHunting` | include/quadrf/air_ipc.hpp:329-341 | noise without the magic pair yields nothing and leaves the machine hunting |
| `AirIpc.MessagesDelivered` | include/quadrf/air_ipc.hpp:184-387 | after such noise, however the bytes are cut, exactly the frames sent come out, in order |
| `AirIpc.EncodeFrame` | include/quadrf/air_ipc.hpp:184-198 | refused if and only if the body is empty or too long, else the framed bytes |
| `AirIpc.EncodeTx` | include/quadrf/air_ipc.hpp:232-240 | refused if and only if the air length is out of range, else a frame whose body decodes to the message |
| `AirIpc.EncodeRx` | include/quadrf/air_ipc.hpp:242-256 | the same for indications, up to their fixed-point fields |
| `AirIpc.TxRoundTrip` | include/quadrf/air_ipc.hpp:232-269 | every valid transmit request decodes to itself |
| `AirIpc.RxRoundTrip` | include/quadrf/air_ipc.hpp:242-288 | every valid indication decodes to itself with levels and rate rounded |
| `AirIpc.TxDecodesOnlyItsBody` | include/quadrf/air_ipc.hpp:258-269 | a body that decodes is the body of what it decodes to |
| `AirIpc.SnrAccuracy` | include/quadrf/air_ipc.hpp:202-215 | levels in range come back less than a hundredth off and never larger in size, out of range they saturate |
| `AirIpc.RateAccuracy` | include/quadrf/air_ipc.hpp:217-230 | rates in range come back at most half a hundredth off |
| `ProtoWire.WriteVarint` | src/bridge/pb_wire.cpp:7-13 | the loop appends the base-128 bytes of the number |
| `ProtoWire.ReadVarintAt` | src/bridge/pb_wire.cpp:94-106 | the cursor loop reads one varint of at most ten bytes into 64 bits, or fails, without leaving the data |
| `ProtoWire.TakeValueAt` | src/bridge/pb_wire.cpp:118-160 | the value of one field of each wire type, or failure on truncation or an unknown type |
| `ProtoWire.ParseFields` | src/bridge/pb_wire.cpp:108-163 | the loop splits any bytes into fields or rejects them |
| `ProtoWire.VarintRoundTrip` | src/bridge/pb_wire.cpp:7-106 | every 64-bit number reads back and nothing behind it is touched |
| `ProtoWire.ValueTaken` | src/bridge/pb_wire.cpp:19-160 | the content written for a value of each wire type is taken back as that value, and nothing behind it is touched |
| `ProtoWire.FieldsRoundTrip` | src/bridge/pb_wire.cpp:7-163 | a message of well-formed fields parses to those fields |
| `PhoneApi.WriteU32` | src/bridge/pb_wire.cpp:19-25 | a zero is not written, anything else as one varint field |
| `PhoneApi.WriteBool` | src/bridge/pb_wire.cpp:35-41 | false is not written |
| `PhoneApi.WriteFixed32` | src/bridge/pb_wire.cpp:43-52 | a zero is not written, anything else as one four-byte field |
| `PhoneApi.WriteFloat` | src/bridge/pb_wire.cpp:54-66 | zero of either sign is not written |
| `PhoneApi.WriteBytes` | src/bridge/pb_wire.cpp:68-78 | an empty string is not written, anything else with its length |
| `PhoneApi.EncodeData` | src/bridge/phone_api.cpp:86-96 | the writer calls append the fields of the Data message in order |
| `PhoneApi.DecodeData` | src/bridge/phone_api.cpp:98-132 | the loop over the fields, the last one winning, or failure |
| `PhoneApi.DataRoundTrip` | src/bridge/phone_api.cpp:86-132 | every Data message comes back as it was |
| `PhoneApi.EncodeMeshPacket` | src/bridge/phone_api.cpp:134-157 | the bytes written decode to the packet's normal form if and only if that form is worth keeping, else they are refused |
| `PhoneApi.DecodeMeshPacket` | src/bridge/phone_api.cpp:159-225 | the loop over the fields from the defaults, spoilt by a bad Data, refused without origin, identity and content |
| `PhoneApi.PacketRoundTrip` | src/bridge/phone_api.cpp:134-225 | a packet comes back with exactly the defaults applied: to 0 is broadcast, hop limit 0 is 3, an empty Data is dropped, ciphertext is dropped beside Data, minus zero loses its sign |
| `PhoneApi.ToRadioRoundTrip` | src/bridge/phone_api.cpp:227-280 | every kind of phone message comes back, except a configuration request with nonce zero and a packet not worth keeping |
| `MeshAir.FlagsRoundTrip` | include/phy/mesh/packet.hpp:61-85 | flags unpack to hop limit and hop start modulo 8 and both bits |
| `MeshAir.PackHeader` | src/mesh/packet.cpp:22-30 | sixteen header bytes written in place, nothing behind them |
| `MeshAir.PackPacket` | src/mesh/packet.cpp:46-56 | refused without an origin or when too long, else header and ciphertext |
| `MeshAir.PacketRoundTrip` | src/mesh/packet.cpp:22-64 | every packet that can be sent is read back as it was |
| `MeshAir.RelayIsBounded` | src/mesh/packet.cpp:66-87 | along any list of nodes a packet is relayed at most hop-limit times, by neither its origin nor its destination, with content and addresses kept |
| `MeshAir.RelayedExactly` | src/mesh/packet.cpp:66-87 | a packet with an origin and an identity travels along a list of nodes if and only if the list is no longer than the hop limit and each node is neither its origin nor its destination and, where a next hop is named, is that one |
| `Session.CipherUndone` | src/bridge/phone_api.cpp:322-379 | the key stream taken twice is no cipher, for any key stream |
| `Session.DataSurvivesAir` | src/bridge/phone_api.cpp:322-379 | Data sent comes back if and only if the receiver's key is accepted, its port is not zero and the packet brought no ciphertext to be sent in its place, or one that says the same; then the rest of the packet received is as sent, blanks filled in |
| `Session.FrameSurvivesAir` | src/bridge/phone_api.cpp:322-379 | whatever reached the air is received if and only if the key is accepted and it is not empty; destination (everyone for a blank one), origin (the node's for a blank one), identity, hop counts modulo 8, both flags, next hop and relay modulo 256 are those of the packet sent |
| `Session.FrameLayout` | src/bridge/phone_api.cpp:322-336 | byte by byte what the header on the air says of the packet sent, with the channel's hash |
| `Session.CiphertextReplacesData` | src/bridge/phone_api.cpp:337-344 | the input on which the Data does not come back: a phone packet with Data and the ciphertext of other Data is accepted, sent and received as the other Data |
| `Session.PortTwoForPortOne` | src/bridge/phone_api.cpp:337-344 | an instance of it |
| `Session.LoopbackDelivers` | src/bridge/session.cpp:148-218 | a phone packet with Data that reached the air, fed back in, carries the same Data under exactly that condition, and its header fields as the phone gave them: a blank identity is the next number, a blank hop limit three |
| `Session.LoopbackReachesPhone` | src/bridge/session.cpp:199-218 | the message queued for the phone then parses to its number and to a packet with the same Data |
| `Session.PhoneReads` | src/bridge/phone_api.cpp:282-320 | the message queued for the phone parses to its number and packet, and the packet to its normal form with the same Data |
| `Session.PhoneToPhone` | src/lora/coding.cpp:217-350 | end to end: in a LoRa frame damaged within what the decoder tolerates Data from one phone is received as the same Data under exactly that condition, from the same origin, to the same destination and with the same identity and header fields |
| `Session.Session.HandlePacket` | src/bridge/session.cpp:163-193 | a packet that can be sent is handed to the transmitter once and acknowledged; one that cannot leaves queue and counters as they were; the number after the call counts a blank identity and the acknowledgement |
| `Session.StatusReads` | src/bridge/session.cpp:188-193 | the acknowledgement parses to its number, the queue's size, what is free of it (never below zero) and the packet's identity |
| `Session.Session.HandleToRadio` | src/bridge/session.cpp:148-197 | what each kind of phone message does to the transmitter, the queue, the counters and the next number; undecodable ones do nothing |
| `Session.Session.StartConfig` | src/bridge/session.cpp:96-146 | the configuration messages and the completion are queued in order, numbered one after the other, wrapping at 2^32 |
| `Session.ConfigIsCompleted` | src/bridge/session.cpp:141-146 | the last of them parses to its number and to completion with the nonce asked for |
| `Session.Session.HandleAirFrame` | src/bridge/session.cpp:199-218 | a frame that is received is queued for the phone once, numbered and counted; any other one leaves queue, number and counter |
| `Session.Session.PopFromRadio` | src/bridge/session.cpp:58-66 | first in, first out |

## Left out

- Signal processing: FFT, dechirping, chirp synthesis, peak refinement, interpolation kernels, Kaiser design, Bessel functions and logarithms, log-likelihoods from magnitudes, SNR and SIR metrics, noise bandwidth. Their results are arbitrary inputs.
- Rounding, overflow and not-a-number of floating point: arithmetic is over exact reals. A result that depends on `1e-300` or on the sentinel `1e300` as a number keeps it as that real.
- The whitening table of `src/lora/coding.cpp:13-29` is modelled by its shift register x^8 + x^6 + x^5 + x^4 + 1 started at 0xFF with period 255; only the table's first row is compared with it (`WhiteningTable.TableOpens`), which no other feedback taps run through.
- Spreading factors above 16, which neither the symbol type nor the sixteen-entry block buffers hold, and below 7, for which the header block is too small for a header.
- SYNC hypothesis scoring and the decision tuning inside `trackSymbol`: heuristics without a specification; `Receiver` takes their outcomes as arbitrary functions.
- Receiver.Receiver.Process: requires `ResumesPast`, that every frame, wherever it may end, resumes past the run it was found in, so that the loop stops; `SmallCorrectionsResume` gives a condition on the corrections for it, and whether the signal processing meets that is not modelled. Nothing else of the receiver requires it, apart from `Feed`, which calls the loop.
- Receiver.Receiver.Finalize: a position below zero resumes at one symbol; the program's conversion of positions of -1 and below to an unsigned number is undefined.
- Receiver.Receiver.TakeSymbol: which shifts are tried, which is kept and what a symbol comes to are arbitrary functions of the windows read since the frame was found and the buffer it was found in; `HeaderCheck` models the header check on its own.
- Kalman.CarrierFilter.SmoothSymbol: the track returned is the smoothed points; the ramp that `src/lora/receiver.cpp:1322-1326` takes off them before storing is not modelled.
- OptimalTrack.SmootherIsOptimal: says nothing about a pass back that meets a predicted covariance with a determinant below 1e-18, where the program keeps the filtered point.
- FrameEnd.FrameEnd.FinalizeData: the soft decoder is an arbitrary function of the soft rows and the chip shift, its decoding rules are proved in `Frame`; SNR, SIR and level of the queued frame are not modelled.
- HeaderCheck.NeededIsExact: says nothing about a header that came from soft evidence, since the soft decision at frame end reads more rows.
- SlipSearch.PartialSort: a selection loop stands for the library's partial sort; any order of equal metrics is allowed.
- FrameEnd.Anchors: an insertion loop stands for the library's sort, with any order of equal keys.
- Ddc.Ddc.Process: the recursive oscillator used when no period up to 4096 samples exists is not modelled (it drifts and is renormalised in floating point), nor are the configurations the constructor rejects.
- `Ddc::reset` (the reset of each stage is `Fir.DecimatingFir.Reset`).
- Ddc.Ddc.constructor: filter taps and one oscillator period come from outside; the search for the period is not modelled.
- Interlock.RunsAreSafe: register writes and readback are atomic; the power amplifier watchdog of the main loop, the receive-only mode and the settle and drain times (any outcome of the drain test is allowed) are not modelled.
- Synth.LoFollower.Poll: register access, failed writes and readbacks, and the restored Main0 and Main6 words are not modelled; polls are those made while the transmitter is muted.
- Suppression of the radio's own frames by the last eight sent, enqueueing failures of the modem change, and presets.
- The SetModem body of Air-IPC (one byte), frequency quantization of requests, and the forwarding of frames to sockets.
- Session.Session.HandleToRadio: what the configuration messages say (own node, metadata, channel, device and radio settings) is an arbitrary list of fields for each nonce; their order, numbering and completion are modelled.
- Session.Session.StartConfig: the same holds for the messages it queues before the completion.
- WanderFit.FitIsAnchored: rows, observation times and weights enter as they are; the phase differences they come from and the scaling of the covariance afterwards are not modelled.
- Strings in phone messages, the overloads of functions on vectors, and `FromRadio` kinds other than packets and queue status.
- Locks and blocking queues as such: `Transmitter` methods are the bodies under the lock, `Interlock` has one action for each locked section.
- Sockets, terminals, JTAG, SoapySDR, the BLE bridge, SDL views, plots, command lines, telemetry, `src/stream/framer.cpp`, the ring buffer and chunk queue.
