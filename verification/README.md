# A model of delp

delp is a sliding-window erasure code in the manner of RFC 9407 (Tetrys). The encoder keeps a window
of source symbols and sends linear combinations of them over GF(2^8) or GF(2^4); the decoder solves
for what was lost by Gaussian elimination, one packet at a time, and delivers in order.

This project models the codec, the fields, the formats that carry the equations, and the
acknowledgements, and proves what they promise over whole runs.

## What is proved

The state machines are classes that change in place, as in the source: `DecodingMatrix`, `Decoder`,
`SymbolBuffer`, `Encoder`, `EncodingWindow`, `ReceiverAckState`, `ConstantFecRate`, `BitWriter`,
`BitReader`. Every method is tied to a function of the old state, and the results below are about
those functions, or about runs of them.

1. *The decoding matrix* keeps reduced row-echelon form and neither loses nor adds a solution. Over a
   whole run a symbol is known exactly when the evidence received determines it; and where the row
   limit evicts rows, exactly when what is left of the evidence does.
2. *Exactness.* Over a channel that loses and repeats packets, and keeps their order, every symbol
   delivered is the one submitted: from submission through the bytes of the encoding vector to delivery.
3. *Any order of arrival.* The second promise fails under reordering. What the decoder holds at the end
   is right exactly when every row taken out of the matrix had coefficient one, or carried a symbol that
   is zero; and an arrival pattern is right for all data exactly when every such coefficient is one.
4. *Recovery.* k lost symbols come back from any k of 121 consecutive Cauchy packets over GF(2^8), from
   any k of 4 over GF(2^4), and from any k consecutive Vandermonde packets. What comes back is delivered
   or given up, unless it waits behind a gap that the last packet opened.
5. *Delivery.* Events tile the ids: each id up to the delivery pointer is delivered or given up, once.
   Whatever arrives, what is known is delivered, given up or waiting.
6. *Covers.* Each way to choose a cover sends the ids it should, in ascending order unless the caller
   lists them, and a session that keeps to that order crosses the wire whole.
7. *Acknowledgements.* A report says what its decoder has, up to its limits; feedback may be lost,
   repeated and reordered; what the encoder's window drops is what its policy asks for, and is settled
   at the receivers it must be settled at.
8. *Refinements.* Table-driven fields against polynomial arithmetic, chunked kernels against one
   product per byte, four id formats and the encoding vector against their meaning.

## Where the code falls short

Each has a run or an input, and an exact condition:

- A source symbol that arrives while it is the key of a row: the row keeps its key and its scale, and
  a later recovery is a multiple of the symbol (`StaleRuns.LateSourceSpoils`; condition
  `KnownValues.KnownRightIff`, `Disorder.RecoveryRightIff`, `Patterns.PatternExactIff`; repair
  `StalePivots.Rekey`, with which order does not matter). The comment at src/codec/decoder/mod.rs:78 admits packets out of order.
- A cover of 256 or more ids, one that descends, or one with a step of 65536 or more: the vector that is
  read is another one, and these are the only ones (`VectorWire.IntactIff`, `Wires.ReadsWholeIff`; of at most
  255 ids `Wires.CrossesHeard` says which). With 257 submissions a wrong symbol is delivered
  (`Overflow.LongCoverSpoils`); the builder allows this for Vandermonde, src/config.rs:203-211. Covers of
  `generate_coded_targeted` keep the caller's order, src/codec/encoder/mod.rs:245-262: from a cover 1, 0
  the decoder keeps symbol 0 as symbol 65536 (`CallerCovers.ReversedCoverMisleads`).
- A cover that lists an id twice: encoder and decoder disagree exactly when some id is listed an even
  number of times (`Duplicates.AgreeIffOdd`). From a cover 0, 0 zeros are delivered for symbol 0
  (`CallerCovers.DoubledCoverSpoils`).
- Cauchy points collide mod 128 in a window thinned by acknowledgements, however short
  (`ThinnedWindows.WindowCollides`, `Coefficients.CauchyCollision`); the comment at
  src/wire/ev/coef_gen.rs:114-116 says they cannot.
- Generations reuse the same 128 points: 121 consecutive packets are safe, 122 are not
  (`Coefficients.SamePoint`, `Coefficients.RotationBoundTight`). Over GF(2^4) four are safe and five are
  not, and where the generation wraps, packets two apart share a point
  (`Coefficients.ConsecutivePoints16`, `Coefficients.RotationBound16Tight`).
- Vandermonde packets that are not consecutive need not be solvable (`Coefficients.VandermondeMinor`,
  `Coefficients.VandermondeSingular`).
- A coded packet over recent symbols only makes the decoder give up older ones that the encoder still
  holds (`Gaps.NarrowCoverWastes`; condition `Gaps.WastedIff`).
- A symbol that is recovered behind a gap which its own packet opened is not delivered until another
  packet comes, src/codec/decoder/mod.rs:234-246 (`Deliveries.LoneStalls`; condition
  `Settlement.OutIffNotStalled`).
- A full matrix forgets what the row with the smallest key said, though that may be the symbol that holds
  up delivery; what is lost is exactly the value at that key (`Forgetting.AddRowForgets`).
- A report names at most 256 of the buffered ids, and fewer if its vector fills 256 bytes
  (`Reporting.WireTells`); up to there it names everything settled (`Reporting.ReportsAll`).
- Old feedback leaves entries below the cumulative mark (`Acks.MarksDependOnOrder`; condition
  `Acks.OldFeedbackLeavesMarks`), and a bit vector of 256 bytes or more loses acknowledgements
  (`Feedback.TruncatedIsWhole`); neither makes one up.
- Eviction can leave the contiguity flag unset although the hole is gone
  (`ThinnedWindows.EvictionMisses`; condition `Windows.FlagMisses`): the search is then slower, and still
  right.
- A quorum of zero drops symbols that nobody acknowledged (`Acks.DropsUnacked`).

## Hypotheses by name

- `IsField(F)`: F is a field of characteristic 2. `IsGenerated(F)`: moreover the powers of alpha run
  through all its elements but zero, and bytes below the order are its elements. Both fields of the
  code satisfy both (`Gf8.Field8IsGenerated`, `Gf4.Field4IsGenerated`), and Instances.dfy states the
  main results for them without these hypotheses.
- `Truthful(c, X, a)`: what arrives is true of the data X. `Timely(c, st, a)`: a source symbol that
  arrives is not the key of a row. `Roomy(c, st, a)`: there is room for one more row. `GoodRun` asks
  the first two at every step, and the third when `lossless` is set.
- `AllLacking(arrivals, missing, n)`: every id that some coded packet covers and that does not arrive
  as a source is in `missing`.
- `Built(c)`: what the builder checks. `Matches(c, dc)`: the same field and symbol size at both ends.
  `CleanOps(ops)`: covers listed by the caller have each id an odd number of times, once for instance.
- `Picked`, `Carried`: the channel, which drops and repeats packets of the log and keeps their order;
  `Carried` has every encoding vector serialised and parsed. `NarrowLog`: every cover sent has at most
  255 ids, never descends and has no step of 65536. Covers of the encoder's own choice ascend
  (`Covers.CoverIs`), a window capacity of at most 255 secures the count (`Wires.SessionFits`), and 65536
  symbols leave no room for such a step: with `Careful(c, ops)` and that many symbols a session needs no
  hypothesis about what it sends (`Covers.CarefulExact`).
- `Accounted(c, arrivals, id)`: every id up to this one is known or starts before some cover that arrived.
  `Stalls(events, id)`: the last event is a gap that ends at or before id.
- `JointPath(c, dc, js, acts)`: calls on an encoder, arrivals at decoders and reports that reach the
  encoder, in any order; `Path` is the decoders' side of it.

## Model

| member | source | states |
|---|---|---|
| `DecodingMatrices.DecodingMatrix.AddCoded` | src/codec/decoder/matrix.rs:258-366 | In place: the rows and the symbols recovered are those of the specification, for every known set and vector; the row count limit included |
| `DecodingMatrices.DecodingMatrix.AddKnownSource` | src/codec/decoder/matrix.rs:375-433 | In place: substitution into every row and the cascade through the work queue, as the specification has them, also for the key of a row |
| `DecodingMatrices.DecodingMatrix.ForwardEliminate` | src/codec/decoder/matrix.rs:437-457 | The row is reduced by every row whose key it mentions, in ascending order; the matrix is untouched |
| `DecodingMatrices.DecodingMatrix.BackSubstitute` | src/codec/decoder/matrix.rs:459-475 | The new pivot is eliminated from every row, and nothing else changes |
| `DecodingMatrices.DecodingMatrix.SolveAll` | src/codec/decoder/matrix.rs:336-363 | The loop over solved rows ends, with the rows and symbols of the specification |
| `DecodingMatrices.DenseCoefs.FromMap` | src/codec/decoder/matrix.rs:32-48 | The dense row of a sparse map |
| `DecodingMatrices.DenseCoefs.SubtractScaled` | src/codec/decoder/matrix.rs:65-103 | A dense row minus a multiple of another of a different base and length, after widening |
| `DecodingMatrices.MatrixRow.Normalize` | src/codec/decoder/matrix.rs:180-199 | Coefficients and payload are divided by the leading coefficient |
| `Rows.NormalizeCorrect` | src/codec/decoder/matrix.rs:180-199 | Normalising makes the leading coefficient one and keeps the solutions, both ways |
| `Rows.DenseSubtractGet` | src/codec/decoder/matrix.rs:86-103 | The coefficient at every id, inside both ranges or outside, is the difference of the two rows' coefficients there |
| `Incremental.AddKnownSettled` | src/codec/decoder/matrix.rs:375-433 | From settled rows (reduced, none solved, no known id), rows stay reduced if and only if the id is not the key of a row; then they stay settled with the recoveries known |
| `Incremental.AddKnownSolves` | src/codec/decoder/matrix.rs:375-433 | For an id that is no key, an assignment with its data solves the rows before exactly when it solves the rows after and agrees with every symbol recovered |
| `Incremental.AddRowSettled` | src/codec/decoder/matrix.rs:283-363 | A coded row keeps the matrix settled, its recoveries counted as known |
| `Incremental.AddRowSound` | src/codec/decoder/matrix.rs:283-363 | Solutions of the rows and the equation solve the new rows and agree with what is recovered, eviction or not |
| `Incremental.AddRowComplete` | src/codec/decoder/matrix.rs:283-363 | The converse when no row is evicted and the equation is consistent with the rows |
| `Exactness.RunRight` | src/codec/decoder/mod.rs:115-180 | Over every run of truthful, timely packets, rows evicted or not, each symbol delivered is the one sent, and the invariant (settled rows, true rows, right buffer) holds |
| `Exactness.RecoveryIsOptimal` | src/codec/decoder/matrix.rs:226-231 | Over every truthful, timely run without eviction an id is known if and only if all assignments that fit the received evidence agree on it |
| `Forgetting.EvictSmallest` | src/codec/decoder/matrix.rs:322-327 | From a full matrix exactly the row with the smallest key goes; every row left has a larger key |
| `Forgetting.NewRowIff` | src/codec/decoder/matrix.rs:297-307 | A row is inserted for an equation if and only if some solution of the rows does not satisfy it |
| `Forgetting.AddRowForgets` | src/codec/decoder/matrix.rs:322-329 | An equation that is new to a full matrix: an assignment solves the new rows and agrees with the recoveries if and only if, with some value at the smallest key, it solves all the old rows and the equation |
| `Forgetting.StepForgets` | src/codec/decoder/mod.rs:150-180 | One truthful packet: what the state allows is what it allowed and fits the packet, or that up to the value at the smallest key when a coded packet is news to a full matrix |
| `Forgetting.RecallIsOptimal` | src/codec/decoder/matrix.rs:226-231 | Over every truthful, timely run, rows evicted or not, an id is known if and only if what is remembered of the packets determines it |
| `Forgetting.NothingForgotten` | src/codec/decoder/matrix.rs:322-329 | Where no row is evicted, what is remembered is all that has arrived |
| `Streams.RunRows` | src/codec/decoder/matrix.rs:302-329 | Whatever arrives, the rows number at most the coded packets received and at most max(1, max_rows) |
| `Streams.FewerRows` | src/codec/decoder/matrix.rs:258-366 | In a good run there are fewer rows than ids that coded packets cover and that were not received, unless there are no rows |
| `Streams.InOrderGood` | src/codec/decoder/mod.rs:115-180 | Truthful arrivals in which no source follows a coded packet over it, unless it came before, form a good run; lossless if the missing ids are at most max_rows |
| `Streams.LossyChannelExact` | src/codec/decoder/mod.rs:115-180 | For a stream of true packets and every channel that loses, repeats and keeps order, each symbol delivered is the one sent |
| `Streams.LossyChannelRoomy` | src/codec/decoder/matrix.rs:302-329 | Over such a channel no row is evicted if the covered ids that do not arrive are at most max_rows, however many coded packets come |
| `Disorder.RunKeyed` | src/codec/decoder/matrix.rs:401-429 | Whatever arrives in whatever order, each row either leads with its key or has a known key, keys are absent from all other rows and known ids from all rows |
| `Disorder.RecoveryRightIff` | src/codec/decoder/matrix.rs:348-352 | Truthful packets in any order: all recoveries are right if and only if each row taken out has coefficient one or a symbol that is zero throughout; then all deliveries are right |
| `KnownValues.KnownRightIff` | src/codec/decoder/mod.rs:197-206 | Truthful packets in any order: every value the decoder holds as known at the end is right if and only if each row taken out had coefficient one or a symbol that is zero throughout |
| `Disorder.TakenUnlessStale` | src/codec/decoder/matrix.rs:336-363 | Only a row whose key is already known can be taken out with another coefficient |
| `Patterns.RunAlike` | src/codec/decoder/mod.rs:115-180 | Two runs with the same order and vectors and different data keep the same rows up to payloads and take out the same coefficients |
| `Patterns.PatternExactIff` | src/codec/decoder/matrix.rs:348-352 | An arrival pattern recovers rightly for all data if and only if every coefficient it takes out is one |
| `StalePivots.SolvedPayload` | src/codec/decoder/matrix.rs:348-352 | The payload of a solved row is coefficient times symbol; it is the symbol if and only if the coefficient is one or the symbol zero |
| `StalePivots.LateSourceScales` | src/codec/decoder/matrix.rs:401-429 | The matrix calls of the late-source trace, for all data and coefficients: the symbol comes out multiplied |
| `StaleRuns.LateSourceSpoils` | src/codec/decoder/mod.rs:115-180 | A run of three packets over any generated field delivers alpha times the symbol, which is wrong unless it is zero |
| `StalePivots.RekeySettled` | src/codec/decoder/matrix.rs:401-429 | With the row taken out and put back in, rows stay settled for every source id |
| `StalePivots.RekeySound` | src/codec/decoder/matrix.rs:401-429 | The repaired step keeps every solution |
| `StalePivots.RekeyComplete` | src/codec/decoder/matrix.rs:401-429 | The repaired step adds none |
| `Repaired.RekeyedRunRight` | src/codec/decoder/mod.rs:115-147 | The decoder with the repair delivers only right symbols for truthful packets in any order |
| `Repaired.RekeyedOptimal` | src/codec/decoder/matrix.rs:226-231 | With the repair, without eviction, and in any order, an id is known if and only if the evidence determines it |
| `Coefficients.CauchyDetermines` | src/wire/ev/coef_gen.rs:72-123 | For every k: k coded packets with distinct points have only the zero kernel on k sources with distinct points |
| `Coefficients.CauchyCollision` | src/wire/ev/coef_gen.rs:109-123 | Two ids that meet modulo the cycle have the same coefficient in every packet: no number of packets tells them apart |
| `Coefficients.CauchyNonzero` | src/wire/ev/coef_gen.rs:109-123 | No Cauchy coefficient is zero |
| `Coefficients.CauchyInverts` | src/wire/ev/coef_gen.rs:109-160 | A Cauchy coefficient times the sum of its source point and its coded point, as numbers of both fields, is one |
| `Coefficients.VandermondeSteps` | src/gf/mod.rs:48-58 | Vandermonde coefficients start at one and go on by the power of alpha of the coded id; coded id 1 gives the powers of alpha |
| `Coefficients.VandermondeDetermines` | src/gf/mod.rs:48-58 | k consecutive coded ids have only the zero kernel on k sources distinct mod order - 1 |
| `Coefficients.VandermondeMinor` | src/gf/mod.rs:48-58 | For any two sources and coded ids the 2 x 2 minor vanishes if and only if (s1 - s0)(c1 - c0) is a multiple of order - 1 |
| `Coefficients.VandermondeSingular` | src/gf/mod.rs:48-58 | Sources 0 and 15 with coded ids 1 and 18 cannot be solved in GF(2^8) |
| `Solvability.CauchyKernel` | src/wire/ev/coef_gen.rs:72-108 | The kernel of a square Cauchy matrix over any field of characteristic 2 is zero |
| `Coefficients.SamePoint` | src/wire/ev/coef_gen.rs:109-123 | Packets m and n of a session share a point if and only if their distance plus 7 for each cycle boundary between them is a multiple of 128, across the generation wrap |
| `Coefficients.ConsecutivePointsDiffer` | src/wire/ev/coef_gen.rs:109-123 | Any 121 consecutive packets have distinct points |
| `Coefficients.RotationBoundTight` | src/wire/ev/coef_gen.rs:109-123 | Packets 7 and 128 share a point |
| `Coefficients.GenerationPermutes` | src/wire/ev/coef_gen.rs:113-121 | Within a generation distinct coded ids have distinct points |
| `Coefficients.SamePoint16` | src/wire/ev/coef_gen.rs:148-160 | Over GF(2^4): packets m and n share a point if and only if their distance, plus 3 for each cycle boundary and 2 for each wrap of the generation between them, is a multiple of 7 |
| `Coefficients.ConsecutivePoints16` | src/wire/ev/coef_gen.rs:148-160 | Of 4 consecutive packets two share a point if and only if they are two apart and the generation wraps between them |
| `Coefficients.RotationBound16Tight` | src/wire/ev/coef_gen.rs:148-160 | Packets 3 and 7 share a point, and so do 1790 and 1792 |
| `Guarantees.CauchyRecovers` | src/codec/decoder/matrix.rs:258-366 | In a good run without eviction, k lost symbols with distinct points are known after k packets with distinct points that cover them and else only received ids |
| `Guarantees.ConsecutivePacketsRecover` | src/codec/decoder/matrix.rs:258-366 | The same from any k of 121 consecutive packets of a session |
| `Guarantees.VandermondeRecovers` | src/codec/decoder/matrix.rs:258-366 | The same from k consecutive Vandermonde packets |
| `Deliveries.CauchyDelivers` | src/codec/decoder/mod.rs:115-180 | With every id up to this one lost, received or passed over, k Cauchy packets over the lost ids bring it out, right, unless the last packet opened a gap before it |
| `Deliveries.VandermondeDelivers` | src/codec/decoder/mod.rs:115-180 | The same for k consecutive Vandermonde packets |
| `Decoding.RunTiles` | src/codec/decoder/mod.rs:208-246 | For any acceptable arrivals the events tile the ids up to the delivery pointer, and no buffered id lies below it |
| `Decoding.TilesOnce` | src/codec/decoder/mod.rs:208-246 | Tiling means that each id in the range is in exactly one event and no other id in any |
| `Settlement.KnownIsSettled` | src/codec/decoder/mod.rs:197-212 | Whatever arrives in whatever order: each known id is delivered, given up or waiting in the buffer, and each id delivered or waiting is known |
| `Settlement.DeliveredAsKnown` | src/codec/decoder/mod.rs:197-212 | Whatever arrives: a symbol is delivered with the data it is known by |
| `Settlement.OutIffNotStalled` | src/codec/decoder/mod.rs:208-246 | With every id up to it known or passed over by a cover, an id is delivered or given up if and only if the last event is not a gap that ends at or before it |
| `Settlement.DeliveredIff` | src/codec/decoder/mod.rs:208-246 | It is then delivered, if no cover that arrived starts after it |
| `Deliveries.LoneStalls` | src/codec/decoder/mod.rs:234-246 | One packet over one id above zero: the symbol is known and not delivered |
| `Decoders.Decoder.HandleSource` | src/codec/decoder/mod.rs:115-147 | In place: the state and events of one step, the report included; an error and no change for a wrong size |
| `Decoders.Decoder.HandleCoded` | src/codec/decoder/mod.rs:150-180 | The same for a coded packet |
| `Reporting.ReportTells` | src/codec/decoder/mod.rs:214-257 | A report has the delivery pointer, the number of rows, the number of ids that are not buffered from the pointer to the highest buffered one (one for an empty buffer), and the first 256 buffered ids |
| `Reporting.StepTells` | src/codec/decoder/mod.rs:115-180 | Exactly one report for a packet of the right size if one is due, after the deliveries and before a gap, of what is left then; none otherwise |
| `Reporting.WireTells` | src/wire/feedback.rs:67-211 | On the wire a report acknowledges an id if and only if it is below the pointer, or among the first 256 buffered ids and within the length of the vector mod 256 |
| `Reporting.ReportsAll` | src/codec/decoder/mod.rs:214-232 | With at most 256 symbols buffered, all within 2040 ids of the pointer, that is everything settled |
| `Reporting.HeardIsAcked` | src/policy/mod.rs:61-92 | Over every run: once the encoder hears a report, however late, it holds as acknowledged what it held and what was reportable when the report was made, and nothing else |
| `Decoders.SymbolBuffer.DrainDeliverable` | src/codec/decoder/buffer.rs:54-64 | The maximal run of consecutive buffered ids leaves the buffer, in order |
| `Decoders.SymbolBuffer.PruneBelow` | src/codec/decoder/buffer.rs:69-75 | Ids below the floor are gone, and the pointer is at least the floor |
| `Gaps.GivenUpIff` | src/codec/decoder/mod.rs:234-246 | An id is given up if and only if it is not delivered and some cover that arrived starts after it |
| `Gaps.WastedIff` | src/codec/decoder/mod.rs:162-167 | An id still in the encoder's window is given up if and only if it was not delivered and a packet whose first id is later has arrived |
| `Gaps.GapsAreGone` | src/codec/decoder/mod.rs:234-246 | When every cover is the full window, what is given up has left the encoder's window |
| `Gaps.NarrowCoverWastes` | src/codec/encoder/mod.rs:268-278 | Two submissions and a packet over the more recent one: symbol 0 is given up and is still in the window |
| `Windows.GetIsScan` | src/codec/encoder/window.rs:118-133 | The indexed look-up finds what a linear search finds, for every id |
| `Windows.Membership` | src/codec/encoder/window.rs:72-115 | Which ids are in the window after push, removal and eviction, both ways |
| `Windows.FlagMisses` | src/codec/encoder/window.rs:72-115 | When the flag is unset although there is no hole: after an eviction if and only if it was unset and what is left has no hole; after a push if and only if it was so before and the new id is the next one; after a removal if and only if it was so before and nothing was removed |
| `ThinnedWindows.EvictionMisses` | src/codec/encoder/window.rs:88-94 | Four submissions and a report reach a window of two neighbours whose flag is unset |
| `Windows.EncodingWindow.Push` | src/codec/encoder/window.rs:72-85 | The new symbol is last, under the next id, and the order is kept |
| `Windows.EncodingWindow.RemoveIds` | src/codec/encoder/window.rs:97-115 | Exactly the listed ids leave; the flag is true only for a window without holes |
| `Windows.EncodingWindow.Get` | src/codec/encoder/window.rs:118-133 | The symbol that a search finds, or none |
| `Encoders.Encoder.SubmitSource` | src/codec/encoder/mod.rs:115-158 | In place: size error, full window, or the source packet followed by the redundancy due, with the new state |
| `Sending.SubmitSends` | src/codec/encoder/mod.rs:115-158 | An accepted submission sends the symbol under the next id and then coded packets, each over exactly the window with that symbol in it, ascending |
| `Backpressures.RefusedIff` | src/codec/encoder/mod.rs:115-137 | A submission is refused, and then changes nothing, if and only if its size is wrong or the window is full and the encoder rejects |
| `Backpressures.SessionPressed` | src/codec/encoder/mod.rs:115-137 | In every session the window is within its capacity, every evicted id is older than all in the window, and an encoder that rejects evicts nothing |
| `Backpressures.RejectKeeps` | src/codec/encoder/mod.rs:115-137 | With rejection every id below the next is in the window, unless the policy removed it |
| `Encoders.Encoder.Generate` | src/codec/encoder/mod.rs:222-303 | In place: the packet of each of the four ways to choose a cover, or none when the cover is empty |
| `Covers.CoverIs` | src/codec/encoder/mod.rs:222-303 | A cover is the window's ids that are wanted: all, the listed, those not acknowledged by the receiver, or those with fewer than n larger ones in the window; ascending unless listed, and never descending if the list does not |
| `Covers.AskedJoins` | src/codec/encoder/mod.rs:245-262 | A listed cover keeps the caller's order: the cover of two lists in a row is their covers in a row |
| `Sending.GenerateSends` | src/codec/encoder/mod.rs:222-375 | One packet with that cover is sent, or none and nothing changes if it is empty |
| `Encoders.Encoder.ComputePayload` | src/codec/encoder/mod.rs:421-461 | The accumulation loop ends with the last of the partial sums, zero coefficients skipped |
| `Encoders.Encoder.HandleFeedback` | src/codec/encoder/mod.rs:378-398 | In place: the entry of the receiver is updated, and what the policy drops leaves the window |
| `Policies.HearingDrops` | src/codec/encoder/mod.rs:378-386 | After a report the window holds an id if and only if it did and the configured policy, given the entries after the report, does not drop it |
| `Policies.EntriesAreHeard` | src/codec/encoder/mod.rs:378-386 | In every session the entries acknowledge, receiver by receiver, exactly what some report heard did |
| `Policies.HeardIsDropped` | src/policy/defaults.rs:15-92 | In every session a report takes out of the window exactly the ids that enough receivers have acknowledged in all their reports: one, all heard of, or the quorum |
| `Encoding.CauchyLabels` | src/codec/encoder/mod.rs:314-338 | The n-th Cauchy packet over GF(2^8) has coded id n mod 128 and generation n / 128 mod 256 |
| `Encoding.CauchyLabels16` | src/codec/encoder/mod.rs:314-338 | The n-th Cauchy packet over GF(2^4) has coded id n mod 7 and generation n / 7 mod 256 |
| `Encoding.VandermondeLabels` | src/codec/encoder/mod.rs:314-338 | The n-th Vandermonde packet has coded id 1 + n mod (order - 2) |
| `Encoding.WindowPointsDiffer` | src/config.rs:203-211 | A window without holes and no longer than the cycle has distinct Cauchy points |
| `ThinnedWindows.WindowCollides` | src/wire/ev/coef_gen.rs:114-116 | 129 submissions and a report reach a window of at most two symbols that holds 0 and 128, which share a point |
| `Sessions.EverySymbolPlaced` | src/codec/encoder/mod.rs:115-137 | In every session each id below the next is in the window, evicted as oldest or dropped by the policy: exactly one of the three |
| `Sessions.PayloadIsSum` | src/codec/encoder/mod.rs:421-461 | At every position the payload is the sum that the vector describes, of the symbols in the window |
| `Sessions.PacketHolds` | src/codec/encoder/mod.rs:308-375 | A packet over ids each listed an odd number of times is, to the decoder's reading, a true equation |
| `Sessions.SessionFaithful` | src/codec/encoder/mod.rs:115-158 | What a session sends is a stream of true packets over ids already sent, if the caller lists each id an odd number of times |
| `EndToEnd.SessionLabelled` | src/codec/encoder/mod.rs:314-338 | In every session the n-th coded packet sent carries the n-th label |
| `EndToEnd.RedundancyIsExact` | src/codec/encoder/mod.rs:139-156 | Without calls to generate, the coded packets sent number exactly accepted * numer / denom, rounded down, at every moment |
| `EndToEnd.PacketsExact` | src/codec/decoder/mod.rs:115-180 | Session, channel of packet records, run: each symbol delivered was accepted under its id with that data, if the caller lists each id an odd number of times |
| `EndToEnd.PacketsRecover` | src/codec/decoder/matrix.rs:258-366 | Over that channel, k lost ids distinct mod 128 come back from any k of 121 consecutive packets that span them, if the missing ids are at most max_rows |
| `EndToEnd.PointsRecover` | src/codec/decoder/matrix.rs:258-366 | Over either field: the same for k lost ids with distinct points from any k packets with distinct points |
| `Wires.ReadsWholeIff` | src/wire/ev/mod.rs:106-255 | The decoder reads the vector that was sent, its ids in any order, if and only if it has at most 255 ids, never descends and has no step of 65536 |
| `Wires.CrossesHeard` | src/wire/ev/mod.rs:106-255 | Every coded packet over at most 255 ids, in any order, reaches the decoder, as the same packet over the running sums of the low 16 bits of its deltas and as no other |
| `Wires.EndToEndExact` | src/codec/decoder/mod.rs:115-180 | For every sequence of calls and every channel that loses, repeats and keeps order, with every vector serialised and parsed: each symbol delivered was accepted under its id with that data, if every cover sent has at most 255 ids, never descends and has no step of 65536, the caller lists each id an odd number of times, and the session has fewer than 2^32 symbols |
| `Wires.SessionRecovers` | src/codec/decoder/matrix.rs:258-366 | k lost ids distinct mod 128 come back, over that channel of bytes, from any k of 121 consecutive packets that span them, if the covered ids that do not arrive are at most max_rows, under the same conditions on the covers and however many packets the session has |
| `Wires.SessionRecovers16` | src/codec/decoder/matrix.rs:258-366 | The same over GF(2^4) for ids distinct mod 7, from any k of 4 consecutive packets, no two of them two apart with a wrap of the generation between |
| `Deliveries.SessionDelivers` | src/codec/decoder/mod.rs:115-180 | Under the hypotheses of SessionRecovers, and with every id up to this one lost, received or passed over: it is delivered or given up, with the data submitted, unless the last packet opened a gap before it |
| `Covers.SessionRises` | src/codec/encoder/mod.rs:222-303 | If no list of the caller descends, no cover of the session does |
| `Covers.CarefulExact` | src/codec/decoder/mod.rs:115-180 | EndToEndExact with nothing asked of what was sent: a window of at most 255, lists without repeats that never descend, at most 65536 symbols |
| `Wires.SessionFits` | src/wire/ev/mod.rs:97-99 | If the caller lists no id twice, no cover of a session is wider than the window's capacity |
| `Overflow.LongCoverSpoils` | src/wire/ev/mod.rs:97-99 | 257 submissions and one Vandermonde packet over the window: the decoder reads one id and delivers the whole sum as symbol 0, which it is not |
| `CallerCovers.ReversedCoverMisleads` | src/codec/encoder/mod.rs:245-262 | Two submissions and a Cauchy packet over 1, 0, source 0 lost: the packet crosses, the decoder knows symbol 0 as symbol 65536, which was never submitted, and gives symbol 0 up, which the window holds |
| `CallerCovers.DoubledCoverSpoils` | src/codec/encoder/mod.rs:245-262 | One submission and a packet over 0, 0: it crosses unchanged, and zeros are delivered for symbol 0, whatever was submitted |
| `Duplicates.SumIsOdd` | src/codec/encoder/mod.rs:421-461 | The encoder's sum sees a symbol if and only if it is listed an odd number of times |
| `Duplicates.AgreeIffOdd` | src/codec/decoder/matrix.rs:265-276 | Encoder and decoder agree on all sources if and only if no id is listed an even number of times |
| `Instances.CauchyOver8` | src/wire/ev/coef_gen.rs:109-123 | CauchyDetermines for bytes, ids distinct mod 128 |
| `Instances.CauchyOver4` | src/wire/ev/coef_gen.rs:148-160 | CauchyDetermines for nibbles, ids distinct mod 7 |
| `Instances.VandermondeOver8` | src/wire/ev/coef_gen.rs:17-26 | VandermondeDetermines for bytes, ids distinct mod 255 |
| `Instances.ExactOver8` | src/codec/decoder/mod.rs:115-180 | EndToEndExact with the field of bytes and its coefficient bytes |
| `Instances.ExactOver4` | src/codec/decoder/mod.rs:115-180 | EndToEndExact with the field of nibbles and its packed coefficients |
| `Instances.RecoversOver8` | src/codec/decoder/matrix.rs:258-366 | SessionRecovers with the field of bytes |
| `Instances.RecoversOver4` | src/codec/decoder/matrix.rs:258-366 | SessionRecovers16 with the field of nibbles |
| `FecRates.TotalIsExact` | src/policy/defaults.rs:150-156 | After n calls the total is n * numer / denom, rounded down |
| `FecRates.ConstantFecRate.CodedPacketsToGenerate` | src/policy/defaults.rs:150-156 | In place: one call adds its count to that total |
| `Acks.UpdatedAcks` | src/policy/mod.rs:61-92 | After an update an id is acknowledged if and only if it was before or the packet acknowledges it |
| `Acks.AfterAllIsUnion` | src/policy/mod.rs:61-92 | After any packets the acknowledged ids are the union over them |
| `Acks.OrderDoesNotMatter` | src/policy/mod.rs:61-92 | Two sequences with the same packets acknowledge the same ids |
| `Acks.OldFeedbackLeavesMarks` | src/policy/mod.rs:61-84 | From an entry without marks below its cumulative one: an update leaves such a mark if and only if the packet's vector acknowledges an id below it |
| `Acks.MarksDependOnOrder` | src/policy/mod.rs:61-84 | Two packets leave a mark below the cumulative one in one order and none in the other |
| `Acks.ReceiverAckState.Update` | src/policy/mod.rs:61-84 | In place: the entry of one receiver is updated, the others are kept |
| `Acks.QuorumExtremes` | src/policy/defaults.rs:66-92 | A quorum of one is the any-policy, a quorum of all receivers the all-policy |
| `Policies.DropsIffEnough` | src/policy/defaults.rs:15-92 | Each policy is a threshold on the number of receivers that acknowledged: one, all heard of but at least one, or the quorum |
| `Acks.DropsUnacked` | src/policy/defaults.rs:15-92 | A policy can drop a symbol that nobody acknowledged if and only if it is a quorum of zero |
| `Feedback.BuildSack` | src/wire/feedback.rs:187-211 | The loops build the bit vector of the specification |
| `Feedback.SackOfAcks` | src/wire/feedback.rs:154-211 | The vector answers yes to exactly the ids listed that are not below its base |
| `Feedback.AckedIdsAre` | src/wire/feedback.rs:168-182 | The iterator visits exactly the ids that the query answers yes to |
| `Feedback.ParseSerialise` | src/wire/feedback.rs:67-149 | Round trip, up to what the length byte drops |
| `Feedback.TruncatedIsWhole` | src/wire/feedback.rs:67-98 | A packet survives if and only if its vector has fewer than 256 bytes |
| `Feedback.TruncatedAcks` | src/wire/feedback.rs:67-98 | Truncation makes no acknowledgement up |
| `ClosedLoop.PathSafe` | src/codec/decoder/mod.rs:214-232 | Over every run with feedback lost, repeated, reordered and truncated: each id held as acknowledged is delivered, given up or buffered at that receiver |
| `ClosedLoop.DropsAreSettled` | src/policy/defaults.rs:15-92 | In any such run the all-policy drops only ids settled at every receiver heard of, the any-policy at one, a quorum at that many |
| `Loops.RemovedAreSettled` | src/codec/encoder/mod.rs:378-386 | Encoder and decoders together, over every run: an id that the policy removed was in the window when a report was heard, and from then on is settled at every receiver heard of by then (all), at one of them (any), at a quorum of receivers (quorum) |
| `Loops.HeardIsTold` | src/policy/mod.rs:61-92 | In such a run, once the encoder hears a report it holds as acknowledged exactly what it held and what was reportable at that decoder when the report was made |
| `Loops.HeardIsGone` | src/policy/defaults.rs:15-38 | Under the any-policy its window then holds an id if and only if it did, nobody had acknowledged it, and that report does not |
| `BitStreams.BitWriter.WriteBits` | src/wire/ev/id_storage.rs:259-270 | In place: the stream grows by the low bits of the value, the most significant first |
| `BitStreams.BitWriter.Finish` | src/wire/ev/id_storage.rs:272-279 | The bytes are the stream filled up with fewer than eight zeros |
| `BitStreams.BitReader.ReadBits` | src/wire/ev/id_storage.rs:295-310 | The number in the next bits, or in those that are left |
| `BitStreams.WriteThenRead` | src/wire/ev/id_storage.rs:244-324 | Any sequence of fields is read back, each reduced to its width |
| `ByteOrders.BeDigit` | src/wire/feedback.rs:67-98 | Byte i of a word of k bytes is the digit of 256 to the k - 1 - i |
| `ByteOrders.ReadBeDigit` | src/wire/feedback.rs:101-149 | Reading any bytes gives the number with these digits |
| `ByteOrders.ReportNumbers` | src/wire/feedback.rs:67-98 | The sixteen bytes before the vector of a report, as numbers |
| `ByteOrders.SackDigit` | src/wire/feedback.rs:154-182 | The id 8 k + j above the first is acknowledged if and only if byte k has the digit of 2 to the 7 - j |
| `ByteOrders.FlagsNumber` | src/wire/ev/mod.rs:131-139 | The flags are 16 for GF(2^8), 4 times the wire value of the format, 2 for coefficients and 1 for a generation; the format is read back from them |
| `ByteOrders.HeaderNumbers` | src/wire/ev/mod.rs:122-156 | The first eight bytes of a vector, as numbers: length in words, flags, counts, first id |
| `ByteOrders.FieldDigits` | src/wire/ev/id_storage.rs:244-324 | A 16-bit field of a list of ids is two bytes, the more significant first |
| `IdStorage.Encode` | src/wire/ev/id_storage.rs:57-111 | The bytes show the fields or words that the format lays out for these ids, in any order for the formats that the encoder chooses |
| `IdStorage.Decode` | src/wire/ev/id_storage.rs:118-215 | The loops compute what each format's specification reads, from any bytes |
| `IdStorage.BlocksPartition` | src/wire/ev/id_storage.rs:224-240 | The blocks concatenate to the ids, and no two neighbours could be one |
| `IdStorage.RoundTrip` | src/wire/ev/id_storage.rs:57-215 | Each format gives back the ids it can carry, and their length in bytes, whatever follows; the two by edges are for ascending ids |
| `IdStorage.ListRoundTrip` | src/wire/ev/id_storage.rs:69-162 | The compressed list, of ids in any order, comes back if and only if it never descends and no two neighbours are 65536 or more apart |
| `IdStorage.ListReads` | src/wire/ev/id_storage.rs:69-162 | Of any list the decoder reads the running sums of the low 16 bits of its deltas, which wrap at 2^32 |
| `IdStorage.BestForCarries` | src/wire/ev/id_storage.rs:40-50 | The format chosen carries every list that climbs, or repeats, without large jumps |
| `VectorWire.ParseSerialise` | src/wire/ev/mod.rs:106-255 | A sendable vector comes back whole, and its bytes are counted, whatever follows |
| `VectorWire.IntactIff` | src/wire/ev/mod.rs:97-255 | A vector over ids in any order comes back whole, or with its ids, if and only if it has at most 255 ids, never descends and has no step of 65536 |
| `VectorWire.ReadsSummed` | src/wire/ev/mod.rs:106-255 | Of any vector with at most 255 ids everything comes back but the ids, of which the running sums of the low halves of their deltas do |
| `VectorWire.RangeRoundTrip` | src/wire/ev/mod.rs:97-156 | A contiguous range comes back with its length reduced mod 256 |
| `VectorWire.NibbleRoundTrip` | src/wire/ev/mod.rs:260-282 | Packing nibbles loses nothing, odd or even |
| `VectorWire.SendAndParse` | src/wire/ev/mod.rs:106-255 | The loops run one after the other: the vector returns with the number of bytes written, a multiple of four |
| `Gf8.Field8IsGenerated` | src/gf/gf2_8.rs:41-82 | The table-driven byte operations are a field that 2 generates |
| `Gf8.MulIsPolynomial` | src/gf/gf2_8.rs:27-38 | Multiplication by logarithms is polynomial multiplication mod 0x11D, for all bytes |
| `Gf8.BuildExp` | src/gf/tables.rs:52-73 | The loops fill the powers of 2, twice |
| `Gf8.BuildLog` | src/gf/tables.rs:81-89 | The loop fills the exponent of every power and leaves 0xFF at zero |
| `Gf4.Field4IsGenerated` | src/gf/gf2_4.rs:71-109 | The table-driven nibble operations are a field that 2 generates |
| `Gf4.MulIsPolynomial` | src/gf/gf2_4.rs:57-68 | Multiplication by logarithms is polynomial multiplication mod x^4 + x + 1 |
| `Gf4.BuildExp` | src/gf/tables.rs:11-30 | The loop fills the powers of 2 |
| `Gf4.BuildLog` | src/gf/tables.rs:34-42 | The loop fills the exponents, each entry exactly, the sentinel included |
| `Kernels.BuildTables` | src/gf/simd.rs:42-66 | The loop tabulates the product of every low and every high half |
| `Kernels.LookupIs` | src/gf/simd.rs:42-66 | For a linear function the two look-ups added are the function |
| `Kernels.Times8Linear` | src/gf/simd.rs:502-507 | Multiplication by a byte is linear in the other factor |
| `Kernels.Times4Linear` | src/gf/simd.rs:510-515 | Nibble-wise multiplication of a packed byte is linear |
| `Kernels.ChunkMulAcc` | src/gf/simd.rs:272-299 | In place, the 16-byte loop and its tail: the kernel at every position of the range, the rest unchanged |
| `Kernels.UnrolledMulAcc` | src/gf/simd.rs:334-386 | In place, the 64-byte loop and what follows it: the kernel at every position, for every length |
| `Kernels.MulAccRaw` | src/gf/simd.rs:94-119 | Every dispatch computes the same |
| `FieldKernels.MulAccGf8` | src/gf/simd.rs:151-166 | In place: dst[i] + coef * src[i] in the field, for every length, coefficient and dispatch |
| `FieldKernels.MulScaleGf8` | src/gf/simd.rs:170-188 | In place: coef * buf[i] |
| `FieldKernels.MulAccGf8Reference` | src/gf/simd.rs:523-527 | The reference loop computes the same as the kernel |
| `FieldKernels.MulAccGf4` | src/gf/simd.rs:196-215 | Both elements of every packed byte: dst + coef * src in GF(2^4) |
| `FieldKernels.MulScaleGf4` | src/gf/simd.rs:223-240 | Both elements of every packed byte, multiplied |

## Left out

- Packed payloads over GF(2^4): encoder and decoder work on a sequence of elements; `FieldKernels.Elements` is the link to two elements in a byte.
- Headers of source, coded and common packets, and the payload as bytes: packets are records around the encoding vector; of a source packet the id's 32 bits are modelled.
- The formats by edges for ids in another order: the source underflows there, and the encoder never chooses them.
- Ids that wrap at 2^32: sessions have fewer symbols, and a decoded sum that passes 2^32, where the source panics or wraps by its build, is kept as it is: not an id that was sent.
- Coefficients.VandermondeDetermines: the ids are consecutive without the wrap from order - 2 to 1, across which the powers are not consecutive.
- The inverse of zero: a placeholder where the source asserts or returns an error; no caller divides by zero.
- Parsers on malformed bytes: a panic in the source is an error in the model.
- Loss rates, the PLR byte, `AdaptiveFecRate`, `LossTracker`: floating point, read by policies only.
- Feedback policies: whether a report is due is a parameter of each arrival.
- Congestion control, CCI and TSI fields, state snapshots, tracing, deprecated aliases: no effect on the properties.
- Intrinsics, run-time detection and lazily built tables: a shuffle is sixteen look-ups, and the dispatch is a parameter.
- Transport, command line, examples and benchmarks: no hard property of their own.
- The range assertions on coded ids in coef_gen: the encoder's labels satisfy them.
