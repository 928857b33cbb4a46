# Scarlet GPU submission path: a verified model

The project models how Scarlet turns normalised drawing operations into work for an Adreno A6xx GPU, and how
that work is queued and run:

- `Operations`, `InForce`, `Splitter`, `AsyncSplit`, `Retry`: a stream of operations means the events it causes; it is
  split into submissions, retried in halves, and still means the same.
- `DispatchModel`, `DispatchOrder`, `DispatchMemory`, `Scheduler`, `WakePipe`: the queue as a state machine
  over the steps of submitting threads, the worker and the GPU, with the scheduler as a class whose rounds
  are runs of that machine.
- `WireFormat`, `SubmitWire`, `WireBytes`, `SubmitEncoder`, `WireTranslation`, `ShaderPack`: the submit payload
  byte by byte, its codec and the translation of a compiled stream into it.
- `Pm4`, `Stream`, `Accesses`, `Authority`, `Emitters`: packets, fixups, the access table and the emitter.
- `Commands`, `Draws`, `DrawDelta`, `Descriptors`, `Bounds`, `Transfers`, `Lowering`, `Compile`,
  `CompileStream`: what the compiler emits, why the delta form of a draw equals the full form, and why every
  address stays inside its object.
- `Acts`, `CompiledActs`, `CompiledWrites`, `PixelMeaning`, `CompiledObjects`: a compiled stream makes the
  engines do, and uploads, exactly what the stream means; what it generates can be placed.
- `RegisterReads`, `EngineReads`, `PacketReads`: what the packets ask for, read off their bits, operands and
  registers and compared with the events of the stream.
- `Acceptance`, `SplitCompiled`: the chunks of a stream that is lowered whole are lowered too, and compiled one
  by one they do what the stream compiled whole does.
- `Aborts`: when compilation aborts.
- `Layout`, `Images`, `Uploads`, `Painting`, `StripLimits`, `Placements`: texture layout, pixel conversion,
  staging copies, strip limits and arena placement.
- `Playback`: the audio ring of the LPASS driver.
- `Wrappers`, `Arith`, `Sequences`: helpers.

Main results, each over every input or every run: a split stream means what the stream means
(`Splitter.SplitSubmissionOperations`, `AsyncSplit.SplitAsyncOperations`, `Retry.PrepareAll`); delta draws
refine full draws (`DrawDelta.DeltaRefinesFull`); every queued chunk sees serial memory
(`DispatchMemory.ChunksSeeSerialMemory`) and outcomes are told in order (`DispatchOrder.OutcomesAreOrdered`);
the wake byte is never lost (`WakePipe.NoLostWake`); the submit codec is a bijection onto canonical payloads,
every byte of which is given (`SubmitWire.DecodeEncoded`, `SubmitWire.EncodeDecoded`, `WireBytes.EncodedSpelt`);
compiled streams parse back, stay inside every object and always translate (`CompileStream.CompileOperations`,
`CompileStream.TranslateCompiled`); their packets, read by their own bits, ask event by event for what the
stream means (`EngineReads.CompiledAsks`, `CompiledActs.CompiledWork`), and their copies leave the pixels it
means (`PixelMeaning.CompiledUploads`); splitting and retrying a stream the compiler lowers gives chunks that it
lowers, to the same effect (`SplitCompiled.SplitForInput`, `SplitCompiled.PrepareForInput`); a queue whose
transport says yes progresses (`Scheduler.Scheduler.Advance`); a split upload, compiled strip by strip, shows
the colours of its texels at the pixels' own places (`SplitCompiled.SplitUploadCompiled`); audio completions
never drift (`Playback.CompletionsNeverDrift`, `Playback.Play`).

The GPU, the transport's answers, the outcome of preparing a chunk, elapsed time and thread interleaving are
arbitrary: they are parameters, nondeterministic choices or steps of a state machine. Integer widths are
written out where the code checks them. Methods stand where the code updates things in place or loops; pure
code is functions.

Where comment and code disagree the code is modelled: `preparation.rs:277-279` counts one upload object per
row, while `emit.rs:1552-1595` stages a whole strip in one object, so a strip needs one record per row and one
more.

Four promises do not hold of the code without a condition, and the exact condition is proved. Re-encoding a
decoded type-7 packet header restores the word only if bit 14 is clear (`Pm4.DecodedHeaderReencodes`).
Looking up a surface of a single-plane image that carries a colour conversion aborts
(`Images.SurfacePanicsIff`), and `Aborts.AbortsIff` says for which tables some stream gets there. Uploads copy
rows linearly whatever the modifier of the image, and validation accepts tiled images, so an uploaded pixel is
where it belongs exactly when the image is linear or its tiling happens to agree (`PixelMeaning.PixelRightIff`,
`PixelMeaning.UploadRightIffLinear`). Audio completions drift when the period does not divide the ring
(`Playback.NeverDriftsIff`), which the geometry check of the driver allows; the caller that chooses
`AudioPcmParams` is not part of this model.

## Model

| member | source | states |
|---|---|---|
| `Splitter.SplitSubmissionOperations` | userspace/sgfx-backend-scarlet-adreno/src/preparation.rs:62-172 | a stream the pass machine accepts is split without error into chunks that, run one after another, cause exactly the events of the stream; each draw finds fewer draws before it in its chunk than the limit in force at it (512 at most while a texture is bound); no draw is lost, only the last chunk may be free of draws, render work stays render work, and a zero limit is refused; a compiler that is indifferent to how attachments load and store, and accepts every operation of the stream, accepts every operation of every chunk; every chunk but the last was at its limit when the next began |
| `InForce.MachineInForce` | userspace/sgfx-codegen-adreno-a6xx/src/compiler.rs:80-361 | inside a pass each binding of the pass machine is the argument of the last set operation of its kind since the pass began, also when that argument was none, and none if there was no such operation; the pass is the one last begun |
| `InForce.DrawsInForce` | userspace/sgfx-codegen-adreno-a6xx/src/compiler.rs:80-361 | every draw event of a stream is one of its draw operations, with the bindings and attachments in force at it |
| `InForce.CompilerInForce` | userspace/sgfx-codegen-adreno-a6xx/src/compiler.rs:250-331 | the compile loop holds exactly the bindings in force |
| `InForce.ReplayInForce` | userspace/sgfx-backend-scarlet-adreno/src/preparation.rs:91-130 | what the splitter would replay are exactly the bindings in force |
| `Splitter.ForceActivePassStore` | userspace/sgfx-backend-scarlet-adreno/src/preparation.rs:174-187 | changes exactly the last begin of the chunk, to storing attachments; fails exactly when there is none |
| `Splitter.StoreDeferred` | userspace/sgfx-backend-scarlet-adreno/src/preparation.rs:174-187 | the store operations of a pass have no effect before the pass ends, so they may be rewritten after the fact |
| `Splitter.ReplayRestores` | userspace/sgfx-backend-scarlet-adreno/src/preparation.rs:29-60 | replaying the remembered bindings into an empty pass restores them, one by one and all together |
| `Splitter.CutInPass` | userspace/sgfx-backend-scarlet-adreno/src/preparation.rs:132-155 | cutting an open pass with store, end, load and replay keeps the meaning of everything issued so far |
| `Splitter.CutIdle` | userspace/sgfx-backend-scarlet-adreno/src/preparation.rs:79-90 | cutting between passes keeps the meaning |
| `Splitter.PushFaithful` | userspace/sgfx-backend-scarlet-adreno/src/preparation.rs:91-161 | forwarding one accepted operation keeps the split faithful, with pass and replay state tracked |
| `Splitter.MakeRoomForDraw` | userspace/sgfx-backend-scarlet-adreno/src/preparation.rs:132-155 | leaves room for one more draw below the limit in force; cannot fail inside a pass |
| `Splitter.MakeRoomForPass` | userspace/sgfx-backend-scarlet-adreno/src/preparation.rs:79-90 | a pass that would start in a full chunk starts in a new one, and the invariant of the split is kept |
| `Operations.ChunksConcat` | userspace/sgfx-backend-scarlet-adreno/src/preparation.rs:62-66 | running two lists of chunks one after the other is running their concatenation, rejected ones included |
| `Operations.RunSnoc` | userspace/sgfx-codegen-adreno-a6xx/src/compiler.rs:80-361 | a run over a longer stream is the run over its front followed by one step of the pass machine |
| `AsyncSplit.SplitBufferWrite` | userspace/sgfx-backend-scarlet-adreno/src/preparation.rs:241-259 | a buffer write becomes pieces of at most 256 KiB that write the same bytes at the same offsets, whenever the range does not overflow; every piece but the last has exactly 256 KiB |
| `AsyncSplit.SplitTextureWrite` | userspace/sgfx-backend-scarlet-adreno/src/preparation.rs:260-304 | an accepted texture write becomes row strips that write the same rows; an unpadded last row is kept; a zero stride is refused; a judge that accepts the write and parts of writes accepts each strip; every strip but the last has all the rows it may |
| `AsyncSplit.CutStrips` | userspace/sgfx-backend-scarlet-adreno/src/preparation.rs:283-303 | the loop produces the strips of the specification, or refuses where one is out of range |
| `AsyncSplit.StripsMeaning` | userspace/sgfx-backend-scarlet-adreno/src/preparation.rs:283-303 | the strips from any row on mean the remaining rows of the write |
| `AsyncSplit.StripBytes` | userspace/sgfx-backend-scarlet-adreno/src/preparation.rs:273-282 | a strip has between 1 and 512 rows and, if more than one, at most 256 KiB of source bytes and of converted pixels; one row more would not fit, unless it has 512 |
| `AsyncSplit.SplitTransfer` | userspace/sgfx-backend-scarlet-adreno/src/preparation.rs:226-311 | the chunks of one transfer hold no draw, mean the transfer, and are each a buffer piece of at most 256 KiB, a texture strip within its row limit, or the one copy or blit |
| `AsyncSplit.SplitAsyncOperations` | userspace/sgfx-backend-scarlet-adreno/src/preparation.rs:221-325 | the chunks of a whole stream mean the stream, keep its number of draws, and are each one transfer within its upload bound or render work without transfers within its draw limits; whatever a fair judge of operations accepts of the stream it accepts of every chunk |
| `Retry.PrepareAll` | userspace/sgfx-backend-scarlet-adreno/src/asynchronous.rs:442-534 | for every behaviour of preparation the halving loop ends; what was accepted is a prefix of the meaning, all of it on success, and each accepted chunk keeps the split bounds; the total is the sum of the accepted costs and never exceeds 64 MiB; calls increase, each error is the answer to the call about the chunk that follows what was accepted, and size is given up on only for a chunk of at most one draw; the chunk of an error keeps the split bounds too, and a fair judge that accepts the source accepts every chunk named |
| `Retry.SplitLowersCost` | userspace/sgfx-backend-scarlet-adreno/src/execute.rs:302-349 | halving a chunk of two or more draws gives at least two pieces and lowers the cost that bounds the loop |
| `Retry.AcceptPreserves` | userspace/sgfx-backend-scarlet-adreno/src/asynchronous.rs:493-504 | taking a prepared chunk off the stack keeps accepted plus pending equal to the source |
| `Retry.SplitPreserves` | userspace/sgfx-backend-scarlet-adreno/src/asynchronous.rs:505-531 | replacing the top of the stack by its pieces, reversed, keeps accepted plus pending equal to the source |
| `Retry.HalvesBounded` | userspace/sgfx-backend-scarlet-adreno/src/asynchronous.rs:519-530 | the halves of bounded render work are bounded render work |
| `DispatchOrder.StepKeepsOrder` | userspace/sgfx-backend-scarlet-adreno/src/scheduler.rs:88-202 | every step of every thread and of the GPU keeps the order invariant |
| `DispatchOrder.AcceptedInAdmissionOrder` | userspace/sgfx-backend-scarlet-adreno/src/scheduler.rs:88-202 | in every run the accepted chunks are a prefix of the admitted ones, with at most 16 jobs, 16 receipts and 64 MiB, exactly accounted |
| `DispatchOrder.OutcomesAreOrdered` | userspace/sgfx-backend-scarlet-adreno/src/scheduler.rs:137-202 | in every run the outcomes are a prefix of successes followed by all pending or all failed alike; each signal is told once; success means every chunk up to that job was executed |
| `DispatchOrder.LastSignalCoversAll` | userspace/sgfx-backend-scarlet-adreno/src/dispatch.rs:351-384 | success of the last admitted job means that everything admitted was accepted, executed and told |
| `DispatchOrder.PoisonIsFinal` | userspace/sgfx-backend-scarlet-adreno/src/scheduler.rs:126-135 | after a failure nothing is admitted, accepted, told or written, whatever steps follow |
| `DispatchOrder.FailureIsFinal` | userspace/sgfx-backend-scarlet-adreno/src/scheduler.rs:126-135 | in any run, once there is a failure every admitted job has been told, and nothing that follows changes what was admitted, accepted, told or written |
| `DispatchMemory.StepKeepsMemory` | userspace/sgfx-backend-scarlet-adreno/src/dispatch.rs:237-299 | every step keeps the mapped buffers and arenas coherent with the accepted chunks |
| `DispatchMemory.ChunksSeeSerialMemory` | userspace/sgfx-backend-scarlet-adreno/src/dispatch.rs:237-299 | in every run, from acceptance to execution of a command chunk, every byte of the mapped buffers is that of the last write admitted before the chunk that covers it, or the initial one, and every byte of its uploads is at its own offset in its arena unless a later upload of the chunk covers it; although arenas are reused and the GPU completes in any order |
| `DispatchMemory.UploadsLand` | userspace/sgfx-backend-scarlet-adreno/src/dispatch.rs:277-282 | writing the uploads of a chunk puts each byte at its own offset, later uploads winning, whatever the arena held |
| `DispatchMemory.SerialHolds` | userspace/sgfx-backend-scarlet-adreno/src/dispatch.rs:258-270 | performing CPU writes in order leaves at every byte the last write that covers it, or the initial byte |
| `Scheduler.Scheduler.constructor` | userspace/sgfx-backend-scarlet-adreno/src/scheduler.rs:61-68 | an empty queue |
| `Scheduler.Scheduler.Enqueue` | userspace/sgfx-backend-scarlet-adreno/src/scheduler.rs:88-124 | admits a whole job or changes nothing; each of the three refusals happens exactly under its condition |
| `Scheduler.Scheduler.FailAll` | userspace/sgfx-backend-scarlet-adreno/src/scheduler.rs:126-135 | every queued job is told the error, in order, and the queue is emptied |
| `Scheduler.Scheduler.PollJob` | userspace/sgfx-backend-scarlet-adreno/src/scheduler.rs:139-157 | the receipts dropped are exactly observations of the model, and none of another job; each one left was answered with a refusal, and an error is the last answer |
| `Scheduler.Scheduler.PollAll` | userspace/sgfx-backend-scarlet-adreno/src/scheduler.rs:139-157 | polls every receipt of every job: as many are left as answers were not yes; stops at the first error, with that error |
| `Scheduler.Scheduler.RetireFinished` | userspace/sgfx-backend-scarlet-adreno/src/scheduler.rs:158-169 | retires from the front only, as long as the front job is finished |
| `Scheduler.Scheduler.SubmitNext` | userspace/sgfx-backend-scarlet-adreno/src/scheduler.rs:173-199 | submits the next chunk in admission order or leaves it next; it went exactly when no answer was a refusal |
| `Scheduler.Scheduler.SubmitReady` | userspace/sgfx-backend-scarlet-adreno/src/scheduler.rs:171-200 | is a run of the model; unless the transport refuses, nothing that may be sent is left |
| `Scheduler.Scheduler.Advance` | userspace/sgfx-backend-scarlet-adreno/src/scheduler.rs:137-202 | one round is a run of the model; it reports progress exactly when there was some, in which case the work left has shrunk; it fails exactly when the transport answers with an error, and with that error; if every poll, readiness and submit is answered yes, a queue with work in it progresses and nothing that may be sent is left |
| `Scheduler.StepMeasure` | userspace/sgfx-backend-scarlet-adreno/src/scheduler.rs:137-202 | each progress step removes exactly one unit of work and no other step changes the queue |
| `Scheduler.RunMeasure` | userspace/sgfx-backend-scarlet-adreno/src/scheduler.rs:137-202 | over a run of worker steps the work left falls by the number of progress steps |
| `Scheduler.WorkedMeasure` | userspace/sgfx-backend-scarlet-adreno/src/scheduler.rs:137-202 | a round without progress leaves the queue as it was; one with progress lowers the measure |
| `Scheduler.Serve` | userspace/sgfx-backend-scarlet-adreno/src/dispatch.rs:336-453 | however admissions, rounds and failures interleave, the scheduler and its transport make one run of the model from its start, so the order theorems hold of the class; without error answers or outside failures it never fails |
| `WakePipe.RunKeepsAccount` | userspace/sgfx-backend-scarlet-adreno/src/dispatch.rs:100-129 | in every interleaving the flag, the byte and the owed write account for each other |
| `WakePipe.NoLostWake` | userspace/sgfx-backend-scarlet-adreno/src/dispatch.rs:387-453 | a sleeping worker with unseen work always has a byte waiting or a notifier still on its way; the pipe never holds two bytes |
| `WakePipe.ReadNeverBlocks` | userspace/sgfx-backend-scarlet-adreno/src/dispatch.rs:112-129 | the worker reads only when the byte is there |
| `WireFormat.DecodeField` | shared/adreno-a6xx-submit-wire/src/lib.rs:225-261 | decoding a little-endian field gives back every value that fits it |
| `WireFormat.EncodeField` | shared/adreno-a6xx-submit-wire/src/lib.rs:225-261 | encoding a decoded field gives back its bytes, for all bytes |
| `WireFormat.UnpackPacked` | shared/adreno-a6xx-submit-wire/src/lib.rs:225-261 | a record of fields decodes to what was encoded |
| `WireFormat.PackUnpacked` | shared/adreno-a6xx-submit-wire/src/lib.rs:225-261 | a decoded record re-encodes to its bytes |
| `WireFormat.CutJoined` | shared/adreno-a6xx-submit-wire/src/lib.rs:429-468 | a table cut into records gives the records it was joined from |
| `WireFormat.JoinCut` | shared/adreno-a6xx-submit-wire/src/lib.rs:429-468 | the records of a table join to the table |
| `WireBytes.LeByte` | shared/adreno-a6xx-submit-wire/src/lib.rs:225-235 | byte i of an encoded field is digit i of its value to the base 256, least significant first |
| `WireBytes.EncodedSpelt` | shared/adreno-a6xx-submit-wire/src/lib.rs:341-400 | an encoded payload has its magic, versions, counts and offsets in the header, word j at 64 + 4j, one 32-byte record for each resource and relocation with every field at its own offset, and zeroes everywhere else |
| `WireBytes.DecodedSpelt` | shared/adreno-a6xx-submit-wire/src/lib.rs:472-584 | whatever decodes is spelt that way, at the minor version it claims |
| `WireBytes.SpeltBytes` | shared/adreno-a6xx-submit-wire/src/lib.rs:225-261 | such a payload begins 41 36 58 53, and byte i of word j is digit i of that word |
| `SubmitWire.AlignUp8` | shared/adreno-a6xx-submit-wire/src/lib.rs:163-168 | the least multiple of eight not below the value |
| `SubmitWire.LayoutFor` | shared/adreno-a6xx-submit-wire/src/lib.rs:170-205 | header and words, the resource table and the relocation table each end before the next begins, the tables are eight-byte aligned, and the total is exactly their end |
| `SubmitWire.DecodeHeader` | shared/adreno-a6xx-submit-wire/src/lib.rs:472-511 | an accepted header describes exactly the payload it heads |
| `SubmitWire.DecodeEncoded` | shared/adreno-a6xx-submit-wire/src/lib.rs:341-584 | decoding an encoded submit gives it back, and the payload has exactly the computed length |
| `SubmitWire.DecodedIsCanonical` | shared/adreno-a6xx-submit-wire/src/lib.rs:472-584 | a payload that decodes is byte for byte the encoding of what it decodes to, at its own minor version |
| `SubmitWire.EncodeDecoded` | shared/adreno-a6xx-submit-wire/src/lib.rs:341-584 | re-encoding a decoded payload restores it exactly when it claims the current minor version |
| `SubmitWire.DecodeAtMinor` | shared/adreno-a6xx-submit-wire/src/lib.rs:448-584 | a payload written at an older minor version decodes to its submit exactly when no relocation of it names a source that version lacks, and to nothing else |
| `SubmitWire.EncodableIffDecodable` | shared/adreno-a6xx-submit-wire/src/lib.rs:341-584 | encoding accepts exactly the submits some payload decodes to |
| `SubmitWire.WordsRoundTrip` | shared/adreno-a6xx-submit-wire/src/lib.rs:419-421 | the PM4 words survive encoding |
| `SubmitWire.ResourcesRoundTrip` | shared/adreno-a6xx-submit-wire/src/lib.rs:429-440 | the resource table survives encoding |
| `SubmitWire.RelocationsRoundTrip` | shared/adreno-a6xx-submit-wire/src/lib.rs:448-468 | the relocation table survives encoding |
| `SubmitEncoder.EncodeInto` | shared/adreno-a6xx-submit-wire/src/lib.rs:341-400 | fills the caller's storage with a payload that decodes to the submit; refuses, leaving the storage untouched, exactly when the submit is invalid or the length is wrong; the payload has every field at its own bytes |
| `SubmitEncoder.Validate` | shared/adreno-a6xx-submit-wire/src/lib.rs:350-359 | the validation loops report exactly the first error of the specification |
| `SubmitEncoder.PutBytes` | shared/adreno-a6xx-submit-wire/src/lib.rs:225-235 | extends the written prefix by the bytes and leaves the rest zero |
| `SubmitEncoder.PutRecord` | shared/adreno-a6xx-submit-wire/src/lib.rs:378-398 | extends the written prefix by one packed record |
| `SubmitEncoder.PutPayload` | shared/adreno-a6xx-submit-wire/src/lib.rs:361-399 | the in-place writes produce header, words, padding and both tables |
| `Accesses.RecordAccess` | userspace/sgfx-codegen-adreno-a6xx/src/emit.rs:343-386 | the table covers exactly the bytes it covered and the new range; records stay separated, non-empty and in range; nothing that lay in one record leaves it; the new range lies in one; fails exactly on overflow |
| `Accesses.MergeKeepsCoverage` | userspace/sgfx-codegen-adreno-a6xx/src/emit.rs:358-384 | absorbing a touching record changes no covered byte |
| `Accesses.HullTouchesNothingNew` | userspace/sgfx-codegen-adreno-a6xx/src/emit.rs:358-384 | a record apart from two touching ranges is apart from their hull |
| `Accesses.MergeStaysApart` | userspace/sgfx-codegen-adreno-a6xx/src/emit.rs:358-384 | one pass suffices: records already found apart stay apart from the grown range |
| `Accesses.CoverageBoundsEnds` | userspace/sgfx-codegen-adreno-a6xx/src/emit.rs:343-386 | records that cover only bytes of their objects end inside them |
| `Authority.AuthorizesGrows` | userspace/sgfx-codegen-adreno-a6xx/src/emit.rs:388-409 | recording a fixup's range keeps the table exactly what the fixups need |
| `Authority.AuthorizesMerged` | userspace/sgfx-codegen-adreno-a6xx/src/emit.rs:1682-1704 | moving fixups behind a prefix does not change what they need |
| `WireTranslation.PartitionPoint` | userspace/sgfx-backend-scarlet-adreno/src/wire.rs:94-99 | the binary search returns the number of indices satisfying a predicate that holds of a prefix |
| `WireTranslation.SortKeepsFirst` | userspace/sgfx-backend-scarlet-adreno/src/wire.rs:24-26 | sorting the bindings keeps the first binding of every object |
| `WireTranslation.Binding` | userspace/sgfx-backend-scarlet-adreno/src/wire.rs:158-167 | the binary search finds what a linear search of the caller's list finds |
| `WireTranslation.SortIndicesSorted` | userspace/sgfx-backend-scarlet-adreno/src/wire.rs:27-31 | the access order is sorted by object and start |
| `WireTranslation.FindServing` | userspace/sgfx-backend-scarlet-adreno/src/wire.rs:94-114 | searching only the records that start at or before the fixup finds a serving record exactly when there is one |
| `WireTranslation.TranslateAccess` | userspace/sgfx-backend-scarlet-adreno/src/wire.rs:37-59 | an attached resource is the record's range in its bound allocation; with complete bindings it is accepted by the wire |
| `WireTranslation.TranslateFixup` | userspace/sgfx-backend-scarlet-adreno/src/wire.rs:65-145 | a relocation points at the fixup's own bytes; sound fixups are never refused |
| `WireTranslation.EnclosedIsServed` | userspace/sgfx-backend-scarlet-adreno/src/wire.rs:84-114 | a fixup that lies in one record of its own access is served and fits the binding |
| `WireTranslation.TranslatedEncodes` | userspace/sgfx-backend-scarlet-adreno/src/preparation.rs:346-358 | a sound stream that passes the count-only check encodes to the counted length |
| `WireTranslation.Translate` | userspace/sgfx-backend-scarlet-adreno/src/wire.rs:20-156 | whatever is encoded decodes to the same words with each fixup pointing at its own bytes of its own allocation; a sound, completely bound stream that passes the count-only check always encodes, to the counted length |
| `Pm4.OddParityBit` | shared/adreno-a6xx-pm4/src/lib.rs:52-58 | the bit that makes the number of ones odd |
| `Pm4.HeaderRoundTrip` | shared/adreno-a6xx-pm4/src/lib.rs:60-145 | decoding an encoded header gives it back, and a header that cannot be encoded is never decoded |
| `Pm4.HeaderBits` | shared/adreno-a6xx-pm4/src/lib.rs:60-110 | a header has its type in the top four bits, count and register or opcode at their places, and an odd number of ones in each checked half |
| `Pm4.DecodedHeaderReencodes` | shared/adreno-a6xx-pm4/src/lib.rs:90-145 | re-encoding restores a type-4 word always and a type-7 word exactly when its uninspected bit 14 is clear |
| `Pm4.SpareBitIsLost` | shared/adreno-a6xx-pm4/src/lib.rs:90-145 | a concrete word with bit 14 set that decodes and is not restored |
| `Pm4.Packets.Next` | shared/adreno-a6xx-pm4/src/lib.rs:158-193 | the iterator returns exactly the packets of the specification, one at a time, and stops for good at the end or at an error |
| `Stream.ParseEmitted` | userspace/sgfx-codegen-adreno-a6xx/src/emit.rs:327-337 | parsing an emitted stream gives exactly the packets emitted, to the end |
| `Stream.StreamPlaced` | userspace/sgfx-codegen-adreno-a6xx/src/emit.rs:1705-1721 | the fixups of an emitted stream are sorted, disjoint and on valid placeholders |
| `Stream.FixupsConcat` | userspace/sgfx-codegen-adreno-a6xx/src/emit.rs:388-409 | the fixups of a concatenation are those of the parts, the second ones moved |
| `Stream.FixupsShift` | userspace/sgfx-codegen-adreno-a6xx/src/emit.rs:1697-1703 | prepending words moves the fixups and changes nothing else |
| `Stream.FixupsAreAddresses` | userspace/sgfx-codegen-adreno-a6xx/src/emit.rs:388-409 | each fixup stands for the address at its offset, in order |
| `Stream.AddressInPayload` | userspace/sgfx-codegen-adreno-a6xx/src/emit.rs:388-409 | each fixup lies in the payload of one packet |
| `Emitters.Emitter.PushWord` | userspace/sgfx-codegen-adreno-a6xx/src/emit.rs:300-325 | appends one word unless the budget, shared with the prologue, is used up |
| `Emitters.Emitter.AddressWords` | userspace/sgfx-codegen-adreno-a6xx/src/emit.rs:388-409 | appends a placeholder, its fixup and its access; fails exactly when the budget is used up or the range overflows |
| `Emitters.Emitter.EmitPayload` | userspace/sgfx-codegen-adreno-a6xx/src/emit.rs:327-337 | emits a payload dword by dword; succeeds exactly when it fits and its ranges do not overflow |
| `Emitters.Emitter.EmitPacket` | userspace/sgfx-codegen-adreno-a6xx/src/emit.rs:327-337 | emits one packet; succeeds exactly when its header can be encoded, its ranges do not overflow and it fits |
| `Emitters.Emitter.Emit` | userspace/sgfx-codegen-adreno-a6xx/src/emit.rs:327-337 | emits commands in order; succeeds exactly when each can be emitted and all fit |
| `Emitters.Emitter.Swap` | userspace/sgfx-codegen-adreno-a6xx/src/emit.rs:573-598 | exchanges main stream and prologue |
| `Emitters.Emitter.EmitPrologue` | userspace/sgfx-codegen-adreno-a6xx/src/emit.rs:573-598 | emits into the prologue and leaves the main stream as it was |
| `Emitters.Emitter.Finish` | userspace/sgfx-codegen-adreno-a6xx/src/emit.rs:1678-1728 | returns the prologue, its barrier and the main packets as one stream that parses as exactly those packets, with placed fixups and exactly the accesses they need; fails exactly when that stream exceeds the budget, so the final checks never fail |
| `Emitters.CheckFixups` | userspace/sgfx-codegen-adreno-a6xx/src/emit.rs:1705-1721 | the final check accepts exactly sorted, disjoint fixups on valid placeholders |
| `Emitters.ShiftAll` | userspace/sgfx-codegen-adreno-a6xx/src/emit.rs:1697-1703 | moves every fixup by the prefix |
| `Emitters.JoinedStream` | userspace/sgfx-codegen-adreno-a6xx/src/emit.rs:1682-1704 | words follow and fixups move when one stream is put behind another |
| `Emitters.StreamFacts` | userspace/sgfx-codegen-adreno-a6xx/src/emit.rs:1678-1728 | what holds of every stream of whole packets |
| `Emitters.EmitStreams` | userspace/sgfx-codegen-adreno-a6xx/src/emit.rs:1678-1728 | prologue and main commands become one stream exactly when all can be emitted and fit |
| `Commands.LowerShaped` | userspace/sgfx-codegen-adreno-a6xx/src/emit.rs:327-337 | a lowered command is a packet whose header counts its payload |
| `PacketReads.PacketEffect` | userspace/sgfx-codegen-adreno-a6xx/src/emit.rs:327-475 | what the bits of a packet say it sets is what the command it was lowered from sets, whenever the numbers fit their fields |
| `Commands.FinalConcat` | userspace/sgfx-codegen-adreno-a6xx/src/emit.rs:654-878 | the state after two command lists is the later setting, or the earlier where the later sets none |
| `DrawDelta.FullSplits` | userspace/sgfx-codegen-adreno-a6xx/src/emit.rs:654-878 | in a complete draw the fixed and the per-draw state do not interfere |
| `DrawDelta.FullRetains` | userspace/sgfx-codegen-adreno-a6xx/src/emit.rs:654-878 | a complete draw establishes everything a later compatible draw inherits |
| `DrawDelta.DeltaIsFull` | userspace/sgfx-codegen-adreno-a6xx/src/emit.rs:880-1002 | behind a compatible draw, the delta and the complete form leave the same state |
| `DrawDelta.BatchInStep` | userspace/sgfx-codegen-adreno-a6xx/src/emit.rs:622-1002 | the two encodings of a batch stay in step, draw by draw |
| `DrawDelta.DeltaRefinesFull` | userspace/sgfx-codegen-adreno-a6xx/src/emit.rs:622-1002 | for every batch, every draw of the delta encoding sees the same registers, constants and texture state as when each draw is emitted in full |
| `Descriptors.PrologueStores` | userspace/sgfx-codegen-adreno-a6xx/src/emit.rs:550-620 | the prologue fills every cached state object with its own texture and sampler |
| `Descriptors.ContentsPlace` | userspace/sgfx-codegen-adreno-a6xx/src/emit.rs:564-595 | the stored words fill the object exactly, with the sampler 64 bytes in |
| `Descriptors.DrawsSampleTheirOwn` | userspace/sgfx-codegen-adreno-a6xx/src/emit.rs:550-620 | in any batch every textured draw samples through an object holding its own texture and sampler |
| `Bounds.StreamInside` | userspace/sgfx-codegen-adreno-a6xx/src/emit.rs:388-409 | commands whose addresses lie in their objects lower to a stream with that property |
| `Bounds.RecordsInside` | userspace/sgfx-codegen-adreno-a6xx/src/emit.rs:343-386 | access records of fixups inside their objects are inside them, and not empty |
| `Bounds.InsideIsSound` | userspace/sgfx-backend-scarlet-adreno/src/wire.rs:65-145 | a stream with every address inside its object can always be translated |
| `Transfers.ClearInside` | userspace/sgfx-codegen-adreno-a6xx/src/emit.rs:1374-1446 | clears stay inside their surfaces and the sequence object |
| `Transfers.BlitInside` | userspace/sgfx-codegen-adreno-a6xx/src/emit.rs:1448-1527 | blits stay inside both surfaces |
| `Transfers.InitializeInside` | userspace/sgfx-codegen-adreno-a6xx/src/emit.rs:575-595 | filling a texture state stays inside it and refers to its texture only |
| `Transfers.DrawCommandsInside` | userspace/sgfx-codegen-adreno-a6xx/src/emit.rs:654-1002 | in either form a draw stays inside its objects |
| `Layout.New` | shared/adreno-a6xx-layout/src/lib.rs:80-114 | the accumulating loop computes the layout of the specification, or refuses exactly the shapes it refuses |
| `Layout.SubresourceAt` | shared/adreno-a6xx-layout/src/lib.rs:116-136 | the accumulating loop computes the specified byte range |
| `Layout.SubresourceInLayer` | shared/adreno-a6xx-layout/src/lib.rs:116-136 | every level lies in its own page-aligned layer, inside the allocation |
| `Layout.SubresourcesDisjoint` | shared/adreno-a6xx-layout/src/lib.rs:116-136 | different levels or layers never share a byte |
| `Layout.RowFitsPitch` | shared/adreno-a6xx-layout/src/lib.rs:116-136 | a level's pitch is a multiple of 64 that holds its rows and never exceeds the base pitch |
| `Layout.LevelExtents` | shared/adreno-a6xx-layout/src/lib.rs:116-135 | each level halves width, height and pitch of the base, never to nothing, the pitch rounded up to 64 bytes |
| `Layout.LayerSizeIs` | shared/adreno-a6xx-layout/src/lib.rs:80-114 | a layer ends on the page behind its last level, whose rows are rounded up to a multiple of four |
| `Layout.OneRowTakesFour` | shared/adreno-a6xx-layout/src/lib.rs:80-114 | a texture of 1024 by 1 takes exactly 16384 bytes |
| `Layout.BitLengthIs` | shared/adreno-a6xx-layout/src/lib.rs:80-92 | the bound on mip levels is the number of significant bits |
| `Layout.TiledHoldsRows` | shared/adreno-a6xx-layout/src/lib.rs:138-168 | a tiled depth layer holds every row at its pitch |
| `Layout.TiledIsLeast` | shared/adreno-a6xx-layout/src/lib.rs:136-175 | pitch, rows and size of a tiled layer are the least multiples of 256, 16 and 4096 that do |
| `Images.ImageSurfaceInside` | userspace/sgfx-codegen-adreno-a6xx/src/compiler.rs:551-596 | every surface lies inside its resource |
| `Images.DepthSurfaceInside` | userspace/sgfx-codegen-adreno-a6xx/src/compiler.rs:612-644 | every depth surface lies inside its resource |
| `Images.RowsInside` | userspace/sgfx-codegen-adreno-a6xx/src/compiler.rs:437-549 | every row of a writable surface lies in its plane |
| `Images.PitchHoldsRow` | userspace/sgfx-codegen-adreno-a6xx/src/compiler.rs:437-549 | a writable surface's pitch holds a full row |
| `Images.SurfacePanicsIff` | userspace/sgfx-codegen-adreno-a6xx/src/compiler.rs:551-596 | the lookup aborts exactly for an otherwise acceptable single-plane image that carries a colour conversion |
| `Images.ConversionCanPanic` | userspace/sgfx-codegen-adreno-a6xx/src/compiler.rs:551-596 | a concrete such image |
| `Aborts.AbortsIff` | userspace/sgfx-codegen-adreno-a6xx/src/compiler.rs:551-596 | some stream aborts compilation exactly when the table passes validation and holds a single-plane image with a conversion that may be copied, rendered to, or sampled where something can be rendered to |
| `Aborts.RunSafe` | userspace/sgfx-codegen-adreno-a6xx/src/compiler.rs:80-361 | otherwise no stream aborts |
| `Aborts.BiplanarNeverAborts` | userspace/sgfx-codegen-adreno-a6xx/src/compiler.rs:80-361 | a table whose conversions are all on biplanar images compiles every stream without an abort |
| `Images.LevelViewAccepted` | userspace/sgfx-backend-scarlet-adreno/src/execute.rs:416-474 | every level and layer of an accepted texture is itself an accepted image of exactly its bytes |
| `Uploads.ConvertedPixel` | userspace/sgfx-codegen-adreno-a6xx/src/compiler.rs:1085-1102 | converting a row converts each pixel on its own |
| `Uploads.SourceColour` | userspace/sgfx-codegen-adreno-a6xx/src/compiler.rs:1085-1102 | a converted pixel has the red, green, blue and alpha of its client texel, in every format |
| `Uploads.ConvertPixels` | userspace/sgfx-codegen-adreno-a6xx/src/compiler.rs:1081-1102 | the compiler's loops produce the converted rows, packed; every pixel has the colour of its client texel |
| `Uploads.PrepareBgra` | userspace/sgfx-backend-scarlet-adreno/src/execute.rs:685-766 | the synchronous converter yields the same pixels in every row, whether it passes them through or packs them; every pixel has the colour of its client texel |
| `Uploads.Pack` | userspace/sgfx-backend-scarlet-adreno/src/execute.rs:721-760 | the in-place loops fill the buffer with the converted rows |
| `Uploads.RowArrives` | userspace/sgfx-codegen-adreno-a6xx/src/emit.rs:1597-1648 | however a row is cut into bounded copies, the whole row arrives and nothing else changes |
| `Painting.RowsArrive` | userspace/sgfx-codegen-adreno-a6xx/src/emit.rs:1552-1595 | the copies of a strip write its rows |
| `Painting.RowsPaint` | userspace/sgfx-codegen-adreno-a6xx/src/emit.rs:1552-1595 | writing the rows paints the rectangle and nothing else |
| `Painting.PaintedPixel` | userspace/sgfx-codegen-adreno-a6xx/src/compiler.rs:1085-1102 | each channel of each pixel is that of the naively converted texel |
| `Painting.PaintedColour` | userspace/sgfx-codegen-adreno-a6xx/src/compiler.rs:1085-1102 | each painted pixel has the colour of its client texel |
| `Painting.UploadIsEvents` | userspace/sgfx-codegen-adreno-a6xx/src/compiler.rs:1038-1115 | an accepted write does in memory what its row events say |
| `Painting.SplitUploadPaints` | userspace/sgfx-backend-scarlet-adreno/src/preparation.rs:259-303 | splitting into strips, converting each and running its copies leaves exactly the pixels of the naive conversion of the whole write, and nothing else |
| `StripLimits.StripFixups` | userspace/sgfx-codegen-adreno-a6xx/src/emit.rs:1552-1648 | the exact number of words and fixups of a strip's copies, and the bytes they need |
| `StripLimits.RecordCount` | userspace/sgfx-codegen-adreno-a6xx/src/emit.rs:343-386 | the exact access table of a strip has at most one record per row and one for the staging object |
| `StripLimits.StripWithinWireTables` | userspace/sgfx-backend-scarlet-adreno/src/preparation.rs:273-303 | every strip needs at most 513 records and 2048 fixups, so it fits the wire's tables |
| `Placements.GeneratedPlacements` | userspace/sgfx-backend-scarlet-adreno/src/preparation.rs:189-217 | places are aligned, disjoint and in order; succeeds exactly when each object can be placed and their packing fits the arena limit |
| `Placements.NextPowerIsLeast` | userspace/sgfx-backend-scarlet-adreno/src/asynchronous.rs:568-574 | the arena size is the least power of two that suffices |
| `Placements.ArenaSizeExists` | userspace/sgfx-backend-scarlet-adreno/src/asynchronous.rs:568-574 | an arena size exists exactly for requirements up to the limit |
| `Placements.RequiredSizes` | userspace/sgfx-backend-scarlet-adreno/src/asynchronous.rs:66-80 | each slot's requirement is an upper bound of its chunks' and is one of them |
| `Placements.GrowSlot` | userspace/sgfx-backend-scarlet-adreno/src/asynchronous.rs:81-111 | replaces a too small arena, keeps a sufficient one and the other slots |
| `Placements.PrepareArenas` | userspace/sgfx-backend-scarlet-adreno/src/asynchronous.rs:66-111 | afterwards every chunk fits the arena of its slot, sufficient arenas are kept and others are replaced, never resized; fails exactly when a chunk exceeds the limit |
| `CompiledObjects.CompiledPlaceable` | userspace/sgfx-backend-scarlet-adreno/src/preparation.rs:189-217 | every object a compilation generates can be placed, so placement fails only for lack of arena |
| `CompiledObjects.StripAlwaysFits` | userspace/sgfx-backend-scarlet-adreno/src/preparation.rs:342-358 | whatever a submission of one bounded texture write compiles to has at most 513 records and 2048 fixups and passes the count-only check |
| `Lowering.DrawIsDelta` | userspace/sgfx-codegen-adreno-a6xx/src/emit.rs:654-665 | each draw of the compiler is one step of the delta encoding |
| `Compile.WriteBufferKeeps` | userspace/sgfx-codegen-adreno-a6xx/src/compiler.rs:82-93 | an accepted buffer write stays inside its objects |
| `Compile.WriteTextureKeeps` | userspace/sgfx-codegen-adreno-a6xx/src/compiler.rs:1038-1115 | an accepted texture write stays inside its objects |
| `Compile.CopyKeeps` | userspace/sgfx-codegen-adreno-a6xx/src/compiler.rs:111-141 | an accepted copy stays inside both images and meets no open batch |
| `Compile.ScaledBlitKeeps` | userspace/sgfx-codegen-adreno-a6xx/src/compiler.rs:142-177 | an accepted blit stays inside both images and meets no open batch |
| `Compile.BeginKeeps` | userspace/sgfx-codegen-adreno-a6xx/src/compiler.rs:178-235 | beginning a pass clears inside its attachments and meets no open batch |
| `Compile.DrawOpKeeps` | userspace/sgfx-codegen-adreno-a6xx/src/compiler.rs:696-936 | an accepted draw stays inside its buffers, textures, programs and targets, and leaves its batch open |
| `Compile.LowerOneKeeps` | userspace/sgfx-codegen-adreno-a6xx/src/compiler.rs:80-361 | every accepted operation keeps all addresses inside and the compiler in step with the emitter, whose own batch checks never refuse |
| `Compile.AcceptedRuns` | userspace/sgfx-codegen-adreno-a6xx/src/compiler.rs:80-361 | whatever the compiler accepts the pass machine runs, to the same state |
| `CompileStream.LowerRun` | userspace/sgfx-codegen-adreno-a6xx/src/compiler.rs:75-361 | over any stream, everything lowered is inside, no batch check refuses, and acceptance gives the stream a run |
| `CompileStream.EmitAll` | userspace/sgfx-codegen-adreno-a6xx/src/emit.rs:1678-1728 | a lowered stream is emitted exactly when its commands can be and fit, and is well formed |
| `CompileStream.FinishedIsWellFormed` | userspace/sgfx-codegen-adreno-a6xx/src/emit.rs:1678-1728 | a finished stream of good commands has every fixup and record inside its object and can be translated |
| `CompileStream.CompileOperations` | userspace/sgfx-codegen-adreno-a6xx/src/compiler.rs:75-376 | a stream is accepted exactly when tables and operations are and its commands fit the budget; the result is the packets of those commands, parses back, stays inside every object, and the stream has a meaning; a lowered stream is refused only for its budget, an overflow or a malformed packet |
| `CompileStream.TranslateCompiled` | userspace/sgfx-backend-scarlet-adreno/src/preparation.rs:336-358 | a compiled stream that passes the count-only check, with every object bound in full, is always translated, to the counted length |
| `CompileStream.LowerOperations` | userspace/sgfx-codegen-adreno-a6xx/src/compiler.rs:80-361 | the compile loop lowers the stream of the specification, or stops with its first error |
| `Acts.ActsConcat` | userspace/sgfx-codegen-adreno-a6xx/src/emit.rs:622-1527 | the engine packets of a concatenation are those of the parts, the second ones behind the first |
| `Acts.OneBlit` | userspace/sgfx-codegen-adreno-a6xx/src/emit.rs:1368-1372 | a fill or blit is one packet, which sees all the state set for it |
| `CompiledActs.FillsDo` | userspace/sgfx-codegen-adreno-a6xx/src/compiler.rs:178-235 | beginning a pass runs exactly its clears, depth first, each in its own state |
| `CompiledActs.DrawPerforms` | userspace/sgfx-codegen-adreno-a6xx/src/emit.rs:654-1002 | one accepted draw adds one draw packet that sees the state of that draw emitted in full, also when it inherits |
| `CompiledActs.StepPerforms` | userspace/sgfx-codegen-adreno-a6xx/src/compiler.rs:80-361 | one accepted operation makes the engines do exactly the work of its events |
| `CompiledActs.CompiledWork` | userspace/sgfx-codegen-adreno-a6xx/src/compiler.rs:75-361 | the commands of a compiled stream hold one packet for each draw, clear, copy and blit the stream means, in order, and each sees all the state that this event, emitted on its own and in full, would set |
| `CompiledActs.CompiledSamples` | userspace/sgfx-codegen-adreno-a6xx/src/emit.rs:550-620 | every draw that samples does so through an object that the prologue fills with its own texture and sampler |
| `EngineReads.CompiledAsks` | userspace/sgfx-codegen-adreno-a6xx/src/compiler.rs:75-361 | packet k of a compiled stream asks for exactly the k-th draw, clear, copy or blit the stream means: read off its operands and registers alone, it has the count, first index, index buffer, offset and width, the vertex buffer, offset and first or base vertex, the scissor or pass area, viewport, colour and depth image, blending, culling, uniforms and texture state of the event; or the area, image and colour words of the clear; or the rectangles, images, filter and turn of the copy or blit |
| `EngineReads.CompiledTextures` | userspace/sgfx-codegen-adreno-a6xx/src/emit.rs:476-620 | every texture state object is filled with the extent, pitch, tiling, levels and planes of its own texture, and its own sampler |
| `EngineReads.CallAsks` | userspace/sgfx-codegen-adreno-a6xx/src/emit.rs:850-1002 | the operands of a draw ask for the indices or vertices of the event |
| `RegisterReads.BlitReads` | userspace/sgfx-codegen-adreno-a6xx/src/emit.rs:1448-1527 | the registers of a blit hold its source and destination rectangles and images, filter and turn |
| `RegisterReads.FillReads` | userspace/sgfx-codegen-adreno-a6xx/src/emit.rs:1299-1446 | the registers of a fill hold its area, colour words, image and format |
| `RegisterReads.OwnReads` | userspace/sgfx-codegen-adreno-a6xx/src/emit.rs:654-878 | the registers of a complete draw hold its scissor, first vertex and vertex buffer |
| `RegisterReads.PassReads` | userspace/sgfx-codegen-adreno-a6xx/src/emit.rs:654-878 | the registers of a complete draw hold its colour image, area, viewport, depth, blending and culling |
| `CompiledWrites.WriteBufferWrites` | userspace/sgfx-codegen-adreno-a6xx/src/emit.rs:1529-1550 | the copies of a buffer write leave its bytes at their offsets and touch no other object |
| `CompiledWrites.WriteTextureWrites` | userspace/sgfx-codegen-adreno-a6xx/src/compiler.rs:1038-1115 | the copies of a texture write leave its converted rows and touch no other object |
| `CompiledWrites.StepWrites` | userspace/sgfx-codegen-adreno-a6xx/src/compiler.rs:80-361 | one accepted operation uploads exactly what its events say to every object |
| `CompiledWrites.StreamGrows` | userspace/sgfx-codegen-adreno-a6xx/src/compiler.rs:80-361 | the commands of a stream begin with those of each of its prefixes, so work and uploads keep the order of the operations |
| `CompiledWrites.CompiledCopies` | userspace/sgfx-codegen-adreno-a6xx/src/compiler.rs:75-361 | running the copies of a compiled stream leaves in every object exactly the bytes the stream writes and its converted rows, each contiguous at the pitch of the image, in order |
| `PixelMeaning.CompiledUploads` | userspace/sgfx-codegen-adreno-a6xx/src/compiler.rs:75-361 | for buffers and linear images, running the copies of a compiled stream leaves exactly what its byte and pixel writes mean, every pixel at its own address |
| `PixelMeaning.PixelRightIff` | userspace/sgfx-codegen-adreno-a6xx/src/compiler.rs:1038-1115 | the compiled upload of a pixel is right exactly when the address the image gives that pixel is the linear one |
| `PixelMeaning.UploadRightIffLinear` | userspace/sgfx-codegen-adreno-a6xx/src/compiler.rs:1038-1115 | where the tiling is not the linear order, the upload of a pixel is right exactly when the image is linear |
| `PixelMeaning.TiledUploadAccepted` | userspace/sgfx-codegen-adreno-a6xx/src/compiler.rs:551-596 | a concrete tiled image whose uploads validation and compilation accept |
| `Acceptance.CompilerIsTolerant` | userspace/sgfx-codegen-adreno-a6xx/src/compiler.rs:178-361 | lowering does not depend on how attachments load and store, except that a clear may be refused, nor a binding on what else is bound |
| `Acceptance.StripLowers` | userspace/sgfx-codegen-adreno-a6xx/src/compiler.rs:1038-1115 | every strip of a texture write that is lowered is lowered |
| `Acceptance.PieceLowers` | userspace/sgfx-codegen-adreno-a6xx/src/compiler.rs:82-93 | every piece of a buffer write that is lowered is lowered: pieces stay dword aligned |
| `Acceptance.LowersBehind` | userspace/sgfx-codegen-adreno-a6xx/src/compiler.rs:80-361 | an operation is lowered behind others exactly when it is lowered first in its submission where the pass machine stands, as long as there is room for generated objects |
| `Acceptance.AcceptedRun` | userspace/sgfx-codegen-adreno-a6xx/src/compiler.rs:80-361 | a stream whose operations are each lowered where the machine stands is lowered |
| `Acceptance.ChunkLowers` | userspace/sgfx-backend-scarlet-adreno/src/preparation.rs:221-325 | a bounded chunk whose operations are each lowered is lowered: it generates at most 513 objects |
| `SplitCompiled.ChunksWrite` | userspace/sgfx-backend-scarlet-adreno/src/asynchronous.rs:442-534 | the copies of chunks compiled one by one leave what the events of the chunks say |
| `SplitCompiled.ChunksWork` | userspace/sgfx-backend-scarlet-adreno/src/asynchronous.rs:442-534 | chunks compiled one by one make the engines do the work of their events, in order |
| `SplitCompiled.SplitForInput` | userspace/sgfx-backend-scarlet-adreno/src/preparation.rs:221-325 | when a stream is lowered whole, every chunk of its split is lowered; the chunks compiled and run one after another copy into every object what the stream compiled whole does, and do the same engine work in the same order |
| `SplitCompiled.PrepareForInput` | userspace/sgfx-backend-scarlet-adreno/src/asynchronous.rs:442-534 | when a stream is lowered whole, so is every chunk the retry loop accepts, however often it splits, and the one that stops it; if all are accepted, the effect is that of the stream compiled whole |
| `SplitCompiled.SplitUploadCompiled` | userspace/sgfx-backend-scarlet-adreno/src/preparation.rs:259-303 | compiling the strips of an upload one by one and running their copies leaves, for every pixel of the rectangle, the colour of its client texel at plane offset + y * stride + 4x, and every other byte as it was |
| `Playback.RevolutionsExact` | drivers/audio/qcom-sc7180-lpass/src/lib.rs:207-223 | the revolutions lost are chosen right exactly when the elapsed-time estimate is within half a ring |
| `Playback.AdvanceRecovered` | drivers/audio/qcom-sc7180-lpass/src/lib.rs:203-226 | the bytes played are recovered exactly under that condition |
| `Playback.PeriodsCrossed` | drivers/audio/qcom-sc7180-lpass/src/lib.rs:189-227 | one observation reports exactly the period boundaries crossed since the last |
| `Playback.CompletionsNeverDrift` | drivers/audio/qcom-sc7180-lpass/src/lib.rs:534-592 | over any run, across wraps and lost revolutions, the completions reported are exactly the periods played |
| `Playback.NeverDriftsIff` | drivers/audio/qcom-sc7180-lpass/src/lib.rs:189-227 | a ring never drifts exactly when the period divides it |
| `Playback.UnevenRingDrifts` | drivers/audio/qcom-sc7180-lpass/src/lib.rs:189-227 | a concrete ring and period that the driver advertises and programs, with an observation in real time, that loses a period |
| `Playback.Handle` | drivers/audio/qcom-sc7180-lpass/src/lib.rs:507-592 | one submission or truthful observation does to a running stream what it does to the ideal account of submitted, queued and played periods |
| `Playback.Play` | drivers/audio/qcom-sc7180-lpass/src/lib.rs:431-592 | from the start of playback, through any submissions and truthful observations, submitted, queued and played are exactly those of the ideal account, where a submission counts exactly when it is well formed and fits; completions are exactly the periods played; the stream stops only when more was played than submitted |
| `Playback.Stream.constructor` | drivers/audio/qcom-sc7180-lpass/src/lib.rs:415-426 | a configured stream is stopped, with an empty queue |
| `Playback.Stream.Start` | drivers/audio/qcom-sc7180-lpass/src/lib.rs:431-473 | starts at the beginning of the ring exactly when something is queued; starting twice changes nothing |
| `Playback.Stream.HandleStreamError` | drivers/audio/qcom-sc7180-lpass/src/lib.rs:316-323 | a fault stops the stream and will report one completion more than were queued |
| `Playback.Stream.SubmitPeriod` | drivers/audio/qcom-sc7180-lpass/src/lib.rs:507-532 | takes exactly the well-formed periods that fit the ring, one at a time |
| `Playback.Stream.ProcessCompletions` | drivers/audio/qcom-sc7180-lpass/src/lib.rs:534-592 | says the whole new state; reported periods leave the queue one for one; an underrun empties the queue and stops the stream; if the period divides the ring, a truthful observation keeps completions equal to the periods played |

## Left out

- The values of the graphics IR (colours, samplers, uniforms, viewports, blend states) are only carried and compared; float packing and guard bands are parameters.
- Pipeline variant tables, shader metadata and program sizes are parameters; validating a pipeline descriptor is not modelled.
- An empty `PixelRect` is refused wherever the code's type rules it out; `LoadOp` has the two cases the compiler handles.
- Allocation failures (`OutOfMemory`) do not occur in the model.
- Lowering and emission are two phases here and one in the code, so when a stream has both an unacceptable operation and too many words, the model reports the operation.
- The emitter's own batch-state refusals are a separate error, so that they can be proved unreachable.
- CompiledActs.CompiledWork: what an engine does with the state it sees is not modelled; the theorem says that it is told the right thing.
- EngineReads.CompiledAsks: shader metadata, vertex attribute formats, sample state and cache events are emitted as tables and constants and not read back.
- PacketReads.PacketEffect: instruction sizes of shader programs come from tables that are parameters, so that they fit their field is a condition.
- AsyncSplit.SplitAsyncOperations: for a stream that compilation rejects, only the counts and bounds of the chunks are stated.
- Painting.SplitUploadPaints: rows are contiguous at the pitch of the image, as the code copies them; where a tiled image keeps its pixels is a parameter of PixelMeaning.
- SplitCompiled.PrepareForInput: in the model every chunk is compiled against the table of the whole stream, and the command budget and the sizes of a chunk are the preparation's arbitrary answers.
- WakePipe.NoLostWake: errors of the pipe and the 1 ms polling fallback are not modelled.
- DispatchMemory.ChunksSeeSerialMemory: what GPU commands write to images is not modelled; arenas and mapped buffers are.
- Playback.Stream.ProcessCompletions: registers, clocks, codecs and interrupts of the driver are not modelled.
- The IR front end that validates and normalises user commands, object handles, the kernel driver, the C ABI and every other driver of the repository.
