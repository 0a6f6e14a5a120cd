# Call-stack materialisation and runtime-state duplication (MPL runtime)

A Dafny model of two sequential pieces of the MPL runtime, a parallel ML runtime derived from MLton:

- **Call-stack materialisation** (`runtime/gc/call-stack.c`). This uses a count-then-fill protocol.
  `GC_numStackFrames` resets the per-state frame counter, walks the stack with a counting visitor and returns the count.
  `GC_callStack` resets the counter, installs a caller-supplied buffer and walks again.
  This time the visitor stores each frame index at `buffer[counter]` and then counts the frame.
  `GC_frameIndexSourceSeq` maps a frame index to its source sequence through the frame table.
- **Runtime-state initialisation and duplication** (`include/common-main.h`).
  The `Initialize` macro installs the compiled program's static tables into a `GC_state`, each with its cardinality as a length field.
  It also sets the scalar configuration and the profiling settings.
  `Duplicate` copies that static configuration, field by field, from one state into another.

Modules:

- `GCState` (`gc_state.dfy`) is the state record.
  Each C array is a `Table` holding its base address and its contents, so a pointer copy is a copy of the whole `Table` value, address included.
  Length fields and the frame counter are 32-bit, and `ToUint32` is C's truncating conversion to `uint32_t`.
  The state splits into a static part (what `Duplicate` copies) and a dynamic part (the call-stack state and the processor's own fields).
  `LengthsMatch` is the invariant that every length field equals its table's size.
- `CommonMain` (`common_main.dfy`) holds `Initialize` and `Duplicate`.
- `CallStack` (`call_stack.dfy`) holds the two visitors, the walker over an abstract walk, the count and capture operations, and the source-sequence lookup.
- `Optional` (`option.dfy`) is the `Option` type.
  `None` stands for a walk whose store fell outside the buffer.
  In C that store is undefined behaviour.

The stack walker `foreachStackFrame` is not part of this model.
It is abstracted as a `Walk`: the frame indices of the current stack in visiting order, most recent frame first.
The visitor is applied to them in that order.
Both passes of the protocol walk the same, unchanged `Walk`.

The caller's buffer is a sequence value, not an array filled in place.
In C the caller sees the stores through its pointer `p`.
In the model, the filled buffer is returned as the state's `callStackState.callStack`.
Its capacity is the length of that sequence.

## Model

| member | source | states |
|---|---|---|
| GCState.ToUint32 | include/common-main.h:35 | Storing a cardinality into a 32-bit length keeps it exactly when it is below 2^32, and never increases it. |
| CommonMain.Initialize | include/common-main.h:32-59 | Every program table is installed by reference (same address, same contents). The length invariant holds afterwards if and only if every table has fewer than 2^32 entries. The scalars and profiling kind/stack are the arguments. `isOn` and the processor's own fields are unchanged. |
| CommonMain.Duplicate | include/common-main.h:67-96 | The result's static part (tables, lengths, scalars, profiling settings) is the source's. Its dynamic part (call-stack state, processor fields) is the target's. So the result is exactly the assembly of those two parts. |
| CommonMain.DuplicateSharesTables | include/common-main.h:70-93 | Each table handle of the copy has the source's base address, so it is a reference copy and not an element-wise one. Its length field and the four source-map tables come along. |
| CommonMain.DuplicateCopiesSettings | include/common-main.h:69-96 | `alignment`, `magic`, `maxFrameSize`, `mutatorMarksCards` and `profiling.kind/stack/isOn` of the copy are the source's values. |
| CommonMain.DuplicatePreservesLengthsMatch | include/common-main.h:70-93 | The copy satisfies "every length equals its table's size" exactly when the source does. |
| CommonMain.DuplicateIdempotent | include/common-main.h:67-96 | Copying the same source a second time into the result changes nothing. |
| CommonMain.DuplicateOverwritesStatic | include/common-main.h:67-96 | The result depends on the target only through the target's dynamic part. Nothing of the target's old static configuration survives. |
| CommonMain.DuplicateAfterInitialize | include/common-main.h:32-96 | A state duplicated from an initialised one has the same program installed, satisfies the length invariant, and keeps the target's dynamic part. |
| CallStack.NumStackFramesAux | runtime/gc/call-stack.c:10-13 | The counting visitor adds one to the 32-bit counter, wrapping. It leaves the buffer alone. |
| CallStack.ForeachStackFrame | runtime/gc/call-stack.c:17 | The walker applies the visitor to the frames in walk order. It never changes the buffer's capacity. A counting walk never fails. |
| CallStack.CountingWalk | runtime/gc/call-stack.c:10-13 | A counting walk adds the number of visited frames (mod 2^32) to the counter and leaves the buffer unchanged. |
| CallStack.CountingIgnoresFrameIndices | runtime/gc/call-stack.c:10-11 | Counting ignores the frame indices. Two walks of equal depth leave the same state. |
| CallStack.NumStackFrames | runtime/gc/call-stack.c:15-22 | Returns the number of frames (mod 2^32) whatever the counter held before. That value is left in the counter and nothing else changes. |
| CallStack.NumStackFramesIdempotent | runtime/gc/call-stack.c:15-17 | Counting twice on an unchanged stack yields the same count and the same state. |
| CallStack.CallStackAux | runtime/gc/call-stack.c:24-29 | The store is in bounds exactly when the counter is below the buffer's capacity. It then writes the frame index at the counter's slot, changes no other slot, and counts the frame. |
| CallStack.RecordingWalk | runtime/gc/call-stack.c:24-37 | The capture stays in bounds exactly when the buffer has at least one slot per frame. Then the buffer is the walk followed by its old tail, and the counter is the frame count. |
| CallStack.CallStackResult | runtime/gc/call-stack.c:31-37 | `GC_callStack` as a function: the recording walk from a reset counter over the installed buffer. The static part and processor fields are untouched and the capacity is kept. Below 2^32 frames it stays in bounds exactly when the buffer has a slot per frame, and then yields the walk followed by the old tail, with the frame count in the counter. |
| CallStack.UndersizedBufferOverflows | runtime/gc/call-stack.c:27-28 | A buffer with fewer than 2^32 slots and fewer slots than the walk has frames is overrun: the recording walk stores past its end. This holds for walks of any length. A buffer of 2^32 slots or more is not overrun, because the 32-bit counter wraps back to slot 0. |
| CallStack.CallStack | runtime/gc/call-stack.c:31-37 | For every `j` below the frame count, slot `j` holds the `j`-th frame of the walk. Slots from the frame count on are unchanged and the counter is the frame count. The static part is untouched. The method agrees with the functional walker. |
| CallStack.CountThenCapture | runtime/gc/call-stack.c:15-37 | After counting `n` frames, a capture into any buffer with at least `n` slots on the same stack stays in bounds. It leaves `n` in the counter and the walk in the first `n` slots. |
| CallStack.CountThenCaptureOverflows | runtime/gc/call-stack.c:12-37 | At 2^32 frames or more, the 32-bit count is smaller than the number of frames. A capture into a buffer sized by that count then stores past the buffer's end. |
| CallStack.FrameIndexSourceSeq | runtime/gc/call-stack.c:39-47 | Defined when the frame index is inside the frame table and its source-sequence index is inside the source-sequence table. The result is an entry of the source-sequence table. |
| CallStack.SourceSeqDefinedByLengths | runtime/gc/call-stack.c:42 | Under the length invariant, the lookup's bounds are exactly `frameIndex < frameInfosLength` and `sourceSeqIndex < sourceSeqsLength`. |
| CallStack.FrameIndexSourceSeqAfterDuplicate | runtime/gc/call-stack.c:39-47 | A duplicated state answers every defined source-sequence lookup exactly as its source does. |
| CallStack.FrameIndexSourceSeqAfterCapture | runtime/gc/call-stack.c:39-47 | Materialising the call stack leaves every source-sequence lookup as it was. |

## Left out

- The hierarchical-heap collector (`runtime/gc/hierarchical-heap-collection.h`): only its argument record, a hole-count constant and prototypes are present. How it copies, forwards and counts is not available to model.
- The `toLevel` sentinel rule of the collector's argument record: the value of the invalid-level constant is defined in a header that is not part of this model.
- The local-heap enter/exit protocol (`runtime/gc/local-heap.h`): only two prototypes are present, with no state machine to check against. Ownership is a concurrency concern.
- `foreachStackFrame`: it decodes frame layouts and return addresses, which are not part of this model. It is abstracted as the `Walk` sequence.
- `MLton_init` (end of `Initialize`) and `GC_duplicate` (end of `Duplicate`): their bodies are not part of this model. Both operations are modelled up to those calls. So the fresh heap and zeroed counters a new processor state gets are not modelled.
- Debug output under `DEBUG_CALL_STACK` and `Proc_processorNumber`: output only.
- `LoadArray`/`SaveArray` (file I/O), `DeclareProfileLabel`, the `LIB_*` paste macros and the `vectorInits` literal macros: linker and compile-time plumbing.
- Mutation through a shared table: tables are immutable values here. Sharing is stated as equality of handles (same base address), not as an aliasing experiment.
- "`Duplicate` only reads `s`": the model is a pure function of `d` and `s`, so it holds by construction and is not stated separately.
- CallStack.CallStack: requires fewer than 2^32 frames. At 2^32 frames the 32-bit counter wraps back to slot 0. A buffer with at least 2^32 slots would then have its first slots overwritten by later frames. A smaller buffer is overrun, as `CallStack.UndersizedBufferOverflows` shows. The imperative method does not model either case. The functional `CallStack.CallStackResult` and the count in `NumStackFrames` do model the wrap.
- CallStack.RecordingWalk: the same bound of fewer than 2^32 frames, for the same reason.
- CallStack.CountThenCapture: holds only below 2^32 frames. At 2^32 frames or more, the `uint32_t` count returned by `GC_numStackFrames` wraps. A buffer sized by that count has fewer slots than the stack has frames, and `callStackAux` writes past its end. `CallStack.CountThenCaptureOverflows` proves this. Stacks that deep are not a realistic configuration, so this is recorded here rather than as a defect with a corrected model.
- CommonMain.Initialize: `alignment`, `magic` and `maxFrameSize` are unbounded naturals that are stored unchanged. Their C widths are declared in the runtime's GC state header, which is not part of this model. So any truncation of a wide argument at the store is not modelled. No other contract depends on these values.
- Profiling settings are not shared between states. The code copies `profiling.kind`, `profiling.stack` and `profiling.isOn` as values, and the model follows the code.
