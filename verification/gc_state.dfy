/** The per-processor runtime state (`GC_state`) as far as the call-stack
    facility and the state initialisation/duplication code use it.

    The state is split into a STATIC part, the compiled program's read-only
    tables and configuration that every processor shares, and a DYNAMIC part
    that belongs to one processor alone. */
module GCState {

  /** Exclusive upper bound of a C `uint32_t`. */
  const UINT32_LIMIT: int := 0x1_0000_0000

  type uint32 = x: int | 0 <= x < UINT32_LIMIT

  /** C's conversion of a non-negative count to `uint32_t`: it keeps the low 32 bits. */
  function ToUint32(n: nat): (r: uint32)
    ensures r == n <==> n < UINT32_LIMIT
    ensures r <= n
  {
    n % UINT32_LIMIT
  }

  /** Address of a static C array: the identity a pointer copy preserves. */
  type Addr = nat

  /** Address of compiled code (a C function pointer). */
  type CodeAddr = nat

  /** A heap object pointer as stored in the global-roots table. */
  type ObjPtr = nat

  /** `GC_frameIndex`: an index into the frame-descriptor table. */
  type FrameIndex = uint32

  /** A static C array: its base address together with its contents.
      `cardof` of the array is `|elems|`. */
  datatype Table<T> = Table(addr: Addr, elems: seq<T>)

  /** Static per-return-address metadata: frame size and the index of the
      frame's source-location sequence. */
  datatype FrameInfo = FrameInfo(size: nat, sourceSeqIndex: uint32)

  /** An object-type descriptor; carried by the state, never interpreted here. */
  datatype ObjectType = ObjectType(tag: nat, hasIdentity: bool, bytesNonObjptrs: nat, numObjptrs: nat)

  /** One entry of the vector-initialisation table:
      element size, global index, length and the initial words. */
  datatype VectorInit = VectorInit(elementSize: nat, globalIndex: nat, length: nat, words: seq<nat>)

  datatype ProfileLabelInfo = ProfileLabelInfo(profileLabel: CodeAddr, sourceSeqIndex: uint32)

  datatype Source = Source(sourceNameIndex: uint32, successorSourceSeqIndex: uint32)

  datatype ProfilingKind = ProfileNone | ProfileAlloc | ProfileCount | ProfileTimeField | ProfileTimeLabel

  /** The source-location tables. Each entry of `sourceSeqs` is itself a
      pointer to an array of 32-bit source indices. */
  datatype SourceMaps = SourceMaps(
    profileLabelInfos: Table<ProfileLabelInfo>,
    profileLabelInfosLength: uint32,
    sourceNames: Table<string>,
    sourceNamesLength: uint32,
    sourceSeqs: Table<Table<uint32>>,
    sourceSeqsLength: uint32,
    sources: Table<Source>,
    sourcesLength: uint32)

  datatype Profiling = Profiling(kind: ProfilingKind, stack: bool, isOn: bool)

  /** The call-stack materialiser's state: the installed buffer (its contents;
      its capacity is `|callStack|`) and the frame counter. */
  datatype CallStackState = CallStackState(callStack: seq<FrameIndex>, numStackFrames: uint32)

  /** Every per-processor field that neither the call-stack code nor the
      state initialisation writes (its heap, its counters, ...), represented
      by the processor number. */
  datatype LocalState = LocalState(processorNumber: nat)

  datatype GCState = GCState(
    alignment: nat,
    atMLtons: Table<string>,
    atMLtonsLength: uint32,
    frameInfos: Table<FrameInfo>,
    frameInfosLength: uint32,
    globals: Table<ObjPtr>,
    globalsLength: uint32,
    loadGlobals: CodeAddr,
    magic: nat,
    maxFrameSize: nat,
    mutatorMarksCards: bool,
    objectTypes: Table<ObjectType>,
    objectTypesLength: uint32,
    returnAddressToFrameIndex: CodeAddr,
    saveGlobals: CodeAddr,
    vectorInits: Table<VectorInit>,
    vectorInitsLength: uint32,
    sourceMaps: SourceMaps,
    profiling: Profiling,
    callStackState: CallStackState,
    local: LocalState)

  /** The static part of a state: everything the duplication copies. */
  datatype StaticPart = StaticPart(
    alignment: nat,
    atMLtons: Table<string>,
    atMLtonsLength: uint32,
    frameInfos: Table<FrameInfo>,
    frameInfosLength: uint32,
    globals: Table<ObjPtr>,
    globalsLength: uint32,
    loadGlobals: CodeAddr,
    magic: nat,
    maxFrameSize: nat,
    mutatorMarksCards: bool,
    objectTypes: Table<ObjectType>,
    objectTypesLength: uint32,
    returnAddressToFrameIndex: CodeAddr,
    saveGlobals: CodeAddr,
    vectorInits: Table<VectorInit>,
    vectorInitsLength: uint32,
    sourceMaps: SourceMaps,
    profiling: Profiling)

  /** The dynamic part of a state: what belongs to one processor alone. */
  datatype DynamicPart = DynamicPart(callStackState: CallStackState, local: LocalState)

  function StaticOf(s: GCState): StaticPart
  {
    StaticPart(s.alignment, s.atMLtons, s.atMLtonsLength, s.frameInfos, s.frameInfosLength,
               s.globals, s.globalsLength, s.loadGlobals, s.magic, s.maxFrameSize,
               s.mutatorMarksCards, s.objectTypes, s.objectTypesLength,
               s.returnAddressToFrameIndex, s.saveGlobals, s.vectorInits, s.vectorInitsLength,
               s.sourceMaps, s.profiling)
  }

  function DynamicOf(s: GCState): DynamicPart
  {
    DynamicPart(s.callStackState, s.local)
  }

  /** Puts a static and a dynamic part together into one state. */
  function Assemble(st: StaticPart, dy: DynamicPart): (s: GCState)
    ensures StaticOf(s) == st
    ensures DynamicOf(s) == dy
  {
    GCState(st.alignment, st.atMLtons, st.atMLtonsLength, st.frameInfos, st.frameInfosLength,
            st.globals, st.globalsLength, st.loadGlobals, st.magic, st.maxFrameSize,
            st.mutatorMarksCards, st.objectTypes, st.objectTypesLength,
            st.returnAddressToFrameIndex, st.saveGlobals, st.vectorInits, st.vectorInitsLength,
            st.sourceMaps, st.profiling, dy.callStackState, dy.local)
  }

  /** A state is determined by its two parts: splitting and reassembling is the identity. */
  lemma SplitAssemble(s: GCState)
    ensures Assemble(StaticOf(s), DynamicOf(s)) == s
  {
  }

  /** The state invariant the initialisation establishes: every length field
      holds the number of entries of the table next to it. */
  predicate LengthsMatch(s: GCState)
  {
    && s.atMLtonsLength == |s.atMLtons.elems|
    && s.frameInfosLength == |s.frameInfos.elems|
    && s.globalsLength == |s.globals.elems|
    && s.objectTypesLength == |s.objectTypes.elems|
    && s.vectorInitsLength == |s.vectorInits.elems|
    && s.sourceMaps.profileLabelInfosLength == |s.sourceMaps.profileLabelInfos.elems|
    && s.sourceMaps.sourceNamesLength == |s.sourceMaps.sourceNames.elems|
    && s.sourceMaps.sourceSeqsLength == |s.sourceMaps.sourceSeqs.elems|
    && s.sourceMaps.sourcesLength == |s.sourceMaps.sources.elems|
  }

}
