/** Installation of the compiled program's static tables into a runtime state
    (the `Initialize` macro) and the copy of that static configuration from
    one state into another (`Duplicate`, up to its call of `GC_duplicate`). */
module CommonMain {
  import opened GCState

  /** The static arrays the compiled program defines, which `Initialize`
      installs by address. */
  datatype Program = Program(
    atMLtons: Table<string>,
    frameInfos: Table<FrameInfo>,
    globalObjptr: Table<ObjPtr>,
    loadGlobals: CodeAddr,
    objectTypes: Table<ObjectType>,
    returnAddressToFrameIndex: CodeAddr,
    saveGlobals: CodeAddr,
    vectorInits: Table<VectorInit>,
    profileLabelInfos: Table<ProfileLabelInfo>,
    sourceNames: Table<string>,
    sourceSeqs: Table<Table<uint32>>,
    sources: Table<Source>)

  /** Every counted table of the program has fewer than 2^32 entries, so its
      cardinality survives the store into a 32-bit length field. */
  predicate ProgramFits(p: Program)
  {
    && |p.atMLtons.elems| < UINT32_LIMIT
    && |p.frameInfos.elems| < UINT32_LIMIT
    && |p.globalObjptr.elems| < UINT32_LIMIT
    && |p.objectTypes.elems| < UINT32_LIMIT
    && |p.vectorInits.elems| < UINT32_LIMIT
    && |p.profileLabelInfos.elems| < UINT32_LIMIT
    && |p.sourceNames.elems| < UINT32_LIMIT
    && |p.sourceSeqs.elems| < UINT32_LIMIT
    && |p.sources.elems| < UINT32_LIMIT
  }

  /** Every table handle of `s` is the program's array itself (same address,
      same contents): the program's tables are installed by reference. */
  predicate Installs(s: GCState, p: Program)
  {
    && s.atMLtons == p.atMLtons
    && s.frameInfos == p.frameInfos
    && s.globals == p.globalObjptr
    && s.loadGlobals == p.loadGlobals
    && s.objectTypes == p.objectTypes
    && s.returnAddressToFrameIndex == p.returnAddressToFrameIndex
    && s.saveGlobals == p.saveGlobals
    && s.vectorInits == p.vectorInits
    && s.sourceMaps.profileLabelInfos == p.profileLabelInfos
    && s.sourceMaps.sourceNames == p.sourceNames
    && s.sourceMaps.sourceSeqs == p.sourceSeqs
    && s.sourceMaps.sources == p.sources
  }

  /** The `Initialize` macro without its final call of `MLton_init`: installs
      the program's tables, stores each table's cardinality (as a 32-bit
      length) and sets the scalar configuration. Profiling's `isOn` flag and
      the processor's own fields are left as they were. */
  function Initialize(s: GCState, p: Program, al: nat, mg: nat, mfs: nat, mmc: bool,
                      pk: ProfilingKind, ps: bool): (r: GCState)
    ensures Installs(r, p)
    ensures LengthsMatch(r) <==> ProgramFits(p)
    ensures r.alignment == al && r.magic == mg && r.maxFrameSize == mfs && r.mutatorMarksCards == mmc
    ensures r.profiling == Profiling(pk, ps, s.profiling.isOn)
    ensures DynamicOf(r) == DynamicOf(s)
  {
    s.(alignment := al,
       atMLtons := p.atMLtons,
       atMLtonsLength := ToUint32(|p.atMLtons.elems|),
       frameInfos := p.frameInfos,
       frameInfosLength := ToUint32(|p.frameInfos.elems|),
       globals := p.globalObjptr,
       globalsLength := ToUint32(|p.globalObjptr.elems|),
       loadGlobals := p.loadGlobals,
       magic := mg,
       maxFrameSize := mfs,
       mutatorMarksCards := mmc,
       objectTypes := p.objectTypes,
       objectTypesLength := ToUint32(|p.objectTypes.elems|),
       returnAddressToFrameIndex := p.returnAddressToFrameIndex,
       saveGlobals := p.saveGlobals,
       vectorInits := p.vectorInits,
       vectorInitsLength := ToUint32(|p.vectorInits.elems|),
       sourceMaps := SourceMaps(
         p.profileLabelInfos, ToUint32(|p.profileLabelInfos.elems|),
         p.sourceNames, ToUint32(|p.sourceNames.elems|),
         p.sourceSeqs, ToUint32(|p.sourceSeqs.elems|),
         p.sources, ToUint32(|p.sources.elems|)),
       profiling := s.profiling.(kind := pk, stack := ps))
  }

  /** `Duplicate (d, s)` up to its call of `GC_duplicate`: the static part of
      the result is that of `s` (tables shared by address, scalars and
      profiling settings copied as values), its dynamic part is that of `d`. */
  function Duplicate(d: GCState, s: GCState): (r: GCState)
    ensures StaticOf(r) == StaticOf(s)
    ensures DynamicOf(r) == DynamicOf(d)
    ensures r == Assemble(StaticOf(s), DynamicOf(d))
  {
    d.(alignment := s.alignment,
       atMLtons := s.atMLtons,
       atMLtonsLength := s.atMLtonsLength,
       frameInfos := s.frameInfos,
       frameInfosLength := s.frameInfosLength,
       globals := s.globals,
       globalsLength := s.globalsLength,
       loadGlobals := s.loadGlobals,
       magic := s.magic,
       maxFrameSize := s.maxFrameSize,
       mutatorMarksCards := s.mutatorMarksCards,
       objectTypes := s.objectTypes,
       objectTypesLength := s.objectTypesLength,
       returnAddressToFrameIndex := s.returnAddressToFrameIndex,
       saveGlobals := s.saveGlobals,
       vectorInits := s.vectorInits,
       vectorInitsLength := s.vectorInitsLength,
       sourceMaps := d.sourceMaps.(
         profileLabelInfos := s.sourceMaps.profileLabelInfos,
         profileLabelInfosLength := s.sourceMaps.profileLabelInfosLength,
         sourceNames := s.sourceMaps.sourceNames,
         sourceNamesLength := s.sourceMaps.sourceNamesLength,
         sourceSeqs := s.sourceMaps.sourceSeqs,
         sourceSeqsLength := s.sourceMaps.sourceSeqsLength,
         sources := s.sourceMaps.sources,
         sourcesLength := s.sourceMaps.sourcesLength),
       profiling := d.profiling.(
         kind := s.profiling.kind,
         stack := s.profiling.stack,
         isOn := s.profiling.isOn))
  }

  /** Every table handle of the copy is the source's handle: same base
      address, hence the same array, not an element-wise copy into new
      storage. The matching length fields come along. */
  lemma DuplicateSharesTables(d: GCState, s: GCState)
    ensures var r := Duplicate(d, s);
      && r.atMLtons.addr == s.atMLtons.addr && r.atMLtonsLength == s.atMLtonsLength
      && r.frameInfos.addr == s.frameInfos.addr && r.frameInfosLength == s.frameInfosLength
      && r.globals.addr == s.globals.addr && r.globalsLength == s.globalsLength
      && r.objectTypes.addr == s.objectTypes.addr && r.objectTypesLength == s.objectTypesLength
      && r.vectorInits.addr == s.vectorInits.addr && r.vectorInitsLength == s.vectorInitsLength
      && r.returnAddressToFrameIndex == s.returnAddressToFrameIndex
      && r.loadGlobals == s.loadGlobals && r.saveGlobals == s.saveGlobals
      && r.sourceMaps == s.sourceMaps
  {
  }

  /** The scalar configuration and the profiling settings of the copy are the
      values `s` held. */
  lemma DuplicateCopiesSettings(d: GCState, s: GCState)
    ensures var r := Duplicate(d, s);
      && r.alignment == s.alignment && r.magic == s.magic
      && r.maxFrameSize == s.maxFrameSize && r.mutatorMarksCards == s.mutatorMarksCards
      && r.profiling == s.profiling
  {
  }

  /** The duplication preserves the invariant `Initialize` establishes, and
      the copy satisfies it only if the source did. */
  lemma DuplicatePreservesLengthsMatch(d: GCState, s: GCState)
    ensures LengthsMatch(Duplicate(d, s)) <==> LengthsMatch(s)
  {
  }

  /** Copying a second time into the result changes nothing. */
  lemma DuplicateIdempotent(d: GCState, s: GCState)
    ensures Duplicate(Duplicate(d, s), s) == Duplicate(d, s)
  {
  }

  /** The result depends on `d` only through `d`'s dynamic part: nothing of
      `d`'s static configuration survives the copy. */
  lemma DuplicateOverwritesStatic(d1: GCState, d2: GCState, s: GCState)
    requires DynamicOf(d1) == DynamicOf(d2)
    ensures Duplicate(d1, s) == Duplicate(d2, s)
  {
  }

  /** A state duplicated from an initialised one has the same program
      installed and satisfies the same length invariant. */
  lemma DuplicateAfterInitialize(d: GCState, s: GCState, p: Program, al: nat, mg: nat, mfs: nat,
                                 mmc: bool, pk: ProfilingKind, ps: bool)
    requires ProgramFits(p)
    ensures var r := Duplicate(d, Initialize(s, p, al, mg, mfs, mmc, pk, ps));
      Installs(r, p) && LengthsMatch(r) && DynamicOf(r) == DynamicOf(d)
  {
  }

}
