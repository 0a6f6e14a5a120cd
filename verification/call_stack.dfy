/** Call-stack materialisation: counting the frames of the current stack,
    capturing their frame indices into a caller-supplied buffer (the
    count-then-fill protocol), and the frame-index to source-sequence lookup.

    The stack walker itself is abstracted as a `Walk`: the frame indices of
    the current stack in the order the walker visits them, most recent frame
    first. Both passes of the protocol walk the same, unchanged stack. The
    visitors read and write only the state's call-stack part, so they are
    modelled on `CallStackState`; the operations lift the result back into
    the whole state. */
module CallStack {
  import opened GCState
  import opened Optional
  import CommonMain

  /** The frame indices the stack walker visits, in visiting order. */
  type Walk = seq<FrameIndex>

  /** The two visitors handed to the stack walker. */
  datatype Visitor = CountFrames | RecordFrames

  /** `numStackFramesAux`: one more frame counted (modulo 2^32, the counter
      being a `uint32_t`); the frame index itself plays no part. */
  function NumStackFramesAux(cs: CallStackState, i: FrameIndex): (r: CallStackState)
    ensures r.numStackFrames == ToUint32(cs.numStackFrames + 1)
    ensures r.callStack == cs.callStack
  {
    cs.(numStackFrames := ToUint32(cs.numStackFrames + 1))
  }

  /** `callStackAux`: stores the frame index in the buffer slot the counter
      names, then counts the frame. A counter at or past the buffer's
      capacity makes the store an out-of-bounds write: `None`. */
  function CallStackAux(cs: CallStackState, i: FrameIndex): (r: Option<CallStackState>)
    ensures r.Some? <==> cs.numStackFrames < |cs.callStack|
    ensures r.Some? ==> |r.value.callStack| == |cs.callStack|
    ensures r.Some? ==> r.value.callStack[cs.numStackFrames] == i
    ensures r.Some? ==> forall j :: 0 <= j < |cs.callStack| && j != cs.numStackFrames ==>
                                      r.value.callStack[j] == cs.callStack[j]
    ensures r.Some? ==> r.value.numStackFrames == ToUint32(cs.numStackFrames + 1)
  {
    if cs.numStackFrames < |cs.callStack| then
      Some(CallStackState(cs.callStack[cs.numStackFrames := i], ToUint32(cs.numStackFrames + 1)))
    else
      None
  }

  function Visit(v: Visitor, cs: CallStackState, i: FrameIndex): Option<CallStackState>
  {
    match v
    case CountFrames => Some(NumStackFramesAux(cs, i))
    case RecordFrames => CallStackAux(cs, i)
  }

  /** `foreachStackFrame` over an abstract walk: applies the visitor to each
      frame in turn, first frame first; `None` once a visit went out of bounds. */
  function ForeachStackFrame(cs: CallStackState, walk: Walk, v: Visitor): (r: Option<CallStackState>)
    ensures v == CountFrames ==> r.Some?
    ensures r.Some? ==> |r.value.callStack| == |cs.callStack|
    decreases |walk|
  {
    if walk == [] then Some(cs)
    else
      match ForeachStackFrame(cs, walk[..|walk| - 1], v)
      case None => None
      case Some(cs') => Visit(v, cs', walk[|walk| - 1])
  }

  /** The counting walk adds the number of frames to the counter (modulo
      2^32) and leaves the buffer alone. */
  lemma {:induction false} CountingWalk(cs: CallStackState, walk: Walk)
    ensures ForeachStackFrame(cs, walk, CountFrames)
         == Some(cs.(numStackFrames := ToUint32(cs.numStackFrames + |walk|)))
    decreases |walk|
  {
    if walk != [] {
      var prefix := walk[..|walk| - 1];
      CountingWalk(cs, prefix);
      WrappingIncrement(cs.numStackFrames + |prefix|);
    }
  }

  /** Counting one more after truncating is truncating one more. */
  lemma WrappingIncrement(n: nat)
    ensures ToUint32(ToUint32(n) + 1) == ToUint32(n + 1)
  {
  }

  /** The counting visitor ignores frame indices: two walks of the same depth
      leave the same state. */
  lemma {:induction false} CountingIgnoresFrameIndices(cs: CallStackState, w1: Walk, w2: Walk)
    requires |w1| == |w2|
    ensures ForeachStackFrame(cs, w1, CountFrames) == ForeachStackFrame(cs, w2, CountFrames)
  {
    CountingWalk(cs, w1);
    CountingWalk(cs, w2);
  }

  /** `GC_numStackFrames`: resets the counter, walks the stack with the
      counting visitor and returns the counter, which is also left in the
      state. The result is the number of frames (modulo 2^32), and nothing
      but the counter changes. */
  function NumStackFrames(s: GCState, walk: Walk): (r: (uint32, GCState))
    ensures r.0 == ToUint32(|walk|)
    ensures r.1.callStackState == CallStackState(s.callStackState.callStack, r.0)
    ensures StaticOf(r.1) == StaticOf(s) && r.1.local == s.local
  {
    var cs0 := s.callStackState.(numStackFrames := 0);
    CountingWalk(cs0, walk);
    var cs1 := ForeachStackFrame(cs0, walk, CountFrames).value;
    (cs1.numStackFrames, s.(callStackState := cs1))
  }

  /** Counting twice on an unchanged stack gives the same answer and the same
      state, because the counter is reset on entry. */
  lemma NumStackFramesIdempotent(s: GCState, walk: Walk)
    ensures NumStackFrames(NumStackFrames(s, walk).1, walk) == NumStackFrames(s, walk)
  {
  }

  /** The buffer after recording `walk`: the walk in its first slots, the
      rest of the buffer as it was. */
  function Captured(walk: Walk, buffer: seq<FrameIndex>): seq<FrameIndex>
    requires |walk| <= |buffer|
  {
    walk + buffer[|walk|..]
  }

  /** Storing the next frame at the counter's slot extends the captured prefix by that frame. */
  lemma StoreExtendsCapture(prefix: Walk, i: FrameIndex, buffer: seq<FrameIndex>)
    requires |prefix| < |buffer|
    ensures Captured(prefix, buffer)[|prefix| := i] == Captured(prefix + [i], buffer)
  {
  }

  /** The recording walk from a reset counter stays in bounds exactly when
      the buffer holds at least one slot per frame, and then leaves the walk
      in the buffer's first slots and the frame count in the counter. */
  lemma {:induction false} RecordingWalk(walk: Walk, buffer: seq<FrameIndex>)
    requires |walk| < UINT32_LIMIT
    ensures ForeachStackFrame(CallStackState(buffer, 0), walk, RecordFrames).Some? <==> |walk| <= |buffer|
    ensures |walk| <= |buffer| ==>
      ForeachStackFrame(CallStackState(buffer, 0), walk, RecordFrames)
        == Some(CallStackState(Captured(walk, buffer), |walk|))
    decreases |walk|
  {
    if walk == [] {
      assert Captured(walk, buffer) == buffer;
    } else {
      var prefix := walk[..|walk| - 1];
      RecordingWalk(prefix, buffer);
      if |walk| <= |buffer| {
        StoreExtendsCapture(prefix, walk[|walk| - 1], buffer);
        assert prefix + [walk[|walk| - 1]] == walk;
      }
    }
  }

  /** `GC_callStack` as a function: the state after walking with the
      recording visitor from a reset counter and the installed buffer;
      `None` if a store went out of bounds. */
  function CallStackResult(s: GCState, walk: Walk, buffer: seq<FrameIndex>): (r: Option<GCState>)
    ensures r.Some? ==> |r.value.callStackState.callStack| == |buffer|
    ensures r.Some? ==> StaticOf(r.value) == StaticOf(s) && r.value.local == s.local
    ensures |walk| < UINT32_LIMIT ==> (r.Some? <==> |walk| <= |buffer|)
    ensures |walk| < UINT32_LIMIT && |walk| <= |buffer| ==>
      r == Some(s.(callStackState := CallStackState(Captured(walk, buffer), |walk|)))
  {
    var result :=
      match ForeachStackFrame(CallStackState(buffer, 0), walk, RecordFrames)
      case None => None
      case Some(cs) => Some(s.(callStackState := cs));
    // Both branches yield `result`; the bounded one calls `RecordingWalk`,
    // which establishes the contract's clauses that assume fewer than 2^32 frames.
    if |walk| < UINT32_LIMIT then
      RecordingWalk(walk, buffer);
      result
    else
      result
  }

  /** Once a visit went out of bounds, the rest of the walk cannot recover. */
  lemma {:induction false} FailureSticks(cs: CallStackState, walk: Walk, k: nat, v: Visitor)
    requires k <= |walk|
    requires ForeachStackFrame(cs, walk[..k], v).None?
    ensures ForeachStackFrame(cs, walk, v).None?
    decreases |walk| - k
  {
    if k == |walk| {
      assert walk[..k] == walk;
    } else {
      assert walk[..k + 1][..k] == walk[..k];
      FailureSticks(cs, walk, k + 1, v);
    }
  }

  /** A buffer with fewer slots than the walk has frames is overrun: the
      recording walk stores past its end. */
  lemma UndersizedBufferOverflows(walk: Walk, buffer: seq<FrameIndex>)
    requires |buffer| < |walk|
    requires |buffer| < UINT32_LIMIT
    ensures ForeachStackFrame(CallStackState(buffer, 0), walk, RecordFrames).None?
  {
    var n := |buffer|;
    RecordingWalk(walk[..n], buffer);
    assert walk[..n + 1][..n] == walk[..n];
    FailureSticks(CallStackState(buffer, 0), walk, n + 1, RecordFrames);
  }

  /** `GC_callStack`: installs the buffer, resets the counter and walks the
      stack storing each frame index at the counter's slot. Afterwards slot
      `j` holds the `j`-th frame of the walk for every `j` below the frame
      count, the slots beyond are untouched, and the counter is the frame
      count. */
  method CallStack(s: GCState, walk: Walk, buffer: seq<FrameIndex>) returns (r: GCState)
    requires |walk| <= |buffer|
    requires |walk| < UINT32_LIMIT
    ensures r.callStackState.numStackFrames == |walk|
    ensures |r.callStackState.callStack| == |buffer|
    ensures forall j :: 0 <= j < |walk| ==> r.callStackState.callStack[j] == walk[j]
    ensures forall j :: |walk| <= j < |buffer| ==> r.callStackState.callStack[j] == buffer[j]
    ensures StaticOf(r) == StaticOf(s) && r.local == s.local
    ensures CallStackResult(s, walk, buffer) == Some(r)
  {
    var cs := CallStackState(buffer, 0);
    var k := 0;
    while k < |walk|
      invariant 0 <= k <= |walk|
      invariant |cs.callStack| == |buffer|
      invariant cs.numStackFrames == k
      invariant forall j :: 0 <= j < k ==> cs.callStack[j] == walk[j]
      invariant forall j :: k <= j < |buffer| ==> cs.callStack[j] == buffer[j]
    {
      cs := CallStackAux(cs, walk[k]).value;
      k := k + 1;
    }
    r := s.(callStackState := cs);
    RecordingWalk(walk, buffer);
    assert cs.callStack == Captured(walk, buffer);
  }

  /** Count and capture agree: after `GC_numStackFrames` returned `n`, a
      capture into any buffer with at least `n` slots on the same stack stays
      in bounds, leaves `n` in the counter and the walk in the first `n` slots. */
  lemma CountThenCapture(s: GCState, walk: Walk, buffer: seq<FrameIndex>)
    requires |walk| < UINT32_LIMIT
    requires NumStackFrames(s, walk).0 <= |buffer|
    ensures var (n, s1) := NumStackFrames(s, walk);
      var r := CallStackResult(s1, walk, buffer);
      && r.Some?
      && r.value.callStackState.numStackFrames == n
      && |r.value.callStackState.callStack| == |buffer|
      && r.value.callStackState.callStack[..n] == walk
  {
    RecordingWalk(walk, buffer);
  }

  /** Count and capture disagree once the stack holds 2^32 frames or more:
      the 32-bit count wraps, so a buffer sized by it has fewer slots than
      the walk has frames, and the capture stores past the buffer's end. */
  lemma CountThenCaptureOverflows(s: GCState, walk: Walk, buffer: seq<FrameIndex>)
    requires |walk| >= UINT32_LIMIT
    requires |buffer| == NumStackFrames(s, walk).0
    ensures NumStackFrames(s, walk).0 < |walk|
    ensures CallStackResult(NumStackFrames(s, walk).1, walk, buffer).None?
  {
    UndersizedBufferOverflows(walk, buffer);
  }

  /** The lookup `GC_frameIndexSourceSeq` performs is defined: the frame
      index is inside the frame table and its source-sequence index inside
      the source-sequence table. */
  predicate SourceSeqDefined(s: GCState, frameIndex: FrameIndex)
  {
    && frameIndex < |s.frameInfos.elems|
    && s.frameInfos.elems[frameIndex].sourceSeqIndex < |s.sourceMaps.sourceSeqs.elems|
  }

  /** `GC_frameIndexSourceSeq`: the source sequence of a frame, found through
      the frame's descriptor. It reads the state and changes nothing. */
  function FrameIndexSourceSeq(s: GCState, frameIndex: FrameIndex): (r: Table<uint32>)
    requires SourceSeqDefined(s, frameIndex)
    ensures r in s.sourceMaps.sourceSeqs.elems
  {
    s.sourceMaps.sourceSeqs.elems[s.frameInfos.elems[frameIndex].sourceSeqIndex]
  }

  /** Under the length invariant the lookup's bounds can be checked against
      the state's length fields instead of the tables themselves. */
  lemma SourceSeqDefinedByLengths(s: GCState, frameIndex: FrameIndex)
    requires LengthsMatch(s)
    ensures SourceSeqDefined(s, frameIndex)
        <==> (&& frameIndex < s.frameInfosLength
              && s.frameInfos.elems[frameIndex].sourceSeqIndex < s.sourceMaps.sourceSeqsLength)
  {
  }

  /** A duplicated state answers every source-sequence lookup as the source
      state does, since both share the same tables. */
  lemma FrameIndexSourceSeqAfterDuplicate(d: GCState, s: GCState, frameIndex: FrameIndex)
    requires SourceSeqDefined(s, frameIndex)
    ensures SourceSeqDefined(CommonMain.Duplicate(d, s), frameIndex)
    ensures FrameIndexSourceSeq(CommonMain.Duplicate(d, s), frameIndex) == FrameIndexSourceSeq(s, frameIndex)
  {
  }

  /** Materialising the call stack leaves every source-sequence lookup as it was. */
  lemma FrameIndexSourceSeqAfterCapture(s: GCState, walk: Walk, buffer: seq<FrameIndex>, frameIndex: FrameIndex)
    requires SourceSeqDefined(s, frameIndex)
    requires CallStackResult(s, walk, buffer).Some?
    ensures SourceSeqDefined(CallStackResult(s, walk, buffer).value, frameIndex)
    ensures FrameIndexSourceSeq(CallStackResult(s, walk, buffer).value, frameIndex) == FrameIndexSourceSeq(s, frameIndex)
  {
  }

}
