/** Copies of thunks and when they are Equal. */
module ThunkEquality {
  import opened Options
  import opened ThunkTypes
  import opened ThunkCodec
  import opened ThunkRoundTrip
  import opened ThunkCopy

  /** Thunk.Equal compares messages; thunks that do not marshal are equal to nothing. */
  predicate Equal(t: Thunk, other: Thunk) {
    MarshalThunk(t).Some? && MarshalThunk(t) == MarshalThunk(other)
  }

  /** The copy of a thunk is Equal to it exactly when its message survives. */
  lemma {:induction false} CopyIsEqual(t: Thunk)
    requires MarshalThunk(t).Some?
    ensures var m := MarshalThunk(t).value;
            UnmarshalThunk(m).Some? && (Equal(t, UnmarshalThunk(m).value) <==> ThunkSurvives(m))
  {
    ThunkCopies(t);
  }

  /** Thunks that are Equal have one copy, so they agree in every field that a copy keeps. */
  lemma {:induction false} EqualThunksAgree(t: Thunk, other: Thunk)
    requires Equal(t, other)
    ensures UnmarshalThunk(MarshalThunk(t).value).Some?
    ensures var copy := UnmarshalThunk(MarshalThunk(t).value).value;
            ThunkCopied(t, copy) && ThunkCopied(other, copy)
    ensures t.insecure == other.insecure && t.useEntrypoint == other.useEntrypoint && t.tls == other.tls
    ensures t.entrypoint == other.entrypoint && t.clearEntrypoint == other.clearEntrypoint
    ensures t.defaultArgs == other.defaultArgs && t.clearDefaultArgs == other.clearDefaultArgs
    ensures |t.args| == |other.args| && |t.stdin| == |other.stdin| && |t.mounts| == |other.mounts|
  {
    ThunkIsCopied(t);
    ThunkIsCopied(other);
  }

  /** Copying loses nothing twice: a copy that still marshals is Equal to its own copy. */
  lemma {:induction false} CopyOfCopyIsEqual(t: Thunk)
    requires MarshalThunk(t).Some? && UnmarshalThunk(MarshalThunk(t).value).Some?
    requires MarshalThunk(UnmarshalThunk(MarshalThunk(t).value).value).Some?
    ensures var copy := UnmarshalThunk(MarshalThunk(t).value).value;
            var m := MarshalThunk(copy).value;
            UnmarshalThunk(m).Some? && Equal(copy, UnmarshalThunk(m).value)
  {
    ThunkCopies(t);
    CopyIsEqual(UnmarshalThunk(MarshalThunk(t).value).value);
  }

  /** The globs of a host path that is a value are lost. */
  lemma {:induction false} GlobsAreLost(v: Value)
    requires v == HostPathValue(HostPath("/src", FileOrDirPath(None, Some(DirPath(".", ["*.go"], [])))))
    ensures MarshalValue(v).Some? && FromProto(MarshalValue(v).value).Some?
    ensures MarshalValue(FromProto(MarshalValue(v).value).value) != MarshalValue(v)
  {
    ValueCopies(v);
    assert !ValueSurvives(MarshalValue(v).value);
  }
}
