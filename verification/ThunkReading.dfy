/** Which messages unmarshal: those in which no image, at any depth, refers to a file the way
    releases before 0.10.0 did. */
module ThunkReading {
  import opened Options
  import opened ThunkTypes
  import opened ThunkCodec
  import FT = FileTree

  // ---- Messages without such references

  predicate CurrentValue(m: PValue)
    decreases m
  {
    match m
    case PArray(values) => CurrentValues(values)
    case PObject(bindings) => CurrentBindings(bindings)
    case PThunkMsg(thunk) => NoLegacyRef(thunk)
    case PThunkPathMsg(thunkPath) => NoLegacyRef(thunkPath.thunk)
    case PThunkAddrMsg(addr) => NoLegacyRef(addr.thunk)
    case _ => true
  }

  predicate CurrentValues(ms: seq<PValue>)
    decreases ms
  {
    forall m :: m in ms ==> CurrentValue(m)
  }

  predicate CurrentBindings(bindings: seq<PBinding>)
    decreases bindings
  {
    forall b :: b in bindings ==> CurrentValue(b.value)
  }

  predicate CurrentInput(input: PBuildInput)
    decreases input
  {
    input.PInputThunk? ==> NoLegacyRef(input.thunk.thunk)
  }

  predicate CurrentImage(image: PThunkImage)
    decreases image
  {
    match image
    case PRef(ref) => !ref.source.PLegacyFile? && (ref.source.PAddr? ==> NoLegacyRef(ref.source.addr.thunk))
    case PParent(thunk) => NoLegacyRef(thunk)
    case PArchive(archive) => CurrentInput(archive.file)
    case PDockerBuild(build) => CurrentInput(build.context)
  }

  predicate CurrentDir(dir: PThunkDir)
    decreases dir
  {
    dir.PDirThunk? ==> NoLegacyRef(dir.thunk.thunk)
  }

  predicate CurrentSource(source: PMountSource)
    decreases source
  {
    source.PSourceThunk? ==> NoLegacyRef(source.thunk.thunk)
  }

  predicate CurrentMount(mount: PThunkMount)
    decreases mount
  {
    CurrentSource(mount.source)
  }

  predicate CurrentMounts(mounts: seq<PThunkMount>)
    decreases mounts
  {
    forall mount :: mount in mounts ==> CurrentMount(mount)
  }

  /** No image in the message, nor in any message inside it, is a legacy file reference. */
  predicate NoLegacyRef(p: PThunk)
    decreases p
  {
    && (p.image.Some? ==> CurrentImage(p.image.value))
    && CurrentValues(p.args)
    && CurrentValues(p.stdin)
    && CurrentBindings(p.env)
    && (p.dir.Some? ==> CurrentDir(p.dir.value))
    && CurrentMounts(p.mounts)
    && CurrentBindings(p.labels)
  }

  // ---- They are the messages that unmarshal

  lemma {:induction false} LogicalTreeUnmarshals(tree: LogicalTree)
    ensures UnmarshalFS(tree).Some?
  {
    FT.LogicalTreeLoads(tree);
  }

  lemma {:induction false} UnmarshalsWhenCurrent(m: PValue)
    ensures FromProto(m).Some? <==> CurrentValue(m)
    decreases m
  {
    match m
    case PArray(values) => AllUnmarshalWhenCurrent(values);
    case PObject(bindings) => BindingsUnmarshalWhenCurrent(bindings);
    case PLogical(tree) => LogicalTreeUnmarshals(tree);
    case PThunkMsg(thunk) => ThunkUnmarshalsWhenCurrent(thunk);
    case PThunkPathMsg(thunkPath) => ThunkUnmarshalsWhenCurrent(thunkPath.thunk);
    case PThunkAddrMsg(addr) => ThunkUnmarshalsWhenCurrent(addr.thunk);
    case _ =>
  }

  lemma {:induction false} AllUnmarshalWhenCurrent(ms: seq<PValue>)
    ensures FromProtos(ms).Some? <==> CurrentValues(ms)
    decreases ms
  {
    if ms != [] {
      UnmarshalsWhenCurrent(ms[0]);
      AllUnmarshalWhenCurrent(ms[1..]);
      assert ms == [ms[0]] + ms[1..];
    }
  }

  lemma {:induction false} BindingsUnmarshalWhenCurrent(bindings: seq<PBinding>)
    ensures UnmarshalBindings(bindings).Some? <==> CurrentBindings(bindings)
    decreases bindings
  {
    if bindings != [] {
      var init, last := bindings[..|bindings| - 1], bindings[|bindings| - 1];
      BindingsUnmarshalWhenCurrent(init);
      UnmarshalsWhenCurrent(last.value);
      assert bindings == init + [last];
    }
  }

  lemma {:induction false} InputUnmarshalsWhenCurrent(input: PBuildInput)
    ensures UnmarshalInput(input).Some? <==> CurrentInput(input)
    decreases input
  {
    match input
    case PInputThunk(thunk) => ThunkUnmarshalsWhenCurrent(thunk.thunk);
    case PInputLogical(tree) => LogicalTreeUnmarshals(tree);
    case _ =>
  }

  lemma {:induction false} ImageUnmarshalsWhenCurrent(image: PThunkImage)
    ensures UnmarshalImage(image).Some? <==> CurrentImage(image)
    decreases image
  {
    match image
    case PRef(ref) =>
      if ref.source.PAddr? {
        ThunkUnmarshalsWhenCurrent(ref.source.addr.thunk);
      }
    case PParent(thunk) => ThunkUnmarshalsWhenCurrent(thunk);
    case PArchive(archive) => InputUnmarshalsWhenCurrent(archive.file);
    case PDockerBuild(build) => InputUnmarshalsWhenCurrent(build.context);
  }

  lemma {:induction false} DirUnmarshalsWhenCurrent(dir: PThunkDir)
    ensures UnmarshalDir(dir).Some? <==> CurrentDir(dir)
    decreases dir
  {
    if dir.PDirThunk? {
      ThunkUnmarshalsWhenCurrent(dir.thunk.thunk);
    }
  }

  lemma {:induction false} SourceUnmarshalsWhenCurrent(source: PMountSource)
    ensures UnmarshalSource(source).Some? <==> CurrentSource(source)
    decreases source
  {
    match source
    case PSourceThunk(thunk) => ThunkUnmarshalsWhenCurrent(thunk.thunk);
    case PSourceLogical(tree) => LogicalTreeUnmarshals(tree);
    case _ =>
  }

  lemma {:induction false} MountUnmarshalsWhenCurrent(mount: PThunkMount)
    ensures UnmarshalMount(mount).Some? <==> CurrentMount(mount)
    decreases mount
  {
    SourceUnmarshalsWhenCurrent(mount.source);
  }

  lemma {:induction false} MountsUnmarshalWhenCurrent(mounts: seq<PThunkMount>)
    ensures UnmarshalMounts(mounts).Some? <==> CurrentMounts(mounts)
    decreases mounts
  {
    if mounts != [] {
      MountUnmarshalsWhenCurrent(mounts[0]);
      MountsUnmarshalWhenCurrent(mounts[1..]);
      assert mounts == [mounts[0]] + mounts[1..];
    }
  }

  /** A thunk's message unmarshals if and only if there is no legacy reference in it, at any
      depth: args, stdin, env, labels, mounts, directory, parent images, archives and build
      contexts included. */
  lemma {:induction false} ThunkUnmarshalsWhenCurrent(p: PThunk)
    ensures UnmarshalThunk(p).Some? <==> NoLegacyRef(p)
    decreases p
  {
    if p.image.Some? {
      ImageUnmarshalsWhenCurrent(p.image.value);
    }
    AllUnmarshalWhenCurrent(p.args);
    AllUnmarshalWhenCurrent(p.stdin);
    BindingsUnmarshalWhenCurrent(p.env);
    if p.dir.Some? {
      DirUnmarshalsWhenCurrent(p.dir.value);
    }
    MountsUnmarshalWhenCurrent(p.mounts);
    BindingsUnmarshalWhenCurrent(p.labels);
  }

  // ---- One message that does not

  const EMPTY_THUNK := PThunk(None, false, [], false, [], [], None, [], [], [], None, [], false, [], false)

  /** A thunk whose image is file image.tar of another thunk, as old releases sent it. */
  const LEGACY_THUNK := EMPTY_THUNK.(
    image := Some(PRef(PImageRef(
      Platform("linux", "amd64"), PLegacyFile(PThunkPath(EMPTY_THUNK, PFile("image.tar"))), None, None))))

  /** It does not unmarshal, nor does a thunk that only has it in an argument. */
  lemma {:induction false} LegacyFileFails()
    ensures UnmarshalThunk(LEGACY_THUNK).None?
    ensures UnmarshalThunk(EMPTY_THUNK.(args := [PThunkMsg(LEGACY_THUNK)])).None?
  {
    ThunkUnmarshalsWhenCurrent(LEGACY_THUNK);
    var nested := EMPTY_THUNK.(args := [PThunkMsg(LEGACY_THUNK)]);
    ThunkUnmarshalsWhenCurrent(nested);
    assert !CurrentValue(nested.args[0]);
  }
}
