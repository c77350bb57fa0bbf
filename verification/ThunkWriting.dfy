/** Which thunks marshal, and what the message says of the fields it takes over.

    A thunk that cannot be sent holds, at some depth, an improper list, a value without a
    message, an alternative that is not set, a logical path that is not there, or a build
    argument that is not a string. */
module ThunkWriting {
  import opened Options
  import opened ThunkTypes
  import opened ThunkCodec
  import opened ThunkRoundTrip
  import FT = FileTree

  // ---- What can be sent

  predicate HasPath(p: FileOrDirPath) {
    p.file.Some? || p.dir.Some?
  }

  /** The filesystem has a file or directory, as the path says, there. */
  predicate IsThere(p: FSPath) {
    if p.isDir then p.path == [] || p.path in p.fs.dirs else p.path in p.fs.files
  }

  predicate SendableValue(v: Value)
    decreases v, 1
  {
    match v
    case Pair(_, _) => SendableList(v)
    case Scope(walk) => SendableWalk(walk)
    case HostPathValue(host) => HasPath(host.path)
    case CachePathValue(cache) => HasPath(cache.path)
    case FSPathValue(fsPath) => IsThere(fsPath)
    case ThunkValue(thunk) => SendableThunk(thunk)
    case ThunkPathValue(thunkPath) => SendableThunkPath(thunkPath)
    case ThunkAddrValue(addr) => SendableThunk(addr.thunk)
    case Annotated(value) => SendableValue(value)
    case Cons(_, _) => false
    case Unmarshallable => false
    case _ => true
  }

  /** A proper list of such values. */
  predicate SendableList(list: Value)
    decreases list, 0
  {
    match list
    case Empty => true
    case Pair(a, d) => SendableValue(a) && SendableList(d)
    case Cons(a, d) => SendableValue(a) && SendableList(d)
    case Annotated(inner) => SendableList(inner)
    case _ => false
  }

  predicate SendableValues(vs: seq<Value>)
    decreases vs
  {
    forall v :: v in vs ==> SendableValue(v)
  }

  /** The symbol of the i-th binding has not come up before. */
  predicate ComesFirst(walk: Walk, i: nat)
    requires i < |walk|
  {
    forall j :: 0 <= j < i ==> walk[j].symbol != walk[i].symbol
  }

  predicate SendableWalk(walk: Walk)
    decreases walk
  {
    forall i :: 0 <= i < |walk| && ComesFirst(walk, i) ==> SendableValue(walk[i].value)
  }

  predicate SendableScope(scope: OptScope)
    decreases scope
  {
    scope.SomeScope? ==> SendableWalk(scope.walk)
  }

  predicate SendableThunkPath(p: ThunkPath)
    decreases p
  {
    SendableThunk(p.thunk) && HasPath(p.path)
  }

  predicate SendableInput(input: ImageBuildInput)
    decreases input
  {
    if input.thunk.Some? then SendableThunkPath(input.thunk.value)
    else if input.host.Some? then HasPath(input.host.value.path)
    else input.fs.Some? ==> IsThere(input.fs.value)
  }

  /** Build arguments are strings. */
  predicate SendableBuild(build: ImageDockerBuild)
    decreases build
  {
    && SendableInput(build.context)
    && (build.args.SomeScope? ==>
          forall i :: 0 <= i < |build.args.walk| && ComesFirst(build.args.walk, i) ==>
            Bare(build.args.walk[i].value).Str?)
  }

  predicate SendableRef(ref: ImageRef)
    decreases ref
  {
    ref.static_ == "" && ref.addr.Some? ==> SendableThunk(ref.addr.value.thunk)
  }

  predicate SendableImage(image: ThunkImage)
    decreases image
  {
    if image.ref.Some? then SendableRef(image.ref.value)
    else if image.thunk.Some? then SendableThunk(image.thunk.value)
    else if image.archive.Some? then SendableInput(image.archive.value.file)
    else image.dockerBuild.Some? && SendableBuild(image.dockerBuild.value)
  }

  predicate SendableDir(dir: ThunkDir)
    decreases dir
  {
    if dir.dir.Some? then true
    else if dir.thunkDir.Some? then SendableThunkPath(dir.thunkDir.value)
    else dir.hostDir.Some? && HasPath(dir.hostDir.value.path)
  }

  predicate SendableSource(source: ThunkMountSource)
    decreases source
  {
    if source.thunkPath.Some? then SendableThunkPath(source.thunkPath.value)
    else if source.hostPath.Some? then HasPath(source.hostPath.value.path)
    else if source.fsPath.Some? then IsThere(source.fsPath.value)
    else if source.cache.Some? then HasPath(source.cache.value.path)
    else source.secret.Some?
  }

  predicate SendableMount(mount: ThunkMount)
    decreases mount
  {
    SendableSource(mount.source) && HasPath(mount.target)
  }

  predicate SendableThunk(t: Thunk)
    decreases t
  {
    && (t.image.Some? ==> SendableImage(t.image.value))
    && SendableValues(t.args)
    && SendableValues(t.stdin)
    && SendableScope(t.env)
    && (t.dir.Some? ==> SendableDir(t.dir.value))
    && (forall mount :: mount in t.mounts ==> SendableMount(mount))
    && SendableScope(t.labels)
  }

  // ---- It is what marshals

  lemma {:induction false} LogicalMarshals(p: FSPath)
    ensures MarshalFS(p).Some? <==> IsThere(p)
  {
    FT.MarshalsWhatIsThere(p.fs, p.path, p.isDir);
  }

  lemma {:induction false} ValueMarshals(v: Value)
    ensures MarshalValue(v).Some? <==> SendableValue(v)
    decreases v, 2
  {
    match v
    case Pair(_, _) => ListMarshals(v);
    case Scope(walk) => WalkMarshals(walk);
    case FSPathValue(fsPath) => LogicalMarshals(fsPath);
    case ThunkValue(thunk) => ThunkMarshals(thunk);
    case ThunkPathValue(thunkPath) => ThunkPathMarshals(thunkPath);
    case ThunkAddrValue(addr) => ThunkMarshals(addr.thunk);
    case Annotated(value) => ValueMarshals(value);
    case _ =>
  }

  lemma {:induction false} ListMarshals(list: Value)
    ensures MarshalList(list).Some? <==> SendableList(list)
    decreases list, 0
  {
    match list
    case Pair(a, d) =>
      ValueMarshals(a);
      ListMarshals(d);
    case Cons(a, d) =>
      ValueMarshals(a);
      ListMarshals(d);
    case Annotated(inner) => ListMarshals(inner);
    case _ =>
  }

  lemma {:induction false} ValuesMarshal(vs: seq<Value>)
    ensures MarshalAll(vs).Some? <==> SendableValues(vs)
    decreases vs
  {
    if vs != [] {
      ValueMarshals(vs[0]);
      ValuesMarshal(vs[1..]);
      assert vs == [vs[0]] + vs[1..];
    }
  }

  lemma {:induction false} WalkMarshals(walk: Walk)
    ensures MarshalWalk(walk).Some? <==> SendableWalk(walk)
    decreases walk
  {
    if walk != [] {
      var init, last := walk[..|walk| - 1], walk[|walk| - 1];
      WalkMarshals(init);
      ValueMarshals(last.value);
      FirstOrAgain(walk);
    }
  }

  lemma {:induction false} FirstOrAgain(walk: Walk)
    requires walk != []
    ensures var init, last := walk[..|walk| - 1], walk[|walk| - 1];
            && (last.symbol in Symbols(init) <==> !ComesFirst(walk, |init|))
            && forall i :: 0 <= i < |init| ==> (ComesFirst(init, i) <==> ComesFirst(walk, i))
  {
    var init, last := walk[..|walk| - 1], walk[|walk| - 1];
    if last.symbol in Symbols(init) {
      var b :| b in init && b.symbol == last.symbol;
      var j :| 0 <= j < |init| && init[j] == b;
      assert walk[j].symbol == last.symbol;
    }
    assert forall j :: 0 <= j < |init| ==> init[j] in init && init[j] == walk[j];
    forall i | 0 <= i < |init|
      ensures ComesFirst(init, i) <==> ComesFirst(walk, i)
    {
      assert forall j :: 0 <= j < i ==> init[j] == walk[j];
    }
  }

  lemma {:induction false} ScopeMarshals(scope: OptScope)
    ensures MarshalScope(scope).Some? <==> SendableScope(scope)
    decreases scope
  {
    if scope.SomeScope? {
      WalkMarshals(scope.walk);
    }
  }

  lemma {:induction false} ThunkPathMarshals(p: ThunkPath)
    ensures MarshalThunkPath(p).Some? <==> SendableThunkPath(p)
    decreases p
  {
    ThunkMarshals(p.thunk);
  }

  lemma {:induction false} InputMarshals(input: ImageBuildInput)
    ensures MarshalInput(input).Some? <==> SendableInput(input)
    decreases input
  {
    if input.thunk.Some? {
      ThunkPathMarshals(input.thunk.value);
    } else if input.host.None? && input.fs.Some? {
      LogicalMarshals(input.fs.value);
    }
  }

  lemma {:induction false} ArgsMarshal(walk: Walk)
    ensures MarshalArgs(walk).Some? <==>
              forall i :: 0 <= i < |walk| && ComesFirst(walk, i) ==> Bare(walk[i].value).Str?
    decreases |walk|
  {
    if walk != [] {
      ArgsMarshal(walk[..|walk| - 1]);
      FirstOrAgain(walk);
    }
  }

  lemma {:induction false} BuildMarshals(build: ImageDockerBuild)
    ensures MarshalBuild(build).Some? <==> SendableBuild(build)
    decreases build
  {
    InputMarshals(build.context);
    if build.args.SomeScope? {
      ArgsMarshal(build.args.walk);
    }
  }

  lemma {:induction false} RefMarshals(ref: ImageRef)
    ensures MarshalRef(ref).Some? <==> SendableRef(ref)
    decreases ref
  {
    if ref.static_ == "" && ref.addr.Some? {
      AddrMarshals(ref.addr.value);
    }
  }

  lemma {:induction false} AddrMarshals(addr: ThunkAddr)
    ensures MarshalAddr(addr).Some? <==> SendableThunk(addr.thunk)
    decreases addr
  {
    ThunkMarshals(addr.thunk);
  }

  lemma {:induction false} ImageMarshals(image: ThunkImage)
    ensures MarshalImage(image).Some? <==> SendableImage(image)
    decreases image
  {
    if image.ref.Some? {
      RefMarshals(image.ref.value);
    } else if image.thunk.Some? {
      ThunkMarshals(image.thunk.value);
    } else if image.archive.Some? {
      InputMarshals(image.archive.value.file);
    } else if image.dockerBuild.Some? {
      BuildMarshals(image.dockerBuild.value);
    }
  }

  lemma {:induction false} DirMarshals(dir: ThunkDir)
    ensures MarshalDir(dir).Some? <==> SendableDir(dir)
    decreases dir
  {
    if dir.dir.None? && dir.thunkDir.Some? {
      ThunkPathMarshals(dir.thunkDir.value);
    }
  }

  lemma {:induction false} SourceMarshals(source: ThunkMountSource)
    ensures MarshalSource(source).Some? <==> SendableSource(source)
    decreases source
  {
    if source.thunkPath.Some? {
      ThunkPathMarshals(source.thunkPath.value);
    } else if source.hostPath.None? && source.fsPath.Some? {
      LogicalMarshals(source.fsPath.value);
    }
  }

  lemma {:induction false} MountMarshals(mount: ThunkMount)
    ensures MarshalMount(mount).Some? <==> SendableMount(mount)
    decreases mount
  {
    SourceMarshals(mount.source);
  }

  lemma {:induction false} MountsMarshal(mounts: seq<ThunkMount>)
    ensures MarshalMounts(mounts).Some? <==> forall mount :: mount in mounts ==> SendableMount(mount)
    decreases mounts
  {
    if mounts != [] {
      MountMarshals(mounts[0]);
      MountsMarshal(mounts[1..]);
      assert mounts == [mounts[0]] + mounts[1..];
    }
  }

  /** A thunk marshals exactly when everything in it can be sent: no improper lists and no
      values without a message, alternatives that are set, logical paths that are there, and
      strings as build arguments. */
  lemma {:induction false} ThunkMarshals(t: Thunk)
    ensures MarshalThunk(t).Some? <==> SendableThunk(t)
    decreases t
  {
    MarshalsByParts(t);
    if t.image.Some? {
      ImageMarshals(t.image.value);
    }
    ValuesMarshal(t.args);
    ValuesMarshal(t.stdin);
    ScopeMarshals(t.env);
    if t.dir.Some? {
      DirMarshals(t.dir.value);
    }
    MountsMarshal(t.mounts);
    ScopeMarshals(t.labels);
  }

  // ---- Under which names

  /** A port and its format are sent as such, not one as the other. */
  lemma {:induction false} AddrNames(a: ThunkAddr)
    requires MarshalAddr(a).Some?
    ensures MarshalAddr(a).value.port == a.port && MarshalAddr(a).value.format == a.format
  {
  }

  /** Empty tags and digests are left out; others are sent as such, not one as the other. */
  lemma {:induction false} RefNames(ref: ImageRef)
    requires MarshalRef(ref).Some?
    ensures var m := MarshalRef(ref).value;
            && m.platform == ref.platform
            && (if ref.tag == "" then m.tag.None? else m.tag == Some(ref.tag))
            && (if ref.digest == "" then m.digest.None? else m.digest == Some(ref.digest))
            && (ref.static_ != "" ==> m.source == PRepository(ref.static_))
  {
  }

  /** The Dockerfile and the target of a build are sent as such, not one as the other. */
  lemma {:induction false} BuildNames(build: ImageDockerBuild)
    requires MarshalBuild(build).Some?
    ensures var m := MarshalBuild(build).value;
            && m.platform == build.platform && (m.dockerfile.None? <==> build.dockerfile.None?)
            && (if build.target == "" then m.target.None? else m.target == Some(build.target))
  {
  }
}
