/** What marshalling, unmarshalling the message and marshalling again gives.

    A message that marshalling made always unmarshals, and it comes back the same exactly when
    nothing in it is of a kind that unmarshalling does not keep: globs where fod reads a
    path, Dockerfile paths that are not clean, empty directories.  Which messages of any
    origin unmarshal is in ThunkReading. */
module ThunkRoundTrip {
  import opened Options
  import opened ThunkTypes
  import opened CleanPaths
  import opened ThunkCodec
  import FT = FileTree

  // ---- What survives

  predicate Globless(p: PFilesystemPath) {
    p.PDir? ==> p.including == [] && p.excluding == []
  }

  predicate ValueSurvives(m: PValue)
    decreases m
  {
    match m
    case PArray(values) => ValuesSurvive(values)
    case PObject(bindings) => BindingsSurvive(bindings)
    case PHost(host) => Globless(host.path)
    case PCache(cache) => Globless(cache.path)
    case PLogical(tree) => FT.Full(tree)
    case PThunkMsg(thunk) => ThunkSurvives(thunk)
    case PThunkPathMsg(thunkPath) => ThunkSurvives(thunkPath.thunk)
    case PThunkAddrMsg(addr) => ThunkSurvives(addr.thunk)
    case _ => true
  }

  predicate ValuesSurvive(ms: seq<PValue>)
    decreases ms
  {
    ms == [] || (ValueSurvives(ms[0]) && ValuesSurvive(ms[1..]))
  }

  predicate BindingsSurvive(bindings: seq<PBinding>)
    decreases bindings
  {
    bindings == [] || (BindingsSurvive(bindings[..|bindings| - 1]) && ValueSurvives(bindings[|bindings| - 1].value))
  }

  predicate InputSurvives(input: PBuildInput)
    decreases input
  {
    match input
    case PInputThunk(thunk) => ThunkSurvives(thunk.thunk)
    case PInputLogical(tree) => FT.Full(tree)
    case _ => true
  }

  predicate ImageSurvives(image: PThunkImage)
    decreases image
  {
    match image
    case PRef(ref) => ref.source.PAddr? ==> ThunkSurvives(ref.source.addr.thunk)
    case PParent(thunk) => ThunkSurvives(thunk)
    case PArchive(archive) => InputSurvives(archive.file)
    case PDockerBuild(build) =>
      InputSurvives(build.context) && (build.dockerfile.Some? ==> Canonical(build.dockerfile.value))
  }

  predicate DirSurvives(dir: PThunkDir)
    decreases dir
  {
    dir.PDirThunk? ==> ThunkSurvives(dir.thunk.thunk)
  }

  predicate SourceSurvives(source: PMountSource)
    decreases source
  {
    match source
    case PSourceThunk(thunk) => ThunkSurvives(thunk.thunk)
    case PSourceLogical(tree) => FT.Full(tree)
    case _ => true
  }

  predicate MountsSurvive(mounts: seq<PThunkMount>)
    decreases mounts
  {
    mounts == [] || (MountSurvives(mounts[0]) && MountsSurvive(mounts[1..]))
  }

  predicate MountSurvives(mount: PThunkMount)
    decreases mount
  {
    SourceSurvives(mount.source)
  }

  predicate OptImageSurvives(image: Option<PThunkImage>)
    decreases image
  {
    image.Some? ==> ImageSurvives(image.value)
  }

  predicate OptDirSurvives(dir: Option<PThunkDir>)
    decreases dir
  {
    dir.Some? ==> DirSurvives(dir.value)
  }

  predicate ThunkSurvives(p: PThunk)
    decreases p
  {
    && OptImageSurvives(p.image)
    && ValuesSurvive(p.args)
    && ValuesSurvive(p.stdin)
    && BindingsSurvive(p.env)
    && OptDirSurvives(p.dir)
    && MountsSurvive(p.mounts)
    && BindingsSurvive(p.labels)
  }

  // ---- Coming back: the message unmarshals, its copy re-marshals to it exactly when it
  // ---- survives, and what the copy re-marshals to survives

  ghost predicate ValueReturns(m: PValue) {
    && FromProto(m).Some?
    && var again := MarshalValue(FromProto(m).value);
       (again == Some(m) <==> ValueSurvives(m)) && (again.Some? ==> ValueSurvives(again.value))
  }

  ghost predicate ValuesReturn(m: seq<PValue>) {
    && FromProtos(m).Some?
    && var again := MarshalAll(FromProtos(m).value);
       (again == Some(m) <==> ValuesSurvive(m)) && (again.Some? ==> ValuesSurvive(again.value))
  }

  ghost predicate SameSymbols(walk: Walk, bindings: seq<PBinding>) {
    && |walk| == |bindings|
    && forall i :: 0 <= i < |walk| ==> walk[i].symbol == bindings[i].symbol
  }

  ghost predicate BindingsReturn(m: seq<PBinding>) {
    && UnmarshalBindings(m).Some?
    && SameSymbols(UnmarshalBindings(m).value, m)
    && var again := MarshalWalk(UnmarshalBindings(m).value);
       (again == Some(m) <==> BindingsSurvive(m)) && (again.Some? ==> BindingsSurvive(again.value))
  }

  ghost predicate ScopeReturns(m: seq<PBinding>) {
    && UnmarshalScope(m).Some?
    && var again := MarshalScope(UnmarshalScope(m).value);
       (again == Some(m) <==> BindingsSurvive(m)) && (again.Some? ==> BindingsSurvive(again.value))
  }

  ghost predicate ThunkPathReturns(m: PThunkPath) {
    && UnmarshalThunkPath(m).Some?
    && var again := MarshalThunkPath(UnmarshalThunkPath(m).value);
       (again == Some(m) <==> ThunkSurvives(m.thunk)) && (again.Some? ==> ThunkSurvives(again.value.thunk))
  }

  ghost predicate AddrReturns(m: PThunkAddr) {
    && UnmarshalAddr(m).Some?
    && var again := MarshalAddr(UnmarshalAddr(m).value);
       (again == Some(m) <==> ThunkSurvives(m.thunk)) && (again.Some? ==> ThunkSurvives(again.value.thunk))
  }

  ghost predicate InputReturns(m: PBuildInput) {
    && UnmarshalInput(m).Some?
    && var again := MarshalInput(UnmarshalInput(m).value);
       (again == Some(m) <==> InputSurvives(m)) && (again.Some? ==> InputSurvives(again.value))
  }

  ghost predicate ImageReturns(m: PThunkImage) {
    && UnmarshalImage(m).Some?
    && var again := MarshalImage(UnmarshalImage(m).value);
       (again == Some(m) <==> ImageSurvives(m)) && (again.Some? ==> ImageSurvives(again.value))
  }

  ghost predicate DirReturns(m: PThunkDir) {
    && UnmarshalDir(m).Some?
    && var again := MarshalDir(UnmarshalDir(m).value);
       (again == Some(m) <==> DirSurvives(m)) && (again.Some? ==> DirSurvives(again.value))
  }

  ghost predicate SourceReturns(m: PMountSource) {
    && UnmarshalSource(m).Some?
    && var again := MarshalSource(UnmarshalSource(m).value);
       (again == Some(m) <==> SourceSurvives(m)) && (again.Some? ==> SourceSurvives(again.value))
  }

  ghost predicate MountReturns(m: PThunkMount) {
    && UnmarshalMount(m).Some?
    && var again := MarshalMount(UnmarshalMount(m).value);
       (again == Some(m) <==> MountSurvives(m)) && (again.Some? ==> MountSurvives(again.value))
  }

  ghost predicate MountsReturn(m: seq<PThunkMount>) {
    && UnmarshalMounts(m).Some?
    && var again := MarshalMounts(UnmarshalMounts(m).value);
       (again == Some(m) <==> MountsSurvive(m)) && (again.Some? ==> MountsSurvive(again.value))
  }

  ghost predicate OptImageReturns(m: Option<PThunkImage>) {
    && UnmarshalOptImage(m).Some?
    && var again := MarshalOptImage(UnmarshalOptImage(m).value);
       (again == Some(m) <==> OptImageSurvives(m)) && (again.Some? ==> OptImageSurvives(again.value))
  }

  ghost predicate OptDirReturns(m: Option<PThunkDir>) {
    && UnmarshalOptDir(m).Some?
    && var again := MarshalOptDir(UnmarshalOptDir(m).value);
       (again == Some(m) <==> OptDirSurvives(m)) && (again.Some? ==> OptDirSurvives(again.value))
  }

  ghost predicate ThunkReturns(m: PThunk) {
    && UnmarshalThunk(m).Some?
    && var again := MarshalThunk(UnmarshalThunk(m).value);
       (again == Some(m) <==> ThunkSurvives(m)) && (again.Some? ==> ThunkSurvives(again.value))
  }

  // ---- Lists

  lemma {:induction false} NewListMarshals(vs: seq<Value>)
    ensures MarshalList(NewList(vs)) == MarshalAll(vs)
    decreases |vs|
  {
    if vs != [] {
      NewListMarshals(vs[1..]);
    }
  }

  /** Pair.MarshalProto makes a slice first and then marshals it. */
  lemma {:induction false} ListIsItsSlice(list: Value)
    ensures MarshalList(list) == var vs :- ToSlice(list); MarshalAll(vs)
    decreases list
  {
    match list
    case Pair(a, d) =>
      ListIsItsSlice(d);
      if ToSlice(d).Some? {
        ConsIsSlice(a, ToSlice(d).value);
      }
    case Cons(a, d) =>
      ListIsItsSlice(d);
      if ToSlice(d).Some? {
        ConsIsSlice(a, ToSlice(d).value);
      }
    case Annotated(inner) =>
      ListIsItsSlice(inner);
    case _ =>
  }

  lemma {:induction false} ConsIsSlice(a: Value, vs: seq<Value>)
    ensures MarshalAll([a] + vs) == var first :- MarshalValue(a); var rest :- MarshalAll(vs); Some([first] + rest)
  {
    assert ([a] + vs)[1..] == vs;
  }

  // ---- Scopes

  lemma {:induction false} SetNew(walk: Walk, symbol: string, value: Value)
    requires symbol !in Symbols(walk)
    ensures SetIn(walk, symbol, value) == walk + [Binding(symbol, value)]
    decreases |walk|
  {
    if walk != [] {
      assert walk[0] in walk;
      SetNew(walk[1..], symbol, value);
      assert walk == [walk[0]] + walk[1..];
    }
  }

  lemma {:induction false} SymbolsOneMore(walk: Walk)
    requires walk != []
    ensures Symbols(walk) == Symbols(walk[..|walk| - 1]) + {walk[|walk| - 1].symbol}
  {
    assert walk == walk[..|walk| - 1] + [walk[|walk| - 1]];
  }

  lemma {:induction false} OneMoreBinding(walk: Walk, i: nat)
    requires i < |walk|
    ensures MarshalWalk(walk[..i + 1])
         == var init :- MarshalWalk(walk[..i]);
            if walk[i].symbol in Symbols(walk[..i]) then Some(init)
            else
              var value :- MarshalValue(walk[i].value);
              Some(init + [PBinding(walk[i].symbol, value)])
    ensures Symbols(walk[..i + 1]) == Symbols(walk[..i]) + {walk[i].symbol}
  {
    assert walk[..i + 1][..i] == walk[..i];
    SymbolsOneMore(walk[..i + 1]);
  }

  lemma {:induction false} OneMoreSet(bindings: seq<PBinding>, i: nat)
    requires i < |bindings|
    ensures UnmarshalBindings(bindings[..i + 1])
         == var init :- UnmarshalBindings(bindings[..i]);
            var value :- FromProto(bindings[i].value);
            Some(SetIn(init, bindings[i].symbol, value))
  {
    assert bindings[..i + 1][..i] == bindings[..i];
  }

  /** The bindings of a marshalled scope have the symbols of the walk, each once. */
  lemma {:induction false} WalkCopies(walk: Walk)
    requires MarshalWalk(walk).Some?
    ensures BindingsReturn(MarshalWalk(walk).value)
    ensures Symbols(UnmarshalBindings(MarshalWalk(walk).value).value) == Symbols(walk)
    decreases walk
  {
    if walk != [] {
      var init, last := walk[..|walk| - 1], walk[|walk| - 1];
      WalkCopies(init);
      SymbolsOneMore(walk);
      if last.symbol !in Symbols(init) {
        ValueCopies(last.value);
        BindingCopies(MarshalWalk(init).value, UnmarshalBindings(MarshalWalk(init).value).value, last.symbol,
                      MarshalValue(last.value).value);
      }
    }
  }

  lemma {:induction false} BindingCopies(bindings: seq<PBinding>, walk: Walk, symbol: string, m: PValue)
    requires BindingsReturn(bindings) && UnmarshalBindings(bindings) == Some(walk) && symbol !in Symbols(walk)
    requires ValueReturns(m)
    ensures BindingsReturn(bindings + [PBinding(symbol, m)])
    ensures Symbols(UnmarshalBindings(bindings + [PBinding(symbol, m)]).value) == Symbols(walk) + {symbol}
  {
    var bindings', walk' := bindings + [PBinding(symbol, m)], walk + [Binding(symbol, FromProto(m).value)];
    assert bindings'[..|bindings|] == bindings && bindings'[..|bindings| + 1] == bindings';
    assert walk'[..|walk|] == walk && walk'[..|walk| + 1] == walk';
    OneMoreSet(bindings', |bindings|);
    SetNew(walk, symbol, FromProto(m).value);
    OneMoreBinding(walk', |walk|);
    OneMoreReturns(bindings, symbol, m, MarshalWalk(walk), MarshalValue(FromProto(m).value));
  }

  lemma {:induction false} OneMoreReturns(bindings: seq<PBinding>, symbol: string, m: PValue,
        init: Option<seq<PBinding>>, last: Option<PValue>)
    requires (init == Some(bindings) <==> BindingsSurvive(bindings)) && (init.Some? ==> BindingsSurvive(init.value))
    requires (last == Some(m) <==> ValueSurvives(m)) && (last.Some? ==> ValueSurvives(last.value))
    ensures var again := if init.Some? && last.Some? then Some(init.value + [PBinding(symbol, last.value)]) else None;
            && (again == Some(bindings + [PBinding(symbol, m)]) <==> BindingsSurvive(bindings + [PBinding(symbol, m)]))
            && (again.Some? ==> BindingsSurvive(again.value))
  {
    SurviveOneMore(bindings, PBinding(symbol, m));
    if init.Some? && last.Some? {
      SurviveOneMore(init.value, PBinding(symbol, last.value));
      EqualOneMore(init.value, PBinding(symbol, last.value), bindings, PBinding(symbol, m));
    }
  }

  lemma {:induction false} SurviveOneMore(init: seq<PBinding>, last: PBinding)
    ensures BindingsSurvive(init + [last]) <==> BindingsSurvive(init) && ValueSurvives(last.value)
  {
    assert (init + [last])[..|init|] == init;
  }

  lemma {:induction false} EqualOneMore<T>(xs: seq<T>, x: T, ys: seq<T>, y: T)
    ensures xs + [x] == ys + [y] <==> xs == ys && x == y
  {
    if xs + [x] == ys + [y] {
      assert (xs + [x])[..|xs|] == xs && (ys + [y])[..|ys|] == ys;
      assert (xs + [x])[|xs|] == x && (ys + [y])[|ys|] == y;
    }
  }

  lemma {:induction false} ScopeCopies(scope: OptScope)
    requires MarshalScope(scope).Some?
    ensures ScopeReturns(MarshalScope(scope).value)
    decreases scope
  {
    if scope.SomeScope? {
      WalkCopies(scope.walk);
    }
  }

  // ---- Paths

  lemma {:induction false} HostCopies(h: HostPath)
    requires MarshalHost(h).Some?
    ensures var m := MarshalHost(h).value;
            && MarshalHost(UnmarshalHost(m)) == Some(m)
            && (MarshalHost(HostPath(m.context, Fod(m.path))) == Some(m) <==> Globless(m.path))
            && Globless(MarshalHost(HostPath(m.context, Fod(m.path))).value.path)
  {
  }

  lemma {:induction false} CacheCopies(c: CachePath)
    requires MarshalCache(c).Some?
    ensures var m := MarshalCache(c).value;
            && MarshalCache(UnmarshalCache(m)) == Some(m)
            && (MarshalCache(CachePath(m.id, Fod(m.path), m.concurrency)) == Some(m) <==> Globless(m.path))
            && Globless(MarshalCache(CachePath(m.id, Fod(m.path), m.concurrency)).value.path)
  {
  }

  lemma {:induction false} TreeCopies(tree: LogicalTree)
    ensures UnmarshalFS(tree).Some?
    ensures MarshalFS(UnmarshalFS(tree).value) == Some(tree) <==> FT.Full(tree)
    ensures MarshalFS(UnmarshalFS(tree).value).Some? ==> FT.Full(MarshalFS(UnmarshalFS(tree).value).value)
  {
    FT.LogicalTreeLoads(tree);
    FT.RoundTrip(tree);
    FT.RemarshalIsFull(tree);
  }

  // ---- Values and thunks

  lemma {:induction false} ValueCopies(v: Value)
    requires MarshalValue(v).Some?
    ensures ValueReturns(MarshalValue(v).value)
    decreases v, 2
  {
    match v
    case Pair(_, _) => PairCopies(v);
    case Scope(walk) => WalkCopies(walk);
    case HostPathValue(host) => HostCopies(host);
    case CachePathValue(cache) => CacheCopies(cache);
    case FSPathValue(fsPath) => TreeCopies(MarshalFS(fsPath).value);
    case ThunkValue(thunk) => ThunkCopies(thunk);
    case ThunkPathValue(thunkPath) => ThunkPathCopies(thunkPath);
    case ThunkAddrValue(addr) => AddrCopies(addr);
    case Annotated(value) => ValueCopies(value);
    case _ => AtomCopies(v);
  }

  predicate IsAtom(v: Value) {
    || v.Null? || v.Bool? || v.Int? || v.Str? || v.SecretValue? || v.Empty?
    || v.FilePathValue? || v.DirPathValue? || v.CommandPath?
  }

  lemma {:induction false} AtomCopies(v: Value)
    requires IsAtom(v)
    ensures MarshalValue(v).Some?
    ensures var m := MarshalValue(v).value;
            FromProto(m).Some? && MarshalValue(FromProto(m).value) == Some(m) && ValueSurvives(m)
  {
  }

  lemma {:induction false} PairCopies(list: Value)
    requires list.Pair? && MarshalList(list).Some?
    ensures ValueReturns(PArray(MarshalList(list).value))
    decreases list, 1
  {
    ListCopies(list);
    NewListMarshals(FromProtos(MarshalList(list).value).value);
  }

  lemma {:induction false} ListCopies(list: Value)
    requires MarshalList(list).Some?
    ensures ValuesReturn(MarshalList(list).value)
    decreases list, 0
  {
    match list
    case Pair(a, d) =>
      ValueCopies(a);
      ListCopies(d);
      ConsCopies(MarshalValue(a).value, MarshalList(d).value);
    case Cons(a, d) =>
      ValueCopies(a);
      ListCopies(d);
      ConsCopies(MarshalValue(a).value, MarshalList(d).value);
    case Annotated(inner) => ListCopies(inner);
    case _ =>
  }

  lemma {:induction false} ConsCopies(first: PValue, rest: seq<PValue>)
    requires ValueReturns(first) && ValuesReturn(rest)
    ensures ValuesReturn([first] + rest)
  {
    var ms := [first] + rest;
    assert ms[1..] == rest;
    var vs := [FromProto(first).value] + FromProtos(rest).value;
    assert vs[1..] == FromProtos(rest).value;
    if MarshalAll(vs).Some? {
      var again := MarshalAll(vs).value;
      assert again[1..] == MarshalAll(vs[1..]).value;
    }
  }

  lemma {:induction false} AllCopies(vs: seq<Value>)
    requires MarshalAll(vs).Some?
    ensures ValuesReturn(MarshalAll(vs).value)
    decreases vs
  {
    if vs != [] {
      ValueCopies(vs[0]);
      AllCopies(vs[1..]);
      ConsCopies(MarshalValue(vs[0]).value, MarshalAll(vs[1..]).value);
    }
  }

  lemma {:induction false} ThunkPathCopies(p: ThunkPath)
    requires MarshalThunkPath(p).Some?
    ensures ThunkPathReturns(MarshalThunkPath(p).value)
    decreases p
  {
    ThunkCopies(p.thunk);
  }

  lemma {:induction false} AddrCopies(a: ThunkAddr)
    requires MarshalAddr(a).Some?
    ensures AddrReturns(MarshalAddr(a).value)
    decreases a
  {
    ThunkCopies(a.thunk);
  }

  lemma {:induction false} InputCopies(input: ImageBuildInput)
    requires MarshalInput(input).Some?
    ensures InputReturns(MarshalInput(input).value)
    decreases input
  {
    if input.thunk.Some? {
      ThunkPathCopies(input.thunk.value);
    } else if input.host.Some? {
      HostCopies(input.host.value);
    } else if input.fs.Some? {
      TreeCopies(MarshalFS(input.fs.value).value);
    }
  }

  lemma {:induction false} ArgsCopy(walk: Walk)
    requires MarshalArgs(walk).Some?
    ensures var args := MarshalArgs(walk).value;
            MarshalArgs(UnmarshalArgs(args)) == Some(args) && Symbols(UnmarshalArgs(args)) == Symbols(walk)
    decreases walk
  {
    if walk != [] {
      var init, last := walk[..|walk| - 1], walk[|walk| - 1];
      ArgsCopy(init);
      SymbolsOneMore(walk);
      if last.symbol !in Symbols(init) {
        var args, arg := MarshalArgs(init).value, PBuildArg(last.symbol, Bare(last.value).s);
        var copy := UnmarshalArgs(args);
        SetNew(copy, arg.name, Str(arg.value));
        var copy' := copy + [Binding(arg.name, Str(arg.value))];
        assert (args + [arg])[..|args|] == args && copy'[..|copy|] == copy;
        SymbolsOneMore(copy');
      }
    }
  }

  lemma {:induction false} BuildCopies(build: ImageDockerBuild)
    requires MarshalBuild(build).Some?
    ensures ImageReturns(PDockerBuild(MarshalBuild(build).value))
    decreases build
  {
    InputCopies(build.context);
    if build.dockerfile.Some? {
      PathsComeBack(Clarify(build.dockerfile.value.path));
    }
    if build.args.SomeScope? {
      ArgsCopy(build.args.walk);
    }
  }

  lemma {:induction false} RefCopies(ref: ImageRef)
    requires MarshalRef(ref).Some?
    ensures ImageReturns(PRef(MarshalRef(ref).value))
    decreases ref
  {
    if ref.static_ == "" && ref.addr.Some? {
      AddrCopies(ref.addr.value);
    }
  }

  lemma {:induction false} ImageCopies(image: ThunkImage)
    requires MarshalImage(image).Some?
    ensures ImageReturns(MarshalImage(image).value)
    decreases image
  {
    if image.ref.Some? {
      RefCopies(image.ref.value);
    } else if image.thunk.Some? {
      ThunkCopies(image.thunk.value);
    } else if image.archive.Some? {
      InputCopies(image.archive.value.file);
    } else {
      BuildCopies(image.dockerBuild.value);
    }
  }

  lemma {:induction false} DirCopies(dir: ThunkDir)
    requires MarshalDir(dir).Some?
    ensures DirReturns(MarshalDir(dir).value)
    decreases dir
  {
    if dir.dir.None? {
      if dir.thunkDir.Some? {
        ThunkPathCopies(dir.thunkDir.value);
      } else {
        HostCopies(dir.hostDir.value);
      }
    }
  }

  lemma {:induction false} SourceCopies(source: ThunkMountSource)
    requires MarshalSource(source).Some?
    ensures SourceReturns(MarshalSource(source).value)
    decreases source
  {
    if source.thunkPath.Some? {
      ThunkPathCopies(source.thunkPath.value);
    } else if source.hostPath.Some? {
      HostCopies(source.hostPath.value);
    } else if source.fsPath.Some? {
      TreeCopies(MarshalFS(source.fsPath.value).value);
    } else if source.cache.Some? {
      CacheCopies(source.cache.value);
    }
  }

  lemma {:induction false} MountCopies(mount: ThunkMount)
    requires MarshalMount(mount).Some?
    ensures MountReturns(MarshalMount(mount).value)
    decreases mount
  {
    SourceCopies(mount.source);
  }

  lemma {:induction false} MountsCopy(mounts: seq<ThunkMount>)
    requires MarshalMounts(mounts).Some?
    ensures MountsReturn(MarshalMounts(mounts).value)
    decreases mounts
  {
    if mounts != [] {
      MountCopies(mounts[0]);
      MountsCopy(mounts[1..]);
      ConsMountCopies(MarshalMount(mounts[0]).value, MarshalMounts(mounts[1..]).value);
    }
  }

  lemma {:induction false} ConsMountCopies(first: PThunkMount, rest: seq<PThunkMount>)
    requires MountReturns(first) && MountsReturn(rest)
    ensures MountsReturn([first] + rest)
  {
    var ms := [first] + rest;
    assert ms[1..] == rest;
    var mounts := [UnmarshalMount(first).value] + UnmarshalMounts(rest).value;
    assert mounts[1..] == UnmarshalMounts(rest).value;
    if MarshalMounts(mounts).Some? {
      var again := MarshalMounts(mounts).value;
      assert again[1..] == MarshalMounts(mounts[1..]).value;
    }
  }

  lemma {:induction false} PortsCopy(ports: seq<ThunkPort>)
    ensures MarshalPorts(MarshalPorts(ports)) == MarshalPorts(ports)
  {
  }

  lemma {:induction false} OptImageCopies(image: Option<ThunkImage>)
    requires MarshalOptImage(image).Some?
    ensures OptImageReturns(MarshalOptImage(image).value)
    decreases image
  {
    if image.Some? {
      ImageCopies(image.value);
    }
  }

  lemma {:induction false} OptDirCopies(dir: Option<ThunkDir>)
    requires MarshalOptDir(dir).Some?
    ensures OptDirReturns(MarshalOptDir(dir).value)
    decreases dir
  {
    if dir.Some? {
      DirCopies(dir.value);
    }
  }

  /** A thunk's message always unmarshals, and it re-marshals to the same message exactly when
      every part of it survives. */
  lemma {:induction false} ThunkCopies(t: Thunk)
    requires MarshalThunk(t).Some?
    ensures ThunkReturns(MarshalThunk(t).value)
    decreases t
  {
    var m := MarshalThunk(t).value;
    OptImageCopies(t.image);
    AllCopies(t.args);
    AllCopies(t.stdin);
    ScopeCopies(t.env);
    OptDirCopies(t.dir);
    MountsCopy(t.mounts);
    ScopeCopies(t.labels);
    PortsCopy(t.ports);
    MarshalsByParts(UnmarshalThunk(m).value);
  }

  lemma {:induction false} MarshalsByParts(t: Thunk)
    ensures MarshalThunk(t).Some? <==>
              && MarshalOptImage(t.image).Some? && MarshalAll(t.args).Some? && MarshalAll(t.stdin).Some?
              && MarshalScope(t.env).Some? && MarshalOptDir(t.dir).Some? && MarshalMounts(t.mounts).Some?
              && MarshalScope(t.labels).Some?
    ensures MarshalThunk(t).Some? ==>
              var m := MarshalThunk(t).value;
              && MarshalOptImage(t.image) == Some(m.image) && MarshalAll(t.args) == Some(m.args)
              && MarshalAll(t.stdin) == Some(m.stdin) && MarshalScope(t.env) == Some(m.env)
              && MarshalOptDir(t.dir) == Some(m.dir) && MarshalMounts(t.mounts) == Some(m.mounts)
              && MarshalScope(t.labels) == Some(m.labels)
  {
  }
}
