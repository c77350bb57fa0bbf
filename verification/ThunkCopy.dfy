/** What a copy of a thunk, made by marshalling it and unmarshalling the message, is like,
    compared with the thunk itself and without speaking of messages.

    Annotations are dropped, lists made of pairs, repeated symbols of a scope passed over, and
    secrets left without their contents; where several alternatives are set the first one in
    the source's order is kept.  Numbers are reduced where messages have 32 bits, a host or
    cache path that is a value loses its globs, a Dockerfile path is cleaned, and a logical
    path is read into memory.  Everything else is the same. */
module ThunkCopy {
  import opened Options
  import opened ThunkTypes
  import opened CleanPaths
  import opened ThunkCodec
  import opened ThunkRoundTrip
  import FT = FileTree

  // ---- Paths

  /** The same file, or else the same directory with its globs. */
  predicate PathCopied(p: FileOrDirPath, c: FileOrDirPath) {
    if p.file.Some? then c.file == p.file && c.dir.None?
    else p.dir.Some? && c.dir == p.dir && c.file.None?
  }

  /** The same file, or else the same directory without globs. */
  predicate PlainPathCopied(p: FileOrDirPath, c: FileOrDirPath) {
    if p.file.Some? then c.file == p.file && c.dir.None?
    else
      && p.dir.Some? && c.file.None? && c.dir.Some?
      && c.dir.value.path == p.dir.value.path && c.dir.value.including == [] && c.dir.value.excluding == []
  }

  predicate HostCopied(h: HostPath, c: HostPath) {
    c.contextDir == h.contextDir && PathCopied(h.path, c.path)
  }

  /** Numbers that agree modulo 2^32, the second of them one of 32 bits. */
  predicate SameInt32(i: int, j: int) {
    (i - j) % 0x1_0000_0000 == 0 && -0x8000_0000 <= j < 0x8000_0000
  }

  predicate CacheCopied(p: CachePath, c: CachePath) {
    c.id == p.id && PathCopied(p.path, c.path) && SameInt32(p.mode, c.mode)
  }

  /** The same name, and below it the same files with the same contents. */
  ghost predicate LogicalCopied(p: FSPath, c: FSPath) {
    && c.isDir == p.isDir && FT.Base(c.path) == FT.Base(p.path)
    && forall r: FT.Path :: FT.FileBelow(c.fs, c.path, c.isDir, r) == FT.FileBelow(p.fs, p.path, p.isDir, r)
  }

  // ---- Values

  ghost predicate ValueCopied(v: Value, c: Value)
    decreases v, 1
  {
    match v
    case SecretValue(secret) => c == SecretValue(Secret(secret.name, None))
    case Pair(_, _) => ListCopied(v, c)
    case Cons(_, _) => ListCopied(v, c)
    case Scope(walk) => c.Scope? && WalkCopied(walk, c.walk)
    case HostPathValue(host) =>
      c.HostPathValue? && c.host.contextDir == host.contextDir && PlainPathCopied(host.path, c.host.path)
    case CachePathValue(cache) =>
      && c.CachePathValue? && c.cache.id == cache.id && SameInt32(cache.mode, c.cache.mode)
      && PlainPathCopied(cache.path, c.cache.path)
    case FSPathValue(fsPath) => c.FSPathValue? && LogicalCopied(fsPath, c.fsPath)
    case ThunkValue(thunk) => c.ThunkValue? && ThunkCopied(thunk, c.thunk)
    case ThunkPathValue(thunkPath) => c.ThunkPathValue? && ThunkPathCopied(thunkPath, c.thunkPath)
    case ThunkAddrValue(addr) => c.ThunkAddrValue? && AddrCopied(addr, c.addr)
    case Annotated(value) => ValueCopied(value, c)
    case _ => c == v
  }

  /** A proper list of the copied elements, whatever the list is made of. */
  ghost predicate ListCopied(list: Value, c: Value)
    decreases list, 0
  {
    match list
    case Empty => c == Empty
    case Pair(a, d) => c.Pair? && ValueCopied(a, c.a) && ListCopied(d, c.d)
    case Cons(a, d) => c.Pair? && ValueCopied(a, c.a) && ListCopied(d, c.d)
    case Annotated(inner) => ListCopied(inner, c)
    case _ => false
  }

  ghost predicate AllCopied(vs: seq<Value>, cs: seq<Value>)
    decreases vs
  {
    |vs| == |cs| && forall i :: 0 <= i < |vs| ==> ValueCopied(vs[i], cs[i])
  }

  /** Each symbol once, where and with what it comes up first. */
  ghost predicate WalkCopied(walk: Walk, c: Walk)
    decreases walk
  {
    if walk == [] then c == []
    else
      var init, last := walk[..|walk| - 1], walk[|walk| - 1];
      if exists b :: b in init && b.symbol == last.symbol then WalkCopied(init, c)
      else
        && c != [] && c[|c| - 1].symbol == last.symbol && ValueCopied(last.value, c[|c| - 1].value)
        && WalkCopied(init, c[..|c| - 1])
  }

  /** A scope without symbols is no scope. */
  ghost predicate ScopeCopied(s: OptScope, c: OptScope)
    decreases s
  {
    if s.NoScope? || s.walk == [] then c.NoScope? else c.SomeScope? && WalkCopied(s.walk, c.walk)
  }

  // ---- Thunks

  ghost predicate ThunkPathCopied(p: ThunkPath, c: ThunkPath)
    decreases p
  {
    ThunkCopied(p.thunk, c.thunk) && PathCopied(p.path, c.path)
  }

  ghost predicate AddrCopied(a: ThunkAddr, c: ThunkAddr)
    decreases a
  {
    ThunkCopied(a.thunk, c.thunk) && c.port == a.port && c.format == a.format
  }

  ghost predicate RefCopied(ref: ImageRef, c: ImageRef)
    decreases ref
  {
    && c.static_ == ref.static_ && c.platform == ref.platform && c.tag == ref.tag && c.digest == ref.digest
    && if ref.static_ == "" && ref.addr.Some? then c.addr.Some? && AddrCopied(ref.addr.value, c.addr.value)
       else c.addr.None?
  }

  ghost predicate InputCopied(input: ImageBuildInput, c: ImageBuildInput)
    decreases input
  {
    if input.thunk.Some? then
      c.host.None? && c.fs.None? && c.thunk.Some? && ThunkPathCopied(input.thunk.value, c.thunk.value)
    else if input.host.Some? then
      c.thunk.None? && c.fs.None? && c.host.Some? && HostCopied(input.host.value, c.host.value)
    else if input.fs.Some? then
      c.thunk.None? && c.host.None? && c.fs.Some? && LogicalCopied(input.fs.value, c.fs.value)
    else c.thunk.None? && c.host.None? && c.fs.None?
  }

  ghost predicate ArchiveCopied(archive: ImageArchive, c: ImageArchive)
    decreases archive
  {
    InputCopied(archive.file, c.file) && c.platform == archive.platform && c.tag == archive.tag
  }

  ghost predicate BuildCopied(build: ImageDockerBuild, c: ImageDockerBuild)
    decreases build
  {
    && c.platform == build.platform && c.target == build.target
    && InputCopied(build.context, c.context)
    && (if build.dockerfile.None? then c.dockerfile.None?
        else c.dockerfile == Some(FilePath(Clean(build.dockerfile.value.path))))
    && c.args.SomeScope?
    && (if build.args.NoScope? then c.args.walk == [] else WalkCopied(build.args.walk, c.args.walk))
  }

  ghost predicate ImageCopied(image: ThunkImage, c: ThunkImage)
    decreases image
  {
    if image.ref.Some? then
      c.thunk.None? && c.archive.None? && c.dockerBuild.None? && c.ref.Some? && RefCopied(image.ref.value, c.ref.value)
    else if image.thunk.Some? then
      && c.ref.None? && c.archive.None? && c.dockerBuild.None?
      && c.thunk.Some? && ThunkCopied(image.thunk.value, c.thunk.value)
    else if image.archive.Some? then
      && c.ref.None? && c.thunk.None? && c.dockerBuild.None?
      && c.archive.Some? && ArchiveCopied(image.archive.value, c.archive.value)
    else
      && c.ref.None? && c.thunk.None? && c.archive.None? && image.dockerBuild.Some?
      && c.dockerBuild.Some? && BuildCopied(image.dockerBuild.value, c.dockerBuild.value)
  }

  ghost predicate DirCopied(dir: ThunkDir, c: ThunkDir)
    decreases dir
  {
    if dir.dir.Some? then c == ThunkDir(dir.dir, None, None)
    else if dir.thunkDir.Some? then
      c.dir.None? && c.hostDir.None? && c.thunkDir.Some? && ThunkPathCopied(dir.thunkDir.value, c.thunkDir.value)
    else
      && c.dir.None? && c.thunkDir.None? && dir.hostDir.Some?
      && c.hostDir.Some? && HostCopied(dir.hostDir.value, c.hostDir.value)
  }

  ghost predicate SourceCopied(source: ThunkMountSource, c: ThunkMountSource)
    decreases source
  {
    if source.thunkPath.Some? then
      && c.hostPath.None? && c.fsPath.None? && c.cache.None? && c.secret.None?
      && c.thunkPath.Some? && ThunkPathCopied(source.thunkPath.value, c.thunkPath.value)
    else if source.hostPath.Some? then
      && c.thunkPath.None? && c.fsPath.None? && c.cache.None? && c.secret.None?
      && c.hostPath.Some? && HostCopied(source.hostPath.value, c.hostPath.value)
    else if source.fsPath.Some? then
      && c.thunkPath.None? && c.hostPath.None? && c.cache.None? && c.secret.None?
      && c.fsPath.Some? && LogicalCopied(source.fsPath.value, c.fsPath.value)
    else if source.cache.Some? then
      && c.thunkPath.None? && c.hostPath.None? && c.fsPath.None? && c.secret.None?
      && c.cache.Some? && CacheCopied(source.cache.value, c.cache.value)
    else
      && c.thunkPath.None? && c.hostPath.None? && c.fsPath.None? && c.cache.None?
      && source.secret.Some? && c.secret == Some(Secret(source.secret.value.name, None))
  }

  ghost predicate MountCopied(mount: ThunkMount, c: ThunkMount)
    decreases mount
  {
    SourceCopied(mount.source, c.source) && PathCopied(mount.target, c.target)
  }

  ghost predicate MountsCopied(mounts: seq<ThunkMount>, cs: seq<ThunkMount>)
    decreases mounts
  {
    |mounts| == |cs| && forall i :: 0 <= i < |mounts| ==> MountCopied(mounts[i], cs[i])
  }

  predicate PortsCopied(ports: seq<ThunkPort>, cs: seq<ThunkPort>) {
    && |ports| == |cs|
    && forall i :: 0 <= i < |ports| ==> cs[i].name == ports[i].name && SameInt32(ports[i].port, cs[i].port)
  }

  ghost predicate OptImageCopied(image: Option<ThunkImage>, c: Option<ThunkImage>)
    decreases image
  {
    image.Some? == c.Some? && (image.Some? ==> ImageCopied(image.value, c.value))
  }

  ghost predicate OptDirCopied(dir: Option<ThunkDir>, c: Option<ThunkDir>)
    decreases dir
  {
    dir.Some? == c.Some? && (dir.Some? ==> DirCopied(dir.value, c.value))
  }

  ghost predicate ThunkCopied(t: Thunk, c: Thunk)
    decreases t
  {
    && c.insecure == t.insecure
    && c.useEntrypoint == t.useEntrypoint
    && c.tls == t.tls
    && c.entrypoint == t.entrypoint && c.clearEntrypoint == t.clearEntrypoint
    && c.defaultArgs == t.defaultArgs && c.clearDefaultArgs == t.clearDefaultArgs
    && OptImageCopied(t.image, c.image)
    && AllCopied(t.args, c.args)
    && AllCopied(t.stdin, c.stdin)
    && ScopeCopied(t.env, c.env)
    && OptDirCopied(t.dir, c.dir)
    && MountsCopied(t.mounts, c.mounts)
    && ScopeCopied(t.labels, c.labels)
    && PortsCopied(t.ports, c.ports)
  }

  // ---- Copies are like that: paths

  lemma {:induction false} PathIsCopied(p: FileOrDirPath)
    requires MarshalFileOrDir(p).Some?
    ensures PathCopied(p, UnmarshalFileOrDir(MarshalFileOrDir(p).value))
    ensures PlainPathCopied(p, Fod(MarshalFileOrDir(p).value))
  {
  }

  lemma {:induction false} Int32IsSame(i: int)
    ensures SameInt32(i, Int32(i))
  {
    var q := (i + 0x8000_0000) / 0x1_0000_0000;
    assert i - Int32(i) == q * 0x1_0000_0000;
  }

  lemma {:induction false} LogicalIsCopied(p: FSPath)
    requires MarshalFS(p).Some?
    ensures UnmarshalFS(MarshalFS(p).value).Some?
    ensures LogicalCopied(p, UnmarshalFS(MarshalFS(p).value).value)
  {
    var tree := MarshalFS(p).value;
    FT.MarshalledIsLogical(p.fs, p.path, p.isDir);
    FT.LogicalTreeLoads(tree);
    var c := UnmarshalFS(tree).value;
    forall r: FT.Path
      ensures FT.FileBelow(c.fs, c.path, c.isDir, r) == FT.FileBelow(p.fs, p.path, p.isDir, r)
    {
      FT.MarshalledFiles(p.fs, p.path, p.isDir, r);
      FT.LoadedFiles(tree, r);
    }
  }

  // ---- Values

  lemma {:induction false} ValueIsCopied(v: Value)
    requires MarshalValue(v).Some?
    ensures FromProto(MarshalValue(v).value).Some?
    ensures ValueCopied(v, FromProto(MarshalValue(v).value).value)
    decreases v, 2
  {
    match v
    case Pair(_, _) => ListIsCopied(v);
    case Scope(walk) => WalkIsCopied(walk);
    case HostPathValue(_) => PathValueIsCopied(v);
    case CachePathValue(_) => PathValueIsCopied(v);
    case FSPathValue(_) => PathValueIsCopied(v);
    case ThunkValue(_) => ThunkValueIsCopied(v);
    case ThunkPathValue(_) => ThunkValueIsCopied(v);
    case ThunkAddrValue(_) => ThunkValueIsCopied(v);
    case Annotated(value) => ValueIsCopied(value);
    case _ => AtomIsCopied(v);
  }

  lemma {:induction false} ThunkValueIsCopied(v: Value)
    requires (v.ThunkValue? || v.ThunkPathValue? || v.ThunkAddrValue?) && MarshalValue(v).Some?
    ensures FromProto(MarshalValue(v).value).Some?
    ensures ValueCopied(v, FromProto(MarshalValue(v).value).value)
    decreases v, 1
  {
    match v
    case ThunkValue(thunk) => ThunkIsCopied(thunk);
    case ThunkPathValue(thunkPath) => ThunkPathIsCopied(thunkPath);
    case ThunkAddrValue(addr) => AddrIsCopied(addr);
  }

  lemma {:induction false} AtomIsCopied(v: Value)
    requires IsAtom(v)
    ensures MarshalValue(v).Some? && FromProto(MarshalValue(v).value).Some?
    ensures ValueCopied(v, FromProto(MarshalValue(v).value).value)
  {
  }

  lemma {:induction false} PathValueIsCopied(v: Value)
    requires (v.HostPathValue? || v.CachePathValue? || v.FSPathValue?) && MarshalValue(v).Some?
    ensures FromProto(MarshalValue(v).value).Some?
    ensures ValueCopied(v, FromProto(MarshalValue(v).value).value)
  {
    match v
    case HostPathValue(host) => PathIsCopied(host.path);
    case CachePathValue(cache) =>
      PathIsCopied(cache.path);
      Int32IsSame(cache.mode);
    case FSPathValue(fsPath) => LogicalIsCopied(fsPath);
  }

  lemma {:induction false} ListIsCopied(list: Value)
    requires MarshalList(list).Some?
    ensures FromProtos(MarshalList(list).value).Some?
    ensures ListCopied(list, NewList(FromProtos(MarshalList(list).value).value))
    decreases list, 0
  {
    match list
    case Pair(a, d) =>
      ValueIsCopied(a);
      ListIsCopied(d);
      NewListOf(MarshalValue(a).value, MarshalList(d).value);
    case Cons(a, d) =>
      ValueIsCopied(a);
      ListIsCopied(d);
      NewListOf(MarshalValue(a).value, MarshalList(d).value);
    case Annotated(inner) => ListIsCopied(inner);
    case _ =>
  }

  lemma {:induction false} NewListOf(first: PValue, rest: seq<PValue>)
    requires FromProto(first).Some? && FromProtos(rest).Some?
    ensures FromProtos([first] + rest) == Some([FromProto(first).value] + FromProtos(rest).value)
    ensures NewList(FromProtos([first] + rest).value)
            == Pair(FromProto(first).value, NewList(FromProtos(rest).value))
  {
    assert ([first] + rest)[1..] == rest;
    assert ([FromProto(first).value] + FromProtos(rest).value)[1..] == FromProtos(rest).value;
  }

  lemma {:induction false} AllAreCopied(vs: seq<Value>)
    requires MarshalAll(vs).Some?
    ensures FromProtos(MarshalAll(vs).value).Some?
    ensures AllCopied(vs, FromProtos(MarshalAll(vs).value).value)
    decreases vs
  {
    if vs != [] {
      ValueIsCopied(vs[0]);
      AllAreCopied(vs[1..]);
      NewListOf(MarshalValue(vs[0]).value, MarshalAll(vs[1..]).value);
      var cs := FromProtos(MarshalAll(vs).value).value;
      assert cs[1..] == FromProtos(MarshalAll(vs[1..]).value).value;
      forall i | 0 <= i < |vs|
        ensures ValueCopied(vs[i], cs[i])
      {
        assert i > 0 ==> vs[i] == vs[1..][i - 1] && cs[i] == cs[1..][i - 1];
      }
    }
  }

  lemma {:induction false} WalkIsCopied(walk: Walk)
    requires MarshalWalk(walk).Some?
    ensures UnmarshalBindings(MarshalWalk(walk).value).Some?
    ensures WalkCopied(walk, UnmarshalBindings(MarshalWalk(walk).value).value)
    decreases walk
  {
    if walk != [] {
      var init, last := walk[..|walk| - 1], walk[|walk| - 1];
      WalkIsCopied(init);
      if last.symbol !in Symbols(init) {
        ValueIsCopied(last.value);
        WalkCopies(init);
        var bindings := MarshalWalk(init).value;
        var c := UnmarshalBindings(bindings).value;
        var added := Binding(last.symbol, FromProto(MarshalValue(last.value).value).value);
        SetNew(c, last.symbol, added.value);
        assert (bindings + [PBinding(last.symbol, MarshalValue(last.value).value)])[..|bindings|] == bindings;
        assert (c + [added])[..|c|] == c;
      }
    }
  }

  lemma {:induction false} ScopeIsCopied(s: OptScope)
    requires MarshalScope(s).Some?
    ensures UnmarshalScope(MarshalScope(s).value).Some?
    ensures ScopeCopied(s, UnmarshalScope(MarshalScope(s).value).value)
    decreases s
  {
    if s.SomeScope? {
      WalkIsCopied(s.walk);
      if s.walk != [] {
        SomethingSent(s.walk);
      }
    }
  }

  lemma {:induction false} SomethingSent(walk: Walk)
    requires MarshalWalk(walk).Some? && walk != []
    ensures MarshalWalk(walk).value != []
    decreases |walk|
  {
    var init := walk[..|walk| - 1];
    if walk[|walk| - 1].symbol in Symbols(init) {
      SomethingSent(init);
    }
  }

  // ---- Thunks

  lemma {:induction false} ThunkPathIsCopied(p: ThunkPath)
    requires MarshalThunkPath(p).Some?
    ensures UnmarshalThunkPath(MarshalThunkPath(p).value).Some?
    ensures ThunkPathCopied(p, UnmarshalThunkPath(MarshalThunkPath(p).value).value)
    decreases p
  {
    ThunkIsCopied(p.thunk);
    PathIsCopied(p.path);
  }

  lemma {:induction false} AddrIsCopied(a: ThunkAddr)
    requires MarshalAddr(a).Some?
    ensures UnmarshalAddr(MarshalAddr(a).value).Some?
    ensures AddrCopied(a, UnmarshalAddr(MarshalAddr(a).value).value)
    decreases a
  {
    ThunkIsCopied(a.thunk);
  }

  lemma {:induction false} HostIsCopied(h: HostPath)
    requires MarshalHost(h).Some?
    ensures HostCopied(h, UnmarshalHost(MarshalHost(h).value))
  {
    PathIsCopied(h.path);
  }

  lemma {:induction false} CacheIsCopied(p: CachePath)
    requires MarshalCache(p).Some?
    ensures CacheCopied(p, UnmarshalCache(MarshalCache(p).value))
  {
    PathIsCopied(p.path);
    Int32IsSame(p.mode);
  }

  lemma {:induction false} InputIsCopied(input: ImageBuildInput)
    requires MarshalInput(input).Some?
    ensures UnmarshalInput(MarshalInput(input).value).Some?
    ensures InputCopied(input, UnmarshalInput(MarshalInput(input).value).value)
    decreases input
  {
    if input.thunk.Some? {
      ThunkPathIsCopied(input.thunk.value);
    } else if input.host.Some? {
      HostIsCopied(input.host.value);
    } else if input.fs.Some? {
      LogicalIsCopied(input.fs.value);
    }
  }

  /** Build arguments are strings under any annotations. */
  lemma {:induction false} ArgsAreCopied(walk: Walk)
    requires MarshalArgs(walk).Some?
    ensures WalkCopied(walk, UnmarshalArgs(MarshalArgs(walk).value))
    decreases walk
  {
    if walk != [] {
      var init, last := walk[..|walk| - 1], walk[|walk| - 1];
      ArgsAreCopied(init);
      if last.symbol !in Symbols(init) {
        ArgsCopy(init);
        BareIsCopied(last.value);
        var args := MarshalArgs(init).value;
        var c, added := UnmarshalArgs(args), Binding(last.symbol, Bare(last.value));
        SetNew(c, last.symbol, added.value);
        assert (args + [PBuildArg(last.symbol, Bare(last.value).s)])[..|args|] == args;
        assert (c + [added])[..|c|] == c;
      }
    }
  }

  lemma {:induction false} BareIsCopied(v: Value)
    requires Bare(v).Str?
    ensures ValueCopied(v, Bare(v))
    decreases v
  {
    if v.Annotated? {
      BareIsCopied(v.value);
    }
  }

  lemma {:induction false} BuildIsCopied(build: ImageDockerBuild)
    requires MarshalBuild(build).Some?
    ensures var c := UnmarshalImage(PDockerBuild(MarshalBuild(build).value));
            c.Some? && c.value.dockerBuild.Some? && BuildCopied(build, c.value.dockerBuild.value)
    decreases build
  {
    InputIsCopied(build.context);
    if build.dockerfile.Some? {
      CleanClarified(build.dockerfile.value.path);
    }
    if build.args.SomeScope? {
      ArgsAreCopied(build.args.walk);
    }
  }

  lemma {:induction false} RefIsCopied(ref: ImageRef)
    requires MarshalRef(ref).Some?
    ensures var c := UnmarshalImage(PRef(MarshalRef(ref).value));
            c.Some? && c.value.ref.Some? && RefCopied(ref, c.value.ref.value)
    decreases ref
  {
    if ref.static_ == "" && ref.addr.Some? {
      AddrIsCopied(ref.addr.value);
    }
  }

  lemma {:induction false} ImageIsCopied(image: ThunkImage)
    requires MarshalImage(image).Some?
    ensures UnmarshalImage(MarshalImage(image).value).Some?
    ensures ImageCopied(image, UnmarshalImage(MarshalImage(image).value).value)
    decreases image
  {
    if image.ref.Some? {
      RefIsCopied(image.ref.value);
    } else if image.thunk.Some? {
      ThunkIsCopied(image.thunk.value);
    } else if image.archive.Some? {
      InputIsCopied(image.archive.value.file);
    } else {
      BuildIsCopied(image.dockerBuild.value);
    }
  }

  lemma {:induction false} DirIsCopied(dir: ThunkDir)
    requires MarshalDir(dir).Some?
    ensures UnmarshalDir(MarshalDir(dir).value).Some?
    ensures DirCopied(dir, UnmarshalDir(MarshalDir(dir).value).value)
    decreases dir
  {
    if dir.dir.None? {
      if dir.thunkDir.Some? {
        ThunkPathIsCopied(dir.thunkDir.value);
      } else {
        HostIsCopied(dir.hostDir.value);
      }
    }
  }

  lemma {:induction false} SourceIsCopied(source: ThunkMountSource)
    requires MarshalSource(source).Some?
    ensures UnmarshalSource(MarshalSource(source).value).Some?
    ensures SourceCopied(source, UnmarshalSource(MarshalSource(source).value).value)
    decreases source
  {
    if source.thunkPath.Some? {
      ThunkPathIsCopied(source.thunkPath.value);
    } else if source.hostPath.Some? {
      HostIsCopied(source.hostPath.value);
    } else if source.fsPath.Some? {
      LogicalIsCopied(source.fsPath.value);
    } else if source.cache.Some? {
      CacheIsCopied(source.cache.value);
    }
  }

  lemma {:induction false} MountIsCopied(mount: ThunkMount)
    requires MarshalMount(mount).Some?
    ensures UnmarshalMount(MarshalMount(mount).value).Some?
    ensures MountCopied(mount, UnmarshalMount(MarshalMount(mount).value).value)
    decreases mount
  {
    SourceIsCopied(mount.source);
    PathIsCopied(mount.target);
  }

  lemma {:induction false} MountsAreCopied(mounts: seq<ThunkMount>)
    requires MarshalMounts(mounts).Some?
    ensures UnmarshalMounts(MarshalMounts(mounts).value).Some?
    ensures MountsCopied(mounts, UnmarshalMounts(MarshalMounts(mounts).value).value)
    decreases mounts
  {
    if mounts != [] {
      MountIsCopied(mounts[0]);
      MountsAreCopied(mounts[1..]);
      var m := MarshalMounts(mounts).value;
      assert m[1..] == MarshalMounts(mounts[1..]).value;
      var cs := UnmarshalMounts(m).value;
      assert cs[1..] == UnmarshalMounts(m[1..]).value;
      forall i | 0 <= i < |mounts|
        ensures MountCopied(mounts[i], cs[i])
      {
        assert i > 0 ==> mounts[i] == mounts[1..][i - 1] && cs[i] == cs[1..][i - 1];
      }
    }
  }

  lemma {:induction false} PortsAreCopied(ports: seq<ThunkPort>)
    ensures PortsCopied(ports, MarshalPorts(ports))
  {
    forall i | 0 <= i < |ports|
      ensures SameInt32(ports[i].port, MarshalPorts(ports)[i].port)
    {
      Int32IsSame(ports[i].port);
    }
  }

  lemma {:induction false} OptImageIsCopied(image: Option<ThunkImage>)
    requires MarshalOptImage(image).Some?
    ensures UnmarshalOptImage(MarshalOptImage(image).value).Some?
    ensures OptImageCopied(image, UnmarshalOptImage(MarshalOptImage(image).value).value)
    decreases image
  {
    if image.Some? {
      ImageIsCopied(image.value);
    }
  }

  lemma {:induction false} OptDirIsCopied(dir: Option<ThunkDir>)
    requires MarshalOptDir(dir).Some?
    ensures UnmarshalOptDir(MarshalOptDir(dir).value).Some?
    ensures OptDirCopied(dir, UnmarshalOptDir(MarshalOptDir(dir).value).value)
    decreases dir
  {
    if dir.Some? {
      DirIsCopied(dir.value);
    }
  }

  /** Unmarshalling reads the parts and takes the other fields over. */
  lemma {:induction false} UnmarshalsByParts(m: PThunk)
    requires UnmarshalOptImage(m.image).Some? && FromProtos(m.args).Some? && FromProtos(m.stdin).Some?
    requires UnmarshalScope(m.env).Some? && UnmarshalOptDir(m.dir).Some? && UnmarshalMounts(m.mounts).Some?
    requires UnmarshalScope(m.labels).Some?
    ensures UnmarshalThunk(m).Some?
    ensures var c := UnmarshalThunk(m).value;
            && Some(c.image) == UnmarshalOptImage(m.image) && Some(c.args) == FromProtos(m.args)
            && Some(c.stdin) == FromProtos(m.stdin) && Some(c.env) == UnmarshalScope(m.env)
            && Some(c.dir) == UnmarshalOptDir(m.dir) && Some(c.mounts) == UnmarshalMounts(m.mounts)
            && Some(c.labels) == UnmarshalScope(m.labels) && c.ports == m.ports
            && PlainFields(c, m)
  {
  }

  predicate PlainFields(t: Thunk, m: PThunk) {
    && m.insecure == t.insecure && m.useEntrypoint == t.useEntrypoint && m.tls == t.tls
    && m.entrypoint == t.entrypoint && m.clearEntrypoint == t.clearEntrypoint
    && m.defaultArgs == t.defaultArgs && m.clearDefaultArgs == t.clearDefaultArgs
  }

  lemma {:induction false} PlainFieldsSent(t: Thunk)
    requires MarshalThunk(t).Some?
    ensures PlainFields(t, MarshalThunk(t).value) && MarshalThunk(t).value.ports == MarshalPorts(t.ports)
  {
  }

  /** For every thunk that marshals, the copy made from its message has every field of the
      thunk, all the way down to numbers, strings, paths and file contents. */
  lemma {:induction false} ThunkIsCopied(t: Thunk)
    requires MarshalThunk(t).Some?
    ensures UnmarshalThunk(MarshalThunk(t).value).Some?
    ensures ThunkCopied(t, UnmarshalThunk(MarshalThunk(t).value).value)
    decreases t
  {
    MarshalsByParts(t);
    PlainFieldsSent(t);
    OptImageIsCopied(t.image);
    AllAreCopied(t.args);
    AllAreCopied(t.stdin);
    ScopeIsCopied(t.env);
    OptDirIsCopied(t.dir);
    MountsAreCopied(t.mounts);
    ScopeIsCopied(t.labels);
    PortsAreCopied(t.ports);
    UnmarshalsByParts(MarshalThunk(t).value);
  }
}
