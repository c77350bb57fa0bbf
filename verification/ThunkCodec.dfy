/** Marshalling of values and thunks to messages and back.  None stands for the error the
    source returns, and for its panic where it dereferences an alternative that is not set. */
module ThunkCodec {
  import opened Options
  import opened ThunkTypes
  import opened CleanPaths
  import FT = FileTree

  /** Go's conversion to int32. */
  function Int32(i: int): int {
    (i + 0x8000_0000) % 0x1_0000_0000 - 0x8000_0000
  }

  // ---- Paths

  function MarshalFileOrDir(p: FileOrDirPath): Option<PFilesystemPath> {
    if p.file.Some? then Some(PFile(p.file.value.path))
    else if p.dir.Some? then Some(PDir(p.dir.value.path, p.dir.value.including, p.dir.value.excluding))
    else None
  }

  function MarshalHost(h: HostPath): Option<PHostPath> {
    var path :- MarshalFileOrDir(h.path);
    Some(PHostPath(h.contextDir, path))
  }

  function MarshalCache(c: CachePath): Option<PCachePath> {
    var path :- MarshalFileOrDir(c.path);
    Some(PCachePath(c.id, path, Int32(c.mode)))
  }

  function MarshalFS(p: FSPath): Option<LogicalTree> {
    var tree := FT.MarshalPath(p.fs, p.path, p.isDir);
    if tree.None? then None
    else
      FT.MarshalledIsLogical(p.fs, p.path, p.isDir);
      Some(tree.value)
  }

  // ---- Values

  /** The value list.go's Each goes on with: annotations are looked through. */
  function Bare(v: Value): Value
    decreases v
  {
    match v
    case Annotated(inner) => Bare(inner)
    case _ => v
  }

  function ToSlice(list: Value): Option<seq<Value>>
    decreases list
  {
    match list
    case Empty => Some([])
    case Pair(a, d) => var rest :- ToSlice(d); Some([a] + rest)
    case Cons(a, d) => var rest :- ToSlice(d); Some([a] + rest)
    case Annotated(inner) => ToSlice(inner)
    case _ => None
  }

  function MarshalValue(v: Value): Option<PValue>
    decreases v, 1
  {
    match v
    case Null => Some(PNull)
    case Bool(b) => Some(PBool(b))
    case Int(i) => Some(PInt(i))
    case Str(s) => Some(PString(s))
    case SecretValue(secret) => Some(PSecret(secret.name))
    case Empty => Some(PArray([]))
    case Pair(a, d) => var vs :- MarshalList(v); Some(PArray(vs))
    case Scope(walk) => var bindings :- MarshalWalk(walk); Some(PObject(bindings))
    case FilePathValue(file) => Some(PFilePath(file.path))
    case DirPathValue(dir) => Some(PDirPath(dir.path, dir.including, dir.excluding))
    case HostPathValue(host) => var m :- MarshalHost(host); Some(PHost(m))
    case CachePathValue(cache) => var m :- MarshalCache(cache); Some(PCache(m))
    case FSPathValue(fsPath) => var tree :- MarshalFS(fsPath); Some(PLogical(tree))
    case ThunkValue(thunk) => var m :- MarshalThunk(thunk); Some(PThunkMsg(m))
    case ThunkPathValue(thunkPath) => var m :- MarshalThunkPath(thunkPath); Some(PThunkPathMsg(m))
    case CommandPath(command) => Some(PCommandPath(command))
    case ThunkAddrValue(addr) => var m :- MarshalAddr(addr); Some(PThunkAddrMsg(m))
    case Annotated(value) => MarshalValue(value)
    case _ => None
  }

  /** The elements of a list, or None where ToSlice or an element's marshalling fails. */
  function MarshalList(list: Value): Option<seq<PValue>>
    decreases list, 0
  {
    match list
    case Empty => Some([])
    case Pair(a, d) => var first :- MarshalValue(a); var rest :- MarshalList(d); Some([first] + rest)
    case Cons(a, d) => var first :- MarshalValue(a); var rest :- MarshalList(d); Some([first] + rest)
    case Annotated(inner) => MarshalList(inner)
    case _ => None
  }

  function MarshalAll(vs: seq<Value>): Option<seq<PValue>>
    decreases vs
  {
    if vs == [] then Some([])
    else
      var first :- MarshalValue(vs[0]);
      var rest :- MarshalAll(vs[1..]);
      Some([first] + rest)
  }

  function Symbols(walk: Walk): set<string> {
    set b | b in walk :: b.symbol
  }

  /** Each over a scope: a symbol that was called already is passed over. */
  function MarshalWalk(walk: Walk): Option<seq<PBinding>>
    decreases walk
  {
    if walk == [] then Some([])
    else
      var init, last := walk[..|walk| - 1], walk[|walk| - 1];
      var bindings :- MarshalWalk(init);
      if last.symbol in Symbols(init) then Some(bindings)
      else
        var value :- MarshalValue(last.value);
        Some(bindings + [PBinding(last.symbol, value)])
  }

  function MarshalScope(scope: OptScope): Option<seq<PBinding>>
    decreases scope
  {
    if scope.NoScope? then Some([]) else MarshalWalk(scope.walk)
  }

  // ---- Thunks

  function MarshalThunkPath(p: ThunkPath): Option<PThunkPath>
    decreases p
  {
    var thunk :- MarshalThunk(p.thunk);
    var path :- MarshalFileOrDir(p.path);
    Some(PThunkPath(thunk, path))
  }

  function MarshalAddr(a: ThunkAddr): Option<PThunkAddr>
    decreases a
  {
    var thunk :- MarshalThunk(a.thunk);
    Some(PThunkAddr(thunk, a.port, a.format))
  }

  function NonEmpty(s: string): Option<string> {
    if s == "" then None else Some(s)
  }

  function MarshalRef(ref: ImageRef): Option<PImageRef>
    decreases ref
  {
    var source :-
      if ref.static_ != "" then Some(PRepository(ref.static_))
      else if ref.addr.Some? then (var addr :- MarshalAddr(ref.addr.value); Some(PAddr(addr)))
      else Some(PNoSource);
    Some(PImageRef(ref.platform, source, NonEmpty(ref.tag), NonEmpty(ref.digest)))
  }

  function MarshalInput(input: ImageBuildInput): Option<PBuildInput>
    decreases input
  {
    if input.thunk.Some? then (var m :- MarshalThunkPath(input.thunk.value); Some(PInputThunk(m)))
    else if input.host.Some? then (var m :- MarshalHost(input.host.value); Some(PInputHost(m)))
    else if input.fs.Some? then (var m :- MarshalFS(input.fs.value); Some(PInputLogical(m)))
    else Some(PNoInput)
  }

  function MarshalArchive(archive: ImageArchive): Option<PImageArchive>
    decreases archive
  {
    var file :- MarshalInput(archive.file);
    Some(PImageArchive(archive.platform, file, NonEmpty(archive.tag)))
  }

  /** Build arguments must decode to strings. */
  function MarshalArgs(walk: Walk): Option<seq<PBuildArg>> {
    if walk == [] then Some([])
    else
      var init, last := walk[..|walk| - 1], walk[|walk| - 1];
      var args :- MarshalArgs(init);
      if last.symbol in Symbols(init) then Some(args)
      else if !Bare(last.value).Str? then None
      else Some(args + [PBuildArg(last.symbol, Bare(last.value).s)])
  }

  function MarshalBuild(build: ImageDockerBuild): Option<PImageDockerBuild>
    decreases build
  {
    var context :- MarshalInput(build.context);
    var dockerfile := if build.dockerfile.None? then None else Some(Clarify(build.dockerfile.value.path));
    var args :- if build.args.NoScope? then Some([]) else MarshalArgs(build.args.walk);
    Some(PImageDockerBuild(build.platform, context, dockerfile, NonEmpty(build.target), args))
  }

  function MarshalImage(image: ThunkImage): Option<PThunkImage>
    decreases image
  {
    if image.ref.Some? then (var m :- MarshalRef(image.ref.value); Some(PRef(m)))
    else if image.thunk.Some? then (var m :- MarshalThunk(image.thunk.value); Some(PParent(m)))
    else if image.archive.Some? then (var m :- MarshalArchive(image.archive.value); Some(PArchive(m)))
    else if image.dockerBuild.Some? then (var m :- MarshalBuild(image.dockerBuild.value); Some(PDockerBuild(m)))
    else None
  }

  function MarshalDir(dir: ThunkDir): Option<PThunkDir>
    decreases dir
  {
    if dir.dir.Some? then Some(PLocal(dir.dir.value.path, dir.dir.value.including, dir.dir.value.excluding))
    else if dir.thunkDir.Some? then (var m :- MarshalThunkPath(dir.thunkDir.value); Some(PDirThunk(m)))
    else if dir.hostDir.Some? then (var m :- MarshalHost(dir.hostDir.value); Some(PDirHost(m)))
    else None
  }

  function MarshalSource(source: ThunkMountSource): Option<PMountSource>
    decreases source
  {
    if source.thunkPath.Some? then (var m :- MarshalThunkPath(source.thunkPath.value); Some(PSourceThunk(m)))
    else if source.hostPath.Some? then (var m :- MarshalHost(source.hostPath.value); Some(PSourceHost(m)))
    else if source.fsPath.Some? then (var m :- MarshalFS(source.fsPath.value); Some(PSourceLogical(m)))
    else if source.cache.Some? then (var m :- MarshalCache(source.cache.value); Some(PSourceCache(m)))
    else if source.secret.Some? then Some(PSourceSecret(source.secret.value.name))
    else None
  }

  function MarshalMount(mount: ThunkMount): Option<PThunkMount>
    decreases mount
  {
    var source :- MarshalSource(mount.source);
    var target :- MarshalFileOrDir(mount.target);
    Some(PThunkMount(source, target))
  }

  function MarshalMounts(mounts: seq<ThunkMount>): Option<seq<PThunkMount>>
    decreases mounts
  {
    if mounts == [] then Some([])
    else
      var first :- MarshalMount(mounts[0]);
      var rest :- MarshalMounts(mounts[1..]);
      Some([first] + rest)
  }

  function MarshalPorts(ports: seq<ThunkPort>): seq<ThunkPort> {
    seq(|ports|, i requires 0 <= i < |ports| => ThunkPort(ports[i].name, Int32(ports[i].port)))
  }

  function MarshalOptImage(image: Option<ThunkImage>): Option<Option<PThunkImage>>
    decreases image
  {
    if image.None? then Some(None) else (var m :- MarshalImage(image.value); Some(Some(m)))
  }

  function MarshalOptDir(dir: Option<ThunkDir>): Option<Option<PThunkDir>>
    decreases dir
  {
    if dir.None? then Some(None) else (var m :- MarshalDir(dir.value); Some(Some(m)))
  }

  function MarshalThunk(t: Thunk): Option<PThunk>
    decreases t
  {
    var image :- MarshalOptImage(t.image);
    var args :- MarshalAll(t.args);
    var stdin :- MarshalAll(t.stdin);
    var env :- MarshalScope(t.env);
    var dir :- MarshalOptDir(t.dir);
    var mounts :- MarshalMounts(t.mounts);
    var labels :- MarshalScope(t.labels);
    Some(PThunk(image, t.insecure, args, t.useEntrypoint, stdin, env, dir, mounts, labels, MarshalPorts(t.ports), t.tls,
                t.entrypoint, t.clearEntrypoint, t.defaultArgs, t.clearDefaultArgs))
  }

  // ---- Back from messages

  function UnmarshalFileOrDir(p: PFilesystemPath): FileOrDirPath {
    match p
    case PDir(path, including, excluding) => FileOrDirPath(None, Some(DirPath(path, including, excluding)))
    case PFile(path) => FileOrDirPath(Some(FilePath(path)), None)
  }

  /** fod, which values use instead: it leaves the globs behind. */
  function Fod(p: PFilesystemPath): FileOrDirPath {
    match p
    case PDir(path, _, _) => FileOrDirPath(None, Some(DirPath(path, [], [])))
    case PFile(path) => FileOrDirPath(Some(FilePath(path)), None)
  }

  function UnmarshalHost(h: PHostPath): HostPath {
    HostPath(h.context, UnmarshalFileOrDir(h.path))
  }

  function UnmarshalCache(c: PCachePath): CachePath {
    CachePath(c.id, UnmarshalFileOrDir(c.path), c.concurrency)
  }

  function UnmarshalFS(tree: LogicalTree): Option<FSPath> {
    var fs :- FT.LoadTree(FT.EMPTY_FS, [], tree);
    FT.LogicalTreeLoads(tree);
    Some(FSPath(fs, FT.Join([], tree.name), tree.Dir?))
  }

  function NewList(vs: seq<Value>): Value {
    if vs == [] then Empty else Pair(vs[0], NewList(vs[1..]))
  }

  /** Scope.Set on a scope without parents. */
  function SetIn(walk: Walk, symbol: string, value: Value): Walk {
    if walk == [] then [Binding(symbol, value)]
    else if walk[0].symbol == symbol then [Binding(symbol, value)] + walk[1..]
    else [walk[0]] + SetIn(walk[1..], symbol, value)
  }

  function FromProto(m: PValue): Option<Value>
    decreases m
  {
    match m
    case PNull => Some(Null)
    case PBool(b) => Some(Bool(b))
    case PInt(i) => Some(Int(i))
    case PString(s) => Some(Str(s))
    case PSecret(name) => Some(SecretValue(Secret(name, None)))
    case PArray(values) => var vs :- FromProtos(values); Some(NewList(vs))
    case PObject(bindings) => var walk :- UnmarshalBindings(bindings); Some(Scope(walk))
    case PFilePath(path) => Some(FilePathValue(FilePath(path)))
    case PDirPath(path, including, excluding) => Some(DirPathValue(DirPath(path, including, excluding)))
    case PHost(host) => Some(HostPathValue(HostPath(host.context, Fod(host.path))))
    case PCache(cache) => Some(CachePathValue(CachePath(cache.id, Fod(cache.path), cache.concurrency)))
    case PLogical(tree) => var fsPath :- UnmarshalFS(tree); Some(FSPathValue(fsPath))
    case PThunkMsg(thunk) => var t :- UnmarshalThunk(thunk); Some(ThunkValue(t))
    case PThunkPathMsg(thunkPath) => var p :- UnmarshalThunkPath(thunkPath); Some(ThunkPathValue(p))
    case PCommandPath(name) => Some(CommandPath(name))
    case PThunkAddrMsg(addr) => var a :- UnmarshalAddr(addr); Some(ThunkAddrValue(a))
  }

  function FromProtos(ms: seq<PValue>): Option<seq<Value>>
    decreases ms
  {
    if ms == [] then Some([])
    else
      var first :- FromProto(ms[0]);
      var rest :- FromProtos(ms[1..]);
      Some([first] + rest)
  }

  function UnmarshalBindings(bindings: seq<PBinding>): Option<Walk>
    decreases bindings, 0
  {
    if bindings == [] then Some([])
    else
      var last := bindings[|bindings| - 1];
      var init :- UnmarshalBindings(bindings[..|bindings| - 1]);
      var value :- FromProto(last.value);
      Some(SetIn(init, last.symbol, value))
  }

  /** Thunk.UnmarshalProto makes a scope only when there are bindings. */
  function UnmarshalScope(bindings: seq<PBinding>): Option<OptScope>
    decreases bindings, 1
  {
    if bindings == [] then Some(NoScope) else (var walk :- UnmarshalBindings(bindings); Some(SomeScope(walk)))
  }

  function UnmarshalThunkPath(p: PThunkPath): Option<ThunkPath>
    decreases p
  {
    var thunk :- UnmarshalThunk(p.thunk);
    Some(ThunkPath(thunk, UnmarshalFileOrDir(p.path)))
  }

  function UnmarshalAddr(a: PThunkAddr): Option<ThunkAddr>
    decreases a
  {
    var thunk :- UnmarshalThunk(a.thunk);
    Some(ThunkAddr(thunk, a.port, a.format))
  }

  /** GetTag and the like: "" when there is none. */
  function OrEmpty(s: Option<string>): string {
    if s.None? then "" else s.value
  }

  function UnmarshalInput(input: PBuildInput): Option<ImageBuildInput>
    decreases input
  {
    match input
    case PInputThunk(thunk) => var p :- UnmarshalThunkPath(thunk); Some(ImageBuildInput(Some(p), None, None))
    case PInputHost(host) => Some(ImageBuildInput(None, Some(UnmarshalHost(host)), None))
    case PInputLogical(tree) => var p :- UnmarshalFS(tree); Some(ImageBuildInput(None, None, Some(p)))
    case PNoInput => Some(ImageBuildInput(None, None, None))
  }

  function UnmarshalArgs(args: seq<PBuildArg>): Walk {
    if args == [] then []
    else SetIn(UnmarshalArgs(args[..|args| - 1]), args[|args| - 1].name, Str(args[|args| - 1].value))
  }

  function UnmarshalImage(image: PThunkImage): Option<ThunkImage>
    decreases image
  {
    match image
    case PRef(ref) =>
      // a thunk path is not the build input that unmarshalling the archive's file wants
      if ref.source.PLegacyFile? then None
      else
        var repository := if ref.source.PRepository? then ref.source.repository else "";
        var addr :- if ref.source.PAddr? then (var a :- UnmarshalAddr(ref.source.addr); Some(Some(a))) else Some(None);
        var copy := ImageRef(repository, addr, ref.platform, OrEmpty(ref.tag), OrEmpty(ref.digest));
        Some(ThunkImage(Some(copy), None, None, None))
    case PParent(thunk) =>
      var t :- UnmarshalThunk(thunk);
      Some(ThunkImage(None, None, Some(t), None))
    case PArchive(archive) =>
      var file :- UnmarshalInput(archive.file);
      Some(ThunkImage(None, Some(ImageArchive(file, archive.platform, OrEmpty(archive.tag))), None, None))
    case PDockerBuild(build) =>
      var context :- UnmarshalInput(build.context);
      var dockerfile := if OrEmpty(build.dockerfile) == "" then None else Some(FilePath(Clean(build.dockerfile.value)));
      Some(ThunkImage(None, None, None, Some(
        ImageDockerBuild(build.platform, context, dockerfile, OrEmpty(build.target),
                         SomeScope(UnmarshalArgs(build.args))))))
  }

  function UnmarshalDir(dir: PThunkDir): Option<ThunkDir>
    decreases dir
  {
    match dir
    case PLocal(path, including, excluding) => Some(ThunkDir(Some(DirPath(path, including, excluding)), None, None))
    case PDirThunk(thunk) => var p :- UnmarshalThunkPath(thunk); Some(ThunkDir(None, Some(p), None))
    case PDirHost(host) => Some(ThunkDir(None, None, Some(UnmarshalHost(host))))
  }

  function UnmarshalSource(source: PMountSource): Option<ThunkMountSource>
    decreases source
  {
    match source
    case PSourceThunk(thunk) =>
      var p :- UnmarshalThunkPath(thunk); Some(ThunkMountSource(Some(p), None, None, None, None))
    case PSourceHost(host) => Some(ThunkMountSource(None, Some(UnmarshalHost(host)), None, None, None))
    case PSourceLogical(tree) => var p :- UnmarshalFS(tree); Some(ThunkMountSource(None, None, Some(p), None, None))
    case PSourceCache(cache) => Some(ThunkMountSource(None, None, None, Some(UnmarshalCache(cache)), None))
    case PSourceSecret(name) => Some(ThunkMountSource(None, None, None, None, Some(Secret(name, None))))
  }

  function UnmarshalMount(mount: PThunkMount): Option<ThunkMount>
    decreases mount
  {
    var source :- UnmarshalSource(mount.source);
    Some(ThunkMount(source, UnmarshalFileOrDir(mount.target)))
  }

  function UnmarshalMounts(mounts: seq<PThunkMount>): Option<seq<ThunkMount>>
    decreases mounts
  {
    if mounts == [] then Some([])
    else
      var first :- UnmarshalMount(mounts[0]);
      var rest :- UnmarshalMounts(mounts[1..]);
      Some([first] + rest)
  }

  function UnmarshalOptImage(image: Option<PThunkImage>): Option<Option<ThunkImage>>
    decreases image
  {
    if image.None? then Some(None) else (var i :- UnmarshalImage(image.value); Some(Some(i)))
  }

  function UnmarshalOptDir(dir: Option<PThunkDir>): Option<Option<ThunkDir>>
    decreases dir
  {
    if dir.None? then Some(None) else (var d :- UnmarshalDir(dir.value); Some(Some(d)))
  }

  function UnmarshalThunk(p: PThunk): Option<Thunk>
    decreases p
  {
    var image :- UnmarshalOptImage(p.image);
    var args :- FromProtos(p.args);
    var stdin :- FromProtos(p.stdin);
    var env :- UnmarshalScope(p.env);
    var dir :- UnmarshalOptDir(p.dir);
    var mounts :- UnmarshalMounts(p.mounts);
    var labels :- UnmarshalScope(p.labels);
    Some(Thunk(image, p.insecure, args, p.useEntrypoint, stdin, env, dir, mounts, labels, p.ports, p.tls,
               p.entrypoint, p.clearEntrypoint, p.defaultArgs, p.clearDefaultArgs))
  }
}
