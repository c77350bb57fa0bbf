/** The values that can be marshalled and the messages they become.  Where the source has a
    struct with one pointer per alternative, so does the value here: several may be set. */
module ThunkTypes {
  import opened Options
  import FT = FileTree

  // ---- Values

  datatype FilePath = FilePath(path: string)
  datatype DirPath = DirPath(path: string, including: seq<string>, excluding: seq<string>)
  datatype FileOrDirPath = FileOrDirPath(file: Option<FilePath>, dir: Option<DirPath>)
  datatype HostPath = HostPath(contextDir: string, path: FileOrDirPath)
  datatype CachePath = CachePath(id: string, path: FileOrDirPath, mode: int)
  datatype Secret = Secret(name: string, contents: Option<string>)
  datatype Platform = Platform(os: string, arch: string)
  datatype ThunkPort = ThunkPort(name: string, port: int)
  datatype ThunkTLS = ThunkTLS(cert: FilePath, key: FilePath)

  /** A filesystem as Go's io/fs admits it. */
  type Filesystem = fs: FT.FS | FT.ValidFS(fs) ghost witness FT.EMPTY_FS

  /** A path into a filesystem. */
  datatype FSPath = FSPath(fs: Filesystem, path: FT.Path, isDir: bool)

  datatype Binding = Binding(symbol: string, value: Value)

  /** A scope as eachShadow walks it: each symbol on the way, with the value Get finds for it.
      A symbol that several scopes bind comes up again. */
  type Walk = seq<Binding>

  datatype OptScope = NoScope | SomeScope(walk: Walk)

  datatype Value =
    | Null
    | Bool(b: bool)
    | Int(i: int)
    | Str(s: string)
    | SecretValue(secret: Secret)
    | Empty
    | Pair(a: Value, d: Value)
    | Cons(a: Value, d: Value)
    | Scope(walk: Walk)
    | FilePathValue(file: FilePath)
    | DirPathValue(dir: DirPath)
    | HostPathValue(host: HostPath)
    | CachePathValue(cache: CachePath)
    | FSPathValue(fsPath: FSPath)
    | ThunkValue(thunk: Thunk)
    | ThunkPathValue(thunkPath: ThunkPath)
    | CommandPath(command: string)
    | ThunkAddrValue(addr: ThunkAddr)
    | Annotated(value: Value)
    | Unmarshallable

  datatype ThunkPath = ThunkPath(thunk: Thunk, path: FileOrDirPath)
  datatype ThunkAddr = ThunkAddr(thunk: Thunk, port: string, format: string)
  datatype ImageRef = ImageRef(
    static_: string, addr: Option<ThunkAddr>, platform: Platform, tag: string, digest: string)
  datatype ImageBuildInput = ImageBuildInput(thunk: Option<ThunkPath>, host: Option<HostPath>, fs: Option<FSPath>)
  datatype ImageArchive = ImageArchive(file: ImageBuildInput, platform: Platform, tag: string)
  datatype ImageDockerBuild = ImageDockerBuild(
    platform: Platform, context: ImageBuildInput, dockerfile: Option<FilePath>, target: string, args: OptScope)
  datatype ThunkImage = ThunkImage(
    ref: Option<ImageRef>, archive: Option<ImageArchive>, thunk: Option<Thunk>, dockerBuild: Option<ImageDockerBuild>)
  datatype ThunkDir = ThunkDir(dir: Option<DirPath>, thunkDir: Option<ThunkPath>, hostDir: Option<HostPath>)
  datatype ThunkMountSource = ThunkMountSource(
    thunkPath: Option<ThunkPath>, hostPath: Option<HostPath>, fsPath: Option<FSPath>,
    cache: Option<CachePath>, secret: Option<Secret>)
  datatype ThunkMount = ThunkMount(source: ThunkMountSource, target: FileOrDirPath)

  datatype Thunk = Thunk(
    image: Option<ThunkImage>, insecure: bool, args: seq<Value>, useEntrypoint: bool, stdin: seq<Value>,
    env: OptScope, dir: Option<ThunkDir>, mounts: seq<ThunkMount>, labels: OptScope,
    ports: seq<ThunkPort>, tls: Option<ThunkTLS>,
    entrypoint: seq<string>, clearEntrypoint: bool, defaultArgs: seq<string>, clearDefaultArgs: bool)

  // ---- Messages, after proto/bass.proto

  /** A directory tree as FSPath.MarshalProto makes it. */
  type LogicalTree = t: FT.Tree | FT.Logical(t) ghost witness FT.Dir(".", [])

  datatype PFilesystemPath = PFile(path: string) | PDir(path: string, including: seq<string>, excluding: seq<string>)
  datatype PHostPath = PHostPath(context: string, path: PFilesystemPath)
  datatype PCachePath = PCachePath(id: string, path: PFilesystemPath, concurrency: int)
  datatype PBinding = PBinding(symbol: string, value: PValue)
  datatype PBuildArg = PBuildArg(name: string, value: string)

  datatype PValue =
    | PNull
    | PBool(b: bool)
    | PInt(i: int)
    | PString(s: string)
    | PSecret(name: string)
    | PArray(values: seq<PValue>)
    | PObject(bindings: seq<PBinding>)
    | PFilePath(path: string)
    | PDirPath(path: string, including: seq<string>, excluding: seq<string>)
    | PHost(host: PHostPath)
    | PCache(cache: PCachePath)
    | PLogical(tree: LogicalTree)
    | PThunkMsg(thunk: PThunk)
    | PThunkPathMsg(thunkPath: PThunkPath)
    | PCommandPath(name: string)
    | PThunkAddrMsg(addr: PThunkAddr)

  datatype PThunkPath = PThunkPath(thunk: PThunk, path: PFilesystemPath)
  datatype PThunkAddr = PThunkAddr(thunk: PThunk, port: string, format: string)

  /** The sources of an image reference; releases before 0.10.0 sent a thunk path. */
  datatype PImageSource =
    | PRepository(repository: string)
    | PLegacyFile(file: PThunkPath)
    | PAddr(addr: PThunkAddr)
    | PNoSource
  datatype PImageRef = PImageRef(platform: Platform, source: PImageSource, tag: Option<string>, digest: Option<string>)
  datatype PBuildInput =
    | PInputThunk(thunk: PThunkPath)
    | PInputHost(host: PHostPath)
    | PInputLogical(tree: LogicalTree)
    | PNoInput
  datatype PImageArchive = PImageArchive(platform: Platform, file: PBuildInput, tag: Option<string>)
  datatype PImageDockerBuild = PImageDockerBuild(
    platform: Platform, context: PBuildInput, dockerfile: Option<string>, target: Option<string>, args: seq<PBuildArg>)
  datatype PThunkImage =
    | PRef(ref: PImageRef)
    | PParent(thunk: PThunk)
    | PArchive(archive: PImageArchive)
    | PDockerBuild(build: PImageDockerBuild)
  datatype PThunkDir =
    | PLocal(path: string, including: seq<string>, excluding: seq<string>)
    | PDirThunk(thunk: PThunkPath)
    | PDirHost(host: PHostPath)
  datatype PMountSource =
    | PSourceThunk(thunk: PThunkPath)
    | PSourceHost(host: PHostPath)
    | PSourceLogical(tree: LogicalTree)
    | PSourceCache(cache: PCachePath)
    | PSourceSecret(name: string)
  datatype PThunkMount = PThunkMount(source: PMountSource, target: PFilesystemPath)

  datatype PThunk = PThunk(
    image: Option<PThunkImage>, insecure: bool, args: seq<PValue>, useEntrypoint: bool, stdin: seq<PValue>,
    env: seq<PBinding>, dir: Option<PThunkDir>, mounts: seq<PThunkMount>, labels: seq<PBinding>,
    ports: seq<ThunkPort>, tls: Option<ThunkTLS>,
    entrypoint: seq<string>, clearEntrypoint: bool, defaultArgs: seq<string>, clearDefaultArgs: bool)
}
