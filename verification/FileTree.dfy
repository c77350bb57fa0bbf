/** Logical paths of pkg/bass/fspath.go and pkg/bass/proto.go: a directory tree is loaded into
    an in-memory filesystem, a flat map from paths to contents, and marshalled back by
    listing directories.  Paths are sequences of components; the empty one is ".".

    What comes back is the tree without its empty directories. */
module FileTree {
  import opened Options
  import opened Ordering

  type Path = seq<string>

  /** Files by path, and the directories that exist besides the root. */
  datatype FS = FS(files: map<Path, string>, dirs: set<Path>)

  const EMPTY_FS := FS(map[], {})

  datatype Tree = File(name: string, content: string) | Dir(name: string, entries: seq<Tree>)

  function Base(p: Path): string {
    if p == [] then "." else p[|p| - 1]
  }

  /** path.Join of a parent with a single component. */
  function Join(parent: Path, name: string): Path {
    if name == "." then parent else parent + [name]
  }

  // ---- The in-memory filesystem

  function Prefixes(p: Path): set<Path> {
    if p == [] then {} else Prefixes(p[..|p| - 1]) + {p}
  }

  lemma {:induction false} PrefixesOf(p: Path, q: Path)
    ensures q in Prefixes(p) <==> q != [] && q <= p
  {
    if p != [] {
      PrefixesOf(p[..|p| - 1], q);
      assert q <= p <==> q == p || q <= p[..|p| - 1];
    }
  }

  function MkdirAll(fs: FS, p: Path): Option<FS> {
    if Prefixes(p) * fs.files.Keys != {} then None else Some(fs.(dirs := fs.dirs + Prefixes(p)))
  }

  function WriteFile(fs: FS, p: Path, content: string): Option<FS> {
    if p == [] || p in fs.dirs || !(|p| == 1 || p[..|p| - 1] in fs.dirs) then None
    else Some(fs.(files := fs.files[p := content]))
  }

  /** loadFS. */
  function LoadTree(fs: FS, parent: Path, t: Tree): Option<FS>
    decreases t, 0
  {
    match t
    case File(name, content) =>
      var made := MkdirAll(fs, parent);
      if made.None? then None else WriteFile(made.value, Join(parent, name), content)
    case Dir(name, entries) => LoadAll(fs, Join(parent, name), entries)
  }

  function LoadAll(fs: FS, sub: Path, entries: seq<Tree>): Option<FS>
    decreases entries, 1
  {
    if entries == [] then Some(fs)
    else
      var init := LoadAll(fs, sub, entries[..|entries| - 1]);
      if init.None? then None else LoadTree(init.value, sub, entries[|entries| - 1])
  }

  // ---- Marshalling: listing what is there

  function Children(fs: FS, p: Path): set<string> {
    set q | q in fs.files.Keys + fs.dirs && |q| == |p| + 1 && p <= q :: q[|p|]
  }

  lemma {:induction false} ChildIsThere(fs: FS, p: Path, name: string)
    ensures name in Children(fs, p) <==> p + [name] in fs.files.Keys + fs.dirs
  {
    if name in Children(fs, p) {
      var q :| q in fs.files.Keys + fs.dirs && |q| == |p| + 1 && p <= q && q[|p|] == name;
      assert q == p + [name];
    }
    if p + [name] in fs.files.Keys + fs.dirs {
      assert (p + [name])[|p|] == name;
    }
  }

  /** The names fs.ReadDir lists. */
  function Listing(fs: FS, p: Path): (names: seq<string>)
    ensures InOrder(names, Spelled) && Elements(names) == Children(fs, p)
  {
    SpelledIsStrictTotal();
    SortedNames(Children(fs, p), Spelled)
  }

  ghost function Under(fs: FS, p: Path): set<Path> {
    set q | q in fs.dirs + {[]} && p <= q
  }

  lemma {:induction false} UnderShrinks(fs: FS, p: Path, name: string)
    requires p == [] || p in fs.dirs
    ensures Under(fs, p + [name]) < Under(fs, p)
  {
    assert p in Under(fs, p) && p !in Under(fs, p + [name]);
  }

  /** FSPath.MarshalProto, or nothing where it returns an error. */
  function MarshalPath(fs: FS, p: Path, isDir: bool): Option<Tree>
    decreases Under(fs, p), 1, 0
  {
    if isDir then
      if p != [] && p !in fs.dirs then None
      else
        var entries := MarshalEntries(fs, p, Listing(fs, p));
        if entries.None? then None else Some(Dir(Base(p), entries.value))
    else if p in fs.files then Some(File(Base(p), fs.files[p]))
    else None
  }

  function MarshalEntries(fs: FS, p: Path, names: seq<string>): Option<seq<Tree>>
    requires p == [] || p in fs.dirs
    decreases Under(fs, p), 0, |names|
  {
    if names == [] then Some([])
    else
      var init, name := MarshalEntries(fs, p, names[..|names| - 1]), names[|names| - 1];
      UnderShrinks(fs, p, name);
      var last := MarshalPath(fs, p + [name], p + [name] in fs.dirs);
      if init.None? || last.None? then None else Some(init.value + [last.value])
  }

  // ---- Trees as they come from a filesystem

  predicate ValidName(name: string) {
    name != "" && name != "." && name != ".." && '/' !in name
  }

  function EntryNames(entries: seq<Tree>): seq<string> {
    seq(|entries|, i requires 0 <= i < |entries| => entries[i].name)
  }

  /** Entries are in order and have single-component names. */
  ghost predicate WellNamed(t: Tree) {
    t.Dir? ==>
      && InOrder(EntryNames(t.entries), Spelled)
      && forall e :: e in t.entries ==> ValidName(e.name) && WellNamed(e)
  }

  /** What is left of a tree without empty directories. */
  function Prune(t: Tree): Option<Tree> {
    match t
    case File(_, _) => Some(t)
    case Dir(name, entries) =>
      var kept := PruneAll(entries);
      if kept == [] then None else Some(Dir(name, kept))
  }

  function PruneAll(entries: seq<Tree>): seq<Tree> {
    if entries == [] then []
    else
      var last := Prune(entries[|entries| - 1]);
      PruneAll(entries[..|entries| - 1]) + if last.Some? then [last.value] else []
  }

  // ---- The filesystem shows a tree

  /** What the filesystem has at q is exactly the tree t. */
  ghost predicate Holds(fs: FS, q: Path, t: Tree)
    decreases t
  {
    match t
    case File(_, content) => q in fs.files && fs.files[q] == content && q !in fs.dirs
    case Dir(_, entries) =>
      && (q == [] || q in fs.dirs)
      && Children(fs, q) == Elements(EntryNames(entries))
      && forall e :: e in entries ==> Holds(fs, q + [e.name], e)
  }

  lemma {:induction false} HoldsIsDir(fs: FS, q: Path, t: Tree)
    requires q != [] && Holds(fs, q, t)
    ensures q in fs.dirs <==> t.Dir?
  {
  }

  lemma {:induction false} HoldsMarshals(fs: FS, q: Path, t: Tree)
    requires Holds(fs, q, t) && WellNamed(t) && t.name == Base(q)
    ensures MarshalPath(fs, q, t.Dir?) == Some(t)
    decreases t, 0
  {
    if t.Dir? {
      SpelledIsStrictTotal();
      OrderIsUnique(Listing(fs, q), EntryNames(t.entries), Spelled);
      EntriesMarshal(fs, q, t.entries);
    }
  }

  lemma {:induction false} EntriesMarshal(fs: FS, q: Path, entries: seq<Tree>)
    requires q == [] || q in fs.dirs
    requires forall e :: e in entries ==> Holds(fs, q + [e.name], e) && WellNamed(e)
    ensures MarshalEntries(fs, q, EntryNames(entries)) == Some(entries)
    decreases entries, 1
  {
    if entries != [] {
      var init, last := entries[..|entries| - 1], entries[|entries| - 1];
      assert entries == init + [last];
      EntryNamesOneMore(init, last);
      assert EntryNames(entries)[..|entries| - 1] == EntryNames(init);
      EntriesMarshal(fs, q, init);
      assert last in entries;
      HoldsIsDir(fs, q + [last.name], last);
      HoldsMarshals(fs, q + [last.name], last);
    }
  }

  ghost predicate SameAt(fs: FS, fs': FS, p: Path) {
    && (p in fs.files <==> p in fs'.files)
    && (p in fs.files ==> fs.files[p] == fs'.files[p])
    && (p in fs.dirs <==> p in fs'.dirs)
  }

  ghost predicate SameUnder(fs: FS, fs': FS, q: Path) {
    forall p: Path :: q <= p ==> SameAt(fs, fs', p)
  }

  lemma {:induction false} HoldsFrame(fs: FS, fs': FS, q: Path, t: Tree)
    requires Holds(fs, q, t) && SameUnder(fs, fs', q)
    ensures Holds(fs', q, t)
    decreases t
  {
    assert SameAt(fs, fs', q);
    if t.Dir? {
      forall name
        ensures name in Children(fs, q) <==> name in Children(fs', q)
      {
        ChildIsThere(fs, q, name);
        ChildIsThere(fs', q, name);
        assert SameAt(fs, fs', q + [name]);
      }
      forall e | e in t.entries
        ensures Holds(fs', q + [e.name], e)
      {
        forall p: Path | q + [e.name] <= p
          ensures SameAt(fs, fs', p)
        {
          assert q <= p;
        }
        HoldsFrame(fs, fs', q + [e.name], e);
      }
    }
  }

  // ---- Loading makes the filesystem show the pruned tree

  /** Nothing is at or below q. */
  ghost predicate Clear(fs: FS, q: Path) {
    forall p: Path :: q <= p ==> p !in fs.files && p !in fs.dirs
  }

  ghost predicate NoFileAbove(fs: FS, q: Path) {
    forall p: Path :: p <= q ==> p !in fs.files
  }

  /** Outside q, loading changes at most the directories above q, and those only if it made
      something. */
  ghost predicate Grown(fs: FS, fs': FS, q: Path, made: bool) {
    forall p: Path :: GrownOutside(fs, fs', q, made, p)
  }

  ghost predicate GrownOutside(fs: FS, fs': FS, q: Path, made: bool, p: Path) {
    !(q <= p) ==> GrownAt(fs, fs', p, made && p != [] && p < q)
  }

  ghost predicate GrownAt(fs: FS, fs': FS, p: Path, mkdir: bool) {
    && (p in fs'.files <==> p in fs.files)
    && (p in fs.files ==> fs'.files[p] == fs.files[p])
    && (p in fs'.dirs <==> p in fs.dirs || mkdir)
  }

  /** p is not at or below any of the entries. */
  ghost predicate Aside(q: Path, entries: seq<Tree>, p: Path) {
    forall e :: e in entries ==> !(q + [e.name] <= p)
  }

  ghost predicate GrownAll(fs: FS, fs': FS, q: Path, entries: seq<Tree>, made: bool) {
    forall p: Path :: Aside(q, entries, p) ==> GrownAt(fs, fs', p, made && p != [] && p <= q)
  }

  ghost predicate Distinct(entries: seq<Tree>) {
    forall i, j :: 0 <= i < j < |entries| ==> entries[i].name != entries[j].name
  }

  ghost predicate Loadable(fs: FS, q: Path, entries: seq<Tree>) {
    && NoFileAbove(fs, q)
    && Distinct(entries)
    && forall e :: e in entries ==> ValidName(e.name) && WellNamed(e) && Clear(fs, q + [e.name])
  }

  lemma {:induction false} LoadFileHolds(fs: FS, parent: Path, t: Tree)
    requires t.File? && ValidName(t.name)
    requires NoFileAbove(fs, parent) && Clear(fs, parent + [t.name])
    ensures var r := LoadTree(fs, parent, t);
            r.Some? && Holds(r.value, parent + [t.name], t) && Grown(fs, r.value, parent + [t.name], true)
  {
    var q := parent + [t.name];
    assert q[..|q| - 1] == parent;
    forall p
      ensures p in Prefixes(parent) <==> p != [] && p <= parent
      ensures p in Prefixes(parent) ==> p < q
      ensures p < q ==> p <= parent
    {
      PrefixesOf(parent, p);
      if p < q {
        assert p == q[..|p|] == parent[..|p|];
      }
    }
    assert q !in Prefixes(parent) && q !in fs.dirs;
    if parent != [] {
      assert parent in Prefixes(parent);
    }
  }

  lemma {:induction false} LoadTreeHolds(fs: FS, parent: Path, t: Tree)
    requires ValidName(t.name) && WellNamed(t)
    requires NoFileAbove(fs, parent) && Clear(fs, parent + [t.name])
    ensures var r := LoadTree(fs, parent, t);
            && r.Some?
            && (Prune(t).None? ==> r.value == fs)
            && (Prune(t).Some? ==> Prune(t).value.name == t.name && Holds(r.value, parent + [t.name], Prune(t).value))
            && Grown(fs, r.value, parent + [t.name], Prune(t).Some?)
    decreases t, 0
  {
    if t.File? {
      LoadFileHolds(fs, parent, t);
    } else {
      LoadDirHolds(fs, parent, t);
    }
  }

  lemma {:induction false} WellNamedDistinct(t: Tree)
    requires WellNamed(t) && t.Dir?
    ensures Distinct(t.entries)
  {
    SpelledIsStrictTotal();
    var names := EntryNames(t.entries);
    InOrderNoDuplicates(names, Spelled);
    assert forall i :: 0 <= i < |names| ==> names[i] == t.entries[i].name;
  }

  lemma {:induction false} LoadDirHolds(fs: FS, parent: Path, t: Tree)
    requires t.Dir? && ValidName(t.name) && WellNamed(t)
    requires NoFileAbove(fs, parent) && Clear(fs, parent + [t.name])
    ensures var r := LoadTree(fs, parent, t);
            && r.Some?
            && (Prune(t).None? ==> r.value == fs)
            && (Prune(t).Some? ==> Holds(r.value, parent + [t.name], Prune(t).value))
            && Grown(fs, r.value, parent + [t.name], Prune(t).Some?)
    decreases t.entries, 2
  {
    var q := parent + [t.name];
    WellNamedDistinct(t);
    forall p: Path | p <= q
      ensures p !in fs.files
    {
      if p == q {
        assert q <= q;
      } else {
        assert p == q[..|p|] == parent[..|p|];
      }
    }
    forall e | e in t.entries
      ensures Clear(fs, q + [e.name])
    {
      forall p: Path | q + [e.name] <= p
        ensures p !in fs.files && p !in fs.dirs
      {
        assert q <= p;
      }
    }
    LoadAllHolds(fs, q, t.entries);
    var fs' := LoadAll(fs, q, t.entries).value;
    DirGrown(fs, fs', q, t.entries);
    if PruneAll(t.entries) != [] {
      DirHolds(fs, fs', q, t.entries);
    }
  }

  /** Being aside of a directory is being aside of its entries. */
  lemma {:induction false} DirGrown(fs: FS, fs': FS, q: Path, entries: seq<Tree>)
    requires GrownAll(fs, fs', q, entries, PruneAll(entries) != [])
    ensures Grown(fs, fs', q, PruneAll(entries) != [])
  {
    var made := PruneAll(entries) != [];
    forall p: Path
      ensures GrownOutside(fs, fs', q, made, p)
    {
      forall e | e in entries
        ensures q + [e.name] <= p ==> q <= p
      {
        EntryIsBelow(q, e.name, p);
      }
      assert !(q <= p) ==> Aside(q, entries, p);
    }
  }

  lemma {:induction false} EntryIsBelow(q: Path, name: string, p: Path)
    ensures q + [name] <= p ==> q <= p && p[|q|] == name
  {
    assert q + [name] <= p ==> (q + [name])[|q|] == p[|q|];
  }

  ghost predicate Loaded(fs: FS, fs': FS, q: Path, entries: seq<Tree>) {
    && (PruneAll(entries) == [] ==> fs' == fs)
    && (forall e :: e in PruneAll(entries) ==> Holds(fs', q + [e.name], e))
    && (forall e :: e in entries && Prune(e).None? ==> Clear(fs', q + [e.name]))
    && GrownAll(fs, fs', q, entries, PruneAll(entries) != [])
  }

  lemma {:induction false} PruneAllFrom(entries: seq<Tree>, e: Tree)
    ensures e in PruneAll(entries) <==> exists o :: o in entries && Prune(o) == Some(e)
  {
    if entries != [] {
      var init, last := entries[..|entries| - 1], entries[|entries| - 1];
      PruneAllFrom(init, e);
      assert entries == init + [last];
      assert last in entries;
    }
  }

  lemma {:induction false} PruneKeepsName(t: Tree)
    ensures Prune(t).Some? ==> Prune(t).value.name == t.name && Prune(t).value.Dir? == t.Dir?
  {
  }

  lemma {:induction false} DirHolds(fs: FS, fs': FS, q: Path, entries: seq<Tree>)
    requires Clear(fs, q) && Loaded(fs, fs', q, entries) && PruneAll(entries) != []
    requires forall e :: e in entries ==> ValidName(e.name)
    requires q != []
    ensures forall name :: Holds(fs', q, Dir(name, PruneAll(entries)))
  {
    var kept := PruneAll(entries);
    assert q in fs'.dirs by {
      assert Aside(q, entries, q);
    }
    ChildrenAreKept(fs, fs', q, entries);
  }

  lemma {:induction false} KeptName(entries: seq<Tree>, o: Tree)
    requires o in entries
    ensures Prune(o).Some? ==> o.name in Elements(EntryNames(PruneAll(entries)))
  {
    if Prune(o).Some? {
      var kept := PruneAll(entries);
      PruneKeepsName(o);
      PruneAllFrom(entries, Prune(o).value);
      var i :| 0 <= i < |kept| && kept[i] == Prune(o).value;
      assert EntryNames(kept)[i] == o.name;
    }
  }

  lemma {:induction false} ChildrenAreKept(fs: FS, fs': FS, q: Path, entries: seq<Tree>)
    requires Clear(fs, q) || (q == [] && fs == EMPTY_FS)
    requires Loaded(fs, fs', q, entries)
    ensures Children(fs', q) == Elements(EntryNames(PruneAll(entries)))
  {
    var kept := PruneAll(entries);
    var names := EntryNames(kept);
    forall name
      ensures name in Children(fs', q) <==> name in Elements(names)
    {
      ChildIsThere(fs', q, name);
      var p := q + [name];
      if name in Elements(names) {
        var i :| 0 <= i < |names| && names[i] == name;
        assert kept[i] in kept && Holds(fs', q + [kept[i].name], kept[i]);
      } else if o :| o in entries && o.name == name {
        KeptName(entries, o);
        assert Clear(fs', p) && p <= p;
      } else {
        assert Aside(q, entries, p) by {
          forall e | e in entries
            ensures !(q + [e.name] <= p)
          {
            assert (q + [e.name])[|q|] != p[|q|];
          }
        }
        assert q <= p;
      }
    }
  }

  lemma {:induction false} LoadAllHolds(fs: FS, q: Path, entries: seq<Tree>)
    requires Loadable(fs, q, entries)
    ensures LoadAll(fs, q, entries).Some?
    ensures Loaded(fs, LoadAll(fs, q, entries).value, q, entries)
    decreases entries, 1
  {
    if entries != [] {
      var init, last := entries[..|entries| - 1], entries[|entries| - 1];
      assert last in entries && entries == init + [last];
      LoadAllHolds(fs, q, init);
      var fs1 := LoadAll(fs, q, init).value;
      LastStillClear(fs, fs1, q, init, last);
      LoadTreeHolds(fs1, q, last);
      LastLoaded(fs, fs1, LoadTree(fs1, q, last).value, q, init, last);
    }
  }

  lemma {:induction false} SiblingsApart(q: Path, a: string, b: string, p: Path)
    requires a != b && q + [a] <= p
    ensures !(q + [b] <= p)
  {
    EntryIsBelow(q, a, p);
    EntryIsBelow(q, b, p);
  }

  /** Loading the entries before it leaves the place of the last one alone. */
  lemma {:induction false} LastStillClear(fs: FS, fs1: FS, q: Path, init: seq<Tree>, last: Tree)
    requires Loadable(fs, q, init + [last]) && Loaded(fs, fs1, q, init)
    ensures Clear(fs1, q + [last.name]) && NoFileAbove(fs1, q)
  {
    assert last in init + [last];
    assert (init + [last])[|init|] == last;
    assert forall i :: 0 <= i < |init| ==> (init + [last])[i] == init[i];
    forall p: Path | q + [last.name] <= p
      ensures p !in fs1.files && p !in fs1.dirs
    {
      forall e | e in init
        ensures !(q + [e.name] <= p)
      {
        SiblingsApart(q, last.name, e.name, p);
      }
      assert Aside(q, init, p);
    }
    forall p: Path | p <= q
      ensures p !in fs1.files
    {
      assert Aside(q, init, p);
    }
  }

  /** Loading the last entry adds to what the entries before it left. */
  lemma {:induction false} LastLoaded(fs: FS, fs1: FS, fs2: FS, q: Path, init: seq<Tree>, last: Tree)
    requires Loadable(fs, q, init + [last]) && Loaded(fs, fs1, q, init)
    requires Prune(last).None? ==> fs2 == fs1
    requires Prune(last).Some? ==> Prune(last).value.name == last.name && Holds(fs2, q + [last.name], Prune(last).value)
    requires Grown(fs1, fs2, q + [last.name], Prune(last).Some?)
    requires Clear(fs1, q + [last.name])
    ensures Loaded(fs, fs2, q, init + [last])
  {
    var all := init + [last];
    assert all[..|all| - 1] == init && all[|all| - 1] == last && last in all;
    assert forall i :: 0 <= i < |init| ==> all[i] == init[i];
    forall e | e in init
      ensures SameUnder(fs1, fs2, q + [e.name])
    {
      var i :| 0 <= i < |init| && init[i] == e;
      assert all[i].name != all[|init|].name;
      forall p: Path | q + [e.name] <= p
        ensures SameAt(fs1, fs2, p)
      {
        SiblingsApart(q, e.name, last.name, p);
        assert !(p < q + [last.name]);
        assert GrownOutside(fs1, fs2, q + [last.name], Prune(last).Some?, p);
      }
    }
    forall e | e in PruneAll(all)
      ensures Holds(fs2, q + [e.name], e)
    {
      if e in PruneAll(init) {
        PruneAllFrom(init, e);
        var o :| o in init && Prune(o) == Some(e);
        PruneKeepsName(o);
        HoldsFrame(fs1, fs2, q + [e.name], e);
      }
    }
    forall e | e in all && Prune(e).None?
      ensures Clear(fs2, q + [e.name])
    {
      if e in init {
        forall p: Path | q + [e.name] <= p
          ensures p !in fs2.files && p !in fs2.dirs
        {
          assert SameAt(fs1, fs2, p);
        }
      }
    }
    forall p: Path | Aside(q, all, p)
      ensures GrownAt(fs, fs2, p, PruneAll(all) != [] && p != [] && p <= q)
    {
      assert Aside(q, init, p) && !(q + [last.name] <= p);
      assert GrownOutside(fs1, fs2, q + [last.name], Prune(last).Some?, p);
      assert p < q + [last.name] <==> p <= q by {
        if p < q + [last.name] {
          assert p == (q + [last.name])[..|p|] == q[..|p|];
        }
      }
    }
  }

  // ---- The round trip

  /** FSPath.UnmarshalProto and then MarshalProto: load the tree into an empty filesystem and
      marshal its top path. */
  ghost function Remarshal(t: Tree): Option<Tree> {
    var fs := LoadTree(EMPTY_FS, [], t);
    if fs.None? then None else MarshalPath(fs.value, Join([], t.name), t.Dir?)
  }

  /** The root of a filesystem, named ".", exists even when it is empty. */
  function PruneTop(t: Tree): Option<Tree> {
    if t.Dir? && t.name == "." then Some(Dir(".", PruneAll(t.entries))) else Prune(t)
  }

  predicate NoEmptyDir(t: Tree) {
    t.Dir? ==> t.entries != [] && forall e :: e in t.entries ==> NoEmptyDir(e)
  }

  /** Every directory below the top has an entry, and so has the top unless it is the root. */
  predicate Full(t: Tree) {
    if t.Dir? && t.name == "." then forall e :: e in t.entries ==> NoEmptyDir(e) else NoEmptyDir(t)
  }

  ghost predicate Logical(t: Tree) {
    WellNamed(t) && (ValidName(t.name) || (t.Dir? && t.name == "."))
  }

  lemma {:induction false} PruneWellNamed(t: Tree)
    requires WellNamed(t)
    ensures Prune(t).Some? ==> WellNamed(Prune(t).value)
    ensures t.Dir? ==> forall name :: WellNamed(Dir(name, PruneAll(t.entries)))
    decreases t, 0
  {
    if t.Dir? {
      PruneAllWellNamed(t.entries);
    }
  }

  lemma {:induction false} PruneAllWellNamed(entries: seq<Tree>)
    requires InOrder(EntryNames(entries), Spelled)
    requires forall e :: e in entries ==> ValidName(e.name) && WellNamed(e)
    ensures InOrder(EntryNames(PruneAll(entries)), Spelled)
    ensures forall e :: e in PruneAll(entries) ==> ValidName(e.name) && WellNamed(e)
    decreases entries, 1
  {
    if entries != [] {
      var init, last := entries[..|entries| - 1], entries[|entries| - 1];
      assert entries == init + [last] && last in entries;
      assert EntryNames(init) == EntryNames(entries)[..|init|];
      PruneAllWellNamed(init);
      PruneWellNamed(last);
      PruneKeepsName(last);
      if Prune(last).Some? {
        KeptInOrder(init, last, Prune(last).value);
      } else {
        assert PruneAll(init) + [] == PruneAll(init);
      }
    }
  }

  lemma {:induction false} KeptInOrder(init: seq<Tree>, last: Tree, t: Tree)
    requires InOrder(EntryNames(init + [last]), Spelled) && InOrder(EntryNames(PruneAll(init)), Spelled)
    requires t.name == last.name
    ensures InOrder(EntryNames(PruneAll(init) + [t]), Spelled)
  {
    var kept, all := PruneAll(init), EntryNames(init + [last]);
    assert EntryNames(kept + [t]) == EntryNames(kept) + [last.name];
    forall i | 0 <= i < |kept|
      ensures Spelled(EntryNames(kept)[i], last.name)
    {
      assert kept[i] in kept;
      PruneAllFrom(init, kept[i]);
      var o :| o in init && Prune(o) == Some(kept[i]);
      PruneKeepsName(o);
      var j :| 0 <= j < |init| && init[j] == o;
      assert all[j] == o.name && all[|init|] == last.name;
    }
  }

  lemma {:induction false} PruneOfFull(t: Tree)
    ensures Prune(t) == Some(t) <==> NoEmptyDir(t)
    decreases t, 0
  {
    if t.Dir? {
      PruneAllOfFull(t.entries);
    }
  }

  lemma {:induction false} PruneAllOfFull(entries: seq<Tree>)
    ensures |PruneAll(entries)| <= |entries|
    ensures PruneAll(entries) == entries <==> forall e :: e in entries ==> NoEmptyDir(e)
    decreases entries, 1
  {
    if entries != [] {
      var init, last := entries[..|entries| - 1], entries[|entries| - 1];
      assert entries == init + [last];
      PruneAllOfFull(init);
      PruneOfFull(last);
      if PruneAll(entries) == entries {
        assert Prune(last).Some?;
        assert PruneAll(entries)[..|init|] == PruneAll(init);
      }
    }
  }

  /** Unmarshalling a tree and marshalling it back gives the tree without its empty
      directories. */
  lemma {:induction false} RemarshalPrunes(t: Tree)
    requires Logical(t)
    ensures Remarshal(t) == PruneTop(t)
  {
    PruneWellNamed(t);
    if t.Dir? && t.name == "." {
      WellNamedDistinct(t);
      LoadAllHolds(EMPTY_FS, [], t.entries);
      var fs := LoadAll(EMPTY_FS, [], t.entries).value;
      ChildrenAreKept(EMPTY_FS, fs, [], t.entries);
      HoldsMarshals(fs, [], Dir(".", PruneAll(t.entries)));
    } else {
      LoadTreeHolds(EMPTY_FS, [], t);
      var fs := LoadTree(EMPTY_FS, [], t).value;
      if Prune(t).Some? {
        PruneKeepsName(t);
        assert [] + [t.name] == [t.name];
        HoldsMarshals(fs, [t.name], Prune(t).value);
      }
    }
  }

  /** The round trip gives back the same tree exactly when no directory of it is empty. */
  lemma {:induction false} RoundTrip(t: Tree)
    requires Logical(t)
    ensures Remarshal(t) == Some(t) <==> Full(t)
  {
    RemarshalPrunes(t);
    if t.Dir? && t.name == "." {
      PruneAllOfFull(t.entries);
    } else {
      PruneOfFull(t);
    }
  }

  lemma {:induction false} PruneLeavesNoEmptyDir(t: Tree)
    ensures Prune(t).Some? ==> NoEmptyDir(Prune(t).value)
    decreases t, 0
  {
    if t.Dir? {
      PruneAllLeavesNoEmptyDir(t.entries);
    }
  }

  lemma {:induction false} PruneAllLeavesNoEmptyDir(entries: seq<Tree>)
    ensures forall e :: e in PruneAll(entries) ==> NoEmptyDir(e)
    decreases entries, 1
  {
    if entries != [] {
      PruneAllLeavesNoEmptyDir(entries[..|entries| - 1]);
      PruneLeavesNoEmptyDir(entries[|entries| - 1]);
    }
  }

  /** What came back once comes back unchanged. */
  lemma {:induction false} RemarshalIsFull(t: Tree)
    requires Logical(t)
    ensures Remarshal(t).Some? ==> Full(Remarshal(t).value)
  {
    RemarshalPrunes(t);
    if t.Dir? && t.name == "." {
      PruneAllLeavesNoEmptyDir(t.entries);
    } else {
      PruneLeavesNoEmptyDir(t);
      PruneKeepsName(t);
    }
  }

  /** A directory that is empty does not come back. */
  lemma {:induction false} EmptyDirectoryIsLost(t: Tree)
    requires t == Dir(".", [Dir("a", [])])
    ensures Logical(t) && Remarshal(t) == Some(Dir(".", [])) && Remarshal(t) != Some(t)
  {
    assert WellNamed(t.entries[0]);
    RemarshalPrunes(t);
    assert t.entries[..0] == [];
    assert PruneAll(t.entries) == [];
  }

  // ---- What a filesystem marshals to

  /** The root is no file, and every component of every path is a single name. */
  ghost predicate ValidFS(fs: FS) {
    && [] !in fs.files
    && forall p, i :: p in fs.files.Keys + fs.dirs && 0 <= i < |p| ==> ValidName(p[i])
  }

  lemma {:induction false} MarshalledIsLogical(fs: FS, p: Path, isDir: bool)
    requires ValidFS(fs) && MarshalPath(fs, p, isDir).Some?
    ensures var t := MarshalPath(fs, p, isDir).value;
            Logical(t) && t.name == Base(p) && t.Dir? == isDir
    decreases Under(fs, p), 1, 0
  {
    if isDir {
      EntriesAreLogical(fs, p, Listing(fs, p));
    }
    if p != [] {
      assert p in fs.files.Keys + fs.dirs && ValidName(p[|p| - 1]);
    }
  }

  lemma {:induction false} EntryNamesOneMore(entries: seq<Tree>, t: Tree)
    ensures EntryNames(entries + [t]) == EntryNames(entries) + [t.name]
  {
  }

  lemma {:induction false} EntriesAreLogical(fs: FS, p: Path, names: seq<string>)
    requires ValidFS(fs) && (p == [] || p in fs.dirs) && MarshalEntries(fs, p, names).Some?
    ensures var entries := MarshalEntries(fs, p, names).value;
            EntryNames(entries) == names && forall e :: e in entries ==> ValidName(e.name) && WellNamed(e)
    decreases Under(fs, p), 0, |names|
  {
    if names != [] {
      var init, name := names[..|names| - 1], names[|names| - 1];
      var q := p + [name];
      EntriesAreLogical(fs, p, init);
      UnderShrinks(fs, p, name);
      MarshalledIsLogical(fs, q, q in fs.dirs);
      assert q in fs.files.Keys + fs.dirs && ValidName(q[|p|]);
      EntryNamesOneMore(MarshalEntries(fs, p, init).value, MarshalPath(fs, q, q in fs.dirs).value);
    }
  }

  /** Marshalling fails only where there is nothing of the kind asked for. */
  lemma {:induction false} MarshalsWhatIsThere(fs: FS, p: Path, isDir: bool)
    ensures MarshalPath(fs, p, isDir).Some? <==> if isDir then p == [] || p in fs.dirs else p in fs.files
    decreases Under(fs, p), 1, 0
  {
    if isDir && (p == [] || p in fs.dirs) {
      assert forall name :: name in Listing(fs, p) ==> name in Elements(Listing(fs, p));
      AllEntriesMarshal(fs, p, Listing(fs, p));
    }
  }

  lemma {:induction false} AllEntriesMarshal(fs: FS, p: Path, names: seq<string>)
    requires (p == [] || p in fs.dirs) && forall name :: name in names ==> name in Children(fs, p)
    ensures MarshalEntries(fs, p, names).Some?
    decreases Under(fs, p), 0, |names|
  {
    if names != [] {
      var name := names[|names| - 1];
      AllEntriesMarshal(fs, p, names[..|names| - 1]);
      UnderShrinks(fs, p, name);
      ChildIsThere(fs, p, name);
      MarshalsWhatIsThere(fs, p + [name], p + [name] in fs.dirs);
    }
  }

  // ---- The files themselves

  /** The content of the file at r below p, or of p itself, as one gets to it through
      directories. */
  function FileBelow(fs: FS, p: Path, isDir: bool, r: Path): Option<string>
    decreases r
  {
    if !isDir then (if r == [] && p in fs.files then Some(fs.files[p]) else None)
    else if r == [] || (p != [] && p !in fs.dirs) then None
    else FileBelow(fs, p + [r[0]], p + [r[0]] in fs.dirs, r[1..])
  }

  /** The content of the file at r in a tree. */
  function FileIn(t: Tree, r: Path): Option<string> {
    match t
    case File(_, content) => if r == [] then Some(content) else None
    case Dir(_, entries) => if r == [] then None else FileInEntries(entries, r)
  }

  function FileInEntries(entries: seq<Tree>, r: Path): Option<string>
    requires r != []
  {
    if entries == [] then None
    else
      var last := entries[|entries| - 1];
      if last.name == r[0] then FileIn(last, r[1..]) else FileInEntries(entries[..|entries| - 1], r)
  }

  /** Marshalling a path says of every file below it that it is there, and its content. */
  lemma {:induction false} MarshalledFiles(fs: FS, p: Path, isDir: bool, r: Path)
    requires MarshalPath(fs, p, isDir).Some?
    ensures FileIn(MarshalPath(fs, p, isDir).value, r) == FileBelow(fs, p, isDir, r)
    decreases Under(fs, p), 1, 0
  {
    if isDir && r != [] {
      MarshalledEntries(fs, p, Listing(fs, p), r);
      ChildIsThere(fs, p, r[0]);
      assert r[0] in Listing(fs, p) <==> r[0] in Elements(Listing(fs, p));
      if r[0] !in Listing(fs, p) {
        assert FileBelow(fs, p + [r[0]], false, r[1..]).None?;
      }
    }
  }

  lemma {:induction false} MarshalledEntries(fs: FS, p: Path, names: seq<string>, r: Path)
    requires (p == [] || p in fs.dirs) && r != [] && MarshalEntries(fs, p, names).Some?
    ensures FileInEntries(MarshalEntries(fs, p, names).value, r)
            == if r[0] in names then FileBelow(fs, p + [r[0]], p + [r[0]] in fs.dirs, r[1..]) else None
    decreases Under(fs, p), 0, |names|
  {
    if names != [] {
      var init, name := names[..|names| - 1], names[|names| - 1];
      var q := p + [name];
      UnderShrinks(fs, p, name);
      MarshalledEntries(fs, p, init, r);
      MarshalledFiles(fs, q, q in fs.dirs, r[1..]);
      MarshalledName(fs, q);
      FileInOneMore(MarshalEntries(fs, p, init).value, MarshalPath(fs, q, q in fs.dirs).value, r);
      assert names == init + [name];
    }
  }

  lemma {:induction false} FileInOneMore(init: seq<Tree>, last: Tree, r: Path)
    requires r != []
    ensures FileInEntries(init + [last], r)
            == if last.name == r[0] then FileIn(last, r[1..]) else FileInEntries(init, r)
  {
    assert (init + [last])[..|init|] == init;
  }

  lemma {:induction false} MarshalledName(fs: FS, q: Path)
    requires q != [] && MarshalPath(fs, q, q in fs.dirs).Some?
    ensures MarshalPath(fs, q, q in fs.dirs).value.name == q[|q| - 1]
  {
  }

  lemma {:induction false} PruneKeepsFiles(t: Tree, r: Path)
    requires WellNamed(t)
    ensures Prune(t).Some? ==> FileIn(Prune(t).value, r) == FileIn(t, r)
    ensures Prune(t).None? ==> FileIn(t, r).None?
    decreases t, 0
  {
    if t.Dir? && r != [] {
      WellNamedDistinct(t);
      PruneAllKeepsFiles(t.entries, r);
    }
  }

  lemma {:induction false} PruneAllKeepsFiles(entries: seq<Tree>, r: Path)
    requires r != [] && Distinct(entries) && forall e :: e in entries ==> WellNamed(e)
    ensures FileInEntries(PruneAll(entries), r) == FileInEntries(entries, r)
    decreases entries, 1
  {
    if entries != [] {
      var init, last := entries[..|entries| - 1], entries[|entries| - 1];
      PruneAllKeepsFiles(init, r);
      PruneKeepsFiles(last, r[1..]);
      PruneKeepsName(last);
      if Prune(last).Some? {
        assert PruneAll(entries)[..|PruneAll(init)|] == PruneAll(init);
      } else {
        assert PruneAll(entries) == PruneAll(init);
        if last.name == r[0] {
          NotAmong(init, r);
        }
      }
    }
  }

  lemma {:induction false} NotAmong(entries: seq<Tree>, r: Path)
    requires r != [] && forall e :: e in entries ==> e.name != r[0]
    ensures FileInEntries(entries, r).None?
    decreases |entries|
  {
    if entries != [] {
      NotAmong(entries[..|entries| - 1], r);
    }
  }

  /** What a tree says of every file is so in the filesystem it is loaded into, and nothing
      else is there. */
  lemma {:induction false} LoadedFiles(t: Tree, r: Path)
    requires Logical(t)
    ensures LoadTree(EMPTY_FS, [], t).Some?
    ensures FileBelow(LoadTree(EMPTY_FS, [], t).value, Join([], t.name), t.Dir?, r) == FileIn(t, r)
  {
    LogicalTreeLoads(t);
    RemarshalPrunes(t);
    var fs := LoadTree(EMPTY_FS, [], t).value;
    if Remarshal(t).Some? {
      MarshalledFiles(fs, Join([], t.name), t.Dir?, r);
    }
    if t.Dir? && t.name == "." {
      WellNamedDistinct(t);
      if r != [] {
        PruneAllKeepsFiles(t.entries, r);
      }
    } else {
      PruneKeepsFiles(t, r);
      LoadTreeHolds(EMPTY_FS, [], t);
    }
  }

  predicate ValidPath(p: Path) {
    forall i :: 0 <= i < |p| ==> ValidName(p[i])
  }

  lemma {:induction false} LoadTreeKeepsValid(fs: FS, parent: Path, t: Tree)
    requires ValidFS(fs) && ValidPath(parent) && WellNamed(t) && LoadTree(fs, parent, t).Some?
    requires ValidName(t.name) || (t.Dir? && t.name == ".")
    ensures ValidFS(LoadTree(fs, parent, t).value)
    decreases t, 0
  {
    if t.Dir? {
      LoadAllKeepsValid(fs, Join(parent, t.name), t.entries);
    } else {
      forall p | p in Prefixes(parent)
        ensures ValidPath(p)
      {
        PrefixesOf(parent, p);
      }
    }
  }

  lemma {:induction false} LoadAllKeepsValid(fs: FS, sub: Path, entries: seq<Tree>)
    requires ValidFS(fs) && ValidPath(sub) && LoadAll(fs, sub, entries).Some?
    requires forall e :: e in entries ==> ValidName(e.name) && WellNamed(e)
    ensures ValidFS(LoadAll(fs, sub, entries).value)
    decreases entries, 1
  {
    if entries != [] {
      var init, last := entries[..|entries| - 1], entries[|entries| - 1];
      LoadAllKeepsValid(fs, sub, init);
      LoadTreeKeepsValid(LoadAll(fs, sub, init).value, sub, last);
    }
  }

  /** A logical tree always loads, into a filesystem Go's io/fs admits. */
  lemma {:induction false} LogicalTreeLoads(t: Tree)
    requires Logical(t)
    ensures LoadTree(EMPTY_FS, [], t).Some? && ValidFS(LoadTree(EMPTY_FS, [], t).value)
  {
    if t.Dir? && t.name == "." {
      WellNamedDistinct(t);
      LoadAllHolds(EMPTY_FS, [], t.entries);
    } else {
      LoadTreeHolds(EMPTY_FS, [], t);
    }
    LoadTreeKeepsValid(EMPTY_FS, [], t);
  }

  // ---- The operations as the source runs them

  class MemFS {
    var files: map<Path, string>
    var dirs: set<Path>

    ghost function Content(): FS
      reads this
    {
      FS(files, dirs)
    }

    constructor ()
      ensures Content() == EMPTY_FS
    {
      files, dirs := map[], {};
    }

    /** loadFS; false where the source returns an error. */
    method Load(parent: Path, t: Tree) returns (ok: bool)
      modifies this
      ensures ok <==> LoadTree(old(Content()), parent, t).Some?
      ensures ok ==> LoadTree(old(Content()), parent, t) == Some(Content())
      decreases t
    {
      match t
      case File(name, content) =>
        var made := MkdirAll(FS(files, dirs), parent);
        if made.None? {
          return false;
        }
        dirs := made.value.dirs;
        var written := WriteFile(FS(files, dirs), Join(parent, name), content);
        if written.None? {
          return false;
        }
        files := written.value.files;
        return true;
      case Dir(name, entries) =>
        var sub := Join(parent, name);
        for i := 0 to |entries|
          invariant LoadAll(old(Content()), sub, entries[..i]) == Some(Content())
        {
          assert entries[..i + 1][..i] == entries[..i];
          ok := Load(sub, entries[i]);
          if !ok {
            LoadAllStops(old(Content()), sub, entries, i + 1);
            return false;
          }
        }
        assert entries[..|entries|] == entries;
        return true;
    }
  }

  lemma {:induction false} LoadAllStops(fs: FS, sub: Path, entries: seq<Tree>, i: nat)
    requires i <= |entries| && LoadAll(fs, sub, entries[..i]).None?
    ensures LoadAll(fs, sub, entries).None?
    decreases |entries| - i
  {
    if i < |entries| {
      assert entries[..i + 1][..i] == entries[..i];
      LoadAllStops(fs, sub, entries, i + 1);
    } else {
      assert entries[..i] == entries;
    }
  }

  /** fs.ReadDir: the names in a directory, sorted. */
  method ReadDir(fs: FS, p: Path) returns (names: seq<string>)
    ensures names == Listing(fs, p)
  {
    var left := set q | q in fs.files.Keys + fs.dirs && |q| == |p| + 1 && p <= q :: q[|p|];
    ghost var all := left;
    var found: seq<(string, ())> := [];
    while left != {}
      invariant left <= all && Elements(Names(found)) == all - left && NoDuplicates(Names(found))
      decreases left
    {
      var name :| name in left;
      NamesOneMore(found, (name, ()));
      assert name !in Names(found) by {
        assert name !in Elements(Names(found));
      }
      found := found + [(name, ())];
      left := left - {name};
    }
    SpelledIsStrictTotal();
    found := Sort(found, Spelled);
    names := Names(found);
    OrderIsUnique(names, Listing(fs, p), Spelled);
  }

  lemma {:induction false} OneMoreEntry(fs: FS, p: Path, names: seq<string>, i: nat)
    requires (p == [] || p in fs.dirs) && i < |names|
    ensures var child := p + [names[i]];
            var init, last := MarshalEntries(fs, p, names[..i]), MarshalPath(fs, child, child in fs.dirs);
            MarshalEntries(fs, p, names[..i + 1])
            == if init.None? || last.None? then None else Some(init.value + [last.value])
  {
    assert names[..i + 1][..i] == names[..i];
  }

  /** FSPath.MarshalProto. */
  method MarshalProto(fs: FS, p: Path, isDir: bool) returns (r: Option<Tree>)
    ensures r == MarshalPath(fs, p, isDir)
    decreases Under(fs, p)
  {
    if !isDir {
      return if p in fs.files then Some(File(Base(p), fs.files[p])) else None;
    }
    if p != [] && p !in fs.dirs {
      return None;
    }
    var names := ReadDir(fs, p);
    var entries: seq<Tree> := [];
    for i := 0 to |names|
      invariant MarshalEntries(fs, p, names[..i]) == Some(entries)
    {
      OneMoreEntry(fs, p, names, i);
      UnderShrinks(fs, p, names[i]);
      var sub := MarshalProto(fs, p + [names[i]], p + [names[i]] in fs.dirs);
      if sub.None? {
        EntriesStop(fs, p, names, i + 1);
        return None;
      }
      entries := entries + [sub.value];
    }
    assert names[..|names|] == names;
    return Some(Dir(Base(p), entries));
  }

  lemma {:induction false} EntriesStop(fs: FS, p: Path, names: seq<string>, i: nat)
    requires p == [] || p in fs.dirs
    requires i <= |names| && MarshalEntries(fs, p, names[..i]).None?
    ensures MarshalEntries(fs, p, names).None?
    decreases |names| - i
  {
    if i < |names| {
      assert names[..i + 1][..i] == names[..i];
      EntriesStop(fs, p, names, i + 1);
    } else {
      assert names[..i] == names;
    }
  }
}
