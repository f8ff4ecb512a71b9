/**
 Saving a directory tree to an archive and restoring it (internal/persistence/persistence.go).

 An archive is the sequence of its tar entries; the byte formats of tar and zstd are not modelled. A
 destination directory is a map from relative paths to objects.
 */
module Archive {
  import opened Results

  type Byte = b: int | 0 <= b < 256

  /** The nine permission bits. */
  type Mode = m: int | 0 <= m < 0x200

  type Path = seq<string>

  // ---------- Names and paths ----------

  predicate IsName(s: string) {
    s != "" && s != "." && s != ".." && '/' !in s
  }

  predicate IsPath(p: Path) {
    forall i :: 0 <= i < |p| ==> IsName(p[i])
  }

  /** The entry name of a relative path: its components joined by slashes. */
  function Join(p: Path): string
    requires p != []
  {
    if |p| == 1 then p[0] else p[0] + "/" + Join(p[1..])
  }

  function Split(s: string): (parts: seq<string>)
    ensures |parts| > 0
  {
    if s == "" then [""]
    else PutFirst(s[0], Split(s[1..]))
  }

  /** A character in front of a text that splits into the given parts. */
  function PutFirst(c: char, parts: seq<string>): (all: seq<string>)
    requires |parts| > 0
    ensures |all| > 0
  {
    if c == '/' then [""] + parts else [[c] + parts[0]] + parts[1..]
  }

  lemma PutFirstBoth(c: char, first: seq<string>, second: seq<string>)
    requires |first| > 0
    ensures PutFirst(c, first + second) == PutFirst(c, first) + second
  {
    assert (first + second)[1..] == first[1..] + second;
  }

  /**
   Lexical cleaning: empty and "." components go, and ".." removes its predecessor; with none to
   remove it is dropped from a rooted path and kept in a relative one.
   */
  function Resolve(rooted: bool, parts: seq<string>, done: seq<string>): seq<string>
    decreases |parts|
  {
    if parts == [] then done
    else if parts[0] == "" || parts[0] == "." then Resolve(rooted, parts[1..], done)
    else if parts[0] == ".." && done != [] && done[|done| - 1] != ".." then
      Resolve(rooted, parts[1..], done[..|done| - 1])
    else if parts[0] == ".." && rooted then Resolve(rooted, parts[1..], done)
    else Resolve(rooted, parts[1..], done + [parts[0]])
  }

  predicate Rooted(s: string) {
    s != "" && s[0] == '/'
  }

  function Show(rooted: bool, parts: seq<string>): string {
    if rooted then "/" + (if parts == [] then "" else Join(parts))
    else if parts == [] then "." else Join(parts)
  }

  /** filepath.Clean. */
  function Clean(s: string): string {
    Show(Rooted(s), Resolve(Rooted(s), Split(s), []))
  }

  /** filepath.Join of two elements: an empty one is left out. */
  function JoinPaths(dir: string, name: string): string
    requires name != ""
  {
    Clean(if dir == "" then name else dir + "/" + name)
  }

  /** The path, relative to the destination, that Restore derives from an entry name. */
  function TargetOf(name: string): Path {
    Resolve(true, Split("/" + name), [])
  }

  /** Restore's guard against path traversal, on strings. */
  predicate Accepts(dst: string, name: string) {
    CleanIsNotEmpty("/" + name);
    Clean(dst) + "/" <= JoinPaths(dst, Clean("/" + name))
  }

  lemma CleanIsNotEmpty(s: string)
    ensures Clean(s) != ""
  {
    SplitHasNoSlash(s);
    ResolveIsClean(Rooted(s), Split(s), []);
  }

  /** A destination below which Restore can write at all. */
  predicate Usable(dst: string) {
    Clean(dst) != "/" && Clean(dst) != "."
  }

  lemma {:induction false} SplitName(n: string, rest: string)
    requires '/' !in n
    ensures Split(n) == [n]
    ensures Split(n + "/" + rest) == [n] + Split(rest)
  {
    if n == "" {
      assert ("/" + rest)[1..] == rest;
      assert n + "/" + rest == "/" + rest;
    } else {
      SplitName(n[1..], rest);
      assert (n + "/" + rest)[1..] == n[1..] + "/" + rest;
      assert [n[0]] + n[1..] == n;
    }
  }

  lemma {:induction false} SplitJoin(p: Path)
    requires p != [] && IsPath(p)
    ensures Split(Join(p)) == p
  {
    if |p| == 1 {
      SplitName(p[0], "");
    } else {
      SplitName(p[0], Join(p[1..]));
      SplitJoin(p[1..]);
    }
  }

  lemma {:induction false} SplitBoth(a: string, b: string)
    ensures Split(a + "/" + b) == Split(a) + Split(b)
  {
    if a == "" {
      assert ("/" + b)[1..] == b;
      assert a + "/" + b == "/" + b;
    } else {
      SplitBoth(a[1..], b);
      assert (a + "/" + b)[1..] == a[1..] + "/" + b;
      PutFirstBoth(a[0], Split(a[1..]), Split(b));
    }
  }

  lemma {:induction false} ResolvePlain(rooted: bool, parts: Path, done: seq<string>)
    requires IsPath(parts)
    ensures Resolve(rooted, parts, done) == done + parts
    decreases |parts|
  {
    if parts != [] {
      ResolvePlain(rooted, parts[1..], done + [parts[0]]);
      assert done + [parts[0]] + parts[1..] == done + parts;
    }
  }

  lemma {:induction false} ResolveBoth(rooted: bool, first: seq<string>, second: seq<string>, done: seq<string>)
    ensures Resolve(rooted, first + second, done) == Resolve(rooted, second, Resolve(rooted, first, done))
    decreases |first|
  {
    if first == [] {
      assert first + second == second;
    } else {
      assert (first + second)[1..] == first[1..] + second;
      if first[0] == "" || first[0] == "." {
        ResolveBoth(rooted, first[1..], second, done);
      } else if first[0] == ".." && done != [] && done[|done| - 1] != ".." {
        ResolveBoth(rooted, first[1..], second, done[..|done| - 1]);
      } else if first[0] == ".." && rooted {
        ResolveBoth(rooted, first[1..], second, done);
      } else {
        ResolveBoth(rooted, first[1..], second, done + [first[0]]);
      }
    }
  }

  /** What cleaning leaves: proper names, and in a relative path perhaps "..". */
  predicate IsClean(rooted: bool, parts: seq<string>) {
    forall i :: 0 <= i < |parts| ==> IsName(parts[i]) || (!rooted && parts[i] == "..")
  }

  lemma {:induction false} ResolveIsClean(rooted: bool, parts: seq<string>, done: seq<string>)
    requires IsClean(rooted, done) && forall i :: 0 <= i < |parts| ==> '/' !in parts[i]
    ensures IsClean(rooted, Resolve(rooted, parts, done))
    decreases |parts|
  {
    if parts != [] {
      if parts[0] == "" || parts[0] == "." {
        ResolveIsClean(rooted, parts[1..], done);
      } else if parts[0] == ".." && done != [] && done[|done| - 1] != ".." {
        ResolveIsClean(rooted, parts[1..], done[..|done| - 1]);
      } else if parts[0] == ".." && rooted {
        ResolveIsClean(rooted, parts[1..], done);
      } else {
        ResolveIsClean(rooted, parts[1..], done + [parts[0]]);
      }
    }
  }

  /** Path reconstruction: the entry name of a path leads back to that path. */
  lemma TargetOfJoin(p: Path)
    requires p != [] && IsPath(p)
    ensures TargetOf(Join(p)) == p
  {
    SplitJoin(p);
    SplitBoth("", Join(p));
    assert "" + "/" + Join(p) == "/" + Join(p);
    assert Split("/" + Join(p)) == [""] + p;
    assert ([""] + p)[1..] == p;
    ResolvePlain(true, p, []);
  }

  lemma {:induction false} SplitHasNoSlash(s: string)
    ensures forall i :: 0 <= i < |Split(s)| ==> '/' !in Split(s)[i]
  {
    if s != "" {
      SplitHasNoSlash(s[1..]);
    }
  }

  /** Whatever an entry is called, its target is an ordinary relative path: no "..", no "." and no slash in it. */
  lemma TargetIsPath(name: string)
    ensures IsPath(TargetOf(name))
  {
    SplitHasNoSlash("/" + name);
    ResolveIsClean(true, Split("/" + name), []);
  }

  // ---------- The guard against path traversal ----------

  lemma {:induction false} JoinBoth(p: seq<string>, q: seq<string>)
    requires p != [] && q != []
    ensures Join(p + q) == Join(p) + "/" + Join(q)
  {
    if |p| == 1 {
      assert (p + q)[1..] == q;
    } else {
      JoinBoth(p[1..], q);
      assert (p + q)[1..] == p[1..] + q;
    }
  }

  lemma JoinStartsWith(p: seq<string>)
    requires p != []
    ensures p[0] <= Join(p) && (|p| > 1 ==> p[0] + "/" <= Join(p)) && (|p| == 1 ==> Join(p) == p[0])
  {
  }

  /** The joined and cleaned target is the cleaned destination with the entry's own path behind it. */
  lemma TargetBelowDestination(dst: string, name: string)
    requires dst != ""
    ensures
      var parts := Resolve(Rooted(dst), Split(dst), []);
      Clean("/" + name) != "" && JoinPaths(dst, Clean("/" + name)) == Show(Rooted(dst), parts + TargetOf(name))
  {
    var rooted, target := Rooted(dst), TargetOf(name);
    TargetIsPath(name);
    var tail := if target == [] then "" else Join(target);
    assert Clean("/" + name) == "/" + tail;
    var whole := dst + "/" + ("/" + tail);
    SplitBoth(dst, "/" + tail);
    SplitBoth("", tail);
    assert "" + "/" + tail == "/" + tail;
    assert Split(whole) == Split(dst) + ([""] + Split(tail));
    if target != [] {
      SplitJoin(target);
    }
    ResolveBoth(rooted, Split(dst), [""] + Split(tail), []);
    TailResolves(rooted, target, tail, Resolve(rooted, Split(dst), []));
    assert Rooted(whole) == rooted;
  }

  lemma TailResolves(rooted: bool, target: Path, tail: string, done: seq<string>)
    requires IsPath(target) && Split(tail) == if target == [] then [""] else target
    ensures Resolve(rooted, [""] + Split(tail), done) == done + target
  {
    assert ([""] + Split(tail))[1..] == Split(tail);
    if target == [] {
      assert [""][1..] == [];
    } else {
      ResolvePlain(rooted, target, done);
    }
  }

  lemma NotBelowTop(target: Path)
    requires IsPath(target) && target != []
    ensures !("/" <= Join(target)) && !("./" <= Join(target)) && !("//" <= "/" + Join(target))
  {
    JoinStartsWith(target);
    var name, joined := target[0], Join(target);
    assert IsName(name) && joined[0] == name[0];
    assert |name| > 1 ==> joined[1] == name[1];
    assert |name| == 1 ==> name == [name[0]];
    assert ("/" + joined)[1] == joined[0];
  }

  /** Whether one shown path starts with another and a slash: exactly when it goes on, and not from "/" or ".". */
  lemma PrefixExactly(rooted: bool, parts: seq<string>, target: Path)
    requires IsClean(rooted, parts) && IsPath(target)
    ensures Show(rooted, parts) + "/" <= Show(rooted, parts + target) <==> parts != [] && target != []
  {
    if target == [] {
      assert parts + target == parts;
    } else {
      if parts == [] {
        assert parts + target == target;
        NotBelowTop(target);
      } else {
        JoinBoth(parts, target);
      }
    }
  }

  lemma ShownBare(rooted: bool, parts: seq<string>)
    requires IsClean(rooted, parts)
    ensures parts == [] <==> Show(rooted, parts) == "/" || Show(rooted, parts) == "."
  {
    if parts != [] {
      JoinStartsWith(parts);
      assert rooted ==> Show(rooted, parts)[1] == parts[0][0];
    }
  }

  /**
   The guard lets an entry pass if and only if the cleaned destination is neither "/" nor "." and the
   entry does not lead to the destination itself. So an entry that passes stays strictly inside; and
   into the current directory or the file system's root nothing is ever restored.
   */
  lemma AcceptsExactly(dst: string, name: string)
    ensures Accepts(dst, name) <==> Usable(dst) && TargetOf(name) != []
    ensures IsPath(TargetOf(name))
  {
    var rooted, parts, target := Rooted(dst), Resolve(Rooted(dst), Split(dst), []), TargetOf(name);
    TargetIsPath(name);
    SplitHasNoSlash(dst);
    ResolveIsClean(rooted, Split(dst), []);
    ShownBare(rooted, parts);
    if dst == "" {
      EmptyDestination(name);
    } else {
      TargetBelowDestination(dst, name);
      PrefixExactly(rooted, parts, target);
    }
  }

  lemma EmptyDestination(name: string)
    ensures Clean("") == "." && !Accepts("", name)
  {
    var joined := JoinPaths("", Clean("/" + name));
    assert Clean("/" + name)[0] == '/';
    assert joined[0] == '/';
  }

  lemma CleanDots()
    ensures Clean(".") == "." && Clean("") == "." && Clean("./") == "."
  {
    CleanName(".");
    assert Split("") == [""] && [""][1..] == [];
    CleanTwo(".", "");
    assert "." + "/" + "" == "./";
  }

  lemma CleanBack()
    ensures Clean("a/..") == "."
  {
    CleanTwo("a", "..");
    assert "a" + "/" + ".." == "a/..";
    assert [".."][1..] == [];
  }

  lemma CleanName(n: string)
    requires n != "" && '/' !in n
    ensures Clean(n) == n
  {
    SplitName(n, "");
    assert [n][1..] == [];
    assert n != "." ==> Resolve(false, [n], []) == [n];
  }

  lemma CleanTwo(a: string, b: string)
    requires a != "" && '/' !in a && '/' !in b && a != ".."
    ensures Clean(a + "/" + b) == Show(false, Resolve(false, [b], if a == "." then [] else [a]))
  {
    SplitName(a, b);
    SplitName(b, "");
    assert [a, b][1..] == [b] && [] + [a] == [a];
    assert (a + "/" + b)[0] == a[0];
  }

  /** The current directory is such a destination, however it is written. */
  lemma CurrentDirectoryIsRefused(name: string)
    ensures !Accepts(".", name) && !Accepts("", name) && !Accepts("./", name) && !Accepts("a/..", name)
    ensures Accepts("out", "f") && Accepts("..", "f")
  {
    AcceptsExactly(".", name);
    AcceptsExactly("", name);
    AcceptsExactly("./", name);
    AcceptsExactly("a/..", name);
    AcceptsExactly("out", "f");
    AcceptsExactly("..", "f");
    CleanDots();
    CleanBack();
    CleanName("out");
    CleanName("..");
    TargetOfJoin(["f"]);
  }

  // ---------- Trees and archives ----------

  /** `Special` stands for device nodes and pipes, which are archived but not restored. */
  datatype Node =
    | Dir(mode: Mode, kids: seq<Kid>)
    | File(mode: Mode, content: seq<Byte>)
    | Link(target: string)
    | Special

  datatype Kid = Kid(name: string, node: Node)

  ghost predicate WellNamed(node: Node) {
    node.Dir? ==> WellNamedKids(node.kids)
  }

  /** Siblings have proper, different names, at every level. */
  ghost predicate WellNamedKids(kids: seq<Kid>) {
    kids == [] ||
    (&& IsName(kids[0].name) && WellNamed(kids[0].node)
     && (forall i :: 0 < i < |kids| ==> kids[i].name != kids[0].name)
     && WellNamedKids(kids[1..]))
  }

  datatype Entry =
    | DirEntry(name: string, mode: Mode)
    | FileEntry(name: string, mode: Mode, content: seq<Byte>)
    | LinkEntry(name: string, target: string)
    | OtherEntry(name: string)

  /** The entries that the walk appends for a node: a directory precedes what it holds. */
  function TarNode(path: Path, node: Node): seq<Entry>
    requires path != []
    decreases node
  {
    match node
    case Dir(mode, kids) => [DirEntry(Join(path), mode)] + TarKids(path, kids)
    case File(mode, content) => [FileEntry(Join(path), mode, content)]
    case Link(target) => [LinkEntry(Join(path), target)]
    case Special => [OtherEntry(Join(path))]
  }

  /** Siblings may be walked in any order; the source's walk goes by name. */
  function TarKids(path: Path, kids: seq<Kid>): seq<Entry>
    decreases kids
  {
    if kids == [] then []
    else TarNode(path + [kids[0].name], kids[0].node) + TarKids(path, kids[1..])
  }

  // ---------- Directories on disk ----------

  datatype Object =
    | DirObject(mode: Mode)
    | FileObject(mode: Mode, content: seq<Byte>)
    | LinkObject(target: string)

  type Fs = map<Path, Object>

  /** Every object of the tree under its path; the tree's root directory belongs to the destination. */
  function Flat(path: Path, node: Node): Fs
    decreases node
  {
    match node
    case Dir(mode, kids) => map[path := DirObject(mode)] + FlatKids(path, kids)
    case File(mode, content) => map[path := FileObject(mode, content)]
    case Link(target) => map[path := LinkObject(target)]
    case Special => map[]
  }

  function FlatKids(path: Path, kids: seq<Kid>): Fs
    decreases kids
  {
    if kids == [] then map[]
    else Flat(path + [kids[0].name], kids[0].node) + FlatKids(path, kids[1..])
  }

  datatype Error =
    | PathTraversal(name: string)
    | NotADirectory(path: Path)
    | IsADirectory(path: Path)
    | NoSuchParent(path: Path)
    | ThroughLink(path: Path)   // the operating system would follow a link found in the destination

  function Parent(p: Path): Path
    requires p != []
  {
    p[..|p| - 1]
  }

  /** os.MkdirAll: an existing directory is left as it is; missing ancestors get the same mode. */
  function MkdirAll(fs: Fs, p: Path, mode: Mode): Result<Fs, Error>
    decreases |p|
  {
    if p in fs then
      match fs[p]
      case DirObject(_) => Ok(fs)
      case FileObject(_, _) => Err(NotADirectory(p))
      case LinkObject(_) => Err(ThroughLink(p))
    else if p == [] then Err(NoSuchParent(p))
    else
      match MkdirAll(fs, Parent(p), mode)
      case Err(e) => Err(e)
      case Ok(fs') => Ok(fs'[p := DirObject(mode)])
  }

  /** Opening for writing: an existing file is truncated and keeps its mode. */
  function WriteFile(fs: Fs, p: Path, mode: Mode, content: seq<Byte>): Result<Fs, Error> {
    if p !in fs then Ok(fs[p := FileObject(mode, content)])
    else
      match fs[p]
      case FileObject(m, _) => Ok(fs[p := FileObject(m, content)])
      case DirObject(_) => Err(IsADirectory(p))
      case LinkObject(_) => Err(ThroughLink(p))
  }

  /** os.Symlink, with an existing object tolerated; the parent must exist. */
  function MakeLink(fs: Fs, p: Path, target: string): Result<Fs, Error> {
    if p in fs then Ok(fs)
    else if p == [] then Err(NoSuchParent(p))
    else if Parent(p) !in fs then Err(NoSuchParent(p))
    else
      match fs[Parent(p)]
      case DirObject(_) => Ok(fs[p := LinkObject(target)])
      case FileObject(_, _) => Err(NotADirectory(p))
      case LinkObject(_) => Err(ThroughLink(p))
  }

  /** The extraction of one accepted entry to path p. */
  function Extract(fs: Fs, p: Path, e: Entry): Result<Fs, Error>
    requires p != []
  {
    match e
    case DirEntry(_, mode) => MkdirAll(fs, p, mode)
    case FileEntry(_, mode, content) =>
      (match MkdirAll(fs, Parent(p), 0x1ED)
       case Err(err) => Err(err)
       case Ok(fs') => WriteFile(fs', p, mode, content))
    case LinkEntry(_, target) => MakeLink(fs, p, target)
    case OtherEntry(_) => Ok(fs)
  }

  function RestoreEntry(dst: string, fs: Fs, e: Entry): Result<Fs, Error> {
    AcceptsExactly(dst, e.name);
    if Accepts(dst, e.name) then Extract(fs, TargetOf(e.name), e) else Err(PathTraversal(e.name))
  }

  function RestoreAll(dst: string, fs: Fs, entries: seq<Entry>): Result<Fs, Error>
    decreases |entries|
  {
    if entries == [] then Ok(fs)
    else
      match RestoreEntry(dst, fs, entries[0])
      case Err(e) => Err(e)
      case Ok(fs') => RestoreAll(dst, fs', entries[1..])
  }

  lemma {:induction false} RestoreConcat(dst: string, fs: Fs, a: seq<Entry>, b: seq<Entry>)
    ensures RestoreAll(dst, fs, a + b) ==
            match RestoreAll(dst, fs, a)
            case Err(e) => Err(e)
            case Ok(fs') => RestoreAll(dst, fs', b)
    decreases |a|
  {
    if a == [] {
      assert a + b == b;
    } else {
      assert (a + b)[1..] == a[1..] + b;
      var r := RestoreEntry(dst, fs, a[0]);
      if r.Ok? {
        RestoreConcat(dst, r.value, a[1..], b);
      }
    }
  }

  // ---------- Where things are ----------

  /** Nothing exists at p or below it. */
  ghost predicate Vacant(fs: Fs, p: Path) {
    forall q :: q in fs ==> !(p <= q)
  }

  ghost predicate IsDirIn(fs: Fs, p: Path) {
    p in fs && fs[p].DirObject?
  }

  lemma {:induction false} FlatIsBelow(path: Path, node: Node)
    ensures forall q :: q in Flat(path, node) ==> path <= q
    decreases node, 0
  {
    if node.Dir? {
      FlatKidsAreBelow(path, node.kids);
    }
  }

  lemma {:induction false} FlatKidsAreBelow(path: Path, kids: seq<Kid>)
    ensures forall q :: q in FlatKids(path, kids) ==>
              path < q && exists i :: 0 <= i < |kids| && path + [kids[i].name] <= q
    decreases kids, 1
  {
    if kids != [] {
      FlatIsBelow(path + [kids[0].name], kids[0].node);
      FlatKidsAreBelow(path, kids[1..]);
      forall q | q in FlatKids(path, kids)
        ensures path < q && exists i :: 0 <= i < |kids| && path + [kids[i].name] <= q
      {
        assert q in Flat(path + [kids[0].name], kids[0].node) || q in FlatKids(path, kids[1..]);
        if q in FlatKids(path, kids[1..]) {
          var i :| 0 <= i < |kids[1..]| && path + [kids[1..][i].name] <= q;
          assert kids[1..][i] == kids[i + 1];
        } else {
          assert path + [kids[0].name] <= q;
        }
      }
    }
  }

  // ---------- Restoring over what is there ----------

  /**
   An object of the tree where another one is. A directory is left as it is; a file is overwritten but
   keeps its mode; a link gives way to whatever is there.
   */
  function Met(was: Object, made: Object): Object {
    match made
    case DirObject(_) => was
    case FileObject(_, content) => if was.FileObject? then FileObject(was.mode, content) else was
    case LinkObject(_) => was
  }

  /** The destination with the tree laid over it. */
  function Overlaid(fs: Fs, tree: Fs): Fs {
    map p | p in fs.Keys + tree.Keys ::
      if p !in tree then fs[p] else if p !in fs then tree[p] else Met(fs[p], tree[p])
  }

  /** No directory of the tree meets anything but a directory, and no file of it anything but a file. */
  ghost predicate Compatible(fs: Fs, tree: Fs) {
    forall p :: p in tree && p in fs ==>
      (tree[p].DirObject? ==> fs[p].DirObject?) && (tree[p].FileObject? ==> fs[p].FileObject?)
  }

  lemma RestoreOne(dst: string, fs: Fs, e: Entry)
    ensures RestoreAll(dst, fs, [e]) == RestoreEntry(dst, fs, e)
  {
    assert [e][1..] == [];
  }

  function ObjectOf(e: Entry): Object
    requires !e.OtherEntry?
  {
    match e
    case DirEntry(_, mode) => DirObject(mode)
    case FileEntry(_, mode, content) => FileObject(mode, content)
    case LinkEntry(_, target) => LinkObject(target)
  }

  /** What one entry of a tree's walk puts where it goes, under a directory. */
  function SoleObject(path: Path, e: Entry): Fs {
    if e.OtherEntry? then map[] else map[path := ObjectOf(e)]
  }

  lemma EntryOver(dst: string, fs: Fs, path: Path, e: Entry)
    requires Usable(dst) && path != [] && IsPath(path) && e.name == Join(path) && IsDirIn(fs, Parent(path))
    ensures RestoreEntry(dst, fs, e).Ok? <==> Compatible(fs, SoleObject(path, e))
    ensures RestoreEntry(dst, fs, e).Ok? ==> RestoreEntry(dst, fs, e).value == Overlaid(fs, SoleObject(path, e))
  {
    TargetOfJoin(path);
    AcceptsExactly(dst, Join(path));
    assert MkdirAll(fs, Parent(path), 0x1ED) == Ok(fs);
    var r := RestoreEntry(dst, fs, e);
    assert r == Extract(fs, path, e);
    match e
    case DirEntry(_, mode) =>
      assert MkdirAll(fs, Parent(path), mode) == Ok(fs);
      assert path !in fs ==> r == Ok(fs[path := DirObject(mode)]);
    case FileEntry(_, mode, content) => assert r == WriteFile(fs, path, mode, content);
    case LinkEntry(_, target) =>
    case OtherEntry(_) =>
  }

  lemma OverlaidStays(fs: Fs, first: Fs, path: Path)
    requires IsDirIn(fs, path) && path !in first
    ensures IsDirIn(Overlaid(fs, first), path)
  {
  }

  /** Laying down two separate parts one after the other is laying down both. */
  lemma OverlaidTwice(fs: Fs, first: Fs, second: Fs)
    requires first.Keys !! second.Keys
    ensures Overlaid(Overlaid(fs, first), second) == Overlaid(fs, first + second)
    ensures Compatible(fs, first + second) <==> Compatible(fs, first) && Compatible(Overlaid(fs, first), second)
  {
    var mid, both := Overlaid(fs, first), first + second;
    forall p | p in second ensures p in mid <==> p in fs {
    }
    assert forall p :: p in second && p in fs ==> mid[p] == fs[p];
    if Compatible(fs, both) {
      assert forall p :: p in first ==> both[p] == first[p];
      assert forall p :: p in second ==> both[p] == second[p];
    }
  }

  /**
   Restoring the archive of one node under an existing directory, whatever is there already: it succeeds
   exactly when node and destination are compatible, and then lays the node over the destination.
   */
  lemma {:induction false} NodeOver(dst: string, fs: Fs, path: Path, node: Node)
    requires Usable(dst) && path != [] && IsPath(path) && WellNamed(node) && IsDirIn(fs, Parent(path))
    ensures
      var r := RestoreAll(dst, fs, TarNode(path, node));
      && (r.Ok? <==> Compatible(fs, Flat(path, node)))
      && (r.Ok? ==> r.value == Overlaid(fs, Flat(path, node)))
    decreases node, 0
  {
    var first := TarNode(path, node)[0];
    EntryOver(dst, fs, path, first);
    RestoreOne(dst, fs, first);
    if node.Dir? {
      var self, below := SoleObject(path, first), FlatKids(path, node.kids);
      FlatKidsAreBelow(path, node.kids);
      OverlaidTwice(fs, self, below);
      RestoreConcat(dst, fs, [first], TarKids(path, node.kids));
      if Compatible(fs, self) {
        KidsOver(dst, Overlaid(fs, self), path, node.kids);
      }
    } else {
      assert TarNode(path, node) == [first];
      assert Flat(path, node) == SoleObject(path, first);
    }
  }

  lemma {:induction false} KidsOver(dst: string, fs: Fs, path: Path, kids: seq<Kid>)
    requires Usable(dst) && IsPath(path) && WellNamedKids(kids) && IsDirIn(fs, path)
    ensures
      var r := RestoreAll(dst, fs, TarKids(path, kids));
      && (r.Ok? <==> Compatible(fs, FlatKids(path, kids)))
      && (r.Ok? ==> r.value == Overlaid(fs, FlatKids(path, kids)))
    decreases kids, 1
  {
    if kids == [] {
      assert fs == Overlaid(fs, FlatKids(path, kids));
    } else {
      var first := path + [kids[0].name];
      var own, others := Flat(first, kids[0].node), FlatKids(path, kids[1..]);
      assert Parent(first) == path;
      NodeOver(dst, fs, first, kids[0].node);
      KidsApart(path, kids);
      OverlaidTwice(fs, own, others);
      RestoreConcat(dst, fs, TarNode(first, kids[0].node), TarKids(path, kids[1..]));
      if Compatible(fs, own) {
        OverlaidStays(fs, own, path);
        KidsOver(dst, Overlaid(fs, own), path, kids[1..]);
      }
    }
  }

  /** The first of some siblings shares no path with the others, nor with their parent. */
  lemma KidsApart(path: Path, kids: seq<Kid>)
    requires kids != [] && WellNamedKids(kids)
    ensures Flat(path + [kids[0].name], kids[0].node).Keys !! FlatKids(path, kids[1..]).Keys
    ensures path !in Flat(path + [kids[0].name], kids[0].node)
  {
    var first := path + [kids[0].name];
    FlatIsBelow(first, kids[0].node);
    FlatKidsAreBelow(path, kids[1..]);
    forall q | q in Flat(first, kids[0].node) ensures q !in FlatKids(path, kids[1..]) {
      if q in FlatKids(path, kids[1..]) {
        var i :| 0 <= i < |kids[1..]| && path + [kids[1..][i].name] <= q;
        SiblingsApart(path, kids[0].name, kids[i + 1].name, q);
      }
    }
  }

  /** Nothing is at or below two different siblings at once. */
  lemma SiblingsApart(path: Path, a: string, b: string, q: Path)
    requires a != b && path + [a] <= q
    ensures !(path + [b] <= q)
  {
    assert q[|path|] == (path + [a])[|path|] == a;
    assert |path| < |path + [b]| && (path + [b])[|path|] == b;
  }

  /**
   Restoring into any directory: it succeeds exactly when no directory of the tree meets anything but a
   directory and no file of it anything but a file. Then every object that was there and is not in the
   tree stays; new objects are those of the tree; files that were there get the tree's content and keep
   their mode; and directories and links that meet something leave it as it is.
   */
  lemma RestoreOver(dst: string, fs: Fs, kids: seq<Kid>)
    requires WellNamedKids(kids) && Usable(dst) && IsDirIn(fs, [])
    ensures
      var r, tree := RestoreAll(dst, fs, TarKids([], kids)), FlatKids([], kids);
      && (r.Ok? <==> forall p :: p in tree && p in fs ==>
            (tree[p].DirObject? ==> fs[p].DirObject?) && (tree[p].FileObject? ==> fs[p].FileObject?))
      && (r.Ok? ==>
            && r.value.Keys == fs.Keys + tree.Keys
            && (forall p :: p in fs && p !in tree ==> r.value[p] == fs[p])
            && (forall p :: p in tree && p !in fs ==> r.value[p] == tree[p])
            && (forall p :: p in tree && p in fs ==>
                  r.value[p] == if tree[p].FileObject? then FileObject(fs[p].mode, tree[p].content) else fs[p]))
  {
    KidsOver(dst, fs, [], kids);
  }

  /** Restoring the archive of one node under an existing directory, where nothing is yet, adds exactly that node. */
  lemma RestoreNode(dst: string, fs: Fs, path: Path, node: Node)
    requires Usable(dst) && path != [] && IsPath(path) && WellNamed(node)
    requires IsDirIn(fs, Parent(path)) && Vacant(fs, path)
    ensures RestoreAll(dst, fs, TarNode(path, node)) == Ok(fs + Flat(path, node))
  {
    NodeOver(dst, fs, path, node);
    FlatIsBelow(path, node);
    OverNothing(fs, Flat(path, node));
  }

  // ---------- The round trip ----------

  /**
   Round trip: for every tree of directories, files and links and every usable destination, restoring
   its archive into an empty directory rebuilds exactly that tree, the directory itself keeping its own
   mode. Into a destination that is not usable only the empty tree is restored; the first entry of any
   other is refused.
   */
  lemma RoundTrip(dst: string, mode: Mode, kids: seq<Kid>)
    requires WellNamedKids(kids)
    ensures
      var empty: Fs := map[[] := DirObject(mode)];
      RestoreAll(dst, empty, TarKids([], kids)) ==
      if kids == [] || Usable(dst) then Ok(empty + FlatKids([], kids)) else Err(PathTraversal(kids[0].name))
  {
    var empty: Fs := map[[] := DirObject(mode)];
    if Usable(dst) {
      FlatKidsAreBelow([], kids);
      KidsOver(dst, empty, [], kids);
      OverNothing(empty, FlatKids([], kids));
    } else if kids == [] {
      assert empty + FlatKids([], kids) == empty;
    } else {
      FirstIsRefused(dst, empty, kids);
    }
  }

  lemma OverNothing(fs: Fs, tree: Fs)
    requires fs.Keys !! tree.Keys
    ensures Compatible(fs, tree) && Overlaid(fs, tree) == fs + tree
  {
  }

  lemma FirstIsRefused(dst: string, fs: Fs, kids: seq<Kid>)
    requires kids != [] && !Usable(dst)
    ensures RestoreAll(dst, fs, TarKids([], kids)) == Err(PathTraversal(kids[0].name))
  {
    var entries := TarKids([], kids);
    assert [] + [kids[0].name] == [kids[0].name];
    assert entries == TarNode([kids[0].name], kids[0].node) + TarKids([], kids[1..]);
    assert entries[0] == TarNode([kids[0].name], kids[0].node)[0];
    assert entries[0].name == kids[0].name;
    AcceptsExactly(dst, entries[0].name);
  }

  /** Restoring the same archive once more gives the same result and changes nothing. */
  lemma RestoreIsIdempotent(dst: string, mode: Mode, kids: seq<Kid>)
    requires WellNamedKids(kids)
    ensures
      var once := RestoreAll(dst, map[[] := DirObject(mode)], TarKids([], kids));
      && (once.Ok? <==> kids == [] || Usable(dst))
      && (once.Ok? ==> RestoreAll(dst, once.value, TarKids([], kids)) == once)
  {
    RoundTrip(dst, mode, kids);
    FlatKidsAreBelow([], kids);
    if Usable(dst) {
      var restored := map[[] := DirObject(mode)] + FlatKids([], kids);
      KidsOver(dst, restored, [], kids);
      assert Overlaid(restored, FlatKids([], kids)) == restored;
    }
  }

  // ---------- Entries without their parents ----------

  /** A link entry makes no parents: without one it fails, unless something is already in its place. */
  lemma LinkNeedsItsParent(dst: string, fs: Fs, path: Path, target: string)
    requires Usable(dst) && path != [] && IsPath(path)
    ensures
      var r := RestoreEntry(dst, fs, LinkEntry(Join(path), target));
      && (r.Ok? <==> path in fs || IsDirIn(fs, Parent(path)))
      && (r.Ok? ==> r.value == if path in fs then fs else fs[path := LinkObject(target)])
  {
    TargetOfJoin(path);
    AcceptsExactly(dst, Join(path));
  }

  /**
   An archive that was not written by Save may lack the entries of some directories. MkdirAll then makes
   exactly the missing ones, below the nearest object that exists, and fails exactly when that is no
   directory.
   */
  lemma {:induction false} MkdirAllExactly(fs: Fs, p: Path, mode: Mode, k: nat)
    requires k <= |p| && p[..k] in fs && forall q :: q in fs && q <= p ==> |q| <= k
    ensures
      var r := MkdirAll(fs, p, mode);
      && (r.Ok? <==> fs[p[..k]].DirObject?)
      && (r.Ok? ==> forall q :: q in r.value <==> q in fs || (q <= p && |q| > k))
      && (r.Ok? ==> forall q :: q in r.value ==> r.value[q] == if q in fs then fs[q] else DirObject(mode))
    decreases |p|
  {
    if p in fs {
      assert p[..k] == p;
    } else {
      assert p[..|p|] == p;
      var parent := Parent(p);
      assert parent[..k] == p[..k];
      forall q | q in fs && q <= parent ensures |q| <= k {
        assert q <= p;
      }
      MkdirAllExactly(fs, parent, mode, k);
      forall q: Path ensures q <= p && |q| > k <==> q == p || (q <= parent && |q| > k) {
        PrefixOfParent(q, p);
      }
    }
  }

  lemma PrefixOfParent(q: Path, p: Path)
    requires p != []
    ensures q <= p <==> q == p || q <= Parent(p)
  {
  }

  /** The missing parents of a file entry get mode 0755, and the file its own. */
  lemma FileMakesItsParents(dst: string, fs: Fs, path: Path, mode: Mode, content: seq<Byte>, k: nat)
    requires Usable(dst) && path != [] && IsPath(path) && k < |path|
    requires IsDirIn(fs, path[..k]) && forall q :: q in fs && q <= path ==> |q| <= k
    ensures
      var r := RestoreEntry(dst, fs, FileEntry(Join(path), mode, content));
      && r.Ok? && path in r.value && r.value[path] == FileObject(mode, content)
      && forall q :: q <= path && k < |q| < |path| ==> q in r.value && r.value[q] == DirObject(0x1ED)
  {
    TargetOfJoin(path);
    AcceptsExactly(dst, Join(path));
    var parent := Parent(path);
    assert parent[..k] == path[..k];
    forall q | q in fs && q <= parent ensures |q| <= k {
      assert q <= path;
    }
    MkdirAllExactly(fs, parent, 0x1ED, k);
    assert path !in fs && !(path <= parent);
    forall q: Path | q <= path && k < |q| < |path| ensures q <= parent && q !in fs {
      PrefixOfParent(q, path);
    }
  }

  // ---------- The store ----------

  function SafeKey(key: string): (safe: string)
    ensures |safe| == |key| && '/' !in safe
    ensures forall i :: 0 <= i < |key| ==> safe[i] == if key[i] == '/' then '-' else key[i]
  {
    if key == "" then "" else [if key[0] == '/' then '-' else key[0]] + SafeKey(key[1..])
  }

  function ArchivePath(baseDir: string, key: string): string {
    baseDir + "/" + SafeKey(key) + ".tar.zst"
  }

  /** No key leads out of the base directory: an archive is one file in it, with the archives' own ending. */
  lemma ArchiveStaysInBase(baseDir: string, key: string)
    ensures
      var name := SafeKey(key) + ".tar.zst";
      && ArchivePath(baseDir, key) == baseDir + "/" + name
      && IsName(name) && |name| == |key| + 8 && name[|key|..] == ".tar.zst"
  {
    var name := SafeKey(key) + ".tar.zst";
    assert name[|key|] == '.' && name[|key| + 1] == 't';
    assert |name| >= 8;
  }

  /** Two keys share an archive exactly when they differ at most in slashes written as dashes. */
  lemma SharedArchiveExactly(baseDir: string, a: string, b: string)
    ensures ArchivePath(baseDir, a) == ArchivePath(baseDir, b) <==>
            SameArchive(a, b)
  {
    var n := |baseDir| + 1;
    var pa, pb := ArchivePath(baseDir, a), ArchivePath(baseDir, b);
    assert pa[n..n + |a|] == SafeKey(a) && pb[n..n + |b|] == SafeKey(b);
    assert pa == pb ==> |a| == |b| && SafeKey(a) == SafeKey(b);
    SafeKeysAgree(a, b);
  }

  lemma SafeKeysAgree(a: string, b: string)
    ensures SafeKey(a) == SafeKey(b) <==> SameArchive(a, b)
  {
    assert SafeKey(a) == SafeKey(b) ==> forall i :: 0 <= i < |a| ==> SafeKey(a)[i] == SafeKey(b)[i];
  }

  /** A destination directory on disk, and the name Restore is given for it. */
  class Directory {
    var fs: Fs
    const name: string

    constructor (name: string, fs: Fs)
      ensures this.fs == fs && this.name == name
    {
      this.fs, this.name := fs, name;
    }
  }

  /** The walk of Save, appending one entry after another. */
  class TarWriter {
    var entries: seq<Entry>

    constructor ()
      ensures entries == []
    {
      entries := [];
    }

    method WriteNode(path: Path, node: Node)
      requires path != []
      modifies this
      ensures entries == old(entries) + TarNode(path, node)
      decreases node, 0
    {
      match node
      case Dir(mode, kids) =>
        entries := entries + [DirEntry(Join(path), mode)];
        WriteKids(path, kids);
      case File(mode, content) => entries := entries + [FileEntry(Join(path), mode, content)];
      case Link(target) => entries := entries + [LinkEntry(Join(path), target)];
      case Special => entries := entries + [OtherEntry(Join(path))];
    }

    method WriteKids(path: Path, kids: seq<Kid>)
      modifies this
      ensures entries == old(entries) + TarKids(path, kids)
      decreases kids, 1
    {
      if kids != [] {
        WriteNode(path + [kids[0].name], kids[0].node);
        WriteKids(path, kids[1..]);
      }
    }
  }

  /** Two keys that are kept in one archive. */
  predicate SameArchive(a: string, b: string) {
    |a| == |b| && forall i :: 0 <= i < |a| ==> a[i] == b[i] || (a[i] in "/-" && b[i] in "/-")
  }

  class LocalStore {
    const baseDir: string
    var archives: map<string, seq<Entry>>

    constructor (baseDir: string)
      ensures this.baseDir == baseDir && archives == map[]
    {
      this.baseDir := baseDir;
      archives := map[];
    }

    predicate Has(key: string)
      reads this
    {
      ArchivePath(baseDir, key) in archives
    }

    /**
     Writes to a temporary file and renames it, so a save that fails anywhere leaves the key's archive
     as it was. `ioFails` says whether some operation fails. Of the other keys, exactly those that share
     the archive are saved with it.
     */
    method Save(key: string, kids: seq<Kid>, ioFails: bool) returns (ok: bool)
      modifies this
      ensures ok <==> !ioFails
      ensures archives ==
              if ok then old(archives)[ArchivePath(baseDir, key) := TarKids([], kids)] else old(archives)
      ensures forall k :: Has(k) <==> old(Has(k)) || (ok && SameArchive(k, key))
    {
      var writer := new TarWriter();
      writer.WriteKids([], kids);
      if ioFails {
        return false;
      }
      assert writer.entries == TarKids([], kids);
      archives := archives[ArchivePath(baseDir, key) := writer.entries];
      SharedWith(baseDir, key);
      return true;
    }

    /** Extracts entry by entry; an error stops the loop and leaves exactly the entries before it extracted. */
    method Restore(key: string, dst: Directory) returns (res: Option<Result<Fs, Error>>)
      modifies dst
      ensures res.None? <==> !Has(key)
      ensures res.None? ==> dst.fs == old(dst.fs)
      ensures res.Some? ==> res.value == RestoreAll(dst.name, old(dst.fs), archives[ArchivePath(baseDir, key)])
      ensures res.Some? && res.value.Ok? ==> dst.fs == res.value.value
      ensures res.Some? && res.value.Err? ==>
                StoppedAt(dst.name, old(dst.fs), archives[ArchivePath(baseDir, key)], dst.fs, res.value.error)
    {
      if ArchivePath(baseDir, key) !in archives {
        return None;
      }
      var entries := archives[ArchivePath(baseDir, key)];
      var i := 0;
      while i < |entries|
        invariant 0 <= i <= |entries|
        invariant RestoreAll(dst.name, old(dst.fs), entries) == RestoreAll(dst.name, dst.fs, entries[i..])
        invariant RestoreAll(dst.name, old(dst.fs), entries[..i]) == Ok(dst.fs)
      {
        var r := RestoreEntry(dst.name, dst.fs, entries[i]);
        assert entries[i..][0] == entries[i] && entries[i..][1..] == entries[i + 1..];
        if r.Err? {
          assert RestoreAll(dst.name, old(dst.fs), entries[..i]) == Ok(dst.fs);
          return Some(Err(r.error));
        }
        RestoreConcat(dst.name, old(dst.fs), entries[..i], [entries[i]]);
        RestoreOne(dst.name, dst.fs, entries[i]);
        assert entries[..i + 1] == entries[..i] + [entries[i]];
        dst.fs := r.value;
        i := i + 1;
      }
      assert entries[..i] == entries;
      return Some(Ok(dst.fs));
    }

    method Exists(key: string) returns (b: bool)
      ensures b <==> Has(key)
    {
      b := ArchivePath(baseDir, key) in archives;
    }

    /** Afterwards neither the key nor any key that shares its archive has one; all others are as before. */
    method Delete(key: string) returns (ok: bool)
      modifies this
      ensures ok <==> old(Has(key))
      ensures forall k :: Has(k) <==> old(Has(k)) && !SameArchive(k, key)
      ensures forall k :: old(Has(k)) && Has(k) ==>
                archives[ArchivePath(baseDir, k)] == old(archives)[ArchivePath(baseDir, k)]
    {
      ok := ArchivePath(baseDir, key) in archives;
      archives := archives - {ArchivePath(baseDir, key)};
      SharedWith(baseDir, key);
    }
  }

  lemma SharedWith(baseDir: string, key: string)
    ensures forall k :: ArchivePath(baseDir, k) == ArchivePath(baseDir, key) <==> SameArchive(k, key)
  {
    forall k ensures ArchivePath(baseDir, k) == ArchivePath(baseDir, key) <==> SameArchive(k, key) {
      SharedArchiveExactly(baseDir, k, key);
    }
  }

  /** The entries before some entry were restored, and that entry failed. */
  ghost predicate StoppedAt(dst: string, before: Fs, entries: seq<Entry>, after: Fs, error: Error) {
    exists i :: 0 <= i < |entries| && RestoreAll(dst, before, entries[..i]) == Ok(after)
                && RestoreEntry(dst, after, entries[i]) == Err(error)
  }

  /** Saving a tree, finding it, and restoring it into an empty directory, through the store. */
  method SaveThenRestore(store: LocalStore, key: string, kids: seq<Kid>, dst: string, mode: Mode)
    returns (listed: bool, copy: Directory)
    requires WellNamedKids(kids) && Usable(dst)
    modifies store
    ensures listed && fresh(copy) && copy.fs == map[[] := DirObject(mode)] + FlatKids([], kids)
  {
    var saved := store.Save(key, kids, false);
    listed := store.Exists(key);
    copy := new Directory(dst, map[[] := DirObject(mode)]);
    RoundTrip(dst, mode, kids);
    var res := store.Restore(key, copy);
  }
}
