/** What creating and removing entries does to lookups: to the path given, and
    to every other path. */
module VfsNames {
  import opened Basics
  import opened Vfs
  import opened VfsTree
  import opened VfsPaths

  /** All entries of `fs` are found in `t` too. */
  ghost predicate Keeps(fs: FS, t: FS)
    requires Sized(fs) && Sized(t)
  {
    forall c, n :: Child(fs, c, n) >= 0 ==> Child(t, c, n) == Child(fs, c, n)
  }

  lemma {:induction false} WalkGrows(fs: FS, t: FS, cur: int, p: string)
    requires Sized(fs) && Sized(t) && Keeps(fs, t) && -1 <= cur < MAX_INODES
    ensures Walk(fs, cur, p) >= 0 ==> Walk(t, cur, p) == Walk(fs, cur, p)
    decreases |p|
  {
    hide Child;
    if p != "" {
      var n := ComponentEnd(p, 0);
      if n == 0 {
        WalkGrows(fs, t, cur, p[1..]);
      } else {
        var found := Child(fs, cur, p[..n]);
        if found >= 0 {
          WalkGrows(fs, t, found, Rest(p, n));
        }
      }
    }
  }

  lemma ResolveGrows(fs: FS, t: FS, path: string)
    requires Sized(fs) && Sized(t) && Keeps(fs, t)
    ensures Resolve(fs, path) >= 0 ==> Resolve(t, path) == Resolve(fs, path)
  {
    hide Walk, Keeps;
    if path != "" && path != "/" {
      WalkGrows(fs, t, 0, if path[0] == '/' then path[1..] else path);
    }
  }

  /** A new entry is found under its name, and all others as before. */
  lemma ChildAfterAdd(fs: FS, idx: int, n: Inode)
    requires Sized(fs) && 0 < idx < MAX_INODES && !fs.inodes[idx].used && n.used && Child(fs, n.parent, n.name) < 0
    ensures var t := fs.(inodes := fs.inodes[idx := n]);
      Child(t, n.parent, n.name) == idx && Keeps(fs, t)
  {
    var t := fs.(inodes := fs.inodes[idx := n]);
    forall c, m | Child(fs, c, m) >= 0 ensures Child(t, c, m) == Child(fs, c, m) {
      var j := Child(fs, c, m);
      assert IsChild(t.inodes[j], c, m);
      FoundAt(t, c, m, j);
    }
    FoundAt(t, n.parent, n.name, idx);
  }

  lemma NotFound(fs: FS, par: int, name: string)
    requires Sized(fs) && forall k :: 1 <= k < MAX_INODES ==> !IsChild(fs.inodes[k], par, name)
    ensures Child(fs, par, name) == -1
  {
  }

  /** The least match is the one found. */
  lemma FoundAt(fs: FS, par: int, name: string, j: int)
    requires Sized(fs) && 0 < j < MAX_INODES && IsChild(fs.inodes[j], par, name)
    requires forall k :: 1 <= k < j ==> !IsChild(fs.inodes[k], par, name)
    ensures Child(fs, par, name) == j
  {
  }

  /** Inodes keep their place in the tree. */
  ghost predicate Stays(fs: FS, t: FS)
    requires Sized(fs) && Sized(t)
  {
    forall j :: 0 <= j < MAX_INODES && fs.inodes[j].used ==>
      t.inodes[j].parent == fs.inodes[j].parent && t.inodes[j].name == fs.inodes[j].name
  }

  /** The last step of a walk, backwards. */
  lemma LastStep(fs: FS, names: seq<string>)
    requires Sized(fs) && names != [] && WalkNames(fs, 0, names) >= 0
    ensures var x := WalkNames(fs, 0, names);
      x > 0 && fs.inodes[x].used && fs.inodes[x].name == names[|names| - 1] &&
      fs.inodes[x].parent == WalkNames(fs, 0, names[..|names| - 1]) >= 0
  {
    hide WalkNames;
    var front, last := names[..|names| - 1], names[|names| - 1];
    assert names == front + [last];
    WalkAppend(fs, 0, front, [last]);
    NoNames(fs, 0);
    OneName(fs, last);
  }

  /** Only one sequence of names leads to an inode, even after entries have been
      added elsewhere. */
  lemma {:induction false} OneWay(fs: FS, t: FS, a: seq<string>, b: seq<string>)
    requires Sized(fs) && Sized(t) && Stays(fs, t)
    requires WalkNames(fs, 0, a) == WalkNames(t, 0, b) >= 0
    ensures a == b
    decreases |a|
  {
    hide WalkNames, Stays;
    NoNames(fs, 0);
    NoNames(t, 0);
    if a != [] {
      LastStep(fs, a);
    }
    if b != [] {
      LastStep(t, b);
    }
    if a != [] && b != [] {
      StaysAt(fs, t, WalkNames(fs, 0, a));
      OneWay(fs, t, a[..|a| - 1], b[..|b| - 1]);
      assert a == a[..|a| - 1] + [a[|a| - 1]] && b == b[..|b| - 1] + [b[|b| - 1]];
    }
  }

  lemma StaysAt(fs: FS, t: FS, j: int)
    requires Sized(fs) && Sized(t) && Stays(fs, t) && 0 <= j < MAX_INODES && fs.inodes[j].used
    ensures t.inodes[j].parent == fs.inodes[j].parent && t.inodes[j].name == fs.inodes[j].name
  {
  }

  /** A new entry is where its path leads exactly when the path is good: the
      names followed to it are those of its parent and its own. */
  lemma {:induction false} AddedResolves(fs: FS, path: string, idx: int, n: Inode)
    requires FsOk(fs) && Sized(fs) && ParentDir(fs, path) >= 0
    requires 0 < idx < MAX_INODES && !fs.inodes[idx].used && n.used
    requires n.parent == ParentDir(fs, path) && n.name == Split(path).value.name
    ensures var t := fs.(inodes := fs.inodes[idx := n]);
      (Resolve(t, path) == idx ==> GoodPath(path)) &&
      (Child(fs, n.parent, n.name) < 0 ==>
        (GoodPath(path) ==> Resolve(t, path) == idx) &&
        forall q :: Resolve(fs, q) >= 0 ==> Resolve(t, q) == Resolve(fs, q))
  {
    hide FsOk, Child, Resolve, GoodPath, Split;
    var t := fs.(inodes := fs.inodes[idx := n]);
    if Resolve(t, path) == idx {
      OnlyIfGood(fs, t, path, idx);
    }
    if Child(fs, n.parent, n.name) < 0 {
      ChildAfterAdd(fs, idx, n);
      hide Keeps;
      forall q | Resolve(fs, q) >= 0 ensures Resolve(t, q) == Resolve(fs, q) {
        ResolveGrows(fs, t, q);
      }
      if GoodPath(path) {
        ResolveAgreesWithSplit(t, path);
      }
    }
  }

  lemma OnlyIfGood(fs: FS, t: FS, path: string, idx: int)
    requires Sized(fs) && Sized(t) && Stays(fs, t) && Split(path).Some? && 0 < idx < MAX_INODES
    requires Resolve(fs, Split(path).value.parent) >= 0
    requires t.inodes[idx].parent == Resolve(fs, Split(path).value.parent)
    requires t.inodes[idx].name == Split(path).value.name && Resolve(t, path) == idx
    ensures GoodPath(path)
  {
    SplitNotEmpty(path);
    hide Resolve, Split, Stays, Chunks, WalkNames, GoodPath;
    var parts := Split(path).value;
    ResolveIs(fs, parts.parent);
    ResolveIs(t, path);
    NoNames(t, 0);
    var names := Chunks(path);
    LastStep(t, names);
    OneWay(fs, t, Chunks(parts.parent), names[..|names| - 1]);
    assert names == Chunks(parts.parent) + [parts.name];
    ChunksOfSplit(path);
  }

  /** A directory just made is where its path leads exactly when the path is
      good, and every path that led somewhere still does. */
  lemma {:induction false} MkdirResolves(fs: FS, path: string)
    requires FsOk(fs) && Sized(fs) && Mkdir(fs, path).1 >= 0
    ensures var (t, idx) := Mkdir(fs, path);
      Sized(t) && (Resolve(t, path) == idx <==> GoodPath(path)) &&
      forall q :: Resolve(fs, q) >= 0 ==> Resolve(t, q) == Resolve(fs, q)
  {
    hide FsOk, Child, Resolve, GoodPath, Split;
    var par := ParentDir(fs, path);
    var idx := FreeInode(fs.inodes, 1);
    AddedResolves(fs, path, idx, Inode(true, Split(path).value.name, Dir, par, 0, None));
  }

  /** A descriptor just opened is on the file its path leads to exactly when the
      file was there or its path is good; lookups that found something still do
      unless an entry of the same name was added. */
  lemma {:induction false} OpenResolves(fs: FS, path: string, flags: nat, memory: bool)
    requires FsOk(fs) && Sized(fs) && Open(fs, path, flags, memory).1 >= 0
    ensures var (t, fd) := Open(fs, path, flags, memory);
      Sized(t) && fd < MAX_FDS &&
      (Resolve(t, path) == t.fds[fd].inode <==> Resolve(fs, path) >= 0 || GoodPath(path)) &&
      (!AddsTwin(fs, path, flags, memory) ==> forall q :: Resolve(fs, q) >= 0 ==> Resolve(t, q) == Resolve(fs, q))
  {
    hide FsOk, Child, Resolve, GoodPath, Split, FreeFd;
    var u := Target(fs, path, flags, memory).0;
    assert Sized(u);
    if Resolve(fs, path) < 0 {
      if GoodPath(path) {
        GoodAddsNoTwin(fs, path, flags, memory);
      }
      var idx := FreeInode(fs.inodes, 1);
      AddedResolves(fs, path, idx, Inode(true, Split(path).value.name, File, ParentDir(fs, path), 0, Some(Zeros())));
    } else {
      forall q ensures Resolve(u, q) == Resolve(fs, q) {
        SameNames(fs, u, q);
      }
    }
    var t := Open(fs, path, flags, memory).0;
    forall q ensures Resolve(t, q) == Resolve(u, q) {
      SameNames(u, t, q);
    }
  }

  /** `mkdir` of one name too long for its buffer makes a directory, but under
      the first 31 characters: its own path leads nowhere. */
  lemma LongNameLost(fs: FS, name: string)
    requires FsOk(fs) && Sized(fs) && |name| >= MAX_NAME && forall k :: 0 <= k < |name| ==> name[k] != '/'
    requires Child(fs, 0, Cut(name)) < 0 && FreeInode(fs.inodes, 1) >= 0
    ensures Mkdir(fs, "/" + name).1 >= 0
    ensures Resolve(Mkdir(fs, "/" + name).0, "/" + name) == -1
  {
    var path := "/" + name;
    RootUsed(fs);
    NoLongSlash(path);
    assert path[1..] == name;
    hide LastSlash;
    var (t, idx) := Mkdir(fs, path);
    hide Child;
    forall n ensures Child(t, idx, n) == -1 {
      var j := Child(t, idx, n);
      if j >= 0 && j != idx {
        ParentUsed(fs.inodes, j);
      }
    }
    ComponentFull(name, 0);
    ChildAfterAdd(fs, idx, t.inodes[idx]);
    WalkFrom(t, idx, name[MAX_NAME - 1..]);
  }

  /** Just after boot, `mkdir` of a name of forty letters is such a call. */
  lemma FortyLetters()
    ensures var path := "/" + seq(40, _ => 'a');
      Mkdir(Init(), path).1 >= 0 && Resolve(Mkdir(Init(), path).0, path) == -1
  {
    InitOk();
    var name := seq(40, _ => 'a');
    assert !Init().inodes[1].used;
    assert forall k :: 1 <= k < MAX_INODES ==> !IsChild(Init().inodes[k], 0, Cut(name));
    NotFound(Init(), 0, Cut(name));
    LongNameLost(Init(), name);
  }

  /** Lookups see names and parents only. */
  lemma SameNames(fs: FS, t: FS, q: string)
    requires Sized(fs) && Sized(t)
    requires forall j :: 0 <= j < MAX_INODES ==>
      t.inodes[j].used == fs.inodes[j].used && t.inodes[j].parent == fs.inodes[j].parent && t.inodes[j].name == fs.inodes[j].name
    ensures Resolve(t, q) == Resolve(fs, q)
  {
    forall c, n ensures Child(t, c, n) == Child(fs, c, n) {
      SameFound(fs.inodes, t.inodes, c, n, 1);
    }
    hide Child, Resolve;
    ResolveGrows(fs, t, q);
    ResolveGrows(t, fs, q);
  }

  lemma {:induction false} SameFound(a: seq<Inode>, b: seq<Inode>, c: int, n: string, i: nat)
    requires |a| == |b| && i <= |a|
    requires forall j :: 0 <= j < |a| ==> b[j].used == a[j].used && b[j].parent == a[j].parent && b[j].name == a[j].name
    ensures FindChild(b, c, n, i) == FindChild(a, c, n, i)
    decreases |a| - i
  {
    if i < |a| {
      SameFound(a, b, c, n, i + 1);
    }
  }

  /** Entries of a sound filesystem after inode `idx` is gone. */
  lemma ChildAfterRemove(fs: FS, idx: int, c: int, n: string)
    requires FsOk(fs) && Sized(fs) && 0 < idx < MAX_INODES && fs.inodes[idx].used
    ensures var t := FS(fs.inodes[idx := CLEAR], CloseAll(fs.fds, idx));
      Child(t, c, n) == if Child(fs, c, n) == idx then -1 else Child(fs, c, n)
  {
    hide Anchored, NameOk, FilesOk, FdsOk;
    var t := FS(fs.inodes[idx := CLEAR], CloseAll(fs.fds, idx));
    var j := Child(fs, c, n);
    if j >= 0 && j != idx {
      FoundAt(t, c, n, j);
    } else {
      forall k | 1 <= k < MAX_INODES ensures !IsChild(t.inodes[k], c, n) {
        if k != idx && j == idx {
          assert Siblings(fs.inodes[k], fs.inodes[idx]) ==> fs.inodes[k].name != fs.inodes[idx].name;
        }
      }
      NotFound(t, c, n);
    }
  }

  /** Removing an entry takes its own paths away and leaves the result of every
      other lookup as it was; no descriptor stays on it. */
  lemma {:induction false} UnlinkResolves(fs: FS, path: string, q: string)
    requires FsOk(fs) && Sized(fs) && Unlink(fs, path).1 == 0
    ensures var t := Unlink(fs, path).0;
      Sized(t) && Resolve(t, q) == (if Resolve(fs, q) == Resolve(fs, path) then -1 else Resolve(fs, q)) &&
      forall f :: 0 <= f < MAX_FDS ==> t.fds[f].inode != Resolve(fs, path)
  {
    hide Child, Resolve, HasChild, TreeOk, FilesOk, FdsOk;
    RootUsed(fs);
    ResolveUsed(fs, path);
    UnlinkKeeps(fs, path);
    var idx := Resolve(fs, path);
    var t := Unlink(fs, path).0;
    RootUsed(t);
    ResolveUsed(t, q);
    forall c, n ensures Child(t, c, n) == if Child(fs, c, n) == idx then -1 else Child(fs, c, n) {
      ChildAfterRemove(fs, idx, c, n);
    }
    ResolveGrows(t, fs, q);
    Childless(fs, path);
    ResolveAround(fs, t, idx, q);
  }

  /** What can be removed has no children. */
  lemma Childless(fs: FS, path: string)
    requires FsOk(fs) && Sized(fs) && Unlink(fs, path).1 == 0
    ensures var idx := Resolve(fs, path); idx > 0 && forall n :: Child(fs, idx, n) == -1
  {
    hide Resolve;
    RootUsed(fs);
    ResolveUsed(fs, path);
    var idx := Resolve(fs, path);
    if fs.inodes[idx].kind == Dir {
      NoChildren(fs.inodes, idx, 1);
    }
    hide HasChild;
    forall n ensures Child(fs, idx, n) == -1 {
      var j := Child(fs, idx, n);
      if j > 0 {
        ParentUsed(fs.inodes, j);
        assert false;
      }
    }
  }

  lemma {:induction false} WalkAround(fs: FS, t: FS, idx: int, cur: int, p: string)
    requires Sized(fs) && Sized(t) && -1 <= cur < MAX_INODES && idx > 0 && forall n :: Child(fs, idx, n) == -1
    requires forall c, n :: Child(t, c, n) == if Child(fs, c, n) == idx then -1 else Child(fs, c, n)
    requires cur != idx
    ensures Walk(fs, cur, p) != idx ==> Walk(t, cur, p) == Walk(fs, cur, p)
    decreases |p|
  {
    hide Child;
    if p != "" {
      var n := ComponentEnd(p, 0);
      if n == 0 {
        WalkAround(fs, t, idx, cur, p[1..]);
      } else {
        var found := Child(fs, cur, p[..n]);
        if found == idx {
          WalkFrom(fs, idx, Rest(p, n));
        } else if found >= 0 {
          WalkAround(fs, t, idx, found, Rest(p, n));
        }
      }
    }
  }

  /** From an inode without children a walk stays or fails. */
  lemma {:induction false} WalkFrom(fs: FS, idx: int, p: string)
    requires Sized(fs) && 0 < idx < MAX_INODES && forall n :: Child(fs, idx, n) == -1
    ensures Walk(fs, idx, p) == idx || Walk(fs, idx, p) == -1
    decreases |p|
  {
    hide Child;
    if p != "" && ComponentEnd(p, 0) == 0 {
      WalkFrom(fs, idx, p[1..]);
    }
  }

  lemma ResolveAround(fs: FS, t: FS, idx: int, q: string)
    requires Sized(fs) && Sized(t) && 0 < idx < MAX_INODES && forall n :: Child(fs, idx, n) == -1
    requires forall c, n :: Child(t, c, n) == if Child(fs, c, n) == idx then -1 else Child(fs, c, n)
    ensures Resolve(fs, q) != idx ==> Resolve(t, q) == Resolve(fs, q)
  {
    hide Child, Walk;
    if q != "" && q != "/" {
      WalkAround(fs, t, idx, 0, if q[0] == '/' then q[1..] else q);
    }
  }

  /** Removing a directory just made gives back the filesystem there was, its
      slot cleared, exactly when its path is good. */
  lemma {:induction false} UnlinkUndoesMkdir(fs: FS, path: string)
    requires FsOk(fs) && Sized(fs) && Mkdir(fs, path).1 >= 0
    ensures var (t, idx) := Mkdir(fs, path);
      Sized(t) && (Unlink(t, path) == (fs.(inodes := fs.inodes[idx := CLEAR]), 0) <==> GoodPath(path))
  {
    hide FsOk, Resolve, GoodPath, Split, Mkdir, Unlink;
    MkdirResolves(fs, path);
    var (t, idx) := Mkdir(fs, path);
    if Resolve(t, path) == idx {
      UnlinkClears(fs, path);
    } else {
      UnlinkMisses(fs, path);
    }
  }

  lemma UnlinkClears(fs: FS, path: string)
    requires FsOk(fs) && Sized(fs) && Mkdir(fs, path).1 >= 0 && Resolve(Mkdir(fs, path).0, path) == Mkdir(fs, path).1
    ensures var (t, idx) := Mkdir(fs, path);
      Unlink(t, path) == (fs.(inodes := fs.inodes[idx := CLEAR]), 0)
  {
    hide Child, Resolve, GoodPath, Split, FilesOk, Anchored, NameOk;
    MkdirKeeps(fs, path);
    var (t, idx) := Mkdir(fs, path);
    forall j | 0 < j < MAX_INODES && fs.inodes[j].used ensures fs.inodes[j].parent != idx {
      ParentUsed(fs.inodes, j);
    }
    ParentDirIs(fs, path);
    NoneThere(t.inodes, idx, 1);
    assert CloseAll(t.fds, idx) == fs.fds;
    assert t.inodes[idx := CLEAR] == fs.inodes[idx := CLEAR];
  }

  lemma UnlinkMisses(fs: FS, path: string)
    requires Sized(fs) && Mkdir(fs, path).1 >= 0 && Resolve(Mkdir(fs, path).0, path) != Mkdir(fs, path).1
    ensures var (t, idx) := Mkdir(fs, path);
      Unlink(t, path) != (fs.(inodes := fs.inodes[idx := CLEAR]), 0)
  {
    hide Child, Resolve, Split, HasChild, ParentDir;
    var (t, idx) := Mkdir(fs, path);
    assert t.inodes[idx].used && !CLEAR.used;
    assert fs.inodes[idx := CLEAR][idx] == CLEAR;
    if Unlink(t, path).1 == 0 {
      assert Unlink(t, path).0.inodes[idx].used;
    }
  }

  lemma {:induction false} NoneThere(inodes: seq<Inode>, par: int, i: nat)
    requires 0 < i <= |inodes| && forall j :: 0 < j < |inodes| ==> !(inodes[j].used && inodes[j].parent == par)
    ensures !HasChild(inodes, par, i)
    decreases |inodes| - i
  {
    if i < |inodes| {
      NoneThere(inodes, par, i + 1);
    }
  }
}
