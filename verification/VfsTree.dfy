/** Every filesystem operation keeps the tree. */
module VfsTree {
  import opened Basics
  import opened Vfs

  /** Climbing is not disturbed by a slot that nothing hangs on. */
  lemma {:induction false} RootedKept(a: seq<Inode>, b: seq<Inode>, gone: int, i: int, k: nat)
    requires |a| == |b| && Rooted(a, i, k) && i != gone
    requires forall j :: 0 <= j < |a| && j != gone && a[j].used ==>
      b[j].used && b[j].kind == a[j].kind && (j > 0 ==> b[j].parent == a[j].parent && a[j].parent != gone)
    ensures Rooted(b, i, k)
    decreases k
  {
    if i != 0 {
      RootedKept(a, b, gone, a[i].parent, k - 1);
    }
  }

  lemma AnchoredKept(a: seq<Inode>, b: seq<Inode>, gone: int, i: int)
    requires |a| == |b| && Anchored(a, i) && i != gone
    requires forall j :: 0 <= j < |a| && j != gone && a[j].used ==>
      b[j].used && b[j].kind == a[j].kind && (j > 0 ==> b[j].parent == a[j].parent && a[j].parent != gone)
    ensures Anchored(b, i)
  {
    hide Rooted;
    var k: nat :| Rooted(a, i, k);
    RootedKept(a, b, gone, i, k);
  }

  /** The parent of a used inode is a used directory. */
  lemma ParentUsed(inodes: seq<Inode>, i: int)
    requires TreeOk(inodes) && 0 < i < MAX_INODES && inodes[i].used
    ensures 0 <= inodes[i].parent < MAX_INODES && inodes[inodes[i].parent].used && inodes[inodes[i].parent].kind == Dir
  {
    var k: nat :| Rooted(inodes, i, k);
    assert Rooted(inodes, inodes[i].parent, k - 1);
  }

  lemma {:induction false} WalkUsed(fs: FS, cur: int, p: string)
    requires Sized(fs) && -1 <= cur < MAX_INODES && (cur >= 0 ==> fs.inodes[cur].used)
    ensures var r := Walk(fs, cur, p); r >= 0 ==> fs.inodes[r].used
    decreases |p|
  {
    if p != "" {
      var n := ComponentEnd(p, 0);
      if n == 0 {
        WalkUsed(fs, cur, p[1..]);
      } else {
        var found := Child(fs, cur, p[..n]);
        if found >= 0 {
          WalkUsed(fs, found, Rest(p, n));
        }
      }
    }
  }

  lemma ResolveUsed(fs: FS, path: string)
    requires Sized(fs) && fs.inodes[0].used
    ensures var r := Resolve(fs, path); r >= 0 ==> fs.inodes[r].used
  {
    if path != "" && path != "/" {
      WalkUsed(fs, 0, if path[0] == '/' then path[1..] else path);
    }
  }

  lemma SplitName(path: string)
    ensures Split(path).Some? ==> NameOk(Split(path).value.name)
  {
  }

  /** A new entry keeps the tree exactly when its directory has none of that
      name. */
  lemma {:induction false} AddTree(inodes: seq<Inode>, idx: int, n: Inode)
    requires TreeOk(inodes) && 0 < idx < MAX_INODES && !inodes[idx].used && n.used && NameOk(n.name)
    requires 0 <= n.parent < MAX_INODES && inodes[n.parent].used && inodes[n.parent].kind == Dir
    ensures TreeOk(inodes[idx := n]) <==> FindChild(inodes, n.parent, n.name, 1) == -1
  {
    hide Rooted, NameOk;
    var b := inodes[idx := n];
    forall j | 0 < j < MAX_INODES && inodes[j].used ensures inodes[j].parent != idx {
      ParentUsed(inodes, j);
    }
    forall i | 0 <= i < MAX_INODES && i != idx && inodes[i].used ensures Anchored(b, i) {
      AnchoredKept(inodes, b, idx, i);
    }
    assert Anchored(b, idx) by {
      assert Anchored(b, n.parent);
      var k: nat :| Rooted(b, n.parent, k);
      OneMore(b, idx, k);
    }
    var c := FindChild(inodes, n.parent, n.name, 1);
    if c != -1 {
      assert Siblings(b[c], b[idx]) && b[c].name == b[idx].name;
    } else {
      forall i | 0 < i < MAX_INODES && i != idx && Siblings(b[i], n) ensures b[i].name != n.name {
        assert !IsChild(inodes[i], n.parent, n.name);
      }
    }
  }

  lemma OneMore(b: seq<Inode>, idx: int, k: nat)
    requires 0 < idx < |b| && b[idx].used && Rooted(b, b[idx].parent, k) && b[b[idx].parent].kind == Dir
    ensures Rooted(b, idx, k + 1)
  {
  }

  /** Changing only sizes and contents. */
  lemma {:induction false} SameTree(a: seq<Inode>, idx: int, n: Inode)
    requires TreeOk(a) && 0 < idx < MAX_INODES && n == a[idx].(size := n.size, data := n.data)
    ensures TreeOk(a[idx := n])
  {
    hide Rooted, NameOk;
    var b := a[idx := n];
    forall i | 0 <= i < MAX_INODES && b[i].used ensures Anchored(b, i) {
      forall j | 0 < j < MAX_INODES && a[j].used ensures a[j].parent != -1 {
        ParentUsed(a, j);
      }
      AnchoredKept(a, b, -1, i);
    }
  }

  lemma {:induction false} NoChildren(inodes: seq<Inode>, par: int, i: nat)
    requires !HasChild(inodes, par, i) && i <= |inodes|
    ensures forall j :: i <= j < |inodes| ==> !(inodes[j].used && inodes[j].parent == par)
    decreases |inodes| - i
  {
    if i < |inodes| {
      NoChildren(inodes, par, i + 1);
    }
  }

  /** Removing an inode that nothing hangs on. */
  lemma {:induction false} RemoveTree(inodes: seq<Inode>, idx: int)
    requires TreeOk(inodes) && 0 < idx < MAX_INODES && inodes[idx].used
    requires inodes[idx].kind == Dir ==> !HasChild(inodes, idx, 1)
    ensures TreeOk(inodes[idx := CLEAR])
  {
    hide Rooted, NameOk, HasChild;
    var b := inodes[idx := CLEAR];
    if inodes[idx].kind == Dir {
      NoChildren(inodes, idx, 1);
    }
    forall j | 0 < j < MAX_INODES && inodes[j].used ensures inodes[j].parent != idx {
      ParentUsed(inodes, j);
    }
    forall i | 0 <= i < MAX_INODES && b[i].used ensures Anchored(b, i) {
      AnchoredKept(inodes, b, idx, i);
    }
  }

  /** What the directory for a new entry is. */
  lemma ParentDirIs(fs: FS, path: string)
    requires FsOk(fs)
    ensures Sized(fs)
    ensures var par := ParentDir(fs, path);
      par >= 0 ==> Split(path).Some? && NameOk(Split(path).value.name) && fs.inodes[par].used && fs.inodes[par].kind == Dir
  {
    SplitName(path);
    if Split(path).Some? {
      ResolveUsed(fs, Split(path).value.parent);
    }
  }

  /** Making a directory keeps the filesystem sound, whatever the path. */
  lemma MkdirKeeps(fs: FS, path: string)
    requires FsOk(fs)
    ensures Sized(fs) && FsOk(Mkdir(fs, path).0)
  {
    hide Rooted, Resolve, Split, TreeOk, FileOk;
    ParentDirIs(fs, path);
    var par := ParentDir(fs, path);
    if par >= 0 {
      var name := Split(path).value.name;
      var idx := FreeInode(fs.inodes, 1);
      if Child(fs, par, name) < 0 && idx >= 0 {
        AddTree(fs.inodes, idx, Inode(true, name, Dir, par, 0, None));
      }
    }
  }

  /** Whether opening would add an entry beside one of the same, cut, name. */
  ghost predicate AddsTwin(fs: FS, path: string, flags: nat, memory: bool)
    requires Sized(fs)
  {
    Resolve(fs, path) < 0 && Creat(flags) && memory && ParentDir(fs, path) >= 0 && FreeInode(fs.inodes, 1) >= 0 &&
    Child(fs, ParentDir(fs, path), Split(path).value.name) >= 0
  }

  lemma ZerosOk(n: Inode)
    requires n.size == 0 && n.data == Some(Zeros())
    ensures FileOk(n)
  {
  }

  lemma {:induction false} TargetKeeps(fs: FS, path: string, flags: nat, memory: bool)
    requires FsOk(fs)
    ensures Sized(fs)
    ensures var t := Target(fs, path, flags, memory);
      (FsOk(t.0) <==> !AddsTwin(fs, path, flags, memory)) && FdsOk(t.0) && t.0.fds == fs.fds && |t.0.inodes| == MAX_INODES &&
      (t.1 >= 0 ==> t.1 < MAX_INODES && t.0.inodes[t.1].used && t.0.inodes[t.1].kind == File && FileOk(t.0.inodes[t.1]))
  {
    hide Rooted, Resolve, Split, TreeOk, FileOk, Zeros;
    assert Sized(fs) && fs.inodes[0].used by { RootUsed(fs); }
    ResolveUsed(fs, path);
    var idx := Resolve(fs, path);
    if idx >= 0 {
      if fs.inodes[idx].kind == File && Truncate(flags) {
        var n := fs.inodes[idx];
        RootUsed(fs);
        IsFile(fs, idx);
        var m := n.(size := 0, data := Some(Zeros()));
        ZerosOk(m);
        SameTree(fs.inodes, idx, m);
      }
    } else if Creat(flags) {
      ParentDirIs(fs, path);
      var par := ParentDir(fs, path);
      var slot := FreeInode(fs.inodes, 1);
      if par >= 0 && slot >= 0 {
        if memory {
          var n := Inode(true, Split(path).value.name, File, par, 0, Some(Zeros()));
          ZerosOk(n);
          AddTree(fs.inodes, slot, n);
        } else {
          UnusedTree(fs.inodes, slot, fs.inodes[slot].(data := None));
        }
      }
    }
  }

  lemma RootUsed(fs: FS)
    requires FsOk(fs)
    ensures Sized(fs) && fs.inodes[0].used && fs.inodes[0].kind == Dir
  {
  }

  lemma IsFile(fs: FS, idx: int)
    requires FsOk(fs) && 0 <= idx < MAX_INODES && fs.inodes[idx].used && fs.inodes[idx].kind == File
    ensures idx > 0 && FileOk(fs.inodes[idx]) && fs.inodes[idx].data.Some?
  {
  }

  lemma UnusedTree(inodes: seq<Inode>, idx: int, n: Inode)
    requires TreeOk(inodes) && 0 < idx < MAX_INODES && !inodes[idx].used && !n.used
    ensures TreeOk(inodes[idx := n])
  {
    hide Rooted, NameOk;
    var b := inodes[idx := n];
    forall i | 0 <= i < MAX_INODES && b[i].used ensures Anchored(b, i) {
      forall j | 0 < j < MAX_INODES && inodes[j].used ensures inodes[j].parent != idx {
        ParentUsed(inodes, j);
      }
      AnchoredKept(inodes, b, idx, i);
    }
  }

  /** Opening keeps the filesystem sound exactly when it adds no twin. */
  lemma {:induction false} OpenKeeps(fs: FS, path: string, flags: nat, memory: bool)
    requires FsOk(fs)
    ensures Sized(fs)
    ensures FsOk(Open(fs, path, flags, memory).0) <==> !AddsTwin(fs, path, flags, memory)
  {
    hide Target, AddsTwin, TreeOk, FileOk, FilesOk;
    RootUsed(fs);
    TargetKeeps(fs, path, flags, memory);
    var t := Target(fs, path, flags, memory);
    if t.1 >= 0 {
      FileSize(t.0.inodes[t.1]);
      OpenFdKeeps(t.0, t.1, flags);
    }
  }

  lemma FileSize(n: Inode)
    requires FileOk(n)
    ensures 0 <= n.size <= MAX_FSIZE
  {
  }

  lemma OpenFdKeeps(fs: FS, idx: int, flags: nat)
    requires FdsOk(fs) && 0 <= idx < |fs.inodes| && fs.inodes[idx].used && fs.inodes[idx].kind == File
    requires 0 <= fs.inodes[idx].size <= MAX_FSIZE
    ensures FsOk(OpenFd(fs, idx, flags).0) <==> FsOk(fs)
  {
    hide TreeOk, FilesOk;
  }

  lemma CloseKeeps(fs: FS, fd: int)
    requires FsOk(fs)
    ensures Sized(fs) && FsOk(Close(fs, fd))
  {
    hide FileOk, Rooted, NameOk;
  }

  lemma ReadKeeps(fs: FS, fd: int, len: nat)
    requires FsOk(fs)
    ensures Sized(fs) && FsOk(Read(fs, fd, len).0)
  {
    hide Rooted, NameOk, Anchored;
    if Opened(fs, fd) {
      IsFile(fs, fs.fds[fd].inode);
    }
  }

  lemma {:induction false} WriteKeeps(fs: FS, fd: int, bytes: seq<byte>)
    requires FsOk(fs)
    ensures Sized(fs) && FsOk(Write(fs, fd, bytes).0)
  {
    hide TreeOk;
    RootUsed(fs);
    if Opened(fs, fd) {
      var i := fs.fds[fd].inode;
      IsFile(fs, i);
      var n := Write(fs, fd, bytes).0.inodes[i];
      SameTree(fs.inodes, i, n);
    }
  }

  lemma SeekKeeps(fs: FS, fd: int, offset: int, whence: Whence)
    requires FsOk(fs)
    ensures Sized(fs) && FsOk(Seek(fs, fd, offset, whence).0)
  {
    hide TreeOk;
    RootUsed(fs);
    if 0 <= fd < MAX_FDS && fs.fds[fd].inode != -1 {
      IsFile(fs, fs.fds[fd].inode);
    }
  }

  lemma {:induction false} UnlinkKeeps(fs: FS, path: string)
    requires FsOk(fs)
    ensures Sized(fs) && FsOk(Unlink(fs, path).0)
  {
    hide TreeOk, Resolve, HasChild, FileOk;
    RootUsed(fs);
    ResolveUsed(fs, path);
    var idx := Resolve(fs, path);
    if idx > 0 && (fs.inodes[idx].kind == Dir ==> !HasChild(fs.inodes, idx, 1)) {
      RemoveTree(fs.inodes, idx);
    }
  }

  // ----- runs -----

  datatype Op =
    | MkdirOp(path: string)
    | OpenOp(path: string, flags: nat, memory: bool)
    | CloseOp(fd: int)
    | ReadOp(fd: int, len: nat)
    | WriteOp(fd: int, bytes: seq<byte>)
    | SeekOp(fd: int, offset: int, whence: Whence)
    | UnlinkOp(path: string)

  function Apply(fs: FS, op: Op): FS
    requires Sized(fs)
  {
    match op
    case MkdirOp(path) => Mkdir(fs, path).0
    case OpenOp(path, flags, memory) => Open(fs, path, flags, memory).0
    case CloseOp(fd) => Close(fs, fd)
    case ReadOp(fd, len) => Read(fs, fd, len).0
    case WriteOp(fd, bytes) => Write(fs, fd, bytes).0
    case SeekOp(fd, offset, whence) => Seek(fs, fd, offset, whence).0
    case UnlinkOp(path) => Unlink(fs, path).0
  }

  lemma {:induction false} ApplyKeeps(fs: FS, op: Op)
    requires FsOk(fs)
    ensures Sized(fs)
    ensures FsOk(Apply(fs, op)) <==> !(op.OpenOp? && AddsTwin(fs, op.path, op.flags, op.memory))
  {
    RootUsed(fs);
    hide *;
    hide FsOk, AddsTwin;
    match op
    case MkdirOp(path) => MkdirKeeps(fs, path);
    case OpenOp(path, flags, memory) => OpenKeeps(fs, path, flags, memory);
    case CloseOp(fd) => CloseKeeps(fs, fd);
    case ReadOp(fd, len) => ReadKeeps(fs, fd, len);
    case WriteOp(fd, bytes) => WriteKeeps(fs, fd, bytes);
    case SeekOp(fd, offset, whence) => SeekKeeps(fs, fd, offset, whence);
    case UnlinkOp(path) => UnlinkKeeps(fs, path);
  }
}
