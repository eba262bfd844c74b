/** What each file operation does to the whole filesystem, and exactly when it is
    refused. */
module VfsEffects {
  import opened Basics
  import opened Vfs
  import opened VfsTree
  import opened VfsFiles

  /** The three flags of an open are single bits; all flags there are fit five. */
  lemma FlagsAre(flags: bv5)
    ensures Creat(flags as nat) <==> flags & 4 != 0
    ensures Append(flags as nat) <==> flags & 8 != 0
    ensures Truncate(flags as nat) <==> flags & 16 != 0
  {
  }

  // ----- descriptors -----

  /** Seeking: the goal counts from the start, from the position or from the
      end; it is reached if it is within the contents, and else nothing happens. */
  lemma {:induction false} SeekEffect(fs: FS, fd: int, offset: int, whence: Whence)
    requires FsOk(fs)
    ensures Sized(fs)
    ensures Seek(fs, fd, offset, whence) ==
      if !IsOpen(fs, fd) || whence == Other then (fs, -1)
      else
        var size := |Content(fs.inodes[FileOf(fs, fd)])|;
        var goal := if whence == Set then offset else if whence == Cur then fs.fds[fd].pos + offset else size + offset;
        if 0 <= goal <= size then (fs.(fds := fs.fds[fd := fs.fds[fd].(pos := goal)]), goal) else (fs, -1)
  {
    hide TreeOk;
    RootUsed(fs);
    OpenIsOpened(fs, fd);
    assert fs.fds[..] == fs.fds;
    assert 0 <= fd < MAX_FDS && fs.fds[fd].inode != -1 ==> 0 <= fs.fds[fd].inode < MAX_INODES;
  }

  /** A closed descriptor is free; the others and all files stay. */
  lemma CloseEffect(fs: FS, fd: int)
    requires Sized(fs)
    ensures var t := Close(fs, fd);
      t.inodes == fs.inodes && |t.fds| == MAX_FDS && (forall g :: 0 <= g < MAX_FDS && g != fd ==> t.fds[g] == fs.fds[g]) &&
      (0 <= fd < MAX_FDS ==> t.fds[fd].inode == -1) && (!(0 <= fd < MAX_FDS) ==> t == fs)
  {
  }

  /** Nothing is read or written through a descriptor that is not open. */
  lemma NotOpen(fs: FS, fd: int, len: nat, bytes: seq<byte>)
    requires FsOk(fs)
    ensures Sized(fs)
    ensures !IsOpen(fs, fd) ==> Read(fs, fd, len) == (fs, Refused) && Write(fs, fd, bytes) == (fs, -1)
  {
    hide TreeOk;
    RootUsed(fs);
    OpenIsOpened(fs, fd);
  }

  // ----- entries -----

  /** `idx` is the first unused inode after the root, MAX_INODES when there is
      none; `fd` the first free descriptor. */
  ghost predicate FirstUnused(fs: FS, idx: nat) {
    Sized(fs) && 0 < idx <= MAX_INODES && (forall k :: 0 < k < idx ==> fs.inodes[k].used) &&
    (idx < MAX_INODES ==> !fs.inodes[idx].used)
  }

  ghost predicate FirstClosed(fs: FS, fd: nat) {
    Sized(fs) && fd <= MAX_FDS && (forall k :: 0 <= k < fd ==> fs.fds[k].inode != -1) &&
    (fd < MAX_FDS ==> fs.fds[fd].inode == -1)
  }

  /** The directory the parent part of `path` leads to, if it does to one. */
  predicate Leads(fs: FS, path: string, par: int)
    requires Sized(fs)
  {
    Split(path).Some? && 0 <= par < MAX_INODES && Resolve(fs, Split(path).value.parent) == par && fs.inodes[par].kind == Dir
  }

  ghost predicate NowhereLed(fs: FS, path: string)
    requires Sized(fs)
  {
    forall par :: !Leads(fs, path, par)
  }

  lemma ParentIs(fs: FS, path: string)
    requires Sized(fs)
    ensures ParentDir(fs, path) >= 0 ==> Leads(fs, path, ParentDir(fs, path))
    ensures forall par :: Leads(fs, path, par) ==> par >= 0 && ParentDir(fs, path) == par
  {
    hide Resolve, Split;
  }

  /** A directory is made exactly when the parent part of the path leads to a
      directory without an entry of that name and an inode is free; it is then an
      empty directory in the first free inode, and nothing else changes. */
  lemma {:induction false} MkdirEffect(fs: FS, path: string, par: int, idx: nat)
    requires FirstUnused(fs, idx) && (Leads(fs, path, par) || NowhereLed(fs, path))
    ensures Mkdir(fs, path) ==
      if Leads(fs, path, par) && idx < MAX_INODES &&
        (forall k :: 0 < k < MAX_INODES && fs.inodes[k].used && fs.inodes[k].parent == par ==>
          fs.inodes[k].name != Split(path).value.name)
      then (fs.(inodes := fs.inodes[idx := Inode(true, Split(path).value.name, Dir, par, 0, None)]), idx as int)
      else (fs, -1)
  {
    hide Resolve, Split, Leads;
    ParentIs(fs, path);
    if Leads(fs, path, par) {
      var name := Split(path).value.name;
      assert forall k :: 0 < k < MAX_INODES ==>
        (IsChild(fs.inodes[k], par, name) <==> fs.inodes[k].used && fs.inodes[k].parent == par && fs.inodes[k].name == name);
      hide IsChild;
    }
  }

  /** What a descriptor just opened on inode `i` looks like: the first free one,
      at the end if appending and else at the start, with the flags given. */
  function WithFd(fs: FS, i: int, flags: nat, fd: nat): (FS, int)
    requires Sized(fs) && 0 <= i < MAX_INODES && fd <= MAX_FDS
  {
    if fd == MAX_FDS then (fs, -1)
    else (fs.(fds := fs.fds[fd := Fd(i, if flags / 8 % 2 == 1 then fs.inodes[i].size else 0, flags)]), fd as int)
  }

  /** Opening what is there: only files can be opened; with the truncation flag
      the file is emptied, even when no descriptor is free. */
  lemma {:induction false} OpenThereEffect(fs: FS, path: string, flags: nat, memory: bool, fd: nat)
    requires FsOk(fs) && FirstClosed(fs, fd) && Resolve(fs, path) >= 0
    ensures var i := Resolve(fs, path);
      Open(fs, path, flags, memory) ==
        if fs.inodes[i].kind != File then (fs, -1)
        else if flags / 16 % 2 == 1 then
          WithFd(fs.(inodes := fs.inodes[i := fs.inodes[i].(size := 0, data := Some(seq(16384, _ => 0)))]), i, flags, fd)
        else WithFd(fs, i, flags, fd)
  {
    hide TreeOk, Resolve, FdsOk;
    var i := Resolve(fs, path);
    RootUsed(fs);
    ResolveUsed(fs, path);
    assert Zeros() == seq(16384, _ => 0);
    if fs.inodes[i].kind == File {
      IsFile(fs, i);
    }
  }

  /** Opening what is not there: with the creation flag, a place, an inode and
      memory, an empty file is made in the first free inode, even when no
      descriptor is free; otherwise nothing that is in use changes. */
  lemma {:induction false} OpenNewEffect(fs: FS, path: string, flags: nat, memory: bool, par: int, idx: nat, fd: nat)
    requires FirstUnused(fs, idx) && FirstClosed(fs, fd) && Resolve(fs, path) < 0
    requires Leads(fs, path, par) || NowhereLed(fs, path)
    ensures var (t, r) := Open(fs, path, flags, memory);
      if flags / 4 % 2 == 1 && Leads(fs, path, par) && idx < MAX_INODES && memory then
        (t, r) == WithFd(
          fs.(inodes := fs.inodes[idx := Inode(true, Split(path).value.name, File, par, 0, Some(seq(16384, _ => 0)))]),
          idx, flags, fd)
      else
        r == -1 && t.fds == fs.fds && |t.inodes| == MAX_INODES &&
        forall k :: 0 <= k < MAX_INODES && fs.inodes[k].used ==> t.inodes[k] == fs.inodes[k]
  {
    hide Resolve, Split, Leads, CreateFile, OpenFd, ParentDir;
    NewFile(fs, path, memory, par, idx);
    var t := CreateFile(fs, path, memory);
    if t.1 >= 0 {
      OpenFdIs(t.0, t.1, flags, fd) by { assert Sized(t.0) && t.0.fds == fs.fds; }
    }
  }

  lemma NewFile(fs: FS, path: string, memory: bool, par: int, idx: nat)
    requires FirstUnused(fs, idx) && (Leads(fs, path, par) || NowhereLed(fs, path))
    ensures var (t, r) := CreateFile(fs, path, memory);
      if Leads(fs, path, par) && idx < MAX_INODES && memory then
        r == idx && t == fs.(inodes := fs.inodes[idx := Inode(true, Split(path).value.name, File, par, 0, Some(seq(16384, _ => 0)))])
      else
        r == -1 && t.fds == fs.fds && |t.inodes| == MAX_INODES &&
        forall k :: 0 <= k < MAX_INODES && fs.inodes[k].used ==> t.inodes[k] == fs.inodes[k]
  {
    hide Resolve, Split, Leads, ParentDir;
    ParentIs(fs, path);
    assert Zeros() == seq(16384, _ => 0);
  }

  lemma OpenFdIs(fs: FS, i: int, flags: nat, fd: nat)
    requires FirstClosed(fs, fd) && 0 <= i < MAX_INODES
    ensures OpenFd(fs, i, flags) == WithFd(fs, i, flags, fd)
  {
  }

  /** What can be removed is a file or a directory without entries, and not the
      root; its inode is cleared and every descriptor on it closed, and nothing
      else changes. */
  lemma {:induction false} UnlinkEffect(fs: FS, path: string)
    requires Sized(fs)
    ensures var i := Resolve(fs, path);
      var (t, r) := Unlink(fs, path);
      if i > 0 && (fs.inodes[i].kind == File ||
        forall k :: 0 < k < MAX_INODES && fs.inodes[k].used ==> fs.inodes[k].parent != i)
      then
        r == 0 && t.inodes == fs.inodes[i := Inode(false, "", File, 0, 0, None)] && |t.fds| == MAX_FDS &&
        (forall f :: 0 <= f < MAX_FDS ==>
          t.fds[f] == if fs.fds[f].inode == i then fs.fds[f].(inode := -1) else fs.fds[f])
      else r == -1 && t == fs
  {
    hide Resolve;
    var i := Resolve(fs, path);
    if i > 0 {
      HasChildIs(fs.inodes, i, 1);
    }
  }

  lemma {:induction false} HasChildIs(inodes: seq<Inode>, par: int, i: nat)
    requires i <= |inodes|
    ensures HasChild(inodes, par, i) <==> exists k :: i <= k < |inodes| && inodes[k].used && inodes[k].parent == par
    decreases |inodes| - i
  {
    if i < |inodes| {
      HasChildIs(inodes, par, i + 1);
    }
  }
}
