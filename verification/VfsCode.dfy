/** The filesystem as code over its two tables, proved to compute the model. */
module VfsCode {
  import opened Basics
  import opened Vfs
  import opened VfsTree

  /** Copy a name into its buffer, cut to fit. */
  method CopyName(src: string) returns (dst: string)
    ensures dst == Cut(src)
  {
    var i := 0;
    dst := "";
    while i < |src| && i < MAX_NAME - 1
      invariant 0 <= i <= |src| && i < MAX_NAME && dst == src[..i]
    {
      dst := dst + [src[i]];
      i := i + 1;
    }
  }

  lemma SlashFound(path: string, n: nat, slash: int)
    requires n <= |path| && -1 <= slash < n && (slash >= 0 ==> path[slash] == '/')
    requires forall k :: slash < k < n ==> path[k] != '/'
    ensures LastSlash(path, n) == slash
  {
  }

  lemma SplitHere(path: string, slash: int)
    requires slash == LastSlash(path, |path|)
    ensures var name := Cut(path[slash + 1..]);
      Split(path) ==
        if name == "" then None
        else if slash <= 0 then Some(Parts("/", name))
        else Some(Parts(Cut(path[..slash]), name))
  {
    hide Cut, LastSlash;
  }

  method FindSlash(path: string) returns (slash: int)
    ensures slash == LastSlash(path, |path|)
  {
    slash := -1;
    for i := 0 to |path|
      invariant -1 <= slash < i && (slash >= 0 ==> path[slash] == '/')
      invariant forall k :: slash < k < i ==> path[k] != '/'
    {
      if path[i] == '/' {
        slash := i;
      }
    }
    SlashFound(path, |path|, slash);
  }

  lemma EmptyPath()
    ensures Split("") == None
  {
  }

  method SplitPath(path: string) returns (ok: bool, parent: string, name: string)
    ensures ok == Split(path).Some?
    ensures ok ==> Split(path) == Some(Parts(parent, name))
  {
    hide Split, Cut, LastSlash;
    if |path| == 0 {
      EmptyPath();
      return false, "", "";
    }
    var slash := FindSlash(path);
    SplitHere(path, slash);
    if slash <= 0 {
      parent := "/";
    } else {
      parent := CopyName(path[..slash]);
    }
    name := CopyName(path[slash + 1..]);
    ok := name != "";
  }

  class FileSystem {
    const inodes: array<Inode>
    const fds: array<Fd>

    ghost predicate Valid() {
      inodes.Length == MAX_INODES && fds.Length == MAX_FDS
    }

    ghost function View(): FS
      reads inodes, fds
    {
      FS(inodes[..], fds[..])
    }

    constructor ()
      ensures Valid() && View() == Init() && fresh(inodes) && fresh(fds)
    {
      inodes := new Inode[MAX_INODES](_ => CLEAR);
      fds := new Fd[MAX_FDS](_ => Fd(0, 0, 0));
      new;
      for i := 0 to MAX_FDS
        invariant inodes[..] == seq(MAX_INODES, _ => CLEAR)
        invariant forall k :: 0 <= k < i ==> fds[k] == Fd(-1, 0, 0)
        invariant forall k :: i <= k < MAX_FDS ==> fds[k] == Fd(0, 0, 0)
      {
        fds[i] := fds[i].(inode := -1);
      }
      inodes[0] := ROOT;
    }

    method AllocInode() returns (r: int)
      requires Valid()
      ensures r == FreeInode(inodes[..], 1)
    {
      r := 1;
      while r < MAX_INODES
        invariant 1 <= r <= MAX_INODES && FreeInode(inodes[..], 1) == FreeInode(inodes[..], r)
      {
        if !inodes[r].used {
          return;
        }
        r := r + 1;
      }
      r := -1;
    }

    method AllocFd() returns (r: int)
      requires Valid()
      ensures r == FreeFd(fds[..], 0)
    {
      r := 0;
      while r < MAX_FDS
        invariant 0 <= r <= MAX_FDS && FreeFd(fds[..], 0) == FreeFd(fds[..], r)
      {
        if fds[r].inode == -1 {
          return;
        }
        r := r + 1;
      }
      r := -1;
    }

    method FindEntry(par: int, name: string) returns (r: int)
      requires Valid()
      ensures r == Child(View(), par, name)
    {
      r := 1;
      while r < MAX_INODES
        invariant 1 <= r <= MAX_INODES && Child(View(), par, name) == FindChild(inodes[..], par, name, r)
      {
        if inodes[r].used && inodes[r].parent == par && inodes[r].name == name {
          return;
        }
        r := r + 1;
      }
      r := -1;
    }

    /** Read one component of `path` from position `p` on. */
    method NextComponent(path: string, start: nat) returns (comp: string, p: nat)
      requires start <= |path|
      ensures var rest := path[start..];
        var n := ComponentEnd(rest, 0);
        comp == rest[..n] && start + n <= p <= |path| && path[p..] == Rest(rest, n) && (rest != "" ==> p > start)
    {
      ghost var rest := path[start..];
      p := start;
      comp := "";
      var i: nat := 0;
      while p < |path| && path[p] != '/' && i < MAX_NAME - 1
        invariant p == start + i <= |path| && i < MAX_NAME && comp == rest[..i]
        invariant ComponentEnd(rest, i) == ComponentEnd(rest, 0)
      {
        comp := comp + [path[p]];
        i, p := i + 1, p + 1;
      }
      assert ComponentEnd(rest, i) == i;
      assert path[p..] == rest[i..];
      if p < |path| && path[p] == '/' {
        p := p + 1;
        assert path[p..] == rest[i + 1..];
      }
    }

    method VfsResolve(path: string) returns (cur: int)
      requires Valid()
      ensures cur == Resolve(View(), path)
    {
      if path == "" {
        return -1;
      }
      if path == "/" {
        return 0;
      }
      cur := 0;
      var p: nat := 0;
      if path[0] == '/' {
        p := 1;
      }
      hide Child, ComponentEnd, Rest;
      assert path[0..] == path;
      while p < |path|
        invariant p <= |path| && 0 <= cur < MAX_INODES
        invariant Walk(View(), cur, path[p..]) == Resolve(View(), path)
        decreases |path| - p
      {
        WalkStep(View(), cur, path[p..]);
        var comp;
        comp, p := NextComponent(path, p);
        if comp != "" {
          var found := FindEntry(cur, comp);
          if found < 0 {
            return -1;
          }
          cur := found;
        }
      }
    }

    method VfsMkdir(path: string) returns (r: int)
      requires Valid()
      modifies inodes
      ensures (View(), r) == Mkdir(old(View()), path)
    {
      hide Child, Resolve, FreeInode, Split;
      var ok, parent, name := SplitPath(path);
      if !ok {
        return -1;
      }
      var par := VfsResolve(parent);
      if par < 0 || inodes[par].kind != Dir {
        return -1;
      }
      var twin := FindEntry(par, name);
      if twin >= 0 {
        return -1;
      }
      r := AllocInode();
      if r < 0 {
        return -1;
      }
      inodes[r] := Inode(true, name, Dir, par, 0, None);
    }

    /** The file to open, made or truncated first. */
    method Prepare(path: string, flags: nat, memory: bool) returns (idx: int)
      requires Valid()
      modifies inodes
      ensures (View(), idx) == Target(old(View()), path, flags, memory)
    {
      hide Child, Resolve, FreeInode, Split, Zeros;
      idx := VfsResolve(path);
      if idx < 0 {
        if !Creat(flags) {
          return -1;
        }
        var ok, parent, name := SplitPath(path);
        if !ok {
          return -1;
        }
        var par := VfsResolve(parent);
        if par < 0 || inodes[par].kind != Dir {
          return -1;
        }
        idx := AllocInode();
        if idx < 0 {
          return -1;
        }
        if !memory {
          inodes[idx] := inodes[idx].(data := None, used := false);
          assert inodes[idx] == old(inodes[idx]).(data := None);
          return -1;
        }
        inodes[idx] := Inode(true, name, File, par, 0, Some(Zeros()));
      } else {
        if inodes[idx].kind != File {
          return -1;
        }
        if Truncate(flags) {
          if inodes[idx].data.Some? {
            inodes[idx] := inodes[idx].(data := Some(Zeros()));
          }
          inodes[idx] := inodes[idx].(size := 0);
          assert inodes[..] == old(inodes[..])[idx := inodes[idx]];
        }
      }
    }

    method VfsOpen(path: string, flags: nat, memory: bool) returns (fd: int)
      requires Valid()
      modifies inodes, fds
      ensures (View(), fd) == Open(old(View()), path, flags, memory)
    {
      hide Target, FreeFd;
      var idx := Prepare(path, flags, memory);
      if idx < 0 {
        return -1;
      }
      TargetInRange(old(View()), path, flags, memory);
      fd := AllocFd();
      if fd < 0 {
        return -1;
      }
      fds[fd] := Fd(idx, if Append(flags) then inodes[idx].size else 0, flags);
    }

    method VfsClose(fd: int)
      requires Valid()
      modifies fds
      ensures View() == Close(old(View()), fd)
    {
      if fd >= 0 && fd < MAX_FDS {
        fds[fd] := fds[fd].(inode := -1);
      }
    }

    method VfsRead(fd: int, len: nat) returns (r: ReadResult)
      requires Valid() && FsOk(View())
      modifies fds
      ensures (View(), r) == Read(old(View()), fd, len)
    {
      hide TreeOk;
      if fd < 0 || fd >= MAX_FDS || fds[fd].inode < 0 {
        return Refused;
      }
      IsFile(View(), fds[fd].inode);
      var n := inodes[fds[fd].inode];
      if n.kind != File || n.data.None? {
        return Refused;
      }
      var avail := n.size - fds[fd].pos;
      if avail <= 0 {
        return Data([]);
      }
      var count := if len > avail then avail else len;
      r := Data(n.data.value[fds[fd].pos..fds[fd].pos + count]);
      fds[fd] := fds[fd].(pos := fds[fd].pos + count);
    }

    /** Bytes written; -1 when refused. */
    method VfsWrite(fd: int, bytes: seq<byte>) returns (r: int)
      requires Valid() && FsOk(View())
      modifies inodes, fds
      ensures (View(), r) == Write(old(View()), fd, bytes)
    {
      hide TreeOk, Over;
      if fd < 0 || fd >= MAX_FDS || fds[fd].inode < 0 {
        return -1;
      }
      var i := fds[fd].inode;
      IsFile(View(), i);
      if inodes[i].kind != File || inodes[i].data.None? {
        return -1;
      }
      if Append(fds[fd].flags) {
        fds[fd] := fds[fd].(pos := inodes[i].size);
      }
      var space := MAX_FSIZE - fds[fd].pos;
      if space <= 0 {
        assert fds[..] == old(fds[..])[fd := fds[fd]];
        return -1;
      }
      r := if |bytes| > space then space else |bytes|;
      var part := if |bytes| > space then bytes[..space] else bytes;
      inodes[i] := inodes[i].(data := Some(Over(inodes[i].data.value, fds[fd].pos, part)));
      fds[fd] := fds[fd].(pos := fds[fd].pos + r);
      if fds[fd].pos > inodes[i].size {
        inodes[i] := inodes[i].(size := fds[fd].pos);
      }
      assert inodes[..] == old(inodes[..])[i := inodes[i]];
      assert fds[..] == old(fds[..])[fd := fds[fd]];
    }

    method VfsSeek(fd: int, offset: int, whence: Whence) returns (np: int)
      requires Valid() && FsOk(View())
      modifies fds
      ensures (View(), np) == Seek(old(View()), fd, offset, whence)
    {
      hide TreeOk, FilesOk;
      if fd < 0 || fd >= MAX_FDS || fds[fd].inode < 0 {
        return -1;
      }
      var size := inodes[fds[fd].inode].size;
      match whence {
        case Set => np := offset;
        case Cur => np := fds[fd].pos + offset;
        case End => np := size + offset;
        case Other => return -1;
      }
      if np < 0 || np > size {
        return -1;
      }
      fds[fd] := fds[fd].(pos := np);
    }

    method VfsUnlink(path: string) returns (r: int)
      requires Valid()
      modifies inodes, fds
      ensures (View(), r) == Unlink(old(View()), path)
    {
      hide Resolve;
      var idx := VfsResolve(path);
      if idx <= 0 {
        return -1;
      }
      if inodes[idx].kind == Dir {
        var i: nat := 1;
        while i < MAX_INODES
          invariant 1 <= i <= MAX_INODES && HasChild(inodes[..], idx, 1) == HasChild(inodes[..], idx, i)
        {
          if inodes[i].used && inodes[i].parent == idx {
            return -1;
          }
          i := i + 1;
        }
      }
      ghost var was := fds[..];
      for i := 0 to MAX_FDS
        invariant inodes[..] == old(inodes[..])
        invariant forall k :: 0 <= k < i ==> fds[k] == CloseAll(was, idx)[k]
        invariant forall k :: i <= k < MAX_FDS ==> fds[k] == was[k]
      {
        if fds[i].inode == idx {
          fds[i] := fds[i].(inode := -1);
        }
      }
      assert fds[..] == CloseAll(was, idx);
      inodes[idx] := CLEAR;
      r := 0;
    }
  }

  lemma WalkStep(fs: FS, cur: int, p: string)
    requires Sized(fs) && 0 <= cur < MAX_INODES && p != ""
    ensures var n := ComponentEnd(p, 0);
      Walk(fs, cur, p) ==
        if n == 0 then Walk(fs, cur, Rest(p, n))
        else if Child(fs, cur, p[..n]) < 0 then -1 else Walk(fs, Child(fs, cur, p[..n]), Rest(p, n))
  {
    hide Child;
  }

  lemma TargetInRange(fs: FS, path: string, flags: nat, memory: bool)
    requires Sized(fs)
    ensures var t := Target(fs, path, flags, memory); |t.0.inodes| == MAX_INODES && -1 <= t.1 < MAX_INODES
  {
    hide Child, Resolve, Split;
  }
}
