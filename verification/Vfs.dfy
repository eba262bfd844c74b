/** The inode filesystem: a tree kept in a flat table, path lookup, and open
    descriptors.  Strings are C strings, without their terminator. */
module Vfs {
  import opened Basics

  const MAX_INODES := 64
  const MAX_NAME := 32
  const MAX_FDS := 16
  const MAX_FSIZE := 16384

  datatype Kind = File | Dir

  datatype Inode = Inode(used: bool, name: string, kind: Kind, parent: int, size: int, data: Option<seq<byte>>)

  datatype Fd = Fd(inode: int, pos: int, flags: nat)

  datatype FS = FS(inodes: seq<Inode>, fds: seq<Fd>)

  const CLEAR := Inode(false, "", File, 0, 0, None)
  const ROOT := Inode(true, "/", Dir, -1, 0, None)

  function Zeros(): (s: seq<byte>)
    ensures |s| == MAX_FSIZE
  {
    seq(MAX_FSIZE, _ => 0)
  }

  function Init(): FS {
    FS(seq(MAX_INODES, i => if i == 0 then ROOT else CLEAR), seq(MAX_FDS, _ => Fd(-1, 0, 0)))
  }

  predicate Sized(fs: FS) {
    |fs.inodes| == MAX_INODES && |fs.fds| == MAX_FDS
  }

  // ----- flags -----

  predicate Creat(flags: nat) { flags / 4 % 2 == 1 }
  predicate Append(flags: nat) { flags / 8 % 2 == 1 }
  predicate Truncate(flags: nat) { flags / 16 % 2 == 1 }

  // ----- paths -----

  /** At most `MAX_NAME - 1` characters of a name. */
  function Cut(s: string): string {
    if |s| < MAX_NAME then s else s[..MAX_NAME - 1]
  }

  /** Index of the last '/' before `n`; -1 when there is none. */
  function LastSlash(path: string, n: nat): (r: int)
    requires n <= |path|
    ensures -1 <= r < n && (r >= 0 ==> path[r] == '/') && forall k :: r < k < n ==> path[k] != '/'
  {
    if n == 0 then -1 else if path[n - 1] == '/' then n - 1 else LastSlash(path, n - 1)
  }

  datatype Parts = Parts(parent: string, name: string)

  /** Parent path and last component; both are cut to fit their buffers. */
  function Split(path: string): Option<Parts> {
    var slash := LastSlash(path, |path|);
    var name := Cut(path[slash + 1..]);
    if name == "" then None
    else if slash <= 0 then Some(Parts("/", name))
    else Some(Parts(Cut(path[..slash]), name))
  }

  /** Length of the next component: up to a '/', the end, or a full buffer. */
  function ComponentEnd(p: string, i: nat): (r: nat)
    requires i <= |p|
    ensures i <= r <= |p| && (i < MAX_NAME ==> r < MAX_NAME)
    decreases |p| - i
  {
    if i < |p| && p[i] != '/' && i < MAX_NAME - 1 then ComponentEnd(p, i + 1) else i
  }

  /** Index of the child of `par` called `name`, from `j` on; -1 when there is
      none. */
  function FindChild(inodes: seq<Inode>, par: int, name: string, j: nat): (r: int)
    requires j <= |inodes|
    ensures r == -1 || (j <= r < |inodes| && IsChild(inodes[r], par, name))
    ensures forall k :: j <= k < (if r == -1 then |inodes| else r) ==> !IsChild(inodes[k], par, name)
    decreases |inodes| - j
  {
    if j == |inodes| then -1
    else if IsChild(inodes[j], par, name) then j
    else FindChild(inodes, par, name, j + 1)
  }

  predicate IsChild(n: Inode, par: int, name: string) {
    n.used && n.parent == par && n.name == name
  }

  function Child(fs: FS, par: int, name: string): (r: int)
    requires Sized(fs)
    ensures -1 <= r < MAX_INODES
  {
    FindChild(fs.inodes, par, name, 1)
  }

  /** The rest of a path after its next component and the '/' behind it. */
  function Rest(p: string, n: nat): string
    requires n <= |p|
  {
    if n < |p| && p[n] == '/' then p[n + 1..] else p[n..]
  }

  /** The inode reached from `cur` along `p`; -1 when a component is missing. */
  function Walk(fs: FS, cur: int, p: string): (r: int)
    requires Sized(fs) && -1 <= cur < MAX_INODES
    ensures -1 <= r < MAX_INODES
    decreases |p|
  {
    if p == "" then cur
    else
      var n := ComponentEnd(p, 0);
      if n == 0 then Walk(fs, cur, p[1..])
      else
        var found := Child(fs, cur, p[..n]);
        if found < 0 then -1 else Walk(fs, found, Rest(p, n))
  }

  function Resolve(fs: FS, path: string): (r: int)
    requires Sized(fs)
    ensures -1 <= r < MAX_INODES
  {
    if path == "" then -1
    else if path == "/" then 0
    else Walk(fs, 0, if path[0] == '/' then path[1..] else path)
  }

  // ----- operations -----

  function FreeInode(inodes: seq<Inode>, i: nat): (r: int)
    requires i <= |inodes|
    ensures r == -1 || (i <= r < |inodes| && !inodes[r].used)
    ensures forall k :: i <= k < (if r == -1 then |inodes| else r) ==> inodes[k].used
    decreases |inodes| - i
  {
    if i == |inodes| then -1 else if !inodes[i].used then i else FreeInode(inodes, i + 1)
  }

  function FreeFd(fds: seq<Fd>, i: nat): (r: int)
    requires i <= |fds|
    ensures r == -1 || (i <= r < |fds| && fds[r].inode == -1)
    ensures forall k :: i <= k < (if r == -1 then |fds| else r) ==> fds[k].inode != -1
    decreases |fds| - i
  {
    if i == |fds| then -1 else if fds[i].inode == -1 then i else FreeFd(fds, i + 1)
  }

  /** The directory a new entry for `path` goes into; -1 when it cannot. */
  function ParentDir(fs: FS, path: string): (r: int)
    requires Sized(fs)
    ensures -1 <= r < MAX_INODES
  {
    var parts := Split(path);
    if parts.None? then -1
    else
      var par := Resolve(fs, parts.value.parent);
      if par < 0 || fs.inodes[par].kind != Dir then -1 else par
  }

  function Mkdir(fs: FS, path: string): (FS, int)
    requires Sized(fs)
  {
    var par := ParentDir(fs, path);
    if par < 0 then (fs, -1)
    else
      var name := Split(path).value.name;
      if Child(fs, par, name) >= 0 then (fs, -1)
      else
        var idx := FreeInode(fs.inodes, 1);
        if idx < 0 then (fs, -1)
        else (fs.(inodes := fs.inodes[idx := Inode(true, name, Dir, par, 0, None)]), idx)
  }

  /** Make an empty file for `path`; -1 when there is no place or no memory. */
  function CreateFile(fs: FS, path: string, memory: bool): (FS, int)
    requires Sized(fs)
  {
    var par := ParentDir(fs, path);
    if par < 0 then (fs, -1)
    else
      var idx := FreeInode(fs.inodes, 1);
      if idx < 0 then (fs, -1)
      else if !memory then (fs.(inodes := fs.inodes[idx := fs.inodes[idx].(data := None)]), -1)
      else (fs.(inodes := fs.inodes[idx := Inode(true, Split(path).value.name, File, par, 0, Some(Zeros()))]), idx)
  }

  /** The file for `path`, created or truncated as the flags say; -1 on failure. */
  function Target(fs: FS, path: string, flags: nat, memory: bool): (FS, int)
    requires Sized(fs)
  {
    var idx := Resolve(fs, path);
    if idx < 0 then (if Creat(flags) then CreateFile(fs, path, memory) else (fs, -1))
    else if fs.inodes[idx].kind != File then (fs, -1)
    else if !Truncate(flags) then (fs, idx)
    else
      var n := fs.inodes[idx];
      (fs.(inodes := fs.inodes[idx := n.(size := 0, data := if n.data.Some? then Some(Zeros()) else None)]), idx)
  }

  /** A new file stays even when no descriptor is free. */
  function Open(fs: FS, path: string, flags: nat, memory: bool): (FS, int)
    requires Sized(fs)
  {
    var t := Target(fs, path, flags, memory);
    if t.1 < 0 then (t.0, -1) else OpenFd(t.0, t.1, flags)
  }

  function OpenFd(fs: FS, idx: int, flags: nat): (FS, int) {
    var fd := FreeFd(fs.fds, 0);
    if fd < 0 || !(0 <= idx < |fs.inodes|) then (fs, -1)
    else (fs.(fds := fs.fds[fd := Fd(idx, if Append(flags) then fs.inodes[idx].size else 0, flags)]), fd)
  }

  function Close(fs: FS, fd: int): FS
    requires Sized(fs)
  {
    if 0 <= fd < MAX_FDS then fs.(fds := fs.fds[fd := fs.fds[fd].(inode := -1)]) else fs
  }

  /** The file behind an open descriptor, if any. */
  predicate Opened(fs: FS, fd: int)
    requires Sized(fs)
  {
    0 <= fd < MAX_FDS && 0 <= fs.fds[fd].inode < MAX_INODES &&
    fs.inodes[fs.fds[fd].inode].kind == File && fs.inodes[fs.fds[fd].inode].data.Some?
  }

  datatype ReadResult = Refused | Data(bytes: seq<byte>)

  function Read(fs: FS, fd: int, len: nat): (FS, ReadResult)
    requires Sized(fs)
  {
    if !Opened(fs, fd) then (fs, Refused)
    else
      var f := fs.fds[fd];
      var n := fs.inodes[f.inode];
      var avail := n.size - f.pos;
      if avail <= 0 then (fs, Data([]))
      else
        var count := if len > avail then avail else len;
        if !(0 <= f.pos && f.pos + count <= |n.data.value|) then (fs, Refused)
        else (fs.(fds := fs.fds[fd := f.(pos := f.pos + count)]), Data(n.data.value[f.pos..f.pos + count]))
  }

  /** `src` copied over `dst` from `at` on. */
  function Over(dst: seq<byte>, at: nat, src: seq<byte>): (r: seq<byte>)
    requires at + |src| <= |dst|
    ensures |r| == |dst|
  {
    dst[..at] + src + dst[at + |src|..]
  }

  /** Bytes written; -1 when refused. */
  function Write(fs: FS, fd: int, bytes: seq<byte>): (FS, int)
    requires Sized(fs)
  {
    if !Opened(fs, fd) then (fs, -1)
    else
      var n := fs.inodes[fs.fds[fd].inode];
      var pos := if Append(fs.fds[fd].flags) then n.size else fs.fds[fd].pos;
      var space := MAX_FSIZE - pos;
      if space <= 0 || pos < 0 || |n.data.value| != MAX_FSIZE then
        (fs.(fds := fs.fds[fd := fs.fds[fd].(pos := pos)]), -1)
      else
        var part := if |bytes| > space then bytes[..space] else bytes;
        var end := pos + |part|;
        (FS(fs.inodes[fs.fds[fd].inode :=
              n.(data := Some(Over(n.data.value, pos, part)), size := if end > n.size then end else n.size)],
            fs.fds[fd := fs.fds[fd].(pos := end)]), |part|)
  }

  datatype Whence = Set | Cur | End | Other

  function Seek(fs: FS, fd: int, offset: int, whence: Whence): (FS, int)
    requires Sized(fs)
  {
    if !(0 <= fd < MAX_FDS) || !(0 <= fs.fds[fd].inode < MAX_INODES) || whence == Other then (fs, -1)
    else
      var size := fs.inodes[fs.fds[fd].inode].size;
      var np := match whence
        case Set => offset
        case Cur => fs.fds[fd].pos + offset
        case End => size + offset
        case Other => -1;
      if np < 0 || np > size then (fs, -1)
      else (fs.(fds := fs.fds[fd := fs.fds[fd].(pos := np)]), np)
  }

  /** A child of `par` in slots from `i` on. */
  predicate HasChild(inodes: seq<Inode>, par: int, i: nat)
    decreases |inodes| - i
  {
    i < |inodes| && ((inodes[i].used && inodes[i].parent == par) || HasChild(inodes, par, i + 1))
  }

  function CloseAll(fds: seq<Fd>, idx: int): (r: seq<Fd>)
    ensures |r| == |fds|
  {
    seq(|fds|, i requires 0 <= i < |fds| => if fds[i].inode == idx then fds[i].(inode := -1) else fds[i])
  }

  function Unlink(fs: FS, path: string): (FS, int)
    requires Sized(fs)
  {
    var idx := Resolve(fs, path);
    if idx <= 0 then (fs, -1)
    else if fs.inodes[idx].kind == Dir && HasChild(fs.inodes, idx, 1) then (fs, -1)
    else (FS(fs.inodes[idx := CLEAR], CloseAll(fs.fds, idx)), 0)
  }

  // ----- the invariant -----

  predicate NameOk(s: string) {
    0 < |s| < MAX_NAME && forall k :: 0 <= k < |s| ==> s[k] != '/'
  }

  /** Slot `i` is the root, or climbing `k` parents leads to it through used
      directories. */
  predicate Rooted(inodes: seq<Inode>, i: int, k: nat)
    decreases k
  {
    0 <= i < |inodes| && inodes[i].used &&
    (i == 0 || (k > 0 && Rooted(inodes, inodes[i].parent, k - 1) && inodes[inodes[i].parent].kind == Dir))
  }

  predicate Siblings(a: Inode, b: Inode) {
    a.used && b.used && a.parent == b.parent
  }

  ghost predicate Anchored(inodes: seq<Inode>, i: int) {
    exists k: nat :: Rooted(inodes, i, k)
  }

  predicate FileOk(n: Inode) {
    n.data.Some? && |n.data.value| == MAX_FSIZE && 0 <= n.size <= MAX_FSIZE &&
    forall k :: n.size <= k < MAX_FSIZE ==> n.data.value[k] == 0
  }

  /** The inodes are a tree: used ones hang on used directories down from the
      root, and siblings have different names. */
  ghost predicate TreeOk(inodes: seq<Inode>) {
    |inodes| == MAX_INODES && inodes[0] == ROOT &&
    (forall i :: 0 <= i < MAX_INODES && inodes[i].used ==> Anchored(inodes, i)) &&
    (forall i :: 0 < i < MAX_INODES && inodes[i].used ==> NameOk(inodes[i].name) && inodes[i].parent >= 0) &&
    (forall i, j :: 0 < i < MAX_INODES && 0 < j < MAX_INODES && i != j && Siblings(inodes[i], inodes[j]) ==>
      inodes[i].name != inodes[j].name)
  }

  ghost predicate FilesOk(inodes: seq<Inode>) {
    forall i :: 0 <= i < |inodes| && inodes[i].used && inodes[i].kind == File ==> FileOk(inodes[i])
  }

  /** Open descriptors are on used files, at positions up to 16384. */
  ghost predicate FdsOk(fs: FS) {
    |fs.fds| == MAX_FDS &&
    forall f :: 0 <= f < |fs.fds| && fs.fds[f].inode != -1 ==>
      (0 <= fs.fds[f].inode < |fs.inodes| && fs.inodes[fs.fds[f].inode].used && fs.inodes[fs.fds[f].inode].kind == File &&
      0 <= fs.fds[f].pos <= MAX_FSIZE)
  }

  ghost predicate FsOk(fs: FS) {
    TreeOk(fs.inodes) && FilesOk(fs.inodes) && FdsOk(fs)
  }

  lemma InitOk()
    ensures FsOk(Init())
  {
    assert Rooted(Init().inodes, 0, 0);
  }
}
