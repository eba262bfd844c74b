/** File contents as byte sequences: what reads and writes mean, whatever other
    descriptors have done in between. */
module VfsFiles {
  import opened Basics
  import opened Vfs
  import opened VfsTree

  /** What a file holds: the bytes before its size. */
  function Content(n: Inode): (r: seq<byte>)
    requires FileOk(n)
    ensures |r| == n.size
  {
    n.data.value[..n.size]
  }

  function Max(a: nat, b: nat): nat {
    if a < b then b else a
  }

  /** `old` with `src` written from `at` on; a gap between them is zeros. */
  function Spliced(was: seq<byte>, at: nat, src: seq<byte>): seq<byte> {
    seq(Max(|was|, at + |src|), k requires 0 <= k < Max(|was|, at + |src|) =>
      if at <= k < at + |src| then src[k - at] else if k < |was| then was[k] else 0)
  }

  /** The file of an open descriptor. */
  function FileOf(fs: FS, fd: int): (i: int)
    requires FsOk(fs) && 0 <= fd < MAX_FDS && fs.fds[fd].inode != -1
    ensures 0 < i < MAX_INODES && fs.inodes[i].used && FileOk(fs.inodes[i])
  {
    IsFile(fs, fs.fds[fd].inode);
    fs.fds[fd].inode
  }

  predicate IsOpen(fs: FS, fd: int)
    requires Sized(fs)
  {
    0 <= fd < MAX_FDS && fs.fds[fd].inode != -1
  }

  /** An open descriptor is always on a file with contents. */
  lemma OpenIsOpened(fs: FS, fd: int)
    requires FsOk(fs)
    ensures Sized(fs) && (IsOpen(fs, fd) <==> Opened(fs, fd))
  {
    hide TreeOk;
    RootUsed(fs);
    if IsOpen(fs, fd) {
      IsFile(fs, fs.fds[fd].inode);
    }
  }

  /** Where a write goes: the end when appending, else the position. */
  function WritePos(fs: FS, fd: int): nat
    requires FsOk(fs) && 0 <= fd < MAX_FDS && fs.fds[fd].inode != -1
  {
    if Append(fs.fds[fd].flags) then fs.inodes[FileOf(fs, fd)].size else fs.fds[fd].pos
  }

  /** A write splices what fits in front of 16384 into the contents and leaves
      every other file alone; it is refused exactly when nothing fits. */
  lemma {:induction false} WriteContent(fs: FS, fd: int, bytes: seq<byte>)
    requires FsOk(fs) && 0 <= fd < MAX_FDS && fs.fds[fd].inode != -1
    ensures var i := FileOf(fs, fd);
      var pos := WritePos(fs, fd);
      (WriteKeeps(fs, fd, bytes);
       var (t, r) := Write(fs, fd, bytes);
       FsOk(t) && |t.inodes| == MAX_INODES && |t.fds| == MAX_FDS &&
       (r == -1 <==> pos == MAX_FSIZE) && (r == -1 ==> t.inodes == fs.inodes) &&
       (r != -1 ==>
         r == (if |bytes| > MAX_FSIZE - pos then MAX_FSIZE - pos else |bytes|) && t.inodes[i].used && FileOk(t.inodes[i]) &&
         Content(t.inodes[i]) == Spliced(Content(fs.inodes[i]), pos, bytes[..r])) &&
       t.fds[fd] == fs.fds[fd].(pos := pos + if r == -1 then 0 else r) && (forall j :: 0 <= j < MAX_INODES && j != i ==> t.inodes[j] == fs.inodes[j]) &&
       forall g :: 0 <= g < MAX_FDS && g != fd ==> t.fds[g] == fs.fds[g])
  {
    hide TreeOk, Spliced, Over;
    OpenIsOpened(fs, fd);
    WriteKeeps(fs, fd, bytes);
    var i := FileOf(fs, fd);
    var pos := WritePos(fs, fd);
    var n := fs.inodes[i];
    if pos < MAX_FSIZE {
      var r := if |bytes| > MAX_FSIZE - pos then MAX_FSIZE - pos else |bytes|;
      assert bytes[..|bytes|] == bytes;
      OverContent(n, pos, bytes[..r]);
    }
  }

  lemma OverContent(n: Inode, pos: nat, src: seq<byte>)
    requires FileOk(n) && pos + |src| <= MAX_FSIZE
    ensures var m := n.(data := Some(Over(n.data.value, pos, src)), size := Max(n.size, pos + |src|));
      FileOk(m) && Content(m) == Spliced(Content(n), pos, src)
  {
  }

  /** A read gives the contents from the position on, at most `len` bytes, and
      changes no file. */
  lemma {:induction false} ReadContent(fs: FS, fd: int, len: nat)
    requires FsOk(fs) && 0 <= fd < MAX_FDS && fs.fds[fd].inode != -1
    ensures Sized(fs)
    ensures var c := Content(fs.inodes[FileOf(fs, fd)]);
      var pos := fs.fds[fd].pos;
      var (t, r) := Read(fs, fd, len);
      r.Data? && t == fs.(fds := fs.fds[fd := fs.fds[fd].(pos := pos + |r.bytes|)]) &&
      r.bytes == (if pos >= |c| then [] else if len > |c| - pos then c[pos..] else c[pos..pos + len])
  {
    hide TreeOk;
    RootUsed(fs);
    OpenIsOpened(fs, fd);
    var f := fs.fds[fd];
    assert fs.fds[fd := f.(pos := f.pos)] == fs.fds;
  }

  /** Reading back what has just been written, after seeking to where it went. */
  lemma {:induction false} WriteThenRead(fs: FS, fd: int, bytes: seq<byte>)
    requires FsOk(fs) && 0 <= fd < MAX_FDS && fs.fds[fd].inode != -1
    requires WritePos(fs, fd) + |bytes| <= MAX_FSIZE && WritePos(fs, fd) < MAX_FSIZE
    ensures (WriteKeeps(fs, fd, bytes);
      var pos := WritePos(fs, fd);
      var t := Write(fs, fd, bytes).0;
      SeekKeeps(t, fd, pos, Set);
      var (u, at) := Seek(t, fd, pos, Set);
      at == pos && Read(u, fd, |bytes|).1 == Data(bytes))
  {
    hide TreeOk, FilesOk, FileOk, Write, Read, Spliced;
    WriteKeeps(fs, fd, bytes);
    WriteContent(fs, fd, bytes);
    var pos := WritePos(fs, fd);
    var i := FileOf(fs, fd);
    var (t, r) := Write(fs, fd, bytes);
    assert bytes[..r] == bytes;
    var c := Content(t.inodes[i]);
    SplicedPart(Content(fs.inodes[i]), pos, bytes);
    SeekKeeps(t, fd, pos, Set);
    var (u, at) := Seek(t, fd, pos, Set);
    assert at == pos && u.inodes == t.inodes;
    ReadContent(u, fd, |bytes|);
  }

  lemma SplicedPart(was: seq<byte>, at: nat, src: seq<byte>)
    ensures |Spliced(was, at, src)| >= at + |src| && Spliced(was, at, src)[at..at + |src|] == src
    ensures at + |src| == |Spliced(was, at, src)| ==> Spliced(was, at, src)[at..] == src
  {
  }

  /** Opening with truncation empties the file and leaves all open descriptors
      where they are. */
  lemma {:induction false} TruncateEmpties(fs: FS, fd: int, path: string, flags: nat, memory: bool)
    requires FsOk(fs) && 0 <= fd < MAX_FDS && fs.fds[fd].inode != -1
    requires Sized(fs) && Resolve(fs, path) == FileOf(fs, fd) && Truncate(flags)
    ensures var i := FileOf(fs, fd);
      var t := Open(fs, path, flags, memory).0;
      FsOk(t) && t.fds[fd] == fs.fds[fd] && FileOk(t.inodes[i]) && Content(t.inodes[i]) == []
  {
    hide TreeOk, FilesOk, Resolve, Zeros, Rooted;
    OpenKeeps(fs, path, flags, memory);
    OpenIsOpened(fs, fd);
    var i := FileOf(fs, fd);
    ZerosOk(fs.inodes[i].(size := 0, data := Some(Zeros())));
  }

  /** Truncating through one descriptor leaves the positions of the others; a
      write at one of those then gives zeros up to it, followed by the data. */
  lemma {:induction false} WriteAfterTruncate(fs: FS, fd: int, path: string, flags: nat, memory: bool, bytes: seq<byte>)
    requires FsOk(fs) && 0 <= fd < MAX_FDS && fs.fds[fd].inode != -1 && !Append(fs.fds[fd].flags)
    requires Sized(fs) && Resolve(fs, path) == FileOf(fs, fd) && Truncate(flags)
    requires fs.fds[fd].pos + |bytes| <= MAX_FSIZE && 0 <= fs.fds[fd].pos < MAX_FSIZE
    ensures (TruncateEmpties(fs, fd, path, flags, memory);
      var t := Open(fs, path, flags, memory).0;
      WriteContent(t, fd, bytes);
      var u := Write(t, fd, bytes).0;
      FsOk(u) && FileOk(u.inodes[FileOf(fs, fd)]) &&
      Content(u.inodes[FileOf(fs, fd)]) == seq(fs.fds[fd].pos, _ => 0) + bytes)
  {
    hide TreeOk, FilesOk, Resolve, Open, Write, Spliced, FileOk;
    TruncateEmpties(fs, fd, path, flags, memory);
    var t := Open(fs, path, flags, memory).0;
    WriteContent(t, fd, bytes);
    assert bytes[..|bytes|] == bytes;
    SplicedEmpty(fs.fds[fd].pos, bytes);
  }

  lemma SplicedEmpty(at: nat, src: seq<byte>)
    ensures Spliced([], at, src) == seq(at, _ => 0) + src
  {
  }
}
