/** Paths: the names a lookup follows, for every path, and exactly when it
    agrees with the way new entries are placed. */
module VfsPaths {
  import opened Basics
  import opened Vfs
  import opened VfsTree

  // ----- components, as a reader of paths understands them -----

  function NextSlash(p: string): (n: nat)
    ensures n <= |p| && (n < |p| ==> p[n] == '/') && forall k :: 0 <= k < n ==> p[k] != '/'
  {
    if p == "" || p[0] == '/' then 0 else 1 + NextSlash(p[1..])
  }

  /** The nonempty pieces between slashes. */
  function Components(p: string): seq<string>
    decreases |p|
  {
    if p == "" then []
    else
      var n := NextSlash(p);
      if n == |p| then [p]
      else if n == 0 then Components(p[1..])
      else [p[..n]] + Components(p[n + 1..])
  }

  function WalkNames(fs: FS, cur: int, names: seq<string>): (r: int)
    requires Sized(fs) && -1 <= cur < MAX_INODES
    ensures -1 <= r < MAX_INODES
    decreases |names|
  {
    if names == [] then cur
    else
      var found := Child(fs, cur, names[0]);
      if found < 0 then -1 else WalkNames(fs, found, names[1..])
  }

  /** A component in runs that fit their buffer. */
  function Slices(c: string): seq<string>
    decreases |c|
  {
    if |c| < MAX_NAME then [c] else [c[..MAX_NAME - 1]] + Slices(c[MAX_NAME - 1..])
  }

  function AllSlices(names: seq<string>): seq<string> {
    if names == [] then [] else Slices(names[0]) + AllSlices(names[1..])
  }

  /** The names a lookup follows: the components, long ones in runs of 31
      characters. */
  function Chunks(p: string): seq<string> {
    AllSlices(Components(p))
  }

  /** The last component fits its buffer, and so does what is before it, but
      for slashes at its end. */
  predicate GoodPath(path: string) {
    var slash := LastSlash(path, |path|);
    |path| - (slash + 1) < MAX_NAME && forall k :: MAX_NAME - 1 <= k < slash ==> path[k] == '/'
  }

  lemma {:induction false} ComponentEndIs(p: string, i: nat, n: nat)
    requires i <= n <= |p| && n < MAX_NAME && (forall k :: i <= k < n ==> p[k] != '/') && (n < |p| ==> p[n] == '/')
    ensures ComponentEnd(p, i) == n
    decreases n - i
  {
    if i < n {
      ComponentEndIs(p, i + 1, n);
    }
  }

  lemma {:induction false} ComponentFull(p: string, i: nat)
    requires i <= MAX_NAME - 1 <= |p| && forall k :: 0 <= k < MAX_NAME - 1 ==> p[k] != '/'
    ensures ComponentEnd(p, i) == MAX_NAME - 1
    decreases MAX_NAME - i
  {
    if i < MAX_NAME - 1 {
      ComponentFull(p, i + 1);
    }
  }

  /** The first piece and the rest. */
  function First(p: string, n: nat): seq<string>
    requires n <= |p|
  {
    if n == 0 then [] else [p[..n]]
  }

  function After(p: string, n: nat): seq<string>
    requires n <= |p|
  {
    if n == |p| then [] else Components(p[n + 1..])
  }

  lemma UnfoldComponents(p: string)
    ensures Components(p) == First(p, NextSlash(p)) + After(p, NextSlash(p))
  {
    hide NextSlash;
    var n := NextSlash(p);
    if n == |p| {
      assert p[..n] == p;
    } else if n == 0 {
      var rest := Components(p[1..]);
      assert First(p, n) + After(p, n) == [] + rest == rest;
    }
  }

  lemma ComponentsStep(p: string, n: nat)
    requires n <= |p| && (n < |p| ==> p[n] == '/') && forall k :: 0 <= k < n ==> p[k] != '/'
    ensures Components(p) == First(p, n) + After(p, n)
  {
    NextSlashIs(p, n);
    hide NextSlash;
    UnfoldComponents(p);
    hide Components;
  }

  /** Splitting at any slash splits the components. */
  lemma {:induction false} ComponentsAt(p: string, s: nat)
    requires s < |p| && p[s] == '/'
    ensures Components(p) == Components(p[..s]) + Components(p[s + 1..])
    decreases |p|
  {
    hide Components;
    var n := NextSlash(p);
    hide NextSlash;
    ComponentsStep(p, n);
    var a, c := p[..s], Components(p[s + 1..]);
    if n < s {
      ComponentsAt(p[n + 1..], s - n - 1);
      assert p[n + 1..][..s - n - 1] == a[n + 1..];
      assert p[n + 1..][s - n - 1 + 1..] == p[s + 1..];
      ComponentsStep(a, n);
      assert a[..n] == p[..n];
      assert First(p, n) + (Components(a[n + 1..]) + c) == (First(p, n) + Components(a[n + 1..])) + c;
    } else {
      assert n == s;
      ComponentsStep(a, n);
      assert a[..n] == p[..n];
      assert First(a, n) + [] == First(p, n);
    }
  }

  lemma {:induction false} NextSlashIs(p: string, n: nat)
    requires n <= |p| && (n < |p| ==> p[n] == '/') && forall k :: 0 <= k < n ==> p[k] != '/'
    ensures NextSlash(p) == n
  {
  }

  /** Without a slash a path is one component, or none. */
  lemma Whole(p: string)
    requires forall k :: 0 <= k < |p| ==> p[k] != '/'
    ensures Components(p) == if p == "" then [] else [p]
  {
    hide Components;
    ComponentsStep(p, |p|);
    assert p[..|p|] == p;
  }

  lemma {:induction false} SlicesAppend(a: seq<string>, b: seq<string>)
    ensures AllSlices(a + b) == AllSlices(a) + AllSlices(b)
    decreases |a|
  {
    hide Slices;
    if a == [] {
      assert a + b == b;
    } else {
      assert (a + b)[0] == a[0] && (a + b)[1..] == a[1..] + b;
      SlicesAppend(a[1..], b);
    }
  }

  lemma OneSliced(c: string)
    ensures AllSlices([c]) == Slices(c)
  {
    assert [c][1..] == [];
  }

  lemma NoChunks()
    ensures Chunks("") == []
  {
    Whole("");
  }

  lemma UnfoldChunks(p: string)
    ensures Chunks(p) == AllSlices(Components(p))
  {
  }

  /** What the buffer takes in is the first chunk; a slash behind it is skipped
      only when the component ends there. */
  lemma ChunksStep(p: string)
    requires p != ""
    ensures var n := ComponentEnd(p, 0);
      Chunks(p) == if n == 0 then Chunks(p[1..]) else [p[..n]] + Chunks(Rest(p, n))
  {
    var m := NextSlash(p);
    hide NextSlash, Chunks;
    if m < MAX_NAME {
      ComponentEndIs(p, 0, m);
      ShortStep(p, m);
    } else {
      ComponentFull(p, 0);
      LongStep(p, m);
    }
  }

  lemma ShortStep(p: string, m: nat)
    requires p != "" && m <= |p| && m < MAX_NAME
    requires (m < |p| ==> p[m] == '/') && forall k :: 0 <= k < m ==> p[k] != '/'
    ensures Chunks(p) == if m == 0 then Chunks(p[1..]) else [p[..m]] + Chunks(Rest(p, m))
  {
    ComponentsStep(p, m);
    NoChunks();
    hide Components, AllSlices;
    SlicesAppend(First(p, m), After(p, m));
    if m == 0 {
      assert First(p, m) + After(p, m) == After(p, m);
    } else {
      OneSliced(p[..m]);
      if m == |p| {
        UnfoldChunks("");
        assert Components(p) == First(p, m);
      }
    }
  }

  lemma LongStep(p: string, m: nat)
    requires MAX_NAME <= m <= |p|
    requires (m < |p| ==> p[m] == '/') && forall k :: 0 <= k < m ==> p[k] != '/'
    ensures Chunks(p) == [p[..MAX_NAME - 1]] + Chunks(Rest(p, MAX_NAME - 1))
  {
    hide Components, AllSlices;
    var n, c := MAX_NAME - 1, p[..m];
    var rest := p[n..];
    ComponentsStep(p, m);
    ComponentsStep(rest, m - n);
    assert rest[..m - n] == c[n..] && c[..n] == p[..n];
    assert m < |p| ==> rest[m - n + 1..] == p[m + 1..];
    SlicesAppend([c], After(p, m));
    SlicesAppend([c[n..]], After(p, m));
    OneSliced(c);
    OneSliced(c[n..]);
    assert ([c[..n]] + Slices(c[n..])) + AllSlices(After(p, m)) == [c[..n]] + (Slices(c[n..]) + AllSlices(After(p, m)));
  }

  /** The character-by-character walk follows the chunks of the path. */
  lemma {:induction false} WalkIs(fs: FS, cur: int, p: string)
    requires Sized(fs) && -1 <= cur < MAX_INODES
    ensures Walk(fs, cur, p) == WalkNames(fs, cur, Chunks(p))
    decreases |p|
  {
    hide Child, Chunks, ComponentEnd;
    if p == "" {
      NoChunks();
    } else {
      ChunksStep(p);
      var n := ComponentEnd(p, 0);
      if n == 0 {
        WalkIs(fs, cur, p[1..]);
      } else {
        var found := Child(fs, cur, p[..n]);
        assert ([p[..n]] + Chunks(Rest(p, n)))[1..] == Chunks(Rest(p, n));
        if found >= 0 {
          WalkIs(fs, found, Rest(p, n));
        }
      }
    }
  }

  lemma NoNames(fs: FS, cur: int)
    requires Sized(fs) && -1 <= cur < MAX_INODES
    ensures WalkNames(fs, cur, []) == cur
  {
  }

  /** Resolving a path, any path, is following its chunks from the root; only
      the empty path has no meaning. */
  lemma {:induction false} ResolveIs(fs: FS, path: string)
    requires Sized(fs)
    ensures Resolve(fs, path) == if path == "" then -1 else WalkNames(fs, 0, Chunks(path))
  {
    hide Walk, WalkNames, Chunks;
    if path != "" {
      if path[0] == '/' {
        SlashFirst(path);
        if path == "/" {
          assert path[1..] == "";
          NoChunks();
          NoNames(fs, 0);
        } else {
          WalkIs(fs, 0, path[1..]);
        }
      } else {
        WalkIs(fs, 0, path);
      }
    }
  }

  lemma SlashFirst(path: string)
    requires path != "" && path[0] == '/'
    ensures Chunks(path) == Chunks(path[1..])
  {
    ComponentEndIs(path, 0, 0);
    ChunksStep(path);
  }

  lemma {:induction false} WalkAppend(fs: FS, cur: int, a: seq<string>, b: seq<string>)
    requires Sized(fs) && -1 <= cur < MAX_INODES
    ensures WalkNames(fs, cur, a + b) ==
      if a != [] && WalkNames(fs, cur, a) < 0 then -1 else WalkNames(fs, WalkNames(fs, cur, a), b)
    decreases |a|
  {
    if a == [] {
      assert a + b == b;
    } else {
      assert (a + b)[0] == a[0] && (a + b)[1..] == a[1..] + b;
      var found := Child(fs, cur, a[0]);
      if found >= 0 {
        WalkAppend(fs, found, a[1..], b);
      }
    }
  }

  /** What comes before and after the last slash. */
  function Last(path: string): string {
    path[LastSlash(path, |path|) + 1..]
  }

  function Before(path: string): string {
    var slash := LastSlash(path, |path|);
    if slash <= 0 then "/" else path[..slash]
  }

  /** Looking a good path up is looking its last component up in the directory
      that a new entry for it would go into. */
  lemma {:induction false} ResolveAgreesWithSplit(fs: FS, path: string)
    requires Sized(fs) && GoodPath(path) && Split(path).Some?
    ensures var parts := Split(path).value;
      var par := Resolve(fs, parts.parent);
      Resolve(fs, path) == if par < 0 then -1 else Child(fs, par, parts.name)
  {
    SplitNotEmpty(path);
    hide *;
    var parts := Split(path).value;
    ChunksOfSplit(path);
    ResolveIs(fs, path);
    ResolveIs(fs, parts.parent);
    OneName(fs, parts.name);
    WalkAppend(fs, 0, Chunks(parts.parent), [parts.name]);
    NoNames(fs, 0);
  }

  lemma SplitNotEmpty(path: string)
    requires Split(path).Some?
    ensures path != "" && Split(path).value.parent != ""
  {
  }

  /** The names followed to a path are those followed to its parent part and
      its name part exactly when the path is good. */
  lemma {:induction false} ChunksOfSplit(path: string)
    requires Split(path).Some?
    ensures var parts := Split(path).value;
      Chunks(path) == Chunks(parts.parent) + [parts.name] <==> GoodPath(path)
  {
    hide Chunks;
    SplitChunks(path);
    var parts := Split(path).value;
    var last, before := Last(path), Before(path);
    if GoodPath(path) {
      if LastSlash(path, |path|) >= MAX_NAME {
        SlashesAfter(parts.parent, before);
      }
    } else if Chunks(path) == Chunks(parts.parent) + [parts.name] {
      LettersSplit(path);
      LettersOfChunks(path);
      LettersOfChunks(parts.parent);
      TotalAppend(Chunks(parts.parent), [parts.name]);
      CutTooMuch(path);
      assert false;
    }
  }

  /** The chunks of a path are those before its last slash and those after. */
  lemma SplitChunks(path: string)
    requires Split(path).Some?
    ensures Chunks(path) == Chunks(Before(path)) + Slices(Last(path))
  {
    SplitComponents(path);
    hide *;
    UnfoldChunks(path);
    UnfoldChunks(Before(path));
    SlicesAppend(Components(Before(path)), [Last(path)]);
    OneSliced(Last(path));
  }

  lemma {:induction false} SplitComponents(path: string)
    requires Split(path).Some?
    ensures Components(path) == Components(Before(path)) + [Last(path)]
  {
    LastOnly(path);
    var slash := LastSlash(path, |path|);
    var last, before := Last(path), Before(path);
    if slash > 0 {
      ComponentsAt(path, slash);
      assert before == path[..slash] && path[slash + 1..] == last;
    } else {
      RootComponents();
      if slash == 0 {
        ComponentsAt(path, 0);
        Whole("");
        assert path[..0] == "" && path[0 + 1..] == last;
      } else {
        assert path == last;
      }
    }
  }

  /** Nothing after the last slash is a slash. */
  lemma LastOnly(path: string)
    requires Split(path).Some?
    ensures Last(path) != "" && path != "" && Components(Last(path)) == [Last(path)]
  {
    hide Components;
    Whole(Last(path));
  }

  /** Slashes at the end add no chunks. */
  lemma {:induction false} SlashesAfter(p: string, q: string)
    requires p <= q && forall k :: |p| <= k < |q| ==> q[k] == '/'
    ensures Chunks(q) == Chunks(p)
    decreases |q|
  {
    hide Components, AllSlices;
    if |p| < |q| {
      var r := q[..|q| - 1];
      ComponentsAt(q, |r|);
      Whole("");
      assert q[|r| + 1..] == "" && Components(r) + [] == Components(r);
      SlashesAfter(p, r);
    } else {
      assert p == q;
    }
  }

  // ----- counting what a path says -----

  /** The characters of a path that are not slashes. */
  function Letters(p: string): nat {
    if p == "" then 0 else (if p[0] == '/' then 0 else 1) + Letters(p[1..])
  }

  function Total(names: seq<string>): nat {
    if names == [] then 0 else |names[0]| + Total(names[1..])
  }

  lemma {:induction false} LettersAppend(a: string, b: string)
    ensures Letters(a + b) == Letters(a) + Letters(b)
    decreases |a|
  {
    if a == "" {
      assert a + b == b;
    } else {
      assert (a + b)[1..] == a[1..] + b;
      LettersAppend(a[1..], b);
    }
  }

  lemma {:induction false} TotalAppend(a: seq<string>, b: seq<string>)
    ensures Total(a + b) == Total(a) + Total(b)
    decreases |a|
  {
    if a == [] {
      assert a + b == b;
    } else {
      assert (a + b)[1..] == a[1..] + b;
      TotalAppend(a[1..], b);
    }
  }

  lemma {:induction false} AllLetters(p: string)
    ensures Letters(p) <= |p|
    ensures Letters(p) == |p| <==> forall k :: 0 <= k < |p| ==> p[k] != '/'
    ensures Letters(p) == 0 <==> forall k :: 0 <= k < |p| ==> p[k] == '/'
    decreases |p|
  {
    if p != "" {
      AllLetters(p[1..]);
      assert forall k :: 1 <= k < |p| ==> p[k] == p[1..][k - 1];
      assert forall k :: 0 <= k < |p[1..]| ==> p[1..][k] == p[k + 1];
    }
  }

  /** Cutting into chunks drops slashes and nothing else. */
  lemma {:induction false} LettersOfChunks(p: string)
    ensures Total(Chunks(p)) == Letters(p)
    decreases |p|
  {
    hide Chunks;
    if p == "" {
      NoChunks();
    } else {
      ChunksStep(p);
      var n := ComponentEnd(p, 0);
      ComponentLetters(p, 0);
      if n == 0 {
        LettersOfChunks(p[1..]);
      } else {
        LettersOfChunks(Rest(p, n));
        AllLetters(p[..n]);
        assert p == p[..n] + p[n..];
        LettersAppend(p[..n], p[n..]);
        if n < |p| && p[n] == '/' {
          assert p[n..][1..] == p[n + 1..];
        }
        assert ([p[..n]] + Chunks(Rest(p, n)))[1..] == Chunks(Rest(p, n));
      }
    }
  }

  lemma {:induction false} ComponentLetters(p: string, i: nat)
    requires i <= |p|
    ensures forall k :: i <= k < ComponentEnd(p, i) ==> p[k] != '/'
    ensures ComponentEnd(p, i) == i ==> i == |p| || p[i] == '/' || i >= MAX_NAME - 1
    decreases |p| - i
  {
    if i < |p| && p[i] != '/' && i < MAX_NAME - 1 {
      ComponentLetters(p, i + 1);
    }
  }

  lemma LettersSplit(path: string)
    requires Split(path).Some?
    ensures Letters(path) == Letters(Before(path)) + |Last(path)|
  {
    LastOnlyLetters(path);
    SlashFirstLetters("/");
    var slash := LastSlash(path, |path|);
    hide Letters, LastSlash, Split;
    Pieces(path, slash);
    if slash >= 0 {
      LettersAppend(path[..slash], path[slash..]);
      SlashFirstLetters(path[slash..]);
    }
  }

  lemma LastOnlyLetters(path: string)
    ensures Letters(Last(path)) == |Last(path)|
  {
    AllLetters(Last(path));
    hide Letters;
  }

  /** A path is what is before a place in it and what is from there on. */
  lemma Pieces(path: string, slash: int)
    requires -1 <= slash < |path|
    ensures slash < 0 ==> path[slash + 1..] == path
    ensures slash >= 0 ==> path == path[..slash] + path[slash..] && path[slash..][1..] == path[slash + 1..]
    ensures slash == 0 ==> path[..slash] == []
  {
  }

  lemma SlashFirstLetters(p: string)
    requires p != "" && p[0] == '/'
    ensures Letters(p) == Letters(p[1..]) && Letters("") == 0 && (p == "/" ==> Letters(p) == 0)
  {
  }

  /** A path that is not good loses characters when it is split. */
  lemma CutTooMuch(path: string)
    requires Split(path).Some? && !GoodPath(path)
    ensures var parts := Split(path).value;
      Letters(parts.parent) + |parts.name| < Letters(Before(path)) + |Last(path)|
  {
    hide Letters;
    var before := Before(path);
    if LastSlash(path, |path|) >= MAX_NAME {
      assert before == before[..MAX_NAME - 1] + before[MAX_NAME - 1..];
      LettersAppend(before[..MAX_NAME - 1], before[MAX_NAME - 1..]);
      AllLetters(before[MAX_NAME - 1..]);
      assert forall k :: MAX_NAME - 1 <= k < |before| ==> before[k] == before[MAX_NAME - 1..][k - (MAX_NAME - 1)];
    }
  }

  lemma RootComponents()
    ensures Components("/") == []
  {
    ComponentsStep("/", 0);
    assert "/"[1..] == "";
    Whole("");
  }

  lemma OneName(fs: FS, name: string)
    requires Sized(fs)
    ensures forall cur :: 0 <= cur < MAX_INODES ==> WalkNames(fs, cur, [name]) == if Child(fs, cur, name) < 0 then -1 else Child(fs, cur, name)
  {
    assert [name][1..] == [];
  }

  // ----- soundness over runs -----

  lemma GoodAddsNoTwin(fs: FS, path: string, flags: nat, memory: bool)
    requires FsOk(fs) && GoodPath(path)
    ensures Sized(fs) && !AddsTwin(fs, path, flags, memory)
  {
    hide Child, Resolve, GoodPath, Split;
    RootUsed(fs);
    if ParentDir(fs, path) >= 0 {
      ResolveAgreesWithSplit(fs, path);
    }
  }

  ghost predicate FsRun(fs: FS, ops: seq<Op>, t: FS)
    decreases |ops|
  {
    if ops == [] then t == fs else Sized(fs) && FsRun(Apply(fs, ops[0]), ops[1..], t)
  }

  /** Every run whose opens use good paths keeps the whole filesystem sound:
      acyclic parent chains to the root through used directories, unique sibling
      names, open descriptors on used files, and zeros past each file's end. */
  lemma {:induction false} FsRunOk(fs: FS, ops: seq<Op>, t: FS)
    requires FsOk(fs) && FsRun(fs, ops, t)
    requires forall k :: 0 <= k < |ops| && ops[k].OpenOp? ==> GoodPath(ops[k].path)
    ensures FsOk(t)
    decreases |ops|
  {
    hide FsOk, Apply, GoodPath, AddsTwin;
    if ops != [] {
      ApplyKeeps(fs, ops[0]);
      if ops[0].OpenOp? {
        GoodAddsNoTwin(fs, ops[0].path, ops[0].flags, ops[0].memory);
      }
      FsRunOk(Apply(fs, ops[0]), ops[1..], t);
    }
  }

  /** From boot on, the filesystem stays sound along every such run. */
  lemma {:induction false} SoundFromBoot(ops: seq<Op>, t: FS)
    requires FsRun(Init(), ops, t)
    requires forall k :: 0 <= k < |ops| && ops[k].OpenOp? ==> GoodPath(ops[k].path)
    ensures FsOk(t)
  {
    InitOk();
    FsRunOk(Init(), ops, t);
  }

  /** A name longer than its buffer makes a twin: beside a file whose name fills
      the buffer, opening that name with anything appended creates a second entry
      of the same name. */
  lemma LongNameTwin(fs: FS, name: string, more: string, flags: nat)
    requires FsOk(fs) && Sized(fs) && Creat(flags) && FreeInode(fs.inodes, 1) >= 0
    requires NameOk(name) && |name| == MAX_NAME - 1 && NameOk(more)
    requires Child(fs, 0, name) >= 0 && fs.inodes[Child(fs, 0, name)].kind == File
    ensures AddsTwin(fs, "/" + name + more, flags, true) && !FsOk(Open(fs, "/" + name + more, flags, true).0)
  {
    var path := "/" + name + more;
    var c := Child(fs, 0, name);
    var p := path[1..];
    assert p == name + more;
    ComponentFull(p, 0);
    assert p[..31] == name && Rest(p, 31) == more;
    NoLongSlash(path);
    ComponentEndIs(more, 0, |more|);
    assert more[..|more|] == more;
    var d := Child(fs, c, more);
    if d >= 0 {
      ParentUsed(fs.inodes, d);
      assert false;
    }
    assert Walk(fs, c, more) == -1;
    assert Walk(fs, 0, p) == -1;
    assert Cut(p) == name;
    OpenKeeps(fs, path, flags, true);
  }

  lemma NoLongSlash(path: string)
    requires path != "" && path[0] == '/' && forall k :: 0 < k < |path| ==> path[k] != '/'
    ensures LastSlash(path, |path|) == 0
  {
    assert LastSlash(path, |path|) >= 0 by { HasSlash(path, |path|); }
  }

  lemma {:induction false} HasSlash(path: string, n: nat)
    requires 0 < n <= |path| && path[0] == '/'
    ensures LastSlash(path, n) >= 0
  {
    if n > 1 {
      HasSlash(path, n - 1);
    }
  }

  // ----- spelling an inode -----

  /** The names from the root down to inode `i`, which is `k` steps away or less. */
  function Chain(inodes: seq<Inode>, i: int, k: nat): seq<string>
    requires Rooted(inodes, i, k)
    decreases k
  {
    if i == 0 then [] else Chain(inodes, inodes[i].parent, k - 1) + [inodes[i].name]
  }

  function Spell(names: seq<string>): string {
    if names == [] then "" else "/" + names[0] + Spell(names[1..])
  }

  function PathOf(inodes: seq<Inode>, i: int, k: nat): string
    requires Rooted(inodes, i, k)
  {
    if i == 0 then "/" else Spell(Chain(inodes, i, k))
  }

  /** A slash and a name in front add one component. */
  lemma SpellStep(c: string, rest: string)
    requires NameOk(c) && (rest == "" || rest[0] == '/')
    ensures Components("/" + c + rest) == [c] + Components(rest)
  {
    hide Components;
    var q := c + rest;
    var p := "/" + c + rest;
    ComponentsStep(p, 0);
    assert p[1..] == q;
    assert First(p, 0) + After(p, 0) == Components(q);
    ComponentsStep(q, |c|);
    assert q[..|c|] == c;
    Whole("");
    if rest != "" {
      assert q[|c| + 1..] == rest[1..];
      ComponentsStep(rest, 0);
      assert First(rest, 0) + After(rest, 0) == Components(rest[1..]);
    }
  }

  lemma {:induction false} SpellComponents(names: seq<string>)
    requires forall k :: 0 <= k < |names| ==> NameOk(names[k])
    ensures Components(Spell(names)) == names
    ensures names != [] ==> Spell(names) != "" && Spell(names)[0] == '/'
    decreases |names|
  {
    hide Components, NameOk;
    if names == [] {
      Whole("");
    } else {
      SpellComponents(names[1..]);
      SpellStep(names[0], Spell(names[1..]));
      assert names == [names[0]] + names[1..];
    }
  }

  lemma {:induction false} ChainNames(inodes: seq<Inode>, i: int, k: nat)
    requires TreeOk(inodes) && Rooted(inodes, i, k)
    ensures forall j :: 0 <= j < |Chain(inodes, i, k)| ==> NameOk(Chain(inodes, i, k)[j])
    ensures i != 0 ==> Chain(inodes, i, k) != []
    decreases k
  {
    hide NameOk;
    if i != 0 {
      ChainNames(inodes, inodes[i].parent, k - 1);
    }
  }

  /** Among siblings the name finds the inode itself. */
  lemma ChildIs(fs: FS, i: int)
    requires TreeOk(fs.inodes) && Sized(fs) && 0 < i < MAX_INODES && fs.inodes[i].used
    ensures Child(fs, fs.inodes[i].parent, fs.inodes[i].name) == i
  {
    hide Anchored, NameOk;
    var n := fs.inodes[i];
    var c := Child(fs, n.parent, n.name);
    assert IsChild(fs.inodes[i], n.parent, n.name);
    assert c > 0 ==> Siblings(fs.inodes[c], fs.inodes[i]);
  }

  lemma {:induction false} WalkChain(fs: FS, i: int, k: nat)
    requires TreeOk(fs.inodes) && Sized(fs) && Rooted(fs.inodes, i, k)
    ensures WalkNames(fs, 0, Chain(fs.inodes, i, k)) == i
    decreases k
  {
    hide TreeOk, Child;
    if i != 0 {
      var par := fs.inodes[i].parent;
      WalkChain(fs, par, k - 1);
      ChildIs(fs, i);
      WalkAppend(fs, 0, Chain(fs.inodes, par, k - 1), [fs.inodes[i].name]);
      OneName(fs, fs.inodes[i].name);
    }
  }

  /** Resolving the path spelled by an inode's parent chain gives that inode. */
  lemma {:induction false} PathRoundTrip(fs: FS, i: int, k: nat)
    requires FsOk(fs) && Rooted(fs.inodes, i, k)
    ensures Sized(fs) && Resolve(fs, PathOf(fs.inodes, i, k)) == i
  {
    hide Child, Walk, TreeOk, NameOk;
    RootUsed(fs);
    ChainNames(fs.inodes, i, k);
    var names := Chain(fs.inodes, i, k);
    SpellComponents(names);
    if i != 0 {
      NamesShort(names);
      UnfoldChunks(PathOf(fs.inodes, i, k));
      ResolveIs(fs, PathOf(fs.inodes, i, k));
      WalkChain(fs, i, k);
    }
  }

  lemma {:induction false} NamesShort(names: seq<string>)
    requires forall j :: 0 <= j < |names| ==> NameOk(names[j])
    ensures AllSlices(names) == names
    decreases |names|
  {
    if names != [] {
      assert NameOk(names[0]);
      NamesShort(names[1..]);
    }
  }
}
