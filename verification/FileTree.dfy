/**
 * The file trees that the client migration reads and rewrites, and what the file operations do to them.
 *
 * A tree lists every path that exists together with what is there.  Symbolic links are leaves
 * that lead nowhere: a path that runs through one does not exist.
 */
module FileTree {
  import opened Basics

  type Path = seq<string>

  /** A JSON value, as far as the migration looks into it. */
  datatype Json = Null | Bool(b: bool) | Text(s: string) | Object(size: nat) | OtherJson(id: int)

  datatype BackupEntry = BackupEntry(target: Path, existed: bool, backup: Option<Path>)
  datatype SourceBackup = SourceBackup(source: Path, backup: Path)
  datatype Manifest = Manifest(scope: string, targets: seq<BackupEntry>, sources: seq<SourceBackup>)

  /** File contents: a JSON object, a backup manifest, or anything else. */
  datatype Content = Config(fields: map<string, Json>) | Record(manifest: Manifest) | Plain(text: string)

  datatype Entry = File(content: Content) | Link(to: Path) | Dir

  type Tree = map<Path, Entry>

  datatype Status = Found | Missing | NotDir

  /** `p` is `x` or lies below it. */
  predicate Within(x: Path, p: Path) {
    |x| <= |p| && p[..|x|] == x
  }

  /** Neither path lies within the other. */
  predicate Apart(x: Path, y: Path) {
    !Within(x, y) && !Within(y, x)
  }

  function Parent(x: Path): Path
    requires x != []
  {
    x[..|x| - 1]
  }

  function At(t: Tree, p: Path): Option<Entry> {
    if p in t then Some(t[p]) else None
  }

  /** Both trees hold the same below `x`. */
  ghost predicate Same(t: Tree, u: Tree, x: Path) {
    forall p :: Within(x, p) ==> At(t, p) == At(u, p)
  }

  /** Everything that exists lies in directories. */
  ghost predicate Valid(t: Tree) {
    && At(t, []) == Some(Dir)
    && forall p, k :: p in t && 0 <= k < |p| ==> At(t, p[..k]) == Some(Dir)
  }

  /** Whatever exists on the way to `x`, `x` included, is a directory. */
  predicate AllDirs(t: Tree, x: Path) {
    forall k :: 0 <= k <= |x| && x[..k] in t ==> t[x[..k]] == Dir
  }

  /** The way to `x` runs through a regular file. */
  predicate ThroughFile(t: Tree, x: Path) {
    exists k :: 0 <= k < |x| && x[..k] in t && t[x[..k]].File?
  }

  function Lstat(t: Tree, x: Path): Status {
    if x in t then Found else if ThroughFile(t, x) then NotDir else Missing
  }

  function Subtree(t: Tree, x: Path): set<Path> {
    set p | p in t && Within(x, p)
  }

  function RemoveTree(t: Tree, x: Path): (u: Tree)
    ensures forall p :: At(u, p) == if Within(x, p) then None else At(t, p)
  {
    t - Subtree(t, x)
  }

  function MakeDirs(t: Tree, x: Path): (u: Tree)
    ensures forall p :: At(u, p) == if p in t then At(t, p) else if Within(p, x) then Some(Dir) else None
    decreases |x|
  {
    if x == [] then
      if x in t then t else t[x := Dir]
    else
      var u := MakeDirs(t, Parent(x));
      assert forall p :: Within(p, x) <==> p == x || Within(p, Parent(x)) by {
        forall p ensures Within(p, x) <==> p == x || Within(p, Parent(x)) { WithinParent(p, x); }
      }
      if x in t then u else u[x := Dir]
  }

  lemma WithinParent(p: Path, x: Path)
    requires x != []
    ensures Within(p, x) <==> p == x || Within(p, Parent(x))
  {
    if |p| < |x| {
      assert Parent(x)[..|p|] == x[..|p|];
    } else if |p| == |x| {
      assert x[..|p|] == x;
    }
  }

  /** A table of `f` over `keys`. */
  ghost function Tabulate(keys: set<Path>, f: Path -> Entry): (t: Tree)
    ensures t.Keys == keys && forall p :: p in keys ==> t[p] == f(p)
  {
    if keys == {} then map[] else
      var k :| k in keys;
      Tabulate(keys - {k}, f)[k := f(k)]
  }

  function Rebase(p: Path, src: Path, dst: Path): Path
    requires Within(src, p)
  {
    dst + p[|src|..]
  }

  lemma Rebased(p: Path, src: Path, dst: Path)
    requires Within(src, p)
    ensures Within(dst, Rebase(p, src, dst)) && Rebase(Rebase(p, src, dst), dst, src) == p
  {
    assert Rebase(p, src, dst)[|dst|..] == p[|src|..];
    assert p == src + p[|src|..];
  }

  /** What `p` holds once `src` is copied to `dst`. */
  function CopiedAt(t: Tree, src: Path, dst: Path, p: Path): Option<Entry> {
    if Within(dst, p) then At(t, Rebase(p, dst, src))
    else if p in t then At(t, p)
    else if Within(p, dst) then Some(Dir)
    else None
  }

  /** The tree with whatever is at `src` copied to `dst`, replacing what was there. */
  ghost function CopyTree(t: Tree, src: Path, dst: Path): (u: Tree)
    ensures forall p :: At(u, p) == CopiedAt(t, src, dst, p)
  {
    var image := Tabulate(set q | q in Subtree(t, src) :: Rebase(q, src, dst),
                          p => if Within(dst, p) && Rebase(p, dst, src) in t then t[Rebase(p, dst, src)] else Dir);
    assert forall p :: p in image <==> Within(dst, p) && Rebase(p, dst, src) in t by {
      forall q | q in Subtree(t, src)
        ensures Within(dst, Rebase(q, src, dst)) && Rebase(Rebase(q, src, dst), dst, src) == q
      {
        Rebased(q, src, dst);
      }
      forall p | Within(dst, p) && Rebase(p, dst, src) in t ensures p in image { Rebased(p, dst, src); }
    }
    MakeDirs(RemoveTree(t, dst), dst) - {dst} + image
  }

  /** Copying succeeds when the source exists and only directories stand on the way to the target. */
  predicate CanCopy(t: Tree, src: Path, dst: Path) {
    src in t && (dst == [] || AllDirs(t, Parent(dst)))
  }

  // ----- Frames -----

  lemma WithinTrans(x: Path, y: Path, p: Path)
    requires Within(x, y) && Within(y, p)
    ensures Within(x, p)
  {
    assert p[..|x|] == p[..|y|][..|x|];
  }

  /** Two paths that lie on the way to one path are comparable. */
  lemma OnTheWay(x: Path, y: Path, p: Path)
    requires Within(x, p) && Within(y, p)
    ensures Within(x, y) || Within(y, x)
  {
    if |x| <= |y| {
      assert y[..|x|] == p[..|x|];
    } else {
      assert x[..|y|] == p[..|y|];
    }
  }

  lemma ApartBelow(x: Path, y: Path, p: Path)
    requires Apart(x, y) && Within(x, p)
    ensures !Within(y, p) && !Within(p, y)
  {
    if Within(y, p) {
      OnTheWay(x, y, p);
      assert false;
    }
    if Within(p, y) {
      WithinTrans(x, p, y);
      assert false;
    }
  }

  /** Paths below paths that are apart are apart. */
  lemma ApartExtends(x: Path, y: Path, p: Path, q: Path)
    requires Apart(x, y) && Within(x, p) && Within(y, q)
    ensures Apart(p, q)
  {
    ApartBelow(x, y, p);
    ApartBelow(y, x, q);
    if Within(p, q) {
      WithinTrans(x, p, q);
      assert false;
    }
    if Within(q, p) {
      WithinTrans(y, q, p);
      assert false;
    }
  }

  lemma CopyFrame(t: Tree, src: Path, dst: Path, x: Path)
    requires Apart(x, dst)
    ensures Same(t, CopyTree(t, src, dst), x)
  {
    forall p | Within(x, p) ensures At(t, p) == At(CopyTree(t, src, dst), p) {
      ApartBelow(x, dst, p);
    }
  }

  lemma RemoveFrame(t: Tree, y: Path, x: Path)
    requires Apart(x, y)
    ensures Same(t, RemoveTree(t, y), x)
  {
    forall p | Within(x, p) ensures At(t, p) == At(RemoveTree(t, y), p) {
      ApartBelow(x, y, p);
    }
  }

  lemma SameTree(t: Tree, u: Tree)
    requires forall p :: At(t, p) == At(u, p)
    ensures t == u
  {
    assert forall p :: p in t <==> At(t, p).Some?;
    assert forall p :: p in u <==> At(u, p).Some?;
    assert forall p | p in t :: At(t, p) == Some(t[p]);
    assert forall p | p in u :: At(u, p) == Some(u[p]);
  }

  // ----- Validity -----

  lemma ValidRemove(t: Tree, x: Path)
    requires Valid(t) && x != []
    ensures Valid(RemoveTree(t, x))
  {
    var u := RemoveTree(t, x);
    forall p, k | p in u && 0 <= k < |p| ensures At(u, p[..k]) == Some(Dir) {
      assert At(u, p).Some?;
      assert At(t, p[..k]) == Some(Dir);
      if Within(x, p[..k]) { WithinTrans(x, p[..k], p); }
    }
  }

  lemma ValidMake(t: Tree, x: Path)
    requires Valid(t) && AllDirs(t, x)
    ensures Valid(MakeDirs(t, x))
  {
    var u := MakeDirs(t, x);
    forall p, k | p in u && 0 <= k < |p| ensures At(u, p[..k]) == Some(Dir) {
      assert At(u, p).Some?;
      if p in t {
        assert At(t, p[..k]) == Some(Dir);
      } else {
        assert p[..k] == x[..k];
        assert Within(p[..k], x);
      }
    }
  }

  lemma CopyParents(t: Tree, src: Path, dst: Path, k: nat)
    requires Valid(t) && CanCopy(t, src, dst) && k < |dst|
    ensures CopiedAt(t, src, dst, dst[..k]) == Some(Dir)
  {
    assert dst[..k] == Parent(dst)[..k];
  }

  lemma CopyInside(t: Tree, src: Path, dst: Path, p: Path, k: nat)
    requires Valid(t) && Within(dst, p) && |dst| <= k < |p| && CopiedAt(t, src, dst, p).Some?
    ensures CopiedAt(t, src, dst, p[..k]) == Some(Dir)
  {
    var q := Rebase(p, dst, src);
    assert q in t;
    assert p[..k][..|dst|] == p[..|dst|];
    assert Rebase(p[..k], dst, src) == q[..k - |dst| + |src|];
  }

  lemma ValidCopy(t: Tree, src: Path, dst: Path)
    requires Valid(t) && CanCopy(t, src, dst) && Apart(src, dst)
    ensures Valid(CopyTree(t, src, dst))
  {
    var u := CopyTree(t, src, dst);
    assert At(u, []) == CopiedAt(t, src, dst, []);
    forall p, k | p in u && 0 <= k < |p| ensures At(u, p[..k]) == Some(Dir) {
      assert At(u, p) == CopiedAt(t, src, dst, p);
      assert At(u, p[..k]) == CopiedAt(t, src, dst, p[..k]);
      if Within(dst, p) && |dst| <= k {
        CopyInside(t, src, dst, p, k);
      } else if Within(dst, p) || p !in t {
        assert p[..k] == dst[..k];
        CopyParents(t, src, dst, k);
      } else {
        assert At(t, p[..k]) == Some(Dir);
        if Within(dst, p[..k]) {
          WithinTrans(dst, p[..k], p);
          assert false;
        }
      }
    }
  }

  lemma ValidWrite(t: Tree, x: Path, e: Entry)
    requires Valid(t) && x != [] && At(t, Parent(x)) == Some(Dir)
    requires x !in t || (t[x] != Dir && e != Dir)
    ensures Valid(t[x := e])
  {
    var u := t[x := e];
    forall p, k | p in u && 0 <= k < |p| ensures At(u, p[..k]) == Some(Dir) {
      if p == x {
        assert p[..k] == Parent(x)[..k];
        assert Parent(x) in t;
        if k < |x| - 1 { assert At(t, Parent(x)[..k]) == Some(Dir); }
      } else {
        assert At(t, p[..k]) == Some(Dir);
      }
    }
  }
}
