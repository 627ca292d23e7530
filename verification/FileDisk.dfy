/** The mutable disk of the client migration: library file operations, and the recursive copy built on them. */
module FileDisk {
  import opened Basics
  import opened FileTree

  /** The names of the entries directly below `src`. */
  function Names(t: Tree, src: Path): set<string> {
    set p | p in t && Within(src, p) && |p| == |src| + 1 :: p[|src|]
  }

  /** What `p` holds while the entries `todo` of `src` still have to be copied to `dst`. */
  function PartAt(t: Tree, src: Path, dst: Path, todo: set<string>, p: Path): Option<Entry> {
    if Within(dst, p) && |dst| < |p| && p[|dst|] in todo then None else CopiedAt(t, src, dst, p)
  }

  ghost predicate Part(t: Tree, u: Tree, src: Path, dst: Path, todo: set<string>) {
    forall p :: At(u, p) == PartAt(t, src, dst, todo, p)
  }

  lemma PartStarts(t: Tree, src: Path, dst: Path)
    requires Valid(t) && At(t, src) == Some(Dir) && Apart(src, dst) && Subtree(t, dst) == {}
    ensures Part(t, MakeDirs(t, dst), src, dst, Names(t, src))
  {
    forall p ensures At(MakeDirs(t, dst), p) == PartAt(t, src, dst, Names(t, src), p) {
      if Within(dst, p) {
        assert p !in Subtree(t, dst);
        if |dst| < |p| && Rebase(p, dst, src) in t {
          var q := Rebase(p, dst, src);
          assert At(t, q[..|src| + 1]).Some? by {
            if |q| == |src| + 1 { assert q[..|src| + 1] == q; }
          }
          assert q[..|src| + 1][|src|] == p[|dst|];
          assert Within(src, q[..|src| + 1]) by { assert q[..|src| + 1][..|src|] == src; }
        } else if |p| == |dst| {
          assert p == dst && Rebase(p, dst, src) == src;
        }
      }
    }
  }

  lemma PartSource(t: Tree, u: Tree, src: Path, dst: Path, todo: set<string>)
    requires Apart(src, dst) && Part(t, u, src, dst, todo)
    ensures Same(t, u, src)
  {
    forall p | Within(src, p) ensures At(t, p) == At(u, p) {
      ApartBelow(src, dst, p);
    }
  }

  lemma OneLower(x: Path, n: string, p: Path)
    ensures Within(x + [n], p) <==> Within(x, p) && |x| < |p| && p[|x|] == n
  {
    if Within(x, p) && |x| < |p| && p[|x|] == n {
      assert p[..|x| + 1] == p[..|x|] + [n];
    }
  }

  lemma NextCanCopy(t: Tree, u: Tree, src: Path, dst: Path, todo: set<string>, n: string)
    requires Valid(u) && At(t, src) == Some(Dir) && Apart(src, dst) && Part(t, u, src, dst, todo)
    requires n in todo && todo <= Names(t, src)
    ensures Apart(src + [n], dst + [n]) && CanCopy(u, src + [n], dst + [n])
    ensures Subtree(u, src + [n]) < Subtree(t, src)
  {
    OneLower(src, n, src + [n]);
    OneLower(dst, n, dst + [n]);
    ApartExtends(src, dst, src + [n], dst + [n]);
    PartSource(t, u, src, dst, todo);
    NamedChild(t, src, n);
    assert At(u, src + [n]) == At(t, src + [n]);
    assert Rebase(dst, dst, src) == src;
    assert At(u, dst) == Some(Dir);
    DirsTo(u, dst, n);
    NextIsSmaller(t, u, src, n);
  }

  lemma NamedChild(t: Tree, src: Path, n: string)
    requires n in Names(t, src)
    ensures src + [n] in t
  {
    var q :| q in t && Within(src, q) && |q| == |src| + 1 && q[|src|] == n;
    assert q == src + [n];
  }

  lemma DirsTo(u: Tree, dst: Path, n: string)
    requires Valid(u) && At(u, dst) == Some(Dir)
    ensures AllDirs(u, Parent(dst + [n]))
  {
    assert Parent(dst + [n]) == dst && dst[..|dst|] == dst;
    assert forall k :: 0 <= k < |dst| ==> At(u, dst[..k]) == Some(Dir);
  }

  lemma NextIsSmaller(t: Tree, u: Tree, src: Path, n: string)
    requires src in t && Same(t, u, src)
    ensures Subtree(u, src + [n]) < Subtree(t, src)
  {
    forall p | p in Subtree(u, src + [n]) ensures p in Subtree(t, src) {
      OneLower(src, n, p);
      assert At(u, p) == At(t, p);
    }
    OneLower(src, n, src);
    assert src in Subtree(t, src) && src !in Subtree(u, src + [n]);
  }

  lemma NextPartAt(t: Tree, u: Tree, src: Path, dst: Path, todo: set<string>, n: string, p: Path)
    requires Part(t, u, src, dst, todo) && Same(t, u, src) && n in todo && At(u, dst) == Some(Dir) && Valid(u)
    ensures CopiedAt(u, src + [n], dst + [n], p) == PartAt(t, src, dst, todo - {n}, p)
  {
    OneLower(dst, n, p);
    assert At(u, p) == PartAt(t, src, dst, todo, p);
    if Within(dst + [n], p) {
      var q := Rebase(p, dst, src);
      assert Rebase(p, dst + [n], src + [n]) == q;
      Rebased(p, dst, src);
      assert At(t, q) == At(u, q);
    } else if Within(p, dst + [n]) {
      WithinParent(p, dst + [n]);
      assert Parent(dst + [n]) == dst;
      assert At(u, p) == Some(Dir) by {
        if |p| < |dst| { assert At(u, dst[..|p|]) == Some(Dir); } else { assert p == dst; }
      }
    }
  }

  lemma NextPart(t: Tree, u: Tree, src: Path, dst: Path, todo: set<string>, n: string)
    requires At(t, src) == Some(Dir) && Apart(src, dst) && Part(t, u, src, dst, todo) && n in todo && Valid(u)
    ensures Part(t, CopyTree(u, src + [n], dst + [n]), src, dst, todo - {n})
  {
    PartSource(t, u, src, dst, todo);
    assert Rebase(dst, dst, src) == src;
    assert At(u, dst) == Some(Dir);
    forall p ensures At(CopyTree(u, src + [n], dst + [n]), p) == PartAt(t, src, dst, todo - {n}, p) {
      NextPartAt(t, u, src, dst, todo, n, p);
    }
  }

  // ----- The branches of one copy -----

  lemma SameSubtree(t: Tree, u: Tree, x: Path)
    requires Same(t, u, x)
    ensures Subtree(t, x) == Subtree(u, x)
  {
    forall p | Within(x, p) ensures p in t <==> p in u {
      assert At(t, p) == At(u, p);
    }
  }

  lemma FileInTheWay(t: Tree, x: Path)
    requires ThroughFile(t, x)
    ensures !AllDirs(t, Parent(x))
  {
    var k :| 0 <= k < |x| && x[..k] in t && t[x[..k]].File?;
    assert Parent(x)[..k] == x[..k];
  }

  lemma NothingBelow(t: Tree, x: Path)
    requires Valid(t) && x !in t
    ensures Subtree(t, x) == {}
  {
    forall p | p in t ensures !Within(x, p) {
      assert |x| < |p| ==> At(t, p[..|x|]) == Some(Dir);
      assert |x| == |p| ==> p[..|x|] == p;
    }
  }

  lemma AllDirsAbove(t: Tree, x: Path)
    requires Valid(t) && x in t && x != []
    ensures AllDirs(t, Parent(x))
  {
    forall k | 0 <= k < |x| ensures At(t, Parent(x)[..k]) == Some(Dir) {
      assert Parent(x)[..k] == x[..k];
    }
  }

  lemma AllDirsAbsent(t: Tree, x: Path)
    requires x != [] && x !in t
    ensures AllDirs(t, x) <==> AllDirs(t, Parent(x))
  {
    assert forall k :: 0 <= k < |x| ==> Parent(x)[..k] == x[..k];
    assert x[..|x|] == x;
  }

  /** Clearing the target first makes no difference to the copy. */
  lemma RemoveKeepsAbove(t: Tree, y: Path)
    requires y != []
    ensures AllDirs(RemoveTree(t, y), Parent(y)) <==> AllDirs(t, Parent(y))
    ensures Subtree(RemoveTree(t, y), y) == {}
  {
    var u := RemoveTree(t, y);
    assert forall p :: p in u ==> At(u, p).Some?;
    forall k | 0 <= k < |y| ensures At(u, Parent(y)[..k]) == At(t, Parent(y)[..k]) { }
  }

  lemma RemovedAnyway(t: Tree, src: Path, dst: Path)
    requires Apart(src, dst)
    ensures CopyTree(RemoveTree(t, dst), src, dst) == CopyTree(t, src, dst)
  {
    var u := RemoveTree(t, dst);
    RemoveFrame(t, dst, src);
    forall p ensures CopiedAt(u, src, dst, p) == CopiedAt(t, src, dst, p) {
      if Within(dst, p) { Rebased(p, dst, src); }
      assert At(u, p) == if Within(dst, p) then None else At(t, p);
    }
    SameTree(CopyTree(u, src, dst), CopyTree(t, src, dst));
  }

  lemma RemoveThenCopy(t: Tree, src: Path, dst: Path)
    requires Apart(src, dst)
    ensures Same(t, RemoveTree(t, dst), src) && Subtree(RemoveTree(t, dst), dst) == {}
    ensures AllDirs(RemoveTree(t, dst), Parent(dst)) <==> AllDirs(t, Parent(dst))
    ensures CopyTree(RemoveTree(t, dst), src, dst) == CopyTree(t, src, dst)
  {
    RemoveFrame(t, dst, src);
    RemoveKeepsAbove(t, dst);
    RemovedAnyway(t, src, dst);
  }

  lemma PlaceIsCopy(t: Tree, src: Path, dst: Path)
    requires Valid(t) && src in t && t[src] != Dir && Apart(src, dst) && Subtree(t, dst) == {}
    ensures MakeDirs(t, Parent(dst))[dst := t[src]] == CopyTree(t, src, dst)
  {
    var u := MakeDirs(t, Parent(dst))[dst := t[src]];
    forall p ensures At(u, p) == CopiedAt(t, src, dst, p) {
      WithinParent(p, dst);
      assert p !in Subtree(t, dst);
      assert At(MakeDirs(t, Parent(dst)), p) ==
        if p in t then At(t, p) else if Within(p, Parent(dst)) then Some(Dir) else None;
      if p == dst {
        assert Rebase(p, dst, src) == src;
      } else if Within(dst, p) {
        var q := Rebase(p, dst, src);
        assert q[..|src|] == src;
      }
    }
    SameTree(u, CopyTree(t, src, dst));
  }

  class Disk {
    var files: Tree

    constructor (files: Tree)
      ensures this.files == files
    {
      this.files := files;
    }

    method RemoveAll(x: Path) returns (ok: bool)
      requires Valid(files) && x != []
      modifies this
      ensures Valid(files) && (ok <==> Lstat(old(files), x) != NotDir)
      ensures files == if ok then RemoveTree(old(files), x) else old(files)
    {
      if Lstat(files, x) == NotDir { return false; }
      ValidRemove(files, x);
      files := RemoveTree(files, x);
      ok := true;
    }

    method MkdirAll(x: Path) returns (ok: bool)
      requires Valid(files)
      modifies this
      ensures Valid(files) && (ok <==> AllDirs(old(files), x))
      ensures files == if ok then MakeDirs(old(files), x) else old(files)
    {
      if !AllDirs(files, x) { return false; }
      ValidMake(files, x);
      files := MakeDirs(files, x);
      ok := true;
    }

    /** Puts a file or a link where nothing stands, with the directories on the way. */
    method Place(x: Path, e: Entry) returns (ok: bool)
      requires Valid(files) && x != [] && e != Dir && Subtree(files, x) == {}
      modifies this
      ensures Valid(files) && (ok <==> AllDirs(old(files), Parent(x)))
      ensures files == if ok then MakeDirs(old(files), Parent(x))[x := e] else old(files)
    {
      ok := MkdirAll(Parent(x));
      if !ok { return; }
      assert Parent(x)[..|x| - 1] == Parent(x);
      assert At(files, Parent(x)) == Some(Dir);
      assert x !in old(Subtree(files, x));
      ValidWrite(files, x, e);
      files := files[x := e];
    }

    method CopyPath(src: Path, dst: Path) returns (ok: bool)
      requires Valid(files) && Apart(src, dst)
      modifies this
      ensures Valid(files) && (ok <==> CanCopy(old(files), src, dst))
      ensures files == if ok then CopyTree(old(files), src, dst) else old(files)
      decreases Subtree(files, src), 2
    {
      if src !in files { return false; }
      var status := Lstat(files, dst);
      if status == NotDir {
        FileInTheWay(files, dst);
        return false;
      }
      RemoveThenCopy(files, src, dst);
      if status == Found {
        AllDirsAbove(files, dst);
        var _ := RemoveAll(dst);
        SameSubtree(old(files), files, src);
        assert At(files, src) == At(old(files), src);
      } else {
        NothingBelow(files, dst);
      }
      ok := CopyEntry(src, dst);
    }

    /** Copies to a place that is free. */
    method CopyEntry(src: Path, dst: Path) returns (ok: bool)
      requires Valid(files) && Apart(src, dst) && src in files && Subtree(files, dst) == {}
      modifies this
      ensures Valid(files) && (ok <==> AllDirs(old(files), Parent(dst)))
      ensures files == if ok then CopyTree(old(files), src, dst) else old(files)
      decreases Subtree(files, src), 1
    {
      match files[src] {
        case Dir =>
          ok := CopyDir(src, dst);
        case _ =>
          PlaceIsCopy(files, src, dst);
          ok := Place(dst, files[src]);
      }
    }

    method CopyDir(src: Path, dst: Path) returns (ok: bool)
      requires Valid(files) && Apart(src, dst) && At(files, src) == Some(Dir) && Subtree(files, dst) == {}
      modifies this
      ensures Valid(files) && (ok <==> AllDirs(old(files), Parent(dst)))
      ensures files == if ok then CopyTree(old(files), src, dst) else old(files)
      decreases Subtree(files, src), 0
    {
      ghost var t := files;
      assert dst !in Subtree(t, dst);
      AllDirsAbsent(t, dst);
      ok := MkdirAll(dst);
      if !ok { return; }
      PartStarts(t, src, dst);
      PartSource(t, files, src, dst, Names(t, src));
      var todo := Names(files, src);
      while todo != {}
        invariant Valid(files) && Part(t, files, src, dst, todo) && todo <= Names(t, src)
      {
        var n :| n in todo;
        NextCanCopy(t, files, src, dst, todo, n);
        NextPart(t, files, src, dst, todo, n);
        var _ := CopyPath(src + [n], dst + [n]);
        todo := todo - {n};
      }
      SameTree(files, CopyTree(t, src, dst));
    }
  }
}
