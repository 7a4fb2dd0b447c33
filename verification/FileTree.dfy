/**
 The file store below its base directory: a set of directories and a map from file paths to contents,
 with the operating system calls the program makes on it.
 */
module FileTree {
  import opened Paths

  type Byte = b: int | 0 <= b < 256
  type Bytes = seq<Byte>
  type Files = map<Path, Bytes>

  datatype Tree = Tree(files: Files, dirs: set<Path>)

  datatype Kind = Directory | Regular | BelowFile | Missing

  /** Every entry hangs below directories, and no path is both kinds. */
  ghost predicate WF(t: Tree) {
    && [] in t.dirs
    && (forall p, k | p in t.dirs && 0 <= k <= |p| :: p[..k] in t.dirs)
    && (forall p, k | p in t.files && 0 <= k < |p| :: p[..k] in t.dirs)
    && t.files.Keys !! t.dirs
  }

  predicate Exists(t: Tree, p: Path) {
    p in t.dirs || p in t.files
  }

  predicate ThroughFile(t: Tree, p: Path) {
    exists k | 0 <= k < |p| :: p[..k] in t.files
  }

  /** os.Stat: a path that runs through a regular file is an error of its own, not "missing". */
  function Stat(t: Tree, p: Path): Kind {
    if p in t.dirs then Directory
    else if p in t.files then Regular
    else if ThroughFile(t, p) then BelowFile
    else Missing
  }

  /** The directory `p` lists at least one entry. */
  ghost predicate HasEntry(t: Tree, p: Path) {
    exists c :: Exists(t, p + [c])
  }

  /** Entry names os.ReadDir returns. */
  function Entries(t: Tree, p: Path): set<string> {
    set q | q in t.files.Keys + t.dirs && |q| == |p| + 1 && q[..|p|] == p :: q[|p|]
  }

  lemma EntriesMeaning(t: Tree, p: Path)
    ensures forall c :: c in Entries(t, p) <==> Exists(t, p + [c])
    ensures Entries(t, p) != {} <==> HasEntry(t, p)
  {
    forall c
      ensures c in Entries(t, p) <==> Exists(t, p + [c])
    {
      if c in Entries(t, p) {
        var q :| q in t.files.Keys + t.dirs && |q| == |p| + 1 && q[..|p|] == p && q[|p|] == c;
        assert q == p + [c];
      }
      if Exists(t, p + [c]) {
        var q := p + [c];
        assert q in t.files.Keys + t.dirs && |q| == |p| + 1 && q[..|p|] == p && q[|p|] == c;
      }
    }
  }

  /** Nothing lies strictly below `p`. */
  ghost predicate NothingBelow(t: Tree, p: Path) {
    forall q | Exists(t, q) :: !(p < q)
  }

  /** A directory without entries has nothing anywhere below it, and neither has a missing one. */
  lemma EmptyMeansNothingBelow(t: Tree, p: Path)
    requires WF(t)
    ensures NothingBelow(t, p) || (p in t.dirs && HasEntry(t, p))
  {
    forall q | Exists(t, q) && p < q
      ensures p in t.dirs && HasEntry(t, p)
    {
      assert q[..|p|] == p && q[..|p| + 1] == p + [q[|p|]];
      assert |q| == |p| + 1 ==> q[..|p| + 1] == q;
      assert Exists(t, p + [q[|p|]]);
    }
  }

  function Prefixes(p: Path): set<Path> {
    set k | 0 <= k <= |p| :: p[..k]
  }

  function Parent(p: Path): Path
    requires p != []
  {
    p[..|p| - 1]
  }

  /** os.MkdirAll succeeds unless a regular file stands in the way. */
  predicate CanMkdirAll(t: Tree, p: Path) {
    p !in t.files && !ThroughFile(t, p)
  }

  function MkdirAll(t: Tree, p: Path): Tree {
    t.(dirs := t.dirs + Prefixes(p))
  }

  lemma MkdirAllWF(t: Tree, p: Path)
    requires WF(t) && CanMkdirAll(t, p)
    ensures WF(MkdirAll(t, p)) && p in MkdirAll(t, p).dirs
  {
    var t' := MkdirAll(t, p);
    assert p[..|p|] == p;
    forall q, k | q in t'.dirs && 0 <= k <= |q|
      ensures q[..k] in t'.dirs
    {
      if q !in t.dirs {
        var j :| 0 <= j <= |p| && q == p[..j];
        assert q[..k] == p[..k];
      }
    }
    forall q | q in t'.dirs
      ensures q !in t'.files
    {
      if q !in t.dirs {
        var j :| 0 <= j <= |p| && q == p[..j];
      }
    }
  }

  /** os.Remove of an empty directory. */
  function RemoveDir(t: Tree, p: Path): Tree {
    t.(dirs := t.dirs - {p})
  }

  lemma RemoveDirWF(t: Tree, p: Path)
    requires WF(t) && p != [] && NothingBelow(t, p)
    ensures WF(RemoveDir(t, p))
  {
    forall q, k | q in t.dirs && q != p && 0 <= k <= |q|
      ensures q[..k] != p
    {
      assert Exists(t, q);
    }
    forall q, k | q in t.files && 0 <= k < |q|
      ensures q[..k] != p
    {
      assert Exists(t, q);
    }
  }

  function WriteFile(t: Tree, p: Path, data: Bytes): Tree {
    t.(files := t.files[p := data])
  }

  lemma WriteFileWF(t: Tree, p: Path, data: Bytes)
    requires WF(t) && p != [] && Parent(p) in t.dirs && p !in t.dirs
    ensures WF(WriteFile(t, p, data))
  {
    forall k | 0 <= k < |p|
      ensures p[..k] in t.dirs
    {
      assert p[..k] == Parent(p)[..k];
    }
  }

  // ---- rename ----

  function Rebase(p: Path, from: Path, to: Path): Path {
    if from <= p then to + p[|from|..] else p
  }

  /** The files after `from` was renamed to `to`: every path below `from` now starts with `to`. */
  function MoveFiles(files: Files, from: Path, to: Path): Files {
    (map p | p in files && !(from <= p) :: files[p]) +
    (map q | q in (set p | p in files && from <= p :: to + p[|from|..]) && from + q[|to|..] in files
      :: files[from + q[|to|..]])
  }

  function MoveDirs(dirs: set<Path>, from: Path, to: Path): set<Path> {
    set p | p in dirs :: Rebase(p, from, to)
  }

  function Move(t: Tree, from: Path, to: Path): Tree {
    Tree(MoveFiles(t.files, from, to), MoveDirs(t.dirs, from, to))
  }

  /** No file lies at or below `to` unless it is about to be moved itself. */
  ghost predicate Vacant(files: Files, from: Path, to: Path) {
    forall p | p in files && to <= p :: from <= p
  }

  lemma MoveFilesAt(files: Files, from: Path, to: Path)
    requires Vacant(files, from, to)
    ensures forall p | p in files ::
              Rebase(p, from, to) in MoveFiles(files, from, to) &&
              MoveFiles(files, from, to)[Rebase(p, from, to)] == files[p]
    ensures forall q | q in MoveFiles(files, from, to) :: exists p | p in files :: q == Rebase(p, from, to)
  {
    var moved := MoveFiles(files, from, to);
    forall p | p in files
      ensures Rebase(p, from, to) in moved && moved[Rebase(p, from, to)] == files[p]
    {
      if from <= p {
        var q := to + p[|from|..];
        assert q[|to|..] == p[|from|..];
        assert from + q[|to|..] == p;
      } else {
        assert p in (set r | r in files && from <= r :: to + r[|from|..]) ==> to <= p;
      }
    }
    forall q | q in moved
      ensures exists p | p in files :: q == Rebase(p, from, to)
    {
      if q in files && !(from <= q) {
        assert q == Rebase(q, from, to);
      }
    }
  }

  /** Moving away and back restores every file. */
  lemma MoveFilesBack(files: Files, from: Path, to: Path)
    requires forall p | p in files :: !(to <= p)
    requires !(from <= to) && !(to <= from)
    ensures MoveFiles(MoveFiles(files, from, to), to, from) == files
  {
    var moved := MoveFiles(files, from, to);
    MoveFilesAt(files, from, to);
    forall p | p in files
      ensures Rebase(Rebase(p, from, to), to, from) == p
    {
      RebaseBack(p, from, to);
    }
    forall q | q in moved
      ensures !(from <= q)
    {
      var p :| p in files && q == Rebase(p, from, to);
      RebaseAvoids(p, from, to);
    }
    MoveFilesAt(moved, to, from);
    var back := MoveFiles(moved, to, from);
    forall p | p in files
      ensures p in back && back[p] == files[p]
    {
      assert Rebase(Rebase(p, from, to), to, from) == p;
    }
    forall p | p in back
      ensures p in files
    {
      var q :| q in moved && p == Rebase(q, to, from);
      var r :| r in files && q == Rebase(r, from, to);
    }
  }

  lemma RebaseBack(p: Path, from: Path, to: Path)
    requires !(to <= p)
    ensures Rebase(Rebase(p, from, to), to, from) == p
  {
  }

  lemma RebaseAvoids(p: Path, from: Path, to: Path)
    requires !(from <= to) && !(to <= from)
    ensures !(from <= Rebase(p, from, to))
  {
  }

  /** A move that finds nothing to move changes no file. */
  lemma MoveNothing(files: Files, from: Path, to: Path)
    ensures (forall p | p in files :: !(from <= p)) ==> MoveFiles(files, from, to) == files
    ensures from == to ==> MoveFiles(files, from, to) == files
    ensures from != to && !(from <= to) && !(to <= from) && MoveFiles(files, from, to) == files
            ==> forall p | p in files :: !(from <= p)
  {
    var moved := MoveFiles(files, from, to);
    if from == to {
      MoveFilesAt(files, from, to);
      forall p | p in files
        ensures Rebase(p, from, to) == p
      {
        if from <= p {
          assert from + p[|from|..] == p;
        }
      }
      forall p | p in files
        ensures p in moved && moved[p] == files[p]
      {
        assert Rebase(p, from, to) == p;
      }
      forall q | q in moved
        ensures q in files
      {
        var p :| p in files && q == Rebase(p, from, to);
      }
      assert moved == files;
    } else if forall p | p in files :: !(from <= p) {
      assert moved == files;
    } else if !(from <= to) && !(to <= from) {
      var p :| p in files && from <= p;
      forall r | r in files && from <= r
        ensures to + r[|from|..] != p
      {
        RebaseAvoids(r, from, to);
      }
    }
  }

  /** The target of a move: free, with nothing below it, in an existing directory. */
  ghost predicate Landing(t: Tree, from: Path, to: Path) {
    && from != [] && to != [] && !(from <= to) && !(to <= from)
    && NothingBelow(t, to) && !Exists(t, to) && Parent(to) in t.dirs
  }

  lemma MoveWF(t: Tree, from: Path, to: Path)
    requires WF(t) && Landing(t, from, to)
    ensures WF(Move(t, from, to))
  {
    var t' := Move(t, from, to);
    LandingVacant(t, from, to);
    MoveFilesAt(t.files, from, to);
    assert Rebase([], from, to) == [];
    forall q, k | q in t'.dirs && 0 <= k <= |q|
      ensures q[..k] in t'.dirs
    {
      var p :| p in t.dirs && q == Rebase(p, from, to);
      if k == |q| {
        assert q[..k] == q;
      } else {
        MovedParent(t, from, to, p, k);
      }
    }
    forall q, k | q in t'.files && 0 <= k < |q|
      ensures q[..k] in t'.dirs
    {
      var p :| p in t.files && q == Rebase(p, from, to);
      MovedParent(t, from, to, p, k);
    }
    forall q | q in t'.files
      ensures q !in t'.dirs
    {
      var p :| p in t.files && q == Rebase(p, from, to);
      assert Exists(t, p);
      RebaseBack(p, from, to);
      forall d | d in t.dirs
        ensures Rebase(d, from, to) != q
      {
        assert Exists(t, d);
        RebaseBack(d, from, to);
      }
    }
  }

  lemma LandingVacant(t: Tree, from: Path, to: Path)
    requires Landing(t, from, to)
    ensures forall p | Exists(t, p) :: !(to <= p)
    ensures Vacant(t.files, from, to)
  {
    forall p | Exists(t, p)
      ensures !(to <= p)
    {
      assert to <= p ==> p == to || to < p;
    }
    assert forall p | p in t.files :: Exists(t, p);
  }

  /** After a move the old place is gone and the new one is there. */
  lemma MovePlaces(t: Tree, from: Path, to: Path)
    requires WF(t) && Landing(t, from, to)
    ensures forall q | Exists(Move(t, from, to), q) :: !(from <= q)
    ensures Exists(t, from) ==> Exists(Move(t, from, to), to)
    ensures forall p | p in t.dirs && !(from <= p) :: p in Move(t, from, to).dirs
  {
    var t' := Move(t, from, to);
    LandingVacant(t, from, to);
    MoveFilesAt(t.files, from, to);
    forall q | Exists(t', q)
      ensures !(from <= q)
    {
      var p :| Exists(t, p) && q == Rebase(p, from, to);
      RebaseAvoids(p, from, to);
    }
    assert Rebase(from, from, to) == to;
    forall p | p in t.dirs && !(from <= p)
      ensures p in t'.dirs
    {
      assert Rebase(p, from, to) == p;
    }
  }

  lemma MovedParent(t: Tree, from: Path, to: Path, p: Path, k: nat)
    requires WF(t) && to != [] && from != [] && !(from <= to)
    requires Parent(to) in t.dirs && Exists(t, p) && k < |Rebase(p, from, to)|
    ensures Rebase(p, from, to)[..k] in Move(t, from, to).dirs
  {
    var q := Rebase(p, from, to);
    if from <= p {
      if k < |to| {
        assert q[..k] == to[..k] == Parent(to)[..k];
        assert !(from <= to[..k]);
        assert Rebase(to[..k], from, to) == to[..k];
      } else {
        var d := p[..|from| + (k - |to|)];
        assert d in t.dirs;
        assert from <= d;
        assert d[|from|..] == p[|from|..][..k - |to|];
        assert Rebase(d, from, to) == q[..k];
      }
    } else {
      assert p[..k] in t.dirs;
      assert Rebase(p[..k], from, to) == p[..k];
    }
  }
}
