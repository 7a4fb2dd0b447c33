/**
 One lock file below the atomic steps of Locks: opening and locking, and unlocking and removing, are
 separate system calls, and a lock belongs to an inode rather than to a path.
 */
module LockFiles {
  import opened Wrappers

  /** `current` is the inode behind the path, `fds` what callers have open, `removing` who unlocked but not yet removed. */
  datatype File = File(current: Option<nat>, unused: nat, fds: map<nat, nat>, locked: map<nat, nat>, removing: set<nat>)

  datatype Call = Open | Flock | Unlock | Unlink

  predicate Holds(f: File, a: nat) {
    a in f.fds && f.fds[a] in f.locked && f.locked[f.fds[a]] == a
  }

  predicate Stale(f: File, a: nat)
    requires a in f.fds
  {
    f.current != Some(f.fds[a])
  }

  predicate Enabled(f: File, a: nat, c: Call) {
    match c
    case Open => a !in f.fds && a !in f.removing
    case Flock => a in f.fds && !Holds(f, a)
    case Unlock => Holds(f, a)
    case Unlink => a in f.removing
  }

  function Next(f: File, a: nat, c: Call): File
    requires Enabled(f, a, c)
  {
    match c
    case Open =>
      if f.current.Some? then f.(fds := f.fds[a := f.current.value])
      else f.(current := Some(f.unused), unused := f.unused + 1, fds := f.fds[a := f.unused])
    case Flock =>
      if f.fds[a] in f.locked then f.(fds := f.fds - {a})
      else f.(locked := f.locked[f.fds[a] := a])
    case Unlock =>
      f.(fds := f.fds - {a}, locked := f.locked - {f.fds[a]}, removing := f.removing + {a})
    case Unlink => f.(current := None, removing := f.removing - {a})
  }

  ghost predicate Inv(f: File) {
    && (f.current.Some? ==> f.current.value < f.unused)
    && (forall a | a in f.fds :: f.fds[a] < f.unused)
    && (forall i | i in f.locked :: f.locked[i] in f.fds && f.fds[f.locked[i]] == i)
  }

  lemma StepKeepsInv(f: File, a: nat, c: Call)
    requires Inv(f) && Enabled(f, a, c)
    ensures Inv(Next(f, a, c))
  {
  }

  /** Nobody has the inode open that is behind the path. */
  ghost predicate Unopened(f: File) {
    forall b | b in f.fds :: Stale(f, b)
  }

  ghost predicate Run(files: seq<File>, who: seq<nat>, what: seq<Call>) {
    && |who| == |what| && |files| == |who| + 1
    && files[0] == File(None, 0, map[], map[], {})
    && forall i | 0 <= i < |who| :: Enabled(files[i], who[i], what[i])
                                    && files[i + 1] == Next(files[i], who[i], what[i])
  }

  /** Every removal happens while nobody has the file open. */
  ghost predicate CleanRemovals(files: seq<File>, who: seq<nat>, what: seq<Call>) {
    |what| <= |files| && forall i | 0 <= i < |what| && what[i] == Unlink :: Unopened(files[i])
  }

  lemma {:induction false} RunKeepsInv(files: seq<File>, who: seq<nat>, what: seq<Call>, i: nat)
    requires Run(files, who, what) && i < |files|
    ensures Inv(files[i])
    ensures CleanRemovals(files, who, what) ==> forall b | b in files[i].fds :: !Stale(files[i], b)
  {
    if i > 0 {
      var k := i - 1;
      RunKeepsInv(files, who, what, k);
      assert files[k + 1] == Next(files[k], who[k], what[k]);
      StepKeepsInv(files[k], who[k], what[k]);
    }
  }

  /** Two holders of one name always hold different inodes, at most one of them the one behind the path. */
  lemma SecondHolderIsStale(f: File, a: nat, b: nat)
    requires a != b && Holds(f, a) && Holds(f, b)
    ensures f.fds[a] != f.fds[b] && (Stale(f, a) || Stale(f, b))
  {
  }

  /** Exclusion holds in every run in which nothing is removed while somebody has it open ... */
  lemma CleanRunExcludes(files: seq<File>, who: seq<nat>, what: seq<Call>, i: nat, a: nat, b: nat)
    requires Run(files, who, what) && i < |files| && CleanRemovals(files, who, what)
    requires Holds(files[i], a) && Holds(files[i], b)
    ensures a == b
  {
    RunKeepsInv(files, who, what, i);
  }

  /** The file after `a` removes, `b` locks if it has yet to, and a newcomer `c` opens and locks. */
  function AfterRemoval(f: File, a: nat, b: nat, c: nat): File
    requires Inv(f) && Enabled(f, a, Unlink) && b in f.fds && (Holds(f, b) || f.fds[b] !in f.locked)
    requires c !in f.fds && c !in f.removing
  {
    var g := Next(f, a, Unlink);
    var h := if Holds(g, b) then g else Next(g, b, Flock);
    var o := Next(h, c, Open);
    Next(o, c, Flock)
  }

  /** ... and whenever something is, two holders are three calls away. */
  lemma RemovalUnderOpenBreaks(f: File, a: nat, c: nat)
    requires Inv(f) && Enabled(f, a, Unlink) && !Unopened(f) && c !in f.fds && c !in f.removing
    ensures exists b | b in f.fds && (Holds(f, b) || f.fds[b] !in f.locked) ::
              b != c && Holds(AfterRemoval(f, a, b, c), b) && Holds(AfterRemoval(f, a, b, c), c)
  {
    var d :| d in f.fds && !Stale(f, d);
    var b := if f.fds[d] in f.locked then f.locked[f.fds[d]] else d;
    assert Holds(f, b) || f.fds[b] !in f.locked;
    var g := Next(f, a, Unlink);
    var h := if Holds(g, b) then g else Next(g, b, Flock);
    assert Holds(h, b) && h.fds[b] < h.unused;
    var o := Next(h, c, Open);
    assert o.fds[c] == h.unused && o.fds[c] !in o.locked;
    assert Holds(AfterRemoval(f, a, b, c), b) && Holds(AfterRemoval(f, a, b, c), c);
  }

  /** A complete run of four callers that ends with two holders. */
  lemma SplitRelease()
    ensures exists files, who, what ::
              Run(files, who, what) && |files| == 9 && Holds(files[8], 1) && Holds(files[8], 2)
  {
    var f0 := File(None, 0, map[], map[], {});
    var f1 := Next(f0, 0, Open);
    var f2 := Next(f1, 0, Flock);
    var f3 := Next(f2, 1, Open);
    var f4 := Next(f3, 0, Unlock);
    var f5 := Next(f4, 1, Flock);
    var f6 := Next(f5, 0, Unlink);
    var f7 := Next(f6, 2, Open);
    var f8 := Next(f7, 2, Flock);
    assert Run([f0, f1, f2, f3, f4, f5, f6, f7, f8], [0, 0, 1, 0, 1, 0, 2, 2],
               [Open, Flock, Open, Unlock, Flock, Unlink, Open, Flock]);
  }

  /** Taking and dropping as Locks has them: each pair of calls at once. */
  datatype Step = Take | Drop

  predicate CanStep(f: File, a: nat, s: Step) {
    match s
    case Take => Enabled(f, a, Open)
    case Drop => Holds(f, a)
  }

  function Stepped(f: File, a: nat, s: Step): File
    requires Inv(f) && CanStep(f, a, s)
  {
    match s
    case Take => Next(Next(f, a, Open), a, Flock)
    case Drop => Next(Next(f, a, Unlock), a, Unlink)
  }

  /** Between atomic steps whoever has the file open holds its lock, on the inode behind the path. */
  ghost predicate Tidy(f: File) {
    Inv(f) && f.removing == {} && forall b | b in f.fds :: Holds(f, b) && !Stale(f, b)
  }

  /** With atomic steps every removal is clean, and a caller wins the lock just when nobody holds it. */
  lemma AtomicStepsAreClean(f: File, a: nat, s: Step)
    requires Tidy(f) && CanStep(f, a, s)
    ensures Tidy(Stepped(f, a, s))
    ensures s.Drop? ==> Unopened(Next(f, a, Unlock))
    ensures s.Take? ==> (Holds(Stepped(f, a, s), a) <==> f.fds == map[])
    ensures s.Drop? ==> Stepped(f, a, s).fds == map[]
    ensures forall b, c :: Holds(f, b) && Holds(f, c) ==> b == c
  {
  }
}
