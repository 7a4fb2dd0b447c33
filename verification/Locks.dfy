/**
 Batch lock files. `Locker` is one caller of the lock package; the state machine below it interleaves any
 number of callers, with taking and dropping a single lock as its atomic steps.
 */
module Locks {
  import opened Wrappers

  datatype Mode = Shared | Global | Server

  const BATCH: seq<string> := [
    "appmgr-sync-directory", "appmgr-import-skysea", "appmgr-check-integrity", "appmgr-notify",
    "appmgr-backup", "appmgr-prune-logs", "appmgr-generate-meta", "appmgr-import-bootstrap",
    "appmgr-create-app-user"]

  const SERVER := "appmgr-server"

  function Without(names: seq<string>, name: string): (r: seq<string>)
    ensures name !in r
    ensures forall n | n in names :: n == name || n in r
    ensures forall n | n in r :: n in names
  {
    if names == [] then []
    else
      var last := names[|names| - 1];
      Without(names[..|names| - 1], name) + if last == name then [] else [last]
  }

  ghost predicate Distinct(names: seq<string>) {
    forall i, j | 0 <= i < j < |names| :: names[i] != names[j]
  }

  lemma {:induction false} WithoutDistinct(names: seq<string>, name: string)
    requires Distinct(names)
    ensures Distinct(Without(names, name))
  {
    if names != [] {
      var init, last := names[..|names| - 1], names[|names| - 1];
      WithoutDistinct(init, name);
      assert last !in init;
      assert forall n | n in Without(init, name) :: n in init;
    }
  }

  /** The locks of one acquire, in the order they are taken. */
  function Targets(name: string, mode: Mode): (t: seq<string>)
    ensures |t| > 0 && t[0] == name
    ensures mode == Global ==> forall n | n in BATCH :: n in t
    ensures mode != Global ==> t == [name]
    ensures forall n | n in t :: n == name || n in BATCH
  {
    var t := [name] + if mode == Global then Without(BATCH, name) else [];
    assert mode == Global ==> t[1..] == Without(BATCH, name);
    t
  }

  lemma BatchDistinct()
    ensures Distinct(BATCH) && SERVER !in BATCH
  {
  }

  lemma TargetsDistinct(name: string, mode: Mode)
    ensures Distinct(Targets(name, mode))
  {
    BatchDistinct();
    WithoutDistinct(BATCH, name);
  }

  // ---- one caller ----

  /** Where a caller stands: `k` counts the locks it has. */
  datatype Phase =
    | Idle
    | Acquiring(name: string, mode: Mode, k: nat)
    | Holding(name: string, mode: Mode)
    | Unwinding(name: string, mode: Mode, k: nat)

  predicate PhaseOk(p: Phase) {
    match p
    case Acquiring(name, mode, k) => k < |Targets(name, mode)|
    case Unwinding(name, mode, k) => 0 < k <= |Targets(name, mode)|
    case _ => true
  }

  function Held(p: Phase): seq<string>
    requires PhaseOk(p)
  {
    match p
    case Idle => []
    case Acquiring(name, mode, k) => Targets(name, mode)[..k]
    case Holding(name, mode) => Targets(name, mode)
    case Unwinding(name, mode, k) => Targets(name, mode)[..k]
  }

  function Unwind(name: string, mode: Mode, k: nat): Phase {
    if k == 0 then Idle else Unwinding(name, mode, k)
  }

  /** The phase after the next lock was won, or found busy or failing. */
  function Tried(p: Phase, won: bool): (q: Phase)
    requires p.Acquiring? && PhaseOk(p)
    ensures PhaseOk(q)
    ensures Held(q) == if won then Held(p) + [Targets(p.name, p.mode)[p.k]] else Held(p)
  {
    var t := Targets(p.name, p.mode);
    if !won then Unwind(p.name, p.mode, p.k)
    else if p.k + 1 == |t| then Holding(p.name, p.mode)
    else Acquiring(p.name, p.mode, p.k + 1)
  }

  /** The phase after the lock taken last was dropped. */
  function Dropped(p: Phase): (q: Phase)
    requires p.Unwinding? && PhaseOk(p)
    ensures PhaseOk(q) && Held(p) == Held(q) + [Targets(p.name, p.mode)[p.k - 1]]
  {
    Unwind(p.name, p.mode, p.k - 1)
  }

  /** On the way to the global lock with `k` locks in hand. */
  function Gathering(name: string, k: nat): Phase {
    if k == |Targets(name, Global)| then Holding(name, Global) else Acquiring(name, Global, k)
  }

  lemma GatheringHeld(name: string, k: nat)
    requires 0 < k <= |Targets(name, Global)|
    ensures PhaseOk(Gathering(name, k)) && Held(Gathering(name, k)) == Targets(name, Global)[..k]
    ensures k < |Targets(name, Global)| ==>
              Gathering(name, k) == Acquiring(name, Global, k)
              && Tried(Gathering(name, k), true) == Gathering(name, k + 1)
              && Tried(Gathering(name, k), false) == Unwinding(name, Global, k)
              && PhaseOk(Unwinding(name, Global, k))
              && Held(Unwinding(name, Global, k)) == Targets(name, Global)[..k]
  {
  }

  lemma GatheringEnd(name: string)
    ensures Gathering(name, |Targets(name, Global)|) == Holding(name, Global)
  {
  }

  lemma WithoutStep(names: seq<string>, name: string, i: nat)
    requires i < |names|
    ensures Without(names[..i + 1], name) == Without(names[..i], name) + if names[i] == name then [] else [names[i]]
    ensures names[i] != name ==> [name] + Without(names[..i], name) + [names[i]] <= [name] + Without(names, name)
  {
    assert names[..i + 1][..i] == names[..i];
    WithoutPrefix(names, name, i + 1);
    assert [name] + Without(names[..i], name) + [names[i]] == [name] + (Without(names[..i], name) + [names[i]]);
  }

  function Names(primary: Option<string>, extras: seq<string>): seq<string> {
    if primary.Some? then [primary.value] + extras else extras
  }

  /** A caller dropping its locks: on its way through them, or done. */
  ghost predicate Dropping(primary: Option<string>, extras: seq<string>, p: Phase) {
    && PhaseOk(p) && (p.Unwinding? || p == Idle) && Names(primary, extras) == Held(p)
    && (primary.None? ==> extras == [])
  }

  /** Dropping a phase's last lock takes the last name off the list. */
  lemma NamesDrop(primary: Option<string>, extras: seq<string>, p: Phase)
    requires Dropping(primary, extras, p) && primary.Some?
    ensures p.Unwinding? && PhaseOk(p)
    ensures extras != [] ==> Dropping(primary, extras[..|extras| - 1], Dropped(p))
    ensures extras == [] ==> Dropped(p) == Idle
  {
  }

  lemma StartDropping(primary: Option<string>, extras: seq<string>, p: Phase)
    requires PhaseOk(p) && !p.Acquiring? && Names(primary, extras) == Held(p) && (primary.None? ==> extras == [])
    ensures p.Holding? ==> Dropping(primary, extras, Unwinding(p.name, p.mode, |Targets(p.name, p.mode)|))
    ensures !p.Holding? ==> Dropping(primary, extras, p)
    ensures |Names(primary, extras)| == |extras| + if primary.Some? then 1 else 0
  {
  }

  lemma DroppedAll(extras: seq<string>, p: Phase)
    requires Dropping(None, extras, p)
    ensures p == Idle && extras == []
  {
  }

  /** How an attempt to take a single lock ends: at which of its calls, or with the lock. */
  datatype Attempt = NoDirectory | OpenFailed | AlreadyHeld | FlockFailed | MetadataFailed | Taken

  ghost predicate AllWon(calls: nat -> Attempt, from: nat, to: nat) {
    forall i | from <= i < to :: calls(i) == Taken
  }

  /** The attempts from `from` on up to `to` were won except the last. */
  ghost predicate MissedLast(calls: nat -> Attempt, from: nat, to: nat, r: Attempt) {
    from < to && AllWon(calls, from, to - 1) && r == calls(to - 1) != Taken
  }

  lemma NothingTaken(names: seq<string>, name: string, calls: nat -> Attempt, from: nat)
    ensures Without(names[..0], name) == [] && AllWon(calls, from, from)
  {
  }

  lemma WonMore(calls: nat -> Attempt, from: nat, to: nat)
    requires AllWon(calls, from, to)
    ensures calls(to) == Taken ==> AllWon(calls, from, to + 1)
    ensures calls(to) != Taken && from <= to ==> MissedLast(calls, from, to + 1, calls(to))
  {
  }

  lemma WonFirst(calls: nat -> Attempt, from: nat)
    ensures calls(from) == Taken ==> AllWon(calls, from, from + 1)
    ensures calls(from) != Taken ==> MissedLast(calls, from, from + 1, calls(from))
  {
  }

  lemma WonJoin(calls: nat -> Attempt, from: nat, to: nat)
    requires calls(from) == Taken
    ensures AllWon(calls, from + 1, to) ==> AllWon(calls, from, to)
    ensures forall r | MissedLast(calls, from + 1, to, r) :: MissedLast(calls, from, to, r)
  {
  }

  lemma MissedIsNotAll(calls: nat -> Attempt, from: nat, to: nat, end: nat, r: Attempt)
    requires MissedLast(calls, from, to, r) && to <= end
    ensures !AllWon(calls, from, end)
  {
    assert calls(to - 1) != Taken;
  }

  /** `calls(i)` says how the i-th attempt to take a single lock ends. */
  class Locker {
    var primary: Option<string>
    var extras: seq<string>
    var tries: nat
    var descriptors: nat
    var flocks: nat
    ghost var phase: Phase

    /** Open are the lock files of the locks held, and no others. */
    ghost predicate Valid()
      reads this
    {
      && PhaseOk(phase) && Names(primary, extras) == Held(phase) && (primary.None? ==> extras == [])
      && descriptors == flocks == |Names(primary, extras)|
    }

    constructor ()
      ensures Valid() && phase == Idle
    {
      primary, extras, tries, descriptors, flocks, phase := None, [], 0, 0, 0, Idle;
    }

    /** Open, flock and describe one lock file; a failing call takes the earlier ones back. */
    method AcquireOne(ghost name: string, calls: nat -> Attempt) returns (r: Attempt)
      requires PhaseOk(phase) && phase.Acquiring? && name == Targets(phase.name, phase.mode)[phase.k]
      modifies this`tries, this`phase, this`descriptors, this`flocks
      ensures tries == old(tries) + 1
      ensures r == calls(old(tries))
      ensures descriptors == old(descriptors) + if r == Taken then 1 else 0
      ensures flocks == old(flocks) + if r == Taken then 1 else 0
      ensures phase == Tried(old(phase), r == Taken)
    {
      r := calls(tries);
      tries := tries + 1;
      phase := Tried(phase, r == Taken);
      if r in {NoDirectory, OpenFailed} {
        return;
      }
      descriptors := descriptors + 1;
      if r in {AlreadyHeld, FlockFailed} {
        descriptors := descriptors - 1;
        return;
      }
      flocks := flocks + 1;
      if r == MetadataFailed {
        flocks := flocks - 1;
        descriptors := descriptors - 1;
      }
    }

    /** Take all locks or none: the first one missed makes it drop the others again. */
    method Acquire(name: string, mode: Mode, mkdirFails: bool, calls: nat -> Attempt) returns (r: Attempt)
      requires Valid() && phase == Idle
      modifies this
      ensures Valid()
      ensures r == Taken <==> !mkdirFails && AllWon(calls, old(tries), old(tries) + |Targets(name, mode)|)
      ensures r == Taken ==> phase == Holding(name, mode) && Names(primary, extras) == Targets(name, mode)
      ensures r != Taken ==> phase == Idle && primary == None && extras == [] && descriptors == flocks == 0
      ensures r != Taken ==> if mkdirFails then r == NoDirectory && tries == old(tries)
                             else MissedLast(calls, old(tries), tries, r)
      ensures tries <= old(tries) + |Targets(name, mode)|
    {
      if mkdirFails {
        return NoDirectory;
      }
      ghost var start := tries;
      phase := Acquiring(name, mode, 0);
      r := AcquireOne(name, calls);
      WonFirst(calls, start);
      if r != Taken {
        MissedIsNotAll(calls, start, tries, start + |Targets(name, mode)|, r);
        return;
      }
      primary, extras := Some(name), [];
      if mode == Global {
        assert Targets(name, Global) == [name] + Without(BATCH, name);
        GatheringHeld(name, 1);
        hide Without, Targets, AllWon, MissedLast;
        r := AcquireOthers(BATCH, name, calls);
        WonJoin(calls, start, tries);
        if r != Taken {
          MissedIsNotAll(calls, start, tries, start + |Targets(name, mode)|, r);
        }
        GatheringHeld(name, |Targets(name, Global)|);
        GatheringEnd(name);
      }
    }

    /** One more lock of a global acquire; missing it drops all the others. */
    method TakeExtra(extra: string, name: string, calls: nat -> Attempt) returns (r: Attempt)
      requires primary == Some(name) && phase == Gathering(name, 1 + |extras|)
      requires descriptors == flocks == 1 + |extras|
      requires [name] + extras + [extra] <= Targets(name, Global)
      modifies this
      ensures r == calls(old(tries)) && tries == old(tries) + 1
      ensures r == Taken ==> primary == Some(name) && extras == old(extras) + [extra] && phase == Gathering(name, 1 + |extras|)
                             && descriptors == flocks == 1 + |extras|
      ensures r != Taken ==> Valid() && phase == Idle && primary == None && extras == [] && descriptors == flocks == 0
    {
      ghost var k := 1 + |extras|;
      GatheringHeld(name, k);
      assert ([name] + extras + [extra])[..k] == [name] + extras;
      assert Targets(name, Global)[..k] == [name] + extras && Targets(name, Global)[k] == extra;
      hide Targets, Held, PhaseOk, Tried, Gathering;
      r := AcquireOne(extra, calls);
      if r == Taken {
        extras := extras + [extra];
      } else {
        Release();
      }
    }

    /** The locks of `names` that a global acquire of `name` does not have yet. */
    method AcquireOthers(names: seq<string>, name: string, calls: nat -> Attempt) returns (r: Attempt)
      requires Targets(name, Global) == [name] + Without(names, name)
      requires phase == Gathering(name, 1) && primary == Some(name) && extras == [] && descriptors == flocks == 1
      modifies this
      ensures r != Taken ==> MissedLast(calls, old(tries), tries, r)
      ensures r != Taken ==> Valid() && phase == Idle && primary == None && extras == [] && descriptors == flocks == 0
      ensures r == Taken ==> AllWon(calls, old(tries), tries) && tries == old(tries) + |Without(names, name)|
      ensures r == Taken ==> primary == Some(name) && extras == Without(names, name) && phase == Gathering(name, 1 + |extras|)
                             && descriptors == flocks == 1 + |extras|
      ensures tries <= old(tries) + |Without(names, name)|
    {
      hide *;
      ghost var start := tries;
      NothingTaken(names, name, calls, start);
      var i := 0;
      while i < |names|
        invariant 0 <= i <= |names|
        invariant primary == Some(name) && extras == Without(names[..i], name)
        invariant tries == start + |extras| && descriptors == flocks == 1 + |extras|
        invariant phase == Gathering(name, 1 + |extras|)
        invariant AllWon(calls, start, tries)
      {
        WithoutStep(names, name, i);
        WonMore(calls, start, tries);
        if names[i] != name {
          r := TakeExtra(names[i], name, calls);
          if r != Taken {
            return;
          }
        }
        i := i + 1;
      }
      assert names[..i] == names;
      r := Taken;
    }

    /** Drop what is held, the lock taken last first. */
    method Release()
      requires Valid() && !phase.Acquiring?
      modifies this
      ensures Valid() && phase == Idle && primary == None && extras == [] && tries == old(tries)
      ensures descriptors == flocks == 0
    {
      StartDropping(primary, extras, phase);
      hide Targets, Dropping, Dropped, Held, Names, PhaseOk, Unwind;
      if phase.Holding? {
        phase := Unwinding(phase.name, phase.mode, |Targets(phase.name, phase.mode)|);
      }
      while |extras| > 0
        invariant Dropping(primary, extras, phase) && tries == old(tries)
        invariant descriptors == flocks == |extras| + if primary.Some? then 1 else 0
        decreases |extras|
      {
        if primary == None {
          DroppedAll(extras, phase);
        }
        NamesDrop(primary, extras, phase);
        phase := Dropped(phase);
        extras := extras[..|extras| - 1];
        descriptors, flocks := descriptors - 1, flocks - 1;
      }
      if primary.Some? {
        NamesDrop(primary, extras, phase);
        phase := Dropped(phase);
        primary := None;
        descriptors, flocks := descriptors - 1, flocks - 1;
      } else {
        DroppedAll(extras, phase);
      }
      NothingHeld();
    }
  }

  lemma NothingHeld()
    ensures PhaseOk(Idle) && Names(None, []) == Held(Idle) == []
  {
  }

  lemma {:induction false} WithoutPrefix(names: seq<string>, name: string, k: nat)
    requires k <= |names|
    ensures Without(names[..k], name) <= Without(names, name)
  {
    if k == |names| {
      assert names[..k] == names;
    } else {
      WithoutPrefix(names[..|names| - 1], name, k);
      assert names[..|names| - 1][..k] == names[..k];
    }
  }

  // ---- any number of callers ----

  /** `holders` is what the kernel has; `leaked` are locks whose file descriptor could not be closed. */
  datatype State = State(holders: map<string, nat>, callers: map<nat, Phase>, leaked: set<string>)

  datatype Event =
    | Begin(name: string, mode: Mode)
    | TryLock
    | Fault
    | BeginRelease
    | DropLock
    | LeakLock
    | Exit

  function PhaseOf(s: State, a: nat): Phase {
    if a in s.callers then s.callers[a] else Idle
  }

  function Enter(s: State, a: nat, p: Phase): State {
    s.(callers := s.callers[a := p])
  }

  /** The single lock caller `a` takes or drops next. */
  function Current(p: Phase): string
    requires PhaseOk(p) && (p.Acquiring? || p.Unwinding?)
  {
    Targets(p.name, p.mode)[if p.Acquiring? then p.k else p.k - 1]
  }

  ghost predicate Enabled(s: State, a: nat, e: Event) {
    var p := PhaseOf(s, a);
    PhaseOk(p) &&
    match e
    case Begin(_, _) => p.Idle?
    case TryLock => p.Acquiring?
    case Fault => p.Acquiring?
    case BeginRelease => p.Holding?
    case DropLock => p.Unwinding?
    case LeakLock => p.Unwinding?
    case Exit => true
  }

  function Next(s: State, a: nat, e: Event): State
    requires Enabled(s, a, e)
  {
    var p := PhaseOf(s, a);
    match e
    case Begin(name, mode) => Enter(s, a, Acquiring(name, mode, 0))
    case TryLock =>
      if Current(p) in s.holders then Enter(s, a, Tried(p, false))
      else Enter(s, a, Tried(p, true)).(holders := s.holders[Current(p) := a])
    case Fault => Enter(s, a, Tried(p, false))
    case BeginRelease => Enter(s, a, Unwinding(p.name, p.mode, |Targets(p.name, p.mode)|))
    case DropLock => Enter(s, a, Dropped(p)).(holders := s.holders - {Current(p)})
    case LeakLock => Enter(s, a, Dropped(p)).(leaked := s.leaked + {Current(p)})
    case Exit => State(map n | n in s.holders && s.holders[n] != a :: s.holders[n], s.callers[a := Idle],
                       set n | n in s.leaked && n in s.holders && s.holders[n] != a)
  }

  /** A caller has in the kernel what it thinks it has. */
  ghost predicate CallerOk(s: State, a: nat) {
    PhaseOk(PhaseOf(s, a)) && forall n | n in Held(PhaseOf(s, a)) :: n in s.holders && s.holders[n] == a
  }

  /** A lock is with the caller that thinks it has it, or leaked. */
  ghost predicate LockOk(s: State, n: string) {
    n in s.holders && PhaseOk(PhaseOf(s, s.holders[n])) && (n in s.leaked <==> n !in Held(PhaseOf(s, s.holders[n])))
  }

  ghost predicate Inv(s: State) {
    && (forall a: nat :: CallerOk(s, a))
    && (forall n | n in s.holders :: LockOk(s, n))
    && s.leaked <= s.holders.Keys
  }

  lemma HolderOf(s: State, a: nat, n: string)
    requires Inv(s) && PhaseOk(PhaseOf(s, a)) && n in Held(PhaseOf(s, a))
    ensures n in s.holders && s.holders[n] == a
  {
    assert CallerOk(s, a);
  }

  lemma DropHeld(p: Phase)
    requires PhaseOk(p) && p.Unwinding?
    ensures forall n :: n in Held(p) <==> n in Held(Dropped(p)) || n == Current(p)
    ensures Current(p) !in Held(Dropped(p))
  {
    TargetsDistinct(p.name, p.mode);
    assert Held(p) == Held(Dropped(p)) + [Current(p)];
  }

  lemma TriedHeld(p: Phase)
    requires PhaseOk(p) && p.Acquiring?
    ensures forall n :: n in Held(Tried(p, true)) <==> n in Held(p) || n == Current(p)
  {
  }

  /** A caller changes phase without taking or dropping a lock. */
  lemma EnterKeepsInv(s: State, a: nat, q: Phase)
    requires Inv(s) && CallerOk(s, a) && PhaseOk(q) && Held(q) == Held(PhaseOf(s, a))
    ensures Inv(Enter(s, a, q))
  {
    hide Held, PhaseOk;
    var s' := Enter(s, a, q);
    forall b: nat
      ensures CallerOk(s', b)
    {
      assert CallerOk(s, b) && PhaseOf(s', b) == if b == a then q else PhaseOf(s, b);
    }
    forall m | m in s'.holders
      ensures LockOk(s', m)
    {
      assert m in s.holders ==> LockOk(s, m);
      assert PhaseOf(s', s'.holders[m]) == if s'.holders[m] == a then q else PhaseOf(s, s'.holders[m]);
    }
  }

  lemma TakeKeepsInv(s: State, a: nat, q: Phase, n: string)
    requires Inv(s) && CallerOk(s, a) && PhaseOk(q) && n !in s.holders
    requires forall m :: m in Held(q) <==> m in Held(PhaseOf(s, a)) || m == n
    ensures Inv(Enter(s, a, q).(holders := s.holders[n := a]))
  {
    hide Held, PhaseOk;
    var s' := Enter(s, a, q).(holders := s.holders[n := a]);
    assert n !in s.leaked;
    forall b: nat
      ensures CallerOk(s', b)
    {
      assert CallerOk(s, b) && PhaseOf(s', b) == if b == a then q else PhaseOf(s, b);
    }
    forall m | m in s'.holders
      ensures LockOk(s', m)
    {
      assert m in s.holders ==> LockOk(s, m);
      assert PhaseOf(s', s'.holders[m]) == if s'.holders[m] == a then q else PhaseOf(s, s'.holders[m]);
    }
  }

  lemma DropKeepsInv(s: State, a: nat, q: Phase, n: string)
    requires Inv(s) && CallerOk(s, a) && PhaseOk(q) && n !in Held(q)
    requires forall m :: m in Held(PhaseOf(s, a)) <==> m in Held(q) || m == n
    ensures Inv(Enter(s, a, q).(holders := s.holders - {n}))
  {
    hide Held, PhaseOk;
    var s' := Enter(s, a, q).(holders := s.holders - {n});
    assert n in Held(PhaseOf(s, a)) && LockOk(s, n);
    forall b: nat
      ensures CallerOk(s', b)
    {
      assert CallerOk(s, b) && PhaseOf(s', b) == if b == a then q else PhaseOf(s, b);
    }
    forall m | m in s'.holders
      ensures LockOk(s', m)
    {
      assert m in s.holders ==> LockOk(s, m);
      assert PhaseOf(s', s'.holders[m]) == if s'.holders[m] == a then q else PhaseOf(s, s'.holders[m]);
    }
  }

  lemma LeakKeepsInv(s: State, a: nat, q: Phase, n: string)
    requires Inv(s) && CallerOk(s, a) && PhaseOk(q) && n !in Held(q)
    requires forall m :: m in Held(PhaseOf(s, a)) <==> m in Held(q) || m == n
    ensures Inv(Enter(s, a, q).(leaked := s.leaked + {n}))
  {
    hide Held, PhaseOk;
    var s' := Enter(s, a, q).(leaked := s.leaked + {n});
    assert n in Held(PhaseOf(s, a)) && LockOk(s, n);
    forall b: nat
      ensures CallerOk(s', b)
    {
      assert CallerOk(s, b) && PhaseOf(s', b) == if b == a then q else PhaseOf(s, b);
    }
    forall m | m in s'.holders
      ensures LockOk(s', m)
    {
      assert m in s.holders ==> LockOk(s, m);
      assert PhaseOf(s', s'.holders[m]) == if s'.holders[m] == a then q else PhaseOf(s, s'.holders[m]);
    }
  }

  lemma ExitKeepsInv(s: State, a: nat)
    requires Inv(s) && CallerOk(s, a) && Enabled(s, a, Exit) && Held(Idle) == [] && PhaseOk(Idle)
    ensures Inv(Next(s, a, Exit))
  {
    hide Held, PhaseOk;
    var s' := Next(s, a, Exit);
    forall b: nat
      ensures CallerOk(s', b)
    {
      assert CallerOk(s, b) && PhaseOf(s', b) == if b == a then Idle else PhaseOf(s, b);
    }
    forall m | m in s'.holders
      ensures LockOk(s', m)
    {
      assert m in s.holders ==> LockOk(s, m);
      assert PhaseOf(s', s'.holders[m]) == if s'.holders[m] == a then Idle else PhaseOf(s, s'.holders[m]);
    }
  }

  lemma StepKeepsInv(s: State, a: nat, e: Event)
    requires Inv(s) && Enabled(s, a, e)
    ensures Inv(Next(s, a, e))
  {
    var p := PhaseOf(s, a);
    assert CallerOk(s, a);
    hide Inv;
    match e
    case Begin(name, mode) =>
      assert Held(Acquiring(name, mode, 0)) == [] == Held(p);
      EnterKeepsInv(s, a, Acquiring(name, mode, 0));
    case TryLock =>
      TriedHeld(p);
      if Current(p) in s.holders {
        EnterKeepsInv(s, a, Tried(p, false));
      } else {
        TakeKeepsInv(s, a, Tried(p, true), Current(p));
      }
    case Fault =>
      EnterKeepsInv(s, a, Tried(p, false));
    case BeginRelease =>
      var q := Unwinding(p.name, p.mode, |Targets(p.name, p.mode)|);
      assert Held(q) == Held(p);
      EnterKeepsInv(s, a, q);
    case DropLock =>
      DropHeld(p);
      DropKeepsInv(s, a, Dropped(p), Current(p));
    case LeakLock =>
      DropHeld(p);
      LeakKeepsInv(s, a, Dropped(p), Current(p));
    case Exit =>
      ExitKeepsInv(s, a);
  }

  /** The states of a run from nothing held; `who` and `what` give each step. */
  ghost predicate Run(states: seq<State>, who: seq<nat>, what: seq<Event>) {
    && |who| == |what| && |states| == |who| + 1
    && states[0] == State(map[], map[], {})
    && forall i | 0 <= i < |who| :: Enabled(states[i], who[i], what[i])
                                    && states[i + 1] == Next(states[i], who[i], what[i])
  }

  lemma {:induction false} RunKeepsInv(states: seq<State>, who: seq<nat>, what: seq<Event>, i: nat)
    requires Run(states, who, what) && i < |states|
    ensures Inv(states[i])
    ensures LeakLock !in what ==> states[i].leaked == {}
  {
    if i > 0 {
      RunKeepsInv(states, who, what, i - 1);
      assert states[i - 1 + 1] == Next(states[i - 1], who[i - 1], what[i - 1]);
      StepKeepsInv(states[i - 1], who[i - 1], what[i - 1]);
    }
  }

  /** At every moment of every run no lock has two holders. */
  lemma NoTwoHolders(states: seq<State>, who: seq<nat>, what: seq<Event>, i: nat, a: nat, b: nat, n: string)
    requires Run(states, who, what) && i < |states|
    requires PhaseOk(PhaseOf(states[i], a)) && PhaseOk(PhaseOf(states[i], b))
    requires n in Held(PhaseOf(states[i], a)) && n in Held(PhaseOf(states[i], b))
    ensures a == b
  {
    RunKeepsInv(states, who, what, i);
    hide *;
    HolderOf(states[i], a, n);
    HolderOf(states[i], b, n);
  }

  /** While somebody holds the global lock nobody else has any batch lock, not even on the way to more. */
  lemma GlobalExcludes(states: seq<State>, who: seq<nat>, what: seq<Event>, i: nat, a: nat, b: nat)
    requires Run(states, who, what) && i < |states| && a != b
    requires PhaseOf(states[i], a).Holding? && PhaseOf(states[i], a).mode == Global
    ensures PhaseOk(PhaseOf(states[i], b))
    ensures forall n | n in BATCH :: n !in Held(PhaseOf(states[i], b))
    ensures PhaseOf(states[i], b).Holding? ==> PhaseOf(states[i], b).name !in BATCH
  {
    RunKeepsInv(states, who, what, i);
    assert CallerOk(states[i], b);
    hide Run, Next, Targets, Inv;
    var s, p, q := states[i], PhaseOf(states[i], a), PhaseOf(states[i], b);
    assert q.Holding? ==> q.name in Held(q);
    forall n | n in BATCH
      ensures n !in Held(q)
    {
      HolderOf(s, a, n);
      if n in Held(q) {
        HolderOf(s, b, n);
      }
    }
  }

  /** Whoever is back to idle, after a failed acquire or a release, holds nothing. */
  lemma IdleHoldsNothing(states: seq<State>, who: seq<nat>, what: seq<Event>, i: nat, a: nat, n: string)
    requires Run(states, who, what) && i < |states| && PhaseOf(states[i], a) == Idle
    requires n in states[i].holders && states[i].holders[n] == a
    ensures n in states[i].leaked && LeakLock in what
  {
    RunKeepsInv(states, who, what, i);
  }

  /** Steps until an acquire or a release in progress returns. */
  function Left(p: Phase): nat
    requires PhaseOk(p)
  {
    match p
    case Acquiring(name, mode, k) => 2 * |Targets(name, mode)| - k
    case Unwinding(_, _, k) => k
    case _ => 0
  }

  /** Nobody waits: a call always has a next step, which brings its return closer; others never delay it. */
  lemma CallsReturn(s: State, a: nat, e: Event, b: nat)
    requires Enabled(s, a, e) && PhaseOk(PhaseOf(s, b))
    ensures PhaseOf(s, b).Acquiring? ==> Enabled(s, b, TryLock)
    ensures PhaseOf(s, b).Unwinding? ==> Enabled(s, b, DropLock)
    ensures PhaseOk(PhaseOf(Next(s, a, e), b))
    ensures b != a ==> Left(PhaseOf(Next(s, a, e), b)) == Left(PhaseOf(s, b))
    ensures b == a && Left(PhaseOf(s, a)) > 0 ==> Left(PhaseOf(Next(s, a, e), a)) < Left(PhaseOf(s, a))
  {
  }

  lemma NeedsNoServerLock(p: Phase)
    requires PhaseOk(p) && (p.Acquiring? || p.Unwinding?)
    ensures p.name != SERVER ==> Current(p) != SERVER
    ensures p.name == SERVER && p.mode == Server ==> Current(p) !in BATCH
  {
    BatchDistinct();
    assert Current(p) in Targets(p.name, p.mode);
    assert p.mode == Server ==> Targets(p.name, p.mode) == [p.name];
  }

  /** No batch ever takes or drops the server's lock, except that a process gives up all of its own on exit. */
  lemma ServerLockUntouched(s: State, a: nat, e: Event)
    requires Enabled(s, a, e) && PhaseOf(s, a) != Idle && PhaseOf(s, a).name != SERVER
    ensures SERVER in Next(s, a, e).holders <==> SERVER in s.holders && (e.Exit? ==> s.holders[SERVER] != a)
  {
    var p := PhaseOf(s, a);
    if p.Acquiring? || p.Unwinding? {
      NeedsNoServerLock(p);
    }
    hide Targets, Tried, Dropped, Held, Current;
  }

  /** A held server lock never makes a batch miss a lock, nor held batch locks the server. */
  lemma ServerStandsAside(s: State, a: nat)
    requires Enabled(s, a, TryLock)
    ensures PhaseOf(s, a).name != SERVER ==>
              Next(s.(holders := s.holders - {SERVER}), a, TryLock).callers == Next(s, a, TryLock).callers
    ensures PhaseOf(s, a).name == SERVER && PhaseOf(s, a).mode == Server ==>
              Next(s.(holders := s.holders - Set(BATCH)), a, TryLock).callers == Next(s, a, TryLock).callers
  {
    NeedsNoServerLock(PhaseOf(s, a));
    hide Targets, Tried, Dropped, Held, Current, PhaseOk;
  }

  function Set(names: seq<string>): set<string> {
    set n | n in names
  }
}
