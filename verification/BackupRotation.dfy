/** Backup files named after their time, and the rotation that keeps the newest of them. */
module BackupRotation {
  import opened Decimal
  import opened Finite

  // ---- names ----

  predicate BackupName(n: string) {
    |n| == 22 && n[..4] == "app-" && AllDigits(n[4..12]) && n[12] == '-' && AllDigits(n[13..19]) && n[19..] == ".db"
  }

  predicate StaleTmpName(n: string) {
    |n| == 26 && BackupName(n[..22]) && n[22..] == ".tmp"
  }

  /** Local time to the second; the year has four digits. */
  datatype Stamp = Stamp(year: nat, month: nat, day: nat, hour: nat, minute: nat, second: nat)

  predicate StampOk(t: Stamp) {
    t.year < 10000 && t.month < 100 && t.day < 100 && t.hour < 100 && t.minute < 100 && t.second < 100
  }

  predicate Earlier(a: Stamp, b: Stamp) {
    if a.year != b.year then a.year < b.year
    else if a.month != b.month then a.month < b.month
    else if a.day != b.day then a.day < b.day
    else if a.hour != b.hour then a.hour < b.hour
    else if a.minute != b.minute then a.minute < b.minute
    else a.second < b.second
  }

  /** now.Format("20060102-150405") between the fixed parts. */
  function NameOf(t: Stamp): string
    requires StampOk(t)
  {
    "app-" + Two(t.year / 100) + Two(t.year % 100) + Two(t.month) + Two(t.day)
    + "-" + Two(t.hour) + Two(t.minute) + Two(t.second) + ".db"
  }

  lemma NameOfMatches(t: Stamp)
    requires StampOk(t)
    ensures BackupName(NameOf(t)) && StaleTmpName(NameOf(t) + ".tmp")
  {
  }

  /** The time a backup's name tells. */
  function StampOf(n: string): (t: Stamp)
    requires BackupName(n)
    ensures StampOk(t)
  {
    BackupDigits(n);
    Stamp(100 * Pair(n, 4) + Pair(n, 6), Pair(n, 8), Pair(n, 10), Pair(n, 13), Pair(n, 15), Pair(n, 17))
  }

  lemma BackupDigits(n: string)
    requires BackupName(n)
    ensures forall i | 4 <= i < 12 || 13 <= i < 19 :: IsDigit(n[i])
    ensures n[12] == '-' && n == "app-" + n[4..12] + "-" + n[13..19] + ".db"
  {
    assert forall i | 4 <= i < 12 :: n[i] == n[4..12][i - 4];
    assert forall i | 13 <= i < 19 :: n[i] == n[13..19][i - 13];
  }

  /** Names and times are the same thing: every backup's name is written for exactly one time. */
  lemma NamesAreTimes(n: string, t: Stamp)
    requires BackupName(n) && StampOk(t)
    ensures NameOf(StampOf(n)) == n
    ensures BackupName(NameOf(t)) && StampOf(NameOf(t)) == t
  {
    NameOfStamp(n);
    StampOfName(t);
  }

  lemma Cut(n: string)
    requires |n| == 22
    ensures n == n[..4] + n[4..6] + n[6..8] + n[8..10] + n[10..12] + [n[12]] + n[13..15] + n[15..17] + n[17..19] + n[19..]
  {
  }

  lemma StampFields(n: string)
    requires BackupName(n)
    ensures var t := StampOf(n);
            && Two(t.year / 100) == n[4..6] && Two(t.year % 100) == n[6..8] && Two(t.month) == n[8..10]
            && Two(t.day) == n[10..12] && Two(t.hour) == n[13..15] && Two(t.minute) == n[15..17] && Two(t.second) == n[17..19]
  {
    BackupDigits(n);
    hide Two, BackupName, IsDigit;
    PairOfTwo(n, 4);
    PairOfTwo(n, 6);
    PairOfTwo(n, 8);
    PairOfTwo(n, 10);
    PairOfTwo(n, 13);
    PairOfTwo(n, 15);
    PairOfTwo(n, 17);
    hide Pair;
    var t := StampOf(n);
    assert t.year / 100 == Pair(n, 4) && t.year % 100 == Pair(n, 6);
  }

  /** Leftovers are the names a run gives a backup while it writes it. */
  lemma StaleTmpIs(n: string)
    ensures StaleTmpName(n) ==> |n| == 26 && BackupName(n[..22]) && n == NameOf(StampOf(n[..22])) + ".tmp"
    ensures forall t: Stamp | StampOk(t) && n == NameOf(t) + ".tmp" :: StaleTmpName(n)
  {
    if StaleTmpName(n) {
      NameOfStamp(n[..22]);
      assert n == n[..22] + n[22..];
    }
    hide NameOf, BackupName;
    forall t: Stamp | StampOk(t) && n == NameOf(t) + ".tmp"
      ensures StaleTmpName(n)
    {
      NameOfMatches(t);
    }
  }

  lemma NameOfStamp(n: string)
    requires BackupName(n)
    ensures NameOf(StampOf(n)) == n
  {
    assert |n| == 22 && n[..4] == "app-" && [n[12]] == "-" && n[19..] == ".db";
    hide Two, Pair, BackupName, IsDigit, StampOf;
    StampFields(n);
    Cut(n);
  }

  lemma StampOfName(t: Stamp)
    requires StampOk(t)
    ensures BackupName(NameOf(t)) && StampOf(NameOf(t)) == t
  {
    NameOfMatches(t);
    var n := NameOf(t);
    hide Two, Pair, BackupName, IsDigit;
    TwoOfPair(n, 4, t.year / 100);
    TwoOfPair(n, 6, t.year % 100);
    TwoOfPair(n, 8, t.month);
    TwoOfPair(n, 10, t.day);
    TwoOfPair(n, 13, t.hour);
    TwoOfPair(n, 15, t.minute);
    TwoOfPair(n, 17, t.second);
  }

  // ---- the order of slices.Sort ----

  predicate Less(a: string, b: string) {
    if b == "" then false
    else if a == "" then true
    else a[0] < b[0] || (a[0] == b[0] && Less(a[1..], b[1..]))
  }

  lemma {:induction false} LessTotal(a: string, b: string)
    ensures !(Less(a, b) && Less(b, a)) && (a == b ==> !Less(a, b))
    ensures a != b ==> Less(a, b) || Less(b, a)
  {
    if a != "" && b != "" {
      LessTotal(a[1..], b[1..]);
      assert a == [a[0]] + a[1..] && b == [b[0]] + b[1..];
    }
  }

  lemma {:induction false} LessTransitive(a: string, b: string, c: string)
    requires Less(a, b) && Less(b, c)
    ensures Less(a, c)
  {
    if a != "" && a[0] == b[0] == c[0] {
      LessTransitive(a[1..], b[1..], c[1..]);
    }
  }

  lemma {:induction false} LessJoined(x: string, u: string, y: string, v: string)
    requires |x| == |y|
    ensures Less(x + u, y + v) <==> Less(x, y) || (x == y && Less(u, v))
  {
    if x == "" {
      assert x + u == u && y + v == v;
    } else {
      LessJoined(x[1..], u, y[1..], v);
      assert (x + u)[1..] == x[1..] + u && (y + v)[1..] == y[1..] + v;
      assert x == [x[0]] + x[1..] && y == [y[0]] + y[1..];
    }
  }

  lemma TwoOrder(m: nat, n: nat)
    requires m < 100 && n < 100
    ensures Less(Two(m), Two(n)) <==> m < n
    ensures Two(m) == Two(n) <==> m == n
  {
    DigitOrder(m / 10, n / 10);
    DigitOrder(m % 10, n % 10);
    var a, b := Two(m), Two(n);
    assert a[1..] == [a[1]] && b[1..] == [b[1]];
    assert [a[1]][1..] == "" && [b[1]][1..] == "";
    assert Less([a[1]], [b[1]]) <==> a[1] < b[1];
    assert m == 10 * (m / 10) + m % 10 && n == 10 * (n / 10) + n % 10;
  }

  lemma DigitOrder(m: nat, n: nat)
    requires m < 10 && n < 10
    ensures DIGITS[m] < DIGITS[n] <==> m < n
    ensures DIGITS[m] == DIGITS[n] <==> m == n
  {
  }

  /** One two-digit field in front of the rest. */
  lemma FieldOrder(m: nat, u: string, n: nat, v: string)
    requires m < 100 && n < 100
    ensures Less(Two(m) + u, Two(n) + v) <==> m < n || (m == n && Less(u, v))
  {
    TwoOrder(m, n);
    LessJoined(Two(m), u, Two(n), v);
  }

  function TimeOfDay(t: Stamp): string
    requires StampOk(t)
  {
    Two(t.hour) + (Two(t.minute) + (Two(t.second) + ".db"))
  }

  /** The order of the names is the order of the times. */
  lemma NamesOrderTimes(a: Stamp, b: Stamp)
    requires StampOk(a) && StampOk(b)
    ensures Less(NameOf(a), NameOf(b)) <==> Earlier(a, b)
  {
    hide Less, Two;
    var aDay, bDay := Two(a.day) + ("-" + TimeOfDay(a)), Two(b.day) + ("-" + TimeOfDay(b));
    var aMonth, bMonth := Two(a.month) + aDay, Two(b.month) + bDay;
    var aYear, bYear := Two(a.year % 100) + aMonth, Two(b.year % 100) + bMonth;
    NameNested(a);
    NameNested(b);
    LessJoined("app-", Two(a.year / 100) + aYear, "app-", Two(b.year / 100) + bYear);
    LessTotal("app-", "app-");
    FieldOrder(a.year / 100, aYear, b.year / 100, bYear);
    FieldOrder(a.year % 100, aMonth, b.year % 100, bMonth);
    FieldOrder(a.month, aDay, b.month, bDay);
    FieldOrder(a.day, "-" + TimeOfDay(a), b.day, "-" + TimeOfDay(b));
    TimesOrder(a, b);
  }

  lemma TimesOrder(a: Stamp, b: Stamp)
    requires StampOk(a) && StampOk(b)
    ensures Less("-" + TimeOfDay(a), "-" + TimeOfDay(b)) <==>
              a.hour < b.hour || (a.hour == b.hour &&
                (a.minute < b.minute || (a.minute == b.minute && a.second < b.second)))
  {
    hide Less, Two;
    LessJoined("-", TimeOfDay(a), "-", TimeOfDay(b));
    LessTotal("-", "-");
    LessTotal(".db", ".db");
    FieldOrder(a.hour, Two(a.minute) + (Two(a.second) + ".db"), b.hour, Two(b.minute) + (Two(b.second) + ".db"));
    FieldOrder(a.minute, Two(a.second) + ".db", b.minute, Two(b.second) + ".db");
    FieldOrder(a.second, ".db", b.second, ".db");
  }

  lemma NameNested(t: Stamp)
    requires StampOk(t)
    ensures NameOf(t) == "app-" + (Two(t.year / 100) + (Two(t.year % 100) + (Two(t.month)
                         + (Two(t.day) + ("-" + TimeOfDay(t))))))
  {
    hide Two;
  }

  // ---- what falls to the rotation ----

  /** Backups among the files of a directory. */
  function Backups(files: set<string>): set<string> {
    set n | n in files && BackupName(n)
  }

  function Newer(files: set<string>, n: string): set<string> {
    set m | m in Backups(files) && Less(n, m)
  }

  /** The reference: a backup goes when enough newer ones are there; 0 generations keep everything. */
  function Doomed(files: set<string>, generations: nat): set<string> {
    set n | n in Backups(files) && 0 < generations <= |Newer(files, n)|
  }

  ghost predicate Sorted(s: seq<string>) {
    forall i, j | 0 <= i < j < |s| :: Less(s[i], s[j])
  }

  function Elems(s: seq<string>): set<string> {
    set n | n in s
  }

  function PrunePlan(names: seq<string>, generations: nat): seq<string> {
    if generations == 0 || |names| <= generations then [] else names[..|names| - generations]
  }

  lemma {:induction false} SortedSize(s: seq<string>)
    requires Sorted(s)
    ensures |Elems(s)| == |s|
  {
    if s != [] {
      var init, last := s[..|s| - 1], s[|s| - 1];
      SortedSize(init);
      forall n | n in init
        ensures n != last
      {
        LessTotal(n, last);
      }
      assert Elems(s) == Elems(init) + {last};
    }
  }

  lemma NewerAfter(files: set<string>, names: seq<string>, i: nat)
    requires Sorted(names) && Elems(names) == Backups(files) && i < |names|
    ensures |Newer(files, names[i])| == |names| - 1 - i
  {
    var rest := names[i + 1..];
    SortedSize(rest);
    forall m
      ensures m in rest <==> m in Newer(files, names[i])
    {
      if m in Newer(files, names[i]) {
        assert m in Elems(names);
        var j :| 0 <= j < |names| && names[j] == m;
        LessTotal(names[i], names[j]);
        assert i < j;
        assert rest[j - i - 1] == m;
      }
      if m in rest {
        var j :| 0 <= j < |rest| && rest[j] == m;
        assert names[i + 1 + j] == m && m in Elems(names);
      }
    }
    assert Elems(rest) == Newer(files, names[i]);
  }

  /** Cutting the sorted list dooms exactly the backups with enough newer ones. */
  lemma PlanIsDoomed(files: set<string>, names: seq<string>, generations: nat)
    requires Sorted(names) && Elems(names) == Backups(files)
    ensures Elems(PrunePlan(names, generations)) == Doomed(files, generations)
  {
    var plan := PrunePlan(names, generations);
    forall n
      ensures n in plan <==> n in Doomed(files, generations)
    {
      if n in plan {
        var i :| 0 <= i < |plan| && plan[i] == n;
        assert names[i] == n && n in Elems(names);
        NewerAfter(files, names, i);
      }
      if n in Doomed(files, generations) {
        assert n in Elems(names);
        var i :| 0 <= i < |names| && names[i] == n;
        NewerAfter(files, names, i);
        assert plan[i] == n;
      }
    }
  }

  /** Whatever goes is older than whatever stays, and `generations` backups stay if there are as many. */
  lemma OldestGo(files: set<string>, generations: nat, gone: string, kept: string)
    requires gone in Doomed(files, generations) && kept in Backups(files) - Doomed(files, generations)
    ensures Less(gone, kept)
  {
    LessTotal(gone, kept);
    if Less(kept, gone) {
      forall m | m in Newer(files, gone)
        ensures m in Newer(files, kept)
      {
        LessTransitive(kept, gone, m);
      }
      SubsetSize(Newer(files, gone), Newer(files, kept));
    }
  }

  lemma {:induction false} ManyStay(files: set<string>, names: seq<string>, generations: nat)
    requires Sorted(names) && Elems(names) == Backups(files) && generations > 0
    ensures |Backups(files) - Doomed(files, generations)| ==
            if |Backups(files)| < generations then |Backups(files)| else generations
  {
    PlanIsDoomed(files, names, generations);
    SortedSize(names);
    var plan := PrunePlan(names, generations);
    SortedSize(plan);
    assert Elems(plan) <= Elems(names) by {
      assert forall n | n in plan :: n in names;
    }
    RestSize(Elems(names), Elems(plan));
  }

  lemma RestSize(all: set<string>, part: set<string>)
    requires part <= all
    ensures |all - part| == |all| - |part|
  {
  }

  /** The backups whose names tell a later time than `now`. */
  function Later(files: set<string>, now: Stamp): set<string> {
    set n | n in Backups(files) && Earlier(now, StampOf(n))
  }

  lemma NewerIsLater(files: set<string>, now: Stamp)
    requires StampOk(now)
    ensures Newer(files + {NameOf(now)}, NameOf(now)) == Later(files, now)
  {
    var dest := NameOf(now);
    StampOfName(now);
    forall n | BackupName(n)
      ensures Less(dest, n) <==> Earlier(now, StampOf(n))
    {
      NameOfStamp(n);
      NamesOrderTimes(now, StampOf(n));
    }
    hide Less, NameOf, StampOf, BackupName;
  }

  /**
   A run at `now` keeps its own backup exactly if fewer than `generations` of the backups it finds claim
   a later time; on a clock that never goes back that is always so.
   */
  lemma DestSurvivesIff(files: set<string>, generations: nat, now: Stamp)
    requires StampOk(now)
    ensures NameOf(now) !in Doomed(files + {NameOf(now)}, generations) <==> generations == 0 || |Later(files, now)| < generations
    ensures (forall n | n in Backups(files) :: !Earlier(now, StampOf(n))) ==>
              NameOf(now) !in Doomed(files + {NameOf(now)}, generations)
  {
    StampOfName(now);
    NewerIsLater(files, now);
    hide Less, NameOf, StampOf, BackupName, Earlier;
    if forall n | n in Backups(files) :: !Earlier(now, StampOf(n)) {
      assert Later(files, now) == {};
    }
  }

  const NEW_YEAR := Stamp(2025, 1, 1, 3, 0, 0)
  const NEXT_DAY := Stamp(2025, 1, 2, 3, 0, 0)

  /** A backup of the day after, one generation to keep: the run removes what it has just written. */
  lemma ClockWentBack()
    ensures var files := {NameOf(NEXT_DAY)};
            Doomed(files + {NameOf(NEW_YEAR)}, 1) == {NameOf(NEW_YEAR)}
  {
    var other, dest := NameOf(NEXT_DAY), NameOf(NEW_YEAR);
    StampOfName(NEXT_DAY);
    StampOfName(NEW_YEAR);
    assert Earlier(NEW_YEAR, NEXT_DAY) && !Earlier(NEXT_DAY, NEXT_DAY) && !Earlier(NEXT_DAY, NEW_YEAR);
    hide NameOf, StampOf, BackupName, Earlier, NEW_YEAR, NEXT_DAY, Less;
    NamesOrderTimes(NEXT_DAY, NEXT_DAY);
    NamesOrderTimes(NEXT_DAY, NEW_YEAR);
    assert Later({other}, NEW_YEAR) == {other};
    DestSurvivesIff({other}, 1, NEW_YEAR);
    assert Newer({other} + {dest}, other) == {};
  }

  // ---- sorting ----

  function InsertSorted(s: seq<string>, n: string): seq<string> {
    if s == [] || Less(n, s[0]) then [n] + s else [s[0]] + InsertSorted(s[1..], n)
  }

  lemma {:induction false} InsertKeepsSorted(s: seq<string>, n: string)
    requires Sorted(s) && n !in s
    ensures Sorted(InsertSorted(s, n))
    ensures forall m :: m in InsertSorted(s, n) <==> m in s || m == n
  {
    if s == [] || Less(n, s[0]) {
      forall j | 0 <= j < |s|
        ensures Less(n, s[j])
      {
        if j > 0 {
          LessTransitive(n, s[0], s[j]);
        }
      }
    } else {
      var rest := InsertSorted(s[1..], n);
      InsertKeepsSorted(s[1..], n);
      LessTotal(n, s[0]);
      forall j | 0 <= j < |rest|
        ensures Less(s[0], rest[j])
      {
        assert rest[j] in rest;
        if rest[j] in s[1..] {
          var k :| 0 <= k < |s[1..]| && s[1..][k] == rest[j];
          assert s[k + 1] == rest[j];
        }
      }
      assert s == [s[0]] + s[1..];
    }
  }

  // ---- the batch ----

  datatype Outcome = Announced(dest: string, wouldPrune: seq<string>) | Failed | Completed(pruned: nat)

  /** The output directory: plain files by name. */
  class OutputDir {
    var files: set<string>

    constructor (files: set<string>)
      ensures this.files == files
    {
      this.files := files;
    }

    /** Names matching the backup pattern, ascending. */
    method ListBackups() returns (names: seq<string>)
      ensures Sorted(names) && Elems(names) == Backups(files)
    {
      var todo := files;
      names := [];
      while todo != {}
        invariant todo <= files && Sorted(names)
        invariant forall n :: n in names <==> n in files && n !in todo && BackupName(n)
        decreases todo
      {
        var n :| n in todo;
        if BackupName(n) {
          InsertKeepsSorted(names, n);
          names := InsertSorted(names, n);
        }
        todo := todo - {n};
      }
    }

    /** Leftovers of interrupted runs block the next VACUUM INTO, so they go first. */
    method RemoveStaleTmp(removeFails: string -> bool) returns (ok: bool)
      modifies this
      ensures ok ==> files == set n | n in old(files) && !StaleTmpName(n)
      ensures files <= old(files) && forall n | n in old(files) && !StaleTmpName(n) :: n in files
      ensures !ok ==> exists n :: removeFails(n)
    {
      var todo := set n | n in files && StaleTmpName(n);
      while todo != {}
        invariant forall n :: n in files <==> n in old(files) && (!StaleTmpName(n) || n in todo)
        invariant forall n | n in todo :: StaleTmpName(n)
        decreases todo
      {
        var n :| n in todo;
        if removeFails(n) {
          return false;
        }
        files, todo := files - {n}, todo - {n};
      }
      ok := true;
    }

    /** Remove the planned names in order; the first failure ends it. */
    method PruneOldBackups(generations: nat, removeFails: string -> bool) returns (ok: bool, removed: nat)
      modifies this
      ensures ok ==> files == old(files) - Doomed(old(files), generations) && removed == |Doomed(old(files), generations)|
      ensures old(files) - Doomed(old(files), generations) <= files <= old(files)
      ensures !ok ==> exists n :: removeFails(n)
    {
      var names := ListBackups();
      PlanIsDoomed(files, names, generations);
      var plan := PrunePlan(names, generations);
      SortedSize(plan);
      removed := 0;
      ghost var start := files;
      while removed < |plan|
        invariant 0 <= removed <= |plan|
        invariant files == start - Elems(plan[..removed])
      {
        if removeFails(plan[removed]) {
          assert Elems(plan[..removed]) <= Elems(plan);
          return false, removed;
        }
        assert plan[..removed + 1] == plan[..removed] + [plan[removed]];
        files := files - {plan[removed]};
        removed := removed + 1;
      }
      assert plan[..removed] == plan;
      ok := true;
    }

    /** What a real run would do, without touching anything. */
    method DryRunBackup(dest: string, generations: nat) returns (wouldPrune: seq<string>)
      requires BackupName(dest)
      ensures Sorted(wouldPrune) && Elems(wouldPrune) == Doomed(files + {dest}, generations)
    {
      var names := ListBackups();
      assert forall n :: n in names <==> n in Elems(names);
      if dest !in names {
        InsertKeepsSorted(names, dest);
        names := InsertSorted(names, dest);
      }
      assert forall n :: n in names <==> n in Backups(files + {dest});
      assert Elems(names) == Backups(files + {dest});
      PlanIsDoomed(files + {dest}, names, generations);
      wouldPrune := PrunePlan(names, generations);
    }

    /**
     The whole run. A failure before the rename leaves every backup as it was; a completed run has added
     the new one and removed exactly what a dry run at the same moment announces.
     */
    method RunBackup(now: Stamp, generations: nat, dryRun: bool, vacuumOk: bool, syncOk: bool, renameOk: bool,
                     removeFails: string -> bool) returns (r: Outcome)
      requires StampOk(now)
      modifies this
      ensures r.Announced? <==> dryRun
      ensures dryRun ==> files == old(files) && r.dest == NameOf(now)
                         && Elems(r.wouldPrune) == Doomed(old(files) + {NameOf(now)}, generations)
      ensures r.Completed? ==>
                && Backups(files) == Backups(old(files) + {NameOf(now)}) - Doomed(old(files) + {NameOf(now)}, generations)
                && r.pruned == |Doomed(old(files) + {NameOf(now)}, generations)|
                && (NameOf(now) in files <==> generations == 0 || |Later(old(files), now)| < generations)
                && forall n | n in old(files) && !BackupName(n) && !StaleTmpName(n) :: n in files
      ensures !dryRun && !(vacuumOk && syncOk && renameOk) ==> r == Failed && Backups(files) == Backups(old(files))
      ensures r.Failed? ==> !(vacuumOk && syncOk && renameOk) || exists n :: removeFails(n)
    {
      var dest := NameOf(now);
      NameOfMatches(now);
      if dryRun {
        var plan := DryRunBackup(dest, generations);
        return Announced(dest, plan);
      }
      var ok := RemoveStaleTmp(removeFails);
      TmpIsNoBackup(old(files), files);
      if !ok || !vacuumOk {
        return Failed;
      }
      var tmp := dest + ".tmp";
      files := files + {tmp};
      if !syncOk || !renameOk {
        files := files - {tmp};
        TmpIsNoBackup(old(files), files);
        return Failed;
      }
      files := files - {tmp} + {dest};
      assert Backups(files) == Backups(old(files) + {dest});
      SameBackupsSameFate(files, old(files) + {dest}, generations);
      ghost var before := files;
      var removed;
      ok, removed := PruneOldBackups(generations, removeFails);
      if !ok {
        return Failed;
      }
      r := Completed(removed);
      DestSurvivesIff(old(files), generations, now);
      assert Backups(files) == Backups(before) - Doomed(before, generations);
    }
  }

  lemma TmpIsNoBackup(before: set<string>, after: set<string>)
    requires after <= before && forall n | n in before && !StaleTmpName(n) :: n in after
    ensures Backups(after) == Backups(before)
  {
  }

  lemma SameBackupsSameFate(a: set<string>, b: set<string>, generations: nat)
    requires Backups(a) == Backups(b)
    ensures Doomed(a, generations) == Doomed(b, generations)
  {
  }
}
