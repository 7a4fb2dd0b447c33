/** The retention batch: four tables pruned in a fixed order without a transaction. */
module Prune {
  import opened Wrappers
  import opened Decimal
  import opened Notifications

  datatype Raw = Raw(importLog: nat, createdAt: int)

  /** `imports` and `audits` hold only the time that decides; times are seconds in UTC. */
  datatype Store = Store(raws: map<nat, Raw>, imports: map<nat, int>, audits: map<nat, int>, notifs: Table)

  datatype Cutoffs = Cutoffs(raw: int, imports: int, audit: int, notif: int)

  /** raw_installations.import_log_id references import_logs. */
  ghost predicate References(s: Store) {
    forall i | i in s.raws :: s.raws[i].importLog in s.imports
  }

  // ---- the rows each statement matches ----

  function OldRaws(s: Store, cutoff: int): set<nat> {
    set i | i in s.raws && s.raws[i].createdAt < cutoff
  }

  predicate HasRaw(s: Store, log: nat) {
    exists i | i in s.raws :: s.raws[i].importLog == log
  }

  function OldImports(s: Store, cutoff: int): set<nat> {
    set i | i in s.imports && s.imports[i] < cutoff && !HasRaw(s, i)
  }

  function OldAudits(s: Store, cutoff: int): set<nat> {
    set i | i in s.audits && s.audits[i] < cutoff
  }

  function OldNotifs(s: Store, cutoff: int): set<nat> {
    set i | i in s.notifs && s.notifs[i].sentAt.Some? && s.notifs[i].sentAt.value < cutoff
  }

  predicate HasYoungRaw(s: Store, log: nat, cutoff: int) {
    exists i | i in s.raws :: s.raws[i].importLog == log && s.raws[i].createdAt >= cutoff
  }

  /** The COUNT of the dry run: parents whose children all fall to the same run. */
  function PredictedImports(s: Store, cutoff: int, rawCutoff: int): set<nat> {
    set i | i in s.imports && s.imports[i] < cutoff && !HasYoungRaw(s, i, rawCutoff)
  }

  // ---- the statements in order ----

  /** The store after the first `k` of the four statements. */
  function After(s: Store, c: Cutoffs, k: nat): Store {
    if k == 0 then s
    else
      var t := After(s, c, k - 1);
      if k == 1 then t.(raws := t.raws - OldRaws(t, c.raw))
      else if k == 2 then t.(imports := t.imports - OldImports(t, c.imports))
      else if k == 3 then t.(audits := t.audits - OldAudits(t, c.audit))
      else if k == 4 then t.(notifs := t.notifs - OldNotifs(t, c.notif))
      else t
  }

  /** No statement ever leaves a raw installation without its import log. */
  lemma {:induction false} ReferencesKept(s: Store, c: Cutoffs, k: nat)
    requires References(s)
    ensures References(After(s, c, k))
  {
    if k > 0 {
      ReferencesKept(s, c, k - 1);
    }
  }

  lemma AfterIs(s: Store, c: Cutoffs, k: nat)
    requires k <= 4
    ensures After(s, c, k).raws == if k >= 1 then s.raws - OldRaws(s, c.raw) else s.raws
    ensures After(s, c, k).imports == if k >= 2 then s.imports - PredictedImports(s, c.imports, c.raw) else s.imports
    ensures After(s, c, k).audits == if k >= 3 then s.audits - OldAudits(s, c.audit) else s.audits
    ensures After(s, c, k).notifs == if k >= 4 then s.notifs - OldNotifs(s, c.notif) else s.notifs
  {
    var t0, t1, t2, t3, t4 := After(s, c, 0), After(s, c, 1), After(s, c, 2), After(s, c, 3), After(s, c, 4);
    assert t0 == s && t1 == s.(raws := s.raws - OldRaws(s, c.raw));
    forall log
      ensures HasRaw(t1, log) <==> HasYoungRaw(s, log, c.raw)
    {
      if HasYoungRaw(s, log, c.raw) {
        var i :| i in s.raws && s.raws[i].importLog == log && s.raws[i].createdAt >= c.raw;
        assert i in t1.raws;
      }
    }
    assert OldImports(t1, c.imports) == PredictedImports(s, c.imports, c.raw);
    assert t2 == t1.(imports := t1.imports - OldImports(t1, c.imports));
    assert OldAudits(t2, c.audit) == OldAudits(s, c.audit);
    assert t3 == t2.(audits := t2.audits - OldAudits(t2, c.audit));
    assert OldNotifs(t3, c.notif) == OldNotifs(s, c.notif);
    assert t4 == t3.(notifs := t3.notifs - OldNotifs(t3, c.notif));
  }

  /** The dry run counts exactly the rows that the statements of a real run go on to delete. */
  lemma DryRunPredicts(s: Store, c: Cutoffs)
    ensures OldRaws(After(s, c, 0), c.raw) == OldRaws(s, c.raw)
    ensures OldImports(After(s, c, 1), c.imports) == PredictedImports(s, c.imports, c.raw)
    ensures OldAudits(After(s, c, 2), c.audit) == OldAudits(s, c.audit)
    ensures OldNotifs(After(s, c, 3), c.notif) == OldNotifs(s, c.notif)
  {
    var t := After(s, c, 1);
    AfterIs(s, c, 1);
    AfterIs(s, c, 2);
    AfterIs(s, c, 3);
    forall log
      ensures HasRaw(t, log) <==> HasYoungRaw(s, log, c.raw)
    {
      if HasYoungRaw(s, log, c.raw) {
        var i :| i in s.raws && s.raws[i].importLog == log && s.raws[i].createdAt >= c.raw;
        assert i in t.raws;
      }
    }
  }

  predicate NotLater(a: Cutoffs, b: Cutoffs) {
    a.raw <= b.raw && a.imports <= b.imports && a.audit <= b.audit && a.notif <= b.notif
  }

  /**
   A run broken off after any statement, at the same or at earlier cutoffs, changes nothing about where
   the next full run ends.
   */
  lemma PartialRunsConverge(s: Store, before: Cutoffs, c: Cutoffs, k: nat)
    requires k <= 4 && NotLater(before, c)
    ensures After(After(s, before, k), c, 4) == After(s, c, 4)
  {
    var t := After(s, before, k);
    AfterIs(s, before, k);
    AfterIs(s, c, 4);
    AfterIs(t, c, 4);
    hide After;
    assert t.raws - OldRaws(t, c.raw) == s.raws - OldRaws(s, c.raw);
    SameYoungRaws(s, t, before.raw, c.raw);
    ImportsConverge(s, t, before, c);
    assert t.audits - OldAudits(t, c.audit) == s.audits - OldAudits(s, c.audit);
    assert t.notifs - OldNotifs(t, c.notif) == s.notifs - OldNotifs(s, c.notif);
  }

  lemma SameYoungRaws(s: Store, t: Store, before: int, cutoff: int)
    requires before <= cutoff && (t.raws == s.raws || t.raws == s.raws - OldRaws(s, before))
    ensures forall log :: HasYoungRaw(t, log, cutoff) <==> HasYoungRaw(s, log, cutoff)
  {
    forall log | HasYoungRaw(s, log, cutoff)
      ensures HasYoungRaw(t, log, cutoff)
    {
      var i :| i in s.raws && s.raws[i].importLog == log && s.raws[i].createdAt >= cutoff;
      assert i in t.raws;
    }
  }

  lemma ImportsConverge(s: Store, t: Store, before: Cutoffs, c: Cutoffs)
    requires NotLater(before, c)
    requires forall log :: HasYoungRaw(t, log, c.raw) <==> HasYoungRaw(s, log, c.raw)
    requires t.imports == s.imports || t.imports == s.imports - PredictedImports(s, before.imports, before.raw)
    ensures t.imports - PredictedImports(t, c.imports, c.raw) == s.imports - PredictedImports(s, c.imports, c.raw)
  {
  }

  /** Pruning only removes records that were sent, which is a step the notification histories allow. */
  lemma PruneIsHistoryStep(b: Books, limit: nat, s: Store, c: Cutoffs)
    requires TableOk(b.table, b.next, limit) && s.notifs == b.table
    ensures PruneStep(b, b.(table := After(s, c, 4).notifs), b.table.Keys - OldNotifs(s, c.notif))
  {
    AfterIs(s, c, 4);
    var kept := b.table.Keys - OldNotifs(s, c.notif);
    assert b.table - OldNotifs(s, c.notif) == Kept(b.table, kept);
    assert forall i | i in b.table :: RecordOk(b.table[i], limit);
  }

  // ---- the batch ----

  const DEFAULT_AUDIT := 1825
  const DEFAULT_RAW := 365
  const DEFAULT_IMPORTS := 1095
  const DEFAULT_NOTIFS := 365

  /** The four settings: no row, NULL or a text. */
  datatype Settings = Settings(
    raw: Option<Option<string>>,
    imports: Option<Option<string>>,
    audit: Option<Option<string>>,
    notif: Option<Option<string>>)

  function RetentionDays(setting: Option<Option<string>>, default: nat): Option<nat> {
    match setting
    case None => Some(default)
    case Some(None) => None
    case Some(Some(s)) => ParsePositive(s)
  }

  function CutoffsAt(settings: Settings, now: int): Option<Cutoffs> {
    var raw, imports := RetentionDays(settings.raw, DEFAULT_RAW), RetentionDays(settings.imports, DEFAULT_IMPORTS);
    var audit, notif := RetentionDays(settings.audit, DEFAULT_AUDIT), RetentionDays(settings.notif, DEFAULT_NOTIFS);
    if raw.None? || imports.None? || audit.None? || notif.None? then None
    else Some(Cutoffs(now - raw.value * DAY, now - imports.value * DAY, now - audit.value * DAY, now - notif.value * DAY))
  }

  /** With unchanged settings later runs never have earlier cutoffs, and nothing of the last day is ever pruned. */
  lemma CutoffsAdvance(settings: Settings, now: int, later: int)
    requires now <= later && CutoffsAt(settings, now).Some?
    ensures CutoffsAt(settings, later).Some?
    ensures NotLater(CutoffsAt(settings, now).value, CutoffsAt(settings, later).value)
    ensures NotLater(CutoffsAt(settings, now).value, Cutoffs(now - DAY, now - DAY, now - DAY, now - DAY))
  {
  }

  /** The days a setting keeps rows: the default without one, or the positive number it spells. */
  ghost predicate KeepsDays(setting: Option<Option<string>>, default: nat, days: nat) {
    match setting
    case None => days == default
    case Some(None) => false
    case Some(Some(s)) =>
      0 < days < INT64_LIMIT && (Numeral(s, days) || (s != "" && s[0] == '+' && Numeral(s[1..], days)))
  }

  lemma RetentionIs(setting: Option<Option<string>>, default: nat, days: nat)
    ensures RetentionDays(setting, default) == Some(days) <==> KeepsDays(setting, default, days)
  {
    if setting.Some? && setting.value.Some? {
      ParsePositiveExact(setting.value.value, days);
    }
  }

  /** Every table has a setting and a default of its own: a year, three years, five years and a year. */
  ghost predicate KeepsTables(settings: Settings, raw: nat, imports: nat, audit: nat, notif: nat) {
    && KeepsDays(settings.raw, 365, raw) && KeepsDays(settings.imports, 1095, imports)
    && KeepsDays(settings.audit, 1825, audit) && KeepsDays(settings.notif, 365, notif)
  }

  function CutoffsFor(now: int, raw: nat, imports: nat, audit: nat, notif: nat): Cutoffs {
    Cutoffs(now - raw * 86400, now - imports * 86400, now - audit * 86400, now - notif * 86400)
  }

  lemma CutoffsSplit(settings: Settings, now: int, raw: nat, imports: nat, audit: nat, notif: nat)
    ensures CutoffsAt(settings, now) == Some(CutoffsFor(now, raw, imports, audit, notif)) <==>
              && RetentionDays(settings.raw, 365) == Some(raw) && RetentionDays(settings.imports, 1095) == Some(imports)
              && RetentionDays(settings.audit, 1825) == Some(audit) && RetentionDays(settings.notif, 365) == Some(notif)
  {
    hide RetentionDays;
  }

  /** The settings decide the cutoffs, each its own table's; a run has cutoffs only if every setting is readable. */
  lemma CutoffsAre(settings: Settings, now: int, raw: nat, imports: nat, audit: nat, notif: nat)
    ensures KeepsTables(settings, raw, imports, audit, notif) ==>
              CutoffsAt(settings, now) == Some(CutoffsFor(now, raw, imports, audit, notif))
    ensures CutoffsAt(settings, now) == Some(CutoffsFor(now, raw, imports, audit, notif)) ==>
              KeepsTables(settings, raw, imports, audit, notif)
  {
    hide KeepsDays, RetentionDays, CutoffsAt;
    RetentionIs(settings.raw, 365, raw);
    RetentionIs(settings.imports, 1095, imports);
    RetentionIs(settings.audit, 1825, audit);
    RetentionIs(settings.notif, 365, notif);
    CutoffsSplit(settings, now, raw, imports, audit, notif);
  }

  lemma CutoffsComeFrom(settings: Settings, now: int) returns (raw: nat, imports: nat, audit: nat, notif: nat)
    requires CutoffsAt(settings, now).Some?
    ensures KeepsTables(settings, raw, imports, audit, notif)
    ensures CutoffsAt(settings, now) == Some(CutoffsFor(now, raw, imports, audit, notif))
  {
    hide RetentionDays, KeepsTables;
    raw, imports := RetentionDays(settings.raw, DEFAULT_RAW).value, RetentionDays(settings.imports, DEFAULT_IMPORTS).value;
    audit, notif := RetentionDays(settings.audit, DEFAULT_AUDIT).value, RetentionDays(settings.notif, DEFAULT_NOTIFS).value;
    CutoffsAre(settings, now, raw, imports, audit, notif);
  }

  /** What a full run keeps: rows from the cutoff on, the logs of installations it keeps, and all that was not sent. */
  ghost predicate KeepsRows(s: Store, t: Store, c: Cutoffs) {
    && (forall i :: i in t.raws <==> i in s.raws && s.raws[i].createdAt >= c.raw)
    && (forall i :: i in t.imports <==> i in s.imports && (s.imports[i] >= c.imports || HasRaw(t, i)))
    && (forall i :: i in t.audits <==> i in s.audits && s.audits[i] >= c.audit)
    && (forall i :: i in t.notifs <==> i in s.notifs && (s.notifs[i].sentAt.None? || s.notifs[i].sentAt.value >= c.notif))
    && (forall i | i in t.raws :: t.raws[i] == s.raws[i]) && (forall i | i in t.imports :: t.imports[i] == s.imports[i])
    && (forall i | i in t.audits :: t.audits[i] == s.audits[i]) && (forall i | i in t.notifs :: t.notifs[i] == s.notifs[i])
  }

  lemma FullRunKeeps(s: Store, c: Cutoffs)
    ensures KeepsRows(s, After(s, c, 4), c)
  {
    var t := After(s, c, 4);
    AfterIs(s, c, 4);
    hide After;
    forall log
      ensures HasRaw(t, log) <==> HasYoungRaw(s, log, c.raw)
    {
      if HasYoungRaw(s, log, c.raw) {
        var i :| i in s.raws && s.raws[i].importLog == log && s.raws[i].createdAt >= c.raw;
        assert i in t.raws;
      }
    }
  }

  datatype Report = Report(raws: nat, imports: nat, audits: nat, notifs: nat)

  datatype Outcome = BadSetting | Stopped(done: nat) | WouldDelete(counts: Report) | Deleted(counts: Report)

  /** The counts a full run has, one statement at a time. */
  function Counts(s: Store, c: Cutoffs): Report {
    Report(|OldRaws(After(s, c, 0), c.raw)|, |OldImports(After(s, c, 1), c.imports)|,
           |OldAudits(After(s, c, 2), c.audit)|, |OldNotifs(After(s, c, 3), c.notif)|)
  }

  class Database {
    var store: Store

    constructor (s: Store)
      ensures store == s
    {
      store := s;
    }

    method PruneRawInstallations(cutoff: int) returns (deleted: nat)
      modifies this
      ensures store == old(store).(raws := old(store).raws - OldRaws(old(store), cutoff))
      ensures deleted == |OldRaws(old(store), cutoff)|
    {
      var gone := OldRaws(store, cutoff);
      store := store.(raws := store.raws - gone);
      deleted := |gone|;
    }

    method PruneImportLogs(cutoff: int) returns (deleted: nat)
      modifies this
      ensures store == old(store).(imports := old(store).imports - OldImports(old(store), cutoff))
      ensures deleted == |OldImports(old(store), cutoff)|
    {
      var gone := OldImports(store, cutoff);
      store := store.(imports := store.imports - gone);
      deleted := |gone|;
    }

    method PruneAuditLogs(cutoff: int) returns (deleted: nat)
      modifies this
      ensures store == old(store).(audits := old(store).audits - OldAudits(old(store), cutoff))
      ensures deleted == |OldAudits(old(store), cutoff)|
    {
      var gone := OldAudits(store, cutoff);
      store := store.(audits := store.audits - gone);
      deleted := |gone|;
    }

    method PruneSentNotifications(cutoff: int) returns (deleted: nat)
      modifies this
      ensures store == old(store).(notifs := old(store).notifs - OldNotifs(old(store), cutoff))
      ensures deleted == |OldNotifs(old(store), cutoff)|
    {
      var gone := OldNotifs(store, cutoff);
      store := store.(notifs := store.notifs - gone);
      deleted := |gone|;
    }

    /** Four COUNTs on the store as it is. */
    method DryRunPrune(c: Cutoffs) returns (counts: Report)
      ensures counts == Counts(store, c)
    {
      DryRunPredicts(store, c);
      counts := Report(|OldRaws(store, c.raw)|, |PredictedImports(store, c.imports, c.raw)|,
                       |OldAudits(store, c.audit)|, |OldNotifs(store, c.notif)|);
    }

    /**
     `failing` is the statement that fails, if any; a bad setting stops the run before the first one. The
     dry run's counts are those of the real run on the same store.
     */
    method PruneAll(settings: Settings, now: int, dryRun: bool, failing: Option<nat>) returns (r: Outcome)
      modifies this
      ensures r.BadSetting? <==> CutoffsAt(settings, now).None?
      ensures r.BadSetting? || r.WouldDelete? ==> store == old(store)
      ensures !r.BadSetting? && dryRun ==> r == WouldDelete(Counts(old(store), CutoffsAt(settings, now).value))
      ensures !r.BadSetting? && !dryRun && (failing.None? || failing.value >= 4) ==>
                && r == Deleted(Counts(old(store), CutoffsAt(settings, now).value))
                && store == After(old(store), CutoffsAt(settings, now).value, 4)
                && KeepsRows(old(store), store, CutoffsAt(settings, now).value)
      ensures !r.BadSetting? && !dryRun && failing.Some? && failing.value < 4 ==>
                r == Stopped(failing.value) && store == After(old(store), CutoffsAt(settings, now).value, failing.value)
    {
      var cutoffs := CutoffsAt(settings, now);
      if cutoffs.None? {
        return BadSetting;
      }
      var c := cutoffs.value;
      hide KeepsRows, CutoffsAt, OldRaws, OldImports, OldAudits, OldNotifs, PredictedImports;
      if dryRun {
        var counts := DryRunPrune(c);
        return WouldDelete(counts);
      }
      ghost var s := store;
      if failing == Some(0) {
        return Stopped(0);
      }
      var raws := PruneRawInstallations(c.raw);
      assert store == After(s, c, 1);
      if failing == Some(1) {
        return Stopped(1);
      }
      var imports := PruneImportLogs(c.imports);
      assert store == After(s, c, 2);
      if failing == Some(2) {
        return Stopped(2);
      }
      var audits := PruneAuditLogs(c.audit);
      assert store == After(s, c, 3);
      if failing == Some(3) {
        return Stopped(3);
      }
      var notifs := PruneSentNotifications(c.notif);
      assert store == After(s, c, 4);
      FullRunKeeps(s, c);
      r := Deleted(Report(raws, imports, audits, notifs));
    }
  }
}
