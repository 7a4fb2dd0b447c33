/** Over any history of runs, all summaries created on one day come from one run. */
module NotifyDays {
  import opened Notifications
  import opened NotifyPlan
  import opened NotifyQueries

  /** A daily run, complete or broken off, within the day it was started for. */
  ghost predicate DayRun(b: Books, b': Books, dir: Directory, channels: seq<string>, days: seq<nat>, today: nat,
                         done: seq<Item>, env: Env) {
    && done <= Plan(b.table, dir, channels, days, today) && b' == Apply(b, done, env)
    && today * DAY <= env.start && env.end < (today + 1) * DAY
  }

  /** Pruning that takes only what was sent more than a day ago. */
  ghost predicate DatedPrune(b: Books, b': Books, kept: set<nat>, env: Env) {
    && PruneStep(b, b', kept)
    && forall i | i in b.table && i !in kept :: b.table[i].sentAt.Some? && b.table[i].sentAt.value + DAY <= env.start
  }

  ghost predicate DatedStep(b: Books, b': Books, limit: nat, env: Env) {
    || (exists dir, channels, days, today, done :: DayRun(b, b', dir, channels, days, today, done, env))
    || (exists done, stuck, channels :: RetryStep(b, b', limit, done, stuck, channels, env))
    || (exists kept :: DatedPrune(b, b', kept, env))
  }

  ghost predicate DatedHistory(books: seq<Books>, envs: seq<Env>, limit: nat, start: nat) {
    History(books, envs, limit, start) && forall k | 0 <= k < |envs| :: DatedStep(books[k], books[k + 1], limit, envs[k])
  }

  predicate OnDay(at: nat, d: nat) {
    d * DAY <= at < (d + 1) * DAY
  }

  predicate Stands(t: Table, i: nat, d: nat) {
    && i in t && t[i].kind == SUMMARY && OnDay(t[i].createdAt, d)
    && (t[i].sentAt.Some? ==> t[i].createdAt <= t[i].sentAt.value)
  }

  lemma NewSummaryStands(b: Books, b': Books, limit: nat, env: Env, i: nat, d: nat)
    requires ClockOk(env) && DatedStep(b, b', limit, env) && b.next <= i < b'.next
    requires i in b'.table && b'.table[i].kind == SUMMARY && OnDay(b'.table[i].createdAt, d)
    ensures Stands(b'.table, i, d)
  {
    hide Plan;
    if dir, channels, days, today, done :| DayRun(b, b', dir, channels, days, today, done, env) {
      RecordsOf(b.table, b.next, done, env);
      assert b'.table[i] == Recorded(ItemAt(done, b.next, i), i, env);
      assert env.created(i) <= env.attempted(i);
    }
  }

  lemma SummaryStays(b: Books, b': Books, limit: nat, env: Env, now: nat, i: nat, d: nat)
    requires BooksOk(b, limit, now) && ClockOk(env) && now < env.start < (d + 1) * DAY
    requires DatedStep(b, b', limit, env) && Stands(b.table, i, d)
    ensures Stands(b'.table, i, d)
  {
    hide Plan, NothingHidden, AttemptsOk;
    if dir, channels, days, today, done :| DayRun(b, b', dir, channels, days, today, done, env) {
      assert b'.table[i] == b.table[i];
    } else if done, stuck, channels :| RetryStep(b, b', limit, done, stuck, channels, env) {
      assert env.start <= env.created(i) <= env.attempted(i);
    } else {
      var kept :| DatedPrune(b, b', kept, env);
    }
  }

  lemma {:induction false} StandsUntil(books: seq<Books>, envs: seq<Env>, limit: nat, start: nat, k: nat, l: nat, i: nat, d: nat)
    requires DatedHistory(books, envs, limit, start) && k < l <= |envs| && Stands(books[k + 1].table, i, d)
    requires forall m | k < m < l :: envs[m].start < (d + 1) * DAY
    ensures Stands(books[l].table, i, d)
  {
    if l > k + 1 {
      var m := l - 1;
      StandsUntil(books, envs, limit, start, k, m, i, d);
      HistoryKeepsBooks(books, envs, limit, start, m);
      assert DatedStep(books[m], books[m + 1], limit, envs[m]);
      hide BooksOk, DatedStep, Stands;
      SummaryStays(books[m], books[l], limit, envs[m], envs[m - 1].end, i, d);
    }
  }

  lemma {:induction false} ClockAdvances(books: seq<Books>, envs: seq<Env>, limit: nat, start: nat, k: nat, l: nat)
    requires History(books, envs, limit, start) && k <= l < |envs|
    ensures envs[k].start <= envs[l].start
  {
    if k < l {
      ClockAdvances(books, envs, limit, start, k, l - 1);
      var env := envs[l - 1];
      assert ClockOk(env);
      assert env.start <= env.created(0) <= env.attempted(0) <= env.end;
    }
  }

  lemma NoSecondSummary(b: Books, b': Books, limit: nat, env: Env, i: nat, j: nat, d: nat)
    requires ClockOk(env) && DatedStep(b, b', limit, env) && Stands(b.table, i, d)
    requires (forall n | n in b.table :: n < b.next) && b.next <= j < b'.next && j in b'.table && b'.table[j].kind == SUMMARY
    ensures env.start < (d + 1) * DAY ==> !OnDay(b'.table[j].createdAt, d)
  {
    hide Plan;
    if dir, channels, days, today, done :| DayRun(b, b', dir, channels, days, today, done, env) {
      RecordsOf(b.table, b.next, done, env);
      assert b'.table[j].createdAt == env.created(j);
      assert env.start <= env.created(j) <= env.attempted(j) <= env.end;
      assert SummarizedOn(b.table, d);
      if OnDay(b'.table[j].createdAt, d) {
        DayIs(env.created(j), d);
        DayIs(env.created(j), today);
        SummariesAre(b, dir, channels, days, today, done, env);
      }
    }
  }

  /** Two summaries that different runs created were created on different days. */
  lemma OneSummaryRunPerDay(books: seq<Books>, envs: seq<Env>, limit: nat, start: nat, k: nat, l: nat, i: nat, j: nat, d: nat)
    requires DatedHistory(books, envs, limit, start) && k < l < |envs|
    requires books[k].next <= i < books[k + 1].next && i in books[k + 1].table && books[k + 1].table[i].kind == SUMMARY
    requires books[l].next <= j < books[l + 1].next && j in books[l + 1].table && books[l + 1].table[j].kind == SUMMARY
    ensures !(d * DAY <= books[k + 1].table[i].createdAt < (d + 1) * DAY
              && d * DAY <= books[l + 1].table[j].createdAt < (d + 1) * DAY)
  {
    if OnDay(books[k + 1].table[i].createdAt, d) && OnDay(books[l + 1].table[j].createdAt, d) {
      assert DatedStep(books[k], books[k + 1], limit, envs[k]) && DatedStep(books[l], books[l + 1], limit, envs[l]);
      assert ClockOk(envs[k]) && ClockOk(envs[l]);
      HistoryKeepsBooks(books, envs, limit, start, l);
      NewStarts(books[l], books[l + 1], limit, envs[l], j);
      forall m | k < m < l
        ensures envs[m].start < (d + 1) * DAY
      {
        ClockAdvances(books, envs, limit, start, m, l);
      }
      NewSummaryStands(books[k], books[k + 1], limit, envs[k], i, d);
      hide DatedStep, Stands;
      StandsUntil(books, envs, limit, start, k, l, i, d);
      NoSecondSummary(books[l], books[l + 1], limit, envs[l], i, j, d);
    }
  }

  lemma NewStarts(b: Books, b': Books, limit: nat, env: Env, j: nat)
    requires ClockOk(env) && DatedStep(b, b', limit, env) && b.next <= j < b'.next && j in b'.table
    ensures env.start <= b'.table[j].createdAt
  {
    hide Plan;
    if dir, channels, days, today, done :| DayRun(b, b', dir, channels, days, today, done, env) {
      RecordsOf(b.table, b.next, done, env);
      assert b'.table[j].createdAt == env.created(j);
      assert env.start <= env.created(j);
    }
  }
}
