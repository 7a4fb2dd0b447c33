/**
 The notifications table: one record per recipient and channel, from pending to sent, failed or given up.
 The queries of the notify batch are functions of the table; NotifyBatch runs them.
 */
module Notifications {
  import opened Wrappers

  datatype Status = Pending | Sent | Failed | GaveUp

  /** A message text, or the gave-up summary with the ids it lists. */
  datatype Body = Message(text: string) | Listing(ids: set<nat>)

  datatype Notification = Notification(
    kind: string,
    channel: string,
    recipient: string,
    body: Body,
    license: Option<nat>,
    status: Status,
    retryCount: nat,
    lastAttemptedAt: Option<nat>,
    sentAt: Option<nat>,
    createdAt: nat)

  type Table = map<nat, Notification>

  const SUMMARY := "gave_up_summary"

  // ---- queries ----

  /** CountSentNotificationForEvent > 0: something was already sent for this event on this channel. */
  predicate Delivered(t: Table, kind: string, channel: string, license: nat) {
    exists i | i in t :: t[i].kind == kind && t[i].channel == channel && t[i].license == Some(license)
                         && t[i].status == Sent
  }

  predicate SameEvent(a: Notification, b: Notification) {
    a.kind == b.kind && a.channel == b.channel && a.recipient == b.recipient && a.license == b.license
  }

  predicate Superseded(t: Table, n: Notification) {
    exists s | s in t :: t[s].status == Sent && SameEvent(t[s], n)
  }

  predicate Retryable(t: Table, limit: nat, i: nat)
    requires i in t
  {
    t[i].status == Failed && t[i].retryCount < limit && !Superseded(t, t[i])
  }

  /** ListFailedNotificationsForRetry. */
  function RetryTargets(t: Table, limit: nat): set<nat> {
    set i | i in t && Retryable(t, limit, i)
  }

  function SupersededTargets(t: Table, limit: nat): set<nat> {
    set i | i in t && t[i].status == Failed && t[i].retryCount < limit && Superseded(t, t[i])
  }

  predicate SentSummary(n: Notification) {
    n.kind == SUMMARY && n.status == Sent
  }

  /** Given up after every summary that was sent (all of them while none was). */
  predicate Unsummarized(t: Table, i: nat)
    requires i in t
  {
    && t[i].status == GaveUp && t[i].kind != SUMMARY
    && t[i].lastAttemptedAt.Some? && t[i].lastAttemptedAt.value > 0
    && forall s | s in t && SentSummary(t[s]) :: t[s].createdAt < t[i].lastAttemptedAt.value
  }

  function UnsummarizedGaveUp(t: Table): set<nat> {
    set i | i in t && Unsummarized(t, i)
  }

  const DAY := 86400

  predicate SummaryOnDay(t: Table, day: nat) {
    exists i | i in t :: t[i].kind == SUMMARY && t[i].createdAt / DAY == day
  }

  // ---- one run's environment ----

  /**
   What a run meets: whether the send of record `i` succeeds, whether the statements around it fail, and
   the clock at each. Every time lies between the run's start and end.
   */
  datatype Env = Env(
    start: nat,
    end: nat,
    ok: nat -> bool,
    createFails: nat -> bool,
    markFails: nat -> bool,
    created: nat -> nat,
    attempted: nat -> nat)

  ghost predicate ClockOk(env: Env) {
    env.start > 0 && forall i: nat :: env.start <= env.created(i) <= env.attempted(i) <= env.end
  }

  /** One delivery the run intends: a record is created before anything is sent. */
  datatype Item = Item(kind: string, channel: string, recipient: string, body: Body, license: Option<nat>)

  /** The record of a delivery under id `i` after its send; still pending if marking it failed. */
  function Recorded(item: Item, i: nat, env: Env): Notification {
    var status := if env.markFails(i) then Pending else if env.ok(i) then Sent else Failed;
    Notification(item.kind, item.channel, item.recipient, item.body, item.license, status, 0,
                 if status == Pending then None else Some(env.attempted(i)),
                 if status == Sent then Some(env.attempted(i)) else None,
                 env.created(i))
  }

  /** Items get consecutive ids from `next` on. */
  function ItemAt(items: seq<Item>, next: nat, i: nat): Item
    requires next <= i < next + |items|
  {
    items[i - next]
  }

  /** The table after all `items` were delivered under the ids from `next` on. */
  function Deliveries(t: Table, next: nat, items: seq<Item>, env: Env): Table {
    t + map i: nat | next <= i < next + |items| :: Recorded(ItemAt(items, next, i), i, env)
  }

  /** A record after one more attempt. */
  function Retried(n: Notification, limit: nat, ok: bool, at: nat): Notification {
    if ok then n.(status := Sent, sentAt := Some(at), lastAttemptedAt := Some(at))
    else n.(retryCount := n.retryCount + 1, lastAttemptedAt := Some(at),
            status := if n.retryCount + 1 >= limit then GaveUp else Failed)
  }

  /** The table after a retry run has worked through the records in `done`. */
  function RetriedTable(t: Table, done: set<nat>, channels: set<string>, limit: nat, env: Env): Table {
    map i | i in t ::
      if i in done && t[i].channel in channels then Retried(t[i], limit, env.ok(i), env.attempted(i)) else t[i]
  }

  // ---- records keep their shape ----

  /** Counters and times of one record, for a fixed retry limit. */
  predicate RecordOk(n: Notification, limit: nat) {
    && (n.status == Pending ==> n.retryCount == 0 && n.lastAttemptedAt.None?)
    && (n.status == Failed ==> n.retryCount < limit)
    && (n.status == GaveUp ==> n.retryCount == limit)
    && (n.status == Sent ==> n.retryCount < limit) && (n.status == Sent <==> n.sentAt.Some?)
    && (n.status != Pending ==> n.lastAttemptedAt.Some? && n.lastAttemptedAt.value > 0)
    && (n.kind == SUMMARY <==> n.body.Listing?)
  }

  ghost predicate TableOk(t: Table, next: nat, limit: nat) {
    limit > 0 && forall i | i in t :: i < next && RecordOk(t[i], limit)
  }

  /** Every time stamp in the table is at most `now`. */
  ghost predicate Until(t: Table, now: nat) {
    forall i | i in t :: t[i].createdAt <= now && (t[i].lastAttemptedAt.Some? ==> t[i].lastAttemptedAt.value <= now)
  }

  predicate ItemOk(item: Item) {
    item.kind == SUMMARY <==> item.body.Listing?
  }

  lemma DeliveriesOk(t: Table, next: nat, items: seq<Item>, env: Env, limit: nat, now: nat)
    requires TableOk(t, next, limit) && ClockOk(env) && Until(t, now) && now <= env.end
    requires forall item | item in items :: ItemOk(item)
    ensures TableOk(Deliveries(t, next, items, env), next + |items|, limit)
    ensures Until(Deliveries(t, next, items, env), env.end)
  {
    var t' := Deliveries(t, next, items, env);
    forall i | i in t'
      ensures i < next + |items| && RecordOk(t'[i], limit)
      ensures t'[i].createdAt <= env.end
      ensures t'[i].lastAttemptedAt.Some? ==> t'[i].lastAttemptedAt.value <= env.end
    {
      if next <= i < next + |items| {
        assert ItemAt(items, next, i) in items;
        assert env.start <= env.created(i) <= env.attempted(i) <= env.end;
      }
    }
  }

  lemma RetriedOk(t: Table, done: set<nat>, channels: set<string>, limit: nat, env: Env, next: nat, now: nat)
    requires TableOk(t, next, limit) && ClockOk(env) && Until(t, now) && now <= env.end
    requires done <= RetryTargets(t, limit)
    ensures TableOk(RetriedTable(t, done, channels, limit, env), next, limit)
    ensures Until(RetriedTable(t, done, channels, limit, env), env.end)
  {
    forall i: nat
      ensures env.start <= env.attempted(i) <= env.end
    {
      assert env.start <= env.created(i) <= env.attempted(i) <= env.end;
    }
  }

  /** Sent and given-up records never change again, and a retry run touches nothing but its targets. */
  lemma TerminalStates(t: Table, done: set<nat>, channels: set<string>, limit: nat, env: Env, i: nat)
    requires done <= RetryTargets(t, limit) && i in t
    ensures t[i].status in {Sent, GaveUp, Pending} ==> RetriedTable(t, done, channels, limit, env)[i] == t[i]
    ensures RetriedTable(t, done, channels, limit, env)[i] != t[i] ==> t[i].status == Failed && i in done
  {
  }

  // ---- double sends ----

  /** A retry run only sends records whose event nobody had sent before the run. */
  lemma NoResendAfterSuccess(t: Table, channels: set<string>, limit: nat, env: Env, i: nat)
    requires i in t && t[i].status != Sent
    requires RetriedTable(t, RetryTargets(t, limit), channels, limit, env)[i].status == Sent
    ensures forall s | s in t && t[s].status == Sent :: !SameEvent(t[s], t[i])
  {
  }

  /** But failed twins listed by the same run are both sent; NotifyOnce says when there are none. */
  lemma TwinsAreBothSent(t: Table, channels: set<string>, limit: nat, env: Env, i: nat, j: nat)
    requires i in t && j in t && i != j && SameEvent(t[i], t[j])
    requires i in RetryTargets(t, limit) && t[i].channel in channels && env.ok(i) && env.ok(j)
    ensures RetriedTable(t, RetryTargets(t, limit), channels, limit, env)[i].status == Sent
    ensures RetriedTable(t, RetryTargets(t, limit), channels, limit, env)[j].status == Sent
            <==> t[j].status == Sent || (t[j].status == Failed && t[j].retryCount < limit)
  {
  }

  // ---- retry runs come to an end ----

  /** The table after consecutive retry runs with the same channels and limit. */
  function RetryRuns(t: Table, channels: set<string>, limit: nat, envs: seq<Env>): Table {
    if envs == [] then t
    else
      var before := RetryRuns(t, channels, limit, envs[..|envs| - 1]);
      RetriedTable(before, RetryTargets(before, limit), channels, limit, envs[|envs| - 1])
  }

  lemma {:induction false} RetryRunsProgress(t: Table, channels: set<string>, limit: nat, envs: seq<Env>)
    ensures RetryRuns(t, channels, limit, envs).Keys == t.Keys
    ensures forall i | i in t && i in RetryTargets(RetryRuns(t, channels, limit, envs), limit)
                       && t[i].channel in channels ::
              RetryRuns(t, channels, limit, envs)[i].retryCount >= |envs|
    ensures forall i | i in t :: SameEvent(RetryRuns(t, channels, limit, envs)[i], t[i])
    ensures forall i | i in t && t[i].status == Sent :: RetryRuns(t, channels, limit, envs)[i].status == Sent
  {
    if envs != [] {
      var init := envs[..|envs| - 1];
      RetryRunsProgress(t, channels, limit, init);
      var before := RetryRuns(t, channels, limit, init);
      var after := RetryRuns(t, channels, limit, envs);
      forall i | i in t && i in RetryTargets(after, limit) && t[i].channel in channels
        ensures after[i].retryCount >= |envs|
      {
        assert before[i].status == Failed;
        if Superseded(before, before[i]) {
          var s :| s in before && before[s].status == Sent && SameEvent(before[s], before[i]);
          assert after[s] == before[s];
        }
        assert i in RetryTargets(before, limit);
      }
    }
  }

  /** After `limit` retry runs nothing is left to retry on a configured channel. */
  lemma RetriesEnd(t: Table, channels: set<string>, limit: nat, envs: seq<Env>)
    requires |envs| >= limit
    ensures forall i | i in RetryTargets(RetryRuns(t, channels, limit, envs), limit) ::
              RetryRuns(t, channels, limit, envs)[i].channel !in channels
  {
    RetryRunsProgress(t, channels, limit, envs);
  }

  // ---- no gave-up record is ever lost ----

  /**
   `listed` is the history of ids that stood in the body of a summary whose send succeeded. A gave-up
   record older than some summary stands in that summary's body, or in one that was sent.
   */
  ghost predicate NothingHidden(t: Table, listed: set<nat>) {
    && (forall s, g | s in t && t[s].kind == SUMMARY && g in t && t[g].kind != SUMMARY && t[g].status == GaveUp
                      && t[g].lastAttemptedAt.Some? && t[g].lastAttemptedAt.value <= t[s].createdAt ::
          g in listed || (t[s].body.Listing? && g in t[s].body.ids))
    && (forall s | s in t && SentSummary(t[s]) && t[s].body.Listing? :: t[s].body.ids <= listed)
  }

  /** The promise: every gave-up record is still to be summarized, or was listed in a summary that was sent. */
  lemma NoGaveUpLost(t: Table, listed: set<nat>, next: nat, limit: nat)
    requires TableOk(t, next, limit) && NothingHidden(t, listed)
    ensures forall g | g in t && t[g].status == GaveUp && t[g].kind != SUMMARY :: Unsummarized(t, g) || g in listed
  {
  }

  /** Ids listed in summaries the run managed to send. */
  function ListedBy(items: seq<Item>, next: nat, env: Env): set<nat> {
    set j: nat, g | next <= j < next + |items| && env.ok(j) && ItemAt(items, next, j).body.Listing?
                    && g in ItemAt(items, next, j).body.ids :: g
  }

  /** A daily run hides nothing: its summaries list everything that was still unsummarized before it. */
  lemma DeliveriesHideNothing(t: Table, next: nat, items: seq<Item>, env: Env, limit: nat,
                              listed: set<nat>, now: nat)
    requires TableOk(t, next, limit) && Until(t, now) && ClockOk(env) && now < env.start
    requires NothingHidden(t, listed)
    requires forall item | item in items ::
               ItemOk(item) && (item.body.Listing? ==> item.body.ids == UnsummarizedGaveUp(t))
    ensures NothingHidden(Deliveries(t, next, items, env), listed + ListedBy(items, next, env))
  {
    var t', listed' := Deliveries(t, next, items, env), listed + ListedBy(items, next, env);
    NoGaveUpLost(t, listed, next, limit);
    forall s, g | s in t' && t'[s].kind == SUMMARY && g in t' && t'[g].kind != SUMMARY && t'[g].status == GaveUp
                  && t'[g].lastAttemptedAt.Some? && t'[g].lastAttemptedAt.value <= t'[s].createdAt
      ensures g in listed' || (t'[s].body.Listing? && g in t'[s].body.ids)
    {
      assert g in t && t[g] == t'[g];
      if next <= s < next + |items| {
        assert ItemAt(items, next, s) in items;
        assert Unsummarized(t, g) || g in listed;
      }
    }
    forall s | s in t' && SentSummary(t'[s]) && t'[s].body.Listing?
      ensures t'[s].body.ids <= listed'
    {
      if next <= s < next + |items| {
        assert t'[s] == Recorded(ItemAt(items, next, s), s, env);
        assert env.ok(s);
        assert forall g | g in t'[s].body.ids :: g in ListedBy(items, next, env);
      }
    }
  }

  /** Ids listed in summaries a retry run managed to send. */
  function RetryListed(t: Table, done: set<nat>, channels: set<string>, env: Env): set<nat> {
    set s, g | s in done && s in t && t[s].channel in channels && env.ok(s) && t[s].body.Listing?
               && g in t[s].body.ids :: g
  }

  /** Nor does a retry run: new gave-ups are younger than every summary, and a re-sent summary lists its own. */
  lemma RetryHidesNothing(t: Table, done: set<nat>, channels: set<string>, limit: nat, env: Env,
                          next: nat, listed: set<nat>, now: nat)
    requires TableOk(t, next, limit) && Until(t, now) && ClockOk(env) && now < env.start
    requires NothingHidden(t, listed) && done <= RetryTargets(t, limit)
    ensures NothingHidden(RetriedTable(t, done, channels, limit, env), listed + RetryListed(t, done, channels, env))
  {
    var t' := RetriedTable(t, done, channels, limit, env);
    var listed' := listed + RetryListed(t, done, channels, env);
    forall s, g | s in t' && t'[s].kind == SUMMARY && g in t' && t'[g].kind != SUMMARY && t'[g].status == GaveUp
                  && t'[g].lastAttemptedAt.Some? && t'[g].lastAttemptedAt.value <= t'[s].createdAt
      ensures g in listed' || (t'[s].body.Listing? && g in t'[s].body.ids)
    {
      assert t'[s].createdAt == t[s].createdAt && t'[s].body == t[s].body;
      assert env.start <= env.created(g) <= env.attempted(g);
      assert t'[g] == t[g];
    }
    forall s | s in t' && SentSummary(t'[s]) && t'[s].body.Listing?
      ensures t'[s].body.ids <= listed'
    {
      if t'[s] != t[s] {
        assert s in done && env.ok(s);
        assert forall g | g in t[s].body.ids :: g in RetryListed(t, done, channels, env);
      }
    }
  }

  /** Pruning old sent records only moves the checkpoint back. */
  lemma PruneHidesNothing(t: Table, kept: set<nat>, listed: set<nat>)
    requires NothingHidden(t, listed)
    ensures NothingHidden(Kept(t, kept), listed)
  {
  }

  function Kept(t: Table, kept: set<nat>): Table {
    map i | i in t && i in kept :: t[i]
  }

  // ---- whole histories of runs ----

  /**
   The table with its history: `listed` as above, `attempts` counts sends per record, `lost` counts the
   sends whose outcome the database failed to take down.
   */
  datatype Books = Books(table: Table, next: nat, listed: set<nat>, attempts: map<nat, nat>, lost: map<nat, nat>)

  /** How often a record was sent, given where it stands. */
  predicate AttemptOk(n: Notification, attempts: nat, lost: nat) {
    match n.status
    case Pending => attempts == lost
    case Failed => attempts == n.retryCount + 1 + lost
    case GaveUp => attempts == n.retryCount + 1 + lost
    case Sent => 1 + lost <= attempts <= n.retryCount + 2 + lost
  }

  ghost predicate AttemptsOk(b: Books, limit: nat) {
    && b.table.Keys <= b.attempts.Keys && b.table.Keys <= b.lost.Keys
    && forall i | i in b.table :: AttemptOk(b.table[i], b.attempts[i], b.lost[i])
  }

  ghost predicate BooksOk(b: Books, limit: nat, now: nat) {
    && TableOk(b.table, b.next, limit) && Until(b.table, now)
    && NothingHidden(b.table, b.listed) && AttemptsOk(b, limit)
  }

  /** The ids AUTOINCREMENT hands out for `count` inserts. */
  function Ids(next: nat, count: nat): (ids: set<nat>)
    ensures forall i: nat :: i in ids <==> next <= i < next + count
  {
    if count == 0 then {} else Ids(next, count - 1) + {next + count - 1}
  }

  function SentOnce(ids: set<nat>): map<nat, nat> {
    map i | i in ids :: 1
  }

  function LostBy(ids: set<nat>, env: Env): map<nat, nat> {
    map i | i in ids :: if env.markFails(i) then 1 else 0
  }

  /** The books after `items` were delivered. */
  function Apply(b: Books, items: seq<Item>, env: Env): Books {
    Books(Deliveries(b.table, b.next, items, env),
          b.next + |items|,
          b.listed + ListedBy(items, b.next, env),
          b.attempts + SentOnce(Ids(b.next, |items|)),
          b.lost + LostBy(Ids(b.next, |items|), env))
  }

  /** One more on the count of every id in `ids`. */
  function Tallied(m: map<nat, nat>, ids: set<nat>): map<nat, nat> {
    map i | i in m :: m[i] + if i in ids then 1 else 0
  }

  /** Records whose channel is configured. */
  function Reached(t: Table, ids: set<nat>, channels: set<string>): set<nat> {
    set i | i in ids && i in t && t[i].channel in channels
  }

  /** The books after a retry run through `done`; `stuck` was sent but could not be marked. */
  function ApplyRetry(b: Books, done: set<nat>, stuck: set<nat>, channels: set<string>, limit: nat, env: Env): Books {
    Books(RetriedTable(b.table, done, channels, limit, env),
          b.next,
          b.listed + RetryListed(b.table, done, channels, env),
          Tallied(b.attempts, Reached(b.table, done + stuck, channels)),
          Tallied(b.lost, Reached(b.table, stuck, channels)))
  }

  /** What a daily run may deliver: expiry notices, and summaries of all that is unsummarized. */
  ghost predicate DailyItems(t: Table, items: seq<Item>) {
    forall item | item in items :: ItemOk(item) && (item.body.Listing? ==> item.body.ids == UnsummarizedGaveUp(t))
  }

  ghost predicate DailyStep(b: Books, b': Books, limit: nat, items: seq<Item>, env: Env) {
    DailyItems(b.table, items) && b' == Apply(b, items, env)
  }

  ghost predicate RetryStep(b: Books, b': Books, limit: nat, done: set<nat>, stuck: set<nat>,
                            channels: set<string>, env: Env) {
    && done <= RetryTargets(b.table, limit) && stuck <= RetryTargets(b.table, limit) && done !! stuck
    && b' == ApplyRetry(b, done, stuck, channels, limit, env)
  }

  ghost predicate PruneStep(b: Books, b': Books, kept: set<nat>) {
    && (forall i | i in b.table && i !in kept :: b.table[i].status == Sent)
    && b' == b.(table := Kept(b.table, kept))
  }

  /** One run of one batch, complete or broken off, between two clock readings. */
  ghost predicate BatchStep(b: Books, b': Books, limit: nat, env: Env) {
    || (exists items :: DailyStep(b, b', limit, items, env))
    || (exists done, stuck, channels :: RetryStep(b, b', limit, done, stuck, channels, env))
    || (exists kept :: PruneStep(b, b', kept))
  }

  lemma DailyKeepsAttempts(b: Books, limit: nat, items: seq<Item>, env: Env)
    requires AttemptsOk(b, limit)
    ensures AttemptsOk(Apply(b, items, env), limit)
  {
    var b' := Apply(b, items, env);
    forall i | i in b'.table
      ensures i in b'.attempts && i in b'.lost && AttemptOk(b'.table[i], b'.attempts[i], b'.lost[i])
    {
      var fresh' := i in Ids(b.next, |items|);
      assert fresh' ==> b'.table[i] == Recorded(ItemAt(items, b.next, i), i, env);
    }
  }

  lemma RetryKeepsAttempts(b: Books, limit: nat, done: set<nat>, stuck: set<nat>, channels: set<string>, env: Env)
    requires AttemptsOk(b, limit)
    requires done <= RetryTargets(b.table, limit) && stuck <= RetryTargets(b.table, limit) && done !! stuck
    ensures AttemptsOk(ApplyRetry(b, done, stuck, channels, limit, env), limit)
  {
  }

  lemma DailyKeepsBooks(b: Books, b': Books, limit: nat, items: seq<Item>, env: Env, now: nat)
    requires BooksOk(b, limit, now) && ClockOk(env) && now < env.start
    requires DailyStep(b, b', limit, items, env)
    ensures BooksOk(b', limit, env.end)
  {
    assert env.start <= env.created(0) <= env.attempted(0) <= env.end;
    hide TableOk, Until, NothingHidden, AttemptsOk, Deliveries, ListedBy, ClockOk, UnsummarizedGaveUp;
    DeliveriesOk(b.table, b.next, items, env, limit, now);
    DeliveriesHideNothing(b.table, b.next, items, env, limit, b.listed, now);
    DailyKeepsAttempts(b, limit, items, env);
  }

  lemma RetryKeepsBooks(b: Books, b': Books, limit: nat, done: set<nat>, stuck: set<nat>,
                        channels: set<string>, env: Env, now: nat)
    requires BooksOk(b, limit, now) && ClockOk(env) && now < env.start
    requires RetryStep(b, b', limit, done, stuck, channels, env)
    ensures BooksOk(b', limit, env.end)
  {
    assert env.start <= env.created(0) <= env.attempted(0) <= env.end;
    hide TableOk, Until, NothingHidden, AttemptsOk, RetriedTable, RetryListed, ClockOk, RetryTargets;
    RetriedOk(b.table, done, channels, limit, env, b.next, now);
    RetryHidesNothing(b.table, done, channels, limit, env, b.next, b.listed, now);
    RetryKeepsAttempts(b, limit, done, stuck, channels, env);
  }

  lemma StepKeepsBooks(b: Books, b': Books, limit: nat, env: Env, now: nat)
    requires BooksOk(b, limit, now) && ClockOk(env) && now < env.start && BatchStep(b, b', limit, env)
    ensures BooksOk(b', limit, env.end)
  {
    if items :| DailyStep(b, b', limit, items, env) {
      DailyKeepsBooks(b, b', limit, items, env, now);
    } else if done, stuck, channels :| RetryStep(b, b', limit, done, stuck, channels, env) {
      RetryKeepsBooks(b, b', limit, done, stuck, channels, env, now);
    } else {
      var kept :| PruneStep(b, b', kept);
      assert env.start <= env.created(0) <= env.attempted(0) <= env.end;
      PruneHidesNothing(b.table, kept, b.listed);
    }
  }

  /** Runs of daily, retry and prune batches, in any order, with a clock that advances between them. */
  ghost predicate History(books: seq<Books>, envs: seq<Env>, limit: nat, start: nat) {
    && |books| == |envs| + 1
    && BooksOk(books[0], limit, start)
    && (forall i | 0 <= i < |envs| :: ClockOk(envs[i]))
    && (|envs| > 0 ==> start < envs[0].start)
    && (forall i | 0 < i < |envs| :: envs[i - 1].end < envs[i].start)
    && forall i | 0 <= i < |envs| :: BatchStep(books[i], books[i + 1], limit, envs[i])
  }

  lemma {:induction false} HistoryKeepsBooks(books: seq<Books>, envs: seq<Env>, limit: nat, start: nat, i: nat)
    requires History(books, envs, limit, start) && i <= |envs|
    ensures BooksOk(books[i], limit, if i == 0 then start else envs[i - 1].end)
  {
    if i > 0 {
      HistoryKeepsBooks(books, envs, limit, start, i - 1);
      var k := i - 1;
      assert BatchStep(books[k], books[k + 1], limit, envs[k]);
      hide BooksOk, BatchStep;
      StepKeepsBooks(books[k], books[i], limit, envs[k], if k == 0 then start else envs[k - 1].end);
    }
  }

  /**
   After every history: no gave-up record is lost, pending records were never retried, failed ones are
   below the limit, given-up ones at it, and nothing was sent more than `limit + 1` times beyond the
   sends whose outcome was lost.
   */
  lemma EveryHistory(books: seq<Books>, envs: seq<Env>, limit: nat, start: nat, k: nat, i: nat)
    requires History(books, envs, limit, start) && k <= |envs| && i in books[k].table
    ensures i in books[k].attempts && i in books[k].lost
    ensures books[k].attempts[i] <= limit + 1 + books[k].lost[i]
    ensures books[k].table[i].status == Pending ==> books[k].table[i].retryCount == 0
    ensures books[k].table[i].status == Failed ==> books[k].table[i].retryCount < limit
    ensures books[k].table[i].status == GaveUp ==> books[k].table[i].retryCount == limit
    ensures books[k].table[i].status == GaveUp && books[k].table[i].kind != SUMMARY ==>
              Unsummarized(books[k].table, i) || i in books[k].listed
  {
    HistoryKeepsBooks(books, envs, limit, start, k);
    NoGaveUpLost(books[k].table, books[k].listed, books[k].next, limit);
    assert RecordOk(books[k].table[i], limit);
  }
}
