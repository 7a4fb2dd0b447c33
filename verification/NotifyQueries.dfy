/**
 What the notify queries decide, said on the fields of the records themselves: who is retried, who gets a
 notice, and that a day sees one run of summaries.
 */
module NotifyQueries {
  import opened Wrappers
  import opened Decimal
  import opened Notifications
  import opened NotifyPlan
  import opened NotifyOnce

  // ---- retry runs ----

  /** Somebody already received this record's message: a record alike in kind, channel, recipient and license was sent. */
  ghost predicate TwinSent(t: Table, i: nat)
    requires i in t
  {
    exists s | s in t :: t[s].status == Sent && t[s].kind == t[i].kind && t[s].channel == t[i].channel
                         && t[s].recipient == t[i].recipient && t[s].license == t[i].license
  }

  /** Failed below the limit, whatever its kind, and nobody has its message yet. */
  ghost predicate Due(t: Table, limit: nat, i: nat)
    requires i in t
  {
    t[i].status == Failed && t[i].retryCount < limit && !TwinSent(t, i)
  }

  /** What a complete retry run makes of one record. */
  ghost predicate RetryOutcome(before: Notification, after: Notification, tried: bool, ok: bool, limit: nat, at: nat) {
    if !tried then after == before
    else
      && after == before.(status := after.status, retryCount := after.retryCount,
                          lastAttemptedAt := Some(at), sentAt := after.sentAt)
      && (ok ==> after.status == Sent && after.retryCount == before.retryCount && after.sentAt == Some(at))
      && (!ok ==> after.retryCount == before.retryCount + 1 && after.sentAt == before.sentAt)
      && (!ok && after.retryCount >= limit ==> after.status == GaveUp)
      && (!ok && after.retryCount < limit ==> after.status == Failed)
  }

  /** Exactly the due records of configured channels got one more attempt. */
  ghost predicate DueTried(t: Table, t': Table, channels: set<string>, limit: nat, env: Env) {
    && t'.Keys == t.Keys
    && forall i | i in t ::
         RetryOutcome(t[i], t'[i], Due(t, limit, i) && t[i].channel in channels, env.ok(i), limit, env.attempted(i))
  }

  /** That is what a complete retry run does. */
  lemma RetryExact(t: Table, channels: set<string>, limit: nat, env: Env)
    ensures DueTried(t, RetriedTable(t, RetryTargets(t, limit), channels, limit, env), channels, limit, env)
  {
    forall i | i in t
      ensures i in RetryTargets(t, limit) <==> Due(t, limit, i)
    {
    }
  }

  /** The numbers a retry run reports before it starts. */
  lemma RetryCountsAre(t: Table, limit: nat)
    ensures forall i :: i in RetryTargets(t, limit) <==> i in t && Due(t, limit, i)
    ensures forall i :: i in SupersededTargets(t, limit) <==>
                          i in t && t[i].status == Failed && t[i].retryCount < limit && TwinSent(t, i)
  {
  }

  lemma RetryRunsKeep(t: Table, channels: set<string>, limit: nat, envs: seq<Env>, i: nat)
    requires i in t && RetryRuns(t, channels, limit, envs).Keys == t.Keys
    requires t[i].status == Failed ==> t[i].retryCount < limit
    ensures var n := RetryRuns(t, channels, limit, envs)[i];
            && n.status == Failed ==> n.retryCount < limit
  {
    if envs != [] {
      RetryRunsProgress(t, channels, limit, envs[..|envs| - 1]);
      RetryRunsKeep(t, channels, limit, envs[..|envs| - 1], i);
    }
  }

  lemma RetryRunsNoPending(t: Table, channels: set<string>, limit: nat, envs: seq<Env>, i: nat)
    requires i in t && RetryRuns(t, channels, limit, envs).Keys == t.Keys
    requires t[i].status != Pending
    ensures RetryRuns(t, channels, limit, envs)[i].status != Pending
  {
    if envs != [] {
      RetryRunsProgress(t, channels, limit, envs[..|envs| - 1]);
      RetryRunsNoPending(t, channels, limit, envs[..|envs| - 1], i);
    }
  }

  /**
   After as many retry runs as the limit every record of a configured channel that had failed below it is
   sent or given up, or somebody else's record of the same message was sent.
   */
  lemma RetriesSettle(t: Table, channels: set<string>, limit: nat, envs: seq<Env>, i: nat)
    requires |envs| >= limit && i in t
    requires t[i].status == Failed && t[i].retryCount < limit && t[i].channel in channels
    ensures var t' := RetryRuns(t, channels, limit, envs);
            && i in t' && (t'[i].status in {Sent, GaveUp} || TwinSent(t', i))
  {
    var t' := RetryRuns(t, channels, limit, envs);
    RetryRunsProgress(t, channels, limit, envs);
    RetryRunsKeep(t, channels, limit, envs, i);
    RetryRunsNoPending(t, channels, limit, envs, i);
    RetriesEnd(t, channels, limit, envs);
    RetryCountsAre(t', limit);
    hide RetryRuns, RetryTargets, TwinSent;
    assert SameEvent(t'[i], t[i]);
  }

  // ---- recipients ----

  /** The address a person is reached at: the notification address if there is one, else the linked user's. */
  ghost predicate ReachedAt(c: Candidate, e: string) {
    && e != ""
    && (c.notifyEmail == Some(e) || ((c.notifyEmail == None || c.notifyEmail == Some("")) && c.linkedEmail == Some(e)))
  }

  lemma RecipientsAre(cands: seq<Candidate>, e: string)
    ensures e in Emails(cands) <==> exists c | c in cands :: ReachedAt(c, e)
  {
    EmailsDistinctIff(cands);
  }

  lemma RecipientsOf(cands: seq<Candidate>)
    ensures forall e :: e in Emails(cands) <==> exists c | c in cands :: ReachedAt(c, e)
  {
    forall e
      ensures e in Emails(cands) <==> exists c | c in cands :: ReachedAt(c, e)
    {
      RecipientsAre(cands, e);
    }
  }

  // ---- notices ----

  /** A license that expires in `d` days, a channel its event has not reached, and somebody in charge of it. */
  ghost predicate DueNotice(t: Table, dir: Directory, channels: seq<string>, d: nat, r: Expiring, item: Item) {
    && item.kind == "license_expiry_" + Itoa(d) && item.license == Some(r.license) && item.body == Message(r.notice)
    && item.channel in channels
    && (forall i | i in t && t[i].kind == item.kind && t[i].channel == item.channel && t[i].license == Some(r.license) ::
          t[i].status != Sent)
    && exists c | c in (if dir.managers(r.department) != [] then dir.managers(r.department) else dir.admins) ::
         ReachedAt(c, item.recipient)
  }

  lemma LicensePlanIs(t: Table, dir: Directory, channels: seq<string>, d: nat, r: Expiring, item: Item)
    ensures item in LicensePlan(t, dir, channels, d, r) <==> DueNotice(t, dir, channels, d, r, item)
  {
    var pending, emails := PendingChannels(t, channels, ExpiryKind(d), r.license), Emails(Candidates(dir, r.department));
    PendingIs(t, channels, ExpiryKind(d), r.license);
    RecipientsAre(Candidates(dir, r.department), item.recipient);
    hide Emails, PendingChannels, ReachedAt;
    ItemsForIs(ExpiryKind(d), pending, emails, Message(r.notice), Some(r.license), item);
    hide ItemsFor;
  }

  lemma {:induction false} ItemsForIs(kind: string, channels: seq<string>, emails: seq<string>, body: Body,
                                      license: Option<nat>, item: Item)
    ensures item in ItemsFor(kind, channels, emails, body, license) <==>
              && item.kind == kind && item.body == body && item.license == license
              && item.channel in channels && item.recipient in emails
  {
    if channels != [] {
      var init, last := channels[..|channels| - 1], channels[|channels| - 1];
      ItemsForIs(kind, init, emails, body, license, item);
      ItemsForLast(kind, channels, emails, body, license);
      ItemsOnIs(kind, last, emails, body, license, item);
      assert forall c :: c in channels <==> c in init || c == last;
      hide ItemsFor, ItemsOn;
    }
  }

  lemma ItemsOnIs(kind: string, channel: string, emails: seq<string>, body: Body, license: Option<nat>, item: Item)
    ensures item in ItemsOn(kind, channel, emails, body, license) <==>
              item.kind == kind && item.channel == channel && item.recipient in emails && item.body == body && item.license == license
  {
    var items := ItemsOn(kind, channel, emails, body, license);
    if item.recipient in emails {
      var k :| 0 <= k < |emails| && emails[k] == item.recipient;
      assert items[k] == Item(kind, channel, item.recipient, body, license);
    }
  }

  lemma {:induction false} RowsPlanIs(t: Table, dir: Directory, channels: seq<string>, d: nat, rows: seq<Expiring>, item: Item)
    ensures item in RowsPlan(t, dir, channels, d, rows) <==> exists r | r in rows :: DueNotice(t, dir, channels, d, r, item)
  {
    hide DueNotice, LicensePlan;
    if rows != [] {
      var init, last := rows[..|rows| - 1], rows[|rows| - 1];
      RowsPlanIs(t, dir, channels, d, init, item);
      LicensePlanIs(t, dir, channels, d, last, item);
      assert forall r :: r in rows <==> r in init || r == last;
    }
  }

  /** A run plans exactly the notices that are due. */
  lemma {:induction false} NoticesAre(t: Table, dir: Directory, channels: seq<string>, days: seq<nat>, item: Item)
    ensures item in ExpiryPlan(t, dir, channels, days) <==>
              exists d, r | d in days && r in dir.expiring(d) :: DueNotice(t, dir, channels, d, r, item)
  {
    hide DueNotice, RowsPlan;
    if days != [] {
      var init, last := days[..|days| - 1], days[|days| - 1];
      NoticesAre(t, dir, channels, init, item);
      RowsPlanIs(t, dir, channels, last, dir.expiring(last), item);
      assert forall d :: d in days <==> d in init || d == last;
    }
  }

  // ---- summaries ----

  /** A summary was created on day `d`. */
  ghost predicate SummarizedOn(t: Table, d: nat) {
    exists i | i in t :: t[i].kind == SUMMARY && d * DAY <= t[i].createdAt < (d + 1) * DAY
  }

  /** Given up, and no summary created since then was sent. */
  ghost predicate Waiting(t: Table, g: nat)
    requires g in t
  {
    && t[g].status == GaveUp && t[g].kind != SUMMARY && t[g].lastAttemptedAt.Some? && t[g].lastAttemptedAt.value > 0
    && forall s | s in t && t[s].kind == SUMMARY && t[s].createdAt >= t[g].lastAttemptedAt.value :: t[s].status != Sent
  }

  lemma SummaryTestsAre(t: Table, d: nat)
    ensures SummaryOnDay(t, d) <==> SummarizedOn(t, d)
    ensures forall g :: g in UnsummarizedGaveUp(t) <==> g in t && Waiting(t, g)
  {
    forall i | i in t
      ensures t[i].createdAt / DAY == d <==> d * DAY <= t[i].createdAt < (d + 1) * DAY
    {
      DayIs(t[i].createdAt, d);
    }
  }

  lemma DayIs(at: nat, d: nat)
    ensures at / DAY == d <==> d * DAY <= at < (d + 1) * DAY
  {
  }

  /** The records from `from` on are one summary for every channel and address, and list all that waits. */
  ghost predicate SummariesFrom(t: Table, t': Table, from: nat, next: nat, channels: seq<string>, emails: seq<string>) {
    && from + |channels| * |emails| == next
    && (forall j: nat | from <= j < next :: j in t' && SummaryOf(t, t'[j], channels, emails))
    && (forall c, e | c in channels && e in emails :: exists j: nat :: from <= j < next && IsTo(t', j, c, e))
    && (Distinct(channels) && Distinct(emails) ==>
          forall c, e, j: nat, k: nat | from <= j < k < next :: !(IsTo(t', j, c, e) && IsTo(t', k, c, e)))
  }

  ghost predicate SummaryOf(t: Table, n: Notification, channels: seq<string>, emails: seq<string>) {
    && n.kind == SUMMARY && n.license == None && n.channel in channels && n.recipient in emails
    && n.body.Listing? && forall g :: g in n.body.ids <==> g in t && Waiting(t, g)
  }

  predicate IsTo(t: Table, j: nat, c: string, e: string) {
    j in t && t[j].channel == c && t[j].recipient == e
  }

  lemma SummaryItems(t: Table, dir: Directory, channels: seq<string>, today: nat)
    ensures var items := SummaryPlan(t, dir, channels, today);
            if SummarizedOn(t, today) || (forall g | g in t :: !Waiting(t, g)) then items == []
            else items == ItemsFor(SUMMARY, channels, Emails(dir.admins), Listing(UnsummarizedGaveUp(t)), None)
  {
    SummaryTestsAre(t, today);
    hide UnsummarizedGaveUp, SummaryOnDay, SummarizedOn, Waiting, ItemsFor;
    if UnsummarizedGaveUp(t) == {} {
      assert forall g :: g !in UnsummarizedGaveUp(t);
    } else {
      var g :| g in UnsummarizedGaveUp(t);
    }
  }

  lemma RecordsOf(t: Table, next: nat, items: seq<Item>, env: Env)
    ensures forall j: nat | next <= j < next + |items| ::
              j in Deliveries(t, next, items, env)
              && Deliveries(t, next, items, env)[j] == Recorded(ItemAt(items, next, j), j, env)
    ensures forall j | j in Deliveries(t, next, items, env) && j !in t :: next <= j < next + |items|
    ensures forall j: nat | next <= j < next + |items| :: ItemAt(items, next, j) in items
  {
  }

  ghost predicate RecordedFrom(t: Table, from: nat, items: seq<Item>, env: Env) {
    forall j: nat | from <= j < from + |items| :: j in t && t[j] == Recorded(ItemAt(items, from, j), j, env)
  }

  lemma SummaryBlock(t: Table, t': Table, from: nat, items: seq<Item>, channels: seq<string>, emails: seq<string>, env: Env)
    requires items == ItemsFor(SUMMARY, channels, emails, Listing(UnsummarizedGaveUp(t)), None)
    requires RecordedFrom(t', from, items, env)
    ensures SummariesFrom(t, t', from, from + |items|, channels, emails)
  {
    var listing := Listing(UnsummarizedGaveUp(t));
    ItemsForAre(SUMMARY, channels, emails, listing, None);
    SummaryTestsAre(t, 0);
    hide ItemsFor, UnsummarizedGaveUp, Waiting;
    forall j: nat | from <= j < from + |items|
      ensures j in t' && SummaryOf(t, t'[j], channels, emails)
    {
      assert ItemAt(items, from, j) in items;
    }
    forall c, e | c in channels && e in emails
      ensures exists j: nat :: from <= j < from + |items| && IsTo(t', j, c, e)
    {
      var item := Item(SUMMARY, c, e, listing, None);
      ItemsForIs(SUMMARY, channels, emails, listing, None, item);
      var k :| 0 <= k < |items| && items[k] == item;
      assert ItemAt(items, from, from + k) == item;
      assert IsTo(t', from + k, c, e);
    }
    if Distinct(channels) && Distinct(emails) {
      SummariesDiffer(t', from, items, channels, emails, listing, env);
    }
  }

  lemma SummariesDiffer(t': Table, from: nat, items: seq<Item>, channels: seq<string>, emails: seq<string>, listing: Body, env: Env)
    requires items == ItemsFor(SUMMARY, channels, emails, listing, None) && RecordedFrom(t', from, items, env)
    requires Distinct(channels) && Distinct(emails)
    ensures forall c, e, j: nat, k: nat | from <= j < k < from + |items| :: !(IsTo(t', j, c, e) && IsTo(t', k, c, e))
  {
    ItemsForAre(SUMMARY, channels, emails, listing, None);
    TwinFreeFor(SUMMARY, channels, emails, listing, None);
    assert TwinFree(items);
    hide ItemsFor, Distinct;
    forall c, e, j: nat, k: nat | from <= j < k < from + |items|
      ensures !(IsTo(t', j, c, e) && IsTo(t', k, c, e))
    {
      var x, y := ItemAt(items, from, j), ItemAt(items, from, k);
      assert x in items && y in items;
      assert EventOf(x) != EventOf(y);
    }
  }

  ghost predicate NoSummaryAdded(t: Table, t': Table) {
    forall j | j in t' && j !in t :: t'[j].kind != SUMMARY
  }

  lemma NoticesAddNoSummary(t: Table, next: nat, items: seq<Item>, env: Env)
    requires forall item | item in items :: item.kind != SUMMARY
    ensures NoSummaryAdded(t, Deliveries(t, next, items, env))
    ensures forall j: nat | next <= j < next + |items| ::
              j in Deliveries(t, next, items, env) && Deliveries(t, next, items, env)[j].kind != SUMMARY
  {
    RecordsOf(t, next, items, env);
    hide Deliveries;
  }

  /** What a run records first does not change with what it records after that. */
  lemma FirstRecords(t: Table, next: nat, first: seq<Item>, second: seq<Item>, env: Env)
    ensures forall j: nat | next <= j < next + |first| ::
              j in Deliveries(t, next, first, env) && j in Deliveries(t, next, first + second, env)
              && Deliveries(t, next, first + second, env)[j] == Deliveries(t, next, first, env)[j]
    ensures RecordedFrom(Deliveries(t, next, first + second, env), next + |first|, second, env)
  {
    forall j: nat | next <= j < next + |first|
      ensures ItemAt(first + second, next, j) == ItemAt(first, next, j)
    {
    }
    forall j: nat | next + |first| <= j < next + |first| + |second|
      ensures ItemAt(first + second, next, j) == ItemAt(second, next + |first|, j)
    {
    }
  }

  /**
   A run on a day that has a summary, or with nothing waiting, creates none, complete or broken off. Any
   other complete run creates exactly one for every channel and address.
   */
  lemma SummariesAre(b: Books, dir: Directory, channels: seq<string>, days: seq<nat>, today: nat, done: seq<Item>, env: Env)
    requires done <= Plan(b.table, dir, channels, days, today)
    ensures SummarizedOn(b.table, today) || NobodyWaits(b.table) ==> NoSummaryAdded(b.table, Apply(b, done, env).table)
    ensures done == Plan(b.table, dir, channels, days, today) && !SummarizedOn(b.table, today) && !NobodyWaits(b.table) ==>
              SummarySent(b, Apply(b, done, env), channels, Emails(dir.admins))
  {
    var t := b.table;
    var notices, summaries := ExpiryPlan(t, dir, channels, days), SummaryPlan(t, dir, channels, today);
    ExpiryPlanItems(t, dir, channels, days);
    SummaryItems(t, dir, channels, today);
    hide ExpiryPlan, SummaryPlan, Deliveries, SummarizedOn, Waiting, SummariesFrom, Emails, NoSummaryAdded, ItemsFor;
    if SummarizedOn(t, today) || NobodyWaits(t) {
      assert done <= notices;
      assert forall item | item in done :: item in notices;
      NoticesAddNoSummary(t, b.next, done, env);
    } else if done == notices + summaries {
      var from := b.next + |notices|;
      NoticesAddNoSummary(t, b.next, notices, env);
      FirstRecords(t, b.next, notices, summaries, env);
      SummaryBlock(t, Deliveries(t, b.next, done, env), from, summaries, channels, Emails(dir.admins), env);
      SummariesSent(b, Apply(b, done, env), from, channels, Emails(dir.admins));
    }
  }

  ghost predicate NobodyWaits(t: Table) {
    forall g | g in t :: !Waiting(t, g)
  }

  /** The run's last records are one summary for every channel and address, and nothing else it recorded is one. */
  ghost predicate SummarySent(b: Books, b': Books, channels: seq<string>, emails: seq<string>) {
    exists from: nat :: b.next <= from && SummariesFrom(b.table, b'.table, from, b'.next, channels, emails)
                        && NoSummaryBetween(b'.table, b.next, from)
  }

  predicate NoSummaryBetween(t: Table, from: nat, to: nat) {
    forall j: nat | from <= j < to :: j in t && t[j].kind != SUMMARY
  }

  lemma SummariesSent(b: Books, b': Books, from: nat, channels: seq<string>, emails: seq<string>)
    requires b.next <= from && SummariesFrom(b.table, b'.table, from, b'.next, channels, emails)
    requires NoSummaryBetween(b'.table, b.next, from)
    ensures SummarySent(b, b', channels, emails)
  {
    hide SummariesFrom, NoSummaryBetween;
  }
}
