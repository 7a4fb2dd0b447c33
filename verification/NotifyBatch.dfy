/** The notify batch: the daily run and the retry run over the notifications table. */
module NotifyBatch {
  import opened Wrappers
  import opened Decimal
  import opened Finite
  import opened Notifications
  import opened NotifyPlan
  import opened NotifyQueries

  datatype Delivery = Accepted | Refused | DbError

  /** Counters of a daily run's summary log. */
  datatype Counters = Counters(detected: nat, wouldSend: nat, sent: nat, failed: nat)

  /** Counters of a retry run's summary log. */
  datatype RetryReport = RetryReport(
    targets: nat, sent: nat, failed: nat, gaveUp: nat, superseded: nat, unknownChannel: nat)

  /** Targets that ended in one of the four outcomes. */
  function Handled(c: RetryReport): nat {
    c.sent + c.failed + c.gaveUp + c.unknownChannel
  }

  function CountAttempt(c: RetryReport, r: Attempt): (c': RetryReport)
    ensures c'.targets == c.targets && c'.superseded == c.superseded
    ensures r != Lost ==> Handled(c') == Handled(c) + 1
  {
    match r
    case Resent => c.(sent := c.sent + 1)
    case StillFailed => c.(failed := c.failed + 1)
    case Abandoned => c.(gaveUp := c.gaveUp + 1)
    case Unconfigured => c.(unknownChannel := c.unknownChannel + 1)
    case Lost => c
  }

  /** How the retry of one record went. */
  datatype Attempt = Resent | StillFailed | Abandoned | Unconfigured | Lost

  /** How the retry of a record goes when its outcome can be taken down. */
  function OutcomeOf(n: Notification, channels: set<string>, limit: nat, ok: bool): Attempt {
    if n.channel !in channels then Unconfigured
    else if ok then Resent
    else if n.retryCount + 1 >= limit then Abandoned
    else StillFailed
  }

  const DEFAULT_MAX_RETRY := 5

  /** No row means the default; anything but a positive integer stops the run before it starts. */
  function ResolveMaxRetry(setting: Option<Option<string>>): Option<nat> {
    match setting
    case None => Some(DEFAULT_MAX_RETRY)
    case Some(None) => None
    case Some(Some(s)) => ParsePositive(s)
  }

  lemma MaxRetryPositive(setting: Option<Option<string>>)
    ensures ResolveMaxRetry(setting).Some? ==> ResolveMaxRetry(setting).value > 0
    ensures forall n: nat | 0 < n < INT64_LIMIT :: ResolveMaxRetry(Some(Some(Itoa(n)))) == Some(n)
    ensures ResolveMaxRetry(None) == Some(5) && ResolveMaxRetry(Some(None)) == None
    ensures forall s, n: nat :: ResolveMaxRetry(Some(Some(s))) == Some(n) <==>
                                  0 < n < INT64_LIMIT && (Numeral(s, n) || (s != "" && s[0] == '+' && Numeral(s[1..], n)))
  {
    forall s, n: nat
      ensures ResolveMaxRetry(Some(Some(s))) == Some(n) <==>
              0 < n < INT64_LIMIT && (Numeral(s, n) || (s != "" && s[0] == '+' && Numeral(s[1..], n)))
    {
      ParsePositiveExact(s, n);
    }
    forall n: nat | 0 < n < INT64_LIMIT
      ensures ResolveMaxRetry(Some(Some(Itoa(n)))) == Some(n)
    {
      ParsePositiveOfItoa(n);
    }
  }

  class Batch {
    var table: Table
    var next: nat
    ghost var listed: set<nat>
    ghost var attempts: map<nat, nat>
    ghost var lost: map<nat, nat>

    constructor ()
      ensures Now() == Books(map[], 0, {}, map[], map[])
      ensures BooksOk(Now(), 1, 0)
    {
      table, next, listed, attempts, lost := map[], 0, {}, map[], map[];
    }

    ghost function Now(): Books
      reads this
    {
      Books(table, next, listed, attempts, lost)
    }

    /** Create the record, send, take down the outcome. Only database errors break off. */
    method Deliver(item: Item, env: Env) returns (r: Delivery)
      modifies this
      ensures env.createFails(old(next)) ==> r == DbError && Now() == old(Now())
      ensures !env.createFails(old(next)) ==>
                && Now() == Apply(old(Now()), [item], env)
                && r == if env.markFails(old(next)) then DbError
                        else if env.ok(old(next)) then Accepted else Refused
    {
      hide Apply;
      if env.createFails(next) {
        return DbError;
      }
      var id := next;
      ApplyOne(Now(), item, env);
      next := next + 1;
      var record := Notification(item.kind, item.channel, item.recipient, item.body, item.license,
                                 Pending, 0, None, None, env.created(id));
      table := table[id := record];
      var accepted := env.ok(id);
      attempts := attempts[id := 1];
      listed := listed + if accepted && item.body.Listing? then item.body.ids else {};
      lost := lost[id := if env.markFails(id) then 1 else 0];
      if env.markFails(id) {
        return DbError;
      }
      if accepted {
        MarkNotificationSent(id, env.attempted(id));
        return Accepted;
      }
      MarkNotificationFailed(id, env.attempted(id));
      return Refused;
    }

    method MarkNotificationSent(id: nat, at: nat)
      requires id in table
      modifies this`table
      ensures table == old(table)[id := old(table)[id].(status := Sent, sentAt := Some(at), lastAttemptedAt := Some(at))]
    {
      table := table[id := table[id].(status := Sent, sentAt := Some(at), lastAttemptedAt := Some(at))];
    }

    /** A failed first send: the retry count stays, it only counts retries. */
    method MarkNotificationFailed(id: nat, at: nat)
      requires id in table
      modifies this`table
      ensures table == old(table)[id := old(table)[id].(status := Failed, lastAttemptedAt := Some(at))]
    {
      table := table[id := table[id].(status := Failed, lastAttemptedAt := Some(at))];
    }

    method IncrementNotificationRetry(id: nat, status: Status, at: nat)
      requires id in table
      modifies this`table
      ensures table == old(table)[id := old(table)[id].(retryCount := old(table)[id].retryCount + 1,
                                                        status := status, lastAttemptedAt := Some(at))]
    {
      table := table[id := table[id].(retryCount := table[id].retryCount + 1,
                                      status := status, lastAttemptedAt := Some(at))];
    }

    /** Send to every address on one channel, or in a dry run only count. */
    method BroadcastOn(kind: string, channel: string, emails: seq<string>, body: Body, license: Option<nat>,
                       env: Env, dryRun: bool, c0: Counters) returns (c: Counters, aborted: bool, ghost done: seq<Item>)
      modifies this
      ensures done <= ItemsOn(kind, channel, emails, body, license)
      ensures Now() == if dryRun then old(Now()) else Apply(old(Now()), done, env)
      ensures !aborted ==> done == ItemsOn(kind, channel, emails, body, license)
      ensures dryRun ==> !aborted
      ensures aborted ==> DbFails(env)
      ensures !aborted ==> Counted(c0, c, |done|, dryRun, env, old(next))
    {
      hide Apply;
      c, done, aborted := c0, [], false;
      ApplyNothing(Now(), env);
      ghost var here := ItemsOn(kind, channel, emails, body, license);
      var j := 0;
      while j < |emails|
        invariant 0 <= j <= |emails| && done == here[..j]
        invariant Now() == if dryRun then old(Now()) else Apply(old(Now()), done, env)
        invariant Counted(c0, c, j, dryRun, env, old(next)) && (!dryRun ==> next == old(next) + j)
      {
        var item := Item(kind, channel, emails[j], body, license);
        assert here[..j + 1] == here[..j] + [item];
        if dryRun {
          c := c.(wouldSend := c.wouldSend + 1);
        } else {
          ApplyAppend(old(Now()), done, [item], env);
          ApplyNext(old(Now()), done + [item], env);
          ghost var id := next;
          var r := Deliver(item, env);
          if r == DbError {
            aborted := true;
            if !env.createFails(id) {
              done := done + [item];
            }
            return;
          }
          if r == Refused {
            c := c.(failed := c.failed + 1);
          } else {
            c := c.(sent := c.sent + 1);
          }
        }
        done := done + [item];
        j := j + 1;
      }
    }

    /** Send to every address on every channel, or in a dry run only count. */
    method Broadcast(kind: string, channels: seq<string>, emails: seq<string>, body: Body, license: Option<nat>,
                     env: Env, dryRun: bool, c0: Counters) returns (c: Counters, aborted: bool, ghost done: seq<Item>)
      modifies this
      ensures done <= ItemsFor(kind, channels, emails, body, license)
      ensures Now() == if dryRun then old(Now()) else Apply(old(Now()), done, env)
      ensures !aborted ==> done == ItemsFor(kind, channels, emails, body, license)
      ensures dryRun ==> !aborted
      ensures aborted ==> DbFails(env)
      ensures !aborted ==> Counted(c0, c, |done|, dryRun, env, old(next))
    {
      hide Apply, ItemsOn;
      c, done, aborted := c0, [], false;
      ApplyNothing(Now(), env);
      var i := 0;
      while i < |channels|
        invariant 0 <= i <= |channels|
        invariant done == ItemsFor(kind, channels[..i], emails, body, license)
        invariant Now() == if dryRun then old(Now()) else Apply(old(Now()), done, env)
        invariant Counted(c0, c, |done|, dryRun, env, old(next)) && (!dryRun ==> next == old(next) + |done|)
      {
        assert channels[..i + 1][..i] == channels[..i];
        ItemsForPrefix(kind, channels, emails, body, license, i + 1);
        ghost var more;
        c, aborted, more := BroadcastOn(kind, channels[i], emails, body, license, env, dryRun, c);
        if !dryRun {
          ApplyAppend(old(Now()), done, more, env);
          ApplyNext(old(Now()), done + more, env);
        }
        OkIdsJoin(env, old(next), |done|, |more|);
        PrefixAfter(done, more, ItemsOn(kind, channels[i], emails, body, license),
                    ItemsFor(kind, channels, emails, body, license));
        done := done + more;
        if aborted {
          return;
        }
        i := i + 1;
      }
      assert channels[..i] == channels;
    }

    /** Channels on which nothing was sent for this event yet. */
    method UnreachedChannels(channels: seq<string>, kind: string, license: nat) returns (pending: seq<string>)
      ensures pending == PendingChannels(table, channels, kind, license)
    {
      pending := [];
      for i := 0 to |channels|
        invariant pending == PendingChannels(table, channels[..i], kind, license)
      {
        assert channels[..i + 1][..i] == channels[..i];
        if !Delivered(table, kind, channels[i], license) {
          pending := pending + [channels[i]];
        }
      }
      assert channels[..|channels|] == channels;
    }

    method ResolveDeptRecipients(dir: Directory, department: nat) returns (emails: seq<string>, skipped: nat)
      ensures emails == Emails(Candidates(dir, department))
      ensures dir.managers(department) != [] ==>
                forall e :: e in emails <==> exists c | c in dir.managers(department) :: ReachedAt(c, e)
      ensures dir.managers(department) == [] ==> forall e :: e in emails <==> exists c | c in dir.admins :: ReachedAt(c, e)
      ensures skipped == if Candidates(dir, department) == [] then 1 else |Candidates(dir, department)| - |emails|
    {
      var cands := dir.managers(department);
      if cands == [] {
        cands := dir.admins;
      }
      assert cands == Candidates(dir, department);
      RecipientsOf(cands);
      if cands == [] {
        return [], 1;
      }
      emails, skipped := [], 0;
      for i := 0 to |cands|
        invariant emails == Emails(cands[..i]) && skipped == i - |emails|
      {
        assert cands[..i + 1][..i] == cands[..i];
        var email := PickEmail(cands[i]);
        if email == "" {
          skipped := skipped + 1;
        } else {
          emails := emails + [email];
        }
      }
      assert cands[..|cands|] == cands;
    }

    method NotifyLicense(row: Expiring, days: nat, dir: Directory, channels: seq<string>, env: Env, dryRun: bool,
                         c0: Counters) returns (c: Counters, aborted: bool, ghost done: seq<Item>)
      modifies this
      ensures done <= LicensePlan(old(table), dir, channels, days, row)
      ensures Now() == if dryRun then old(Now()) else Apply(old(Now()), done, env)
      ensures dryRun ==> !aborted
      ensures aborted ==> DbFails(env)
      ensures !aborted ==> done == LicensePlan(old(table), dir, channels, days, row)
      ensures !aborted ==> Counted(c0.(detected := c0.detected + 1), c, |done|, dryRun, env, old(next))
    {
      hide Apply;
      c, aborted, done := c0.(detected := c0.detected + 1), false, [];
      var kind := ExpiryKind(days);
      var pending := UnreachedChannels(channels, kind, row.license);
      ApplyNothing(Now(), env);
      if pending == [] {
        return;
      }
      var emails, skipped := ResolveDeptRecipients(dir, row.department);
      c, aborted, done := Broadcast(kind, pending, emails, Message(row.notice), Some(row.license), env, dryRun, c);
    }

    method AdminEmails(dir: Directory) returns (emails: seq<string>)
      ensures emails == Emails(dir.admins)
    {
      emails := [];
      for i := 0 to |dir.admins|
        invariant emails == Emails(dir.admins[..i])
      {
        assert dir.admins[..i + 1][..i] == dir.admins[..i];
        var email := PickEmail(dir.admins[i]);
        if email != "" {
          emails := emails + [email];
        }
      }
      assert dir.admins[..|dir.admins|] == dir.admins;
    }

    /** One summary a day, to every system admin, listing all that is unsummarized. */
    method SendGaveUpSummary(dir: Directory, channels: seq<string>, today: nat, env: Env, dryRun: bool, c0: Counters)
      returns (c: Counters, aborted: bool, ghost done: seq<Item>)
      modifies this
      ensures done <= SummaryPlan(old(table), dir, channels, today)
      ensures Now() == if dryRun then old(Now()) else Apply(old(Now()), done, env)
      ensures dryRun ==> !aborted
      ensures aborted ==> DbFails(env)
      ensures !aborted ==> done == SummaryPlan(old(table), dir, channels, today)
      ensures !aborted ==> Counted(c0, c, |done|, dryRun, env, old(next))
      ensures !dryRun && (SummarizedOn(old(table), today) || NobodyWaits(old(table))) ==> NoSummaryAdded(old(table), table)
      ensures !dryRun && !aborted && !SummarizedOn(old(table), today) && !NobodyWaits(old(table)) ==>
                SummarySent(old(Now()), Now(), channels, Emails(dir.admins))
    {
      hide Apply, SummarizedOn, NobodyWaits, NoSummaryAdded, SummarySent;
      SummaryAlone(Now(), dir, channels, today, env);
      c, aborted, done := c0, false, [];
      ApplyNothing(Now(), env);
      var rows := UnsummarizedGaveUp(table);
      if rows == {} || SummaryOnDay(table, today) {
        return;
      }
      var emails := AdminEmails(dir);
      if emails == [] {
        ItemsForAre(SUMMARY, channels, emails, Listing(rows), None);
        return;
      }
      c, aborted, done := Broadcast(SUMMARY, channels, emails, Listing(rows), None, env, dryRun, c);
    }

    /** The licenses that expire in `days[n]` days, after the notices for the days before. */
    method NotifyDay(channels: seq<string>, days: seq<nat>, n: nat, dir: Directory, env: Env, dryRun: bool, c0: Counters,
                     ghost start: Books, ghost base: seq<Item>) returns (c: Counters, aborted: bool, ghost done: seq<Item>)
      requires DirectoryOk(dir) && n < |days|
      requires forall i, j | 0 <= i < j < |days| :: days[i] != days[j]
      requires forall i | i in start.table :: i < start.next
      requires base == ExpiryPlan(start.table, dir, channels, days[..n])
      requires Now() == if dryRun then start else Apply(start, base, env)
      requires CountedFromZero(c0, |base|, dryRun, env, start.next)
      modifies this
      ensures Now() == if dryRun then start else Apply(start, done, env)
      ensures dryRun ==> !aborted
      ensures aborted ==> DbFails(env)
      ensures !aborted ==> done == ExpiryPlan(start.table, dir, channels, days[..n + 1])
      ensures aborted ==> forall today :: done <= Plan(start.table, dir, channels, days, today)
      ensures !aborted ==> CountedFromZero(c, |done|, dryRun, env, start.next)
      ensures !aborted ==> c.detected == c0.detected + |dir.expiring(days[n])|
    {
      hide Apply, Plan, ExpiryPlan, RowsPlan, LicensePlan, SummaryPlan, DirectoryOk, DbFails, CountedFromZero, Counted,
           Detected, NewWith, SummarizedOn, NobodyWaits, NoSummaryAdded, SummarySent, Emails;
      c, aborted, done := c0, false, base;
      var rows := dir.expiring(days[n]);
      NoRows(start.table, dir, channels, days[n], rows, base);
      var k := 0;
      while k < |rows|
        invariant 0 <= k <= |rows|
        invariant done == base + RowsPlan(start.table, dir, channels, days[n], rows[..k])
        invariant Now() == if dryRun then start else Apply(start, done, env)
        invariant CountedFromZero(c, |done|, dryRun, env, start.next)
        invariant c.detected == c0.detected + k
      {
        ghost var counted, more := c, [];
        if !dryRun {
          RowPlanStable(start, dir, channels, days, n, k, env);
          ApplyNext(start, done, env);
        }
        c, aborted, more := NotifyLicense(rows[k], days[n], dir, channels, env, dryRun, c);
        if !dryRun {
          ApplyAppend(start, done, more, env);
        }
        if aborted {
          forall today
            ensures done + more <= Plan(start.table, dir, channels, days, today)
          {
            WithinPlan(start.table, dir, channels, days, today, n, k, more);
          }
        } else {
          CountLicense(counted, c, |done|, |more|, dryRun, env, start.next);
          RowsPlanStep(start.table, dir, channels, days[n], rows, k);
        }
        done := done + more;
        if aborted {
          return;
        }
        k := k + 1;
      }
      assert rows[..k] == rows;
      ExpiryPlanStep(start.table, dir, channels, days, n);
    }

    /**
     The daily run. A real run that is not broken off delivers exactly the plan of the table it started
     on, whatever the outcomes of its sends; a dry run counts that same plan.
     */
    method NotifyAll(channels: seq<string>, days: seq<nat>, dir: Directory, today: nat, env: Env, dryRun: bool)
      returns (c: Counters, aborted: bool, ghost done: seq<Item>)
      requires DirectoryOk(dir)
      requires forall i, j | 0 <= i < j < |days| :: days[i] != days[j]
      requires forall i | i in table :: i < next
      modifies this
      ensures done <= Plan(old(table), dir, channels, days, today)
      ensures dryRun ==> Now() == old(Now()) && !aborted
      ensures dryRun ==> c.wouldSend == |Plan(old(table), dir, channels, days, today)| && c.sent == c.failed == 0
      ensures !dryRun ==> Now() == Apply(old(Now()), done, env)
      ensures !dryRun && !aborted ==>
                && done == Plan(old(table), dir, channels, days, today)
                && c.sent + c.failed == |Plan(old(table), dir, channels, days, today)| == next - old(next)
                && c.wouldSend == 0
                && c.sent == |NewWith(table, old(next), next, Sent)| && c.failed == |NewWith(table, old(next), next, Failed)|
      ensures !aborted ==> c.detected == Detected(dir, days)
      ensures aborted ==> DbFails(env)
      ensures !dryRun && (SummarizedOn(old(table), today) || NobodyWaits(old(table))) ==> NoSummaryAdded(old(table), table)
      ensures !dryRun && !aborted && !SummarizedOn(old(table), today) && !NobodyWaits(old(table)) ==>
                SummarySent(old(Now()), Now(), channels, Emails(dir.admins))
    {
      hide Apply, Plan, ExpiryPlan, RowsPlan, LicensePlan, SummaryPlan, DirectoryOk, DbFails, CountedFromZero, Counted,
           Detected, NewWith, SummarizedOn, NobodyWaits, NoSummaryAdded, SummarySent, Emails;
      c, aborted, done := Counters(0, 0, 0, 0), false, [];
      ApplyNothing(Now(), env);
      ghost var start := Now();
      CountNothing(dir, dryRun, env, next);
      NoDays(start.table, dir, channels, days);
      var n := 0;
      while n < |days|
        invariant 0 <= n <= |days|
        invariant done == ExpiryPlan(start.table, dir, channels, days[..n])
        invariant Now() == if dryRun then start else Apply(start, done, env)
        invariant CountedFromZero(c, |done|, dryRun, env, start.next)
        invariant c.detected == Detected(dir, days[..n])
      {
        c, aborted, done := NotifyDay(channels, days, n, dir, env, dryRun, c, start, done);
        if aborted {
          SummariesAre(start, dir, channels, days, today, done, env);
          return;
        }
        DetectedStep(dir, days, n);
        n := n + 1;
      }
      assert days[..n] == days;
      ghost var counted := c;
      if !dryRun {
        SummaryStable(start, dir, channels, days, today, env);
        ApplyNext(start, done, env);
      }
      PlanSplit(start.table, dir, channels, days, today);
      ghost var more;
      c, aborted, more := SendGaveUpSummary(dir, channels, today, env, dryRun, c);
      if !dryRun {
        ApplyAppend(start, done, more, env);
        ApplyNext(start, done + more, env);
      }
      if !aborted {
        CountSummary(counted, c, |done|, |more|, dryRun, env, start.next);
        CountEnds(start, done + more, c, dryRun, env);
      }
      done := done + more;
      SummariesAre(start, dir, channels, days, today, done, env);
    }

    /** Send record `i` once more and take down the outcome. */
    method Resend(i: nat, limit: nat, env: Env) returns (r: Attempt)
      requires i in table && i in attempts && i in lost
      modifies this
      ensures r == Lost <==> env.markFails(i)
      ensures Now() == if env.markFails(i) then LostAttempt(old(Now()), i) else Attempted(old(Now()), limit, env, i)
      ensures r == Resent ==> table[i].status == Sent
      ensures r == StillFailed ==> table[i].status == Failed
      ensures r == Abandoned ==> table[i].status == GaveUp
      ensures r != Unconfigured
      ensures r != Lost ==> forall channels | old(table)[i].channel in channels ::
                              r == OutcomeOf(old(table)[i], channels, limit, env.ok(i))
    {
      var accepted := env.ok(i);
      attempts := attempts[i := attempts[i] + 1];
      if env.markFails(i) {
        lost := lost[i := lost[i] + 1];
        return Lost;
      }
      if accepted {
        listed := listed + if table[i].body.Listing? then table[i].body.ids else {};
        MarkNotificationSent(i, env.attempted(i));
        return Resent;
      }
      var status := if table[i].retryCount + 1 >= limit then GaveUp else Failed;
      IncrementNotificationRetry(i, status, env.attempted(i));
      return if status == GaveUp then Abandoned else StillFailed;
    }

    /** One target of the retry run: skipped when its channel is no longer configured. */
    method RetryOne(i: nat, channels: set<string>, limit: nat, env: Env, ghost start: Books, ghost done: set<nat>)
      returns (r: Attempt)
      requires i in start.table && i !in done && i in start.attempts && i in start.lost
      requires Now() == ApplyRetry(start, done, {}, channels, limit, env)
      modifies this
      ensures r == Unconfigured <==> start.table[i].channel !in channels
      ensures r == Lost ==> env.markFails(i) && Now() == ApplyRetry(start, done, {i}, channels, limit, env)
      ensures r != Lost ==> Now() == ApplyRetry(start, done + {i}, {}, channels, limit, env)
      ensures r != Lost ==> r == OutcomeOf(start.table[i], channels, limit, env.ok(i))
      ensures r == Resent ==> i in table && table[i].status == Sent
      ensures r == StillFailed ==> i in table && table[i].status == Failed
      ensures r == Abandoned ==> i in table && table[i].status == GaveUp
    {
      ghost var b0 := Now();
      RetriedFrame(start, done, channels, limit, env, i);
      RetriedStep(start, b0, done, channels, limit, env, i);
      hide ApplyRetry, Attempted, LostAttempt;
      if table[i].channel !in channels {
        return Unconfigured;
      }
      LostStep(start, b0, done, channels, limit, env, i);
      r := Resend(i, limit, env);
      AttemptKeys(b0, limit, env, i);
    }

    /** Try every listed target once more; breaks off at the first outcome it fails to take down. */
    method WorkThrough(targets: set<nat>, channels: set<string>, limit: nat, env: Env, c0: RetryReport)
      returns (c: RetryReport, aborted: bool, ghost done: set<nat>, ghost stuck: set<nat>)
      requires targets <= table.Keys && targets <= attempts.Keys && targets <= lost.Keys
      modifies this
      ensures done <= targets && stuck <= targets && done !! stuck
      ensures Now() == ApplyRetry(old(Now()), done, stuck, channels, limit, env)
      ensures aborted ==> exists i :: env.markFails(i)
      ensures !aborted ==> done == targets && stuck == {}
      ensures !aborted ==> c.targets == c0.targets && c.superseded == c0.superseded
      ensures !aborted ==> Handled(c) == Handled(c0) + |targets|
      ensures !aborted ==> TalliesAre(c0, c, old(table), targets, channels, limit, env)
    {
      TallyNothing(table, channels, limit, env, c0);
      c, done, stuck := c0, {}, {};
      aborted := false;
      RetryNothing(Now(), channels, limit, env);
      hide ApplyRetry, Handled, CountAttempt, TalliesAre, OutcomeOf;
      ghost var start := Now();
      var todo := targets;
      while todo != {}
        invariant done + todo == targets && done !! todo
        invariant Now() == ApplyRetry(start, done, {}, channels, limit, env)
        invariant c.targets == c0.targets && c.superseded == c0.superseded
        invariant Handled(c) + |todo| == Handled(c0) + |targets|
        invariant TalliesAre(c0, c, start.table, done, channels, limit, env)
        decreases todo
      {
        var i :| i in todo;
        var r := RetryOne(i, channels, limit, env, start, done);
        if r == Lost {
          stuck, aborted := {i}, true;
          assert env.markFails(i);
          return;
        }
        MoveOne(done, todo, i);
        TalliesStep(c0, c, start.table, done, channels, limit, env, i);
        done, todo := done + {i}, todo - {i};
        c := CountAttempt(c, r);
      }
      assert done == targets;
    }

    /**
     The retry run: every failed record below the limit whose event nobody has sent yet gets one more
     attempt on its own channel; records of unconfigured channels stay as they are.
     */
    method RetryAll(channels: set<string>, setting: Option<Option<string>>, env: Env, dryRun: bool)
      returns (report: Option<RetryReport>, ghost done: set<nat>, ghost stuck: set<nat>)
      requires table.Keys <= attempts.Keys && table.Keys <= lost.Keys
      modifies this
      ensures ResolveMaxRetry(setting).None? || dryRun ==> Now() == old(Now()) && done == stuck == {}
      ensures ResolveMaxRetry(setting).Some? ==>
                RetryStep(old(Now()), Now(), ResolveMaxRetry(setting).value, done, stuck, channels, env)
      ensures report.None? ==> ResolveMaxRetry(setting).None? || (exists i :: env.markFails(i))
      ensures report.Some? ==> ResolveMaxRetry(setting).Some?
      ensures report.Some? && !dryRun ==>
                stuck == {} && done == RetryTargets(old(table), ResolveMaxRetry(setting).value)
      ensures report.Some? ==>
                && report.value.targets == |RetryTargets(old(table), ResolveMaxRetry(setting).value)|
                && report.value.superseded == |SupersededTargets(old(table), ResolveMaxRetry(setting).value)|
                && (!dryRun ==> report.value.targets == Handled(report.value))
      ensures report.Some? && !dryRun ==>
                && report.value.sent == |Turned(old(table), table, Sent)|
                && report.value.gaveUp == |Turned(old(table), table, GaveUp)|
                && report.value.failed == |TriedAgain(old(table), table)|
                && report.value.unknownChannel == |set i | i in old(table) && Unreachable(old(table), channels,
                                                                                ResolveMaxRetry(setting).value, i)|
      ensures report.Some? && !dryRun ==> DueTried(old(table), table, channels, ResolveMaxRetry(setting).value, env)
    {
      var resolved := ResolveMaxRetry(setting);
      if resolved.None? {
        return None, {}, {};
      }
      var limit := resolved.value;
      var targets := RetryTargets(table, limit);
      var c := RetryReport(|targets|, 0, 0, 0, |SupersededTargets(table, limit)|, 0);
      RetryNothing(Now(), channels, limit, env);
      TargetsRetryable(table, limit);
      RetryExact(table, channels, limit, env);
      RetryWritesTable(Now(), targets, channels, limit, env);
      ReportIs(table, channels, limit, env);
      hide TalliesAre, Turned, TriedAgain, Unreachable, Tally;
      hide DueTried, RetriedTable, ApplyRetry, RetryTargets, SupersededTargets, ResolveMaxRetry;
      if dryRun {
        return Some(c), {}, {};
      }
      var aborted;
      c, aborted, done, stuck := WorkThrough(targets, channels, limit, env, c);
      report := if aborted then None else Some(c);
    }
  }

  /** The records of `done` whose retry ends this way. */
  function Tally(t: Table, done: set<nat>, channels: set<string>, limit: nat, env: Env, a: Attempt): set<nat> {
    set i | i in done && i in t && OutcomeOf(t[i], channels, limit, env.ok(i)) == a
  }

  ghost predicate TalliesAre(c0: RetryReport, c: RetryReport, t: Table, done: set<nat>, channels: set<string>, limit: nat, env: Env) {
    && c.sent == c0.sent + |Tally(t, done, channels, limit, env, Resent)|
    && c.failed == c0.failed + |Tally(t, done, channels, limit, env, StillFailed)|
    && c.gaveUp == c0.gaveUp + |Tally(t, done, channels, limit, env, Abandoned)|
    && c.unknownChannel == c0.unknownChannel + |Tally(t, done, channels, limit, env, Unconfigured)|
  }

  lemma TallyNothing(t: Table, channels: set<string>, limit: nat, env: Env, c: RetryReport)
    ensures TalliesAre(c, c, t, {}, channels, limit, env)
  {
    assert forall a :: Tally(t, {}, channels, limit, env, a) == {};
  }

  lemma TallyGrows(t: Table, done: set<nat>, channels: set<string>, limit: nat, env: Env, a: Attempt, i: nat)
    requires i in t && i !in done
    ensures i !in Tally(t, done, channels, limit, env, a)
    ensures Tally(t, done + {i}, channels, limit, env, a) ==
            Tally(t, done, channels, limit, env, a) + if OutcomeOf(t[i], channels, limit, env.ok(i)) == a then {i} else {}
  {
    hide OutcomeOf;
  }

  lemma TallyStep(t: Table, done: set<nat>, channels: set<string>, limit: nat, env: Env, a: Attempt, i: nat)
    requires i in t && i !in done
    ensures |Tally(t, done + {i}, channels, limit, env, a)| ==
            |Tally(t, done, channels, limit, env, a)| + if OutcomeOf(t[i], channels, limit, env.ok(i)) == a then 1 else 0
  {
    hide *;
    TallyGrows(t, done, channels, limit, env, a, i);
  }

  lemma TalliesStep(c0: RetryReport, c: RetryReport, t: Table, done: set<nat>, channels: set<string>, limit: nat, env: Env, i: nat)
    requires TalliesAre(c0, c, t, done, channels, limit, env) && i in t && i !in done
    ensures TalliesAre(c0, CountAttempt(c, OutcomeOf(t[i], channels, limit, env.ok(i))), t, done + {i}, channels, limit, env)
  {
    hide Tally;
    TallyStep(t, done, channels, limit, env, Resent, i);
    TallyStep(t, done, channels, limit, env, StillFailed, i);
    TallyStep(t, done, channels, limit, env, Abandoned, i);
    TallyStep(t, done, channels, limit, env, Unconfigured, i);
  }

  /** The records a run has turned into this status. */
  function Turned(t: Table, t': Table, status: Status): set<nat> {
    set i | i in t && i in t' && t[i].status != status && t'[i].status == status
  }

  /** The records that failed once more and may be tried again. */
  function TriedAgain(t: Table, t': Table): set<nat> {
    set i | i in t && i in t' && t'[i].status == Failed && t'[i].retryCount == t[i].retryCount + 1
  }

  ghost predicate Unreachable(t: Table, channels: set<string>, limit: nat, i: nat)
    requires i in t
  {
    Due(t, limit, i) && t[i].channel !in channels
  }

  /** Each number of the report counts records whose change can be read off the table. */
  lemma ReportIs(t: Table, channels: set<string>, limit: nat, env: Env)
    ensures var targets := RetryTargets(t, limit);
            var t' := RetriedTable(t, targets, channels, limit, env);
            && Tally(t, targets, channels, limit, env, Resent) == Turned(t, t', Sent)
            && Tally(t, targets, channels, limit, env, Abandoned) == Turned(t, t', GaveUp)
            && Tally(t, targets, channels, limit, env, StillFailed) == TriedAgain(t, t')
            && Tally(t, targets, channels, limit, env, Unconfigured) == set i | i in t && Unreachable(t, channels, limit, i)
  {
    RetryCountsAre(t, limit);
    hide Due;
  }

  lemma TargetsRetryable(t: Table, limit: nat)
    ensures forall i | i in RetryTargets(t, limit) :: i in t && t[i].status == Failed && t[i].retryCount < limit
  {
  }

  lemma RetryWritesTable(b: Books, done: set<nat>, channels: set<string>, limit: nat, env: Env)
    ensures ApplyRetry(b, done, {}, channels, limit, env).table == RetriedTable(b.table, done, channels, limit, env)
  {
  }

  lemma RetryNothing(b: Books, channels: set<string>, limit: nat, env: Env)
    ensures ApplyRetry(b, {}, {}, channels, limit, env) == b
  {
  }

  /** One more attempt on record `i`, taken down. */
  function Attempted(b: Books, limit: nat, env: Env, i: nat): Books
    requires i in b.table && i in b.attempts
  {
    var n := b.table[i];
    Books(b.table[i := Retried(n, limit, env.ok(i), env.attempted(i))], b.next,
          b.listed + (if env.ok(i) && n.body.Listing? then n.body.ids else {}),
          b.attempts[i := b.attempts[i] + 1], b.lost)
  }

  /** One more attempt on record `i` whose outcome is lost. */
  function LostAttempt(b: Books, i: nat): Books
    requires i in b.attempts && i in b.lost
  {
    b.(attempts := b.attempts[i := b.attempts[i] + 1], lost := b.lost[i := b.lost[i] + 1])
  }

  /** The books of a retry run that lost no outcome. */
  lemma RetryClean(b: Books, done: set<nat>, channels: set<string>, limit: nat, env: Env)
    ensures ApplyRetry(b, done, {}, channels, limit, env) ==
            Books(RetriedTable(b.table, done, channels, limit, env), b.next,
                  b.listed + RetryListed(b.table, done, channels, env),
                  Tallied(b.attempts, Reached(b.table, done, channels)), b.lost)
  {
  }

  lemma RetriedFrame(b: Books, done: set<nat>, channels: set<string>, limit: nat, env: Env, i: nat)
    requires i in b.table && i !in done && i in b.attempts && i in b.lost
    ensures var b0 := ApplyRetry(b, done, {}, channels, limit, env);
            i in b0.table && i in b0.attempts && i in b0.lost && b0.table[i] == b.table[i]
  {
  }

  /** What working through one more record changes. */
  lemma RetriedStep(b: Books, b0: Books, done: set<nat>, channels: set<string>, limit: nat, env: Env, i: nat)
    requires i in b.table && i !in done && i in b.attempts && i in b.lost
    requires b0 == ApplyRetry(b, done, {}, channels, limit, env)
    requires i in b0.table && i in b0.attempts && b0.table[i] == b.table[i]
    ensures ApplyRetry(b, done + {i}, {}, channels, limit, env) ==
            if b.table[i].channel in channels then Attempted(b0, limit, env, i) else b0
  {
    hide *;
    RetryClean(b, done, channels, limit, env);
    RetryClean(b, done + {i}, channels, limit, env);
    RetriedTableStep(b.table, done, channels, limit, env, i);
    RetryListedStep(b.table, done, channels, env, i);
    ReachedStep(b.table, done, channels, i);
    TalliedStep(b.attempts, Reached(b.table, done, channels), i);
    AttemptedIs(b0, limit, env, i);
    SetsJoin(b.listed, RetryListed(b.table, done, channels, env),
             if env.ok(i) && b.table[i].body.Listing? then b.table[i].body.ids else {});
    SetsJoin(b.listed, RetryListed(b.table, done, channels, env), {});
    SameEntry(b0.table, i);
  }

  lemma SetsJoin(a: set<nat>, b: set<nat>, c: set<nat>)
    ensures a + (b + c) == a + b + c && a + {} == a
  {
  }

  lemma SameEntry(t: Table, i: nat)
    requires i in t
    ensures t[i := t[i]] == t
  {
  }

  lemma AttemptedIs(b: Books, limit: nat, env: Env, i: nat)
    requires i in b.table && i in b.attempts
    ensures Attempted(b, limit, env, i) ==
            Books(b.table[i := Retried(b.table[i], limit, env.ok(i), env.attempted(i))], b.next,
                  b.listed + (if env.ok(i) && b.table[i].body.Listing? then b.table[i].body.ids else {}),
                  b.attempts[i := b.attempts[i] + 1], b.lost)
  {
  }

  lemma LostStep(b: Books, b0: Books, done: set<nat>, channels: set<string>, limit: nat, env: Env, i: nat)
    requires i in b.table && i !in done && i in b.attempts && i in b.lost && b.table[i].channel in channels
    requires b0 == ApplyRetry(b, done, {}, channels, limit, env)
    requires i in b0.attempts && i in b0.lost
    ensures ApplyRetry(b, done, {i}, channels, limit, env) == LostAttempt(b0, i)
  {
    RetryClean(b, done, channels, limit, env);
    hide RetriedTable, RetryListed, Reached, Tallied;
    ReachedStep(b.table, done, channels, i);
    TalliedStep(b.attempts, Reached(b.table, done, channels), i);
    TalliedOne(b.lost, i);
  }

  lemma TalliedOne(m: map<nat, nat>, i: nat)
    requires i in m
    ensures Tallied(m, {i}) == m[i := m[i] + 1]
  {
  }

  lemma AttemptKeys(b: Books, limit: nat, env: Env, i: nat)
    requires i in b.table && i in b.attempts && i in b.lost
    ensures i in Attempted(b, limit, env, i).table && i in LostAttempt(b, i).table
  {
  }

  lemma ReachedStep(t: Table, done: set<nat>, channels: set<string>, i: nat)
    requires i in t && i !in done
    ensures i !in Reached(t, done, channels)
    ensures Reached(t, done + {i}, channels) ==
            if t[i].channel in channels then Reached(t, done, channels) + {i} else Reached(t, done, channels)
    ensures Reached(t, {i}, channels) == if t[i].channel in channels then {i} else {}
    ensures Reached(t, {}, channels) == {}
  {
  }

  lemma TalliedStep(m: map<nat, nat>, ids: set<nat>, i: nat)
    requires i in m && i !in ids
    ensures i in Tallied(m, ids) && Tallied(m, ids + {i}) == Tallied(m, ids)[i := Tallied(m, ids)[i] + 1]
  {
  }

  lemma RetriedTableStep(t: Table, done: set<nat>, channels: set<string>, limit: nat, env: Env, i: nat)
    requires i in t && i !in done
    ensures RetriedTable(t, done + {i}, channels, limit, env) ==
            RetriedTable(t, done, channels, limit, env)[i :=
              if t[i].channel in channels then Retried(t[i], limit, env.ok(i), env.attempted(i)) else t[i]]
    ensures RetriedTable(t, done, channels, limit, env)[i] == t[i]
  {
  }

  lemma RetryListedStep(t: Table, done: set<nat>, channels: set<string>, env: Env, i: nat)
    requires i in t
    ensures RetryListed(t, done + {i}, channels, env) ==
            RetryListed(t, done, channels, env) +
            (if t[i].channel in channels && env.ok(i) && t[i].body.Listing? then t[i].body.ids else {})
  {
  }

  lemma SummaryAlone(b: Books, dir: Directory, channels: seq<string>, today: nat, env: Env)
    ensures forall done | done <= SummaryPlan(b.table, dir, channels, today) ::
              && (SummarizedOn(b.table, today) || NobodyWaits(b.table) ==> NoSummaryAdded(b.table, Apply(b, done, env).table))
              && (done == SummaryPlan(b.table, dir, channels, today) && !SummarizedOn(b.table, today) && !NobodyWaits(b.table) ==>
                    SummarySent(b, Apply(b, done, env), channels, Emails(dir.admins)))
  {
    assert Plan(b.table, dir, channels, [], today) == SummaryPlan(b.table, dir, channels, today);
    hide *;
    forall done | done <= SummaryPlan(b.table, dir, channels, today)
      ensures SummarizedOn(b.table, today) || NobodyWaits(b.table) ==> NoSummaryAdded(b.table, Apply(b, done, env).table)
      ensures done == SummaryPlan(b.table, dir, channels, today) && !SummarizedOn(b.table, today) && !NobodyWaits(b.table) ==>
                SummarySent(b, Apply(b, done, env), channels, Emails(dir.admins))
    {
      SummariesAre(b, dir, channels, [], today, done, env);
    }
  }

  ghost predicate CountedFromZero(c: Counters, n: nat, dryRun: bool, env: Env, from: nat) {
    if dryRun then c.wouldSend == n && c.sent == c.failed == 0
    else
      && c.wouldSend == 0 && c.sent == OkIds(env, from, n) && c.sent + c.failed == n && AllMarked(env, from, n)
  }

  /** How many of the `n` sends from id `from` on are accepted. */
  function OkIds(env: Env, from: nat, n: nat): (k: nat)
    ensures k <= n
  {
    if n == 0 then 0 else OkIds(env, from, n - 1) + if env.ok(from + n - 1) then 1 else 0
  }

  predicate AllMarked(env: Env, from: nat, n: nat) {
    forall i: nat | from <= i < from + n :: !env.markFails(i)
  }

  lemma {:induction false} OkIdsJoin(env: Env, from: nat, m: nat, n: nat)
    ensures OkIds(env, from, m + n) == OkIds(env, from, m) + OkIds(env, from + m, n)
    ensures AllMarked(env, from, m) && AllMarked(env, from + m, n) ==> AllMarked(env, from, m + n)
  {
    if n > 0 {
      OkIdsJoin(env, from, m, n - 1);
    }
  }

  /** The records from `from` up to `to` that ended this way. */
  function NewWith(t: Table, from: nat, to: nat, status: Status): set<nat> {
    set j: nat | from <= j < to && j in t && t[j].status == status
  }

  lemma NewWithStep(t: Table, from: nat, last: nat, status: Status)
    requires from <= last && last in t
    ensures last !in NewWith(t, from, last, status)
    ensures NewWith(t, from, last + 1, status) ==
            NewWith(t, from, last, status) + if t[last].status == status then {last} else {}
  {
  }

  lemma {:induction false} CountStatus(t: Table, env: Env, from: nat, n: nat)
    requires forall j: nat | from <= j < from + n :: j in t && t[j].status == if env.ok(j) then Sent else Failed
    ensures |NewWith(t, from, from + n, Sent)| == OkIds(env, from, n)
    ensures |NewWith(t, from, from + n, Failed)| == n - OkIds(env, from, n)
  {
    if n > 0 {
      var last := from + n - 1;
      CountStatus(t, env, from, n - 1);
      NewWithStep(t, from, last, Sent);
      NewWithStep(t, from, last, Failed);
      hide NewWith;
    }
  }

  /** The counts are those of the records a run left as sent and as failed. */
  lemma OkIdsAre(b: Books, items: seq<Item>, env: Env)
    requires AllMarked(env, b.next, |items|)
    ensures var b' := Apply(b, items, env);
            && |NewWith(b'.table, b.next, b'.next, Sent)| == OkIds(env, b.next, |items|)
            && |NewWith(b'.table, b.next, b'.next, Failed)| == |items| - OkIds(env, b.next, |items|)
  {
    RecordsOf(b.table, b.next, items, env);
    CountStatus(Apply(b, items, env).table, env, b.next, |items|);
  }

  lemma CountLicense(c0: Counters, c: Counters, n: nat, m: nat, dryRun: bool, env: Env, from: nat)
    requires CountedFromZero(c0, n, dryRun, env, from)
    requires Counted(c0.(detected := c0.detected + 1), c, m, dryRun, env, if dryRun then from else from + n)
    ensures CountedFromZero(c, n + m, dryRun, env, from) && c.detected == c0.detected + 1
  {
    OkIdsJoin(env, from, n, m);
  }

  lemma CountSummary(c0: Counters, c: Counters, n: nat, m: nat, dryRun: bool, env: Env, from: nat)
    requires CountedFromZero(c0, n, dryRun, env, from)
    requires Counted(c0, c, m, dryRun, env, if dryRun then from else from + n)
    ensures CountedFromZero(c, n + m, dryRun, env, from) && c.detected == c0.detected
  {
    OkIdsJoin(env, from, n, m);
  }

  lemma CountNothing(dir: Directory, dryRun: bool, env: Env, from: nat)
    ensures CountedFromZero(Counters(0, 0, 0, 0), 0, dryRun, env, from) && Detected(dir, []) == 0
  {
  }

  lemma CountEnds(b: Books, items: seq<Item>, c: Counters, dryRun: bool, env: Env)
    requires CountedFromZero(c, |items|, dryRun, env, b.next)
    ensures dryRun ==> c.wouldSend == |items| && c.sent == c.failed == 0
    ensures !dryRun ==>
              var b' := Apply(b, items, env);
              && c.wouldSend == 0 && c.sent + c.failed == |items|
              && c.sent == |NewWith(b'.table, b.next, b'.next, Sent)|
              && c.failed == |NewWith(b'.table, b.next, b'.next, Failed)|
  {
    if !dryRun {
      OkIdsAre(b, items, env);
    }
  }

  lemma NoRows(t: Table, dir: Directory, channels: seq<string>, d: nat, rows: seq<Expiring>, base: seq<Item>)
    ensures base + RowsPlan(t, dir, channels, d, rows[..0]) == base
  {
  }

  lemma NoDays(t: Table, dir: Directory, channels: seq<string>, days: seq<nat>)
    ensures ExpiryPlan(t, dir, channels, days[..0]) == [] && days[..0] == []
  {
  }

  lemma DetectedStep(dir: Directory, days: seq<nat>, n: nat)
    requires n < |days|
    ensures Detected(dir, days[..n + 1]) == Detected(dir, days[..n]) + |dir.expiring(days[n])|
  {
    assert days[..n + 1][..n] == days[..n];
  }

  function Detected(dir: Directory, days: seq<nat>): nat {
    if days == [] then 0 else Detected(dir, days[..|days| - 1]) + |dir.expiring(days[|days| - 1])|
  }

  lemma ApplyNext(b: Books, items: seq<Item>, env: Env)
    ensures Apply(b, items, env).next == b.next + |items|
  {
  }

  lemma PlanSplit(t: Table, dir: Directory, channels: seq<string>, days: seq<nat>, today: nat)
    ensures Plan(t, dir, channels, days, today) == ExpiryPlan(t, dir, channels, days) + SummaryPlan(t, dir, channels, today)
  {
  }

  /** The next license's plan is the same in the middle of the run as before it. */
  lemma RowPlanStable(start: Books, dir: Directory, channels: seq<string>, days: seq<nat>, n: nat, k: nat, env: Env)
    requires forall i | i in start.table :: i < start.next
    requires DirectoryOk(dir) && n < |days| && k < |dir.expiring(days[n])|
    requires forall i, j | 0 <= i < j < |days| :: days[i] != days[j]
    ensures var d, rows := days[n], dir.expiring(days[n]);
            var done := ExpiryPlan(start.table, dir, channels, days[..n])
                        + RowsPlan(start.table, dir, channels, d, rows[..k]);
            LicensePlan(Apply(start, done, env).table, dir, channels, d, rows[k])
            == LicensePlan(start.table, dir, channels, d, rows[k])
  {
    PlanStable(start.table, start.next, dir, channels, days, n, k, env);
  }

  lemma SummaryStable(start: Books, dir: Directory, channels: seq<string>, days: seq<nat>, today: nat, env: Env)
    requires forall i | i in start.table :: i < start.next
    ensures SummaryPlan(Apply(start, ExpiryPlan(start.table, dir, channels, days), env).table, dir, channels, today)
         == SummaryPlan(start.table, dir, channels, today)
  {
    ExpiryPlanItems(start.table, dir, channels, days);
    NoticesDontSummarize(start.table, start.next, ExpiryPlan(start.table, dir, channels, days), env, today);
  }

  /** However far a daily run gets, what it delivered is a step of the histories that lose no gave-up record. */
  lemma RunIsDailyStep(b: Books, dir: Directory, channels: seq<string>, days: seq<nat>, today: nat,
                       done: seq<Item>, limit: nat, env: Env)
    requires done <= Plan(b.table, dir, channels, days, today)
    ensures DailyStep(b, Apply(b, done, env), limit, done, env)
  {
    hide Plan, Apply, ItemOk;
    PlanIsDaily(b.table, dir, channels, days, today);
    assert forall item | item in done :: item in Plan(b.table, dir, channels, days, today);
  }

  lemma PrefixAfter<T>(done: seq<T>, more: seq<T>, unit: seq<T>, all: seq<T>)
    requires more <= unit && done + unit <= all
    ensures done + more <= all
  {
  }

  lemma NestedPrefix<T>(a: seq<T>, r: seq<T>, more: seq<T>, unit: seq<T>, day: seq<T>, whole: seq<T>,
                        all: seq<T>)
    requires more <= unit && r + unit <= day && a + day <= whole && whole <= all
    ensures a + r + more <= all
  {
  }

  /** Stopping within the k-th license of the n-th day leaves a prefix of the plan delivered. */
  lemma WithinPlan(t: Table, dir: Directory, channels: seq<string>, days: seq<nat>, today: nat, n: nat, k: nat,
                   more: seq<Item>)
    requires n < |days| && k < |dir.expiring(days[n])|
    requires more <= LicensePlan(t, dir, channels, days[n], dir.expiring(days[n])[k])
    ensures ExpiryPlan(t, dir, channels, days[..n])
            + RowsPlan(t, dir, channels, days[n], dir.expiring(days[n])[..k]) + more
            <= Plan(t, dir, channels, days, today)
  {
    hide ExpiryPlan, RowsPlan, LicensePlan, SummaryPlan;
    var d, rows := days[n], dir.expiring(days[n]);
    RowsPlanStep(t, dir, channels, d, rows, k);
    RowsPlanPrefix(t, dir, channels, d, rows, k + 1);
    ExpiryPlanStep(t, dir, channels, days, n);
    ExpiryPlanPrefix(t, dir, channels, days, n + 1);
    NestedPrefix(ExpiryPlan(t, dir, channels, days[..n]), RowsPlan(t, dir, channels, d, rows[..k]), more,
                 LicensePlan(t, dir, channels, d, rows[k]), RowsPlan(t, dir, channels, d, rows),
                 ExpiryPlan(t, dir, channels, days), Plan(t, dir, channels, days, today));
  }

  ghost predicate DbFails(env: Env) {
    exists i :: env.createFails(i) || env.markFails(i)
  }

  /** `n` deliveries were counted on top of `c0`. */
  ghost predicate Counted(c0: Counters, c: Counters, n: nat, dryRun: bool, env: Env, from: nat) {
    && c.detected == c0.detected
    && (dryRun ==> c.wouldSend == c0.wouldSend + n && c.sent == c0.sent && c.failed == c0.failed)
    && (!dryRun ==>
          && c.wouldSend == c0.wouldSend && c.sent == c0.sent + OkIds(env, from, n)
          && c.sent + c.failed == c0.sent + c0.failed + n && AllMarked(env, from, n))
  }

  lemma DeliverOne(t: Table, next: nat, item: Item, env: Env)
    ensures Deliveries(t, next, [item], env) == t[next := Recorded(item, next, env)]
  {
    assert ItemAt([item], next, next) == item;
  }

  lemma ListedOne(next: nat, item: Item, env: Env)
    ensures ListedBy([item], next, env) == if env.ok(next) && item.body.Listing? then item.body.ids else {}
  {
    assert ItemAt([item], next, next) == item;
    if env.ok(next) && item.body.Listing? {
      forall g | g in item.body.ids
        ensures g in ListedBy([item], next, env)
      {
        assert next <= next < next + |[item]| && env.ok(next) && ItemAt([item], next, next).body.Listing?
            && g in ItemAt([item], next, next).body.ids;
      }
    }
  }

  lemma MarkOne(next: nat, env: Env, m: map<nat, nat>)
    ensures m + SentOnce(Ids(next, 1)) == m[next := 1]
    ensures m + LostBy(Ids(next, 1), env) == m[next := if env.markFails(next) then 1 else 0]
  {
  }

  lemma ApplyOne(b: Books, item: Item, env: Env)
    ensures Apply(b, [item], env) ==
            Books(b.table[b.next := Recorded(item, b.next, env)], b.next + 1,
                  b.listed + (if env.ok(b.next) && item.body.Listing? then item.body.ids else {}),
                  b.attempts[b.next := 1], b.lost[b.next := if env.markFails(b.next) then 1 else 0])
  {
    hide Deliveries, ListedBy, SentOnce, LostBy, Ids;
    DeliverOne(b.table, b.next, item, env);
    ListedOne(b.next, item, env);
    MarkOne(b.next, env, b.attempts);
    MarkOne(b.next, env, b.lost);
  }

  lemma {:induction false} ItemsForPrefix(kind: string, channels: seq<string>, emails: seq<string>, body: Body,
                                          license: Option<nat>, k: nat)
    requires k <= |channels|
    ensures ItemsFor(kind, channels[..k], emails, body, license) <= ItemsFor(kind, channels, emails, body, license)
  {
    if k == |channels| {
      assert channels[..k] == channels;
    } else {
      ItemsForPrefix(kind, channels[..|channels| - 1], emails, body, license, k);
      assert channels[..|channels| - 1][..k] == channels[..k];
    }
  }
}
