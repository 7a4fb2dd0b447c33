/**
 When one event is sent more than once. What was taken down as sent is never sent again; what remains are
 twins among the targets of a retry run, twins in the plan of a daily run, and sends whose outcome was lost.
 */
module NotifyOnce {
  import opened Wrappers
  import opened Notifications
  import opened NotifyPlan

  ghost predicate Distinct<T>(s: seq<T>) {
    forall i, j | 0 <= i < j < |s| :: s[i] != s[j]
  }

  // ---- what was taken down as sent is not sent again ----

  predicate ForEvent(n: Notification, item: Item) {
    n.kind == item.kind && n.channel == item.channel && n.recipient == item.recipient && n.license == item.license
  }

  /** Neither batch picks a license's event again while a record of it stands as sent. */
  lemma SentIsNotSentAgain(t: Table, dir: Directory, channels: seq<string>, days: seq<nat>, today: nat, limit: nat, s: nat)
    requires s in t && t[s].status == Sent
    ensures forall i | i in RetryTargets(t, limit) :: !SameEvent(t[s], t[i])
    ensures forall item | item in Plan(t, dir, channels, days, today) && item.license.Some? :: !ForEvent(t[s], item)
  {
    forall item | item in Plan(t, dir, channels, days, today) && item.license.Some?
      ensures !ForEvent(t[s], item)
    {
      ItemsForAre(SUMMARY, channels, Emails(dir.admins), Listing(UnsummarizedGaveUp(t)), None);
      assert item in ExpiryPlan(t, dir, channels, days);
      ExpiryItemsPending(t, dir, channels, days);
    }
  }

  lemma {:induction false} PendingIs(t: Table, channels: seq<string>, kind: string, license: nat)
    ensures forall c :: c in PendingChannels(t, channels, kind, license) <==> c in channels && !Delivered(t, kind, c, license)
    ensures Distinct(channels) ==> Distinct(PendingChannels(t, channels, kind, license))
  {
    if channels != [] {
      var init, last := channels[..|channels| - 1], channels[|channels| - 1];
      PendingIs(t, init, kind, license);
      assert channels == init + [last];
      assert Distinct(channels) ==> last !in init;
    }
  }

  predicate Undelivered(t: Table, item: Item) {
    item.license.Some? && !Delivered(t, item.kind, item.channel, item.license.value)
  }

  lemma {:induction false} RowsItemsPending(t: Table, dir: Directory, channels: seq<string>, days: nat, rows: seq<Expiring>)
    ensures forall item | item in RowsPlan(t, dir, channels, days, rows) :: Undelivered(t, item)
  {
    if rows != [] {
      var r, kind := rows[|rows| - 1], ExpiryKind(days);
      RowsItemsPending(t, dir, channels, days, rows[..|rows| - 1]);
      PendingIs(t, channels, kind, r.license);
      ItemsForAre(kind, PendingChannels(t, channels, kind, r.license), Emails(Candidates(dir, r.department)),
                  Message(r.notice), Some(r.license));
    }
  }

  lemma {:induction false} ExpiryItemsPending(t: Table, dir: Directory, channels: seq<string>, days: seq<nat>)
    ensures forall item | item in ExpiryPlan(t, dir, channels, days) :: Undelivered(t, item)
  {
    if days != [] {
      var d := days[|days| - 1];
      ExpiryItemsPending(t, dir, channels, days[..|days| - 1]);
      RowsItemsPending(t, dir, channels, d, dir.expiring(d));
    }
  }

  // ---- retry runs ----

  predicate NewlySent(t: Table, t': Table, i: nat) {
    i in t && i in t' && t[i].status != Sent && t'[i].status == Sent
  }

  /** The retry run sends at most one record of each event. */
  ghost predicate RetrySendsOnce(t: Table, channels: set<string>, limit: nat, env: Env) {
    var t' := RetriedTable(t, RetryTargets(t, limit), channels, limit, env);
    forall i, j | NewlySent(t, t', i) && NewlySent(t, t', j) && i != j :: !SameEvent(t[i], t[j])
  }

  predicate TwinTargets(t: Table, channels: set<string>, limit: nat, i: nat, j: nat) {
    && i in RetryTargets(t, limit) && j in RetryTargets(t, limit) && i != j
    && SameEvent(t[i], t[j]) && t[i].channel in channels
  }

  function AllAccepted(): Env {
    Env(1, 1, _ => true, _ => false, _ => false, _ => 1, _ => 1)
  }

  /** A retry run sends every event at most once, however its sends end, exactly if it has no twins to send. */
  lemma RetryOnceIff(t: Table, channels: set<string>, limit: nat)
    ensures (forall env: Env :: RetrySendsOnce(t, channels, limit, env))
            <==> forall i, j :: !TwinTargets(t, channels, limit, i, j)
  {
    if i, j :| TwinTargets(t, channels, limit, i, j) {
      var env := AllAccepted();
      var t' := RetriedTable(t, RetryTargets(t, limit), channels, limit, env);
      TwinsAreBothSent(t, channels, limit, env, i, j);
      assert NewlySent(t, t', i) && NewlySent(t, t', j);
      assert !RetrySendsOnce(t, channels, limit, env);
    } else {
      forall env: Env
        ensures RetrySendsOnce(t, channels, limit, env)
      {
        var t' := RetriedTable(t, RetryTargets(t, limit), channels, limit, env);
        forall i, j | NewlySent(t, t', i) && NewlySent(t, t', j) && i != j
          ensures !SameEvent(t[i], t[j])
        {
          assert !TwinTargets(t, channels, limit, i, j);
        }
      }
    }
  }

  // ---- daily runs ----

  function EventOf(item: Item): (string, string, string, Option<nat>) {
    (item.kind, item.channel, item.recipient, item.license)
  }

  ghost predicate TwinFree(items: seq<Item>) {
    forall i, j | 0 <= i < j < |items| :: EventOf(items[i]) != EventOf(items[j])
  }

  lemma TwinFreeJoin(a: seq<Item>, b: seq<Item>)
    requires forall x, y | x in a && y in b :: EventOf(x) != EventOf(y)
    ensures TwinFree(a + b) <==> TwinFree(a) && TwinFree(b)
  {
    var all := a + b;
    assert forall i | 0 <= i < |a| :: all[i] == a[i] && a[i] in a;
    assert forall i | 0 <= i < |b| :: all[|a| + i] == b[i] && b[i] in b;
    if TwinFree(a) && TwinFree(b) {
      forall i, j | 0 <= i < j < |all|
        ensures EventOf(all[i]) != EventOf(all[j])
      {
        assert i >= |a| ==> all[i] == b[i - |a|] && all[j] == b[j - |a|];
        assert j >= |a| ==> all[j] == b[j - |a|];
      }
    }
  }

  lemma TwinFreeOn(kind: string, channel: string, emails: seq<string>, body: Body, license: Option<nat>)
    ensures TwinFree(ItemsOn(kind, channel, emails, body, license)) <==> Distinct(emails)
  {
    var items := ItemsOn(kind, channel, emails, body, license);
    assert forall i | 0 <= i < |emails| :: EventOf(items[i]) == (kind, channel, emails[i], license);
  }

  lemma {:induction false} TwinFreeFor(kind: string, channels: seq<string>, emails: seq<string>, body: Body, license: Option<nat>)
    requires Distinct(channels)
    ensures TwinFree(ItemsFor(kind, channels, emails, body, license)) <==> channels == [] || Distinct(emails)
  {
    if channels != [] {
      var init, last := channels[..|channels| - 1], channels[|channels| - 1];
      TwinFreeFor(kind, init, emails, body, license);
      TwinFreeOn(kind, last, emails, body, license);
      ItemsForAre(kind, init, emails, body, license);
      ItemsOnAre(kind, last, emails, body, license);
      assert last !in init;
      ItemsForLast(kind, channels, emails, body, license);
      hide ItemsFor, ItemsOn;
      TwinFreeJoin(ItemsFor(kind, init, emails, body, license), ItemsOn(kind, last, emails, body, license));
    }
  }

  /** A license with something to send has no address twice. */
  ghost predicate AddressesOk(t: Table, dir: Directory, channels: seq<string>, days: nat, row: Expiring) {
    PendingChannels(t, channels, ExpiryKind(days), row.license) == [] || Distinct(Emails(Candidates(dir, row.department)))
  }

  lemma TwinFreeLicense(t: Table, dir: Directory, channels: seq<string>, days: nat, row: Expiring)
    requires Distinct(channels)
    ensures TwinFree(LicensePlan(t, dir, channels, days, row)) <==> AddressesOk(t, dir, channels, days, row)
    ensures forall item | item in LicensePlan(t, dir, channels, days, row) :: item.license == Some(row.license)
  {
    var pending := PendingChannels(t, channels, ExpiryKind(days), row.license);
    PendingIs(t, channels, ExpiryKind(days), row.license);
    TwinFreeFor(ExpiryKind(days), pending, Emails(Candidates(dir, row.department)), Message(row.notice), Some(row.license));
    ItemsForAre(ExpiryKind(days), pending, Emails(Candidates(dir, row.department)), Message(row.notice), Some(row.license));
  }

  ghost predicate RowsOk(t: Table, dir: Directory, channels: seq<string>, days: nat, rows: seq<Expiring>) {
    forall r | r in rows :: AddressesOk(t, dir, channels, days, r)
  }

  lemma RowsOkStep(t: Table, dir: Directory, channels: seq<string>, days: nat, init: seq<Expiring>, row: Expiring)
    ensures RowsOk(t, dir, channels, days, init + [row]) <==>
              RowsOk(t, dir, channels, days, init) && AddressesOk(t, dir, channels, days, row)
  {
    hide AddressesOk;
    assert forall r :: r in init + [row] <==> r in init || r == row;
  }

  predicate OncePerLicense(rows: seq<Expiring>) {
    forall i, j | 0 <= i < j < |rows| :: rows[i].license != rows[j].license
  }

  lemma RowsApart(t: Table, dir: Directory, channels: seq<string>, days: nat, init: seq<Expiring>, row: Expiring)
    requires forall r | r in init :: r.license != row.license
    requires forall y | y in LicensePlan(t, dir, channels, days, row) :: y.license == Some(row.license)
    ensures forall x, y | x in RowsPlan(t, dir, channels, days, init) && y in LicensePlan(t, dir, channels, days, row) ::
              EventOf(x) != EventOf(y)
  {
    RowsPlanItems(t, dir, channels, days, init);
    hide LicensePlan, RowsPlan, ExpiryKind;
  }

  lemma NoTwins(t: Table, dir: Directory, channels: seq<string>, days: nat)
    ensures TwinFree(RowsPlan(t, dir, channels, days, [])) && RowsOk(t, dir, channels, days, [])
    ensures TwinFree(ExpiryPlan(t, dir, channels, [])) && DaysOk(t, dir, channels, [])
  {
  }

  lemma {:induction false} TwinFreeRows(t: Table, dir: Directory, channels: seq<string>, days: nat, rows: seq<Expiring>)
    requires Distinct(channels) && OncePerLicense(rows)
    ensures TwinFree(RowsPlan(t, dir, channels, days, rows)) <==> RowsOk(t, dir, channels, days, rows)
  {
    hide *;
    NoTwins(t, dir, channels, days);
    if rows != [] {
      var init, r := rows[..|rows| - 1], rows[|rows| - 1];
      assert rows[..|init| + 1] == init + [r] == rows;
      OnceInit(rows);
      TwinFreeRows(t, dir, channels, days, init);
      TwinFreeLicense(t, dir, channels, days, r);
      RowsApart(t, dir, channels, days, init, r);
      RowsPlanStep(t, dir, channels, days, rows, |init|);
      RowsOkStep(t, dir, channels, days, init, r);
      TwinFreeJoin(RowsPlan(t, dir, channels, days, init), LicensePlan(t, dir, channels, days, r));
    }
  }

  ghost predicate DayOk(t: Table, dir: Directory, channels: seq<string>, d: nat) {
    RowsOk(t, dir, channels, d, dir.expiring(d))
  }

  ghost predicate DaysOk(t: Table, dir: Directory, channels: seq<string>, days: seq<nat>) {
    forall d | d in days :: DayOk(t, dir, channels, d)
  }

  lemma DaysOkStep(t: Table, dir: Directory, channels: seq<string>, init: seq<nat>, d: nat)
    ensures DaysOk(t, dir, channels, init + [d]) <==> DaysOk(t, dir, channels, init) && DayOk(t, dir, channels, d)
  {
    hide DayOk;
    assert forall e :: e in init + [d] <==> e in init || e == d;
  }

  lemma DaysApart(t: Table, dir: Directory, channels: seq<string>, init: seq<nat>, d: nat)
    requires d !in init
    ensures forall x, y | x in ExpiryPlan(t, dir, channels, init) && y in RowsPlan(t, dir, channels, d, dir.expiring(d)) ::
              EventOf(x) != EventOf(y)
  {
    var rows := dir.expiring(d);
    ExpiryPlanItems(t, dir, channels, init);
    RowsPlanItems(t, dir, channels, d, rows);
    hide RowsPlan, ExpiryPlan, ExpiryKind;
    forall x, y | x in ExpiryPlan(t, dir, channels, init) && y in RowsPlan(t, dir, channels, d, rows)
      ensures EventOf(x) != EventOf(y)
    {
      var e :| e in init && x.kind == ExpiryKind(e);
      assert NoticeFor(y, d, rows);
      if ExpiryKind(e) == ExpiryKind(d) {
        ExpiryKindInjective(e, d);
      }
    }
  }

  lemma {:induction false} TwinFreeDays(t: Table, dir: Directory, channels: seq<string>, days: seq<nat>)
    requires Distinct(channels) && Distinct(days) && DirectoryOk(dir)
    ensures TwinFree(ExpiryPlan(t, dir, channels, days)) <==> DaysOk(t, dir, channels, days)
  {
    hide *;
    NoTwins(t, dir, channels, 0);
    if days != [] {
      var init, d := days[..|days| - 1], days[|days| - 1];
      var rows := dir.expiring(d);
      assert days[..|init| + 1] == init + [d] == days;
      DistinctInit(days);
      ListedOnce(dir, d);
      TwinFreeDays(t, dir, channels, init);
      TwinFreeRows(t, dir, channels, d, rows);
      DaysApart(t, dir, channels, init, d);
      ExpiryPlanStep(t, dir, channels, days, |init|);
      DaysOkStep(t, dir, channels, init, d);
      DayOkIs(t, dir, channels, d);
      TwinFreeJoin(ExpiryPlan(t, dir, channels, init), RowsPlan(t, dir, channels, d, rows));
    }
  }

  lemma DistinctInit<T>(s: seq<T>)
    requires s != [] && Distinct(s)
    ensures Distinct(s[..|s| - 1]) && s[|s| - 1] !in s[..|s| - 1]
  {
  }

  lemma OnceInit(rows: seq<Expiring>)
    requires rows != [] && OncePerLicense(rows)
    ensures OncePerLicense(rows[..|rows| - 1])
    ensures forall q | q in rows[..|rows| - 1] :: q.license != rows[|rows| - 1].license
  {
  }

  lemma ListedOnce(dir: Directory, d: nat)
    requires DirectoryOk(dir)
    ensures OncePerLicense(dir.expiring(d))
  {
  }

  lemma DayOkIs(t: Table, dir: Directory, channels: seq<string>, d: nat)
    ensures DayOk(t, dir, channels, d) == RowsOk(t, dir, channels, d, dir.expiring(d))
  {
    hide RowsOk;
  }

  /** A list of candidates gives no address twice exactly if no two of them can be reached at the same one. */
  lemma {:induction false} EmailsDistinctIff(cands: seq<Candidate>)
    ensures Distinct(Emails(cands)) <==>
              forall i, j | 0 <= i < j < |cands| :: PickEmail(cands[i]) != PickEmail(cands[j]) || PickEmail(cands[i]) == ""
    ensures forall e :: e in Emails(cands) <==> e != "" && exists c | c in cands :: PickEmail(c) == e
  {
    if cands != [] {
      var init, last := cands[..|cands| - 1], cands[|cands| - 1];
      EmailsDistinctIff(init);
      assert forall c :: c in cands <==> c in init || c == last;
      hide PickEmail;
      var e := PickEmail(last);
      assert Emails(cands) == Emails(init) + if e == "" then [] else [e];
      hide Emails;
      if e != "" {
        AddedDistinct(Emails(init), e);
      } else {
        assert Emails(cands) == Emails(init);
      }
      assert e != "" && e in Emails(init) ==> exists c | c in init :: PickEmail(c) == e;
    }
  }

  lemma AddedDistinct<T>(s: seq<T>, x: T)
    ensures Distinct(s + [x]) <==> Distinct(s) && x !in s
  {
    if Distinct(s + [x]) {
      assert forall i | 0 <= i < |s| :: (s + [x])[i] == s[i];
      forall i | 0 <= i < |s|
        ensures s[i] != x
      {
        assert (s + [x])[|s|] == x;
      }
    }
  }

  /** Every address list a run will use is free of repetitions. */
  ghost predicate PlannedAddressesOk(t: Table, dir: Directory, channels: seq<string>, days: seq<nat>, today: nat) {
    && DaysOk(t, dir, channels, days)
    && (UnsummarizedGaveUp(t) == {} || SummaryOnDay(t, today) || channels == [] || Distinct(Emails(dir.admins)))
  }

  /** A plan holds no event twice exactly if no list of addresses it uses does. */
  lemma PlanTwinFreeIff(t: Table, dir: Directory, channels: seq<string>, days: seq<nat>, today: nat)
    requires Distinct(channels) && Distinct(days) && DirectoryOk(dir)
    ensures TwinFree(Plan(t, dir, channels, days, today)) <==> PlannedAddressesOk(t, dir, channels, days, today)
  {
    TwinFreeDays(t, dir, channels, days);
    ExpiryPlanItems(t, dir, channels, days);
    var body := Listing(UnsummarizedGaveUp(t));
    TwinFreeFor(SUMMARY, channels, Emails(dir.admins), body, None);
    ItemsForAre(SUMMARY, channels, Emails(dir.admins), body, None);
    hide ExpiryPlan, DaysOk, ItemsFor;
    TwinFreeJoin(ExpiryPlan(t, dir, channels, days), SummaryPlan(t, dir, channels, today));
  }

  /** The deliveries of `items` send at most one record of each event. */
  ghost predicate DeliveriesSendOnce(t: Table, next: nat, items: seq<Item>, env: Env) {
    var t' := Deliveries(t, next, items, env);
    forall i, j: nat | next <= i < j < next + |items| && t'[i].status == Sent && t'[j].status == Sent ::
      !SameEvent(t'[i], t'[j])
  }

  lemma DeliveredRecord(t: Table, next: nat, items: seq<Item>, env: Env, k: nat)
    requires k < |items|
    ensures next + k in Deliveries(t, next, items, env)
            && Deliveries(t, next, items, env)[next + k] == Recorded(items[k], next + k, env)
  {
    assert ItemAt(items, next, next + k) == items[k];
  }

  lemma DeliveriesOnceIff(t: Table, next: nat, items: seq<Item>)
    ensures (forall env: Env :: DeliveriesSendOnce(t, next, items, env)) <==> TwinFree(items)
  {
    if k, l :| 0 <= k < l < |items| && EventOf(items[k]) == EventOf(items[l]) {
      DeliveredRecord(t, next, items, AllAccepted(), k);
      DeliveredRecord(t, next, items, AllAccepted(), l);
      assert !DeliveriesSendOnce(t, next, items, AllAccepted());
    } else {
      forall env: Env
        ensures DeliveriesSendOnce(t, next, items, env)
      {
        forall i, j: nat | next <= i < j < next + |items|
          ensures !SameEvent(Deliveries(t, next, items, env)[i], Deliveries(t, next, items, env)[j])
        {
          DeliveredRecord(t, next, items, env, i - next);
          DeliveredRecord(t, next, items, env, j - next);
          assert EventOf(items[i - next]) != EventOf(items[j - next]);
        }
      }
    }
  }

  /**
   A daily run sends every event at most once, however its sends end, exactly if no list of addresses it
   uses names somebody twice.
   */
  lemma DailyOnceIff(t: Table, next: nat, dir: Directory, channels: seq<string>, days: seq<nat>, today: nat)
    requires Distinct(channels) && Distinct(days) && DirectoryOk(dir)
    ensures (forall env: Env :: DeliveriesSendOnce(t, next, Plan(t, dir, channels, days, today), env))
            <==> PlannedAddressesOk(t, dir, channels, days, today)
  {
    DeliveriesOnceIff(t, next, Plan(t, dir, channels, days, today));
    PlanTwinFreeIff(t, dir, channels, days, today);
  }

  // ---- outcomes that were lost ----

  /**
   After a run the next one plans a license's event on a channel again exactly if it did so before and no
   delivery of it was both accepted and taken down: an accepted send whose outcome was lost is sent again.
   */
  lemma PlannedAgainIff(t: Table, next: nat, items: seq<Item>, env: Env, channels: seq<string>, kind: string,
                        c: string, license: nat)
    requires forall i | i in t :: i < next
    ensures c in PendingChannels(Deliveries(t, next, items, env), channels, kind, license) <==>
              && c in PendingChannels(t, channels, kind, license)
              && forall k | 0 <= k < |items| && items[k].kind == kind && items[k].channel == c && items[k].license == Some(license) ::
                   env.ok(next + k) ==> env.markFails(next + k)
  {
    var t' := Deliveries(t, next, items, env);
    PendingIs(t, channels, kind, license);
    PendingIs(t', channels, kind, license);
    assert forall i | i in t :: t'[i] == t[i];
    if i :| i in t' && t'[i].kind == kind && t'[i].channel == c && t'[i].license == Some(license) && t'[i].status == Sent {
      if i !in t {
        DeliveredRecord(t, next, items, env, i - next);
        assert items[i - next].kind == kind;
      }
    }
    if Delivered(t, kind, c, license) {
      var i :| i in t && t[i].kind == kind && t[i].channel == c && t[i].license == Some(license) && t[i].status == Sent;
      assert t'[i] == t[i];
    }
    forall k | 0 <= k < |items| && items[k].kind == kind && items[k].channel == c && items[k].license == Some(license)
               && env.ok(next + k) && !env.markFails(next + k)
      ensures Delivered(t', kind, c, license)
    {
      DeliveredRecord(t, next, items, env, k);
      assert t'[next + k].status == Sent;
    }
  }

  /**
   A target whose accepted send could not be taken down is a target of the next run as well, unless a twin
   of it was sent and taken down.
   */
  lemma StuckAgainIff(t: Table, done: set<nat>, channels: set<string>, limit: nat, env: Env, i: nat)
    requires done <= RetryTargets(t, limit) && i in RetryTargets(t, limit) && i !in done
    ensures i in RetryTargets(RetriedTable(t, done, channels, limit, env), limit)
            <==> forall j | j in done && t[j].channel in channels && SameEvent(t[j], t[i]) :: !env.ok(j)
  {
    var t' := RetriedTable(t, done, channels, limit, env);
    assert t'[i] == t[i];
    if s :| s in t' && t'[s].status == Sent && SameEvent(t'[s], t'[i]) {
      assert SameEvent(t[s], t[i]) && t[s].status != Sent;
    }
    forall j | j in done && t[j].channel in channels && SameEvent(t[j], t[i]) && env.ok(j)
      ensures Superseded(t', t'[i])
    {
      assert t'[j].status == Sent && SameEvent(t'[j], t'[i]);
    }
  }

  // ---- one record sent per event, over whole histories ----

  /** No license's event stands as sent in two records. */
  ghost predicate OneSentEach(t: Table) {
    forall i, j | i in t && j in t && i != j && t[i].status == Sent && t[j].status == Sent && t[i].license.Some? ::
      !SameEvent(t[i], t[j])
  }

  /** Retry runs, complete or broken off, keep one sent record per event exactly if they find no twins. */
  lemma RetryKeepsOneSentIff(t: Table, channels: set<string>, limit: nat)
    requires OneSentEach(t)
    ensures (forall done, env: Env | done <= RetryTargets(t, limit) :: OneSentEach(RetriedTable(t, done, channels, limit, env)))
            <==> forall i, j | TwinTargets(t, channels, limit, i, j) :: t[i].license.None?
  {
    if i, j :| TwinTargets(t, channels, limit, i, j) && t[i].license.Some? {
      var done := RetryTargets(t, limit);
      var t' := RetriedTable(t, done, channels, limit, AllAccepted());
      assert t'[i].status == Sent && t'[j].status == Sent && SameEvent(t'[i], t'[j]);
      assert !OneSentEach(t');
    } else {
      forall done, env: Env | done <= RetryTargets(t, limit)
        ensures OneSentEach(RetriedTable(t, done, channels, limit, env))
      {
        RetryKeepsOneSent(t, done, channels, limit, env);
      }
    }
  }

  lemma RetryKeepsOneSent(t: Table, done: set<nat>, channels: set<string>, limit: nat, env: Env)
    requires OneSentEach(t) && done <= RetryTargets(t, limit)
    requires forall i, j | TwinTargets(t, channels, limit, i, j) :: t[i].license.None?
    ensures OneSentEach(RetriedTable(t, done, channels, limit, env))
  {
    var t' := RetriedTable(t, done, channels, limit, env);
    forall i, j | i in t' && j in t' && i != j && t'[i].status == Sent && t'[j].status == Sent && t'[i].license.Some?
      ensures !SameEvent(t'[i], t'[j])
    {
      assert !TwinTargets(t, channels, limit, i, j);
    }
  }

  /** So do daily runs, complete or broken off, exactly if no list of managers or admins they use repeats an address. */
  lemma DailyKeepsOneSentIff(t: Table, next: nat, dir: Directory, channels: seq<string>, days: seq<nat>, today: nat)
    requires OneSentEach(t) && forall i | i in t :: i < next
    requires Distinct(channels) && Distinct(days) && DirectoryOk(dir)
    ensures (forall items, env: Env | items <= Plan(t, dir, channels, days, today) :: OneSentEach(Deliveries(t, next, items, env)))
            <==> DaysOk(t, dir, channels, days)
  {
    var plan, expiry := Plan(t, dir, channels, days, today), ExpiryPlan(t, dir, channels, days);
    PlanBegins(t, dir, channels, days, today);
    TwinFreeDays(t, dir, channels, days);
    hide ExpiryPlan, Plan, DaysOk;
    if TwinFree(expiry) {
      forall items, env: Env | items <= plan
        ensures OneSentEach(Deliveries(t, next, items, env))
      {
        DailyKeepsOneSent(t, next, dir, channels, days, today, items, env);
      }
    } else {
      TwinsDelivered(t, next, expiry);
      assert !OneSentEach(Deliveries(t, next, expiry, AllAccepted()));
    }
  }

  lemma PlanBegins(t: Table, dir: Directory, channels: seq<string>, days: seq<nat>, today: nat)
    ensures ExpiryPlan(t, dir, channels, days) <= Plan(t, dir, channels, days, today)
    ensures forall item | item in ExpiryPlan(t, dir, channels, days) :: item.license.Some?
    ensures forall k | |ExpiryPlan(t, dir, channels, days)| <= k < |Plan(t, dir, channels, days, today)| ::
              Plan(t, dir, channels, days, today)[k].license.None?
  {
    ExpiryItemsPending(t, dir, channels, days);
    ItemsForAre(SUMMARY, channels, Emails(dir.admins), Listing(UnsummarizedGaveUp(t)), None);
    hide ExpiryPlan, UnsummarizedGaveUp, ItemsFor;
    var summary := SummaryPlan(t, dir, channels, today);
    assert forall item | item in summary :: item.license.None?;
  }

  lemma TwinsDelivered(t: Table, next: nat, items: seq<Item>)
    requires !TwinFree(items) && forall item | item in items :: item.license.Some?
    ensures !OneSentEach(Deliveries(t, next, items, AllAccepted()))
  {
    var k, l :| 0 <= k < l < |items| && EventOf(items[k]) == EventOf(items[l]);
    DeliveredRecord(t, next, items, AllAccepted(), k);
    DeliveredRecord(t, next, items, AllAccepted(), l);
    var t' := Deliveries(t, next, items, AllAccepted());
    assert items[k] in items && SameEvent(t'[next + k], t'[next + l]);
  }

  lemma DailyKeepsOneSent(t: Table, next: nat, dir: Directory, channels: seq<string>, days: seq<nat>, today: nat,
                          items: seq<Item>, env: Env)
    requires OneSentEach(t) && forall i | i in t :: i < next
    requires TwinFree(ExpiryPlan(t, dir, channels, days)) && items <= Plan(t, dir, channels, days, today)
    ensures OneSentEach(Deliveries(t, next, items, env))
  {
    var expiry := ExpiryPlan(t, dir, channels, days);
    PlanBegins(t, dir, channels, days, today);
    ItemsUnsent(t, dir, channels, days, today);
    hide ExpiryPlan, Plan;
    var t' := Deliveries(t, next, items, env);
    forall i, j | i in t' && j in t' && i < j && t'[i].status == Sent && t'[j].status == Sent && t'[i].license.Some?
      ensures !SameEvent(t'[i], t'[j])
    {
      DeliveredOrOld(t, next, items, env, i);
      DeliveredOrOld(t, next, items, env, j);
      assert i >= next ==> items[i - next] in Plan(t, dir, channels, days, today);
      assert j >= next ==> items[j - next] in Plan(t, dir, channels, days, today);
      assert i >= next ==> EventOf(expiry[i - next]) == EventOf(items[i - next]);
    }
  }

  lemma ItemsUnsent(t: Table, dir: Directory, channels: seq<string>, days: seq<nat>, today: nat)
    ensures forall s, item | s in t && t[s].status == Sent && item in Plan(t, dir, channels, days, today) && item.license.Some? ::
              !ForEvent(t[s], item)
  {
    hide Plan, ForEvent;
    forall s | s in t && t[s].status == Sent
      ensures forall item | item in Plan(t, dir, channels, days, today) && item.license.Some? :: !ForEvent(t[s], item)
    {
      SentIsNotSentAgain(t, dir, channels, days, today, 0, s);
    }
  }

  lemma DeliveredOrOld(t: Table, next: nat, items: seq<Item>, env: Env, i: nat)
    requires (forall k | k in t :: k < next) && i in Deliveries(t, next, items, env)
    ensures i < next ==> i in t && Deliveries(t, next, items, env)[i] == t[i]
    ensures i >= next ==> i - next < |items| && Deliveries(t, next, items, env)[i] == Recorded(items[i - next], i, env)
  {
    if i >= next {
      assert ItemAt(items, next, i) == items[i - next];
    }
  }

  /** A run that meets neither repeated addresses nor twins, complete or broken off. */
  ghost predicate CarefulDaily(b: Books, b': Books, dir: Directory, channels: seq<string>, days: seq<nat>, today: nat,
                               items: seq<Item>, env: Env) {
    && Distinct(channels) && Distinct(days) && DirectoryOk(dir) && DaysOk(b.table, dir, channels, days)
    && items <= Plan(b.table, dir, channels, days, today) && b' == Apply(b, items, env)
  }

  ghost predicate CarefulRetry(b: Books, b': Books, limit: nat, done: set<nat>, stuck: set<nat>, channels: set<string>, env: Env) {
    && RetryStep(b, b', limit, done, stuck, channels, env)
    && forall i, j | TwinTargets(b.table, channels, limit, i, j) :: b.table[i].license.None?
  }

  ghost predicate CarefulStep(b: Books, b': Books, limit: nat, env: Env) {
    || (exists dir, channels, days, today, items :: CarefulDaily(b, b', dir, channels, days, today, items, env))
    || (exists done, stuck, channels :: CarefulRetry(b, b', limit, done, stuck, channels, env))
    || (exists kept :: PruneStep(b, b', kept))
  }

  lemma CarefulStepKeepsOneSent(b: Books, b': Books, limit: nat, env: Env)
    requires OneSentEach(b.table) && (forall i | i in b.table :: i < b.next) && CarefulStep(b, b', limit, env)
    ensures OneSentEach(b'.table)
  {
    if dir, channels, days, today, items :| CarefulDaily(b, b', dir, channels, days, today, items, env) {
      TwinFreeDays(b.table, dir, channels, days);
      DailyKeepsOneSent(b.table, b.next, dir, channels, days, today, items, env);
    } else if done, stuck, channels :| CarefulRetry(b, b', limit, done, stuck, channels, env) {
      RetryKeepsOneSent(b.table, done, channels, limit, env);
    }
  }

  /** Over every history of such runs no license's event stands as sent in two records. */
  lemma {:induction false} HistoryKeepsOneSent(books: seq<Books>, envs: seq<Env>, limit: nat, start: nat, k: nat)
    requires History(books, envs, limit, start) && k <= |envs| && OneSentEach(books[0].table)
    requires forall i | 0 <= i < |envs| :: CarefulStep(books[i], books[i + 1], limit, envs[i])
    ensures OneSentEach(books[k].table)
  {
    if k > 0 {
      HistoryKeepsOneSent(books, envs, limit, start, k - 1);
      HistoryKeepsBooks(books, envs, limit, start, k - 1);
      var j, before := k - 1, books[k - 1];
      assert forall i | i in before.table :: i < before.next;
      assert CarefulStep(books[j], books[j + 1], limit, envs[j]);
      hide *;
      CarefulStepKeepsOneSent(books[j], books[j + 1], limit, envs[j]);
    }
  }

  // ---- concrete histories ----

  const NOTICE := Expiring(1, 1, "expires")

  function Managed(managers: seq<Candidate>): Directory {
    Directory(d => if d == 30 then [NOTICE] else [], _ => managers, [])
  }

  const MANAGER := Candidate(Some("m@example.org"), None)
  const LINKED := Candidate(None, Some("m@example.org"))

  function TheItem(): Item {
    Item(ExpiryKind(30), "smtp", "m@example.org", Message("expires"), Some(1))
  }

  function Clock(at: nat, accepted: bool, lost: bool): Env {
    Env(at, at, _ => accepted, _ => false, _ => lost, _ => at, _ => at)
  }

  function Fresh(): Books {
    Books(map[], 0, {}, map[], map[])
  }

  lemma OneLicense(t: Table, dir: Directory, channels: seq<string>, d: nat, row: Expiring)
    requires dir.expiring(d) == [row]
    ensures ExpiryPlan(t, dir, channels, [d]) == LicensePlan(t, dir, channels, d, row)
  {
    hide LicensePlan;
    RowsPlanStep(t, dir, channels, d, [row], 0);
    assert [row][..1] == [row] && [row][..0] == [];
    assert RowsPlan(t, dir, channels, d, []) == [];
    ExpiryPlanStep(t, dir, channels, [d], 0);
    assert [d][..1] == [d];
    assert |[d][..0]| == 0 && ExpiryPlan(t, dir, channels, [d][..0]) == [];
  }

  lemma OneChannel(t: Table, dir: Directory, c: string, d: nat, row: Expiring)
    requires !Delivered(t, ExpiryKind(d), c, row.license)
    ensures LicensePlan(t, dir, [c], d, row) ==
            ItemsOn(ExpiryKind(d), c, Emails(Candidates(dir, row.department)), Message(row.notice), Some(row.license))
  {
    var emails := Emails(Candidates(dir, row.department));
    hide ExpiryKind, Delivered, Emails, ItemsOn;
    assert [c][..0] == [];
    assert PendingChannels(t, [c][..0], ExpiryKind(d), row.license) == [];
    assert PendingChannels(t, [c], ExpiryKind(d), row.license) == [c];
    ItemsForLast(ExpiryKind(d), [c], emails, Message(row.notice), Some(row.license));
    assert ItemsFor(ExpiryKind(d), [c][..0], emails, Message(row.notice), Some(row.license)) == [];
  }

  lemma ManagedIs(managers: seq<Candidate>)
    requires managers != []
    ensures Managed(managers).expiring(30) == [NOTICE]
    ensures Candidates(Managed(managers), NOTICE.department) == managers
  {
  }

  lemma ExpiryPlanOfOne(t: Table, managers: seq<Candidate>)
    requires managers != [] && forall i | i in t :: t[i].status != Sent
    ensures ExpiryPlan(t, Managed(managers), ["smtp"], [30]) ==
            ItemsOn(ExpiryKind(30), "smtp", Emails(managers), Message(NOTICE.notice), Some(NOTICE.license))
  {
    assert !Delivered(t, ExpiryKind(30), "smtp", NOTICE.license);
    hide *;
    var dir := Managed(managers);
    ManagedIs(managers);
    OneLicense(t, dir, ["smtp"], 30, NOTICE);
    OneChannel(t, dir, "smtp", 30, NOTICE);
  }

  lemma NothingToSummarize(t: Table, dir: Directory, channels: seq<string>, days: seq<nat>, today: nat)
    requires forall i | i in t :: t[i].status != GaveUp
    ensures Plan(t, dir, channels, days, today) == ExpiryPlan(t, dir, channels, days)
  {
    assert UnsummarizedGaveUp(t) == {};
    hide UnsummarizedGaveUp, ExpiryPlan, SummaryOnDay, ItemsFor;
  }

  lemma TheItems()
    ensures ItemsOn(ExpiryKind(30), "smtp", ["m@example.org"], Message(NOTICE.notice), Some(NOTICE.license)) == [TheItem()]
    ensures ItemsOn(ExpiryKind(30), "smtp", ["m@example.org", "m@example.org"], Message(NOTICE.notice), Some(NOTICE.license))
            == [TheItem(), TheItem()]
  {
    hide ExpiryKind;
  }

  /** What a run with one license, one channel and these managers plans while nothing of it was sent. */
  lemma PlanOfOne(t: Table, managers: seq<Candidate>, today: nat)
    requires managers == [MANAGER] || managers == [MANAGER, LINKED]
    requires forall i | i in t :: t[i].status !in {Sent, GaveUp}
    ensures Plan(t, Managed(managers), ["smtp"], [30], today) ==
            if managers == [MANAGER] then [TheItem()] else [TheItem(), TheItem()]
  {
    hide *;
    EmailsOfManagers();
    NothingToSummarize(t, Managed(managers), ["smtp"], [30], today);
    ExpiryPlanOfOne(t, managers);
    TheItems();
  }

  lemma EmailsOfManagers()
    ensures Emails([MANAGER]) == ["m@example.org"]
    ensures Emails([MANAGER, LINKED]) == ["m@example.org", "m@example.org"]
  {
    assert [MANAGER][..0] == [] && [MANAGER, LINKED][..1] == [MANAGER];
  }

  /** A history of runs from the empty table at whose end record 0 and record 1 are for one event. */
  ghost predicate OneEventTwice(books: seq<Books>, envs: seq<Env>) {
    && History(books, envs, 1, 0) && books[0] == Fresh()
    && var t := books[|envs|].table; 0 in t && 1 in t && SameEvent(t[0], t[1])
  }

  /** One daily run over the plan of the table it starts on. */
  ghost predicate DailyRun(b: Books, b': Books, env: Env, managers: seq<Candidate>) {
    b' == Apply(b, Plan(b.table, Managed(managers), ["smtp"], [30], 0), env)
  }

  function NewRecord(next: nat, env: Env): Notification {
    Recorded(TheItem(), next, env)
  }

  lemma TableOfOne(b: Books, env: Env)
    ensures Apply(b, [TheItem()], env).next == b.next + 1
    ensures Apply(b, [TheItem()], env).table == b.table[b.next := NewRecord(b.next, env)]
  {
    hide TheItem, Recorded, SentOnce, LostBy, ListedBy;
    var items := [TheItem()];
    assert ItemAt(items, b.next, b.next) == TheItem();
  }

  lemma RunOfOne(b: Books, env: Env)
    requires forall i | i in b.table :: b.table[i].status !in {Sent, GaveUp}
    ensures var b' := Apply(b, [TheItem()], env);
            && DailyRun(b, b', env, [MANAGER]) && BatchStep(b, b', 1, env)
            && b'.next == b.next + 1 && b'.table == b.table[b.next := NewRecord(b.next, env)]
  {
    PlanOfOne(b.table, [MANAGER], 0);
    DailyHistoryStep(b, [TheItem()], env);
    TableOfOne(b, env);
    hide Apply, BatchStep, Plan, NewRecord, Managed, TheItem;
  }

  lemma DailyHistoryStep(b: Books, items: seq<Item>, env: Env)
    requires forall item | item in items :: item == TheItem()
    ensures BatchStep(b, Apply(b, items, env), 1, env)
  {
    hide Apply;
    assert ItemOk(TheItem()) && TheItem().body.Message?;
    assert DailyStep(b, Apply(b, items, env), 1, items, env);
  }

  lemma FreshOk()
    ensures BooksOk(Fresh(), 1, 0) && Fresh().table == map[] && Fresh().next == 0
  {
  }

  lemma ClockRuns(at: nat, accepted: bool, lost: bool)
    requires at > 0
    ensures ClockOk(Clock(at, accepted, lost))
    ensures Clock(at, accepted, lost).start == Clock(at, accepted, lost).end == at
    ensures Clock(at, accepted, lost).ok(0) == Clock(at, accepted, lost).ok(1) == accepted
    ensures Clock(at, accepted, lost).markFails(0) == lost
  {
  }

  /** Addresses are not de-duplicated: one daily run sends two managers who share one two notices. */
  lemma TwoAddressesOneRun()
    ensures var env := Clock(1, true, false);
            var b := Apply(Fresh(), [TheItem(), TheItem()], env);
            && OneEventTwice([Fresh(), b], [env]) && DailyRun(Fresh(), b, env, [MANAGER, LINKED])
            && b.table[0].status == Sent && b.table[1].status == Sent
  {
    hide Apply, ApplyRetry, RetryTargets, Clock, ClockOk, BooksOk, BatchStep, NewRecord, History, SameEvent, Fresh,
         TheItem, Plan, Managed;
    var env, items := Clock(1, true, false), [TheItem(), TheItem()];
    var b := Apply(Fresh(), items, env);
    FreshOk();
    ClockRuns(1, true, false);
    PlanOfOne(map[], [MANAGER, LINKED], 0);
    DailyHistoryStep(Fresh(), items, env);
    TwoSent(Fresh(), env);
    HistoryOfOne(Fresh(), b, env);
  }

  lemma TwoSent(b: Books, env: Env)
    requires b.table == map[] && b.next == 0 && env == Clock(1, true, false)
    ensures var t := Apply(b, [TheItem(), TheItem()], env).table;
            && 0 in t && 1 in t && SameEvent(t[0], t[1]) && t[0].status == Sent && t[1].status == Sent
  {
    DeliveredRecord(map[], 0, [TheItem(), TheItem()], env, 0);
    DeliveredRecord(map[], 0, [TheItem(), TheItem()], env, 1);
    hide Deliveries, TheItem;
  }

  lemma FirstRun(env: Env)
    requires env.ok(0) ==> env.markFails(0)
    ensures var b := Apply(Fresh(), [TheItem()], env);
            && DailyRun(Fresh(), b, env, [MANAGER]) && BatchStep(Fresh(), b, 1, env)
            && b.next == 1 && b.table == map[0 := NewRecord(0, env)] && b.table[0].status !in {Sent, GaveUp}
  {
    assert NewRecord(0, env).status !in {Sent, GaveUp} by {
      hide TheItem;
    }
    hide *;
    FreshOk();
    RunOfOne(Fresh(), env);
  }

  lemma SecondRun(b: Books, e1: Env, e2: Env)
    requires b.next == 1 && b.table == map[0 := NewRecord(0, e1)] && b.table[0].status !in {Sent, GaveUp}
    ensures var b' := Apply(b, [TheItem()], e2);
            && DailyRun(b, b', e2, [MANAGER]) && BatchStep(b, b', 1, e2)
            && b'.table == map[0 := NewRecord(0, e1), 1 := NewRecord(1, e2)]
  {
    RunOfOne(b, e2);
    hide Apply, DailyRun, BatchStep, NewRecord, TheItem;
  }

  /** Two failing daily runs leave twins, and the next retry run sends both. */
  lemma TwinsByTwoRuns()
    ensures var e1, e2, e3 := Clock(1, false, false), Clock(2, false, false), Clock(3, true, false);
            var b1 := Apply(Fresh(), [TheItem()], e1);
            var b2 := Apply(b1, [TheItem()], e2);
            var b3 := ApplyRetry(b2, RetryTargets(b2.table, 1), {}, {"smtp"}, 1, e3);
            && OneEventTwice([Fresh(), b1, b2, b3], [e1, e2, e3])
            && DailyRun(Fresh(), b1, e1, [MANAGER]) && DailyRun(b1, b2, e2, [MANAGER])
            && b3.table[0].status == Sent && b3.table[1].status == Sent
  {
    hide Apply, ApplyRetry, RetryTargets, Clock, ClockOk, DailyRun, BooksOk, BatchStep, NewRecord, History, SameEvent, Fresh,
         TheItem, Plan, Managed;
    var e1, e2, e3 := Clock(1, false, false), Clock(2, false, false), Clock(3, true, false);
    ClockRuns(1, false, false);
    ClockRuns(2, false, false);
    ClockRuns(3, true, false);
    FreshOk();
    FirstRun(e1);
    var b1 := Apply(Fresh(), [TheItem()], e1);
    SecondRun(b1, e1, e2);
    var b2 := Apply(b1, [TheItem()], e2);
    TwinsRetried(b2, e1, e2, e3);
    var b3 := ApplyRetry(b2, RetryTargets(b2.table, 1), {}, {"smtp"}, 1, e3);
    HistoryOfThree(Fresh(), b1, b2, b3, e1, e2, e3);
  }

  lemma TwinsRetried(b: Books, e1: Env, e2: Env, e3: Env)
    requires e1 == Clock(1, false, false) && e2 == Clock(2, false, false) && e3 == Clock(3, true, false)
    requires b.table == map[0 := NewRecord(0, e1), 1 := NewRecord(1, e2)]
    ensures var b' := ApplyRetry(b, RetryTargets(b.table, 1), {}, {"smtp"}, 1, e3);
            && BatchStep(b, b', 1, e3)
            && 0 in b'.table && 1 in b'.table && SameEvent(b'.table[0], b'.table[1])
            && b'.table[0].status == Sent && b'.table[1].status == Sent
  {
    var t, targets := b.table, RetryTargets(b.table, 1);
    assert t[0].status == Failed && t[1].status == Failed;
    assert 0 in targets && 1 in targets;
    var b' := ApplyRetry(b, targets, {}, {"smtp"}, 1, e3);
    assert b'.table == RetriedTable(t, targets, {"smtp"}, 1, e3);
    hide ApplyRetry, RetryTargets, ExpiryKind;
    assert RetryStep(b, b', 1, targets, {}, {"smtp"}, e3);
  }

  lemma HistoryOfOne(b0: Books, b1: Books, e1: Env)
    requires e1.start == e1.end == 1 && ClockOk(e1) && BooksOk(b0, 1, 0) && BatchStep(b0, b1, 1, e1)
    ensures History([b0, b1], [e1], 1, 0)
  {
    hide BooksOk, BatchStep, ClockOk;
  }

  lemma HistoryOfTwo(b0: Books, b1: Books, b2: Books, e1: Env, e2: Env)
    requires e1.start == e1.end == 1 && e2.start == e2.end == 2
    requires ClockOk(e1) && ClockOk(e2) && BooksOk(b0, 1, 0)
    requires BatchStep(b0, b1, 1, e1) && BatchStep(b1, b2, 1, e2)
    ensures History([b0, b1, b2], [e1, e2], 1, 0)
  {
    hide BooksOk, BatchStep, ClockOk;
  }

  lemma HistoryOfThree(b0: Books, b1: Books, b2: Books, b3: Books, e1: Env, e2: Env, e3: Env)
    requires e1.start == e1.end == 1 && e2.start == e2.end == 2 && e3.start == e3.end == 3
    requires ClockOk(e1) && ClockOk(e2) && ClockOk(e3) && BooksOk(b0, 1, 0)
    requires BatchStep(b0, b1, 1, e1) && BatchStep(b1, b2, 1, e2) && BatchStep(b2, b3, 1, e3)
    ensures History([b0, b1, b2, b3], [e1, e2, e3], 1, 0)
  {
    hide BooksOk, BatchStep, ClockOk;
  }

  /** A daily run whose accepted send could not be taken down is followed by one that sends it again. */
  lemma LostOutcomeSentAgain()
    ensures var e1, e2 := Clock(1, true, true), Clock(2, true, false);
            var b1 := Apply(Fresh(), [TheItem()], e1);
            var b2 := Apply(b1, [TheItem()], e2);
            && OneEventTwice([Fresh(), b1, b2], [e1, e2])
            && DailyRun(Fresh(), b1, e1, [MANAGER]) && DailyRun(b1, b2, e2, [MANAGER])
            && e1.ok(0) && e2.ok(1) && b2.table[0].status == Pending && b2.table[1].status == Sent
  {
    hide Apply, ApplyRetry, RetryTargets, Clock, ClockOk, DailyRun, BooksOk, BatchStep, NewRecord, History, SameEvent, Fresh,
         TheItem, Plan, Managed;
    var e1, e2 := Clock(1, true, true), Clock(2, true, false);
    ClockRuns(1, true, true);
    ClockRuns(2, true, false);
    FreshOk();
    FirstRun(e1);
    var b1 := Apply(Fresh(), [TheItem()], e1);
    SecondRun(b1, e1, e2);
    var b2 := Apply(b1, [TheItem()], e2);
    HistoryOfTwo(Fresh(), b1, b2, e1, e2);
    SentBoth(e1, e2);
  }

  lemma SentBoth(e1: Env, e2: Env)
    requires e1 == Clock(1, true, true) && e2 == Clock(2, true, false)
    ensures e1.ok(0) && e2.ok(1) && NewRecord(0, e1).status == Pending && NewRecord(1, e2).status == Sent
    ensures SameEvent(NewRecord(0, e1), NewRecord(1, e2))
  {
    hide TheItem;
  }
}
