/** What a daily run intends to deliver, as a function of the table it starts on and the directory data. */
module NotifyPlan {
  import opened Wrappers
  import opened Decimal
  import opened Notifications

  datatype Candidate = Candidate(notifyEmail: Option<string>, linkedEmail: Option<string>)

  /** A license expiring on some date, with the text of its notice. */
  datatype Expiring = Expiring(license: nat, department: nat, notice: string)

  /** Query results a run reads besides the notifications table. `expiring(n)` expire in n days. */
  datatype Directory = Directory(
    expiring: nat -> seq<Expiring>,
    managers: nat -> seq<Candidate>,
    admins: seq<Candidate>)

  ghost predicate DirectoryOk(dir: Directory) {
    forall d, i, j | 0 <= i < j < |dir.expiring(d)| :: dir.expiring(d)[i].license != dir.expiring(d)[j].license
  }

  function PickEmail(c: Candidate): string {
    if c.notifyEmail.Some? && c.notifyEmail.value != "" then c.notifyEmail.value
    else if c.linkedEmail.Some? then c.linkedEmail.value
    else ""
  }

  function Emails(cands: seq<Candidate>): (emails: seq<string>)
    ensures |emails| <= |cands| && "" !in emails
  {
    if cands == [] then []
    else
      var e := PickEmail(cands[|cands| - 1]);
      Emails(cands[..|cands| - 1]) + if e == "" then [] else [e]
  }

  /** License managers of the department, or every system admin when it has none. */
  function Candidates(dir: Directory, department: nat): seq<Candidate> {
    if dir.managers(department) == [] then dir.admins else dir.managers(department)
  }

  function ExpiryKind(days: nat): (k: string)
    ensures k != SUMMARY
  {
    assert ("license_expiry_" + Itoa(days))[0] == 'l';
    "license_expiry_" + Itoa(days)
  }

  lemma ExpiryKindInjective(d: nat, e: nat)
    requires ExpiryKind(d) == ExpiryKind(e)
    ensures d == e
  {
    assert ExpiryKind(d)[15..] == Itoa(d) && ExpiryKind(e)[15..] == Itoa(e);
    ItoaInjective(d, e);
  }

  function PendingChannels(t: Table, channels: seq<string>, kind: string, license: nat): seq<string> {
    if channels == [] then []
    else
      var c := channels[|channels| - 1];
      PendingChannels(t, channels[..|channels| - 1], kind, license) +
      if Delivered(t, kind, c, license) then [] else [c]
  }

  /** One item per channel and address, channel by channel. */
  function ItemsOn(kind: string, channel: string, emails: seq<string>, body: Body, license: Option<nat>): seq<Item> {
    seq(|emails|, i requires 0 <= i < |emails| => Item(kind, channel, emails[i], body, license))
  }

  function ItemsFor(kind: string, channels: seq<string>, emails: seq<string>, body: Body, license: Option<nat>)
    : seq<Item>
  {
    if channels == [] then []
    else ItemsFor(kind, channels[..|channels| - 1], emails, body, license) +
         ItemsOn(kind, channels[|channels| - 1], emails, body, license)
  }

  lemma {:induction false} ItemsForAre(kind: string, channels: seq<string>, emails: seq<string>, body: Body,
                                       license: Option<nat>)
    ensures |ItemsFor(kind, channels, emails, body, license)| == |channels| * |emails|
    ensures forall item | item in ItemsFor(kind, channels, emails, body, license) ::
              item.kind == kind && item.body == body && item.license == license
              && item.channel in channels && item.recipient in emails
  {
    if channels != [] {
      var init, last := channels[..|channels| - 1], channels[|channels| - 1];
      ItemsForAre(kind, init, emails, body, license);
      ItemsOnAre(kind, last, emails, body, license);
      ItemsForLast(kind, channels, emails, body, license);
      hide *;
      assert (|channels| - 1) * |emails| + |emails| == |channels| * |emails|;
      assert forall c | c in init :: c in channels;
      assert last in channels;
    }
  }

  lemma ItemsOnAre(kind: string, channel: string, emails: seq<string>, body: Body, license: Option<nat>)
    ensures |ItemsOn(kind, channel, emails, body, license)| == |emails|
    ensures forall item | item in ItemsOn(kind, channel, emails, body, license) ::
              item.kind == kind && item.body == body && item.license == license
              && item.channel == channel && item.recipient in emails
  {
  }

  lemma ItemsForLast(kind: string, channels: seq<string>, emails: seq<string>, body: Body, license: Option<nat>)
    requires channels != []
    ensures ItemsFor(kind, channels, emails, body, license) ==
            ItemsFor(kind, channels[..|channels| - 1], emails, body, license)
            + ItemsOn(kind, channels[|channels| - 1], emails, body, license)
  {
  }

  function LicensePlan(t: Table, dir: Directory, channels: seq<string>, days: nat, row: Expiring): seq<Item> {
    ItemsFor(ExpiryKind(days), PendingChannels(t, channels, ExpiryKind(days), row.license),
             Emails(Candidates(dir, row.department)), Message(row.notice), Some(row.license))
  }

  function RowsPlan(t: Table, dir: Directory, channels: seq<string>, days: nat, rows: seq<Expiring>): seq<Item> {
    if rows == [] then []
    else RowsPlan(t, dir, channels, days, rows[..|rows| - 1]) +
         LicensePlan(t, dir, channels, days, rows[|rows| - 1])
  }

  function ExpiryPlan(t: Table, dir: Directory, channels: seq<string>, days: seq<nat>): seq<Item> {
    if days == [] then []
    else
      var d := days[|days| - 1];
      ExpiryPlan(t, dir, channels, days[..|days| - 1]) + RowsPlan(t, dir, channels, d, dir.expiring(d))
  }

  function SummaryPlan(t: Table, dir: Directory, channels: seq<string>, today: nat): seq<Item> {
    if UnsummarizedGaveUp(t) == {} || SummaryOnDay(t, today) then []
    else ItemsFor(SUMMARY, channels, Emails(dir.admins), Listing(UnsummarizedGaveUp(t)), None)
  }

  function Plan(t: Table, dir: Directory, channels: seq<string>, days: seq<nat>, today: nat): seq<Item> {
    ExpiryPlan(t, dir, channels, days) + SummaryPlan(t, dir, channels, today)
  }

  // ---- the shape of plans ----

  predicate NoticeFor(item: Item, days: nat, rows: seq<Expiring>) {
    item.kind == ExpiryKind(days) && item.body.Message? && exists r | r in rows :: item.license == Some(r.license)
  }

  lemma {:induction false} RowsPlanItems(t: Table, dir: Directory, channels: seq<string>, days: nat,
                                         rows: seq<Expiring>)
    ensures forall item | item in RowsPlan(t, dir, channels, days, rows) :: NoticeFor(item, days, rows)
  {
    if rows != [] {
      var init, r := rows[..|rows| - 1], rows[|rows| - 1];
      RowsPlanItems(t, dir, channels, days, init);
      var kind := ExpiryKind(days);
      ItemsForAre(kind, PendingChannels(t, channels, kind, r.license), Emails(Candidates(dir, r.department)),
                  Message(r.notice), Some(r.license));
      assert r in rows;
      assert forall q | q in init :: q in rows;
    }
  }

  lemma {:induction false} ExpiryPlanItems(t: Table, dir: Directory, channels: seq<string>, days: seq<nat>)
    ensures forall item | item in ExpiryPlan(t, dir, channels, days) ::
              item.body.Message? && item.kind != SUMMARY && exists d | d in days :: item.kind == ExpiryKind(d)
  {
    if days != [] {
      var init, d := days[..|days| - 1], days[|days| - 1];
      ExpiryPlanItems(t, dir, channels, init);
      RowsPlanItems(t, dir, channels, d, dir.expiring(d));
      assert d in days;
      assert forall e | e in init :: e in days;
    }
  }

  /** A plan only holds deliveries that BatchStep allows. */
  lemma PlanIsDaily(t: Table, dir: Directory, channels: seq<string>, days: seq<nat>, today: nat)
    ensures DailyItems(t, Plan(t, dir, channels, days, today))
  {
    ExpiryPlanItems(t, dir, channels, days);
    ItemsForAre(SUMMARY, channels, Emails(dir.admins), Listing(UnsummarizedGaveUp(t)), None);
  }

  lemma RowsPlanStep(t: Table, dir: Directory, channels: seq<string>, days: nat, rows: seq<Expiring>, k: nat)
    requires k < |rows|
    ensures RowsPlan(t, dir, channels, days, rows[..k + 1]) ==
            RowsPlan(t, dir, channels, days, rows[..k]) + LicensePlan(t, dir, channels, days, rows[k])
  {
    hide LicensePlan;
    assert rows[..k + 1][..k] == rows[..k];
  }

  lemma ExpiryPlanStep(t: Table, dir: Directory, channels: seq<string>, days: seq<nat>, n: nat)
    requires n < |days|
    ensures ExpiryPlan(t, dir, channels, days[..n + 1]) ==
            ExpiryPlan(t, dir, channels, days[..n]) + RowsPlan(t, dir, channels, days[n], dir.expiring(days[n]))
  {
    hide RowsPlan;
    assert days[..n + 1][..n] == days[..n];
  }

  lemma {:induction false} RowsPlanPrefix(t: Table, dir: Directory, channels: seq<string>, days: nat,
                                          rows: seq<Expiring>, k: nat)
    requires k <= |rows|
    ensures RowsPlan(t, dir, channels, days, rows[..k]) <= RowsPlan(t, dir, channels, days, rows)
  {
    if k == |rows| {
      assert rows[..k] == rows;
    } else {
      RowsPlanPrefix(t, dir, channels, days, rows[..|rows| - 1], k);
      assert rows[..|rows| - 1][..k] == rows[..k];
    }
  }

  lemma {:induction false} ExpiryPlanPrefix(t: Table, dir: Directory, channels: seq<string>, days: seq<nat>, k: nat)
    requires k <= |days|
    ensures ExpiryPlan(t, dir, channels, days[..k]) <= ExpiryPlan(t, dir, channels, days)
  {
    if k == |days| {
      assert days[..k] == days;
    } else {
      ExpiryPlanPrefix(t, dir, channels, days[..|days| - 1], k);
      assert days[..|days| - 1][..k] == days[..k];
    }
  }

  // ---- deliveries of the same run never change a later test ----

  lemma {:induction false} SamePending(t: Table, t': Table, channels: seq<string>, kind: string, license: nat)
    requires forall c :: Delivered(t', kind, c, license) <==> Delivered(t, kind, c, license)
    ensures PendingChannels(t', channels, kind, license) == PendingChannels(t, channels, kind, license)
  {
    if channels != [] {
      SamePending(t, t', channels[..|channels| - 1], kind, license);
    }
  }

  /** Records made for other events leave the duplicate test of this event alone. */
  lemma OtherEventsDontDedup(t: Table, next: nat, items: seq<Item>, env: Env, kind: string, license: nat)
    requires forall i | i in t :: i < next
    requires forall item | item in items :: item.kind != kind || item.license != Some(license)
    ensures forall c :: Delivered(Deliveries(t, next, items, env), kind, c, license) <==> Delivered(t, kind, c, license)
  {
  }

  /** Expiry notices leave the summary decision alone. */
  lemma NoticesDontSummarize(t: Table, next: nat, items: seq<Item>, env: Env, today: nat)
    requires forall i | i in t :: i < next
    requires forall item | item in items :: item.kind != SUMMARY
    ensures UnsummarizedGaveUp(Deliveries(t, next, items, env)) == UnsummarizedGaveUp(t)
    ensures SummaryOnDay(Deliveries(t, next, items, env), today) == SummaryOnDay(t, today)
  {
  }

  /**
   In the middle of a run, after the notices for `daysDone` and for the first `k` rows of day `d`, the
   next license still has exactly the pending channels it had before the run.
   */
  lemma PlanStable(t: Table, next: nat, dir: Directory, channels: seq<string>, days: seq<nat>, n: nat, k: nat, env: Env)
    requires forall i | i in t :: i < next
    requires DirectoryOk(dir) && n < |days| && k < |dir.expiring(days[n])|
    requires forall i, j | 0 <= i < j < |days| :: days[i] != days[j]
    ensures var d, rows := days[n], dir.expiring(days[n]);
            var done := ExpiryPlan(t, dir, channels, days[..n]) + RowsPlan(t, dir, channels, d, rows[..k]);
            PendingChannels(Deliveries(t, next, done, env), channels, ExpiryKind(d), rows[k].license)
            == PendingChannels(t, channels, ExpiryKind(d), rows[k].license)
  {
    var d, rows := days[n], dir.expiring(days[n]);
    var earlier, today := ExpiryPlan(t, dir, channels, days[..n]), RowsPlan(t, dir, channels, d, rows[..k]);
    ExpiryPlanItems(t, dir, channels, days[..n]);
    RowsPlanItems(t, dir, channels, d, rows[..k]);
    forall item: Item | item in earlier + today
      ensures item.kind != ExpiryKind(d) || item.license != Some(rows[k].license)
    {
      if item in earlier {
        var e :| e in days[..n] && item.kind == ExpiryKind(e);
        if ExpiryKind(e) == ExpiryKind(d) {
          ExpiryKindInjective(e, d);
        }
      } else {
        assert NoticeFor(item, d, rows[..k]);
      }
    }
    OtherEventsDontDedup(t, next, earlier + today, env, ExpiryKind(d), rows[k].license);
    SamePending(t, Deliveries(t, next, earlier + today, env), channels, ExpiryKind(d), rows[k].license);
  }

  // ---- running a plan in pieces ----

  lemma ApplyNothing(b: Books, env: Env)
    ensures Apply(b, [], env) == b
  {
  }

  lemma DeliveriesAppend(t: Table, next: nat, first: seq<Item>, second: seq<Item>, env: Env)
    ensures Deliveries(Deliveries(t, next, first, env), next + |first|, second, env)
         == Deliveries(t, next, first + second, env)
  {
    forall i: nat | next <= i < next + |first + second|
      ensures ItemAt(first + second, next, i) ==
              if i < next + |first| then ItemAt(first, next, i) else ItemAt(second, next + |first|, i)
    {
    }
  }

  lemma IdsAppend(next: nat, m: nat, n: nat)
    ensures Ids(next, m) + Ids(next + m, n) == Ids(next, m + n)
  {
  }

  lemma MarksAppend(ids: set<nat>, more: set<nat>, env: Env)
    ensures SentOnce(ids) + SentOnce(more) == SentOnce(ids + more)
    ensures LostBy(ids, env) + LostBy(more, env) == LostBy(ids + more, env)
  {
  }

  lemma MapAppend(a: map<nat, nat>, b: map<nat, nat>, c: map<nat, nat>)
    ensures (a + b) + c == a + (b + c)
  {
  }

  /** Delivering in two pieces is delivering at once. */
  lemma ApplyAppend(b: Books, first: seq<Item>, second: seq<Item>, env: Env)
    ensures Apply(Apply(b, first, env), second, env) == Apply(b, first + second, env)
  {
    hide Deliveries, ListedBy, Ids, SentOnce, LostBy;
    var m, n := |first|, |second|;
    DeliveriesAppend(b.table, b.next, first, second, env);
    ListedAppend(b.next, first, second, env);
    IdsAppend(b.next, m, n);
    MarksAppend(Ids(b.next, m), Ids(b.next + m, n), env);
    MapAppend(b.attempts, SentOnce(Ids(b.next, m)), SentOnce(Ids(b.next + m, n)));
    MapAppend(b.lost, LostBy(Ids(b.next, m), env), LostBy(Ids(b.next + m, n), env));
    var all := Apply(b, first + second, env);
    assert Apply(Apply(b, first, env), second, env).listed == all.listed;
  }

  lemma ListedAppend(next: nat, first: seq<Item>, second: seq<Item>, env: Env)
    ensures ListedBy(first + second, next, env) == ListedBy(first, next, env) + ListedBy(second, next + |first|, env)
  {
    forall i: nat | next <= i < next + |first + second|
      ensures ItemAt(first + second, next, i) ==
              if i < next + |first| then ItemAt(first, next, i) else ItemAt(second, next + |first|, i)
    {
    }
    forall g
      ensures g in ListedBy(first + second, next, env) <==>
              g in ListedBy(first, next, env) || g in ListedBy(second, next + |first|, env)
    {
      if g in ListedBy(first, next, env) {
        var j: nat :| next <= j < next + |first| && env.ok(j) && ItemAt(first, next, j).body.Listing?
                      && g in ItemAt(first, next, j).body.ids;
        assert ItemAt(first + second, next, j) == ItemAt(first, next, j);
      }
      if g in ListedBy(second, next + |first|, env) {
        var j: nat :| next + |first| <= j < next + |first| + |second| && env.ok(j)
                      && ItemAt(second, next + |first|, j).body.Listing?
                      && g in ItemAt(second, next + |first|, j).body.ids;
        assert ItemAt(first + second, next, j) == ItemAt(second, next + |first|, j);
      }
      if g in ListedBy(first + second, next, env) {
        var j: nat :| next <= j < next + |first + second| && env.ok(j) && ItemAt(first + second, next, j).body.Listing?
                      && g in ItemAt(first + second, next, j).body.ids;
        assert j < next + |first| ==> ItemAt(first, next, j) == ItemAt(first + second, next, j);
        assert j >= next + |first| ==> ItemAt(second, next + |first|, j) == ItemAt(first + second, next, j);
      }
    }
  }
}
