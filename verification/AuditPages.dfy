/** Paging through the audit log by id cursor while new entries keep arriving. */
module AuditPages {
  import opened Wrappers
  import opened Decimal

  const PAGE_SIZE := 100

  datatype Entry = Entry(id: nat, action: string, entityType: string, username: Option<string>)

  /** The table in id order. */
  type Log = seq<Entry>

  datatype Filter = Filter(action: string, entityType: string, username: string)

  /** Ids are positive and handed out in increasing order. */
  ghost predicate LogOk(log: Log) {
    && (forall i | 0 <= i < |log| :: log[i].id > 0)
    && forall i, j | 0 <= i < j < |log| :: log[i].id < log[j].id
  }

  /** An empty filter text means no condition. */
  predicate Matches(f: Filter, e: Entry) {
    && (f.action == "" || f.action <= e.action)
    && (f.entityType == "" || e.entityType == f.entityType)
    && (f.username == "" || e.username == Some(f.username))
  }

  /** All entries the query is about, newest first. */
  function Matching(log: Log, f: Filter, before: nat): seq<Entry> {
    if log == [] then []
    else
      var last := log[|log| - 1];
      (if Matches(f, last) && (before == 0 || last.id < before) then [last] else [])
      + Matching(log[..|log| - 1], f, before)
  }

  /** ListAuditLogs: a page and one entry more. */
  function ListAuditLogs(log: Log, f: Filter, before: nat): seq<Entry> {
    var all := Matching(log, f, before);
    if |all| <= PAGE_SIZE + 1 then all else all[..PAGE_SIZE + 1]
  }

  datatype Page = Page(rows: seq<Entry>, more: Option<nat>)

  function PageOf(log: Log, f: Filter, before: nat): Page {
    var rows := ListAuditLogs(log, f, before);
    if |rows| > PAGE_SIZE then Page(rows[..PAGE_SIZE], Some(rows[PAGE_SIZE - 1].id)) else Page(rows, None)
  }

  datatype Row = Row(id: nat, username: string, action: string, entityType: string)

  function RowOf(e: Entry): Row {
    Row(e.id, if e.username.Some? then e.username.value else "-", e.action, e.entityType)
  }

  datatype Response = BadRequest | Listing(rows: seq<Row>, more: Option<nat>)

  /** The request's cursor: nothing is the first page, anything but a non-negative number an error. */
  method List(log: Log, f: Filter, rawBefore: string) returns (r: Response)
    ensures r.BadRequest? <==> ParseNonNegativeOpt(rawBefore).None?
    ensures r.Listing? ==>
              var before := ParseNonNegativeOpt(rawBefore).value;
              var page := PageOf(log, f, if before.None? then 0 else before.value);
              && r.more == page.more && |r.rows| == |page.rows| <= 100 && (r.more.Some? ==> |r.rows| == 100)
              && forall i | 0 <= i < |r.rows| ::
                   && r.rows[i].id == page.rows[i].id && r.rows[i].action == page.rows[i].action
                   && r.rows[i].entityType == page.rows[i].entityType
                   && (page.rows[i].username.Some? ==> r.rows[i].username == page.rows[i].username.value)
                   && (page.rows[i].username.None? ==> r.rows[i].username == "-")
  {
    var parsed := ParseNonNegativeOpt(rawBefore);
    if parsed.None? {
      return BadRequest;
    }
    var before := if parsed.value.None? then 0 else parsed.value.value;
    var rows := ListAuditLogs(log, f, before);
    var hasMore := |rows| > PAGE_SIZE;
    if hasMore {
      rows := rows[..PAGE_SIZE];
    }
    var shown: seq<Row> := [];
    for i := 0 to |rows|
      invariant |shown| == i && forall j | 0 <= j < i :: shown[j] == RowOf(rows[j])
    {
      var username := "-";
      if rows[i].username.Some? {
        username := rows[i].username.value;
      }
      shown := shown + [Row(rows[i].id, username, rows[i].action, rows[i].entityType)];
    }
    r := Listing(shown, if hasMore then Some(rows[|rows| - 1].id) else None);
  }

  // ---- one query ----

  ghost predicate Descending(rows: seq<Entry>) {
    forall i, j | 0 <= i < j < |rows| :: rows[i].id > rows[j].id
  }

  /** The reference: entries of the log that match, each once, newest first. */
  lemma {:induction false} MatchingIs(log: Log, f: Filter, before: nat)
    requires LogOk(log)
    ensures Descending(Matching(log, f, before))
    ensures forall e :: e in Matching(log, f, before) <==> e in log && Matches(f, e) && (before == 0 || e.id < before)
  {
    if log != [] {
      var init, last := log[..|log| - 1], log[|log| - 1];
      MatchingIs(init, f, before);
      assert forall e :: e in log <==> e in init || e == last;
      var rest := Matching(init, f, before);
      assert forall i | 0 <= i < |rest| :: rest[i] in rest && rest[i].id < last.id;
    }
  }

  /** The same on the fields: listed are the entries older than the cursor that meet every condition the filter has. */
  lemma MatchedFields(log: Log, f: Filter, before: nat)
    requires LogOk(log)
    ensures forall e :: e in Matching(log, f, before) <==>
              && e in log && (before == 0 || e.id < before)
              && (f.action != "" ==> |f.action| <= |e.action| && e.action[..|f.action|] == f.action)
              && (f.entityType != "" ==> e.entityType == f.entityType)
              && (f.username != "" ==> e.username.Some? && e.username.value == f.username)
  {
    MatchingIs(log, f, before);
    hide Matching;
  }

  function Below(rows: seq<Entry>, before: nat): seq<Entry> {
    if rows == [] then []
    else (if rows[0].id < before then [rows[0]] else []) + Below(rows[1..], before)
  }

  lemma {:induction false} MatchingBelow(log: Log, f: Filter, before: nat)
    requires before > 0
    ensures Matching(log, f, before) == Below(Matching(log, f, 0), before)
  {
    if log != [] {
      var init, last := log[..|log| - 1], log[|log| - 1];
      MatchingBelow(init, f, before);
      var rest := Matching(init, f, 0);
      if Matches(f, last) {
        assert ([last] + rest)[1..] == rest;
      } else {
        assert [] + rest == rest;
      }
    }
  }

  /** The cursor cuts a descending list right behind the row it was taken from. */
  lemma {:induction false} BelowCursor(rows: seq<Entry>, m: nat)
    requires Descending(rows) && m < |rows|
    ensures Below(rows, rows[m].id) == rows[m + 1..]
  {
    if m > 0 {
      BelowCursor(rows[1..], m - 1);
      assert rows[1..][m - 1 + 1..] == rows[m + 1..];
    } else {
      AllBelow(rows[1..], rows[0].id);
    }
  }

  lemma {:induction false} AllBelow(rows: seq<Entry>, before: nat)
    requires forall i | 0 <= i < |rows| :: rows[i].id < before
    ensures Below(rows, before) == rows
  {
    if rows != [] {
      AllBelow(rows[1..], before);
    }
  }

  /** Entries that arrive later do not show up behind a cursor. */
  lemma {:induction false} AppendsAreInvisible(log: Log, more: Log, f: Filter, before: nat)
    requires before > 0 && forall i | 0 <= i < |more| :: more[i].id >= before
    ensures Matching(log + more, f, before) == Matching(log, f, before)
  {
    if more == [] {
      assert log + more == log;
    } else {
      var init := more[..|more| - 1];
      AppendsAreInvisible(log, init, f, before);
      assert (log + more)[..|log + more| - 1] == log + init;
    }
  }

  // ---- following the cursor ----

  /** The log at each request: it only grows. */
  ghost predicate Growing(logs: seq<Log>) {
    && |logs| > 0 && (forall k | 0 <= k < |logs| :: LogOk(logs[k]))
    && forall k | 0 <= k < |logs| :: logs[0] <= logs[k]
  }

  /** The first page, then whatever "more" leads to. */
  ghost predicate Follows(logs: seq<Log>, f: Filter, pages: seq<Page>) {
    && 0 < |pages| <= |logs| && pages[0] == PageOf(logs[0], f, 0)
    && forall k | 0 <= k < |pages| - 1 ::
        pages[k].more.Some? && pages[k + 1] == PageOf(logs[k + 1], f, pages[k].more.value)
  }

  function Min(a: int, b: int): int {
    if a < b then a else b
  }

  /** Behind the cursor of row `m` lies what was behind it at the first request. */
  lemma NextQuery(logs: seq<Log>, f: Filter, k: nat, m: nat)
    requires Growing(logs) && k < |logs| && m < |Matching(logs[0], f, 0)|
    ensures var all := Matching(logs[0], f, 0);
            all[m].id > 0 && Matching(logs[k], f, all[m].id) == all[m + 1..]
  {
    var log, all := logs[0], Matching(logs[0], f, 0);
    MatchingIs(log, f, 0);
    assert all[m] in all && all[m] in log;
    NewerIds(log, logs[k], all[m]);
    hide *;
    AppendsAreInvisible(log, logs[k][|log|..], f, all[m].id);
    MatchingBelow(log, f, all[m].id);
    BelowCursor(all, m);
  }

  lemma NewerIds(log: Log, later: Log, e: Entry)
    requires LogOk(later) && log <= later && e in log
    ensures e.id > 0 && later == log + later[|log|..]
    ensures forall i | 0 <= i < |later[|log|..]| :: later[|log|..][i].id >= e.id
  {
  }

  /** The page that starts at position `from` of the list. */
  predicate PageFrom(page: Page, all: seq<Entry>, from: nat) {
    && from <= |all|
    && page.rows == all[from..Min(from + PAGE_SIZE, |all|)]
    && page.more == if from + PAGE_SIZE < |all| then Some(all[from + PAGE_SIZE - 1].id) else None
  }

  lemma NextPage(logs: seq<Log>, f: Filter, pages: seq<Page>, k: nat, from: nat)
    requires Growing(logs) && Follows(logs, f, pages) && k + 1 < |pages|
    requires PageFrom(pages[k], Matching(logs[0], f, 0), from)
    ensures PageFrom(pages[k + 1], Matching(logs[0], f, 0), from + PAGE_SIZE)
    ensures from + PAGE_SIZE < |Matching(logs[0], f, 0)|
  {
    var all := Matching(logs[0], f, 0);
    assert pages[k].more.Some? && pages[k + 1] == PageOf(logs[k + 1], f, pages[k].more.value);
    assert k + 1 < |logs| && pages[k].more == Some(all[from + PAGE_SIZE - 1].id);
    hide *;
    NextQuery(logs, f, k + 1, from + PAGE_SIZE - 1);
    PageCut(logs[k + 1], f, all[from + PAGE_SIZE - 1].id, all, from + PAGE_SIZE);
  }

  /** The k-th page shows the k-th hundred of what matched at the first request. */
  lemma {:induction false} PageIs(logs: seq<Log>, f: Filter, pages: seq<Page>, k: nat)
    requires Growing(logs) && Follows(logs, f, pages) && k < |pages|
    ensures PageFrom(pages[k], Matching(logs[0], f, 0), PAGE_SIZE * k)
    ensures k == 0 || PAGE_SIZE * k < |Matching(logs[0], f, 0)|
  {
    if k == 0 {
      PageCut(logs[0], f, 0, Matching(logs[0], f, 0), 0);
    } else {
      PageIs(logs, f, pages, k - 1);
      hide *;
      NextPage(logs, f, pages, k - 1, PAGE_SIZE * (k - 1));
    }
  }

  lemma PageCut(log: Log, f: Filter, before: nat, all: seq<Entry>, from: nat)
    requires from <= |all| && Matching(log, f, before) == all[from..]
    ensures PageFrom(PageOf(log, f, before), all, from)
  {
    var rest := all[from..];
    assert forall n | 0 <= n <= |rest| :: rest[..n] == all[from..from + n];
    if |rest| > PAGE_SIZE + 1 {
      assert rest[..PAGE_SIZE + 1][..PAGE_SIZE] == rest[..PAGE_SIZE];
    }
  }

  function Shown(pages: seq<Page>): seq<Entry> {
    if pages == [] then [] else Shown(pages[..|pages| - 1]) + pages[|pages| - 1].rows
  }

  lemma {:induction false} ShownIs(logs: seq<Log>, f: Filter, pages: seq<Page>, k: nat)
    requires Growing(logs) && Follows(logs, f, pages) && k <= |pages|
    ensures Shown(pages[..k]) == Matching(logs[0], f, 0)[..Min(PAGE_SIZE * k, |Matching(logs[0], f, 0)|)]
  {
    if k == 0 {
      assert pages[..0] == [];
    } else {
      ShownIs(logs, f, pages, k - 1);
      PageIs(logs, f, pages, k - 1);
      hide Matching, Growing, Follows, Shown;
      ShownMore(pages, k - 1, Matching(logs[0], f, 0), PAGE_SIZE * (k - 1));
    }
  }

  lemma ShownMore(pages: seq<Page>, k: nat, all: seq<Entry>, from: nat)
    requires k < |pages| && PageFrom(pages[k], all, from) && Shown(pages[..k]) == all[..from]
    ensures Shown(pages[..k + 1]) == all[..Min(from + PAGE_SIZE, |all|)]
  {
    ShownStep(pages, k);
    hide Shown;
    Glue(all, from, Min(from + PAGE_SIZE, |all|));
  }

  lemma ShownStep(pages: seq<Page>, k: nat)
    requires k < |pages|
    ensures Shown(pages[..k + 1]) == Shown(pages[..k]) + pages[k].rows
  {
    assert pages[..k + 1][..k] == pages[..k];
  }

  lemma Glue<T>(s: seq<T>, a: nat, b: nat)
    requires a <= b <= |s|
    ensures s[..a] + s[a..b] == s[..b]
  {
  }

  /**
   Whoever follows "more" to its end has seen exactly the entries that matched at the first request,
   newest first, none twice, on ceil(n / 100) pages and at least one, whatever was logged meanwhile.
   */
  lemma FollowedToTheEnd(logs: seq<Log>, f: Filter, pages: seq<Page>)
    requires Growing(logs) && Follows(logs, f, pages) && pages[|pages| - 1].more.None?
    ensures Descending(Shown(pages))
    ensures forall e :: e in Shown(pages) <==> e in logs[0] && Matches(f, e)
    ensures var n := |Shown(pages)|; |pages| == if n == 0 then 1 else (n + PAGE_SIZE - 1) / PAGE_SIZE
  {
    var all := Matching(logs[0], f, 0);
    PageIs(logs, f, pages, |pages| - 1);
    ShownIs(logs, f, pages, |pages|);
    assert pages[..|pages|] == pages;
    assert Shown(pages) == all;
    MatchingIs(logs[0], f, 0);
  }

  /** And the end comes: a page that offers more leaves fewer entries to show. */
  lemma MoreMakesProgress(logs: seq<Log>, f: Filter, pages: seq<Page>)
    requires Growing(logs) && Follows(logs, f, pages) && pages[|pages| - 1].more.Some?
    ensures PAGE_SIZE * |pages| < |Matching(logs[0], f, 0)| && |Shown(pages)| == PAGE_SIZE * |pages|
  {
    PageIs(logs, f, pages, |pages| - 1);
    ShownIs(logs, f, pages, |pages|);
    assert pages[..|pages|] == pages;
  }
}
