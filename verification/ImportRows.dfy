/** What the CSV importers share: rows, validation errors, lookups, dates and numbers. */
module ImportRows {
  import opened Wrappers
  import opened Slug
  import opened Decimal

  /** One data row; `line` counts from 1 after the header. */
  datatype Row = Row(line: nat, fields: map<string, string>)

  function Col(r: Row, column: string): string {
    TrimSpace(if column in r.fields then r.fields[column] else "")
  }

  datatype Problem =
    | Required
    | NotFound
    | LookupFailed(message: string)
    | InDatabase
    | DuplicateOf(line: nat)
    | SelfParent
    | BadFormat
    | Retired

  datatype ValidationError = ValidationError(line: nat, column: string, problem: Problem)

  /** The answer of one SELECT by natural key. */
  datatype Lookup<+T> = Found(value: T) | Absent | Broken(message: string)

  ghost predicate Numbered(rows: seq<Row>) {
    forall i | 0 <= i < |rows| :: rows[i].line == i + 1
  }

  ghost predicate AllOnLine(errs: seq<ValidationError>, line: nat) {
    forall e | e in errs :: e.line == line
  }

  /** The errors so far are about those of the first `n` rows that are not clean. */
  ghost predicate Reported(errs: seq<ValidationError>, n: nat, clean: nat -> bool) {
    && (forall e | e in errs :: 1 <= e.line <= n)
    && forall i: nat | i < n :: (exists e | e in errs :: e.line == i + 1) <==> !clean(i)
  }

  lemma ReportedStep(errs: seq<ValidationError>, more: seq<ValidationError>, n: nat, clean: nat -> bool)
    requires Reported(errs, n, clean) && AllOnLine(more, n + 1) && (more == [] <==> clean(n))
    ensures Reported(errs + more, n + 1, clean)
  {
    var all := errs + more;
    assert forall e :: e in all <==> e in errs || e in more;
    if more != [] {
      assert more[0] in all;
    }
    forall i: nat | i < n + 1
      ensures (exists e | e in all :: e.line == i + 1) <==> !clean(i)
    {
      if i < n {
        assert forall e | e in more :: e.line != i + 1;
        assert forall e :: e in errs ==> e in all;
      }
    }
  }

  lemma ReportedAll(errs: seq<ValidationError>, n: nat, clean: nat -> bool)
    requires Reported(errs, n, clean)
    ensures errs == [] <==> forall i: nat | i < n :: clean(i)
  {
    if errs != [] {
      var e := errs[0];
      assert e in errs && e.line == (e.line - 1) + 1;
      assert !clean(e.line - 1);
    }
  }

  /** readCSV: the header has to match exactly, every record to have its columns. */
  function ReadCsv(records: seq<seq<string>>, want: seq<string>): (rows: Option<seq<Row>>)
    ensures rows.Some? <==> records != [] && records[0] == want
                            && forall i | 0 < i < |records| :: |records[i]| == |want|
    ensures rows.Some? ==> |rows.value| == |records| - 1 && Numbered(rows.value)
    ensures rows.Some? ==> forall i | 0 <= i < |rows.value| :: rows.value[i].fields.Keys == set c | c in want
    ensures rows.Some? && Distinct(want) ==>
              forall i, j | 0 <= i < |rows.value| && 0 <= j < |want| :: rows.value[i].fields[want[j]] == records[i + 1][j]
  {
    if records == [] || records[0] != want || exists i | 0 < i < |records| :: |records[i]| != |want| then None
    else Some(seq(|records| - 1, i requires 0 <= i < |records| - 1 =>
                                   Row(i + 1, Fields(want, records[i + 1]))))
  }

  /** The last column of a repeated name wins, as in the loop over the header. */
  function Fields(want: seq<string>, record: seq<string>): (m: map<string, string>)
    requires |record| == |want|
    ensures m.Keys == set c | c in want
    ensures Distinct(want) ==> forall i | 0 <= i < |want| :: m[want[i]] == record[i]
  {
    if want == [] then map[]
    else
      var n := |want| - 1;
      var init := Fields(want[..n], record[..n]);
      assert forall c :: c in want <==> c in want[..n] || c == want[n];
      assert forall i | 0 <= i < n :: want[..n][i] == want[i] && record[..n][i] == record[i];
      assert Distinct(want) ==> Distinct(want[..n]) && want[n] !in want[..n];
      init[want[n] := record[n]]
  }

  predicate Distinct(names: seq<string>) {
    forall i, j | 0 <= i < j < |names| :: names[i] != names[j]
  }

  datatype Date = Date(year: nat, month: nat, day: nat)

  predicate LeapYear(y: nat) {
    y % 4 == 0 && (y % 100 != 0 || y % 400 == 0)
  }

  function DaysIn(month: nat, year: nat): nat {
    if month == 2 then (if LeapYear(year) then 29 else 28)
    else if month in {4, 6, 9, 11} then 30
    else 31
  }

  /** YYYY-MM-DD, a real day of the calendar. */
  function ParseDate(s: string): (d: Option<Date>)
    ensures d.Some? ==> 1 <= d.value.month <= 12 && 1 <= d.value.day <= DaysIn(d.value.month, d.value.year)
  {
    if |s| == 10 && s[4] == '-' && s[7] == '-'
       && AllDigits(s[..4]) && AllDigits(s[5..7]) && AllDigits(s[8..]) then
      var (y, m, d) := (Atoi(s[..4]), Atoi(s[5..7]), Atoi(s[8..]));
      if 1 <= m <= 12 && 1 <= d <= DaysIn(m, y) then Some(Date(y, m, d)) else None
    else None
  }

  const MONTHS := [31, 28, 31, 30, 31, 30, 31, 31, 30, 31, 30, 31]

  /** A day of the Gregorian calendar: within its month, or the leap day of a year that has one. */
  predicate RealDay(d: Date) {
    && 1 <= d.month <= 12 && 1 <= d.day
    && (d.day <= MONTHS[d.month - 1]
        || (d.month == 2 && d.day == 29 && (d.year % 400 == 0 || (d.year % 4 == 0 && d.year % 100 != 0))))
  }

  /** The day as its text, year first. */
  function DateText(d: Date): string
    requires d.year < 10000 && d.month < 100 && d.day < 100
  {
    Two(d.year / 100) + Two(d.year % 100) + "-" + Two(d.month) + "-" + Two(d.day)
  }

  lemma RealDayIs(d: Date)
    ensures RealDay(d) <==> 1 <= d.month <= 12 && 1 <= d.day <= DaysIn(d.month, d.year)
  {
    assert d.month in {1, 3, 5, 7, 8, 10, 12} ==> MONTHS[d.month - 1] == 31;
    assert d.month in {4, 6, 9, 11} ==> MONTHS[d.month - 1] == 30;
  }

  lemma TextParts(d: Date)
    requires d.year < 10000 && d.month < 100 && d.day < 100
    ensures var s := DateText(d);
            && |s| == 10 && s[4] == '-' && s[7] == '-' && s[..4] == Two(d.year / 100) + Two(d.year % 100)
            && s[5..7] == Two(d.month) && s[8..] == Two(d.day)
  {
    hide Two;
  }

  lemma TextIsRead(d: Date)
    requires d.year < 10000 && RealDay(d)
    ensures ParseDate(DateText(d)) == Some(d)
  {
    RealDayIs(d);
    assert d.month < 100 && d.day < 100;
    hide DateText, Two, Atoi, RealDay, DaysIn, AllDigits;
    TextParts(d);
    TwoIs(d.year / 100);
    TwoIs(d.year % 100);
    TwoIs(d.month);
    TwoIs(d.day);
    FourIs(Two(d.year / 100), Two(d.year % 100));
    assert 100 * (d.year / 100) + d.year % 100 == d.year;
  }

  lemma ReadIsText(s: string)
    requires ParseDate(s).Some?
    ensures var d := ParseDate(s).value; d.year < 10000 && RealDay(d) && s == DateText(d)
  {
    var d := ParseDate(s).value;
    RealDayIs(d);
    assert AllDigits(s[..2]) && AllDigits(s[2..4]) by {
      assert forall c | c in s[..2] || c in s[2..4] :: c in s[..4];
    }
    assert s == s[..2] + s[2..4] + "-" + s[5..7] + "-" + s[8..] && s[..4] == s[..2] + s[2..4];
    hide Two, Atoi, RealDay, DaysIn, AllDigits;
    IsTwo(s[..2]);
    IsTwo(s[2..4]);
    IsTwo(s[5..7]);
    IsTwo(s[8..]);
    FourIs(s[..2], s[2..4]);
    assert d.year / 100 == Atoi(s[..2]) && d.year % 100 == Atoi(s[2..4]);
  }

  /** Exactly the texts of calendar days are read as dates, each as the day it is the text of. */
  lemma ParseDateExact(s: string, d: Date)
    ensures ParseDate(s) == Some(d) <==> d.year < 10000 && RealDay(d) && s == DateText(d)
  {
    hide ParseDate, DateText;
    if ParseDate(s) == Some(d) {
      ReadIsText(s);
    }
    if d.year < 10000 && RealDay(d) {
      TextIsRead(d);
    }
  }

  predicate DateOk(s: string) {
    s == "" || ParseDate(s).Some?
  }

  function DateOpt(s: string): Option<Date> {
    if s == "" then None else ParseDate(s)
  }

  /** A lookup cache: absence and failure are remembered like a find, and no key is fetched twice. */
  class Memo<K(==), V> {
    var cache: map<K, Lookup<V>>
    ghost var fetched: seq<K>

    constructor ()
      ensures cache == map[] && fetched == []
    {
      cache, fetched := map[], [];
    }

    ghost predicate Faithful(fetch: K -> Lookup<V>)
      reads this
    {
      && (forall k | k in cache :: cache[k] == fetch(k))
      && (forall k | k in fetched :: k in cache)
      && forall i, j | 0 <= i < j < |fetched| :: fetched[i] != fetched[j]
    }

    method Get(k: K, fetch: K -> Lookup<V>) returns (r: Lookup<V>)
      requires Faithful(fetch)
      modifies this
      ensures Faithful(fetch) && r == fetch(k)
      ensures fetched == if k in old(cache) then old(fetched) else old(fetched) + [k]
    {
      if k in cache {
        return cache[k];
      }
      r := fetch(k);
      cache := cache[k := r];
      fetched := fetched + [k];
    }
  }
}
