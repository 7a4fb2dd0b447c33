/**
 CSV import of license assignments, to users or to devices. License references go through four lookup
 caches; Resolve is what they must answer.
 */
module ImportAssignments {
  import opened Wrappers
  import opened ImportRows
  import opened ImportCatalog

  /** A user or a device; `gone` if deactivated or retired. */
  datatype Subject = Subject(id: nat, gone: bool)

  datatype Assignment = Assignment(license: nat, subject: nat, active: bool)

  type Assignments = map<nat, Assignment>

  /** What is read: references, licenses by key, subjects by code, and the column the code stands in. */
  datatype Source = Source(c: Catalog, licenses: map<LicenseKey, nat>, subjects: map<string, Subject>, column: string)

  const USER_HEADER: seq<string> := [
    "vendor_name", "product_name", "edition", "department_code", "license_slug", "employee_code",
    "external_account_id", "note"]

  const DEVICE_HEADER: seq<string> := [
    "vendor_name", "product_name", "edition", "department_code", "license_slug", "asset_code", "note"]

  // ---- the reference: lookups without any cache ----

  function License(s: Source, key: LicenseKey): Lookup<nat> {
    Answer(s.c.broken(LicenseQuery(key)), FindIn(s.licenses, key))
  }

  function FindSubject(s: Source, code: string): Lookup<Subject> {
    Answer(s.c.broken(SubjectQuery(code)), FindIn(s.subjects, code))
  }

  datatype Resolved = Licensed(id: nat) | Unresolved(errs: seq<ValidationError>)

  function Missing(r: Row, column: string): seq<ValidationError> {
    if Col(r, column) == "" then [ValidationError(r.line, column, Required)] else []
  }

  function MissingColumns(r: Row): seq<ValidationError> {
    Missing(r, "vendor_name") + Missing(r, "product_name") + Missing(r, "department_code") + Missing(r, "license_slug")
  }

  function Unfound<T>(r: Row, column: string, answer: Lookup<T>): Resolved {
    Unresolved([ValidationError(r.line, column, ProblemOf(answer))])
  }

  /** The license a row refers to, or the first thing that is wrong, always under the row's own line number. */
  function Resolve(s: Source, r: Row): Resolved {
    if MissingColumns(r) != [] then Unresolved(MissingColumns(r))
    else
      var v := Vendor(s.c, Col(r, "vendor_name"));
      if !v.Found? then Unfound(r, "vendor_name", v)
      else
        var p := Product(s.c, (v.value, Col(r, "product_name"), Col(r, "edition")));
        if !p.Found? then Unfound(r, "product_name", p)
        else
          var d := Department(s.c, Col(r, "department_code"));
          if !d.Found? then Unfound(r, "department_code", d)
          else
            var l := License(s, (p.value, d.value.id, Col(r, "license_slug")));
            if !l.Found? then Unfound(r, "license_slug", l) else Licensed(l.value)
  }

  lemma ResolveOnLine(s: Source, r: Row)
    ensures Resolve(s, r).Unresolved? ==> Resolve(s, r).errs != [] && AllOnLine(Resolve(s, r).errs, r.line)
  {
  }

  // ---- the caches ----

  class Resolver {
    const s: Source
    const vendors: Memo<string, nat>
    const products: Memo<ProductKey, nat>
    const depts: Memo<string, Dept>
    const licenses: Memo<LicenseKey, nat>

    constructor (s: Source)
      ensures this.s == s && Valid()
      ensures fresh(vendors) && fresh(products) && fresh(depts) && fresh(licenses)
    {
      this.s := s;
      vendors := new Memo<string, nat>();
      products := new Memo<ProductKey, nat>();
      depts := new Memo<string, Dept>();
      licenses := new Memo<LicenseKey, nat>();
    }

    ghost predicate Valid()
      reads vendors, products, depts, licenses
    {
      && vendors.Faithful(k => Vendor(s.c, k)) && products.Faithful(k => Product(s.c, k))
      && depts.Faithful(k => Department(s.c, k)) && licenses.Faithful(k => License(s, k))
    }

    method MissingOf(r: Row) returns (errs: seq<ValidationError>)
      ensures errs == MissingColumns(r)
    {
      errs := [];
      if Col(r, "vendor_name") == "" {
        errs := errs + [ValidationError(r.line, "vendor_name", Required)];
      }
      if Col(r, "product_name") == "" {
        errs := errs + [ValidationError(r.line, "product_name", Required)];
      }
      if Col(r, "department_code") == "" {
        errs := errs + [ValidationError(r.line, "department_code", Required)];
      }
      if Col(r, "license_slug") == "" {
        errs := errs + [ValidationError(r.line, "license_slug", Required)];
      }
    }

    /** Exactly the uncached answer, whatever rows came before. */
    method Lookup(r: Row) returns (found: Resolved)
      requires Valid()
      modifies vendors, products, depts, licenses
      ensures Valid() && found == Resolve(s, r)
    {
      hide Vendor, Product, Department, License, MissingColumns, Col, ProblemOf;
      var errs := MissingOf(r);
      if errs != [] {
        return Unresolved(errs);
      }
      var v := vendors.Get(Col(r, "vendor_name"), k => Vendor(s.c, k));
      if !v.Found? {
        return Unfound(r, "vendor_name", v);
      }
      var p := products.Get((v.value, Col(r, "product_name"), Col(r, "edition")), k => Product(s.c, k));
      if !p.Found? {
        return Unfound(r, "product_name", p);
      }
      var d := depts.Get(Col(r, "department_code"), k => Department(s.c, k));
      if !d.Found? {
        return Unfound(r, "department_code", d);
      }
      var l := licenses.Get((p.value, d.value.id, Col(r, "license_slug")), k => License(s, k));
      if !l.Found? {
        return Unfound(r, "license_slug", l);
      }
      found := Licensed(l.value);
    }
  }

  // ---- what makes a row clean ----

  function Code(s: Source, r: Row): string {
    Col(r, s.column)
  }

  predicate SubjectOk(s: Source, r: Row) {
    var u := FindSubject(s, Code(s, r));
    Code(s, r) != "" && u.Found? && !u.value.gone
  }

  /** License and subject of a row whose duplicates are checked at all. */
  function PairOf(s: Source, r: Row): Option<(nat, nat)> {
    if Resolve(s, r).Licensed? && SubjectOk(s, r)
       && s.c.broken(AssignmentQuery(Resolve(s, r).id, FindSubject(s, Code(s, r)).value.id)).None?
    then Some((Resolve(s, r).id, FindSubject(s, Code(s, r)).value.id))
    else None
  }

  predicate Assigned(t: Assignments, license: nat, subject: nat) {
    exists i | i in t :: t[i] == Assignment(license, subject, true)
  }

  predicate PairSeen(s: Source, earlier: seq<Row>, pair: (nat, nat)) {
    exists j | 0 <= j < |earlier| :: PairOf(s, earlier[j]) == Some(pair)
  }

  predicate PairFree(s: Source, t: Assignments, earlier: seq<Row>, pair: (nat, nat)) {
    !Assigned(t, pair.0, pair.1) && !PairSeen(s, earlier, pair)
  }

  predicate RowClean(s: Source, t: Assignments, rows: seq<Row>, i: nat)
    requires i < |rows|
  {
    PairOf(s, rows[i]).Some? && PairFree(s, t, rows[..i], PairOf(s, rows[i]).value)
  }

  ghost predicate Clean(s: Source, t: Assignments, rows: seq<Row>) {
    forall i | 0 <= i < |rows| :: RowClean(s, t, rows, i)
  }

  // ---- validation ----

  class Validator {
    const s: Source
    const t: Assignments
    const rr: Resolver
    var seen: map<(nat, nat), nat>

    constructor (s: Source, t: Assignments)
      ensures this.s == s && this.t == t && rr.s == s && rr.Valid() && Seen([])
      ensures fresh(rr) && fresh(rr.vendors) && fresh(rr.products) && fresh(rr.depts) && fresh(rr.licenses)
    {
      this.s, this.t, seen := s, t, map[];
      rr := new Resolver(s);
    }

    ghost predicate Seen(earlier: seq<Row>)
      reads this
    {
      forall pair :: pair in seen <==> PairSeen(s, earlier, pair)
    }

    method CheckSubject(r: Row) returns (errs: seq<ValidationError>, subject: Option<nat>)
      ensures AllOnLine(errs, r.line) && (errs == [] <==> subject.Some?)
      ensures subject == if SubjectOk(s, r) then Some(FindSubject(s, Code(s, r)).value.id) else None
    {
      var code := Code(s, r);
      if code == "" {
        return [ValidationError(r.line, s.column, Required)], None;
      }
      var u := FindSubject(s, code);
      if !u.Found? {
        return [ValidationError(r.line, s.column, ProblemOf(u))], None;
      }
      if u.value.gone {
        return [ValidationError(r.line, s.column, Retired)], None;
      }
      return [], Some(u.value.id);
    }

    /** Duplicates in the database and in the file, for a row whose license and subject are known. */
    method CheckPair(r: Row, license: nat, subject: nat, ghost earlier: seq<Row>) returns (errs: seq<ValidationError>)
      requires Seen(earlier)
      requires Resolve(s, r) == Licensed(license) && SubjectOk(s, r)
      requires FindSubject(s, Code(s, r)).value.id == subject
      modifies this`seen
      ensures Seen(earlier + [r]) && AllOnLine(errs, r.line)
      ensures errs == [] <==> PairOf(s, r).Some? && PairFree(s, t, earlier, (license, subject))
    {
      PairSeenMore(s, earlier, r);
      hide Resolve, FindSubject, SubjectOk, PairSeen, Assigned, Code;
      var failure := s.c.broken(AssignmentQuery(license, subject));
      if failure.Some? {
        return [ValidationError(r.line, s.column, LookupFailed(failure.value))];
      }
      errs := [];
      if Assigned(t, license, subject) {
        errs := [ValidationError(r.line, s.column, InDatabase)];
      }
      var pair := (license, subject);
      if pair in seen {
        errs := errs + [ValidationError(r.line, s.column, DuplicateOf(seen[pair]))];
      } else {
        seen := seen[pair := r.line];
      }
    }

    method CheckRow(r: Row, ghost earlier: seq<Row>) returns (errs: seq<ValidationError>)
      requires rr.Valid() && rr.s == s && Seen(earlier)
      modifies this`seen, rr.vendors, rr.products, rr.depts, rr.licenses
      ensures rr.Valid() && Seen(earlier + [r]) && AllOnLine(errs, r.line)
      ensures errs == [] <==> PairOf(s, r).Some? && PairFree(s, t, earlier, PairOf(s, r).value)
    {
      PairSeenMore(s, earlier, r);
      ResolveOnLine(s, r);
      hide Resolve, FindSubject, SubjectOk, PairSeen, PairFree, Code;
      var found := rr.Lookup(r);
      errs := if found.Unresolved? then found.errs else [];
      var more, subject := CheckSubject(r);
      errs := errs + more;
      if subject.None? || found.Unresolved? {
        return;
      }
      more := CheckPair(r, found.id, subject.value, earlier);
      errs := errs + more;
    }
  }

  lemma PairSeenMore(s: Source, earlier: seq<Row>, r: Row)
    ensures forall pair :: PairSeen(s, earlier + [r], pair) <==> PairSeen(s, earlier, pair) || PairOf(s, r) == Some(pair)
  {
    var rows := earlier + [r];
    assert rows[|earlier|] == r && forall j | 0 <= j < |earlier| :: rows[j] == earlier[j];
  }

  /** A row is reported exactly if something is wrong with it; nothing reported means all rows are clean. */
  method Validate(s: Source, t: Assignments, rows: seq<Row>) returns (errs: seq<ValidationError>)
    requires Numbered(rows)
    ensures errs == [] <==> Clean(s, t, rows)
    ensures forall i | 0 <= i < |rows| ::
              (exists e | e in errs :: e.line == rows[i].line) <==> !RowClean(s, t, rows, i)
  {
    hide PairOf, PairFree, PairSeen;
    var v := new Validator(s, t);
    errs := [];
    ghost var clean := (i: nat) => i < |rows| && RowClean(s, t, rows, i);
    for n := 0 to |rows|
      invariant fresh(v) && fresh(v.rr.vendors) && fresh(v.rr.products) && fresh(v.rr.depts) && fresh(v.rr.licenses)
      invariant v.s == s && v.t == t && v.rr.s == s && v.rr.Valid() && v.Seen(rows[..n])
      invariant Reported(errs, n, clean)
    {
      assert rows[..n + 1] == rows[..n] + [rows[n]];
      var more := v.CheckRow(rows[n], rows[..n]);
      ReportedStep(errs, more, n, clean);
      errs := errs + more;
    }
    ReportedAll(errs, |rows|, clean);
    assert forall i: nat | i < |rows| :: clean(i) <==> RowClean(s, t, rows, i);
  }

  // ---- insertion ----

  /** The partial unique index on active assignments. */
  ghost predicate ActiveUnique(t: Assignments) {
    forall i, j | i in t && j in t && t[i].active && t[i] == t[j] :: i == j
  }

  /** Insert only asks for license and subject; nothing it writes is ever looked up again. */
  function InsertRow(s: Source, t: Assignments, next: nat, r: Row): Option<Assignments> {
    var l, u := Resolve(s, r), FindSubject(s, Code(s, r));
    if l.Unresolved? || !u.Found? || Assigned(t, l.id, u.value.id) then None
    else Some(t[next := Assignment(l.id, u.value.id, true)])
  }

  /** The same tables, read by a transaction whose SELECTs all succeed. */
  ghost predicate SameTables(s: Source, q: Source) {
    q == s.(c := s.c.(broken := q.c.broken)) && forall x :: q.c.broken(x).None?
  }

  ghost predicate Holds(s: Source, t: Assignments, next: nat, rows: seq<Row>, k: nat, t': Assignments)
    requires k <= |rows|
  {
    && (forall i | i in t :: i in t' && t'[i] == t[i])
    && (forall i | i in t' :: i in t || next <= i < next + k)
    && ActiveUnique(t')
    && forall j | 0 <= j < k :: RowHeld(s, t', next + j, rows[j])
  }

  predicate RowHeld(s: Source, t: Assignments, id: nat, r: Row) {
    id in t && PairOf(s, r).Some? && t[id] == Assignment(PairOf(s, r).value.0, PairOf(s, r).value.1, true)
  }

  lemma SameAnswers(s: Source, q: Source, r: Row)
    requires SameTables(s, q) && PairOf(s, r).Some?
    ensures Resolve(q, r) == Licensed(PairOf(s, r).value.0)
    ensures FindSubject(q, Code(q, r)).Found? && FindSubject(q, Code(q, r)).value.id == PairOf(s, r).value.1
  {
  }

  lemma PairTaken(s: Source, t: Assignments, next: nat, rows: seq<Row>, k: nat, t': Assignments, pair: (nat, nat))
    requires k <= |rows| && Holds(s, t, next, rows, k, t') && Assigned(t', pair.0, pair.1)
    ensures Assigned(t, pair.0, pair.1) || PairSeen(s, rows[..k], pair)
  {
    var i :| i in t' && t'[i] == Assignment(pair.0, pair.1, true);
    if i !in t {
      var j := i - next;
      assert RowHeld(s, t', next + j, rows[j]) && rows[..k][j] == rows[j];
    } else {
      assert t'[i] == t[i];
    }
  }

  lemma CleanRowInserts(s: Source, q: Source, t: Assignments, next: nat, rows: seq<Row>, k: nat, t': Assignments)
    requires SameTables(s, q) && k < |rows| && RowClean(s, t, rows, k) && Holds(s, t, next, rows, k, t')
    requires forall i | i in t :: i < next
    ensures InsertRow(q, t', next + k, rows[k]).Some?
    ensures Holds(s, t, next, rows, k + 1, InsertRow(q, t', next + k, rows[k]).value)
  {
    var pair := PairOf(s, rows[k]).value;
    SameAnswers(s, q, rows[k]);
    assert !Assigned(t', pair.0, pair.1) by {
      if Assigned(t', pair.0, pair.1) {
        PairTaken(s, t, next, rows, k, t', pair);
      }
    }
    hide Resolve, PairOf, FindSubject, Code, PairFree, SameTables;
    HoldsMore(s, t, next, rows, k, t', pair);
  }

  lemma HoldsMore(s: Source, t: Assignments, next: nat, rows: seq<Row>, k: nat, t': Assignments, pair: (nat, nat))
    requires k < |rows| && PairOf(s, rows[k]) == Some(pair) && Holds(s, t, next, rows, k, t')
    requires !Assigned(t', pair.0, pair.1) && forall i | i in t :: i < next
    ensures Holds(s, t, next, rows, k + 1, t'[next + k := Assignment(pair.0, pair.1, true)])
  {
    hide PairOf;
    var t'' := t'[next + k := Assignment(pair.0, pair.1, true)];
    forall j | 0 <= j < k + 1
      ensures RowHeld(s, t'', next + j, rows[j])
    {
      assert j < k ==> RowHeld(s, t', next + j, rows[j]);
    }
    assert ActiveUnique(t'');
  }

  datatype Inserted = Inserted(t: Assignments, count: nat) | Rejected(line: nat)

  /** `q` is what the transaction reads; `fails(line)` whether the INSERT for that row fails by itself. */
  method Insert(q: Source, t: Assignments, next: nat, rows: seq<Row>, fails: nat -> bool, ghost s: Source)
    returns (r: Inserted)
    requires ActiveUnique(t) && (forall i | i in t :: i < next)
    ensures r.Inserted? ==> r.count == |rows|
    ensures SameTables(s, q) && Clean(s, t, rows) && (forall i | 0 <= i < |rows| :: !fails(rows[i].line)) ==> r.Inserted?
    ensures SameTables(s, q) && Clean(s, t, rows) && r.Inserted? ==> Holds(s, t, next, rows, |rows|, r.t)
  {
    var t': Assignments := t;
    var rr := new Resolver(q);
    hide Resolve, FindSubject, Clean, Holds, Assigned, SameTables, Code;
    NothingHeld(s, t, next, rows);
    for k := 0 to |rows|
      invariant fresh(rr.vendors) && fresh(rr.products) && fresh(rr.depts) && fresh(rr.licenses)
      invariant rr.s == q && rr.Valid()
      invariant SameTables(s, q) && Clean(s, t, rows) ==> Holds(s, t, next, rows, k, t')
    {
      InsertStep(s, q, t, next, rows, k, t');
      var found := rr.Lookup(rows[k]);
      if found.Unresolved? {
        return Rejected(rows[k].line);
      }
      var u := FindSubject(q, Code(q, rows[k]));
      if !u.Found? || fails(rows[k].line) || Assigned(t', found.id, u.value.id) {
        return Rejected(rows[k].line);
      }
      t' := t'[next + k := Assignment(found.id, u.value.id, true)];
    }
    r := Inserted(t', |rows|);
  }

  lemma NothingHeld(s: Source, t: Assignments, next: nat, rows: seq<Row>)
    requires ActiveUnique(t) && forall i | i in t :: i < next
    ensures Holds(s, t, next, rows, 0, t)
  {
  }

  lemma InsertStep(s: Source, q: Source, t: Assignments, next: nat, rows: seq<Row>, k: nat, t': Assignments)
    requires k < |rows| && forall i | i in t :: i < next
    requires SameTables(s, q) && Clean(s, t, rows) ==> Holds(s, t, next, rows, k, t')
    ensures SameTables(s, q) && Clean(s, t, rows) ==>
              InsertRow(q, t', next + k, rows[k]).Some?
              && Holds(s, t, next, rows, k + 1, InsertRow(q, t', next + k, rows[k]).value)
  {
    hide Holds, InsertRow, RowClean, SameTables;
    if SameTables(s, q) && Clean(s, t, rows) {
      assert RowClean(s, t, rows, k);
      CleanRowInserts(s, q, t, next, rows, k, t');
    }
  }
}
