/** CSV import of departments: parents by code, from the database or from an earlier row. */
module ImportDepartments {
  import opened Wrappers
  import opened ImportRows

  datatype Department = Department(code: string, name: string, parent: Option<nat>, validFrom: Option<Date>)

  type Departments = map<nat, Department>

  const HEADER: seq<string> := ["code", "name", "parent_code", "valid_from", "valid_to", "source_ou"]

  ghost predicate CodesUnique(t: Departments) {
    forall i, j | i in t && j in t && t[i].code == t[j].code :: i == j
  }

  ghost predicate TableOk(t: Departments, next: nat) {
    CodesUnique(t) && forall i | i in t :: i < next
  }

  predicate HasCode(t: Departments, code: string) {
    exists i | i in t :: t[i].code == code
  }

  /** GetDepartmentByCode. */
  function ByCode(t: Departments, code: string): (r: Option<nat>)
    requires CodesUnique(t)
    ensures r.Some? <==> HasCode(t, code)
    ensures r.Some? ==> r.value in t && t[r.value].code == code
  {
    if HasCode(t, code) then
      var i :| i in t && t[i].code == code;
      Some(i)
    else None
  }

  // ---- validation ----

  predicate CodeSeen(rows: seq<Row>, code: string) {
    exists j | 0 <= j < |rows| :: Col(rows[j], "code") == code
  }

  predicate CodeClean(t: Departments, broken: string -> Option<string>, earlier: seq<Row>, r: Row) {
    var code := Col(r, "code");
    code != "" && broken(code).None? && !HasCode(t, code) && !CodeSeen(earlier, code)
  }

  /** A parent exists in the database or in an earlier row; the row itself does not count. */
  predicate ParentClean(t: Departments, broken: string -> Option<string>, earlier: seq<Row>, r: Row) {
    var parent := Col(r, "parent_code");
    parent == "" ||
    (broken(parent).None? && parent != Col(r, "code") && (HasCode(t, parent) || CodeSeen(earlier, parent)))
  }

  predicate RowClean(t: Departments, broken: string -> Option<string>, rows: seq<Row>, i: nat)
    requires i < |rows|
  {
    && CodeClean(t, broken, rows[..i], rows[i]) && Col(rows[i], "name") != ""
    && ParentClean(t, broken, rows[..i], rows[i])
    && DateOk(Col(rows[i], "valid_from")) && DateOk(Col(rows[i], "valid_to"))
  }

  ghost predicate Clean(t: Departments, broken: string -> Option<string>, rows: seq<Row>) {
    forall i | 0 <= i < |rows| :: RowClean(t, broken, rows, i)
  }

  /** `broken` says for which codes the SELECT itself fails. */
  class Validator {
    const t: Departments
    const broken: string -> Option<string>
    var seenInCSV: map<string, nat>
    var dbCache: map<string, bool>

    constructor (t: Departments, broken: string -> Option<string>)
      ensures this.t == t && this.broken == broken && Valid([])
    {
      this.t, this.broken := t, broken;
      seenInCSV, dbCache := map[], map[];
    }

    ghost predicate Valid(earlier: seq<Row>)
      reads this
    {
      && (forall code :: code in seenInCSV <==> code != "" && CodeSeen(earlier, code))
      && forall code | code in dbCache :: broken(code).None? && dbCache[code] == HasCode(t, code)
    }

    /** Failed lookups are not remembered. */
    method ExistsInDB(code: string) returns (r: Lookup<bool>)
      requires forall c | c in dbCache :: broken(c).None? && dbCache[c] == HasCode(t, c)
      modifies this`dbCache
      ensures forall c | c in dbCache :: broken(c).None? && dbCache[c] == HasCode(t, c)
      ensures r == if broken(code).Some? then Broken(broken(code).value) else Found(HasCode(t, code))
    {
      if code in dbCache {
        return Found(dbCache[code]);
      }
      var failure := broken(code);
      if failure.Some? {
        return Broken(failure.value);
      }
      dbCache := dbCache[code := HasCode(t, code)];
      r := Found(dbCache[code]);
    }

    method CheckCode(r: Row, ghost earlier: seq<Row>) returns (errs: seq<ValidationError>)
      requires Valid(earlier)
      modifies this
      ensures Valid(earlier + [r])
      ensures AllOnLine(errs, r.line) && (errs == [] <==> CodeClean(t, broken, earlier, r))
    {
      CodeSeenMore(earlier, r);
      hide CodeSeen, HasCode, Col;
      var code := Col(r, "code");
      if code == "" {
        return [ValidationError(r.line, "code", Required)];
      }
      errs := [];
      var inDB := ExistsInDB(code);
      if inDB.Broken? {
        errs := errs + [ValidationError(r.line, "code", LookupFailed(inDB.message))];
      } else if inDB.Found? && inDB.value {
        errs := errs + [ValidationError(r.line, "code", InDatabase)];
      }
      if code in seenInCSV {
        errs := errs + [ValidationError(r.line, "code", DuplicateOf(seenInCSV[code]))];
      } else {
        seenInCSV := seenInCSV[code := r.line];
      }
    }

    /** Runs after CheckCode, so the row's own code is among those seen. */
    method CheckParent(r: Row, ghost earlier: seq<Row>) returns (errs: seq<ValidationError>)
      requires Valid(earlier + [r])
      modifies this`dbCache
      ensures Valid(earlier + [r])
      ensures AllOnLine(errs, r.line) && (errs == [] <==> ParentClean(t, broken, earlier, r))
    {
      errs := [];
      var parent, code := Col(r, "parent_code"), Col(r, "code");
      if parent == "" {
        return;
      }
      CodeSeenMore(earlier, r);
      hide CodeSeen, HasCode, Col;
      var inDB := ExistsInDB(parent);
      if inDB.Broken? {
        errs := errs + [ValidationError(r.line, "parent_code", LookupFailed(inDB.message))];
      } else if inDB.Found? && !inDB.value && parent !in seenInCSV {
        errs := errs + [ValidationError(r.line, "parent_code", NotFound)];
      }
      if parent == code {
        errs := errs + [ValidationError(r.line, "parent_code", SelfParent)];
      }
    }

    method CheckRow(rows: seq<Row>, i: nat) returns (errs: seq<ValidationError>)
      requires i < |rows| && Valid(rows[..i])
      modifies this
      ensures Valid(rows[..i + 1])
      ensures AllOnLine(errs, rows[i].line) && (errs == [] <==> RowClean(t, broken, rows, i))
    {
      var r := rows[i];
      assert rows[..i + 1] == rows[..i] + [r];
      hide CodeClean, ParentClean, CodeSeen;
      errs := CheckCode(r, rows[..i]);
      if Col(r, "name") == "" {
        errs := errs + [ValidationError(r.line, "name", Required)];
      }
      var more := CheckParent(r, rows[..i]);
      errs := errs + more;
      if !DateOk(Col(r, "valid_from")) {
        errs := errs + [ValidationError(r.line, "valid_from", BadFormat)];
      }
      if !DateOk(Col(r, "valid_to")) {
        errs := errs + [ValidationError(r.line, "valid_to", BadFormat)];
      }
    }
  }

  lemma CodeSeenMore(earlier: seq<Row>, r: Row)
    ensures forall code :: CodeSeen(earlier + [r], code) <==> CodeSeen(earlier, code) || code == Col(r, "code")
  {
    var rows := earlier + [r];
    assert rows[|earlier|] == r && forall j | 0 <= j < |earlier| :: rows[j] == earlier[j];
  }

  /** A row is reported exactly if something is wrong with it; nothing reported means all rows are clean. */
  method Validate(t: Departments, broken: string -> Option<string>, rows: seq<Row>) returns (errs: seq<ValidationError>)
    requires Numbered(rows)
    ensures errs == [] <==> Clean(t, broken, rows)
    ensures forall i | 0 <= i < |rows| ::
              (exists e | e in errs :: e.line == rows[i].line) <==> !RowClean(t, broken, rows, i)
  {
    hide RowClean;
    var v := new Validator(t, broken);
    errs := [];
    ghost var clean := (i: nat) => i < |rows| && RowClean(t, broken, rows, i);
    for n := 0 to |rows|
      invariant v.t == t && v.broken == broken && v.Valid(rows[..n]) && fresh(v)
      invariant Reported(errs, n, clean)
    {
      var more := v.CheckRow(rows, n);
      ReportedStep(errs, more, n, clean);
      errs := errs + more;
    }
    ReportedAll(errs, |rows|, clean);
    assert forall i: nat | i < |rows| :: clean(i) <==> RowClean(t, broken, rows, i);
  }

  // ---- insertion ----

  /** CreateDepartment for one row; None when a parent is missing, a date unreadable or the code taken. */
  function InsertRow(t: Departments, next: nat, r: Row): Option<Departments>
    requires CodesUnique(t)
  {
    var parent, from := Col(r, "parent_code"), Col(r, "valid_from");
    if parent != "" && ByCode(t, parent).None? then None
    else if !DateOk(from) || HasCode(t, Col(r, "code")) then None
    else Some(t[next := Department(Col(r, "code"), Col(r, "name"),
                                   if parent == "" then None else ByCode(t, parent), DateOpt(from))])
  }

  /** What the table holds once the first `k` rows were inserted. */
  ghost predicate Holds(t: Departments, next: nat, rows: seq<Row>, k: nat, t': Departments)
    requires k <= |rows|
  {
    && TableOk(t', next + k)
    && (forall i | i in t :: i in t' && t'[i] == t[i])
    && (forall i | i in t' :: i in t || next <= i)
    && forall j | 0 <= j < k :: RowHeld(t', next + j, rows[j])
  }

  ghost predicate RowHeld(t: Departments, id: nat, r: Row) {
    && id in t && t[id].code == Col(r, "code") && t[id].name == Col(r, "name")
    && t[id].validFrom == DateOpt(Col(r, "valid_from"))
    && if Col(r, "parent_code") == "" then t[id].parent == None
       else t[id].parent.Some? && t[id].parent.value in t && t[id].parent.value < id
            && t[t[id].parent.value].code == Col(r, "parent_code")
  }

  /** A clean row always goes in: its parent is there, its code is not. */
  lemma CleanRowInserts(t: Departments, next: nat, broken: string -> Option<string>, rows: seq<Row>, k: nat, t': Departments)
    requires TableOk(t, next) && k < |rows| && RowClean(t, broken, rows, k) && Holds(t, next, rows, k, t')
    ensures InsertRow(t', next + k, rows[k]).Some?
    ensures TableOk(t', next + k)
    ensures Holds(t, next, rows, k + 1, InsertRow(t', next + k, rows[k]).value)
  {
    RowGoesIn(t, next, broken, rows, k, t');
    RowInserted(t', next + k, rows[k]);
    HoldsTable(t, next, rows, k, t');
    hide *;
    HoldsMore(t, next, rows, k, t', InsertRow(t', next + k, rows[k]).value);
  }

  lemma HoldsTable(t: Departments, next: nat, rows: seq<Row>, k: nat, t': Departments)
    requires k <= |rows| && Holds(t, next, rows, k, t')
    ensures TableOk(t', next + k)
  {
  }

  lemma RowGoesIn(t: Departments, next: nat, broken: string -> Option<string>, rows: seq<Row>, k: nat, t': Departments)
    requires TableOk(t, next) && k < |rows| && RowClean(t, broken, rows, k) && Holds(t, next, rows, k, t')
    ensures CodesUnique(t') && InsertRow(t', next + k, rows[k]).Some?
  {
    var parent, code := Col(rows[k], "parent_code"), Col(rows[k], "code");
    CodesHeld(t, next, rows, k, t', code);
    CodesHeld(t, next, rows, k, t', parent);
    hide HasCode, CodeSeen, Holds, Col, DateOk;
    HoldsTable(t, next, rows, k, t');
  }

  lemma RowInserted(t: Departments, next: nat, r: Row)
    requires TableOk(t, next) && InsertRow(t, next, r).Some?
    ensures var t' := InsertRow(t, next, r).value;
            TableOk(t', next + 1) && next in t' && t' == t[next := t'[next]] && RowHeld(t', next, r)
  {
  }

  lemma HoldsMore(t: Departments, next: nat, rows: seq<Row>, k: nat, t': Departments, t'': Departments)
    requires k < |rows| && TableOk(t, next) && Holds(t, next, rows, k, t') && TableOk(t'', next + k + 1)
    requires next + k in t'' && t'' == t'[next + k := t''[next + k]] && RowHeld(t'', next + k, rows[k])
    ensures Holds(t, next, rows, k + 1, t'')
  {
    hide CodesUnique;
    forall j | 0 <= j < k
      ensures RowHeld(t'', next + j, rows[j])
    {
      assert RowHeld(t', next + j, rows[j]);
    }
  }

  lemma CodesHeld(t: Departments, next: nat, rows: seq<Row>, k: nat, t': Departments, code: string)
    requires TableOk(t, next) && k <= |rows| && Holds(t, next, rows, k, t')
    ensures HasCode(t', code) <==> HasCode(t, code) || CodeSeen(rows[..k], code)
  {
    forall i | i in t' && i !in t
      ensures CodeSeen(rows[..k], t'[i].code)
    {
      var j := i - next;
      assert RowHeld(t', next + j, rows[j]) && rows[..k][j] == rows[j];
    }
    if CodeSeen(rows[..k], code) {
      var j :| 0 <= j < k && Col(rows[..k][j], "code") == code;
      assert RowHeld(t', next + j, rows[j]);
    }
  }

  datatype Inserted = Inserted(t: Departments, count: nat) | Rejected(line: nat)

  /** `fails(line)` says whether a statement for that row fails by itself. */
  method Insert(t: Departments, next: nat, rows: seq<Row>, fails: nat -> bool,
                ghost broken: string -> Option<string>) returns (r: Inserted)
    requires TableOk(t, next)
    ensures r.Inserted? ==> r.count == |rows| && CodesUnique(r.t)
    ensures Clean(t, broken, rows) && (forall i | 0 <= i < |rows| :: !fails(rows[i].line)) ==> r.Inserted?
    ensures Clean(t, broken, rows) && r.Inserted? ==> Holds(t, next, rows, |rows|, r.t)
    ensures Acyclic(t) && r.Inserted? ==> Acyclic(r.t)
  {
    var t' := t;
    hide Clean, Holds, Acyclic, InsertRow, CodesUnique, TableOk;
    NothingHeld(t, next, rows);
    TableUnique(t, next);
    for k := 0 to |rows|
      invariant TableOk(t', next + k) && CodesUnique(t')
      invariant Clean(t, broken, rows) ==> Holds(t, next, rows, k, t')
      invariant Acyclic(t) ==> Acyclic(t')
    {
      InsertStep(t, next, broken, rows, k, t');
      var inserted := InsertRow(t', next + k, rows[k]);
      if fails(rows[k].line) || inserted.None? {
        return Rejected(rows[k].line);
      }
      t' := inserted.value;
    }
    r := Inserted(t', |rows|);
  }

  lemma NothingHeld(t: Departments, next: nat, rows: seq<Row>)
    requires TableOk(t, next)
    ensures Holds(t, next, rows, 0, t)
  {
  }

  lemma TableUnique(t: Departments, next: nat)
    requires TableOk(t, next)
    ensures CodesUnique(t)
  {
  }

  lemma InsertStep(t: Departments, next: nat, broken: string -> Option<string>, rows: seq<Row>, k: nat, t': Departments)
    requires TableOk(t, next) && TableOk(t', next + k) && k < |rows|
    requires Clean(t, broken, rows) ==> Holds(t, next, rows, k, t')
    ensures InsertRow(t', next + k, rows[k]).Some? ==>
              var t'' := InsertRow(t', next + k, rows[k]).value;
              && TableOk(t'', next + k + 1) && CodesUnique(t'')
              && (Acyclic(t') ==> Acyclic(t''))
              && (Clean(t, broken, rows) ==> Holds(t, next, rows, k + 1, t''))
    ensures Clean(t, broken, rows) ==> InsertRow(t', next + k, rows[k]).Some?
  {
    hide Holds, Acyclic, InsertRow, RowClean;
    if Clean(t, broken, rows) {
      assert RowClean(t, broken, rows, k);
      CleanRowInserts(t, next, broken, rows, k, t');
    }
    if Acyclic(t') {
      InsertKeepsAcyclic(t', next + k, rows[k]);
    }
    InsertKeepsTable(t', next + k, rows[k]);
  }

  lemma InsertKeepsTable(t: Departments, next: nat, r: Row)
    requires TableOk(t, next)
    ensures InsertRow(t, next, r).Some? ==> TableOk(InsertRow(t, next, r).value, next + 1)
  {
  }

  // ---- the parent relation ----

  /** The k-th department above `i`. */
  function Up(t: Departments, i: nat, k: nat): Option<nat> {
    if k == 0 then Some(i)
    else
      var below := Up(t, i, k - 1);
      if below.Some? && below.value in t then t[below.value].parent else None
  }

  ghost predicate Acyclic(t: Departments) {
    && (forall i | i in t && t[i].parent.Some? :: t[i].parent.value in t)
    && forall i, k: nat | i in t && k > 0 :: Up(t, i, k) != Some(i)
  }

  lemma {:induction false} UpStays(t: Departments, n: nat, d: Department, i: nat, k: nat)
    requires n !in t && i in t && forall i | i in t && t[i].parent.Some? :: t[i].parent.value in t
    ensures Up(t[n := d], i, k) == Up(t, i, k)
    ensures Up(t, i, k).Some? ==> Up(t, i, k).value in t
  {
    if k > 0 {
      UpStays(t, n, d, i, k - 1);
    }
  }

  lemma {:induction false} UpFromNew(t: Departments, n: nat, d: Department, k: nat)
    requires n !in t && forall i | i in t && t[i].parent.Some? :: t[i].parent.value in t
    requires d.parent.Some? ==> d.parent.value in t
    requires k > 0
    ensures Up(t[n := d], n, k).Some? ==> Up(t[n := d], n, k).value in t
  {
  }

  /** Rows come in below departments that exist, so no chain of parents ever closes. */
  lemma InsertKeepsAcyclic(t: Departments, next: nat, r: Row)
    requires TableOk(t, next) && Acyclic(t)
    ensures InsertRow(t, next, r).Some? ==> Acyclic(InsertRow(t, next, r).value)
  {
    if InsertRow(t, next, r).Some? {
      var t' := InsertRow(t, next, r).value;
      forall i, k: nat | i in t' && k > 0
        ensures Up(t', i, k) != Some(i)
      {
        if i == next {
          UpFromNew(t, next, t'[next], k);
        } else {
          UpStays(t, next, t'[next], i, k);
        }
      }
    }
  }
}
