/** CSV import of licenses: every row becomes one license of the world, the file store stays untouched. */
module ImportLicenses {
  import opened Wrappers
  import opened Decimal
  import opened Paths
  import opened FileTree
  import opened LicenseWorld
  import opened ImportRows
  import opened ImportCatalog

  const HEADER: seq<string> := [
    "vendor_name", "product_name", "edition", "department_code", "license_slug", "display_name", "total_count",
    "count_unit", "contract_type", "purchased_at", "started_at", "expires_at", "vendor_order_no", "purchaser",
    "unit_price", "currency", "product_keys", "note"]

  datatype NatKey = NatKey(vendor: string, product: string, edition: string, department: string, slug: string)

  function KeyOf(r: Row): NatKey {
    NatKey(Col(r, "vendor_name"), Col(r, "product_name"), Col(r, "edition"), Col(r, "department_code"), Col(r, "license_slug"))
  }

  function FolderOf(r: Row): Path {
    LicenseFsDirPath(Col(r, "vendor_name"), Col(r, "product_name"), Col(r, "license_slug"))
  }

  predicate HasKey(licenses: map<nat, License>, key: LicenseKey) {
    exists i | i in licenses :: (licenses[i].productID, licenses[i].departmentID, licenses[i].slug) == key
  }

  predicate HasFolder(licenses: map<nat, License>, dir: Path) {
    exists i | i in licenses :: licenses[i].fsDirPath == dir
  }

  // ---- what makes a row clean ----

  function ProductOf(c: Catalog, r: Row): Option<nat> {
    var k := KeyOf(r);
    if k.vendor == "" || !Vendor(c, k.vendor).Found? || k.product == "" then None
    else
      var p := Product(c, (Vendor(c, k.vendor).value, k.product, k.edition));
      if p.Found? then Some(p.value) else None
  }

  function DepartmentOf(c: Catalog, r: Row): Option<nat> {
    var d := Department(c, KeyOf(r).department);
    if KeyOf(r).department == "" || !d.Found? || d.value.retired then None else Some(d.value.id)
  }

  predicate KeyFree(w: World, c: Catalog, r: Row)
    requires ProductOf(c, r).Some? && DepartmentOf(c, r).Some?
  {
    var key := (ProductOf(c, r).value, DepartmentOf(c, r).value, KeyOf(r).slug);
    c.broken(LicenseQuery(key)).None? && !HasKey(w.licenses, key)
  }

  predicate FolderFree(w: World, c: Catalog, r: Row) {
    c.broken(FolderQuery(FolderOf(r))).None? && !HasFolder(w.licenses, FolderOf(r))
  }

  predicate KeySeen(earlier: seq<Row>, k: NatKey) {
    exists j | 0 <= j < |earlier| :: KeyOf(earlier[j]) == k
  }

  /** Only rows with a vendor, a product and a slug lay claim to a folder. */
  predicate Claims(r: Row) {
    KeyOf(r).vendor != "" && KeyOf(r).product != "" && KeyOf(r).slug != ""
  }

  predicate FolderSeen(earlier: seq<Row>, dir: Path) {
    exists j | 0 <= j < |earlier| :: Claims(earlier[j]) && FolderOf(earlier[j]) == dir
  }

  predicate FormatsOk(r: Row) {
    && Col(r, "count_unit") in {"device", "user"} && Col(r, "contract_type") in {"perpetual", "subscription"}
    && ParseNonNegativeOpt(Col(r, "total_count")).Some? && ParseNonNegativeOpt(Col(r, "unit_price")).Some?
    && DateOk(Col(r, "purchased_at")) && DateOk(Col(r, "started_at")) && DateOk(Col(r, "expires_at"))
  }

  predicate RefsOk(w: World, c: Catalog, r: Row) {
    && Claims(r) && KeyOf(r).department != "" && Col(r, "display_name") != ""
    && ProductOf(c, r).Some? && DepartmentOf(c, r).Some?
    && KeyFree(w, c, r) && FolderFree(w, c, r)
  }

  predicate RowClean(w: World, c: Catalog, rows: seq<Row>, i: nat)
    requires i < |rows|
  {
    && RefsOk(w, c, rows[i]) && FormatsOk(rows[i])
    && !KeySeen(rows[..i], KeyOf(rows[i])) && !FolderSeen(rows[..i], FolderOf(rows[i]))
  }

  ghost predicate Clean(w: World, c: Catalog, rows: seq<Row>) {
    forall i | 0 <= i < |rows| :: RowClean(w, c, rows, i)
  }

  // ---- validation ----

  class Validator {
    const w: World
    const c: Catalog
    var seenNat: map<NatKey, nat>
    var seenFsDir: map<Path, nat>

    constructor (w: World, c: Catalog)
      ensures this.w == w && this.c == c && Valid([])
    {
      this.w, this.c := w, c;
      seenNat, seenFsDir := map[], map[];
    }

    ghost predicate Complete(k: NatKey) {
      k.vendor != "" && k.product != "" && k.department != "" && k.slug != ""
    }

    ghost predicate Valid(earlier: seq<Row>)
      reads this
    {
      && (forall k :: k in seenNat <==> Complete(k) && KeySeen(earlier, k))
      && forall dir :: dir in seenFsDir <==> FolderSeen(earlier, dir)
    }

    method CheckRequired(r: Row) returns (errs: seq<ValidationError>)
      ensures AllOnLine(errs, r.line)
      ensures errs == [] <==> Claims(r) && KeyOf(r).department != "" && Col(r, "display_name") != ""
    {
      errs := [];
      var k := KeyOf(r);
      if k.vendor == "" {
        errs := errs + [ValidationError(r.line, "vendor_name", Required)];
      }
      if k.product == "" {
        errs := errs + [ValidationError(r.line, "product_name", Required)];
      }
      if k.department == "" {
        errs := errs + [ValidationError(r.line, "department_code", Required)];
      }
      if k.slug == "" {
        errs := errs + [ValidationError(r.line, "license_slug", Required)];
      }
      if Col(r, "display_name") == "" {
        errs := errs + [ValidationError(r.line, "display_name", Required)];
      }
    }

    /** An empty name was reported already, so it adds no second error. */
    method ResolveProduct(r: Row) returns (errs: seq<ValidationError>, id: Option<nat>)
      ensures AllOnLine(errs, r.line)
      ensures id == ProductOf(c, r)
      ensures KeyOf(r).vendor != "" && KeyOf(r).product != "" ==> (errs == [] <==> id.Some?)
    {
      errs, id := [], None;
      var k := KeyOf(r);
      if k.vendor == "" {
        return;
      }
      var v := Vendor(c, k.vendor);
      if !v.Found? {
        return [ValidationError(r.line, "vendor_name", ProblemOf(v))], None;
      }
      if k.product != "" {
        var p := Product(c, (v.value, k.product, k.edition));
        if !p.Found? {
          return [ValidationError(r.line, "product_name", ProblemOf(p))], None;
        }
        id := Some(p.value);
      }
    }

    method ResolveDepartment(r: Row) returns (errs: seq<ValidationError>, id: Option<nat>)
      ensures AllOnLine(errs, r.line)
      ensures id == DepartmentOf(c, r)
      ensures KeyOf(r).department != "" ==> (errs == [] <==> id.Some?)
    {
      errs, id := [], None;
      var code := KeyOf(r).department;
      if code == "" {
        return;
      }
      var d := Department(c, code);
      if !d.Found? {
        return [ValidationError(r.line, "department_code", ProblemOf(d))], None;
      }
      if d.value.retired {
        return [ValidationError(r.line, "department_code", Retired)], None;
      }
      id := Some(d.value.id);
    }

    method CheckKey(r: Row, product: Option<nat>, department: Option<nat>, ghost earlier: seq<Row>)
      returns (errs: seq<ValidationError>)
      requires Valid(earlier) && product == ProductOf(c, r) && department == DepartmentOf(c, r)
      modifies this`seenNat
      ensures AllOnLine(errs, r.line)
      ensures forall k :: k in seenNat <==> Complete(k) && KeySeen(earlier + [r], k)
      ensures Claims(r) && KeyOf(r).department != "" && product.Some? && department.Some? ==>
                (errs == [] <==> KeyFree(w, c, r) && !KeySeen(earlier, KeyOf(r)))
    {
      hide ProductOf, DepartmentOf, KeySeen, KeyOf, HasKey;
      errs := [];
      var k := KeyOf(r);
      if product.Some? && department.Some? && k.slug != "" {
        var key := (product.value, department.value, k.slug);
        var failure := c.broken(LicenseQuery(key));
        if failure.Some? {
          errs := [ValidationError(r.line, "license_slug", LookupFailed(failure.value))];
        } else if HasKey(w.licenses, key) {
          errs := [ValidationError(r.line, "license_slug", InDatabase)];
        }
      }
      var twice := NoteKey(r, earlier);
      errs := errs + twice;
    }

    method NoteKey(r: Row, ghost earlier: seq<Row>) returns (errs: seq<ValidationError>)
      requires forall k :: k in seenNat <==> Complete(k) && KeySeen(earlier, k)
      modifies this`seenNat
      ensures AllOnLine(errs, r.line)
      ensures forall k :: k in seenNat <==> Complete(k) && KeySeen(earlier + [r], k)
      ensures errs == [] <==> !Complete(KeyOf(r)) || !KeySeen(earlier, KeyOf(r))
    {
      KeySeenMore(earlier, r);
      hide KeySeen, KeyOf;
      errs := [];
      var k := KeyOf(r);
      if k.vendor != "" && k.product != "" && k.department != "" && k.slug != "" {
        if k in seenNat {
          errs := [ValidationError(r.line, "license_slug", DuplicateOf(seenNat[k]))];
        } else {
          seenNat := seenNat[k := r.line];
        }
      }
    }

    method CheckFolder(r: Row, ghost earlier: seq<Row>) returns (errs: seq<ValidationError>)
      requires forall dir :: dir in seenFsDir <==> FolderSeen(earlier, dir)
      modifies this`seenFsDir
      ensures AllOnLine(errs, r.line)
      ensures forall dir :: dir in seenFsDir <==> FolderSeen(earlier + [r], dir)
      ensures Claims(r) ==> (errs == [] <==> FolderFree(w, c, r) && !FolderSeen(earlier, FolderOf(r)))
    {
      errs := [];
      FolderSeenMore(earlier, r);
      hide FolderSeen, FolderOf, HasFolder, Claims, KeyOf, FolderFree;
      FolderFreeMeans(w, c, r);
      if !Claims(r) {
        return;
      }
      var dir := FolderOf(r);
      var failure := c.broken(FolderQuery(dir));
      if failure.Some? {
        errs := errs + [ValidationError(r.line, "license_slug", LookupFailed(failure.value))];
      } else if HasFolder(w.licenses, dir) {
        errs := errs + [ValidationError(r.line, "license_slug", InDatabase)];
      }
      if dir in seenFsDir {
        errs := errs + [ValidationError(r.line, "license_slug", DuplicateOf(seenFsDir[dir]))];
      } else {
        seenFsDir := seenFsDir[dir := r.line];
      }
    }

    method CheckNumbers(r: Row, columns: seq<string>) returns (errs: seq<ValidationError>)
      ensures AllOnLine(errs, r.line)
      ensures errs == [] <==> forall i | 0 <= i < |columns| :: ParseNonNegativeOpt(Col(r, columns[i])).Some?
    {
      errs := [];
      for i := 0 to |columns|
        invariant AllOnLine(errs, r.line)
        invariant errs == [] <==> forall j | 0 <= j < i :: ParseNonNegativeOpt(Col(r, columns[j])).Some?
      {
        if ParseNonNegativeOpt(Col(r, columns[i])).None? {
          errs := errs + [ValidationError(r.line, columns[i], BadFormat)];
        }
      }
    }

    method CheckDates(r: Row, columns: seq<string>) returns (errs: seq<ValidationError>)
      ensures AllOnLine(errs, r.line)
      ensures errs == [] <==> forall i | 0 <= i < |columns| :: DateOk(Col(r, columns[i]))
    {
      errs := [];
      for i := 0 to |columns|
        invariant AllOnLine(errs, r.line)
        invariant errs == [] <==> forall j | 0 <= j < i :: DateOk(Col(r, columns[j]))
      {
        if !DateOk(Col(r, columns[i])) {
          errs := errs + [ValidationError(r.line, columns[i], BadFormat)];
        }
      }
    }

    method CheckFormats(r: Row) returns (errs: seq<ValidationError>)
      ensures AllOnLine(errs, r.line)
      ensures errs == [] <==> FormatsOk(r)
    {
      hide Col, ParseNonNegativeOpt, DateOk;
      errs := [];
      if Col(r, "count_unit") !in {"device", "user"} {
        errs := errs + [ValidationError(r.line, "count_unit", BadFormat)];
      }
      if Col(r, "contract_type") !in {"perpetual", "subscription"} {
        errs := errs + [ValidationError(r.line, "contract_type", BadFormat)];
      }
      var numbers, dates := ["total_count", "unit_price"], ["purchased_at", "started_at", "expires_at"];
      var more := CheckNumbers(r, numbers);
      errs := errs + more;
      more := CheckDates(r, dates);
      errs := errs + more;
      assert numbers[0] == "total_count" && numbers[1] == "unit_price";
      assert dates[0] == "purchased_at" && dates[1] == "started_at" && dates[2] == "expires_at";
    }

    method CheckRow(rows: seq<Row>, i: nat) returns (errs: seq<ValidationError>)
      requires i < |rows| && Valid(rows[..i])
      modifies this
      ensures Valid(rows[..i + 1])
      ensures AllOnLine(errs, rows[i].line)
      ensures errs == [] <==> RowClean(w, c, rows, i)
    {
      var r := rows[i];
      assert rows[..i + 1] == rows[..i] + [r];
      hide ProductOf, DepartmentOf, KeyFree, FolderFree, KeySeen, FolderSeen, FormatsOk, Complete, Claims, KeyOf, FolderOf;
      ClaimsMean(r);
      errs := CheckRequired(r);
      var more, product, department;
      more, product := ResolveProduct(r);
      errs := errs + more;
      more, department := ResolveDepartment(r);
      errs := errs + more;
      more := CheckKey(r, product, department, rows[..i]);
      errs := errs + more;
      more := CheckFolder(r, rows[..i]);
      errs := errs + more;
      more := CheckFormats(r);
      errs := errs + more;
    }
  }

  lemma ClaimsMean(r: Row)
    ensures Claims(r) <==> KeyOf(r).vendor != "" && KeyOf(r).product != "" && KeyOf(r).slug != ""
  {
  }

  lemma FolderFreeMeans(w: World, c: Catalog, r: Row)
    ensures FolderFree(w, c, r) <==>
              c.broken(FolderQuery(FolderOf(r))).None? && !HasFolder(w.licenses, FolderOf(r))
  {
  }

  lemma KeySeenMore(earlier: seq<Row>, r: Row)
    ensures forall k :: KeySeen(earlier + [r], k) <==> KeySeen(earlier, k) || k == KeyOf(r)
  {
    var rows := earlier + [r];
    assert rows[|earlier|] == r && forall j | 0 <= j < |earlier| :: rows[j] == earlier[j];
  }

  lemma FolderSeenMore(earlier: seq<Row>, r: Row)
    ensures forall dir :: FolderSeen(earlier + [r], dir) <==> FolderSeen(earlier, dir) || (Claims(r) && dir == FolderOf(r))
  {
    var rows := earlier + [r];
    assert rows[|earlier|] == r && forall j | 0 <= j < |earlier| :: rows[j] == earlier[j];
  }

  /** A row is reported exactly if something is wrong with it; nothing reported means all rows are clean. */
  method Validate(w: World, c: Catalog, rows: seq<Row>) returns (errs: seq<ValidationError>)
    requires Numbered(rows)
    ensures errs == [] <==> Clean(w, c, rows)
    ensures forall i | 0 <= i < |rows| ::
              (exists e | e in errs :: e.line == rows[i].line) <==> !RowClean(w, c, rows, i)
  {
    hide RowClean;
    var v := new Validator(w, c);
    errs := [];
    ghost var clean := (i: nat) => i < |rows| && RowClean(w, c, rows, i);
    for n := 0 to |rows|
      invariant v.w == w && v.c == c && v.Valid(rows[..n]) && fresh(v)
      invariant Reported(errs, n, clean)
    {
      var more := v.CheckRow(rows, n);
      ReportedStep(errs, more, n, clean);
      errs := errs + more;
    }
    ReportedAll(errs, |rows|, clean);
    assert forall i: nat | i < |rows| :: clean(i) <==> RowClean(w, c, rows, i);
  }

  // ---- insertion ----

  /** The ids a row's references have; retired departments were turned away before. */
  function Resolved(c: Catalog, r: Row): Option<(nat, nat)> {
    var k := KeyOf(r);
    if k.vendor in c.vendors && (c.vendors[k.vendor], k.product, k.edition) in c.products && k.department in c.departments
    then Some((c.products[(c.vendors[k.vendor], k.product, k.edition)], c.departments[k.department].id))
    else None
  }

  function NilIfEmpty(s: string): Option<string> {
    if s == "" then None else Some(s)
  }

  function RowLicense(c: Catalog, r: Row): License
    requires Resolved(c, r).Some?
  {
    var (product, department) := Resolved(c, r).value;
    License(product, department, KeyOf(r).slug, FolderOf(r), NilIfEmpty(Col(r, "product_keys")), Col(r, "display_name"))
  }

  /** CreateLicense for one row; None when a reference is missing or the natural key taken. */
  function InsertRow(w: World, c: Catalog, r: Row): Option<World> {
    if Resolved(c, r).None? then None
    else
      var row := RowLicense(c, r);
      if HasKey(w.licenses, (row.productID, row.departmentID, row.slug)) then None
      else Some(w.(licenses := w.licenses[w.nextLicense := row], nextLicense := w.nextLicense + 1))
  }

  /** The world once all rows were inserted, one after the other; None when one was refused. */
  function Loaded(w: World, c: Catalog, rows: seq<Row>): Option<World> {
    if rows == [] then Some(w)
    else
      var before := Loaded(w, c, rows[..|rows| - 1]);
      if before.None? then None else InsertRow(before.value, c, rows[|rows| - 1])
  }

  ghost predicate Holds(w: World, c: Catalog, rows: seq<Row>, k: nat, w': World)
    requires k <= |rows|
  {
    && w' == w.(licenses := w'.licenses, nextLicense := w.nextLicense + k)
    && (forall i | i in w.licenses :: i in w'.licenses && w'.licenses[i] == w.licenses[i])
    && (forall i | i in w'.licenses :: i in w.licenses || w.nextLicense <= i < w.nextLicense + k)
    && forall j | 0 <= j < k :: RowHeld(w'.licenses, w.nextLicense + j, c, rows[j])
  }

  predicate RowHeld(licenses: map<nat, License>, id: nat, c: Catalog, r: Row) {
    id in licenses && Resolved(c, r).Some? && licenses[id] == RowLicense(c, r)
  }

  lemma CleanResolves(w: World, c: Catalog, r: Row)
    requires RefsOk(w, c, r)
    ensures Resolved(c, r).Some? && LicensePath(RowLicense(c, r).fsDirPath)
    ensures Claims(r)
    ensures forall i | i in w.licenses ::
              !SameKey(w.licenses[i], RowLicense(c, r)) && w.licenses[i].fsDirPath != RowLicense(c, r).fsDirPath
  {
    var k := KeyOf(r);
    hide LicensePath, LicenseFsDirPath, Col, ParseNonNegativeOpt, DateOk;
    LicenseFsDirText(k.vendor, k.product, k.slug);
    var row := RowLicense(c, r);
    assert !HasKey(w.licenses, (row.productID, row.departmentID, row.slug));
    assert !HasFolder(w.licenses, row.fsDirPath);
  }

  /** Different natural keys in the file are different keys in the database. */
  lemma DistinctRows(c: Catalog, q: Row, r: Row)
    requires CatalogOk(c) && Resolved(c, q).Some? && Resolved(c, r).Some?
    requires SameKey(RowLicense(c, q), RowLicense(c, r))
    ensures KeyOf(q) == KeyOf(r)
  {
  }

  lemma CleanRowFits(w: World, c: Catalog, rows: seq<Row>, k: nat, w': World)
    requires CatalogOk(c) && Clean(w, c, rows) && k < |rows| && Holds(w, c, rows, k, w')
    requires 0 < w.nextLicense && forall i | i in w.licenses :: 0 < i < w.nextLicense
    ensures Resolved(c, rows[k]).Some? && RowFits(w'.licenses, 0, RowLicense(c, rows[k]))
    ensures InsertRow(w', c, rows[k]).Some? && Holds(w, c, rows, k + 1, InsertRow(w', c, rows[k]).value)
  {
    RowFitsAmong(w, c, rows, k, w');
    assert forall i | i in w'.licenses :: i != 0;
    hide *;
    FitsInserts(w', c, rows[k]);
    HoldsMore(w, c, rows, k, w', InsertRow(w', c, rows[k]).value);
  }

  lemma RowFitsAmong(w: World, c: Catalog, rows: seq<Row>, k: nat, w': World)
    requires CatalogOk(c) && Clean(w, c, rows) && k < |rows| && Holds(w, c, rows, k, w')
    ensures Resolved(c, rows[k]).Some? && RowFits(w'.licenses, 0, RowLicense(c, rows[k]))
  {
    assert RowClean(w, c, rows, k);
    CleanResolves(w, c, rows[k]);
    hide *;
    forall i | i in w'.licenses
      ensures w'.licenses[i].fsDirPath != RowLicense(c, rows[k]).fsDirPath
              && !SameKey(w'.licenses[i], RowLicense(c, rows[k]))
    {
      OtherRowDiffers(w, c, rows, k, w', i);
    }
    FitsIf(w'.licenses, RowLicense(c, rows[k]));
  }

  lemma FitsIf(licenses: map<nat, License>, row: License)
    requires LicensePath(row.fsDirPath)
    requires forall i | i in licenses :: licenses[i].fsDirPath != row.fsDirPath && !SameKey(licenses[i], row)
    ensures RowFits(licenses, 0, row)
  {
  }

  lemma OtherRowDiffers(w: World, c: Catalog, rows: seq<Row>, k: nat, w': World, i: nat)
    requires CatalogOk(c) && Clean(w, c, rows) && k < |rows| && Holds(w, c, rows, k, w') && i in w'.licenses
    ensures Resolved(c, rows[k]).Some?
    ensures w'.licenses[i].fsDirPath != RowLicense(c, rows[k]).fsDirPath
            && !SameKey(w'.licenses[i], RowLicense(c, rows[k]))
  {
    assert RowClean(w, c, rows, k);
    CleanResolves(w, c, rows[k]);
    hide *;
    if i in w.licenses {
      OldRow(w, c, rows, k, w', i);
    } else {
      var j := NewRow(w, c, rows, k, w', i);
      EarlierRowDiffers(w, c, rows, j, k);
    }
  }

  lemma OldRow(w: World, c: Catalog, rows: seq<Row>, k: nat, w': World, i: nat)
    requires k <= |rows| && Holds(w, c, rows, k, w') && i in w.licenses
    ensures i in w'.licenses && w'.licenses[i] == w.licenses[i]
  {
  }

  lemma NewRow(w: World, c: Catalog, rows: seq<Row>, k: nat, w': World, i: nat) returns (j: nat)
    requires k <= |rows| && Holds(w, c, rows, k, w') && i in w'.licenses && i !in w.licenses
    ensures j < k && Resolved(c, rows[j]).Some? && w'.licenses[i] == RowLicense(c, rows[j])
  {
    j := i - w.nextLicense;
    assert RowHeld(w'.licenses, w.nextLicense + j, c, rows[j]);
  }

  lemma FitsInserts(w: World, c: Catalog, r: Row)
    requires Resolved(c, r).Some? && RowFits(w.licenses, 0, RowLicense(c, r))
    requires forall i | i in w.licenses :: i != 0
    ensures InsertRow(w, c, r) ==
            Some(w.(licenses := w.licenses[w.nextLicense := RowLicense(c, r)], nextLicense := w.nextLicense + 1))
  {
  }

  lemma HoldsMore(w: World, c: Catalog, rows: seq<Row>, k: nat, w': World, w'': World)
    requires k < |rows| && Resolved(c, rows[k]).Some? && Holds(w, c, rows, k, w')
    requires w'' == w'.(licenses := w'.licenses[w'.nextLicense := RowLicense(c, rows[k])], nextLicense := w'.nextLicense + 1)
    requires forall i | i in w.licenses :: i < w.nextLicense
    ensures Holds(w, c, rows, k + 1, w'')
  {
    hide Resolved, RowLicense;
    assert w'.nextLicense == w.nextLicense + k;
    forall j | 0 <= j < k + 1
      ensures RowHeld(w''.licenses, w.nextLicense + j, c, rows[j])
    {
      assert j < k ==> RowHeld(w'.licenses, w.nextLicense + j, c, rows[j]);
    }
  }

  lemma EarlierRowDiffers(w: World, c: Catalog, rows: seq<Row>, j: nat, k: nat)
    requires CatalogOk(c) && Clean(w, c, rows) && j < k < |rows|
    ensures Resolved(c, rows[j]).Some? && Resolved(c, rows[k]).Some?
    ensures !SameKey(RowLicense(c, rows[j]), RowLicense(c, rows[k]))
    ensures RowLicense(c, rows[j]).fsDirPath != RowLicense(c, rows[k]).fsDirPath
  {
    assert RowClean(w, c, rows, j) && RowClean(w, c, rows, k);
    CleanResolves(w, c, rows[j]);
    CleanResolves(w, c, rows[k]);
    assert rows[..k][j] == rows[j];
    hide RefsOk, FormatsOk;
    assert KeyOf(rows[j]) != KeyOf(rows[k]) && FolderOf(rows[j]) != FolderOf(rows[k]);
    if SameKey(RowLicense(c, rows[j]), RowLicense(c, rows[k])) {
      DistinctRows(c, rows[j], rows[k]);
    }
  }

  lemma {:induction false} CleanLoads(w: World, c: Catalog, rows: seq<Row>, k: nat)
    requires CatalogOk(c) && Clean(w, c, rows) && k <= |rows|
    requires 0 < w.nextLicense && forall i | i in w.licenses :: 0 < i < w.nextLicense
    ensures Loaded(w, c, rows[..k]).Some? && Holds(w, c, rows, k, Loaded(w, c, rows[..k]).value)
  {
    hide Clean, CatalogOk, InsertRow, Resolved, RowLicense;
    if k > 0 {
      CleanLoads(w, c, rows, k - 1);
      assert rows[..k][..k - 1] == rows[..k - 1];
      CleanRowFits(w, c, rows, k - 1, Loaded(w, c, rows[..k - 1]).value);
    }
  }

  /** An import is a run of creations that never touch the file store, so it keeps what every run keeps. */
  lemma {:induction false} ImportIsARun(w: World, c: Catalog, rows: seq<Row>, k: nat, sha: Bytes -> string)
    returns (run: seq<World>)
    requires CatalogOk(c) && Clean(w, c, rows) && k <= |rows| && Inv(w, sha)
    ensures Loaded(w, c, rows[..k]).Some?
    ensures Run(run, sha) && |run| == k + 1 && run[0] == w && run[k] == Loaded(w, c, rows[..k]).value
    ensures run[k].fs == w.fs && run[k].docs == w.docs && Inv(run[k], sha)
  {
    InvBasics(w, sha);
    CleanLoads(w, c, rows, k);
    if k == 0 {
      return [w];
    }
    run := ImportIsARun(w, c, rows, k - 1, sha);
    hide *;
    LoadStep(w, c, rows, k - 1);
    var before, after := run[k - 1], Loaded(w, c, rows[..k]).value;
    CreatedStep(before, after, c, rows[k - 1], sha);
    run := ExtendRun(run, after, sha);
    RunKeepsInv(run, sha, k);
  }

  lemma LoadStep(w: World, c: Catalog, rows: seq<Row>, k: nat)
    requires CatalogOk(c) && Clean(w, c, rows) && k < |rows|
    requires 0 < w.nextLicense && forall i | i in w.licenses :: 0 < i < w.nextLicense
    ensures Loaded(w, c, rows[..k]).Some? && Resolved(c, rows[k]).Some?
    ensures RowFits(Loaded(w, c, rows[..k]).value.licenses, 0, RowLicense(c, rows[k]))
    ensures InsertRow(Loaded(w, c, rows[..k]).value, c, rows[k]) == Loaded(w, c, rows[..k + 1])
  {
    hide Clean, CatalogOk, InsertRow, Resolved, RowLicense;
    CleanLoads(w, c, rows, k);
    assert rows[..k + 1][..k] == rows[..k];
    CleanRowFits(w, c, rows, k, Loaded(w, c, rows[..k]).value);
  }

  lemma CreatedStep(w: World, w': World, c: Catalog, r: Row, sha: Bytes -> string)
    requires Inv(w, sha) && InsertRow(w, c, r) == Some(w')
    requires Resolved(c, r).Some? && RowFits(w.licenses, 0, RowLicense(c, r))
    ensures Step(w, w', sha) && w'.fs == w.fs && w'.docs == w.docs
  {
    InvBasics(w, sha);
    assert CreateStep(w, w', RowLicense(c, r));
  }

  lemma ExtendRun(run: seq<World>, w: World, sha: Bytes -> string) returns (longer: seq<World>)
    requires Run(run, sha) && Step(run[|run| - 1], w, sha)
    ensures Run(longer, sha) && longer == run + [w]
  {
    hide Step, Inv;
    longer := run + [w];
  }

  datatype Inserted = Inserted(w: World, count: nat) | Rejected(line: nat)

  /** `fails(line)` says whether a statement for that row fails by itself. */
  method Insert(w: World, c: Catalog, rows: seq<Row>, fails: nat -> bool) returns (r: Inserted)
    ensures r.Inserted? ==> r.count == |rows| && Loaded(w, c, rows) == Some(r.w)
    ensures r.Rejected? ==> Loaded(w, c, rows).None? || exists i | 0 <= i < |rows| :: fails(rows[i].line)
  {
    var w' := w;
    for k := 0 to |rows|
      invariant Loaded(w, c, rows[..k]) == Some(w')
    {
      assert rows[..k + 1][..k] == rows[..k];
      var inserted := InsertRow(w', c, rows[k]);
      if fails(rows[k].line) || inserted.None? {
        if inserted.None? {
          NeverLoads(w, c, rows, k + 1);
        }
        return Rejected(rows[k].line);
      }
      w' := inserted.value;
    }
    assert rows[..|rows|] == rows;
    r := Inserted(w', |rows|);
  }

  lemma {:induction false} NeverLoads(w: World, c: Catalog, rows: seq<Row>, k: nat)
    requires k <= |rows| && Loaded(w, c, rows[..k]).None?
    ensures Loaded(w, c, rows).None?
    decreases |rows| - k
  {
    if k == |rows| {
      assert rows[..k] == rows;
    } else {
      assert rows[..k + 1][..k] == rows[..k];
      NeverLoads(w, c, rows, k + 1);
    }
  }
}
