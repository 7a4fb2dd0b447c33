/** When a CSV row passes validation, said on the texts of its columns and on the rows of the tables. */
module ImportRules {
  import opened Wrappers
  import opened Decimal
  import opened Slug
  import opened ImportRows
  import C = ImportCatalog
  import D = ImportDepartments
  import L = ImportLicenses
  import A = ImportAssignments
  import World = LicenseWorld

  /** Nothing, or the text of a calendar day. */
  ghost predicate IsDate(s: string) {
    s == "" || exists d: Date :: RealDay(d) && d.year < 10000 && s == DateText(d)
  }

  lemma DateOkIs(s: string)
    ensures DateOk(s) <==> IsDate(s)
  {
    if s != "" && ParseDate(s).Some? {
      ParseDateExact(s, ParseDate(s).value);
    }
    if s != "" && IsDate(s) {
      var d: Date :| RealDay(d) && d.year < 10000 && s == DateText(d);
      ParseDateExact(s, d);
    }
  }

  /** Nothing, or a number of 63 bits in decimal. */
  ghost predicate IsCount(s: string) {
    s == "" || exists v: nat :: v < INT64_LIMIT && SpelledOut(s, v)
  }

  ghost predicate SpelledOut(s: string, v: nat) {
    Numeral(s, v) || (s != "" && (s[0] == '+' || (s[0] == '-' && v == 0)) && Numeral(s[1..], v))
  }

  lemma CountOkIs(s: string)
    ensures ParseNonNegativeOpt(s).Some? <==> IsCount(s)
  {
    var parsed := ParseNonNegativeOpt(s);
    NonNegativeExact(s, 0);
    if parsed.Some? && parsed.value.Some? {
      NonNegativeExact(s, parsed.value.value);
      assert SpelledOut(s, parsed.value.value);
    }
    if s != "" && IsCount(s) {
      var v: nat :| v < INT64_LIMIT && SpelledOut(s, v);
      NonNegativeExact(s, v);
    }
  }

  /** A column's text is its cell without the white space around it, and a missing column is an empty one. */
  lemma ColumnIs(r: Row, column: string) returns (left: string, right: string)
    ensures (if column in r.fields then r.fields[column] else "") == left + Col(r, column) + right
    ensures Blank(left) && Blank(right)
    ensures Col(r, column) != "" ==> !IsSpace(Col(r, column)[0]) && !IsSpace(Col(r, column)[|Col(r, column)| - 1])
  {
    var cell := if column in r.fields then r.fields[column] else "";
    hide TrimSpace, IsSpace;
    left, right := TrimSpaceIs(cell);
  }

  /** An earlier row has this text in the column. */
  predicate Earlier(rows: seq<Row>, i: nat, column: string, text: string)
    requires i <= |rows|
  {
    exists j | 0 <= j < i :: Col(rows[j], column) == text
  }

  // ---- departments ----

  ghost predicate DepartmentPasses(t: D.Departments, broken: string -> Option<string>, rows: seq<Row>, i: nat)
    requires i < |rows|
  {
    var code, parent := Col(rows[i], "code"), Col(rows[i], "parent_code");
    && code != "" && Col(rows[i], "name") != "" && broken(code).None?
    && (forall k | k in t :: t[k].code != code) && !Earlier(rows, i, "code", code)
    && (parent != "" ==>
          && broken(parent).None? && parent != code
          && ((exists k | k in t :: t[k].code == parent) || Earlier(rows, i, "code", parent)))
    && IsDate(Col(rows[i], "valid_from")) && IsDate(Col(rows[i], "valid_to"))
  }

  lemma DepartmentRule(t: D.Departments, broken: string -> Option<string>, rows: seq<Row>, i: nat)
    requires i < |rows|
    ensures D.RowClean(t, broken, rows, i) <==> DepartmentPasses(t, broken, rows, i)
  {
    DateOkIs(Col(rows[i], "valid_from"));
    DateOkIs(Col(rows[i], "valid_to"));
    EarlierCode(rows, i, Col(rows[i], "code"));
    EarlierCode(rows, i, Col(rows[i], "parent_code"));
    hide IsDate, DateOk, Earlier, D.CodeSeen;
  }

  lemma EarlierCode(rows: seq<Row>, i: nat, code: string)
    requires i < |rows|
    ensures D.CodeSeen(rows[..i], code) <==> Earlier(rows, i, "code", code)
  {
    hide Col;
    if Earlier(rows, i, "code", code) {
      var j :| 0 <= j < i && Col(rows[j], "code") == code;
      assert rows[..i][j] == rows[j];
    }
  }

  // ---- licenses ----

  /** The references a row makes lead to this product and this department, and no SELECT on the way fails. */
  predicate Refers(c: C.Catalog, r: Row, vendor: nat, product: nat, department: nat) {
    var v, p, d := Col(r, "vendor_name"), Col(r, "product_name"), Col(r, "department_code");
    && v != "" && p != "" && d != ""
    && c.broken(C.VendorQuery(v)).None? && v in c.vendors && c.vendors[v] == vendor
    && c.broken(C.ProductQuery((vendor, p, Col(r, "edition")))).None?
    && (vendor, p, Col(r, "edition")) in c.products && c.products[(vendor, p, Col(r, "edition"))] == product
    && c.broken(C.DepartmentQuery(d)).None? && d in c.departments && c.departments[d].id == department
  }

  predicate SameColumns(a: Row, b: Row) {
    && Col(a, "vendor_name") == Col(b, "vendor_name") && Col(a, "product_name") == Col(b, "product_name")
    && Col(a, "edition") == Col(b, "edition") && Col(a, "department_code") == Col(b, "department_code")
    && Col(a, "license_slug") == Col(b, "license_slug")
  }

  function Folder(r: Row): seq<string> {
    ["licenses", Slugify(Col(r, "vendor_name")), Slugify(Col(r, "product_name")), Slugify(Col(r, "license_slug"))]
  }

  predicate NamesFolder(r: Row) {
    Col(r, "vendor_name") != "" && Col(r, "product_name") != "" && Col(r, "license_slug") != ""
  }

  ghost predicate FormatsFit(r: Row) {
    && (Col(r, "count_unit") == "device" || Col(r, "count_unit") == "user")
    && (Col(r, "contract_type") == "perpetual" || Col(r, "contract_type") == "subscription")
    && IsCount(Col(r, "total_count")) && IsCount(Col(r, "unit_price"))
    && IsDate(Col(r, "purchased_at")) && IsDate(Col(r, "started_at")) && IsDate(Col(r, "expires_at"))
  }

  /** No license of the world has this key, none this folder, and the SELECTs that say so work. */
  ghost predicate PlaceFree(w: World.World, c: C.Catalog, r: Row, product: nat, department: nat) {
    && c.broken(C.LicenseQuery((product, department, Col(r, "license_slug")))).None?
    && c.broken(C.FolderQuery(Folder(r))).None?
    && forall k | k in w.licenses ::
         && w.licenses[k].fsDirPath != Folder(r)
         && (w.licenses[k].productID != product || w.licenses[k].departmentID != department
             || w.licenses[k].slug != Col(r, "license_slug"))
  }

  /** The row leads to a product and a department in force where its license has a place. */
  ghost predicate Placed(w: World.World, c: C.Catalog, r: Row) {
    exists vendor, product, department ::
      && Refers(c, r, vendor, product, department) && !c.departments[Col(r, "department_code")].retired
      && PlaceFree(w, c, r, product, department)
  }

  ghost predicate LicensePasses(w: World.World, c: C.Catalog, rows: seq<Row>, i: nat)
    requires i < |rows|
  {
    var r := rows[i];
    && Col(r, "license_slug") != "" && Col(r, "display_name") != "" && FormatsFit(r)
    && Placed(w, c, r)
    && forall j | 0 <= j < i ::
         && !SameColumns(rows[j], r)
         && (NamesFolder(rows[j]) ==> Folder(rows[j]) != Folder(r))
  }

  lemma FormatsAre(r: Row)
    ensures L.FormatsOk(r) <==> FormatsFit(r)
  {
    hide Col;
    CountOkIs(Col(r, "total_count"));
    CountOkIs(Col(r, "unit_price"));
    DateOkIs(Col(r, "purchased_at"));
    DateOkIs(Col(r, "started_at"));
    DateOkIs(Col(r, "expires_at"));
    hide IsCount, IsDate, DateOk, ParseNonNegativeOpt;
  }

  lemma ReferencesAre(c: C.Catalog, r: Row, vendor: nat, product: nat, department: nat)
    ensures Refers(c, r, vendor, product, department) && !c.departments[Col(r, "department_code")].retired ==>
              L.ProductOf(c, r) == Some(product) && L.DepartmentOf(c, r) == Some(department)
    ensures L.ProductOf(c, r) == Some(product) && L.DepartmentOf(c, r) == Some(department)
            && Col(r, "vendor_name") in c.vendors && c.vendors[Col(r, "vendor_name")] == vendor ==>
              Refers(c, r, vendor, product, department) && !c.departments[Col(r, "department_code")].retired
    ensures L.ProductOf(c, r).Some? ==> Col(r, "vendor_name") in c.vendors
  {
    hide Col;
  }

  lemma PlaceIs(w: World.World, c: C.Catalog, r: Row)
    requires L.ProductOf(c, r).Some? && L.DepartmentOf(c, r).Some?
    ensures L.KeyFree(w, c, r) && L.FolderFree(w, c, r)
            <==> PlaceFree(w, c, r, L.ProductOf(c, r).value, L.DepartmentOf(c, r).value)
  {
    hide Col, L.ProductOf, L.DepartmentOf, Slugify;
    var product, department := L.ProductOf(c, r).value, L.DepartmentOf(c, r).value;
    if k :| k in w.licenses && w.licenses[k].productID == product && w.licenses[k].departmentID == department
            && w.licenses[k].slug == Col(r, "license_slug") {
      assert (w.licenses[k].productID, w.licenses[k].departmentID, w.licenses[k].slug)
          == (product, department, Col(r, "license_slug"));
    }
  }

  lemma EarlierRowsAre(rows: seq<Row>, i: nat)
    requires i < |rows|
    ensures !L.KeySeen(rows[..i], L.KeyOf(rows[i])) && !L.FolderSeen(rows[..i], L.FolderOf(rows[i])) <==>
              forall j | 0 <= j < i ::
                && !SameColumns(rows[j], rows[i])
                && (NamesFolder(rows[j]) ==> Folder(rows[j]) != Folder(rows[i]))
  {
    hide Col, Slugify;
    assert forall j | 0 <= j < i :: rows[..i][j] == rows[j];
    assert forall j | 0 <= j < i :: SameColumns(rows[j], rows[i]) <==> L.KeyOf(rows[j]) == L.KeyOf(rows[i]);
    assert forall j | 0 <= j < i :: NamesFolder(rows[j]) <==> L.Claims(rows[j]);
  }

  predicate HasPlace(w: World.World, c: C.Catalog, r: Row) {
    L.ProductOf(c, r).Some? && L.DepartmentOf(c, r).Some? && L.KeyFree(w, c, r) && L.FolderFree(w, c, r)
  }

  lemma HasPlaceIsPlaced(w: World.World, c: C.Catalog, r: Row)
    requires HasPlace(w, c, r)
    ensures Placed(w, c, r)
  {
    hide Col, Refers, PlaceFree, L.KeyFree, L.FolderFree, L.ProductOf, L.DepartmentOf;
    PlaceIs(w, c, r);
    ReferencesAre(c, r, 0, L.ProductOf(c, r).value, L.DepartmentOf(c, r).value);
    var vendor := c.vendors[Col(r, "vendor_name")];
    ReferencesAre(c, r, vendor, L.ProductOf(c, r).value, L.DepartmentOf(c, r).value);
    assert Refers(c, r, vendor, L.ProductOf(c, r).value, L.DepartmentOf(c, r).value);
  }

  lemma PlacedHasPlace(w: World.World, c: C.Catalog, r: Row)
    requires Placed(w, c, r)
    ensures HasPlace(w, c, r)
    ensures Col(r, "vendor_name") != "" && Col(r, "product_name") != "" && Col(r, "department_code") != ""
  {
    var vendor, product, department :| Refers(c, r, vendor, product, department)
      && !c.departments[Col(r, "department_code")].retired && PlaceFree(w, c, r, product, department);
    RefersNames(c, r, vendor, product, department);
    hide Col, Refers, PlaceFree, L.KeyFree, L.FolderFree, L.ProductOf, L.DepartmentOf;
    ReferencesAre(c, r, vendor, product, department);
    PlaceIs(w, c, r);
  }

  /** A license row passes validation exactly under these conditions. */
  lemma LicenseRule(w: World.World, c: C.Catalog, rows: seq<Row>, i: nat)
    requires i < |rows|
    ensures L.RowClean(w, c, rows, i) <==> LicensePasses(w, c, rows, i)
  {
    var r := rows[i];
    hide Col, L.FormatsOk, FormatsFit, L.KeySeen, L.FolderSeen, SameColumns, NamesFolder, Folder, Placed,
         L.KeyFree, L.FolderFree, L.ProductOf, L.DepartmentOf, L.FolderOf;
    FormatsAre(r);
    EarlierRowsAre(rows, i);
    if Placed(w, c, r) {
      PlacedHasPlace(w, c, r);
    }
    if HasPlace(w, c, r) {
      HasPlaceIsPlaced(w, c, r);
    }
  }

  lemma RefersNames(c: C.Catalog, r: Row, vendor: nat, product: nat, department: nat)
    requires Refers(c, r, vendor, product, department)
    ensures Col(r, "vendor_name") != "" && Col(r, "product_name") != "" && Col(r, "department_code") != ""
  {
  }

  /** What a row becomes: the product and department it refers to, its folder, and its own columns. */
  lemma LicenseRowFields(c: C.Catalog, r: Row, vendor: nat, product: nat, department: nat)
    requires Refers(c, r, vendor, product, department)
    ensures L.Resolved(c, r).Some?
    ensures var row, keys := L.RowLicense(c, r), Col(r, "product_keys");
            && row.productID == product && row.departmentID == department && row.slug == Col(r, "license_slug")
            && row.fsDirPath == Folder(r) && row.detail == Col(r, "display_name")
            && (keys == "" ==> row.productKeys == None) && (keys != "" ==> row.productKeys == Some(keys))
  {
    hide Col, Slugify;
  }

  // ---- assignments ----

  /** The row names this license and this subject, a present one, and no SELECT on the way fails. */
  predicate Names(s: A.Source, r: Row, license: nat, subject: nat, vendor: nat, product: nat, department: nat) {
    var slug, code := Col(r, "license_slug"), Col(r, s.column);
    && Refers(s.c, r, vendor, product, department) && slug != "" && code != ""
    && s.c.broken(C.LicenseQuery((product, department, slug))).None?
    && (product, department, slug) in s.licenses && s.licenses[(product, department, slug)] == license
    && s.c.broken(C.SubjectQuery(code)).None? && code in s.subjects
    && s.subjects[code].id == subject && !s.subjects[code].gone
    && s.c.broken(C.AssignmentQuery(license, subject)).None?
  }

  ghost predicate NamesPair(s: A.Source, r: Row, license: nat, subject: nat) {
    exists vendor, product, department :: Names(s, r, license, subject, vendor, product, department)
  }

  ghost predicate AssignmentPasses(s: A.Source, t: A.Assignments, rows: seq<Row>, i: nat)
    requires i < |rows|
  {
    exists license, subject ::
      && NamesPair(s, rows[i], license, subject)
      && (forall k | k in t && t[k].active :: t[k].license != license || t[k].subject != subject)
      && forall j | 0 <= j < i :: !NamesPair(s, rows[j], license, subject)
  }

  lemma ResolvedIs(s: A.Source, r: Row, license: nat, subject: nat, vendor: nat, product: nat, department: nat)
    ensures Names(s, r, license, subject, vendor, product, department) ==> A.PairOf(s, r) == Some((license, subject))
  {
    if Names(s, r, license, subject, vendor, product, department) {
      NoneMissing(s, r);
      hide Col;
      assert A.Resolve(s, r) == A.Licensed(license);
    }
  }

  lemma NoneMissing(s: A.Source, r: Row)
    ensures A.MissingColumns(r) == [] <==>
              Col(r, "vendor_name") != "" && Col(r, "product_name") != "" && Col(r, "department_code") != ""
              && Col(r, "license_slug") != ""
  {
    hide Col;
  }

  lemma PairIsNamed(s: A.Source, r: Row)
    requires A.PairOf(s, r).Some?
    ensures var pair := A.PairOf(s, r).value;
            exists vendor, product, department :: Names(s, r, pair.0, pair.1, vendor, product, department)
  {
    NoneMissing(s, r);
    hide Col;
    var vendor := s.c.vendors[Col(r, "vendor_name")];
    var product := s.c.products[(vendor, Col(r, "product_name"), Col(r, "edition"))];
    var department := s.c.departments[Col(r, "department_code")].id;
    var pair := A.PairOf(s, r).value;
    assert Names(s, r, pair.0, pair.1, vendor, product, department);
  }

  lemma PairIs(s: A.Source, r: Row, license: nat, subject: nat)
    ensures A.PairOf(s, r) == Some((license, subject)) <==> NamesPair(s, r, license, subject)
  {
    hide A.PairOf, Names;
    if A.PairOf(s, r) == Some((license, subject)) {
      PairIsNamed(s, r);
    }
    if vendor, product, department :| Names(s, r, license, subject, vendor, product, department) {
      ResolvedIs(s, r, license, subject, vendor, product, department);
    }
  }

  lemma PairFreeIs(s: A.Source, t: A.Assignments, rows: seq<Row>, i: nat, license: nat, subject: nat)
    requires i < |rows|
    ensures A.PairFree(s, t, rows[..i], (license, subject)) <==>
              && (forall k | k in t && t[k].active :: t[k].license != license || t[k].subject != subject)
              && forall j | 0 <= j < i :: !NamesPair(s, rows[j], license, subject)
  {
    hide A.PairOf, NamesPair;
    forall j | 0 <= j < i
      ensures A.PairOf(s, rows[..i][j]) == Some((license, subject)) <==> NamesPair(s, rows[j], license, subject)
    {
      PairIs(s, rows[j], license, subject);
    }
    if k :| k in t && t[k].active && t[k].license == license && t[k].subject == subject {
      assert t[k] == A.Assignment(license, subject, true);
    }
  }

  lemma AssignmentRule(s: A.Source, t: A.Assignments, rows: seq<Row>, i: nat)
    requires i < |rows|
    ensures A.RowClean(s, t, rows, i) <==> AssignmentPasses(s, t, rows, i)
  {
    hide A.PairOf, NamesPair, A.PairFree;
    if A.RowClean(s, t, rows, i) {
      var pair := A.PairOf(s, rows[i]).value;
      PairIs(s, rows[i], pair.0, pair.1);
      PairFreeIs(s, t, rows, i, pair.0, pair.1);
    }
    if AssignmentPasses(s, t, rows, i) {
      var license, subject :| NamesPair(s, rows[i], license, subject)
        && (forall k | k in t && t[k].active :: t[k].license != license || t[k].subject != subject)
        && forall j | 0 <= j < i :: !NamesPair(s, rows[j], license, subject);
      PairIs(s, rows[i], license, subject);
      PairFreeIs(s, t, rows, i, license, subject);
    }
  }
}
