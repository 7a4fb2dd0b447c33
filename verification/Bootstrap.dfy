/** One run of the CSV import: read, validate, and either report, rehearse or commit everything at once. */
module Bootstrap {
  import opened Wrappers
  import opened ImportRows
  import opened ImportCatalog
  import D = ImportDepartments
  import L = ImportLicenses
  import A = ImportAssignments
  import FileTree
  import LicenseWorld

  datatype Tables = Tables(
    departments: D.Departments,
    nextDepartment: nat,
    world: LicenseWorld.World,
    users: A.Assignments,
    nextUser: nat,
    devices: A.Assignments,
    nextDevice: nat)

  /** The importer, with what its SELECTs on other tables answer: outside and inside the transaction. */
  datatype Import =
    | Departments(broken: string -> Option<string>)
    | Licenses(catalog: Catalog)
    | UserAssignments(source: A.Source, inTx: A.Source)
    | DeviceAssignments(source: A.Source, inTx: A.Source)

  datatype Entry = Entry(action: string, kind: string, rows: nat)

  datatype Outcome = BadCsv | Invalid(errs: seq<ValidationError>) | Rehearsed(rows: nat) | Failed | Committed(rows: nat)

  function Kind(i: Import): string {
    match i
    case Departments(_) => "departments"
    case Licenses(_) => "licenses"
    case UserAssignments(_, _) => "user_assignments"
    case DeviceAssignments(_, _) => "device_assignments"
  }

  function Header(i: Import): seq<string> {
    match i
    case Departments(_) => D.HEADER
    case Licenses(_) => L.HEADER
    case UserAssignments(_, _) => A.USER_HEADER
    case DeviceAssignments(_, _) => A.DEVICE_HEADER
  }

  ghost predicate TablesOk(t: Tables) {
    && D.TableOk(t.departments, t.nextDepartment)
    && 0 < t.world.nextLicense && (forall i | i in t.world.licenses :: 0 < i < t.world.nextLicense)
    && A.ActiveUnique(t.users) && (forall i | i in t.users :: i < t.nextUser)
    && A.ActiveUnique(t.devices) && forall i | i in t.devices :: i < t.nextDevice
  }

  /** The transaction reads the tables the validation read. */
  ghost predicate ImportOk(i: Import) {
    match i
    case Departments(_) => true
    case Licenses(c) => CatalogOk(c)
    case UserAssignments(s, q) => A.SameTables(s, q)
    case DeviceAssignments(s, q) => A.SameTables(s, q)
  }

  ghost predicate Clean(t: Tables, i: Import, rows: seq<Row>) {
    match i
    case Departments(broken) => D.Clean(t.departments, broken, rows)
    case Licenses(c) => L.Clean(t.world, c, rows)
    case UserAssignments(s, _) => A.Clean(s, t.users, rows)
    case DeviceAssignments(s, _) => A.Clean(s, t.devices, rows)
  }

  /** One table gained exactly the rows; the others are as before. */
  ghost predicate Imported(t: Tables, t': Tables, i: Import, rows: seq<Row>) {
    var n := |rows|;
    match i
    case Departments(_) =>
      && t' == t.(departments := t'.departments, nextDepartment := t.nextDepartment + n)
      && D.Holds(t.departments, t.nextDepartment, rows, n, t'.departments)
      && (D.Acyclic(t.departments) ==> D.Acyclic(t'.departments))
    case Licenses(c) =>
      && t' == t.(world := t'.world) && L.Holds(t.world, c, rows, n, t'.world)
      && L.Loaded(t.world, c, rows) == Some(t'.world)
    case UserAssignments(s, _) =>
      && t' == t.(users := t'.users, nextUser := t.nextUser + n)
      && A.Holds(s, t.users, t.nextUser, rows, n, t'.users)
    case DeviceAssignments(s, _) =>
      && t' == t.(devices := t'.devices, nextDevice := t.nextDevice + n)
      && A.Holds(s, t.devices, t.nextDevice, rows, n, t'.devices)
  }

  method Validate(t: Tables, i: Import, rows: seq<Row>) returns (errs: seq<ValidationError>)
    requires Numbered(rows)
    ensures errs == [] <==> Clean(t, i, rows)
  {
    match i
    case Departments(broken) => errs := D.Validate(t.departments, broken, rows);
    case Licenses(c) => errs := L.Validate(t.world, c, rows);
    case UserAssignments(s, _) => errs := A.Validate(s, t.users, rows);
    case DeviceAssignments(s, _) => errs := A.Validate(s, t.devices, rows);
  }

  ghost predicate NoneFails(fails: nat -> bool, rows: seq<Row>) {
    forall k | 0 <= k < |rows| :: !fails(rows[k].line)
  }

  method InsertDepartments(t: Tables, i: Import, rows: seq<Row>, fails: nat -> bool) returns (t': Option<Tables>)
    requires TablesOk(t) && Clean(t, i, rows) && i.Departments?
    ensures t'.Some? ==> Imported(t, t'.value, i, rows)
    ensures NoneFails(fails, rows) ==> t'.Some?
  {
    var r := D.Insert(t.departments, t.nextDepartment, rows, fails, i.broken);
    t' := if r.Rejected? then None
          else Some(t.(departments := r.t, nextDepartment := t.nextDepartment + |rows|));
  }

  method InsertLicenses(t: Tables, i: Import, rows: seq<Row>, fails: nat -> bool) returns (t': Option<Tables>)
    requires TablesOk(t) && ImportOk(i) && Clean(t, i, rows) && i.Licenses?
    ensures t'.Some? ==> Imported(t, t'.value, i, rows)
    ensures NoneFails(fails, rows) ==> t'.Some?
  {
    L.CleanLoads(t.world, i.catalog, rows, |rows|);
    assert rows[..|rows|] == rows;
    var r := L.Insert(t.world, i.catalog, rows, fails);
    t' := if r.Rejected? then None else Some(t.(world := r.w));
  }

  method InsertAssignments(t: Tables, i: Import, rows: seq<Row>, fails: nat -> bool) returns (t': Option<Tables>)
    requires TablesOk(t) && ImportOk(i) && Clean(t, i, rows) && (i.UserAssignments? || i.DeviceAssignments?)
    ensures t'.Some? ==> Imported(t, t'.value, i, rows)
    ensures NoneFails(fails, rows) ==> t'.Some?
  {
    if i.UserAssignments? {
      var r := A.Insert(i.inTx, t.users, t.nextUser, rows, fails, i.source);
      t' := if r.Rejected? then None else Some(t.(users := r.t, nextUser := t.nextUser + |rows|));
    } else {
      var r := A.Insert(i.inTx, t.devices, t.nextDevice, rows, fails, i.source);
      t' := if r.Rejected? then None else Some(t.(devices := r.t, nextDevice := t.nextDevice + |rows|));
    }
  }

  /** A committed license import is a run of creations: documents, folders and the file store are unharmed. */
  lemma ImportedLicensesKeepInv(t: Tables, t': Tables, c: Catalog, rows: seq<Row>, sha: FileTree.Bytes -> string)
    requires CatalogOk(c) && Clean(t, Licenses(c), rows) && Imported(t, t', Licenses(c), rows)
    requires LicenseWorld.Inv(t.world, sha)
    ensures LicenseWorld.Inv(t'.world, sha) && t'.world.fs == t.world.fs && t'.world.docs == t.world.docs
  {
    var run := L.ImportIsARun(t.world, c, rows, |rows|, sha);
    assert rows[..|rows|] == rows;
  }

  /** Importing the same file again is refused: its first row is already there. */
  lemma SecondImportRefused(t: Tables, t': Tables, i: Import, rows: seq<Row>)
    requires rows != [] && ImportOk(i) && Clean(t, i, rows) && Imported(t, t', i, rows)
    ensures !Clean(t', i, rows)
  {
    match i
    case Departments(broken) =>
      assert D.RowHeld(t'.departments, t.nextDepartment + 0, rows[0]);
      assert !D.RowClean(t'.departments, broken, rows, 0);
    case Licenses(c) =>
      assert L.RowHeld(t'.world.licenses, t.world.nextLicense + 0, c, rows[0]);
      assert L.HasFolder(t'.world.licenses, L.FolderOf(rows[0]));
      assert !L.RowClean(t'.world, c, rows, 0);
    case UserAssignments(s, _) =>
      assert A.RowHeld(s, t'.users, t.nextUser + 0, rows[0]);
      assert !A.RowClean(s, t'.users, rows, 0);
    case DeviceAssignments(s, _) =>
      assert A.RowHeld(s, t'.devices, t.nextDevice + 0, rows[0]);
      assert !A.RowClean(s, t'.devices, rows, 0);
  }

  class Database {
    var tables: Tables
    var audit: seq<Entry>

    constructor (t: Tables)
      ensures tables == t && audit == []
    {
      tables, audit := t, [];
    }

    /**
     All or nothing. Rows that validate always go in unless a statement fails by itself, and then with
     exactly one audit row; in every other case tables and audit log are as before.
     */
    method Run(i: Import, records: seq<seq<string>>, dryRun: bool, fails: nat -> bool, auditFails: bool, commitFails: bool)
      returns (r: Outcome)
      requires TablesOk(tables) && ImportOk(i)
      modifies this
      ensures !r.Committed? ==> tables == old(tables) && audit == old(audit)
      ensures r.BadCsv? <==> ReadCsv(records, Header(i)).None?
      ensures !r.BadCsv? ==>
                var rows := ReadCsv(records, Header(i)).value;
                && (r.Invalid? <==> !Clean(old(tables), i, rows)) && (r.Invalid? ==> r.errs != [])
                && (r.Rehearsed? <==> Clean(old(tables), i, rows) && dryRun)
                && (r.Committed? ==> audit == old(audit) + [Entry("bootstrap_import", Kind(i), |rows|)]
                                     && Imported(old(tables), tables, i, rows))
                && (r.Failed? ==> auditFails || commitFails || !NoneFails(fails, rows))
    {
      hide Clean, Imported, TablesOk, ImportOk, NoneFails, Kind, Header;
      var read := ReadCsv(records, Header(i));
      if read.None? {
        return BadCsv;
      }
      var rows := read.value;
      var errs := Validate(tables, i, rows);
      if errs != [] {
        return Invalid(errs);
      }
      if dryRun {
        return Rehearsed(|rows|);
      }
      var t';
      match i {
        case Departments(_) => t' := InsertDepartments(tables, i, rows, fails);
        case Licenses(_) => t' := InsertLicenses(tables, i, rows, fails);
        case _ => t' := InsertAssignments(tables, i, rows, fails);
      }
      if t'.None? || auditFails || commitFails {
        return Failed;
      }
      tables := t'.value;
      audit := audit + [Entry("bootstrap_import", Kind(i), |rows|)];
      r := Committed(|rows|);
    }
  }
}
