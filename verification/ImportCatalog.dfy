/** The reference tables that license and assignment rows are resolved against, by their natural keys. */
module ImportCatalog {
  import opened Wrappers
  import opened ImportRows

  datatype Dept = Dept(id: nat, retired: bool)

  type ProductKey = (nat, string, string)

  type LicenseKey = (nat, nat, string)

  /** One SELECT, by what it asks for. */
  datatype Query =
    | VendorQuery(name: string)
    | ProductQuery(product: ProductKey)
    | DepartmentQuery(department: string)
    | LicenseQuery(license: LicenseKey)
    | FolderQuery(path: seq<string>)
    | SubjectQuery(subject: string)
    | AssignmentQuery(licenseID: nat, subjectID: nat)

  /** `broken` says which SELECTs fail, and how. */
  datatype Catalog = Catalog(
    vendors: map<string, nat>,
    products: map<ProductKey, nat>,
    departments: map<string, Dept>,
    broken: Query -> Option<string>)

  /** Ids are primary keys. */
  ghost predicate CatalogOk(c: Catalog) {
    && (forall a, b | a in c.vendors && b in c.vendors && c.vendors[a] == c.vendors[b] :: a == b)
    && (forall a, b | a in c.products && b in c.products && c.products[a] == c.products[b] :: a == b)
    && (forall a, b | a in c.departments && b in c.departments && c.departments[a].id == c.departments[b].id :: a == b)
  }

  function Answer<T>(failure: Option<string>, hit: Option<T>): Lookup<T> {
    if failure.Some? then Broken(failure.value) else if hit.Some? then Found(hit.value) else Absent
  }

  function FindIn<K, V>(m: map<K, V>, k: K): Option<V> {
    if k in m then Some(m[k]) else None
  }

  function Vendor(c: Catalog, name: string): Lookup<nat> {
    Answer(c.broken(VendorQuery(name)), FindIn(c.vendors, name))
  }

  function Product(c: Catalog, key: ProductKey): Lookup<nat> {
    Answer(c.broken(ProductQuery(key)), FindIn(c.products, key))
  }

  function Department(c: Catalog, code: string): Lookup<Dept> {
    Answer(c.broken(DepartmentQuery(code)), FindIn(c.departments, code))
  }

  function ProblemOf<T>(r: Lookup<T>): Problem {
    if r.Broken? then LookupFailed(r.message) else NotFound
  }
}
