/**
 License rows, document rows and the file store, seen as one value. `Step` lists what a request may do
 to it; the class in LicenseHandlers shows that every handler does one of these things, and the lemmas
 here say what survives every run.
 */
module LicenseWorld {
  import opened Wrappers
  import opened Paths
  import opened FileTree

  datatype License = License(
    productID: nat,
    departmentID: nat,
    slug: string,
    fsDirPath: Path,
    productKeys: Option<string>,
    detail: string)

  datatype Document = Document(licenseID: nat, storedPath: Path, sha256: string)

  /** `uploaded` is history: the bytes each document row was created for. */
  datatype World = World(
    fs: Tree,
    licenses: map<nat, License>,
    docs: map<nat, Document>,
    uploaded: map<nat, Bytes>,
    nextLicense: nat,
    nextDoc: nat)

  const META := "meta.yml"

  /** UNIQUE(product_id, owning_department_id, license_slug). */
  predicate SameKey(a: License, b: License) {
    a.productID == b.productID && a.departmentID == b.departmentID && a.slug == b.slug
  }

  ghost predicate KeysUnique(licenses: map<nat, License>) {
    forall i, j | i in licenses && j in licenses && i != j :: !SameKey(licenses[i], licenses[j])
  }

  ghost predicate FoldersDistinct(licenses: map<nat, License>) {
    forall i, j | i in licenses && j in licenses && i != j :: licenses[i].fsDirPath != licenses[j].fsDirPath
  }

  /** Document `d` names a file of its own license's folder that still holds what was uploaded. */
  ghost predicate DocumentIntact(w: World, sha: Bytes -> string, d: nat)
    requires d in w.docs
  {
    var doc := w.docs[d];
    && doc.licenseID in w.licenses
    && d in w.uploaded
    && |doc.storedPath| == 5
    && doc.storedPath[..4] == w.licenses[doc.licenseID].fsDirPath
    && PlainPart(doc.storedPath[4]) && doc.storedPath[4] != META
    && doc.storedPath in w.fs.files
    && w.fs.files[doc.storedPath] == w.uploaded[d]
    && doc.sha256 == sha(w.uploaded[d])
  }

  ghost predicate StoredPathsDistinct(docs: map<nat, Document>) {
    forall d, e | d in docs && e in docs && d != e :: docs[d].storedPath != docs[e].storedPath
  }

  ghost predicate LicenseRowsValid(licenses: map<nat, License>, next: nat) {
    && (forall i | i in licenses :: 0 < i < next && LicensePath(licenses[i].fsDirPath))
    && FoldersDistinct(licenses)
    && KeysUnique(licenses)
  }

  ghost predicate Inv(w: World, sha: Bytes -> string) {
    && WF(w.fs)
    && 0 < w.nextLicense
    && LicenseRowsValid(w.licenses, w.nextLicense)
    && (forall d | d in w.docs :: d < w.nextDoc && DocumentIntact(w, sha, d))
    && StoredPathsDistinct(w.docs)
  }

  // ---- what requests do ----

  /** At most the meta.yml of `dir` was written. */
  predicate OnlyMeta(before: Files, after: Files, dir: Path) {
    var meta := dir + [META];
    || after == before
    || (meta in after && after.Keys == before.Keys + {meta} &&
        forall p | p in before && p != meta :: after[p] == before[p])
  }

  /** Nobody else uses this row's folder or natural key. */
  predicate RowFits(licenses: map<nat, License>, id: nat, row: License) {
    && LicensePath(row.fsDirPath)
    && forall i | i in licenses && i != id ::
        licenses[i].fsDirPath != row.fsDirPath && !SameKey(licenses[i], row)
  }

  ghost predicate CreateStep(w: World, w': World, row: License) {
    && RowFits(w.licenses, 0, row)
    && w' == w.(fs := w'.fs, licenses := w.licenses[w.nextLicense := row], nextLicense := w.nextLicense + 1)
    && WF(w'.fs)
    && OnlyMeta(w.fs.files, w'.fs.files, row.fsDirPath)
  }

  /** A new file in the license's folder; the row for it unless the insert failed. */
  ghost predicate UploadStep(w: World, w': World, sha: Bytes -> string, id: nat, name: string, data: Bytes) {
    && id in w.licenses
    && PlainPart(name) && name != META
    && WF(w'.fs)
    && var dir := w.licenses[id].fsDirPath;
       var p := dir + [name];
       && p !in w.fs.files
       && OnlyMeta(w.fs.files[p := data], w'.fs.files, dir)
       && (w' == w.(fs := w'.fs)
           || w' == w.(fs := w'.fs,
                       docs := w.docs[w.nextDoc := Document(id, p, sha(data))],
                       uploaded := w.uploaded[w.nextDoc := data],
                       nextDoc := w.nextDoc + 1))
  }

  /** Every stored path of this license below `oldDir` now starts with `newDir`; no other row changes. */
  function Reprefix(docs: map<nat, Document>, id: nat, oldDir: Path, newDir: Path): map<nat, Document> {
    map d | d in docs ::
      if docs[d].licenseID == id && oldDir < docs[d].storedPath
      then docs[d].(storedPath := newDir + docs[d].storedPath[|oldDir|..])
      else docs[d]
  }

  /** Row, document paths and files have moved together. */
  ghost predicate UpdateStep(w: World, w': World, id: nat, row: License) {
    && id in w.licenses
    && RowFits(w.licenses, id, row)
    && WF(w'.fs)
    && var oldDir, newDir := w.licenses[id].fsDirPath, row.fsDirPath;
       && Vacant(w.fs.files, oldDir, newDir)
       && w' == w.(fs := w'.fs, licenses := w.licenses[id := row],
                   docs := Reprefix(w.docs, id, oldDir, newDir))
       && OnlyMeta(MoveFiles(w.fs.files, oldDir, newDir), w'.fs.files, newDir)
  }

  /** Both tables and every file are as before; only empty directories may differ. */
  ghost predicate QuietStep(w: World, w': World) {
    w' == w.(fs := w'.fs) && WF(w'.fs) && w'.fs.files == w.fs.files
  }

  ghost predicate Step(w: World, w': World, sha: Bytes -> string) {
    || QuietStep(w, w')
    || (exists row :: CreateStep(w, w', row))
    || (exists id, name, data :: UploadStep(w, w', sha, id, name, data))
    || (exists id, row :: UpdateStep(w, w', id, row))
  }

  lemma InvBasics(w: World, sha: Bytes -> string)
    requires Inv(w, sha)
    ensures WF(w.fs) && 0 < w.nextLicense
    ensures forall i | i in w.licenses :: 0 < i < w.nextLicense && LicensePath(w.licenses[i].fsDirPath)
  {
  }

  // ---- every step keeps the invariant ----

  /** Meta files are nobody's document, so rewriting one harms none. */
  lemma IntactUnderMeta(w: World, w': World, sha: Bytes -> string, dir: Path)
    requires Inv(w, sha) && WF(w'.fs)
    requires w' == w.(fs := w'.fs) && OnlyMeta(w.fs.files, w'.fs.files, dir)
    ensures Inv(w', sha)
  {
  }

  lemma CreateKeepsInv(w: World, w': World, sha: Bytes -> string, row: License)
    requires Inv(w, sha) && CreateStep(w, w', row)
    ensures Inv(w', sha)
  {
    var w1 := w.(fs := w'.fs);
    IntactUnderMeta(w, w1, sha, row.fsDirPath);
    forall d | d in w'.docs
      ensures DocumentIntact(w', sha, d)
    {
      assert DocumentIntact(w1, sha, d);
    }
  }

  /** A new file takes nothing away from the documents there are. */
  lemma UploadKeepsDocument(w: World, w': World, sha: Bytes -> string, id: nat, name: string, data: Bytes, d: nat)
    requires Inv(w, sha) && UploadStep(w, w', sha, id, name, data) && d in w.docs
    ensures d in w'.docs && w'.docs[d] == w.docs[d] && d != w.nextDoc && DocumentIntact(w', sha, d)
    ensures w.docs[d].storedPath != w.licenses[id].fsDirPath + [name]
  {
    assert DocumentIntact(w, sha, d) && d < w.nextDoc;
    hide Inv, WF;
    var q := w.docs[d].storedPath;
    assert q != w.licenses[id].fsDirPath + [META] by {
      assert q[4] != META;
    }
  }

  lemma UploadedIntact(w: World, w': World, sha: Bytes -> string, id: nat, name: string, data: Bytes)
    requires UploadStep(w, w', sha, id, name, data) && |w.licenses[id].fsDirPath| == 4
    ensures w.nextDoc in w'.docs && w.nextDoc !in w.docs ==> DocumentIntact(w', sha, w.nextDoc)
    ensures forall d | d in w'.docs && d !in w.docs :: d == w.nextDoc
                                                       && w'.docs[d].storedPath == w.licenses[id].fsDirPath + [name]
  {
  }

  lemma UploadKeepsInv(w: World, w': World, sha: Bytes -> string, id: nat, name: string, data: Bytes)
    requires Inv(w, sha) && UploadStep(w, w', sha, id, name, data)
    ensures Inv(w', sha)
  {
    UploadedIntact(w, w', sha, id, name, data);
    hide WF, OnlyMeta, DocumentIntact, LicenseRowsValid, Plain;
    forall d | d in w.docs
      ensures d in w'.docs && w'.docs[d] == w.docs[d] && d != w.nextDoc && DocumentIntact(w', sha, d)
      ensures w.docs[d].storedPath != w.licenses[id].fsDirPath + [name]
    {
      UploadKeepsDocument(w, w', sha, id, name, data, d);
    }
  }

  /** A path of five components lies below a folder of four exactly when it starts with it. */
  lemma BelowFolder(dir: Path, p: Path)
    requires |dir| == 4 && |p| == 5
    ensures dir <= p <==> p[..4] == dir
    ensures dir < p <==> p[..4] == dir
  {
  }

  lemma UpdatedPath(w: World, w': World, sha: Bytes -> string, id: nat, row: License, d: nat)
    requires Inv(w, sha) && UpdateStep(w, w', id, row) && d in w.docs
    ensures d in w'.docs && w'.docs[d].licenseID == w.docs[d].licenseID && w'.docs[d].sha256 == w.docs[d].sha256
    ensures w'.uploaded == w.uploaded && w'.docs[d].licenseID in w'.licenses
    ensures w'.docs[d].storedPath == Rebase(w.docs[d].storedPath, w.licenses[id].fsDirPath, row.fsDirPath)
    ensures |w'.docs[d].storedPath| == 5 && w'.docs[d].storedPath[4] == w.docs[d].storedPath[4]
    ensures w'.docs[d].storedPath[..4] == w'.licenses[w'.docs[d].licenseID].fsDirPath
  {
    assert DocumentIntact(w, sha, d);
    assert LicensePath(row.fsDirPath) && |w.licenses[id].fsDirPath| == 4;
    hide WF, OnlyMeta, Vacant, MoveFiles, LicensePath, KeysUnique, StoredPathsDistinct;
    BelowFolder(w.licenses[id].fsDirPath, w.docs[d].storedPath);
  }

  lemma UpdatedFile(w: World, w': World, sha: Bytes -> string, id: nat, row: License, d: nat)
    requires Inv(w, sha) && UpdateStep(w, w', id, row) && d in w.docs
    requires d in w'.docs && |w'.docs[d].storedPath| == 5 && w'.docs[d].storedPath[4] != META
    requires w'.docs[d].storedPath == Rebase(w.docs[d].storedPath, w.licenses[id].fsDirPath, row.fsDirPath)
    ensures d in w.uploaded && w'.docs[d].storedPath in w'.fs.files
            && w'.fs.files[w'.docs[d].storedPath] == w.uploaded[d]
  {
    var q, newDir := w'.docs[d].storedPath, row.fsDirPath;
    assert DocumentIntact(w, sha, d);
    MoveFilesAt(w.fs.files, w.licenses[id].fsDirPath, newDir);
    hide WF, MoveFiles, Vacant, Inv, DocumentIntact, RowFits, Rebase;
    assert q != newDir + [META] by {
      assert q[4] != META;
    }
  }

  /** The row of one document follows its file through an update. */
  lemma UpdateKeepsDocument(w: World, w': World, sha: Bytes -> string, id: nat, row: License, d: nat)
    requires Inv(w, sha) && UpdateStep(w, w', id, row) && d in w.docs
    ensures d in w'.docs && DocumentIntact(w', sha, d)
    ensures w'.docs[d].licenseID == w.docs[d].licenseID
    ensures w'.docs[d].storedPath[4] == w.docs[d].storedPath[4]
  {
    assert DocumentIntact(w, sha, d);
    UpdatedPath(w, w', sha, id, row, d);
    hide Inv, UpdateStep;
    UpdatedFile(w, w', sha, id, row, d);
  }

  lemma UpdateKeepsDistinct(w: World, w': World, sha: Bytes -> string, id: nat, row: License, d: nat, e: nat)
    requires Inv(w, sha) && UpdateStep(w, w', id, row)
    requires d in w.docs && e in w.docs && d != e
    ensures w'.docs[d].storedPath != w'.docs[e].storedPath
  {
    hide WF, MoveFiles, OnlyMeta, Vacant;
    UpdateKeepsRows(w, w', sha, id, row);
    assert DocumentIntact(w, sha, d) && DocumentIntact(w, sha, e);
    hide DocumentIntact, LicenseRowsValid, RowFits;
    UpdateKeepsDocument(w, w', sha, id, row, d);
    UpdateKeepsDocument(w, w', sha, id, row, e);
    SamePathSameDocument(w, w', sha, d, e);
  }

  lemma UpdateKeepsRows(w: World, w': World, sha: Bytes -> string, id: nat, row: License)
    requires Inv(w, sha) && UpdateStep(w, w', id, row)
    ensures LicenseRowsValid(w'.licenses, w'.nextLicense)
  {
    assert forall i | i in w'.licenses :: i in w.licenses;
  }

  lemma UpdateKeepsInv(w: World, w': World, sha: Bytes -> string, id: nat, row: License)
    requires Inv(w, sha) && UpdateStep(w, w', id, row)
    ensures Inv(w', sha)
  {
    UpdateKeepsRows(w, w', sha, id, row);
    UpdateKeepsKeys(w, w', sha, id, row);
    hide UpdateStep, LicenseRowsValid, WF, DocumentIntact;
    forall d | d in w'.docs
      ensures d < w'.nextDoc && DocumentIntact(w', sha, d)
    {
      UpdateKeepsDocument(w, w', sha, id, row, d);
    }
    forall d, e | d in w'.docs && e in w'.docs && d != e
      ensures w'.docs[d].storedPath != w'.docs[e].storedPath
    {
      UpdateKeepsDistinct(w, w', sha, id, row, d, e);
    }
  }

  lemma UpdateKeepsKeys(w: World, w': World, sha: Bytes -> string, id: nat, row: License)
    requires Inv(w, sha) && UpdateStep(w, w', id, row)
    ensures WF(w'.fs) && w'.docs.Keys == w.docs.Keys
    ensures w'.nextDoc == w.nextDoc && w'.nextLicense == w.nextLicense
  {
  }

  lemma SamePathSameDocument(w: World, w': World, sha: Bytes -> string, d: nat, e: nat)
    requires d in w.docs && e in w.docs && d != e && d in w'.docs && e in w'.docs
    requires DocumentIntact(w, sha, d) && DocumentIntact(w, sha, e)
    requires DocumentIntact(w', sha, d) && DocumentIntact(w', sha, e)
    requires FoldersDistinct(w'.licenses) && StoredPathsDistinct(w.docs)
    requires w'.docs[d].licenseID == w.docs[d].licenseID && w'.docs[e].licenseID == w.docs[e].licenseID
    requires w'.docs[d].storedPath[4] == w.docs[d].storedPath[4]
    requires w'.docs[e].storedPath[4] == w.docs[e].storedPath[4]
    ensures w'.docs[d].storedPath != w'.docs[e].storedPath
  {
  }

  lemma StepKeepsInv(w: World, w': World, sha: Bytes -> string)
    requires Inv(w, sha) && Step(w, w', sha)
    ensures Inv(w', sha)
  {
    if QuietStep(w, w') {
      IntactUnderMeta(w, w', sha, []);
    } else if row :| CreateStep(w, w', row) {
      CreateKeepsInv(w, w', sha, row);
    } else if id, name, data :| UploadStep(w, w', sha, id, name, data) {
      UploadKeepsInv(w, w', sha, id, name, data);
    } else {
      var id, row :| UpdateStep(w, w', id, row);
      UpdateKeepsInv(w, w', sha, id, row);
    }
  }

  // ---- whole runs ----

  ghost predicate Run(run: seq<World>, sha: Bytes -> string) {
    |run| > 0 && Inv(run[0], sha) && forall i | 0 <= i < |run| - 1 :: Step(run[i], run[i + 1], sha)
  }

  lemma {:induction false} RunKeepsInv(run: seq<World>, sha: Bytes -> string, i: nat)
    requires Run(run, sha) && i < |run|
    ensures Inv(run[i], sha)
  {
    if i > 0 {
      RunKeepsInv(run, sha, i - 1);
      StepKeepsInv(run[i - 1], run[i], sha);
    }
  }

  lemma StepKeepsDocument(w: World, w': World, sha: Bytes -> string, d: nat)
    requires Inv(w, sha) && Step(w, w', sha) && d in w.docs
    ensures d in w.uploaded
    ensures d in w'.docs && w'.docs[d].licenseID == w.docs[d].licenseID && w'.docs[d].sha256 == w.docs[d].sha256
    ensures d in w'.uploaded && w'.uploaded[d] == w.uploaded[d]
  {
    assert DocumentIntact(w, sha, d) && d < w.nextDoc;
    hide Inv, DocumentIntact, WF, OnlyMeta, Vacant, MoveFiles, RowFits;
  }

  lemma KnownUpload(w: World, sha: Bytes -> string, d: nat)
    requires Inv(w, sha) && d in w.docs
    ensures d in w.uploaded
  {
    assert DocumentIntact(w, sha, d);
  }

  /** Once uploaded, a document stays, belongs to the same license and remembers the same bytes. */
  lemma {:induction false} RunKeepsDocuments(run: seq<World>, sha: Bytes -> string, i: nat, j: nat, d: nat)
    requires Run(run, sha) && i <= j < |run| && d in run[i].docs
    ensures d in run[j].docs
    ensures run[j].docs[d].licenseID == run[i].docs[d].licenseID
    ensures run[j].docs[d].sha256 == run[i].docs[d].sha256
    ensures d in run[i].uploaded && d in run[j].uploaded && run[j].uploaded[d] == run[i].uploaded[d]
    decreases j
  {
    hide Inv, Step;
    RunKeepsInv(run, sha, i);
    KnownUpload(run[i], sha, d);
    if i < j {
      var k := j - 1;
      RunKeepsDocuments(run, sha, i, k, d);
      RunKeepsInv(run, sha, k);
      assert Step(run[k], run[k + 1], sha);
      StepKeepsDocument(run[k], run[j], sha, d);
    }
  }

  /**
   The promise of the document store, over every run: whatever was uploaded at some point can later be
   read back, byte for byte, through the path its row then holds; that path lies in the folder its
   license then has; no two rows share a path; and no license folder contains another.
   */
  lemma DocumentsSurviveEveryRun(run: seq<World>, sha: Bytes -> string, i: nat, j: nat)
    requires Run(run, sha) && i <= j < |run|
    ensures forall d | d in run[i].docs ::
              && d in run[j].docs
              && d in run[i].uploaded
              && run[j].docs[d].storedPath in run[j].fs.files
              && run[j].fs.files[run[j].docs[d].storedPath] == run[i].uploaded[d]
              && run[j].docs[d].licenseID == run[i].docs[d].licenseID
              && run[j].docs[d].licenseID in run[j].licenses
              && run[j].licenses[run[j].docs[d].licenseID].fsDirPath < run[j].docs[d].storedPath
    ensures StoredPathsDistinct(run[j].docs)
    ensures forall m, n | m in run[j].licenses && n in run[j].licenses && m != n ::
              !(run[j].licenses[m].fsDirPath <= run[j].licenses[n].fsDirPath)
  {
    RunKeepsInv(run, sha, j);
    forall d | d in run[i].docs
      ensures d in run[j].docs && DocumentIntact(run[j], sha, d)
      ensures d in run[i].uploaded && run[j].uploaded[d] == run[i].uploaded[d]
      ensures run[j].docs[d].licenseID == run[i].docs[d].licenseID
    {
      RunKeepsDocuments(run, sha, i, j, d);
    }
  }

  /** The same on the texts the tables really hold. */
  lemma StoredTexts(w: World, sha: Bytes -> string)
    requires Inv(w, sha)
    ensures forall d | d in w.docs ::
              Text(w.licenses[w.docs[d].licenseID].fsDirPath) + "/" <= Text(w.docs[d].storedPath)
    ensures forall d, e | d in w.docs && e in w.docs && d != e ::
              Text(w.docs[d].storedPath) != Text(w.docs[e].storedPath)
  {
    hide DocumentIntact, WF, LicensePath, Plain, Text;
    forall d | d in w.docs
      ensures w.docs[d].licenseID in w.licenses && |w.docs[d].storedPath| == 5 && Plain(w.docs[d].storedPath)
      ensures Text(w.licenses[w.docs[d].licenseID].fsDirPath) + "/" <= Text(w.docs[d].storedPath)
    {
      StoredText(w, sha, d);
    }
    forall d, e | d in w.docs && e in w.docs && d != e
      ensures Text(w.docs[d].storedPath) != Text(w.docs[e].storedPath)
    {
      var p, q := w.docs[d].storedPath, w.docs[e].storedPath;
      assert p != q;
      if Text(p) == Text(q) {
        TextInjective(p, q);
      }
    }
  }

  lemma DocumentPlace(w: World, sha: Bytes -> string, d: nat)
    requires Inv(w, sha) && d in w.docs
    ensures var doc := w.docs[d];
            && doc.licenseID in w.licenses && |doc.storedPath| == 5 && PlainPart(doc.storedPath[4])
            && LicensePath(w.licenses[doc.licenseID].fsDirPath)
            && doc.storedPath[..4] == w.licenses[doc.licenseID].fsDirPath && doc.storedPath[4] != META
            && doc.storedPath in w.fs.files && sha(w.fs.files[doc.storedPath]) == doc.sha256
  {
    assert DocumentIntact(w, sha, d);
    hide WF, StoredPathsDistinct, FoldersDistinct, KeysUnique, LicensePath, PlainPart;
  }

  lemma PlainChild(dir: Path, c: string)
    requires Plain(dir) && PlainPart(c)
    ensures Plain(dir + [c])
  {
    hide PlainPart;
  }

  lemma ChildText(dir: Path, p: Path)
    requires LicensePath(dir) && |p| == 5 && p[..4] == dir && PlainPart(p[4])
    ensures Plain(p) && Text(dir) + "/" <= Text(p)
  {
    LicensePathLength(dir);
    LicensePathPlain(dir);
    hide *;
    PlainChild(dir, p[4]);
    assert p == dir + [p[4]];
    PrefixText(dir, p);
  }

  lemma StoredText(w: World, sha: Bytes -> string, d: nat)
    requires Inv(w, sha) && d in w.docs
    ensures w.docs[d].licenseID in w.licenses && |w.docs[d].storedPath| == 5 && Plain(w.docs[d].storedPath)
    ensures Text(w.licenses[w.docs[d].licenseID].fsDirPath) + "/" <= Text(w.docs[d].storedPath)
  {
    hide *;
    DocumentPlace(w, sha, d);
    ChildText(w.licenses[w.docs[d].licenseID].fsDirPath, w.docs[d].storedPath);
  }

  lemma LicensePathLength(p: Path)
    requires LicensePath(p)
    ensures |p| == 4
  {
  }

  // ---- renaming a license folder, and taking it back ----

  /** The target may be missing or an empty directory, which is then removed first. */
  ghost predicate FreeOnDisk(t: Tree, p: Path) {
    Stat(t, p) == Missing || (Stat(t, p) == Directory && !HasEntry(t, p))
  }

  /** Exactly when renameLicenseDir succeeds on a healthy operating system. */
  ghost predicate CanRename(t: Tree, oldDir: Path, newDir: Path)
    requires newDir != []
  {
    || Stat(t, oldDir) == Missing
    || (&& Exists(t, oldDir)
        && CanMkdirAll(t, Parent(newDir))
        && FreeOnDisk(MkdirAll(t, Parent(newDir)), newDir)
        && !(oldDir <= newDir))
  }

  function Prepared(t: Tree, newDir: Path): Tree
    requires newDir != []
  {
    RemoveDir(MkdirAll(t, Parent(newDir)), newDir)
  }

  function RenameResult(t: Tree, oldDir: Path, newDir: Path): Tree
    requires newDir != []
  {
    if Stat(t, oldDir) == Missing then t else Move(Prepared(t, newDir), oldDir, newDir)
  }

  lemma PreparedLanding(t: Tree, oldDir: Path, newDir: Path)
    requires WF(t) && oldDir != [] && newDir != [] && Exists(t, oldDir) && CanRename(t, oldDir, newDir)
    ensures WF(Prepared(t, newDir)) && Landing(Prepared(t, newDir), oldDir, newDir)
    ensures Exists(Prepared(t, newDir), oldDir)
  {
    var t1 := MkdirAll(t, Parent(newDir));
    MkdirAllWF(t, Parent(newDir));
    EmptyMeansNothingBelow(t1, newDir);
    RemoveDirWF(t1, newDir);
    var t2 := Prepared(t, newDir);
    assert forall q | Exists(t2, q) :: Exists(t1, q);
    assert oldDir != newDir;
    assert Exists(t1, oldDir);
    assert newDir <= oldDir ==> newDir < oldDir;
  }

  /** A successful rename moves the files and nothing else. */
  lemma RenameMoves(t: Tree, oldDir: Path, newDir: Path)
    requires WF(t) && oldDir != [] && newDir != [] && CanRename(t, oldDir, newDir)
    ensures WF(RenameResult(t, oldDir, newDir))
    ensures RenameResult(t, oldDir, newDir).files == MoveFiles(t.files, oldDir, newDir)
  {
    if Stat(t, oldDir) == Missing {
      MissingHoldsNothing(t, oldDir);
      assert forall p | p in t.files :: Exists(t, p);
      MoveNothing(t.files, oldDir, newDir);
    } else {
      PreparedLanding(t, oldDir, newDir);
      MoveWF(Prepared(t, newDir), oldDir, newDir);
    }
  }

  lemma MissingHoldsNothing(t: Tree, p: Path)
    requires WF(t) && Stat(t, p) == Missing
    ensures forall q | Exists(t, q) :: !(p <= q)
  {
    EmptyMeansNothingBelow(t, p);
    forall q | Exists(t, q)
      ensures !(p <= q)
    {
      assert p <= q ==> p == q || p < q;
    }
  }

  /** Undoing a rename into a free folder always works and puts every file back. */
  lemma RestoreWorks(t: Tree, oldDir: Path, newDir: Path)
    requires WF(t) && |oldDir| == |newDir| > 0
    requires CanRename(t, oldDir, newDir) && FreeOnDisk(t, newDir)
    ensures CanRename(RenameResult(t, oldDir, newDir), newDir, oldDir)
    ensures RenameResult(RenameResult(t, oldDir, newDir), newDir, oldDir).files == t.files
  {
    var t1 := RenameResult(t, oldDir, newDir);
    RenameMoves(t, oldDir, newDir);
    if Stat(t, oldDir) == Missing {
      RestoreEmpty(t, oldDir, newDir);
    } else {
      RestoreMoved(t, oldDir, newDir);
    }
    RenameMoves(t1, newDir, oldDir);
  }

  lemma RestoreEmpty(t: Tree, oldDir: Path, newDir: Path)
    requires WF(t) && |oldDir| == |newDir| > 0
    requires Stat(t, oldDir) == Missing && FreeOnDisk(t, newDir)
    ensures CanRename(t, newDir, oldDir)
    ensures MoveFiles(t.files, newDir, oldDir) == t.files
  {
    EmptyMeansNothingBelow(t, newDir);
    forall q | q in t.files
      ensures !(newDir <= q)
    {
      assert Exists(t, q);
      assert newDir <= q ==> newDir == q || newDir < q;
    }
    MoveNothing(t.files, newDir, oldDir);
    MissingParent(t, oldDir);
    assert newDir <= oldDir ==> newDir == oldDir;
  }

  lemma MissingParent(t: Tree, p: Path)
    requires WF(t) && p != [] && Stat(t, p) == Missing
    ensures CanMkdirAll(t, Parent(p))
    ensures Stat(MkdirAll(t, Parent(p)), p) == Missing
  {
    assert forall k | 0 <= k < |p| :: p[..k] !in t.files;
    assert Parent(p) == p[..|p| - 1];
    forall k | 0 <= k < |Parent(p)|
      ensures Parent(p)[..k] !in t.files
    {
      assert Parent(p)[..k] == p[..k];
    }
  }

  lemma RestoreMoved(t: Tree, oldDir: Path, newDir: Path)
    requires WF(t) && |oldDir| == |newDir| > 0
    requires CanRename(t, oldDir, newDir) && FreeOnDisk(t, newDir) && Exists(t, oldDir)
    ensures CanRename(RenameResult(t, oldDir, newDir), newDir, oldDir)
    ensures MoveFiles(RenameResult(t, oldDir, newDir).files, newDir, oldDir) == t.files
  {
    var t1 := Prepared(t, newDir);
    PreparedLanding(t, oldDir, newDir);
    LandingVacant(t1, oldDir, newDir);
    assert forall p | p in t.files :: Exists(t1, p);
    MoveFilesBack(t.files, oldDir, newDir);
    OldPlaceFree(t1, oldDir, newDir);
  }

  lemma OldPlaceFree(t: Tree, oldDir: Path, newDir: Path)
    requires WF(t) && |oldDir| == |newDir| > 0 && Landing(t, oldDir, newDir) && Exists(t, oldDir)
    ensures CanRename(Move(t, oldDir, newDir), newDir, oldDir)
  {
    var t' := Move(t, oldDir, newDir);
    MoveWF(t, oldDir, newDir);
    MovePlaces(t, oldDir, newDir);
    var parent := Parent(oldDir);
    assert parent in t.dirs by {
      assert oldDir[..|oldDir| - 1] == parent;
    }
    assert parent in t'.dirs;
    forall k | 0 <= k < |oldDir|
      ensures oldDir[..k] !in t'.files
    {
      assert oldDir[..k] == parent[..k];
      assert parent[..k] in t'.dirs;
    }
    assert Stat(t', oldDir) == Missing;
    MissingParent(t', oldDir);
  }

  /**
   Renaming a folder onto itself: harmless while it is missing, an error as soon as it exists, even when
   it is empty, because the empty target is removed before the rename looks for its source.
   */
  lemma RenameOntoItself(t: Tree, dir: Path)
    requires dir != []
    ensures CanRename(t, dir, dir) <==> Stat(t, dir) == Missing
  {
  }
}
