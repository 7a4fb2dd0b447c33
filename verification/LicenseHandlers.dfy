/**
 The web handlers that change license folders: create, update and uploadDocument, with the file store
 helpers they call. Database and file system errors are inputs (`Faults`), so every contract covers
 every failing run; HTTP, form decoding and logging are not modelled.
 */
module LicenseHandlers {
  import opened Wrappers
  import opened Finite
  import opened Decimal
  import opened Slug
  import opened Paths
  import opened FileTree
  import opened LicenseWorld

  datatype Response = Redirect | Rendered | BadRequest | Forbidden | NotFound | Conflict | InternalError

  /** The parsed license form. */
  datatype Parsed = Parsed(
    productID: nat,
    departmentID: nat,
    vendorName: string,
    productName: string,
    licenseSlug: string,
    productKeys: string,
    detail: string)

  /** Which database statement or system call fails; counters say at which repetition. */
  datatype Faults = Faults(
    read: bool,
    resolve: Option<nat>,
    rename: bool,
    begin: bool,
    reprefix: Option<nat>,
    write: bool,
    gone: bool,
    commit: bool,
    restore: bool,
    meta: bool)

  const HEALTHY := Faults(false, None, false, false, None, false, false, false, false, false)

  function Desired(parsed: Parsed): Path {
    LicenseFsDirPath(parsed.vendorName, parsed.productName, parsed.licenseSlug)
  }

  function RowFor(parsed: Parsed, dir: Path, keys: Option<string>): License {
    License(parsed.productID, parsed.departmentID, parsed.licenseSlug, dir, keys, parsed.detail)
  }

  /** Product keys are write-only: a blank field keeps what is stored. */
  function KeysAfter(parsed: Parsed, stored: Option<string>): Option<string> {
    if parsed.productKeys == "" then stored else Some(parsed.productKeys)
  }

  /** Another license than `id` has the product, department and slug the form asks for. */
  predicate KeyTaken(licenses: map<nat, License>, id: nat, parsed: Parsed) {
    exists i | i in licenses ::
      i != id && licenses[i].productID == parsed.productID && licenses[i].departmentID == parsed.departmentID
      && licenses[i].slug == parsed.licenseSlug
  }

  /** An update has put the form into the row, field by field, and a blank key field has kept the stored keys. */
  ghost predicate Edited(w: World, w': World, id: nat, form: Parsed) {
    && id in w'.licenses && UpdateStep(w, w', id, w'.licenses[id])
    && w'.licenses.Keys == w.licenses.Keys && (forall i | i in w.licenses && i != id :: w'.licenses[i] == w.licenses[i])
    && var before, after := w.licenses[id], w'.licenses[id];
       && after.productID == form.productID && after.departmentID == form.departmentID
       && after.slug == form.licenseSlug && after.detail == form.detail
       && after.productKeys == if form.productKeys == "" then before.productKeys else Some(form.productKeys)
  }

  lemma RowIsEdited(w: World, w': World, id: nat, form: Parsed, dir: Path)
    requires id in w.licenses
    requires UpdateStep(w, w', id, RowFor(form, dir, KeysAfter(form, w.licenses[id].productKeys)))
    ensures Edited(w, w', id, form) && id in w'.licenses
    ensures form.productKeys == "" ==> w'.licenses[id].productKeys == w.licenses[id].productKeys
    ensures form.productKeys != "" ==> w'.licenses[id].productKeys == Some(form.productKeys)
  {
    hide WF, Vacant, MoveFiles, OnlyMeta, RowFits, Reprefix;
  }

  /** A creation has put the form into one new row, field by field. */
  ghost predicate Created(w: World, w': World, form: Parsed) {
    && w.nextLicense in w'.licenses && w'.licenses.Keys == w.licenses.Keys + {w.nextLicense}
    && w'.nextLicense == w.nextLicense + 1
    && (forall i | i in w.licenses && i != w.nextLicense :: w'.licenses[i] == w.licenses[i])
    && var row := w'.licenses[w.nextLicense];
       && row.productID == form.productID && row.departmentID == form.departmentID
       && row.slug == form.licenseSlug && row.detail == form.detail
       && row.productKeys == if form.productKeys == "" then None else Some(form.productKeys)
  }

  lemma RowIsCreated(w: World, w': World, form: Parsed, dir: Path)
    requires CreateStep(w, w', RowFor(form, dir, KeysAfter(form, None)))
    ensures Created(w, w', form) && w'.licenses[w.nextLicense].fsDirPath == dir
  {
    hide WF, OnlyMeta, RowFits;
  }

  lemma RowFields(form: Parsed, dir: Path, keys: Option<string>)
    ensures var row := RowFor(form, dir, keys);
            && row.productID == form.productID && row.departmentID == form.departmentID && row.slug == form.licenseSlug
            && row.fsDirPath == dir
  {
  }

  lemma TakenKeyRefused(licenses: map<nat, License>, id: nat, form: Parsed, row: License)
    requires row.productID == form.productID && row.departmentID == form.departmentID && row.slug == form.licenseSlug
    ensures KeyTaken(licenses, id, form) <==> exists i | i in licenses && i != id :: SameKey(licenses[i], row)
    ensures KeyTaken(licenses, id, form) ==> !RowFits(licenses, id, row)
  {
  }

  // ---- the suffix search ----

  function FoldersOf(licenses: map<nat, License>, exclude: nat): set<Path> {
    set i | i in licenses && i != exclude :: licenses[i].fsDirPath
  }

  ghost function CrowdedDirs(fs: Tree): set<Path> {
    set p | p in fs.dirs && HasEntry(fs, p)
  }

  datatype Inspection = Free | Busy | Broken

  /** Folders another license uses, and folders that exist and are not empty. */
  ghost function TakenFolders(licenses: map<nat, License>, fs: Tree, exclude: nat): set<Path> {
    FoldersOf(licenses, exclude) + CrowdedDirs(fs)
  }

  function Tried(desired: Path, i: nat): set<Path>
    requires desired != []
  {
    set j: nat | 1 <= j < i :: Candidate(desired, j)
  }

  /** `dir` is the n-th candidate and the first that is not taken. */
  ghost predicate FirstFree(licenses: map<nat, License>, fs: Tree, exclude: nat, desired: Path, n: nat, dir: Path)
    requires desired != []
  {
    && n >= 1
    && dir == Candidate(desired, n)
    && dir !in TakenFolders(licenses, fs, exclude)
    && Tried(desired, n) <= TakenFolders(licenses, fs, exclude)
  }

  lemma FirstFreeUnique(licenses: map<nat, License>, fs: Tree, exclude: nat, desired: Path,
                        m: nat, p: Path, n: nat, q: Path)
    requires desired != []
    requires FirstFree(licenses, fs, exclude, desired, m, p) && FirstFree(licenses, fs, exclude, desired, n, q)
    ensures m == n && p == q
  {
  }

  lemma FirstFreeUnused(licenses: map<nat, License>, fs: Tree, exclude: nat, desired: Path, n: nat, dir: Path)
    requires desired != [] && FirstFree(licenses, fs, exclude, desired, n, dir)
    ensures dir == Candidate(desired, n) && dir !in FoldersOf(licenses, exclude)
  {
  }

  /** Each candidate is new, so `i - 1` rejected ones are `i - 1` different folders. */
  lemma NextCandidate(desired: Path, i: nat)
    requires desired != [] && i >= 1
    ensures Candidate(desired, i) !in Tried(desired, i)
    ensures Tried(desired, i + 1) == Tried(desired, i) + {Candidate(desired, i)}
  {
    forall j: nat | 1 <= j < i
      ensures Candidate(desired, j) != Candidate(desired, i)
    {
      if Candidate(desired, j) == Candidate(desired, i) {
        CandidateInjective(desired, j, i);
      }
    }
  }

  lemma {:induction false} TriedSize(desired: Path, i: nat)
    requires desired != [] && i >= 1
    ensures |Tried(desired, i)| == i - 1
  {
    if i == 1 {
      assert Tried(desired, 1) == {};
    } else {
      TriedSize(desired, i - 1);
      NextCandidate(desired, i - 1);
    }
  }

  /** The bound of the search in the terms of the two stores. */
  lemma TakenBound(licenses: map<nat, License>, fs: Tree, exclude: nat)
    ensures |TakenFolders(licenses, fs, exclude)| <= |licenses| + |CrowdedDirs(fs)|
  {
    FoldersBound(licenses, licenses.Keys, exclude);
    assert licenses.Keys == set i | i in licenses;
    assert FoldersOf(licenses, exclude) == set i | i in licenses.Keys && i != exclude :: licenses[i].fsDirPath;
  }

  lemma FoldersBound(licenses: map<nat, License>, ids: set<nat>, exclude: nat)
    requires ids <= licenses.Keys
    ensures |set i | i in ids && i != exclude :: licenses[i].fsDirPath| <= |ids|
    decreases ids
  {
    if ids != {} {
      var i :| i in ids;
      var all := set j | j in ids && j != exclude :: licenses[j].fsDirPath;
      var rest := set j | j in ids - {i} && j != exclude :: licenses[j].fsDirPath;
      FoldersBound(licenses, ids - {i}, exclude);
      SubsetSize(all, rest + {licenses[i].fsDirPath});
    }
  }

  /** A folder nobody else uses and a key nobody else has make a row that fits, and only these do. */
  lemma RowFitsExactly(licenses: map<nat, License>, exclude: nat, row: License)
    requires LicensePath(row.fsDirPath) && row.fsDirPath !in FoldersOf(licenses, exclude)
    ensures RowFits(licenses, exclude, row) <==> forall i | i in licenses && i != exclude :: !SameKey(licenses[i], row)
  {
  }

  /** A row keeps its own folder: nobody else has it. */
  lemma OwnFolder(w: World, sha: Bytes -> string, id: nat)
    requires Inv(w, sha) && id in w.licenses
    ensures w.licenses[id].fsDirPath !in FoldersOf(w.licenses, id)
  {
  }

  // ---- file names ----

  /** filepath.Base with forward slashes. */
  function Base(name: string): string {
    if name == "" then "."
    else
      var s := StripSlashes(name);
      if s == "" then "/" else Split(s)[|Split(s)| - 1]
  }

  function StripSlashes(s: string): string {
    if s != "" && s[|s| - 1] == '/' then StripSlashes(s[..|s| - 1]) else s
  }

  /** filepath.Ext of a name without slashes: the part from the last dot on. */
  function Ext(name: string): (e: string)
    ensures |e| <= |name| && name[|name| - |e|..] == e
  {
    if name == "" then ""
    else
      var rest := Ext(name[1..]);
      if rest != "" then rest else if name[0] == '.' then name else ""
  }

  /** strings.ToLower as far as the extension table can tell: only ASCII letters map into it. */
  function ToLower(s: string): string {
    seq(|s|, i requires 0 <= i < |s| => if 'A' <= s[i] <= 'Z' then ((s[i] as int) + 32) as char else s[i])
  }

  /** The same letter, but for its case. */
  predicate SameLetter(a: char, b: char) {
    || a == b
    || ('A' <= a <= 'Z' && b as int == a as int + 32)
    || ('A' <= b <= 'Z' && a as int == b as int + 32)
  }

  /** Of one length and, position by position, the same letter but for its case. */
  ghost predicate SameButCase(a: string, b: string) {
    |a| == |b| && forall i | 0 <= i < |a| :: SameLetter(a[i], b[i])
  }

  lemma LowerAgreeIff(a: string, b: string)
    ensures ToLower(a) == ToLower(b) <==> SameButCase(a, b)
  {
    var x, y := ToLower(a), ToLower(b);
    if SameButCase(a, b) {
      forall i | 0 <= i < |a|
        ensures x[i] == y[i]
      {
        assert SameLetter(a[i], b[i]);
      }
    }
    if x == y {
      forall i | 0 <= i < |a|
        ensures SameLetter(a[i], b[i])
      {
        assert x[i] == y[i];
      }
    }
  }

  const EXT_TO_MIME := map[
    ".pdf" := "application/pdf", ".png" := "image/png", ".jpg" := "image/jpeg", ".jpeg" := "image/jpeg"]

  const MAGIC_PDF: Bytes := [0x25, 0x50, 0x44, 0x46, 0x2D]
  const MAGIC_PNG: Bytes := [0x89, 0x50, 0x4E, 0x47, 0x0D, 0x0A, 0x1A, 0x0A]
  const MAGIC_JPEG: Bytes := [0xFF, 0xD8, 0xFF]

  function SniffMIME(data: Bytes): string {
    if MAGIC_PDF <= data then "application/pdf"
    else if MAGIC_PNG <= data then "image/png"
    else if MAGIC_JPEG <= data then "image/jpeg"
    else ""
  }

  /** The i-th name tried for a file: stem+ext, then stem_2+ext, stem_3+ext and so on. */
  function FileName(stem: string, ext: string, i: nat): string {
    if i <= 1 then stem + ext else stem + "_" + Itoa(i) + ext
  }

  lemma FileNameInjective(stem: string, ext: string, i: nat, j: nat)
    requires 1 <= i && 1 <= j && FileName(stem, ext, i) == FileName(stem, ext, j)
    ensures i == j
  {
    var a, b := FileName(stem, ext, i), FileName(stem, ext, j);
    if i > 1 && j > 1 {
      assert |Itoa(i)| == |Itoa(j)|;
      assert a[|stem| + 1..|a| - |ext|] == Itoa(i);
      assert b[|stem| + 1..|b| - |ext|] == Itoa(j);
      ItoaInjective(i, j);
    } else {
      assert i > 1 ==> |a| > |stem| + |ext|;
      assert j > 1 ==> |b| > |stem| + |ext|;
    }
  }

  function NamesTried(stem: string, ext: string, i: nat): set<string> {
    set j: nat | 1 <= j < i :: FileName(stem, ext, j)
  }

  lemma NextName(stem: string, ext: string, i: nat)
    requires i >= 1
    ensures FileName(stem, ext, i) !in NamesTried(stem, ext, i)
    ensures NamesTried(stem, ext, i + 1) == NamesTried(stem, ext, i) + {FileName(stem, ext, i)}
  {
    forall j: nat | 1 <= j < i
      ensures FileName(stem, ext, j) != FileName(stem, ext, i)
    {
      if FileName(stem, ext, j) == FileName(stem, ext, i) {
        FileNameInjective(stem, ext, j, i);
      }
    }
  }

  lemma {:induction false} NamesTriedSize(stem: string, ext: string, i: nat)
    requires i >= 1
    ensures |NamesTried(stem, ext, i)| == i - 1
  {
    if i == 1 {
      assert NamesTried(stem, ext, 1) == {};
    } else {
      NamesTriedSize(stem, ext, i - 1);
      NextName(stem, ext, i - 1);
    }
  }

  lemma FileNameText(stem: string, ext: string, i: nat)
    ensures FileName(stem, ext, i) == stem + (if i <= 1 then "" else "_" + Itoa(i)) + ext
  {
    assert stem + "" == stem;
  }

  /** A saved name is one plain component and never meta.yml. */
  lemma SavedNameSafe(stem: string, ext: string, i: nat)
    requires IsSlug(stem) && ext in EXT_TO_MIME
    ensures PlainPart(FileName(stem, ext, i)) && FileName(stem, ext, i) != META
  {
    var name := FileName(stem, ext, i);
    assert ext == ".pdf" || ext == ".png" || ext == ".jpg" || ext == ".jpeg";
    assert name[|name| - 1] == ext[|ext| - 1];
    assert META[|META| - 1] == 'l';
    ItoaDigits(i);
    assert Slug.Forbidden('/');
    assert forall c | c in name :: c in stem || c in ext || c == '_' || c in Itoa(i);
  }

  /** What Save accepts, apart from the file system: extension, size, magic bytes, allowed type. */
  predicate Acceptable(name: string, data: Bytes, maxBytes: nat, allowed: set<string>) {
    var ext := ToLower(Ext(Base(name)));
    && ext in EXT_TO_MIME
    && |data| <= maxBytes
    && SniffMIME(data) == EXT_TO_MIME[ext]
    && SniffMIME(data) in allowed
  }

  function StemOf(name: string): string {
    var base := Base(name);
    Slugify(base[..|base| - |Ext(base)|])
  }

  lemma StemIsSlug(name: string)
    ensures IsSlug(StemOf(name))
  {
  }

  lemma ReprefixInPlace(docs: map<nat, Document>, id: nat, dir: Path)
    ensures Reprefix(docs, id, dir, dir) == docs
  {
    forall d | d in docs
      ensures Reprefix(docs, id, dir, dir)[d] == docs[d]
    {
      var p := docs[d].storedPath;
      assert dir < p ==> dir + p[|dir|..] == p;
    }
  }

  /** An update that failed to undo its rename: the tables are old, the folder's files are elsewhere. */
  ghost predicate Stranded(w: World, w': World, id: nat, newDir: Path) {
    && id in w.licenses
    && LicensePath(newDir) && newDir != w.licenses[id].fsDirPath
    && w' == w.(fs := w'.fs) && WF(w'.fs)
    && w'.fs.files == MoveFiles(w.fs.files, w.licenses[id].fsDirPath, newDir)
  }

  /** A failed undo is visible exactly when the folder held a file. */
  lemma StrandedOnlyWithFiles(w: World, w': World, sha: Bytes -> string, id: nat, newDir: Path)
    requires Inv(w, sha) && Stranded(w, w', id, newDir)
    ensures QuietStep(w, w') <==> forall p | p in w.fs.files :: !(w.licenses[id].fsDirPath <= p)
  {
    var oldDir := w.licenses[id].fsDirPath;
    assert oldDir <= newDir ==> oldDir == newDir;
    assert newDir <= oldDir ==> oldDir == newDir;
    MoveNothing(w.fs.files, oldDir, newDir);
  }

  lemma QuietKeepsInv(w: World, w': World, sha: Bytes -> string)
    requires Inv(w, sha)
    ensures QuietStep(w, w') ==> Inv(w', sha)
  {
  }

  /** The file store before and after update has followed a name change from `oldDir` to `newDir`. */
  ghost predicate Followed(t: Tree, t': Tree, oldDir: Path, newDir: Path, changed: bool)
    requires newDir != []
  {
    if changed then
      FreeOnDisk(t, newDir) && CanRename(t, oldDir, newDir) && t' == RenameResult(t, oldDir, newDir)
    else
      t' == t && oldDir == newDir
  }

  lemma FreeIsVacant(fs: Tree, from: Path, to: Path)
    requires WF(fs) && FreeOnDisk(fs, to)
    ensures Vacant(fs.files, from, to)
  {
    EmptyMeansNothingBelow(fs, to);
    forall p | p in fs.files
      ensures !(to <= p)
    {
      assert Exists(fs, p);
      assert to <= p ==> to == p || to < p;
    }
  }

  /** Following moved exactly the folder's files, and a healthy undo puts every one of them back. */
  lemma UndoWorks(t: Tree, t': Tree, oldDir: Path, newDir: Path, changed: bool)
    requires WF(t) && |oldDir| == |newDir| > 0 && Followed(t, t', oldDir, newDir, changed)
    ensures Vacant(t.files, oldDir, newDir) && t'.files == MoveFiles(t.files, oldDir, newDir)
    ensures changed ==> CanRename(t', newDir, oldDir) && RenameResult(t', newDir, oldDir).files == t.files
    ensures !changed ==> t' == t && oldDir == newDir
  {
    if changed {
      FreeIsVacant(t, oldDir, newDir);
      RenameMoves(t, oldDir, newDir);
      RestoreWorks(t, oldDir, newDir);
    } else {
      MoveNothing(t.files, oldDir, newDir);
    }
  }

  /** The folder search of a healthy update stops at an unreadable candidate, or the rename is refused. */
  ghost predicate CannotFollow(licenses: map<nat, License>, t: Tree, id: nat, want: Path)
    requires want != [] && id in licenses
  {
    exists n: nat, dir :: FirstFree(licenses, t, id, want, n, dir)
                          && (Unreadable(t, dir) || Refused(t, licenses[id].fsDirPath, dir))
  }

  /** What a healthy update plans for the folder: nothing to do, a free place it can move to, or failure. */
  ghost predicate FolderPlan(licenses: map<nat, License>, t: Tree, id: nat, want: Path, plan: Option<Path>)
    requires want != [] && id in licenses
  {
    var oldDir := licenses[id].fsDirPath;
    if want == oldDir then plan == Some(oldDir)
    else
      match plan
      case None => CannotFollow(licenses, t, id, want)
      case Some(dir) => dir != [] && FreeOnDisk(t, dir) && CanRename(t, oldDir, dir)
                        && exists n :: FirstFree(licenses, t, id, want, n, dir)
  }

  /** Failure is exact: an update that finds a place it can move to never meets the conditions of failing. */
  lemma FollowsOrNot(licenses: map<nat, License>, t: Tree, id: nat, want: Path, n: nat, dir: Path)
    requires want != [] && id in licenses && dir != [] && FirstFree(licenses, t, id, want, n, dir)
    requires FreeOnDisk(t, dir) && CanRename(t, licenses[id].fsDirPath, dir)
    ensures !CannotFollow(licenses, t, id, want)
  {
    forall m: nat, q | FirstFree(licenses, t, id, want, m, q)
      ensures q == dir
    {
      FirstFreeUnique(licenses, t, id, want, m, q, n, dir);
    }
    hide FirstFree;
  }

  lemma StoppedSearch(licenses: map<nat, License>, t: Tree, id: nat, want: Path, n: nat, fault: Option<nat>)
    requires want != [] && id in licenses && n >= 1 && Tried(want, n) <= TakenFolders(licenses, t, id)
    requires fault == Some(n) || (Candidate(want, n) !in TakenFolders(licenses, t, id)
                                  && Stat(t, Candidate(want, n)) in {Regular, BelowFile})
    ensures fault == None ==> CannotFollow(licenses, t, id, want)
  {
    if fault == None {
      assert FirstFree(licenses, t, id, want, n, Candidate(want, n)) && Unreadable(t, Candidate(want, n));
    }
  }

  lemma PlanFailsIff(licenses: map<nat, License>, t: Tree, id: nat, want: Path, plan: Option<Path>)
    requires want != [] && id in licenses && FolderPlan(licenses, t, id, want, plan)
    ensures plan.None? <==> want != licenses[id].fsDirPath && CannotFollow(licenses, t, id, want)
  {
    if want != licenses[id].fsDirPath && plan.Some? {
      var n :| FirstFree(licenses, t, id, want, n, plan.value);
      FollowsOrNot(licenses, t, id, want, n, plan.value);
    }
  }

  /** The search comes back to a license's own folder exactly if that is not crowded and no earlier name is free. */
  lemma OwnFolderFoundIff(licenses: map<nat, License>, fs: Tree, id: nat, desired: Path, k: nat, n: nat, p: Path)
    requires desired != [] && k >= 1 && id in licenses && licenses[id].fsDirPath == Candidate(desired, k)
    requires licenses[id].fsDirPath !in FoldersOf(licenses, id)
    requires FirstFree(licenses, fs, id, desired, n, p)
    ensures p == licenses[id].fsDirPath <==>
              licenses[id].fsDirPath !in CrowdedDirs(fs) && Tried(desired, k) <= TakenFolders(licenses, fs, id)
  {
    if p == licenses[id].fsDirPath {
      CandidateInjective(desired, n, k);
    }
    if licenses[id].fsDirPath !in CrowdedDirs(fs) && Tried(desired, k) <= TakenFolders(licenses, fs, id) {
      FirstFreeUnique(licenses, fs, id, desired, n, p, k, licenses[id].fsDirPath);
    }
  }

  /**
   An update that changes no name keeps the folder exactly if that carries no suffix, or is missing on disk
   while every earlier name is taken. In particular a suffixed folder that exists never stays: with contents
   it is moved to another name, empty and found again it makes the update fail.
   */
  lemma FolderStaysIff(licenses: map<nat, License>, t: Tree, id: nat, want: Path, k: nat, plan: Option<Path>)
    requires WF(t) && want != [] && k >= 1 && id in licenses && licenses[id].fsDirPath == Candidate(want, k)
    requires licenses[id].fsDirPath !in FoldersOf(licenses, id) && FolderPlan(licenses, t, id, want, plan)
    ensures plan == Some(licenses[id].fsDirPath) <==>
              || want == licenses[id].fsDirPath
              || (Stat(t, licenses[id].fsDirPath) == Missing && Tried(want, k) <= TakenFolders(licenses, t, id))
    ensures want != licenses[id].fsDirPath && licenses[id].fsDirPath !in CrowdedDirs(t)
            && Stat(t, licenses[id].fsDirPath) != Missing && Tried(want, k) <= TakenFolders(licenses, t, id)
            ==> plan.None?
  {
    var oldDir := licenses[id].fsDirPath;
    if want != oldDir {
      RenameOntoItself(t, oldDir);
      if plan == Some(oldDir) {
        var n :| FirstFree(licenses, t, id, want, n, oldDir);
        OwnFolderFoundIff(licenses, t, id, want, k, n, oldDir);
      }
      if oldDir !in CrowdedDirs(t) && Tried(want, k) <= TakenFolders(licenses, t, id) {
        assert FirstFree(licenses, t, id, want, k, oldDir);
        if Stat(t, oldDir) == Missing {
          FollowsOrNot(licenses, t, id, want, k, oldDir);
        }
        if plan.Some? {
          var n :| FirstFree(licenses, t, id, want, n, plan.value);
          FirstFreeUnique(licenses, t, id, want, n, plan.value, k, oldDir);
        }
      }
    }
  }

  const NAME: Path := ["licenses", "v", "p", "s"]
  const NAME_2: Path := ["licenses", "v", "p", "s_2"]
  const NAME_3: Path := ["licenses", "v", "p", "s_3"]

  /** The folders of two licenses on one name, the second with a document in it. */
  function TwoFolders(): Tree {
    WriteFile(MkdirAll(MkdirAll(Tree(map[], {[]}), NAME), NAME_2), NAME_2 + ["d.pdf"], [])
  }

  lemma TwoFoldersOk()
    ensures WF(TwoFolders()) && TwoFolders().files == map[NAME_2 + ["d.pdf"] := []]
    ensures forall p | p in TwoFolders().dirs :: |p| <= 4 && (|p| == 4 ==> p == NAME || p == NAME_2)
    ensures NAME_2 in TwoFolders().dirs && Parent(NAME_3) in TwoFolders().dirs
  {
    var t0 := Tree(map[], {[]});
    MkdirAllWF(t0, NAME);
    MkdirAllWF(MkdirAll(t0, NAME), NAME_2);
    var d := NAME_2 + ["d.pdf"];
    assert Parent(d) == NAME_2;
    WriteFileWF(MkdirAll(MkdirAll(t0, NAME), NAME_2), d, []);
    assert NAME[..4] == NAME && NAME_2[..4] == NAME_2;
    assert Parent(NAME_3) == NAME[..3];
  }

  function TwoOnOneName(sha: Bytes -> string): World {
    World(TwoFolders(),
          map[1 := License(1, 1, "s", NAME, None, ""), 2 := License(1, 2, "s", NAME_2, None, "")],
          map[1 := Document(2, NAME_2 + ["d.pdf"], sha([]))], map[1 := []], 3, 2)
  }

  lemma NamesAreSlugs()
    ensures LicensePath(NAME) && LicensePath(NAME_2) && LicensePath(NAME_3)
    ensures NAME != NAME_2 && NAME != NAME_3 && NAME_2 != NAME_3
    ensures LicenseFsDirPath("v", "p", "s") == NAME
    ensures Candidate(NAME, 1) == NAME && Candidate(NAME, 2) == NAME_2 && Candidate(NAME, 3) == NAME_3
  {
    SafeNames();
    SlugifyFixed("v");
    SlugifyFixed("p");
    SlugifyFixed("s");
    hide Slugify, IsSlug, Candidate, LicensePath;
    FirstCandidates();
    assert NAME[3] == "s" && NAME_2[3] == "s_2" && NAME_3[3] == "s_3";
    assert "s_2"[2] != "s_3"[2];
  }

  lemma SafeNames()
    ensures IsSlug("v") && IsSlug("p") && IsSlug("s")
    ensures LicensePath(NAME) && LicensePath(NAME_2) && LicensePath(NAME_3)
  {
    assert forall c | c in "vps_23" :: !Slug.Forbidden(c);
    assert forall c | c in "s_2" || c in "s_3" || c in "v" || c in "p" || c in "s" :: c in "vps_23";
    hide Slug.Forbidden;
  }

  lemma FirstCandidates()
    ensures Candidate(NAME, 1) == NAME && Candidate(NAME, 2) == NAME_2 && Candidate(NAME, 3) == NAME_3
  {
    assert Itoa(2) == "2" && Itoa(3) == "3";
    assert "s" + "_" + "2" == "s_2" && "s" + "_" + "3" == "s_3";
    assert NAME[..3] == ["licenses", "v", "p"];
  }

  lemma TwoOnOneNameOk(sha: Bytes -> string)
    ensures Inv(TwoOnOneName(sha), sha)
  {
    NamesAreSlugs();
    TwoFoldersOk();
    hide WF, LicensePath, TwoFolders;
    var w, d := TwoOnOneName(sha), NAME_2 + ["d.pdf"];
    assert d[..4] == NAME_2 && d[4] == "d.pdf" && PlainPart(d[4]) && d[4] != META;
    assert DocumentIntact(w, sha, 1);
    assert LicenseRowsValid(w.licenses, 3);
  }

  /** Updating the second of them without changing a name moves its folder from s_2 to s_3. */
  lemma SuffixedFolderMovesOn(sha: Bytes -> string)
    ensures var w, want := TwoOnOneName(sha), LicenseFsDirPath("v", "p", "s");
            && Inv(w, sha) && w.licenses[2].fsDirPath == Candidate(want, 2) == NAME_2
            && FolderPlan(w.licenses, w.fs, 2, want, Some(NAME_3))
  {
    TwoOnOneNameOk(sha);
    NamesAreSlugs();
    TwoFoldersOk();
    var w := TwoOnOneName(sha);
    hide TwoFolders, Inv, Candidate, WF;
    assert Exists(w.fs, NAME_2 + ["d.pdf"]);
    assert NAME_2 in CrowdedDirs(w.fs);
    assert NAME in FoldersOf(w.licenses, 2) by {
      assert w.licenses[1].fsDirPath == NAME;
    }
    forall c
      ensures !Exists(w.fs, NAME_3 + [c])
    {
      assert (NAME_3 + [c])[..4] == NAME_3 && (NAME_2 + ["d.pdf"])[..4] == NAME_2;
    }
    assert NAME_3 !in CrowdedDirs(w.fs);
    assert FirstFree(w.licenses, w.fs, 2, NAME, 3, NAME_3);
    NewNameFree(w.fs);
  }

  lemma NewNameFree(t: Tree)
    requires t == TwoFolders()
    ensures FreeOnDisk(t, NAME_3) && CanRename(t, NAME_2, NAME_3)
  {
    TwoFoldersOk();
    NamesAreSlugs();
    hide TwoFolders, Candidate, LicensePath;
    assert forall k | 0 <= k <= 4 :: |NAME_3[..k]| == k && NAME_3[..k] !in t.files;
    assert Stat(t, NAME_3) == Missing;
    var parent := Parent(NAME_3);
    assert forall k | 0 <= k < 3 :: parent[..k] == NAME_3[..k];
    assert NAME_3 !in Prefixes(parent);
    assert Stat(MkdirAll(t, parent), NAME_3) == Missing;
    assert Exists(t, NAME_2);
  }

  predicate Unreadable(t: Tree, p: Path) {
    Stat(t, p) in {Regular, BelowFile}
  }

  ghost predicate Refused(t: Tree, oldDir: Path, newDir: Path) {
    newDir != [] && !CanRename(t, oldDir, newDir)
  }

  /** The pieces of a committed update are an UpdateStep. */
  lemma CommittedUpdate(w: World, w': World, sha: Bytes -> string, id: nat, row: License, moved: Tree, changed: bool)
    requires Inv(w, sha) && id in w.licenses && RowFits(w.licenses, id, row)
    requires Followed(w.fs, moved, w.licenses[id].fsDirPath, row.fsDirPath, changed)
    requires WF(w'.fs) && OnlyMeta(moved.files, w'.fs.files, row.fsDirPath)
    requires w' == w.(fs := w'.fs, licenses := w.licenses[id := row],
                      docs := Reprefix(w.docs, id, w.licenses[id].fsDirPath, row.fsDirPath))
    ensures UpdateStep(w, w', id, row) && Inv(w', sha)
  {
    UndoWorks(w.fs, moved, w.licenses[id].fsDirPath, row.fsDirPath, changed);
    hide Inv, WF, OnlyMeta, Vacant, Followed, RowFits;
    UpdateKeepsInv(w, w', sha, id, row);
  }

  /** The pieces of an update that ended otherwise: nothing happened, or the folder is stranded. */
  lemma AbandonedUpdate(w: World, w': World, sha: Bytes -> string, id: nat, newDir: Path, moved: Tree, changed: bool)
    requires Inv(w, sha) && id in w.licenses && LicensePath(newDir)
    requires Followed(w.fs, moved, w.licenses[id].fsDirPath, newDir, changed)
    requires WF(w'.fs) && w' == w.(fs := w'.fs)
    requires w'.fs.files == w.fs.files || w'.fs.files == moved.files
    ensures QuietStep(w, w') || (w'.fs.files == moved.files && Stranded(w, w', id, newDir))
    ensures QuietStep(w, w') ==> Inv(w', sha)
  {
  }

  class Handlers {
    const sha: Bytes -> string
    const maxBytes: nat
    const allowed: set<string>

    var fs: Tree
    var licenses: map<nat, License>
    var docs: map<nat, Document>
    var nextLicense: nat
    var nextDoc: nat
    ghost var uploaded: map<nat, Bytes>

    constructor (sha: Bytes -> string, maxBytes: nat, allowed: set<string>)
      ensures Inv(Now(), this.sha)
      ensures this.sha == sha && this.maxBytes == maxBytes && this.allowed == allowed
    {
      this.sha, this.maxBytes, this.allowed := sha, maxBytes, allowed;
      fs := Tree(map[], {[]});
      licenses, docs, uploaded := map[], map[], map[];
      nextLicense, nextDoc := 1, 1;
    }

    ghost function Now(): World
      reads this
    {
      World(fs, licenses, docs, uploaded, nextLicense, nextDoc)
    }

    method CountLicensesByFsDirPath(dir: Path, exclude: nat) returns (n: nat)
      ensures n > 0 <==> dir in FoldersOf(licenses, exclude)
      ensures n == |set i | i in licenses && licenses[i].fsDirPath == dir && i != exclude|
    {
      var rows := set i | i in licenses && licenses[i].fsDirPath == dir && i != exclude;
      n := |rows|;
      if i :| i in licenses && i != exclude && licenses[i].fsDirPath == dir {
        assert i in rows;
      }
    }

    /** One round of the search: is this candidate free, taken, or impossible to inspect? */
    method InspectCandidate(cand: Path, exclude: nat) returns (v: Inspection)
      ensures v == Free <==> cand !in TakenFolders(licenses, fs, exclude) && FreeOnDisk(fs, cand)
      ensures v == Busy <==> cand in TakenFolders(licenses, fs, exclude)
      ensures v == Broken <==>
                cand !in FoldersOf(licenses, exclude) && Stat(fs, cand) in {Regular, BelowFile}
                && cand !in TakenFolders(licenses, fs, exclude)
    {
      var count := CountLicensesByFsDirPath(cand, exclude);
      if count > 0 {
        return Busy;
      }
      var kind := Stat(fs, cand);
      if kind == Missing {
        return Free;
      }
      if kind != Directory {
        return Broken;
      }
      EntriesMeaning(fs, cand);
      return if Entries(fs, cand) == {} then Free else Busy;
    }

    /** Always ends: every rejected candidate is a different taken folder, and there are finitely many. */
    method ResolveLicenseFsDir(desired: Path, exclude: nat, fault: Option<nat>)
      returns (r: Option<Path>, ghost n: nat)
      requires desired != []
      ensures 1 <= n <= |licenses| + |CrowdedDirs(fs)| + 1
      ensures r.Some? ==> r.value !in TakenFolders(licenses, fs, exclude) && FreeOnDisk(fs, r.value)
      ensures r.Some? ==> FirstFree(licenses, fs, exclude, desired, n, r.value)
      ensures r.None? ==>
                && Tried(desired, n) <= TakenFolders(licenses, fs, exclude)
                && (fault == Some(n) || (Candidate(desired, n) !in TakenFolders(licenses, fs, exclude)
                                         && Stat(fs, Candidate(desired, n)) in {Regular, BelowFile}))
    {
      ghost var room := TakenFolders(licenses, fs, exclude);
      TakenBound(licenses, fs, exclude);
      hide TakenFolders, FreeOnDisk, CrowdedDirs, FoldersOf, Candidate;
      var i := 1;
      while true
        invariant i >= 1
        invariant Tried(desired, i) <= room
        decreases |room| + 1 - i
      {
        var cand := Candidate(desired, i);
        TriedSize(desired, i);
        SubsetSize(Tried(desired, i), room);
        NextCandidate(desired, i);
        hide Tried;
        if fault == Some(i) {
          return None, i;
        }
        var v := InspectCandidate(cand, exclude);
        match v {
          case Free => return Some(cand), i;
          case Broken => return None, i;
          case Busy =>
        }
        RoomForOneMore(Tried(desired, i), cand, room);
        i := i + 1;
      }
    }

    /** Empties the way for a rename without ever touching contents. */
    method PrepareRenameTarget(target: Path) returns (ok: bool)
      requires WF(fs) && target != []
      modifies this`fs
      ensures ok <==> FreeOnDisk(old(fs), target)
      ensures fs == if ok then RemoveDir(old(fs), target) else old(fs)
    {
      var kind := Stat(fs, target);
      if kind == Missing {
        assert RemoveDir(fs, target) == fs;
        return true;
      }
      if kind != Directory {
        return false;
      }
      EntriesMeaning(fs, target);
      if Entries(fs, target) != {} {
        return false;
      }
      fs := RemoveDir(fs, target);
      return true;
    }

    method RenameLicenseDir(oldDir: Path, newDir: Path, fault: bool) returns (ok: bool)
      requires WF(fs) && oldDir != [] && newDir != []
      modifies this`fs
      ensures WF(fs)
      ensures ok <==> !fault && CanRename(old(fs), oldDir, newDir)
      ensures ok ==> fs == RenameResult(old(fs), oldDir, newDir)
      ensures !ok ==> fs.files == old(fs.files)
    {
      if fault {
        return false;
      }
      var kind := Stat(fs, oldDir);
      if kind == Missing {
        return true;
      }
      if kind == BelowFile || !CanMkdirAll(fs, Parent(newDir)) {
        return false;
      }
      MkdirAllWF(fs, Parent(newDir));
      fs := MkdirAll(fs, Parent(newDir));
      EmptyMeansNothingBelow(fs, newDir);
      var ready := PrepareRenameTarget(newDir);
      if !ready {
        return false;
      }
      RemoveDirWF(MkdirAll(old(fs), Parent(newDir)), newDir);
      // os.Rename: the source must still be there and must not contain the target
      if !Exists(fs, oldDir) || oldDir <= newDir {
        return false;
      }
      PreparedLanding(old(fs), oldDir, newDir);
      MoveWF(fs, oldDir, newDir);
      fs := Move(fs, oldDir, newDir);
      return true;
    }

    method ReprefixDocumentPaths(id: nat, oldDir: Path, newDir: Path, fault: Option<nat>) returns (ok: bool)
      modifies this`docs
      ensures ok ==> docs == Reprefix(old(docs), id, oldDir, newDir)
      ensures fault == None ==> ok
    {
      if fault == Some(0) {
        return false;
      }
      var statements := 0;
      var todo := set d | d in docs && docs[d].licenseID == id;
      while todo != {}
        invariant docs.Keys == old(docs.Keys)
        invariant todo <= docs.Keys
        invariant forall d | d in docs ::
                    docs[d] == if d in todo then old(docs)[d] else Reprefix(old(docs), id, oldDir, newDir)[d]
        decreases todo
      {
        var d :| d in todo;
        var stored := docs[d].storedPath;
        if oldDir < stored {
          statements := statements + 1;
          if fault == Some(statements) {
            return false;
          }
          docs := docs[d := docs[d].(storedPath := newDir + stored[|oldDir|..])];
        }
        todo := todo - {d};
      }
      return true;
    }

    /** Rewrites the folder's meta.yml; failures are only logged by the callers. */
    method RegenerateLicenseFS(id: nat, fault: bool, body: Bytes) returns (ok: bool)
      requires WF(fs) && id in licenses && licenses[id].fsDirPath != []
      modifies this`fs
      ensures WF(fs) && OnlyMeta(old(fs.files), fs.files, licenses[id].fsDirPath)
      ensures ok ==> licenses[id].fsDirPath + [META] in fs.files && fs.files[licenses[id].fsDirPath + [META]] == body
    {
      var dir := licenses[id].fsDirPath;
      if fault || !CanMkdirAll(fs, dir) {
        return false;
      }
      MkdirAllWF(fs, dir);
      fs := MkdirAll(fs, dir);
      var meta := dir + [META];
      if meta in fs.dirs {
        return false;
      }
      assert Parent(meta) == dir;
      WriteFileWF(fs, meta, body);
      fs := WriteFile(fs, meta, body);
      return true;
    }

    /** The undo closure of update: a no-op unless the folder was renamed before. */
    method RestoreRename(dirChanged: bool, fsDir: Path, oldDir: Path, fault: bool)
      requires WF(fs) && fsDir != [] && oldDir != []
      modifies this`fs
      ensures WF(fs)
      ensures !dirChanged ==> fs == old(fs)
      ensures dirChanged && !fault && CanRename(old(fs), fsDir, oldDir) ==>
                fs == RenameResult(old(fs), fsDir, oldDir)
      ensures fault ==> fs.files == old(fs.files)
    {
      if dirChanged {
        var ok := RenameLicenseDir(fsDir, oldDir, fault);
      }
    }

    /** Exclusive creation under the first name that is still free; always ends, like the folder search. */
    method WriteUnique(dir: Path, stem: string, ext: string, data: Bytes, fails: bool)
      returns (r: Option<string>, ghost n: nat)
      requires WF(fs)
      modifies this`fs
      ensures WF(fs)
      ensures 1 <= n <= |Entries(old(fs), dir)| + 1
      ensures forall i: nat | 1 <= i < n :: Exists(old(fs), dir + [FileName(stem, ext, i)])
      ensures r.Some? ==>
                && r.value == FileName(stem, ext, n) && !Exists(old(fs), dir + [r.value])
                && fs == WriteFile(old(fs), dir + [r.value], data)
      ensures r.None? ==> fs == old(fs) && (fails || dir !in fs.dirs)
    {
      EntriesMeaning(fs, dir);
      ghost var room := Entries(fs, dir);
      hide WF, Entries;
      var i := 1;
      while true
        invariant i >= 1 && fs == old(fs)
        invariant NamesTried(stem, ext, i) <= room
        invariant forall j: nat | 1 <= j < i :: Exists(fs, dir + [FileName(stem, ext, j)])
        decreases |room| + 1 - i
      {
        var name := FileName(stem, ext, i);
        NamesTriedSize(stem, ext, i);
        NextName(stem, ext, i);
        SubsetSize(NamesTried(stem, ext, i), room);
        if !Exists(fs, dir + [name]) {
          if fails || dir !in fs.dirs {
            return None, i;
          }
          assert Parent(dir + [name]) == dir;
          WriteFileWF(fs, dir + [name], data);
          fs := WriteFile(fs, dir + [name], data);
          return Some(name), i;
        }
        RoomForOneMore(NamesTried(stem, ext, i), name, room);
        i := i + 1;
      }
    }

    /** Validate the upload, make the folder, write under a free name. */
    method Save(dir: Path, originalName: string, data: Bytes, fails: bool) returns (r: Option<string>)
      requires WF(fs)
      modifies this`fs
      ensures WF(fs)
      ensures r.Some? ==>
                && Acceptable(originalName, data, maxBytes, allowed)
                && PlainPart(r.value) && r.value != META
                && dir + [r.value] !in old(fs.files)
                && fs.files == old(fs.files)[dir + [r.value] := data]
                && exists i: nat :: r.value == FileName(StemOf(originalName), ToLower(Ext(Base(originalName))), i)
      ensures r.None? ==> fs.files == old(fs.files)
      ensures r.None? <==> fails || !Acceptable(originalName, data, maxBytes, allowed) || !CanMkdirAll(old(fs), dir)
    {
      StemIsSlug(originalName);
      hide WF, ToLower, SniffMIME, StemOf, IsSlug, PlainPart, CanMkdirAll;
      var ext := ToLower(Ext(Base(originalName)));
      if ext !in EXT_TO_MIME {
        return None;
      }
      if |data| > maxBytes {
        return None;
      }
      var mime := SniffMIME(data);
      if mime != EXT_TO_MIME[ext] || mime !in allowed || fails || !CanMkdirAll(fs, dir) {
        return None;
      }
      MkdirAllWF(fs, dir);
      fs := MkdirAll(fs, dir);
      var stem := StemOf(originalName);
      ghost var n;
      r, n := WriteUnique(dir, stem, ext, data, false);
      SavedNameSafe(stem, ext, n);
    }

    method UploadDocument(id: nat, may: nat -> bool, docType: string, originalName: string, data: Bytes,
                          f: Faults, meta: Bytes) returns (resp: Response)
      requires Inv(Now(), sha)
      modifies this`fs, this`docs, this`nextDoc, this`uploaded
      ensures Inv(Now(), sha)
      ensures resp in {Redirect, Rendered} ==>
                && id in old(licenses)
                && Acceptable(originalName, data, maxBytes, allowed)
                && docs.Keys == old(docs.Keys) + {old(nextDoc)}
                && exists name :: UploadStep(old(Now()), Now(), sha, id, name, data)
      ensures resp !in {Redirect, Rendered} ==>
                || QuietStep(old(Now()), Now())
                || (f.write && exists name :: UploadStep(old(Now()), Now(), sha, id, name, data))
      ensures !f.read && id in old(licenses) && may(old(licenses)[id].departmentID) ==>
                (resp == BadRequest <==>
                 || docType !in {"certificate", "order", "other"}
                 || !Acceptable(originalName, data, maxBytes, allowed)
                 || f.rename || !CanMkdirAll(old(fs), old(licenses)[id].fsDirPath))
      ensures f == HEALTHY && id in old(licenses) && may(old(licenses)[id].departmentID) ==>
                resp in {BadRequest, Redirect, Rendered}
    {
      InvBasics(Now(), sha);
      QuietKeepsInv(Now(), Now(), sha);
      hide Inv, WF, Acceptable, OnlyMeta, Step;
      if f.read {
        return InternalError;
      }
      if id !in licenses {
        return NotFound;
      }
      if !may(licenses[id].departmentID) {
        return Forbidden;
      }
      if docType !in {"certificate", "order", "other"} {
        return BadRequest;
      }
      var dir := licenses[id].fsDirPath;
      var saved := Save(dir, originalName, data, f.rename);
      if saved.None? {
        QuietKeepsInv(old(Now()), Now(), sha);
        return BadRequest;
      }
      resp := RecordDocument(id, saved.value, data, f, meta, old(Now()));
    }

    /** The row for a saved file, then meta.yml. A failed insert leaves the file behind, unregistered. */
    method RecordDocument(id: nat, name: string, data: Bytes, f: Faults, meta: Bytes, ghost before: World)
      returns (resp: Response)
      requires Inv(before, sha) && WF(fs) && Now() == before.(fs := fs)
      requires id in licenses && PlainPart(name) && name != META
      requires licenses[id].fsDirPath + [name] !in before.fs.files
      requires fs.files == before.fs.files[licenses[id].fsDirPath + [name] := data]
      modifies this`fs, this`docs, this`nextDoc, this`uploaded
      ensures Inv(Now(), sha)
      ensures UploadStep(before, Now(), sha, id, name, data)
      ensures resp == InternalError <==> f.write
      ensures resp in {Redirect, Rendered, InternalError}
      ensures resp != InternalError ==> docs.Keys == old(docs.Keys) + {old(nextDoc)}
    {
      InvBasics(before, sha);
      hide Inv, WF;
      var dir := licenses[id].fsDirPath;
      if f.write {
        UploadKeepsInv(before, Now(), sha, id, name, data);
        return InternalError;
      }
      docs := docs[nextDoc := Document(id, dir + [name], sha(data))];
      uploaded := uploaded[nextDoc := data];
      nextDoc := nextDoc + 1;
      var ok := RegenerateLicenseFS(id, f.meta, meta);
      UploadKeepsInv(before, Now(), sha, id, name, data);
      resp := if ok then Redirect else Rendered;
    }

    /** INSERT INTO licenses and the folder with its meta.yml; only the insert can fail the request. */
    method InsertLicense(row: License, metaFails: bool, meta: Bytes)
      requires Inv(Now(), sha) && RowFits(licenses, 0, row)
      modifies this`fs, this`licenses, this`nextLicense
      ensures Inv(Now(), sha) && CreateStep(old(Now()), Now(), row)
    {
      InvBasics(Now(), sha);
      hide Inv, WF, OnlyMeta;
      var id := nextLicense;
      licenses := licenses[id := row];
      nextLicense := nextLicense + 1;
      var ok := RegenerateLicenseFS(id, metaFails, meta);
      CreateKeepsInv(old(Now()), Now(), sha, row);
    }

    method Create(parsed: Parsed, may: nat -> bool, f: Faults, meta: Bytes)
      returns (resp: Response, ghost plan: Option<Path>)
      requires Inv(Now(), sha)
      modifies this`fs, this`licenses, this`nextLicense
      ensures Inv(Now(), sha)
      ensures resp == Redirect ==>
                && plan.Some?
                && CreateStep(old(Now()), Now(), RowFor(parsed, plan.value, KeysAfter(parsed, None)))
      ensures resp == Redirect ==> Created(old(Now()), Now(), parsed) && licenses[old(nextLicense)].fsDirPath == plan.value
      ensures resp != Redirect ==> Now() == old(Now())
      ensures resp == Conflict ==> KeyTaken(old(licenses), 0, parsed)
      ensures f == HEALTHY && KeyTaken(old(licenses), 0, parsed) ==> resp != Redirect
      ensures plan.Some? ==> exists n :: FirstFree(old(licenses), old(fs), 0, Desired(parsed), n, plan.value)
      ensures f == HEALTHY && may(parsed.departmentID) ==>
                && (resp == InternalError <==> plan.None?)
                && (resp == Redirect <==>
                    plan.Some? && RowFits(old(licenses), 0, RowFor(parsed, plan.value, KeysAfter(parsed, None))))
      ensures !may(parsed.departmentID) && !f.read ==> resp == Forbidden
    {
      InvBasics(Now(), sha);
      hide Inv, FirstFree, LicensePath, CreateStep, RowFits, RowFor, KeysAfter, Created, KeyTaken;
      plan := None;
      LicenseFsDirText(parsed.vendorName, parsed.productName, parsed.licenseSlug);
      if f.read {
        return InternalError, plan;
      }
      if !may(parsed.departmentID) {
        return Forbidden, plan;
      }
      var resolved, n := ResolveLicenseFsDir(Desired(parsed), 0, f.resolve);
      if resolved.None? {
        return InternalError, plan;
      }
      plan := resolved;
      FirstFreeUnused(licenses, fs, 0, Desired(parsed), n, resolved.value);
      CandidateShape(Desired(parsed), n);
      var row := RowFor(parsed, resolved.value, KeysAfter(parsed, None));
      RowFields(parsed, resolved.value, KeysAfter(parsed, None));
      RowFitsExactly(licenses, 0, row);
      TakenKeyRefused(licenses, 0, parsed, row);
      if f.write {
        return InternalError, plan;
      }
      if exists i | i in licenses :: SameKey(licenses[i], row) {
        return Conflict, plan;
      }
      InsertLicense(row, f.meta, meta);
      RowIsCreated(old(Now()), Now(), parsed, resolved.value);
      return Redirect, plan;
    }

    /** The folder part of update: settle on a folder and rename into it. */
    method FollowFolder(id: nat, want: Path, f: Faults) returns (settled: bool, fsDir: Path, dirChanged: bool)
      requires WF(fs) && id in licenses && LicensePath(want) && LicensePath(licenses[id].fsDirPath)
      modifies this`fs
      ensures WF(fs)
      ensures !settled ==> fs.files == old(fs.files)
      ensures settled ==> LicensePath(fsDir) && Followed(old(fs), fs, licenses[id].fsDirPath, fsDir, dirChanged)
      ensures settled && dirChanged ==> exists n :: FirstFree(licenses, old(fs), id, want, n, fsDir)
      ensures settled && !dirChanged ==> fsDir == want
      ensures dirChanged ==> want != licenses[id].fsDirPath
      ensures f.resolve == None && !f.rename ==>
                FolderPlan(licenses, old(fs), id, want, if settled then Some(fsDir) else None)
      ensures settled ==> fsDir !in FoldersOf(licenses, id) || fsDir == licenses[id].fsDirPath
    {
      hide WF, FirstFree, TakenFolders, Tried, FreeOnDisk, CanRename;
      fsDir := licenses[id].fsDirPath;
      dirChanged := false;
      if want == fsDir {
        settled := true;
        return;
      }
      var resolved, n := ResolveLicenseFsDir(want, id, f.resolve);
      if resolved.None? {
        settled := false;
        StoppedSearch(licenses, fs, id, want, n, f.resolve);
        return;
      }
      fsDir := resolved.value;
      FirstFreeUnused(licenses, fs, id, want, n, fsDir);
      CandidateShape(want, n);
      settled := RenameLicenseDir(licenses[id].fsDirPath, fsDir, f.rename);
      dirChanged := settled;
    }

    /** The transaction part of update: rows and stored paths together, or neither and the folder back. */
    method CommitRows(id: nat, row: License, oldDir: Path, dirChanged: bool, f: Faults, ghost before: Tree)
      returns (resp: Response)
      requires WF(before) && WF(fs) && id in licenses && licenses[id].fsDirPath == oldDir
      requires |oldDir| == |row.fsDirPath| > 0 && Followed(before, fs, oldDir, row.fsDirPath, dirChanged)
      modifies this`fs, this`licenses, this`docs
      ensures WF(fs)
      ensures resp == Redirect ==>
                && fs == old(fs) && licenses == old(licenses)[id := row]
                && docs == Reprefix(old(docs), id, oldDir, row.fsDirPath)
                && forall i | i in old(licenses) && i != id :: !SameKey(old(licenses)[i], row)
      ensures resp != Redirect ==>
                && licenses == old(licenses) && docs == old(docs)
                && (fs.files == before.files || (f.restore && fs.files == old(fs.files)))
      ensures resp in {Redirect, Conflict, NotFound, InternalError}
      ensures resp == Conflict ==> exists i | i in old(licenses) && i != id :: SameKey(old(licenses)[i], row)
      ensures f == HEALTHY ==> resp in {Redirect, Conflict}
    {
      UndoWorks(before, fs, oldDir, row.fsDirPath, dirChanged);
      hide WF, Followed, CanRename, RenameResult;
      if f.begin {
        RestoreRename(dirChanged, row.fsDirPath, oldDir, f.restore);
        return InternalError;
      }
      var savedLicenses, savedDocs := licenses, docs;
      if dirChanged {
        var ok := ReprefixDocumentPaths(id, oldDir, row.fsDirPath, f.reprefix);
        if !ok {
          licenses, docs := savedLicenses, savedDocs;
          RestoreRename(dirChanged, row.fsDirPath, oldDir, f.restore);
          return InternalError;
        }
      } else {
        ReprefixInPlace(docs, id, oldDir);
      }
      resp := UpdateLicense(id, row, f);
      if resp == Redirect && f.commit {
        resp := InternalError;
      }
      if resp != Redirect {
        licenses, docs := savedLicenses, savedDocs;
        RestoreRename(dirChanged, row.fsDirPath, oldDir, f.restore);
      }
    }

    /** UPDATE licenses ... WHERE id = ?: an error, a unique violation, no row, or one row changed. */
    method UpdateLicense(id: nat, row: License, f: Faults) returns (resp: Response)
      requires id in licenses
      modifies this`licenses
      ensures resp in {Redirect, Conflict, NotFound, InternalError}
      ensures licenses == if resp == Redirect then old(licenses)[id := row] else old(licenses)
      ensures resp == InternalError <==> f.write
      ensures resp == Conflict <==>
                !f.write && exists i | i in old(licenses) && i != id :: SameKey(old(licenses)[i], row)
      ensures resp == NotFound <==>
                !f.write && f.gone && forall i | i in old(licenses) && i != id :: !SameKey(old(licenses)[i], row)
    {
      if f.write {
        return InternalError;
      }
      if exists i | i in licenses && i != id :: SameKey(licenses[i], row) {
        return Conflict;
      }
      if f.gone {
        return NotFound;
      }
      licenses := licenses[id := row];
      return Redirect;
    }

    /** From a followed folder to the end of the request. `before` is the world the request started in. */
    method FinishUpdate(id: nat, row: License, dirChanged: bool, f: Faults, meta: Bytes, ghost before: World)
      returns (resp: Response)
      requires Inv(before, sha) && WF(fs) && Now() == before.(fs := fs)
      requires id in licenses && LicensePath(row.fsDirPath) && LicensePath(licenses[id].fsDirPath)
      requires Followed(before.fs, fs, licenses[id].fsDirPath, row.fsDirPath, dirChanged)
      requires row.fsDirPath !in FoldersOf(licenses, id)
      modifies this`fs, this`licenses, this`docs
      ensures resp == Redirect ==> UpdateStep(before, Now(), id, row) && Inv(Now(), sha)
      ensures resp != Redirect ==>
                QuietStep(before, Now()) || (f.restore && Stranded(before, Now(), id, row.fsDirPath))
      ensures QuietStep(before, Now()) ==> Inv(Now(), sha)
      ensures resp in {Redirect, Conflict, NotFound, InternalError}
      ensures resp == Conflict ==> exists i | i in old(licenses) && i != id :: SameKey(old(licenses)[i], row)
      ensures f == HEALTHY ==>
                resp in {Redirect, Conflict} && (resp == Redirect <==> RowFits(before.licenses, id, row))
    {
      InvBasics(before, sha);
      RowFitsExactly(licenses, id, row);
      hide Inv, WF, FirstFree, LicensePath, RowFits, Followed, OnlyMeta, FoldersOf;
      ghost var moved := fs;
      var oldDir := licenses[id].fsDirPath;
      resp := CommitRows(id, row, oldDir, dirChanged, f, before.fs);
      if resp == Redirect {
        var ok := RegenerateLicenseFS(id, f.meta, meta);
        CommittedUpdate(before, Now(), sha, id, row, moved, dirChanged);
      } else {
        AbandonedUpdate(before, Now(), sha, id, row.fsDirPath, moved, dirChanged);
      }
    }

    /**
     All or nothing across both stores. The only way out of step is a failing undo (`f.restore`), and
     `StrandedOnlyWithFiles` says exactly when that shows.
     */
    method Update(id: nat, parsed: Parsed, may: nat -> bool, f: Faults, meta: Bytes)
      returns (resp: Response, ghost plan: Option<Path>)
      requires Inv(Now(), sha)
      modifies this`fs, this`licenses, this`docs
      ensures resp == Redirect ==>
                && plan.Some? && id in old(licenses)
                && UpdateStep(old(Now()), Now(), id,
                              RowFor(parsed, plan.value, KeysAfter(parsed, old(licenses)[id].productKeys)))
      ensures resp == Redirect && parsed.productKeys == "" ==>
                licenses[id].productKeys == old(licenses)[id].productKeys
      ensures resp == Redirect && parsed.productKeys != "" ==> licenses[id].productKeys == Some(parsed.productKeys)
      ensures resp == Redirect ==> Edited(old(Now()), Now(), id, parsed)
      ensures resp == Conflict ==> KeyTaken(old(licenses), id, parsed)
      ensures f == HEALTHY && KeyTaken(old(licenses), id, parsed) ==> resp != Redirect
      ensures resp != Redirect ==>
                || QuietStep(old(Now()), Now())
                || (f.restore && plan.Some? && Stranded(old(Now()), Now(), id, plan.value))
      ensures resp == Redirect || QuietStep(old(Now()), Now()) ==> Inv(Now(), sha)
      ensures plan.Some? ==>
                && id in old(licenses)
                && if Desired(parsed) == old(licenses)[id].fsDirPath then plan.value == Desired(parsed)
                   else exists n :: FirstFree(old(licenses), old(fs), id, Desired(parsed), n, plan.value)
      ensures !f.read && id !in old(licenses) ==> resp == NotFound
      ensures !f.read && id in old(licenses) ==>
                (resp == Forbidden <==> !may(old(licenses)[id].departmentID) || !may(parsed.departmentID))
      ensures f == HEALTHY && id in old(licenses) && may(old(licenses)[id].departmentID) && may(parsed.departmentID) ==>
                && FolderPlan(old(licenses), old(fs), id, Desired(parsed), plan)
                && (resp == InternalError <==>
                    Desired(parsed) != old(licenses)[id].fsDirPath
                    && CannotFollow(old(licenses), old(fs), id, Desired(parsed)))
      ensures f == HEALTHY && plan.Some? ==>
                (resp == Redirect <==>
                 RowFits(old(licenses), id, RowFor(parsed, plan.value, KeysAfter(parsed, old(licenses)[id].productKeys))))
                && resp in {Redirect, Conflict}
    {
      InvBasics(Now(), sha);
      hide Inv, WF, FirstFree, LicensePath, UpdateStep, Stranded, RowFits, Followed, CannotFollow, FoldersOf, FolderPlan,
           RowFor, KeysAfter, Edited, KeyTaken, SameKey;
      plan := None;
      LicenseFsDirText(parsed.vendorName, parsed.productName, parsed.licenseSlug);
      if f.read {
        return InternalError, plan;
      }
      if id !in licenses {
        return NotFound, plan;
      }
      var existing := licenses[id];
      if !may(existing.departmentID) || !may(parsed.departmentID) {
        return Forbidden, plan;
      }
      var settled, fsDir, dirChanged := FollowFolder(id, Desired(parsed), f);
      if f == HEALTHY {
        PlanFailsIff(licenses, old(fs), id, Desired(parsed), if settled then Some(fsDir) else None);
      }
      if !settled {
        QuietKeepsInv(old(Now()), Now(), sha);
        return InternalError, plan;
      }
      plan := Some(fsDir);
      var row := RowFor(parsed, fsDir, KeysAfter(parsed, existing.productKeys));
      OwnFolder(old(Now()), sha, id);
      RowFields(parsed, fsDir, KeysAfter(parsed, existing.productKeys));
      TakenKeyRefused(licenses, id, parsed, row);
      resp := FinishUpdate(id, row, dirChanged, f, meta, old(Now()));
      if resp == Redirect {
        RowIsEdited(old(Now()), Now(), id, parsed, fsDir);
      }
    }
  }
}
