/** The integrity scan: license rows and document rows against the file store. */
module Integrity {
  import opened Wrappers
  import opened Paths
  import opened FileTree
  import opened Finite
  import opened LicenseWorld
  import LicenseHandlers

  datatype FindingKind =
    | FileMissing | UnregisteredFile | Sha256Mismatch | DirMissing | OrphanDir | InvalidPath | MetaGenerateFailed

  /** `licenseID` is 0 where no license is concerned. */
  datatype Finding = Finding(kind: FindingKind, licenseID: nat, path: string)

  datatype LicenseRow = LicenseRow(id: nat, fsDir: string)
  datatype DocRow = DocRow(id: nat, licenseID: nat, stored: string, sha256: string)

  /** strings.EqualFold against a hexadecimal digest. */
  predicate EqualFold(a: string, b: string) {
    LicenseHandlers.ToLower(a) == LicenseHandlers.ToLower(b)
  }

  lemma EqualFoldIs(a: string, b: string)
    ensures EqualFold(a, b) <==> LicenseHandlers.SameButCase(a, b)
  {
    LicenseHandlers.LowerAgreeIff(a, b);
  }

  function Resolve(text: string): Option<Path> {
    DirAbs([], text)
  }

  // ---- what each part of the scan must report ----

  function DocFinding(fs: Tree, sha: Bytes -> string, doc: DocRow): set<Finding> {
    match Resolve(doc.stored)
    case None => {Finding(InvalidPath, doc.licenseID, doc.stored)}
    case Some(p) =>
      if p in fs.files then
        if EqualFold(sha(fs.files[p]), doc.sha256) then {}
        else {Finding(Sha256Mismatch, doc.licenseID, doc.stored)}
      else {Finding(FileMissing, doc.licenseID, doc.stored)}
  }

  /** A stored path that is a directory, or runs through a file, stops the scan with an error. */
  predicate Hashable(fs: Tree, doc: DocRow) {
    Resolve(doc.stored).Some? ==> Stat(fs, Resolve(doc.stored).value) in {Regular, Missing}
  }

  function Registered(docs: set<DocRow>): set<Path> {
    set d | d in docs && Resolve(d.stored).Some? :: Resolve(d.stored).value
  }

  function DocsOf(docs: set<DocRow>, id: nat): set<DocRow> {
    set d | d in docs && d.licenseID == id
  }

  function Unregistered(fs: Tree, dir: Path, docs: set<DocRow>): set<Path> {
    set p | p in fs.files && dir <= p && p != dir + [META] && p !in Registered(docs)
  }

  function DocFindings(fs: Tree, sha: Bytes -> string, docs: set<DocRow>): set<Finding> {
    set d, x | d in docs && x in DocFinding(fs, sha, d) :: x
  }

  // ---- the directory walks ----

  /** Everything at or below a path. */
  function Below(fs: Tree, at: Path): set<Path> {
    set q | q in fs.dirs + fs.files.Keys && at <= q
  }

  lemma BelowChild(fs: Tree, at: Path, c: string)
    requires Exists(fs, at)
    ensures Below(fs, at + [c]) < Below(fs, at)
  {
    assert at in Below(fs, at) && at !in Below(fs, at + [c]);
  }

  /** What the walk over `dir` reports at or below `at`. */
  function UnregisteredAt(fs: Tree, at: Path, dir: Path, docs: set<DocRow>): set<Path> {
    set p | p in fs.files && at <= p && p != dir + [META] && p !in Registered(docs)
  }

  /** The same below the entries of `at` named in `names`. */
  function UnregisteredAmong(fs: Tree, at: Path, names: set<string>, dir: Path, docs: set<DocRow>): set<Path> {
    set p | p in fs.files && at < p && p[|at|] in names && p != dir + [META] && p !in Registered(docs)
  }

  /** A regular file has nothing below it. */
  lemma FileIsLeaf(fs: Tree, at: Path, dir: Path, docs: set<DocRow>)
    requires WF(fs) && at in fs.files
    ensures UnregisteredAt(fs, at, dir, docs) == if at == dir + [META] || at in Registered(docs) then {} else {at}
  {
    hide Registered;
    forall p | p in fs.files && at <= p
      ensures p == at
    {
      assert p[..|at|] == at;
    }
  }

  lemma AmongNothing(fs: Tree, at: Path, dir: Path, docs: set<DocRow>)
    ensures UnregisteredAmong(fs, at, {}, dir, docs) == {}
  {
  }

  lemma AmongStep(fs: Tree, at: Path, names: set<string>, c: string, dir: Path, docs: set<DocRow>)
    ensures UnregisteredAmong(fs, at, names + {c}, dir, docs) ==
            UnregisteredAmong(fs, at, names, dir, docs) + UnregisteredAt(fs, at + [c], dir, docs)
  {
    hide Registered;
    forall p | p in fs.files
      ensures at < p && p[|at|] == c <==> at + [c] <= p
    {
    }
  }

  /** Below a directory everything hangs under one of its entries. */
  lemma AmongAll(fs: Tree, at: Path, names: set<string>, dir: Path, docs: set<DocRow>)
    requires WF(fs) && at in fs.dirs && names == Entries(fs, at)
    ensures UnregisteredAmong(fs, at, names, dir, docs) == UnregisteredAt(fs, at, dir, docs)
  {
    hide Registered;
    EntriesMeaning(fs, at);
    forall p | p in fs.files && at <= p
      ensures at < p && p[|at|] in names
    {
      assert p != at;
      EntryAbove(fs, at, p);
    }
  }

  lemma EntryAbove(fs: Tree, at: Path, p: Path)
    requires WF(fs) && Exists(fs, p) && at < p
    ensures Exists(fs, at + [p[|at|]])
  {
    assert p[..|at| + 1] == at + [p[|at|]];
    assert |p| == |at| + 1 ==> p[..|at| + 1] == p;
  }

  /** Fourth-level directories at or below a path. */
  function LeavesUnder(fs: Tree, at: Path): set<Path> {
    set p | p in fs.dirs && |p| == 4 && at <= p
  }

  function LeavesAmong(fs: Tree, at: Path, names: set<string>): set<Path> {
    set p | p in fs.dirs && |p| == 4 && at < p && p[|at|] in names
  }

  lemma LeavesNothing(fs: Tree, at: Path, known: set<Path>)
    ensures LeavesAmong(fs, at, {}) - known == {}
  {
  }

  lemma LeavesStep(fs: Tree, at: Path, names: set<string>, c: string, known: set<Path>)
    ensures LeavesAmong(fs, at, names + {c}) - known ==
            (LeavesAmong(fs, at, names) - known) + (LeavesUnder(fs, at + [c]) - known)
  {
    forall p | p in fs.dirs
      ensures at < p && p[|at|] == c <==> at + [c] <= p
    {
    }
  }

  lemma LeavesAll(fs: Tree, at: Path, names: set<string>)
    requires WF(fs) && |at| < 4 && names == Entries(fs, at)
    ensures LeavesAmong(fs, at, names) == LeavesUnder(fs, at)
  {
    EntriesMeaning(fs, at);
    forall p | p in fs.dirs && |p| == 4 && at <= p
      ensures at < p && p[|at|] in names
    {
      EntryAbove(fs, at, p);
    }
  }

  lemma LeafOnly(fs: Tree, leaf: Path, known: set<Path>)
    requires |leaf| == 4
    ensures LeavesUnder(fs, leaf) - known == if leaf in fs.dirs && leaf !in known then {leaf} else {}
  {
    forall p: Path | |p| == 4 && leaf <= p
      ensures p == leaf
    {
    }
  }

  /** Whatever is not a directory has no directory below it. */
  lemma NoDirNoLeaves(fs: Tree, at: Path, known: set<Path>)
    requires WF(fs)
    ensures at !in fs.dirs ==> LeavesUnder(fs, at) - known == {} && AllOf(OrphanDir, 0, LeavesUnder(fs, at) - known) == {}
  {
    forall p | p in fs.dirs && at <= p
      ensures at in fs.dirs
    {
      assert p[..|at|] == at;
    }
  }

  lemma DirReadable(fs: Tree, dir: Path)
    requires dir in fs.dirs
    ensures Stat(fs, dir) == Directory
  {
  }

  lemma RootReadable(fs: Tree)
    requires WF(fs)
    ensures Stat(fs, ["licenses"]) in {Regular, BelowFile} <==> ["licenses"] in fs.files
  {
    assert forall k | 0 <= k < 1 :: ["licenses"][..k] == [];
  }

  /** From the root the fourth level is the third one below licenses/. */
  lemma RootLeaves(fs: Tree, names: set<string>)
    requires WF(fs) && names == if ["licenses"] in fs.dirs then Entries(fs, ["licenses"]) else {}
    ensures LeavesAmong(fs, ["licenses"], names) == Leaves(fs)
  {
    var root := ["licenses"];
    forall p | p in fs.dirs && |p| == 4
      ensures p[0] == "licenses" <==> root <= p
      ensures root <= p ==> root in fs.dirs
    {
      assert p[..1] == [p[0]];
    }
    if root in fs.dirs {
      LeavesAll(fs, root, names);
    }
  }

  lemma AllOfNothing(kind: FindingKind, id: nat)
    ensures AllOf(kind, id, {}) == {}
  {
  }

  lemma AllOfOne(kind: FindingKind, id: nat, p: Path)
    ensures AllOf(kind, id, {p}) == {Finding(kind, id, Text(p))}
  {
  }

  lemma AllOfBoth(kind: FindingKind, id: nat, a: set<Path>, b: set<Path>)
    ensures AllOf(kind, id, a + b) == AllOf(kind, id, a) + AllOf(kind, id, b)
  {
  }

  lemma OrphansJoin(fs: Tree, at: Path, names: set<string>, c: string, known: set<Path>)
    ensures AllOf(OrphanDir, 0, LeavesAmong(fs, at, names + {c}) - known) ==
            AllOf(OrphanDir, 0, LeavesAmong(fs, at, names) - known)
            + AllOf(OrphanDir, 0, LeavesUnder(fs, at + [c]) - known)
  {
    LeavesStep(fs, at, names, c, known);
    AllOfBoth(OrphanDir, 0, LeavesAmong(fs, at, names) - known, LeavesUnder(fs, at + [c]) - known);
  }

  /** One finding of the same kind for every path. */
  function AllOf(kind: FindingKind, id: nat, paths: set<Path>): set<Finding> {
    set p | p in paths :: Finding(kind, id, Text(p))
  }

  /** Directories exactly three levels below licenses/. */
  function Leaves(fs: Tree): set<Path> {
    set p | p in fs.dirs && |p| == 4 && p[0] == "licenses"
  }

  function Known(rows: set<LicenseRow>): set<Path> {
    set r | r in rows && Resolve(r.fsDir).Some? :: Resolve(r.fsDir).value
  }

  /** Findings about one row, meta.yml apart. */
  function RowFindings(fs: Tree, sha: Bytes -> string, row: LicenseRow, docs: set<DocRow>): set<Finding> {
    match Resolve(row.fsDir)
    case None => {Finding(InvalidPath, row.id, row.fsDir)}
    case Some(dir) =>
      if dir in fs.dirs then
        DocFindings(fs, sha, DocsOf(docs, row.id)) +
        AllOf(UnregisteredFile, row.id, Unregistered(fs, dir, DocsOf(docs, row.id)))
      else {Finding(DirMissing, row.id, row.fsDir)}
  }

  /** The new findings are exactly `s`, apart from failed meta.yml generation. */
  ghost predicate Added(before: seq<Finding>, after: seq<Finding>, s: set<Finding>) {
    before <= after &&
    forall x: Finding :: x.kind != MetaGenerateFailed ==> (x in after[|before|..] <==> x in s)
  }

  lemma AddedNothing(a: seq<Finding>)
    ensures Added(a, a, {})
  {
  }

  lemma AddedGrows(a: seq<Finding>, b: seq<Finding>, s: set<Finding>)
    requires Added(a, b, s)
    ensures a <= b
  {
  }

  lemma AddedOne(a: seq<Finding>, x: Finding)
    ensures Added(a, a + [x], if x.kind == MetaGenerateFailed then {} else {x})
  {
  }

  lemma AddedBoth(a: seq<Finding>, b: seq<Finding>, c: seq<Finding>, s: set<Finding>, t: set<Finding>)
    requires Added(a, b, s) && Added(b, c, t)
    ensures Added(a, c, s + t)
  {
  }

  // ---- the state the tables are in when only the program wrote them ----

  /** Rows name distinct license folders, documents distinct files of their own row's folder. */
  ghost predicate ScanShape(rows: set<LicenseRow>, docs: set<DocRow>) {
    && (forall r | r in rows :: Resolve(r.fsDir).Some? && LicensePath(Folder(r)) && r.fsDir == Text(Folder(r)))
    && (forall r, s | r in rows && s in rows && r != s :: r.id != s.id && Folder(r) != Folder(s))
    && (forall d | d in docs :: OwnFile(rows, d))
    && (forall d, e | d in docs && e in docs && d != e :: Resolve(d.stored) != Resolve(e.stored))
  }

  function Folder(r: LicenseRow): Path {
    if Resolve(r.fsDir).Some? then Resolve(r.fsDir).value else []
  }

  ghost predicate OwnFile(rows: set<LicenseRow>, d: DocRow) {
    && Resolve(d.stored).Some?
    && var p := Resolve(d.stored).value;
       && |p| == 5 && p[4] != META
       && exists r | r in rows :: r.id == d.licenseID && Folder(r) == p[..4]
  }

  /** Only meta.yml files of license folders may have been written. */
  ghost predicate MetaOnlyChange(fs: Tree, fs': Tree) {
    && fs'.dirs == fs.dirs
    && fs.files.Keys <= fs'.files.Keys
    && (forall p | p in fs'.files && !MetaPath(p) :: p in fs.files && fs'.files[p] == fs.files[p])
  }

  predicate MetaPath(p: Path) {
    |p| == 5 && p[4] == META
  }

  /** Generating meta.yml files neither adds nor hides a finding. */
  lemma MetaKeepsRowFindings(fs: Tree, fs': Tree, sha: Bytes -> string, row: LicenseRow,
                             rows: set<LicenseRow>, docs: set<DocRow>)
    requires MetaOnlyChange(fs, fs') && ScanShape(rows, docs) && row in rows && WF(fs) && WF(fs')
    ensures RowFindings(fs', sha, row, docs) == RowFindings(fs, sha, row, docs)
    ensures forall d | d in docs :: Hashable(fs', d) <==> Hashable(fs, d)
    ensures Folder(row) in fs.dirs <==> Folder(row) in fs'.dirs
    ensures Stat(fs', Folder(row)) == BelowFile <==> Stat(fs, Folder(row)) == BelowFile
  {
    var mine, dir := DocsOf(docs, row.id), Folder(row);
    forall d | d in docs
      ensures DocFinding(fs', sha, d) == DocFinding(fs, sha, d)
      ensures Hashable(fs', d) <==> Hashable(fs, d)
    {
      assert OwnFile(rows, d);
      var p := Resolve(d.stored).value;
      assert !MetaPath(p);
      forall k | 0 <= k < |p|
        ensures p[..k] in fs'.files <==> p[..k] in fs.files
      {
        assert !MetaPath(p[..k]);
      }
    }
    forall k | 0 <= k < |dir|
      ensures dir[..k] in fs'.files <==> dir[..k] in fs.files
    {
      assert !MetaPath(dir[..k]);
    }
    assert dir in fs'.files <==> dir in fs.files by {
      assert !MetaPath(dir);
    }
    forall p | dir <= p && p != dir + [META]
      ensures p in fs'.files <==> p in fs.files
    {
      assert |p| == 5 ==> p == p[..4] + [p[4]] && p[..4] == dir;
      assert !MetaPath(p);
    }
    assert Unregistered(fs', dir, mine) == Unregistered(fs, dir, mine);
    assert DocFindings(fs', sha, mine) == DocFindings(fs, sha, mine);
  }

  function AllRowFindings(fs: Tree, sha: Bytes -> string, rows: set<LicenseRow>, docs: set<DocRow>): set<Finding> {
    set r, x | r in rows && x in RowFindings(fs, sha, r, docs) :: x
  }

  /** Everything the scan has to report, meta.yml generation apart. */
  function ScanFindings(fs: Tree, sha: Bytes -> string, rows: set<LicenseRow>, docs: set<DocRow>): set<Finding> {
    AllRowFindings(fs, sha, rows, docs) + AllOf(OrphanDir, 0, Leaves(fs) - Known(rows))
  }

  /** The row can be scanned to its end. */
  ghost predicate RowScannable(fs: Tree, row: LicenseRow, docs: set<DocRow>) {
    Resolve(row.fsDir).Some? ==>
      && Stat(fs, Folder(row)) != BelowFile
      && (Folder(row) in fs.dirs ==> forall d | d in DocsOf(docs, row.id) :: Hashable(fs, d))
  }

  ghost predicate Scannable(fs: Tree, rows: set<LicenseRow>, docs: set<DocRow>) {
    ["licenses"] !in fs.files && forall r | r in rows :: RowScannable(fs, r, docs)
  }

  class Scanner {
    const sha: Bytes -> string
    var fs: Tree
    var findings: seq<Finding>
    var metaGenerated: nat
    var wouldGenerateMeta: nat

    constructor (sha: Bytes -> string, fs: Tree)
      ensures this.sha == sha && this.fs == fs && findings == [] && metaGenerated == wouldGenerateMeta == 0
    {
      this.sha, this.fs, findings, metaGenerated, wouldGenerateMeta := sha, fs, [], 0, 0;
    }

    method Report(x: Finding)
      modifies this`findings
      ensures findings == old(findings) + [x]
    {
      findings := findings + [x];
    }

    /** The only repair: a missing meta.yml is generated, or only counted in a dry run. */
    method ScanMeta(row: LicenseRow, dir: Path, dryRun: bool, fails: bool, body: Bytes)
      requires WF(fs) && dir in fs.dirs
      modifies this`fs, this`findings, this`metaGenerated, this`wouldGenerateMeta
      ensures WF(fs) && fs.dirs == old(fs.dirs)
      ensures Stat(old(fs), dir + [META]) != Missing || dryRun ==> fs == old(fs)
      ensures fs.files == old(fs.files)
              || (Stat(old(fs), dir + [META]) == Missing && fs.files == old(fs.files)[dir + [META] := body])
      ensures Added(old(findings), findings, {})
      ensures metaGenerated - old(metaGenerated) == if fs.files == old(fs.files) then 0 else 1
      ensures wouldGenerateMeta - old(wouldGenerateMeta)
           == if dryRun && Stat(old(fs), dir + [META]) == Missing then 1 else 0
    {
      var meta := dir + [META];
      AddedNothing(findings);
      AddedOne(findings, Finding(MetaGenerateFailed, row.id, Text(meta)));
      assert Parent(meta) == dir;
      var kind := Stat(fs, meta);
      if kind == Regular {
        return;
      }
      if kind != Missing {
        Report(Finding(MetaGenerateFailed, row.id, Text(meta)));
        return;
      }
      if dryRun {
        wouldGenerateMeta := wouldGenerateMeta + 1;
        return;
      }
      if fails {
        Report(Finding(MetaGenerateFailed, row.id, Text(meta)));
        return;
      }
      WriteFileWF(fs, meta, body);
      fs := WriteFile(fs, meta, body);
      metaGenerated := metaGenerated + 1;
    }

    method ScanDocuments(docs: set<DocRow>) returns (ok: bool, registered: set<Path>)
      modifies this`findings
      ensures ok ==> registered == Registered(docs)
      ensures ok <==> forall d | d in docs :: Hashable(fs, d)
      ensures ok ==> Added(old(findings), findings, DocFindings(fs, sha, docs))
      ensures ok ==>
                && old(findings) <= findings
                && (forall d | d in docs && Altered(fs, sha, d) ::
                      Finding(Sha256Mismatch, d.licenseID, d.stored) in findings[|old(findings)|..])
                && forall x | x in findings[|old(findings)|..] && x.kind == Sha256Mismatch ::
                     exists d | d in docs :: Altered(fs, sha, d) && x == Finding(Sha256Mismatch, d.licenseID, d.stored)
    {
      hide Added, Altered;
      registered := {};
      var todo := docs;
      AddedNothing(findings);
      assert DocFindings(fs, sha, {}) == {};
      assert docs - todo == {};
      while todo != {}
        invariant todo <= docs
        invariant registered == Registered(docs - todo)
        invariant forall d | d in docs - todo :: Hashable(fs, d)
        invariant Added(old(findings), findings, DocFindings(fs, sha, docs - todo))
        decreases todo
      {
        var d :| d in todo;
        ghost var done := docs - todo;
        ghost var before := findings;
        AddedNothing(findings);
        var resolved := Resolve(d.stored);
        if resolved.None? {
          AddedOne(findings, Finding(InvalidPath, d.licenseID, d.stored));
          Report(Finding(InvalidPath, d.licenseID, d.stored));
        } else {
          var p := resolved.value;
          registered := registered + {p};
          var kind := Stat(fs, p);
          if kind == Missing {
            AddedOne(findings, Finding(FileMissing, d.licenseID, d.stored));
            Report(Finding(FileMissing, d.licenseID, d.stored));
          } else if kind != Regular {
            return false, registered;
          } else if !EqualFold(sha(fs.files[p]), d.sha256) {
            AddedOne(findings, Finding(Sha256Mismatch, d.licenseID, d.stored));
            Report(Finding(Sha256Mismatch, d.licenseID, d.stored));
          }
        }
        todo := todo - {d};
        assert docs - todo == done + {d};
        DocFindingsStep(fs, sha, done, d);
        AddedBoth(old(findings), before, findings, DocFindings(fs, sha, done), DocFinding(fs, sha, d));
      }
      assert docs - todo == docs;
      AddedGrows(old(findings), findings, DocFindings(fs, sha, docs));
      DocMismatches(old(findings), findings, fs, sha, docs);
      ok := true;
    }

    /** One entry of the walk over a license folder; a directory is walked entry by entry. */
    method WalkEntry(row: LicenseRow, dir: Path, at: Path, ghost docs: set<DocRow>, registered: set<Path>)
      requires WF(fs) && Exists(fs, at) && registered == Registered(docs)
      modifies this`findings
      ensures Added(old(findings), findings, AllOf(UnregisteredFile, row.id, UnregisteredAt(fs, at, dir, docs)))
      decreases Below(fs, at)
    {
      hide Added, WF, Registered;
      AddedNothing(findings);
      AllOfNothing(UnregisteredFile, row.id);
      if at !in fs.dirs {
        FileIsLeaf(fs, at, dir, docs);
        var x := Finding(UnregisteredFile, row.id, Text(at));
        AddedOne(findings, x);
        AllOfOne(UnregisteredFile, row.id, at);
        if at == dir + [META] || at in registered {
          return;
        }
        Report(x);
        return;
      }
      EntriesMeaning(fs, at);
      var todo := Entries(fs, at);
      ghost var done: set<string> := {};
      AmongNothing(fs, at, dir, docs);
      while todo != {}
        invariant done + todo == Entries(fs, at) && done !! todo
        invariant Added(old(findings), findings,
                        AllOf(UnregisteredFile, row.id, UnregisteredAmong(fs, at, done, dir, docs)))
        decreases todo
      {
        var c :| c in todo;
        ghost var before := findings;
        BelowChild(fs, at, c);
        WalkEntry(row, dir, at + [c], docs, registered);
        AmongStep(fs, at, done, c, dir, docs);
        AllOfBoth(UnregisteredFile, row.id, UnregisteredAmong(fs, at, done, dir, docs),
                  UnregisteredAt(fs, at + [c], dir, docs));
        AddedBoth(old(findings), before, findings,
                  AllOf(UnregisteredFile, row.id, UnregisteredAmong(fs, at, done, dir, docs)),
                  AllOf(UnregisteredFile, row.id, UnregisteredAt(fs, at + [c], dir, docs)));
        MoveOne(done, todo, c);
        done, todo := done + {c}, todo - {c};
      }
      AmongAll(fs, at, done, dir, docs);
    }

    /** The walk over one license folder: every regular file but meta.yml and the registered ones. */
    method ScanUnregistered(row: LicenseRow, dir: Path, ghost docs: set<DocRow>, registered: set<Path>)
      requires WF(fs) && dir in fs.dirs && registered == Registered(docs)
      modifies this`findings
      ensures Added(old(findings), findings, AllOf(UnregisteredFile, row.id, Unregistered(fs, dir, docs)))
    {
      hide Added, WF, Registered;
      WalkEntry(row, dir, dir, docs, registered);
      assert UnregisteredAt(fs, dir, dir, docs) == Unregistered(fs, dir, docs);
    }

    /** The entries of a directory; none for a missing one, an error for anything else. */
    method ReadDirIfExists(dir: Path) returns (entries: Option<set<string>>)
      ensures entries.None? <==> Stat(fs, dir) in {Regular, BelowFile}
      ensures entries.Some? ==> entries.value == if dir in fs.dirs then Entries(fs, dir) else {}
    {
      var kind := Stat(fs, dir);
      if kind == Missing {
        return Some({});
      }
      return if kind == Directory then Some(Entries(fs, dir)) else None;
    }

    /** The licenses of one product directory. */
    method ScanProductDir(product: Path, known: set<Path>)
      requires WF(fs) && product in fs.dirs && |product| == 3
      modifies this`findings
      ensures Added(old(findings), findings, AllOf(OrphanDir, 0, LeavesUnder(fs, product) - known))
    {
      hide Added, WF, Stat;
      AddedNothing(findings);
      AllOfNothing(OrphanDir, 0);
      var leaves := ReadDirIfExists(product);
      DirReadable(fs, product);
      EntriesMeaning(fs, product);
      var todo := leaves.value;
      ghost var done: set<string> := {};
      LeavesNothing(fs, product, known);
      while todo != {}
        invariant done + todo == Entries(fs, product) && done !! todo
        invariant Added(old(findings), findings, AllOf(OrphanDir, 0, LeavesAmong(fs, product, done) - known))
        decreases todo
      {
        var c :| c in todo;
        ghost var before := findings;
        var leaf := product + [c];
        AddedNothing(findings);
        AddedOne(findings, Finding(OrphanDir, 0, Text(leaf)));
        AllOfOne(OrphanDir, 0, leaf);
        LeafOnly(fs, leaf, known);
        if leaf in fs.dirs {
          if leaf !in known {
            Report(Finding(OrphanDir, 0, Text(leaf)));
          }
        }
        OrphansJoin(fs, product, done, c, known);
        AddedBoth(old(findings), before, findings,
                  AllOf(OrphanDir, 0, LeavesAmong(fs, product, done) - known),
                  AllOf(OrphanDir, 0, LeavesUnder(fs, leaf) - known));
        MoveOne(done, todo, c);
        done, todo := done + {c}, todo - {c};
      }
      LeavesAll(fs, product, done);
    }

    /** The products of one vendor directory. */
    method ScanVendorDir(vendor: Path, known: set<Path>)
      requires WF(fs) && vendor in fs.dirs && |vendor| == 2
      modifies this`findings
      ensures Added(old(findings), findings, AllOf(OrphanDir, 0, LeavesUnder(fs, vendor) - known))
    {
      hide Added, WF, Stat;
      AddedNothing(findings);
      AllOfNothing(OrphanDir, 0);
      var products := ReadDirIfExists(vendor);
      DirReadable(fs, vendor);
      EntriesMeaning(fs, vendor);
      var todo := products.value;
      ghost var done: set<string> := {};
      LeavesNothing(fs, vendor, known);
      while todo != {}
        invariant done + todo == Entries(fs, vendor) && done !! todo
        invariant Added(old(findings), findings, AllOf(OrphanDir, 0, LeavesAmong(fs, vendor, done) - known))
        decreases todo
      {
        var c :| c in todo;
        ghost var before := findings;
        var product := vendor + [c];
        AddedNothing(findings);
        NoDirNoLeaves(fs, product, known);
        if product in fs.dirs {
          ScanProductDir(product, known);
        }
        OrphansJoin(fs, vendor, done, c, known);
        AddedBoth(old(findings), before, findings,
                  AllOf(OrphanDir, 0, LeavesAmong(fs, vendor, done) - known),
                  AllOf(OrphanDir, 0, LeavesUnder(fs, product) - known));
        MoveOne(done, todo, c);
        done, todo := done + {c}, todo - {c};
      }
      LeavesAll(fs, vendor, done);
    }

    /** Vendors, products and licenses below licenses/: the third level is reported where nobody knows it. */
    method ScanOrphanDirs(known: set<Path>) returns (ok: bool)
      requires WF(fs)
      modifies this`findings
      ensures ok ==> Added(old(findings), findings, AllOf(OrphanDir, 0, Leaves(fs) - known))
      ensures ok <==> ["licenses"] !in fs.files
    {
      hide Added, WF;
      AddedNothing(findings);
      AllOfNothing(OrphanDir, 0);
      RootReadable(fs);
      var root := ["licenses"];
      var vendors := ReadDirIfExists(root);
      if vendors.None? {
        return false;
      }
      hide Stat;
      EntriesMeaning(fs, root);
      var todo := vendors.value;
      ghost var done: set<string> := {};
      LeavesNothing(fs, root, known);
      while todo != {}
        invariant done + todo == vendors.value && done !! todo
        invariant Added(old(findings), findings, AllOf(OrphanDir, 0, LeavesAmong(fs, root, done) - known))
        decreases todo
      {
        var c :| c in todo;
        ghost var before := findings;
        var vendor := root + [c];
        AddedNothing(findings);
        NoDirNoLeaves(fs, vendor, known);
        if vendor in fs.dirs {
          ScanVendorDir(vendor, known);
        }
        OrphansJoin(fs, root, done, c, known);
        AddedBoth(old(findings), before, findings,
                  AllOf(OrphanDir, 0, LeavesAmong(fs, root, done) - known),
                  AllOf(OrphanDir, 0, LeavesUnder(fs, vendor) - known));
        MoveOne(done, todo, c);
        done, todo := done + {c}, todo - {c};
      }
      RootLeaves(fs, done);
      ok := true;
    }

    /** One license row: its folder, its meta.yml, its documents, its other files. */
    method ScanRow(row: LicenseRow, docs: set<DocRow>, dryRun: bool, metaFails: bool, body: Bytes)
      returns (ok: bool)
      requires WF(fs)
      modifies this`fs, this`findings, this`metaGenerated, this`wouldGenerateMeta
      ensures WF(fs)
      ensures dryRun ==> fs == old(fs)
      ensures fs == old(fs)
              || (Resolve(row.fsDir).Some? && Folder(row) in fs.dirs && fs.dirs == old(fs.dirs)
                  && fs.files == old(fs.files)[Folder(row) + [META] := body])
      ensures ok <==> RowScannable(fs, row, docs)
      ensures ok ==> Added(old(findings), findings, RowFindings(fs, sha, row, docs))
    {
      hide Added, WF, Hashable;
      var resolved := Resolve(row.fsDir);
      AddedOne(findings, Finding(InvalidPath, row.id, row.fsDir));
      AddedOne(findings, Finding(DirMissing, row.id, row.fsDir));
      if resolved.None? {
        Report(Finding(InvalidPath, row.id, row.fsDir));
        return true;
      }
      var dir := resolved.value;
      var kind := Stat(fs, dir);
      if kind == BelowFile {
        return false;
      }
      if kind != Directory {
        Report(Finding(DirMissing, row.id, row.fsDir));
        return true;
      }
      ghost var start := findings;
      ScanMeta(row, dir, dryRun, metaFails, body);
      ghost var afterMeta := findings;
      var mine := DocsOf(docs, row.id);
      var registered;
      ok, registered := ScanDocuments(mine);
      if !ok {
        return false;
      }
      ghost var afterDocs := findings;
      ScanUnregistered(row, dir, mine, registered);
      AddedBoth(start, afterMeta, afterDocs, {}, DocFindings(fs, sha, mine));
      AddedBoth(start, afterDocs, findings, {} + DocFindings(fs, sha, mine),
                AllOf(UnregisteredFile, row.id, Unregistered(fs, dir, mine)));
      assert {} + DocFindings(fs, sha, mine) == DocFindings(fs, sha, mine);
    }

    /**
     The whole scan. With tables the program wrote itself, or in a dry run, the report is exactly
     ScanFindings of the file store the scan started on, and it is complete unless an entry is unreadable.
     */
    method Scan(rows: set<LicenseRow>, docs: set<DocRow>, dryRun: bool, metaFails: nat -> bool, body: Bytes)
      returns (ok: bool)
      requires WF(fs) && findings == []
      modifies this`fs, this`findings, this`metaGenerated, this`wouldGenerateMeta
      ensures WF(fs)
      ensures dryRun ==> fs == old(fs)
      ensures dryRun || ScanShape(rows, docs) ==>
                && (ok <==> Scannable(old(fs), rows, docs))
                && (ok ==> Added([], findings, ScanFindings(old(fs), sha, rows, docs)))
                && MetaOnlyChange(old(fs), fs)
      ensures ok && ScanShape(rows, docs) ==>
                && (forall d | d in docs ::
                      Finding(Sha256Mismatch, d.licenseID, d.stored) in findings <==> Altered(old(fs), sha, d))
                && forall x: Finding | x.kind != MetaGenerateFailed :: x in findings <==> Wrong(old(fs), sha, rows, docs, x)
    {
      hide Added, WF, RowScannable, Altered, Wrong;
      ghost var stable := dryRun || ScanShape(rows, docs);
      hide ScanShape;
      var todo, known := rows, {};
      AddedNothing(findings);
      assert rows - todo == {};
      assert AllRowFindings(fs, sha, {}, docs) == {};
      while todo != {}
        invariant todo <= rows && WF(fs) && known == Known(rows - todo)
        invariant dryRun ==> fs == old(fs)
        invariant stable ==> MetaOnlyChange(old(fs), fs)
        invariant stable ==> forall r | r in rows - todo :: RowScannable(old(fs), r, docs)
        invariant stable ==> Added([], findings, AllRowFindings(old(fs), sha, rows - todo, docs))
        decreases todo
      {
        var row :| row in todo;
        ghost var done, before, fs0 := rows - todo, findings, fs;
        var good := ScanRow(row, docs, dryRun, metaFails(row.id), body);
        if stable {
          RowUnchanged(old(fs), fs0, fs, sha, row, rows, docs, dryRun, body);
        }
        if !good {
          return false;
        }
        if Resolve(row.fsDir).Some? {
          known := known + {Resolve(row.fsDir).value};
        }
        todo := todo - {row};
        assert rows - todo == done + {row};
        RowsStep(old(fs), sha, done, row, docs);
        if stable {
          AddedBoth([], before, findings, AllRowFindings(old(fs), sha, done, docs),
                    RowFindings(old(fs), sha, row, docs));
        }
      }
      assert rows - todo == rows;
      ghost var before := findings;
      ok := ScanOrphanDirs(known);
      if stable && ok {
        AddedBoth([], before, findings, AllRowFindings(old(fs), sha, rows, docs),
                  AllOf(OrphanDir, 0, Leaves(fs) - known));
      }
      if ok && ScanShape(rows, docs) {
        ReportsAltered(findings, old(fs), sha, rows, docs);
        ReportsWrong(findings, old(fs), sha, rows, docs);
      }
      assert stable ==> (["licenses"] in fs.files <==> ["licenses"] in old(fs).files) by {
        assert !MetaPath(["licenses"]);
      }
    }
  }

  lemma RowsStep(fs: Tree, sha: Bytes -> string, done: set<LicenseRow>, row: LicenseRow, docs: set<DocRow>)
    ensures AllRowFindings(fs, sha, done + {row}, docs) ==
            AllRowFindings(fs, sha, done, docs) + RowFindings(fs, sha, row, docs)
    ensures Known(done + {row}) ==
            Known(done) + (if Resolve(row.fsDir).Some? then {Resolve(row.fsDir).value} else {})
  {
  }

  /** What one row finds does not depend on the meta.yml files written so far. */
  lemma RowUnchanged(fs: Tree, fs0: Tree, fs1: Tree, sha: Bytes -> string, row: LicenseRow,
                     rows: set<LicenseRow>, docs: set<DocRow>, dryRun: bool, body: Bytes)
    requires WF(fs) && WF(fs1) && row in rows
    requires MetaOnlyChange(fs, fs0) && (dryRun ==> fs0 == fs && fs1 == fs)
    requires dryRun || ScanShape(rows, docs)
    requires fs1 == fs0
             || (Resolve(row.fsDir).Some? && fs1.dirs == fs0.dirs
                 && fs1.files == fs0.files[Folder(row) + [META] := body])
    ensures MetaOnlyChange(fs, fs1)
    ensures RowFindings(fs1, sha, row, docs) == RowFindings(fs, sha, row, docs)
    ensures RowScannable(fs1, row, docs) <==> RowScannable(fs, row, docs)
  {
    if !dryRun {
      assert MetaPath(Folder(row) + [META]);
      MetaKeepsRowFindings(fs, fs1, sha, row, rows, docs);
    }
  }

  lemma DocFindingsStep(fs: Tree, sha: Bytes -> string, done: set<DocRow>, d: DocRow)
    ensures DocFindings(fs, sha, done + {d}) == DocFindings(fs, sha, done) + DocFinding(fs, sha, d)
    ensures Registered(done + {d}) ==
            Registered(done) + (if Resolve(d.stored).Some? then {Resolve(d.stored).value} else {})
  {
  }

  // ---- what a clean report means ----

  /** Folders exist, and documents and non-meta files of the folders are the same things with the same hashes. */
  ghost predicate InStep(fs: Tree, sha: Bytes -> string, rows: set<LicenseRow>, docs: set<DocRow>) {
    && (forall r | r in rows :: Folder(r) in fs.dirs)
    && (forall d | d in docs :: DocPresent(fs, sha, d))
    && (forall r, p | r in rows && p in fs.files && Folder(r) <= p && p != Folder(r) + [META] :: HasRow(docs, p))
  }

  ghost predicate DocPresent(fs: Tree, sha: Bytes -> string, d: DocRow) {
    && Resolve(d.stored).Some?
    && Resolve(d.stored).value in fs.files
    && LicenseHandlers.SameButCase(sha(fs.files[Resolve(d.stored).value]), d.sha256)
  }

  ghost predicate HasRow(docs: set<DocRow>, p: Path) {
    exists d | d in docs :: Resolve(d.stored) == Some(p)
  }

  predicate Divergence(k: FindingKind) {
    k in {FileMissing, Sha256Mismatch, UnregisteredFile, DirMissing}
  }

  /** The scan is exact: no divergence is reported if and only if there is none. */
  lemma ScanExact(fs: Tree, sha: Bytes -> string, rows: set<LicenseRow>, docs: set<DocRow>)
    requires ScanShape(rows, docs)
    ensures (forall x | x in ScanFindings(fs, sha, rows, docs) :: !Divergence(x.kind)) <==> InStep(fs, sha, rows, docs)
  {
    if InStep(fs, sha, rows, docs) {
      forall r | r in rows
        ensures RowFindings(fs, sha, r, docs) == {}
      {
        InStepRowClean(fs, sha, rows, docs, r);
      }
    }
    if forall x | x in ScanFindings(fs, sha, rows, docs) :: !Divergence(x.kind) {
      CleanReportInStep(fs, sha, rows, docs);
    }
  }

  lemma InStepRowClean(fs: Tree, sha: Bytes -> string, rows: set<LicenseRow>, docs: set<DocRow>, r: LicenseRow)
    requires ScanShape(rows, docs) && InStep(fs, sha, rows, docs) && r in rows
    ensures RowFindings(fs, sha, r, docs) == {}
  {
    var dir, mine := Folder(r), DocsOf(docs, r.id);
    forall d | d in mine
      ensures DocFinding(fs, sha, d) == {}
    {
      assert DocPresent(fs, sha, d);
      EqualFoldIs(sha(fs.files[Resolve(d.stored).value]), d.sha256);
    }
    forall p | p in fs.files && dir <= p && p != dir + [META]
      ensures p in Registered(mine)
    {
      assert HasRow(docs, p);
      var d :| d in docs && Resolve(d.stored) == Some(p);
      assert OwnFile(rows, d);
      var s :| s in rows && s.id == d.licenseID && Folder(s) == p[..4];
      assert s == r;
    }
    assert Unregistered(fs, dir, mine) == {};
    assert DocFindings(fs, sha, mine) == {};
  }

  lemma CleanReportInStep(fs: Tree, sha: Bytes -> string, rows: set<LicenseRow>, docs: set<DocRow>)
    requires ScanShape(rows, docs)
    requires forall x | x in ScanFindings(fs, sha, rows, docs) :: !Divergence(x.kind)
    ensures InStep(fs, sha, rows, docs)
  {
    forall r | r in rows
      ensures Folder(r) in fs.dirs
    {
      var x := Finding(DirMissing, r.id, r.fsDir);
      assert Divergence(x.kind);
      assert x in RowFindings(fs, sha, r, docs) ==> x in ScanFindings(fs, sha, rows, docs);
    }
    forall d | d in docs
      ensures DocPresent(fs, sha, d)
    {
      assert OwnFile(rows, d);
      var p := Resolve(d.stored).value;
      var r :| r in rows && r.id == d.licenseID && Folder(r) == p[..4];
      forall x | x in DocFinding(fs, sha, d)
        ensures x in ScanFindings(fs, sha, rows, docs)
      {
        assert d in DocsOf(docs, r.id);
        assert x in RowFindings(fs, sha, r, docs);
      }
      assert Divergence(FileMissing) && Divergence(Sha256Mismatch);
      assert Finding(FileMissing, d.licenseID, d.stored).kind == FileMissing;
      assert Finding(Sha256Mismatch, d.licenseID, d.stored).kind == Sha256Mismatch;
      if p in fs.files {
        EqualFoldIs(sha(fs.files[p]), d.sha256);
      }
    }
    forall r, p | r in rows && p in fs.files && Folder(r) <= p && p != Folder(r) + [META]
      ensures HasRow(docs, p)
    {
      var x := Finding(UnregisteredFile, r.id, Text(p));
      assert Divergence(x.kind);
      assert p in Unregistered(fs, Folder(r), DocsOf(docs, r.id)) ==>
          x in RowFindings(fs, sha, r, docs) && x in ScanFindings(fs, sha, rows, docs);
    }
  }

  /** The file of a document was altered: it is there, and its digest is not the stored one. */
  ghost predicate Altered(fs: Tree, sha: Bytes -> string, d: DocRow) {
    && Resolve(d.stored).Some? && Resolve(d.stored).value in fs.files
    && !LicenseHandlers.SameButCase(sha(fs.files[Resolve(d.stored).value]), d.sha256)
  }

  lemma MismatchSource(fs: Tree, sha: Bytes -> string, rows: set<LicenseRow>, docs: set<DocRow>, x: Finding) returns (e: DocRow)
    requires x.kind == Sha256Mismatch && x in ScanFindings(fs, sha, rows, docs)
    ensures e in docs && x in DocFinding(fs, sha, e)
  {
    hide DocFinding, Resolve, Unregistered;
    var r :| r in rows && x in RowFindings(fs, sha, r, docs);
    e :| e in DocsOf(docs, r.id) && x in DocFinding(fs, sha, e);
  }

  lemma MismatchMeans(fs: Tree, sha: Bytes -> string, e: DocRow, x: Finding)
    requires x.kind == Sha256Mismatch && x in DocFinding(fs, sha, e)
    ensures x == Finding(Sha256Mismatch, e.licenseID, e.stored) && Altered(fs, sha, e)
  {
    hide EqualFold, LicenseHandlers.SameButCase;
    EqualFoldIs(sha(fs.files[Resolve(e.stored).value]), e.sha256);
  }

  /** Of the documents' findings the mismatches are those of the altered documents. */
  lemma DocMismatches(before: seq<Finding>, after: seq<Finding>, fs: Tree, sha: Bytes -> string, docs: set<DocRow>)
    requires Added(before, after, DocFindings(fs, sha, docs))
    ensures forall d | d in docs && Altered(fs, sha, d) :: Finding(Sha256Mismatch, d.licenseID, d.stored) in after[|before|..]
    ensures forall x | x in after[|before|..] && x.kind == Sha256Mismatch ::
              exists d | d in docs :: Altered(fs, sha, d) && x == Finding(Sha256Mismatch, d.licenseID, d.stored)
  {
    hide DocFinding, Altered;
    forall d | d in docs && Altered(fs, sha, d)
      ensures Finding(Sha256Mismatch, d.licenseID, d.stored) in DocFindings(fs, sha, docs)
    {
      AlteredFinding(fs, sha, d);
    }
    forall x | x in after[|before|..] && x.kind == Sha256Mismatch
      ensures exists d | d in docs :: Altered(fs, sha, d) && x == Finding(Sha256Mismatch, d.licenseID, d.stored)
    {
      var d :| d in docs && x in DocFinding(fs, sha, d);
      MismatchMeans(fs, sha, d, x);
    }
  }

  lemma AlteredFinding(fs: Tree, sha: Bytes -> string, d: DocRow)
    requires Altered(fs, sha, d)
    ensures Finding(Sha256Mismatch, d.licenseID, d.stored) in DocFinding(fs, sha, d)
  {
    EqualFoldIs(sha(fs.files[Resolve(d.stored).value]), d.sha256);
    hide EqualFold, LicenseHandlers.SameButCase;
  }

  lemma MismatchIsOwn(fs: Tree, sha: Bytes -> string, rows: set<LicenseRow>, docs: set<DocRow>, d: DocRow)
    requires ScanShape(rows, docs) && d in docs
    requires Finding(Sha256Mismatch, d.licenseID, d.stored) in ScanFindings(fs, sha, rows, docs)
    ensures Altered(fs, sha, d)
  {
    assert forall e | e in docs && e != d :: Resolve(e.stored) != Resolve(d.stored);
    hide *;
    var e := MismatchSource(fs, sha, rows, docs, Finding(Sha256Mismatch, d.licenseID, d.stored));
    MismatchMeans(fs, sha, e, Finding(Sha256Mismatch, d.licenseID, d.stored));
    assert Resolve(e.stored) == Resolve(d.stored);
  }

  lemma AlteredIsReported(fs: Tree, sha: Bytes -> string, rows: set<LicenseRow>, docs: set<DocRow>, d: DocRow)
    requires WF(fs) && ScanShape(rows, docs) && d in docs && Altered(fs, sha, d)
    ensures Finding(Sha256Mismatch, d.licenseID, d.stored) in ScanFindings(fs, sha, rows, docs)
  {
    var x, p := Finding(Sha256Mismatch, d.licenseID, d.stored), Resolve(d.stored).value;
    assert OwnFile(rows, d);
    var r :| r in rows && r.id == d.licenseID && Folder(r) == p[..4];
    EqualFoldIs(sha(fs.files[p]), d.sha256);
    assert p[..4] in fs.dirs;
    assert d in DocsOf(docs, r.id) && x in DocFinding(fs, sha, d);
    assert x in DocFindings(fs, sha, DocsOf(docs, r.id));
    assert x in RowFindings(fs, sha, r, docs);
  }

  /** The documents reported as altered are exactly those that were. */
  lemma MismatchExact(fs: Tree, sha: Bytes -> string, rows: set<LicenseRow>, docs: set<DocRow>)
    requires WF(fs) && ScanShape(rows, docs)
    ensures forall d | d in docs ::
              Finding(Sha256Mismatch, d.licenseID, d.stored) in ScanFindings(fs, sha, rows, docs) <==> Altered(fs, sha, d)
  {
    hide ScanShape, WF, ScanFindings, Altered;
    forall d | d in docs
      ensures Finding(Sha256Mismatch, d.licenseID, d.stored) in ScanFindings(fs, sha, rows, docs) <==> Altered(fs, sha, d)
    {
      if Altered(fs, sha, d) {
        AlteredIsReported(fs, sha, rows, docs, d);
      }
      if Finding(Sha256Mismatch, d.licenseID, d.stored) in ScanFindings(fs, sha, rows, docs) {
        MismatchIsOwn(fs, sha, rows, docs, d);
      }
    }
  }

  /** The exact report holds an altered document's mismatch and no other. */
  lemma ReportsAltered(report: seq<Finding>, fs: Tree, sha: Bytes -> string, rows: set<LicenseRow>, docs: set<DocRow>)
    requires WF(fs) && ScanShape(rows, docs) && Added([], report, ScanFindings(fs, sha, rows, docs))
    ensures forall d | d in docs :: Finding(Sha256Mismatch, d.licenseID, d.stored) in report <==> Altered(fs, sha, d)
  {
    MismatchExact(fs, sha, rows, docs);
    assert report[0..] == report;
    hide ScanShape, WF, ScanFindings, Altered;
  }

  /** A third-level directory that is nobody's folder. */
  ghost predicate IsOrphan(fs: Tree, rows: set<LicenseRow>, p: Path) {
    p in fs.dirs && |p| == 4 && p[0] == "licenses" && forall r | r in rows :: Folder(r) != p
  }

  /** Orphan findings are exactly the orphans. */
  lemma OrphansExact(fs: Tree, sha: Bytes -> string, rows: set<LicenseRow>, docs: set<DocRow>)
    requires ScanShape(rows, docs)
    ensures forall p | IsOrphan(fs, rows, p) ::
              Finding(OrphanDir, 0, Text(p)) in ScanFindings(fs, sha, rows, docs)
    ensures forall x | x in ScanFindings(fs, sha, rows, docs) && x.kind == OrphanDir ::
              exists p | IsOrphan(fs, rows, p) :: x == Finding(OrphanDir, 0, Text(p))
  {
    assert Known(rows) == set r | r in rows :: Folder(r);
    hide ScanShape;
    forall p
      ensures IsOrphan(fs, rows, p) <==> p in Leaves(fs) - Known(rows)
    {
    }
    forall x | x in AllRowFindings(fs, sha, rows, docs)
      ensures x.kind != OrphanDir
    {
      var r :| r in rows && x in RowFindings(fs, sha, r, docs);
      RowKinds(fs, sha, r, docs, x);
    }
  }

  ghost predicate DirGone(fs: Tree, rows: set<LicenseRow>, x: Finding) {
    exists r | r in rows :: Folder(r) !in fs.dirs && x == Finding(DirMissing, r.id, r.fsDir)
  }

  /** A document of a license whose folder is there, but the document's file is not. */
  ghost predicate FileGone(fs: Tree, rows: set<LicenseRow>, docs: set<DocRow>, x: Finding) {
    exists r, d | r in rows && d in docs ::
      && d.licenseID == r.id && Folder(r) in fs.dirs && Resolve(d.stored).Some? && Resolve(d.stored).value !in fs.files
      && x == Finding(FileMissing, r.id, d.stored)
  }

  /** A file in a license's folder that is neither its meta.yml nor any document. */
  ghost predicate Stray(fs: Tree, rows: set<LicenseRow>, docs: set<DocRow>, x: Finding) {
    exists r, p | r in rows && p in fs.files ::
      && Folder(r) in fs.dirs && Folder(r) <= p && p != Folder(r) + [META] && !HasRow(docs, p)
      && x == Finding(UnregisteredFile, r.id, Text(p))
  }

  ghost predicate Swapped(fs: Tree, sha: Bytes -> string, rows: set<LicenseRow>, docs: set<DocRow>, x: Finding) {
    exists r, d | r in rows && d in docs ::
      && d.licenseID == r.id && Folder(r) in fs.dirs && Altered(fs, sha, d) && x == Finding(Sha256Mismatch, r.id, d.stored)
  }

  ghost predicate Orphaned(fs: Tree, rows: set<LicenseRow>, x: Finding) {
    exists p | p in fs.dirs :: IsOrphan(fs, rows, p) && x == Finding(OrphanDir, 0, Text(p))
  }

  /** What one row finds, by the kind of the finding. */
  lemma RowReport(fs: Tree, sha: Bytes -> string, rows: set<LicenseRow>, docs: set<DocRow>, r: LicenseRow, x: Finding)
    requires ScanShape(rows, docs) && r in rows
    ensures x in RowFindings(fs, sha, r, docs) <==>
              || (Folder(r) !in fs.dirs && x == Finding(DirMissing, r.id, r.fsDir))
              || (Folder(r) in fs.dirs && exists d | d in DocsOf(docs, r.id) :: x in DocFinding(fs, sha, d))
              || (Folder(r) in fs.dirs && exists p | p in Unregistered(fs, Folder(r), DocsOf(docs, r.id)) ::
                    x == Finding(UnregisteredFile, r.id, Text(p)))
  {
    hide Unregistered, DocFinding, DocsOf;
  }

  lemma DocReport(fs: Tree, sha: Bytes -> string, d: DocRow, x: Finding)
    requires Resolve(d.stored).Some?
    ensures x in DocFinding(fs, sha, d) <==>
              || (Resolve(d.stored).value !in fs.files && x == Finding(FileMissing, d.licenseID, d.stored))
              || (Altered(fs, sha, d) && x == Finding(Sha256Mismatch, d.licenseID, d.stored))
  {
    if Resolve(d.stored).value in fs.files {
      EqualFoldIs(sha(fs.files[Resolve(d.stored).value]), d.sha256);
    }
    hide EqualFold, LicenseHandlers.SameButCase;
  }

  /** A file of a license's folder has a row at all exactly if it has one of that license. */
  lemma StrayIs(fs: Tree, rows: set<LicenseRow>, docs: set<DocRow>, r: LicenseRow, p: Path)
    requires ScanShape(rows, docs) && r in rows
    ensures p in Unregistered(fs, Folder(r), DocsOf(docs, r.id)) <==>
              p in fs.files && Folder(r) <= p && p != Folder(r) + [META] && !HasRow(docs, p)
  {
    if Folder(r) <= p && HasRow(docs, p) {
      var d :| d in docs && Resolve(d.stored) == Some(p);
      assert OwnFile(rows, d);
      var s :| s in rows && s.id == d.licenseID && Folder(s) == p[..4];
      assert s == r && d in DocsOf(docs, r.id);
    }
  }

  /** The report, finding by finding, on the tables and the tree. */
  ghost predicate Wrong(fs: Tree, sha: Bytes -> string, rows: set<LicenseRow>, docs: set<DocRow>, x: Finding) {
    || DirGone(fs, rows, x) || FileGone(fs, rows, docs, x) || Swapped(fs, sha, rows, docs, x)
    || Stray(fs, rows, docs, x) || Orphaned(fs, rows, x)
  }

  lemma RowFindingIsWrong(fs: Tree, sha: Bytes -> string, rows: set<LicenseRow>, docs: set<DocRow>, r: LicenseRow, x: Finding)
    requires ScanShape(rows, docs) && r in rows && x in RowFindings(fs, sha, r, docs)
    ensures Wrong(fs, sha, rows, docs, x)
  {
    RowReport(fs, sha, rows, docs, r, x);
    if Folder(r) in fs.dirs {
      assert forall d | d in docs :: OwnFile(rows, d) && Resolve(d.stored).Some?;
      hide ScanShape, RowFindings, Unregistered, DocFinding, Folder, Resolve;
      if p :| p in Unregistered(fs, Folder(r), DocsOf(docs, r.id)) && x == Finding(UnregisteredFile, r.id, Text(p)) {
        StrayIs(fs, rows, docs, r, p);
        assert Stray(fs, rows, docs, x);
      } else {
        var d :| d in DocsOf(docs, r.id) && x in DocFinding(fs, sha, d);
        DocReport(fs, sha, d, x);
        assert FileGone(fs, rows, docs, x) || Swapped(fs, sha, rows, docs, x);
      }
    }
  }

  lemma WrongIsRowFinding(fs: Tree, sha: Bytes -> string, rows: set<LicenseRow>, docs: set<DocRow>, x: Finding)
    requires ScanShape(rows, docs) && Wrong(fs, sha, rows, docs, x) && !Orphaned(fs, rows, x)
    ensures exists r | r in rows :: x in RowFindings(fs, sha, r, docs)
  {
    assert forall d | d in docs :: OwnFile(rows, d) && Resolve(d.stored).Some?;
    if DirGone(fs, rows, x) {
      var r :| r in rows && Folder(r) !in fs.dirs && x == Finding(DirMissing, r.id, r.fsDir);
      RowReport(fs, sha, rows, docs, r, x);
    } else if FileGone(fs, rows, docs, x) {
      var r, d :| r in rows && d in docs && d.licenseID == r.id && Folder(r) in fs.dirs
                  && Resolve(d.stored).Some? && Resolve(d.stored).value !in fs.files && x == Finding(FileMissing, r.id, d.stored);
      DocReport(fs, sha, d, x);
      assert d in DocsOf(docs, r.id);
      RowReport(fs, sha, rows, docs, r, x);
    } else if Swapped(fs, sha, rows, docs, x) {
      var r, d :| r in rows && d in docs && d.licenseID == r.id && Folder(r) in fs.dirs && Altered(fs, sha, d)
                  && x == Finding(Sha256Mismatch, r.id, d.stored);
      DocReport(fs, sha, d, x);
      assert d in DocsOf(docs, r.id);
      RowReport(fs, sha, rows, docs, r, x);
    } else {
      var r, p :| r in rows && p in fs.files && Folder(r) in fs.dirs && Folder(r) <= p && p != Folder(r) + [META]
                  && !HasRow(docs, p) && x == Finding(UnregisteredFile, r.id, Text(p));
      StrayIs(fs, rows, docs, r, p);
      RowReport(fs, sha, rows, docs, r, x);
    }
  }

  /** The scan reports exactly what is wrong. */
  lemma ReportExact(fs: Tree, sha: Bytes -> string, rows: set<LicenseRow>, docs: set<DocRow>, x: Finding)
    requires ScanShape(rows, docs)
    ensures x in ScanFindings(fs, sha, rows, docs) <==> Wrong(fs, sha, rows, docs, x)
  {
    OrphansExact(fs, sha, rows, docs);
    hide ScanShape, RowFindings, IsOrphan;
    if x in AllRowFindings(fs, sha, rows, docs) {
      var r :| r in rows && x in RowFindings(fs, sha, r, docs);
      RowFindingIsWrong(fs, sha, rows, docs, r, x);
    } else if x in ScanFindings(fs, sha, rows, docs) {
      assert x.kind == OrphanDir;
      assert Orphaned(fs, rows, x);
    }
    if Orphaned(fs, rows, x) {
      var p :| p in fs.dirs && IsOrphan(fs, rows, p) && x == Finding(OrphanDir, 0, Text(p));
    } else if Wrong(fs, sha, rows, docs, x) {
      WrongIsRowFinding(fs, sha, rows, docs, x);
    }
  }

  lemma RowKinds(fs: Tree, sha: Bytes -> string, r: LicenseRow, docs: set<DocRow>, x: Finding)
    requires x in RowFindings(fs, sha, r, docs)
    ensures x.kind in {FileMissing, UnregisteredFile, Sha256Mismatch, DirMissing, InvalidPath}
  {
  }

  lemma ReportsWrong(report: seq<Finding>, fs: Tree, sha: Bytes -> string, rows: set<LicenseRow>, docs: set<DocRow>)
    requires ScanShape(rows, docs) && Added([], report, ScanFindings(fs, sha, rows, docs))
    ensures forall x: Finding | x.kind != MetaGenerateFailed :: x in report <==> Wrong(fs, sha, rows, docs, x)
  {
    assert report[0..] == report;
    hide ScanShape, ScanFindings, Wrong;
    forall x: Finding | x.kind != MetaGenerateFailed
      ensures x in report <==> Wrong(fs, sha, rows, docs, x)
    {
      ReportExact(fs, sha, rows, docs, x);
    }
  }

  // ---- the scan after the program's own runs ----

  function RowsOf(w: World): set<LicenseRow> {
    set i | i in w.licenses :: LicenseRow(i, Text(w.licenses[i].fsDirPath))
  }

  function DocRowsOf(w: World): set<DocRow> {
    set d | d in w.docs :: DocRowOf(w, d)
  }

  lemma RowResolves(p: Path)
    requires p != [] && Plain(p)
    ensures Resolve(Text(p)) == Some(p)
  {
    DirAbsPlain([], p);
    assert [] + p == p;
  }

  lemma LicenseRowResolves(w: World, sha: Bytes -> string, i: nat)
    requires Inv(w, sha) && i in w.licenses
    ensures LicensePath(w.licenses[i].fsDirPath)
    ensures Resolve(Text(w.licenses[i].fsDirPath)) == Some(w.licenses[i].fsDirPath)
  {
    LicensePathPlain(w.licenses[i].fsDirPath);
    hide Inv, Resolve;
    RowResolves(w.licenses[i].fsDirPath);
  }

  function DocRowOf(w: World, d: nat): DocRow
    requires d in w.docs
  {
    DocRow(d, w.docs[d].licenseID, Text(w.docs[d].storedPath), w.docs[d].sha256)
  }

  lemma IntactDocument(w: World, sha: Bytes -> string, d: nat)
    requires Inv(w, sha) && d in w.docs
    ensures var p, i := w.docs[d].storedPath, w.docs[d].licenseID;
            && |p| == 5 && p[4] != META && i in w.licenses && p[..4] == w.licenses[i].fsDirPath
            && LicensePath(w.licenses[i].fsDirPath) && Plain(p) && p in w.fs.files && sha(w.fs.files[p]) == w.docs[d].sha256
  {
    hide *;
    DocumentPlace(w, sha, d);
    var p := w.docs[d].storedPath;
    LicensePathPlain(p[..4]);
    PlainChild(p[..4], p[4]);
    assert p == p[..4] + [p[4]];
  }

  lemma DocRowResolves(w: World, sha: Bytes -> string, d: nat)
    requires Inv(w, sha) && d in w.docs
    ensures Resolve(DocRowOf(w, d).stored) == Some(w.docs[d].storedPath)
    ensures OwnFile(RowsOf(w), DocRowOf(w, d))
    ensures w.docs[d].storedPath in w.fs.files
    ensures sha(w.fs.files[w.docs[d].storedPath]) == w.docs[d].sha256
  {
    hide Inv, Resolve, LicensePath, Plain;
    IntactDocument(w, sha, d);
    var p, i := w.docs[d].storedPath, w.docs[d].licenseID;
    LicenseRowResolves(w, sha, i);
    RowResolves(p);
    var r := LicenseRow(i, Text(w.licenses[i].fsDirPath));
    assert r in RowsOf(w) && Folder(r) == p[..4];
  }

  lemma ProgramShape(w: World, sha: Bytes -> string)
    requires Inv(w, sha)
    ensures ScanShape(RowsOf(w), DocRowsOf(w))
  {
    assert FoldersDistinct(w.licenses) && StoredPathsDistinct(w.docs);
    hide Inv, Resolve, LicensePath, OwnFile;
    forall i | i in w.licenses
      ensures LicensePath(w.licenses[i].fsDirPath)
      ensures Resolve(Text(w.licenses[i].fsDirPath)) == Some(w.licenses[i].fsDirPath)
    {
      LicenseRowResolves(w, sha, i);
    }
    forall d | d in w.docs
      ensures Resolve(DocRowOf(w, d).stored) == Some(w.docs[d].storedPath)
      ensures OwnFile(RowsOf(w), DocRowOf(w, d))
    {
      DocRowResolves(w, sha, d);
    }
  }

  /** After any run of the handlers the scan finds no missing, altered or misplaced document. */
  lemma RunsScanClean(w: World, sha: Bytes -> string, x: Finding)
    requires Inv(w, sha) && x in ScanFindings(w.fs, sha, RowsOf(w), DocRowsOf(w))
    ensures x.kind in {UnregisteredFile, DirMissing, OrphanDir}
  {
    hide Inv, Resolve;
    if r :| r in RowsOf(w) && x in RowFindings(w.fs, sha, r, DocRowsOf(w)) {
      LicenseRowResolves(w, sha, r.id);
      forall d | d in w.docs
        ensures DocFinding(w.fs, sha, DocRowOf(w, d)) == {}
      {
        DocRowResolves(w, sha, d);
      }
      assert forall e | e in DocRowsOf(w) :: e == DocRowOf(w, e.id);
      assert DocFindings(w.fs, sha, DocsOf(DocRowsOf(w), r.id)) == {};
    }
  }
}
