/**
 Relative slash paths. The tables hold path texts and the file store resolves them; the rest of the
 model works on the component sequences, and the lemmas here say that nothing is lost by that.
 */
module Paths {
  import opened Wrappers
  import opened Slug
  import opened Decimal

  type Path = seq<string>

  /** A component that names exactly one directory entry. */
  predicate PlainPart(c: string) {
    c != "" && c != "." && c != ".." && '/' !in c
  }

  predicate Plain(p: Path) {
    forall c | c in p :: PlainPart(c)
  }

  function Text(p: Path): string {
    if p == [] then "" else if |p| == 1 then p[0] else p[0] + "/" + Text(p[1..])
  }

  function Split(s: string): (parts: seq<string>)
    ensures |parts| >= 1
    ensures forall c | c in parts :: '/' !in c
  {
    if s == "" then [""]
    else
      var rest := Split(s[1..]);
      if s[0] == '/' then [""] + rest else [[s[0]] + rest[0]] + rest[1..]
  }

  lemma {:induction false} SplitJoined(a: string, b: string)
    ensures Split(a + "/" + b) == Split(a) + Split(b)
  {
    if a == "" {
      assert a + "/" + b == "/" + b;
      assert ("/" + b)[1..] == b;
    } else {
      assert (a + "/" + b)[1..] == a[1..] + "/" + b;
      SplitJoined(a[1..], b);
    }
  }

  lemma {:induction false} SplitPart(c: string)
    requires '/' !in c
    ensures Split(c) == [c]
  {
    if c != "" {
      assert c[0] in c && c == [c[0]] + c[1..];
      SplitPart(c[1..]);
    }
  }

  /** The text of a path determines its components. */
  lemma {:induction false} SplitText(p: Path)
    requires p != [] && forall c | c in p :: '/' !in c
    ensures Split(Text(p)) == p
  {
    SplitPart(p[0]);
    if |p| > 1 {
      SplitJoined(p[0], Text(p[1..]));
      SplitText(p[1..]);
    }
  }

  lemma TextInjective(p: Path, q: Path)
    requires p != [] && q != [] && Plain(p) && Plain(q) && Text(p) == Text(q)
    ensures p == q
  {
    SplitText(p);
    SplitText(q);
  }

  lemma {:induction false} TextAppend(p: Path, q: Path)
    requires p != [] && q != []
    ensures Text(p + q) == Text(p) + "/" + Text(q)
  {
    if |p| == 1 {
      assert (p + q)[1..] == q;
    } else {
      assert (p + q)[1..] == p[1..] + q;
      TextAppend(p[1..], q);
    }
  }

  /** `strings.HasPrefix(stored, dir + "/")` holds exactly for the paths strictly inside `dir`. */
  lemma PrefixText(dir: Path, p: Path)
    requires dir != [] && p != [] && Plain(dir) && Plain(p)
    ensures Text(dir) + "/" <= Text(p) <==> dir < p
  {
    if dir < p {
      assert p == dir + p[|dir|..];
      TextAppend(dir, p[|dir|..]);
    }
    if Text(dir) + "/" <= Text(p) {
      var rest := Text(p)[|Text(dir)| + 1..];
      assert Text(p) == Text(dir) + "/" + rest;
      SplitJoined(Text(dir), rest);
      SplitText(dir);
      SplitText(p);
    }
  }

  /** Swapping the text prefix is the same as swapping the leading components. */
  lemma ReprefixText(oldDir: Path, newDir: Path, p: Path)
    requires oldDir != [] && newDir != [] && oldDir < p
    ensures Text(oldDir) + "/" <= Text(p)
    ensures Text(newDir) + "/" + Text(p)[|Text(oldDir)| + 1..] == Text(newDir + p[|oldDir|..])
  {
    var rest := p[|oldDir|..];
    assert p == oldDir + rest;
    TextAppend(oldDir, rest);
    TextAppend(newDir, rest);
  }

  // ---- path.Clean and the guard against leaving the base directory ----

  function CleanStep(out: Path, c: string): Path {
    if c == "" || c == "." then out
    else if c == ".." then
      if out != [] && out[|out| - 1] != ".." then out[..|out| - 1] else out + [".."]
    else out + [c]
  }

  /** path.Clean on the components of a relative path. */
  function Clean(parts: seq<string>): Path {
    if parts == [] then [] else CleanStep(Clean(parts[..|parts| - 1]), parts[|parts| - 1])
  }

  /** How far below its start a walk along `parts` ends up. */
  function Depth(parts: seq<string>): int {
    if parts == [] then 0
    else
      var c := parts[|parts| - 1];
      Depth(parts[..|parts| - 1]) + (if c == "" || c == "." then 0 else if c == ".." then -1 else 1)
  }

  /** After some step the walk stands above its start. */
  predicate Escapes(parts: seq<string>) {
    parts != [] && (Depth(parts) < 0 || Escapes(parts[..|parts| - 1]))
  }

  /** Every component the walk keeps is an ordinary name taken from it. */
  ghost predicate KeptFrom(out: Path, parts: seq<string>) {
    forall c | c in out :: c != "" && c != "." && c != ".." && c in parts
  }

  /** Cleaning leaves a leading ".." exactly when the walk climbs above its start. */
  lemma {:induction false} CleanEscapes(parts: seq<string>)
    ensures Escapes(parts) <==> Clean(parts) != [] && Clean(parts)[0] == ".."
    ensures !Escapes(parts) ==> |Clean(parts)| == Depth(parts) && KeptFrom(Clean(parts), parts)
  {
    if parts != [] {
      var init, c := parts[..|parts| - 1], parts[|parts| - 1];
      CleanEscapes(init);
      assert parts == init + [c];
      var out := Clean(init);
      if !Escapes(init) && out != [] {
        assert out[|out| - 1] in out && out[0] in out;
      }
      if !Escapes(parts) {
        forall d | d in Clean(parts)
          ensures d != "" && d != "." && d != ".." && d in parts
        {
          assert d in out || d == c;
        }
      }
    }
  }

  lemma {:induction false} CleanPlain(p: Path)
    requires Plain(p)
    ensures Clean(p) == p
  {
    if p != [] {
      CleanPlain(p[..|p| - 1]);
      assert p[|p| - 1] in p;
      assert p == p[..|p| - 1] + [p[|p| - 1]];
    }
  }

  /** Resolve a table's path text below `base`; refuse empty, absolute and escaping texts. */
  function DirAbs(base: Path, text: string): Option<Path> {
    if text == "" || text[0] == '/' then None
    else
      var parts := Clean(Split(text));
      if parts != [] && parts[0] == ".." then None else Some(base + parts)
  }

  /** The guard refuses exactly the texts that leave the base, and what it lets through stays below. */
  lemma DirAbsContains(base: Path, text: string)
    ensures DirAbs(base, text).Some? <==> text != "" && text[0] != '/' && !Escapes(Split(text))
    ensures DirAbs(base, text).Some? ==>
              base <= DirAbs(base, text).value && Plain(DirAbs(base, text).value[|base|..])
  {
    CleanEscapes(Split(text));
  }

  /** A plain path resolves to itself, so different rows never meet in one place by accident. */
  lemma DirAbsPlain(base: Path, p: Path)
    requires p != [] && Plain(p)
    ensures DirAbs(base, Text(p)) == Some(base + p)
  {
    assert p[0] in p;
    SplitText(p);
    CleanPlain(p);
    assert Text(p) != "" && Text(p)[0] == p[0][0];
    assert p[0][0] in p[0];
  }

  // ---- the license folder layout ----

  /** path.Join: drop empty elements, join with slashes, clean. */
  function PathJoin(elems: seq<string>): string {
    Text(Clean(Split(Text(NonEmpty(elems)))))
  }

  function NonEmpty(elems: seq<string>): seq<string> {
    if elems == [] then [] else (if elems[0] == "" then [] else [elems[0]]) + NonEmpty(elems[1..])
  }

  function LicenseFsDirPath(vendor: string, product: string, licenseSlug: string): Path {
    ["licenses", Slugify(vendor), Slugify(product), Slugify(licenseSlug)]
  }

  /** licenses/<vendor>/<product>/<license>, each of the three a slug. */
  predicate LicensePath(p: Path) {
    |p| == 4 && p[0] == "licenses" && IsSlug(p[1]) && IsSlug(p[2]) && IsSlug(p[3])
  }

  lemma LicensePathPlain(p: Path)
    requires LicensePath(p)
    ensures Plain(p)
  {
  }

  lemma {:induction false} NonEmptyPlain(p: Path)
    requires Plain(p)
    ensures NonEmpty(p) == p
  {
    if p != [] {
      assert p[0] in p && p == [p[0]] + p[1..];
      NonEmptyPlain(p[1..]);
    }
  }

  /** Whatever the names contain, path.Join of their slugs is the four-component path itself. */
  lemma LicenseFsDirText(vendor: string, product: string, licenseSlug: string)
    ensures LicensePath(LicenseFsDirPath(vendor, product, licenseSlug))
    ensures PathJoin(["licenses", Slugify(vendor), Slugify(product), Slugify(licenseSlug)])
         == Text(LicenseFsDirPath(vendor, product, licenseSlug))
  {
    SlugifyShape(vendor);
    SlugifyShape(product);
    SlugifyShape(licenseSlug);
    var p := LicenseFsDirPath(vendor, product, licenseSlug);
    LicensePathPlain(p);
    NonEmptyPlain(p);
    SplitText(p);
    CleanPlain(p);
  }

  /** path.Join of a stored directory text and a plain file name. */
  lemma StoredPathText(dir: Path, name: string)
    requires dir != [] && Plain(dir) && PlainPart(name)
    ensures PathJoin([Text(dir), name]) == Text(dir + [name])
  {
    var p := dir + [name];
    TextAppend(dir, [name]);
    SplitText(p);
    CleanPlain(p);
    assert dir[0] in dir;
    assert Text(dir) != "";
    assert NonEmpty([name]) == [name];
    assert [Text(dir), name][1..] == [name];
    assert NonEmpty([Text(dir), name]) == [Text(dir), name];
    assert [Text(dir), name][1..] == [name];
    assert Text([Text(dir), name]) == Text(dir) + "/" + name;
  }

  // ---- collision suffixes ----

  /** The i-th name tried for a taken directory: itself, then _2, _3 and so on. */
  function Candidate(desired: Path, i: nat): Path
    requires desired != []
  {
    if i <= 1 then desired
    else desired[..|desired| - 1] + [desired[|desired| - 1] + "_" + Itoa(i)]
  }

  lemma {:induction false} CandidateText(desired: Path, i: nat)
    requires desired != [] && i > 1
    ensures Text(Candidate(desired, i)) == Text(desired) + "_" + Itoa(i)
  {
    var n := |desired| - 1;
    var last := desired[n];
    if n > 0 {
      assert desired == desired[..n] + [last];
      TextAppend(desired[..n], [last]);
      TextAppend(desired[..n], [last + "_" + Itoa(i)]);
    }
  }

  lemma CandidateInjective(desired: Path, i: nat, j: nat)
    requires desired != [] && 1 <= i && 1 <= j && Candidate(desired, i) == Candidate(desired, j)
    ensures i == j
  {
    var n := |desired| - 1;
    var last := desired[n];
    assert Candidate(desired, i)[n] == Candidate(desired, j)[n];
    if i > 1 && j > 1 {
      assert (last + "_" + Itoa(i))[|last| + 1..] == Itoa(i);
      assert (last + "_" + Itoa(j))[|last| + 1..] == Itoa(j);
      ItoaInjective(i, j);
    }
  }

  lemma SuffixedSlug(s: string, i: nat)
    requires IsSlug(s)
    ensures IsSlug(s + "_" + Itoa(i))
  {
  }

  lemma CandidateShape(desired: Path, i: nat)
    requires LicensePath(desired)
    ensures LicensePath(Candidate(desired, i))
  {
    SuffixedSlug(desired[3], i);
  }

  /** Two different license folders are never nested: neither contains the other. */
  lemma LicensePathsPrefixFree(p: Path, q: Path)
    requires LicensePath(p) && LicensePath(q) && Text(p) != Text(q)
    ensures !(Text(p) + "/" <= Text(q)) && !(p <= q)
  {
    LicensePathPlain(p);
    LicensePathPlain(q);
    PrefixText(p, q);
    assert p <= q ==> p == q;
  }
}
