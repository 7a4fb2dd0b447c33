/** The slug rule that turns display names into single path components. */
module Slug {

  /** Go's unicode.IsSpace. */
  predicate IsSpace(c: char) {
    || '\U{0009}' <= c <= '\U{000D}'
    || c == ' ' || c == '\U{0085}' || c == '\U{00A0}' || c == '\U{1680}'
    || '\U{2000}' <= c <= '\U{200A}'
    || c == '\U{2028}' || c == '\U{2029}' || c == '\U{202F}' || c == '\U{205F}' || c == '\U{3000}'
  }

  /** Go's unicode.IsControl. */
  predicate IsControl(c: char) {
    c <= '\U{001F}' || '\U{007F}' <= c <= '\U{009F}'
  }

  /** Characters that never survive into a slug. */
  predicate Forbidden(c: char) {
    c in "/\\:*?\"<>|" || IsControl(c) || IsSpace(c)
  }

  function TrimLeft(s: string): string {
    if s != [] && IsSpace(s[0]) then TrimLeft(s[1..]) else s
  }

  function TrimRight(s: string): string {
    if s != [] && IsSpace(s[|s| - 1]) then TrimRight(s[..|s| - 1]) else s
  }

  function TrimSpace(s: string): string {
    TrimRight(TrimLeft(s))
  }

  function Scrub(s: string): (t: string)
    ensures |t| == |s|
    ensures forall i | 0 <= i < |s| :: t[i] == if Forbidden(s[i]) then '_' else s[i]
  {
    if s == [] then [] else [if Forbidden(s[0]) then '_' else s[0]] + Scrub(s[1..])
  }

  function Slugify(s: string): string {
    var trimmed := TrimSpace(s);
    if trimmed == "" then "_"
    else
      var out := Scrub(trimmed);
      if out == "." || out == ".." then "_" else out
  }

  /** What a path component must look like to be safe: this is the rule the slugs are for. */
  predicate IsSlug(t: string) {
    t != "" && t != "." && t != ".." && forall c | c in t :: !Forbidden(c)
  }

  lemma SlugifyShape(s: string)
    ensures IsSlug(Slugify(s))
    ensures Slugify(s) != "" && Slugify(s) != "." && Slugify(s) != ".."
    ensures forall c | c in Slugify(s) :: c !in "/\\:*?\"<>|" && !('\0' <= c <= ' ') && !('\U{007F}' <= c <= '\U{00A0}')
  {
  }

  /** The white space of Unicode, by code points. */
  predicate White(c: int) {
    9 <= c <= 13 || c in {32, 0x85, 0xA0, 0x1680, 0x2028, 0x2029, 0x202F, 0x205F, 0x3000} || 0x2000 <= c <= 0x200A
  }

  lemma CharactersAre(c: char)
    ensures IsSpace(c) <==> White(c as int)
    ensures Forbidden(c) <==> c in "/\\:*?\"<>|" || (c as int) < 32 || 127 <= (c as int) < 160 || White(c as int)
  {
  }

  lemma {:induction false} TrimLeftIs(s: string) returns (left: string)
    ensures s == left + TrimLeft(s) && Blank(left)
    ensures TrimLeft(s) != "" ==> !IsSpace(TrimLeft(s)[0])
  {
    if s != [] && IsSpace(s[0]) {
      var rest := TrimLeftIs(s[1..]);
      left := [s[0]] + rest;
      assert s == [s[0]] + s[1..];
    } else {
      left := "";
      assert s == left + s;
    }
  }

  lemma {:induction false} TrimRightIs(s: string) returns (right: string)
    ensures s == TrimRight(s) + right && Blank(right)
    ensures TrimRight(s) != "" ==> !IsSpace(TrimRight(s)[|TrimRight(s)| - 1])
  {
    if s != [] && IsSpace(s[|s| - 1]) {
      var rest := TrimRightIs(s[..|s| - 1]);
      right := rest + [s[|s| - 1]];
      assert s == s[..|s| - 1] + [s[|s| - 1]];
    } else {
      right := "";
      assert s == s + right;
    }
  }

  lemma TrimSpaceIs(s: string) returns (left: string, right: string)
    ensures s == left + TrimSpace(s) + right && Blank(left) && Blank(right)
    ensures TrimSpace(s) != "" ==> !IsSpace(TrimSpace(s)[0]) && !IsSpace(TrimSpace(s)[|TrimSpace(s)| - 1])
  {
    left := TrimLeftIs(s);
    right := TrimRightIs(TrimLeft(s));
    hide TrimLeft, TrimRight, Blank, IsSpace;
    var name := TrimSpace(s);
    assert s == left + (name + right) == left + name + right;
    assert name != "" ==> TrimLeft(s)[0] == name[0];
  }

  predicate Underscored(t: string, s: string) {
    |t| == |s| && forall i | 0 <= i < |s| :: t[i] == if Forbidden(s[i]) then '_' else s[i]
  }

  /**
   The slug, said without the way it is computed: the name without the white space around it, forbidden
   characters replaced one by one, and an underscore where that leaves no usable component.
   */
  lemma SlugifyIs(s: string) returns (left: string, name: string, right: string)
    ensures s == left + name + right && Blank(left) && Blank(right)
    ensures name != "" ==> !IsSpace(name[0]) && !IsSpace(name[|name| - 1])
    ensures name in {"", ".", ".."} ==> Slugify(s) == "_"
    ensures name !in {"", ".", ".."} ==> Underscored(Slugify(s), name)
  {
    left, right := TrimSpaceIs(s);
    name := TrimSpace(s);
    hide TrimSpace, IsSpace, Blank;
    var out := Scrub(name);
    if out == "." || out == ".." {
      assert forall i | 0 <= i < |name| :: out[i] == '.' && name[i] == '.';
      assert name == out;
    }
    assert name == "." ==> out[0] == '.' && out == ".";
    assert name == ".." ==> out[0] == '.' && out[1] == '.' && out == "..";
  }

  /** Slugs are exactly the fixed points: the rule is idempotent and misses no safe name. */
  lemma SlugifyFixed(s: string)
    ensures Slugify(s) == s <==> IsSlug(s)
    ensures Slugify(Slugify(s)) == Slugify(s)
  {
    SlugifyShape(s);
    if IsSlug(s) {
      FixedPoint(s);
    }
    FixedPoint(Slugify(s));
  }

  lemma FixedPoint(s: string)
    requires IsSlug(s)
    ensures Slugify(s) == s
  {
    assert s[0] in s && s[|s| - 1] in s;
    assert TrimSpace(s) == s;
    assert forall i | 0 <= i < |s| :: s[i] in s;
    assert Scrub(s) == s;
  }

  ghost predicate Blank(s: string) {
    forall c | c in s :: IsSpace(c)
  }

  /** Surrounding white space never reaches the slug, however much of it there is. */
  lemma SlugifyIgnoresPadding(left: string, s: string, right: string)
    requires Blank(left) && Blank(right)
    ensures Slugify(left + s + right) == Slugify(s)
  {
    hide IsSpace, Scrub;
    assert left + s + right == left + (s + right);
    TrimLeftDropsBlank(left, s + right);
    if Blank(s) {
      TrimLeftDropsBlank(s, right);
      TrimLeftDropsBlank(s, "");
      TrimLeftDropsBlank(right, "");
      assert s + "" == s && right + "" == right;
    } else {
      TrimLeftKeepsTail(s, right);
      TrimRightDropsBlank(TrimLeft(s), right);
    }
  }

  lemma {:induction false} TrimLeftDropsBlank(left: string, s: string)
    requires Blank(left)
    ensures TrimLeft(left + s) == TrimLeft(s)
  {
    if left == [] {
      assert left + s == s;
    } else {
      assert left[0] in left;
      assert (left + s)[1..] == left[1..] + s;
      TrimLeftDropsBlank(left[1..], s);
    }
  }

  lemma {:induction false} TrimLeftKeepsTail(s: string, right: string)
    requires !Blank(s)
    ensures TrimLeft(s + right) == TrimLeft(s) + right
  {
    if IsSpace(s[0]) {
      assert (s + right)[1..] == s[1..] + right;
      assert s == [s[0]] + s[1..];
      TrimLeftKeepsTail(s[1..], right);
    }
  }

  lemma {:induction false} TrimRightDropsBlank(s: string, right: string)
    requires Blank(right)
    ensures TrimRight(s + right) == TrimRight(s)
  {
    if right == [] {
      assert s + right == s;
    } else {
      assert right[|right| - 1] in right;
      assert (s + right)[..|s + right| - 1] == s + right[..|right| - 1];
      TrimRightDropsBlank(s, right[..|right| - 1]);
    }
  }
}
