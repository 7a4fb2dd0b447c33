/** Which uploads the store accepts, said on the characters of the name and the first bytes of the content. */
module Uploads {
  import opened Paths
  import opened FileTree
  import opened LicenseHandlers

  // ---- names ----

  predicate Slashes(s: string) {
    forall c | c in s :: c == '/'
  }

  lemma LastOf(s: string)
    requires s != ""
    ensures var tail, last := Split(s[1..]), Split(s)[|Split(s)| - 1];
            if s[0] == '/' || |tail| > 1 then last == tail[|tail| - 1] else last == [s[0]] + tail[0]
  {
  }

  lemma Glue(c: char, before: string, last: string)
    ensures [c] + (before + last) == ([c] + before) + last
    ensures before != "" ==> ([c] + before)[|before|] == before[|before| - 1]
  {
  }

  lemma {:induction false} LastPart(s: string) returns (before: string)
    ensures s == before + Split(s)[|Split(s)| - 1]
    ensures before == "" || before[|before| - 1] == '/'
  {
    if s == "" {
      before := "";
    } else {
      hide Split;
      LastOf(s);
      PartsJoin(s[1..]);
      assert s == [s[0]] + s[1..];
      var tail := Split(s[1..]);
      if s[0] != '/' && |tail| == 1 {
        before := "";
        assert s == "" + s;
      } else {
        var rest := LastPart(s[1..]);
        if s[0] != '/' {
          SeveralParts(s[1..], rest);
        }
        Glue(s[0], rest, tail[|tail| - 1]);
        before := [s[0]] + rest;
      }
    }
  }

  lemma {:induction false} PartsJoin(s: string)
    ensures |Split(s)| == 1 ==> Split(s)[0] == s
  {
    if s != "" && s[0] != '/' {
      PartsJoin(s[1..]);
      assert s == [s[0]] + s[1..];
    }
  }

  /** With several parts something stands before the last one. */
  lemma SeveralParts(s: string, before: string)
    requires |Split(s)| > 1 && s == before + Split(s)[|Split(s)| - 1]
    ensures before != ""
  {
    if before == "" {
      assert s == Split(s)[|Split(s)| - 1];
      assert '/' !in s;
      OnePart(s);
    }
  }

  lemma {:induction false} OnePart(s: string)
    requires '/' !in s
    ensures |Split(s)| == 1
  {
    if s != "" {
      assert s[0] in s;
      assert forall c | c in s[1..] :: c in s;
      OnePart(s[1..]);
    }
  }

  lemma {:induction false} StrippedIs(s: string) returns (slashes: string)
    ensures s == StripSlashes(s) + slashes && Slashes(slashes)
    ensures StripSlashes(s) != "" ==> StripSlashes(s)[|StripSlashes(s)| - 1] != '/'
  {
    if s != "" && s[|s| - 1] == '/' {
      var rest := StrippedIs(s[..|s| - 1]);
      slashes := rest + ['/'];
      assert s == s[..|s| - 1] + ['/'];
    } else {
      slashes := "";
      assert s == s + slashes;
    }
  }

  /** The base of a name is its last component, slashes at the end aside. */
  lemma BaseIs(name: string) returns (before: string, slashes: string)
    requires !Slashes(name)
    ensures name == before + Base(name) + slashes && Slashes(slashes)
    ensures '/' !in Base(name) && Base(name) != "" && (before == "" || before[|before| - 1] == '/')
  {
    slashes := StrippedIs(name);
    var s := StripSlashes(name);
    assert s == "" ==> name == slashes;
    before := LastPart(s);
    var last := Split(s)[|Split(s)| - 1];
    assert last in Split(s);
    assert last == "" ==> s == before;
  }

  /** The extension of a name that ends in a dot and letters is that ending. */
  lemma {:induction false} ExtOfEnding(before: string, x: string)
    requires x != "" && x[0] == '.' && '.' !in x[1..]
    ensures Ext(before + x) == x
  {
    if before == "" {
      NoDotNoExt(x[1..]);
      assert before + x == x;
    } else {
      ExtOfEnding(before[1..], x);
      assert (before + x)[1..] == before[1..] + x;
    }
  }

  lemma {:induction false} NoDotNoExt(s: string)
    requires '.' !in s
    ensures Ext(s) == ""
  {
    if s != "" {
      assert s[0] in s;
      assert forall c | c in s[1..] :: c in s;
      NoDotNoExt(s[1..]);
    }
  }

  /** The last component of the name ends in `ext`, in upper or lower case. */
  ghost predicate EndsIn(name: string, ext: string) {
    var base := Base(name);
    |base| >= |ext| && SameButCase(base[|base| - |ext|..], ext)
  }

  const EXTENSIONS := [".pdf", ".png", ".jpg", ".jpeg"]

  lemma ExtensionForm(ext: string)
    requires ext in EXTENSIONS
    ensures ext != "" && ext[0] == '.' && ToLower(ext) == ext
    ensures forall i | 1 <= i < |ext| :: 'a' <= ext[i] <= 'z'
  {
  }

  /** In upper or lower case such an ending has one dot, its first character. */
  lemma EndingHasOneDot(x: string, ext: string)
    requires ext != "" && ext[0] == '.' && SameButCase(x, ext) && forall i | 1 <= i < |ext| :: 'a' <= ext[i] <= 'z'
    ensures x != "" && x[0] == '.' && '.' !in x[1..]
  {
    assert SameLetter(x[0], ext[0]);
    forall i | 1 <= i < |x|
      ensures x[i] != '.'
    {
      assert SameLetter(x[i], ext[i]);
    }
  }

  lemma EndsInIs(name: string, ext: string)
    requires ext in EXTENSIONS
    ensures ToLower(Ext(Base(name))) == ext <==> EndsIn(name, ext)
  {
    var base := Base(name);
    ExtensionForm(ext);
    hide ToLower, Ext, Base, EXTENSIONS, SameButCase, SameLetter;
    if EndsIn(name, ext) {
      var x, before := base[|base| - |ext|..], base[..|base| - |ext|];
      assert base == before + x;
      EndingHasOneDot(x, ext);
      ExtOfEnding(before, x);
      LowerAgreeIff(x, ext);
    }
    if ToLower(Ext(base)) == ext {
      LowerAgreeIff(Ext(base), ext);
      SameLength(Ext(base), ext);
    }
  }

  lemma SameLength(a: string, b: string)
    requires SameButCase(a, b)
    ensures |a| == |b|
  {
  }

  // ---- uploads ----

  /** A file of this kind: by its name, by its first bytes, and wanted. */
  ghost predicate IsOf(name: string, data: Bytes, allowed: set<string>, ext: string, magic: Bytes, mime: string) {
    EndsIn(name, ext) && magic <= data && mime in allowed
  }

  /** Accepted are small enough PDF, PNG and JPEG files whose name and content say the same. */
  lemma AcceptableIff(name: string, data: Bytes, maxBytes: nat, allowed: set<string>)
    ensures Acceptable(name, data, maxBytes, allowed) <==>
              && |data| <= maxBytes
              && (|| IsOf(name, data, allowed, ".pdf", [0x25, 0x50, 0x44, 0x46, 0x2D], "application/pdf")
                  || IsOf(name, data, allowed, ".png", [0x89, 0x50, 0x4E, 0x47, 0x0D, 0x0A, 0x1A, 0x0A], "image/png")
                  || IsOf(name, data, allowed, ".jpg", [0xFF, 0xD8, 0xFF], "image/jpeg")
                  || IsOf(name, data, allowed, ".jpeg", [0xFF, 0xD8, 0xFF], "image/jpeg"))
  {
    EndsInIs(name, ".pdf");
    EndsInIs(name, ".png");
    EndsInIs(name, ".jpg");
    EndsInIs(name, ".jpeg");
    SniffIs(data);
    TypeTable(ToLower(Ext(Base(name))), SniffMIME(data));
    hide ToLower, Ext, Base, SniffMIME, EndsIn, EXT_TO_MIME, EXTENSIONS;
  }

  lemma TypeTable(ext: string, mime: string)
    ensures ext in EXT_TO_MIME && mime == EXT_TO_MIME[ext] <==>
              || (ext == ".pdf" && mime == "application/pdf") || (ext == ".png" && mime == "image/png")
              || ((ext == ".jpg" || ext == ".jpeg") && mime == "image/jpeg")
  {
  }

  lemma SniffIs(data: Bytes)
    ensures SniffMIME(data) == "application/pdf" <==> [0x25, 0x50, 0x44, 0x46, 0x2D] <= data
    ensures SniffMIME(data) == "image/png" <==> [0x89, 0x50, 0x4E, 0x47, 0x0D, 0x0A, 0x1A, 0x0A] <= data
    ensures SniffMIME(data) == "image/jpeg" <==> [0xFF, 0xD8, 0xFF] <= data
  {
    assert MAGIC_PDF <= data ==> data[0] == 0x25;
    assert MAGIC_PNG <= data ==> data[0] == 0x89;
    assert MAGIC_JPEG <= data ==> data[0] == 0xFF;
  }
}
