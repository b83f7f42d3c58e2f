/**
 * The path rule of the middleware: PHP's `pathinfo($path, PATHINFO_EXTENSION)`
 * (basename with trailing slashes stripped, then the text after the last dot)
 * and `normalize`, which appends a slash to a path that has neither a trailing
 * slash nor an extension. Paths are plain character sequences.
 */
module Paths {

  const Slash: char := '/'
  const Dot: char := '.'

  /** The path with every trailing '/' removed, as PHP's basename does first. */
  function StripTrailingSlashes(s: string): (r: string)
    ensures r <= s
    ensures r == [] || r[|r| - 1] != Slash
    ensures forall i :: |r| <= i < |s| ==> s[i] == Slash
  {
    if s != [] && s[|s| - 1] == Slash then StripTrailingSlashes(s[..|s| - 1]) else s
  }

  /**
   * The longest suffix of `s` that does not contain `c`: everything after the
   * last `c`, or all of `s` when `c` does not occur in it.
   */
  function AfterLast(s: string, c: char): (r: string)
    ensures c !in r
    ensures |r| <= |s| && r == s[|s| - |r|..]
    ensures |r| < |s| ==> s[|s| - |r| - 1] == c
  {
    if s == [] then []
    else if s[|s| - 1] == c then []
    else AfterLast(s[..|s| - 1], c) + [s[|s| - 1]]
  }

  /** PHP's basename: the last segment once trailing slashes are stripped. */
  function Basename(path: string): (b: string)
    ensures Slash !in b
    ensures |b| <= |path|
    ensures var s := StripTrailingSlashes(path);
      |b| <= |s| && b == s[|s| - |b|..] && (|b| < |s| ==> s[|s| - |b| - 1] == Slash)
  {
    AfterLast(StripTrailingSlashes(path), Slash)
  }

  /**
   * PHP's `pathinfo($path, PATHINFO_EXTENSION)`: the text after the last dot of
   * the basename, or "" when the basename holds no dot.
   */
  function Extension(path: string): (e: string)
    ensures Dot !in e && Slash !in e
    ensures var b := Basename(path);
      e == "" <==> (Dot !in b || b[|b| - 1] == Dot)
  {
    var b := Basename(path);
    if Dot in b then
      AfterLastEmptyIff(b, Dot);
      AfterLast(b, Dot)
    else ""
  }

  /**
   * `normalize`: "" becomes "/"; a path of one character is kept; a longer
   * path gets a trailing slash when it has none and no extension.
   */
  function Normalize(path: string): (r: string)
    ensures r != []
    ensures path == [] ==> r == "/"
    ensures path != [] ==> r == path || r == path + "/"
  {
    if path == [] then "/"
    else if 1 < |path| && path[|path| - 1] != Slash && Extension(path) == "" then path + "/"
    else path
  }

  /** The suffix after the last `c` of `s + [c] + t` is `t` when `t` holds no `c`. */
  lemma {:induction false} AfterLastOfSeparated(s: string, c: char, t: string)
    requires c !in t
    ensures AfterLast(s + [c] + t, c) == t
  {
    var u := s + [c] + t;
    if t == [] {
      assert u[|u| - 1] == c;
    } else {
      var t' := t[..|t| - 1];
      assert u[..|u| - 1] == s + [c] + t';
      assert u[|u| - 1] == t[|t| - 1];
      AfterLastOfSeparated(s, c, t');
      assert t' + [t[|t| - 1]] == t;
    }
  }

  /**
   * The suffix after the last `c` is empty exactly when `s` ends in `c`.
   * It serves only `Extension`, to state when the extension is empty.
   */
  lemma AfterLastEmptyIff(s: string, c: char)
    requires s != []
    ensures AfterLast(s, c) == [] <==> s[|s| - 1] == c
  {
  }

  /** The basename of `dir + "/" + name`, for a non-empty `name` free of '/', is `name`. */
  lemma BasenameOfLastSegment(dir: string, name: string)
    requires name != [] && Slash !in name
    ensures Basename(dir + "/" + name) == name
  {
    var path := dir + "/" + name;
    assert path[|path| - 1] == name[|name| - 1];
    assert StripTrailingSlashes(path) == path;
    AfterLastOfSeparated(dir, Slash, name);
  }

  /** A string without `c` is all "after the last `c`". */
  lemma {:induction false} AfterLastOfFree(s: string, c: char)
    requires c !in s
    ensures AfterLast(s, c) == s
  {
    if s != [] {
      var init := s[..|s| - 1];
      assert s[|s| - 1] in s;
      assert c !in init by {
        forall i | 0 <= i < |init| ensures init[i] != c {
          assert init[i] == s[i];
        }
      }
      AfterLastOfFree(init, c);
      assert init + [s[|s| - 1]] == s;
    }
  }

  /** A path without any '/' is its own basename. */
  lemma BasenameOfSingleSegment(path: string)
    requires Slash !in path
    ensures Basename(path) == path
  {
    if path != [] {
      assert path[|path| - 1] in path;
    }
    assert StripTrailingSlashes(path) == path;
    AfterLastOfFree(path, Slash);
  }

  /** Normalizing "" gives "/". */
  lemma NormalizeEmpty()
    ensures Normalize("") == "/"
  {
  }

  /** A one-character path (such as "/" or "a") is returned unchanged. */
  lemma NormalizeShort(path: string)
    requires |path| == 1
    ensures Normalize(path) == path
  {
  }

  /**
   * For a non-empty path, a slash is appended exactly when the path is longer
   * than one character, does not end in '/' and has an empty extension;
   * otherwise the path comes back unchanged.
   */
  lemma NormalizeAppendsIff(path: string)
    requires path != []
    ensures Normalize(path) == path + "/" <==>
      1 < |path| && path[|path| - 1] != Slash && Extension(path) == ""
    ensures Normalize(path) == path <==>
      !(1 < |path| && path[|path| - 1] != Slash && Extension(path) == "")
  {
    assert |path + "/"| != |path|;
  }

  /** A path ending in '/' is already normal. */
  lemma NormalizeKeepsTrailingSlash(path: string)
    requires path != [] && path[|path| - 1] == Slash
    ensures Normalize(path) == path
  {
  }

  /** A path with a non-empty extension is already normal. */
  lemma NormalizeKeepsExtension(path: string)
    ensures Extension(path) != "" ==> Normalize(path) == path
  {
  }

  /** Normalizing twice is normalizing once. */
  lemma NormalizeIdempotent(path: string)
    ensures Normalize(Normalize(path)) == Normalize(path)
  {
    var n := Normalize(path);
    if n != path {
      assert n[|n| - 1] == Slash;
    }
  }

  /**
   * The segment rule in terms of the path's own shape: a directory, a '/', and
   * a last segment `name` with no '/' and no '.' gets a slash appended.
   */
  lemma NormalizeSegmentWithoutDot(dir: string, name: string)
    requires name != [] && Slash !in name && Dot !in name
    ensures Normalize(dir + "/" + name) == dir + "/" + name + "/"
  {
    var path := dir + "/" + name;
    assert path[|path| - 1] == name[|name| - 1];
    BasenameOfLastSegment(dir, name);
  }

  /** A slash-free path longer than one character and without a dot, such as "ab", gets a slash. */
  lemma NormalizeSingleSegment(name: string)
    requires 1 < |name| && Slash !in name && Dot !in name
    ensures Normalize(name) == name + "/"
  {
    assert name[|name| - 1] in name;
    BasenameOfSingleSegment(name);
  }

  /**
   * A last segment `stem.ext`, with a non-empty `ext` free of '.', is an
   * extension: the path is left unchanged, whatever the stem holds (dots
   * included, as in "archive.tar.gz", or nothing at all, as in "/.env").
   */
  lemma NormalizeSegmentWithExtension(dir: string, stem: string, ext: string)
    requires Slash !in stem && Slash !in ext && Dot !in ext && ext != []
    ensures Extension(dir + "/" + stem + "." + ext) == ext
    ensures Normalize(dir + "/" + stem + "." + ext) == dir + "/" + stem + "." + ext
  {
    var name := stem + [Dot] + ext;
    var path := dir + "/" + name;
    assert dir + "/" + stem + "." + ext == path;
    BasenameOfLastSegment(dir, name);
    assert Dot in name by { assert name[|stem|] == Dot; }
    AfterLastOfSeparated(stem, Dot, ext);
    assert Extension(path) == ext;
    assert path[|path| - 1] != Slash by { assert path[|path| - 1] == ext[|ext| - 1]; }
  }

  /**
   * A last segment that ends in '.' has an empty extension, so "/file."
   * becomes "/file./" although its last segment contains a dot.
   */
  lemma NormalizeSegmentEndingInDot(dir: string, stem: string)
    requires Slash !in stem
    ensures Normalize(dir + "/" + stem + ".") == dir + "/" + stem + "./"
  {
    var name := stem + ".";
    assert dir + "/" + stem + "." == dir + "/" + name;
    BasenameOfLastSegment(dir, name);
  }
}
