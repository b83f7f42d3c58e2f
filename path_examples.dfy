/** The concrete paths the trailing-slash rule is known by, derived from the general lemmas. */
module PathExamples {
  import opened Paths

  lemma PathGetsSlash()
    ensures Normalize("/path") == "/path/"
  {
    assert "" + "/" + "path" == "/path";
    NormalizeSegmentWithoutDot("", "path");
  }

  lemma SlashedPathKept()
    ensures Normalize("/path/") == "/path/"
  {
    NormalizeKeepsTrailingSlash("/path/");
  }

  lemma NestedPathGetsSlash()
    ensures Normalize("/path/to/nested/resource") == "/path/to/nested/resource/"
  {
    assert "/path/to/nested" + "/" + "resource" == "/path/to/nested/resource";
    NormalizeSegmentWithoutDot("/path/to/nested", "resource");
  }

  lemma FileWithExtensionKept()
    ensures Normalize("/file.txt") == "/file.txt"
  {
    assert "" + "/" + "file" + "." + "txt" == "/file.txt";
    NormalizeSegmentWithExtension("", "file", "txt");
  }

  lemma MultiDotNameKept()
    ensures Normalize("/path.with.dots") == "/path.with.dots"
  {
    assert "" + "/" + "path.with" + "." + "dots" == "/path.with.dots";
    NormalizeSegmentWithExtension("", "path.with", "dots");
  }

  lemma DotFileKept()
    ensures Normalize("/.env") == "/.env"
  {
    assert "" + "/" + "" + "." + "env" == "/.env";
    NormalizeSegmentWithExtension("", "", "env");
  }

  lemma TrailingDotGetsSlash()
    ensures Normalize("/file.") == "/file./"
  {
    assert "" + "/" + "file" + "." == "/file.";
    NormalizeSegmentEndingInDot("", "file");
  }

  lemma DottedDirectoryGetsSlash()
    ensures Normalize("/v1.0/x") == "/v1.0/x/"
  {
    assert "/v1.0" + "/" + "x" == "/v1.0/x";
    NormalizeSegmentWithoutDot("/v1.0", "x");
  }

  lemma SlashFreeNameGetsSlash()
    ensures Normalize("ab") == "ab/"
  {
    NormalizeSingleSegment("ab");
  }
}
