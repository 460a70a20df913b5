/** Names of the files inside an evidence bundle (audit/bundle.py). */
module BundlePaths {
  import opened Numerals
  import opened Runtime

  const MAX_PATH_LENGTH := 500
  const MAX_FILENAME_LENGTH := 160
  const MAX_IDENTIFIER_LENGTH := 100
  const DOCUMENT_PREFIX := "documents/"
  const MISSING_SUFFIX := ".missing.json"
  const MANIFEST_PATH := "manifest.json"
  const AUDIT_PATH := "audit_chain.json"
  const RECONSTRUCTION_PATH := "reconstruction.json"
  const PDF_PATH := "reconstruction.pdf"
  const REQUIRED_PATHS: set<string> := {RECONSTRUCTION_PATH, PDF_PATH, AUDIT_PATH}

  predicate IsAlphanumeric(c: char) { IsDigit(c) || 'a' <= c <= 'z' || 'A' <= c <= 'Z' }

  predicate IsIdentifierChar(c: char) { IsAlphanumeric(c) || c == '-' }

  predicate IsNameChar(c: char) { IsAlphanumeric(c) || c == '.' || c == '_' || c == '-' }

  /** The first `n` characters, as the slice `s[:n]`. */
  function Cut(s: string, n: nat): (r: string)
    ensures r <= s && |r| <= n
  {
    if |s| <= n then s else s[..n]
  }

  /** `_safe_document_id`. */
  function SafeIdentifier(id: string): (r: string)
    ensures 1 <= |r| <= MAX_IDENTIFIER_LENGTH
    ensures forall i :: 0 <= i < |r| ==> IsNameChar(r[i]) && r[i] != '.'
  {
    var s := Cut(seq(|id|, i requires 0 <= i < |id| => if IsIdentifierChar(id[i]) then id[i] else '_'), MAX_IDENTIFIER_LENGTH);
    if s == "" then "unknown" else s
  }

  /** Every run of other characters becomes one underscore. */
  function ReplaceRuns(s: string, inRun: bool): (r: string)
    ensures forall i :: 0 <= i < |r| ==> IsNameChar(r[i])
  {
    if s == "" then ""
    else if IsNameChar(s[0]) then [s[0]] + ReplaceRuns(s[1..], false)
    else (if inRun then "" else "_") + ReplaceRuns(s[1..], true)
  }

  predicate IsEdge(c: char) { c == '.' || c == '_' }

  /** `s.strip("._")`. */
  function TrimEdges(s: string): (r: string)
    ensures forall i :: 0 <= i < |r| ==> r[i] in s
    ensures r == "" || (!IsEdge(r[0]) && !IsEdge(r[|r| - 1]))
  {
    if s == "" then ""
    else if IsEdge(s[0]) then TrimEdges(s[1..])
    else if IsEdge(s[|s| - 1]) then TrimEdges(s[..|s| - 1])
    else s
  }

  function SafeName(base: string): (r: string)
    ensures 1 <= |r| <= MAX_FILENAME_LENGTH
    ensures forall i :: 0 <= i < |r| ==> IsNameChar(r[i])
  {
    var s := TrimEdges(ReplaceRuns(base, false));
    Cut(if s == "" then "document.bin" else s, MAX_FILENAME_LENGTH)
  }

  /** Where a document that is exported is stored; `base` is the last component of its file name. */
  function DocumentPath(id: string, base: string): string
  {
    DOCUMENT_PREFIX + (SafeIdentifier(id) + "-" + SafeName(base))
  }

  /** Where the record of a document that is not exported is stored. */
  function MissingPath(id: string): string
  {
    DOCUMENT_PREFIX + (SafeIdentifier(id) + MISSING_SUFFIX)
  }

  // ---------- which names an archive may hold ----------

  /** `s.split("/")`. */
  function Parts(s: string): (r: seq<string>)
    ensures r != []
  {
    if s == "" then [""] else
    var rest := Parts(s[1..]);
    if s[0] == '/' then [""] + rest else [[s[0]] + rest[0]] + rest[1..]
  }

  predicate ValidPath(path: string)
  {
    && 1 <= |path| <= MAX_PATH_LENGTH
    && '\\' !in path && ':' !in path && '\0' !in path
    && path[0] != '/'
    && forall part :: part in Parts(path) ==> part != "" && part != "." && part != ".."
  }

  lemma {:induction false} PartsOfWord(s: string)
    requires '/' !in s
    ensures Parts(s) == [s]
  {
    if s != "" {
      PartsOfWord(s[1..]);
      assert s == [s[0]] + s[1..];
    }
  }

  lemma {:induction false} PartsUnderFolder(folder: string, s: string)
    requires '/' !in folder && '/' !in s
    ensures Parts(folder + "/" + s) == [folder, s]
  {
    var all := folder + "/" + s;
    if folder == "" {
      PartsOfWord(s);
      assert all[1..] == s;
    } else {
      PartsUnderFolder(folder[1..], s);
      assert all[1..] == folder[1..] + "/" + s;
      assert folder == [folder[0]] + folder[1..];
    }
  }

  lemma UnderDocuments(tail: string)
    requires IsWord(tail)
    ensures ValidPath(DOCUMENT_PREFIX + tail)
  {
    hide Parts;
    PartsUnderFolder("documents", tail);
    assert "documents" + "/" == DOCUMENT_PREFIX;
    assert |"documents"| == 9;
  }

  predicate IsWord(s: string) { 3 <= |s| <= 300 && forall i :: 0 <= i < |s| ==> IsNameChar(s[i]) }

  lemma WordJoin(a: string, b: string)
    requires 1 <= |a| && 2 <= |b| && |a| + |b| <= 300
    requires forall i :: 0 <= i < |a| ==> IsNameChar(a[i])
    requires forall i :: 0 <= i < |b| ==> IsNameChar(b[i])
    ensures IsWord(a + b)
  {}

  /** Every name the builder gives to a document passes the verifier's path check. */
  lemma BuiltPathsValid(id: string, base: string)
    ensures ValidPath(DocumentPath(id, base)) && ValidPath(MissingPath(id))
  {
    hide ValidPath, SafeIdentifier, SafeName, IsNameChar;
    var name := "-" + SafeName(base);
    assert forall i :: 0 <= i < |name| ==> IsNameChar(name[i]) by { Hyphen(SafeName(base)); }
    WordJoin(SafeIdentifier(id), name);
    UnderDocuments(SafeIdentifier(id) + name);
    assert SafeIdentifier(id) + name == SafeIdentifier(id) + "-" + SafeName(base);
    SuffixChars();
    WordJoin(SafeIdentifier(id), MISSING_SUFFIX);
    UnderDocuments(SafeIdentifier(id) + MISSING_SUFFIX);
  }

  lemma Hyphen(s: string)
    requires forall i :: 0 <= i < |s| ==> IsNameChar(s[i])
    ensures forall i :: 0 <= i < |"-" + s| ==> IsNameChar(("-" + s)[i])
  {}

  lemma SuffixChars()
    ensures |MISSING_SUFFIX| == 13 && forall i :: 0 <= i < 13 ==> IsNameChar(MISSING_SUFFIX[i])
  {}

  lemma WordValid(s: string)
    requires IsWord(s)
    ensures ValidPath(s)
  {
    PartsOfWord(s);
  }

  lemma FixedPathsValid()
    ensures ValidPath(MANIFEST_PATH) && ValidPath(AUDIT_PATH) && ValidPath(RECONSTRUCTION_PATH) && ValidPath(PDF_PATH)
  {
    hide ValidPath;
    WordValid(MANIFEST_PATH);
    WordValid(AUDIT_PATH);
    WordValid(RECONSTRUCTION_PATH);
    WordValid(PDF_PATH);
  }

  lemma DocumentsApart(id: string, base: string)
    ensures DocumentPath(id, base)[0] == 'd' && MissingPath(id)[0] == 'd'
    ensures MANIFEST_PATH[0] != 'd' && forall p :: p in REQUIRED_PATHS ==> p[0] != 'd'
  {}

  lemma UuidIdentifier(u: Uuid)
    ensures SafeIdentifier(UuidText(u)) == UuidText(u)
  {
    UuidTextChars(u);
    hide UuidText;
    var id := UuidText(u);
    assert forall i :: 0 <= i < |id| ==> IsIdentifierChar(id[i]);
    assert seq(|id|, i requires 0 <= i < |id| => if IsIdentifierChar(id[i]) then id[i] else '_') == id;
  }

  /** Documents named by different UUIDs never share a path, exported or missing. */
  lemma UuidPathsDiffer(a: Uuid, b: Uuid, tailA: string, tailB: string)
    requires a != b
    ensures DOCUMENT_PREFIX + (SafeIdentifier(UuidText(a)) + tailA) != DOCUMENT_PREFIX + (SafeIdentifier(UuidText(b)) + tailB)
  {
    UuidIdentifier(a);
    UuidIdentifier(b);
    hide UuidText, SafeIdentifier;
    var p := DOCUMENT_PREFIX + (UuidText(a) + tailA);
    var q := DOCUMENT_PREFIX + (UuidText(b) + tailB);
    assert p[10..46] == UuidText(a) && q[10..46] == UuidText(b);
    if p == q { UuidTextInjective(a, b); }
  }

  /** Text identifiers can collide once unsafe characters are replaced: "a b" and "a_b" name one path. */
  lemma TextIdentifiersCollide()
    ensures MissingPath("a b") == MissingPath("a_b")
  {
    assert seq(3, i requires 0 <= i < 3 => if IsIdentifierChar("a b"[i]) then "a b"[i] else '_') == "a_b";
    assert seq(3, i requires 0 <= i < 3 => if IsIdentifierChar("a_b"[i]) then "a_b"[i] else '_') == "a_b";
    assert |"a b"| == 3 && |"a_b"| == 3;
  }

  // ---------- names that are kept, and paths that are refused ----------

  lemma {:induction false} RunsKept(s: string)
    requires forall i :: 0 <= i < |s| ==> IsNameChar(s[i])
    ensures ReplaceRuns(s, false) == s
  {
    if s != "" {
      RunsKept(s[1..]);
      assert s == [s[0]] + s[1..];
    }
  }

  /** A file name of safe characters that neither starts nor ends with a dot or underscore is kept, as is a plain identifier. */
  lemma PlainNamesKept(id: string, base: string)
    requires 1 <= |id| <= 100 && forall i :: 0 <= i < |id| ==> IsIdentifierChar(id[i])
    requires 1 <= |base| <= 160 && forall i :: 0 <= i < |base| ==> IsNameChar(base[i])
    requires !IsEdge(base[0]) && !IsEdge(base[|base| - 1])
    ensures DocumentPath(id, base) == "documents/" + (id + "-" + base)
    ensures MissingPath(id) == "documents/" + (id + ".missing.json")
  {
    RunsKept(base);
    assert seq(|id|, i requires 0 <= i < |id| => if IsIdentifierChar(id[i]) then id[i] else '_') == id;
    hide ReplaceRuns;
  }

  lemma {:induction false} PartsJoin(a: string, b: string)
    ensures Parts(a + "/" + b) == Parts(a) + Parts(b)
  {
    var all := a + "/" + b;
    if a == "" {
      assert all[1..] == b;
    } else {
      PartsJoin(a[1..], b);
      assert all[1..] == a[1..] + "/" + b && all[0] == a[0];
      PartsCons(a);
      PartsCons(all);
      hide Parts;
      FirstJoined(a[0], Parts(a[1..]), Parts(b));
    }
  }

  lemma PartsCons(s: string)
    requires s != ""
    ensures Parts(s) == if s[0] == '/' then [""] + Parts(s[1..]) else [[s[0]] + Parts(s[1..])[0]] + Parts(s[1..])[1..]
  {}

  lemma FirstJoined(c: char, rest: seq<string>, more: seq<string>)
    requires rest != []
    ensures [""] + (rest + more) == ([""] + rest) + more
    ensures [[c] + (rest + more)[0]] + (rest + more)[1..] == ([[c] + rest[0]] + rest[1..]) + more
  {}

  /** No path leaves the archive's folder: none is absolute, and none goes up, anywhere. */
  lemma TraversalRefused(a: string, b: string)
    ensures !ValidPath("..") && !ValidPath("../" + b) && !ValidPath(a + "/..") && !ValidPath(a + "/../" + b)
    ensures !ValidPath("/" + b) && !ValidPath(a + "\\" + b) && !ValidPath(a + ":" + b)
  {
    PartsOfWord("..");
    PartsJoin("..", b);
    PartsJoin(a, "..");
    PartsJoin(a + "/..", b);
    assert "../" + b == ".." + "/" + b && a + "/.." == a + "/" + ".." && a + "/../" + b == (a + "/..") + "/" + b;
    hide Parts;
    assert ".." in Parts("..") && ".." in Parts("../" + b) && ".." in Parts(a + "/..") && ".." in Parts(a + "/../" + b);
    assert ("/" + b)[0] == '/' && (a + "\\" + b)[|a|] == '\\' && (a + ":" + b)[|a|] == ':';
  }
}
