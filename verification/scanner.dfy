/**
 `ReadmeGenerator.scan_project_files`: one pass over the top-level entries of
 a directory that collects the file names, three manifest flags, a
 test-file flag and a guess at the primary language.

 The directory listing is an input sequence in `iterdir()` order; the scan is
 the left fold of `Step` over it.
 */
module Scanner {
  import opened Wrappers
  import opened Strings

  /** One directory entry: its name, and whether `is_file()` holds for it. */
  datatype Entry = Entry(name: string, isFile: bool)

  datatype ScanInfo = ScanInfo(
    files: seq<string>,
    hasRequirements: bool,
    hasPackageJson: bool,
    hasDockerfile: bool,
    hasTests: bool,
    language: string)

  const Unknown := "Unknown"
  const RequirementsName := "requirements.txt"
  const PackageJsonName := "package.json"
  const DockerfileName := "Dockerfile"
  const RequirementsLanguage := "Python"
  const PackageJsonLanguage := "JavaScript/TypeScript"

  /** The record the scan starts from. */
  const Initial := ScanInfo([], false, false, false, false, Unknown)

  /** A glob `*<suffix>` and the language it indicates. */
  datatype Pattern = Pattern(suffix: string, lang: string)

  /** The extension table, in its iteration order. */
  const Patterns: seq<Pattern> := [
    Pattern(".py", "Python"),
    Pattern(".js", "JavaScript"),
    Pattern(".ts", "TypeScript"),
    Pattern(".java", "Java"),
    Pattern(".go", "Go"),
    Pattern(".rs", "Rust"),
    Pattern(".dart", "Dart/Flutter")
  ]

  /** Every value the `language` field can take. */
  const Languages: set<string> :=
    {"Python", "JavaScript", "TypeScript", "Java", "Go", "Rust", "Dart/Flutter",
     PackageJsonLanguage, Unknown}

  /** No language name is empty, so a scanned language always shows in the prompt. */
  lemma LanguagesAreNonEmpty()
    ensures "" !in Languages
  {
  }

  /** The two manifests that decide the language outright. */
  predicate IsManifestName(name: string) {
    name == RequirementsName || name == PackageJsonName
  }

  function ManifestLanguage(name: string): string
    requires IsManifestName(name)
  {
    if name == RequirementsName then RequirementsLanguage else PackageJsonLanguage
  }

  /** `"test" in name.lower()`; see `IsTestNameLowers`. */
  predicate IsTestName(name: string) {
    ContainsLowered(name, "test")
  }

  lemma IsTestNameLowers(name: string)
    ensures IsTestName(name) <==> Contains(Lower(name), "test")
  {
    ContainsLoweredIsContainsOfLower(name, "test");
  }

  /**
   The inner loop over the extension table for one file: a pattern that
   matches fills `language` only while it is still `Unknown`.
   */
  function DetectExtension(name: string, language: string, table: seq<Pattern>): (r: string)
    ensures r == language || exists k | 0 <= k < |table| :: r == table[k].lang
    decreases |table|
  {
    if table == [] then language
    else
      var next := if EndsWith(name, table[0].suffix) && language == Unknown then table[0].lang else language;
      var r := DetectExtension(name, next, table[1..]);
      assert forall k | 0 <= k < |table| - 1 :: table[1..][k] == table[k + 1];
      r
  }

  /** Reference reading of the table: the label of the first pattern the name matches. */
  function ExtensionLabel(name: string, table: seq<Pattern>): Option<string> {
    if table == [] then None
    else if EndsWith(name, table[0].suffix) then Some(table[0].lang)
    else ExtensionLabel(name, table[1..])
  }

  predicate IsSourceName(name: string) {
    ExtensionLabel(name, Patterns).Some?
  }

  /** The three names the `if`/`elif` chain tests before looking for "test". */
  predicate IsSpecialName(name: string) {
    name == RequirementsName || name == PackageJsonName || name == DockerfileName
  }

  /**
   The body of the `for item in iterdir()` loop, applied to one entry. The
   `if`/`elif` chain sets at most one of the four flags: a special name sets
   its own flag (and a manifest its language), and only a name that is none
   of the three is looked at for "test". The extension table then runs on
   whatever language that left.
   */
  function Step(info: ScanInfo, e: Entry): ScanInfo {
    if !e.isFile then info
    else
      var name := e.name;
      var manifestLanguage :=
        if name == RequirementsName then RequirementsLanguage
        else if name == PackageJsonName then PackageJsonLanguage
        else info.language;
      ScanInfo(
        files := info.files + [name],
        hasRequirements := info.hasRequirements || name == RequirementsName,
        hasPackageJson := info.hasPackageJson || name == PackageJsonName,
        hasDockerfile := info.hasDockerfile || name == DockerfileName,
        hasTests := info.hasTests || (!IsSpecialName(name) && IsTestName(name)),
        language := DetectExtension(name, manifestLanguage, Patterns))
  }

  /** The scan: `Step` folded over the listing from the left. The language is always one the table or a manifest names, or `Unknown`. */
  function Scan(es: seq<Entry>): (r: ScanInfo)
    ensures r.language in Languages
  {
    if es == [] then Initial
    else Step(Scan(es[..|es| - 1]), es[|es| - 1])
  }

  // ---------------------------------------------------------------------------
  // Reference descriptions of the scan's fields
  // ---------------------------------------------------------------------------

  /** The names of the file entries, in listing order (filtered from the front). */
  function FileNames(es: seq<Entry>): seq<string> {
    if es == [] then []
    else (if es[0].isFile then [es[0].name] else []) + FileNames(es[1..])
  }

  /** Some file entry has exactly this name. */
  ghost predicate HasFileNamed(es: seq<Entry>, name: string) {
    exists i | 0 <= i < |es| :: es[i].isFile && es[i].name == name
  }

  /** Some file entry other than the three special names has "test" in its lower-cased name. */
  ghost predicate HasTestFile(es: seq<Entry>) {
    exists i | 0 <= i < |es| ::
      es[i].isFile && !IsManifestName(es[i].name) && es[i].name != DockerfileName && IsTestName(es[i].name)
  }

  ghost predicate IsManifestAt(es: seq<Entry>, i: int) {
    0 <= i < |es| && es[i].isFile && IsManifestName(es[i].name)
  }

  ghost predicate IsSourceAt(es: seq<Entry>, i: int) {
    0 <= i < |es| && es[i].isFile && IsSourceName(es[i].name)
  }

  /** Entry `i` is a manifest and no later entry is. */
  ghost predicate IsLastManifest(es: seq<Entry>, i: int) {
    IsManifestAt(es, i) && forall j | i < j < |es| :: !IsManifestAt(es, j)
  }

  /** Entry `i` is a source file and no earlier entry is. */
  ghost predicate IsFirstSource(es: seq<Entry>, i: int) {
    IsSourceAt(es, i) && forall j | 0 <= j < i :: !IsSourceAt(es, j)
  }

  ghost predicate NoManifest(es: seq<Entry>) {
    forall j | 0 <= j < |es| :: !IsManifestAt(es, j)
  }

  ghost predicate NoSource(es: seq<Entry>) {
    forall j | 0 <= j < |es| :: !IsSourceAt(es, j)
  }

  // ---------------------------------------------------------------------------
  // The extension table
  // ---------------------------------------------------------------------------

  /** Once a language is set, the table leaves it alone. */
  lemma {:induction false} DetectExtensionKeeps(name: string, language: string, table: seq<Pattern>)
    requires language != Unknown
    ensures DetectExtension(name, language, table) == language
    decreases |table|
  {
    if table != [] {
      DetectExtensionKeeps(name, language, table[1..]);
    }
  }

  /** From `Unknown`, the table yields the label of the first matching pattern. */
  lemma {:induction false} DetectExtensionFirst(name: string, table: seq<Pattern>)
    requires forall k | 0 <= k < |table| :: table[k].lang != Unknown
    ensures DetectExtension(name, Unknown, table) == ExtensionLabel(name, table).GetOr(Unknown)
    decreases |table|
  {
    if table != [] {
      assert forall k | 0 <= k < |table| - 1 :: table[1..][k] == table[k + 1];
      if EndsWith(name, table[0].suffix) {
        DetectExtensionKeeps(name, table[0].lang, table[1..]);
      } else {
        DetectExtensionFirst(name, table[1..]);
      }
    }
  }

  /** The table's language for one file, starting from `language`. */
  lemma TableStep(name: string, language: string)
    ensures language != Unknown ==> DetectExtension(name, language, Patterns) == language
    ensures language == Unknown ==>
              DetectExtension(name, language, Patterns) == ExtensionLabel(name, Patterns).GetOr(Unknown)
  {
    if language != Unknown {
      DetectExtensionKeeps(name, language, Patterns);
    } else {
      DetectExtensionFirst(name, Patterns);
    }
  }

  /** The last two characters of each suffix of the table, in table order. */
  const SuffixTails := ["py", "js", "ts", "va", "go", "rs", "rt"]

  lemma SuffixTailsOfPatterns()
    ensures |SuffixTails| == |Patterns|
    ensures forall k | 0 <= k < |Patterns| ::
              |Patterns[k].suffix| >= 2 && Patterns[k].suffix[|Patterns[k].suffix| - 2..] == SuffixTails[k]
  {
    assert Patterns[0].suffix[1..] == "py";
    assert Patterns[1].suffix[1..] == "js";
    assert Patterns[2].suffix[1..] == "ts";
    assert Patterns[3].suffix[3..] == "va";
    assert Patterns[4].suffix[1..] == "go";
    assert Patterns[5].suffix[1..] == "rs";
    assert Patterns[6].suffix[3..] == "rt";
  }

  /** The last two characters of the table's suffixes are pairwise distinct. */
  lemma SuffixTailsDistinct()
    ensures forall k | 0 <= k < |Patterns| :: |Patterns[k].suffix| >= 2
    ensures forall k1, k2 | 0 <= k1 < k2 < |Patterns| ::
              Patterns[k1].suffix[|Patterns[k1].suffix| - 2..] != Patterns[k2].suffix[|Patterns[k2].suffix| - 2..]
  {
    SuffixTailsOfPatterns();
    TailsDistinct();
  }

  lemma TailsDistinct()
    ensures forall k1, k2 | 0 <= k1 < k2 < |SuffixTails| :: SuffixTails[k1] != SuffixTails[k2]
  {
    forall k1, k2 | 0 <= k1 < k2 < |SuffixTails| ensures SuffixTails[k1] != SuffixTails[k2] {
      assert SuffixTails[k1][0] != SuffixTails[k2][0] || SuffixTails[k1][1] != SuffixTails[k2][1];
    }
  }

  /**
   A name ends in at most one of the table's suffixes, so the pattern it
   matches decides its label whatever the table's order.
   */
  lemma {:induction false} MatchingPatternDecides(name: string, k: nat)
    requires k < |Patterns| && EndsWith(name, Patterns[k].suffix)
    ensures forall k' | 0 <= k' < |Patterns| && k' != k :: !EndsWith(name, Patterns[k'].suffix)
    ensures ExtensionLabel(name, Patterns) == Some(Patterns[k].lang)
  {
    SuffixTailsDistinct();
    forall k' | 0 <= k' < |Patterns|
      ensures EndsWith(name, Patterns[k'].suffix) ==>
                name[|name| - 2..] == Patterns[k'].suffix[|Patterns[k'].suffix| - 2..]
    {
      EndsWithTail(name, Patterns[k'].suffix);
    }
    FirstMatchingLabel(name, Patterns, k);
  }

  lemma EndsWithTail(name: string, suffix: string)
    requires |suffix| >= 2
    ensures EndsWith(name, suffix) ==> name[|name| - 2..] == suffix[|suffix| - 2..]
  {
    if EndsWith(name, suffix) {
      assert name[|name| - 2..] == name[|name| - |suffix|..][|suffix| - 2..];
    }
  }

  /** The label of a matching pattern with no matching pattern before it. */
  lemma {:induction false} FirstMatchingLabel(name: string, table: seq<Pattern>, k: nat)
    requires k < |table| && EndsWith(name, table[k].suffix)
    requires forall k' | 0 <= k' < k :: !EndsWith(name, table[k'].suffix)
    ensures ExtensionLabel(name, table) == Some(table[k].lang)
    decreases k
  {
    if k > 0 {
      assert forall k' | 0 <= k' < k - 1 :: table[1..][k'] == table[k' + 1];
      FirstMatchingLabel(name, table[1..], k - 1);
    }
  }

  // ---------------------------------------------------------------------------
  // What the scan computes
  // ---------------------------------------------------------------------------

  lemma {:induction false} FileNamesAppend(es: seq<Entry>, e: Entry)
    ensures FileNames(es + [e]) == FileNames(es) + (if e.isFile then [e.name] else [])
    decreases |es|
  {
    if es == [] {
      assert [e][1..] == [];
    } else {
      var head := if es[0].isFile then [es[0].name] else [];
      assert (es + [e])[0] == es[0];
      assert (es + [e])[1..] == es[1..] + [e];
      assert FileNames(es + [e]) == head + FileNames(es[1..] + [e]);
      FileNamesAppend(es[1..], e);
      assert FileNames(es) == head + FileNames(es[1..]);
    }
  }

  /** `files` lists the names of the file entries, in listing order. */
  lemma {:induction false} ScanFiles(es: seq<Entry>)
    ensures Scan(es).files == FileNames(es)
    decreases |es|
  {
    if es != [] {
      var p := es[..|es| - 1];
      ScanFiles(p);
      FileNamesAppend(p, es[|es| - 1]);
      assert p + [es[|es| - 1]] == es;
    }
  }

  /** How one entry changes the flags. */
  lemma StepFlags(info: ScanInfo, e: Entry)
    ensures Step(info, e).hasRequirements == (info.hasRequirements || (e.isFile && e.name == RequirementsName))
    ensures Step(info, e).hasPackageJson == (info.hasPackageJson || (e.isFile && e.name == PackageJsonName))
    ensures Step(info, e).hasDockerfile == (info.hasDockerfile || (e.isFile && e.name == DockerfileName))
    ensures Step(info, e).hasTests == (info.hasTests || (e.isFile && !IsManifestName(e.name) && e.name != DockerfileName && IsTestName(e.name)))
  {
  }

  lemma HasFileNamedSnoc(es: seq<Entry>, name: string)
    requires es != []
    ensures HasFileNamed(es, name) <==>
              HasFileNamed(es[..|es| - 1], name) || (es[|es| - 1].isFile && es[|es| - 1].name == name)
  {
    var p := es[..|es| - 1];
    assert forall i | 0 <= i < |p| :: p[i] == es[i];
  }

  lemma HasTestFileSnoc(es: seq<Entry>)
    requires es != []
    ensures var e := es[|es| - 1];
            HasTestFile(es) <==>
              HasTestFile(es[..|es| - 1]) || (e.isFile && !IsManifestName(e.name) && e.name != DockerfileName && IsTestName(e.name))
  {
    var p := es[..|es| - 1];
    assert forall i | 0 <= i < |p| :: p[i] == es[i];
  }

  /**
   Each manifest flag is set exactly when a file with that exact name is
   listed, and `hasTests` exactly when some other file has "test" in its
   lower-cased name.
   */
  lemma {:induction false} ScanFlags(es: seq<Entry>)
    ensures Scan(es).hasRequirements <==> HasFileNamed(es, RequirementsName)
    ensures Scan(es).hasPackageJson <==> HasFileNamed(es, PackageJsonName)
    ensures Scan(es).hasDockerfile <==> HasFileNamed(es, DockerfileName)
    ensures Scan(es).hasTests <==> HasTestFile(es)
    decreases |es|
  {
    if es != [] {
      var p := es[..|es| - 1];
      ScanFlags(p);
      StepFlags(Scan(p), es[|es| - 1]);
      HasFileNamedSnoc(es, RequirementsName);
      HasFileNamedSnoc(es, PackageJsonName);
      HasFileNamedSnoc(es, DockerfileName);
      HasTestFileSnoc(es);
    }
  }

  /** None of the three special names contains "test", so the `elif` chain hides no test file. */
  lemma SpecialNamesAreNotTestNames()
    ensures !IsTestName(RequirementsName)
    ensures !IsTestName(PackageJsonName)
    ensures !IsTestName(DockerfileName)
  {
    RequirementsIsNotTestName(RequirementsName);
    PackageJsonIsNotTestName(PackageJsonName);
    DockerfileIsNotTestName(DockerfileName);
  }

  lemma RequirementsIsNotTestName(name: string)
    requires name == RequirementsName
    ensures !IsTestName(name)
  {
    assert !ContainsLowered("ts.txt", "test");
    ContainsLoweredSkipsPlainPrefix("requiremen", "ts.txt", "test");
    assert "requiremen" + "ts.txt" == name;
  }

  lemma PackageJsonIsNotTestName(name: string)
    requires name == PackageJsonName
    ensures !IsTestName(name)
  {
    ContainsLoweredSkipsPlainPrefix("package.json", "", "test");
    assert "package.json" + "" == name;
  }

  lemma DockerfileIsNotTestName(name: string)
    requires name == DockerfileName
    ensures !IsTestName(name)
  {
    ContainsLoweredSkipsPlainPrefix("Dockerfile", "", "test");
    assert "Dockerfile" + "" == name;
  }

  /** `hasTests` is set exactly when some file at all has "test" in its lower-cased name. */
  lemma ScanTests(es: seq<Entry>)
    ensures Scan(es).hasTests <==> exists i | 0 <= i < |es| :: es[i].isFile && IsTestName(es[i].name)
  {
    ScanFlags(es);
    SpecialNamesAreNotTestNames();
  }

  lemma LabelsAreKnown()
    ensures forall k | 0 <= k < |Patterns| :: Patterns[k].lang != Unknown
  {
  }

  /** What one entry does to the language: `prev` before it, `lang` after. */
  ghost predicate LanguageStep(prev: string, e: Entry, lang: string) {
    && (!e.isFile ==> lang == prev)
    && (e.isFile && IsManifestName(e.name) ==> lang == ManifestLanguage(e.name))
    && (e.isFile && !IsManifestName(e.name) && prev != Unknown ==> lang == prev)
    && (e.isFile && !IsManifestName(e.name) && prev == Unknown ==> lang == ExtensionLabel(e.name, Patterns).GetOr(Unknown))
  }

  lemma StepLanguage(info: ScanInfo, e: Entry)
    ensures LanguageStep(info.language, e, Step(info, e).language)
  {
    if e.isFile {
      if e.name == RequirementsName {
        TableStep(e.name, RequirementsLanguage);
      } else if e.name == PackageJsonName {
        TableStep(e.name, PackageJsonLanguage);
      } else {
        TableStep(e.name, info.language);
      }
    }
  }

  /**
   The language rule. When a manifest is listed, the last one decides the
   language, overriding any extension. Otherwise the first file with a known
   extension decides it. Otherwise it is `Unknown`.
   */
  ghost predicate LanguageRule(es: seq<Entry>, language: string) {
    && (forall i | IsLastManifest(es, i) :: language == ManifestLanguage(es[i].name))
    && (NoManifest(es) ==> forall i | IsFirstSource(es, i) :: language == ExtensionLabel(es[i].name, Patterns).value)
    && (NoManifest(es) && NoSource(es) ==> language == Unknown)
  }

  /** The last entry is a manifest: it decides. */
  lemma LanguageLastIsManifest(es: seq<Entry>, prev: string, lang: string)
    requires es != [] && IsManifestAt(es, |es| - 1)
    requires LanguageStep(prev, es[|es| - 1], lang)
    ensures LanguageRule(es, lang)
  {
    var n := |es| - 1;
    forall i | IsLastManifest(es, i) ensures i == n { }
    assert !NoManifest(es);
  }

  /** An earlier manifest is still the last one and still decides. */
  lemma LanguageEarlierManifest(es: seq<Entry>, prev: string, lang: string)
    requires es != [] && !IsManifestAt(es, |es| - 1)
    requires var p := es[..|es| - 1]; !NoManifest(p) && LanguageRule(p, prev)
    requires LanguageStep(prev, es[|es| - 1], lang)
    ensures LanguageRule(es, lang)
  {
    var n := |es| - 1;
    var p := es[..n];
    assert forall i | 0 <= i < n :: p[i] == es[i];
    var i :| 0 <= i < n && IsManifestAt(p, i);
    var last := LastManifestOf(p, i);
    assert IsManifestAt(es, last) by { assert p[last] == es[last]; }
    forall j | last < j < |es| ensures !IsManifestAt(es, j) {
      if j < n {
        assert p[j] == es[j] && !IsManifestAt(p, j);
      }
    }
    assert IsLastManifest(es, last);
    forall i' | IsLastManifest(es, i') ensures i' == last { }
    assert !NoManifest(es);
  }

  /** No manifest anywhere, and an earlier source file: it stays the first one and decides. */
  lemma LanguageEarlierSource(es: seq<Entry>, prev: string, lang: string)
    requires es != [] && NoManifest(es)
    requires var p := es[..|es| - 1]; !NoSource(p) && LanguageRule(p, prev)
    requires LanguageStep(prev, es[|es| - 1], lang)
    ensures LanguageRule(es, lang)
  {
    var n := |es| - 1;
    var p := es[..n];
    assert forall i | 0 <= i < n :: p[i] == es[i];
    forall j | 0 <= j < n ensures !IsManifestAt(p, j) {
      assert p[j] == es[j] && !IsManifestAt(es, j);
    }
    var i :| 0 <= i < n && IsSourceAt(p, i);
    var first := FirstSourceOf(p, i);
    assert IsFirstSource(es, first);
    forall i' | IsFirstSource(es, i') ensures i' == first { }
    assert IsFirstSource(p, first);
    assert prev == ExtensionLabel(p[first].name, Patterns).value;
    LabelsAreKnown();
    KnownLabel(p[first].name, Patterns);
    assert prev != Unknown;
    assert !IsManifestAt(es, n);
    assert lang == prev;
    assert p[first] == es[first];
  }

  /** A matching pattern's label is never `Unknown`. */
  lemma {:induction false} KnownLabel(name: string, table: seq<Pattern>)
    requires forall k | 0 <= k < |table| :: table[k].lang != Unknown
    ensures ExtensionLabel(name, table).Some? ==> ExtensionLabel(name, table).value != Unknown
    decreases |table|
  {
    if table != [] && !EndsWith(name, table[0].suffix) {
      assert forall k | 0 <= k < |table| - 1 :: table[1..][k] == table[k + 1];
      KnownLabel(name, table[1..]);
    }
  }

  /** Neither a manifest nor an earlier source file: the last entry alone can set the language. */
  lemma LanguageOnlyLast(es: seq<Entry>, prev: string, lang: string)
    requires es != [] && NoManifest(es)
    requires var p := es[..|es| - 1]; NoManifest(p) && NoSource(p) && LanguageRule(p, prev)
    requires LanguageStep(prev, es[|es| - 1], lang)
    ensures LanguageRule(es, lang)
  {
    var n := |es| - 1;
    var p := es[..n];
    assert prev == Unknown;
    assert !IsManifestAt(es, n);
    forall j | 0 <= j < n ensures !IsSourceAt(es, j) {
      assert p[j] == es[j] && !IsSourceAt(p, j);
    }
    if IsSourceAt(es, n) {
      forall i' | IsFirstSource(es, i') ensures i' == n { }
      assert IsFirstSource(es, n);
    }
  }

  /** The language rule holds of every listing. */
  lemma {:induction false} ScanLanguage(es: seq<Entry>)
    ensures forall i | IsLastManifest(es, i) :: Scan(es).language == ManifestLanguage(es[i].name)
    ensures NoManifest(es) ==>
              forall i | IsFirstSource(es, i) :: Scan(es).language == ExtensionLabel(es[i].name, Patterns).value
    ensures NoManifest(es) && NoSource(es) ==> Scan(es).language == Unknown
    decreases |es|
  {
    if es != [] {
      var n := |es| - 1;
      var p := es[..n];
      ScanLanguage(p);
      var prev := Scan(p).language;
      var lang := Scan(es).language;
      StepLanguage(Scan(p), es[n]);
      assert LanguageRule(p, prev);
      if IsManifestAt(es, n) {
        LanguageLastIsManifest(es, prev, lang);
      } else if !NoManifest(p) {
        LanguageEarlierManifest(es, prev, lang);
      } else {
        assert NoManifest(es) by {
          forall j | 0 <= j < |es| ensures !IsManifestAt(es, j) {
            if j < n {
              assert p[j] == es[j] && !IsManifestAt(p, j);
            }
          }
        }
        if !NoSource(p) {
          LanguageEarlierSource(es, prev, lang);
        } else {
          assert NoManifest(p);
          LanguageOnlyLast(es, prev, lang);
        }
      }
      assert LanguageRule(es, lang);
    }
  }

  /** A listing with a manifest has a last one. */
  lemma {:induction false} LastManifestOf(es: seq<Entry>, i: int) returns (last: int)
    requires IsManifestAt(es, i)
    ensures IsLastManifest(es, last)
    decreases |es| - i
  {
    if forall j | i < j < |es| :: !IsManifestAt(es, j) {
      last := i;
    } else {
      var j :| i < j < |es| && IsManifestAt(es, j);
      last := LastManifestOf(es, j);
    }
  }

  /** A listing with a source file has a first one. */
  lemma {:induction false} FirstSourceOf(es: seq<Entry>, i: int) returns (first: int)
    requires IsSourceAt(es, i)
    ensures IsFirstSource(es, first)
    decreases i
  {
    if forall j | 0 <= j < i :: !IsSourceAt(es, j) {
      first := i;
    } else {
      var j :| 0 <= j < i && IsSourceAt(es, j);
      first := FirstSourceOf(es, j);
    }
  }

  /** A non-file entry, wherever it sits in the listing, changes no field of the scan. */
  lemma {:induction false} ScanIgnoresNonFiles(a: seq<Entry>, d: Entry, b: seq<Entry>)
    requires !d.isFile
    ensures Scan(a + [d] + b) == Scan(a + b)
    decreases |b|
  {
    if b == [] {
      assert (a + [d] + b)[..|a + [d] + b| - 1] == a;
      assert a + b == a;
    } else {
      var b' := b[..|b| - 1];
      var x := b[|b| - 1];
      ScanIgnoresNonFiles(a, d, b');
      assert (a + [d] + b)[..|a + [d] + b| - 1] == a + [d] + b';
      assert (a + b)[..|a + b| - 1] == a + b';
    }
  }
}
