/**
 The user prompt that `generate_readme` sends alongside the fixed system
 prompt: four header lines from the request, then, when a scan was asked
 for and found files, a line listing at most ten of them and one line per
 detected convention.
 */
module PromptBuilder {
  import opened Wrappers
  import opened Strings
  import opened Scanner

  /**
   The arguments of `generate_readme`, with its defaults: no language, the
   MIT license, scanning on. The directory is given by its listing.
   */
  datatype Request = Request(
    description: string,
    projectName: string,
    language: Option<string> := None,
    licenseType: string := "MIT",
    scanFiles: bool := true,
    listing: seq<Entry>)

  const NotSpecified := "Not specified"
  const MaxListedFiles := 10
  const FileSeparator := ", "
  const FilesPrefix := "Project Files Found: "

  // The two longer lines are written as two literals each; the text is the
  // same, and the verifier reasons about short literals far more cheaply.
  const RequirementsLine := "- Uses requirements.txt " + "for Python dependencies"
  const PackageJsonLine := "- Uses package.json " + "for Node.js dependencies"
  const DockerLine := "- Includes Docker support"
  const TestsLine := "- Has test files"

  /** The annotation lines, in the order they are appended. */
  const AnnotationLines := [RequirementsLine, PackageJsonLine, DockerLine, TestsLine]

  /** The flags of a scan, in the order of `AnnotationLines`. */
  function Flags(info: ScanInfo): seq<bool> {
    [info.hasRequirements, info.hasPackageJson, info.hasDockerfile, info.hasTests]
  }

  function CountTrue(bs: seq<bool>): nat {
    if bs == [] then 0 else (if bs[0] then 1 else 0) + CountTrue(bs[1..])
  }

  /** The scan, when one was requested (`project_info`; `{}` otherwise). */
  function ProjectInfo(req: Request): Option<ScanInfo> {
    if req.scanFiles then Some(Scan(req.listing)) else None
  }

  /**
   Language precedence: an explicit language (even an empty one) is kept;
   with none, a scanned language other than `Unknown` is adopted.
   */
  function ResolveLanguage(explicit: Option<string>, info: Option<ScanInfo>): Option<string> {
    if explicit.None? && info.Some? && info.value.language != Unknown then Some(info.value.language)
    else explicit
  }

  /** `language or 'Not specified'`. */
  function LanguageText(language: Option<string>): string {
    if language.Some? && language.value != "" then language.value else NotSpecified
  }

  /** `files[:10]`. */
  function Listed(files: seq<string>): seq<string> {
    if |files| <= MaxListedFiles then files else files[..MaxListedFiles]
  }

  /** The file section is added exactly when a scan ran and found at least one file. */
  predicate ShowsFiles(info: Option<ScanInfo>) {
    info.Some? && info.value.files != []
  }

  /** The appended annotation text: one `"\n" + line` per true flag, in fixed order. */
  function Annotations(info: ScanInfo): string {
    (if info.hasRequirements then "\n" + RequirementsLine else "")
    + (if info.hasPackageJson then "\n" + PackageJsonLine else "")
    + (if info.hasDockerfile then "\n" + DockerLine else "")
    + (if info.hasTests then "\n" + TestsLine else "")
  }

  // Split in two for the same reason as the annotation lines above.
  const Intro := "Create a professional " + "README.md for this project:"

  /**
   The header text of `generate_readme`'s prompt, one line break per `"\n"`.
   The empty pieces stand for the empty lines after the intro and after the
   license, so that the text lines up term by term with `HeaderLines` joined.
   */
  function Header(projectName: string, description: string, language: string, licenseType: string): string {
    Intro + "\n" + "" + "\n" + ("Project Name: " + projectName)
    + "\n" + ("Description: " + description)
    + "\n" + ("Primary Language: " + language)
    + "\n" + ("License: " + licenseType) + "\n" + ""
  }

  /** The user prompt of `generate_readme`: the header, then the file line and the annotations appended in turn. */
  function UserPrompt(req: Request): string {
    var info := ProjectInfo(req);
    var language := ResolveLanguage(req.language, info);
    var header := Header(req.projectName, req.description, LanguageText(language), req.licenseType);
    if ShowsFiles(info) then
      header + "\n" + FilesPrefix + Join(Listed(info.value.files), FileSeparator) + Annotations(info.value)
    else
      header
  }

  // ---------------------------------------------------------------------------
  // The prompt as a list of lines
  // ---------------------------------------------------------------------------

  /**
   The annotation lines for the true flags: one line for each true flag and
   none for a false one, in the fixed order of `AnnotationLines`.
   */
  function FlagLines(info: ScanInfo): seq<string> {
    (if info.hasRequirements then [RequirementsLine] else [])
    + (if info.hasPackageJson then [PackageJsonLine] else [])
    + (if info.hasDockerfile then [DockerLine] else [])
    + (if info.hasTests then [TestsLine] else [])
  }

  /**
   The annotation lines are one line for each true flag and none for a false
   one, in the fixed order of `AnnotationLines`.
   */
  lemma FlagLinesMatchFlags(info: ScanInfo)
    ensures |FlagLines(info)| == CountTrue(Flags(info))
    ensures forall k | 0 <= k < 4 :: AnnotationLines[k] in FlagLines(info) <==> Flags(info)[k]
    ensures forall i, j | 0 <= i < j < |FlagLines(info)| ::
              LineRank(FlagLines(info)[i]) < LineRank(FlagLines(info)[j])
  {
    var f := Flags(info);
    assert f[1..][1..][1..][1..] == [];
    assert CountTrue(f[1..][1..][1..]) == (if f[3] then 1 else 0);
    assert CountTrue(f[1..][1..]) == (if f[2] then 1 else 0) + (if f[3] then 1 else 0);
    assert CountTrue(f[1..]) == (if f[1] then 1 else 0) + (if f[2] then 1 else 0) + (if f[3] then 1 else 0);
  }

  /** The position of an annotation line in the fixed order. */
  function LineRank(line: string): nat {
    if line == RequirementsLine then 0
    else if line == PackageJsonLine then 1
    else if line == DockerLine then 2
    else 3
  }

  function HeaderLines(projectName: string, description: string, language: string, licenseType: string)
    : seq<string>
  {
    [ Intro,
      "",
      "Project Name: " + projectName,
      "Description: " + description,
      "Primary Language: " + language,
      "License: " + licenseType,
      "" ]
  }

  /**
   Reference layout of the prompt, line by line: the header lines, then
   (only with a non-empty scan) the file line and the annotation lines.
   */
  function PromptLines(req: Request): seq<string> {
    var info := ProjectInfo(req);
    var header := HeaderLines(req.projectName, req.description,
                              LanguageText(ResolveLanguage(req.language, info)), req.licenseType);
    if ShowsFiles(info) then
      header + [FilesPrefix + Join(Listed(info.value.files), FileSeparator)] + FlagLines(info.value)
    else
      header
  }

  /** `sep + y` for every `y`, concatenated. */
  function Prefixed(ys: seq<string>, sep: string): string {
    if ys == [] then "" else sep + ys[0] + Prefixed(ys[1..], sep)
  }

  lemma {:induction false} JoinIsHeadThenPrefixed(x: string, ys: seq<string>, sep: string)
    ensures Join([x] + ys, sep) == x + Prefixed(ys, sep)
    decreases |ys|
  {
    if ys == [] {
      assert [x] + ys == [x];
    } else {
      assert ([x] + ys)[1..] == ys;
      JoinIsHeadThenPrefixed(ys[0], ys[1..], sep);
      assert [ys[0]] + ys[1..] == ys;
    }
  }

  lemma {:induction false} PrefixedAppend(a: seq<string>, b: seq<string>, sep: string)
    ensures Prefixed(a + b, sep) == Prefixed(a, sep) + Prefixed(b, sep)
    decreases |a|
  {
    if a == [] {
      assert a + b == b;
    } else {
      assert (a + b)[1..] == a[1..] + b;
      PrefixedAppend(a[1..], b, sep);
    }
  }

  lemma PrefixedOptional(present: bool, line: string)
    ensures Prefixed(if present then [line] else [], "\n") == (if present then "\n" + line else "")
  {
    if present {
      assert [line][1..] == [];
    }
  }

  /** The annotation text is the annotation lines, each after a line break. */
  lemma AnnotationsArePrefixedLines(info: ScanInfo)
    ensures Annotations(info) == Prefixed(FlagLines(info), "\n")
  {
    var a := if info.hasRequirements then [RequirementsLine] else [];
    var b := if info.hasPackageJson then [PackageJsonLine] else [];
    var c := if info.hasDockerfile then [DockerLine] else [];
    var d := if info.hasTests then [TestsLine] else [];
    PrefixedAppend(a + b + c, d, "\n");
    PrefixedAppend(a + b, c, "\n");
    PrefixedAppend(a, b, "\n");
    PrefixedOptional(info.hasRequirements, RequirementsLine);
    PrefixedOptional(info.hasPackageJson, PackageJsonLine);
    PrefixedOptional(info.hasDockerfile, DockerLine);
    PrefixedOptional(info.hasTests, TestsLine);
  }

  lemma JoinCons(x: string, ys: seq<string>, sep: string)
    requires ys != []
    ensures Join([x] + ys, sep) == x + sep + Join(ys, sep)
  {
    assert ([x] + ys)[1..] == ys;
  }

  /** Moving one element and a separator out of the tail of a concatenation. */
  lemma AppendStep(p: string, x: string, sep: string, rest: string)
    ensures p + (x + sep + rest) == p + x + sep + rest
  {
  }

  lemma JoinSeven(a: string, b: string, c: string, d: string, e: string, f: string, g: string, sep: string)
    ensures Join([a, b, c, d, e, f, g], sep) == a + sep + b + sep + c + sep + d + sep + e + sep + f + sep + g
  {
    var j6 := Join([f, g], sep);
    JoinCons(f, [g], sep);
    var j5 := Join([e, f, g], sep);
    assert [e, f, g] == [e] + [f, g];
    JoinCons(e, [f, g], sep);
    var j4 := Join([d, e, f, g], sep);
    assert [d, e, f, g] == [d] + [e, f, g];
    JoinCons(d, [e, f, g], sep);
    var j3 := Join([c, d, e, f, g], sep);
    assert [c, d, e, f, g] == [c] + [d, e, f, g];
    JoinCons(c, [d, e, f, g], sep);
    var j2 := Join([b, c, d, e, f, g], sep);
    assert [b, c, d, e, f, g] == [b] + [c, d, e, f, g];
    JoinCons(b, [c, d, e, f, g], sep);
    assert [a, b, c, d, e, f, g] == [a] + [b, c, d, e, f, g];
    JoinCons(a, [b, c, d, e, f, g], sep);
    AppendStep(a + sep, b, sep, j3);
    AppendStep(a + sep + b + sep, c, sep, j4);
    AppendStep(a + sep + b + sep + c + sep, d, sep, j5);
    AppendStep(a + sep + b + sep + c + sep + d + sep, e, sep, j6);
    AppendStep(a + sep + b + sep + c + sep + d + sep + e + sep, f, sep, g);
  }

  lemma HeaderIsJoinedLines(projectName: string, description: string, language: string, licenseType: string)
    ensures Header(projectName, description, language, licenseType)
         == Join(HeaderLines(projectName, description, language, licenseType), "\n")
  {
    JoinSeven(Intro, "", "Project Name: " + projectName, "Description: " + description,
              "Primary Language: " + language, "License: " + licenseType, "", "\n");
  }

  /** The concatenated prompt is exactly its reference lines joined by line breaks. */
  lemma PromptIsJoinedLines(req: Request)
    ensures UserPrompt(req) == Join(PromptLines(req), "\n")
  {
    var info := ProjectInfo(req);
    var language := LanguageText(ResolveLanguage(req.language, info));
    var h := HeaderLines(req.projectName, req.description, language, req.licenseType);
    HeaderIsJoinedLines(req.projectName, req.description, language, req.licenseType);
    if ShowsFiles(info) {
      var first := FilesPrefix + Join(Listed(info.value.files), FileSeparator);
      var rest := [first] + FlagLines(info.value);
      assert h + [first] + FlagLines(info.value) == h + rest;
      JoinAppend(h, rest, "\n");
      JoinIsHeadThenPrefixed(first, FlagLines(info.value), "\n");
      AnnotationsArePrefixedLines(info.value);
    }
  }

  // ---------------------------------------------------------------------------
  // Reading the prompt back
  // ---------------------------------------------------------------------------

  /** The character `c` occurs in no line of the joined list nor in the separator, so not in the join. */
  lemma {:induction false} JoinAvoidsChar(xs: seq<string>, sep: string, c: char)
    requires c !in sep && Avoids(xs, c)
    ensures c !in Join(xs, sep)
    decreases |xs|
  {
    if |xs| > 1 {
      JoinAvoidsChar(xs[1..], sep, c);
    }
  }

  /** No request field that reaches the prompt contains a line break, and no listed file name does. */
  ghost predicate SingleLineFields(req: Request) {
    && '\n' !in req.projectName
    && '\n' !in req.description
    && '\n' !in LanguageText(ResolveLanguage(req.language, ProjectInfo(req)))
    && '\n' !in req.licenseType
    && (ShowsFiles(ProjectInfo(req)) ==> Avoids(Listed(ProjectInfo(req).value.files), '\n'))
  }

  /** No listed file name contains a comma, so the joined list can be split back at `", "`. */
  ghost predicate CommaFreeListing(req: Request) {
    ShowsFiles(ProjectInfo(req)) ==> Avoids(Listed(ProjectInfo(req).value.files), ',')
  }

  lemma HeaderLabelsAreSingleLine()
    ensures '\n' !in Intro && '\n' !in "Project Name: " && '\n' !in "Description: "
    ensures '\n' !in "Primary Language: " && '\n' !in "License: "
  {
  }

  /** The file names a prompt lists, read from its eighth line, if it has one. */
  function ReadListedFiles(prompt: string): Option<seq<string>> {
    var lines := Split(prompt, "\n");
    if |lines| > 7 && StartsWith(lines[7], FilesPrefix) then
      Some(Split(lines[7][|FilesPrefix|..], FileSeparator))
    else
      None
  }

  lemma {:induction false} StartsWithConcat(p: string, rest: string)
    ensures StartsWith(p + rest, p)
    decreases |p|
  {
    if |p| > 0 {
      assert (p + rest)[1..] == p[1..] + rest;
      StartsWithConcat(p[1..], rest);
    }
  }

  lemma AnnotationLinesAreSingleLine()
    ensures Avoids(AnnotationLines, '\n')
  {
    assert '\n' !in RequirementsLine;
    assert '\n' !in PackageJsonLine;
    assert '\n' !in DockerLine;
    assert '\n' !in TestsLine;
  }

  lemma FlagLinesAreSingleLine(info: ScanInfo)
    ensures Avoids(FlagLines(info), '\n')
  {
    AnnotationLinesAreSingleLine();
    var flags := FlagLines(info);
    assert forall k | 0 <= k < |flags| :: flags[k] in AnnotationLines;
  }

  lemma HeaderLinesAreSingleLine(projectName: string, description: string, language: string, licenseType: string)
    requires '\n' !in projectName && '\n' !in description
    requires '\n' !in language && '\n' !in licenseType
    ensures Avoids(HeaderLines(projectName, description, language, licenseType), '\n')
  {
    HeaderLabelsAreSingleLine();
  }

  lemma AvoidsAppend(a: seq<string>, b: seq<string>, c: char)
    requires Avoids(a, c) && Avoids(b, c)
    ensures Avoids(a + b, c)
  {
    assert forall k | 0 <= k < |a + b| :: (a + b)[k] == if k < |a| then a[k] else b[k - |a|];
  }

  /** Every reference line of a request with single-line fields is free of line breaks. */
  lemma PromptLinesAreSingleLine(req: Request)
    requires SingleLineFields(req)
    ensures Avoids(PromptLines(req), '\n')
  {
    var info := ProjectInfo(req);
    var h := HeaderLines(req.projectName, req.description,
                         LanguageText(ResolveLanguage(req.language, info)), req.licenseType);
    HeaderLinesAreSingleLine(req.projectName, req.description,
                             LanguageText(ResolveLanguage(req.language, info)), req.licenseType);
    if ShowsFiles(info) {
      var listed := Listed(info.value.files);
      JoinAvoidsChar(listed, FileSeparator, '\n');
      var first := FilesPrefix + Join(listed, FileSeparator);
      assert '\n' !in first;
      assert Avoids([first], '\n');
      FlagLinesAreSingleLine(info.value);
      AvoidsAppend(h, [first], '\n');
      AvoidsAppend(h + [first], FlagLines(info.value), '\n');
    }
  }

  /**
   The prompt splits back into its reference lines when no field contains a
   line break.
   */
  lemma PromptLinesRoundTrip(req: Request)
    requires SingleLineFields(req)
    ensures Split(UserPrompt(req), "\n") == PromptLines(req)
  {
    PromptIsJoinedLines(req);
    PromptLinesAreSingleLine(req);
    SplitJoin(PromptLines(req), "\n");
  }

  /**
   The prompt lists files exactly when a scan was requested and found some,
   and then it lists exactly the first `min(10, |files|)` of them, in order.
   */
  lemma ListedFilesRoundTrip(req: Request)
    requires SingleLineFields(req) && CommaFreeListing(req)
    ensures ShowsFiles(ProjectInfo(req)) <==> req.scanFiles && FileNames(req.listing) != []
    ensures ReadListedFiles(UserPrompt(req)) ==
              if ShowsFiles(ProjectInfo(req)) then Some(Listed(FileNames(req.listing))) else None
  {
    ScanFiles(req.listing);
    PromptLinesRoundTrip(req);
    var info := ProjectInfo(req);
    if ShowsFiles(info) {
      var listed := Listed(info.value.files);
      var line := FilesPrefix + Join(listed, FileSeparator);
      assert PromptLines(req)[7] == line;
      StartsWithConcat(FilesPrefix, Join(listed, FileSeparator));
      assert line[|FilesPrefix|..] == Join(listed, FileSeparator);
      SplitJoin(listed, FileSeparator);
    }
  }

  /**
   After the file line come the annotation lines: exactly one per true flag,
   in the order requirements, package.json, Docker, tests.
   */
  lemma AnnotationLinesFollow(req: Request)
    requires SingleLineFields(req)
    requires ShowsFiles(ProjectInfo(req))
    ensures var lines := Split(UserPrompt(req), "\n");
            |lines| >= 8 && lines[8..] == FlagLines(Scan(req.listing))
  {
    PromptLinesRoundTrip(req);
  }

  /**
   The four header lines come first. The language line shows the explicit
   language when one is given (even if a scan found another), otherwise the
   scanned language when it is known, and `Not specified` when the result is
   missing or empty.
   */
  lemma HeaderComesFirst(req: Request)
    requires SingleLineFields(req)
    ensures var lines := Split(UserPrompt(req), "\n");
            && |lines| >= 7
            && lines[2] == "Project Name: " + req.projectName
            && lines[3] == "Description: " + req.description
            && lines[5] == "License: " + req.licenseType
    ensures var lines := Split(UserPrompt(req), "\n");
            && (req.language.Some? && req.language.value != "" ==>
                  lines[4] == "Primary Language: " + req.language.value)
            && (req.language.Some? && req.language.value == "" ==>
                  lines[4] == "Primary Language: " + NotSpecified)
            && (req.language.None? && req.scanFiles && Scan(req.listing).language != Unknown ==>
                  lines[4] == "Primary Language: " + Scan(req.listing).language)
            && (req.language.None? && (!req.scanFiles || Scan(req.listing).language == Unknown) ==>
                  lines[4] == "Primary Language: " + NotSpecified)
  {
    PromptLinesRoundTrip(req);
  }

  /** With an explicit language, scanning only appends to the prompt. */
  lemma ScanOnlyAppends(req: Request)
    requires req.language.Some?
    ensures UserPrompt(req.(scanFiles := false)) <= UserPrompt(req)
  {
  }

  /** Without a scan the prompt is the header alone. */
  lemma NoScanNoFileSection(req: Request)
    requires !req.scanFiles
    ensures UserPrompt(req) == Join(HeaderLines(req.projectName, req.description,
                                                 LanguageText(req.language), req.licenseType), "\n")
  {
    PromptIsJoinedLines(req);
  }

  /** The reference lines open with the seven header lines; more follow exactly when files are shown. */
  lemma PromptLinesShape(req: Request)
    ensures var lines := PromptLines(req);
            var info := ProjectInfo(req);
            && |lines| >= 7
            && lines[..7] == HeaderLines(req.projectName, req.description,
                                         LanguageText(ResolveLanguage(req.language, info)), req.licenseType)
            && (|lines| > 7 <==> ShowsFiles(info))
  {
  }

  /**
   A request that leaves the optional arguments at their defaults scans the
   directory, states the MIT license, takes its language from the scan (or
   `Not specified` when the scan found none), and lists files exactly when
   the directory holds some.
   */
  lemma DefaultRequest(description: string, projectName: string, listing: seq<Entry>)
    ensures var req := Request(description, projectName, listing := listing);
            var lines := PromptLines(req);
            && |lines| >= 7
            && lines[4] == "Primary Language: "
                 + (if Scan(listing).language != Unknown then Scan(listing).language else NotSpecified)
            && lines[5] == "License: MIT"
            && (|lines| > 7 <==> FileNames(listing) != [])
  {
    var req := Request(description, projectName, listing := listing);
    PromptLinesShape(req);
    ScanFiles(listing);
    LanguagesAreNonEmpty();
    var lines := PromptLines(req);
    assert lines[4] == lines[..7][4] && lines[5] == lines[..7][5];
  }
}
