/**
 * The text the repository tools hand back to the reviewing model. Each GitHub
 * call is an input (`Fetch`): what the call returned, or the exception it
 * raised. Every tool turns every failure into text; none of them raises.
 */
module Tools {
  import opened Wrappers
  import opened Text

  /** The result of a GitHub call: its value, or the message of the
      exception it raised. */
  datatype Fetch<T> = Fetched(value: T) | FetchError(error: string)

  // ---------------------------------------------------------------------------
  // get_file
  // ---------------------------------------------------------------------------

  const MaxFileChars: nat := 50000
  const TruncationNotice: string := "\n\n... [truncated, file too large]"

  /** `get_file`: the file's text, cut to its first 50000 characters and
      marked as cut when it is longer. */
  function GetFile(file: Fetch<string>): string {
    match file
    case FetchError(e) => "Error fetching file: " + e
    case Fetched(content) =>
      if |content| > MaxFileChars then content[..MaxFileChars] + TruncationNotice else content
  }

  /** A file of at most 50000 characters comes back unchanged; a longer one
      comes back as exactly its first 50000 characters and the notice, so
      the answer never exceeds 50000 characters plus the notice. */
  lemma GetFileTruncates(content: string)
    ensures |content| <= MaxFileChars ==> GetFile(Fetched(content)) == content
    ensures |content| > MaxFileChars ==>
      && |GetFile(Fetched(content))| == MaxFileChars + |TruncationNotice|
      && GetFile(Fetched(content))[..MaxFileChars] == content[..MaxFileChars]
      && EndsWith(GetFile(Fetched(content)), TruncationNotice)
    ensures |GetFile(Fetched(content))| <= MaxFileChars + |TruncationNotice|
  {
    if |content| > MaxFileChars {
      var r := GetFile(Fetched(content));
      assert r[MaxFileChars..] == TruncationNotice;
    }
  }

  // ---------------------------------------------------------------------------
  // list_files
  // ---------------------------------------------------------------------------

  /** One entry of a directory listing; `kind` is GitHub's `type`, "file" or "dir". */
  datatype DirEntry = DirEntry(path: string, kind: string)

  const FolderIcon: char := '\U{1F4C1}'
  const FileIcon: char := '\U{1F4C4}'
  const EmptyDirectory: string := "Empty directory"

  /** The line for one entry: a folder icon for a directory, a page icon for
      anything else, then the path. */
  function EntryLine(e: DirEntry): string {
    [if e.kind == "dir" then FolderIcon else FileIcon] + " " + e.path
  }

  function EntryLines(entries: seq<DirEntry>): (r: seq<string>)
    ensures |r| == |entries|
    ensures forall i | 0 <= i < |entries| :: r[i] == EntryLine(entries[i])
  {
    seq(|entries|, i requires 0 <= i < |entries| => EntryLine(entries[i]))
  }

  /** What `list_files` answers for a listing. */
  function ListingText(listing: Fetch<seq<DirEntry>>): string {
    match listing
    case FetchError(e) => "Error listing directory: " + e
    case Fetched(entries) => if entries == [] then EmptyDirectory else Join(EntryLines(entries), '\n')
  }

  /** `list_files`: one line per entry, joined by newlines. */
  method ListFiles(listing: Fetch<seq<DirEntry>>) returns (r: string)
    ensures r == ListingText(listing)
  {
    match listing
    case FetchError(e) =>
      r := "Error listing directory: " + e;
    case Fetched(contents) =>
      var lines: seq<string> := [];
      for k := 0 to |contents|
        invariant lines == EntryLines(contents[..k])
      {
        var typeIndicator := if contents[k].kind == "dir" then FolderIcon else FileIcon;
        lines := lines + [[typeIndicator] + " " + contents[k].path];
      }
      assert contents[..|contents|] == contents;
      r := if lines != [] then Join(lines, '\n') else EmptyDirectory;
  }

  /** Reading the listing back line by line gives one line per entry, with
      the entry's icon and path, as long as no path holds a newline. */
  lemma ListingOneLinePerEntry(entries: seq<DirEntry>)
    requires entries != []
    requires forall i | 0 <= i < |entries| :: '\n' !in entries[i].path
    ensures Split(ListingText(Fetched(entries)), '\n') == EntryLines(entries)
  {
    var lines := EntryLines(entries);
    forall i | 0 <= i < |lines|
      ensures '\n' !in lines[i]
    {
      assert lines[i] == [lines[i][0]] + " " + entries[i].path;
    }
    SplitJoin(lines, '\n');
  }

  /** "Empty directory" is the answer exactly for an empty listing: every
      entry line starts with an icon. */
  lemma EmptyDirectoryOnlyWhenEmpty(entries: seq<DirEntry>)
    ensures ListingText(Fetched(entries)) == EmptyDirectory <==> entries == []
  {
    if entries != [] {
      var lines := EntryLines(entries);
      JoinStartsWithFirst(lines, '\n');
      assert ListingText(Fetched(entries))[0] == lines[0][0] != 'E';
    }
  }

  /** A joined text starts where its first piece starts. */
  lemma {:induction false} JoinStartsWithFirst(parts: seq<string>, sep: char)
    requires parts != [] && parts[0] != []
    ensures Join(parts, sep) != [] && Join(parts, sep)[0] == parts[0][0]
  {
  }

  // ---------------------------------------------------------------------------
  // search_codebase
  // ---------------------------------------------------------------------------

  const MaxSearchResults: nat := 10
  const NoResults: string := "No results found"

  /** `- path` for each path. */
  function Bullets(paths: seq<string>): (r: seq<string>)
    ensures |r| == |paths|
    ensures forall i | 0 <= i < |paths| :: r[i] == "- " + paths[i]
  {
    seq(|paths|, i requires 0 <= i < |paths| => "- " + paths[i])
  }

  /** `search_codebase`: the first ten hits as `- path` lines. */
  function SearchCodebase(results: Fetch<seq<string>>): string {
    match results
    case FetchError(e) => "Error searching code: " + e
    case Fetched(paths) =>
      if paths == [] then NoResults else Join(Bullets(SliceTo(paths, MaxSearchResults)), '\n')
  }

  /** A search with hits lists the first ten of them, one per line, in the
      order of the search, and never reads as "No results found". */
  lemma SearchListsFirstTen(paths: seq<string>)
    requires paths != []
    requires forall i | 0 <= i < |paths| :: '\n' !in paths[i]
    ensures var lines := Split(SearchCodebase(Fetched(paths)), '\n');
      && |lines| == (if |paths| <= MaxSearchResults then |paths| else MaxSearchResults)
      && forall i | 0 <= i < |lines| :: lines[i] == "- " + paths[i]
    ensures SearchCodebase(Fetched(paths)) != NoResults
  {
    var shown := SliceTo(paths, MaxSearchResults);
    var lines := Bullets(shown);
    forall i | 0 <= i < |lines|
      ensures '\n' !in lines[i]
    {
      assert shown[i] == paths[i];
      assert lines[i] == "- " + paths[i];
    }
    SplitJoin(lines, '\n');
    JoinStartsWithFirst(lines, '\n');
  }

  // ---------------------------------------------------------------------------
  // get_imports
  // ---------------------------------------------------------------------------

  const NoImports: string := "No imports found"
  const UnsupportedType: string := "Unsupported file type for import extraction"

  predicate IsImportLine(line: string) {
    StartsWith(line, "import ") || StartsWith(line, "from ")
  }

  /** A line that ends the import section once an import has been seen:
      anything but a blank line, a comment or an import. */
  predicate EndsImportSection(line: string) {
    line != "" && !StartsWith(line, "#") && !IsImportLine(line)
  }

  /** `str.strip()` applied to every line. */
  function StripAll(lines: seq<string>): (r: seq<string>)
    ensures |r| == |lines|
    ensures forall k | 0 <= k < |lines| :: r[k] == Strip(lines[k])
  {
    seq(|lines|, k requires 0 <= k < |lines| => Strip(lines[k]))
  }

  /** The import section of a Python file, given as stripped lines, with
      `found` the imports already collected: the import lines, up to the
      first line after an import that ends the section. */
  function ImportSection(lines: seq<string>, found: seq<string>): seq<string>
    decreases |lines|
  {
    if lines == [] then found
    else if IsImportLine(lines[0]) then ImportSection(lines[1..], found + [lines[0]])
    else if EndsImportSection(lines[0]) && found != [] then found
    else ImportSection(lines[1..], found)
  }

  /** The import lines of a Python source text, as the Python branch of
      `get_imports` collects them. */
  method PythonImports(content: string) returns (importLines: seq<string>)
    ensures importLines == ImportSection(StripAll(Split(content, '\n')), [])
  {
    var lines := Split(content, '\n');
    ghost var stripped := StripAll(lines);
    importLines := [];
    var k := 0;
    assert stripped[k..] == stripped;
    while k < |lines|
      invariant k <= |lines|
      invariant ImportSection(stripped[k..], importLines) == ImportSection(stripped, [])
    {
      var line := Strip(lines[k]);
      ImportSectionStep(stripped, k, importLines);
      if IsImportLine(line) {
        importLines := importLines + [line];
      } else if line != "" && !StartsWith(line, "#") && importLines != [] {
        if !IsImportLine(line) {
          break;
        }
      }
      k := k + 1;
    }
  }

  /** One line of the scan. */
  lemma ImportSectionStep(lines: seq<string>, k: nat, found: seq<string>)
    requires k <= |lines|
    ensures k == |lines| ==> ImportSection(lines[k..], found) == found
    ensures k < |lines| ==>
      ImportSection(lines[k..], found) ==
        if IsImportLine(lines[k]) then ImportSection(lines[k + 1..], found + [lines[k]])
        else if EndsImportSection(lines[k]) && found != [] then found
        else ImportSection(lines[k + 1..], found)
  {
    if k < |lines| {
      assert lines[k..][0] == lines[k] && lines[k..][1..] == lines[k + 1..];
    }
  }

  /** Everything collected is an import line, in file order. */
  lemma {:induction false} ImportSectionOnlyImports(lines: seq<string>, found: seq<string>)
    requires forall i | 0 <= i < |found| :: IsImportLine(found[i])
    ensures var r := ImportSection(lines, found);
      && |found| <= |r| && r[..|found|] == found
      && forall i | 0 <= i < |r| :: IsImportLine(r[i])
    decreases |lines|
  {
    if lines != [] {
      if IsImportLine(lines[0]) {
        ImportSectionOnlyImports(lines[1..], found + [lines[0]]);
        var r := ImportSection(lines, found);
        assert r[..|found| + 1][..|found|] == r[..|found|];
      } else if !(EndsImportSection(lines[0]) && found != []) {
        ImportSectionOnlyImports(lines[1..], found);
      }
    }
  }

  /** The Python branch answers "No imports found" exactly when no line of
      the file is an import: nothing ends the section before the first
      import. */
  lemma {:induction false} ImportSectionEmptyIff(lines: seq<string>)
    ensures ImportSection(lines, []) == [] <==> forall i | 0 <= i < |lines| :: !IsImportLine(lines[i])
    decreases |lines|
  {
    if lines != [] {
      if IsImportLine(lines[0]) {
        ImportSectionOnlyImports(lines[1..], [lines[0]]);
        assert ImportSection(lines, []) == ImportSection(lines[1..], [] + [lines[0]]);
        assert [] + [lines[0]] == [lines[0]];
      } else {
        ImportSectionEmptyIff(lines[1..]);
        assert forall i | 1 <= i < |lines| :: lines[i] == lines[1..][i - 1];
      }
    }
  }

  /** The import lines of `lines`, in order. */
  function ImportLinesOf(lines: seq<string>): seq<string> {
    if lines == [] then []
    else
      var last := lines[|lines| - 1];
      ImportLinesOf(lines[..|lines| - 1]) + (if IsImportLine(last) then [last] else [])
  }

  /** Some line before position `i` is an import. */
  predicate ImportBefore(lines: seq<string>, i: nat)
    requires i <= |lines|
  {
    exists j | 0 <= j < i :: IsImportLine(lines[j])
  }

  /** Position `e` is where the import section ends: the first line after an
      import that ends it, or the end of the file. */
  predicate IsSectionEnd(lines: seq<string>, e: nat) {
    && e <= |lines|
    && (forall i | 0 <= i < e :: !(EndsImportSection(lines[i]) && ImportBefore(lines, i)))
    && (e < |lines| ==> EndsImportSection(lines[e]) && ImportBefore(lines, e))
  }

  /** Every file has an end of its import section. */
  lemma SectionEndExists(lines: seq<string>) returns (e: nat)
    ensures IsSectionEnd(lines, e)
  {
    e := 0;
    while e < |lines| && !(EndsImportSection(lines[e]) && ImportBefore(lines, e))
      invariant e <= |lines|
      invariant forall i | 0 <= i < e :: !(EndsImportSection(lines[i]) && ImportBefore(lines, i))
    {
      e := e + 1;
    }
  }

  /** The import section is every import line before the section's end: no
      import before it is missed and nothing after it is taken. */
  lemma ImportSectionIsLeadingImports(lines: seq<string>, e: nat)
    requires IsSectionEnd(lines, e)
    ensures ImportSection(lines, []) == ImportLinesOf(lines[..e])
  {
    assert lines[0..] == lines && lines[..0] == [];
    ImportSectionFrom(lines, 0, e);
  }

  lemma {:induction false} ImportSectionFrom(lines: seq<string>, k: nat, e: nat)
    requires k <= e && IsSectionEnd(lines, e)
    ensures ImportSection(lines[k..], ImportLinesOf(lines[..k])) == ImportLinesOf(lines[..e])
    decreases e - k
  {
    var found := ImportLinesOf(lines[..k]);
    ImportSectionStep(lines, k, found);
    if k < e {
      assert !(EndsImportSection(lines[k]) && ImportBefore(lines, k));
      ImportLinesSnoc(lines, k);
      ImportLinesEmptyIff(lines, k);
      ImportSectionFrom(lines, k + 1, e);
      if IsImportLine(lines[k]) {
        assert ImportLinesOf(lines[..k + 1]) == found + [lines[k]];
      } else {
        assert ImportLinesOf(lines[..k + 1]) == found + [] == found;
        assert ImportSection(lines[k..], found) == ImportSection(lines[k + 1..], found);
      }
    } else if e < |lines| {
      ImportLinesEmptyIff(lines, k);
    }
  }

  lemma ImportLinesSnoc(lines: seq<string>, k: nat)
    requires k < |lines|
    ensures ImportLinesOf(lines[..k + 1])
      == ImportLinesOf(lines[..k]) + (if IsImportLine(lines[k]) then [lines[k]] else [])
  {
    assert lines[..k + 1][..k] == lines[..k];
  }

  lemma {:induction false} ImportLinesEmptyIff(lines: seq<string>, k: nat)
    requires k <= |lines|
    ensures ImportLinesOf(lines[..k]) == [] <==> !ImportBefore(lines, k)
  {
    if k > 0 {
      ImportLinesEmptyIff(lines, k - 1);
      ImportLinesSnoc(lines, k - 1);
      if ImportBefore(lines, k) && !IsImportLine(lines[k - 1]) {
        var j :| 0 <= j < k && IsImportLine(lines[j]);
        assert j < k - 1;
      }
    }
  }

  /** A file that opens with its import block yields that block, whatever
      code follows it. */
  lemma {:induction false} ImportBlockThenCode(block: seq<string>, code: string, rest: seq<string>, found: seq<string>)
    requires forall i | 0 <= i < |block| :: IsImportLine(block[i])
    requires found != [] || block != []
    requires EndsImportSection(code)
    ensures ImportSection(block + [code] + rest, found) == found + block
    decreases |block|
  {
    var lines := block + [code] + rest;
    if block == [] {
      assert lines[0] == code;
      assert found + block == found;
    } else {
      assert lines[0] == block[0] && lines[1..] == block[1..] + [code] + rest;
      ImportBlockThenCode(block[1..], code, rest, found + [block[0]]);
      assert found + [block[0]] + block[1..] == found + block;
    }
  }

  /** What `get_imports` answers. The file is fetched first, so a failed
      fetch is reported whatever the file type; `scriptImports` stands for the
      TypeScript/JavaScript import pattern. */
  function ImportsText(path: string, file: Fetch<string>, scriptImports: string -> seq<string>): string {
    match file
    case FetchError(e) => "Error extracting imports: " + e
    case Fetched(content) =>
      if EndsWith(path, ".py") then
        var found := ImportSection(StripAll(Split(content, '\n')), []);
        if found != [] then Join(found, '\n') else NoImports
      else if IsScriptPath(path) then
        var found := scriptImports(content);
        if found != [] then Join(found, '\n') else NoImports
      else UnsupportedType
  }

  predicate IsScriptPath(path: string) {
    EndsWith(path, ".ts") || EndsWith(path, ".tsx") || EndsWith(path, ".js") || EndsWith(path, ".jsx")
  }

  /** `get_imports`. */
  method GetImports(path: string, file: Fetch<string>, scriptImports: string -> seq<string>) returns (r: string)
    ensures r == ImportsText(path, file, scriptImports)
  {
    match file
    case FetchError(e) =>
      r := "Error extracting imports: " + e;
    case Fetched(content) =>
      if EndsWith(path, ".py") {
        var importLines := PythonImports(content);
        r := if importLines != [] then Join(importLines, '\n') else NoImports;
      } else if IsScriptPath(path) {
        var imports := scriptImports(content);
        r := if imports != [] then Join(imports, '\n') else NoImports;
      } else {
        r := UnsupportedType;
      }
  }

  /** Any path whose type is neither Python nor a script is refused once its
      content is in hand, whatever the content. */
  lemma UnsupportedTypesRefused(path: string, content: string, scriptImports: string -> seq<string>)
    requires !EndsWith(path, ".py") && !IsScriptPath(path)
    ensures ImportsText(path, Fetched(content), scriptImports) == UnsupportedType
  {
  }

  // ---------------------------------------------------------------------------
  // find_related_files
  // ---------------------------------------------------------------------------

  const MaxHitsPerPattern: nat := 3
  const NoRelated: string := "No related files found"

  /** The part of a path after its last `/`. */
  function BaseName(path: string): (r: string)
    ensures '/' !in r
    ensures EndsWith(path, r)
    ensures r == path || (|r| < |path| && path[|path| - |r| - 1] == '/')
  {
    var k := RFind(path, '/');
    if k == -1 then
      assert path[|path| - |path|..] == path;
      path
    else
      assert |path| - |path[k + 1..]| == k + 1;
      path[k + 1..]
  }

  /** A file name without its extension: cut at its last `.`, if any. */
  function NameStem(path: string): (r: string)
    ensures StartsWith(BaseName(path), r)
  {
    var filename := BaseName(path);
    var k := RFind(filename, '.');
    if k == -1 then filename else filename[..k]
  }

  /** The stem is the file name cut before its last `.`, or the whole file
      name when it has no `.`. */
  lemma NameStemCut(path: string)
    ensures var name, r := BaseName(path), NameStem(path);
      && ('.' !in name ==> r == name)
      && ('.' in name ==> |r| < |name| && name[|r|] == '.' && '.' !in name[|r| + 1..])
  {
  }

  /** The stem of `dir/stem.ext` is `stem`, when `ext` has no dot. */
  lemma NameStemOf(dir: string, stem: string, ext: string)
    requires '/' !in stem && '/' !in ext && '.' !in ext
    ensures NameStem(dir + "/" + stem + "." + ext) == stem
  {
    var tail := stem + "." + ext;
    assert dir + "/" + stem + "." + ext == dir + "/" + tail;
    assert '/' !in tail;
    BaseNameOf(dir, tail);
    StemOfFileName(tail, stem, ext);
  }

  /** A file name `stem.ext` whose `ext` has no dot is cut after `stem`. */
  lemma StemOfFileName(filename: string, stem: string, ext: string)
    requires filename == stem + "." + ext && '.' !in ext
    ensures RFind(filename, '.') == |stem| && filename[..|stem|] == stem
  {
    assert filename[|stem|] == '.' && filename[|stem| + 1..] == ext;
    LastOccurrence(filename, '.', |stem|);
  }

  /** A path without a slash is its own file name. */
  lemma BaseNameWithoutSlash(path: string)
    requires '/' !in path
    ensures BaseName(path) == path
  {
  }

  lemma BaseNameOf(dir: string, name: string)
    requires '/' !in name
    ensures BaseName(dir + "/" + name) == name
  {
    var path := dir + "/" + name;
    assert path[|dir|] == '/' && path[|dir| + 1..] == name;
    LastOccurrence(path, '/', |dir|);
  }

  /** `rfind` finds the occurrence that has no other after it. */
  lemma LastOccurrence(s: string, c: char, k: nat)
    requires k < |s| && s[k] == c && c !in s[k + 1..]
    ensures RFind(s, c) == k
  {
    assert c in s by { assert s[k] == c; }
  }

  /** The six file-name patterns searched for, in order: four for tests, two
      for type definitions. */
  function RelatedPatterns(stem: string): (r: seq<string>)
    ensures |r| == 6
  {
    ["test_" + stem, stem + "_test", stem + ".test", stem + ".spec", stem + ".types", stem + "Types"]
  }

  /** The paths taken from one pattern's search: at most three, none when
      the search failed. */
  function Hits(results: Fetch<seq<string>>): (r: seq<string>)
    ensures |r| <= MaxHitsPerPattern
  {
    match results
    case FetchError(_) => []
    case Fetched(paths) => SliceTo(paths, MaxHitsPerPattern)
  }

  /** A failed search contributes nothing; a successful one its first three
      paths, or all of them when there are fewer. */
  lemma HitsAreFirstThree(results: Fetch<seq<string>>)
    ensures results.FetchError? ==> Hits(results) == []
    ensures results.Fetched? ==> var paths := results.value;
      Hits(results) == paths[..if |paths| <= MaxHitsPerPattern then |paths| else MaxHitsPerPattern]
  {
  }

  /** `related` extended by the paths it does not hold yet, in order. */
  function AddNew(related: seq<string>, paths: seq<string>): seq<string>
    decreases |paths|
  {
    if paths == [] then related
    else AddNew(if paths[0] in related then related else related + [paths[0]], paths[1..])
  }

  /** The related paths found by a sequence of pattern searches. */
  function RelatedPaths(searches: seq<Fetch<seq<string>>>): seq<string> {
    if searches == [] then []
    else AddNew(RelatedPaths(searches[..|searches| - 1]), Hits(searches[|searches| - 1]))
  }

  function RelatedText(related: seq<string>): string {
    if related != [] then "Related files found:\n" + Join(Bullets(related), '\n') else NoRelated
  }

  /** `find_related_files`: searches `filename:<pattern>` for each pattern,
      keeps the first three hits of each search that are new, ignores a
      search that fails. `search` stands for the GitHub code search. */
  method FindRelatedFiles(path: string, search: string -> Fetch<seq<string>>) returns (r: string)
    ensures r == RelatedText(RelatedPaths(Searches(path, search)))
  {
    var patterns := RelatedPatterns(NameStem(path));
    ghost var searches := Searches(path, search);
    var related: seq<string> := [];
    for p := 0 to |patterns|
      invariant related == RelatedPaths(searches[..p])
    {
      var results := search("filename:" + patterns[p]);
      assert results == searches[p];
      RelatedPathsStep(searches, p);
      match results
      case FetchError(_) =>
        assert Hits(results) == [];
      case Fetched(items) =>
        var shown := SliceTo(items, MaxHitsPerPattern);
        assert shown == Hits(results);
        related := AddUnseen(related, shown);
    }
    assert searches[..|patterns|] == searches;
    r := if related != [] then RelatedText(related) else NoRelated;
  }

  /** The inner loop of `find_related_files`: each shown path not yet in the
      list is appended. */
  method AddUnseen(related: seq<string>, shown: seq<string>) returns (r: seq<string>)
    ensures r == AddNew(related, shown)
  {
    r := related;
    for k := 0 to |shown|
      invariant AddNew(r, shown[k..]) == AddNew(related, shown)
    {
      if shown[k] !in r {
        r := r + [shown[k]];
      }
      assert shown[k..][1..] == shown[k + 1..];
    }
    assert shown[|shown|..] == [];
  }

  /** One more search adds its new hits at the end. */
  lemma RelatedPathsStep(searches: seq<Fetch<seq<string>>>, p: nat)
    requires p < |searches|
    ensures RelatedPaths(searches[..p + 1]) == AddNew(RelatedPaths(searches[..p]), Hits(searches[p]))
  {
    assert searches[..p + 1][..p] == searches[..p];
  }

  /** The searches `find_related_files` runs, in order. */
  function Searches(path: string, search: string -> Fetch<seq<string>>): (r: seq<Fetch<seq<string>>>)
    ensures |r| == 6
  {
    var patterns := RelatedPatterns(NameStem(path));
    seq(6, i requires 0 <= i < 6 => search("filename:" + patterns[i]))
  }

  predicate NoDuplicates(s: seq<string>) {
    forall i, j | 0 <= i < j < |s| :: s[i] != s[j]
  }

  /** Adding only new paths keeps what was there, in front, and adds no
      duplicate; a path ends up in the result iff it was in either input. */
  lemma {:induction false} AddNewProperties(related: seq<string>, paths: seq<string>)
    requires NoDuplicates(related)
    ensures var r := AddNew(related, paths);
      && NoDuplicates(r)
      && |related| <= |r| && r[..|related|] == related
      && forall p :: p in r <==> p in related || p in paths
    decreases |paths|
  {
    if paths != [] {
      var next := if paths[0] in related then related else related + [paths[0]];
      assert NoDuplicates(next);
      AddNewProperties(next, paths[1..]);
      var r := AddNew(related, paths);
      assert r[..|next|][..|related|] == r[..|related|];
      assert forall p :: p in paths <==> p == paths[0] || p in paths[1..] by {
        assert paths == [paths[0]] + paths[1..];
      }
    }
  }

  /** The related list has no duplicates, holds exactly the paths some
      search contributed, each where it first appeared among the hits, and
      grows only at its end as searches go on. */
  lemma RelatedPathsProperties(searches: seq<Fetch<seq<string>>>)
    ensures RelatedPaths(searches) == Dedup(AllHits(searches))
    ensures NoDuplicates(RelatedPaths(searches))
    ensures forall p :: p in RelatedPaths(searches) <==> exists i | 0 <= i < |searches| :: p in Hits(searches[i])
    ensures forall k | 0 <= k <= |searches| ::
      |RelatedPaths(searches[..k])| <= |RelatedPaths(searches)|
      && RelatedPaths(searches)[..|RelatedPaths(searches[..k])|] == RelatedPaths(searches[..k])
  {
    RelatedPathsAreFirstHits(searches);
    RelatedNoDuplicates(searches);
    forall p ensures p in RelatedPaths(searches) <==> exists i | 0 <= i < |searches| :: p in Hits(searches[i]) {
      RelatedMembers(searches, p);
    }
    RelatedGrowsAtEnd(searches);
  }

  lemma {:induction false} RelatedNoDuplicates(searches: seq<Fetch<seq<string>>>)
    ensures NoDuplicates(RelatedPaths(searches))
  {
    if searches != [] {
      var init := searches[..|searches| - 1];
      RelatedNoDuplicates(init);
      AddNewProperties(RelatedPaths(init), Hits(searches[|searches| - 1]));
    }
  }

  lemma {:induction false} RelatedMembers(searches: seq<Fetch<seq<string>>>, p: string)
    ensures p in RelatedPaths(searches) <==> exists i | 0 <= i < |searches| :: p in Hits(searches[i])
  {
    if searches != [] {
      var init := searches[..|searches| - 1];
      var last := searches[|searches| - 1];
      RelatedNoDuplicates(init);
      RelatedMembers(init, p);
      AddNewProperties(RelatedPaths(init), Hits(last));
      if p in Hits(last) {
        assert p in Hits(searches[|searches| - 1]);
      }
      if exists i | 0 <= i < |searches| :: p in Hits(searches[i]) {
        var i :| 0 <= i < |searches| && p in Hits(searches[i]);
        if i < |searches| - 1 {
          assert searches[i] == init[i];
        }
      }
    }
  }

  lemma {:induction false} RelatedGrowsAtEnd(searches: seq<Fetch<seq<string>>>)
    ensures forall k | 0 <= k <= |searches| ::
      |RelatedPaths(searches[..k])| <= |RelatedPaths(searches)|
      && RelatedPaths(searches)[..|RelatedPaths(searches[..k])|] == RelatedPaths(searches[..k])
  {
    if searches != [] {
      var init := searches[..|searches| - 1];
      RelatedNoDuplicates(init);
      RelatedGrowsAtEnd(init);
      AddNewProperties(RelatedPaths(init), Hits(searches[|searches| - 1]));
      var all := RelatedPaths(searches);
      var mid := RelatedPaths(init);
      forall k | 0 <= k <= |searches|
        ensures |RelatedPaths(searches[..k])| <= |all|
        ensures all[..|RelatedPaths(searches[..k])|] == RelatedPaths(searches[..k])
      {
        if k < |searches| {
          assert searches[..k] == init[..k];
          assert all[..|RelatedPaths(init[..k])|] == mid[..|RelatedPaths(init[..k])|];
        } else {
          assert searches[..k] == searches;
        }
      }
    } else {
      assert forall k | 0 <= k <= 0 :: searches[..k] == [];
    }
  }

  /** The first occurrence of every element of `s`, in order: the reference
      the related list is compared against. */
  function Dedup(s: seq<string>): seq<string> {
    if s == [] then []
    else if s[|s| - 1] in s[..|s| - 1] then Dedup(s[..|s| - 1])
    else Dedup(s[..|s| - 1]) + [s[|s| - 1]]
  }

  /** The hits of all searches, in search order, duplicates included. */
  function AllHits(searches: seq<Fetch<seq<string>>>): seq<string> {
    if searches == [] then [] else AllHits(searches[..|searches| - 1]) + Hits(searches[|searches| - 1])
  }

  lemma {:induction false} DedupMembers(s: seq<string>)
    ensures forall x :: x in Dedup(s) <==> x in s
  {
    if s != [] {
      var init := s[..|s| - 1];
      DedupMembers(init);
      assert s == init + [s[|s| - 1]];
    }
  }

  lemma DedupSnoc(a: seq<string>, x: string)
    ensures Dedup(a + [x]) == if x in a then Dedup(a) else Dedup(a) + [x]
  {
    assert (a + [x])[..|a|] == a;
  }

  /** A list without duplicates is its own first occurrences. */
  lemma {:induction false} DedupOfDistinct(s: seq<string>)
    requires NoDuplicates(s)
    ensures Dedup(s) == s
  {
    if s != [] {
      var init := s[..|s| - 1];
      DedupOfDistinct(init);
      assert s[|s| - 1] !in init;
      assert s == init + [s[|s| - 1]];
    }
  }

  /** Adding the new paths of `b` to the first occurrences of `a` gives the
      first occurrences of `a + b`. */
  lemma {:induction false} AddNewIsDedup(a: seq<string>, b: seq<string>)
    ensures AddNew(Dedup(a), b) == Dedup(a + b)
    decreases |b|
  {
    if b == [] {
      assert a + b == a;
    } else {
      DedupMembers(a);
      DedupSnoc(a, b[0]);
      AddNewIsDedup(a + [b[0]], b[1..]);
      assert a + [b[0]] + b[1..] == a + b;
    }
  }

  /** Adding the new paths to a list without duplicates gives the first
      occurrences of the list followed by the paths, in that order. */
  lemma AddNewKeepsFirstSeen(related: seq<string>, paths: seq<string>)
    requires NoDuplicates(related)
    ensures AddNew(related, paths) == Dedup(related + paths)
  {
    DedupOfDistinct(related);
    AddNewIsDedup(related, paths);
  }

  /** The related list is the first occurrence of every hit, in the order the
      searches and their hits come. */
  lemma {:induction false} RelatedPathsAreFirstHits(searches: seq<Fetch<seq<string>>>)
    ensures RelatedPaths(searches) == Dedup(AllHits(searches))
  {
    if searches != [] {
      var init := searches[..|searches| - 1];
      RelatedPathsAreFirstHits(init);
      AddNewIsDedup(AllHits(init), Hits(searches[|searches| - 1]));
    }
  }

  // ---------------------------------------------------------------------------
  // Failures become text
  // ---------------------------------------------------------------------------

  /** No tool raises: a failed GitHub call comes back as a message naming
      what failed, followed by the error. */
  lemma FailuresBecomeText(e: string, path: string, scriptImports: string -> seq<string>)
    ensures GetFile(FetchError(e)) == "Error fetching file: " + e
    ensures ListingText(FetchError(e)) == "Error listing directory: " + e
    ensures SearchCodebase(FetchError(e)) == "Error searching code: " + e
    ensures ImportsText(path, FetchError(e), scriptImports) == "Error extracting imports: " + e
    ensures Hits(FetchError(e)) == []
  {
  }
}
