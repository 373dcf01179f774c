/** The coordinator (src/analyzer.rs): parsing the discovered files chunk by
    chunk, cutting strings at a character boundary, the documentation
    excerpts, the context handed to the language model, and the file summary
    and filter helpers. Rayon's worker pool is modelled as a sequential loop
    over the same chunks, merged in chunk order as its `reduce` does. */
module Analyzer {
  import opened Wrappers
  import Text
  import Seqs
  import Counting
  import Paths
  import opened FileDiscovery
  import SP = SimpleParser

  /** The results `f` gives on `s` that are present, in order: the shape of a
      loop that pushes only some outcomes. */
  function Kept<T, U>(s: seq<T>, f: T -> Option<U>): seq<U> {
    if |s| == 0 then [] else Kept(s[..|s| - 1], f) + (if f(s[|s| - 1]).Some? then [f(s[|s| - 1]).value] else [])
  }

  /** Keeping over two runs is keeping over each. */
  lemma {:induction false} KeptAppend<T, U>(a: seq<T>, b: seq<T>, f: T -> Option<U>)
    ensures Kept(a + b, f) == Kept(a, f) + Kept(b, f)
    decreases |b|
  {
    if |b| == 0 {
      assert a + b == a;
    } else {
      KeptAppend(a, b[..|b| - 1], f);
      assert (a + b)[..|a + b| - 1] == a + b[..|b| - 1];
    }
  }

  /** Keeping one more element. */
  lemma KeptSnoc<T, U>(s: seq<T>, x: T, f: T -> Option<U>)
    ensures Kept(s + [x], f) == Kept(s, f) + if f(x).Some? then [f(x).value] else []
  {
    assert (s + [x])[..|s|] == s;
  }

  /** What is kept is exactly the result of `f` on each element `f` accepts,
      in input order: `Kept` is the filter of the accepted elements (those
      satisfying `p`), mapped. */
  lemma {:induction false} KeptIsFilterMap<T, U>(s: seq<T>, f: T -> Option<U>, p: T -> bool)
    requires forall x :: p(x) <==> f(x).Some?
    ensures |Kept(s, f)| == |Seqs.Filter(s, p)|
    ensures forall k :: 0 <= k < |Kept(s, f)| ==> f(Seqs.Filter(s, p)[k]) == Some(Kept(s, f)[k])
  {
    if |s| > 0 {
      var init, last := s[..|s| - 1], s[|s| - 1];
      KeptIsFilterMap(init, f, p);
      assert s == init + [last];
      Seqs.FilterAppend(init, [last], p);
      Seqs.FilterSingleton(last, p);
    }
  }

  /** An element `f` rejects leaves the others' results as they are: the
      outcome is what the elements before it and after it give. */
  lemma KeptSkips<T, U>(s: seq<T>, i: nat, f: T -> Option<U>)
    requires i < |s| && f(s[i]).None?
    ensures Kept(s, f) == Kept(s[..i], f) + Kept(s[i + 1..], f)
  {
    var a, x, b := s[..i], s[i], s[i + 1..];
    assert s == (a + [x]) + b;
    KeptAppend(a + [x], b, f);
    KeptSnoc(a, x, f);
  }

  // ---------------------------------------------------------------------
  // parse_files_parallel

  /** `max(1, files.len() / current_num_threads())`: floor division, at least 1. */
  function ChunkSize(count: nat, threads: nat): (r: nat)
    requires threads >= 1
    ensures r >= 1
    ensures count >= threads ==> r * threads <= count < (r + 1) * threads
    ensures count < threads ==> r == 1
  {
    if count / threads < 1 then 1 else count / threads
  }

  /** `par_chunks(size)`: consecutive runs of `size` elements, the last one
      shorter when `size` does not divide the length. */
  function Chunks<T>(s: seq<T>, size: nat): (r: seq<seq<T>>)
    requires size >= 1
    decreases |s|
  {
    if |s| == 0 then []
    else if |s| <= size then [s]
    else [s[..size]] + Chunks(s[size..], size)
  }

  /** The runs of `ss`, one after the other. */
  function Concat<T>(ss: seq<seq<T>>): seq<T> {
    if |ss| == 0 then [] else Concat(ss[..|ss| - 1]) + ss[|ss| - 1]
  }

  /** Concatenating a run in front. */
  lemma {:induction false} ConcatCons<T>(x: seq<T>, ss: seq<seq<T>>)
    ensures Concat([x] + ss) == x + Concat(ss)
    decreases |ss|
  {
    if |ss| == 0 {
      assert [x] + ss == [x];
      assert [x][..0] == [];
    } else {
      var xs := [x] + ss;
      assert xs[..|xs| - 1] == [x] + ss[..|ss| - 1];
      ConcatCons(x, ss[..|ss| - 1]);
    }
  }

  /** The chunks partition the input: together they are the input, in order,
      none is empty, none holds more than `size`, and all but the last hold
      exactly `size`. */
  lemma {:induction false} ChunksPartition<T>(s: seq<T>, size: nat)
    requires size >= 1
    ensures Concat(Chunks(s, size)) == s
    ensures forall k :: 0 <= k < |Chunks(s, size)| ==> 1 <= |Chunks(s, size)[k]| <= size
    ensures forall k :: 0 <= k < |Chunks(s, size)| - 1 ==> |Chunks(s, size)[k]| == size
    decreases |s|
  {
    if |s| == 0 {
    } else if |s| <= size {
      assert Concat([s]) == Concat([s][..0]) + s;
    } else {
      var head, tail := s[..size], s[size..];
      var rest := Chunks(tail, size);
      ChunksPartition(tail, size);
      ConcatCons(head, rest);
      var all := [head] + rest;
      assert Chunks(s, size) == all;
      assert s == head + tail;
      assert forall k :: 1 <= k < |all| ==> all[k] == rest[k - 1];
    }
  }

  /** Reading a file's text: the I/O of `parse_file`, a parameter of the model. */
  type Reader = string -> Result<string, IoError>

  /** The parse of `file` when it can be read. */
  function ParseAttempt(read: Reader, matcher: SP.Matcher): FileInfo -> Option<SP.ParsedFile> {
    (file: FileInfo) =>
      match read(file.path)
      case Ok(text) => Some(SP.Parse(SP.PatternsFor(SP.DefaultRegistry(), file.language), file, text, matcher))
      case Err(_) => None
  }

  /** The merged result of `parse_files_parallel`: the parses of the files
      that could be read, in input order. */
  function Parsed(files: seq<FileInfo>, read: Reader, matcher: SP.Matcher): seq<SP.ParsedFile> {
    Kept(files, ParseAttempt(read, matcher))
  }

  /** `parse_files_parallel`: every chunk gets its own parser and keeps the
      parses that succeed; the chunks' vectors are appended in chunk order. */
  method ParseFilesParallel(files: seq<FileInfo>, threads: nat, read: Reader, matcher: SP.Matcher)
    returns (parsed: seq<SP.ParsedFile>)
    requires threads >= 1
    ensures parsed == Parsed(files, read, matcher)
  {
    var size := ChunkSize(|files|, threads);
    var chunks := Chunks(files, size);
    var attempt := ParseAttempt(read, matcher);
    parsed := [];
    for c := 0 to |chunks|
      invariant parsed == Kept(Concat(chunks[..c]), attempt)
    {
      var localParser := new SP.SimpleParser();
      var chunk := chunks[c];
      var results: seq<SP.ParsedFile> := [];
      for j := 0 to |chunk|
        invariant results == Kept(chunk[..j], attempt)
      {
        var outcome := localParser.ParseFile(chunk[j], read(chunk[j].path), matcher);
        assert chunk[..j + 1] == chunk[..j] + [chunk[j]];
        KeptSnoc(chunk[..j], chunk[j], attempt);
        if outcome.Ok? {
          results := results + [outcome.value];
        }
      }
      assert chunk[..|chunk|] == chunk;
      assert chunks[..c + 1][..c] == chunks[..c];
      KeptAppend(Concat(chunks[..c]), chunk, attempt);
      parsed := parsed + results;
    }
    assert chunks[..|chunks|] == chunks;
    ChunksPartition(files, size);
  }

  /** The files `read` can read. */
  function Readable(read: Reader): FileInfo -> bool {
    (f: FileInfo) => read(f.path).Ok?
  }

  /** The merged result holds exactly the parses of the files that could be
      read, in input order. */
  lemma ParsedExactly(files: seq<FileInfo>, read: Reader, matcher: SP.Matcher)
    ensures var readable := Seqs.Filter(files, Readable(read));
      && |Parsed(files, read, matcher)| == |readable|
      && forall k :: 0 <= k < |readable| ==>
           Parsed(files, read, matcher)[k]
             == SP.Parse(SP.PatternsFor(SP.DefaultRegistry(), readable[k].language), readable[k],
                         read(readable[k].path).value, matcher)
  {
    KeptIsFilterMap(files, ParseAttempt(read, matcher), Readable(read));
  }

  /** A file that cannot be read is dropped and changes nothing about the
      others. */
  lemma UnreadableDropped(files: seq<FileInfo>, i: nat, read: Reader, matcher: SP.Matcher)
    requires i < |files| && read(files[i].path).Err?
    ensures Parsed(files, read, matcher) == Parsed(files[..i], read, matcher) + Parsed(files[i + 1..], read, matcher)
  {
    KeptSkips(files, i, ParseAttempt(read, matcher));
  }

  // ---------------------------------------------------------------------
  // safe_truncate

  /** The number of bytes UTF-8 takes for `c` (section 3 of RFC 3629). */
  function Utf8Width(c: char): nat {
    if c as int < 0x80 then 1 else if c as int < 0x800 then 2 else if c as int < 0x1_0000 then 3 else 4
  }

  /** The byte index of char `i` of `s`, as `char_indices` reports it. */
  function ByteIndex(s: string, i: nat): nat
    requires i <= |s|
  {
    if i == 0 then 0 else Utf8Width(s[0]) + ByteIndex(s[1..], i - 1)
  }

  /** One char further is its width further. */
  lemma {:induction false} ByteIndexStep(s: string, i: nat)
    requires i < |s|
    ensures ByteIndex(s, i + 1) == ByteIndex(s, i) + Utf8Width(s[i])
  {
    if i > 0 {
      ByteIndexStep(s[1..], i - 1);
    }
  }

  /** `&s[..b]` on the UTF-8 bytes of `s`: the chars before byte `b`, or
      `None` where Rust panics because `b` is not a char boundary of `s`. */
  function SliceTo(s: string, b: nat): Option<string> {
    if b == 0 then Some([])
    else if |s| == 0 || Utf8Width(s[0]) > b then None
    else
      match SliceTo(s[1..], b - Utf8Width(s[0]))
      case Some(t) => Some([s[0]] + t)
      case None => None
  }

  /** The byte index of a char is a boundary, and slicing there keeps exactly
      the chars before it. */
  lemma {:induction false} SliceAtBoundary(s: string, m: nat)
    requires m <= |s|
    ensures SliceTo(s, ByteIndex(s, m)) == Some(s[..m])
  {
    if m > 0 {
      SliceAtBoundary(s[1..], m - 1);
      assert s[..m] == [s[0]] + s[1..][..m - 1];
    }
  }

  /** The first `maxChars` chars of `s`, or all of it when it is no longer. */
  function Truncated(s: string, maxChars: nat): (r: string)
    ensures r <= s
    ensures |r| == if |s| <= maxChars then |s| else maxChars
  {
    if |s| <= maxChars then s else s[..maxChars]
  }

  /** `safe_truncate`: walks the char indices to the byte index of char
      `maxChars` and slices there, which never splits a char. */
  method SafeTruncate(s: string, maxChars: nat) returns (r: string)
    ensures r == Truncated(s, maxChars)
  {
    if |s| <= maxChars {
      return s;
    }
    var endIdx := 0;
    var i := 0;
    var offset := 0;
    while i < |s|
      invariant i <= maxChars && i <= |s|
      invariant offset == ByteIndex(s, i)
      invariant i > 0 ==> endIdx == ByteIndex(s, i - 1)
      decreases |s| - i
    {
      if i >= maxChars {
        break;
      }
      endIdx := offset;
      ByteIndexStep(s, i);
      offset := offset + Utf8Width(s[i]);
      i := i + 1;
    }
    // `char_indices().nth(max_chars)` exists because `s` has more than
    // `maxChars` chars; its byte index is where the walk stopped.
    var nextIdx := offset;
    SliceAtBoundary(s, maxChars);
    r := SliceTo(s, nextIdx).value;
  }

  // ---------------------------------------------------------------------
  // extract_documentation_content

  /** `DocumentationContext`. */
  datatype DocumentationContext = DocumentationContext(path: string, fileType: string, content: string, summary: string)

  /** The languages whose files are read as documentation. */
  predicate IsDocumentation(language: string) {
    language in {"markdown", "text", "json", "yaml", "toml"}
  }

  /** The summary of a documentation file: its first 500 chars and its
      length when it is longer than that, otherwise the whole text. */
  function DocSummary(content: string): (r: string)
    ensures |content| <= 500 ==> r == content
    ensures |content| > 500 ==> |r| > 500 && r[..500] == content[..500]
  {
    if |content| > 500 then Truncated(content, 500) + "... (" + Text.Decimal(|content|) + " characters total)"
    else content
  }

  /** The text between the head and the tail of a cut documentation file. */
  function TruncationMarker(total: nat): string {
    "...\n\n[FILE TRUNCATED - " + Text.Decimal(total) + " total characters]\n\n..."
  }

  /** The content kept of a documentation file: the whole text up to 8000
      chars, otherwise its first 4000 and last 2000 chars around a marker
      giving the length, which makes it shorter. */
  function DocContent(content: string): (r: string)
    ensures |content| <= 8000 ==> r == content
    ensures |content| > 8000 ==>
      && 6000 <= |r| < |content|
      && r[..4000] == content[..4000] && r[|r| - 2000..] == content[|content| - 2000..]
  {
    if |content| > 8000 then
      var total := |content|;
      DecimalLength(total);
      Truncated(content, 4000) + TruncationMarker(total) + content[total - 2000..]
    else content
  }

  /** A number has at most one digit more than a tenth of it. */
  lemma {:induction false} DecimalLength(n: nat)
    ensures |Text.Decimal(n)| <= 1 + n / 10
  {
    if n >= 10 {
      DecimalLength(n / 10);
    }
  }

  /** The documentation context of `file` when its language is a
      documentation language and it can be read. */
  function DocAttempt(read: Reader): FileInfo -> Option<DocumentationContext> {
    (file: FileInfo) =>
      if file.language.Some? && IsDocumentation(file.language.value) && read(file.path).Ok? then
        var content := read(file.path).value;
        Some(DocumentationContext(file.path, file.language.value, DocContent(content), DocSummary(content)))
      else None
  }

  /** `extract_documentation_content`: one entry per readable documentation
      file, in file order; other files and unreadable ones are skipped. */
  method ExtractDocumentation(files: seq<FileInfo>, read: Reader) returns (docs: seq<DocumentationContext>)
    ensures docs == Kept(files, DocAttempt(read))
  {
    var attempt := DocAttempt(read);
    docs := [];
    for i := 0 to |files|
      invariant docs == Kept(files[..i], attempt)
    {
      var file := files[i];
      assert files[..i + 1] == files[..i] + [file];
      KeptSnoc(files[..i], file, attempt);
      if file.language.Some? && IsDocumentation(file.language.value) {
        var outcome := read(file.path);
        if outcome.Ok? {
          var content := outcome.value;
          var summary := content;
          if |content| > 500 {
            var head := SafeTruncate(content, 500);
            summary := head + "... (" + Text.Decimal(|content|) + " characters total)";
          }
          var kept := content;
          if |content| > 8000 {
            var startPart := SafeTruncate(content, 4000);
            var total := |content|;
            var endPart := content[total - 2000..];
            kept := startPart + TruncationMarker(total) + endPart;
          }
          docs := docs + [DocumentationContext(file.path, file.language.value, kept, summary)];
        }
      }
    }
    assert files[..|files|] == files;
  }

  // ---------------------------------------------------------------------
  // create_analysis_context

  /** `FileContext`. */
  datatype FileContext = FileContext(
    path: string, language: string, contentSummary: string,
    functions: seq<string>, classes: seq<string>, imports: seq<string>)

  /** `DependencyContext`; its `strength` (always 1.0) is floating point and
      not modelled. */
  datatype DependencyContext = DependencyContext(fromFile: string, toFile: string, dependencyType: string)

  /** `ProjectInfo`. `languages` holds the keys of a hash map, whose order
      the source leaves unspecified, so it is a set here. */
  datatype ProjectInfo = ProjectInfo(
    name: string, totalFiles: nat, totalLines: nat, languages: set<string>, architecturePatterns: seq<string>)

  /** `AnalysisContext`. */
  datatype AnalysisContext = AnalysisContext(
    files: seq<FileContext>, dependencies: seq<DependencyContext>, projectInfo: ProjectInfo,
    documentation: seq<DocumentationContext>)

  /** The context of one parsed file. */
  function FileContextOf(pf: SP.ParsedFile): FileContext {
    FileContext(
      pf.fileInfo.path, pf.fileInfo.language.GetOr("unknown"),
      Text.Decimal(|pf.functions|) + " functions, " + Text.Decimal(|pf.classes|) + " classes, "
        + Text.Decimal(|pf.imports|) + " imports",
      seq(|pf.functions|, k requires 0 <= k < |pf.functions| => pf.functions[k].name),
      seq(|pf.classes|, k requires 0 <= k < |pf.classes| => pf.classes[k].name),
      seq(|pf.imports|, k requires 0 <= k < |pf.imports| => pf.imports[k].moduleName))
  }

  /** The contexts of the parsed files: one per file, in order, listing the
      file's function names, class names and imported modules in order. */
  function FileContexts(parsed: seq<SP.ParsedFile>): (r: seq<FileContext>)
    ensures |r| == |parsed|
    ensures forall i :: 0 <= i < |r| ==>
      && r[i].path == parsed[i].fileInfo.path
      && |r[i].functions| == |parsed[i].functions| && |r[i].classes| == |parsed[i].classes|
      && |r[i].imports| == |parsed[i].imports|
    ensures forall i, k :: 0 <= i < |r| && 0 <= k < |r[i].functions| ==> r[i].functions[k] == parsed[i].functions[k].name
    ensures forall i, k :: 0 <= i < |r| && 0 <= k < |r[i].classes| ==> r[i].classes[k] == parsed[i].classes[k].name
    ensures forall i, k :: 0 <= i < |r| && 0 <= k < |r[i].imports| ==> r[i].imports[k] == parsed[i].imports[k].moduleName
  {
    seq(|parsed|, i requires 0 <= i < |parsed| => FileContextOf(parsed[i]))
  }

  /** The dependency contexts of the imports of one file, in order. */
  function ImportContexts(pf: SP.ParsedFile): seq<DependencyContext> {
    seq(|pf.imports|, k requires 0 <= k < |pf.imports| =>
      DependencyContext(pf.fileInfo.path, pf.imports[k].moduleName, "import"))
  }

  /** The dependency contexts of all imports of the first `n` files, file
      after file (the `flat_map`). */
  function DependencyContexts(parsed: seq<SP.ParsedFile>, n: nat): seq<DependencyContext>
    requires n <= |parsed|
  {
    if n == 0 then [] else DependencyContexts(parsed, n - 1) + ImportContexts(parsed[n - 1])
  }

  /** The number of imports of the first `n` files. */
  function ImportCount(parsed: seq<SP.ParsedFile>, n: nat): nat
    requires n <= |parsed|
  {
    if n == 0 then 0 else ImportCount(parsed, n - 1) + |parsed[n - 1].imports|
  }

  /** There is one dependency context per import: import `k` of file `i`
      sits after the imports of the earlier files, runs from the file's path
      to the imported module, and has type "import". */
  lemma {:induction false} DependencyContextsAt(parsed: seq<SP.ParsedFile>, n: nat, i: nat, k: nat)
    requires i < n <= |parsed| && k < |parsed[i].imports|
    ensures |DependencyContexts(parsed, n)| == ImportCount(parsed, n)
    ensures ImportCount(parsed, i) + k < ImportCount(parsed, n)
    ensures DependencyContexts(parsed, n)[ImportCount(parsed, i) + k]
      == DependencyContext(parsed[i].fileInfo.path, parsed[i].imports[k].moduleName, "import")
  {
    DependencyContextsSize(parsed, n - 1);
    if i < n - 1 {
      DependencyContextsAt(parsed, n - 1, i, k);
    }
  }

  /** The dependency contexts of the first `n` files number their imports. */
  lemma {:induction false} DependencyContextsSize(parsed: seq<SP.ParsedFile>, n: nat)
    requires n <= |parsed|
    ensures |DependencyContexts(parsed, n)| == ImportCount(parsed, n)
  {
    if n > 0 {
      DependencyContextsSize(parsed, n - 1);
    }
  }

  /** `create_analysis_context`, with the target directory and the file
      reader as parameters: the file and dependency contexts, the project's
      name, file count, estimated line count (50 bytes a line, rounded down)
      and languages, and the documentation excerpts. */
  method CreateAnalysisContext(parsed: seq<SP.ParsedFile>, files: seq<FileInfo>, targetDirectory: string, read: Reader)
    returns (context: AnalysisContext)
    ensures context.files == FileContexts(parsed)
    ensures context.dependencies == DependencyContexts(parsed, |parsed|)
    ensures context.projectInfo.name == Paths.FileName(targetDirectory).GetOr("unknown")
    ensures context.projectInfo.totalFiles == |files|
    ensures context.projectInfo.totalLines == TotalSize(files) / 50
    ensures forall l :: l in context.projectInfo.languages <==> exists k :: 0 <= k < |files| && files[k].language == Some(l)
    ensures context.projectInfo.architecturePatterns == []
    ensures context.documentation == Kept(files, DocAttempt(read))
  {
    var fileContexts := FileContexts(parsed);
    var dependencyContexts := DependencyContexts(parsed, |parsed|);
    var languages := LanguageCounts(files);
    forall l ensures l in languages <==> exists k :: 0 <= k < |files| && files[k].language == Some(l) {
      Counting.TallyCounts(LanguagesOf(files), l);
      LanguagesOfMember(files, l);
    }
    var info := ProjectInfo(
      Paths.FileName(targetDirectory).GetOr("unknown"), |files|, TotalSize(files) / 50, languages.Keys, []);
    var documentation := ExtractDocumentation(files, read);
    context := AnalysisContext(fileContexts, dependencyContexts, info, documentation);
  }

  /** The language loop of `create_analysis_context`: files per language. */
  method LanguageCounts(files: seq<FileInfo>) returns (languages: map<string, nat>)
    ensures languages == Counting.Tally(LanguagesOf(files))
  {
    languages := map[];
    for i := 0 to |files|
      invariant languages == Counting.Tally(LanguagesOf(files[..i]))
    {
      var file := files[i];
      LanguagesStep(files, i);
      if file.language.Some? {
        languages := Counting.Bump(languages, file.language.value);
      }
    }
    assert files[..|files|] == files;
  }

  /** A language is listed exactly when some file has it. */
  lemma {:induction false} LanguagesOfMember(files: seq<FileInfo>, l: string)
    ensures l in LanguagesOf(files) <==> exists k :: 0 <= k < |files| && files[k].language == Some(l)
  {
    if |files| > 0 {
      var init := files[..|files| - 1];
      LanguagesOfMember(init, l);
      if exists k :: 0 <= k < |files| && files[k].language == Some(l) {
        var k :| 0 <= k < |files| && files[k].language == Some(l);
        if k < |files| - 1 {
          assert init[k] == files[k];
        }
      }
      if exists k :: 0 <= k < |init| && init[k].language == Some(l) {
        var k :| 0 <= k < |init| && init[k].language == Some(l);
        assert files[k] == init[k];
      }
    }
  }

  // ---------------------------------------------------------------------
  // get_file_summary and filter_files_by_criteria

  /** `FileSummary`. */
  datatype FileSummary = FileSummary(
    totalFiles: nat, totalSize: nat, languageDistribution: map<string, nat>, extensionDistribution: map<string, nat>)

  /** The extensions of the files that have one, in file order. */
  function ExtensionsOf(files: seq<FileInfo>): (r: seq<string>)
    ensures |r| <= |files|
  {
    if |files| == 0 then []
    else
      var last := files[|files| - 1];
      ExtensionsOf(files[..|files| - 1]) + (if last.extension.Some? then [last.extension.value] else [])
  }

  /** `get_file_summary`: the file count, the total size, and the files per
      language and per extension; each histogram adds up to the number of
      files that have a language, respectively an extension. */
  method GetFileSummary(files: seq<FileInfo>) returns (summary: FileSummary)
    ensures summary.totalFiles == |files| && summary.totalSize == TotalSize(files)
    ensures summary.languageDistribution == Counting.Tally(LanguagesOf(files))
    ensures summary.extensionDistribution == Counting.Tally(ExtensionsOf(files))
    ensures Counting.SumValues(summary.languageDistribution) == |LanguagesOf(files)|
    ensures Counting.SumValues(summary.extensionDistribution) == |ExtensionsOf(files)|
  {
    summary := FileSummary(0, 0, map[], map[]);
    for i := 0 to |files|
      invariant summary.totalFiles == i && summary.totalSize == TotalSize(files[..i])
      invariant summary.languageDistribution == Counting.Tally(LanguagesOf(files[..i]))
      invariant summary.extensionDistribution == Counting.Tally(ExtensionsOf(files[..i]))
    {
      var file := files[i];
      LanguagesStep(files, i);
      ExtensionsStep(files, i);
      var languages, extensions := summary.languageDistribution, summary.extensionDistribution;
      if file.language.Some? {
        languages := Counting.Bump(languages, file.language.value);
      }
      if file.extension.Some? {
        extensions := Counting.Bump(extensions, file.extension.value);
      }
      summary := FileSummary(summary.totalFiles + 1, summary.totalSize + file.size, languages, extensions);
    }
    assert files[..|files|] == files;
    Counting.TallySum(LanguagesOf(files));
    Counting.TallySum(ExtensionsOf(files));
  }

  /** One more file adds one to its extension's count when it has one. */
  lemma ExtensionsStep(files: seq<FileInfo>, i: nat)
    requires i < |files|
    ensures Counting.Tally(ExtensionsOf(files[..i + 1])) ==
      if files[i].extension.Some? then Counting.Bump(Counting.Tally(ExtensionsOf(files[..i])), files[i].extension.value)
      else Counting.Tally(ExtensionsOf(files[..i]))
  {
    var prefix, next := files[..i], files[..i + 1];
    assert next[..i] == prefix;
    var before := ExtensionsOf(prefix);
    if files[i].extension.Some? {
      assert ExtensionsOf(next) == before + [files[i].extension.value];
      Counting.TallySnoc(before, files[i].extension.value);
    } else {
      assert ExtensionsOf(next) == before;
    }
  }

  /** `FilterCriteria`: every criterion is optional. */
  datatype FilterCriteria = FilterCriteria(
    language: Option<string>, minSize: Option<nat>, maxSize: Option<nat>, pathContains: Option<string>)

  /** The closure `filter_files_by_criteria` applies: each present criterion
      in turn can reject the file. */
  function Accepts(criteria: FilterCriteria): FileInfo -> bool {
    (file: FileInfo) =>
      if criteria.language.Some? && file.language != criteria.language then false
      else if criteria.minSize.Some? && file.size < criteria.minSize.value then false
      else if criteria.maxSize.Some? && file.size > criteria.maxSize.value then false
      else if criteria.pathContains.Some? && !Text.Contains(file.path, criteria.pathContains.value) then false
      else true
  }

  /** The file meets every criterion that is present. */
  ghost predicate Meets(criteria: FilterCriteria, file: FileInfo) {
    && (criteria.language.Some? ==> file.language == criteria.language)
    && (criteria.minSize.Some? ==> criteria.minSize.value <= file.size)
    && (criteria.maxSize.Some? ==> file.size <= criteria.maxSize.value)
    && (criteria.pathContains.Some? ==>
          exists i :: Text.OccursAt(file.path, criteria.pathContains.value, i))
  }

  /** `filter_files_by_criteria`: the files meeting every present criterion,
      in their order; every such file is kept. */
  function FilterFilesByCriteria(files: seq<FileInfo>, criteria: FilterCriteria): (r: seq<FileInfo>)
    ensures Seqs.IsSubsequence(r, files)
    ensures forall k :: 0 <= k < |r| ==> Meets(criteria, r[k])
    ensures forall f :: multiset(r)[f] == if Meets(criteria, f) then multiset(files)[f] else 0
  {
    var p := Accepts(criteria);
    var r := Seqs.Filter(files, p);
    Seqs.FilterSubsequence(files, p);
    forall f ensures multiset(r)[f] == if Meets(criteria, f) then multiset(files)[f] else 0 {
      Seqs.FilterCount(files, p, f);
    }
    r
  }

  /** With no criterion every file is kept. */
  lemma NoCriteriaKeepsAll(files: seq<FileInfo>)
    ensures FilterFilesByCriteria(files, FilterCriteria(None, None, None, None)) == files
  {
    Seqs.FilterAll(files, Accepts(FilterCriteria(None, None, None, None)));
  }
}
