/** File acceptance and the extension-to-language table
    (src/file_discovery.rs). Directory walking and `fs::metadata` are outside
    the model: the file's size, or the error reading it, is a parameter. */
module FileDiscovery {
  import opened Wrappers
  import Text
  import Paths
  import Seqs
  import Counting

  /** One discovered file: `FileInfo`. */
  datatype FileInfo = FileInfo(path: string, size: nat, extension: Option<string>, language: Option<string>)

  /** The two configuration fields file acceptance reads. */
  datatype DiscoveryConfig = DiscoveryConfig(fileExtensions: seq<string>, maxFileSize: nat)

  /** An I/O failure, carried as its message. */
  datatype IoError = IoError(message: string)

  /** The extension of `path`, lower-cased, as `process_file` computes it. */
  function LowerExtension(path: string): (r: Option<string>)
    ensures r.Some? <==> Paths.Extension(path).Some?
    ensures r.Some? ==> |r.value| == |Paths.Extension(path).value|
    ensures r.Some? ==> forall k :: 0 <= k < |r.value| ==> r.value[k] == Text.LowerChar(Paths.Extension(path).value[k])
    ensures r.Some? ==> forall k :: 0 <= k < |r.value| ==> !('A' <= r.value[k] <= 'Z')
  {
    match Paths.Extension(path)
    case Some(e) => Some(Text.AsciiLower(e))
    case None => None
  }

  /** `process_file`: a file is kept unless it is larger than the limit or has
      an extension outside the configured list; a file without an extension
      is kept. Kept files carry their size and the detected language. */
  method ProcessFile(config: DiscoveryConfig, path: string, metadata: Result<nat, IoError>)
    returns (r: Result<Option<FileInfo>, IoError>)
    ensures metadata.Err? <==> r.Err?
    ensures metadata.Err? ==> r.error == metadata.error
    ensures metadata.Ok? ==>
      (r.Ok? && (r.value.None? <==>
        (metadata.value > config.maxFileSize
         || (LowerExtension(path).Some? && LowerExtension(path).value !in config.fileExtensions))))
    ensures r.Ok? && r.value.Some? ==>
      r.value.value == FileInfo(path, metadata.value, LowerExtension(path), DetectLanguage(LowerExtension(path)))
  {
    if metadata.Err? {
      return Err(metadata.error);
    }
    var size := metadata.value;
    if size > config.maxFileSize {
      return Ok(None);
    }
    var extension := LowerExtension(path);
    if extension.Some? && extension.value !in config.fileExtensions {
      return Ok(None);
    }
    var language := DetectLanguage(extension);
    return Ok(Some(FileInfo(path, size, extension, language)));
  }

  /** The extension-to-language table of `detect_language`, in the order of its
      match arms (an arm listing several extensions gives one entry each). */
  const LanguageTable: seq<(string, string)> := [
    ("rs", "rust"), ("js", "javascript"), ("ts", "typescript"), ("tsx", "typescript"),
    ("jsx", "javascript"), ("py", "python"), ("java", "java"), ("go", "go"),
    ("cpp", "cpp"), ("cc", "cpp"), ("cxx", "cpp"), ("c", "c"),
    ("h", "c"), ("hpp", "c"), ("php", "php"), ("rb", "ruby"),
    ("cs", "csharp"), ("swift", "swift"), ("kt", "kotlin"), ("scala", "scala"),
    ("clj", "clojure"), ("cljs", "clojure"), ("hs", "haskell"), ("ml", "ocaml"),
    ("mli", "ocaml"), ("elm", "elm"), ("ex", "elixir"), ("exs", "elixir"),
    ("erl", "erlang"), ("hrl", "erlang"), ("dart", "dart"), ("lua", "lua"),
    ("r", "r"), ("m", "objective-c"), ("mm", "objective-cpp"), ("pl", "perl"),
    ("pm", "perl"), ("sh", "bash"), ("bash", "bash"), ("ps1", "powershell"),
    ("sql", "sql"), ("html", "html"), ("htm", "html"), ("css", "css"),
    ("scss", "scss"), ("sass", "scss"), ("xml", "xml"), ("json", "json"),
    ("yaml", "yaml"), ("yml", "yaml"), ("toml", "toml"), ("md", "markdown"),
    ("tex", "latex"), ("dockerfile", "dockerfile"), ("makefile", "makefile"), ("cmake", "cmake")
  ]

  /** The language of the first entry whose extension is `e`. */
  function Lookup(table: seq<(string, string)>, e: string): (r: Option<string>)
    ensures r.Some? <==> exists i :: 0 <= i < |table| && table[i].0 == e
    ensures r.Some? ==> exists i :: FirstEntry(table, e, i) && table[i].1 == r.value
  {
    if |table| == 0 then None
    else if table[0].0 == e then
      assert FirstEntry(table, e, 0);
      Some(table[0].1)
    else
      var r := Lookup(table[1..], e);
      if r.Some? then
        var i :| FirstEntry(table[1..], e, i) && table[1..][i].1 == r.value;
        assert FirstEntry(table, e, i + 1);
        r
      else
        assert forall i :: 0 < i < |table| ==> table[i] == table[1..][i - 1];
        r
  }

  /** Entry `i` is the first one of `table` with extension `e`. */
  predicate FirstEntry(table: seq<(string, string)>, e: string, i: int) {
    0 <= i < |table| && table[i].0 == e && forall j :: 0 <= j < i ==> table[j].0 != e
  }

  /** `detect_language`: a known extension gets its language, anything else
      (including no extension) none. */
  function DetectLanguage(extension: Option<string>): (r: Option<string>)
    ensures r.Some? <==> extension.Some? && exists i :: 0 <= i < |LanguageTable| && LanguageTable[i].0 == extension.value
    ensures r.Some? ==> exists i :: FirstEntry(LanguageTable, extension.value, i) && LanguageTable[i].1 == r.value
  {
    match extension
    case None => None
    case Some(e) => Lookup(LanguageTable, e)
  }

  /** `filter_by_language`: the files tagged with `language`, in their order. */
  function FilterByLanguage(files: seq<FileInfo>, language: string): (r: seq<FileInfo>)
    ensures forall k :: 0 <= k < |r| ==> r[k].language == Some(language)
    ensures Seqs.IsSubsequence(r, files)
    ensures forall f :: multiset(r)[f] == if f.language == Some(language) then multiset(files)[f] else 0
  {
    var p := (f: FileInfo) => f.language == Some(language);
    var r := Seqs.Filter(files, p);
    Seqs.FilterSubsequence(files, p);
    forall f ensures multiset(r)[f] == if f.language == Some(language) then multiset(files)[f] else 0 {
      Seqs.FilterCount(files, p, f);
    }
    r
  }

  /** Sum of the sizes of `files`. */
  function TotalSize(files: seq<FileInfo>): nat {
    if |files| == 0 then 0 else TotalSize(files[..|files| - 1]) + files[|files| - 1].size
  }

  /** The languages of the files that have one, in file order. */
  function LanguagesOf(files: seq<FileInfo>): (r: seq<string>)
    ensures |r| <= |files|
  {
    if |files| == 0 then []
    else
      var last := files[|files| - 1];
      LanguagesOf(files[..|files| - 1]) + (if last.language.Some? then [last.language.value] else [])
  }

  /** `FileStats`. */
  datatype FileStats = FileStats(totalFiles: nat, totalSize: nat, languages: map<string, nat>)

  /** `get_stats`: counts the files, adds up their sizes and counts the files
      per language; the per-language counts add up to the number of files
      that have a language. */
  method GetStats(files: seq<FileInfo>) returns (stats: FileStats)
    ensures stats.totalFiles == |files|
    ensures stats.totalSize == TotalSize(files)
    ensures stats.languages == Counting.Tally(LanguagesOf(files))
    ensures Counting.SumValues(stats.languages) == |LanguagesOf(files)|
  {
    stats := FileStats(0, 0, map[]);
    for i := 0 to |files|
      invariant stats.totalFiles == i
      invariant stats.totalSize == TotalSize(files[..i])
      invariant stats.languages == Counting.Tally(LanguagesOf(files[..i]))
    {
      var file := files[i];
      LanguagesStep(files, i);
      var languages := stats.languages;
      if file.language.Some? {
        languages := Counting.Bump(languages, file.language.value);
      }
      stats := FileStats(stats.totalFiles + 1, stats.totalSize + file.size, languages);
    }
    assert files[..|files|] == files;
    Counting.TallySum(LanguagesOf(files));
  }

  /** One more file adds its size to the total and, when it has a language,
      one to that language's count. */
  lemma LanguagesStep(files: seq<FileInfo>, i: nat)
    requires i < |files|
    ensures TotalSize(files[..i + 1]) == TotalSize(files[..i]) + files[i].size
    ensures Counting.Tally(LanguagesOf(files[..i + 1])) ==
      if files[i].language.Some? then Counting.Bump(Counting.Tally(LanguagesOf(files[..i])), files[i].language.value)
      else Counting.Tally(LanguagesOf(files[..i]))
  {
    var prefix, next := files[..i], files[..i + 1];
    assert next == prefix + [files[i]];
    LanguagesSnoc(prefix, files[i]);
    var before := LanguagesOf(prefix);
    if files[i].language.Some? {
      var lang := files[i].language.value;
      assert LanguagesOf(next) == before + [lang];
      Counting.TallySnoc(before, lang);
    } else {
      assert LanguagesOf(next) == before;
    }
  }

  /** Appending a file appends its language, if it has one. */
  lemma LanguagesSnoc(fs: seq<FileInfo>, file: FileInfo)
    ensures LanguagesOf(fs + [file]) == LanguagesOf(fs) + (if file.language.Some? then [file.language.value] else [])
    ensures TotalSize(fs + [file]) == TotalSize(fs) + file.size
  {
    var all := fs + [file];
    assert all[..|fs|] == fs;
  }
}
