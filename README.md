# Local analysis pipeline, modelled in Dafny

This project models the local part of a code-analysis tool written in Rust.

- **File acceptance.** A file is accepted or rejected by its size and extension, and a language tag is detected from the extension.
- **Fact extraction.** A line-oriented extractor finds imports, exports, functions and classes in each file with per-language rule lists, or with generic fallback rules for other languages.
- **Graph building.** A builder turns the parsed files into a dependency graph: File, Import, Function, Class and method nodes, Contains edges from parents to children, and DependsOn edges from imports to the files whose stem they name.
- **Coordination.** The coordinator parses the files in chunks and keeps the successful results. It truncates text at character boundaries and builds the analysis context. It also summarises and filters files.
- **Reporting.** The reporter gathers findings and critical issues, orders recommendations by priority, and counts files per language and per complexity bucket. It also lists the ten largest files.

The regular-expression engine is a parameter (`SimpleParser.Matcher`): a rule applied to a line gives the capture vector or nothing. Everything the code does with the captures is modelled. File reads are a parameter too (`Analyzer.Reader`, a path to its contents or an I/O error), and so are file metadata sizes.

Modules, one file each:

| module | models |
|---|---|
| `Wrappers` | `Option` and `Result` |
| `Text` | the parts of Rust's `str` the source uses: `lines`, `trim`, `split`, `contains`, `to_lowercase` (ASCII letters only), decimal formatting |
| `Seqs` | filtering, subsequences, a stable insertion sort (`sort_by`), `take` |
| `Counting` | histograms built with `*m.entry(k).or_insert(0) += 1` and the sum of their values |
| `Paths` | `Path::file_name`, `file_stem` and `extension` on `/`-separated paths |
| `FileDiscovery` | `src/file_discovery.rs` |
| `SimpleParser` | `src/simple_parser.rs` |
| `DependencyGraph`, `GraphFacts` | `src/dependency_graph.rs`: the builder is a class over an arena of nodes and edges, with the id and path maps as fields; `GraphFacts` proves the structural facts about what it builds |
| `Analyzer` | `src/analyzer.rs` |
| `Reporter` | `src/reporter.rs`, integer and sequence parts |

Three facts about the code that the model keeps:

- The chunk size of the parallel parse is `max(1, floor(N / threads))`, rounded down.
- Node ids are not unique. Two functions of the same name in one file give two nodes with one id, and the id map keeps the later one.
- The parallel merge keeps chunk order, so the merged list is in input order.

## Model

| member | source | states |
|---|---|---|
| `FileDiscovery.ProcessFile` | src/file_discovery.rs:48-74 | a metadata error is passed on. Otherwise the file is rejected exactly when it is over the size limit or has an extension outside the configured list; a file without an extension is kept. A kept file carries its size, its lower-cased extension and the language detected from it |
| `FileDiscovery.LowerExtension` | src/file_discovery.rs:56-58 | the extension is present exactly when the path has one; it has the same length, each character lower-cased (ASCII letters only), so it has no upper-case ASCII letters |
| `FileDiscovery.Lookup` | src/file_discovery.rs:76-124 | the first table entry for an extension decides; no entry gives no language |
| `FileDiscovery.DetectLanguage` | src/file_discovery.rs:76-124 | total: a language exactly when the extension is present and listed, and then that of its first entry |
| `FileDiscovery.FilterByLanguage` | src/file_discovery.rs:126-130 | an order-preserving subsequence of the input in which every file with that language occurs as often as in the input and no other file occurs |
| `FileDiscovery.GetStats` | src/file_discovery.rs:132-145 | the file count, the total size, and the per-language histogram, whose counts add up to the number of files that have a language |
| `SimpleParser.SimpleParser.constructor` | src/simple_parser.rs:61-130 | the registry has exactly javascript, typescript, python and rust; typescript shares javascript's rules |
| `SimpleParser.SimpleParser.ParseFile` | src/simple_parser.rs:132-160 | a read error is the only failure. Otherwise the facts come from the language's rules, or from the fallback rules when the language (absent counts as "unknown") has no entry |
| `SimpleParser.SimpleParser.ExtractImports` | src/simple_parser.rs:162-178 | appends, in place, the import facts of the text: line by line, rule by rule |
| `SimpleParser.SimpleParser.ExtractExports` | src/simple_parser.rs:180-195 | appends the export facts of the text, line by line, rule by rule |
| `SimpleParser.SimpleParser.ExtractFunctions` | src/simple_parser.rs:197-231 | appends the function facts of the text, line by line, rule by rule |
| `SimpleParser.SimpleParser.ExtractClasses` | src/simple_parser.rs:233-252 | appends the class facts of the text, line by line, rule by rule |
| `SimpleParser.SimpleParser.ExtractBasicPatterns` | src/simple_parser.rs:254-303 | one pass over the lines that tries the fallback import rules, then the fallback function rules, on each line |
| `SimpleParser.ScanLine` | src/simple_parser.rs:164-175 | the loop over the rules of one line appends exactly that line's facts to what was there |
| `SimpleParser.Scan` | src/simple_parser.rs:163-176 | the loop over the lines, numbered from 1, appends exactly the text's facts |
| `SimpleParser.ScanBoth` | src/simple_parser.rs:267-300 | one loop over the lines yields the same two fact lists as two separate scans |
| `SimpleParser.Group` | src/simple_parser.rs:166 | `captures.get(i)` gives a group only when it is in the vector, and then that group |
| `SimpleParser.FactsProvenance` | src/simple_parser.rs:163-176 | every fact is what some rule yields on some line it matched |
| `SimpleParser.LineFactsProvenance` | src/simple_parser.rs:164-175 | every fact of a line comes from a rule that matched that line |
| `SimpleParser.FactsInLineOrder` | src/simple_parser.rs:163-176 | facts come in line order, and every line number is a 1-based line number of the text |
| `SimpleParser.FactsSnoc` | src/simple_parser.rs:163 | one more line adds that line's facts at the end |
| `SimpleParser.LineFactsCount` | src/simple_parser.rs:198-228 | no deduplication: a line matched by k rules yields k facts |
| `SimpleParser.FunctionsPerLine` | src/simple_parser.rs:198-228 | every matching function rule yields a function fact on that line |
| `SimpleParser.ImportsShape` | src/simple_parser.rs:164-173 | each import: the module is group 1 of a matching rule; no items; not default |
| `SimpleParser.ExportsShape` | src/simple_parser.rs:184-188 | each export: the name is the last group; default exactly when its line contains "default"; line numbers within the text |
| `SimpleParser.FunctionsShape` | src/simple_parser.rs:199-224 | each function comes from a matching rule on its line; async exactly when that line contains "async"; no return type |
| `SimpleParser.FunctionFact` | src/simple_parser.rs:201-226 | a function fact carries the line number of its line, no return type, and the substring test for "async" |
| `SimpleParser.TwoGroupNameIsParameterText` | src/simple_parser.rs:202-212 | with two groups, the name is group 2, which for a two-group rule is the parameter-list text |
| `SimpleParser.OneGroupFunction` | src/simple_parser.rs:202-218 | with one group, the name is group 1 (or "unknown") and there are no parameters |
| `SimpleParser.ClassesShape` | src/simple_parser.rs:236-246 | each class: name from group 1, base class from group 2 if it took part, no interfaces, no methods |
| `SimpleParser.BasicFunctionsShape` | src/simple_parser.rs:285-297 | each fallback function: name from group 2 or else group 1, no parameters, async by the substring test |
| `SimpleParser.ParamNameChars` | src/simple_parser.rs:308-318 | a parameter name holds only characters of its piece, and no ':' or '=' |
| `SimpleParser.ParamNameSeparators` | src/simple_parser.rs:308-318 | a parameter name has no ':' or '=' and no white space at its ends |
| `SimpleParser.ParseParameters` | src/simple_parser.rs:305-322 | at most (commas + 1) names; each non-empty, without ',', ':' or '=', without white space at its ends; "" gives [] |
| `SimpleParser.CleanParamName` | src/simple_parser.rs:308-318 | a clean name is its own parameter name |
| `SimpleParser.ParseParametersJoin` | src/simple_parser.rs:305-322 | clean names joined with commas parse back to the same names, in order |
| `SimpleParser.GetDependencies` | src/simple_parser.rs:324-328 | the module of every import, in order |
| `SimpleParser.ParseInLineOrder` | src/simple_parser.rs:162-252 | in each of the four categories, line numbers lie between 1 and the number of lines and never decrease |
| `SimpleParser.FallbackParse` | src/simple_parser.rs:254-303 | the fallback finds no exports and no classes, and its functions have no parameters |
| `SimpleParser.FallbackRouting` | src/simple_parser.rs:133-157 | with the built registry, the fallback is used exactly when the language is absent or not registered |
| `DependencyGraph.FileNodeShape` | src/dependency_graph.rs:95-117 | a File node: id "file:" + path, line 1, named by the path's file name or "unknown", with the file's size and complexity |
| `DependencyGraph.ImportNodeShape` | src/dependency_graph.rs:128-146 | an Import node: id "import:" + path + ":" + module, the import's line, named by its module, its items as parameters, no complexity |
| `DependencyGraph.FunctionNodeShape` | src/dependency_graph.rs:169-187 | a Function node: id "function:" + path + ":" + name, the function's line and name, its complexity, exported exactly when an export of the file has its name |
| `DependencyGraph.ClassNodeShape` | src/dependency_graph.rs:210-228 | a Class node: id "class:" + path + ":" + name, the class's line and name, its complexity, exported exactly when an export of the file has its name |
| `DependencyGraph.MethodNodeShape` | src/dependency_graph.rs:246-264 | a method's node: a Function node with id "method:" + path + ":" + class + ":" + method, named "Class.method", never exported, with the method's complexity |
| `DependencyGraph.IdsByKind` | src/dependency_graph.rs:95-247 | ids built by different `add_*` steps never coincide, so the id map only overwrites a node with one of the same kind |
| `DependencyGraph.FunctionComplexity` | src/dependency_graph.rs:322-324 | more than the number of parameters; exactly two more when async, one more otherwise |
| `DependencyGraph.ClassComplexity` | src/dependency_graph.rs:326-328 | at least methods + interfaces; exactly that when there is no base class, one more otherwise |
| `DependencyGraph.IsExported` | src/dependency_graph.rs:330-336 | a function or class is exported exactly when an export of the same file has its name |
| `DependencyGraph.FindImportedFile` | src/dependency_graph.rs:308-316 | a found position is a position of the file list |
| `DependencyGraph.FindImportedFileFirst` | src/dependency_graph.rs:308-316 | the file found is the first whose stem equals the module; nothing is found exactly when no stem does |
| `DependencyGraph.GraphBuilder.constructor` | src/dependency_graph.rs:74-80 | an empty graph and empty maps |
| `DependencyGraph.GraphBuilder.AddNode` | src/dependency_graph.rs:119 | appends the node at the next position and maps its id there, overwriting an earlier node with the same id |
| `DependencyGraph.GraphBuilder.AddEdge` | src/dependency_graph.rs:161 | appends one edge between existing nodes and changes nothing else |
| `DependencyGraph.GraphBuilder.AddChild` | src/dependency_graph.rs:148-161 | a node plus one Contains edge from its parent |
| `DependencyGraph.GraphBuilder.AddChildren` | src/dependency_graph.rs:126-162 | children appended in order, each with one Contains edge from the parent |
| `DependencyGraph.GraphBuilder.AddFileNode` | src/dependency_graph.rs:94-122 | the File node (line 1, file name or "unknown", size, complexity) is appended and registered by id and by path |
| `DependencyGraph.GraphBuilder.AddImports` | src/dependency_graph.rs:124-163 | one Import node per import, in order, each under the File node |
| `DependencyGraph.GraphBuilder.AddFunctions` | src/dependency_graph.rs:165-204 | one Function node per function, in order, each under the File node |
| `DependencyGraph.GraphBuilder.AddClass` | src/dependency_graph.rs:208-280 | a Class node under the File node, then one method node per method under the Class node |
| `DependencyGraph.GraphBuilder.AddClasses` | src/dependency_graph.rs:206-282 | the class blocks of every class, in order |
| `DependencyGraph.GraphBuilder.AddFileContents` | src/dependency_graph.rs:124-282 | imports, functions, then classes, with their Contains edges |
| `DependencyGraph.GraphBuilder.AddFile` | src/dependency_graph.rs:84-87 | the whole block of one file: its node, then its contents |
| `DependencyGraph.GraphBuilder.AddFiles` | src/dependency_graph.rs:83-88 | the nodes of all files, file after file; the node count is the sum of the block sizes; the id and path maps keep the last node with each key |
| `DependencyGraph.GraphBuilder.AddImportDependencies` | src/dependency_graph.rs:286-303 | the DependsOn edges of one file's imports, in import order |
| `DependencyGraph.GraphBuilder.AddCallRelationships` | src/dependency_graph.rs:284-306 | the DependsOn edges of all files, file after file; nodes and maps unchanged |
| `DependencyGraph.GraphBuilder.BuildGraph` | src/dependency_graph.rs:82-92 | all nodes and Contains edges, then the DependsOn edges |
| `DependencyGraph.GraphBuilder.AnalyzeDependencies` | src/dependency_graph.rs:346-370 | node and edge totals; per-type histograms whose counts add up to the totals; no components counted; average degree 0 without nodes |
| `DependencyGraph.GraphNodesSize` | src/dependency_graph.rs:82-92 | the node count is the sum over files of 1 + imports + functions + classes + methods |
| `DependencyGraph.ClassNodesSize` | src/dependency_graph.rs:206-282 | a file's class blocks hold one node per class and per method |
| `DependencyGraph.FileBlockSize` | src/dependency_graph.rs:94-282 | a file's block size counts every node its `add_*` calls add |
| `GraphFacts.ChildEdgesRun` | src/dependency_graph.rs:148-161 | the k-th child added under a parent gets one Contains edge, to its own position, from exactly that parent |
| `GraphFacts.ClassBlockRun` | src/dependency_graph.rs:243-279 | in a class block the Class node's edge comes from the File node and every method node's edge from that Class node, nothing else |
| `GraphFacts.ClassNodesRun` | src/dependency_graph.rs:206-282 | over all of a file's classes, each node's edge comes from the parent listed for it: the File node for a class, the class's own Class node for its methods |
| `GraphFacts.ContainsRunAppend` | src/dependency_graph.rs:124-282 | two consecutive runs with their parent lists form one run with the joined parent list |
| `GraphFacts.ClassOwner` | src/dependency_graph.rs:206-282 | each node of the class blocks lies in the block of one class j: the Class node of j hangs from the File node and the method nodes of j from the Class node of j |
| `GraphFacts.ContentRun` | src/dependency_graph.rs:124-282 | a file's Contains edges hang its content nodes, one edge each, from the parents `ContentParents` lists |
| `GraphFacts.ContentOwner` | src/dependency_graph.rs:124-282 | each import and function node hangs from the File node; every other content node lies in one class's block, whose Class node hangs from the File node and whose method nodes hang from that Class node |
| `GraphFacts.ContentParentNode` | src/dependency_graph.rs:124-282 | a content node's parent is earlier in the same block and is the File node or a Class node; no content node is a File node |
| `GraphFacts.FileOutDegree` | src/dependency_graph.rs:318-320 | a file's complexity is the number of nodes its File node directly contains (imports, functions and classes) |
| `GraphFacts.ClassOutDegree` | src/dependency_graph.rs:326-328 | a class's complexity is the number of method nodes its Class node contains, plus one per implemented interface and one for a base class |
| `GraphFacts.EdgeParent` | src/dependency_graph.rs:82-92 | Contains edge i of the graph is a Contains edge into the k-th content node of one file, from that node's parent |
| `GraphFacts.EdgeForward` | src/dependency_graph.rs:82-92 | every Contains edge goes from an earlier node to a later node of the graph |
| `GraphFacts.EdgeSourceNode` | src/dependency_graph.rs:82-92 | every Contains edge comes from a File or Class node |
| `GraphFacts.EdgeWithinBlock` | src/dependency_graph.rs:82-92 | no File node lies after a Contains edge's source up to its target, so both are in one file's block |
| `GraphFacts.BlockInnerNode` | src/dependency_graph.rs:94-282 | every node of a file's block after its File node is not a File node |
| `GraphFacts.BlockInnerEdge` | src/dependency_graph.rs:124-282 | every node of a file's block after its File node is the target of a Contains edge |
| `GraphFacts.GraphContainsCover` | src/dependency_graph.rs:82-92 | every node that is not a File node is the target of a Contains edge |
| `GraphFacts.GraphTargetsIncrease` | src/dependency_graph.rs:82-92 | the Contains edges come in strictly increasing order of their targets, so no two share a target |
| `GraphFacts.GraphContainsTree` | src/dependency_graph.rs:82-92 | the nodes and Contains edges of the first n files form a forest rooted at the File nodes |
| `GraphFacts.TreeExactlyOne` | src/dependency_graph.rs:82-92 | in such a forest no File node has an incoming edge and every other node has exactly one |
| `GraphFacts.BuiltContainsTree` | src/dependency_graph.rs:82-92 | of the edges a fresh builder makes, the DependsOn ones are separate; no File node has an incoming Contains edge, every other node has exactly one, from a File or Class node earlier in the same file's block |
| `GraphFacts.GraphFileNode` | src/dependency_graph.rs:94-122 | a file's File node is at the start of its block |
| `GraphFacts.GraphImportNode` | src/dependency_graph.rs:127-149 | the k-th import node of a file follows its File node |
| `GraphFacts.IdIndexFromLast` | src/dependency_graph.rs:119 | an id maps to the last node that has it |
| `GraphFacts.IdIndexFromOthers` | src/dependency_graph.rs:119 | other ids keep their earlier entries |
| `GraphFacts.IdIndexFromHas` | src/dependency_graph.rs:119 | every added node's id is in the id map |
| `GraphFacts.FileNodeIndexAt` | src/dependency_graph.rs:120 | a path maps to the File node of the last file with that path |
| `GraphFacts.FileNodeIndexNamesFile` | src/dependency_graph.rs:120 | the path map points at a File node of that path |
| `GraphFacts.ImportIndexed` | src/dependency_graph.rs:128-148 | every import id is in the id map after all files |
| `GraphFacts.ImportDependencyCases` | src/dependency_graph.rs:286-303 | an import gives at most one DependsOn edge, one exactly when some file's stem equals its module, running from the node under the import's id to the File node of the first such file |
| `GraphFacts.BuiltMapsCover` | src/dependency_graph.rs:82-92 | after the first pass every import id and every path is registered, so the second pass finds them |
| `Analyzer.ChunkSize` | src/analyzer.rs:67 | 1 when there are fewer files than threads; otherwise the floor of files over threads (`r * threads <= files < (r + 1) * threads`) |
| `Analyzer.ChunksPartition` | src/analyzer.rs:69-70 | the chunks are contiguous and cover the input in order; each holds 1 to size files, all but the last exactly size |
| `Analyzer.ParseFilesParallel` | src/analyzer.rs:66-93 | chunk by chunk, with a fresh parser per chunk, merged in chunk order: the parse results of the files that parsed, in input order |
| `Analyzer.KeptIsFilterMap` | src/analyzer.rs:75-92 | the kept results correspond one to one, in order, to the inputs whose attempt succeeds |
| `Analyzer.KeptAppend` | src/analyzer.rs:89-92 | merging per-chunk results is keeping over the concatenation |
| `Analyzer.ParsedExactly` | src/analyzer.rs:75-92 | the merged results are exactly the parses of the readable files, one each, in order |
| `Analyzer.UnreadableDropped` | src/analyzer.rs:76-83 | an unreadable file is dropped and changes nothing for the files around it |
| `Analyzer.SliceAtBoundary` | src/analyzer.rs:222-225 | slicing at the byte index of a character boundary gives that many characters |
| `Analyzer.ByteIndexStep` | src/analyzer.rs:213-219 | a character advances the byte index by its UTF-8 width |
| `Analyzer.Truncated` | src/analyzer.rs:208-227 | a prefix of the text; the whole text when short enough, otherwise exactly the limit's number of characters |
| `Analyzer.SafeTruncate` | src/analyzer.rs:208-227 | the loop over byte offsets returns exactly that prefix and never slices inside a character |
| `Analyzer.DocSummary` | src/analyzer.rs:240-245 | the content itself up to 500 characters; beyond, its first 500 characters and a suffix |
| `Analyzer.DocContent` | src/analyzer.rs:250-261 | whole up to 8000 characters; beyond, the first 4000, a marker and the last 2000, shorter than the content |
| `Analyzer.DecimalLength` | src/analyzer.rs:253-258 | the marker's number has a bounded number of digits |
| `Analyzer.ExtractDocumentation` | src/analyzer.rs:229-275 | one context per documentation file that can be read, in order, with its summary and content |
| `Analyzer.FileContexts` | src/analyzer.rs:156-166 | one context per parsed file, in order, with the names of its functions and classes and the modules of its imports, in order |
| `Analyzer.DependencyContextsAt` | src/analyzer.rs:168-177 | the k-th import of the i-th file gives an "import" context from that file's path to its module, at its place in file order |
| `Analyzer.DependencyContextsSize` | src/analyzer.rs:168-177 | one dependency context per import across all files |
| `Analyzer.CreateAnalysisContext` | src/analyzer.rs:150-206 | the file and dependency contexts; the project name is the directory's last component or "unknown"; total lines is the total size divided by 50; the languages are exactly those some file has |
| `Analyzer.LanguageCounts` | src/analyzer.rs:179-184 | the histogram of the files that have a language |
| `Analyzer.LanguagesOfMember` | src/analyzer.rs:179-194 | a language is counted exactly when some file has it |
| `Analyzer.GetFileSummary` | src/analyzer.rs:402-419 | the file count, the total size, and language and extension histograms whose counts add up to the files that have a language or an extension |
| `Analyzer.FilterFilesByCriteria` | src/analyzer.rs:421-449 | an order-preserving subsequence of the input in which every file meeting every present criterion occurs as often as in the input and no other file occurs |
| `Analyzer.NoCriteriaKeepsAll` | src/analyzer.rs:421-449 | without criteria every file is kept |
| `Reporter.CreateExecutiveSummary` | src/reporter.rs:172-205 | all insight titles and the titles of High or Critical recommendations, in order; the first analysis's text or "No LLM analysis available"; style "Unknown" |
| `Reporter.KeyFindingsMember` | src/reporter.rs:176-180 | a key finding is exactly the title of some insight |
| `Reporter.UrgentTitlesMember` | src/reporter.rs:181-186 | of one response, exactly the titles of its High or Critical recommendations |
| `Reporter.CriticalIssuesMember` | src/reporter.rs:176-186 | a critical issue is exactly the title of a High or Critical recommendation of some response |
| `Reporter.PrioritizeRecommendations` | src/reporter.rs:274-304 | one entry per recommendation of every response, then a stable sort by rank |
| `Reporter.PrioritizedOrder` | src/reporter.rs:277-301 | a permutation of all recommendations, ordered Critical, High, Medium, Low, in input order within a rank; every entry has category "General" and no affected files |
| `Reporter.CollectedEntries` | src/reporter.rs:279-288 | every collected entry has category "General" and no affected files |
| `Reporter.CalculateComplexityDistribution` | src/reporter.rs:330-354 | four buckets with their labels, each counting the files whose functions + 2 × classes falls in its range |
| `Reporter.BucketsCoverAll` | src/reporter.rs:336-346 | every file is in exactly one bucket, so the counts add up to the number of parsed files |
| `Reporter.CountFile` | src/reporter.rs:211-216 | one file adds one to its language's count and its size to the language's total |
| `Reporter.LanguageBreakdown` | src/reporter.rs:210-228 | one entry per language some file has, with its file count and total size; files without a language are left out |
| `Reporter.LanguageBreakdownCounts` | src/reporter.rs:210-228 | the per-language counts add up to the number of files that have a language |
| `Reporter.LargestFilesTop` | src/reporter.rs:230-243 | at most ten entries, drawn from the parsed files, by non-increasing size, and no file left out is larger than one kept |
| `Reporter.CreateFileAnalysisReport` | src/reporter.rs:207-258 | the file count and total size with empty histograms, the language breakdown, the ten largest files and the complexity buckets |
| `Reporter.CreateDependencyAnalysisReport` | src/reporter.rs:260-272 | the graph metrics as they are; no cycles, coupled or orphaned files; depth 0 |

## Left out

- Regular expressions: the engine is the `Matcher` parameter. The rule texts are kept as data, but what they match is not modelled.
- File system: directory walking (`discover_files`), metadata, `read_to_string` of sources and documentation, and report writing (`export_report`). Reads and sizes are parameters. The model reads a path the same way every time.
- Concurrency: rayon's parallel chunks are run one after the other in chunk order, which is the order the merge keeps.
- Floating point: edge strength, `avg_degree` (kept only as an exact rational with its zero case), percentages, average sizes, the complexity and maintainability scores and confidences. The complexity distribution's percentages also divide by zero on an empty file list.
- `src/llm.rs`: HTTP clients, prompts and JSON parsing. Only its data types (`Insight`, `Recommendation`, `AnalysisResponse`, `Priority`, `Effort`, `Impact`) are modelled.
- HTML and Markdown rendering and the text-extraction helpers of `src/reporter.rs`; `create_metadata`, which reads the clock and the environment.
- `src/config.rs`, `src/main.rs`, `src/lib.rs` and the example configuration.
- Hash-map iteration order: the project's language list is a set, and the report's language breakdown is a map keyed by language.
- Integer widths: `usize` and `u64` are unbounded here. The source has no arithmetic that can overflow on realistic inputs.
- Paths are `/`-separated strings. Platform-specific path rules are not modelled.
- `FileDiscovery.LowerExtension`: only ASCII letters are lower-cased. Rust's `to_lowercase` maps all of Unicode, so an extension written with, say, the Kelvin sign (U+212A) followed by `t` becomes `kt` in the source but keeps its first character here. Unicode case tables are not modelled.
- `FileDiscovery.ProcessFile`: inherits the ASCII-only lower-casing of `LowerExtension`, so for an extension with non-ASCII capitals the model can reject a file, or detect no language, where the source accepts it.
- `FileDiscovery.DetectLanguage`: the table is proved to decide by its first entry, but no lemma evaluates individual extensions such as `tsx`.
- Classes as the parser produces them never have methods. The graph's method branch is modelled for hand-built inputs.
- `Reporter.PrioritizeRecommendations`: the in-place `sort_by` is modelled on values by a stable insertion sort. Both sorts are stable, so their results are the same.
