/** The report's integer and sequence parts (src/reporter.rs): the executive
    summary's lists, the per-file counts and the largest files, the
    complexity buckets, the dependency report and the ordering of
    recommendations. Scores, percentages and averages are floating point and
    not modelled. */
module Reporter {
  import opened Wrappers
  import Seqs
  import Counting
  import FD = FileDiscovery
  import SP = SimpleParser
  import DG = DependencyGraph
  import Analyzer

  /** `Priority`. */
  datatype Priority = Low | Medium | High | Critical

  /** `Effort` and `Impact`, which have the same three variants. */
  datatype Level = Low | Medium | High

  /** `InsightCategory`. */
  datatype InsightCategory = Architecture | CodeQuality | Performance | Security | Maintainability | Testing

  /** `Insight`, without its floating-point confidence. */
  datatype Insight = Insight(title: string, description: string, category: InsightCategory, evidence: seq<string>)

  /** `Recommendation`. */
  datatype Recommendation = Recommendation(
    title: string, description: string, priority: Priority, effort: Level, impact: Level, actionItems: seq<string>)

  /** `AnalysisResponse`, without its floating-point confidence. */
  datatype AnalysisResponse = AnalysisResponse(analysis: string, insights: seq<Insight>, recommendations: seq<Recommendation>)

  /** `ProjectAnalysis`. */
  datatype ProjectAnalysis = ProjectAnalysis(
    files: seq<FD.FileInfo>, parsedFiles: seq<SP.ParsedFile>, dependencyAnalysis: DG.DependencyAnalysis,
    llmAnalysis: seq<AnalysisResponse>)

  // ---------------------------------------------------------------------
  // create_executive_summary

  /** `ExecutiveSummary`, without its two floating-point scores. */
  datatype ExecutiveSummary = ExecutiveSummary(
    overview: string, keyFindings: seq<string>, criticalIssues: seq<string>, architectureStyle: string)

  /** A recommendation the summary lists as a critical issue. */
  predicate IsUrgent(rec: Recommendation) {
    rec.priority == Priority.High || rec.priority == Priority.Critical
  }

  /** The titles of `insights`, in order. */
  function InsightTitles(insights: seq<Insight>): seq<string> {
    seq(|insights|, k requires 0 <= k < |insights| => insights[k].title)
  }

  /** The key findings of the responses `rs`: their insights' titles,
      response after response. */
  function KeyFindings(rs: seq<AnalysisResponse>): seq<string> {
    if |rs| == 0 then [] else KeyFindings(rs[..|rs| - 1]) + InsightTitles(rs[|rs| - 1].insights)
  }

  /** The titles of the urgent recommendations among `recs`, in order. */
  function UrgentTitles(recs: seq<Recommendation>): seq<string> {
    if |recs| == 0 then []
    else UrgentTitles(recs[..|recs| - 1]) + if IsUrgent(recs[|recs| - 1]) then [recs[|recs| - 1].title] else []
  }

  /** The critical issues of the responses `rs`, response after response. */
  function CriticalIssues(rs: seq<AnalysisResponse>): seq<string> {
    if |rs| == 0 then [] else CriticalIssues(rs[..|rs| - 1]) + UrgentTitles(rs[|rs| - 1].recommendations)
  }

  /** `create_executive_summary`: the first response's text as overview (or
      a fixed text without responses), every insight title, and the title of
      every High or Critical recommendation. */
  method CreateExecutiveSummary(analysis: ProjectAnalysis) returns (summary: ExecutiveSummary)
    ensures summary.keyFindings == KeyFindings(analysis.llmAnalysis)
    ensures summary.criticalIssues == CriticalIssues(analysis.llmAnalysis)
    ensures summary.overview ==
      if |analysis.llmAnalysis| > 0 then analysis.llmAnalysis[0].analysis else "No LLM analysis available"
    ensures summary.architectureStyle == "Unknown"
  {
    var rs := analysis.llmAnalysis;
    var keyFindings: seq<string> := [];
    var criticalIssues: seq<string> := [];
    for i := 0 to |rs|
      invariant keyFindings == KeyFindings(rs[..i])
      invariant criticalIssues == CriticalIssues(rs[..i])
    {
      var response := rs[i];
      assert rs[..i + 1][..i] == rs[..i];
      for j := 0 to |response.insights|
        invariant keyFindings == KeyFindings(rs[..i]) + InsightTitles(response.insights[..j])
      {
        assert InsightTitles(response.insights[..j + 1])
          == InsightTitles(response.insights[..j]) + [response.insights[j].title];
        keyFindings := keyFindings + [response.insights[j].title];
      }
      assert response.insights[..|response.insights|] == response.insights;
      for j := 0 to |response.recommendations|
        invariant criticalIssues == CriticalIssues(rs[..i]) + UrgentTitles(response.recommendations[..j])
      {
        var rec := response.recommendations[j];
        assert response.recommendations[..j + 1][..j] == response.recommendations[..j];
        if rec.priority == Priority.High || rec.priority == Priority.Critical {
          criticalIssues := criticalIssues + [rec.title];
        }
      }
      assert response.recommendations[..|response.recommendations|] == response.recommendations;
    }
    assert rs[..|rs|] == rs;
    var overview := if |rs| > 0 then rs[0].analysis else "No LLM analysis available";
    summary := ExecutiveSummary(overview, keyFindings, criticalIssues, "Unknown");
  }

  /** A key finding is exactly the title of an insight of some response. */
  lemma {:induction false} KeyFindingsMember(rs: seq<AnalysisResponse>, x: string)
    ensures x in KeyFindings(rs) <==>
      exists i, k :: 0 <= i < |rs| && 0 <= k < |rs[i].insights| && rs[i].insights[k].title == x
  {
    if |rs| > 0 {
      var init, last := rs[..|rs| - 1], rs[|rs| - 1];
      KeyFindingsMember(init, x);
      if x in KeyFindings(rs) {
        if x in KeyFindings(init) {
          var i, k :| 0 <= i < |init| && 0 <= k < |init[i].insights| && init[i].insights[k].title == x;
          assert rs[i] == init[i];
        } else {
          var k :| 0 <= k < |last.insights| && InsightTitles(last.insights)[k] == x;
          assert rs[|rs| - 1].insights[k].title == x;
        }
      }
      if exists i, k :: 0 <= i < |rs| && 0 <= k < |rs[i].insights| && rs[i].insights[k].title == x {
        var i, k :| 0 <= i < |rs| && 0 <= k < |rs[i].insights| && rs[i].insights[k].title == x;
        if i < |rs| - 1 {
          assert init[i] == rs[i];
        } else {
          assert InsightTitles(last.insights)[k] == x;
        }
      }
    }
  }

  /** An urgent title is exactly the title of an urgent recommendation. */
  lemma {:induction false} UrgentTitlesMember(recs: seq<Recommendation>, x: string)
    ensures x in UrgentTitles(recs) <==> exists k :: 0 <= k < |recs| && IsUrgent(recs[k]) && recs[k].title == x
  {
    if |recs| > 0 {
      var init := recs[..|recs| - 1];
      UrgentTitlesMember(init, x);
      if exists k :: 0 <= k < |init| && IsUrgent(init[k]) && init[k].title == x {
        var k :| 0 <= k < |init| && IsUrgent(init[k]) && init[k].title == x;
        assert recs[k] == init[k];
      }
      if exists k :: 0 <= k < |recs| && IsUrgent(recs[k]) && recs[k].title == x {
        var k :| 0 <= k < |recs| && IsUrgent(recs[k]) && recs[k].title == x;
        if k < |recs| - 1 {
          assert init[k] == recs[k];
        }
      }
    }
  }

  /** Some High or Critical recommendation of `r` has the title `x`. */
  ghost predicate RaisesUrgent(r: AnalysisResponse, x: string) {
    exists k :: 0 <= k < |r.recommendations| && IsUrgent(r.recommendations[k]) && r.recommendations[k].title == x
  }

  /** A critical issue is exactly the title of a High or Critical
      recommendation of some response. */
  lemma {:induction false} CriticalIssuesMember(rs: seq<AnalysisResponse>, x: string)
    ensures x in CriticalIssues(rs) <==> exists i :: 0 <= i < |rs| && RaisesUrgent(rs[i], x)
  {
    if |rs| > 0 {
      var init, last := rs[..|rs| - 1], rs[|rs| - 1];
      CriticalIssuesMember(init, x);
      UrgentTitlesMember(last.recommendations, x);
      assert x in UrgentTitles(last.recommendations) <==> RaisesUrgent(last, x);
      if exists i :: 0 <= i < |init| && RaisesUrgent(init[i], x) {
        var i :| 0 <= i < |init| && RaisesUrgent(init[i], x);
        assert rs[i] == init[i];
      }
      if exists i :: 0 <= i < |rs| && RaisesUrgent(rs[i], x) {
        var i :| 0 <= i < |rs| && RaisesUrgent(rs[i], x);
        if i < |rs| - 1 {
          assert init[i] == rs[i];
        }
      }
    }
  }

  // ---------------------------------------------------------------------
  // prioritize_recommendations

  /** `PrioritizedRecommendation`. */
  datatype PrioritizedRecommendation = PrioritizedRecommendation(
    title: string, description: string, priority: Priority, category: string,
    estimatedEffort: string, potentialImpact: string, actionItems: seq<string>, affectedFiles: seq<string>)

  /** The `Debug` name of a level, as `format!` prints it. */
  function LevelName(l: Level): string {
    match l
    case Low => "Low"
    case Medium => "Medium"
    case High => "High"
  }

  /** The entry made from one recommendation. */
  function Prioritized(rec: Recommendation): PrioritizedRecommendation {
    PrioritizedRecommendation(rec.title, rec.description, rec.priority, "General",
      LevelName(rec.effort), LevelName(rec.impact), rec.actionItems, [])
  }

  /** The entries made from `recs`, in order. */
  function PrioritizedAll(recs: seq<Recommendation>): seq<PrioritizedRecommendation> {
    seq(|recs|, k requires 0 <= k < |recs| => Prioritized(recs[k]))
  }

  /** The entries of all responses' recommendations, response after response,
      before sorting. */
  function Collected(rs: seq<AnalysisResponse>): seq<PrioritizedRecommendation> {
    if |rs| == 0 then [] else Collected(rs[..|rs| - 1]) + PrioritizedAll(rs[|rs| - 1].recommendations)
  }

  /** The order the sort uses: Critical first, then High, Medium, Low. */
  function Rank(p: PrioritizedRecommendation): int {
    match p.priority
    case Critical => 0
    case High => 1
    case Medium => 2
    case Low => 3
  }

  /** `prioritize_recommendations`: one entry per recommendation of every
      response, then a stable sort by rank. */
  method PrioritizeRecommendations(analysis: ProjectAnalysis) returns (r: seq<PrioritizedRecommendation>)
    ensures r == Seqs.SortBy(Collected(analysis.llmAnalysis), Rank)
  {
    var rs := analysis.llmAnalysis;
    var recommendations: seq<PrioritizedRecommendation> := [];
    for i := 0 to |rs|
      invariant recommendations == Collected(rs[..i])
    {
      var recs := rs[i].recommendations;
      assert rs[..i + 1][..i] == rs[..i];
      for j := 0 to |recs|
        invariant recommendations == Collected(rs[..i]) + PrioritizedAll(recs[..j])
      {
        assert PrioritizedAll(recs[..j + 1]) == PrioritizedAll(recs[..j]) + [Prioritized(recs[j])];
        recommendations := recommendations + [Prioritized(recs[j])];
      }
      assert recs[..|recs|] == recs;
    }
    assert rs[..|rs|] == rs;
    r := Seqs.SortBy(recommendations, Rank);
  }

  /** The prioritized list is a permutation of the collected entries, ordered
      by rank, keeps the input order among entries of equal rank, and every
      entry has category "General" and no affected files. */
  lemma PrioritizedOrder(rs: seq<AnalysisResponse>)
    ensures multiset(Seqs.SortBy(Collected(rs), Rank)) == multiset(Collected(rs))
    ensures forall i, j :: 0 <= i < j < |Seqs.SortBy(Collected(rs), Rank)| ==>
      Rank(Seqs.SortBy(Collected(rs), Rank)[i]) <= Rank(Seqs.SortBy(Collected(rs), Rank)[j])
    ensures forall v :: Seqs.WithKey(Seqs.SortBy(Collected(rs), Rank), Rank, v) == Seqs.WithKey(Collected(rs), Rank, v)
    ensures forall k :: 0 <= k < |Seqs.SortBy(Collected(rs), Rank)| ==>
      Seqs.SortBy(Collected(rs), Rank)[k].category == "General" && Seqs.SortBy(Collected(rs), Rank)[k].affectedFiles == []
  {
    var c := Collected(rs);
    var sorted := Seqs.SortBy(c, Rank);
    forall v ensures Seqs.WithKey(sorted, Rank, v) == Seqs.WithKey(c, Rank, v) {
      Seqs.SortByStable(c, Rank, v);
    }
    forall k | 0 <= k < |sorted| ensures sorted[k].category == "General" && sorted[k].affectedFiles == [] {
      assert sorted[k] in multiset(c);
      CollectedEntries(rs, sorted[k]);
    }
  }

  /** Every collected entry is made from some recommendation. */
  lemma {:induction false} CollectedEntries(rs: seq<AnalysisResponse>, p: PrioritizedRecommendation)
    requires p in Collected(rs)
    ensures p.category == "General" && p.affectedFiles == []
  {
    var init := rs[..|rs| - 1];
    if p in Collected(init) {
      CollectedEntries(init, p);
    }
  }

  // ---------------------------------------------------------------------
  // calculate_complexity_distribution

  /** The complexity the report gives a parsed file. */
  function ReportComplexity(pf: SP.ParsedFile): nat {
    |pf.functions| + |pf.classes| * 2
  }

  /** The bucket a complexity falls into: 0-5, 6-15, 16-30 or 31 and more. */
  function BucketOf(complexity: nat): nat {
    if complexity <= 5 then 0 else if complexity <= 15 then 1 else if complexity <= 30 then 2 else 3
  }

  /** The labels of the four buckets. */
  const BucketRanges: seq<string> := ["0-5", "6-15", "16-30", "31+"]

  /** The number of the files among `parsed` in bucket `b`. */
  function BucketCount(parsed: seq<SP.ParsedFile>, b: nat): nat {
    if |parsed| == 0 then 0
    else BucketCount(parsed[..|parsed| - 1], b) + if BucketOf(ReportComplexity(parsed[|parsed| - 1])) == b then 1 else 0
  }

  /** `ComplexityBucket`, without its floating-point percentage. */
  datatype ComplexityBucket = ComplexityBucket(range: string, count: nat)

  /** `calculate_complexity_distribution`: the four buckets with the number of
      files in each. */
  method CalculateComplexityDistribution(parsed: seq<SP.ParsedFile>) returns (buckets: seq<ComplexityBucket>)
    ensures |buckets| == 4
    ensures forall b :: 0 <= b < 4 ==> buckets[b] == ComplexityBucket(BucketRanges[b], BucketCount(parsed, b))
  {
    buckets := [ComplexityBucket("0-5", 0), ComplexityBucket("6-15", 0),
                ComplexityBucket("16-30", 0), ComplexityBucket("31+", 0)];
    for i := 0 to |parsed|
      invariant |buckets| == 4
      invariant forall b :: 0 <= b < 4 ==> buckets[b] == ComplexityBucket(BucketRanges[b], BucketCount(parsed[..i], b))
    {
      var complexity := |parsed[i].functions| + |parsed[i].classes| * 2;
      assert parsed[..i + 1][..i] == parsed[..i];
      var b := if complexity <= 5 then 0 else if complexity <= 15 then 1 else if complexity <= 30 then 2 else 3;
      buckets := buckets[b := buckets[b].(count := buckets[b].count + 1)];
    }
    assert parsed[..|parsed|] == parsed;
  }

  /** Every file is in exactly one bucket, so the counts add up to the
      number of files. */
  lemma {:induction false} BucketsCoverAll(parsed: seq<SP.ParsedFile>)
    ensures BucketCount(parsed, 0) + BucketCount(parsed, 1) + BucketCount(parsed, 2) + BucketCount(parsed, 3) == |parsed|
  {
    if |parsed| > 0 {
      BucketsCoverAll(parsed[..|parsed| - 1]);
    }
  }

  // ---------------------------------------------------------------------
  // create_file_analysis_report

  /** `LanguageStats`, without its floating-point average and percentage. */
  datatype LanguageStats = LanguageStats(language: string, fileCount: nat, totalSize: nat)

  /** `FileStats` of the report. */
  datatype FileStats = FileStats(path: string, size: nat, language: string, functions: nat, classes: nat, complexity: nat)

  /** `FileAnalysisReport`. The language breakdown is collected from a hash
      map, in an order the source leaves unspecified, so it is a map from
      each language to its entry here. */
  datatype FileAnalysisReport = FileAnalysisReport(
    summary: Analyzer.FileSummary, languageBreakdown: map<string, LanguageStats>,
    largestFiles: seq<FileStats>, complexityDistribution: seq<ComplexityBucket>)

  /** The total size of the files whose language is `l`. */
  function LanguageSize(files: seq<FD.FileInfo>, l: string): nat {
    if |files| == 0 then 0
    else LanguageSize(files[..|files| - 1], l) + if files[|files| - 1].language == Some(l) then files[|files| - 1].size else 0
  }

  /** `stats` holds, for each language some file of `fs` has, the number of
      those files and their total size, and nothing else. */
  ghost predicate StatsOf(stats: map<string, (nat, nat)>, fs: seq<FD.FileInfo>) {
    && (forall l :: l in stats <==> l in Counting.Tally(FD.LanguagesOf(fs)))
    && (forall l :: l in stats ==> stats[l] == (Counting.Tally(FD.LanguagesOf(fs))[l], LanguageSize(fs, l)))
    && (forall l :: l !in stats ==> LanguageSize(fs, l) == 0)
  }

  /** One step of the loop: the file's language, if it has one, gains one
      file and the file's size. */
  method CountFile(stats: map<string, (nat, nat)>, ghost fs: seq<FD.FileInfo>, file: FD.FileInfo)
    returns (next: map<string, (nat, nat)>)
    requires StatsOf(stats, fs)
    ensures StatsOf(next, fs + [file])
  {
    FD.LanguagesSnoc(fs, file);
    LanguageSizeSnoc(fs, file);
    ghost var before, all := FD.LanguagesOf(fs), fs + [file];
    if file.language.Some? {
      var lang := file.language.value;
      assert FD.LanguagesOf(all) == before + [lang];
      Counting.TallySnoc(before, lang);
      var entry := if lang in stats then stats[lang] else (0, 0);
      next := stats[lang := (entry.0 + 1, entry.1 + file.size)];
      ghost var counted, tally := Counting.Tally(before), Counting.Tally(FD.LanguagesOf(all));
      assert tally == Counting.Bump(counted, lang);
      forall l ensures l in next <==> l in tally {
      }
      forall l | l in next ensures next[l] == (tally[l], LanguageSize(all, l)) {
        if l != lang {
          assert next[l] == stats[l];
        }
      }
    } else {
      assert FD.LanguagesOf(all) == before;
      next := stats;
    }
  }

  /** Appending a file adds its size to its own language and to no other. */
  lemma LanguageSizeSnoc(fs: seq<FD.FileInfo>, file: FD.FileInfo)
    ensures forall l :: LanguageSize(fs + [file], l) == LanguageSize(fs, l) + if file.language == Some(l) then file.size else 0
  {
    var all := fs + [file];
    assert all[..|fs|] == fs;
  }

  /** The loop of `create_file_analysis_report` over the files and the map to
      `LanguageStats` after it: one entry per language some file has, with
      the number of files of that language and their total size. */
  method LanguageBreakdown(files: seq<FD.FileInfo>) returns (breakdown: map<string, LanguageStats>)
    ensures forall l :: l in breakdown <==> l in Counting.Tally(FD.LanguagesOf(files))
    ensures forall l :: l in breakdown ==>
      breakdown[l] == LanguageStats(l, Counting.Tally(FD.LanguagesOf(files))[l], LanguageSize(files, l))
  {
    var stats: map<string, (nat, nat)> := map[];
    for i := 0 to |files|
      invariant StatsOf(stats, files[..i])
    {
      assert files[..i + 1] == files[..i] + [files[i]];
      stats := CountFile(stats, files[..i], files[i]);
    }
    assert files[..|files|] == files;
    breakdown := map l | l in stats :: LanguageStats(l, stats[l].0, stats[l].1);
  }

  /** The per-language file counts add up to the number of files that have a
      language. */
  lemma LanguageBreakdownCounts(files: seq<FD.FileInfo>)
    ensures Counting.SumValues(Counting.Tally(FD.LanguagesOf(files))) == |FD.LanguagesOf(files)|
  {
    Counting.TallySum(FD.LanguagesOf(files));
  }

  /** The report entry of one parsed file. */
  function FileStatsOf(pf: SP.ParsedFile): FileStats {
    FileStats(pf.fileInfo.path, pf.fileInfo.size, pf.fileInfo.language.GetOr("unknown"),
      |pf.functions|, |pf.classes|, ReportComplexity(pf))
  }

  /** The entries of all parsed files, in order. */
  function AllFileStats(parsed: seq<SP.ParsedFile>): seq<FileStats> {
    seq(|parsed|, k requires 0 <= k < |parsed| => FileStatsOf(parsed[k]))
  }

  /** The sort key of `sort_by(|a, b| b.size.cmp(&a.size))`: larger first. */
  function SizeDescending(s: FileStats): int {
    -(s.size as int)
  }

  /** The ten largest files (fewer when there are fewer files). */
  function LargestFiles(parsed: seq<SP.ParsedFile>): seq<FileStats> {
    Seqs.Take(Seqs.SortBy(AllFileStats(parsed), SizeDescending), 10)
  }

  /** At most ten entries, each the entry of a parsed file, in order of
      non-increasing size, and no file left out is larger than any kept. */
  lemma LargestFilesTop(parsed: seq<SP.ParsedFile>)
    ensures |LargestFiles(parsed)| == if |parsed| < 10 then |parsed| else 10
    ensures multiset(LargestFiles(parsed)) <= multiset(AllFileStats(parsed))
    ensures forall i, j :: 0 <= i < j < |LargestFiles(parsed)| ==> LargestFiles(parsed)[i].size >= LargestFiles(parsed)[j].size
    ensures forall s, k :: s in AllFileStats(parsed) && s !in LargestFiles(parsed) && 0 <= k < |LargestFiles(parsed)| ==>
      s.size <= LargestFiles(parsed)[k].size
  {
    var all := AllFileStats(parsed);
    var sorted := Seqs.SortBy(all, SizeDescending);
    var r := LargestFiles(parsed);
    assert r == sorted[..|r|];
    assert sorted == r + sorted[|r|..];
    assert multiset(sorted) == multiset(r) + multiset(sorted[|r|..]);
    forall i, j | 0 <= i < j < |r| ensures r[i].size >= r[j].size {
      assert SizeDescending(sorted[i]) <= SizeDescending(sorted[j]);
    }
    forall s, k | s in all && s !in r && 0 <= k < |r| ensures s.size <= r[k].size {
      assert s in multiset(sorted);
      var j :| 0 <= j < |sorted| && sorted[j] == s;
      assert SizeDescending(sorted[k]) <= SizeDescending(sorted[j]);
    }
  }

  /** `create_file_analysis_report`: the file count and total size (its
      histograms are left empty), the language breakdown, the ten largest
      parsed files and the complexity buckets. */
  method CreateFileAnalysisReport(analysis: ProjectAnalysis) returns (report: FileAnalysisReport)
    ensures report.summary == Analyzer.FileSummary(|analysis.files|, FD.TotalSize(analysis.files), map[], map[])
    ensures forall l :: l in report.languageBreakdown <==> l in Counting.Tally(FD.LanguagesOf(analysis.files))
    ensures forall l :: l in report.languageBreakdown ==>
      report.languageBreakdown[l]
        == LanguageStats(l, Counting.Tally(FD.LanguagesOf(analysis.files))[l], LanguageSize(analysis.files, l))
    ensures report.largestFiles == LargestFiles(analysis.parsedFiles)
    ensures |report.complexityDistribution| == 4
    ensures forall b :: 0 <= b < 4 ==>
      report.complexityDistribution[b] == ComplexityBucket(BucketRanges[b], BucketCount(analysis.parsedFiles, b))
  {
    var breakdown := LanguageBreakdown(analysis.files);
    var fileStats := AllFileStats(analysis.parsedFiles);
    var sorted := Seqs.SortBy(fileStats, SizeDescending);
    var largest := Seqs.Take(sorted, 10);
    var distribution := CalculateComplexityDistribution(analysis.parsedFiles);
    var summary := Analyzer.FileSummary(|analysis.files|, FD.TotalSize(analysis.files), map[], map[]);
    report := FileAnalysisReport(summary, breakdown, largest, distribution);
  }

  // ---------------------------------------------------------------------
  // create_dependency_analysis_report

  /** `CircularDependency`. */
  datatype CircularDependency = CircularDependency(files: seq<string>, severity: string)

  /** `CouplingInfo`, without its floating-point score. */
  datatype CouplingInfo = CouplingInfo(file: string, incomingDependencies: nat, outgoingDependencies: nat)

  /** `DepthBucket`. */
  datatype DepthBucket = DepthBucket(depth: nat, count: nat)

  /** `DependencyDepthInfo`, without its floating-point average. */
  datatype DependencyDepthInfo = DependencyDepthInfo(maxDepth: nat, depthDistribution: seq<DepthBucket>)

  /** `DependencyAnalysisReport`. */
  datatype DependencyAnalysisReport = DependencyAnalysisReport(
    graphMetrics: DG.DependencyAnalysis, circularDependencies: seq<CircularDependency>,
    highlyCoupledFiles: seq<CouplingInfo>, orphanedFiles: seq<string>, dependencyDepth: DependencyDepthInfo)

  /** `create_dependency_analysis_report`: the graph's metrics as they are;
      cycle, coupling, orphan and depth detection are not implemented, so
      those parts are empty and the depth is 0. */
  function CreateDependencyAnalysisReport(analysis: ProjectAnalysis): (r: DependencyAnalysisReport)
    ensures r.graphMetrics == analysis.dependencyAnalysis
    ensures r.circularDependencies == [] && r.highlyCoupledFiles == [] && r.orphanedFiles == []
    ensures r.dependencyDepth.maxDepth == 0 && r.dependencyDepth.depthDistribution == []
  {
    DependencyAnalysisReport(analysis.dependencyAnalysis, [], [], [], DependencyDepthInfo(0, []))
  }
}
