/** What the graph `build_graph` produces looks like: the Contains tree of
    each file, the nodes at the positions the maps record, and which imports
    get a DependsOn edge. */
module GraphFacts {
  import opened Wrappers
  import SP = SimpleParser
  import opened DependencyGraph

  // ---------------------------------------------------------------------
  // The Contains tree

  /** The Contains edges `es` hang the nodes at positions `first`,
      `first + 1`, … from the positions in `parents`: one edge per node, in
      node order. */
  ghost predicate ContainsRun(es: seq<Edge>, parents: seq<nat>, first: nat) {
    && |es| == |parents|
    && forall k :: 0 <= k < |es| ==>
         es[k].target == first + k && es[k].edgeType == Contains && es[k].source == parents[k]
  }

  /** `n` copies of the position `p`. */
  function Repeat(p: nat, n: nat): (r: seq<nat>)
    ensures |r| == n && forall k :: 0 <= k < n ==> r[k] == p
  {
    seq(n, _ => p)
  }

  /** The parents in a class block: the File node for the class, the class
      for each of its methods. */
  function ClassBlockParents(c: SP.Class, fileIndex: nat, classIndex: nat): seq<nat> {
    [fileIndex] + Repeat(classIndex, |c.methods|)
  }

  /** The parents in the blocks of the first `n` classes, the first class
      node landing at `first`. */
  function ClassParents(cs: seq<SP.Class>, fileIndex: nat, first: nat, n: nat): seq<nat>
    requires n <= |cs|
  {
    if n == 0 then []
    else ClassParents(cs, fileIndex, first, n - 1) + ClassBlockParents(cs[n - 1], fileIndex, first + ClassBlockSize(cs, n - 1))
  }

  /** The parents of a file's content nodes when its File node is at
      `fileIndex`: the File node for every import, function and class, the
      class for every method. */
  function ContentParents(parsed: SP.ParsedFile, fileIndex: nat): seq<nat> {
    var plain := |parsed.imports| + |parsed.functions|;
    Repeat(fileIndex, plain) + ClassParents(parsed.classes, fileIndex, fileIndex + 1 + plain, |parsed.classes|)
  }

  /** How many entries of `ps` are `x`. */
  function Occurrences(ps: seq<nat>, x: nat): (r: nat)
    ensures r <= |ps|
  {
    if |ps| == 0 then 0 else Occurrences(ps[..|ps| - 1], x) + if ps[|ps| - 1] == x then 1 else 0
  }

  /** Counting in a concatenation. */
  lemma {:induction false} OccurrencesAppend(a: seq<nat>, b: seq<nat>, x: nat)
    ensures Occurrences(a + b, x) == Occurrences(a, x) + Occurrences(b, x)
  {
    if |b| > 0 {
      OccurrencesAppend(a, b[..|b| - 1], x);
      assert (a + b)[..|a + b| - 1] == a + b[..|b| - 1];
    } else {
      assert a + b == a;
    }
  }

  /** `Repeat(p, n)` holds `p` exactly `n` times and nothing else. */
  lemma {:induction false} RepeatOccurrences(p: nat, n: nat, x: nat)
    ensures Occurrences(Repeat(p, n), x) == if x == p then n else 0
  {
    if n > 0 {
      RepeatOccurrences(p, n - 1, x);
      assert Repeat(p, n)[..n - 1] == Repeat(p, n - 1);
    }
  }

  /** Each of the first `n` class blocks hangs exactly one node, its Class
      node, from the File node. */
  lemma {:induction false} ClassParentsFileCount(cs: seq<SP.Class>, fileIndex: nat, first: nat, n: nat)
    requires n <= |cs| && fileIndex < first
    ensures Occurrences(ClassParents(cs, fileIndex, first, n), fileIndex) == n
  {
    if n > 0 {
      ClassParentsFileCount(cs, fileIndex, first, n - 1);
      var classIndex := first + ClassBlockSize(cs, n - 1);
      var methods := Repeat(classIndex, |cs[n - 1].methods|);
      RepeatOccurrences(classIndex, |cs[n - 1].methods|, fileIndex);
      OccurrencesAppend([fileIndex], methods, fileIndex);
      assert Occurrences([fileIndex], fileIndex) == 1 by {
        assert [fileIndex][..0] == [];
      }
      OccurrencesAppend(ClassParents(cs, fileIndex, first, n - 1), [fileIndex] + methods, fileIndex);
    }
  }

  /** `calculate_file_complexity` counts what a File node contains: the
      File node is the parent of exactly `FileComplexity(parsed)` of the
      file's content nodes, so of that many of its Contains edges. */
  lemma FileOutDegree(parsed: SP.ParsedFile, base: nat)
    ensures Occurrences(ContentParents(parsed, base), base) == FileComplexity(parsed)
  {
    var plain := |parsed.imports| + |parsed.functions|;
    var front, back := Repeat(base, plain), ClassParents(parsed.classes, base, base + 1 + plain, |parsed.classes|);
    RepeatOccurrences(base, plain, base);
    ClassParentsFileCount(parsed.classes, base, base + 1 + plain, |parsed.classes|);
    OccurrencesAppend(front, back, base);
  }

  /** `calculate_class_complexity` counts what a Class node contains, its
      method nodes, plus one per implemented interface and one for a base
      class. */
  lemma ClassOutDegree(c: SP.Class, fileIndex: nat, classIndex: nat)
    requires fileIndex != classIndex
    ensures Occurrences(ClassBlockParents(c, fileIndex, classIndex), classIndex) == |c.methods|
    ensures ClassComplexity(c) == Occurrences(ClassBlockParents(c, fileIndex, classIndex), classIndex)
      + |c.implements| + (if c.baseClass.Some? then 1 else 0)
  {
    var methods := Repeat(classIndex, |c.methods|);
    RepeatOccurrences(classIndex, |c.methods|, classIndex);
    OccurrencesAppend([fileIndex], methods, classIndex);
    assert Occurrences([fileIndex], classIndex) == 0 by {
      assert [fileIndex][..0] == [];
    }
  }

  /** Children added under one parent each have one Contains edge, from
      that parent. */
  lemma ChildEdgesRun(source: nat, first: nat, lines: seq<nat>)
    ensures ContainsRun(ChildEdges(source, first, lines), Repeat(source, |lines|), first)
  {
    var es := ChildEdges(source, first, lines);
    forall k | 0 <= k < |es| ensures es[k].target == first + k && es[k].source == source {
      assert es[k] == ContainsEdge(source, first + k, lines[k]);
    }
  }

  /** Two runs placed one after the other form one run. */
  lemma ContainsRunAppend(es1: seq<Edge>, p1: seq<nat>, es2: seq<Edge>, p2: seq<nat>, first: nat)
    requires ContainsRun(es1, p1, first)
    requires ContainsRun(es2, p2, first + |es1|)
    ensures ContainsRun(es1 + es2, p1 + p2, first)
  {
    var es, ps := es1 + es2, p1 + p2;
    forall k | 0 <= k < |es| ensures es[k].target == first + k && es[k].edgeType == Contains && es[k].source == ps[k] {
      if k < |es1| {
        assert es[k] == es1[k] && ps[k] == p1[k];
      } else {
        assert es[k] == es2[k - |es1|] && ps[k] == p2[k - |es1|];
      }
    }
  }

  /** A class's edges: the Class node hangs from the File node and every
      method node from the Class node. */
  lemma ClassBlockRun(c: SP.Class, fileIndex: nat, classIndex: nat)
    ensures ContainsRun(ClassEdgeBlock(c, fileIndex, classIndex), ClassBlockParents(c, fileIndex, classIndex), classIndex)
    ensures ClassEdgeBlock(c, fileIndex, classIndex)[0].source == fileIndex
    ensures forall k :: 1 <= k < |ClassEdgeBlock(c, fileIndex, classIndex)| ==>
      ClassEdgeBlock(c, fileIndex, classIndex)[k].source == classIndex
  {
    var lines := FunctionLines(c.methods);
    ChildEdgesRun(classIndex, classIndex + 1, lines);
    ContainsRunAppend([ContainsEdge(fileIndex, classIndex, c.lineNumber)], [fileIndex],
      ChildEdges(classIndex, classIndex + 1, lines), Repeat(classIndex, |lines|), classIndex);
  }

  /** There is one parent per node of the class blocks. */
  lemma {:induction false} ClassParentsSize(cs: seq<SP.Class>, fileIndex: nat, first: nat, n: nat)
    requires n <= |cs|
    ensures |ClassParents(cs, fileIndex, first, n)| == ClassBlockSize(cs, n)
  {
    if n > 0 {
      ClassParentsSize(cs, fileIndex, first, n - 1);
    }
  }

  /** The classes of a file, one block after another, form a run. */
  lemma {:induction false} ClassNodesRun(cs: seq<SP.Class>, fileIndex: nat, first: nat, n: nat)
    requires n <= |cs|
    ensures ContainsRun(ClassEdges(cs, fileIndex, first, n), ClassParents(cs, fileIndex, first, n), first)
  {
    if n > 0 {
      ClassNodesRun(cs, fileIndex, first, n - 1);
      ClassParentsSize(cs, fileIndex, first, n - 1);
      var at := first + ClassBlockSize(cs, n - 1);
      var es1, p1 := ClassEdges(cs, fileIndex, first, n - 1), ClassParents(cs, fileIndex, first, n - 1);
      var es2, p2 := ClassEdgeBlock(cs[n - 1], fileIndex, at), ClassBlockParents(cs[n - 1], fileIndex, at);
      ClassBlockRun(cs[n - 1], fileIndex, at);
      ContainsRunAppend(es1, p1, es2, p2, first);
      assert ClassEdges(cs, fileIndex, first, n) == es1 + es2;
      assert ClassParents(cs, fileIndex, first, n) == p1 + p2;
    }
  }

  /** Which class a position of the class blocks belongs to: position `k`
      lies in the block of class `j`, whose Class node hangs from the File
      node; if `k` is past the Class node, it holds a method of class `j`
      and hangs from that Class node. */
  lemma {:induction false} ClassOwner(parsed: SP.ParsedFile, cs: seq<SP.Class>, fileIndex: nat, first: nat, n: nat, k: nat)
    returns (j: nat)
    requires n <= |cs| && k < ClassBlockSize(cs, n)
    ensures |ClassNodes(parsed, cs, n)| == |ClassParents(cs, fileIndex, first, n)| == ClassBlockSize(cs, n)
    ensures j < n && ClassBlockSize(cs, j) <= k < ClassBlockSize(cs, j) + 1 + |cs[j].methods|
    ensures ClassNodes(parsed, cs, n)[ClassBlockSize(cs, j)] == ClassNode(parsed, cs[j])
    ensures ClassParents(cs, fileIndex, first, n)[ClassBlockSize(cs, j)] == fileIndex
    ensures k > ClassBlockSize(cs, j) ==>
      && ClassNodes(parsed, cs, n)[k] == MethodNode(parsed, cs[j], cs[j].methods[k - ClassBlockSize(cs, j) - 1])
      && ClassParents(cs, fileIndex, first, n)[k] == first + ClassBlockSize(cs, j)
  {
    ClassNodesSize(parsed, cs, n - 1);
    ClassParentsSize(cs, fileIndex, first, n - 1);
    var at := ClassBlockSize(cs, n - 1);
    var ns1, ns2 := ClassNodes(parsed, cs, n - 1), ClassBlock(parsed, cs[n - 1]);
    var p1, p2 := ClassParents(cs, fileIndex, first, n - 1), ClassBlockParents(cs[n - 1], fileIndex, first + at);
    assert ClassNodes(parsed, cs, n) == ns1 + ns2;
    assert ClassParents(cs, fileIndex, first, n) == p1 + p2;
    if k < at {
      j := ClassOwner(parsed, cs, fileIndex, first, n - 1, k);
      var cj := ClassBlockSize(cs, j);
      FrontIndex(ns1, ns2, cj);
      FrontIndex(p1, p2, cj);
      FrontIndex(ns1, ns2, k);
      FrontIndex(p1, p2, k);
    } else {
      j := n - 1;
      AppendIndex(ns1, ns2, 0);
      AppendIndex(p1, p2, 0);
      if k > at {
        var m := k - at - 1;
        AppendIndex(ns1, ns2, 1 + m);
        AppendIndex(p1, p2, 1 + m);
        assert ns2[1 + m] == MethodNodes(parsed, cs[n - 1])[m];
      }
    }
  }

  /** The number of import and function nodes of a file. */
  function PlainCount(parsed: SP.ParsedFile): nat {
    |parsed.imports| + |parsed.functions|
  }

  /** The Contains edges of one file hang each content node from its
      parent in `ContentParents`. */
  lemma ContentRun(parsed: SP.ParsedFile, base: nat)
    ensures |ContentParents(parsed, base)| == |FileContents(parsed)| == PlainCount(parsed) + ClassBlockSize(parsed.classes, |parsed.classes|)
    ensures ContainsRun(FileEdges(parsed, base), ContentParents(parsed, base), base + 1)
  {
    var plain := PlainCount(parsed);
    var first := base + 1;
    var cs := parsed.classes;
    var ei := ChildEdges(base, first, ImportLines(parsed.imports));
    var ef := ChildEdges(base, first + |parsed.imports|, FunctionLines(parsed.functions));
    var classesAt := first + |parsed.imports| + |parsed.functions|;
    var ec := ClassEdges(cs, base, classesAt, |cs|);
    assert FileEdges(parsed, base) == ei + ef + ec;
    var pc := ClassParents(cs, base, first + plain, |cs|);
    ChildEdgesRun(base, first, ImportLines(parsed.imports));
    ChildEdgesRun(base, first + |parsed.imports|, FunctionLines(parsed.functions));
    ClassNodesRun(cs, base, first + plain, |cs|);
    ClassParentsSize(cs, base, first + plain, |cs|);
    ClassNodesSize(parsed, cs, |cs|);
    ContainsRunAppend(ei, Repeat(base, |parsed.imports|), ef, Repeat(base, |parsed.functions|), first);
    assert Repeat(base, |parsed.imports|) + Repeat(base, |parsed.functions|) == Repeat(base, plain);
    ContainsRunAppend(ei + ef, Repeat(base, plain), ec, pc, first);
    assert ContentParents(parsed, base) == Repeat(base, plain) + pc;
  }

  /** Content edge `k` of a file: the one Contains edge of content node `k`,
      from its parent. */
  lemma ContentEdge(parsed: SP.ParsedFile, base: nat, k: nat)
    requires k < |FileContents(parsed)|
    ensures |FileEdges(parsed, base)| == |ContentParents(parsed, base)| == |FileContents(parsed)|
    ensures FileEdges(parsed, base)[k].target == base + 1 + k
    ensures FileEdges(parsed, base)[k].edgeType == Contains
    ensures FileEdges(parsed, base)[k].source == ContentParents(parsed, base)[k]
  {
    ContentRun(parsed, base);
  }

  /** The parent of each content node of a file: every import and function
      node hangs from the File node; a content node past them lies in the
      block of some class `j`, whose Class node hangs from the File node and
      whose method nodes hang from that Class node. */
  lemma ContentOwner(parsed: SP.ParsedFile, base: nat, k: nat) returns (j: nat)
    requires k < PlainCount(parsed) + ClassBlockSize(parsed.classes, |parsed.classes|)
    ensures |ContentParents(parsed, base)| == |FileContents(parsed)| == PlainCount(parsed) + ClassBlockSize(parsed.classes, |parsed.classes|)
    ensures k < PlainCount(parsed) ==>
      && ContentParents(parsed, base)[k] == base
      && FileContents(parsed)[k].nodeType in {Import, Function}
    ensures k >= PlainCount(parsed) ==> j < |parsed.classes|
    ensures k >= PlainCount(parsed) ==>
      var at := PlainCount(parsed) + ClassBlockSize(parsed.classes, j);
      && at <= k < at + 1 + |parsed.classes[j].methods|
      && FileContents(parsed)[at] == ClassNode(parsed, parsed.classes[j])
      && ContentParents(parsed, base)[at] == base
      && (k > at ==>
            && FileContents(parsed)[k] == MethodNode(parsed, parsed.classes[j], parsed.classes[j].methods[k - at - 1])
            && ContentParents(parsed, base)[k] == base + 1 + at)
  {
    var plain := PlainCount(parsed);
    var cs := parsed.classes;
    var front, classes := ImportNodes(parsed) + FunctionNodes(parsed), ClassNodes(parsed, cs, |cs|);
    var pc := ClassParents(cs, base, base + 1 + plain, |cs|);
    ClassNodesSize(parsed, cs, |cs|);
    ClassParentsSize(cs, base, base + 1 + plain, |cs|);
    var ns, ps := FileContents(parsed), ContentParents(parsed, base);
    assert ns == front + classes;
    assert ps == Repeat(base, plain) + pc;
    if k < plain {
      j := 0;
      FrontIndex(front, classes, k);
      FrontIndex(Repeat(base, plain), pc, k);
      if k < |parsed.imports| {
        assert front[k] == ImportNodes(parsed)[k];
      } else {
        assert front[k] == FunctionNodes(parsed)[k - |parsed.imports|];
      }
    } else {
      j := ClassOwner(parsed, cs, base, base + 1 + plain, |cs|, k - plain);
      var cj := ClassBlockSize(cs, j);
      AppendIndex(front, classes, cj);
      AppendIndex(Repeat(base, plain), pc, cj);
      AppendIndex(front, classes, k - plain);
      AppendIndex(Repeat(base, plain), pc, k - plain);
    }
  }

  /** The Contains edges of the nodes `ns`, `es`, form a forest whose roots
      are the File nodes: every edge is a Contains edge to a later node, from
      a File or Class node with no File node in between (so within one
      file's block); no two edges share a target; and every node that is
      not a File node is the target of one. */
  ghost predicate ContainsTree(ns: seq<Node>, es: seq<Edge>) {
    && (forall i :: 0 <= i < |es| ==> es[i].edgeType == Contains && es[i].source < es[i].target < |ns|)
    && (forall i :: 0 <= i < |es| ==> ns[es[i].source].nodeType == File || ns[es[i].source].nodeType == Class)
    && (forall i, q :: 0 <= i < |es| && es[i].source < q <= es[i].target ==> ns[q].nodeType != File)
    && (forall i, j :: 0 <= i < j < |es| ==> es[i].target < es[j].target)
    && (forall p :: 0 <= p < |ns| && ns[p].nodeType != File ==> exists i :: 0 <= i < |es| && es[i].target == p)
  }

  /** The parent of content node `k` of a file placed at `at` lies earlier
      in the file's block and is its File node or a Class node; the content
      node itself is not a File node. */
  lemma ContentParentNode(parsed: SP.ParsedFile, at: nat, k: nat)
    requires k < |FileContents(parsed)|
    ensures |ContentParents(parsed, at)| == |FileContents(parsed)|
    ensures at <= ContentParents(parsed, at)[k] < at + 1 + k
    ensures FileBlock(parsed)[ContentParents(parsed, at)[k] - at].nodeType in {File, Class}
    ensures FileBlock(parsed)[k + 1].nodeType != File
  {
    ClassNodesSize(parsed, parsed.classes, |parsed.classes|);
    var j := ContentOwner(parsed, at, k);
    var block, ns := FileBlock(parsed), FileContents(parsed);
    assert block == [FileNode(parsed)] + ns;
    AppendIndex([FileNode(parsed)], ns, k);
    if k >= PlainCount(parsed) {
      var c := PlainCount(parsed) + ClassBlockSize(parsed.classes, j);
      AppendIndex([FileNode(parsed)], ns, c);
    }
  }

  /** A file contributes one Contains edge per node after its File node. */
  lemma FileEdgesSize(parsed: SP.ParsedFile, at: nat)
    ensures |FileEdges(parsed, at)| + 1 == BlockSize(parsed)
  {
    ClassEdgesSize(parsed.classes, at, at + 1 + PlainCount(parsed), |parsed.classes|);
  }

  /** The first `n` classes have one Contains edge per class and method. */
  lemma {:induction false} ClassEdgesSize(cs: seq<SP.Class>, fileIndex: nat, first: nat, n: nat)
    requires n <= |cs|
    ensures |ClassEdges(cs, fileIndex, first, n)| == ClassBlockSize(cs, n)
  {
    if n > 0 {
      ClassEdgesSize(cs, fileIndex, first, n - 1);
    }
  }

  /** The first `n` files contribute one Contains edge per node that is not
      a File node. */
  lemma {:induction false} GraphEdgesSize(files: seq<SP.ParsedFile>, base: nat, n: nat)
    requires n <= |files|
    ensures |GraphContainsEdges(files, base, n)| + n == GraphSize(files, n)
  {
    if n > 0 {
      GraphEdgesSize(files, base, n - 1);
      FileEdgesSize(files[n - 1], base + GraphSize(files, n - 1));
    }
  }

  /** Where the files' blocks start: later files start later, and so do
      their edges. */
  lemma {:induction false} GraphSizeMono(files: seq<SP.ParsedFile>, a: nat, b: nat)
    requires a <= b <= |files|
    ensures GraphSize(files, a) <= GraphSize(files, b)
    ensures GraphSize(files, a) - a <= GraphSize(files, b) - b
  {
    if a < b {
      GraphSizeMono(files, a, b - 1);
    }
  }

  /** The file whose block holds node position `p`. */
  lemma {:induction false} NodeOwner(files: seq<SP.ParsedFile>, n: nat, p: nat) returns (f: nat)
    requires n <= |files| && p < GraphSize(files, n)
    ensures f < n && GraphSize(files, f) <= p < GraphSize(files, f + 1)
  {
    if p >= GraphSize(files, n - 1) {
      f := n - 1;
    } else {
      f := NodeOwner(files, n - 1, p);
    }
  }

  /** The file whose Contains edges hold edge position `i`. */
  lemma {:induction false} EdgeOwner(files: seq<SP.ParsedFile>, n: nat, i: nat) returns (f: nat)
    requires n <= |files| && i + n < GraphSize(files, n)
    ensures f < n && GraphSize(files, f) - f <= i < GraphSize(files, f + 1) - (f + 1)
  {
    if i + n - 1 >= GraphSize(files, n - 1) {
      f := n - 1;
    } else {
      f := EdgeOwner(files, n - 1, i);
    }
  }

  /** Node `t` of file `f`'s block sits at position `GraphSize(files, f) + t`. */
  lemma GraphBlockNode(files: seq<SP.ParsedFile>, n: nat, f: nat, t: nat)
    requires f < n <= |files| && t < BlockSize(files[f])
    ensures |FileBlock(files[f])| == BlockSize(files[f])
    ensures GraphSize(files, f) + t < |GraphNodes(files, n)|
    ensures GraphNodes(files, n)[GraphSize(files, f) + t] == FileBlock(files[f])[t]
  {
    FileBlockSize(files[f]);
    GraphNodesSize(files, f);
    AppendIndex(GraphNodes(files, f), FileBlock(files[f]), t);
    GraphNodesKeep(files, f + 1, n, GraphSize(files, f) + t);
  }

  /** Adding more files keeps the Contains edges already there. */
  lemma {:induction false} GraphEdgesKeep(files: seq<SP.ParsedFile>, base: nat, i: nat, n: nat, k: nat)
    requires i <= n <= |files| && k < |GraphContainsEdges(files, base, i)|
    ensures k < |GraphContainsEdges(files, base, n)|
    ensures GraphContainsEdges(files, base, n)[k] == GraphContainsEdges(files, base, i)[k]
  {
    if i < n {
      GraphEdgesKeep(files, base, i, n - 1, k);
      FrontIndex(GraphContainsEdges(files, base, n - 1), FileEdges(files[n - 1], base + GraphSize(files, n - 1)), k);
    }
  }

  /** Edge `k` of file `f` sits at position `GraphSize(files, f) - f + k`. */
  lemma GraphBlockEdge(files: seq<SP.ParsedFile>, n: nat, f: nat, k: nat)
    requires f < n <= |files| && k + 1 < BlockSize(files[f])
    ensures |GraphContainsEdges(files, 0, f)| + f == GraphSize(files, f)
    ensures |FileEdges(files[f], GraphSize(files, f))| + 1 == BlockSize(files[f])
    ensures GraphSize(files, f) - f + k < |GraphContainsEdges(files, 0, n)|
    ensures GraphContainsEdges(files, 0, n)[GraphSize(files, f) - f + k] == FileEdges(files[f], GraphSize(files, f))[k]
  {
    FileEdgesSize(files[f], GraphSize(files, f));
    LastFileEdge(files, f, k);
    GraphEdgesKeep(files, 0, f + 1, n, GraphSize(files, f) - f + k);
  }

  /** The Contains edges of file `f` follow those of the files before it. */
  lemma LastFileEdge(files: seq<SP.ParsedFile>, f: nat, k: nat)
    requires f < |files| && k < |FileEdges(files[f], GraphSize(files, f))|
    ensures |GraphContainsEdges(files, 0, f)| + f == GraphSize(files, f)
    ensures GraphSize(files, f) - f + k < |GraphContainsEdges(files, 0, f + 1)|
    ensures GraphContainsEdges(files, 0, f + 1)[GraphSize(files, f) - f + k] == FileEdges(files[f], GraphSize(files, f))[k]
  {
    GraphEdgesSize(files, 0, f);
    var before, own := GraphContainsEdges(files, 0, f), FileEdges(files[f], GraphSize(files, f));
    assert GraphContainsEdges(files, 0, f + 1) == before + own;
    AppendIndex(before, own, k);
  }

  /** Contains edge `i` of the graph is edge `k` of file `f`. */
  lemma EdgeAt(files: seq<SP.ParsedFile>, n: nat, i: nat) returns (f: nat, k: nat)
    requires n <= |files| && i < |GraphContainsEdges(files, 0, n)|
    ensures f < n && f <= GraphSize(files, f) && i == GraphSize(files, f) - f + k
    ensures i < GraphSize(files, f + 1) - (f + 1)
    ensures k + 1 < BlockSize(files[f])
    ensures |FileEdges(files[f], GraphSize(files, f))| + 1 == BlockSize(files[f])
    ensures GraphContainsEdges(files, 0, n)[i] == FileEdges(files[f], GraphSize(files, f))[k]
  {
    GraphEdgesSize(files, 0, n);
    f := EdgeOwner(files, n, i);
    k := i - (GraphSize(files, f) - f);
    GraphBlockEdge(files, n, f, k);
  }

  /** Contains edge `i` of the graph, as edge `k` of file `f`'s block: a
      Contains edge to content node `k` from that node's parent. */
  lemma EdgeParent(files: seq<SP.ParsedFile>, n: nat, i: nat) returns (f: nat, k: nat)
    requires n <= |files| && i < |GraphContainsEdges(files, 0, n)|
    ensures f < n && f <= GraphSize(files, f) && i == GraphSize(files, f) - f + k
    ensures i < GraphSize(files, f + 1) - (f + 1)
    ensures k + 1 < BlockSize(files[f])
    ensures |ContentParents(files[f], GraphSize(files, f))| == |FileContents(files[f])| == BlockSize(files[f]) - 1
    ensures GraphContainsEdges(files, 0, n)[i].edgeType == Contains
    ensures GraphContainsEdges(files, 0, n)[i].source == ContentParents(files[f], GraphSize(files, f))[k]
    ensures GraphContainsEdges(files, 0, n)[i].target == GraphSize(files, f) + 1 + k
  {
    f, k := EdgeAt(files, n, i);
    FileBlockSize(files[f]);
    ContentEdge(files[f], GraphSize(files, f), k);
  }

  /** Contains edge `i` of the graph goes forward to a node of the graph. */
  lemma EdgeForward(files: seq<SP.ParsedFile>, n: nat, i: nat)
    requires n <= |files| && i < |GraphContainsEdges(files, 0, n)|
    ensures GraphContainsEdges(files, 0, n)[i].source < GraphContainsEdges(files, 0, n)[i].target < |GraphNodes(files, n)|
  {
    var f, k := EdgeParent(files, n, i);
    var at := GraphSize(files, f);
    ContentParentNode(files[f], at, k);
    GraphBlockNode(files, n, f, k + 1);
  }

  /** Contains edge `i` of the graph comes from a File or Class node. */
  lemma EdgeSourceNode(files: seq<SP.ParsedFile>, n: nat, i: nat)
    requires n <= |files| && i < |GraphContainsEdges(files, 0, n)|
    ensures GraphContainsEdges(files, 0, n)[i].source < |GraphNodes(files, n)|
    ensures GraphNodes(files, n)[GraphContainsEdges(files, 0, n)[i].source].nodeType in {File, Class}
  {
    var f, k := EdgeParent(files, n, i);
    var at := GraphSize(files, f);
    var parent := ContentParents(files[f], at)[k];
    ContentParentNode(files[f], at, k);
    GraphNodeAt(files, n, f, parent);
  }

  /** Node position `p` within file `f`'s block holds that block's node
      `p - GraphSize(files, f)`. */
  lemma GraphNodeAt(files: seq<SP.ParsedFile>, n: nat, f: nat, p: nat)
    requires f < n <= |files|
    requires GraphSize(files, f) <= p < GraphSize(files, f) + BlockSize(files[f])
    ensures |FileBlock(files[f])| == BlockSize(files[f])
    ensures p < |GraphNodes(files, n)|
    ensures GraphNodes(files, n)[p] == FileBlock(files[f])[p - GraphSize(files, f)]
  {
    GraphBlockNode(files, n, f, p - GraphSize(files, f));
  }

  /** Every node of file `f`'s block after its File node is not a File
      node. */
  lemma BlockInnerNode(files: seq<SP.ParsedFile>, n: nat, f: nat, q: nat)
    requires f < n <= |files|
    requires GraphSize(files, f) < q < GraphSize(files, f) + BlockSize(files[f])
    ensures q < |GraphNodes(files, n)| && GraphNodes(files, n)[q].nodeType != File
  {
    var t := q - GraphSize(files, f);
    GraphBlockNode(files, n, f, t);
    assert GraphNodes(files, n)[q] == FileBlock(files[f])[t];
    ContentParentNode(files[f], GraphSize(files, f), t - 1);
    assert FileBlock(files[f])[t].nodeType != File;
  }

  /** No File node lies after the source of Contains edge `i` up to its
      target: source and target share a file's block. */
  lemma EdgeWithinBlock(files: seq<SP.ParsedFile>, n: nat, i: nat, q: nat)
    requires n <= |files| && i < |GraphContainsEdges(files, 0, n)|
    requires GraphContainsEdges(files, 0, n)[i].source < q <= GraphContainsEdges(files, 0, n)[i].target
    ensures q < |GraphNodes(files, n)| && GraphNodes(files, n)[q].nodeType != File
  {
    var f, k := EdgeParent(files, n, i);
    ContentParentNode(files[f], GraphSize(files, f), k);
    BlockInnerNode(files, n, f, q);
  }

  /** Every node of file `f`'s block after its File node is the target of
      Contains edge `i`. */
  lemma BlockInnerEdge(files: seq<SP.ParsedFile>, n: nat, f: nat, q: nat) returns (i: nat)
    requires f < n <= |files|
    requires GraphSize(files, f) < q < GraphSize(files, f) + BlockSize(files[f])
    ensures i < |GraphContainsEdges(files, 0, n)| && GraphContainsEdges(files, 0, n)[i].target == q
  {
    var at := GraphSize(files, f);
    var k := q - at - 1;
    GraphBlockEdge(files, n, f, k);
    FileBlockSize(files[f]);
    ContentEdge(files[f], at, k);
    i := at - f + k;
  }

  /** Every node of the first `n` files that is not a File node is the
      target of a Contains edge. */
  lemma GraphContainsCover(files: seq<SP.ParsedFile>, n: nat, p: nat) returns (i: nat)
    requires n <= |files| && p < |GraphNodes(files, n)| && GraphNodes(files, n)[p].nodeType != File
    ensures i < |GraphContainsEdges(files, 0, n)| && GraphContainsEdges(files, 0, n)[i].target == p
  {
    GraphNodesSize(files, n);
    var f := NodeOwner(files, n, p);
    GraphBlockNode(files, n, f, 0);
    i := BlockInnerEdge(files, n, f, p);
  }

  /** The Contains edges of the first `n` files come in order of their
      targets. */
  lemma GraphTargetsIncrease(files: seq<SP.ParsedFile>, n: nat, i: nat, j: nat)
    requires n <= |files| && i < j < |GraphContainsEdges(files, 0, n)|
    ensures GraphContainsEdges(files, 0, n)[i].target < GraphContainsEdges(files, 0, n)[j].target
  {
    var fi, _ := EdgeParent(files, n, i);
    var fj, _ := EdgeParent(files, n, j);
    if fj < fi {
      GraphSizeMono(files, fj + 1, fi);
    }
  }

  /** The nodes and Contains edges of the first `n` files form a forest
      rooted at their File nodes. */
  lemma GraphContainsTree(files: seq<SP.ParsedFile>, n: nat)
    requires n <= |files|
    ensures ContainsTree(GraphNodes(files, n), GraphContainsEdges(files, 0, n))
  {
    var ns, es := GraphNodes(files, n), GraphContainsEdges(files, 0, n);
    forall i | 0 <= i < |es|
      ensures es[i].edgeType == Contains && es[i].source < es[i].target < |ns|
      ensures ns[es[i].source].nodeType == File || ns[es[i].source].nodeType == Class
    {
      var _, _ := EdgeParent(files, n, i);
      EdgeForward(files, n, i);
      EdgeSourceNode(files, n, i);
    }
    forall i, q | 0 <= i < |es| && es[i].source < q <= es[i].target ensures ns[q].nodeType != File {
      EdgeWithinBlock(files, n, i, q);
    }
    forall i, j | 0 <= i < j < |es| ensures es[i].target < es[j].target {
      GraphTargetsIncrease(files, n, i, j);
    }
    forall p | 0 <= p < |ns| && ns[p].nodeType != File ensures exists i :: 0 <= i < |es| && es[i].target == p {
      var _ := GraphContainsCover(files, n, p);
    }
  }

  /** In such a forest no File node is the target of an edge and every
      other node is the target of exactly one. */
  lemma TreeExactlyOne(ns: seq<Node>, es: seq<Edge>)
    requires ContainsTree(ns, es)
    ensures forall p, i :: 0 <= p < |ns| && ns[p].nodeType == File && 0 <= i < |es| ==> es[i].target != p
    ensures forall p :: 0 <= p < |ns| && ns[p].nodeType != File ==>
      exists i :: 0 <= i < |es| && es[i].target == p && forall j :: 0 <= j < |es| && es[j].target == p ==> j == i
  {
    forall p | 0 <= p < |ns| && ns[p].nodeType != File
      ensures exists i :: 0 <= i < |es| && es[i].target == p && forall j :: 0 <= j < |es| && es[j].target == p ==> j == i
    {
      var i :| 0 <= i < |es| && es[i].target == p;
      forall j | 0 <= j < |es| && es[j].target == p ensures j == i {
      }
    }
  }

  /** The graph `build_graph` makes from an empty builder: its Contains
      edges are `GraphContainsEdges(files, 0, |files|)` (the rest are
      DependsOn edges); no File node has an incoming Contains edge, every
      other node has exactly one, and it comes from a File or Class node
      earlier in the same file's block. */
  lemma BuiltContainsTree(files: seq<SP.ParsedFile>, nodeMap: map<string, nat>, fileNodes: map<string, nat>)
    ensures forall i :: 0 <= i < |Dependencies(files, |files|, nodeMap, fileNodes)| ==>
      Dependencies(files, |files|, nodeMap, fileNodes)[i].edgeType == DependsOn
    ensures var ns, es := GraphNodes(files, |files|), GraphContainsEdges(files, 0, |files|);
      && (forall i :: 0 <= i < |es| ==> es[i].edgeType == Contains && es[i].source < es[i].target < |ns|)
      && (forall p, i :: 0 <= p < |ns| && ns[p].nodeType == File && 0 <= i < |es| ==> es[i].target != p)
      && (forall p :: 0 <= p < |ns| && ns[p].nodeType != File ==>
            exists i :: 0 <= i < |es| && es[i].target == p && forall j :: 0 <= j < |es| && es[j].target == p ==> j == i)
      && (forall i :: 0 <= i < |es| ==> ns[es[i].source].nodeType == File || ns[es[i].source].nodeType == Class)
      && (forall i, q :: 0 <= i < |es| && es[i].source < q <= es[i].target ==> ns[q].nodeType != File)
  {
    DependenciesDependsOn(files, |files|, nodeMap, fileNodes);
    GraphContainsTree(files, |files|);
    TreeExactlyOne(GraphNodes(files, |files|), GraphContainsEdges(files, 0, |files|));
  }

  /** Every edge `add_call_relationships` adds is a DependsOn edge. */
  lemma {:induction false} DependenciesDependsOn(all: seq<SP.ParsedFile>, n: nat, nodeMap: map<string, nat>, fileNodes: map<string, nat>)
    requires n <= |all|
    ensures forall i :: 0 <= i < |Dependencies(all, n, nodeMap, fileNodes)| ==>
      Dependencies(all, n, nodeMap, fileNodes)[i].edgeType == DependsOn
  {
    if n > 0 {
      DependenciesDependsOn(all, n - 1, nodeMap, fileNodes);
      ImportDependenciesDependsOn(all, all[n - 1], |all[n - 1].imports|, nodeMap, fileNodes);
      var a, b := Dependencies(all, n - 1, nodeMap, fileNodes), ImportDependencies(all, all[n - 1], |all[n - 1].imports|, nodeMap, fileNodes);
      assert Dependencies(all, n, nodeMap, fileNodes) == a + b;
      EdgeTypesAppend(a, b, DependsOn);
    }
  }

  /** Two lists of edges of one type make one. */
  lemma EdgeTypesAppend(a: seq<Edge>, b: seq<Edge>, t: EdgeType)
    requires forall i :: 0 <= i < |a| ==> a[i].edgeType == t
    requires forall i :: 0 <= i < |b| ==> b[i].edgeType == t
    ensures forall i :: 0 <= i < |a + b| ==> (a + b)[i].edgeType == t
  {
    forall i | 0 <= i < |a + b| ensures (a + b)[i].edgeType == t {
      if i < |a| {
        assert (a + b)[i] == a[i];
      } else {
        assert (a + b)[i] == b[i - |a|];
      }
    }
  }

  /** Every edge of one file's imports is a DependsOn edge. */
  lemma {:induction false} ImportDependenciesDependsOn(all: seq<SP.ParsedFile>, parsed: SP.ParsedFile, n: nat,
                                                      nodeMap: map<string, nat>, fileNodes: map<string, nat>)
    requires n <= |parsed.imports|
    ensures forall i :: 0 <= i < |ImportDependencies(all, parsed, n, nodeMap, fileNodes)| ==>
      ImportDependencies(all, parsed, n, nodeMap, fileNodes)[i].edgeType == DependsOn
  {
    if n > 0 {
      ImportDependenciesDependsOn(all, parsed, n - 1, nodeMap, fileNodes);
      var a, b := ImportDependencies(all, parsed, n - 1, nodeMap, fileNodes), ImportDependency(all, parsed, parsed.imports[n - 1], nodeMap, fileNodes);
      assert ImportDependencies(all, parsed, n, nodeMap, fileNodes) == a + b;
      EdgeTypesAppend(a, b, DependsOn);
    }
  }

  // ---------------------------------------------------------------------
  // The maps

  /** `node_map` sends the id of a node of the run to the position of the last
      node of the run with that id: a later duplicate overwrites. */
  lemma {:induction false} IdIndexFromLast(m: map<string, nat>, base: nat, ns: seq<Node>, k: nat)
    requires k < |ns| && forall j :: k < j < |ns| ==> ns[j].id != ns[k].id
    ensures ns[k].id in IdIndexFrom(m, base, ns) && IdIndexFrom(m, base, ns)[ns[k].id] == base + k
  {
    if k < |ns| - 1 {
      IdIndexFromLast(m, base, ns[..|ns| - 1], k);
    }
  }

  /** An id no node of the run has keeps whatever entry it had. */
  lemma {:induction false} IdIndexFromOthers(m: map<string, nat>, base: nat, ns: seq<Node>, id: string)
    requires forall j :: 0 <= j < |ns| ==> ns[j].id != id
    ensures (id in IdIndexFrom(m, base, ns) <==> id in m)
    ensures id in m ==> IdIndexFrom(m, base, ns)[id] == m[id]
  {
    if |ns| > 0 {
      IdIndexFromOthers(m, base, ns[..|ns| - 1], id);
    }
  }

  /** The File node of file `i` sits at position `GraphSize(files, i)` of the
      nodes of the first `n` files. */
  lemma GraphFileNode(files: seq<SP.ParsedFile>, n: nat, i: nat)
    requires i < n <= |files|
    ensures GraphSize(files, i) < |GraphNodes(files, n)|
    ensures GraphNodes(files, n)[GraphSize(files, i)] == FileNode(files[i])
  {
    GraphNodesSize(files, i);
    AppendIndex(GraphNodes(files, i), FileBlock(files[i]), 0);
    GraphNodesKeep(files, i + 1, n, GraphSize(files, i));
  }

  /** The node of import `k` of file `i` sits right after that file's File
      node and its first `k` imports. */
  lemma GraphImportNode(files: seq<SP.ParsedFile>, n: nat, i: nat, k: nat)
    requires i < n <= |files| && k < |files[i].imports|
    ensures GraphSize(files, i) + 1 + k < |GraphNodes(files, n)|
    ensures GraphNodes(files, n)[GraphSize(files, i) + 1 + k] == ImportNode(files[i], files[i].imports[k])
  {
    var parsed := files[i];
    var block, imports, rest := FileBlock(parsed), ImportNodes(parsed), FunctionNodes(parsed) + ClassNodes(parsed, parsed.classes, |parsed.classes|);
    assert FileContents(parsed) == imports + rest;
    FrontIndex(imports, rest, k);
    AppendIndex([FileNode(parsed)], FileContents(parsed), k);
    assert block[1 + k] == imports[k];
    FileBlockSize(parsed);
    GraphBlockNode(files, n, i, 1 + k);
  }

  /** Adding more files keeps the nodes already there. */
  lemma {:induction false} GraphNodesKeep(files: seq<SP.ParsedFile>, i: nat, n: nat, k: nat)
    requires i <= n <= |files| && k < |GraphNodes(files, i)|
    ensures k < |GraphNodes(files, n)| && GraphNodes(files, n)[k] == GraphNodes(files, i)[k]
  {
    if i < n {
      GraphNodesKeep(files, i, n - 1, k);
      FrontIndex(GraphNodes(files, n - 1), FileBlock(files[n - 1]), k);
    }
  }

  /** Every node of the run has its id in `node_map` afterwards. */
  lemma {:induction false} IdIndexFromHas(m: map<string, nat>, base: nat, ns: seq<Node>, k: nat)
    requires k < |ns|
    ensures ns[k].id in IdIndexFrom(m, base, ns)
  {
    if k < |ns| - 1 {
      IdIndexFromHas(m, base, ns[..|ns| - 1], k);
    }
  }

  /** `file_nodes` records the path of every file added, at the position of
      the File node of the last file added with that path. */
  lemma {:induction false} FileNodeIndexAt(m: map<string, nat>, base: nat, files: seq<SP.ParsedFile>, n: nat, i: nat)
    returns (j: nat)
    requires i < n <= |files|
    ensures i <= j < n && files[j].fileInfo.path == files[i].fileInfo.path
    ensures forall u :: j < u < n ==> files[u].fileInfo.path != files[i].fileInfo.path
    ensures files[i].fileInfo.path in FileNodeIndex(m, base, files, n)
    ensures FileNodeIndex(m, base, files, n)[files[i].fileInfo.path] == base + GraphSize(files, j)
  {
    if files[n - 1].fileInfo.path == files[i].fileInfo.path {
      j := n - 1;
    } else {
      j := FileNodeIndexAt(m, base, files, n - 1, i);
    }
  }

  /** What `file_nodes` records for the path of a file added is the position
      of a File node of that path. */
  lemma FileNodeIndexNamesFile(m: map<string, nat>, base: nat, files: seq<SP.ParsedFile>, n: nat, i: nat)
    requires i < n <= |files|
    ensures files[i].fileInfo.path in FileNodeIndex(m, base, files, n)
    ensures base <= FileNodeIndex(m, base, files, n)[files[i].fileInfo.path] < base + |GraphNodes(files, n)|
    ensures GraphNodes(files, n)[FileNodeIndex(m, base, files, n)[files[i].fileInfo.path] - base].nodeType == File
    ensures GraphNodes(files, n)[FileNodeIndex(m, base, files, n)[files[i].fileInfo.path] - base].filePath
      == files[i].fileInfo.path
  {
    var j := FileNodeIndexAt(m, base, files, n, i);
    GraphFileNode(files, n, j);
  }

  /** After the nodes of all files are added, the id of every import is in
      `node_map`. */
  lemma ImportIndexed(m: map<string, nat>, base: nat, files: seq<SP.ParsedFile>, i: nat, k: nat)
    requires i < |files| && k < |files[i].imports|
    ensures ImportId(files[i], files[i].imports[k]) in IdIndexFrom(m, base, GraphNodes(files, |files|))
  {
    GraphImportNode(files, |files|, i, k);
    IdIndexFromHas(m, base, GraphNodes(files, |files|), GraphSize(files, i) + 1 + k);
  }

  /** With the import's id and every file's path in the maps, an import gets
      one DependsOn edge exactly when some file's stem is the imported module,
      and that edge runs from the import's node to the File node of the first
      such file. */
  lemma ImportDependencyCases(all: seq<SP.ParsedFile>, parsed: SP.ParsedFile, imp: SP.Import,
                              nodeMap: map<string, nat>, fileNodes: map<string, nat>)
    requires ImportId(parsed, imp) in nodeMap
    requires forall t :: 0 <= t < |all| ==> all[t].fileInfo.path in fileNodes
    ensures |ImportDependency(all, parsed, imp, nodeMap, fileNodes)| <= 1
    ensures |ImportDependency(all, parsed, imp, nodeMap, fileNodes)| == 1
      <==> exists t :: 0 <= t < |all| && Paths.FileStem(all[t].fileInfo.path) == Some(imp.moduleName)
    ensures |ImportDependency(all, parsed, imp, nodeMap, fileNodes)| == 1 ==>
      var e := ImportDependency(all, parsed, imp, nodeMap, fileNodes)[0];
      && e.edgeType == DependsOn && e.source == nodeMap[ImportId(parsed, imp)]
      && (exists t :: 0 <= t < |all| && Paths.FileStem(all[t].fileInfo.path) == Some(imp.moduleName)
            && (forall u :: 0 <= u < t ==> Paths.FileStem(all[u].fileInfo.path) != Some(imp.moduleName))
            && e.target == fileNodes[all[t].fileInfo.path])
  {
    FindImportedFileFirst(all, imp.moduleName);
  }

  /** After `build_graph`, the import's id and the path of every file are in
      the maps, so `ImportDependencyCases` applies to every import. */
  lemma BuiltMapsCover(m: map<string, nat>, fm: map<string, nat>, base: nat, files: seq<SP.ParsedFile>, i: nat, k: nat)
    requires i < |files| && k < |files[i].imports|
    ensures ImportId(files[i], files[i].imports[k]) in IdIndexFrom(m, base, GraphNodes(files, |files|))
    ensures forall t :: 0 <= t < |files| ==> files[t].fileInfo.path in FileNodeIndex(fm, base, files, |files|)
  {
    ImportIndexed(m, base, files, i, k);
    forall t | 0 <= t < |files| ensures files[t].fileInfo.path in FileNodeIndex(fm, base, files, |files|) {
      var _ := FileNodeIndexAt(fm, base, files, |files|, t);
    }
  }

  /** Indexing into the first part of a concatenation. */
  lemma FrontIndex<T>(a: seq<T>, b: seq<T>, k: nat)
    requires k < |a|
    ensures (a + b)[k] == a[k]
  {}

  /** Indexing into the second part of a concatenation. */
  lemma AppendIndex<T>(a: seq<T>, b: seq<T>, k: nat)
    requires k < |b|
    ensures (a + b)[|a| + k] == b[k]
  {}
}
