/** The dependency-graph builder (src/dependency_graph.rs). The graph is an
    arena: nodes and edges are kept in the order they are added, a node is
    named by its position, and two maps find nodes by id and File nodes by
    path. Edge weights (always 1.0) are floating point and not modelled. */
module DependencyGraph {
  import opened Wrappers
  import Text
  import Seqs
  import Counting
  import Paths
  import opened FileDiscovery
  import SP = SimpleParser

  /** `NodeType`. */
  datatype NodeType = File | Module | Function | Class | Variable | Import | Export

  /** `EdgeType`. */
  datatype EdgeType = Imports | Calls | Extends | Implements | Contains | References | DependsOn

  /** `NodeMetadata`. */
  datatype NodeMetadata = NodeMetadata(
    name: string, language: Option<string>, size: Option<nat>, complexity: Option<nat>,
    parameters: seq<string>, returnType: Option<string>, isAsync: bool, isExported: bool,
    docstring: Option<string>)

  /** `Node`. */
  datatype Node = Node(id: string, nodeType: NodeType, filePath: string, lineNumber: nat, metadata: NodeMetadata)

  /** `EdgeMetadata`. */
  datatype EdgeMetadata = EdgeMetadata(callCount: nat, isDirect: bool, lineNumbers: seq<nat>)

  /** An edge of the graph: its end points (node positions), kind and metadata. */
  datatype Edge = Edge(source: nat, target: nat, edgeType: EdgeType, metadata: EdgeMetadata)

  /** `calculate_file_complexity`. */
  function FileComplexity(parsed: SP.ParsedFile): nat {
    |parsed.functions| + |parsed.classes| + |parsed.imports|
  }

  /** `calculate_function_complexity`. */
  function FunctionComplexity(f: SP.Function): (r: nat)
    ensures r > |f.parameters|
    ensures r == |f.parameters| + 2 <==> f.isAsync
  {
    |f.parameters| + if f.isAsync then 2 else 1
  }

  /** `calculate_class_complexity`. */
  function ClassComplexity(c: SP.Class): (r: nat)
    ensures r >= |c.methods| + |c.implements|
    ensures r == |c.methods| + |c.implements| <==> c.baseClass.None?
  {
    |c.methods| + |c.implements| + if c.baseClass.Some? then 1 else 0
  }

  /** `is_function_exported` and `is_class_exported`: some export of the file
      has exactly this name. */
  function IsExported(exports: seq<SP.Export>, name: string): (r: bool)
    ensures r <==> exists k :: 0 <= k < |exports| && exports[k].name == name
  {
    if |exports| == 0 then false
    else
      var r := IsExported(exports[..|exports| - 1], name);
      assert forall k :: 0 <= k < |exports| - 1 ==> exports[..|exports| - 1][k] == exports[k];
      r || exports[|exports| - 1].name == name
  }

  /** A Contains edge, as every `add_*` creates it. */
  function ContainsEdge(source: nat, target: nat, line: nat): Edge {
    Edge(source, target, Contains, EdgeMetadata(1, true, [line]))
  }

  /** The id of an import node. */
  function ImportId(parsed: SP.ParsedFile, imp: SP.Import): string {
    "import:" + parsed.fileInfo.path + ":" + imp.moduleName
  }

  /** The node `add_file_node` adds. */
  function FileNode(parsed: SP.ParsedFile): Node {
    var info := parsed.fileInfo;
    Node("file:" + info.path, File, info.path, 1,
      NodeMetadata(Paths.FileName(info.path).GetOr("unknown"), info.language, Some(info.size),
        Some(FileComplexity(parsed)), [], None, false, false, None))
  }

  /** The node `add_imports` adds for `imp`. */
  function ImportNode(parsed: SP.ParsedFile, imp: SP.Import): Node {
    Node(ImportId(parsed, imp), Import, parsed.fileInfo.path, imp.lineNumber,
      NodeMetadata(imp.moduleName, parsed.fileInfo.language, None, None, imp.items, None, false, false, None))
  }

  /** The node `add_functions` adds for `f`. */
  function FunctionNode(parsed: SP.ParsedFile, f: SP.Function): Node {
    Node("function:" + parsed.fileInfo.path + ":" + f.name, Function, parsed.fileInfo.path, f.lineNumber,
      NodeMetadata(f.name, parsed.fileInfo.language, None, Some(FunctionComplexity(f)), f.parameters,
        f.returnType, f.isAsync, IsExported(parsed.exports, f.name), None))
  }

  /** The node `add_classes` adds for `c`. */
  function ClassNode(parsed: SP.ParsedFile, c: SP.Class): Node {
    Node("class:" + parsed.fileInfo.path + ":" + c.name, Class, parsed.fileInfo.path, c.lineNumber,
      NodeMetadata(c.name, parsed.fileInfo.language, None, Some(ClassComplexity(c)), [], None, false,
        IsExported(parsed.exports, c.name), None))
  }

  /** The node `add_classes` adds for method `m` of `c`. */
  function MethodNode(parsed: SP.ParsedFile, c: SP.Class, m: SP.Function): Node {
    Node("method:" + parsed.fileInfo.path + ":" + c.name + ":" + m.name, Function, parsed.fileInfo.path,
      m.lineNumber,
      NodeMetadata(c.name + "." + m.name, parsed.fileInfo.language, None, Some(FunctionComplexity(m)),
        m.parameters, m.returnType, m.isAsync, false, None))
  }

  /** The File node of a file: its id, kind, line 1, the file name or
      "unknown" as its name, and the file's size and complexity. */
  lemma FileNodeShape(parsed: SP.ParsedFile)
    ensures var n, path := FileNode(parsed), parsed.fileInfo.path;
      && n.id == "file:" + path && n.nodeType == File && n.filePath == path && n.lineNumber == 1
      && n.metadata.name == (if Paths.FileName(path).Some? then Paths.FileName(path).value else "unknown")
      && n.metadata.size == Some(parsed.fileInfo.size) && n.metadata.complexity == Some(FileComplexity(parsed))
  {
  }

  /** The node of an import: its id, kind and line, the module as its name
      and the items as its parameters. */
  lemma ImportNodeShape(parsed: SP.ParsedFile, imp: SP.Import)
    ensures var n, path := ImportNode(parsed, imp), parsed.fileInfo.path;
      && n.id == "import:" + path + ":" + imp.moduleName && n.nodeType == Import
      && n.filePath == path && n.lineNumber == imp.lineNumber
      && n.metadata.name == imp.moduleName && n.metadata.parameters == imp.items && n.metadata.complexity.None?
  {
  }

  /** The node of a function: its id, kind, line and name, its complexity,
      and whether an export of the file names it. */
  lemma FunctionNodeShape(parsed: SP.ParsedFile, f: SP.Function)
    ensures var n, path := FunctionNode(parsed, f), parsed.fileInfo.path;
      && n.id == "function:" + path + ":" + f.name && n.nodeType == Function
      && n.filePath == path && n.lineNumber == f.lineNumber
      && n.metadata.name == f.name && n.metadata.complexity == Some(FunctionComplexity(f))
      && (n.metadata.isExported <==> exists k :: 0 <= k < |parsed.exports| && parsed.exports[k].name == f.name)
  {
  }

  /** The node of a class: its id, kind, line and name, its complexity, and
      whether an export of the file names it. */
  lemma ClassNodeShape(parsed: SP.ParsedFile, c: SP.Class)
    ensures var n, path := ClassNode(parsed, c), parsed.fileInfo.path;
      && n.id == "class:" + path + ":" + c.name && n.nodeType == Class
      && n.filePath == path && n.lineNumber == c.lineNumber
      && n.metadata.name == c.name && n.metadata.complexity == Some(ClassComplexity(c))
      && (n.metadata.isExported <==> exists k :: 0 <= k < |parsed.exports| && parsed.exports[k].name == c.name)
  {
  }

  /** The node of a method: a Function node with the class in its id and a
      "Class.method" name, never exported. */
  lemma MethodNodeShape(parsed: SP.ParsedFile, c: SP.Class, m: SP.Function)
    ensures var n, path := MethodNode(parsed, c, m), parsed.fileInfo.path;
      && n.id == "method:" + path + ":" + c.name + ":" + m.name && n.nodeType == Function
      && n.filePath == path && n.lineNumber == m.lineNumber
      && n.metadata.name == c.name + "." + m.name && !n.metadata.isExported
      && n.metadata.complexity == Some(FunctionComplexity(m))
  {
  }

  /** Ids made by different `add_*` steps never coincide, whatever the
      paths and names: each kind starts with its own tag ("file:",
      "import:", "function:", "class:", "method:"), so `node_map` can only
      overwrite a node with one of the same kind. */
  lemma IdsByKind(p: SP.ParsedFile, q: SP.ParsedFile, imp: SP.Import, f: SP.Function, c: SP.Class, d: SP.Class, m: SP.Function)
    ensures FileNode(p).id != ImportNode(q, imp).id
    ensures FileNode(p).id != FunctionNode(q, f).id
    ensures FileNode(p).id != ClassNode(q, c).id
    ensures FileNode(p).id != MethodNode(q, d, m).id
    ensures ImportNode(p, imp).id != FunctionNode(q, f).id
    ensures ImportNode(p, imp).id != ClassNode(q, c).id
    ensures ImportNode(p, imp).id != MethodNode(q, d, m).id
    ensures FunctionNode(p, f).id != ClassNode(q, c).id
    ensures FunctionNode(p, f).id != MethodNode(q, d, m).id
    ensures ClassNode(p, c).id != MethodNode(q, d, m).id
  {
    assert FileNode(p).id[0] == 'f' && FileNode(p).id[1] == 'i';
    assert ImportNode(p, imp).id[0] == 'i' && ImportNode(q, imp).id[0] == 'i';
    assert FunctionNode(p, f).id[0] == 'f';
    assert FunctionNode(q, f).id[0] == 'f' && FunctionNode(q, f).id[1] == 'u';
    assert ClassNode(p, c).id[0] == 'c' && ClassNode(q, c).id[0] == 'c';
    assert MethodNode(q, d, m).id[0] == 'm';
  }

  /** The import nodes of a file, in order. */
  function ImportNodes(parsed: SP.ParsedFile): seq<Node> {
    seq(|parsed.imports|, k requires 0 <= k < |parsed.imports| => ImportNode(parsed, parsed.imports[k]))
  }

  /** The function nodes of a file, in order. */
  function FunctionNodes(parsed: SP.ParsedFile): seq<Node> {
    seq(|parsed.functions|, k requires 0 <= k < |parsed.functions| => FunctionNode(parsed, parsed.functions[k]))
  }

  /** The method nodes of a class, in order. */
  function MethodNodes(parsed: SP.ParsedFile, c: SP.Class): seq<Node> {
    seq(|c.methods|, k requires 0 <= k < |c.methods| => MethodNode(parsed, c, c.methods[k]))
  }

  /** A class node followed by the nodes of its methods. */
  function ClassBlock(parsed: SP.ParsedFile, c: SP.Class): seq<Node> {
    [ClassNode(parsed, c)] + MethodNodes(parsed, c)
  }

  /** The blocks of the first `n` classes of `cs`, one after the other. */
  function ClassNodes(parsed: SP.ParsedFile, cs: seq<SP.Class>, n: nat): seq<Node>
    requires n <= |cs|
  {
    if n == 0 then [] else ClassNodes(parsed, cs, n - 1) + ClassBlock(parsed, cs[n - 1])
  }

  /** The number of nodes the first `n` classes of `cs` and their methods take. */
  function ClassBlockSize(cs: seq<SP.Class>, n: nat): nat
    requires n <= |cs|
  {
    if n == 0 then 0 else ClassBlockSize(cs, n - 1) + 1 + |cs[n - 1].methods|
  }

  /** Contains edges from `source` to the consecutive nodes starting at
      `first`, one per line number. */
  function ChildEdges(source: nat, first: nat, lines: seq<nat>): seq<Edge> {
    seq(|lines|, k requires 0 <= k < |lines| => ContainsEdge(source, first + k, lines[k]))
  }

  /** The line numbers of imports. */
  function ImportLines(imports: seq<SP.Import>): seq<nat> {
    seq(|imports|, k requires 0 <= k < |imports| => imports[k].lineNumber)
  }

  /** The line numbers of functions. */
  function FunctionLines(functions: seq<SP.Function>): seq<nat> {
    seq(|functions|, k requires 0 <= k < |functions| => functions[k].lineNumber)
  }

  /** The edges one class adds when the file node is `fileIndex` and the
      class node lands at `classIndex`: file to class, then class to each
      method. */
  function ClassEdgeBlock(c: SP.Class, fileIndex: nat, classIndex: nat): seq<Edge> {
    [ContainsEdge(fileIndex, classIndex, c.lineNumber)] + ChildEdges(classIndex, classIndex + 1, FunctionLines(c.methods))
  }

  /** The edges `add_classes` adds for the first `n` classes of `cs` when the
      file node is `fileIndex` and the first class node lands at `first`. */
  function ClassEdges(cs: seq<SP.Class>, fileIndex: nat, first: nat, n: nat): seq<Edge>
    requires n <= |cs|
  {
    if n == 0 then []
    else ClassEdges(cs, fileIndex, first, n - 1) + ClassEdgeBlock(cs[n - 1], fileIndex, first + ClassBlockSize(cs, n - 1))
  }

  /** The nodes of a file's imports, functions, and classes with their
      methods, in the order they are added. */
  function FileContents(parsed: SP.ParsedFile): seq<Node> {
    ImportNodes(parsed) + FunctionNodes(parsed) + ClassNodes(parsed, parsed.classes, |parsed.classes|)
  }

  /** The nodes one file contributes: its File node, then its contents. */
  function FileBlock(parsed: SP.ParsedFile): seq<Node> {
    [FileNode(parsed)] + FileContents(parsed)
  }

  /** The number of nodes one file contributes. */
  function BlockSize(parsed: SP.ParsedFile): nat {
    1 + |parsed.imports| + |parsed.functions| + ClassBlockSize(parsed.classes, |parsed.classes|)
  }

  /** The Contains edges of a file's contents when its File node is at
      `fileIndex` and its first content node lands at `first`. */
  function ContentEdges(parsed: SP.ParsedFile, fileIndex: nat, first: nat): seq<Edge> {
    var functionsAt := first + |parsed.imports|;
    var classesAt := functionsAt + |parsed.functions|;
    ChildEdges(fileIndex, first, ImportLines(parsed.imports))
    + ChildEdges(fileIndex, functionsAt, FunctionLines(parsed.functions))
    + ClassEdges(parsed.classes, fileIndex, classesAt, |parsed.classes|)
  }

  /** The Contains edges one file contributes when its File node is at `base`. */
  function FileEdges(parsed: SP.ParsedFile, base: nat): seq<Edge> {
    ContentEdges(parsed, base, base + 1)
  }

  /** The nodes the first `n` files contribute. */
  function GraphNodes(files: seq<SP.ParsedFile>, n: nat): seq<Node>
    requires n <= |files|
  {
    if n == 0 then [] else GraphNodes(files, n - 1) + FileBlock(files[n - 1])
  }

  /** The number of nodes the first `n` files contribute. */
  function GraphSize(files: seq<SP.ParsedFile>, n: nat): nat
    requires n <= |files|
  {
    if n == 0 then 0 else GraphSize(files, n - 1) + BlockSize(files[n - 1])
  }

  /** The Contains edges the first `n` files contribute when the first node
      lands at `base`. */
  function GraphContainsEdges(files: seq<SP.ParsedFile>, base: nat, n: nat): seq<Edge>
    requires n <= |files|
  {
    if n == 0 then []
    else GraphContainsEdges(files, base, n - 1) + FileEdges(files[n - 1], base + GraphSize(files, n - 1))
  }

  /** `node_map` after the nodes `ns` are added, at positions from `base` on,
      to a graph whose map was `m`. */
  function IdIndexFrom(m: map<string, nat>, base: nat, ns: seq<Node>): map<string, nat> {
    if |ns| == 0 then m
    else IdIndexFrom(m, base, ns[..|ns| - 1])[ns[|ns| - 1].id := base + |ns| - 1]
  }

  /** `file_nodes` after the first `n` files are added to a graph whose map
      was `m` and whose first new node lands at `base`. */
  function FileNodeIndex(m: map<string, nat>, base: nat, files: seq<SP.ParsedFile>, n: nat): map<string, nat>
    requires n <= |files|
  {
    if n == 0 then m
    else FileNodeIndex(m, base, files, n - 1)[files[n - 1].fileInfo.path := base + GraphSize(files, n - 1)]
  }

  /** Adding two runs of nodes indexes them one after the other. */
  lemma {:induction false} IdIndexFromAppend(m: map<string, nat>, base: nat, a: seq<Node>, b: seq<Node>)
    ensures IdIndexFrom(m, base, a + b) == IdIndexFrom(IdIndexFrom(m, base, a), base + |a|, b)
  {
    if |b| > 0 {
      assert (a + b)[..|a + b| - 1] == a + b[..|b| - 1];
      IdIndexFromAppend(m, base, a, b[..|b| - 1]);
    } else {
      assert a + b == a;
    }
  }

  /** Adding one node points its id at its position. */
  lemma IdIndexFromSnoc(m: map<string, nat>, base: nat, ns: seq<Node>, x: Node)
    ensures IdIndexFrom(m, base, ns + [x]) == IdIndexFrom(m, base, ns)[x.id := base + |ns|]
  {
    assert (ns + [x])[..|ns|] == ns;
  }

  /** Indexing a node and then a run of nodes after it. */
  lemma IdIndexFromCons(m: map<string, nat>, base: nat, x: Node, rest: seq<Node>)
    ensures IdIndexFrom(m, base, [x] + rest) == IdIndexFrom(m[x.id := base], base + 1, rest)
  {
    IdIndexFromSnoc(m, base, [], x);
    assert [] + [x] == [x];
    IdIndexFromAppend(m, base, [x], rest);
  }

  /** Indexing three runs of nodes one after the other. */
  lemma IdIndexFromRuns(m: map<string, nat>, base: nat, a: seq<Node>, b: seq<Node>, c: seq<Node>)
    ensures IdIndexFrom(m, base, a + b + c)
      == IdIndexFrom(IdIndexFrom(IdIndexFrom(m, base, a), base + |a|, b), base + |a| + |b|, c)
  {
    IdIndexFromAppend(m, base, a + b, c);
    IdIndexFromAppend(m, base, a, b);
  }

  /** `IdIndexFromAppend`, stated for named intermediate maps. */
  lemma IdIndexFromAppendAt(m: map<string, nat>, base: nat, a: seq<Node>, b: seq<Node>, whole: seq<Node>,
                            before: map<string, nat>, after: map<string, nat>)
    requires whole == a + b && before == IdIndexFrom(m, base, a)
    requires after == IdIndexFrom(before, base + |a|, b)
    ensures after == IdIndexFrom(m, base, whole)
  {
    IdIndexFromAppend(m, base, a, b);
  }

  /** Appending `block` to a sequence that ends with `done`. */
  lemma Extend<T>(prefix: seq<T>, done: seq<T>, block: seq<T>, acc: seq<T>)
    requires acc == prefix + done
    ensures acc + block == prefix + (done + block)
  {}

  /** Regrouping a concatenation. */
  lemma Assoc3<T>(a: seq<T>, b: seq<T>, c: seq<T>, d: seq<T>)
    ensures a + b + c + d == a + (b + c + d)
  {}

  /** Regrouping a concatenation. */
  lemma Assoc4<T>(a: seq<T>, b: seq<T>, c: seq<T>, d: seq<T>, e: seq<T>)
    ensures a + b + c + d + e == a + (b + c + d + e)
  {}

  /** `find_imported_file`: the position of the first file whose file stem is
      `moduleName` (see `FindImportedFileFirst`). */
  function FindImportedFile(files: seq<SP.ParsedFile>, moduleName: string): (r: Option<nat>)
    ensures r.Some? ==> r.value < |files|
  {
    if |files| == 0 then None
    else if Paths.FileStem(files[0].fileInfo.path) == Some(moduleName) then Some(0)
    else
      match FindImportedFile(files[1..], moduleName)
      case Some(k) => Some(k + 1)
      case None => None
  }

  /** The file found has stem `moduleName` and no earlier file has; when none
      is found, no file has that stem. */
  lemma {:induction false} FindImportedFileFirst(files: seq<SP.ParsedFile>, moduleName: string)
    ensures FindImportedFile(files, moduleName).Some? ==>
      Paths.FileStem(files[FindImportedFile(files, moduleName).value].fileInfo.path) == Some(moduleName)
    ensures FindImportedFile(files, moduleName).Some? ==>
      forall k :: 0 <= k < FindImportedFile(files, moduleName).value ==> Paths.FileStem(files[k].fileInfo.path) != Some(moduleName)
    ensures FindImportedFile(files, moduleName).None? ==>
      forall k :: 0 <= k < |files| ==> Paths.FileStem(files[k].fileInfo.path) != Some(moduleName)
  {
    if |files| > 0 && Paths.FileStem(files[0].fileInfo.path) != Some(moduleName) {
      FindImportedFileFirst(files[1..], moduleName);
      forall k | 1 <= k < |files| ensures files[k] == files[1..][k - 1] {}
    }
  }

  /** The DependsOn edge `add_call_relationships` adds for one import, if any. */
  function ImportDependency(
    all: seq<SP.ParsedFile>, parsed: SP.ParsedFile, imp: SP.Import,
    nodeMap: map<string, nat>, fileNodes: map<string, nat>): seq<Edge>
  {
    match FindImportedFile(all, imp.moduleName)
    case None => []
    case Some(t) =>
      var id := ImportId(parsed, imp);
      var path := all[t].fileInfo.path;
      if id in nodeMap && path in fileNodes then
        [Edge(nodeMap[id], fileNodes[path], DependsOn, EdgeMetadata(1, true, [imp.lineNumber]))]
      else []
  }

  /** The DependsOn edges for the first `n` imports of `parsed`, in order. */
  function ImportDependencies(
    all: seq<SP.ParsedFile>, parsed: SP.ParsedFile, n: nat,
    nodeMap: map<string, nat>, fileNodes: map<string, nat>): seq<Edge>
    requires n <= |parsed.imports|
  {
    if n == 0 then []
    else
      ImportDependencies(all, parsed, n - 1, nodeMap, fileNodes)
      + ImportDependency(all, parsed, parsed.imports[n - 1], nodeMap, fileNodes)
  }

  /** The DependsOn edges for the imports of the first `n` files of `all`, in order. */
  function Dependencies(all: seq<SP.ParsedFile>, n: nat, nodeMap: map<string, nat>, fileNodes: map<string, nat>): seq<Edge>
    requires n <= |all|
  {
    if n == 0 then []
    else
      Dependencies(all, n - 1, nodeMap, fileNodes)
      + ImportDependencies(all, all[n - 1], |all[n - 1].imports|, nodeMap, fileNodes)
  }

  /** The `Debug` name of a node type: the variant's name. */
  function NodeTypeName(t: NodeType): string {
    match t
    case File => "File"
    case Module => "Module"
    case Function => "Function"
    case Class => "Class"
    case Variable => "Variable"
    case Import => "Import"
    case Export => "Export"
  }

  /** The `Debug` name of an edge type: the variant's name. */
  function EdgeTypeName(t: EdgeType): string {
    match t
    case Imports => "Imports"
    case Calls => "Calls"
    case Extends => "Extends"
    case Implements => "Implements"
    case Contains => "Contains"
    case References => "References"
    case DependsOn => "DependsOn"
  }

  /** The type name of each node, in order. */
  function NodeTypeNames(ns: seq<Node>): seq<string> {
    seq(|ns|, k requires 0 <= k < |ns| => NodeTypeName(ns[k].nodeType))
  }

  /** The type name of each edge, in order. */
  function EdgeTypeNames(es: seq<Edge>): seq<string> {
    seq(|es|, k requires 0 <= k < |es| => EdgeTypeName(es[k].edgeType))
  }

  /** `DependencyAnalysis`. `avgDegree` is the exact quotient; the source's
      is the nearest `f64`. */
  datatype DependencyAnalysis = DependencyAnalysis(
    totalNodes: nat, totalEdges: nat, nodeTypes: map<string, nat>, edgeTypes: map<string, nat>,
    stronglyConnectedComponents: nat, avgDegree: real)

  /** `GraphBuilder`. */
  class GraphBuilder {
    var nodes: seq<Node>
    var edges: seq<Edge>
    var nodeMap: map<string, nat>
    var fileNodes: map<string, nat>

    /** Every position `file_nodes` holds names a node. */
    ghost predicate Valid()
      reads this
    {
      forall p :: p in fileNodes ==> fileNodes[p] < |nodes|
    }

    /** Every position `node_map` holds names a node. */
    ghost predicate IdsBounded()
      reads this
    {
      forall id :: id in nodeMap ==> nodeMap[id] < |nodes|
    }

    /** `new`: an empty graph. */
    constructor()
      ensures Valid() && IdsBounded()
      ensures nodes == [] && edges == [] && nodeMap == map[] && fileNodes == map[]
    {
      nodes, edges, nodeMap, fileNodes := [], [], map[], map[];
    }

    /** `graph.add_node` followed by the `node_map` insert that always comes with it. */
    method AddNode(node: Node) returns (index: nat)
      modifies this
      requires Valid()
      ensures Valid()
      ensures index == |old(nodes)|
      ensures nodes == old(nodes) + [node]
      ensures nodeMap == old(nodeMap)[node.id := index]
      ensures edges == old(edges) && fileNodes == old(fileNodes)
    {
      index := |nodes|;
      nodes := nodes + [node];
      nodeMap := nodeMap[node.id := index];
    }

    /** `graph.add_edge`, which panics unless both end points name nodes. */
    method AddEdge(edge: Edge)
      modifies this
      requires edge.source < |nodes| && edge.target < |nodes|
      ensures edges == old(edges) + [edge]
      ensures nodes == old(nodes) && nodeMap == old(nodeMap) && fileNodes == old(fileNodes)
    {
      edges := edges + [edge];
    }

    /** The step every `add_*` loop repeats: add `node` and a Contains edge
        from `parent` to it. */
    method AddChild(node: Node, parent: nat, line: nat) returns (index: nat)
      modifies this
      requires Valid() && parent < |nodes|
      ensures Valid()
      ensures index == |old(nodes)| && nodes == old(nodes) + [node]
      ensures edges == old(edges) + [ContainsEdge(parent, index, line)]
      ensures nodeMap == old(nodeMap)[node.id := index] && fileNodes == old(fileNodes)
    {
      index := AddNode(node);
      AddEdge(ContainsEdge(parent, index, line));
    }

    /** The loop every `add_*` method runs: add each of `children`, each with
        a Contains edge from `parent` carrying its line number. */
    method AddChildren(children: seq<Node>, lines: seq<nat>, parent: nat)
      modifies this
      requires Valid() && parent < |nodes| && |lines| == |children|
      ensures Valid()
      ensures nodes == old(nodes) + children
      ensures edges == old(edges) + ChildEdges(parent, |old(nodes)|, lines)
      ensures nodeMap == IdIndexFrom(old(nodeMap), |old(nodes)|, children)
      ensures fileNodes == old(fileNodes)
    {
      ghost var first := |nodes|;
      for k := 0 to |children|
        invariant Valid()
        invariant fileNodes == old(fileNodes)
        invariant nodes == old(nodes) + children[..k]
        invariant edges == old(edges) + ChildEdges(parent, first, lines[..k])
        invariant nodeMap == IdIndexFrom(old(nodeMap), first, children[..k])
      {
        var index := AddChild(children[k], parent, lines[k]);
        assert children[..k + 1] == children[..k] + [children[k]];
        IdIndexFromSnoc(old(nodeMap), first, children[..k], children[k]);
        assert ChildEdges(parent, first, lines[..k + 1])
          == ChildEdges(parent, first, lines[..k]) + [ContainsEdge(parent, index, lines[k])];
      }
      assert children[..|children|] == children;
      assert lines[..|lines|] == lines;
    }

    /** `add_file_node`. */
    method AddFileNode(parsed: SP.ParsedFile)
      modifies this
      requires Valid()
      ensures Valid()
      ensures nodes == old(nodes) + [FileNode(parsed)] && edges == old(edges)
      ensures nodeMap == old(nodeMap)[FileNode(parsed).id := |old(nodes)|]
      ensures fileNodes == old(fileNodes)[parsed.fileInfo.path := |old(nodes)|]
    {
      var index := AddNode(FileNode(parsed));
      fileNodes := fileNodes[parsed.fileInfo.path := index];
    }

    /** `add_imports`: one node per import, each contained in the file's node. */
    method AddImports(parsed: SP.ParsedFile)
      modifies this
      requires Valid() && parsed.fileInfo.path in fileNodes
      ensures Valid()
      ensures nodes == old(nodes) + ImportNodes(parsed)
      ensures edges == old(edges)
        + ChildEdges(old(fileNodes)[parsed.fileInfo.path], |old(nodes)|, ImportLines(parsed.imports))
      ensures nodeMap == IdIndexFrom(old(nodeMap), |old(nodes)|, ImportNodes(parsed))
      ensures fileNodes == old(fileNodes)
    {
      var fileNode := fileNodes[parsed.fileInfo.path];
      AddChildren(ImportNodes(parsed), ImportLines(parsed.imports), fileNode);
    }

    /** `add_functions`: one node per function, each contained in the file's node. */
    method AddFunctions(parsed: SP.ParsedFile)
      modifies this
      requires Valid() && parsed.fileInfo.path in fileNodes
      ensures Valid()
      ensures nodes == old(nodes) + FunctionNodes(parsed)
      ensures edges == old(edges)
        + ChildEdges(old(fileNodes)[parsed.fileInfo.path], |old(nodes)|, FunctionLines(parsed.functions))
      ensures nodeMap == IdIndexFrom(old(nodeMap), |old(nodes)|, FunctionNodes(parsed))
      ensures fileNodes == old(fileNodes)
    {
      var fileNode := fileNodes[parsed.fileInfo.path];
      AddChildren(FunctionNodes(parsed), FunctionLines(parsed.functions), fileNode);
    }

    /** One iteration of `add_classes`: the node of class `cls`, contained in
        the file's node, then one node per method, contained in the class's. */
    method AddClass(parsed: SP.ParsedFile, cls: SP.Class, fileNode: nat)
      modifies this
      requires Valid() && fileNode < |nodes|
      ensures Valid()
      ensures nodes == old(nodes) + ClassBlock(parsed, cls)
      ensures edges == old(edges) + ClassEdgeBlock(cls, fileNode, |old(nodes)|)
      ensures nodeMap == IdIndexFrom(old(nodeMap), |old(nodes)|, ClassBlock(parsed, cls))
      ensures fileNodes == old(fileNodes)
    {
      var classNode := AddChild(ClassNode(parsed, cls), fileNode, cls.lineNumber);
      AddChildren(MethodNodes(parsed, cls), FunctionLines(cls.methods), classNode);
      IdIndexFromCons(old(nodeMap), classNode, ClassNode(parsed, cls), MethodNodes(parsed, cls));
    }

    /** `add_classes`. */
    method AddClasses(parsed: SP.ParsedFile)
      modifies this
      requires Valid() && parsed.fileInfo.path in fileNodes
      ensures Valid()
      ensures nodes == old(nodes) + ClassNodes(parsed, parsed.classes, |parsed.classes|)
      ensures edges == old(edges)
        + ClassEdges(parsed.classes, old(fileNodes)[parsed.fileInfo.path], |old(nodes)|, |parsed.classes|)
      ensures nodeMap == IdIndexFrom(old(nodeMap), |old(nodes)|, ClassNodes(parsed, parsed.classes, |parsed.classes|))
      ensures fileNodes == old(fileNodes)
    {
      var fileNode := fileNodes[parsed.fileInfo.path];
      ghost var first := |nodes|;
      var classes := parsed.classes;
      for k := 0 to |classes|
        invariant Valid()
        invariant fileNodes == old(fileNodes)
        invariant nodes == old(nodes) + ClassNodes(parsed, classes, k)
        invariant |nodes| == first + ClassBlockSize(classes, k)
        invariant edges == old(edges) + ClassEdges(classes, fileNode, first, k)
        invariant nodeMap == IdIndexFrom(old(nodeMap), first, ClassNodes(parsed, classes, k))
      {
        ghost var (nodes0, edges0, map0) := (nodes, edges, nodeMap);
        AddClass(parsed, classes[k], fileNode);
        ClassNodesStep(old(nodes), parsed, classes, k, nodes0, nodes);
        ClassEdgesStep(old(edges), classes, fileNode, first, k, edges0, edges);
        ClassMapStep(old(nodeMap), first, parsed, classes, k, map0, nodeMap);
      }
    }

    /** One iteration of `add_call_relationships`: the DependsOn edges of the
        imports of `parsed`. */
    method AddImportDependencies(files: seq<SP.ParsedFile>, parsed: SP.ParsedFile)
      modifies this
      requires IdsBounded() && Valid()
      ensures nodes == old(nodes) && nodeMap == old(nodeMap) && fileNodes == old(fileNodes)
      ensures edges == old(edges) + ImportDependencies(files, parsed, |parsed.imports|, nodeMap, fileNodes)
    {
      for j := 0 to |parsed.imports|
        invariant nodes == old(nodes) && nodeMap == old(nodeMap) && fileNodes == old(fileNodes)
        invariant edges == old(edges) + ImportDependencies(files, parsed, j, nodeMap, fileNodes)
      {
        var imp := parsed.imports[j];
        Extend(old(edges), ImportDependencies(files, parsed, j, nodeMap, fileNodes),
          ImportDependency(files, parsed, imp, nodeMap, fileNodes), edges);
        var target := FindImportedFile(files, imp.moduleName);
        if target.Some? {
          var id := ImportId(parsed, imp);
          var path := files[target.value].fileInfo.path;
          if id in nodeMap && path in fileNodes {
            AddEdge(Edge(nodeMap[id], fileNodes[path], DependsOn, EdgeMetadata(1, true, [imp.lineNumber])));
          }
        }
      }
    }

    /** `add_call_relationships`: a DependsOn edge from each import's node to
        the node of the first file whose stem is the imported module. */
    method AddCallRelationships(files: seq<SP.ParsedFile>)
      modifies this
      requires IdsBounded() && Valid()
      ensures nodes == old(nodes) && nodeMap == old(nodeMap) && fileNodes == old(fileNodes)
      ensures edges == old(edges) + Dependencies(files, |files|, nodeMap, fileNodes)
    {
      for i := 0 to |files|
        invariant nodes == old(nodes) && nodeMap == old(nodeMap) && fileNodes == old(fileNodes)
        invariant edges == old(edges) + Dependencies(files, i, nodeMap, fileNodes)
      {
        Extend(old(edges), Dependencies(files, i, nodeMap, fileNodes),
          ImportDependencies(files, files[i], |files[i].imports|, nodeMap, fileNodes), edges);
        AddImportDependencies(files, files[i]);
      }
    }

    /** The imports, functions and classes of one file, after its File node. */
    method AddFileContents(parsed: SP.ParsedFile)
      modifies this
      requires Valid() && parsed.fileInfo.path in fileNodes
      ensures Valid()
      ensures nodes == old(nodes) + FileContents(parsed)
      ensures edges == old(edges) + ContentEdges(parsed, old(fileNodes)[parsed.fileInfo.path], |old(nodes)|)
      ensures nodeMap == IdIndexFrom(old(nodeMap), |old(nodes)|, FileContents(parsed))
      ensures fileNodes == old(fileNodes)
    {
      AddImports(parsed);
      AddFunctions(parsed);
      AddClasses(parsed);
      var fileNode := fileNodes[parsed.fileInfo.path];
      var first := |old(nodes)|;
      Assoc3(old(nodes), ImportNodes(parsed), FunctionNodes(parsed), ClassNodes(parsed, parsed.classes, |parsed.classes|));
      Assoc3(old(edges), ChildEdges(fileNode, first, ImportLines(parsed.imports)),
        ChildEdges(fileNode, first + |parsed.imports|, FunctionLines(parsed.functions)),
        ClassEdges(parsed.classes, fileNode, first + |parsed.imports| + |parsed.functions|, |parsed.classes|));
      IdIndexFromRuns(old(nodeMap), first, ImportNodes(parsed), FunctionNodes(parsed),
        ClassNodes(parsed, parsed.classes, |parsed.classes|));
    }

    /** One iteration of `build_graph`'s first loop. */
    method AddFile(parsed: SP.ParsedFile)
      modifies this
      requires Valid()
      ensures Valid()
      ensures nodes == old(nodes) + FileBlock(parsed)
      ensures edges == old(edges) + FileEdges(parsed, |old(nodes)|)
      ensures nodeMap == IdIndexFrom(old(nodeMap), |old(nodes)|, FileBlock(parsed))
      ensures fileNodes == old(fileNodes)[parsed.fileInfo.path := |old(nodes)|]
    {
      AddFileNode(parsed);
      Extend(old(nodes), [FileNode(parsed)], FileContents(parsed), nodes);
      IdIndexFromCons(old(nodeMap), |old(nodes)|, FileNode(parsed), FileContents(parsed));
      AddFileContents(parsed);
    }

    /** The first loop of `build_graph`: each file's File node, imports,
        functions and classes, file after file. */
    method AddFiles(files: seq<SP.ParsedFile>)
      modifies this
      requires Valid()
      ensures Valid()
      ensures nodes == old(nodes) + GraphNodes(files, |files|)
      ensures |nodes| == |old(nodes)| + GraphSize(files, |files|)
      ensures nodeMap == IdIndexFrom(old(nodeMap), |old(nodes)|, GraphNodes(files, |files|))
      ensures fileNodes == FileNodeIndex(old(fileNodes), |old(nodes)|, files, |files|)
      ensures edges == old(edges) + GraphContainsEdges(files, |old(nodes)|, |files|)
    {
      ghost var base := |nodes|;
      for i := 0 to |files|
        invariant Valid()
        invariant nodes == old(nodes) + GraphNodes(files, i)
        invariant |nodes| == base + GraphSize(files, i)
        invariant edges == old(edges) + GraphContainsEdges(files, base, i)
        invariant nodeMap == IdIndexFrom(old(nodeMap), base, GraphNodes(files, i))
        invariant fileNodes == FileNodeIndex(old(fileNodes), base, files, i)
      {
        ghost var (nodes0, edges0, map0, index0) := (nodes, edges, nodeMap, fileNodes);
        AddFile(files[i]);
        NodesStep(old(nodes), files, i, nodes0, nodes);
        EdgesStep(old(edges), base, files, i, edges0, edges);
        NodeMapStep(old(nodeMap), base, files, i, map0, nodeMap);
        FileNodesStep(old(fileNodes), base, files, i, index0, fileNodes);
      }
    }

    /** `build_graph`: for each file its File node, imports, functions and
        classes, then the DependsOn edges between files. */
    method BuildGraph(files: seq<SP.ParsedFile>)
      modifies this
      requires Valid() && IdsBounded()
      ensures Valid() && IdsBounded()
      ensures nodes == old(nodes) + GraphNodes(files, |files|)
      ensures nodeMap == IdIndexFrom(old(nodeMap), |old(nodes)|, GraphNodes(files, |files|))
      ensures fileNodes == FileNodeIndex(old(fileNodes), |old(nodes)|, files, |files|)
      ensures edges == old(edges) + GraphContainsEdges(files, |old(nodes)|, |files|)
        + Dependencies(files, |files|, nodeMap, fileNodes)
    {
      AddFiles(files);
      IdIndexFromBounded(old(nodeMap), |old(nodes)|, GraphNodes(files, |files|), |nodes|);
      AddCallRelationships(files);
    }

    /** `analyze_dependencies`: the node and edge counts, a histogram of node
        types and one of edge types, each adding up to its count, no
        components, and edges per node (0 for an empty graph). */
    method AnalyzeDependencies() returns (a: DependencyAnalysis)
      ensures a.totalNodes == |nodes| && a.totalEdges == |edges|
      ensures a.nodeTypes == Counting.Tally(NodeTypeNames(nodes))
      ensures a.edgeTypes == Counting.Tally(EdgeTypeNames(edges))
      ensures Counting.SumValues(a.nodeTypes) == a.totalNodes
      ensures Counting.SumValues(a.edgeTypes) == a.totalEdges
      ensures a.stronglyConnectedComponents == 0
      ensures a.avgDegree == if |nodes| > 0 then |edges| as real / |nodes| as real else 0.0
    {
      var nodeTypes: map<string, nat> := map[];
      var edgeTypes: map<string, nat> := map[];
      ghost var nodeNames, edgeNames := NodeTypeNames(nodes), EdgeTypeNames(edges);
      for k := 0 to |nodes|
        invariant nodeTypes == Counting.Tally(nodeNames[..k])
      {
        assert nodeNames[..k + 1] == nodeNames[..k] + [NodeTypeName(nodes[k].nodeType)];
        Counting.TallySnoc(nodeNames[..k], NodeTypeName(nodes[k].nodeType));
        nodeTypes := Counting.Bump(nodeTypes, NodeTypeName(nodes[k].nodeType));
      }
      for k := 0 to |edges|
        invariant edgeTypes == Counting.Tally(edgeNames[..k])
      {
        assert edgeNames[..k + 1] == edgeNames[..k] + [EdgeTypeName(edges[k].edgeType)];
        Counting.TallySnoc(edgeNames[..k], EdgeTypeName(edges[k].edgeType));
        edgeTypes := Counting.Bump(edgeTypes, EdgeTypeName(edges[k].edgeType));
      }
      assert nodeNames[..|nodes|] == nodeNames && edgeNames[..|edges|] == edgeNames;
      Counting.TallySum(nodeNames);
      Counting.TallySum(edgeNames);
      var avgDegree := if |nodes| > 0 then |edges| as real / |nodes| as real else 0.0;
      a := DependencyAnalysis(|nodes|, |edges|, nodeTypes, edgeTypes, 0, avgDegree);
    }
  }

  /** The first `n` class blocks hold as many nodes as their size says. */
  lemma {:induction false} ClassNodesSize(parsed: SP.ParsedFile, cs: seq<SP.Class>, n: nat)
    requires n <= |cs|
    ensures |ClassNodes(parsed, cs, n)| == ClassBlockSize(cs, n)
  {
    if n > 0 {
      ClassNodesSize(parsed, cs, n - 1);
    }
  }

  /** A file's block holds as many nodes as its size says. */
  lemma FileBlockSize(parsed: SP.ParsedFile)
    ensures |FileBlock(parsed)| == BlockSize(parsed)
  {
    ClassNodesSize(parsed, parsed.classes, |parsed.classes|);
  }

  /** The graph holds as many nodes as its size says. */
  lemma {:induction false} GraphNodesSize(files: seq<SP.ParsedFile>, n: nat)
    requires n <= |files|
    ensures |GraphNodes(files, n)| == GraphSize(files, n)
  {
    if n > 0 {
      GraphNodesSize(files, n - 1);
      FileBlockSize(files[n - 1]);
    }
  }

  /** One more class extends the node list by its block. */
  lemma ClassNodesStep(prefix: seq<Node>, parsed: SP.ParsedFile, cs: seq<SP.Class>, k: nat,
                       before: seq<Node>, after: seq<Node>)
    requires k < |cs| && before == prefix + ClassNodes(parsed, cs, k)
    requires after == before + ClassBlock(parsed, cs[k])
    ensures after == prefix + ClassNodes(parsed, cs, k + 1)
  {
    Extend(prefix, ClassNodes(parsed, cs, k), ClassBlock(parsed, cs[k]), before);
  }

  /** One more class extends the edge list by its Contains edges. */
  lemma ClassEdgesStep(prefix: seq<Edge>, cs: seq<SP.Class>, fileIndex: nat, first: nat, k: nat,
                       before: seq<Edge>, after: seq<Edge>)
    requires k < |cs| && before == prefix + ClassEdges(cs, fileIndex, first, k)
    requires after == before + ClassEdgeBlock(cs[k], fileIndex, first + ClassBlockSize(cs, k))
    ensures after == prefix + ClassEdges(cs, fileIndex, first, k + 1)
  {
    var block := ClassEdgeBlock(cs[k], fileIndex, first + ClassBlockSize(cs, k));
    assert ClassEdges(cs, fileIndex, first, k + 1) == ClassEdges(cs, fileIndex, first, k) + block;
    Extend(prefix, ClassEdges(cs, fileIndex, first, k), block, before);
  }

  /** One more class indexes the ids of its block. */
  lemma ClassMapStep(m: map<string, nat>, first: nat, parsed: SP.ParsedFile, cs: seq<SP.Class>, k: nat,
                     before: map<string, nat>, after: map<string, nat>)
    requires k < |cs| && before == IdIndexFrom(m, first, ClassNodes(parsed, cs, k))
    requires after == IdIndexFrom(before, first + ClassBlockSize(cs, k), ClassBlock(parsed, cs[k]))
    ensures after == IdIndexFrom(m, first, ClassNodes(parsed, cs, k + 1))
  {
    ClassNodesSize(parsed, cs, k);
    IdIndexFromAppendAt(m, first, ClassNodes(parsed, cs, k), ClassBlock(parsed, cs[k]),
      ClassNodes(parsed, cs, k + 1), before, after);
  }

  /** One more file extends the node list by its block. */
  lemma NodesStep(prefix: seq<Node>, files: seq<SP.ParsedFile>, i: nat, before: seq<Node>, after: seq<Node>)
    requires i < |files| && before == prefix + GraphNodes(files, i)
    requires after == before + FileBlock(files[i])
    ensures after == prefix + GraphNodes(files, i + 1) && |after| == |prefix| + GraphSize(files, i + 1)
  {
    Extend(prefix, GraphNodes(files, i), FileBlock(files[i]), before);
    GraphNodesSize(files, i + 1);
  }

  /** One more file extends the edge list by its Contains edges. */
  lemma EdgesStep(prefix: seq<Edge>, base: nat, files: seq<SP.ParsedFile>, i: nat, before: seq<Edge>, after: seq<Edge>)
    requires i < |files| && before == prefix + GraphContainsEdges(files, base, i)
    requires after == before + FileEdges(files[i], base + GraphSize(files, i))
    ensures after == prefix + GraphContainsEdges(files, base, i + 1)
  {
    var done, block := GraphContainsEdges(files, base, i), FileEdges(files[i], base + GraphSize(files, i));
    assert GraphContainsEdges(files, base, i + 1) == done + block;
    Extend(prefix, done, block, before);
  }

  /** One more file indexes the ids of its block. */
  lemma NodeMapStep(m: map<string, nat>, base: nat, files: seq<SP.ParsedFile>, i: nat,
                    before: map<string, nat>, after: map<string, nat>)
    requires i < |files| && before == IdIndexFrom(m, base, GraphNodes(files, i))
    requires after == IdIndexFrom(before, base + GraphSize(files, i), FileBlock(files[i]))
    ensures after == IdIndexFrom(m, base, GraphNodes(files, i + 1))
  {
    GraphNodesSize(files, i);
    IdIndexFromAppendAt(m, base, GraphNodes(files, i), FileBlock(files[i]), GraphNodes(files, i + 1), before, after);
  }

  /** One more file records the position of its File node. */
  lemma FileNodesStep(m: map<string, nat>, base: nat, files: seq<SP.ParsedFile>, i: nat,
                      before: map<string, nat>, after: map<string, nat>)
    requires i < |files| && before == FileNodeIndex(m, base, files, i)
    requires after == before[files[i].fileInfo.path := base + GraphSize(files, i)]
    ensures after == FileNodeIndex(m, base, files, i + 1)
  {}

  /** The positions `node_map` holds stay below a bound the added run fits under. */
  lemma {:induction false} IdIndexFromBounded(m: map<string, nat>, base: nat, ns: seq<Node>, bound: nat)
    requires forall id :: id in m ==> m[id] < bound
    requires base + |ns| <= bound
    ensures forall id :: id in IdIndexFrom(m, base, ns) ==> IdIndexFrom(m, base, ns)[id] < bound
  {
    if |ns| > 0 {
      IdIndexFromBounded(m, base, ns[..|ns| - 1], bound);
    }
  }
}
