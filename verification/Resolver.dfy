/** The files each root of a reflection depends on, with the imports of a file read once. */
module Resolver {
  import opened Common
  import opened Reachability

  /** A top-level node of a source file: what it imports or exports from, if it does. */
  datatype Node = Other | Declaration(specifier: Option<string>)

  /** What a program can tell: the files it can read, and the file a specifier resolves to. */
  datatype Program = Program(sources: map<string, seq<Node>>, resolve: (string, string) -> Option<string>)

  /** The imported file of a node, if there is one. */
  function Imported(p: Program, file: string, node: Node): seq<string> {
    if node.Other? || node.specifier.None? || p.resolve(node.specifier.value, file).None? then []
    else [p.resolve(node.specifier.value, file).value]
  }

  function ImportedBy(p: Program, file: string, nodes: seq<Node>): seq<string> {
    if nodes == [] then []
    else ImportedBy(p, file, nodes[..|nodes| - 1]) + Imported(p, file, nodes[|nodes| - 1])
  }

  /** The import graph of a program. */
  function ImportsOf(p: Program, file: string): seq<string> {
    if file !in p.sources then [] else ImportedBy(p, file, p.sources[file])
  }

  function ImportGraph(p: Program): Graph<string> {
    (file: string) => ImportsOf(p, file)
  }

  /** The roots and everything any file imports. */
  ghost function AllFiles(p: Program, roots: seq<string>): set<string> {
    (set f | f in roots) + (set f, d | f in p.sources && d in ImportsOf(p, f) :: d)
  }

  lemma ImportsStayWithin(p: Program, roots: seq<string>)
    ensures Closed(ImportGraph(p), AllFiles(p, roots))
    ensures forall f :: f in roots ==> f in AllFiles(p, roots)
  {
  }

  ghost predicate IsAt(at: seq<nat>, k: int) {
    exists i :: 0 <= i < |at| && at[i] == k
  }

  /** The node imports or exports from a specifier that the program resolves to the file. */
  predicate ResolvesTo(p: Program, from: string, node: Node, file: string) {
    node.Declaration? && node.specifier.Some? && p.resolve(node.specifier.value, from) == Some(file)
  }

  /** The positions, in increasing order, of exactly the nodes that resolve to a file, and those files. */
  ghost predicate AreResolved(p: Program, file: string, nodes: seq<Node>, at: seq<nat>, files: seq<string>) {
    && |at| == |files|
    && (forall i, j :: 0 <= i < j < |at| ==> at[i] < at[j])
    && (forall i :: 0 <= i < |at| ==> at[i] < |nodes| && ResolvesTo(p, file, nodes[at[i]], files[i]))
    && (forall k, f :: 0 <= k < |nodes| && ResolvesTo(p, file, nodes[k], f) ==> IsAt(at, k))
  }

  /** The imports of a file are what its declarations resolve to, one for each that does, in their order. */
  lemma {:induction false} ImportsAreResolved(p: Program, file: string, nodes: seq<Node>) returns (at: seq<nat>)
    ensures AreResolved(p, file, nodes, at, ImportedBy(p, file, nodes))
  {
    hide AreResolved, Imported, IsAt;
    at := [];
    if nodes == [] {
      ResolvedNothing(p, file);
    } else {
      var init, last := nodes[..|nodes| - 1], nodes[|nodes| - 1];
      var before := ImportsAreResolved(p, file, init);
      at := if Imported(p, file, last) != [] then before + [|init|] else before;
      ResolvedNext(p, file, init, last, before, ImportedBy(p, file, init));
      assert nodes == init + [last];
    }
  }

  /** A file leads to just what its declarations resolve to, and one that cannot be read leads nowhere. */
  lemma ImportGraphIs(p: Program, from: string, file: string)
    ensures file in ImportGraph(p)(from) <==>
      from in p.sources && exists node :: node in p.sources[from] && ResolvesTo(p, from, node, file)
  {
    if from in p.sources {
      var nodes, files := p.sources[from], ImportedBy(p, from, p.sources[from]);
      var at := ImportsAreResolved(p, from, nodes);
      if i :| 0 <= i < |files| && files[i] == file {
        assert nodes[at[i]] in nodes && ResolvesTo(p, from, nodes[at[i]], file);
      }
      if node :| node in nodes && ResolvesTo(p, from, node, file) {
        var k :| 0 <= k < |nodes| && nodes[k] == node;
        assert IsAt(at, k);
        var i :| 0 <= i < |at| && at[i] == k;
        assert ResolvesTo(p, from, nodes[at[i]], files[i]) && files[i] == file;
      }
    }
  }

  lemma ResolvedNothing(p: Program, file: string)
    ensures AreResolved(p, file, [], [], [])
  {
  }

  lemma ResolvedNext(p: Program, file: string, nodes: seq<Node>, node: Node, at: seq<nat>, files: seq<string>)
    requires AreResolved(p, file, nodes, at, files)
    ensures
      var found := Imported(p, file, node);
      AreResolved(p, file, nodes + [node], if found != [] then at + [|nodes|] else at, files + found)
  {
    var found, all := Imported(p, file, node), nodes + [node];
    var next := if found != [] then at + [|nodes|] else at;
    assert |found| <= 1 && forall f :: ResolvesTo(p, file, node, f) <==> found == [f];
    forall k, f | 0 <= k < |all| && ResolvesTo(p, file, all[k], f)
      ensures IsAt(next, k)
    {
      if k < |nodes| {
        assert IsAt(at, k);
        var i :| 0 <= i < |at| && at[i] == k;
        assert next[i] == k;
      } else {
        assert next[|at|] == k;
      }
    }
    hide IsAt, Imported, ResolvesTo;
  }

  method CollectImports(p: Program, file: string, nodes: seq<Node>) returns (files: seq<string>)
    ensures files == ImportedBy(p, file, nodes)
  {
    files := [];
    for i := 0 to |nodes|
      invariant files == ImportedBy(p, file, nodes[..i])
    {
      assert nodes[..i + 1][..i] == nodes[..i];
      var node := nodes[i];
      if node.Declaration? && node.specifier.Some? {
        var path := p.resolve(node.specifier.value, file);
        if path.Some? {
          files := files + [path.value];
        }
      }
    }
    assert nodes[..|nodes|] == nodes;
  }

  class Files {
    var listed: seq<string>

    constructor ()
      ensures listed == []
    {
      listed := [];
    }
  }

  class ReflectionResolver {
    const program: Program
    var importGraph: map<string, seq<string>>

    constructor (program: Program)
      ensures this.program == program && Valid() && importGraph == map[]
    {
      this.program := program;
      importGraph := map[];
    }

    ghost predicate Valid()
      reads this
    {
      forall f :: f in importGraph ==> importGraph[f] == ImportsOf(program, f)
    }

    method GetImportFiles(file: string) returns (files: seq<string>)
      requires Valid()
      modifies this`importGraph
      ensures Valid() && files == ImportsOf(program, file)
    {
      if file in importGraph {
        return importGraph[file];
      }
      files := [];
      if file in program.sources {
        files := CollectImports(program, file, program.sources[file]);
      }
      importGraph := importGraph[file := files];
    }

    /** Adds `file` and all it leads to, depth first, to what `dependencies` lists already. */
    method GroupReflectionFiles(file: string, dependencies: Files, ghost all: set<string>)
      requires Valid() && file in all && Closed(ImportGraph(program), all)
      modifies this`importGraph, dependencies
      ensures Valid()
      ensures dependencies.listed == Visit(ImportGraph(program), all, old(dependencies.listed), file)
      decreases Left(all, dependencies.listed)
    {
      if file !in dependencies.listed {
        ghost var g, start := ImportGraph(program), dependencies.listed;
        dependencies.listed := dependencies.listed + [file];
        assert file in Left(all, start) && file !in Left(all, start + [file]);
        var imports := GetImportFiles(file);
        assert imports == g(file);
        for i := 0 to |imports|
          invariant Valid()
          invariant start + [file] <= dependencies.listed
          invariant VisitAll(g, all, dependencies.listed, imports[i..]) == VisitAll(g, all, start + [file], imports)
        {
          assert imports[i] in g(file);
          assert imports[i..][0] == imports[i] && imports[i..][1..] == imports[i + 1..];
          assert Left(all, dependencies.listed) <= Left(all, start + [file]);
          GroupReflectionFiles(imports[i], dependencies, all);
        }
        assert imports[|imports|..] == [];
      }
    }

    /** The dependencies of every root: the memo the roots share, whatever it holds, changes none of them. */
    method ResolveReflectionFiles(roots: seq<string>) returns (imports: map<string, seq<string>>)
      requires Valid()
      modifies this`importGraph
      ensures Valid()
      ensures forall f :: f in roots <==> f in imports
      ensures forall f :: f in roots ==> ImportsFollowed(program, roots, f, imports[f])
      ensures forall f :: f in roots ==> imports[f] != [] && imports[f][0] == f && Distinct(imports[f])
      ensures forall f, d :: f in roots ==> (d in imports[f] <==> Reaches(ImportGraph(program), f, d))
    {
      hide AllFiles;
      hide Closed;
      hide Visit;
      hide Reaches;
      hide Distinct;
      imports := map[];
      ghost var g, all := ImportGraph(program), AllFiles(program, roots);
      ImportsStayWithin(program, roots);
      for i := 0 to |roots|
        invariant Valid()
        invariant forall f :: f in imports <==> f in roots[..i]
        invariant forall f :: f in imports ==> f in all && imports[f] == Visit(g, all, [], f)
      {
        var dependencies := new Files();
        GroupReflectionFiles(roots[i], dependencies, all);
        imports := imports[roots[i] := dependencies.listed];
      }
      assert roots[..|roots|] == roots;
      forall f | f in roots
        ensures imports[f] != [] && imports[f][0] == f && Distinct(imports[f])
        ensures forall d :: d in imports[f] <==> Reaches(g, f, d)
      {
        VisitIsReachability(g, all, f);
      }
    }
  }

  /** `files` are met in depth-first order from `f`: a function of the import graph alone. */
  ghost predicate ImportsFollowed(p: Program, roots: seq<string>, f: string, files: seq<string>) {
    && Closed(ImportGraph(p), AllFiles(p, roots)) && f in AllFiles(p, roots)
    && files == Visit(ImportGraph(p), AllFiles(p, roots), [], f)
  }
}
