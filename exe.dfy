/** Executable pipeline nodes and the graph that lists them
    (yax/state/exe.py). A node reads a module's annotations once and sorts
    them into parameters, input artifacts and the `output` declaration. */
module Exe {
  import opened Base
  import Parameters

  /** What one annotation of a module names: a parameter class, an artifact
      class, some other class (such as the common base `Type`), or a value
      that is not a class at all (such as a tuple of output names). */
  datatype Annotation =
    | ParamClass(param: Parameters.ParamType)
    | ArtifactClass(artifact: string)
    | OtherClass(name: string)
    | NotAClass(text: string)

  /** An ExeNode: its name, the name of the module function it runs (`entry`), and its
      own copy of that function's annotations. */
  datatype ExeNode = ExeNode(name: string, entry: string, annotations: Dict<string, Annotation>)

  /** A module function as the pipeline sees it: its name and its mutable
      annotation dict. */
  class ModuleFunction {
    const name: string
    var annotations: Dict<string, Annotation>

    constructor (name: string, annotations: Dict<string, Annotation>)
      ensures this.name == name && this.annotations == annotations
    {
      this.name := name;
      this.annotations := annotations;
    }
  }

  /** `ExeNode.__init__`: copies the annotations and raises TypeError unless
      one of them is named `output`. */
  function NewNode(name: string, entry: string, annotations: Dict<string, Annotation>): (r: Result<ExeNode>)
    ensures r.Success? <==> "output" in annotations.entries
    ensures r.Success? ==> r.value == ExeNode(name, entry, annotations)
    ensures r.Failure? ==> r.error.TypeError?
  {
    if "output" in annotations.entries then Success(ExeNode(name, entry, annotations))
    else Failure(TypeError("Must include `output` as a parameter for a module's main function."))
  }

  /** Building a node from a module function: the node holds a snapshot of
      the annotations as they were at construction. */
  method MakeNode(name: string, m: ModuleFunction) returns (r: Result<ExeNode>)
    ensures r == NewNode(name, m.name, m.annotations)
  {
    r := NewNode(name, m.name, m.annotations);
  }

  /** Changing a module's annotations after a node was built from it leaves
      the node as it was, because the node keeps its own copy. */
  method CopyIsIndependent(name: string, m: ModuleFunction, later: Dict<string, Annotation>)
    returns (r: Result<ExeNode>)
    modifies m
    ensures m.annotations == later
    ensures r.Success? ==> r.value.annotations == old(m.annotations)
  {
    r := MakeNode(name, m);
    m.annotations := later;
  }

  /** An entry that `_get_input_params` keeps. */
  predicate IsParamEntry(k: string, a: Annotation) {
    k != "output" && a.ParamClass?
  }

  /** An entry that `_get_input_artifacts` keeps. */
  predicate IsArtifactEntry(k: string, a: Annotation) {
    k != "output" && a.ArtifactClass?
  }

  /** `issubclass` raises TypeError on an annotation that is not a class; the
      `output` entry is never examined. */
  predicate ClassesOnly(ann: Dict<string, Annotation>) {
    forall k :: k in ann.entries && k != "output" ==> !ann.entries[k].NotAClass?
  }

  /** The keys of `ks` whose entries are parameters (`params`) or artifacts
      (`!params`), in order. */
  function SelectKeys(ks: seq<string>, m: map<string, Annotation>, params: bool): (r: seq<string>)
    requires forall k :: k in ks ==> k in m
    ensures forall k :: k in r <==> k in ks && (if params then IsParamEntry(k, m[k]) else IsArtifactEntry(k, m[k]))
    ensures Distinct(ks) ==> Distinct(r)
  {
    if ks == [] then []
    else
      var rest := SelectKeys(ks[1..], m, params);
      assert forall k :: k in ks <==> k == ks[0] || k in ks[1..];
      if (if params then IsParamEntry(ks[0], m[ks[0]]) else IsArtifactEntry(ks[0], m[ks[0]]))
      then [ks[0]] + rest else rest
  }

  /** `_get_input_params`: exactly the non-`output` annotations that name a
      parameter class, in annotation order. */
  function InputParams(n: ExeNode): (r: Result<Dict<string, Parameters.ParamType>>)
    requires n.annotations.Valid()
    ensures r.Success? <==> ClassesOnly(n.annotations)
    ensures r.Failure? ==> r.error.TypeError?
    ensures r.Success? ==> r.value.Valid()
    ensures r.Success? ==> forall k :: k in r.value.entries <==>
      k in n.annotations.entries && IsParamEntry(k, n.annotations.entries[k])
    ensures r.Success? ==> forall k :: k in r.value.entries ==>
      k in n.annotations.entries && n.annotations.entries[k] == ParamClass(r.value.entries[k])
  {
    var ann := n.annotations;
    if !ClassesOnly(ann) then Failure(TypeError("issubclass() arg 1 must be a class"))
    else
      var ks := SelectKeys(ann.keys, ann.entries, true);
      Success(Dict(ks, map k | k in ks :: ann.entries[k].param))
  }

  /** `_get_input_artifacts`: exactly the non-`output` annotations that name
      an artifact class, in annotation order. */
  function InputArtifacts(n: ExeNode): (r: Result<Dict<string, string>>)
    requires n.annotations.Valid()
    ensures r.Success? <==> ClassesOnly(n.annotations)
    ensures r.Success? ==> r.value.Valid()
    ensures r.Success? ==> forall k :: k in r.value.entries <==>
      k in n.annotations.entries && IsArtifactEntry(k, n.annotations.entries[k])
    ensures r.Success? ==> forall k :: k in r.value.entries ==>
      k in n.annotations.entries && n.annotations.entries[k] == ArtifactClass(r.value.entries[k])
  {
    var ann := n.annotations;
    if !ClassesOnly(ann) then Failure(TypeError("issubclass() arg 1 must be a class"))
    else
      var ks := SelectKeys(ann.keys, ann.entries, false);
      Success(Dict(ks, map k | k in ks :: ann.entries[k].artifact))
  }

  /** `_get_output_artifacts`: the `output` annotation itself. */
  function OutputArtifacts(n: ExeNode): (r: Annotation)
    requires "output" in n.annotations.entries
  {
    n.annotations.entries["output"]
  }

  /** No annotation is both a parameter and an input artifact, and neither
      set contains `output`: the two classes are siblings under `Type`. */
  lemma ParamsArtifactsDisjoint(n: ExeNode)
    requires n.annotations.Valid() && ClassesOnly(n.annotations)
    ensures InputParams(n).value.entries.Keys !! InputArtifacts(n).value.entries.Keys
    ensures "output" !in InputParams(n).value.entries
    ensures "output" !in InputArtifacts(n).value.entries
  {
  }

  /** A node built from annotations always has its `output` declaration. */
  lemma NewNodeHasOutput(name: string, entry: string, annotations: Dict<string, Annotation>)
    requires NewNode(name, entry, annotations).Success?
    ensures OutputArtifacts(NewNode(name, entry, annotations).value) == annotations.entries["output"]
  {
  }

  /** ExeGraph: an append-only, ordered list of nodes. */
  class ExeGraph {
    var nodes: seq<ExeNode>

    constructor ()
      ensures nodes == []
    {
      nodes := [];
    }

    /** `append`: one node more at the end, nothing else changes. */
    method Append(n: ExeNode)
      modifies this
      ensures nodes == old(nodes) + [n]
    {
      nodes := nodes + [n];
    }

    /** `__iter__`: the nodes in the order they were appended. */
    function Iterate(): seq<ExeNode>
      reads this
    {
      nodes
    }
  }

  /** Appending nodes one by one, as the pipeline loader does, makes
      iteration yield exactly those nodes in that order. */
  method BuildGraph(ns: seq<ExeNode>) returns (g: ExeGraph)
    ensures fresh(g)
    ensures g.Iterate() == ns
  {
    g := new ExeGraph();
    var i := 0;
    while i < |ns|
      invariant 0 <= i <= |ns|
      invariant g.nodes == ns[..i]
    {
      g.Append(ns[i]);
      i := i + 1;
    }
  }
}
