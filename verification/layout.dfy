/** The synchronous part of `forceLayout` and `render`: split the rows,
    annotate the edges, build both adjacency maps; and the file count shown
    once the analysis reply arrives. */
module Layout {
  import opened Kinds
  import opened Rows
  import Seqs
  import MapSums
  import Transform
  import opened Adjacency

  /** What `render` computes before handing over to drawing and the worker:
      the node rows, the annotated edges, `targets` and `targetObjects`
      (the latter two with the node rows make up the worker's request). */
  datatype RenderData = RenderData(
    nodes: seq<Row>,
    links: seq<Row>,
    targets: Targets,
    targetObjects: TargetObjects)

  /** `render(nodeData, linkData)`, data part. The node rows pass through;
      every edge keeps its fields and gains the kind `linkType` gives its
      label and the matching stroke; both maps are keyed by exactly the edge
      sources and list, per source, the edges leaving it in input order.
      These clauses determine the result completely; the lemmas below
      derive what the rest of `render` relies on. */
  function Render(nodeData: seq<Row>, linkData: seq<Row>): (r: RenderData)
    ensures r.nodes == nodeData
    ensures |r.links| == |linkData|
    ensures forall i :: 0 <= i < |linkData| ==>
              r.links[i] == linkData[i].(style := Transform.Annotation(linkData[i].rawLabel))
    ensures r.targets.Keys == Sources(linkData) && r.targetObjects.Keys == Sources(linkData)
    ensures forall s :: s in r.targets ==>
              |r.targets[s]| > 0 && r.targets[s] == Seqs.Map(TargetIdOf, EdgesFrom(linkData, s))
    ensures forall s :: s in r.targetObjects ==>
              |r.targetObjects[s]| > 0 && r.targetObjects[s] == Seqs.Map(ObjectOf, EdgesFrom(linkData, s))
  {
    var links := Transform.TransformData(linkData);
    TransformKeepsAdjacency(linkData);
    RenderData(nodeData, links, BuildTargets(links), BuildTargetObjects(links))
  }

  /** The two maps `render` builds agree: `targets` is `targetObjects`
      projected to ids. */
  lemma RenderAgree(nodeData: seq<Row>, linkData: seq<Row>)
    ensures forall s :: s in Render(nodeData, linkData).targets ==>
              Render(nodeData, linkData).targets[s] == Seqs.Map(IdOf, Render(nodeData, linkData).targetObjects[s])
  {
    TransformKeepsAdjacency(linkData);
    TargetsAgree(linkData);
  }

  /** Each record `render` puts in `targetObjects` has the id and the type
      of the matching edge of the annotated `linkData`: its type is that
      edge's `dependencyType`. */
  lemma RenderRecordKinds(nodeData: seq<Row>, linkData: seq<Row>)
    ensures var r := Render(nodeData, linkData);
            forall s :: s in r.targetObjects ==>
              && |r.targetObjects[s]| == |EdgesFrom(r.links, s)|
              && forall i :: 0 <= i < |EdgesFrom(r.links, s)| ==>
                   && r.targetObjects[s][i].id == EdgesFrom(r.links, s)[i].target
                   && EdgesFrom(r.links, s)[i].style.Styled?
                   && r.targetObjects[s][i].kind == EdgesFrom(r.links, s)[i].style.dependencyType
  {
    var links := Transform.TransformData(linkData);
    Transform.TransformAnnotates(linkData);
    RecordKindIsAnnotation(links);
  }

  /** Every edge `render` receives appears exactly once across the lists of
      each map. */
  lemma RenderSizes(nodeData: seq<Row>, linkData: seq<Row>)
    ensures MapSums.SumSizes(Render(nodeData, linkData).targets) == |linkData|
    ensures MapSums.SumSizes(Render(nodeData, linkData).targetObjects) == |linkData|
  {
    TransformKeepsAdjacency(linkData);
    AdjacencySizes(linkData);
  }

  /** After `transformData`, the `type` that `linkType` gives an edge in
      `targetObjects` is the `dependencyType` stored on that same edge: the
      two three-way rules agree. */
  lemma RecordKindIsAnnotation(links: seq<Row>)
    requires forall e :: e in links ==> e.style == Transform.Annotation(e.rawLabel)
    ensures forall s :: s in BuildTargetObjects(links) ==>
              && |BuildTargetObjects(links)[s]| == |EdgesFrom(links, s)|
              && forall i :: 0 <= i < |EdgesFrom(links, s)| ==>
                   && BuildTargetObjects(links)[s][i].id == EdgesFrom(links, s)[i].target
                   && EdgesFrom(links, s)[i].style.Styled?
                   && BuildTargetObjects(links)[s][i].kind == EdgesFrom(links, s)[i].style.dependencyType
  {
    forall s | s in BuildTargetObjects(links)
      ensures |BuildTargetObjects(links)[s]| == |EdgesFrom(links, s)|
      ensures forall i :: 0 <= i < |EdgesFrom(links, s)| ==>
                && BuildTargetObjects(links)[s][i].id == EdgesFrom(links, s)[i].target
                && EdgesFrom(links, s)[i].style.Styled?
                && BuildTargetObjects(links)[s][i].kind == EdgesFrom(links, s)[i].style.dependencyType
    {
      var edges := EdgesFrom(links, s);
      var objs := BuildTargetObjects(links)[s];
      assert objs == Seqs.Map(ObjectOf, edges);
      forall i | 0 <= i < |edges|
        ensures objs[i].id == edges[i].target && edges[i].style.Styled?
        ensures objs[i].kind == edges[i].style.dependencyType
      {
        assert objs[i] == ObjectOf(edges[i]);
        assert edges[i] in links;
      }
    }
  }

  /** `forceLayout`: split the rows by tag and render. The nodes are the
      "node" rows in input order; the links are the "edge" rows in input
      order, annotated; a key is in the maps if and only if some "edge" row
      has it as source, and its lists hold that source's edge rows in order,
      one entry per row. */
  function ForceLayout(data: seq<Row>): (r: RenderData)
    ensures r.nodes == NodeRows(data)
    ensures forall n :: n in r.nodes <==> n in data && n.tag == "node"
    ensures |r.links| == |EdgeRows(data)|
    ensures forall i :: 0 <= i < |r.links| ==>
              r.links[i] == EdgeRows(data)[i].(style := Transform.Annotation(EdgeRows(data)[i].rawLabel))
    ensures forall s :: s in r.targets <==> exists e :: e in data && e.tag == "edge" && e.source == s
    ensures r.targetObjects.Keys == r.targets.Keys
    ensures forall s :: s in r.targets ==>
              |r.targets[s]| > 0 && r.targets[s] == Seqs.Map(TargetIdOf, EdgesFrom(EdgeRows(data), s))
    ensures forall s :: s in r.targetObjects ==>
              r.targetObjects[s] == Seqs.Map(ObjectOf, EdgesFrom(EdgeRows(data), s))
    ensures forall s :: s in r.targets ==> r.targets[s] == Seqs.Map(IdOf, r.targetObjects[s])
    ensures MapSums.SumSizes(r.targets) == |EdgeRows(data)|
    ensures MapSums.SumSizes(r.targetObjects) == |EdgeRows(data)|
  {
    RenderAgree(NodeRows(data), EdgeRows(data));
    RenderSizes(NodeRows(data), EdgeRows(data));
    Render(NodeRows(data), EdgeRows(data))
  }

  /** `renderTotalFileCount`: the number of keys of the recompile-count map,
      counted one enumerated key at a time as `Object.keys(m).length` does. */
  method TotalFileCount(getsRecompiledMap: map<string, nat>) returns (count: nat)
    ensures count == |getsRecompiledMap.Keys|
  {
    var pending := getsRecompiledMap.Keys;
    count := 0;
    while pending != {}
      invariant pending <= getsRecompiledMap.Keys
      invariant count + |pending| == |getsRecompiledMap.Keys|
      decreases pending
    {
      var k :| k in pending;
      pending := pending - {k};
      count := count + 1;
    }
  }
}
