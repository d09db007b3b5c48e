/** `transformData`: annotates every edge with its kind and stroke. */
module Transform {
  import opened Kinds
  import opened Rows
  import Seqs

  /** The per-edge body of `transformData`, with its own three-way test on
      the label. It agrees with `LinkType`, the stroke follows the kind, and
      every other field is left as it was. */
  function TransformEdge(d: Row): (r: Row)
    ensures r == d.(style := r.style)
    ensures r.style == Styled(StrokeOf(LinkType(d.rawLabel)), LinkType(d.rawLabel))
  {
    if d.rawLabel == "(compile)" then d.(style := Styled(CompileStroke, Compile))
    else if d.rawLabel == "(export)" then d.(style := Styled(ExportStroke, Export))
    else d.(style := Styled(RuntimeStroke, Runtime))
  }

  /** The annotation `transformData` is meant to give an edge with this
      label: the kind `LinkType` assigns and the stroke of that kind. */
  function Annotation(rawLabel: string): Style
  {
    Styled(StrokeOf(LinkType(rawLabel)), LinkType(rawLabel))
  }

  /** `transformData(linkData)`: same length and order, and each edge keeps
      its tag, id, source, target and label and gains the annotation that
      `LinkType` of its label prescribes. */
  function TransformData(links: seq<Row>): (r: seq<Row>)
    ensures |r| == |links|
    ensures forall i :: 0 <= i < |links| ==> r[i] == links[i].(style := Annotation(links[i].rawLabel))
  {
    Seqs.Map(TransformEdge, links)
  }

  /** Every edge `transformData` returns carries the annotation of its own
      label. */
  lemma TransformAnnotates(links: seq<Row>)
    ensures forall e :: e in TransformData(links) ==> e.style == Annotation(e.rawLabel)
  {
    var r := TransformData(links);
    forall e | e in r ensures e.style == Annotation(e.rawLabel) {
      var i :| 0 <= i < |r| && r[i] == e;
    }
  }
}
