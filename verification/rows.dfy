/** Raw graph rows and their split into node rows and edge rows. */
module Rows {
  import opened Kinds
  import Seqs

  /** The two fields an edge row gains when it is annotated for drawing. */
  datatype Style = Unstyled | Styled(stroke: Stroke, dependencyType: Kind)

  /** A row of the graph dump. `tag` is its `type` field ("node", "edge" or
      anything else); node rows use `id`, edge rows `source`, `target` and
      `rawLabel` (the `label` field). */
  datatype Row = Row(tag: string, id: string, source: string, target: string, rawLabel: string, style: Style)

  predicate IsNode(r: Row) { r.tag == "node" }

  predicate IsEdge(r: Row) { r.tag == "edge" }

  /** Rows whose tag is neither "node" nor "edge". */
  predicate IsOther(r: Row) { !IsNode(r) && !IsEdge(r) }

  /** `nodeData`: the rows tagged "node", in input order. */
  function NodeRows(data: seq<Row>): (nodes: seq<Row>)
    ensures forall r :: r in nodes <==> r in data && r.tag == "node"
    ensures |nodes| <= |data|
  {
    Seqs.Filter(IsNode, data)
  }

  /** `linkData`: the rows tagged "edge", in input order. */
  function EdgeRows(data: seq<Row>): (links: seq<Row>)
    ensures forall r :: r in links <==> r in data && r.tag == "edge"
    ensures |links| <= |data|
  {
    Seqs.Filter(IsEdge, data)
  }

  /** The split is a partition: together with the rows of other tags, the
      node rows and edge rows account for every input row exactly once. */
  lemma {:induction false} SplitPartition(data: seq<Row>)
    ensures multiset(NodeRows(data)) + multiset(EdgeRows(data)) + multiset(Seqs.Filter(IsOther, data))
            == multiset(data)
  {
    if data != [] {
      var d, rest := data[0], data[1..];
      SplitPartition(rest);
      assert data == [d] + rest;
      if IsNode(d) {
        assert NodeRows(data) == [d] + NodeRows(rest);
        assert EdgeRows(data) == EdgeRows(rest);
        assert Seqs.Filter(IsOther, data) == Seqs.Filter(IsOther, rest);
      } else if IsEdge(d) {
        assert NodeRows(data) == NodeRows(rest);
        assert EdgeRows(data) == [d] + EdgeRows(rest);
        assert Seqs.Filter(IsOther, data) == Seqs.Filter(IsOther, rest);
      } else {
        assert NodeRows(data) == NodeRows(rest);
        assert EdgeRows(data) == EdgeRows(rest);
        assert Seqs.Filter(IsOther, data) == [d] + Seqs.Filter(IsOther, rest);
      }
      assert multiset(data) == multiset{d} + multiset(rest);
    }
  }

  /** The split keeps input order: splitting a concatenation splits each
      part and concatenates the results. */
  lemma SplitConcat(a: seq<Row>, b: seq<Row>)
    ensures NodeRows(a + b) == NodeRows(a) + NodeRows(b)
    ensures EdgeRows(a + b) == EdgeRows(a) + EdgeRows(b)
  {
    Seqs.FilterConcat(IsNode, a, b);
    Seqs.FilterConcat(IsEdge, a, b);
  }
}
