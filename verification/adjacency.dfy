/** The two group-by-source reductions of `render`: `targets` maps each
    source to the ids of its targets, `targetObjects` to `{id, type}` records.
    Both are left folds over the edge rows starting from an empty map. */
module Adjacency {
  import opened Kinds
  import opened Rows
  import Seqs
  import MapSums
  import Transform

  /** The `{id, type}` record of `targetObjects`. */
  datatype Target = Target(id: string, kind: Kind)

  type Targets = map<string, seq<string>>
  type TargetObjects = map<string, seq<Target>>

  /** The list stored under `s`, or the empty list when `s` is absent. */
  function Lookup<V>(m: map<string, seq<V>>, s: string): seq<V>
  {
    if s in m then m[s] else []
  }

  function TargetIdOf(e: Row): string { e.target }

  function IdOf(t: Target): string { t.id }

  /** The `targetObjects` entry built for one edge: it carries the id the
      `targets` reduce pushes for the same edge, and the kind `linkType`
      gives its label. */
  function ObjectOf(e: Row): (t: Target)
    ensures IdOf(t) == TargetIdOf(e)
    ensures t.kind == LinkType(e.rawLabel)
  {
    Target(e.target, LinkType(e.rawLabel))
  }

  // ----- the reductions, as the source writes them -----

  /** One step of the `targets` reduce: append the target to the source's
      list, creating the list when the source is new; no other key changes. */
  function TargetsStep(acc: Targets, link: Row): (r: Targets)
    ensures r.Keys == acc.Keys + {link.source}
    ensures r[link.source] == Lookup(acc, link.source) + [link.target]
    ensures forall s :: s in acc && s != link.source ==> r[s] == acc[s]
  {
    if link.source in acc then acc[link.source := acc[link.source] + [link.target]]
    else acc[link.source := [link.target]]
  }

  /** The `targets` reduce from any starting accumulator, one edge at a time in
      input order. The keys it adds are exactly the sources it meets. */
  function FoldTargets(acc: Targets, links: seq<Row>): (r: Targets)
    ensures r.Keys == acc.Keys + Sources(links)
    decreases links
  {
    if links == [] then
      assert Sources(links) == {};
      acc
    else
      assert links == [links[0]] + links[1..];
      SourcesCons(links[0], links[1..]);
      FoldTargets(TargetsStep(acc, links[0]), links[1..])
  }

  /** `targets`: the reduce started from `{}`. Its keys are exactly the edge
      sources, and the list under `s` is non-empty and holds the targets of
      the edges leaving `s`, in input order. */
  function BuildTargets(links: seq<Row>): (r: Targets)
    ensures r.Keys == Sources(links)
    ensures forall s :: s in r ==> |r[s]| > 0 && r[s] == Seqs.Map(TargetIdOf, EdgesFrom(links, s))
  {
    FoldTargetsGroups(map[], links);
    SourcesHaveEdges(links);
    FoldTargets(map[], links)
  }

  /** One step of the `targetObjects` reduce. */
  function TargetObjectsStep(acc: TargetObjects, link: Row): (r: TargetObjects)
    ensures r.Keys == acc.Keys + {link.source}
    ensures r[link.source] == Lookup(acc, link.source) + [Target(link.target, LinkType(link.rawLabel))]
    ensures forall s :: s in acc && s != link.source ==> r[s] == acc[s]
  {
    var obj := ObjectOf(link);
    if link.source in acc then acc[link.source := acc[link.source] + [obj]]
    else acc[link.source := [obj]]
  }

  /** The `targetObjects` reduce from any starting accumulator, one edge at a time in
      input order. The keys it adds are exactly the sources it meets. */
  function FoldTargetObjects(acc: TargetObjects, links: seq<Row>): (r: TargetObjects)
    ensures r.Keys == acc.Keys + Sources(links)
    decreases links
  {
    if links == [] then
      assert Sources(links) == {};
      acc
    else
      assert links == [links[0]] + links[1..];
      SourcesCons(links[0], links[1..]);
      FoldTargetObjects(TargetObjectsStep(acc, links[0]), links[1..])
  }

  /** `targetObjects`: the reduce started from `{}`. Its keys are exactly
      the edge sources, and the list under `s` is non-empty and holds the
      records of the edges leaving `s`, in input order. */
  function BuildTargetObjects(links: seq<Row>): (r: TargetObjects)
    ensures r.Keys == Sources(links)
    ensures forall s :: s in r ==> |r[s]| > 0 && r[s] == Seqs.Map(ObjectOf, EdgesFrom(links, s))
  {
    FoldTargetObjectsGroups(map[], links);
    SourcesHaveEdges(links);
    FoldTargetObjects(map[], links)
  }

  // ----- the reference: group by source, one group at a time -----

  /** Every source that occurs among the edges. */
  function Sources(links: seq<Row>): set<string>
  {
    set e | e in links :: e.source
  }

  /** The edges leaving `s`, in input order. */
  function EdgesFrom(links: seq<Row>, s: string): seq<Row>
  {
    Seqs.Filter((e: Row) => e.source == s, links)
  }

  lemma SourcesCons(l: Row, rest: seq<Row>)
    ensures Sources([l] + rest) == {l.source} + Sources(rest)
  {
    assert forall e :: e in [l] + rest <==> e == l || e in rest;
  }

  lemma EdgesFromCons(l: Row, rest: seq<Row>, s: string)
    ensures EdgesFrom([l] + rest, s) == (if l.source == s then [l] else []) + EdgesFrom(rest, s)
  {
    assert ([l] + rest)[1..] == rest;
  }

  /** The first edge heads the group of its own source. */
  lemma EdgesFromFirst(links: seq<Row>)
    requires links != []
    ensures EdgesFrom(links, links[0].source) == [links[0]] + EdgesFrom(links[1..], links[0].source)
  {
  }

  /** Every source has at least one outgoing edge. */
  lemma SourcesHaveEdges(links: seq<Row>)
    ensures forall s :: s in Sources(links) ==> |EdgesFrom(links, s)| > 0
  {
    forall s | s in Sources(links) ensures |EdgesFrom(links, s)| > 0 {
      var e :| e in links && e.source == s;
      assert e in EdgesFrom(links, s);
    }
  }

  // ----- the folds compute the reference -----

  /** A `targets` step on the first edge moves that edge's entry from the
      pending edges to the end of its source's accumulated list. */
  lemma TargetsStepSame(acc: Targets, links: seq<Row>)
    requires links != []
    ensures Lookup(TargetsStep(acc, links[0]), links[0].source) + Seqs.Map(TargetIdOf, EdgesFrom(links[1..], links[0].source))
            == Lookup(acc, links[0].source) + Seqs.Map(TargetIdOf, EdgesFrom(links, links[0].source))
  {
    var s := links[0].source;
    var head, x := Lookup(acc, s), TargetIdOf(links[0]);
    var tail := Seqs.Map(TargetIdOf, EdgesFrom(links[1..], s));
    assert Lookup(TargetsStep(acc, links[0]), s) == head + [x];
    assert Seqs.Map(TargetIdOf, EdgesFrom(links, s)) == [x] + tail by {
      EdgesFromFirst(links);
      Seqs.MapCons(TargetIdOf, links[0], EdgesFrom(links[1..], s));
    }
    Seqs.AppendShift(head, x, tail, Seqs.Map(TargetIdOf, EdgesFrom(links, s)));
  }


  /** A `targets` step leaves the list of every other source alone. */
  lemma TargetsStepOther(acc: Targets, links: seq<Row>, s: string)
    requires links != [] && s != links[0].source
    ensures Lookup(TargetsStep(acc, links[0]), s) + Seqs.Map(TargetIdOf, EdgesFrom(links[1..], s))
            == Lookup(acc, s) + Seqs.Map(TargetIdOf, EdgesFrom(links, s))
  {
    assert EdgesFrom(links, s) == EdgesFrom(links[1..], s);
  }

  /** Invariant of the `targets` reduce from any starting accumulator: the
      list under `s` is extended by the edges leaving `s`, in input order. */
  lemma {:induction false} FoldTargetsKey(acc: Targets, links: seq<Row>, s: string)
    ensures Lookup(FoldTargets(acc, links), s) == Lookup(acc, s) + Seqs.Map(TargetIdOf, EdgesFrom(links, s))
    decreases links
  {
    if links == [] {
      assert EdgesFrom(links, s) == [];
    } else {
      FoldTargetsKey(TargetsStep(acc, links[0]), links[1..], s);
      if links[0].source == s {
        TargetsStepSame(acc, links);
      } else {
        TargetsStepOther(acc, links, s);
      }
    }
  }

  /** The per-key invariant of the `targets` reduce, for every key at once. */
  lemma FoldTargetsGroups(acc: Targets, links: seq<Row>)
    ensures forall s :: Lookup(FoldTargets(acc, links), s) == Lookup(acc, s) + Seqs.Map(TargetIdOf, EdgesFrom(links, s))
  {
    forall s {
      FoldTargetsKey(acc, links, s);
    }
  }

  /** A `targetObjects` step on the first edge moves that edge's entry from the
      pending edges to the end of its source's accumulated list. */
  lemma TargetObjectsStepSame(acc: TargetObjects, links: seq<Row>)
    requires links != []
    ensures Lookup(TargetObjectsStep(acc, links[0]), links[0].source) + Seqs.Map(ObjectOf, EdgesFrom(links[1..], links[0].source))
            == Lookup(acc, links[0].source) + Seqs.Map(ObjectOf, EdgesFrom(links, links[0].source))
  {
    var s := links[0].source;
    var head, x := Lookup(acc, s), ObjectOf(links[0]);
    var tail := Seqs.Map(ObjectOf, EdgesFrom(links[1..], s));
    assert Lookup(TargetObjectsStep(acc, links[0]), s) == head + [x];
    assert Seqs.Map(ObjectOf, EdgesFrom(links, s)) == [x] + tail by {
      EdgesFromFirst(links);
      Seqs.MapCons(ObjectOf, links[0], EdgesFrom(links[1..], s));
    }
    Seqs.AppendShift(head, x, tail, Seqs.Map(ObjectOf, EdgesFrom(links, s)));
  }


  /** A `targetObjects` step leaves the list of every other source alone. */
  lemma TargetObjectsStepOther(acc: TargetObjects, links: seq<Row>, s: string)
    requires links != [] && s != links[0].source
    ensures Lookup(TargetObjectsStep(acc, links[0]), s) + Seqs.Map(ObjectOf, EdgesFrom(links[1..], s))
            == Lookup(acc, s) + Seqs.Map(ObjectOf, EdgesFrom(links, s))
  {
    assert EdgesFrom(links, s) == EdgesFrom(links[1..], s);
  }

  /** Invariant of the `targetObjects` reduce from any starting accumulator: the
      list under `s` is extended by the edges leaving `s`, in input order. */
  lemma {:induction false} FoldTargetObjectsKey(acc: TargetObjects, links: seq<Row>, s: string)
    ensures Lookup(FoldTargetObjects(acc, links), s) == Lookup(acc, s) + Seqs.Map(ObjectOf, EdgesFrom(links, s))
    decreases links
  {
    if links == [] {
      assert EdgesFrom(links, s) == [];
    } else {
      FoldTargetObjectsKey(TargetObjectsStep(acc, links[0]), links[1..], s);
      if links[0].source == s {
        TargetObjectsStepSame(acc, links);
      } else {
        TargetObjectsStepOther(acc, links, s);
      }
    }
  }

  /** The per-key invariant of the `targetObjects` reduce, for every key at once. */
  lemma FoldTargetObjectsGroups(acc: TargetObjects, links: seq<Row>)
    ensures forall s :: Lookup(FoldTargetObjects(acc, links), s) == Lookup(acc, s) + Seqs.Map(ObjectOf, EdgesFrom(links, s))
  {
    forall s {
      FoldTargetObjectsKey(acc, links, s);
    }
  }

  /** The redundancy noted in the source holds: `targets` is `targetObjects`
      with every record replaced by its id. */
  lemma TargetsAgree(links: seq<Row>)
    ensures BuildTargets(links).Keys == BuildTargetObjects(links).Keys
    ensures forall s :: s in BuildTargets(links) ==>
              BuildTargets(links)[s] == Seqs.Map(IdOf, BuildTargetObjects(links)[s])
  {
    forall s | s in BuildTargets(links)
      ensures BuildTargets(links)[s] == Seqs.Map(IdOf, BuildTargetObjects(links)[s])
    {
      var edges := EdgesFrom(links, s);
      assert forall i :: 0 <= i < |edges| ==> IdOf(ObjectOf(edges[i])) == TargetIdOf(edges[i]);
      Seqs.MapCompose(IdOf, ObjectOf, TargetIdOf, edges);
    }
  }

  // ----- every edge lands in exactly one group -----

  lemma {:induction false} FoldTargetsSize(acc: Targets, links: seq<Row>)
    ensures MapSums.SumSizes(FoldTargets(acc, links)) == MapSums.SumSizes(acc) + |links|
    decreases links
  {
    if links != [] {
      var l := links[0];
      MapSums.SumSizesUpdate(acc, l.source, Lookup(acc, l.source) + [l.target]);
      FoldTargetsSize(TargetsStep(acc, l), links[1..]);
    }
  }

  lemma {:induction false} FoldTargetObjectsSize(acc: TargetObjects, links: seq<Row>)
    ensures MapSums.SumSizes(FoldTargetObjects(acc, links)) == MapSums.SumSizes(acc) + |links|
    decreases links
  {
    if links != [] {
      var l := links[0];
      MapSums.SumSizesUpdate(acc, l.source, Lookup(acc, l.source) + [ObjectOf(l)]);
      FoldTargetObjectsSize(TargetObjectsStep(acc, l), links[1..]);
    }
  }

  /** The lengths of all adjacency lists add up to the number of edges: no
      edge is dropped or duplicated by either reduce. */
  lemma AdjacencySizes(links: seq<Row>)
    ensures MapSums.SumSizes(BuildTargets(links)) == |links|
    ensures MapSums.SumSizes(BuildTargetObjects(links)) == |links|
  {
    FoldTargetsSize(map[], links);
    FoldTargetObjectsSize(map[], links);
  }

  // ----- annotating the edges first does not change the adjacency -----

  lemma {:induction false} FoldsIgnoreStyle(tacc: Targets, oacc: TargetObjects, links: seq<Row>)
    ensures FoldTargets(tacc, Transform.TransformData(links)) == FoldTargets(tacc, links)
    ensures FoldTargetObjects(oacc, Transform.TransformData(links)) == FoldTargetObjects(oacc, links)
    decreases links
  {
    if links != [] {
      var t := Transform.TransformData(links);
      assert t[0] == Transform.TransformEdge(links[0]);
      assert t[1..] == Transform.TransformData(links[1..]);
      FoldsIgnoreStyle(TargetsStep(tacc, links[0]), TargetObjectsStep(oacc, links[0]), links[1..]);
    }
  }

  /** `render` runs `transformData` before the reduces; the reduces read only
      `source`, `target` and `label`, so the maps are those of the raw edges. */
  lemma TransformKeepsAdjacency(links: seq<Row>)
    ensures BuildTargets(Transform.TransformData(links)) == BuildTargets(links)
    ensures BuildTargetObjects(Transform.TransformData(links)) == BuildTargetObjects(links)
  {
    FoldsIgnoreStyle(map[], map[], links);
  }
}
