# dep_viz graph loading: row split, edge kinds and adjacency maps

This project models the data pipeline that dep_viz's force layout runs on a
dependency-graph dump before it draws anything or starts the analysis
worker (`assets/js/force_layout.js`):

1. `forceLayout` splits the raw rows by their `type` tag into node rows
   (`nodeData`) and edge rows (`linkData`).
2. `transformData` annotates every edge with a `dependencyType`
   (compile / export / runtime) and a matching stroke.
3. `linkType` maps a raw edge label to the same three kinds. It is total:
   any label other than `"(compile)"` or `"(export)"` is a runtime edge.
4. `render` folds the edges into two forward adjacency maps. `targets` maps
   source to target ids. `targetObjects` maps source to `{id, type}` records.
   Both keep the input order of the edges.
5. `renderTotalFileCount` counts the keys of the recompile-count map.

Modules:

- `Seqs`: order-preserving `Map` and `Filter` over sequences.
- `MapSums`: the total length of the lists in a map of lists.
- `Kinds`: the edge kinds, the strokes and `LinkType`.
- `Rows`: the row type and the split.
- `Transform`: `transformData`.
- `Adjacency`: the two reduces and the reference grouping they are proved
  against.
- `Layout`: `render`, `forceLayout` and the file count.

The reduces are modelled as left folds from an empty map, step by step as
the source writes them. The reference definition is `EdgesFrom(links, s)`,
the subsequence of edges whose source is `s`. Each fold is proved equal to
it, key by key and entry by entry.

The Dafny field `rawLabel` is the row's `label` field (`label` is a Dafny
keyword). The `Kind` constructors stand for the strings `'compile'`,
`'export'` and `'runtime'`. The stroke constants are three distinct opaque
values.

## Model

| member | source | states |
|---|---|---|
| Kinds.LinkType | assets/js/force_layout.js:173-178 | total on every string: the kind is compile exactly for "(compile)", export exactly for "(export)", runtime for every other label |
| Kinds.StrokeOf | assets/js/force_layout.js:160-169 | each kind has its own stroke (compile, export and runtime strokes at lines 161, 164 and 167), so the stroke tells the kind |
| Rows.NodeRows | assets/js/force_layout.js:52 | a row is in `nodeData` if and only if it is an input row tagged "node" |
| Rows.EdgeRows | assets/js/force_layout.js:53 | a row is in `linkData` if and only if it is an input row tagged "edge" |
| Rows.SplitPartition | assets/js/force_layout.js:52-53 | node rows, edge rows and rows of any other tag together make up the input multiset exactly, so no row is lost or duplicated |
| Rows.SplitConcat | assets/js/force_layout.js:52-53 | both filters keep input order: splitting `a + b` gives the split of `a` followed by the split of `b` |
| Transform.TransformEdge | assets/js/force_layout.js:159-170 | the edge's own three-way test on its label gives the same kind as `LinkType`, the stroke matches that kind, and every other field is unchanged |
| Transform.TransformData | assets/js/force_layout.js:158-171 | same length and order; the i-th edge is the i-th input edge with only its annotation replaced, by the kind `LinkType` gives its label and that kind's stroke |
| Transform.TransformAnnotates | assets/js/force_layout.js:158-171 | every edge in the result carries the annotation of its own label |
| Adjacency.ObjectOf | assets/js/force_layout.js:79 | the record built for an edge has the id that the `targets` reduce pushes for the same edge (line 70), and the type `linkType` gives its label |
| Adjacency.TargetsStep | assets/js/force_layout.js:69-74 | one `targets` step adds the edge's source as a key, appends its target to that source's list (or starts the list), and leaves every other key alone |
| Adjacency.TargetObjectsStep | assets/js/force_layout.js:79-85 | one `targetObjects` step appends `{id: target, type: linkType(label)}` to the source's list, creating it if needed, and leaves other keys alone |
| Adjacency.FoldTargets | assets/js/force_layout.js:67-75 | the `targets` reduce from any accumulator adds exactly the sources of the edges it meets as keys |
| Adjacency.FoldTargetObjects | assets/js/force_layout.js:77-86 | the `targetObjects` reduce from any accumulator adds exactly the sources of the edges it meets as keys |
| Adjacency.TargetsStepSame | assets/js/force_layout.js:69-74 | a `targets` step on an edge moves its target from the pending edges to the end of its source's list |
| Adjacency.TargetsStepOther | assets/js/force_layout.js:69-74 | a `targets` step leaves the list of every other source as it was |
| Adjacency.TargetObjectsStepSame | assets/js/force_layout.js:79-85 | a `targetObjects` step on an edge moves its record from the pending edges to the end of its source's list |
| Adjacency.TargetObjectsStepOther | assets/js/force_layout.js:79-85 | a `targetObjects` step leaves the list of every other source as it was |
| Adjacency.FoldTargetsKey | assets/js/force_layout.js:67-75 | from any accumulator, the list under `s` grows by the targets of the edges from `s`, in input order |
| Adjacency.FoldTargetObjectsKey | assets/js/force_layout.js:77-86 | from any accumulator, the list under `s` grows by the records of the edges from `s`, in input order |
| Adjacency.BuildTargets | assets/js/force_layout.js:67-75 | the keys of `targets` are exactly the edge sources; each list is non-empty and is the targets of the edges leaving that source, in input order |
| Adjacency.BuildTargetObjects | assets/js/force_layout.js:77-86 | the keys of `targetObjects` are exactly the edge sources; each list is non-empty and is the records `{id: target, type: linkType(label)}` of the edges leaving that source, in input order |
| Adjacency.TargetsAgree | assets/js/force_layout.js:67-86 | the two maps have the same keys, and `targets[s]` is `targetObjects[s]` projected to ids (the redundancy noted in the comment at lines 47-48) |
| Adjacency.FoldTargetsSize | assets/js/force_layout.js:67-75 | each `targets` step adds exactly one entry to the total length of the lists |
| Adjacency.FoldTargetObjectsSize | assets/js/force_layout.js:77-86 | each `targetObjects` step adds exactly one entry to the total length of the lists |
| Adjacency.AdjacencySizes | assets/js/force_layout.js:67-86 | the list lengths of each map add up to the number of edges, so every edge is in exactly one group |
| Adjacency.FoldsIgnoreStyle | assets/js/force_layout.js:60-86 | from any accumulators, folding the annotated edges gives the same maps as folding the raw edges |
| Adjacency.TransformKeepsAdjacency | assets/js/force_layout.js:60-86 | running `transformData` before the reduces does not change `targets` or `targetObjects` |
| Layout.RecordKindIsAnnotation | assets/js/force_layout.js:79 | for annotated edges, each `targetObjects` record has the id and type of the matching edge; its type is that edge's `dependencyType` |
| Layout.Render | assets/js/force_layout.js:58-86 | node rows pass through; the i-th link is the i-th input edge with the annotation of its label; both maps are keyed by exactly the edge sources, each list is non-empty and holds, in input order, the targets (records) of the edges leaving its source |
| Layout.RenderAgree | assets/js/force_layout.js:67-86 | in the result of `render`, `targets[s]` is `targetObjects[s]` projected to ids |
| Layout.RenderRecordKinds | assets/js/force_layout.js:60-86 | in the result of `render`, each record's id and type equal the target and `dependencyType` of the matching annotated edge |
| Layout.RenderSizes | assets/js/force_layout.js:67-86 | in the result of `render`, each map's list lengths add up to the number of edges given |
| Layout.ForceLayout | assets/js/force_layout.js:50-55 | the nodes are exactly the "node" rows in input order; the links are the "edge" rows in input order, each annotated by its label; a key is in `targets` if and only if some "edge" row has it as source; each list holds that source's edge rows in order; the maps agree on ids; list lengths sum to the number of edge rows |
| Layout.TotalFileCount | assets/js/force_layout.js:153-156 | counting the enumerated keys one by one gives the number of keys of the map |

## Left out

- DOM, jQuery and d3 work is left out: the project name, SVG sizing, zoom handlers, the glossary and the `.total-files-count` text. It is presentation over external libraries.
- The window-size arithmetic (lines 88-94) is left out. It reads browser layout values and only feeds drawing.
- The Web Worker round trip (lines 124-137) is left out. The worker code computes the dependency, cause-recompile and recompile-count maps, and `graph_worker.js` is not part of this model. `TotalFileCount` takes the recompile-count map as a parameter.
- `findPaths` (line 145) is left out. `force_utils.js` is not part of this model.
- The component constructors and initialisers (lines 114-122) are left out. Their classes are not part of this model.
- The `window.*` global assignments, `console.log` and the empty `setTimeout` are left out. They have no effect on the data.
- The `dataPromise.then` wrapper is left out. Only its synchronous body is modelled, as `ForceLayout`.
- The stroke constant values from `./constants` are not modelled. They are three distinct opaque constructors.
- `transformData` mutates the edge objects in place. The model returns new edge values instead, and `Render` uses them for everything after line 60.
- JavaScript object-key quirks are not modelled. The accumulator is a Dafny map, so the `acc[link.source]` truthiness test is plain key membership. For a source named like a key inherited from `Object.prototype`, such as `"constructor"` or `"__proto__"`, `acc[source]` is already truthy on first sight. Lines 70 and 81 then call `.push` on a function or on `Object.prototype`, which throws a TypeError, and `render` stops. The model treats such a source like any other.
- `type`, `id`, `source`, `target` and `label` are all modelled as strings. The tag tests at lines 52-53 and the label tests at lines 160 and 163 use loose `==`, while the `switch` at line 174 compares strictly. The two agree only on string values, and only string values are modelled. Rows without a `label` field are not modelled either; an absent label would fall to the runtime case in the source too.
- The graph analysis in `graph_worker.js` and `force_utils.js` is not modelled: closures, recompile counts and `findPaths`. `force_layout.js` contains none of it. `force_layout.js` also does not check node ids or drop edges whose endpoints are not node rows. It groups every edge row by source, and the model does the same.
- Both `targets` and `targetObjects` are modelled, as the code builds them, instead of one merged adjacency structure. `Adjacency.TargetsAgree` proves one is derivable from the other.
