/** Edge kinds and the strokes used to draw them. */
module Kinds {

  /** The closed set of dependency kinds; the constructors stand for the
      strings 'compile', 'export' and 'runtime'. */
  datatype Kind = Compile | Export | Runtime

  /** The three stroke constants; only their distinctness matters. */
  datatype Stroke = CompileStroke | ExportStroke | RuntimeStroke

  /** `linkType`: classifies a raw edge label. Total: every label that is
      neither "(compile)" nor "(export)" is a runtime dependency. */
  function LinkType(rawLabel: string): (k: Kind)
    ensures k == Compile <==> rawLabel == "(compile)"
    ensures k == Export <==> rawLabel == "(export)"
    ensures k == Runtime <==> rawLabel != "(compile)" && rawLabel != "(export)"
  {
    match rawLabel
    case "(compile)" => Compile
    case "(export)" => Export
    case _ => Runtime
  }

  /** The stroke that goes with each kind: one stroke per kind, so the
      stroke of an edge tells its kind. */
  function StrokeOf(k: Kind): (s: Stroke)
    ensures s == CompileStroke <==> k == Compile
    ensures s == ExportStroke <==> k == Export
    ensures s == RuntimeStroke <==> k == Runtime
  {
    match k
    case Compile => CompileStroke
    case Export => ExportStroke
    case Runtime => RuntimeStroke
  }
}
