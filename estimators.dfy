/**
 * Fitted estimators as trees of wrappers, and the resolution of the base
 * predictor: the estimator that the attribution algorithm works on and whose
 * `classes_` name the classes (`SklearnModel._extract_base_predictor`).
 */
module Estimators {
  import opened Outcomes
  import opened Text

  /** An entry of an estimator's `classes_` array. */
  datatype Label = IntLabel(n: int) | StrLabel(s: string) | BoolLabel(b: bool)

  /** `str(label)`, as `np.array(classes_, str)` renders each entry. */
  function LabelText(l: Label): string {
    match l
    case IntLabel(n) => DecimalString(n)
    case StrLabel(s) => s
    case BoolLabel(b) => if b then "True" else "False"
  }

  /** Both labels are of the same kind, as the entries of one numpy `classes_` array are. */
  predicate SameKind(a: Label, b: Label) {
    a.IntLabel? == b.IntLabel? && a.StrLabel? == b.StrLabel? && a.BoolLabel? == b.BoolLabel?
  }

  /** Pairwise distinct labels, all of one kind: the entries of a fitted `classes_`. */
  predicate DistinctLabels(classes: seq<Label>) {
    forall i, j :: 0 <= i < j < |classes| ==> classes[i] != classes[j] && SameKind(classes[i], classes[j])
  }

  /** Labels of the same kind with the same rendering are the same label. */
  lemma LabelTextInjective(a: Label, b: Label)
    requires SameKind(a, b)
    ensures LabelText(a) == LabelText(b) <==> a == b
  {
    if a.IntLabel? && LabelText(a) == LabelText(b) {
      DecimalStringInjective(a.n, b.n);
    }
  }

  /**
   * A fitted estimator, reduced to what the wrapper inspects of it: the name of
   * its type, the `steps` of a pipeline, the `base_estimator` of a calibration
   * wrapper, its `classes_`, and whether it offers `transform`.
   */
  datatype Estimator = Estimator(
    typeName: string,
    steps: seq<Step>,
    baseEstimator: Option<Estimator>,
    classes: Option<seq<Label>>,
    hasTransform: bool)

  /** One `(name, estimator)` entry of a pipeline's `steps`. */
  datatype Step = Step(name: string, estimator: Estimator)

  const PipelineType := "Pipeline"
  const CalibratedMarker := "CalibratedClassifier"

  /** The type is named exactly `Pipeline`. */
  predicate IsPipeline(e: Estimator) {
    e.typeName == PipelineType
  }

  /** The type name contains `CalibratedClassifier` and the type is not a pipeline. */
  predicate IsCalibrated(e: Estimator) {
    !IsPipeline(e) && Contains(e.typeName, CalibratedMarker)
  }

  /** Neither kind of wrapper: the estimator is its own base predictor. */
  predicate IsBase(e: Estimator) {
    !IsPipeline(e) && !IsCalibrated(e)
  }

  /** The estimator one layer down from a wrapper. */
  function Inner(e: Estimator): (r: Result<Estimator>)
    requires !IsBase(e)
    ensures r.Ok? ==> r.value < e
    ensures r.Err? <==> (IsPipeline(e) && e.steps == []) || (IsCalibrated(e) && e.baseEstimator.None?)
    ensures IsPipeline(e) && e.steps != [] ==> r == Ok(e.steps[|e.steps| - 1].estimator)
    ensures IsCalibrated(e) && e.baseEstimator.Some? ==> r == Ok(e.baseEstimator.value)
  {
    if IsPipeline(e) then
      if e.steps == [] then Err(EmptyPipeline)
      else
        var last := e.steps[|e.steps| - 1];
        assert last in e.steps;
        Ok(last.estimator)
    else
      match e.baseEstimator
      case None => Err(MissingBaseEstimator)
      case Some(b) => Ok(b)
  }

  /** `inner` is reached from `outer` by peeling wrapper layers, zero or more. */
  ghost predicate Within(inner: Estimator, outer: Estimator)
    decreases outer
  {
    inner == outer || (!IsBase(outer) && Inner(outer).Ok? && Within(inner, Inner(outer).value))
  }

  /**
   * `_extract_base_predictor`: a pipeline resolves through the estimator of its
   * last step, a calibration wrapper through its `base_estimator`, and anything
   * else is its own base predictor. The result is never a wrapper and lies
   * inside the estimator it was extracted from.
   */
  function ExtractBasePredictor(e: Estimator): (r: Result<Estimator>)
    ensures r.Ok? ==> IsBase(r.value) && Within(r.value, e)
    ensures IsBase(e) ==> r == Ok(e)
    ensures r.Err? ==> r.error == EmptyPipeline || r.error == MissingBaseEstimator
    decreases e
  {
    if IsBase(e) then Ok(e)
    else
      var inner :- Inner(e);
      ExtractBasePredictor(inner)
  }

  /** Resolving a resolved predictor changes nothing. */
  lemma ExtractIdempotent(e: Estimator)
    requires ExtractBasePredictor(e).Ok?
    ensures ExtractBasePredictor(ExtractBasePredictor(e).value) == ExtractBasePredictor(e)
  {
  }

  /** A wrapper resolves to what the layer below it resolves to, or fails when it has none. */
  lemma ExtractThroughLayer(e: Estimator)
    requires !IsBase(e)
    ensures Inner(e).Err? ==> ExtractBasePredictor(e) == Err(Inner(e).error)
    ensures Inner(e).Ok? ==> ExtractBasePredictor(e) == ExtractBasePredictor(Inner(e).value)
  {
  }

  /**
   * One wrapper layer put around an estimator: a pipeline with some earlier
   * steps, or a calibration wrapper. The fields the resolution does not look at
   * (a pipeline's `base_estimator`, a wrapper's `steps`, `classes_`,
   * `transform`) are arbitrary.
   */
  datatype Layer =
    | PipelineLayer(earlier: seq<Step>, lastName: string, pipelineBase: Option<Estimator>, pipelineClasses: Option<seq<Label>>, pipelineTransform: bool)
    | CalibrationLayer(wrapperType: string, wrapperSteps: seq<Step>, wrapperClasses: Option<seq<Label>>, wrapperTransform: bool)

  /** A layer is well-formed when it wraps as the source expects: a calibration type name contains the marker. */
  predicate WellFormedLayer(l: Layer) {
    l.CalibrationLayer? ==> l.wrapperType != PipelineType && Contains(l.wrapperType, CalibratedMarker)
  }

  /** `e` wrapped in `layers`, innermost first. */
  function Wrap(e: Estimator, layers: seq<Layer>): Estimator
    decreases |layers|
  {
    if layers == [] then e
    else
      var inside := Wrap(e, layers[..|layers| - 1]);
      match layers[|layers| - 1]
      case PipelineLayer(earlier, lastName, base, classes, transform) =>
        Estimator(PipelineType, earlier + [Step(lastName, inside)], base, classes, transform)
      case CalibrationLayer(wrapperType, steps, classes, transform) =>
        Estimator(wrapperType, steps, Some(inside), classes, transform)
  }

  /** However many pipelines and calibration wrappers surround an estimator, they resolve to its base predictor. */
  lemma {:induction false} ExtractThroughWrapping(e: Estimator, layers: seq<Layer>)
    requires forall i :: 0 <= i < |layers| ==> WellFormedLayer(layers[i])
    ensures ExtractBasePredictor(Wrap(e, layers)) == ExtractBasePredictor(e)
    decreases |layers|
  {
    if layers != [] {
      var n := |layers| - 1;
      var inside := Wrap(e, layers[..n]);
      ExtractThroughWrapping(e, layers[..n]);
      assert WellFormedLayer(layers[n]);
      var outer := Wrap(e, layers);
      assert !IsBase(outer);
      assert Inner(outer) == Ok(inside);
    }
  }
}
