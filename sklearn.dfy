/**
 * `SklearnModel`: a fitted scikit-learn-style estimator served behind
 * preprocess / predict_proba / explain. The numerics (validation against the
 * metadata, the estimator's transform and probabilities, the SHAP tree
 * explainer) are collaborators given as functions; what is modelled is the
 * wrapper's own decisions and the shape of what it returns.
 */
module Sklearn {
  import opened Outcomes
  import opened Text
  import opened Dicts
  import opened Frames
  import opened Estimators

  /** `_explainable_models`: the predictor types the tree explainer supports. */
  const ExplainableModels: seq<string> := [
    "DecisionTreeClassifier", "DecisionTreeRegressor",
    "RandomForestClassifier", "RandomForestRegressor",
    "XGBClassifier", "XGBRegressor", "Booster",
    "CatBoostClassifier", "CatBoostRegressor",
    "LGBMClassifier", "LGBMRegressor"]

  /** A request body: one record, a list of records, or a table already validated. */
  datatype Request =
    | OneRecord(fields: map<string, Value>)
    | Records(items: seq<map<string, Value>>)
    | Tabular(table: Table)

  /**
   * A loaded model as the base class exposes it: whether it is ready, the fitted
   * estimator, the feature names of the metadata, the task flags and the
   * predictor type name.
   */
  datatype Artifact = Artifact(
    ready: bool,
    estimator: Estimator,
    featureNames: seq<string>,
    classification: bool,
    binary: bool,
    predictorType: string)

  /** `feature_dependence`: 'tree_path_dependent' or 'independent'. */
  datatype FeatureDependence = TreePathDependent | Independent

  /** `model_output`: 'margin' or 'probability'. */
  datatype ModelOutput = Margin | Probability

  /** The keyword arguments given to the tree explainer; `data` is the background sample. */
  datatype Params = Params(featureDependence: FeatureDependence, modelOutput: ModelOutput, data: Option<Table>)

  /** What `shap_values` is called on: the named-column table, or its bare `.values`. */
  datatype ExplainerInput = Named(table: Table) | Bare(values: seq<seq<Value>>)

  /** What `shap_values` returns: a list with one array per class, a single array, or anything else. */
  datatype RawOutput = PerClass(matrices: seq<Matrix>) | Single(matrix: Matrix) | Other

  /** The code the wrapper calls but does not own. */
  datatype Collaborators = Collaborators(
    validate: Request -> Result<Table>,
    transform: (Estimator, Table) -> Table,
    predictProba: (Estimator, Table) -> Matrix,
    shapValues: (Estimator, Params, ExplainerInput) -> RawOutput)

  /** The result of `explain`: records for regression, records per class name for classification. */
  datatype Explanation = ByRecord(records: seq<Record>) | ByClass(classes: Dict<seq<Record>>)

  /**
   * The `_check` gate put on each operation: the model must be ready, some
   * operations need a classification task, `explain` needs an explainable
   * predictor type.
   */
  function Check(m: Artifact, needClassification: bool, needExplainable: bool): (o: Outcome)
    ensures o.Pass? <==> m.ready && (needClassification ==> m.classification)
                         && (needExplainable ==> m.predictorType in ExplainableModels)
    ensures !m.ready ==> o == Fail(NotReady)
  {
    if !m.ready then Fail(NotReady)
    else if needClassification && !m.classification then Fail(UnsupportedTask)
    else if needExplainable && m.predictorType !in ExplainableModels then Fail(NotExplainable)
    else Pass
  }

  /** `_get_predictor`: the base predictor of the loaded estimator. */
  function Predictor(m: Artifact): (r: Result<Estimator>)
    ensures r.Ok? <==> m.ready && ExtractBasePredictor(m.estimator).Ok?
    ensures r.Ok? ==> IsBase(r.value) && Within(r.value, m.estimator)
  {
    var gate := Check(m, false, false);
    :- gate;
    ExtractBasePredictor(m.estimator)
  }

  /**
   * `_get_class_names`: the base predictor's `classes_` as strings, for a
   * classification model only; the outer estimator's classes play no part.
   * A base predictor without `classes_` raises AttributeError.
   */
  function ClassNames(m: Artifact): (r: Result<seq<string>>)
    ensures r.Ok? <==>
              m.ready && m.classification && ExtractBasePredictor(m.estimator).Ok? &&
              ExtractBasePredictor(m.estimator).value.classes.Some?
    ensures (m.ready && m.classification && ExtractBasePredictor(m.estimator).Ok? &&
             ExtractBasePredictor(m.estimator).value.classes.None?) ==> r == Err(MissingClasses)
    ensures r.Ok? ==> var labels := ExtractBasePredictor(m.estimator).value.classes.value;
      |r.value| == |labels| && forall i :: 0 <= i < |r.value| ==> r.value[i] == LabelText(labels[i])
  {
    var gate := Check(m, true, false);
    :- gate;
    var predictor :- Predictor(m);
    match predictor.classes
    case None => Err(MissingClasses)
    case Some(labels) => Ok(seq(|labels|, i requires 0 <= i < |labels| => LabelText(labels[i])))
  }

  /**
   * Distinct `classes_` of one kind give distinct class names, so the records
   * keyed by them keep one entry per class.
   */
  lemma ClassNamesDistinct(m: Artifact)
    requires ClassNames(m).Ok?
    requires DistinctLabels(ExtractBasePredictor(m.estimator).value.classes.value)
    ensures Distinct(ClassNames(m).value)
  {
    var classes := ExtractBasePredictor(m.estimator).value.classes.value;
    forall i, j | 0 <= i < j < |classes|
      ensures LabelText(classes[i]) != LabelText(classes[j])
    {
      LabelTextInjective(classes[i], classes[j]);
    }
  }

  /**
   * `preprocess`: the validated input, passed through the estimator's
   * `transform` when it has one and returned as validated otherwise.
   */
  function Preprocess(m: Artifact, lib: Collaborators, features: Request): (r: Result<Table>)
    ensures r.Ok? ==> m.ready && lib.validate(features).Ok?
    ensures m.ready && !m.estimator.hasTransform ==> r == lib.validate(features)
    ensures m.estimator.hasTransform && r.Ok? ==> r.value == lib.transform(m.estimator, lib.validate(features).value)
    ensures !m.ready ==> r == Err(NotReady)
    ensures m.ready && lib.validate(features).Ok? ==> r.Ok?
    ensures m.ready && lib.validate(features).Err? ==> r == lib.validate(features)
  {
    var gate := Check(m, false, false);
    :- gate;
    var input :- lib.validate(features);
    if m.estimator.hasTransform then Ok(lib.transform(m.estimator, input)) else Ok(input)
  }

  /**
   * `predict_proba`: one record per row of the probability matrix, keyed by the
   * class names of the base predictor.
   */
  function PredictProba(m: Artifact, lib: Collaborators, features: Request): (r: Result<seq<Record>>)
    ensures r.Ok? ==> m.classification && lib.validate(features).Ok? && ClassNames(m).Ok?
    ensures r.Ok? ==> |r.value| == |lib.predictProba(m.estimator, lib.validate(features).value)|
    ensures m.ready && !m.classification ==> r == Err(UnsupportedTask)
    ensures !m.ready ==> r == Err(NotReady)
    ensures m.ready && m.classification && lib.validate(features).Err? ==> r == Err(lib.validate(features).error)
  {
    var gate := Check(m, true, false);
    :- gate;
    var input :- lib.validate(features);
    var prediction := lib.predictProba(m.estimator, input);
    var names :- ClassNames(m);
    ToRecords(prediction, names, |prediction|)
  }

  /**
   * Each probability record has exactly the base predictor's class names as
   * keys, in class order, bound to that row's probabilities; and it fails only
   * when some row does not hold one probability per class.
   */
  lemma PredictProbaRecords(m: Artifact, lib: Collaborators, features: Request)
    requires m.ready && m.classification && lib.validate(features).Ok? && ClassNames(m).Ok?
    ensures var prediction := lib.predictProba(m.estimator, lib.validate(features).value);
      PredictProba(m, lib, features).Ok? <==> HasWidth(prediction, |ClassNames(m).value|)
    ensures var prediction := lib.predictProba(m.estimator, lib.validate(features).value);
      var names := ClassNames(m).value;
      PredictProba(m, lib, features).Ok? && Distinct(names) ==>
        forall i :: 0 <= i < |prediction| ==>
          Keys(PredictProba(m, lib, features).value[i]) == names &&
          forall j :: 0 <= j < |names| ==> PredictProba(m, lib, features).value[i][j] == (names[j], prediction[i][j])
  {
    var prediction := lib.predictProba(m.estimator, lib.validate(features).value);
    var names := ClassNames(m).value;
    if PredictProba(m, lib, features).Ok? && Distinct(names) {
      forall i | 0 <= i < |prediction|
        ensures Keys(PredictProba(m, lib, features).value[i]) == names
        ensures forall j :: 0 <= j < |names| ==> PredictProba(m, lib, features).value[i][j] == (names[j], prediction[i][j])
      {
        RecordsShape(prediction, names, |prediction|, i);
      }
    }
  }

  /**
   * The explainer's parameters: without a background sample, path-dependent
   * attributions of the raw margin; with one, independent attributions of the
   * probability, against that sample.
   */
  function ExplainerParams(background: Option<Table>): (p: Params)
    ensures p.data == background
    ensures p.featureDependence == Independent <==> background.Some?
    ensures p.modelOutput == Probability <==> background.Some?
  {
    match background
    case None => Params(TreePathDependent, Margin, None)
    case Some(data) => Params(Independent, Probability, Some(data))
  }

  /** `use_pandas`: the predictor type name contains `LGBMClassifier` or `LGBMRegressor`. */
  predicate UsePandas(predictorType: string) {
    Contains(predictorType, "LGBMClassifier") || Contains(predictorType, "LGBMRegressor")
  }

  /** Named columns are kept exactly when one of the two LightGBM names occurs in the type name. */
  lemma UsePandasIff(predictorType: string)
    ensures UsePandas(predictorType) <==>
      (exists i: nat :: OccursAt(predictorType, "LGBMClassifier", i)) ||
      (exists i: nat :: OccursAt(predictorType, "LGBMRegressor", i))
  {
    ContainsIff(predictorType, "LGBMClassifier");
    ContainsIff(predictorType, "LGBMRegressor");
  }

  /** The selected feature columns as handed to `shap_values`. */
  function ExplainerInputFor(input: Table, predictorType: string): (x: ExplainerInput)
    ensures x.Named? <==> UsePandas(predictorType)
    ensures x.Named? ==> x.table == input
    ensures x.Bare? ==> x.values == input.rows
  {
    if UsePandas(predictorType) then Named(input) else Bare(input.rows)
  }

  /** The background table: `preprocess(_validate(samples))` when samples are given. */
  function Background(m: Artifact, lib: Collaborators, samples: Option<Request>): (r: Result<Option<Table>>)
    ensures samples.None? ==> r == Ok(None)
    ensures r.Ok? && samples.Some? ==>
              lib.validate(samples.value).Ok? && r.value.Some? &&
              Preprocess(m, lib, Tabular(lib.validate(samples.value).value)) == Ok(r.value.value)
    ensures samples.Some? && lib.validate(samples.value).Err? ==> r == Err(lib.validate(samples.value).error)
    ensures samples.Some? && lib.validate(samples.value).Ok? ==>
              var pre := Preprocess(m, lib, Tabular(lib.validate(samples.value).value));
              (r.Ok? <==> pre.Ok?) && (pre.Err? ==> r == Err(pre.error))
  {
    match samples
    case None => Ok(None)
    case Some(s) =>
      var validated :- lib.validate(s);
      var data :- Preprocess(m, lib, Tabular(validated));
      Ok(Some(data))
  }

  /**
   * The attribution values of the class at position `i`: the i-th array of a
   * per-class list, or the single array negated for position 0 and kept as is
   * for the others.
   */
  function ClassValues(raw: RawOutput, i: nat): (r: Result<Matrix>)
    requires !raw.Other?
    ensures raw.PerClass? ==> (r.Ok? <==> i < |raw.matrices|)
    ensures raw.PerClass? && r.Ok? ==> r.value == raw.matrices[i]
    ensures raw.Single? ==> r.Ok?
    ensures raw.Single? && i > 0 ==> r == Ok(raw.matrix)
    ensures raw.Single? && i == 0 ==>
              r.Ok? && |r.value| == |raw.matrix| &&
              forall row :: 0 <= row < |raw.matrix| ==>
                (|r.value[row]| == |raw.matrix[row]| &&
                 forall f :: 0 <= f < |raw.matrix[row]| ==> r.value[row][f] == -raw.matrix[row][f])
    ensures r.Err? ==> r.error == ClassIndexOutOfRange(i)
  {
    match raw
    case PerClass(matrices) => if i < |matrices| then Ok(matrices[i]) else Err(ClassIndexOutOfRange(i))
    case Single(matrix) => Ok(Scale(matrix, if i == 0 then -1.0 else 1.0))
  }

  /** The per-class result after the classes `names` were filled in, in order; the first failure stops it. */
  function ClassTable(names: seq<string>, raw: RawOutput, cols: seq<string>, nrows: nat): (r: Result<Dict<seq<Record>>>)
    requires !raw.Other?
    ensures r.Err? ==> r.error.ClassIndexOutOfRange? || r.error == ShapeMismatch
    decreases |names|
  {
    if names == [] then Ok([])
    else
      var n := |names| - 1;
      var earlier :- ClassTable(names[..n], raw, cols, nrows);
      var values :- ClassValues(raw, n);
      var records :- ToRecords(values, cols, nrows);
      Ok(Put(earlier, names[n], records))
  }

  /** The class at position `k` is well-formed: its values exist and have the table's shape. */
  predicate ClassFits(raw: RawOutput, k: nat, cols: seq<string>, nrows: nat)
    requires !raw.Other?
  {
    ClassValues(raw, k).Ok? && ToRecords(ClassValues(raw, k).value, cols, nrows).Ok?
  }

  /** Filling the classes succeeds exactly when every class fits. */
  lemma {:induction false} ClassTableOk(names: seq<string>, raw: RawOutput, cols: seq<string>, nrows: nat)
    requires !raw.Other?
    ensures ClassTable(names, raw, cols, nrows).Ok? <==> forall k :: 0 <= k < |names| ==> ClassFits(raw, k, cols, nrows)
    decreases |names|
  {
    if names != [] {
      var n := |names| - 1;
      ClassTableOk(names[..n], raw, cols, nrows);
      ClassTableStep(names, raw, cols, nrows);
      AllFitSplit(n, raw, cols, nrows);
    }
  }

  /** The fill of all classes succeeds exactly when the fill of all but the last does and the last class fits. */
  lemma ClassTableStep(names: seq<string>, raw: RawOutput, cols: seq<string>, nrows: nat)
    requires !raw.Other? && names != []
    ensures ClassTable(names, raw, cols, nrows).Ok? <==>
      ClassTable(names[..|names| - 1], raw, cols, nrows).Ok? && ClassFits(raw, |names| - 1, cols, nrows)
  {
  }

  /** All of the first `n + 1` classes fit exactly when the first `n` do and the one at `n` does. */
  lemma AllFitSplit(n: nat, raw: RawOutput, cols: seq<string>, nrows: nat)
    requires !raw.Other?
    ensures (forall k :: 0 <= k < n + 1 ==> ClassFits(raw, k, cols, nrows)) <==>
      (forall k :: 0 <= k < n ==> ClassFits(raw, k, cols, nrows)) && ClassFits(raw, n, cols, nrows)
  {
  }

  /**
   * With distinct class names the result's keys are the class names in order,
   * and the entry of the class at position `k` holds the records of its values.
   */
  lemma {:induction false} ClassTableShape(names: seq<string>, raw: RawOutput, cols: seq<string>, nrows: nat)
    requires !raw.Other? && ClassTable(names, raw, cols, nrows).Ok? && Distinct(names)
    ensures Keys(ClassTable(names, raw, cols, nrows).value) == names
    ensures forall k :: 0 <= k < |names| ==>
              ClassValues(raw, k).Ok? &&
              ToRecords(ClassValues(raw, k).value, cols, nrows) == Ok(ClassTable(names, raw, cols, nrows).value[k].1)
    decreases |names|
  {
    if names != [] {
      var n := |names| - 1;
      var prefix := names[..n];
      assert Distinct(prefix);
      ClassTableSnoc(names, raw, cols, nrows);
      ClassTableShape(prefix, raw, cols, nrows);
      var earlier := ClassTable(prefix, raw, cols, nrows).value;
      assert names[n] !in Keys(earlier);
      PutKeys(earlier, names[n], ToRecords(ClassValues(raw, n).value, cols, nrows).value);
      var d := ClassTable(names, raw, cols, nrows).value;
      assert d == earlier + [(names[n], ToRecords(ClassValues(raw, n).value, cols, nrows).value)];
      assert Keys(d) == Keys(earlier) + [names[n]];
      LastSplit(names);
    }
  }

  lemma LastSplit(s: seq<string>)
    requires s != []
    ensures s[..|s| - 1] + [s[|s| - 1]] == s
  {
  }

  /** A successful fill is the fill of all but the last class, with the last class's records put in. */
  lemma ClassTableSnoc(names: seq<string>, raw: RawOutput, cols: seq<string>, nrows: nat)
    requires !raw.Other? && names != [] && ClassTable(names, raw, cols, nrows).Ok?
    ensures var n := |names| - 1;
      && ClassTable(names[..n], raw, cols, nrows).Ok?
      && ClassFits(raw, n, cols, nrows)
      && ClassTable(names, raw, cols, nrows).value ==
           Put(ClassTable(names[..n], raw, cols, nrows).value, names[n],
               ToRecords(ClassValues(raw, n).value, cols, nrows).value)
  {
  }

  /** Filling one more class, after the first `i` were filled. */
  lemma ClassTableExtend(names: seq<string>, i: nat, raw: RawOutput, cols: seq<string>, nrows: nat)
    requires !raw.Other? && i < |names| && ClassTable(names[..i], raw, cols, nrows).Ok?
    ensures ClassValues(raw, i).Err? ==>
              ClassTable(names[..i + 1], raw, cols, nrows) == Err(ClassValues(raw, i).error)
    ensures ClassValues(raw, i).Ok? && ToRecords(ClassValues(raw, i).value, cols, nrows).Err? ==>
              ClassTable(names[..i + 1], raw, cols, nrows) == Err(ShapeMismatch)
    ensures ClassFits(raw, i, cols, nrows) ==>
              ClassTable(names[..i + 1], raw, cols, nrows) ==
              Ok(Put(ClassTable(names[..i], raw, cols, nrows).value, names[i],
                     ToRecords(ClassValues(raw, i).value, cols, nrows).value))
  {
    assert names[..i + 1][..i] == names[..i];
  }

  /** A failure while filling the first `k` classes is the failure of the whole fill. */
  lemma {:induction false} ClassTablePrefixErr(names: seq<string>, k: nat, raw: RawOutput, cols: seq<string>, nrows: nat)
    requires !raw.Other? && k <= |names| && ClassTable(names[..k], raw, cols, nrows).Err?
    ensures ClassTable(names, raw, cols, nrows) == ClassTable(names[..k], raw, cols, nrows)
    decreases |names| - k
  {
    if k < |names| {
      var n := |names| - 1;
      assert names[..n][..k] == names[..k];
      ClassTablePrefixErr(names[..n], k, raw, cols, nrows);
    } else {
      assert names[..k] == names;
    }
  }

  /**
   * The classification branch: a per-class list is taken as is, whatever the
   * class count; a single array only for a binary problem; anything else is an
   * error.
   */
  function NormalizeByClass(names: seq<string>, raw: RawOutput, binary: bool, cols: seq<string>, nrows: nat): (r: Result<Explanation>)
    ensures r.Ok? ==> r.value.ByClass?
    ensures r == Err(UnknownExplainerOutput) <==> raw.Other? || (raw.Single? && !binary)
  {
    match raw
    case Other => Err(UnknownExplainerOutput)
    case Single(_) =>
      if !binary then Err(UnknownExplainerOutput)
      else var table :- ClassTable(names, raw, cols, nrows); Ok(ByClass(table))
    case PerClass(_) =>
      var table :- ClassTable(names, raw, cols, nrows); Ok(ByClass(table))
  }

  /** The list case is decided before the binary flag is consulted. */
  lemma PerClassIgnoresBinary(names: seq<string>, raw: RawOutput, cols: seq<string>, nrows: nat)
    requires raw.PerClass?
    ensures NormalizeByClass(names, raw, true, cols, nrows) == NormalizeByClass(names, raw, false, cols, nrows)
  {
  }

  /**
   * Binary case from a single array: the first class gets the negated values and
   * the second the values themselves, so the two are exact opposites entry by entry.
   */
  lemma BinaryNegation(names: seq<string>, matrix: Matrix, cols: seq<string>, nrows: nat)
    requires NormalizeByClass(names, Single(matrix), true, cols, nrows).Ok?
    requires Distinct(names) && Distinct(cols) && |names| >= 2
    ensures var d := NormalizeByClass(names, Single(matrix), true, cols, nrows).value.classes;
      && |d| == |names| && d[0].0 == names[0] && d[1].0 == names[1]
      && |d[0].1| == nrows && |d[1].1| == nrows
      && (forall row :: 0 <= row < nrows ==> |d[0].1[row]| == |cols| && |d[1].1[row]| == |cols|)
      && (forall row, f :: 0 <= row < nrows && 0 <= f < |cols| ==>
            && d[1].1[row][f] == (cols[f], matrix[row][f])
            && d[0].1[row][f] == (cols[f], -matrix[row][f])
            && d[0].1[row][f].1 == -d[1].1[row][f].1)
  {
    var raw := Single(matrix);
    var d := ClassTable(names, raw, cols, nrows).value;
    ClassTableShape(names, raw, cols, nrows);
    assert Keys(d)[0] == names[0] && Keys(d)[1] == names[1];
    var neg := ClassValues(raw, 0).value;
    forall row | 0 <= row < nrows
      ensures |d[0].1[row]| == |cols| && |d[1].1[row]| == |cols|
      ensures forall f :: 0 <= f < |cols| ==> d[1].1[row][f] == (cols[f], matrix[row][f])
      ensures forall f :: 0 <= f < |cols| ==> d[0].1[row][f] == (cols[f], -matrix[row][f])
    {
      RecordsShape(matrix, cols, nrows, row);
      RecordsShape(neg, cols, nrows, row);
    }
  }

  /** The regression branch: one record per row of a single array; any other output cannot be framed. */
  function NormalizeByRecord(raw: RawOutput, cols: seq<string>, nrows: nat): (r: Result<Explanation>)
    ensures r.Ok? ==> r.value.ByRecord? && raw.Single? && |r.value.records| == nrows
    ensures raw.Single? ==> (r.Ok? <==> |raw.matrix| == nrows && HasWidth(raw.matrix, |cols|))
  {
    match raw
    case Single(matrix) => var records :- ToRecords(matrix, cols, nrows); Ok(ByRecord(records))
    case _ => Err(ShapeMismatch)
  }

  /** `explain`, stage by stage, as a value. */
  function ExplainSpec(m: Artifact, lib: Collaborators, features: Request, samples: Option<Request>): (r: Result<Explanation>)
    ensures r.Ok? ==> m.ready && m.predictorType in ExplainableModels
    ensures r.Ok? ==> (r.value.ByClass? <==> m.classification)
    ensures !m.ready ==> r == Err(NotReady)
    ensures m.ready && m.predictorType !in ExplainableModels ==> r == Err(NotExplainable)
    ensures m.ready && m.predictorType in ExplainableModels && lib.validate(features).Err? ==>
              r == Err(lib.validate(features).error)
  {
    var gate := Check(m, false, true);
    :- gate;
    var preprocessed :- Preprocess(m, lib, features);
    var background :- Background(m, lib, samples);
    var predictor :- Predictor(m);
    var input :- Select(preprocessed, m.featureNames);
    var raw := lib.shapValues(predictor, ExplainerParams(background), ExplainerInputFor(input, m.predictorType));
    var nrows := |preprocessed.rows|;
    if m.classification then
      var names :- ClassNames(m);
      NormalizeByClass(names, raw, m.binary, m.featureNames, nrows)
    else
      NormalizeByRecord(raw, m.featureNames, nrows)
  }

  /**
   * `explain`: computes the attributions of the preprocessed features and
   * arranges them per class (classification) or per record (regression).
   */
  method Explain(m: Artifact, lib: Collaborators, features: Request, samples: Option<Request>) returns (r: Result<Explanation>)
    ensures r == ExplainSpec(m, lib, features, samples)
  {
    var gate := Check(m, false, true);
    if gate.Fail? {
      return Err(gate.error);
    }
    var pre := Preprocess(m, lib, features);
    if pre.Err? {
      return Err(pre.error);
    }
    var preprocessed := pre.value;
    var params: Params;
    if samples.None? {
      params := Params(TreePathDependent, Margin, None);
    } else {
      var validated := lib.validate(samples.value);
      if validated.Err? {
        return Err(validated.error);
      }
      var data := Preprocess(m, lib, Tabular(validated.value));
      if data.Err? {
        return Err(data.error);
      }
      params := Params(Independent, Probability, Some(data.value));
    }
    var predictor := Predictor(m);
    if predictor.Err? {
      return Err(predictor.error);
    }
    var colnames := m.featureNames;
    var selected := Select(preprocessed, colnames);
    if selected.Err? {
      return Err(selected.error);
    }
    var inputData := selected.value;
    var usePandas := UsePandas(m.predictorType);
    var shapValues := lib.shapValues(predictor.value, params, if usePandas then Named(inputData) else Bare(inputData.rows));
    var nrows := |preprocessed.rows|;
    if !m.classification {
      if !shapValues.Single? {
        return Err(ShapeMismatch);
      }
      var records := ToRecords(shapValues.matrix, colnames, nrows);
      if records.Err? {
        return Err(records.error);
      }
      return Ok(ByRecord(records.value));
    }
    var classNames := ClassNames(m);
    if classNames.Err? {
      return Err(classNames.error);
    }
    var names := classNames.value;
    r := FormatByClass(names, shapValues, m.binary, colnames, nrows);
  }

  /**
   * The classification branch of `explain`: decides whether the single array is
   * to be negated for the first class, then fills the result class by class.
   */
  method FormatByClass(names: seq<string>, shapValues: RawOutput, binary: bool, colnames: seq<string>, nrows: nat)
    returns (r: Result<Explanation>)
    ensures r == NormalizeByClass(names, shapValues, binary, colnames, nrows)
  {
    var processShapValues: bool;
    if shapValues.PerClass? {
      processShapValues := false;
    } else if shapValues.Single? && binary {
      processShapValues := true;
    } else {
      return Err(UnknownExplainerOutput);
    }
    var result: Dict<seq<Record>> := [];
    var i := 0;
    assert names[..i] == [];
    while i < |names|
      invariant 0 <= i <= |names|
      invariant processShapValues <==> shapValues.Single?
      invariant ClassTable(names[..i], shapValues, colnames, nrows) == Ok(result)
    {
      var values: Matrix;
      if processShapValues {
        values := Scale(shapValues.matrix, if i == 0 then -1.0 else 1.0);
      } else {
        if i >= |shapValues.matrices| {
          assert ClassTable(names, shapValues, colnames, nrows) == Err(ClassIndexOutOfRange(i)) by {
            ClassTableExtend(names, i, shapValues, colnames, nrows);
            ClassTablePrefixErr(names, i + 1, shapValues, colnames, nrows);
          }
          return Err(ClassIndexOutOfRange(i));
        }
        values := shapValues.matrices[i];
      }
      assert ClassValues(shapValues, i) == Ok(values);
      var records := ToRecords(values, colnames, nrows);
      if records.Err? {
        assert ClassTable(names, shapValues, colnames, nrows) == Err(ShapeMismatch) by {
          ClassTableExtend(names, i, shapValues, colnames, nrows);
          ClassTablePrefixErr(names, i + 1, shapValues, colnames, nrows);
        }
        return Err(records.error);
      }
      assert ClassTable(names[..i + 1], shapValues, colnames, nrows) == Ok(Put(result, names[i], records.value)) by {
        ClassTableExtend(names, i, shapValues, colnames, nrows);
      }
      result := Put(result, names[i], records.value);
      i := i + 1;
    }
    assert names[..i] == names;
    return Ok(ByClass(result));
  }

  /**
   * The shape of a successful explanation: for regression one record per
   * preprocessed row, keyed by the feature names in order; for classification
   * (with distinct class names) the class names in order as keys, each holding
   * such a list of records.
   */
  lemma ExplainShape(m: Artifact, lib: Collaborators, features: Request, samples: Option<Request>)
    requires ExplainSpec(m, lib, features, samples).Ok? && Distinct(m.featureNames)
    ensures Preprocess(m, lib, features).Ok?
    ensures var e := ExplainSpec(m, lib, features, samples).value;
      var nrows := |Preprocess(m, lib, features).value.rows|;
      e.ByRecord? ==>
        |e.records| == nrows && forall i :: 0 <= i < nrows ==> Keys(e.records[i]) == m.featureNames
    ensures var e := ExplainSpec(m, lib, features, samples).value;
      var nrows := |Preprocess(m, lib, features).value.rows|;
      e.ByClass? ==>
        ClassNames(m).Ok? && (Distinct(ClassNames(m).value) ==>
          Keys(e.classes) == ClassNames(m).value &&
          forall c :: 0 <= c < |e.classes| ==>
            |e.classes[c].1| == nrows && forall i :: 0 <= i < nrows ==> Keys(e.classes[c].1[i]) == m.featureNames)
  {
    var e := ExplainSpec(m, lib, features, samples).value;
    var preprocessed := Preprocess(m, lib, features).value;
    var nrows := |preprocessed.rows|;
    var background := Background(m, lib, samples).value;
    var predictor := Predictor(m).value;
    var input := Select(preprocessed, m.featureNames).value;
    var raw := lib.shapValues(predictor, ExplainerParams(background), ExplainerInputFor(input, m.predictorType));
    if e.ByRecord? {
      forall i | 0 <= i < nrows
        ensures Keys(e.records[i]) == m.featureNames
      {
        RecordsShape(raw.matrix, m.featureNames, nrows, i);
      }
    } else {
      var names := ClassNames(m).value;
      if Distinct(names) {
        ClassTableShape(names, raw, m.featureNames, nrows);
        forall c | 0 <= c < |e.classes|
          ensures |e.classes[c].1| == nrows && forall i :: 0 <= i < nrows ==> Keys(e.classes[c].1[i]) == m.featureNames
        {
          forall i | 0 <= i < nrows
            ensures Keys(e.classes[c].1[i]) == m.featureNames
          {
            RecordsShape(ClassValues(raw, c).value, m.featureNames, nrows, i);
          }
        }
      }
    }
  }
}
