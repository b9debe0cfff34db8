# SklearnModel: base-predictor resolution, inference shaping and SHAP explanations

This project models the scikit-learn model wrapper `SklearnModel` of an ML
serving API (`src/model/sklearn.py`). The wrapper holds a fitted estimator and
its metadata. It offers `preprocess`, `predict_proba` and `explain`. It resolves
the *base predictor* by peeling pipelines and calibration wrappers. It arranges
raw SHAP attributions into records keyed by feature name, grouped per class for
classification.

The model is in Dafny and covers the wrapper's own decisions:

- `estimators.dfy` (`Estimators`): an estimator is a tree. A `Pipeline` has
  `steps`, a calibration wrapper has a `base_estimator`. `ExtractBasePredictor`
  is `_extract_base_predictor`. It is proved to return a non-wrapper found inside
  its argument, to be idempotent, and to see through any nesting of wrappers.
- `text.dfy` (`Text`): Python's substring test `sub in s`, proved equal to "occurs
  at some position". Also the `str()` rendering of integer class labels.
- `dicts.dfy` (`Dicts`): a Python dict as its entries in insertion order. `d[k] = v`
  keeps an existing key in place and appends a new one. `dict(zip(ks, vs))` with
  distinct keys is the keys zipped with the values.
- `frames.dfy` (`Frames`): DataFrames as rectangular tables. Covers column
  selection `df[names]`, `pd.DataFrame(values, index, columns).to_dict(orient='records')`
  with its shape errors, and `values * (-1 or 1)`.
- `sklearn.dfy` (`Sklearn`): the operations. `Check` is the `_check` gate.
  `Predictor` and `ClassNames` are `_get_predictor` and `_get_class_names`.
  `Preprocess` and `PredictProba` are the inference wrappers. `ExplainerParams`
  is the attribution parameter policy and `UsePandas` the named-column test.
  `ExplainSpec` is `explain` as a value. `Explain` and `FormatByClass` are
  `explain` as the source writes it: checks first, then a loop over the class
  names that fills the result dict.

The code the wrapper calls but does not own comes in as function values of a
`Collaborators` datatype: `_validate`, the estimator's `transform` and
`predict_proba`, and `shap.TreeExplainer(...).shap_values`. The facts that come
from the base class are fields of an `Artifact`: readiness, `_feature_names()`,
`_is_classification`, `_is_binary_classification` and `_get_predictor_type()`.
Attribution and probability values are `real`, so negation is exact.

## Model

| member | source | states |
|---|---|---|
| `Estimators.ExtractBasePredictor` | src/model/sklearn.py:61-68 | A success is never a `Pipeline` or a type whose name contains `CalibratedClassifier`, and it is reached from the argument by peeling layers. A non-wrapper is returned unchanged. The only failures are a pipeline without steps and a calibration wrapper without a base estimator. |
| `Estimators.Inner` | src/model/sklearn.py:63-66 | One layer down: a pipeline with steps gives the estimator of its last step, and a calibration wrapper with a base gives its `base_estimator`. It fails exactly when the pipeline has no steps or the wrapper has no base. |
| `Estimators.ExtractThroughLayer` | src/model/sklearn.py:63-66 | A wrapper resolves to whatever the layer beneath it resolves to, and fails with that layer's error when there is none. |
| `Estimators.ExtractIdempotent` | src/model/sklearn.py:61-68 | Resolving an already resolved predictor returns it again. |
| `Estimators.ExtractThroughWrapping` | src/model/sklearn.py:61-68 | Any nesting of pipelines (as last step) and calibration wrappers around an estimator resolves to that estimator's own base predictor, whatever the wrappers' other fields hold. |
| `Estimators.LabelTextInjective` | src/model/sklearn.py:57 | Two `classes_` entries of the same kind render to the same string exactly when they are the same label. |
| `Text.ContainsIff` | src/model/sklearn.py:65 | The substring test holds exactly when the substring occurs at some position of the type name. |
| `Text.DecimalString` | src/model/sklearn.py:57 | `str()` of an integer class label is non-empty and starts with `-` exactly for negative labels. |
| `Text.DecimalRoundTrip` | src/model/sklearn.py:57 | Reading back the sign and the decimal digits of `str(n)` gives `n`. |
| `Text.DecimalStringInjective` | src/model/sklearn.py:57 | Distinct integers have distinct `str()` renderings. |
| `Dicts.PutKeys` | src/model/sklearn.py:222 | `result[c] = ...` leaves the key order unchanged when `c` is already a key, and otherwise appends `c` with its value at the end. |
| `Dicts.PutGet` | src/model/sklearn.py:222 | After `result[c] = v`, `result[c]` is `v` and every other key reads as before. |
| `Dicts.FromPairsKeys` | src/model/sklearn.py:144 | A record built from column names and a row has exactly those names as keys. |
| `Dicts.FromPairsDistinct` | src/model/sklearn.py:144 | With distinct column names, a record is the names paired with the row's values, in column order. |
| `Frames.Select` | src/model/sklearn.py:196 | `preprocessed[colnames]` fails, naming the absent columns, exactly when some feature name is not a column. Otherwise the result has the feature names as columns, in order, and the same rows. Each cell comes from the same row, under the first column with that name. |
| `Frames.ToRecords` | src/model/sklearn.py:222-226 | Building records succeeds exactly when the values have one row per index entry and one value per column. It then yields one record per row. Any other shape is a ValueError. |
| `Frames.RecordsShape` | src/model/sklearn.py:222-226 | With distinct column names, record `i` has exactly the column names as keys, in column order, and binds column `j` to `values[i][j]`. |
| `Frames.Scale` | src/model/sklearn.py:219 | Multiplying by `1` leaves the values unchanged. Multiplying by `-1` negates every entry. The shape is kept. |
| `Sklearn.Check` | src/model/sklearn.py:34-43 | The `_check` gate passes exactly when the model is ready, has a classification task if one is required, and has a predictor type in `_explainable_models` if explainability is required. An unready model always fails with the not-ready error. |
| `Sklearn.Predictor` | src/model/sklearn.py:51-53 | `_get_predictor` succeeds exactly when the model is ready and unwrapping succeeds. The result is a non-wrapper inside the loaded estimator. |
| `Sklearn.ClassNames` | src/model/sklearn.py:55-57 | `_get_class_names` succeeds exactly for a ready classification model whose base predictor resolves and has `classes_`. A resolved base predictor without `classes_` (a raw `Booster`, say) gives the AttributeError. The names are the base predictor's `classes_`, one per class, each rendered by `str()`. |
| `Sklearn.ClassNamesDistinct` | src/model/sklearn.py:55-57 | Pairwise distinct `classes_` of one kind give pairwise distinct class names. |
| `Sklearn.Preprocess` | src/model/sklearn.py:90-94 | For a ready model, `preprocess` succeeds exactly when validation succeeds, and a validation error is passed on unchanged. It gives the estimator's `transform` of the validated input when the estimator has `transform`, and the validated input itself otherwise. An unready model gives the not-ready error. |
| `Sklearn.PredictProba` | src/model/sklearn.py:137-144 | `predict_proba` succeeds only for a classification model with valid input and resolvable class names. It then returns one record per row of the probability matrix. A model that is not ready gets the not-ready RuntimeError, a regression model gets the task error, and a validation error reaches the caller unchanged. |
| `Sklearn.PredictProbaRecords` | src/model/sklearn.py:141-144 | The probability records exist exactly when every row holds one value per class. With distinct class names, each record's keys are the base predictor's class names in class order, bound to that row's probabilities. |
| `Sklearn.ExplainerParams` | src/model/sklearn.py:182-190 | The background data is passed exactly as given. Attributions are `independent` and in `probability` space exactly when a background sample is given. Otherwise they are `tree_path_dependent` on the `margin`. |
| `Sklearn.UsePandasIff` | src/model/sklearn.py:198 | Named columns are used exactly when `LGBMClassifier` or `LGBMRegressor` occurs somewhere in the predictor type name. |
| `Sklearn.ExplainerInputFor` | src/model/sklearn.py:196-199 | The explainer gets the selected feature table with its column names exactly when `use_pandas` holds. Otherwise it gets that table's bare rows. |
| `Sklearn.Background` | src/model/sklearn.py:182-190 | With no samples there is no background. With samples, a validation error is passed on. Otherwise the background exists exactly when `preprocess` of the validated samples succeeds, is its result, and a `preprocess` error is passed on. |
| `Sklearn.ClassValues` | src/model/sklearn.py:217-221 | Class `i` of a per-class list is the list's `i`-th array, and an index past the end is an IndexError. A single array always yields values: negated entry by entry for the first class, and unchanged for every class after it. |
| `Sklearn.ClassTable` | src/model/sklearn.py:217-223 | Filling classes can fail only with an index error or a shape error. |
| `Sklearn.ClassTableOk` | src/model/sklearn.py:217-223 | The loop over the class names completes exactly when every class has values of the table's shape. |
| `Sklearn.ClassTableShape` | src/model/sklearn.py:217-223 | With distinct class names, the result's keys are the class names in class order. The entry of the class at position `k` holds the records of that class's values. |
| `Sklearn.NormalizeByClass` | src/model/sklearn.py:204-223 | A classification result is always keyed by class. The unknown-output ValueError is raised exactly for an output that is neither a list nor an array, and for an array when the problem is not binary. |
| `Sklearn.PerClassIgnoresBinary` | src/model/sklearn.py:206-209 | A per-class list is accepted before the binary flag is consulted, so the flag does not change the result. |
| `Sklearn.BinaryNegation` | src/model/sklearn.py:209-223 | For a single array in a binary problem, the first class holds the negated values and the second the raw values, row by row and feature by feature. The two classes are therefore exact opposites. |
| `Sklearn.NormalizeByRecord` | src/model/sklearn.py:224-226 | A regression result is one record per preprocessed row, and exists exactly when a single array has that many rows of one value per feature. |
| `Sklearn.ExplainSpec` | src/model/sklearn.py:146-227 | A model that is not ready gets the not-ready RuntimeError. A ready model whose predictor type is not explainable gets the ValueError for unsupported SHAP explanations. After both checks, a validation error reaches the caller unchanged. A successful explanation is keyed by class exactly when the task is classification. |
| `Sklearn.Explain` | src/model/sklearn.py:179-227 | The step-by-step `explain` computes exactly `ExplainSpec`: the same errors in the same order, the same parameters and input, and the same arranged result. |
| `Sklearn.FormatByClass` | src/model/sklearn.py:204-223 | Setting the negate flag and then looping over the class names, filling `result[c]`, gives exactly the classification result `NormalizeByClass` describes. |
| `Sklearn.ExplainShape` | src/model/sklearn.py:202-226 | Assume distinct feature names. A regression explanation is one record per preprocessed row, each keyed by the feature names in order. A classification explanation with distinct class names is keyed by those names in order, and each class holds exactly one record per preprocessed row, keyed the same way, even when there are no rows. |

## Left out

- Loading (`_load`, `joblib.load`, `_hydrate`): file I/O and deserialisation happen before anything modelled here.
- `predict`: it validates and hands the table to the estimator's own `predict`, with nothing of the wrapper's own to model.
- The numerics of `transform`, `predict_proba` and `shap_values` are foreign library code over floats. They are opaque functions here. Nothing is claimed about probabilities summing to 1, because the code never enforces that.
- `_validate`, `_feature_names`, `_get_predictor_type`, `_is_classification`, `_is_binary_classification` and `_check` live in `src/model/base.py`, which is not part of this model. Readiness, the task flags, the feature names and the predictor type are given values. `Check` assumes the explainable test is exact membership of the predictor type in `_explainable_models`, and that readiness is tested first, then the task, then explainability.
- `Estimators.ExtractBasePredictor`: a calibration wrapper whose `base_estimator` is `None` is reported as an error. The source would instead return the Python value `None`, whose type name matches neither wrapper test, and fail later in the explainer or at `classes_`. A pipeline whose last step is the string `'passthrough'` or `None` is not modelled either, because a step here always holds an estimator.
- `Frames.Select`: tables with a repeated column label are not modelled. For such a label pandas returns every column carrying it, while the model takes the first.
- `Sklearn.NormalizeByRecord`: a regression output that is a per-class list or some other object is reported as a shape error. What pandas would make of such an object is not modelled.
- pandas and numpy mechanics (DataFrame indexes, dtypes, `to_dict`) are kept only for their effect on row order, column order and key sets. Class labels other than integers, strings and booleans (floats, for one) are not rendered.
- The `try: import shap` fallback is environment plumbing.
