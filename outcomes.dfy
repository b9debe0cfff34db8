/** Failure-compatible wrappers and the error kinds the model wrapper raises. */
module Outcomes {

  datatype Option<+T> = None | Some(value: T)

  /** What goes wrong, named after the exception the wrapper (or the library it calls) raises. */
  datatype Error =
    | NotReady                         // RuntimeError: the model is not loaded
    | UnsupportedTask                  // the operation needs a classification model
    | NotExplainable                   // the predictor is outside the explainable families
    | Invalid(field: string)           // the record does not match the feature metadata
    | EmptyPipeline                    // IndexError: `steps[-1]` of a pipeline without steps
    | MissingBaseEstimator             // a calibration wrapper with nothing inside it
    | MissingColumns(names: seq<string>)  // KeyError: selecting feature columns absent from the table
    | ClassIndexOutOfRange(index: nat) // IndexError: `shap_values[i]` past the end of the per-class list
    | ShapeMismatch                    // ValueError: a DataFrame built from values of the wrong shape
    | MissingClasses                   // AttributeError: the base predictor has no `classes_`
    | UnknownExplainerOutput           // ValueError: 'Unknown objet class for shap_values variable'

  datatype Result<+T> = Ok(value: T) | Err(error: Error) {
    predicate IsFailure() { Err? }

    function PropagateFailure<U>(): Result<U>
      requires Err?
    {
      Err(error)
    }

    function Extract(): T
      requires Ok?
    {
      value
    }
  }

  /** The verdict of a check that carries no value. */
  datatype Outcome = Pass | Fail(error: Error) {
    predicate IsFailure() { Fail? }

    function PropagateFailure<U>(): Result<U>
      requires Fail?
    {
      Err(error)
    }
  }
}
