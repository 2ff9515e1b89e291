/** The exceptions the service can raise, and the text `str(exc)` gives for each. */
module Errors {

  /** Which numeric constructor rejected a string. */
  datatype NumberKind = IntKind | FloatKind

  datatype Error =
      /** `prepare_payload`: a key of the feature order is absent from the payload. */
    | MissingFeature(key: string)
      /** `_normalise_value`: `int(text)` or `float(text)` raised `ValueError`. */
    | Unparsable(kind: NumberKind, text: string)
      /** The model's `predict` call raised; the reason is the exception's text. */
    | PredictionFailed(reason: string)
      /** The day's log object exists but holds no line. */
    | EmptyLog
      /** The gateway body is not a JSON object. */
    | UndecodableBody

  /** The human-readable message of an error, as `str(exc)` renders it. */
  function Message(e: Error): string {
    match e
    case MissingFeature(k) => "Feature '" + k + "' missing from payload."
    case Unparsable(IntKind, t) => "invalid literal for int() with base 10: '" + t + "'"
    case Unparsable(FloatKind, t) => "could not convert string to float: '" + t + "'"
    case PredictionFailed(reason) => reason
    case EmptyLog => "Empty file retrieved from S3"
    // Never shown to a caller: this exception escapes the handler.
    case UndecodableBody => "Expecting value"
  }

  /** The message for an absent first feature, spelled out. */
  lemma MissingAgeMessage()
    ensures Message(MissingFeature("Age")) == "Feature 'Age' missing from payload."
  {
  }
}
