/**
 * `classify_dm` of the model module: the decision tree around the pretrained
 * scoring pipeline. The pipeline is an oracle that is either missing (it
 * failed to load at import time) or a function from the cleaned text to a
 * reply, which may be a raised exception.
 */
module Classifier {
  import opened Wrappers
  import opened Cleaning

  /** A score as the pipeline hands it back: a number, or a value `float()` rejects. */
  datatype ScoreValue = Num(value: real) | NotNumeric

  /** One prediction dictionary; a missing key is `None`. */
  datatype Prediction = Prediction(category: Option<string>, score: Option<ScoreValue>)

  /** The pipeline answers with one dictionary or with a list of them. */
  datatype PipelineOutput = Single(prediction: Prediction) | Batch(predictions: seq<Prediction>)

  datatype OracleReply = Raised | Returned(output: PipelineOutput)

  /** The module-level `toxic_model`: `None` when loading raised. */
  datatype ToxicModel = Unavailable | Loaded(run: string -> OracleReply)

  /** The `(label, score)` pair. */
  datatype Verdict = Verdict(category: string, score: ScoreValue)

  const Zero: ScoreValue := Num(0.0)

  /** `result.get('label', 'UNKNOWN')`, `result.get('score', 0.0)` */
  function ReadPrediction(p: Prediction): (v: Verdict)
    ensures p.category.None? ==> v.category == "UNKNOWN"
    ensures p.category.Some? ==> v.category == p.category.value
    ensures p.score.None? ==> v.score == Zero
    ensures p.score.Some? ==> v.score == p.score.value
  {
    Verdict(
      match p.category case None => "UNKNOWN" case Some(l) => l,
      match p.score case None => Zero case Some(s) => s)
  }

  /** A non-empty list is replaced by its first element; an empty list stays
    * a list, and `.get` on it raises (`None`). */
  function ReadOutput(out: PipelineOutput): (r: Option<Verdict>)
    ensures out.Single? ==> r == Some(ReadPrediction(out.prediction))
    ensures out.Batch? && |out.predictions| > 0 ==> r == Some(ReadPrediction(out.predictions[0]))
    ensures r.None? <==> out == Batch([])
  {
    match out
    case Single(p) => Some(ReadPrediction(p))
    case Batch(ps) => if |ps| > 0 then Some(ReadPrediction(ps[0])) else None
  }

  /** `classify_dm(message)`; `None` is a message that is not a string. */
  function ClassifyDm(model: ToxicModel, message: Option<string>, nlp: Nlp): (v: Verdict)
    ensures model.Unavailable? ==> v == Verdict("UNKNOWN", Zero)
    ensures model.Loaded? && (message.None? || message == Some("")) ==> v == Verdict("NON_TOXIC", Zero)
    ensures model.Loaded? && CleanText(message, nlp) == "" ==> v == Verdict("NON_TOXIC", Zero)
    ensures model.Loaded? && CleanText(message, nlp) != "" ==>
              v == match model.run(CleanText(message, nlp))
                   case Raised => Verdict("ERROR", Zero)
                   case Returned(out) => match ReadOutput(out) case None => Verdict("ERROR", Zero) case Some(w) => w
  {
    match model
    case Unavailable => Verdict("UNKNOWN", Zero)
    case Loaded(run) =>
      match message
      case None => Verdict("NON_TOXIC", Zero)
      case Some(m) =>
        if m == "" then Verdict("NON_TOXIC", Zero)
        else
          var cleaned := CleanText(message, nlp);
          if cleaned == "" then Verdict("NON_TOXIC", Zero)
          else match run(cleaned)
            case Raised => Verdict("ERROR", Zero)
            case Returned(out) =>
              match ReadOutput(out)
              case None => Verdict("ERROR", Zero)
              case Some(w) => w
  }

  /** The availability check comes first: a missing model answers UNKNOWN
    * for every input, the empty one included. */
  lemma UnavailableIgnoresInput(m1: Option<string>, m2: Option<string>, nlp: Nlp)
    ensures ClassifyDm(Unavailable, m1, nlp) == ClassifyDm(Unavailable, m2, nlp) == Verdict("UNKNOWN", Zero)
  {
  }

  /** Input that is missing, empty or cleans to nothing never reaches the
    * pipeline: any two loaded pipelines give the same verdict on it. */
  lemma EmptyInputSkipsPipeline(run1: string -> OracleReply, run2: string -> OracleReply, message: Option<string>, nlp: Nlp)
    requires CleanText(message, nlp) == ""
    ensures ClassifyDm(Loaded(run1), message, nlp) == ClassifyDm(Loaded(run2), message, nlp) == Verdict("NON_TOXIC", Zero)
  {
  }

  /** Any verdict that is not one of the classifier's own fallbacks came from
    * the pipeline's answer for the cleaned text. */
  lemma VerdictOrigin(model: ToxicModel, message: Option<string>, nlp: Nlp)
    ensures var v := ClassifyDm(model, message, nlp);
            v.category in {"UNKNOWN", "NON_TOXIC", "ERROR"} ||
            (model.Loaded? && message.Some? && CleanText(message, nlp) != "" &&
             model.run(CleanText(message, nlp)).Returned? &&
             ReadOutput(model.run(CleanText(message, nlp)).output) == Some(v))
  {
  }
}
