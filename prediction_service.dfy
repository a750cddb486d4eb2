/**
  The prediction request contract of the web front end: `_predict_one`
  (validate one message, classify it, shape the result record) and the
  response of the `/api/predict` handler (the record and its HTTP status).
  The loaded model is passed in as a value; its classifier and its optional
  probability estimate are functions the model does not look inside.
 */
module PredictionService {
  import opened Wrappers
  import opened Text

  const MaxMessageLength := 5000
  const EmptyMessageError := "Message is empty."
  const TooLongError := "Message too long (max 5000 characters)."
  const SpamLabel := "SPAM"
  const HamLabel := "HAM"

  /** What one call of the model's `predict_proba` does: raise, or return the probability row. */
  datatype ProbaCall = Raised | Returned(row: seq<real>)

  /**
    The loaded model: `predict` gives the integer class of one text;
    `predictProba` is `None` when the model has no `predict_proba` attribute.
   */
  datatype Predictor = Predictor(predict: string -> int, predictProba: Option<string -> ProbaCall>)

  /** The two readings of the monotonic clock taken around the model calls, in seconds. */
  datatype Clock = Clock(start: real, stop: real)

  /** The result record of one prediction, before it is turned into a JSON object. */
  datatype Outcome =
    | Rejected(error: string)
    | Classified(labelText: string, prediction: int, spamProbability: Option<real>, latencyMs: real)

  /** The JSON values a result record holds. */
  datatype Json = JBool(b: bool) | JInt(i: int) | JReal(x: real) | JString(s: string) | JNull

  /** A JSON response: the body object and the HTTP status code. */
  datatype Response = Response(body: map<string, Json>, status: int)

  /** The message text after `(message or "")`: a missing or null message becomes "". */
  function MessageText(message: Option<string>): (t: string)
    ensures message.None? ==> t == ""
    ensures message.Some? ==> t == message.value
  {
    message.GetOr("")
  }

  /**
    The optional spam probability: `None` without a `predict_proba`
    capability, when the call raises, or when the row has no index 1
    (Python would raise IndexError, which the same handler swallows).
   */
  function SpamProbability(proba: Option<string -> ProbaCall>, text: string): (p: Option<real>)
    ensures p.Some? ==> proba.Some? && proba.value(text).Returned?
    ensures p.Some? ==> |proba.value(text).row| >= 2 && p.value == proba.value(text).row[1]
    ensures proba.Some? && proba.value(text).Returned? && |proba.value(text).row| >= 2
            ==> p == Some(proba.value(text).row[1])
  {
    match proba
    case None => None
    case Some(call) =>
      match call(text)
      case Raised => None
      case Returned(row) => if |row| >= 2 then Some(row[1]) else None
  }

  /** `"SPAM"` for class 1, `"HAM"` for every other class. */
  function LabelOf(prediction: int): (name: string)
    ensures name == SpamLabel || name == HamLabel
    ensures name == SpamLabel <==> prediction == 1
  {
    if prediction == 1 then SpamLabel else HamLabel
  }

  /** `_predict_one`: strip, reject empty, reject over-long, otherwise classify the stripped text. */
  function PredictOne(message: Option<string>, model: Predictor, clock: Clock): (r: Outcome)
    ensures var text := Strip(MessageText(message));
      && (r == Rejected(EmptyMessageError) <==> text == "")
      && (r == Rejected(TooLongError) <==> |text| > MaxMessageLength)
      && (r.Classified? <==> 0 < |text| <= MaxMessageLength)
      && (r.Classified? ==>
            && r.prediction == model.predict(text)
            && (r.labelText == SpamLabel || r.labelText == HamLabel)
            && (r.labelText == SpamLabel <==> r.prediction == 1)
            && r.spamProbability == SpamProbability(model.predictProba, text)
            && (clock.start <= clock.stop ==> r.latencyMs >= 0.0))
  {
    var text := Strip(MessageText(message));
    if text == "" then
      Rejected(EmptyMessageError)
    else if |text| > MaxMessageLength then
      Rejected(TooLongError)
    else
      var prediction := model.predict(text);
      var probability := SpamProbability(model.predictProba, text);
      var elapsedMs := (clock.stop - clock.start) * 1000.0;
      Classified(LabelOf(prediction), prediction, probability, elapsedMs)
  }

  /** The result record as the JSON object the handler returns. */
  function ToJson(r: Outcome): (body: map<string, Json>)
    ensures "ok" in body && body["ok"] == JBool(r.Classified?)
    ensures r.Rejected? ==> body.Keys == {"ok", "error"} && body["error"] == JString(r.error)
    ensures r.Classified? ==> body.Keys == {"ok", "label", "prediction", "spam_probability", "latency_ms"}
    ensures r.Classified? ==> body["label"] == JString(r.labelText) && body["prediction"] == JInt(r.prediction)
    ensures r.Classified? ==>
      && body["spam_probability"] == (if r.spamProbability.Some? then JReal(r.spamProbability.value) else JNull)
      && body["latency_ms"] == JReal(r.latencyMs)
  {
    match r
    case Rejected(error) =>
      map["ok" := JBool(false), "error" := JString(error)]
    case Classified(labelText, prediction, probability, latencyMs) =>
      map["ok" := JBool(true),
          "label" := JString(labelText),
          "prediction" := JInt(prediction),
          "spam_probability" := (match probability case Some(p) => JReal(p) case None => JNull),
          "latency_ms" := JReal(latencyMs)]
  }

  /** Python truthiness of a JSON value. */
  predicate Truthy(v: Json) {
    match v
    case JBool(b) => b
    case JInt(i) => i != 0
    case JReal(x) => x != 0.0
    case JString(s) => s != ""
    case JNull => false
  }

  /** `200 if result.get("ok") else 400` on the response object. */
  function StatusOf(body: map<string, Json>): (code: int)
    ensures code == 200 || code == 400
    ensures "ok" !in body ==> code == 400
    ensures "ok" in body && body["ok"].JBool? ==> (code == 200 <==> body["ok"].b)
  {
    if "ok" in body && Truthy(body["ok"]) then 200 else 400
  }

  /** The `/api/predict` handler once the payload's `message` has been read. */
  function ApiPredict(message: Option<string>, model: Predictor, clock: Clock): (resp: Response)
    ensures resp.body == ToJson(PredictOne(message, model, clock))
    ensures resp.status == 200 <==> PredictOne(message, model, clock).Classified?
    ensures resp.status == 400 <==> PredictOne(message, model, clock).Rejected?
  {
    var r := PredictOne(message, model, clock);
    var body := ToJson(r);
    assert "ok" in body && body["ok"] == JBool(r.Classified?);
    Response(body, StatusOf(body))
  }

  /** A missing message is treated as the empty one, and both are rejected as empty. */
  lemma MissingMessageIsEmpty(model: Predictor, clock: Clock)
    ensures PredictOne(None, model, clock) == PredictOne(Some(""), model, clock)
    ensures ApiPredict(None, model, clock)
         == Response(map["ok" := JBool(false), "error" := JString(EmptyMessageError)], 400)
  {
  }

  /** An all-whitespace message is rejected as empty, never as too long. */
  lemma WhitespaceOnlyIsEmpty(message: Option<string>, model: Predictor, clock: Clock)
    requires AllSpace(MessageText(message))
    ensures PredictOne(message, model, clock) == Rejected(EmptyMessageError)
  {
    EmptyIffAllSpace(message, model, clock);
  }

  /** A message is rejected as empty exactly when it has no non-whitespace code point. */
  lemma EmptyIffAllSpace(message: Option<string>, model: Predictor, clock: Clock)
    ensures PredictOne(message, model, clock) == Rejected(EmptyMessageError) <==> AllSpace(MessageText(message))
  {
    StripEmptyIff(MessageText(message));
  }

  /** 5001 copies of 'a' are rejected as too long, with status 400. */
  lemma OverLongMessageRejected(model: Predictor, clock: Clock)
    ensures var m := seq(5001, _ => 'a');
      && PredictOne(Some(m), model, clock) == Rejected(TooLongError)
      && ApiPredict(Some(m), model, clock).status == 400
  {
    var m := seq(5001, _ => 'a');
    StripUnpadded(m);
  }

  /** Whitespace around a message changes nothing: the model only ever sees the stripped text. */
  lemma PaddingIsIgnored(p: string, s: string, q: string, model: Predictor, clock: Clock)
    requires AllSpace(p) && AllSpace(q)
    ensures PredictOne(Some(p + s + q), model, clock) == PredictOne(Some(s), model, clock)
  {
    StripIgnoresPadding(p, s, q);
  }

  /** Sending the already stripped text gives the same result as sending the original. */
  lemma StrippedMessageSameResult(message: Option<string>, model: Predictor, clock: Clock)
    ensures PredictOne(Some(Strip(MessageText(message))), model, clock) == PredictOne(message, model, clock)
  {
    StripIdempotent(MessageText(message));
  }

  /**
    Whether a message is accepted, its label and its class depend neither on
    the probability capability (present, absent or raising) nor on the clock.
   */
  lemma DeterministicFields(message: Option<string>, predict: string -> int,
                            proba1: Option<string -> ProbaCall>, proba2: Option<string -> ProbaCall>,
                            clock1: Clock, clock2: Clock)
    ensures var r1 := PredictOne(message, Predictor(predict, proba1), clock1);
      var r2 := PredictOne(message, Predictor(predict, proba2), clock2);
      && r1.Classified? == r2.Classified?
      && (r1.Rejected? ==> r1 == r2)
      && (r1.Classified? ==> r1.labelText == r2.labelText && r1.prediction == r2.prediction)
  {
  }
}
