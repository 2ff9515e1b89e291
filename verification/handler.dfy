/** The Lambda `handler`: envelope extraction, prediction, the audit write and the choice of
    response. JSON decoding, the model, number rendering and the clock are parameters. */
module Handler {
  import opened Wrappers
  import opened Errors
  import opened Values
  import opened Records
  import opened Features
  import opened Text
  import opened AuditLog

  /** The decoded gateway body; `data` is `None` when the object has no "data" member. */
  datatype GatewayBody = GatewayBody(data: Option<Record>)

  /** The invocation event: the raw gateway `body` text if the event has one, and the direct
      `data` member if it has one. */
  datatype Event = Event(body: Option<string>, data: Option<Record>)

  /** What the process loaded at cold start, and the library calls the handler relies on. */
  datatype Env = Env(
    parsers: Parsers,
    /** `float(MODEL.predict([features])[0])`; `Failure` carries the exception's text. */
    model: seq<Value> -> Result<real, string>,
    /** `MODEL_INFO["version"]`. */
    version: string,
    /** `str(value)` for an audit column. */
    show: Value -> string,
    /** `json.loads(body)`; `None` when it raises or yields no object. */
    decodeBody: string -> Option<GatewayBody>)

  datatype ResponseBody = PredictionBody(prediction: real, version: string) | ErrorBody(error: string)

  datatype Response = Response(statusCode: int, contentType: string, body: ResponseBody)

  const JsonContentType: string := "application/json"

  /** A completed invocation: the response, and the log text written back (`None` when nothing
      was written). */
  datatype Invocation = Invocation(response: Response, written: Option<string>)

  /** The payload of an event: the "data" member of the decoded body when the event has a body,
      else the event's own "data"; an empty dict when that member is absent. */
  function ExtractPayload(env: Env, event: Event): (r: Result<Record, Error>)
    ensures event.body.Some? ==>
              && (r.Success? <==> env.decodeBody(event.body.value).Some?)
              && (r.Success? ==> r.value == env.decodeBody(event.body.value).value.data.GetOr([]))
    ensures event.body.None? ==> r == Success(event.data.GetOr([]))
  {
    match event.body
    case Some(text) =>
      (match env.decodeBody(text)
       case None => Failure(UndecodableBody)
       case Some(decoded) => Success(decoded.data.GetOr([])))
    case None => Success(event.data.GetOr([]))
  }

  /** The two invocation modes agree: a gateway event whose body decodes to `{"data": d}` is
      handled exactly like a direct event carrying `d`, whatever direct `data` the gateway event
      also holds, and a body without a "data" member reads as an empty payload. */
  lemma EnvelopesAgree(env: Env, text: string, direct: Option<Record>, data: Option<Record>,
                       stored: Option<string>, timestamp: string)
    requires env.decodeBody(text) == Some(GatewayBody(data))
    ensures ExtractPayload(env, Event(Some(text), direct)) == Success(data.GetOr([]))
    ensures Handle(env, Event(Some(text), direct), stored, timestamp) ==
            Handle(env, Event(None, data), stored, timestamp)
  {
  }

  /** The guarded part of the handler: the feature vector, then the model's prediction. */
  function Predict(env: Env, payload: Record): (r: Result<real, Error>)
    ensures r.Success? <==>
              PreparePayload(env.parsers, payload).Success? &&
              env.model(PreparePayload(env.parsers, payload).value).Success?
    ensures r.Success? ==> r.value == env.model(PreparePayload(env.parsers, payload).value).value
    ensures PreparePayload(env.parsers, payload).Failure? ==> r == PreparePayload(env.parsers, payload).PropagateFailure()
    ensures PreparePayload(env.parsers, payload).Success? && r.Failure? ==>
              r.error == PredictionFailed(env.model(PreparePayload(env.parsers, payload).value).error)
  {
    var features :- PreparePayload(env.parsers, payload);
    match env.model(features)
    case Success(prediction) => Success(prediction)
    case Failure(reason) => Failure(PredictionFailed(reason))
  }

  /** `handler(event)`: a `Failure` is an exception that escapes the handler (an undecodable
      gateway body, or an empty stored log), because those steps run outside its `try`. The
      day's log text before the call (`None` when there is none) and the formatted timestamp are
      inputs. */
  function Handle(env: Env, event: Event, stored: Option<string>, timestamp: string): (r: Result<Invocation, Error>)
    ensures r.Failure? <==>
              || ExtractPayload(env, event).Failure?
              || (Predict(env, ExtractPayload(env, event).value).Success? && stored == Some(""))
    ensures r.Success? ==> r.value.response.contentType == JsonContentType
    ensures r.Success? ==>
              (r.value.response.statusCode == 400 <==> Predict(env, ExtractPayload(env, event).value).Failure?)
    ensures r.Success? ==> r.value.response.statusCode in {200, 400}
    ensures r.Success? && r.value.response.statusCode == 400 ==>
              && r.value.response.body == ErrorBody(Message(Predict(env, ExtractPayload(env, event).value).error))
              && r.value.written.None?
    ensures r.Success? && r.value.response.statusCode == 200 ==>
              && r.value.response.body ==
                   PredictionBody(Predict(env, ExtractPayload(env, event).value).value, env.version)
              && r.value.written.Some?
  {
    var payload :- ExtractPayload(env, event);
    match Predict(env, payload)
    case Failure(e) =>
      Success(Invocation(Response(400, JsonContentType, ErrorBody(Message(e))), None))
    case Success(prediction) =>
      var record := Enrich(payload, prediction, timestamp, env.version);
      var content :- WriteContent(stored, env.show, record);
      Success(Invocation(Response(200, JsonContentType, PredictionBody(prediction, env.version)), Some(content)))
  }

  /** A successful prediction appends exactly one row to the day's log: the audit record of
      the payload, prediction, timestamp and version, under the existing or a new header. */
  lemma SuccessAppendsAuditRow(env: Env, event: Event, stored: Option<string>, timestamp: string)
    requires Handle(env, event, stored, timestamp).Success?
    requires Handle(env, event, stored, timestamp).value.response.statusCode == 200
    requires var payload := ExtractPayload(env, event).value;
             var record := Enrich(payload, Predict(env, payload).value, timestamp, env.version);
             Avoids(env.show, record, '\n')
    ensures var payload := ExtractPayload(env, event).value;
            var record := Enrich(payload, Predict(env, payload).value, timestamp, env.version);
            var lines := SplitLines(Handle(env, event, stored, timestamp).value.written.value);
            && (stored.None? ==> lines == [Header(record), Row(env.show, record)])
            && (stored.Some? ==> lines == SplitLines(stored.value) + [Row(env.show, record)])
  {
    var payload := ExtractPayload(env, event).value;
    var prediction := Predict(env, payload).value;
    var record := Enrich(payload, prediction, timestamp, env.version);
    EnrichHasAuditFields(payload, prediction, timestamp, env.version);
    if stored.None? {
      FirstWrite(env.show, record);
    } else {
      AppendWrite(env.show, record, stored.value);
    }
  }

  /** `{"data": {}}`, or an event with no data at all, is answered 400 with the first feature's
      name, whatever the model and the stored log. */
  lemma EmptyPayloadRejected(env: Env, data: Option<Record>, stored: Option<string>, timestamp: string)
    requires data == None || data == Some([])
    ensures Handle(env, Event(None, data), stored, timestamp) ==
              Success(Invocation(Response(400, JsonContentType, ErrorBody("Feature 'Age' missing from payload.")), None))
  {
    EmptyPayloadMissesAge(env.parsers);
    MissingAgeMessage();
  }

  /** Extra payload members that are not features do not change whether the request succeeds
      or what it predicts. */
  lemma ExtraMemberKeepsPrediction(env: Env, payload: Record, k: string, v: Value)
    requires k !in FeatureOrder
    ensures Predict(env, Put(payload, k, v)) == Predict(env, payload)
  {
    ExtraKeyIgnored(env.parsers, payload, k, v);
  }

  /** A direct invocation whose data lists the features in training order with numeric values,
      as the repository's own test sends, is answered 200 with the model's prediction and the
      loaded version, provided the model answers and the day's log is not empty. */
  lemma NumericPayloadAnswered(env: Env, data: Record, stored: Option<string>, timestamp: string)
    requires DistinctKeys(data)
    requires Keys(data) == FeatureOrder
    requires forall i :: 0 <= i < |data| ==> data[i].1.IsNumber()
    requires env.model(Vals(data)).Success?
    requires stored != Some("")
    ensures Handle(env, Event(None, Some(data)), stored, timestamp).Success?
    ensures var response := Handle(env, Event(None, Some(data)), stored, timestamp).value.response;
            && response.statusCode == 200
            && response.body == PredictionBody(env.model(Vals(data)).value, env.version)
  {
    NumericPayloadPassesThrough(env.parsers, data);
  }
}
