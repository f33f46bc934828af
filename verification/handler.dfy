/**
 The Lambda entry point `lambda_handler` as a pure function. One invocation reads the
 object key out of an EventBridge event, skips keys that are not `.csv`, then fetches
 the object, converts it, stores the result under the renamed key and publishes a
 notification. The storage and notification services, and the CSV-to-JSON conversion,
 are injected as a `Services` value whose members either return a value or fault;
 the result of an invocation is its outcome together with the ordered list of
 external calls it attempted.
 */
module Handler {
  import opened Strings
  import opened Keys

  /** The three settings read from the environment when the module is loaded. */
  datatype Config = Config(csvBucket: string, jsonBucket: string, topicArn: string)

  /** The part of the event the handler inspects: `event["detail"]["object"]["key"]`. */
  datatype Event = WithoutDetail | WithDetail(detail: Detail)
  datatype Detail = WithoutObject | WithObject(obj: StoredObject)
  datatype StoredObject = WithoutKey | WithKey(key: string)

  /** What one external call yields: a value, or an exception. */
  datatype Step<T> = Done(value: T) | Fault

  /**
   The collaborators of the handler. `getObject(bucket, key)` stands for the S3 read
   together with the UTF-8 decode of the body; `convert` for the CSV-to-JSON routine.
   */
  datatype Services = Services(
    getObject: (string, string) -> Step<string>,
    convert: string -> Step<string>,
    putObject: (string, string, string, string) -> Step<()>,
    publish: (string, string, string) -> Step<()>)

  /** An external call the handler attempted, with its arguments. */
  datatype Effect =
    | GetObject(bucket: string, key: string)
    | PutObject(bucket: string, key: string, body: string, contentType: string)
    | Publish(topic: string, subject: string, message: string)

  /** The dictionary the handler returns. */
  datatype Response = Response(statusCode: int, body: string)

  /** The handler either returns a response or lets an exception escape. */
  datatype Outcome = Returned(response: Response) | Raised(error: string)

  datatype Invocation = Invocation(outcome: Outcome, effects: seq<Effect>)

  const InvalidEventBody: string := "Invalid event format"
  const NotCsvBody: string := "Not a CSV file"
  const SuccessPrefix: string := "Successfully processed "
  const ErrorPrefix: string := "Error processing "
  const AlertSubject: string := "CSV to JSON Conversion Completed"
  const AlertPrefix: string := "CSV file has been successfully converted and uploaded as "
  const JsonContentType: string := "application/json"
  /**
   The `except` clause formats `csv_key`, which a failed key lookup never bound. Only the
   exception type is recorded here, not Python's message text.
   */
  const UnboundCsvKey: string := "UnboundLocalError"

  /** The shape test of the handler: `"detail" in event and "object" in event["detail"]`. */
  predicate HasObject(e: Event) {
    e.WithDetail? && e.detail.WithObject?
  }

  /** The event names an object key ending in `.csv`, i.e. one the handler processes. */
  predicate IsCsvEvent(e: Event) {
    HasObject(e) && e.detail.obj.WithKey? && EndsWith(e.detail.obj.key, CsvSuffix)
  }

  /** The body of the notification sent for a stored object. */
  function AlertMessage(jsonKey: string, jsonBucket: string): string {
    AlertPrefix + jsonKey + " in " + jsonBucket + "."
  }

  /** The publish call `send_email_alert` makes for the destination key. */
  function Alert(cfg: Config, jsonKey: string): (r: Effect)
    ensures r.Publish? && r.topic == cfg.topicArn && r.subject == AlertSubject
    ensures Occurs(r.message, jsonKey) && Occurs(r.message, cfg.jsonBucket)
  {
    OccursInMiddle(AlertPrefix, jsonKey, " in " + cfg.jsonBucket + ".");
    assert AlertMessage(jsonKey, cfg.jsonBucket) == AlertPrefix + jsonKey + (" in " + cfg.jsonBucket + ".");
    OccursInMiddle(AlertPrefix + jsonKey + " in ", cfg.jsonBucket, ".");
    Publish(cfg.topicArn, AlertSubject, AlertMessage(jsonKey, cfg.jsonBucket))
  }

  /** The response of the `except` clause once `csv_key` is bound. */
  function Failed(csvKey: string, effects: seq<Effect>): Invocation {
    Invocation(Returned(Response(500, ErrorPrefix + csvKey)), effects)
  }

  /**
   The body of the `try` after the suffix filter: get and decode, convert, put under
   the renamed key, publish. The first fault ends the invocation with a 500.
   */
  function Process(cfg: Config, svc: Services, csvKey: string): (r: Invocation)
    // once `csv_key` is bound the handler always answers, with 200 or 500, naming the key
    ensures r.outcome.Returned?
    ensures r.outcome.response == Response(200, SuccessPrefix + csvKey)
         || r.outcome.response == Response(500, ErrorPrefix + csvKey)
    // the read of the source object is always attempted first
    ensures 1 <= |r.effects| <= 3 && r.effects[0] == GetObject(cfg.csvBucket, csvKey)
    // success comes only after the publish call
    ensures r.outcome.response.statusCode == 200 ==> |r.effects| == 3 && r.effects[2].Publish?
  {
    var get := GetObject(cfg.csvBucket, csvKey);
    match svc.getObject(cfg.csvBucket, csvKey)
    case Fault => Failed(csvKey, [get])
    case Done(text) =>
      match svc.convert(text)
      case Fault => Failed(csvKey, [get])
      case Done(json) =>
        var jsonKey := JsonKey(csvKey);
        var put := PutObject(cfg.jsonBucket, jsonKey, json, JsonContentType);
        match svc.putObject(cfg.jsonBucket, jsonKey, json, JsonContentType)
        case Fault => Failed(csvKey, [get, put])
        case Done(_) =>
          var pub := Alert(cfg, jsonKey);
          match svc.publish(pub.topic, pub.subject, pub.message)
          case Fault => Failed(csvKey, [get, put, pub])
          case Done(_) =>
            Invocation(Returned(Response(200, SuccessPrefix + csvKey)), [get, put, pub])
  }

  /** `lambda_handler(event, context)`; the context argument is never read. */
  function Handle(cfg: Config, svc: Services, e: Event): (r: Invocation)
    // every returned status is one of the three the handler writes
    ensures r.outcome.Returned? ==> r.outcome.response.statusCode in {200, 400, 500}
    // no external call is made unless the event names a `.csv` key, and the first is its read
    ensures r.effects != [] ==> IsCsvEvent(e) && r.effects[0] == GetObject(cfg.csvBucket, e.detail.obj.key)
    // at most three calls: get, put, publish
    ensures |r.effects| <= 3
    // publish happens at most once, and only right after a put that succeeded
    ensures forall i, j :: 0 <= i < j < |r.effects| ==> !(r.effects[i].Publish? && r.effects[j].Publish?)
    ensures forall i :: 0 <= i < |r.effects| && r.effects[i].Publish? ==>
      0 < i && r.effects[i - 1].PutObject? && PutSucceeded(svc, r.effects[i - 1])
    // every write goes to the destination bucket, under the renamed key
    ensures forall i :: 0 <= i < |r.effects| && r.effects[i].PutObject? ==>
      r.effects[i].bucket == cfg.jsonBucket && r.effects[i].key == JsonKey(e.detail.obj.key)
      && r.effects[i].contentType == JsonContentType
  {
    match e
    case WithoutDetail => Invocation(Returned(Response(400, InvalidEventBody)), [])
    case WithDetail(WithoutObject) => Invocation(Returned(Response(400, InvalidEventBody)), [])
    case WithDetail(WithObject(WithoutKey)) => Invocation(Raised(UnboundCsvKey), [])
    case WithDetail(WithObject(WithKey(key))) =>
      if !EndsWith(key, CsvSuffix) then Invocation(Returned(Response(200, NotCsvBody)), [])
      else Process(cfg, svc, key)
  }

  /** The service accepted the write described by `put`. */
  predicate PutSucceeded(svc: Services, put: Effect)
    requires put.PutObject?
  {
    svc.putObject(put.bucket, put.key, put.body, put.contentType).Done?
  }

  /** What the read-and-convert half of the pipeline yields for `csvKey`. */
  function Conversion(cfg: Config, svc: Services, csvKey: string): Step<string> {
    match svc.getObject(cfg.csvBucket, csvKey)
    case Fault => Fault
    case Done(text) => svc.convert(text)
  }

  /** The calls a successful invocation makes for `csvKey`, in order, when the conversion yields `json`. */
  function PlannedEffects(cfg: Config, csvKey: string, json: string): seq<Effect> {
    [ GetObject(cfg.csvBucket, csvKey),
      PutObject(cfg.jsonBucket, JsonKey(csvKey), json, JsonContentType),
      Publish(cfg.topicArn, AlertSubject, AlertMessage(JsonKey(csvKey), cfg.jsonBucket)) ]
  }

  /** The store call for `csvKey` and `json` succeeds. */
  predicate Stores(cfg: Config, svc: Services, csvKey: string, json: string) {
    svc.putObject(cfg.jsonBucket, JsonKey(csvKey), json, JsonContentType).Done?
  }

  /** The notification for `csvKey` is accepted. */
  predicate Notifies(cfg: Config, svc: Services, csvKey: string) {
    svc.publish(cfg.topicArn, AlertSubject, AlertMessage(JsonKey(csvKey), cfg.jsonBucket)).Done?
  }

  /** Every external step for `csvKey` succeeds. */
  predicate Completes(cfg: Config, svc: Services, csvKey: string) {
    && Conversion(cfg, svc, csvKey).Done?
    && Stores(cfg, svc, csvKey, Conversion(cfg, svc, csvKey).value)
    && Notifies(cfg, svc, csvKey)
  }

  /** An event without `detail.object` is answered 400 and nothing else happens; no other event gets a 400. */
  lemma BadShapeRejected(cfg: Config, svc: Services, e: Event)
    ensures var r := Handle(cfg, svc, e);
      !HasObject(e) <==> r.outcome.Returned? && r.outcome.response.statusCode == 400
    ensures var r := Handle(cfg, svc, e);
      !HasObject(e) ==> r.outcome.response.body == InvalidEventBody && r.effects == []
  {
  }

  /**
   An event with `detail.object` but no `key` makes the `except` clause read the
   unbound `csv_key`: the handler raises instead of answering, having called nothing.
   No other event makes it raise.
   */
  lemma MissingKeyRaises(cfg: Config, svc: Services, e: Event)
    ensures var r := Handle(cfg, svc, e);
      r.outcome.Raised? <==> e == WithDetail(WithObject(WithoutKey))
    ensures var r := Handle(cfg, svc, e);
      r.outcome.Raised? ==> r.effects == []
  {
  }

  /** A key not ending in `.csv` is skipped with 200 "Not a CSV file" and no call; only such keys are. */
  lemma NonCsvSkipped(cfg: Config, svc: Services, e: Event)
    ensures var r := Handle(cfg, svc, e);
      (HasObject(e) && e.detail.obj.WithKey? && !EndsWith(e.detail.obj.key, CsvSuffix))
      <==> r.outcome == Returned(Response(200, NotCsvBody))
    ensures var r := Handle(cfg, svc, e);
      r.outcome == Returned(Response(200, NotCsvBody)) ==> r.effects == []
  {
  }

  /**
   A `.csv` key is answered 200 "Successfully processed <key>" exactly when every step
   succeeds, and then the calls are exactly get, put under the renamed key, publish.
   */
  lemma SuccessTrace(cfg: Config, svc: Services, k: string)
    ensures var r := Handle(cfg, svc, WithDetail(WithObject(WithKey(k))));
      r.outcome == Returned(Response(200, SuccessPrefix + k))
      <==> EndsWith(k, CsvSuffix) && Completes(cfg, svc, k)
    ensures var r := Handle(cfg, svc, WithDetail(WithObject(WithKey(k))));
      EndsWith(k, CsvSuffix) && Completes(cfg, svc, k) ==>
        r.effects == PlannedEffects(cfg, k, Conversion(cfg, svc, k).value)
  {
  }

  /** A 500 is returned exactly for a `.csv` key on which some step faulted, naming that key. */
  lemma FaultAnswered500(cfg: Config, svc: Services, e: Event)
    ensures var r := Handle(cfg, svc, e);
      r.outcome.Returned? && r.outcome.response.statusCode == 500
      <==> IsCsvEvent(e) && !Completes(cfg, svc, e.detail.obj.key)
    ensures var r := Handle(cfg, svc, e);
      r.outcome.Returned? && r.outcome.response.statusCode == 500 ==>
        r.outcome.response.body == ErrorPrefix + e.detail.obj.key
  {
  }

  /**
   The first faulting step is the last call attempted: the calls made are a prefix of
   the planned ones, a failed read or conversion leaves only the read, a failed store
   means no publish, and a failed publish still follows a durable store.
   */
  lemma FaultStopsPipeline(cfg: Config, svc: Services, k: string)
    requires EndsWith(k, CsvSuffix)
    ensures var r := Handle(cfg, svc, WithDetail(WithObject(WithKey(k))));
      Conversion(cfg, svc, k).Fault? <==> r.effects == [GetObject(cfg.csvBucket, k)]
    ensures var r := Handle(cfg, svc, WithDetail(WithObject(WithKey(k))));
      Conversion(cfg, svc, k).Done? ==>
        var planned := PlannedEffects(cfg, k, Conversion(cfg, svc, k).value);
        && (!Stores(cfg, svc, k, Conversion(cfg, svc, k).value) <==> r.effects == planned[..2])
        && (Stores(cfg, svc, k, Conversion(cfg, svc, k).value) <==> r.effects == planned)
  {
  }

  /**
   The handler as its error boundary evidently means it: an event whose `detail.object`
   carries no `key` is an unrecognised shape like the others, and is answered 400.
   */
  function HandleCorrected(cfg: Config, svc: Services, e: Event): (r: Invocation)
    ensures r.outcome.Returned?
    ensures r.outcome.response.statusCode in {200, 400, 500}
  {
    match e
    case WithDetail(WithObject(WithKey(key))) =>
      if !EndsWith(key, CsvSuffix) then Invocation(Returned(Response(200, NotCsvBody)), [])
      else Process(cfg, svc, key)
    case _ => Invocation(Returned(Response(400, InvalidEventBody)), [])
  }

  /**
   The corrected handler always answers, answers 400 with no call exactly when the event
   names no key, and behaves as the handler on every event the handler answers.
   */
  lemma CorrectedNeverRaises(cfg: Config, svc: Services, e: Event)
    ensures HandleCorrected(cfg, svc, e).outcome.Returned?
    ensures var r := HandleCorrected(cfg, svc, e);
      r.outcome.response.statusCode == 400 <==> !(HasObject(e) && e.detail.obj.WithKey?)
    ensures var r := HandleCorrected(cfg, svc, e);
      r.outcome.response.statusCode == 400 ==> r.outcome.response.body == InvalidEventBody && r.effects == []
    ensures Handle(cfg, svc, e).outcome.Returned? ==> HandleCorrected(cfg, svc, e) == Handle(cfg, svc, e)
  {
  }
}
