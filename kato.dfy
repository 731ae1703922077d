/**
 * The Kato operation status tracker `_KatoStatus` and the `KatoAgent`
 * payload helpers. The tracker's fields are updated in place by its
 * constructor and by each poll; `Initial`, `Updated`, `Delivered` and
 * `Refreshed` give the state each step leaves, and the class's methods are
 * proved to follow them.
 */
module Kato {
  import opened Wrappers
  import opened Json
  import opened Spinnaker

  /** Every field of a `_KatoStatus`, those of `SpinnakerStatus` first. */
  datatype KatoState = KatoState(
    requestId: Ident,
    currentState: Json,
    detailPath: Json,
    exceptionDetails: Json,
    jsonDoc: Option<Json>,
    error: Option<string>,
    finished: bool,
    failed: Json)

  /** `finished_ok`: finished and not failed. */
  predicate FinishedOk(s: KatoState) { s.finished && !Truthy(s.failed) }

  /** The state `SpinnakerStatus.__init__` and the first lines of `_KatoStatus.__init__` leave. */
  function Start(response: Option<HttpResponse>): (s: KatoState)
    ensures !s.finished && !s.error.Some?
  {
    KatoState(OriginalResponse, InitialState(response), JNull, JNull, None, None, false, JBool(false))
  }

  /** The text `_error` holds for a first response that is not a JSON object. */
  function InvalidResponse(response: HttpResponse): string
  {
    "Invalid response=\"" + response.shown + "\""
  }

  /**
   * `_KatoStatus(operation, original_response)`: a JSON object names the
   * detail path and the request id; anything else that does not decode to
   * an object makes the tracker finished and failed at once.
   */
  function Initial(response: Option<HttpResponse>): (r: Result<KatoState>)
  {
    if response.None? then Raise(NoResponse)
    else
      var s := Start(response);
      var body := response.value.body;
      if body.Some? && body.value.JObject? then
        var doc := body.value.fields;
        if "resourceUri" !in doc then Raise(KeyError("resourceUri"))
        else if "id" !in doc then Raise(KeyError("id"))
        else Ok(s.(detailPath := doc["resourceUri"], requestId := RequestValue(doc["id"])))
      else
        Ok(s.(error := Some(InvalidResponse(response.value)), finished := true, failed := JBool(true),
              currentState := JString("CITEST_INTERNAL_ERROR")))
  }

  /**
   * A JSON-object first response gives the detail path and the request id
   * and leaves the tracker running; an object without them raises KeyError;
   * any other body leaves it finished, failed and in CITEST_INTERNAL_ERROR;
   * and no response at all raises AttributeError.
   */
  lemma InitialSpec(response: Option<HttpResponse>)
    ensures var r := Initial(response);
      && (response.None? ==> r == Raise(NoResponse))
      && (response.Some? && response.value.body.Some? && response.value.body.value.JObject? ==>
            var doc := response.value.body.value.fields;
            && (r.Ok? <==> "resourceUri" in doc && "id" in doc)
            && (r.Raise? ==> r.error.KeyError?)
            && (r.Ok? ==> r.value.detailPath == doc["resourceUri"] && r.value.requestId == RequestValue(doc["id"])
                          && !r.value.finished && r.value.failed == JBool(false) && !FinishedOk(r.value)
                          && r.value.currentState == InitialState(response)))
      && (response.Some? && !(response.value.body.Some? && response.value.body.value.JObject?) ==>
            && r.Ok? && r.value.finished && Truthy(r.value.failed) && !FinishedOk(r.value)
            && r.value.currentState == JString("CITEST_INTERNAL_ERROR")
            && r.value.error == Some(InvalidResponse(response.value)))
  {
  }

  /**
   * `_update_response_from_json(doc)`: reads status.completed, status.failed
   * and status.phase; records the phase; on completion records the failure
   * flag; on failure records status.status as the exception details.
   */
  function Updated(s: KatoState, doc: Json): (r: Step<KatoState>)
  {
    match Lookup(doc, "status")
    case Raise(e) => Step(Raise(e), s)
    case Ok(status) =>
      match Lookup(status, "completed")
      case Raise(e) => Step(Raise(e), s)
      case Ok(completed) =>
        match Lookup(status, "failed")
        case Raise(e) => Step(Raise(e), s)
        case Ok(failed) =>
          match Lookup(status, "phase")
          case Raise(e) => Step(Raise(e), s)
          case Ok(phase) =>
            var s1 := s.(currentState := phase, exceptionDetails := JNull);
            var s2 := if Truthy(completed) then s1.(finished := true, failed := failed) else s1;
            if !Truthy(failed) then Step(Ok(()), s2)
            else
              match Lookup(status, "status")
              case Raise(e) => Step(Raise(e), s2)
              case Ok(details) => Step(Ok(()), s2.(exceptionDetails := details))
  }

  /** The keys an update reads from `doc['status']`. */
  predicate WellFormedStatus(doc: Json)
  {
    doc.JObject? && "status" in doc.fields && doc.fields["status"].JObject?
    && var st := doc.fields["status"].fields;
    "completed" in st && "failed" in st && "phase" in st
  }

  /**
   * A status report sets the current state to its phase; completion sets
   * finished and takes the report's failure flag, and an incomplete report
   * leaves both alone; the exception details are status.status exactly when
   * the report says failed, whether or not it completed; the other fields
   * do not change.
   */
  lemma UpdatedSpec(s: KatoState, doc: Json)
    requires WellFormedStatus(doc)
    ensures var st := doc.fields["status"].fields;
      var r := Updated(s, doc);
      && r.state.currentState == st["phase"]
      && r.state.finished == (s.finished || Truthy(st["completed"]))
      && r.state.failed == (if Truthy(st["completed"]) then st["failed"] else s.failed)
      && (r.result.Raise? <==> Truthy(st["failed"]) && "status" !in st)
      && (r.result.Ok? ==> r.state.exceptionDetails == (if Truthy(st["failed"]) then st["status"] else JNull))
      && r.state.requestId == s.requestId && r.state.detailPath == s.detailPath
      && r.state.jsonDoc == s.jsonDoc && r.state.error == s.error
  {
  }

  /** A report missing one of the keys the update reads raises and changes nothing. */
  lemma UpdatedMalformed(s: KatoState, doc: Json)
    requires !WellFormedStatus(doc)
    ensures Updated(s, doc) == Step(Raise(Updated(s, doc).result.error), s)
    ensures Updated(s, doc).result.error.KeyError? || Updated(s, doc).result.error.TypeError?
  {
  }

  /** `set_http_response(response)`: an unreachable server is noted, a decodable body is stored and applied. */
  function Delivered(s: KatoState, response: HttpResponse): (r: Step<KatoState>)
  {
    match Deliver(response)
    case Raise(e) => Step(Raise(e), s)
    case Ok(Unreachable) => Step(Ok(()), s.(currentState := JString("Unknown")))
    case Ok(Decoded(doc)) => Updated(s.(jsonDoc := Some(doc)), doc)
  }

  /** `refresh()` with the response the poll would receive. */
  function Refreshed(s: KatoState, poll: HttpResponse): (r: Step<KatoState>)
  {
    if s.finished then Step(Ok(()), s) else Delivered(s, poll)
  }

  /** No step ever sets `finished` back to false. */
  lemma FinishedStays(s: KatoState, doc: Json, response: HttpResponse)
    requires s.finished
    ensures Updated(s, doc).state.finished
    ensures Delivered(s, response).state.finished
    ensures Refreshed(s, response) == Step(Ok(()), s)
  {
  }

  /**
   * A negative return code sets the state to 'Unknown' and keeps the stored
   * document; a body that does not decode raises ValueError and changes
   * nothing; a decodable body is stored before it is applied.
   */
  lemma DeliveredSpec(s: KatoState, response: HttpResponse)
    ensures var r := Delivered(s, response);
      && (response.retcode < 0 ==> r == Step(Ok(()), s.(currentState := JString("Unknown"))))
      && (response.retcode >= 0 && response.body.None? ==> r.result.Raise? && r.result.error.ValueError? && r.state == s)
      && (response.retcode >= 0 && response.body.Some? ==> r.state.jsonDoc == response.body)
  {
    if response.retcode >= 0 && response.body.Some? {
      var doc := response.body.value;
      if WellFormedStatus(doc) {
        UpdatedSpec(s.(jsonDoc := Some(doc)), doc);
      } else {
        UpdatedMalformed(s.(jsonDoc := Some(doc)), doc);
      }
    }
  }

  /** `KatoAgent.type_to_payload(name, d)`: the document `[{name: d}]`, before JSON encoding. */
  function TypeToPayload(name: string, payload: Json): (r: Json)
    ensures r.JArray? && |r.items| == 1 && r.items[0].JObject?
    ensures r.items[0].fields.Keys == {name} && r.items[0].fields[name] == payload
  {
    MakePayload(JArray([JObject(map[name := payload])]))
  }

  /** `KatoAgent.make_payload(d)`: the document itself, before JSON encoding. */
  function MakePayload(payload: Json): Json
  {
    payload
  }

  /** A `_KatoStatus`, whose fields the constructor and each poll assign in place. */
  class KatoStatus {
    var requestId: Ident
    var currentState: Json
    var detailPath: Json
    var exceptionDetails: Json
    var jsonDoc: Option<Json>
    var error: Option<string>
    var finished: bool
    var failed: Json

    function State(): KatoState
      reads this
    {
      KatoState(requestId, currentState, detailPath, exceptionDetails, jsonDoc, error, finished, failed)
    }

    predicate FinishedOk()
      reads this
    {
      finished && !Truthy(failed)
    }

    /** `timed_out`: Kato never reports a timeout. */
    predicate TimedOut()
    {
      false
    }

    /** `SpinnakerStatus.__init__`, then `_finished` and `_failed` cleared. */
    constructor (response: Option<HttpResponse>)
      ensures State() == Start(response)
    {
      requestId := OriginalResponse;
      currentState := JNull;
      detailPath := JNull;
      exceptionDetails := JNull;
      jsonDoc := None;
      error := None;
      if response.None? || response.value.retcode < 0 {
        currentState := JString("REQUEST_FAILED");
      }
      finished := false;
      failed := JBool(false);
    }

    /** `_KatoStatus(operation, original_response)`, raising where the constructor raises. */
    static method New(response: Option<HttpResponse>) returns (r: Result<KatoStatus>)
      ensures r.Ok? <==> Initial(response).Ok?
      ensures r.Raise? ==> r.error == Initial(response).error
      ensures r.Ok? ==> fresh(r.value) && r.value.State() == Initial(response).value
    {
      var status := new KatoStatus(response);
      if response.None? {
        return Raise(NoResponse);
      }
      var body := response.value.body;
      if body.Some? && body.value.JObject? {
        var doc := body.value.fields;
        if "resourceUri" !in doc {
          return Raise(KeyError("resourceUri"));
        }
        status.detailPath := doc["resourceUri"];
        if "id" !in doc {
          return Raise(KeyError("id"));
        }
        status.requestId := RequestValue(doc["id"]);
      } else {
        status.error := Some(InvalidResponse(response.value));
        status.finished := true;
        status.failed := JBool(true);
        status.currentState := JString("CITEST_INTERNAL_ERROR");
      }
      r := Ok(status);
    }

    /** `_update_response_from_json(doc)`. */
    method UpdateResponseFromJson(doc: Json) returns (r: Result<()>)
      modifies this
      ensures r == Updated(old(State()), doc).result && State() == Updated(old(State()), doc).state
    {
      var status := Lookup(doc, "status");
      if status.Raise? {
        return Raise(status.error);
      }
      var completed := Lookup(status.value, "completed");
      if completed.Raise? {
        return Raise(completed.error);
      }
      var failedFlag := Lookup(status.value, "failed");
      if failedFlag.Raise? {
        return Raise(failedFlag.error);
      }
      var phase := Lookup(status.value, "phase");
      if phase.Raise? {
        return Raise(phase.error);
      }
      currentState := phase.value;
      exceptionDetails := JNull;
      if Truthy(completed.value) {
        finished := true;
        failed := failedFlag.value;
      }
      if Truthy(failedFlag.value) {
        var details := Lookup(status.value, "status");
        if details.Raise? {
          return Raise(details.error);
        }
        exceptionDetails := details.value;
      }
      r := Ok(());
    }

    /** `set_http_response(response)`. */
    method SetHttpResponse(response: HttpResponse) returns (r: Result<()>)
      modifies this
      ensures r == Delivered(old(State()), response).result && State() == Delivered(old(State()), response).state
    {
      if response.retcode < 0 {
        currentState := JString("Unknown");
        return Ok(());
      }
      if response.body.None? {
        return Raise(ValueError("No JSON object could be decoded"));
      }
      jsonDoc := response.body;
      r := UpdateResponseFromJson(response.body.value);
    }

    /** `refresh()`, given the response the poll of the detail path receives. */
    method Refresh(poll: HttpResponse) returns (r: Result<()>)
      modifies this
      ensures r == Refreshed(old(State()), poll).result && State() == Refreshed(old(State()), poll).state
    {
      if finished {
        return Ok(());
      }
      r := SetHttpResponse(poll);
    }
  }
}
