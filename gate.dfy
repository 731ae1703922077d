/**
 * The Gate operation status tracker `_GateStatus` and the `GateAgent`
 * payload and application operations. Gate's terminal flags are pure
 * predicates over the current state; the constructor and each poll assign
 * the fields in place, the poll inside a loop over the pipeline variables.
 */
module Gate {
  import opened Wrappers
  import opened Text
  import opened Json
  import opened Spinnaker

  /** Every field of a `_GateStatus`, as `SpinnakerStatus` declares them. */
  datatype GateState = GateState(
    requestId: Ident,
    currentState: Json,
    detailPath: Json,
    exceptionDetails: Json,
    jsonDoc: Option<Json>,
    error: Option<string>)

  /** `finished`: any state other than NOT_STARTED, RUNNING or None. */
  predicate Finished(state: Json)
  {
    state != JString("NOT_STARTED") && state != JString("RUNNING") && state != JNull
  }

  /** `finished_ok`: the state is SUCCEEDED. */
  predicate FinishedOk(state: Json)
  {
    state == JString("SUCCEEDED")
  }

  /** `timed_out`, given `str(self.detail)`: TERMINAL with " timed out." somewhere after the first character. */
  predicate TimedOut(state: Json, detailText: string)
  {
    state == JString("TERMINAL") && Find(detailText, " timed out.") > 0
  }

  /** A successful operation has finished; a timed-out one has finished and did not succeed. */
  lemma FlagsAgree(state: Json, detailText: string)
    ensures FinishedOk(state) ==> Finished(state)
    ensures TimedOut(state, detailText) ==> Finished(state) && !FinishedOk(state)
    ensures TimedOut(state, detailText) <==>
      state == JString("TERMINAL") && Contains(detailText, " timed out.") && !OccursAt(detailText, " timed out.", 0)
  {
    FindSpec(detailText, " timed out.");
  }

  // ================================================================ construction

  function Start(response: Option<HttpResponse>): GateState
  {
    GateState(OriginalResponse, InitialState(response), JNull, JNull, None, None)
  }

  /**
   * `_GateStatus(operation, original_response)`: a JSON object's 'ref' is
   * both the detail path and the request id; anything else is an
   * INTERNAL_ERROR.
   */
  function Initial(response: Option<HttpResponse>): (r: Result<GateState>)
  {
    if response.None? then Raise(NoResponse)
    else
      var s := Start(response);
      var body := response.value.body;
      if body.Some? && body.value.JObject? then
        var doc := body.value.fields;
        if "ref" !in doc then Raise(KeyError("ref"))
        else Ok(s.(detailPath := doc["ref"], requestId := RequestValue(doc["ref"])))
      else
        Ok(s.(error := Some("Invalid response='" + response.value.shown + "'"),
              currentState := JString("INTERNAL_ERROR")))
  }

  /**
   * A JSON-object first response uses its 'ref' as detail path and request
   * id, or raises KeyError without one; any other body gives INTERNAL_ERROR,
   * which is finished and not finished_ok; no response raises.
   */
  lemma InitialSpec(response: Option<HttpResponse>)
    ensures var r := Initial(response);
      && (response.None? ==> r == Raise(NoResponse))
      && (response.Some? && response.value.body.Some? && response.value.body.value.JObject? ==>
            var doc := response.value.body.value.fields;
            && (r.Ok? <==> "ref" in doc)
            && (r.Raise? ==> r.error == KeyError("ref"))
            && (r.Ok? ==> r.value.detailPath == doc["ref"] && r.value.requestId == RequestValue(doc["ref"])
                          && r.value.currentState == InitialState(response)))
      && (response.Some? && !(response.value.body.Some? && response.value.body.value.JObject?) ==>
            && r.Ok? && r.value.currentState == JString("INTERNAL_ERROR")
            && Finished(r.value.currentState) && !FinishedOk(r.value.currentState))
  {
  }

  // ================================================================ variables

  /**
   * The two candidates `_update_response_from_json` collects:
   * `exception_details` and `kato_exception`, JNull standing for None.
   */
  datatype Found = Found(details: Json, katoMessage: Json)

  /**
   * The inner loop over a 'kato.tasks' value: Some message of the first task
   * holding an 'exception' (a null message included), or None when no task
   * holds one and `kato_exception` is left as it was.
   */
  function TaskException(tasks: seq<Json>): (r: Result<Option<Json>>)
    decreases |tasks|
  {
    if tasks == [] then Ok(None)
    else
      match Has(tasks[0], "exception")
      case Raise(e) => Raise(e)
      case Ok(has) =>
        if has then TaskMessage(tasks[0]) else TaskException(tasks[1..])
  }

  /** The message of a task holding an 'exception', as the loop records it. */
  function TaskMessage(task: Json): Result<Option<Json>>
  {
    match ExceptionMessage(task)
    case Raise(e) => Raise(e)
    case Ok(message) => Ok(Some(message))
  }

  /** `task['exception']['message']`. */
  function ExceptionMessage(task: Json): Result<Json>
  {
    match Lookup(task, "exception")
    case Raise(e) => Raise(e)
    case Ok(ex) => Lookup(ex, "message")
  }

  /** A task's `'exception' in task` test answered False. */
  predicate NoException(task: Json)
  {
    Has(task, "exception") == Ok(false)
  }

  /**
   * The first task holding an 'exception' gives its message, even a null
   * one; when no task holds one the result is None, which is distinct from
   * any message.
   */
  lemma {:induction false} TaskExceptionFirst(tasks: seq<Json>)
    ensures (forall j | 0 <= j < |tasks| :: NoException(tasks[j])) ==> TaskException(tasks) == Ok(None)
    ensures forall k | 0 <= k < |tasks| && Has(tasks[k], "exception") == Ok(true) &&
        (forall j | 0 <= j < k :: NoException(tasks[j])) ::
      TaskException(tasks) == TaskMessage(tasks[k])
      && (ExceptionMessage(tasks[k]).Ok? ==> TaskException(tasks) == Ok(Some(ExceptionMessage(tasks[k]).value)))
  {
    if tasks != [] {
      var rest := tasks[1..];
      TaskExceptionFirst(rest);
      if forall j | 0 <= j < |tasks| :: NoException(tasks[j]) {
        assert NoException(tasks[0]);
        assert forall j | 0 <= j < |rest| :: NoException(rest[j]) by {
          forall j | 0 <= j < |rest| ensures NoException(rest[j]) {
            assert rest[j] == tasks[j + 1];
          }
        }
      }
      forall k | 0 < k < |tasks| && Has(tasks[k], "exception") == Ok(true) &&
          (forall j | 0 <= j < k :: NoException(tasks[j]))
        ensures TaskException(tasks) == TaskMessage(tasks[k])
      {
        assert NoException(tasks[0]);
        assert rest[k - 1] == tasks[k];
        forall j | 0 <= j < k - 1 ensures NoException(rest[j]) {
          assert rest[j] == tasks[j + 1];
        }
      }
    }
  }

  /** One pass of the loop over `variables`. */
  function VariableStep(found: Found, elem: Json): (r: Result<Found>)
  {
    match Lookup(elem, "key")
    case Raise(e) => Raise(e)
    case Ok(key) =>
      if key == JString("exception") then
        match Lookup(elem, "value")
        case Raise(e) => Raise(e)
        case Ok(value) =>
          match Lookup(value, "details")
          case Raise(e) => Raise(e)
          case Ok(details) => Ok(found.(details := details))
      else if key == JString("kato.tasks") then
        match Lookup(elem, "value")
        case Raise(e) => Raise(e)
        case Ok(value) =>
          match Items(value)
          case Raise(e) => Raise(e)
          case Ok(tasks) =>
            match TaskException(tasks)
            case Raise(e) => Raise(e)
            case Ok(message) => Ok(if message.Some? then found.(katoMessage := message.value) else found)
      else Ok(found)
  }

  /** The loop over `variables`, element by element in order. */
  function ScanVariables(vars: seq<Json>): (r: Result<Found>)
  {
    if vars == [] then Ok(Found(JNull, JNull))
    else
      match ScanVariables(vars[..|vars| - 1])
      case Raise(e) => Raise(e)
      case Ok(found) => VariableStep(found, vars[|vars| - 1])
  }

  /** An element of `variables` whose key is 'exception'. */
  predicate IsExceptionVar(elem: Json)
  {
    elem.JObject? && "key" in elem.fields && elem.fields["key"] == JString("exception")
  }

  /** The details an 'exception' variable carries, when it has them. */
  function DetailsOf(elem: Json): Json
  {
    if elem.JObject? && "value" in elem.fields && elem.fields["value"].JObject?
       && "details" in elem.fields["value"].fields
    then elem.fields["value"].fields["details"] else JNull
  }

  /**
   * The last 'exception' variable decides `exception_details`; without one
   * it stays None. An 'exception' variable without a value or details makes
   * the whole scan raise.
   */
  lemma {:induction false} ScanVariablesDetails(vars: seq<Json>)
    requires ScanVariables(vars).Ok?
    ensures (forall i | 0 <= i < |vars| :: !IsExceptionVar(vars[i])) ==> ScanVariables(vars).value.details == JNull
    ensures forall i | 0 <= i < |vars| && IsExceptionVar(vars[i]) &&
        (forall j | i < j < |vars| :: !IsExceptionVar(vars[j])) ::
      ScanVariables(vars).value.details == DetailsOf(vars[i])
  {
    if vars != [] {
      var n := |vars| - 1;
      var init, last := vars[..n], vars[n];
      assert ScanVariables(init).Ok?;
      var found := ScanVariables(init).value;
      assert ScanVariables(vars) == VariableStep(found, last);
      ScanVariablesDetails(init);
      VariableStepDetails(found, last);
      var details := ScanVariables(vars).value.details;
      forall i | 0 <= i < |vars| && IsExceptionVar(vars[i]) && (forall j | i < j < |vars| :: !IsExceptionVar(vars[j]))
        ensures details == DetailsOf(vars[i])
      {
        if i < n {
          assert !IsExceptionVar(last);
          assert init[i] == vars[i];
          forall j | i < j < n ensures !IsExceptionVar(init[j]) {
            assert init[j] == vars[j];
          }
        }
      }
      if forall i | 0 <= i < |vars| :: !IsExceptionVar(vars[i]) {
        forall i | 0 <= i < n ensures !IsExceptionVar(init[i]) {
          assert init[i] == vars[i];
        }
      }
    }
  }

  /** One step keeps the details, except that an 'exception' variable sets them to its own. */
  lemma VariableStepDetails(found: Found, elem: Json)
    requires VariableStep(found, elem).Ok?
    ensures IsExceptionVar(elem) ==> VariableStep(found, elem).value.details == DetailsOf(elem)
    ensures !IsExceptionVar(elem) ==> VariableStep(found, elem).value.details == found.details
  {
  }

  /** An element of `variables` whose key is 'kato.tasks'. */
  predicate IsKatoVar(elem: Json)
  {
    elem.JObject? && "key" in elem.fields && elem.fields["key"] == JString("kato.tasks")
  }

  /**
   * The message a 'kato.tasks' variable supplies: that of its first task
   * holding an 'exception', or None when no task holds one.
   */
  function KatoOf(elem: Json): Option<Json>
  {
    if IsKatoVar(elem) && "value" in elem.fields then
      match Items(elem.fields["value"])
      case Raise(_) => None
      case Ok(tasks) =>
        match TaskException(tasks)
        case Raise(_) => None
        case Ok(message) => message
    else None
  }

  /**
   * The message of the last variable that supplies one, or JNull (None)
   * when no variable does.
   */
  function LastKato(vars: seq<Json>): Json
  {
    if vars == [] then JNull
    else if KatoOf(vars[|vars| - 1]).Some? then KatoOf(vars[|vars| - 1]).value
    else LastKato(vars[..|vars| - 1])
  }

  /** The scan leaves `kato_exception` as the last supplying variable's message. */
  lemma {:induction false} ScanVariablesKato(vars: seq<Json>)
    requires ScanVariables(vars).Ok?
    ensures ScanVariables(vars).value.katoMessage == LastKato(vars)
  {
    if vars != [] {
      var init := vars[..|vars| - 1];
      assert ScanVariables(init).Ok?;
      ScanVariablesKato(init);
      VariableStepKato(ScanVariables(init).value, vars[|vars| - 1]);
    }
  }

  /**
   * The last 'kato.tasks' variable with a task holding an 'exception'
   * decides `kato_exception`, through the message of its first such task,
   * null or not; without one it stays None.
   */
  lemma {:induction false} LastKatoSpec(vars: seq<Json>)
    ensures (forall i | 0 <= i < |vars| :: KatoOf(vars[i]).None?) ==> LastKato(vars) == JNull
    ensures forall i | 0 <= i < |vars| && KatoOf(vars[i]).Some? &&
        (forall j | i < j < |vars| :: KatoOf(vars[j]).None?) ::
      LastKato(vars) == KatoOf(vars[i]).value
  {
    if vars != [] {
      var n := |vars| - 1;
      var init := vars[..n];
      LastKatoSpec(init);
      forall i | 0 <= i < |vars| && KatoOf(vars[i]).Some? && (forall j | i < j < |vars| :: KatoOf(vars[j]).None?)
        ensures LastKato(vars) == KatoOf(vars[i]).value
      {
        if i < n {
          assert KatoOf(vars[n]).None?;
          assert init[i] == vars[i];
          forall j | i < j < n ensures KatoOf(init[j]).None? {
            assert init[j] == vars[j];
          }
        }
      }
      if forall i | 0 <= i < |vars| :: KatoOf(vars[i]).None? {
        forall i | 0 <= i < n ensures KatoOf(init[i]).None? {
          assert init[i] == vars[i];
        }
      }
    }
  }

  /** A 'kato.tasks' variable whose one task holds an exception with this message. */
  function KatoVar(message: Json): Json
  {
    JObject(map["key" := JString("kato.tasks"),
                "value" := JArray([JObject(map["exception" := JObject(map["message" := message])])])])
  }

  /** A later task list whose exception message is null resets an earlier message to None. */
  lemma NullMessageResets()
    ensures ScanVariables([KatoVar(JString("boom")), KatoVar(JNull)]) == Ok(Found(JNull, JNull))
  {
    var vars := [KatoVar(JString("boom")), KatoVar(JNull)];
    assert vars[..1] == [KatoVar(JString("boom"))];
    assert vars[..1][..0] == [];
  }

  /** One step keeps the Kato message, except that a variable supplying one replaces it. */
  lemma VariableStepKato(found: Found, elem: Json)
    requires VariableStep(found, elem).Ok?
    ensures KatoOf(elem).Some? ==> VariableStep(found, elem).value.katoMessage == KatoOf(elem).value
    ensures KatoOf(elem).None? ==> VariableStep(found, elem).value.katoMessage == found.katoMessage
  {
  }

  /** Once an element makes the scan raise, the whole scan raises with that error. */
  lemma {:induction false} ScanVariablesRaise(vars: seq<Json>, i: nat)
    requires i <= |vars| && ScanVariables(vars[..i]).Raise?
    ensures ScanVariables(vars) == ScanVariables(vars[..i])
    decreases |vars| - i
  {
    if i < |vars| {
      assert vars[..i + 1][..i] == vars[..i];
      ScanVariablesRaise(vars, i + 1);
    } else {
      assert vars[..i] == vars;
    }
  }

  // ================================================================ update

  /**
   * `_update_response_from_json(doc)`: the state is doc['status']; the
   * exception details are the collected `exception_details` when truthy,
   * else `kato_exception`.
   */
  function Updated(s: GateState, doc: Json): (r: Step<GateState>)
  {
    match Lookup(doc, "status")
    case Raise(e) => Step(Raise(e), s)
    case Ok(status) =>
      var s1 := s.(currentState := status, exceptionDetails := JNull);
      match Lookup(doc, "variables")
      case Raise(e) => Step(Raise(e), s1)
      case Ok(variables) =>
        if !Truthy(variables) then Step(Ok(()), s1)
        else
          match Items(variables)
          case Raise(e) => Step(Raise(e), s1)
          case Ok(vars) =>
            match ScanVariables(vars)
            case Raise(e) => Step(Raise(e), s1)
            case Ok(found) =>
              Step(Ok(()), s1.(exceptionDetails := if Truthy(found.details) then found.details else found.katoMessage))
  }

  /**
   * An update sets the current state to doc['status'], whatever happens
   * afterwards; it prefers truthy exception details to the message of the
   * last Kato task list holding an exception, and leaves None when the
   * variables are empty.
   */
  lemma UpdatedSpec(s: GateState, doc: Json)
    requires doc.JObject? && "status" in doc.fields
    ensures var r := Updated(s, doc);
      && r.state.currentState == doc.fields["status"]
      && r.state.requestId == s.requestId && r.state.detailPath == s.detailPath
      && r.state.jsonDoc == s.jsonDoc && r.state.error == s.error
      && ("variables" !in doc.fields ==> r.result == Raise(KeyError("variables")) && r.state.exceptionDetails == JNull)
      && ("variables" in doc.fields && !Truthy(doc.fields["variables"]) ==> r.result.Ok? && r.state.exceptionDetails == JNull)
      && ("variables" in doc.fields && doc.fields["variables"].JArray? && Truthy(doc.fields["variables"]) ==>
            var scan := ScanVariables(doc.fields["variables"].items);
            && (r.result.Ok? <==> scan.Ok?)
            && (scan.Ok? ==>
                  r.state.exceptionDetails ==
                    (if Truthy(scan.value.details) then scan.value.details else LastKato(doc.fields["variables"].items))))
  {
    if "variables" in doc.fields && doc.fields["variables"].JArray? && ScanVariables(doc.fields["variables"].items).Ok? {
      ScanVariablesKato(doc.fields["variables"].items);
    }
  }

  function Delivered(s: GateState, response: HttpResponse): (r: Step<GateState>)
  {
    match Deliver(response)
    case Raise(e) => Step(Raise(e), s)
    case Ok(Unreachable) => Step(Ok(()), s.(currentState := JString("Unknown")))
    case Ok(Decoded(doc)) => Updated(s.(jsonDoc := Some(doc)), doc)
  }

  function Refreshed(s: GateState, poll: HttpResponse): (r: Step<GateState>)
  {
    if Finished(s.currentState) then Step(Ok(()), s) else Delivered(s, poll)
  }

  /** Polling a finished operation does nothing; polling a running one delivers the response. */
  lemma RefreshedSpec(s: GateState, poll: HttpResponse)
    ensures Finished(s.currentState) ==> Refreshed(s, poll) == Step(Ok(()), s)
    ensures !Finished(s.currentState) && poll.retcode < 0 ==>
      Refreshed(s, poll) == Step(Ok(()), s.(currentState := JString("Unknown")))
    ensures !Finished(s.currentState) && poll.retcode >= 0 && poll.body.None? ==>
      Refreshed(s, poll).state == s && Refreshed(s, poll).result.Raise?
  {
  }

  // ================================================================ payloads

  /** `GateAgent.make_payload(job, description, application)`, before JSON encoding. */
  function MakePayload(job: Json, description: string, application: string): (r: Json)
    ensures r.JObject? && r.fields.Keys == {"job", "application", "description"}
    ensures r.fields["job"] == job && r.fields["application"] == JString(application)
    ensures r.fields["description"] == JString(description)
  {
    JObject(map["job" := job, "application" := JString(application), "description" := JString(description)])
  }

  /** An operation to post: its title, its payload and the path it posts to. */
  datatype Operation = Operation(title: string, data: Json, path: string)

  function TasksPath(application: string): string
  {
    "applications/" + application + "/tasks"
  }

  /** `make_create_app_operation(bindings, application, description)`. */
  function MakeCreateAppOperation(bindings: map<string, Json>, application: string, description: Json): (r: Result<Operation>)
    ensures r.Ok? <==> "GCE_CREDENTIALS" in bindings
    ensures r.Ok? ==> r.value.path == TasksPath(application) && r.value.title == "create_app"
  {
    if "GCE_CREDENTIALS" !in bindings then Raise(KeyError("GCE_CREDENTIALS"))
    else
      var account := bindings["GCE_CREDENTIALS"];
      var email := if "TEST_EMAIL" in bindings then bindings["TEST_EMAIL"] else JString("testuser@testhost.org");
      var app := JObject(map["name" := JString(application),
                              "description" := if Truthy(description) then description
                                               else JString("Gate Testing Application"),
                              "email" := email]);
      var job := JArray([JObject(map["type" := JString("createApplication"), "account" := account,
                                     "application" := app, "user" := JString("[anonymous]")])]);
      Ok(Operation("create_app", MakePayload(job, "Create Application: " + application, application),
                   TasksPath(application)))
  }

  /** `make_delete_app_operation(bindings, application)`. */
  function MakeDeleteAppOperation(bindings: map<string, Json>, application: string): (r: Result<Operation>)
    ensures r.Ok? <==> "GCE_CREDENTIALS" in bindings
    ensures r.Ok? ==> r.value.path == TasksPath(application) && r.value.title == "delete_app"
  {
    if "GCE_CREDENTIALS" !in bindings then Raise(KeyError("GCE_CREDENTIALS"))
    else
      var job := JArray([JObject(map["type" := JString("deleteApplication"),
                                     "account" := bindings["GCE_CREDENTIALS"],
                                     "application" := JObject(map["name" := JString(application)]),
                                     "user" := JString("[anonymous]")])]);
      Ok(Operation("delete_app", MakePayload(job, "Delete Application: " + application, application),
                   TasksPath(application)))
  }

  /**
   * The create operation posts one createApplication job for the named
   * application to its tasks path, on the bound account; it defaults the
   * application's description and e-mail when none is given.
   */
  lemma CreateAppOperationSpec(bindings: map<string, Json>, application: string, description: Json)
    requires "GCE_CREDENTIALS" in bindings
    ensures var c := MakeCreateAppOperation(bindings, application, description).value;
      && c.path == "applications/" + application + "/tasks"
      && c.data.fields["application"] == JString(application)
      && c.data.fields["description"] == JString("Create Application: " + application)
      && c.data.fields["job"].JArray? && |c.data.fields["job"].items| == 1
      && var job := c.data.fields["job"].items[0];
      && job.JObject? && job.fields.Keys == {"type", "account", "application", "user"}
      && job.fields["type"] == JString("createApplication")
      && job.fields["account"] == bindings["GCE_CREDENTIALS"]
      && job.fields["application"].JObject?
      && var app := job.fields["application"].fields;
      && app.Keys == {"name", "description", "email"}
      && app["name"] == JString(application)
      && app["description"] == (if Truthy(description) then description else JString("Gate Testing Application"))
      && app["email"] == (if "TEST_EMAIL" in bindings then bindings["TEST_EMAIL"] else JString("testuser@testhost.org"))
  {
  }

  /** The delete operation posts one deleteApplication job naming only the application, on the bound account. */
  lemma DeleteAppOperationSpec(bindings: map<string, Json>, application: string)
    requires "GCE_CREDENTIALS" in bindings
    ensures var d := MakeDeleteAppOperation(bindings, application).value;
      && d.path == "applications/" + application + "/tasks"
      && d.data.fields["application"] == JString(application)
      && d.data.fields["description"] == JString("Delete Application: " + application)
      && d.data.fields["job"].JArray? && |d.data.fields["job"].items| == 1
      && var job := d.data.fields["job"].items[0];
      && job.JObject? && job.fields.Keys == {"type", "account", "application", "user"}
      && job.fields["type"] == JString("deleteApplication")
      && job.fields["account"] == bindings["GCE_CREDENTIALS"]
      && job.fields["application"] == JObject(map["name" := JString(application)])
  {
  }

  // ================================================================ the tracker

  /** A `_GateStatus`, whose fields the constructor and each poll assign in place. */
  class GateStatus {
    var requestId: Ident
    var currentState: Json
    var detailPath: Json
    var exceptionDetails: Json
    var jsonDoc: Option<Json>
    var error: Option<string>

    function State(): GateState
      reads this
    {
      GateState(requestId, currentState, detailPath, exceptionDetails, jsonDoc, error)
    }

    /** `SpinnakerStatus.__init__`. */
    constructor (response: Option<HttpResponse>)
      ensures State() == Start(response)
    {
      requestId := OriginalResponse;
      currentState := JNull;
      detailPath := JNull;
      exceptionDetails := JNull;
      jsonDoc := None;
      error := None;
      if response.None? || response.value.retcode < 0 {
        currentState := JString("REQUEST_FAILED");
      }
    }

    /** `_GateStatus(operation, original_response)`, raising where the constructor raises. */
    static method New(response: Option<HttpResponse>) returns (r: Result<GateStatus>)
      ensures r.Ok? <==> Initial(response).Ok?
      ensures r.Raise? ==> r.error == Initial(response).error
      ensures r.Ok? ==> fresh(r.value) && r.value.State() == Initial(response).value
    {
      var status := new GateStatus(response);
      if response.None? {
        return Raise(NoResponse);
      }
      var body := response.value.body;
      if body.Some? && body.value.JObject? {
        var doc := body.value.fields;
        if "ref" !in doc {
          return Raise(KeyError("ref"));
        }
        status.detailPath := doc["ref"];
        status.requestId := RequestValue(status.detailPath);
      } else {
        status.error := Some("Invalid response='" + response.value.shown + "'");
        status.currentState := JString("INTERNAL_ERROR");
      }
      r := Ok(status);
    }

    /** The inner `for task in value` loop, stopping at the first task with an exception. */
    static method FirstTaskException(tasks: seq<Json>) returns (r: Result<Option<Json>>)
      ensures r == TaskException(tasks)
    {
      var i := 0;
      while i < |tasks|
        invariant i <= |tasks|
        invariant TaskException(tasks[i..]) == TaskException(tasks)
        decreases |tasks| - i
      {
        var task := tasks[i];
        var has := Has(task, "exception");
        if has.Raise? {
          return Raise(has.error);
        }
        if has.value {
          var ex := Lookup(task, "exception");
          if ex.Raise? {
            return Raise(ex.error);
          }
          var message := Lookup(ex.value, "message");
          if message.Raise? {
            return Raise(message.error);
          }
          return Ok(Some(message.value));
        }
        assert tasks[i..][1..] == tasks[i + 1..];
        i := i + 1;
      }
      return Ok(None);
    }

    /** One pass of the loop over `variables`, on the two candidates collected so far. */
    static method ScanElement(found: Found, elem: Json) returns (r: Result<Found>)
      ensures r == VariableStep(found, elem)
    {
      var key := Lookup(elem, "key");
      if key.Raise? {
        return Raise(key.error);
      }
      r := Ok(found);
      if key.value == JString("exception") {
        var value := Lookup(elem, "value");
        if value.Raise? {
          return Raise(value.error);
        }
        var details := Lookup(value.value, "details");
        if details.Raise? {
          return Raise(details.error);
        }
        r := Ok(found.(details := details.value));
      } else if key.value == JString("kato.tasks") {
        var value := Lookup(elem, "value");
        if value.Raise? {
          return Raise(value.error);
        }
        var tasks := Items(value.value);
        if tasks.Raise? {
          return Raise(tasks.error);
        }
        var message := FirstTaskException(tasks.value);
        if message.Raise? {
          return Raise(message.error);
        }
        if message.value.Some? {
          r := Ok(found.(katoMessage := message.value.value));
        }
      }
    }

    /** `_update_response_from_json(doc)`. */
    method UpdateResponseFromJson(doc: Json) returns (r: Result<()>)
      modifies this
      ensures r == Updated(old(State()), doc).result && State() == Updated(old(State()), doc).state
    {
      var status := Lookup(doc, "status");
      if status.Raise? {
        return Raise(status.error);
      }
      currentState := status.value;
      exceptionDetails := JNull;
      var details := JNull;
      var katoException := JNull;
      var variables := Lookup(doc, "variables");
      if variables.Raise? {
        return Raise(variables.error);
      }
      if Truthy(variables.value) {
        var items := Items(variables.value);
        if items.Raise? {
          return Raise(items.error);
        }
        var vars := items.value;
        var i := 0;
        while i < |vars|
          invariant i <= |vars|
          invariant ScanVariables(vars[..i]) == Ok(Found(details, katoException))
          invariant State() == old(State()).(currentState := status.value, exceptionDetails := JNull)
          decreases |vars| - i
        {
          assert vars[..i + 1][..i] == vars[..i];
          var step := ScanElement(Found(details, katoException), vars[i]);
          if step.Raise? {
            ScanVariablesRaise(vars, i + 1);
            return Raise(step.error);
          }
          details, katoException := step.value.details, step.value.katoMessage;
          i := i + 1;
        }
        assert vars[..i] == vars;
      }
      exceptionDetails := if Truthy(details) then details else katoException;
      r := Ok(());
    }

    /** `set_http_response(response)`. */
    method SetHttpResponse(response: HttpResponse) returns (r: Result<()>)
      modifies this
      ensures r == Delivered(old(State()), response).result && State() == Delivered(old(State()), response).state
    {
      if response.retcode < 0 {
        currentState := JString("Unknown");
        return Ok(());
      }
      if response.body.None? {
        return Raise(ValueError("No JSON object could be decoded"));
      }
      jsonDoc := response.body;
      r := UpdateResponseFromJson(response.body.value);
    }

    /** `refresh()`, given the response the poll of the detail path receives. */
    method Refresh(poll: HttpResponse) returns (r: Result<()>)
      modifies this
      ensures r == Refreshed(old(State()), poll).result && State() == Refreshed(old(State()), poll).state
    {
      if Finished(currentState) {
        return Ok(());
      }
      r := SetHttpResponse(poll);
    }
  }
}
