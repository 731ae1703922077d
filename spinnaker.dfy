/**
 * What the Kato and Gate status trackers share (the guards of
 * `SpinnakerStatus`), the `name_value_to_dict` parser and the choice of a
 * host platform and base URL for a `SpinnakerAgent`.
 */
module Spinnaker {
  import opened Wrappers
  import opened Text
  import opened Json

  // ================================================================ responses

  /**
   * An HTTP response as the trackers see it: its return code, its output
   * text, that text decoded as JSON (`None` when it does not decode) and
   * `str(response)` as the error messages print it.
   */
  datatype HttpResponse = HttpResponse(retcode: int, output: string, body: Option<Json>, shown: string)

  /** The request id of a tracker: the original response object, or a value read from it. */
  datatype Ident = OriginalResponse | RequestValue(v: Json)

  /** What a state-changing call returned, and the tracker's state afterwards. */
  datatype Step<S> = Step(result: Result<()>, state: S)

  /** The `current_state` `SpinnakerStatus.__init__` leaves: REQUEST_FAILED without a usable response, else None. */
  function InitialState(response: Option<HttpResponse>): (s: Json)
    ensures s == JString("REQUEST_FAILED") <==> response.None? || response.value.retcode < 0
    ensures s != JString("REQUEST_FAILED") ==> s == JNull
  {
    if response.None? || response.value.retcode < 0 then JString("REQUEST_FAILED") else JNull
  }

  /** What `set_http_response` does with a polled response before the subclass update. */
  datatype Delivery = Unreachable | Decoded(doc: Json)

  /**
   * `set_http_response`'s guard: a negative return code is only noted, any
   * other response must decode, and a decode error propagates.
   */
  function Deliver(response: HttpResponse): (r: Result<Delivery>)
    ensures r == Ok(Unreachable) <==> response.retcode < 0
    ensures r.Raise? <==> response.retcode >= 0 && response.body.None?
    ensures r.Raise? ==> r.error.ValueError?
    ensures r.Ok? && r.value.Decoded? ==> response.body == Some(r.value.doc)
  {
    if response.retcode < 0 then Ok(Unreachable)
    else if response.body.None? then Raise(ValueError("No JSON object could be decoded"))
    else Ok(Decoded(response.body.value))
  }

  /** What a tracker's constructor raises, uncaught, when the response itself is None. */
  const NoResponse := AttributeError("'NoneType' object has no attribute 'output'")

  // ================================================================ name_value_to_dict

  predicate IsNameStart(c: char) { IsAlpha(c) || c == '_' }

  predicate LineStart(s: string, p: nat) { p == 0 || (p <= |s| && s[p - 1] == '\n') }

  /** The end of the run of spaces starting at p. */
  function SpacesEnd(s: string, p: nat): (e: nat)
    requires p <= |s|
    ensures p <= e <= |s|
    ensures forall i | p <= i < e :: s[i] == ' '
    ensures e == |s| || s[e] != ' '
    decreases |s| - p
  {
    if p < |s| && s[p] == ' ' then SpacesEnd(s, p + 1) else p
  }

  /** The first '#' at or after p, or the end of the text: where `[^#]*` stops. */
  function HashFrom(s: string, p: nat): (e: nat)
    requires p <= |s|
    ensures p <= e <= |s|
    ensures forall i | p <= i < e :: s[i] != '#'
    ensures e == |s| || s[e] == '#'
    decreases |s| - p
  {
    if p < |s| && s[p] != '#' then HashFrom(s, p + 1) else p
  }

  /** One match of `^([A-Za-z_][A-Za-z0-9_]*) *= *([^#]*)`: the name, the stripped value and where the match ends. */
  datatype Binding = Binding(name: string, value: string, end: nat)

  /** A value as `.strip()` leaves it, and as `[^#]*` allows it. */
  predicate CleanValue(v: string)
  {
    '#' !in v && (v == [] || (!IsSpace(v[0]) && !IsSpace(v[|v| - 1])))
  }

  /** The stripped text between v and e, a run free of '#'. */
  function ValueText(s: string, v: nat, e: nat): (r: string)
    requires v <= e <= |s| && '#' !in s[v..e]
    ensures CleanValue(r)
  {
    StripKeepsOut(s[v..e], '#');
    StripSpec(s[v..e]);
    Strip(s[v..e])
  }

  /** The match of the pattern at p, in multi-line mode, if there is one. */
  function MatchAt(s: string, p: nat): (r: Option<Binding>)
    requires p <= |s|
    ensures r.Some? ==> p < r.value.end <= |s| && CleanValue(r.value.value)
    ensures r.Some? ==> r.value.end == |s| || s[r.value.end] == '#'
  {
    if p < |s| && LineStart(s, p) && IsNameStart(s[p]) then
      var n := WordEnd(s, p + 1);
      var q := SpacesEnd(s, n);
      if q < |s| && s[q] == '=' then
        var v := SpacesEnd(s, q + 1);
        var e := HashFrom(s, v);
        Some(Binding(s[p..n], ValueText(s, v, e), e))
      else None
    else None
  }

  /** The dictionary the matches from p on produce, later matches overriding earlier ones. */
  function BindingsFrom(s: string, p: nat): map<string, string>
    requires p <= |s|
    decreases |s| - p
  {
    if p == |s| then map[]
    else
      match MatchAt(s, p)
      case Some(b) => map[b.name := b.value] + BindingsFrom(s, b.end)
      case None => BindingsFrom(s, p + 1)
  }

  /** `name_value_to_dict(content)`. */
  method NameValueToDict(content: string) returns (result: map<string, string>)
    ensures result == BindingsFrom(content, 0)
  {
    result := map[];
    var pos := 0;
    while pos < |content|
      invariant pos <= |content|
      invariant result + BindingsFrom(content, pos) == BindingsFrom(content, 0)
      decreases |content| - pos
    {
      match MatchAt(content, pos)
      case Some(b) =>
        assert BindingsFrom(content, pos) == map[b.name := b.value] + BindingsFrom(content, b.end);
        BindingShift(result, b.name, b.value, BindingsFrom(content, b.end));
        result := result[b.name := b.value];
        pos := b.end;
      case None =>
        assert BindingsFrom(content, pos) == BindingsFrom(content, pos + 1);
        pos := pos + 1;
    }
    assert BindingsFrom(content, pos) == map[];
    assert result + map[] == result;
  }

  /** Binding a name before the later bindings is binding it after the earlier ones. */
  lemma BindingShift(earlier: map<string, string>, name: string, value: string, later: map<string, string>)
    ensures earlier + (map[name := value] + later) == earlier[name := value] + later
  {
  }

  /** Every recorded name is the name of a match at or after p. */
  lemma {:induction false} BindingsFromNames(s: string, p: nat)
    requires p <= |s|
    ensures forall k | k in BindingsFrom(s, p) ::
      exists q | p <= q < |s| :: MatchAt(s, q).Some? && MatchAt(s, q).value.name == k
    decreases |s| - p
  {
    if p < |s| {
      match MatchAt(s, p)
      case Some(b) =>
        BindingsFromNames(s, b.end);
        forall k | k in BindingsFrom(s, p)
          ensures exists q | p <= q < |s| :: MatchAt(s, q).Some? && MatchAt(s, q).value.name == k
        {
          if k == b.name {
            assert MatchAt(s, p).value.name == k;
          } else {
            assert k in BindingsFrom(s, b.end);
          }
        }
      case None =>
        BindingsFromNames(s, p + 1);
    }
  }

  /** Every recorded value is stripped and holds no '#'. */
  lemma {:induction false} BindingsFromValues(s: string, p: nat)
    requires p <= |s|
    ensures forall k | k in BindingsFrom(s, p) :: CleanValue(BindingsFrom(s, p)[k])
    decreases |s| - p
  {
    if p < |s| {
      match MatchAt(s, p)
      case Some(b) =>
        BindingsFromValues(s, b.end);
      case None =>
        BindingsFromValues(s, p + 1);
    }
  }

  /**
   * Without any '#', the first name swallows the rest of the content as its
   * value, so at most one name is recorded.
   */
  lemma {:induction false} NoCommentOneBinding(s: string, p: nat)
    requires p <= |s| && '#' !in s
    ensures |BindingsFrom(s, p)| <= 1
    decreases |s| - p
  {
    if p < |s| {
      match MatchAt(s, p)
      case Some(b) =>
        assert b.end == |s|;
        assert BindingsFrom(s, p) == map[b.name := b.value];
      case None =>
        NoCommentOneBinding(s, p + 1);
    }
  }

  // ================================================================ host platform

  /** `bindings.get(name)` truthiness for the agent's configuration values (None is `None`). */
  predicate Set(bindings: map<string, Option<string>>, name: string)
  {
    name in bindings && bindings[name].Some? && bindings[name].value != ""
  }

  /**
   * `determine_host_platform`: HOST_PLATFORM when set; otherwise 'gce' for a
   * GCE_PROJECT, then 'native' for a NATIVE_HOSTNAME; otherwise ValueError.
   * Reading GCE_PROJECT or NATIVE_HOSTNAME when absent raises KeyError.
   */
  function DetermineHostPlatform(bindings: map<string, Option<string>>): (r: Result<string>)
    ensures Set(bindings, "HOST_PLATFORM") ==> r == Ok(bindings["HOST_PLATFORM"].value)
    ensures r.Ok? ==> r.value != ""
  {
    if Set(bindings, "HOST_PLATFORM") then Ok(bindings["HOST_PLATFORM"].value)
    else if "GCE_PROJECT" !in bindings then Raise(KeyError("GCE_PROJECT"))
    else if Set(bindings, "GCE_PROJECT") then Ok("gce")
    else if "NATIVE_HOSTNAME" !in bindings then Raise(KeyError("NATIVE_HOSTNAME"))
    else if Set(bindings, "NATIVE_HOSTNAME") then Ok("native")
    else Raise(ValueError("No --native_hostname nor --gce_project"))
  }

  /** Without HOST_PLATFORM, the platform is gce, else native, else an error, in that order of preference. */
  lemma DetermineHostPlatformSpec(bindings: map<string, Option<string>>)
    requires !Set(bindings, "HOST_PLATFORM") && "GCE_PROJECT" in bindings && "NATIVE_HOSTNAME" in bindings
    ensures var r := DetermineHostPlatform(bindings);
      && (r == Ok("gce") <==> Set(bindings, "GCE_PROJECT"))
      && (r == Ok("native") <==> !Set(bindings, "GCE_PROJECT") && Set(bindings, "NATIVE_HOSTNAME"))
      && (r.Raise? <==> !Set(bindings, "GCE_PROJECT") && !Set(bindings, "NATIVE_HOSTNAME"))
  {
  }

  /** How `new_instance_from_bindings` reaches the server; the gce path needs the network and stops here. */
  datatype AgentPlan =
    | NativeAgent(baseUrl: Option<string>)
    | GceAgent(project: Option<string>, zone: Option<string>, instance: Option<string>, port: int)

  /** `'{0}'.format(port)` for the default port number. */
  function PortText(bindings: map<string, Option<string>>, port: int): string
    requires "NATIVE_PORT" in bindings
  {
    if Set(bindings, "NATIVE_PORT") then bindings["NATIVE_PORT"].value else IntToString(port)
  }

  /**
   * `new_instance_from_bindings` up to the platform-specific factory: a
   * native agent's baseUrl is None without a host name, else
   * `http://<host>:<NATIVE_PORT or port>`; any platform other than native
   * and gce raises ValueError.
   */
  function PlanAgent(bindings: map<string, Option<string>>, port: int): (r: Result<AgentPlan>)
  {
    match DetermineHostPlatform(bindings)
    case Raise(e) => Raise(e)
    case Ok(platform) =>
      if platform == "native" then
        if "NATIVE_HOSTNAME" !in bindings then Raise(KeyError("NATIVE_HOSTNAME"))
        else if !Set(bindings, "NATIVE_HOSTNAME") then Ok(NativeAgent(None))
        else if "NATIVE_PORT" !in bindings then Raise(KeyError("NATIVE_PORT"))
        else Ok(NativeAgent(Some("http://" + bindings["NATIVE_HOSTNAME"].value + ":" + PortText(bindings, port))))
      else if platform == "gce" then
        if "GCE_PROJECT" !in bindings then Raise(KeyError("GCE_PROJECT"))
        else if "GCE_ZONE" !in bindings then Raise(KeyError("GCE_ZONE"))
        else if "GCE_INSTANCE" !in bindings then Raise(KeyError("GCE_INSTANCE"))
        else Ok(GceAgent(bindings["GCE_PROJECT"], bindings["GCE_ZONE"], bindings["GCE_INSTANCE"], port))
      else Raise(ValueError("Unknown host_platform=" + platform))
  }

  /**
   * A native platform chosen from NATIVE_HOSTNAME gets the URL of that host,
   * on NATIVE_PORT when it is set and on the default port otherwise;
   * platforms other than native and gce are refused.
   */
  lemma PlanAgentSpec(bindings: map<string, Option<string>>, port: int)
    ensures var r, platform := PlanAgent(bindings, port), DetermineHostPlatform(bindings);
      && ((platform == Ok("native") && Set(bindings, "NATIVE_HOSTNAME") && "NATIVE_PORT" in bindings) ==>
            r == Ok(NativeAgent(Some("http://" + bindings["NATIVE_HOSTNAME"].value + ":"
                                     + (if Set(bindings, "NATIVE_PORT") then bindings["NATIVE_PORT"].value
                                        else IntToString(port))))))
      && ((platform == Ok("native") && "NATIVE_HOSTNAME" in bindings && !Set(bindings, "NATIVE_HOSTNAME")) ==>
            r == Ok(NativeAgent(None)))
      && ((platform.Ok? && platform.value != "native" && platform.value != "gce") ==>
            r.Raise? && r.error.ValueError?)
      && (r.Ok? ==> platform.Ok?)
  {
  }
}
