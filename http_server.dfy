/**
 * The metric collector's small HTTP server: a GET request line is decoded
 * into path, query parameters and fragment, and dispatched to the handler
 * registered under the longest prefix of the path that ends before a '/'
 * (or is the whole path), from a registry shared by every server.
 */
module HttpServer {
  import opened Wrappers
  import opened Text
  import MetricCollectorHandlers

  // ---------------------------------------------------------------------
  // decode_request
  // ---------------------------------------------------------------------

  /** What decode_request returns: the path, the parameters, and the fragment (None without a query). */
  datatype Decoded = Decoded(path: string, parameters: map<string, string>, fragment: Option<string>)

  /** The parameters of the query parts taken in order: each splits at its first '=', and a later key overrides. */
  function Parameters(parts: seq<string>): map<string, string>
  {
    if parts == [] then map[]
    else Parameters(parts[..|parts| - 1])[Before(parts[|parts| - 1], '=') := After(parts[|parts| - 1], '=')]
  }

  /** decode_request as a function of the request text. */
  function Decode(request: string): Decoded
  {
    var query := After(request, '?');
    if query == "" then Decoded(request, map[], None)
    else Decoded(Before(request, '?'), Parameters(SplitOn(Before(query, '#'), '&')), Some(After(query, '#')))
  }

  /** decode_request, filling the parameter dict part by part. */
  method DecodeRequest(request: string) returns (r: Decoded)
    ensures r == Decode(request)
  {
    var query := After(request, '?');
    if query == "" {
      return Decoded(request, map[], None);
    }
    var path := Before(request, '?');
    var fragment := After(query, '#');
    var parts := SplitOn(Before(query, '#'), '&');
    var parameters: map<string, string> := map[];
    for i := 0 to |parts|
      invariant parameters == Parameters(parts[..i])
    {
      assert parts[..i + 1][..i] == parts[..i];
      parameters := parameters[Before(parts[i], '=') := After(parts[i], '=')];
    }
    assert parts[..|parts|] == parts;
    return Decoded(path, parameters, Some(fragment));
  }

  /**
   * Without a query (no '?', or nothing after the first '?') the whole
   * request is the path, there are no parameters and no fragment.
   */
  lemma DecodeNoQuery(request: string)
    ensures Decode(request).fragment.None? <==> '?' !in request || FindChar(request, '?') == |request| - 1
    ensures Decode(request).fragment.None? ==> Decode(request) == Decoded(request, map[], None)
  {
  }

  /** The first '?' of `path + "?" + rest` is the one after the path. */
  lemma QueryAfterPath(path: string, rest: string)
    requires '?' !in path
    ensures Before(path + "?" + rest, '?') == path && After(path + "?" + rest, '?') == rest
  {
    var s := path + "?" + rest;
    FindCharAt(s, '?', |path|);
    assert s[..|path|] == path && s[|path| + 1..] == rest;
  }

  /**
   * With a fragment: the path is the text before the first '?', the query
   * is what follows up to the first '#', and the fragment is the rest.
   */
  lemma DecodeWithFragment(path: string, query: string, fragment: string)
    requires '?' !in path && '#' !in query
    ensures Decode(path + "?" + query + "#" + fragment) ==
      Decoded(path, Parameters(SplitOn(query, '&')), Some(fragment))
  {
    var rest := query + "#" + fragment;
    assert path + "?" + query + "#" + fragment == path + "?" + rest;
    QueryAfterPath(path, rest);
    FindCharAt(rest, '#', |query|);
    assert rest[..|query|] == query && rest[|query| + 1..] == fragment;
  }

  /** Without a '#', the fragment is empty and the whole non-empty query holds the parameters. */
  lemma DecodeWithoutFragment(path: string, query: string)
    requires '?' !in path && '#' !in query && query != ""
    ensures Decode(path + "?" + query) == Decoded(path, Parameters(SplitOn(query, '&')), Some(""))
  {
    QueryAfterPath(path, query);
  }

  /** A query that is only a fragment still yields one parameter: the empty key with the empty value. */
  lemma EmptyQueryKey(path: string, fragment: string)
    requires '?' !in path
    ensures Decode(path + "?#" + fragment).parameters == map["" := ""]
  {
    assert path + "?#" + fragment == path + "?" + "" + "#" + fragment;
    DecodeWithFragment(path, "", fragment);
    assert SplitOn("", '&') == [""];
  }

  /** The parameters bind exactly the keys of the parts. */
  lemma {:induction false} ParametersKeys(parts: seq<string>)
    ensures forall k :: k in Parameters(parts) <==> exists i | 0 <= i < |parts| :: Before(parts[i], '=') == k
  {
    if parts != [] {
      var n := |parts| - 1;
      var init := parts[..n];
      ParametersKeys(init);
      forall k | k in Parameters(parts)
        ensures exists i | 0 <= i < |parts| :: Before(parts[i], '=') == k
      {
        if k != Before(parts[n], '=') {
          assert k in Parameters(init);
          var i :| 0 <= i < |init| && Before(init[i], '=') == k;
          assert Before(parts[i], '=') == k;
        }
      }
      forall k | exists i | 0 <= i < |parts| :: Before(parts[i], '=') == k
        ensures k in Parameters(parts)
      {
        var i :| 0 <= i < |parts| && Before(parts[i], '=') == k;
        if i < n {
          assert Before(init[i], '=') == k;
        }
      }
    }
  }

  /** A key is bound to the value of the last part with that key. */
  lemma {:induction false} ParametersLast(parts: seq<string>, i: nat)
    requires i < |parts|
    requires forall j | i < j < |parts| :: Before(parts[j], '=') != Before(parts[i], '=')
    ensures Before(parts[i], '=') in Parameters(parts)
    ensures Parameters(parts)[Before(parts[i], '=')] == After(parts[i], '=')
  {
    var n := |parts| - 1;
    if i < n {
      var init := parts[..n];
      assert init[i] == parts[i];
      ParametersLast(init, i);
    }
  }

  // ---------------------------------------------------------------------
  // Round trip with params_to_query
  // ---------------------------------------------------------------------

  /** The dict a sequence of key-value pairs builds, a later key overriding. */
  function PairsMap(params: seq<(string, string)>): map<string, string>
  {
    if params == [] then map[]
    else PairsMap(params[..|params| - 1])[params[|params| - 1].0 := params[|params| - 1].1]
  }

  /** Reading back the assignments of plain parameters rebuilds their dict. */
  lemma {:induction false} ParametersOfAssignments(params: seq<(string, string)>)
    requires MetricCollectorHandlers.PlainParams(params)
    ensures Parameters(MetricCollectorHandlers.Assignments(params)) == PairsMap(params)
  {
    if params != [] {
      var n := |params| - 1;
      var init := params[..n];
      var parts := MetricCollectorHandlers.Assignments(params);
      assert MetricCollectorHandlers.Assignments(init) == parts[..n];
      ParametersOfAssignments(init);
      var key, value := params[n].0, params[n].1;
      assert parts[n] == key + "=" + value;
      FindCharAt(parts[n], '=', |key|);
      assert parts[n][..|key|] == key && parts[n][|key| + 1..] == value;
    }
  }

  /** A join of parts free of `c` is free of `c`. */
  lemma {:induction false} JoinFree(parts: seq<string>, sep: string, c: char)
    requires c !in sep
    requires forall i | 0 <= i < |parts| :: c !in parts[i]
    ensures c !in Join(parts, sep)
    decreases |parts|
  {
    if |parts| > 1 {
      JoinFree(parts[1..], sep, c);
    }
  }

  /**
   * params_to_query and decode_request are inverse: a path without '?'
   * followed by the query of parameters free of '&' and '#' (and of '='
   * in keys) decodes to the path, the parameters' dict and an empty
   * fragment; with no parameters the path alone decodes with no fragment.
   */
  lemma QueryRoundTrip(path: string, params: seq<(string, string)>)
    requires '?' !in path && MetricCollectorHandlers.PlainParams(params)
    requires forall i | 0 <= i < |params| :: '#' !in params[i].0 && '#' !in params[i].1
    ensures params != [] ==>
      Decode(path + MetricCollectorHandlers.ParamsToQuery(params)) == Decoded(path, PairsMap(params), Some(""))
    ensures params == [] ==>
      Decode(path + MetricCollectorHandlers.ParamsToQuery(params)) == Decoded(path, map[], None)
  {
    if params != [] {
      var parts := MetricCollectorHandlers.Assignments(params);
      var query := Join(parts, "&");
      forall i | 0 <= i < |parts|
        ensures '#' !in parts[i]
      {
        assert parts[i] == params[i].0 + "=" + params[i].1;
      }
      JoinFree(parts, "&", '#');
      assert parts[0] == params[0].0 + "=" + params[0].1;
      assert |parts| == 1 || query == parts[0] + "&" + Join(parts[1..], "&");
      assert query != "";
      assert path + MetricCollectorHandlers.ParamsToQuery(params) == path + "?" + query;
      DecodeWithoutFragment(path, query);
      MetricCollectorHandlers.ParamsToQueryParts(params);
      assert MetricCollectorHandlers.ParamsToQuery(params)[1..] == query;
      ParametersOfAssignments(params);
    } else {
      assert path + MetricCollectorHandlers.ParamsToQuery(params) == path;
    }
  }

  // ---------------------------------------------------------------------
  // do_GET: handler lookup
  // ---------------------------------------------------------------------

  /**
   * The keys do_GET tries from `offset` on: path[0:offset], then the text
   * before each earlier '/', right to left, until rfind finds none.
   */
  function Tries(path: string, offset: int): seq<string>
    requires offset <= |path|
    decreases offset + 1
  {
    if offset < 0 then []
    else [path[..offset]] + Tries(path, RFindChar(path[..offset], '/'))
  }

  /** Every key do_GET tries for `path`, in order. */
  function Candidates(path: string): seq<string>
  {
    Tries(path, |path|)
  }

  /** A key do_GET can try: the whole path, or the text before one of its '/'. */
  predicate Bounded(path: string, key: string)
  {
    key == path || exists i | 0 <= i < |path| && path[i] == '/' :: key == path[..i]
  }

  /** The handler of the first key of `keys` that is registered. */
  function FirstIn<H>(table: map<string, H>, keys: seq<string>): Option<H>
  {
    if keys == [] then None
    else if keys[0] in table then Some(table[keys[0]])
    else FirstIn(table, keys[1..])
  }

  /** The handler do_GET dispatches `path` to, if any. */
  function Route<H>(table: map<string, H>, path: string): Option<H>
  {
    FirstIn(table, Candidates(path))
  }

  /** The keys tried from `offset` are path[0:offset] and the texts before the '/'s ahead of it. */
  lemma {:induction false} TriesMembers(path: string, offset: int)
    requires -1 <= offset <= |path|
    ensures forall key :: key in Tries(path, offset) <==>
      (offset >= 0 && key == path[..offset]) || exists i | 0 <= i < offset && path[i] == '/' :: key == path[..i]
    decreases offset + 1
  {
    if offset >= 0 {
      var prefix := path[..offset];
      var next := RFindChar(prefix, '/');
      TriesMembers(path, next);
      forall key | exists i | 0 <= i < offset && path[i] == '/' :: key == path[..i]
        ensures key in Tries(path, next)
      {
        var i :| 0 <= i < offset && path[i] == '/' && key == path[..i];
        assert prefix[i] == '/';
        assert i < next || (i == next && next >= 0);
      }
      forall key | key in Tries(path, next) && key != path[..offset]
        ensures exists i | 0 <= i < offset && path[i] == '/' :: key == path[..i]
      {
        if next >= 0 && key == path[..next] {
          assert prefix[next] == '/';
          assert path[next] == '/';
        }
      }
    }
  }

  /** The tried keys grow strictly shorter, each a prefix of the path. */
  lemma {:induction false} TriesShrink(path: string, offset: int)
    requires -1 <= offset <= |path|
    ensures var t := Tries(path, offset);
      (forall j | 0 <= j < |t| :: |t[j]| <= offset && t[j] == path[..|t[j]|])
      && forall j | 0 <= j < |t| - 1 :: |t[j + 1]| < |t[j]|
    decreases offset + 1
  {
    if offset >= 0 {
      var next := RFindChar(path[..offset], '/');
      TriesShrink(path, next);
      var t := Tries(path, offset);
      assert t == [path[..offset]] + Tries(path, next);
      forall j | 0 <= j < |t| - 1
        ensures |t[j + 1]| < |t[j]|
      {
        if j == 0 {
          assert t[1] == Tries(path, next)[0];
        } else {
          assert t[j] == Tries(path, next)[j - 1];
        }
      }
    }
  }

  /** Exactly the bounded keys of the path are tried, longest first. */
  lemma CandidatesSpec(path: string)
    ensures forall key :: key in Candidates(path) <==> Bounded(path, key)
    ensures forall j | 0 <= j < |Candidates(path)| - 1 :: |Candidates(path)[j + 1]| < |Candidates(path)[j]|
  {
    TriesMembers(path, |path|);
    TriesShrink(path, |path|);
    var c := Candidates(path);
    assert c == Tries(path, |path|);
    assert path[..|path|] == path;
    forall j | 0 <= j < |c| - 1
      ensures |c[j + 1]| < |c[j]|
    {
    }
    forall key
      ensures key in Candidates(path) <==> Bounded(path, key)
    {
      if key in Candidates(path) && key != path {
        var i :| 0 <= i < |path| && path[i] == '/' && key == path[..i];
      }
    }
  }

  /** The first registered key of a sequence is the one whose handler is returned. */
  lemma {:induction false} FirstInSpec<H>(table: map<string, H>, keys: seq<string>)
    ensures FirstIn(table, keys).None? <==> forall j | 0 <= j < |keys| :: keys[j] !in table
    ensures FirstIn(table, keys).Some? ==> exists j | 0 <= j < |keys| ::
      keys[j] in table && FirstIn(table, keys).value == table[keys[j]] && forall l | 0 <= l < j :: keys[l] !in table
  {
    if keys != [] && keys[0] !in table {
      FirstInSpec(table, keys[1..]);
      if FirstIn(table, keys).Some? {
        var j :| 0 <= j < |keys| - 1 && keys[1..][j] in table && FirstIn(table, keys[1..]).value == table[keys[1..][j]]
          && forall l | 0 <= l < j :: keys[1..][l] !in table;
        assert keys[j + 1] in table;
      }
    }
  }

  /** A path is unknown exactly when none of its bounded keys is registered. */
  lemma RouteNone<H>(table: map<string, H>, path: string)
    ensures Route(table, path).None? <==> forall key | Bounded(path, key) :: key !in table
  {
    var c := Candidates(path);
    CandidatesSpec(path);
    FirstInSpec(table, c);
    if Route(table, path).None? {
      forall key | Bounded(path, key)
        ensures key !in table
      {
        var j :| 0 <= j < |c| && c[j] == key;
      }
    } else {
      var j :| 0 <= j < |c| && c[j] in table;
      assert Bounded(path, c[j]);
    }
  }

  /** A known path goes to the handler of its longest registered bounded key. */
  lemma RouteLongest<H>(table: map<string, H>, path: string)
    requires Route(table, path).Some?
    ensures exists key | Bounded(path, key) && key in table ::
      Route(table, path).value == table[key] && forall other | Bounded(path, other) && other in table :: |other| <= |key|
  {
    var c := Candidates(path);
    CandidatesSpec(path);
    FirstInSpec(table, c);
    var j :| 0 <= j < |c| && c[j] in table && Route(table, path).value == table[c[j]] && forall l | 0 <= l < j :: c[l] !in table;
    forall other | Bounded(path, other) && other in table
      ensures |other| <= |c[j]|
    {
      var l :| 0 <= l < |c| && c[l] == other;
      ShrinkAcross(c, j, l);
    }
    assert Bounded(path, c[j]);
  }

  /** In a sequence of strictly shrinking lengths, a later element is shorter. */
  lemma {:induction false} ShrinkAcross(c: seq<string>, j: nat, l: nat)
    requires j <= l < |c|
    requires forall m | 0 <= m < |c| - 1 :: |c[m + 1]| < |c[m]|
    ensures |c[l]| <= |c[j]|
    decreases l - j
  {
    if j < l {
      ShrinkAcross(c, j, l - 1);
    }
  }

  /** A path registered as it is goes to its own handler. */
  lemma RouteExact<H>(table: map<string, H>, path: string)
    requires path in table
    ensures Route(table, path) == Some(table[path])
  {
    assert path[..|path|] == path;
  }

  /**
   * The key '/' is tried only for the path '/' itself or a path starting
   * with '//'; for any other path a handler registered at '/' is never
   * reached.
   */
  lemma RootKey(path: string)
    ensures Bounded(path, "/") <==> path == "/" || (|path| >= 2 && path[..2] == "//")
  {
    if |path| >= 2 && path[..2] == "//" {
      assert path[1] == '/' && path[..1] == "/";
    }
  }

  // ---------------------------------------------------------------------
  // The handler registry and do_GET
  // ---------------------------------------------------------------------

  /** What do_GET does: respond with a code and a body, or call a handler. */
  datatype Outcome<H> =
    | Reply(code: int, body: string)
    | Dispatch(handler: H, path: string, parameters: map<string, string>, fragment: Option<string>)

  /** HttpServer.PATH_HANDLERS, the registry every server and request handler shares. */
  class PathHandlers<H> {
    var table: map<string, H>

    /** The class-level registry starts empty. */
    constructor()
      ensures table == map[]
    {
      table := map[];
    }

    /** HttpServer.__init__: the given handlers are merged in, overriding keys already registered. */
    method Register(handlers: Option<map<string, H>>)
      modifies this
      ensures handlers.None? ==> table == old(table)
      ensures handlers.Some? ==> table == old(table) + handlers.value
      ensures handlers.Some? ==> forall key | key in handlers.value :: table[key] == handlers.value[key]
    {
      if handlers.Some? {
        table := table + handlers.value;
      }
    }

    /** The loop of do_GET: try the path, then cut it at each '/' from the right, until a handler is found. */
    method Lookup(path: string) returns (r: Option<H>)
      ensures r == Route(table, path)
    {
      var offset: int := |path|;
      var handler: Option<H> := None;
      while handler.None? && offset >= 0
        invariant -1 <= offset <= |path|
        invariant handler.None? ==> Route(table, path) == FirstIn(table, Tries(path, offset))
        invariant handler.Some? ==> handler == Route(table, path)
        decreases offset + 1 + (if handler.None? then 1 else 0)
      {
        var key := path[..offset];
        handler := if key in table then Some(table[key]) else None;
        if handler.None? {
          offset := RFindChar(path[..offset], '/');
        }
      }
      return handler;
    }

    /**
     * do_GET: decode the request, and answer 404 'Unknown' when no handler
     * is found, or call the handler with the path, parameters and fragment.
     */
    method DoGet(request: string) returns (o: Outcome<H>)
      ensures o.Reply? <==> Route(table, Decode(request).path).None?
      ensures o.Reply? ==> o == Reply(404, "Unknown")
      ensures o.Dispatch? ==> (o.handler == Route(table, Decode(request).path).value
        && (o.path, o.parameters, o.fragment) == (Decode(request).path, Decode(request).parameters, Decode(request).fragment))
    {
      var d := DecodeRequest(request);
      var handler := Lookup(d.path);
      if handler.None? {
        return Reply(404, "Unknown");
      }
      return Dispatch(handler.value, d.path, d.parameters, d.fragment);
    }
  }
}
