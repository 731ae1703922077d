/**
 * The data reshaping behind the metric collector's web pages: whether a
 * request accepts HTML, the query text of a parameter dict, and the two
 * inversions of a type map that the descriptor-usage page renders (metric
 * name to service to tag dicts, and tag name to one value set per service
 * column), plus the TagValue wrapper.
 */
module MetricCollectorHandlers {
  import opened Wrappers
  import opened Text
  import opened SpectatorClient

  // ---------------------------------------------------------------------
  // accepts_html
  // ---------------------------------------------------------------------

  /**
   * A request as accepts_html sees it: its headers by lower-case name, or
   * None when it has no `headers` attribute.
   */
  datatype Request = Request(headers: Option<map<string, string>>)

  /**
   * accepts_html, whose three answers are False, None and a bool: `None`
   * here is Python's None, `Some(b)` the bool `b`.
   */
  function AcceptsHtml(request: Request): (r: Option<bool>)
    ensures request.headers.None? ==> r == Some(false)
    ensures request.headers.Some? ==>
      (r.None? <==> "accept" !in request.headers.value || request.headers.value["accept"] == "")
  {
    if request.headers.None? then Some(false)
    else if "accept" !in request.headers.value || request.headers.value["accept"] == "" then None
    else Some("text/html" in SplitOn(request.headers.value["accept"], ','))
  }

  /** A request whose accept header is `accept`. */
  function Accepting(accept: string): Request
  {
    Request(Some(map["accept" := accept]))
  }

  /**
   * An accept header listing comma-free items accepts HTML exactly when
   * 'text/html' is one of the items, with no trimming around them.
   */
  lemma AcceptsHtmlItems(items: seq<string>)
    requires |items| >= 1 && Join(items, [',']) != ""
    requires forall i | 0 <= i < |items| :: ',' !in items[i]
    ensures AcceptsHtml(Accepting(Join(items, [',']))) == Some("text/html" in items)
  {
    JoinSplitOn(items, ',');
  }

  /** 'text/html' after a comma and a space is not recognised. */
  lemma SpacedItemIsMissed()
    ensures AcceptsHtml(Accepting("text/plain, text/html")) == Some(false)
  {
    var items := ["text/plain", " text/html"];
    assert Join(items, [',']) == "text/plain, text/html";
    AcceptsHtmlItems(items);
  }

  // ---------------------------------------------------------------------
  // params_to_query
  // ---------------------------------------------------------------------

  /** The 'k=v' texts of the parameters, in order. */
  function Assignments(params: seq<(string, string)>): (r: seq<string>)
    ensures |r| == |params|
  {
    seq(|params|, i requires 0 <= i < |params| => params[i].0 + "=" + params[i].1)
  }

  /**
   * params_to_query over the parameters in the dict's iteration order:
   * nothing for no parameters, else '?' and the assignments joined by '&'.
   */
  function ParamsToQuery(params: seq<(string, string)>): (q: string)
    ensures q == "" <==> params == []
    ensures q != "" ==> q[0] == '?'
  {
    if params == [] then "" else "?" + Join(Assignments(params), "&")
  }

  /** The parameters have no '&' and their keys no '='. */
  predicate PlainParams(params: seq<(string, string)>)
  {
    forall i | 0 <= i < |params| :: '&' !in params[i].0 && '&' !in params[i].1 && '=' !in params[i].0
  }

  /**
   * The query text splits at '&' into the assignments, and each assignment
   * splits at its first '=' into the key and the value; nothing is escaped.
   */
  lemma ParamsToQueryParts(params: seq<(string, string)>)
    requires params != [] && PlainParams(params)
    ensures var q := ParamsToQuery(params);
      SplitOn(q[1..], '&') == Assignments(params)
      && forall i | 0 <= i < |params| ::
        Before(Assignments(params)[i], '=') == params[i].0 && After(Assignments(params)[i], '=') == params[i].1
  {
    var parts := Assignments(params);
    forall i | 0 <= i < |params|
      ensures '&' !in parts[i]
      ensures Before(parts[i], '=') == params[i].0 && After(parts[i], '=') == params[i].1
    {
      var key, value := params[i].0, params[i].1;
      assert parts[i] == key + "=" + value;
      FindCharAt(parts[i], '=', |key|);
      assert parts[i][..|key|] == key && parts[i][|key| + 1..] == value;
    }
    JoinSplitOn(parts, '&');
    assert ParamsToQuery(params)[1..] == Join(parts, "&");
  }

  // ---------------------------------------------------------------------
  // to_service_tag_map
  // ---------------------------------------------------------------------

  /** A point's tags as a dict from tag name to value; `{None: None}` marks a point without tags. */
  type TagMap = map<Option<string>, Option<string>>

  /** The dict comprehension over a point's tags: a later binding of a name overrides an earlier one. */
  function TagDict(tags: seq<Tag>): TagMap
  {
    if tags == [] then map[]
    else TagDict(tags[..|tags| - 1])[Some(tags[|tags| - 1].key) := Some(tags[|tags| - 1].value)]
  }

  /** The tag dict of a point, `{None: None}` when it has no tags. */
  function TagMapOf(tags: seq<Tag>): TagMap
  {
    var d := TagDict(tags);
    if d == map[] then map[None := None] else d
  }

  /** A point's tag dict maps exactly its tag names. */
  lemma {:induction false} TagDictKeys(tags: seq<Tag>)
    ensures None !in TagDict(tags)
    ensures forall k :: Some(k) in TagDict(tags) <==> exists i | 0 <= i < |tags| :: tags[i].key == k
  {
    if tags != [] {
      var n := |tags| - 1;
      var init := tags[..n];
      TagDictKeys(init);
      forall k | Some(k) in TagDict(tags)
        ensures exists i | 0 <= i < |tags| :: tags[i].key == k
      {
        if k != tags[n].key {
          var i :| 0 <= i < |init| && init[i].key == k;
          assert tags[i].key == k;
        }
      }
      forall k | exists i | 0 <= i < |tags| :: tags[i].key == k
        ensures Some(k) in TagDict(tags)
      {
        var i :| 0 <= i < |tags| && tags[i].key == k;
        if i < n {
          assert init[i].key == k;
        }
      }
    }
  }

  /** A name is bound to the value of the last tag with that name. */
  lemma {:induction false} TagDictLast(tags: seq<Tag>, i: nat)
    requires i < |tags|
    requires forall j | i < j < |tags| :: tags[j].key != tags[i].key
    ensures Some(tags[i].key) in TagDict(tags) && TagDict(tags)[Some(tags[i].key)] == Some(tags[i].value)
  {
    var n := |tags| - 1;
    if i < n {
      var init := tags[..n];
      assert init[i] == tags[i];
      TagDictLast(init, i);
    }
  }

  /** A point without tags is recorded as `{None: None}`; a tagged point by its tag dict. */
  lemma TagMapOfSpec(tags: seq<Tag>)
    ensures tags == [] ==> TagMapOf(tags) == map[None := None]
    ensures tags != [] ==> TagMapOf(tags) == TagDict(tags) && None !in TagMapOf(tags)
  {
    if tags != [] {
      TagDictKeys(tags);
      assert Some(tags[0].key) in TagDict(tags);
    }
  }

  /** Whether a metric's values are present and each has its tags. */
  predicate PointsTagged(values: Option<seq<Instance>>)
  {
    values.Some? && forall i | 0 <= i < |values.value| :: values.value[i].tags.Some?
  }

  /** The tag dict of each point, in order. */
  function PointTags(values: seq<Instance>): (r: seq<TagMap>)
    requires forall i | 0 <= i < |values| :: values[i].tags.Some?
    ensures |r| == |values|
  {
    seq(|values|, i requires 0 <= i < |values| => TagMapOf(values[i].tags.value))
  }

  /** Whether every metric of every service can be tabulated, for the names in `keys`. */
  predicate TabulableOn(tm: TypeMapping, keys: set<string>)
  {
    forall key, service | key in tm && key in keys && service in tm[key] :: PointsTagged(tm[key][service].values)
  }

  /** Whether every metric of every service can be tabulated. */
  predicate Tabulable(tm: TypeMapping)
  {
    TabulableOn(tm, tm.Keys)
  }

  /** The services of one metric name that have points, with their points' tag dicts. */
  function ColumnOf(entry: map<string, Metric>): map<string, seq<TagMap>>
    requires forall service | service in entry :: PointsTagged(entry[service].values)
  {
    map service | service in entry && PointsTagged(entry[service].values) && entry[service].values.value != []
      :: PointTags(entry[service].values.value)
  }

  /** The service tag map restricted to the names in `keys`. */
  function ServiceTagsOn(tm: TypeMapping, keys: set<string>): map<string, map<string, seq<TagMap>>>
    requires TabulableOn(tm, keys)
  {
    map key | key in tm && key in keys && ColumnOf(tm[key]) != map[] :: ColumnOf(tm[key])
  }

  /** The service tag map: the metric names that have some point, with their columns. */
  function ServiceTags(tm: TypeMapping): map<string, map<string, seq<TagMap>>>
    requires Tabulable(tm)
  {
    ServiceTagsOn(tm, tm.Keys)
  }

  /** The services listed under the names in `keys`. */
  function ActiveOn(tm: TypeMapping, keys: set<string>): set<string>
  {
    set key, service | key in tm && key in keys && service in tm[key] :: service
  }

  /** Every service any metric name lists. */
  function ActiveServices(tm: TypeMapping): set<string>
  {
    ActiveOn(tm, tm.Keys)
  }

  /** Taking one more metric name adds its column when it has one. */
  lemma ServiceTagsStep(tm: TypeMapping, done: set<string>, key: string)
    requires key in tm && TabulableOn(tm, done + {key})
    ensures TabulableOn(tm, done)
    ensures ServiceTagsOn(tm, done + {key}) ==
      if ColumnOf(tm[key]) != map[] then ServiceTagsOn(tm, done)[key := ColumnOf(tm[key])] else ServiceTagsOn(tm, done)
  {
    var x := ServiceTagsOn(tm, done + {key});
    var y := if ColumnOf(tm[key]) != map[] then ServiceTagsOn(tm, done)[key := ColumnOf(tm[key])] else ServiceTagsOn(tm, done);
    assert x.Keys == y.Keys;
  }

  /** Taking one more metric name adds its services to the active ones. */
  lemma ActiveStep(tm: TypeMapping, done: set<string>, key: string)
    requires key in tm
    ensures ActiveOn(tm, done + {key}) == ActiveOn(tm, done) + tm[key].Keys
  {
    forall service | service in tm[key]
      ensures service in ActiveOn(tm, done + {key})
    {
      assert key in done + {key};
    }
  }

  /** The tag dicts of one service's points. */
  method TagPoints(values: Option<seq<Instance>>) returns (r: Result<seq<TagMap>>)
    ensures r.Ok? <==> PointsTagged(values)
    ensures r.Raise? ==> r.error == NotIterable
    ensures r.Ok? ==> r.value == PointTags(values.value)
  {
    if values.None? {
      return Raise(NotIterable);
    }
    var points := values.value;
    var maps: seq<TagMap> := [];
    for i := 0 to |points|
      invariant |maps| == i
      invariant forall j | 0 <= j < i :: points[j].tags.Some? && maps[j] == TagMapOf(points[j].tags.value)
    {
      if points[i].tags.None? {
        return Raise(NotIterable);
      }
      maps := maps + [TagMapOf(points[i].tags.value)];
    }
    return Ok(maps);
  }

  /** The services loop for one metric name. */
  method TagColumn(entry: map<string, Metric>) returns (r: Result<map<string, seq<TagMap>>>)
    ensures r.Ok? <==> forall service | service in entry :: PointsTagged(entry[service].values)
    ensures r.Raise? ==> r.error == NotIterable
    ensures r.Ok? ==> r.value == ColumnOf(entry)
  {
    var column: map<string, seq<TagMap>> := map[];
    var left := entry.Keys;
    while left != {}
      invariant left <= entry.Keys
      invariant forall service | service in entry && service !in left :: PointsTagged(entry[service].values)
      invariant forall service :: service in column <==>
        service in entry && service !in left && entry[service].values.value != []
      invariant forall service | service in column :: column[service] == PointTags(entry[service].values.value)
      decreases left
    {
      var service :| service in left;
      var maps := TagPoints(entry[service].values);
      if maps.Raise? {
        return Raise(maps.error);
      }
      if maps.value != [] {
        column := column[service := maps.value];
      }
      left := left - {service};
    }
    return Ok(column);
  }

  /**
   * to_service_tag_map: for each metric name, each service with points and
   * the tag dicts of its points in order, together with every service seen;
   * a metric without values or a point without tags raises TypeError.
   */
  method ToServiceTagMap(tm: TypeMapping) returns (r: Result<(map<string, map<string, seq<TagMap>>>, set<string>)>)
    ensures r.Ok? <==> Tabulable(tm)
    ensures r.Raise? ==> r.error == NotIterable
    ensures r.Ok? ==> r.value == (ServiceTags(tm), ActiveServices(tm))
  {
    var serviceTagMap: map<string, map<string, seq<TagMap>>> := map[];
    var active: set<string> := {};
    var left := tm.Keys;
    ghost var done: set<string> := {};
    assert ActiveOn(tm, done) == {};
    while left != {}
      invariant left <= tm.Keys && done == tm.Keys - left
      invariant TabulableOn(tm, done)
      invariant serviceTagMap == ServiceTagsOn(tm, done)
      invariant active == ActiveOn(tm, done)
      decreases left
    {
      var key :| key in left;
      var column := TagColumn(tm[key]);
      ActiveStep(tm, done, key);
      active := active + tm[key].Keys;
      if column.Raise? {
        return Raise(column.error);
      }
      assert TabulableOn(tm, done + {key});
      ServiceTagsStep(tm, done, key);
      if column.value != map[] {
        serviceTagMap := serviceTagMap[key := column.value];
      }
      done := done + {key};
      left := left - {key};
    }
    assert done == tm.Keys;
    return Ok((serviceTagMap, active));
  }

  /**
   * A metric name appears exactly when some service has a point for it, and
   * then each such service lists one tag dict per point, in order.
   */
  lemma ServiceTagsSpec(tm: TypeMapping, key: string)
    requires Tabulable(tm) && key in tm
    ensures key in ServiceTags(tm) <==>
      exists service | service in tm[key] :: tm[key][service].values.value != []
    ensures key in ServiceTags(tm) ==> forall service ::
      (service in ServiceTags(tm)[key] <==> service in tm[key] && tm[key][service].values.value != []) &&
      (service in ServiceTags(tm)[key] ==>
        |ServiceTags(tm)[key][service]| == |tm[key][service].values.value| &&
        forall i | 0 <= i < |tm[key][service].values.value| ::
          ServiceTags(tm)[key][service][i] == TagMapOf(tm[key][service].values.value[i].tags.value))
  {
    if exists service | service in tm[key] :: tm[key][service].values.value != [] {
      var service :| service in tm[key] && tm[key][service].values.value != [];
      assert service in ColumnOf(tm[key]);
    }
  }

  /**
   * Every service listed under a metric name is active, and a service is
   * active even when none of its metrics has a point.
   */
  lemma ActiveServicesSpec(tm: TypeMapping)
    requires Tabulable(tm)
    ensures forall key, service | key in ServiceTags(tm) && service in ServiceTags(tm)[key] :: service in ActiveServices(tm)
    ensures forall key, service | key in tm && service in tm[key] :: service in ActiveServices(tm)
  {
  }

  // ---------------------------------------------------------------------
  // to_tag_service_map
  // ---------------------------------------------------------------------

  /** One `.add` of to_tag_service_map: a tag name, a column and a value. */
  type Entry = (Option<string>, nat, Option<string>)

  /** The tag names among the entries. */
  function NamesIn(added: set<Entry>): set<Option<string>>
  {
    set x | x in added :: x.0
  }

  /** The values added for `tag` in column `c`. */
  function Cell(added: set<Entry>, tag: Option<string>, c: int): set<Option<string>>
  {
    set x | x in added && x.0 == tag && x.1 == c :: x.2
  }

  /** The tag service map holding exactly the given entries, `width` columns per tag name. */
  function Build(width: nat, added: set<Entry>): map<Option<string>, seq<set<Option<string>>>>
  {
    map tag | tag in NamesIn(added) :: seq(width, c => Cell(added, tag, c))
  }

  /** The entries of one tag dict in column `c`. */
  function GroupEntries(c: nat, group: TagMap): set<Entry>
  {
    set tag | tag in group :: (tag, c, group[tag])
  }

  /** The entries of one service's tag dicts in column `c`. */
  function ServiceEntries(c: nat, groups: seq<TagMap>): set<Entry>
  {
    set i, tag | 0 <= i < |groups| && tag in groups[i] :: (tag, c, groups[i][tag])
  }

  /** Every entry of the service tag map, each service in its column. */
  function AllEntries(columns: map<string, nat>, stm: map<string, seq<TagMap>>): set<Entry>
  {
    set s, i, tag | s in stm && s in columns && 0 <= i < |stm[s]| && tag in stm[s][i] :: (tag, columns[s], stm[s][i][tag])
  }

  /** Whether a service has some tag binding to add. */
  predicate HasTags(groups: seq<TagMap>)
  {
    exists i | 0 <= i < |groups| :: groups[i] != map[]
  }

  /** Whether every service has a column, within range when it has tags to add. */
  predicate Mappable(columns: map<string, nat>, stm: map<string, seq<TagMap>>)
  {
    forall s | s in stm :: s in columns && (HasTags(stm[s]) ==> columns[s] < |columns|)
  }

  const OutOfRange := IndexError("list index out of range")

  /** A name with no entry has empty cells. */
  lemma CellEmpty(added: set<Entry>, tag: Option<string>, c: nat)
    ensures tag !in NamesIn(added) ==> Cell(added, tag, c) == {}
  {
    if Cell(added, tag, c) != {} {
      var v :| v in Cell(added, tag, c);
      assert (tag, c, v) in added;
    }
  }

  /** One `.add` extends one cell by the value. */
  lemma {:induction false} AddEntry(width: nat, added: set<Entry>, tag: Option<string>, c: nat, v: Option<string>)
    requires c < width
    ensures var before := Build(width, added);
      var row := if tag in before then before[tag] else seq(width, _ => {});
      Build(width, added + {(tag, c, v)}) == before[tag := row[c := row[c] + {v}]]
  {
    var before := Build(width, added);
    var row := if tag in before then before[tag] else seq(width, _ => {});
    var x := Build(width, added + {(tag, c, v)});
    var y := before[tag := row[c := row[c] + {v}]];
    assert NamesIn(added + {(tag, c, v)}) == NamesIn(added) + {tag};
    assert x.Keys == y.Keys;
    forall t | t in x
      ensures x[t] == y[t]
    {
      forall d | 0 <= d < width
        ensures x[t][d] == y[t][d]
      {
        CellEmpty(added, t, d);
        assert Cell(added + {(tag, c, v)}, t, d) == if t == tag && d == c then Cell(added, t, d) + {v} else Cell(added, t, d);
      }
    }
  }

  /** The inner loop: the bindings of one tag dict added in column `c`. */
  method AddGroup(tsm: map<Option<string>, seq<set<Option<string>>>>, width: nat, c: nat, group: TagMap, ghost added: set<Entry>)
    returns (r: Result<map<Option<string>, seq<set<Option<string>>>>>)
    requires tsm == Build(width, added)
    ensures r.Ok? <==> group == map[] || c < width
    ensures r.Raise? ==> r.error == OutOfRange
    ensures r.Ok? ==> r.value == Build(width, added + GroupEntries(c, group))
  {
    var result := tsm;
    var left := group.Keys;
    ghost var done: set<Entry> := {};
    assert added + done == added;
    while left != {}
      invariant left <= group.Keys
      invariant left == group.Keys || c < width
      invariant done == set tag | tag in group && tag !in left :: (tag, c, group[tag])
      invariant result == Build(width, added + done)
      decreases left
    {
      var tag :| tag in left;
      var row := if tag in result then result[tag] else seq(width, _ => {});
      if c >= width {
        return Raise(OutOfRange);
      }
      AddEntry(width, added + done, tag, c, group[tag]);
      result := result[tag := row[c := row[c] + {group[tag]}]];
      done := done + {(tag, c, group[tag])};
      assert added + done == (added + (done - {(tag, c, group[tag])})) + {(tag, c, group[tag])};
      left := left - {tag};
    }
    assert done == GroupEntries(c, group);
    return Ok(result);
  }

  /** The tag-dict loop for one service in column `c`. */
  method AddService(tsm: map<Option<string>, seq<set<Option<string>>>>, width: nat, c: nat, groups: seq<TagMap>, ghost added: set<Entry>)
    returns (r: Result<map<Option<string>, seq<set<Option<string>>>>>)
    requires tsm == Build(width, added)
    ensures r.Ok? <==> !HasTags(groups) || c < width
    ensures r.Raise? ==> r.error == OutOfRange
    ensures r.Ok? ==> r.value == Build(width, added + ServiceEntries(c, groups))
  {
    var result := tsm;
    assert groups[..0] == [];
    assert added + ServiceEntries(c, groups[..0]) == added;
    for i := 0 to |groups|
      invariant forall j | 0 <= j < i :: groups[j] == map[] || c < width
      invariant result == Build(width, added + ServiceEntries(c, groups[..i]))
    {
      var next := AddGroup(result, width, c, groups[i], added + ServiceEntries(c, groups[..i]));
      if next.Raise? {
        return next;
      }
      ServiceEntriesStep(c, groups, i);
      assert added + ServiceEntries(c, groups[..i + 1]) == added + ServiceEntries(c, groups[..i]) + GroupEntries(c, groups[i]);
      result := next.value;
    }
    assert groups[..|groups|] == groups;
    return Ok(result);
  }

  /** Taking one more tag dict adds its entries. */
  lemma ServiceEntriesStep(c: nat, groups: seq<TagMap>, i: nat)
    requires i < |groups|
    ensures ServiceEntries(c, groups[..i + 1]) == ServiceEntries(c, groups[..i]) + GroupEntries(c, groups[i])
  {
    var prefix := groups[..i + 1];
    assert forall j | 0 <= j < i :: prefix[j] == groups[..i][j];
    forall x | x in ServiceEntries(c, prefix)
      ensures x in ServiceEntries(c, groups[..i]) + GroupEntries(c, groups[i])
    {
      var j, tag :| 0 <= j < |prefix| && tag in prefix[j] && x == (tag, c, prefix[j][tag]);
      if j < i {
        assert groups[..i][j] == prefix[j];
      }
    }
    forall x | x in ServiceEntries(c, groups[..i])
      ensures x in ServiceEntries(c, prefix)
    {
      var j, tag :| 0 <= j < i && tag in groups[..i][j] && x == (tag, c, groups[..i][j][tag]);
      assert prefix[j] == groups[..i][j];
    }
    forall x | x in GroupEntries(c, groups[i])
      ensures x in ServiceEntries(c, prefix)
    {
      var tag :| tag in groups[i] && x == (tag, c, groups[i][tag]);
      assert prefix[i] == groups[i];
    }
  }

  /** The entries of the services taken so far. */
  function EntriesOf(columns: map<string, nat>, stm: map<string, seq<TagMap>>, done: set<string>): set<Entry>
  {
    set s, i, tag | s in stm && s in done && s in columns && 0 <= i < |stm[s]| && tag in stm[s][i] :: (tag, columns[s], stm[s][i][tag])
  }

  /** Taking one more service adds its entries. */
  lemma EntriesOfStep(columns: map<string, nat>, stm: map<string, seq<TagMap>>, done: set<string>, s: string)
    requires s in stm && s in columns
    ensures EntriesOf(columns, stm, done + {s}) == EntriesOf(columns, stm, done) + ServiceEntries(columns[s], stm[s])
  {
    var x := EntriesOf(columns, stm, done + {s});
    var y := EntriesOf(columns, stm, done) + ServiceEntries(columns[s], stm[s]);
    forall e | e in y
      ensures e in x
    {
      if e !in EntriesOf(columns, stm, done) {
        var i, tag :| 0 <= i < |stm[s]| && tag in stm[s][i] && e == (tag, columns[s], stm[s][i][tag]);
      }
    }
  }

  /**
   * to_tag_service_map: one set per column for every tag name, each value
   * in its service's column; a service without a column raises KeyError
   * and a column past the end raises IndexError.
   */
  method ToTagServiceMap(columns: map<string, nat>, stm: map<string, seq<TagMap>>)
    returns (r: Result<map<Option<string>, seq<set<Option<string>>>>>)
    ensures r.Ok? <==> Mappable(columns, stm)
    ensures r.Raise? ==> r.error == OutOfRange || exists s | s in stm && s !in columns :: r.error == KeyError(s)
    ensures r.Ok? ==> r.value == Build(|columns|, AllEntries(columns, stm))
  {
    var width := |columns|;
    var result: map<Option<string>, seq<set<Option<string>>>> := map[];
    var left := stm.Keys;
    assert EntriesOf(columns, stm, {}) == {};
    assert result == Build(width, {});
    while left != {}
      invariant left <= stm.Keys
      invariant forall s | s in stm && s !in left :: s in columns && (HasTags(stm[s]) ==> columns[s] < width)
      invariant result == Build(width, EntriesOf(columns, stm, stm.Keys - left))
      decreases left
    {
      var s :| s in left;
      if s !in columns {
        return Raise(KeyError(s));
      }
      var index := columns[s];
      var next := AddService(result, width, index, stm[s], EntriesOf(columns, stm, stm.Keys - left));
      if next.Raise? {
        return next;
      }
      EntriesOfStep(columns, stm, stm.Keys - left, s);
      assert stm.Keys - left + {s} == stm.Keys - (left - {s});
      result := next.value;
      left := left - {s};
    }
    assert EntriesOf(columns, stm, stm.Keys - left) == AllEntries(columns, stm);
    return Ok(result);
  }

  /**
   * The tag service map has a row for exactly the tag names some service
   * binds, each with one set per column, and a value is in a row's set for
   * column c exactly when a service in column c binds the tag to it; the
   * other sets stay empty.
   */
  lemma TagServiceMapSpec(columns: map<string, nat>, stm: map<string, seq<TagMap>>, tag: Option<string>)
    requires Mappable(columns, stm)
    ensures var m := Build(|columns|, AllEntries(columns, stm));
      (tag in m <==> exists s, i | s in stm && 0 <= i < |stm[s]| :: tag in stm[s][i])
      && (tag in m ==> (|m[tag]| == |columns| &&
        forall c, v | 0 <= c < |columns| :: v in m[tag][c] <==>
          exists s, i | s in stm && columns[s] == c && 0 <= i < |stm[s]| :: tag in stm[s][i] && stm[s][i][tag] == v))
  {
    var all := AllEntries(columns, stm);
    if exists s, i | s in stm && 0 <= i < |stm[s]| :: tag in stm[s][i] {
      var s, i :| s in stm && 0 <= i < |stm[s]| && tag in stm[s][i];
      assert (tag, columns[s], stm[s][i][tag]) in all;
    }
    forall c, v | 0 <= c < |columns| && (exists s, i | s in stm && columns[s] == c && 0 <= i < |stm[s]| :: tag in stm[s][i] && stm[s][i][tag] == v)
      ensures v in Cell(all, tag, c)
    {
      var s, i :| s in stm && columns[s] == c && 0 <= i < |stm[s]| && tag in stm[s][i] && stm[s][i][tag] == v;
      assert (tag, c, v) in all;
    }
  }

  // ---------------------------------------------------------------------
  // TagValue
  // ---------------------------------------------------------------------

  /** A tag as a hashable value. */
  datatype TagValue = TagValue(key: string, value: string)
  {
    /** `__eq__`: the same key and the same value. */
    predicate Equals(other: TagValue)
    {
      key == other.key && value == other.value
    }

    /** `__hash__`, given Python's hash of a pair of texts. */
    function Hash(pairHash: ((string, string)) -> int): int
    {
      pairHash((key, value))
    }

    /** `__str__` and `__repr__`: 'key=value'. */
    function Text(): string
    {
      key + "=" + value
    }
  }

  /** TagValue(tag) keeps the tag's key and value. */
  function MakeTagValue(tag: Tag): (r: TagValue)
    ensures r.Equals(TagValue(tag.key, tag.value))
  {
    TagValue(tag.key, tag.value)
  }

  /**
   * Equality is the pair's equality, so it is an equivalence, and equal
   * tag values hash alike under every pair hash.
   */
  lemma TagValueEquality(a: TagValue, b: TagValue, pairHash: ((string, string)) -> int)
    ensures a.Equals(b) <==> (a.key, a.value) == (b.key, b.value)
    ensures a.Equals(b) ==> b.Equals(a) && a.Hash(pairHash) == b.Hash(pairHash)
  {
  }

  /** A key without '=' is read back from the text before its first '=', and the value after it. */
  lemma TagValueText(t: TagValue)
    requires '=' !in t.key
    ensures Before(t.Text(), '=') == t.key && After(t.Text(), '=') == t.value
  {
    FindCharAt(t.Text(), '=', |t.key|);
    assert t.Text()[..|t.key|] == t.key && t.Text()[|t.key| + 1..] == t.value;
  }

  /** Two different tag values can print alike when a key holds '='. */
  lemma TagValueTextAmbiguous()
    ensures TagValue("a=b", "c").Text() == TagValue("a", "b=c").Text()
    ensures !TagValue("a=b", "c").Equals(TagValue("a", "b=c"))
  {
  }
}
