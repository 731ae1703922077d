/**
 * The metric reshaping of the Spectator client: walking every metric value
 * of a service map, folding a Timer's 'statistic' tag into its name,
 * filtering a scanned document by a prototype, and turning a map of
 * service responses into a map keyed by metric name.
 *
 * Spectator documents are typed: a missing key is `None`, and the fields
 * the code never inspects are kept as decoded JSON.
 */
module SpectatorClient {
  import opened Wrappers
  import opened Json

  /** One `{'key': ..., 'value': ...}` tag binding. */
  datatype Tag = Tag(key: string, value: string)

  /** One `{'t': ..., 'v': ...}` sample of a metric value. */
  datatype Sample = Sample(t: int, v: real)

  /** One entry of a metric's 'values': its 'tags' (None when absent) and its samples. */
  datatype Instance = Instance(tags: Option<seq<Tag>>, values: seq<Sample>)

  /** A metric's entry: its 'kind' and its 'values', each None when absent. */
  datatype Metric = Metric(kind: Option<string>, values: Option<seq<Instance>>)

  /** A dictionary without entries is false in Python. */
  predicate IsEmpty(m: Metric)
  {
    m.kind.None? && m.values.None?
  }

  /** A service's document: its 'metrics' (None when absent) and its other fields. */
  datatype Response = Response(metrics: Option<map<string, Metric>>, others: map<string, Json>)

  const NotIterable := TypeError("'NoneType' object is not iterable")
  const NotContainer := TypeError("argument of type 'NoneType' is not iterable")

  /** A list of unique items. */
  predicate Distinct<T(==)>(s: seq<T>)
  {
    forall i, j | 0 <= i < j < |s| :: s[i] != s[j]
  }

  lemma DistinctAppend<T>(a: seq<T>, b: seq<T>)
    requires Distinct(a) && Distinct(b)
    requires forall x | x in a :: x !in b
    ensures Distinct(a + b)
  {
    forall i, j | 0 <= i < j < |a + b|
      ensures (a + b)[i] != (a + b)[j]
    {
      if j >= |a| && i < |a| {
        assert (a + b)[i] in a && (a + b)[j] == b[j - |a|];
      }
    }
  }

  // ---------------------------------------------------------------------
  // normalize_name_and_tags
  // ---------------------------------------------------------------------

  /** The position of the first tag keyed 'statistic', or `|tags|` when there is none. */
  function StatisticAt(tags: seq<Tag>): (i: nat)
    ensures i <= |tags|
    ensures i < |tags| ==> tags[i].key == "statistic"
    ensures forall j | 0 <= j < i :: tags[j].key != "statistic"
  {
    if tags == [] then 0
    else if tags[0].key == "statistic" then 0
    else 1 + StatisticAt(tags[1..])
  }

  /**
   * The name and tags reported for a metric instance: no tags (absent or an
   * empty list) gives `(name, None)`; a Timer's first 'statistic' tag is
   * removed and its value appended to the name after '__'.
   */
  function Normalized(name: string, tags: Option<seq<Tag>>, kind: Option<string>): Result<(string, Option<seq<Tag>>)>
  {
    if tags.None? || tags.value == [] then Ok((name, None))
    else if kind.None? then Raise(KeyError("kind"))
    else if kind.value != "Timer" then Ok((name, tags))
    else
      var i := StatisticAt(tags.value);
      if i == |tags.value| then Ok((name, tags))
      else Ok((name + "__" + tags.value[i].value, Some(tags.value[..i] + tags.value[i + 1..])))
  }

  /** A metric instance whose 'tags' list is shortened in place. */
  class MetricInstance {
    var tags: Option<seq<Tag>>
    const values: seq<Sample>

    constructor(tags: Option<seq<Tag>>, values: seq<Sample>)
      ensures this.tags == tags && this.values == values
    {
      this.tags := tags;
      this.values := values;
    }
  }

  /**
   * normalize_name_and_tags: the reported name and tags, the instance's own
   * tag list being the one returned (and shortened) when there are tags.
   */
  method NormalizeNameAndTags(name: string, instance: MetricInstance, kind: Option<string>)
    returns (r: Result<(string, Option<seq<Tag>>)>)
    modifies instance
    ensures r == Normalized(name, old(instance.tags), kind)
    ensures r.Ok? && r.value.1.Some? ==> instance.tags == r.value.1
    ensures r.Raise? || r.value.1.None? ==> instance.tags == old(instance.tags)
  {
    var tags := instance.tags;
    if tags.None? || tags.value == [] {
      return Ok((name, None));
    }
    if kind.None? {
      return Raise(KeyError("kind"));
    }
    var list := tags.value;
    if kind.value == "Timer" {
      var index := 0;
      while index < |list|
        invariant 0 <= index <= |list|
        invariant forall j | 0 <= j < index :: list[j].key != "statistic"
      {
        if list[index].key == "statistic" {
          NoStatisticBefore(list, index);
          instance.tags := Some(list[..index] + list[index + 1..]);
          return Ok((name + "__" + list[index].value, instance.tags));
        }
        index := index + 1;
      }
      NoStatisticBefore(list, index);
    }
    return Ok((name, instance.tags));
  }

  /** The first 'statistic' tag is the one a scan from the front stops at. */
  lemma NoStatisticBefore(tags: seq<Tag>, i: nat)
    requires i <= |tags|
    requires forall j | 0 <= j < i :: tags[j].key != "statistic"
    requires i < |tags| ==> tags[i].key == "statistic"
    ensures StatisticAt(tags) == i
  {
  }

  /** An instance without tags is reported as `(name, None)` whatever its kind. */
  lemma NormalizeUntagged(name: string, tags: Option<seq<Tag>>, kind: Option<string>)
    requires tags.None? || tags.value == []
    ensures Normalized(name, tags, kind) == Ok((name, None))
  {
  }

  /**
   * For a Timer, the first 'statistic' tag is removed, the others keep their
   * order, and the name gains '__' and the tag's value.
   */
  lemma NormalizeTimer(name: string, tags: seq<Tag>, i: nat)
    requires i < |tags| && tags[i].key == "statistic"
    requires forall j | 0 <= j < i :: tags[j].key != "statistic"
    ensures Normalized(name, Some(tags), Some("Timer"))
      == Ok((name + "__" + tags[i].value, Some(tags[..i] + tags[i + 1..])))
    ensures tags == tags[..i] + [tags[i]] + tags[i + 1..]
  {
    NoStatisticBefore(tags, i);
  }

  /** A Timer without a 'statistic' tag, and every other kind, keeps its name and tags. */
  lemma NormalizeUnchanged(name: string, tags: seq<Tag>, kind: string)
    requires tags != []
    requires kind != "Timer" || forall j | 0 <= j < |tags| :: tags[j].key != "statistic"
    ensures Normalized(name, Some(tags), Some(kind)) == Ok((name, Some(tags)))
  {
    if kind == "Timer" {
      NoStatisticBefore(tags, |tags|);
    }
  }

  /** A tagged instance of a metric without 'kind' raises KeyError. */
  lemma NormalizeNeedsKind(name: string, tags: seq<Tag>)
    requires tags != []
    ensures Normalized(name, Some(tags), None) == Raise(KeyError("kind"))
  {
  }

  // ---------------------------------------------------------------------
  // have_tags and the value filter of filter_metrics
  // ---------------------------------------------------------------------

  /**
   * The inner loop of have_tags: whether every wanted tag is among the
   * instance's tags, stopping at the first one that is not; testing
   * membership in absent tags raises TypeError.
   */
  function Covers(wanted: seq<Tag>, got: Option<seq<Tag>>): Result<bool>
  {
    if wanted == [] then Ok(true)
    else if got.None? then Raise(NotContainer)
    else if wanted[0] !in got.value then Ok(false)
    else Covers(wanted[1..], got)
  }

  /** The outer loop of have_tags: whether some wanted tag list is covered. */
  function MatchesSome(wants: seq<Option<seq<Tag>>>, got: Option<seq<Tag>>): Result<bool>
  {
    if wants == [] then Ok(false)
    else if wants[0].None? then Raise(NotIterable)
    else
      match Covers(wants[0].value, got)
      case Raise(e) => Raise(e)
      case Ok(b) => if b then Ok(true) else MatchesSome(wants[1..], got)
  }

  /** have_tags: some wanted list is covered, or there is no wanted list at all. */
  function HaveTags(wants: seq<Option<seq<Tag>>>, got: Option<seq<Tag>>): Result<bool>
  {
    match MatchesSome(wants, got)
    case Raise(e) => Raise(e)
    case Ok(b) => Ok(b || wants == [])
  }

  /** Covering, given the instance's tags, means containing every wanted tag. */
  lemma {:induction false} CoversSpec(wanted: seq<Tag>, got: seq<Tag>)
    ensures Covers(wanted, Some(got)) == Ok(forall t | t in wanted :: t in got)
  {
    if wanted != [] {
      CoversSpec(wanted[1..], got);
      assert forall t | t in wanted :: t == wanted[0] || t in wanted[1..];
    }
  }

  /** Without instance tags only an empty wanted list is covered; any other raises. */
  lemma CoversAbsent(wanted: seq<Tag>)
    ensures Covers(wanted, None) == if wanted == [] then Ok(true) else Raise(NotContainer)
  {
  }

  /** The tag lists of a prototype metric, all present. */
  predicate AllPresent(wants: seq<Option<seq<Tag>>>)
  {
    forall i | 0 <= i < |wants| :: wants[i].Some?
  }

  /** Whether the `i`-th wanted list is contained in the instance's tags. */
  predicate CoveredBy(wants: seq<Option<seq<Tag>>>, i: int, got: seq<Tag>)
    requires 0 <= i < |wants| && wants[i].Some?
  {
    forall t | t in wants[i].value :: t in got
  }

  /**
   * With every wanted list present and the instance tagged, have_tags holds
   * exactly when some wanted list's tags are all among the instance's tags
   * (or there is no wanted list).
   */
  lemma {:induction false} MatchesSomeSpec(wants: seq<Option<seq<Tag>>>, got: seq<Tag>)
    requires AllPresent(wants)
    ensures MatchesSome(wants, Some(got)) == Ok(exists i | 0 <= i < |wants| :: CoveredBy(wants, i, got))
  {
    if wants != [] {
      CoversSpec(wants[0].value, got);
      MatchesSomeSpec(wants[1..], got);
      forall i | 1 <= i < |wants|
        ensures CoveredBy(wants, i, got) == CoveredBy(wants[1..], i - 1, got)
      {
      }
      if exists i | 0 <= i < |wants| :: CoveredBy(wants, i, got) {
        var i :| 0 <= i < |wants| && CoveredBy(wants, i, got);
        if i > 0 {
          assert CoveredBy(wants[1..], i - 1, got);
        }
      } else {
        assert !CoveredBy(wants, 0, got);
        forall i | 0 <= i < |wants| - 1
          ensures !CoveredBy(wants[1..], i, got)
        {
          assert !CoveredBy(wants, i + 1, got);
        }
      }
    }
  }

  lemma HaveTagsSpec(wants: seq<Option<seq<Tag>>>, got: seq<Tag>)
    requires AllPresent(wants) && wants != []
    ensures HaveTags(wants, Some(got)) == Ok(exists i | 0 <= i < |wants| :: CoveredBy(wants, i, got))
  {
    MatchesSomeSpec(wants, got);
  }

  /** have_tags with no wanted list holds for every instance. */
  lemma HaveTagsEmpty(got: Option<seq<Tag>>)
    ensures HaveTags([], got) == Ok(true)
  {
  }

  /** The inner loop of have_tags. */
  method CoversLoop(wanted: seq<Tag>, got: Option<seq<Tag>>) returns (r: Result<bool>)
    ensures r == Covers(wanted, got)
  {
    var i := 0;
    while i < |wanted|
      invariant 0 <= i <= |wanted|
      invariant Covers(wanted[i..], got) == Covers(wanted, got)
    {
      assert wanted[i..][1..] == wanted[i + 1..];
      if got.None? {
        return Raise(NotContainer);
      }
      if wanted[i] !in got.value {
        return Ok(false);
      }
      i := i + 1;
    }
    assert wanted[i..] == [];
    return Ok(true);
  }

  /** have_tags, a loop over the wanted lists around the inner loop. */
  method HaveTagsLoop(wants: seq<Option<seq<Tag>>>, got: Option<seq<Tag>>) returns (r: Result<bool>)
    ensures r == HaveTags(wants, got)
  {
    var i := 0;
    while i < |wants|
      invariant 0 <= i <= |wants|
      invariant MatchesSome(wants[i..], got) == MatchesSome(wants, got)
    {
      assert wants[i..][1..] == wants[i + 1..];
      if wants[i].None? {
        return Raise(NotIterable);
      }
      var ok := CoversLoop(wants[i].value, got);
      if ok.Raise? {
        return Raise(ok.error);
      }
      if ok.value {
        return Ok(true);
      }
      i := i + 1;
    }
    assert wants[i..] == [];
    return Ok(wants == []);
  }

  /** The values whose tags match, in order, or the first error have_tags raises. */
  function Kept(wants: seq<Option<seq<Tag>>>, values: seq<Instance>): Result<seq<Instance>>
  {
    if values == [] then Ok([])
    else
      match HaveTags(wants, values[0].tags)
      case Raise(e) => Raise(e)
      case Ok(b) =>
        match Kept(wants, values[1..])
        case Raise(e) => Raise(e)
        case Ok(rest) => Ok(if b then [values[0]] + rest else rest)
  }

  /**
   * Filtering raises exactly when have_tags raises on some value; otherwise
   * it keeps exactly the values for which have_tags holds.
   */
  lemma {:induction false} KeptSpec(wants: seq<Option<seq<Tag>>>, values: seq<Instance>)
    ensures Kept(wants, values).Ok? <==> forall i | 0 <= i < |values| :: HaveTags(wants, values[i].tags).Ok?
    ensures Kept(wants, values).Ok? ==>
      |Kept(wants, values).value| <= |values| &&
      forall v :: v in Kept(wants, values).value <==> v in values && HaveTags(wants, v.tags) == Ok(true)
  {
    if values != [] {
      KeptSpec(wants, values[1..]);
      assert forall i | 1 <= i < |values| :: values[i] == values[1..][i - 1];
      assert forall v | v in values :: v == values[0] || v in values[1..];
    }
  }

  /** Prepending a kept prefix to a result. */
  function PrependKept(keep: seq<Instance>, rest: Result<seq<Instance>>): Result<seq<Instance>>
  {
    match rest
    case Raise(e) => Raise(e)
    case Ok(xs) => Ok(keep + xs)
  }

  /** The value loop of filter_metrics. */
  method KeepValues(wants: seq<Option<seq<Tag>>>, values: seq<Instance>) returns (r: Result<seq<Instance>>)
    ensures r == Kept(wants, values)
  {
    var keep: seq<Instance> := [];
    var i := 0;
    assert values[i..] == values;
    PrependNothing(Kept(wants, values));
    while i < |values|
      invariant 0 <= i <= |values|
      invariant PrependKept(keep, Kept(wants, values[i..])) == Kept(wants, values)
    {
      assert values[i..][1..] == values[i + 1..];
      var ok := HaveTagsLoop(wants, values[i].tags);
      if ok.Raise? {
        return Raise(ok.error);
      }
      if ok.value {
        PrependConcat(keep, [values[i]], Kept(wants, values[i + 1..]));
        keep := keep + [values[i]];
      }
      i := i + 1;
    }
    assert values[i..] == [];
    assert keep + [] == keep;
    return Ok(keep);
  }

  lemma PrependNothing(rest: Result<seq<Instance>>)
    ensures PrependKept([], rest) == rest
  {
    if rest.Ok? {
      assert [] + rest.value == rest.value;
    }
  }

  lemma PrependConcat(keep: seq<Instance>, more: seq<Instance>, rest: Result<seq<Instance>>)
    ensures PrependKept(keep, PrependKept(more, rest)) == PrependKept(keep + more, rest)
  {
    if rest.Ok? {
      assert keep + (more + rest.value) == keep + more + rest.value;
    }
  }

  // ---------------------------------------------------------------------
  // filter_metrics
  // ---------------------------------------------------------------------

  /** `doc.get('metrics') or {}` (and `doc.get('metrics', {})` for a prototype). */
  function MetricsOf(doc: Response): map<string, Metric>
  {
    if doc.metrics.None? then map[] else doc.metrics.value
  }

  /** The tags of each prototype value. */
  function TagLists(values: seq<Instance>): (r: seq<Option<seq<Tag>>>)
    ensures |r| == |values| && forall i | 0 <= i < |values| :: r[i] == values[i].tags
  {
    seq(|values|, i requires 0 <= i < |values| => values[i].tags)
  }

  /**
   * What filter_metrics keeps of one metric: nothing when the instance lacks
   * it or has it empty; the whole metric when the prototype has no values;
   * otherwise the metric with only its matching values, or nothing when no
   * value matches.
   */
  function FilterMetric(wants: Metric, got: Option<Metric>): Result<Option<Metric>>
  {
    if got.None? || IsEmpty(got.value) then Ok(None)
    else if wants.values.None? || wants.values.value == [] then Ok(got)
    else
      match Kept(TagLists(wants.values.value), got.value.values.GetOr([]))
      case Raise(e) => Raise(e)
      case Ok(keep) => if keep == [] then Ok(None) else Ok(Some(got.value.(values := Some(keep))))
  }

  /** The instance's metric named `key`, if any. */
  function Lookup(metrics: map<string, Metric>, key: string): Option<Metric>
  {
    if key in metrics then Some(metrics[key]) else None
  }

  /** The result of filtering the metric of the prototype named `key`. */
  function FilterAt(instance: Response, prototype: Response, key: string): Result<Option<Metric>>
    requires key in MetricsOf(prototype)
  {
    FilterMetric(MetricsOf(prototype)[key], Lookup(MetricsOf(instance), key))
  }

  /** The metrics filter_metrics keeps, when no prototype metric raises. */
  function Filtered(instance: Response, prototype: Response): map<string, Metric>
  {
    map key | key in MetricsOf(prototype) && FilterAt(instance, prototype, key).Ok?
                && FilterAt(instance, prototype, key).value.Some?
      :: FilterAt(instance, prototype, key).value.value
  }

  /** Whether filtering some prototype metric raises. */
  predicate FilterRaises(instance: Response, prototype: Response)
  {
    exists key | key in MetricsOf(prototype) :: FilterAt(instance, prototype, key).Raise?
  }

  /**
   * filter_metrics: the instance's other fields with its metrics restricted
   * to those the prototype selects; an error from have_tags propagates.
   */
  method FilterMetrics(instance: Response, prototype: Response) returns (r: Result<Response>)
    ensures r.Raise? <==> FilterRaises(instance, prototype)
    ensures r.Raise? ==> exists key | key in MetricsOf(prototype) :: FilterAt(instance, prototype, key) == Raise(r.error)
    ensures r.Ok? ==> r.value == Response(Some(Filtered(instance, prototype)), instance.others)
  {
    var filtered: map<string, Metric> := map[];
    var metrics := MetricsOf(instance);
    var expected := MetricsOf(prototype);
    var left := expected.Keys;
    while left != {}
      invariant left <= expected.Keys
      invariant forall key | key in expected && key !in left :: FilterAt(instance, prototype, key).Ok?
      invariant forall key :: key in filtered <==>
        key in expected && key !in left && FilterAt(instance, prototype, key).value.Some?
      invariant forall key | key in filtered :: filtered[key] == FilterAt(instance, prototype, key).value.value
      decreases left
    {
      var key :| key in left;
      var step := FilterOne(expected[key], Lookup(metrics, key));
      if step.Raise? {
        return Raise(step.error);
      }
      if step.value.Some? {
        filtered := filtered[key := step.value.value];
      }
      left := left - {key};
    }
    assert filtered == Filtered(instance, prototype);
    return Ok(Response(Some(filtered), instance.others));
  }

  /** The body of filter_metrics' loop for one prototype metric. */
  method FilterOne(wants: Metric, got: Option<Metric>) returns (r: Result<Option<Metric>>)
    ensures r == FilterMetric(wants, got)
  {
    if got.None? || IsEmpty(got.value) {
      return Ok(None);
    }
    if wants.values.None? || wants.values.value == [] {
      return Ok(got);
    }
    var wantTags := TagLists(wants.values.value);
    var keep := KeepValues(wantTags, got.value.values.GetOr([]));
    if keep.Raise? {
      return Raise(keep.error);
    }
    if keep.value == [] {
      return Ok(None);
    }
    return Ok(Some(got.value.(values := Some(keep.value))));
  }

  /**
   * Only metrics the prototype names and the instance has, non-empty, are
   * kept.
   */
  lemma FilteredNames(instance: Response, prototype: Response, key: string)
    requires key in Filtered(instance, prototype)
    ensures key in MetricsOf(prototype) && key in MetricsOf(instance)
    ensures !IsEmpty(MetricsOf(instance)[key])
  {
  }

  /** A prototype metric without values keeps the instance's whole metric. */
  lemma FilterWholeMetric(instance: Response, prototype: Response, key: string)
    requires key in MetricsOf(prototype) && key in MetricsOf(instance)
    requires !IsEmpty(MetricsOf(instance)[key])
    requires MetricsOf(prototype)[key].values.GetOr([]) == []
    ensures !FilterRaises(instance, prototype) ==>
      key in Filtered(instance, prototype) && Filtered(instance, prototype)[key] == MetricsOf(instance)[key]
  {
  }

  /**
   * With prototype values, a kept metric is the instance's metric with its
   * values narrowed to those whose tags include every tag of some prototype
   * value's tags; the metric is dropped when no value is kept.
   */
  lemma FilterValues(instance: Response, prototype: Response, key: string)
    requires key in MetricsOf(prototype) && key in MetricsOf(instance)
    requires !IsEmpty(MetricsOf(instance)[key])
    requires MetricsOf(prototype)[key].values.GetOr([]) != []
    requires !FilterRaises(instance, prototype)
    ensures key in Filtered(instance, prototype) <==>
      exists v :: v in MetricsOf(instance)[key].values.GetOr([]) &&
        HaveTags(TagLists(MetricsOf(prototype)[key].values.value), v.tags) == Ok(true)
    ensures key in Filtered(instance, prototype) ==>
      var kept := Filtered(instance, prototype)[key];
      kept.kind == MetricsOf(instance)[key].kind && kept.values.Some? &&
      forall v :: v in kept.values.value <==> (v in MetricsOf(instance)[key].values.GetOr([]) &&
        HaveTags(TagLists(MetricsOf(prototype)[key].values.value), v.tags) == Ok(true))
  {
    var wants := TagLists(MetricsOf(prototype)[key].values.value);
    var values := MetricsOf(instance)[key].values.GetOr([]);
    assert FilterAt(instance, prototype, key).Ok?;
    KeptSpec(wants, values);
    var keep := Kept(wants, values).value;
    if keep != [] {
      assert keep[0] in keep;
    } else {
      forall v | v in values
        ensures HaveTags(wants, v.tags) != Ok(true)
      {
        assert v !in keep;
      }
    }
  }

  // ---------------------------------------------------------------------
  // ingest_metrics and service_map_to_type_map
  // ---------------------------------------------------------------------

  /** A type map: metric name to service to that service's metric. */
  type TypeMapping = map<string, map<string, Metric>>

  /** The type map after ingesting the metrics of `service`. */
  function Ingested(m: TypeMapping, service: string, metrics: map<string, Metric>): TypeMapping
  {
    map key | key in m.Keys + metrics.Keys ::
      if key in metrics then (if key in m then m[key] else map[])[service := metrics[key]] else m[key]
  }

  /**
   * Ingesting sets m[k][service] to the service's metric k, and changes no
   * other service's entry and no other metric name.
   */
  lemma IngestedSpec(m: TypeMapping, service: string, metrics: map<string, Metric>)
    ensures Ingested(m, service, metrics).Keys == m.Keys + metrics.Keys
    ensures forall key | key in metrics :: Ingested(m, service, metrics)[key][service] == metrics[key]
    ensures forall key | key in m && key !in metrics :: Ingested(m, service, metrics)[key] == m[key]
    ensures forall key, s | key in metrics && s != service ::
      (s in Ingested(m, service, metrics)[key] <==> key in m && s in m[key]) &&
      (s in Ingested(m, service, metrics)[key] ==> Ingested(m, service, metrics)[key][s] == m[key][s])
  {
  }

  /** Ingesting two different services gives the same map in either order. */
  lemma IngestCommutes(m: TypeMapping, a: string, ma: map<string, Metric>, b: string, mb: map<string, Metric>)
    requires a != b
    ensures Ingested(Ingested(m, a, ma), b, mb) == Ingested(Ingested(m, b, mb), a, ma)
  {
    var x := Ingested(Ingested(m, a, ma), b, mb);
    var y := Ingested(Ingested(m, b, mb), a, ma);
    assert x.Keys == y.Keys;
    forall key | key in x
      ensures x[key] == y[key]
    {
      IngestCommutesAt(m, a, ma, b, mb, key);
    }
  }

  /** The entry of one metric name after ingesting two services in either order. */
  lemma IngestCommutesAt(m: TypeMapping, a: string, ma: map<string, Metric>, b: string, mb: map<string, Metric>, key: string)
    requires a != b && key in m.Keys + ma.Keys + mb.Keys
    ensures Ingested(Ingested(m, a, ma), b, mb)[key] == Ingested(Ingested(m, b, mb), a, ma)[key]
  {
    var inner: map<string, Metric> := if key in m then m[key] else map[];
    if key in ma && key in mb {
      UpdatesCommute(inner, a, ma[key], b, mb[key]);
    }
  }

  /** Setting two different keys gives the same map in either order. */
  lemma UpdatesCommute(m: map<string, Metric>, a: string, va: Metric, b: string, vb: Metric)
    requires a != b
    ensures m[a := va][b := vb] == m[b := vb][a := va]
  {
    var x := m[a := va][b := vb];
    var y := m[b := vb][a := va];
    assert x.Keys == y.Keys;
    forall k | k in x
      ensures x[k] == y[k]
    {
    }
  }

  /** The map ingest_metrics fills in place. */
  class TypeMap {
    var entries: TypeMapping

    constructor()
      ensures entries == map[]
    {
      entries := map[];
    }

    /** ingest_metrics: a document without 'metrics' raises KeyError before any change. */
    method Ingest(service: string, response: Response) returns (r: Result<()>)
      modifies this
      ensures response.metrics.None? ==> r == Raise(KeyError("metrics")) && entries == old(entries)
      ensures response.metrics.Some? ==> r == Ok(()) && entries == Ingested(old(entries), service, response.metrics.value)
    {
      if response.metrics.None? {
        return Raise(KeyError("metrics"));
      }
      var metrics := response.metrics.value;
      ghost var start := entries;
      var left := metrics.Keys;
      assert metrics - left == map[];
      assert Ingested(start, service, map[]) == start;
      while left != {}
        invariant left <= metrics.Keys
        invariant entries == Ingested(start, service, metrics - left)
        decreases left
      {
        var key :| key in left;
        IngestKey(start, service, metrics, left, key);
        if key in entries {
          entries := entries[key := entries[key][service := metrics[key]]];
        } else {
          entries := entries[key := map[service := metrics[key]]];
        }
        left := left - {key};
      }
      assert metrics - left == metrics;
      return Ok(());
    }
  }

  /** One step of ingest_metrics' loop. */
  lemma IngestKey(start: TypeMapping, service: string, metrics: map<string, Metric>, left: set<string>, key: string)
    requires key in left && left <= metrics.Keys
    ensures var cur := Ingested(start, service, metrics - left);
      Ingested(start, service, metrics - (left - {key}))
        == cur[key := (if key in cur then cur[key] else map[])[service := metrics[key]]]
  {
    var cur := Ingested(start, service, metrics - left);
    var next := Ingested(start, service, metrics - (left - {key}));
    var step := cur[key := (if key in cur then cur[key] else map[])[service := metrics[key]]];
    assert next.Keys == step.Keys;
    forall k | k in next
      ensures next[k] == step[k]
    {
    }
  }

  /** The service's metrics when its document is present and has them. */
  predicate Reports(sm: map<string, Option<Response>>, s: string)
  {
    s in sm && sm[s].Some? && sm[s].value.metrics.Some?
  }

  /** The metric names some present service reports. */
  function NamesOf(sm: map<string, Option<Response>>): set<string>
  {
    set s, key | s in sm && Reports(sm, s) && key in sm[s].value.metrics.value :: key
  }

  /**
   * The type map of a service map: every metric name any present service
   * reports, mapped to each reporting service and its metric.
   */
  function TypeMapOf(sm: map<string, Option<Response>>): TypeMapping
  {
    map key | key in NamesOf(sm) :: Column(sm, key)
  }

  /** Each reporting service's metric named `key`. */
  function Column(sm: map<string, Option<Response>>, key: string): map<string, Metric>
  {
    map s | s in sm && Reports(sm, s) && key in sm[s].value.metrics.value :: sm[s].value.metrics.value[key]
  }

  /** A name no service reports has an empty column. */
  lemma ColumnEmpty(sm: map<string, Option<Response>>, key: string)
    ensures key !in NamesOf(sm) ==> Column(sm, key) == map[]
  {
    if Column(sm, key) != map[] {
      var t :| t in Column(sm, key);
      assert Reports(sm, t) && key in sm[t].value.metrics.value;
    }
  }

  /** A column after adding one more present service. */
  lemma ColumnAdd(sm: map<string, Option<Response>>, s: string, r: Response, key: string)
    requires s !in sm && r.metrics.Some?
    ensures Column(sm[s := Some(r)], key) ==
      if key in r.metrics.value then Column(sm, key)[s := r.metrics.value[key]] else Column(sm, key)
  {
    var x := Column(sm[s := Some(r)], key);
    var y := if key in r.metrics.value then Column(sm, key)[s := r.metrics.value[key]] else Column(sm, key);
    assert x.Keys == y.Keys;
  }

  /** A column after adding a service whose document is None. */
  lemma ColumnSkip(sm: map<string, Option<Response>>, s: string, key: string)
    requires s !in sm
    ensures Column(sm[s := None], key) == Column(sm, key)
  {
    assert Column(sm[s := None], key).Keys == Column(sm, key).Keys;
  }

  /** Whether every present document has 'metrics'. */
  predicate AllReport(sm: map<string, Option<Response>>)
  {
    forall s | s in sm && sm[s].Some? :: sm[s].value.metrics.Some?
  }

  /** The names reported once one more present service is added. */
  lemma NamesOfAdd(sm: map<string, Option<Response>>, s: string, r: Response)
    requires s !in sm && r.metrics.Some?
    ensures NamesOf(sm[s := Some(r)]) == NamesOf(sm) + r.metrics.value.Keys
  {
    var sm2 := sm[s := Some(r)];
    forall key | key in NamesOf(sm2)
      ensures key in NamesOf(sm) || key in r.metrics.value
    {
      var t :| t in sm2 && Reports(sm2, t) && key in sm2[t].value.metrics.value;
      if t != s {
        assert Reports(sm, t) && key in sm[t].value.metrics.value;
      }
    }
    forall key | key in NamesOf(sm)
      ensures key in NamesOf(sm2)
    {
      var t :| t in sm && Reports(sm, t) && key in sm[t].value.metrics.value;
      assert Reports(sm2, t) && key in sm2[t].value.metrics.value;
    }
    forall key | key in r.metrics.value
      ensures key in NamesOf(sm2)
    {
      assert Reports(sm2, s) && key in sm2[s].value.metrics.value;
    }
  }

  /** Adding a present service's document ingests its metrics. */
  lemma {:induction false} TypeMapAdd(sm: map<string, Option<Response>>, s: string, r: Response)
    requires s !in sm && r.metrics.Some?
    ensures TypeMapOf(sm[s := Some(r)]) == Ingested(TypeMapOf(sm), s, r.metrics.value)
  {
    var sm2 := sm[s := Some(r)];
    var metrics := r.metrics.value;
    NamesOfAdd(sm, s, r);
    var before := TypeMapOf(sm);
    var x := TypeMapOf(sm2);
    var y := Ingested(before, s, metrics);
    assert x.Keys == y.Keys;
    forall key | key in x
      ensures x[key] == y[key]
    {
      ColumnAdd(sm, s, r, key);
      ColumnEmpty(sm, key);
    }
  }

  /** Adding a service whose document is None leaves the type map as it is. */
  lemma {:induction false} TypeMapSkip(sm: map<string, Option<Response>>, s: string)
    requires s !in sm
    ensures TypeMapOf(sm[s := None]) == TypeMapOf(sm)
  {
    var sm2 := sm[s := None];
    forall key | key in NamesOf(sm2)
      ensures key in NamesOf(sm)
    {
      var t :| t in sm2 && Reports(sm2, t) && key in sm2[t].value.metrics.value;
      assert Reports(sm, t) && key in sm[t].value.metrics.value;
    }
    forall key | key in NamesOf(sm)
      ensures key in NamesOf(sm2)
    {
      var t :| t in sm && Reports(sm, t) && key in sm[t].value.metrics.value;
      assert Reports(sm2, t) && key in sm2[t].value.metrics.value;
    }
    var x := TypeMapOf(sm2);
    var y := TypeMapOf(sm);
    assert x.Keys == y.Keys;
    forall key | key in x
      ensures x[key] == y[key]
    {
      ColumnSkip(sm, s, key);
    }
  }

  /**
   * service_map_to_type_map: every present service's metrics ingested into
   * an empty map; a present document without 'metrics' raises KeyError.
   */
  method ServiceMapToTypeMap(sm: map<string, Option<Response>>) returns (r: Result<TypeMapping>)
    ensures r.Ok? <==> AllReport(sm)
    ensures r.Raise? ==> r.error == KeyError("metrics")
    ensures r.Ok? ==> r.value == TypeMapOf(sm)
  {
    var typeMap := new TypeMap();
    var left := sm.Keys;
    ghost var seen: map<string, Option<Response>> := map[];
    assert TypeMapOf(seen) == map[];
    while left != {}
      invariant left <= sm.Keys
      invariant seen.Keys == sm.Keys - left
      invariant forall t | t in seen :: seen[t] == sm[t]
      invariant AllReport(seen)
      invariant typeMap.entries == TypeMapOf(seen)
      decreases left
    {
      var s :| s in left;
      var got := sm[s];
      if got.Some? {
        var ok := typeMap.Ingest(s, got.value);
        if ok.Raise? {
          return Raise(ok.error);
        }
        TypeMapAdd(seen, s, got.value);
      } else {
        TypeMapSkip(seen, s);
      }
      seen := seen[s := got];
      left := left - {s};
    }
    assert seen == sm;
    return Ok(typeMap.entries);
  }

  /**
   * Two services give the map that ingesting one and then the other into
   * an empty map gives.
   */
  lemma TypeMapOfTwo(a: string, ra: Response, b: string, rb: Response)
    requires a != b && ra.metrics.Some? && rb.metrics.Some?
    ensures TypeMapOf(map[a := Some(ra), b := Some(rb)]) ==
      Ingested(Ingested(map[], a, ra.metrics.value), b, rb.metrics.value)
  {
    var empty: map<string, Option<Response>> := map[];
    assert TypeMapOf(empty) == map[];
    TypeMapAdd(empty, a, ra);
    TypeMapAdd(empty[a := Some(ra)], b, rb);
  }

  // ---------------------------------------------------------------------
  // foreach_metric_in_service_map
  // ---------------------------------------------------------------------

  /** One call of the visitor: a service, a metric name and the position and value of a metric value. */
  datatype Visit = Visit(service: string, name: string, index: nat, instance: Instance)

  /** Whether `v` names a value of a metric of a present service. */
  predicate IsVisit(sm: map<string, Option<Response>>, v: Visit)
  {
    v.service in sm && sm[v.service].Some? && sm[v.service].value.metrics.Some?
    && v.name in sm[v.service].value.metrics.value
    && sm[v.service].value.metrics.value[v.name].values.Some?
    && v.index < |sm[v.service].value.metrics.value[v.name].values.value|
    && v.instance == sm[v.service].value.metrics.value[v.name].values.value[v.index]
  }

  /** Whether every present service has 'metrics' and each of its metrics has 'values'. */
  predicate Walkable(sm: map<string, Option<Response>>)
  {
    forall s | s in sm && sm[s].Some? ::
      sm[s].value.metrics.Some? && forall name | name in sm[s].value.metrics.value ::
        sm[s].value.metrics.value[name].values.Some?
  }

  /** __foreach_metric_tag_binding: one visit per value, in order. */
  method VisitValues(service: string, name: string, metric: Metric) returns (r: Result<seq<Visit>>)
    ensures r.Ok? <==> metric.values.Some?
    ensures r.Raise? ==> r.error == KeyError("values")
    ensures r.Ok? ==> (|r.value| == |metric.values.value| &&
      forall i | 0 <= i < |r.value| :: r.value[i] == Visit(service, name, i, metric.values.value[i]))
  {
    if metric.values.None? {
      return Raise(KeyError("values"));
    }
    var values := metric.values.value;
    var visits: seq<Visit> := [];
    for i := 0 to |values|
      invariant |visits| == i
      invariant forall j | 0 <= j < i :: visits[j] == Visit(service, name, j, values[j])
    {
      visits := visits + [Visit(service, name, i, values[i])];
    }
    return Ok(visits);
  }

  /** The visits of one service's metrics, each value once. */
  method VisitService(service: string, metrics: map<string, Metric>) returns (r: Result<seq<Visit>>)
    ensures r.Ok? <==> forall name | name in metrics :: metrics[name].values.Some?
    ensures r.Raise? ==> r.error == KeyError("values")
    ensures r.Ok? ==> Distinct(r.value) && forall v :: v in r.value <==>
      v.service == service && v.name in metrics && metrics[v.name].values.Some?
      && v.index < |metrics[v.name].values.value| && v.instance == metrics[v.name].values.value[v.index]
  {
    var visits: seq<Visit> := [];
    var left := metrics.Keys;
    while left != {}
      invariant left <= metrics.Keys
      invariant forall name | name in metrics && name !in left :: metrics[name].values.Some?
      invariant Distinct(visits)
      invariant forall v :: v in visits <==>
        v.service == service && v.name in metrics && v.name !in left && metrics[v.name].values.Some?
        && v.index < |metrics[v.name].values.value| && v.instance == metrics[v.name].values.value[v.index]
      decreases left
    {
      var name :| name in left;
      var more := VisitValues(service, name, metrics[name]);
      if more.Raise? {
        return Raise(more.error);
      }
      assert Distinct(more.value) by {
        forall i, j | 0 <= i < j < |more.value|
          ensures more.value[i] != more.value[j]
        {
          assert more.value[i].index == i && more.value[j].index == j;
        }
      }
      assert forall v | v in more.value :: v.name == name;
      DistinctAppend(visits, more.value);
      forall v: Visit | v.service == service && v.name == name && v.index < |metrics[name].values.value|
          && v.instance == metrics[name].values.value[v.index]
        ensures v in more.value
      {
        assert more.value[v.index] == v;
      }
      visits := visits + more.value;
      left := left - {name};
    }
    return Ok(visits);
  }

  /**
   * foreach_metric_in_service_map, recording the visitor's calls: each value
   * of each metric of each present service is visited exactly once; a
   * missing 'metrics' or 'values' raises KeyError.
   */
  method ForeachMetricInServiceMap(sm: map<string, Option<Response>>) returns (r: Result<seq<Visit>>)
    ensures r.Ok? <==> Walkable(sm)
    ensures r.Raise? ==> r.error == KeyError("metrics") || r.error == KeyError("values")
    ensures r.Ok? ==> Distinct(r.value) && forall v :: v in r.value <==> IsVisit(sm, v)
  {
    var visits: seq<Visit> := [];
    var left := sm.Keys;
    while left != {}
      invariant left <= sm.Keys
      invariant forall s | s in sm && s !in left && sm[s].Some? ::
        sm[s].value.metrics.Some? && forall name | name in sm[s].value.metrics.value ::
          sm[s].value.metrics.value[name].values.Some?
      invariant Distinct(visits)
      invariant forall v :: v in visits <==> IsVisit(sm, v) && v.service !in left
      decreases left
    {
      var s :| s in left;
      var got := sm[s];
      if got.Some? {
        if got.value.metrics.None? {
          return Raise(KeyError("metrics"));
        }
        var more := VisitService(s, got.value.metrics.value);
        if more.Raise? {
          return Raise(more.error);
        }
        DistinctAppend(visits, more.value);
        visits := visits + more.value;
      }
      left := left - {s};
    }
    return Ok(visits);
  }
}
