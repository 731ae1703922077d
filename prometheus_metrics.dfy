/**
 * The Prometheus rendering of a metric family: the exported name, the
 * label values of an instance in the family's label order, and the
 * Prometheus families a counter, gauge or timer family encodes to. The
 * push to the gateway is not modelled.
 */
module PrometheusMetrics {
  import opened Wrappers
  import opened Text
  import opened BaseMetrics

  // ================================================================ names

  const NamePrefix := "buildtool:"

  function DotsToColons(name: string): (r: string)
    ensures |r| == |name|
    ensures forall i | 0 <= i < |name| :: r[i] == (if name[i] == '.' then ':' else name[i])
  {
    if name == [] then []
    else [if name[0] == '.' then ':' else name[0]] + DotsToColons(name[1..])
  }

  /** 'buildtool:' + the family name with every '.' turned into ':'. */
  function PrometheusName(name: string): string
  {
    NamePrefix + DotsToColons(name)
  }

  /** The exported name starts with 'buildtool:', holds no '.', and keeps every other character in place. */
  lemma PrometheusNameSpec(name: string)
    ensures var r := PrometheusName(name);
      && |r| == |NamePrefix| + |name| && StartsWith(r, NamePrefix) && '.' !in r
      && forall i | 0 <= i < |name| && name[i] != '.' :: r[|NamePrefix| + i] == name[i]
  {
    var r := PrometheusName(name);
    assert r[..|NamePrefix|] == NamePrefix;
    forall i | 0 <= i < |r| ensures r[i] != '.' {
      if i >= |NamePrefix| {
        assert r[i] == DotsToColons(name)[i - |NamePrefix|];
      }
    }
  }

  // ================================================================ instance labels

  /** `i` is the last index of `labelNames` holding `key`. */
  predicate LastAt(labelNames: seq<string>, key: string, i: int)
  {
    0 <= i < |labelNames| && labelNames[i] == key && forall j | i < j < |labelNames| :: labelNames[j] != key
  }

  /** `{key: index for index, key in enumerate(label_names)}`: a repeated name keeps its last index. */
  function LabelIndex(labelNames: seq<string>): (r: map<string, nat>)
    ensures forall key :: key in r <==> key in labelNames
    ensures forall key | key in r :: LastAt(labelNames, key, r[key])
  {
    if labelNames == [] then map[]
    else
      var n := |labelNames| - 1;
      var init := LabelIndex(labelNames[..n]);
      assert labelNames == labelNames[..n] + [labelNames[n]];
      var r := init[labelNames[n] := n];
      forall key | key in r ensures LastAt(labelNames, key, r[key]) {
        if key != labelNames[n] {
          assert LastAt(labelNames[..n], key, init[key]);
        }
      }
      r
  }

  /** The position of a label name is the last one holding it. */
  predicate IsLabelSlot(labelNames: seq<string>, i: int)
    requires 0 <= i < |labelNames|
  {
    LastAt(labelNames, labelNames[i], i)
  }

  /** The first label key, in sorted order, that is not a label name of the family. */
  function FirstUnknown(keys: seq<string>, labelNames: seq<string>): Option<string>
  {
    if keys == [] then None
    else if keys[0] !in labelNames then Some(keys[0])
    else FirstUnknown(keys[1..], labelNames)
  }

  /**
   * `instance_labels`: the list of label values in the family's label
   * order, '' where the instance binds nothing; a label the family does
   * not name raises KeyError.
   */
  function InstanceLabels(labelNames: seq<string>, labels: map<string, string>): Result<seq<string>>
  {
    match FirstUnknown(SortedSeq(labels.Keys), labelNames)
    case Some(key) => Raise(KeyError(key))
    case None =>
      Ok(seq(|labelNames|, i requires 0 <= i < |labelNames| =>
        if labelNames[i] in labels && IsLabelSlot(labelNames, i) then labels[labelNames[i]] else ""))
  }

  lemma {:induction false} FirstUnknownSpec(keys: seq<string>, labelNames: seq<string>)
    ensures FirstUnknown(keys, labelNames).None? <==> forall k | k in keys :: k in labelNames
    ensures FirstUnknown(keys, labelNames).Some? ==>
      FirstUnknown(keys, labelNames).value in keys && FirstUnknown(keys, labelNames).value !in labelNames
  {
    if keys != [] {
      FirstUnknownSpec(keys[1..], labelNames);
      assert keys == [keys[0]] + keys[1..];
    }
  }

  /**
   * The label list succeeds exactly when every bound label is one of the
   * family's label names; it is then as long as the names, holds each bound
   * value at its name's index and '' at the names the instance does not bind.
   */
  lemma InstanceLabelsSpec(labelNames: seq<string>, labels: map<string, string>)
    ensures InstanceLabels(labelNames, labels).Ok? <==> forall k | k in labels :: k in labelNames
    ensures InstanceLabels(labelNames, labels).Raise? ==>
      exists k | k in labels :: k !in labelNames && InstanceLabels(labelNames, labels).error == KeyError(k)
    ensures InstanceLabels(labelNames, labels).Ok? ==>
      var r := InstanceLabels(labelNames, labels).value;
      && |r| == |labelNames|
      && (forall k | k in labels :: r[LabelIndex(labelNames)[k]] == labels[k])
      && (forall i | 0 <= i < |labelNames| && labelNames[i] !in labels :: r[i] == "")
  {
    InstanceLabelsOutcome(labelNames, labels);
    if forall k | k in labels :: k in labelNames {
      InstanceLabelsValues(labelNames, labels);
    }
  }

  /** The label list raises exactly for a bound label the family does not name, with that label. */
  lemma InstanceLabelsOutcome(labelNames: seq<string>, labels: map<string, string>)
    ensures InstanceLabels(labelNames, labels).Ok? <==> forall k | k in labels :: k in labelNames
    ensures InstanceLabels(labelNames, labels).Raise? ==>
      exists k | k in labels :: k !in labelNames && InstanceLabels(labelNames, labels).error == KeyError(k)
  {
    FirstUnknownSpec(SortedSeq(labels.Keys), labelNames);
  }

  /** A successful label list holds each bound value at its name's index and '' elsewhere. */
  lemma InstanceLabelsValues(labelNames: seq<string>, labels: map<string, string>)
    requires forall k | k in labels :: k in labelNames
    ensures InstanceLabels(labelNames, labels).Ok?
    ensures var r := InstanceLabels(labelNames, labels).value;
      && |r| == |labelNames|
      && (forall k | k in labels :: r[LabelIndex(labelNames)[k]] == labels[k])
      && (forall i | 0 <= i < |labelNames| && labelNames[i] !in labels :: r[i] == "")
  {
    InstanceLabelsAllNamed(labelNames, labels);
    var r := InstanceLabels(labelNames, labels).value;
    var index := LabelIndex(labelNames);
    forall k | k in labels ensures r[index[k]] == labels[k] {
      BoundSlot(labelNames, labels, r, k, index[k]);
    }
  }

  /** With every bound label named, the label list is the slot-by-slot list. */
  lemma InstanceLabelsAllNamed(labelNames: seq<string>, labels: map<string, string>)
    requires forall k | k in labels :: k in labelNames
    ensures InstanceLabels(labelNames, labels) == Ok(Filled(labelNames, labels, labels.Keys))
  {
    FirstUnknownSpec(SortedSeq(labels.Keys), labelNames);
  }

  lemma BoundSlot(labelNames: seq<string>, labels: map<string, string>, r: seq<string>, k: string, slot: int)
    requires r == Filled(labelNames, labels, labels.Keys)
    requires k in labels && LastAt(labelNames, k, slot)
    ensures r[slot] == labels[k]
  {
  }

  /** The label values after the keys in `done` have been written to their slots. */
  function Filled(labelNames: seq<string>, labels: map<string, string>, done: set<string>): (r: seq<string>)
    requires done <= labels.Keys
    ensures |r| == |labelNames|
  {
    seq(|labelNames|, i requires 0 <= i < |labelNames| =>
      if labelNames[i] in done && IsLabelSlot(labelNames, i) then labels[labelNames[i]] else "")
  }

  /** Writing one more bound label at its index. */
  lemma FilledStep(labelNames: seq<string>, labels: map<string, string>, done: set<string>, key: string)
    requires done <= labels.Keys && key in labels && key in labelNames
    ensures LabelIndex(labelNames)[key] < |labelNames|
    ensures Filled(labelNames, labels, done)[LabelIndex(labelNames)[key] := labels[key]]
         == Filled(labelNames, labels, done + {key})
  {
    var slot := LabelIndex(labelNames)[key];
    var before := Filled(labelNames, labels, done);
    var after := Filled(labelNames, labels, done + {key});
    assert LastAt(labelNames, key, slot);
    forall i | 0 <= i < |labelNames| ensures before[slot := labels[key]][i] == after[i] {
      if i != slot && labelNames[i] == key {
        assert slot > i && labelNames[slot] == labelNames[i];
      }
    }
  }

  /** `instance_labels` as written: a list of empty strings, each bound label written at its index. */
  method FillLabels(labelNames: seq<string>, labels: map<string, string>) returns (r: Result<seq<string>>)
    ensures r == InstanceLabels(labelNames, labels)
  {
    var index := LabelIndex(labelNames);
    var result := seq(|labelNames|, _ => "");
    var keys := SortedSeq(labels.Keys);
    ghost var done: set<string> := {};
    assert result == Filled(labelNames, labels, done);
    var k := 0;
    while k < |keys|
      invariant 0 <= k <= |keys|
      invariant FirstUnknown(keys, labelNames) == FirstUnknown(keys[k..], labelNames)
      invariant done <= labels.Keys
      invariant forall j | 0 <= j < k :: keys[j] in done
      invariant result == Filled(labelNames, labels, done)
    {
      var key := keys[k];
      assert keys[k..][0] == key && keys[k..][1..] == keys[k + 1..];
      if key !in index {
        return Raise(KeyError(key));
      }
      FilledStep(labelNames, labels, done, key);
      result := result[index[key] := labels[key]];
      done := done + {key};
      k := k + 1;
    }
    assert keys[k..] == [];
    assert done == labels.Keys;
    r := Ok(result);
  }

  // ================================================================ encoding

  /** The Prometheus family classes the encoder builds. */
  datatype PromKind = CounterFamily | GaugeFamily

  datatype Number = Whole(n: int) | Fraction(x: real)

  /** One `add_metric` call: the label values and the value. */
  datatype Sample = Sample(labelValues: seq<string>, value: Number)

  datatype PromFamily = PromFamily(kind: PromKind, name: string, documentation: string,
                                   labels: seq<string>, samples: seq<Sample>)

  /** `instance_list`: the family's instances, taken in sorted key order. */
  function InstanceList(family: Family): (r: seq<Instance>)
    reads family
    ensures |r| == |family.instances|
    ensures forall i | 0 <= i < |r| :: r[i] in family.instances.Values
  {
    var instances := family.instances;
    var keys := SortedSeq(instances.Keys);
    seq(|keys|, i requires 0 <= i < |keys| => instances[keys[i]])
  }

  /** The objects of the family's instances. */
  function InstanceObjects(family: Family): set<object>
    reads family
  {
    set m | m in family.instances.Values :: m.Object()
  }

  /** What the encoder can read from an instance: its labels and the attributes its class has. */
  datatype Reading = Reading(labels: map<string, string>, count: Option<int>, totalSeconds: Option<real>, value: Option<int>)

  /** A counter has `count`, a gauge `value`, a timer `count` and `total_seconds`. */
  function ReadInstance(m: Instance): Reading
    reads m.Object()
  {
    match m
    case CounterOf(c) => Reading(c.labels, Some(c.count), None, None)
    case GaugeOf(g) => Reading(g.labels, None, None, Some(g.value))
    case TimerOf(t) => Reading(t.labels, Some(t.count), Some(t.totalSeconds), None)
  }

  function ReadAll(insts: seq<Instance>): (r: seq<Reading>)
    reads set m | m in insts :: m.Object()
    ensures |r| == |insts|
    ensures forall i | 0 <= i < |insts| :: r[i] == ReadInstance(insts[i])
  {
    if insts == [] then [] else [ReadInstance(insts[0])] + ReadAll(insts[1..])
  }

  /** The readings of the family's instances, in `instance_list` order. */
  function Readings(family: Family): (r: seq<Reading>)
    reads family, InstanceObjects(family)
    ensures |r| == |family.instances|
    ensures forall i | 0 <= i < |r| :: r[i] == ReadInstance(InstanceList(family)[i])
  {
    var insts := InstanceList(family);
    assert forall m | m in insts :: m.Object() in InstanceObjects(family);
    ReadAll(insts)
  }

  /** The numeric attributes the encoder reads. */
  datatype Attr = CountAttr | TotalAttr | ValueAttr

  /** `instance.count`, `instance.total_seconds` or `instance.value`; an attribute the class lacks raises AttributeError. */
  function Get(r: Reading, attr: Attr): Result<Number>
  {
    match attr
    case CountAttr => if r.count.Some? then Ok(Whole(r.count.value)) else Raise(AttributeError("count"))
    case TotalAttr => if r.totalSeconds.Some? then Ok(Fraction(r.totalSeconds.value)) else Raise(AttributeError("total_seconds"))
    case ValueAttr => if r.value.Some? then Ok(Whole(r.value.value)) else Raise(AttributeError("value"))
  }

  /** One `add_metric`: the instance's label list and the attribute's value. */
  function SampleOf(labelNames: seq<string>, r: Reading, attr: Attr): Result<Sample>
  {
    match InstanceLabels(labelNames, r.labels)
    case Raise(e) => Raise(e)
    case Ok(values) =>
      match Get(r, attr)
      case Raise(e) => Raise(e)
      case Ok(v) => Ok(Sample(values, v))
  }

  /** One sample attempt per instance, in order. */
  function SampleList(labelNames: seq<string>, readings: seq<Reading>, attr: Attr): (r: seq<Result<Sample>>)
    ensures |r| == |readings|
  {
    seq(|readings|, i requires 0 <= i < |readings| => SampleOf(labelNames, readings[i], attr))
  }

  /** The samples of all instances, or the first error. */
  function Samples(labelNames: seq<string>, readings: seq<Reading>, attr: Attr): Result<seq<Sample>>
  {
    Collect(SampleList(labelNames, readings, attr))
  }

  /** The timer samples: count and total side by side, from one label list per instance. */
  function TimerSamples(labelNames: seq<string>, counts: seq<Sample>, totals: seq<Sample>, readings: seq<Reading>)
    : (r: Result<(seq<Sample>, seq<Sample>)>)
    ensures r.Ok? ==> |r.value.0| == |counts| + |readings| && |r.value.1| == |totals| + |readings|
    decreases |readings|
  {
    if readings == [] then Ok((counts, totals))
    else
      match InstanceLabels(labelNames, readings[0].labels)
      case Raise(e) => Raise(e)
      case Ok(values) =>
        match Get(readings[0], CountAttr)
        case Raise(e) => Raise(e)
        case Ok(n) =>
          match Get(readings[0], TotalAttr)
          case Raise(e) => Raise(e)
          case Ok(x) =>
            TimerSamples(labelNames, counts + [Sample(values, n)], totals + [Sample(values, x)], readings[1..])
  }

  /**
   * `encode` of a family given its type, name, description, label names
   * and instance readings: a timer family becomes two counter families,
   * '<name>_count' and '<name>_totalSeconds'; a counter or gauge family
   * becomes one family of its kind with an empty description, reading
   * `counterAttr` from a counter's instances and `value` from a gauge's;
   * any other type raises ValueError.
   */
  function EncodeWith(counterAttr: Attr, familyType: string, name: string, description: string,
                      labelNames: seq<string>, readings: seq<Reading>): Result<seq<PromFamily>>
  {
    var exported := PrometheusName(name);
    if familyType == TIMER then
      match TimerSamples(labelNames, [], [], readings)
      case Raise(e) => Raise(e)
      case Ok(pair) =>
        Ok([PromFamily(CounterFamily, exported + "_count", description, labelNames, pair.0),
            PromFamily(CounterFamily, exported + "_totalSeconds", description, labelNames, pair.1)])
    else if familyType == COUNTER || familyType == GAUGE then
      var kind := if familyType == COUNTER then CounterFamily else GaugeFamily;
      var attr := if familyType == COUNTER then counterAttr else ValueAttr;
      match Samples(labelNames, readings, attr)
      case Raise(e) => Raise(e)
      case Ok(samples) => Ok([PromFamily(kind, exported, "", labelNames, samples)])
    else Raise(ValueError("Unsupported type " + familyType))
  }

  /** `encode` as written: counter families, like gauge families, read `instance.value`. */
  function Encode(family: Family): Result<seq<PromFamily>>
    reads family, InstanceObjects(family)
  {
    EncodeWith(ValueAttr, family.familyType, family.name, family.description, family.labelNames, Readings(family))
  }

  /** `encode` with counter families reading `instance.count`, the attribute a counter has. */
  function EncodeCorrected(family: Family): Result<seq<PromFamily>>
    reads family, InstanceObjects(family)
  {
    EncodeWith(CountAttr, family.familyType, family.name, family.description, family.labelNames, Readings(family))
  }

  /**
   * As written, a counter family holding any counter cannot be encoded:
   * `Counter` has no `value` attribute, so the first instance raises
   * (AttributeError, or KeyError from its labels).
   */
  lemma CounterFamilyEncodeRaises(family: Family)
    requires family.familyType == COUNTER && |family.instances| > 0
    requires forall m | m in family.instances.Values :: m.CounterOf?
    ensures Encode(family).Raise?
  {
    var readings := Readings(family);
    assert InstanceList(family)[0] in family.instances.Values;
    assert readings[0].value == None;
    assert SampleOf(family.labelNames, readings[0], ValueAttr).Raise?;
  }

  /**
   * Corrected, a counter family whose instances are counters with labels
   * the family names encodes to one counter family with one sample per
   * instance, in `instance_list` order, carrying that counter's labels and count.
   */
  lemma CounterFamilyEncodeCorrected(family: Family)
    requires family.familyType == COUNTER
    requires forall m | m in family.instances.Values :: m.CounterOf? && forall k | k in m.Labels() :: k in family.labelNames
    ensures EncodeCorrected(family).Ok?
    ensures var r := EncodeCorrected(family).value;
      && |r| == 1 && r[0].kind == CounterFamily && r[0].name == PrometheusName(family.name)
      && |r[0].samples| == |family.instances|
      && forall i | 0 <= i < |family.instances| ::
           && Ok(r[0].samples[i].labelValues) == InstanceLabels(family.labelNames, InstanceList(family)[i].Labels())
           && r[0].samples[i].value == Whole(InstanceList(family)[i].counter.count)
  {
    var readings := Readings(family);
    var insts := InstanceList(family);
    forall i | 0 <= i < |readings|
      ensures readings[i].count == Some(insts[i].counter.count) && readings[i].labels == insts[i].Labels()
      ensures forall k | k in readings[i].labels :: k in family.labelNames
    {
      assert insts[i] in family.instances.Values;
    }
    CounterSamples(family.labelNames, readings);
  }

  /** Readings that all have a count and only named labels give one sample each: its label list and count. */
  lemma CounterSamples(labelNames: seq<string>, readings: seq<Reading>)
    requires forall i | 0 <= i < |readings| :: readings[i].count.Some?
    requires forall i | 0 <= i < |readings| :: forall k | k in readings[i].labels :: k in labelNames
    ensures Samples(labelNames, readings, CountAttr).Ok?
    ensures var s := Samples(labelNames, readings, CountAttr).value;
      && |s| == |readings|
      && forall i | 0 <= i < |readings| ::
           Ok(s[i].labelValues) == InstanceLabels(labelNames, readings[i].labels)
           && s[i].value == Whole(readings[i].count.value)
  {
    var rs := SampleList(labelNames, readings, CountAttr);
    forall i | 0 <= i < |readings|
      ensures rs[i].Ok? && Ok(rs[i].value.labelValues) == InstanceLabels(labelNames, readings[i].labels)
      ensures rs[i].value.value == Whole(readings[i].count.value)
    {
      CountSample(labelNames, readings[i]);
    }
    CollectSpec(rs);
  }

  lemma CountSample(labelNames: seq<string>, reading: Reading)
    requires reading.count.Some? && forall k | k in reading.labels :: k in labelNames
    ensures var s := SampleOf(labelNames, reading, CountAttr);
      && s.Ok? && Ok(s.value.labelValues) == InstanceLabels(labelNames, reading.labels)
      && s.value.value == Whole(reading.count.value)
  {
    InstanceLabelsValues(labelNames, reading.labels);
  }

  /** A timer family encodes to exactly the two counters, each with one sample per instance. */
  lemma EncodeTimerShape(family: Family)
    requires family.familyType == TIMER && Encode(family).Ok?
    ensures var r := Encode(family).value;
      && |r| == 2
      && r[0].kind == CounterFamily && r[0].name == PrometheusName(family.name) + "_count"
      && r[1].kind == CounterFamily && r[1].name == PrometheusName(family.name) + "_totalSeconds"
      && |r[0].samples| == |family.instances| && |r[1].samples| == |family.instances|
  {
  }

  /** A gauge family encodes to one gauge family, one sample per instance. */
  lemma EncodeGaugeShape(family: Family)
    requires family.familyType == GAUGE && Encode(family).Ok?
    ensures var r := Encode(family).value;
      && |r| == 1 && r[0].name == PrometheusName(family.name) && r[0].kind == GaugeFamily
      && |r[0].samples| == |family.instances|
  {
  }

  /** Family types other than TIMER, COUNTER and GAUGE raise ValueError. */
  lemma EncodeUnsupported(family: Family)
    requires family.familyType !in {TIMER, COUNTER, GAUGE}
    ensures Encode(family).Raise? && Encode(family).error.ValueError?
  {
  }

  /** `encode_timer`: one pass over the instances, each adding a sample to both counters. */
  method EncodeTimer(family: Family) returns (r: Result<seq<PromFamily>>)
    requires family.familyType == TIMER
    ensures r == old(Encode(family))
  {
    var name := PrometheusName(family.name);
    var readings := Readings(family);
    var counts: seq<Sample> := [];
    var totals: seq<Sample> := [];
    var i := 0;
    while i < |readings|
      invariant 0 <= i <= |readings|
      invariant TimerSamples(family.labelNames, counts, totals, readings[i..]) == TimerSamples(family.labelNames, [], [], readings)
    {
      assert readings[i..][0] == readings[i] && readings[i..][1..] == readings[i + 1..];
      var reading := readings[i];
      var values := FillLabels(family.labelNames, reading.labels);
      if values.Raise? {
        return Raise(values.error);
      }
      var n := Get(reading, CountAttr);
      if n.Raise? {
        return Raise(n.error);
      }
      var x := Get(reading, TotalAttr);
      if x.Raise? {
        return Raise(x.error);
      }
      counts := counts + [Sample(values.value, n.value)];
      totals := totals + [Sample(values.value, x.value)];
      i := i + 1;
    }
    assert readings[i..] == [];
    r := Ok([PromFamily(CounterFamily, name + "_count", family.description, family.labelNames, counts),
             PromFamily(CounterFamily, name + "_totalSeconds", family.description, family.labelNames, totals)]);
  }

  /** The loop of `encode` adding one sample per instance, stopping at the first error. */
  method AddSamples(labelNames: seq<string>, readings: seq<Reading>, attr: Attr) returns (r: Result<seq<Sample>>)
    ensures r == Samples(labelNames, readings, attr)
  {
    ghost var rs := SampleList(labelNames, readings, attr);
    var samples: seq<Sample> := [];
    var i := 0;
    while i < |readings|
      invariant 0 <= i <= |readings|
      invariant Collect(rs[..i]) == Ok(samples)
    {
      var sample := AddSample(labelNames, readings[i], attr);
      assert rs[i] == sample;
      CollectAdvance(rs, i, samples);
      if sample.Raise? {
        return Raise(sample.error);
      }
      samples := samples + [sample.value];
      i := i + 1;
    }
    assert rs[..i] == rs;
    return Ok(samples);
  }

  /** One pass of `encode`'s loop: the instance's label values, then the attribute's value. */
  method AddSample(labelNames: seq<string>, reading: Reading, attr: Attr) returns (r: Result<Sample>)
    ensures r == SampleOf(labelNames, reading, attr)
  {
    var values := FillLabels(labelNames, reading.labels);
    if values.Raise? {
      return Raise(values.error);
    }
    var v := Get(reading, attr);
    if v.Raise? {
      return Raise(v.error);
    }
    r := Ok(Sample(values.value, v.value));
  }

  /** `encode`: the timer case, else one pass over the instances adding each value. */
  method EncodeFamily(family: Family) returns (r: Result<seq<PromFamily>>)
    ensures r == old(Encode(family))
  {
    if family.familyType == TIMER {
      r := EncodeTimer(family);
      return;
    }
    var kind: PromKind;
    if family.familyType == COUNTER {
      kind := CounterFamily;
    } else if family.familyType == GAUGE {
      kind := GaugeFamily;
    } else {
      return Raise(ValueError("Unsupported type " + family.familyType));
    }
    var samples := AddSamples(family.labelNames, Readings(family), ValueAttr);
    if samples.Raise? {
      return Raise(samples.error);
    }
    r := Ok([PromFamily(kind, PrometheusName(family.name), "", family.labelNames, samples.value)]);
  }
}
