/**
 * The build tool's metrics bookkeeping: counters, gauges and timers grouped
 * into families by name, a family handing out one instance per label
 * binding, and a registry that looks families up by name and collects the
 * instances changed since the last push.
 *
 * Clock readings are parameters (`now`), as is the duration a timer
 * observes. The pusher thread and the locks are not modelled: every
 * operation runs alone.
 */
module BaseMetrics {
  import opened Wrappers
  import opened Text

  /** A UTC timestamp. */
  type Time = int

  const GAUGE := "GAUGE"
  const COUNTER := "COUNTER"
  const TIMER := "TIMER"

  /** The metric class a family's factory constructs. */
  datatype Factory = MakeCounter | MakeGauge | MakeTimer

  /** The factory belonging to each of the three family types. */
  predicate FactoryFits(factory: Factory, familyType: string)
  {
    match factory
    case MakeCounter => familyType == COUNTER
    case MakeGauge => familyType == GAUGE
    case MakeTimer => familyType == TIMER
  }

  // ================================================================ instance keys

  /** The 'k=v' pieces of the labels, keys in sorted order, run together. */
  function LabelPieces(keys: seq<string>, labels: map<string, string>): string
    requires forall k | k in keys :: k in labels
  {
    if keys == [] then ""
    else keys[0] + "=" + labels[keys[0]] + LabelPieces(keys[1..], labels)
  }

  /** The key a family files an instance under: every 'k=v' concatenated, with no separator. */
  function LabelKey(labels: map<string, string>): string
  {
    LabelPieces(SortedSeq(labels.Keys), labels)
  }

  /** The key of a single label is 'k=v'. */
  lemma LabelKeySingle(k: string, v: string)
    ensures LabelKey(map[k := v]) == k + "=" + v
  {
    var labels := map[k := v];
    var keys := SortedSeq(labels.Keys);
    assert labels.Keys == {k};
    assert |keys| == 1 && keys[0] in keys;
    assert keys == [k];
    assert keys[1..] == [];
    assert LabelPieces(keys, labels) == k + "=" + v + LabelPieces([], labels);
  }

  /**
   * Two different label bindings can share a key, so `get` hands both the
   * same instance: {'a': 'b=c'} and {'a=b': 'c'} both give 'a=b=c'.
   */
  lemma LabelKeysCollide()
    ensures map["a" := "b=c"] != map["a=b" := "c"]
    ensures LabelKey(map["a" := "b=c"]) == LabelKey(map["a=b" := "c"])
  {
    LabelKeySingle("a", "b=c");
    LabelKeySingle("a=b", "c");
    assert "a" in map["a" := "b=c"] && "a" !in map["a=b" := "c"];
  }

  // ================================================================ metrics

  /** A metric object of any of the three classes. */
  datatype Instance = CounterOf(counter: Counter) | GaugeOf(gauge: Gauge) | TimerOf(timer: Timer)
  {
    function Family(): Family
    {
      match this
      case CounterOf(c) => c.family
      case GaugeOf(g) => g.family
      case TimerOf(t) => t.family
    }

    function Labels(): map<string, string>
    {
      match this
      case CounterOf(c) => c.labels
      case GaugeOf(g) => g.labels
      case TimerOf(t) => t.labels
    }

    function Object(): object
    {
      match this
      case CounterOf(c) => c
      case GaugeOf(g) => g
      case TimerOf(t) => t
    }

    predicate MadeBy(factory: Factory)
    {
      match factory
      case MakeCounter => CounterOf?
      case MakeGauge => GaugeOf?
      case MakeTimer => TimerOf?
    }

    /** The state the constructors leave: zero counts and values, never modified. */
    predicate Initial()
      reads Object()
    {
      match this
      case CounterOf(c) => c.count == 0 && c.lastModified == None
      case GaugeOf(g) => g.value == 0 && g.lastModified == None
      case TimerOf(t) => t.count == 0 && t.totalSeconds == 0.0 && t.lastModified == None
    }
  }

  class Counter {
    const family: Family
    const labels: map<string, string>
    var count: int
    var lastModified: Option<Time>

    constructor (family: Family, labels: map<string, string>)
      ensures this.family == family && this.labels == labels
      ensures count == 0 && lastModified == None
    {
      this.family := family;
      this.labels := labels;
      count := 0;
      lastModified := None;
    }

    /** `touch`: the time given, or the clock's, and a place in the registry's pending set. */
    method Touch(utc: Option<Time>, now: Time)
      modifies this`lastModified, family.registry`updated
      ensures lastModified == Some(utc.GetOr(now))
      ensures family.registry.updated == old(family.registry.updated) + {CounterOf(this)}
    {
      lastModified := Some(utc.GetOr(now));
      family.registry.QueueUpdate(CounterOf(this));
    }

    method Inc(amount: int, utc: Option<Time>, now: Time)
      modifies this, family.registry`updated
      ensures count == old(count) + amount
      ensures lastModified == Some(utc.GetOr(now))
      ensures family.registry.updated == old(family.registry.updated) + {CounterOf(this)}
    {
      count := count + amount;
      Touch(utc, now);
    }
  }

  /** A gauge. The optional `compute` override of its value is not modelled: no factory passes one. */
  class Gauge {
    const family: Family
    const labels: map<string, string>
    var value: int
    var lastModified: Option<Time>

    constructor (family: Family, labels: map<string, string>)
      ensures this.family == family && this.labels == labels
      ensures value == 0 && lastModified == None
    {
      this.family := family;
      this.labels := labels;
      value := 0;
      lastModified := None;
    }

    method Touch(utc: Option<Time>, now: Time)
      modifies this`lastModified, family.registry`updated
      ensures lastModified == Some(utc.GetOr(now))
      ensures family.registry.updated == old(family.registry.updated) + {GaugeOf(this)}
    {
      lastModified := Some(utc.GetOr(now));
      family.registry.QueueUpdate(GaugeOf(this));
    }

    method Set(newValue: int, utc: Option<Time>, now: Time)
      modifies this, family.registry`updated
      ensures value == newValue
      ensures lastModified == Some(utc.GetOr(now))
      ensures family.registry.updated == old(family.registry.updated) + {GaugeOf(this)}
    {
      value := newValue;
      Touch(utc, now);
    }

    method Inc(amount: int, utc: Option<Time>, now: Time)
      modifies this, family.registry`updated
      ensures value == old(value) + amount
      ensures lastModified == Some(utc.GetOr(now))
      ensures family.registry.updated == old(family.registry.updated) + {GaugeOf(this)}
    {
      value := value + amount;
      Touch(utc, now);
    }

    method Dec(amount: int, utc: Option<Time>, now: Time)
      modifies this, family.registry`updated
      ensures value == old(value) - amount
      ensures lastModified == Some(utc.GetOr(now))
      ensures family.registry.updated == old(family.registry.updated) + {GaugeOf(this)}
    {
      value := value - amount;
      Touch(utc, now);
    }

    /**
     * `track(func)`: one more while the call runs, one less afterwards. The
     * call is given by its outcome, returned or raised; `started` and
     * `finished` are the clock's readings at the increment and the decrement.
     */
    method Track<T>(call: Result<T>, started: Time, finished: Time) returns (r: Result<T>)
      modifies this, family.registry`updated
      ensures r == call
      ensures value == old(value)
      ensures lastModified == Some(finished)
      ensures family.registry.updated == old(family.registry.updated) + {GaugeOf(this)}
    {
      Inc(1, None, started);
      r := call;
      Dec(1, None, finished);
    }
  }

  class Timer {
    const family: Family
    const labels: map<string, string>
    var count: int
    var totalSeconds: real
    var lastModified: Option<Time>

    constructor (family: Family, labels: map<string, string>)
      ensures this.family == family && this.labels == labels
      ensures count == 0 && totalSeconds == 0.0 && lastModified == None
    {
      this.family := family;
      this.labels := labels;
      count := 0;
      totalSeconds := 0.0;
      lastModified := None;
    }

    method Touch(utc: Option<Time>, now: Time)
      modifies this`lastModified, family.registry`updated
      ensures lastModified == Some(utc.GetOr(now))
      ensures family.registry.updated == old(family.registry.updated) + {TimerOf(this)}
    {
      lastModified := Some(utc.GetOr(now));
      family.registry.QueueUpdate(TimerOf(this));
    }

    method Observe(seconds: real, utc: Option<Time>, now: Time)
      modifies this, family.registry`updated
      ensures count == old(count) + 1
      ensures totalSeconds == old(totalSeconds) + seconds
      ensures lastModified == Some(utc.GetOr(now))
      ensures family.registry.updated == old(family.registry.updated) + {TimerOf(this)}
    {
      count := count + 1;
      totalSeconds := totalSeconds + seconds;
      Touch(utc, now);
    }
  }

  // ================================================================ the timer's lock

  /**
   * A metric's `threading.Lock`: held or free. It is not re-entrant, so a
   * thread that asks for it while holding it waits forever.
   */
  datatype Mutex = Mutex(held: bool)

  /** `acquire()`: the lock now held, or None when the caller would wait forever. */
  function Acquire(m: Mutex): (r: Option<Mutex>)
    ensures r.Some? <==> !m.held
    ensures r.Some? ==> r.value.held
  {
    if m.held then None else Some(Mutex(true))
  }

  function Release(m: Mutex): (r: Mutex)
    ensures !r.held
  {
    Mutex(false)
  }

  /** `observe`'s `with self.mutex:` block: the lock afterwards, or None when it never finishes. */
  function ObserveLocking(m: Mutex): Option<Mutex>
  {
    match Acquire(m)
    case None => None
    case Some(held) => Some(Release(held))
  }

  /**
   * `time` as written: it holds `timer.mutex` while its `finally` calls
   * `timer.observe`, which asks for the same lock again.
   */
  function TimeLockingAsWritten(m: Mutex): Option<Mutex>
  {
    match Acquire(m)
    case None => None
    case Some(held) =>
      match ObserveLocking(held)
      case None => None
      case Some(after) => Some(Release(after))
  }

  /** As written, `time` never returns, whatever state the lock starts in. */
  lemma TimeAsWrittenBlocks(m: Mutex)
    ensures TimeLockingAsWritten(m) == None
  {
  }

  /** `time` with the observation made after its own lock is released. */
  function TimeLocking(m: Mutex): Option<Mutex>
  {
    match Acquire(m)
    case None => None
    case Some(held) => ObserveLocking(Release(held))
  }

  /** Corrected, `time` on a free lock returns and leaves the lock free. */
  lemma TimeReturns(m: Mutex)
    requires !m.held
    ensures TimeLocking(m) == Some(Mutex(false))
  {
  }

  // ================================================================ families

  class Family {
    const registry: Registry
    const name: string
    const description: string
    const factory: Factory
    const familyType: string
    /** The label names the family was registered with, in order. */
    const labelNames: seq<string>
    /** The instances made so far, by label key. */
    var instances: map<string, Instance>

    constructor (registry: Registry, name: string, description: string, factory: Factory,
                 familyType: string, labelNames: seq<string>)
      ensures this.registry == registry && this.name == name && this.description == description
      ensures this.factory == factory && this.familyType == familyType && this.labelNames == labelNames
      ensures instances == map[]
    {
      this.registry := registry;
      this.name := name;
      this.description := description;
      this.factory := factory;
      this.familyType := familyType;
      this.labelNames := labelNames;
      instances := map[];
    }

    /**
     * `get(labels)`: the instance already filed under the labels' key, or a
     * new one from the factory, filed under that key.
     */
    method Get(labels: map<string, string>) returns (got: Instance)
      modifies this`instances
      ensures LabelKey(labels) in old(instances) ==> got == old(instances)[LabelKey(labels)] && instances == old(instances)
      ensures LabelKey(labels) !in old(instances) ==>
        && instances == old(instances)[LabelKey(labels) := got]
        && fresh(got.Object()) && got.MadeBy(factory) && got.Initial()
        && got.Family() == this && got.Labels() == labels
    {
      var key := LabelKey(labels);
      if key in instances {
        got := instances[key];
      } else {
        match factory {
          case MakeCounter =>
            var c := new Counter(this, labels);
            got := CounterOf(c);
          case MakeGauge =>
            var g := new Gauge(this, labels);
            got := GaugeOf(g);
          case MakeTimer =>
            var t := new Timer(this, labels);
            got := TimerOf(t);
        }
        instances := instances[key := got];
      }
    }
  }

  /** Asking the same family twice for labels with the same key gives the same instance, made once. */
  method GetTwice(family: Family, first: map<string, string>, second: map<string, string>)
    returns (a: Instance, b: Instance)
    requires LabelKey(first) == LabelKey(second)
    modifies family`instances
    ensures a == b
    ensures LabelKey(first) in family.instances && family.instances[LabelKey(first)] == a
    ensures |family.instances.Keys - old(family.instances.Keys)| <= 1
  {
    a := family.Get(first);
    b := family.Get(second);
    var key := LabelKey(first);
    if key in old(family.instances) {
      assert family.instances.Keys == old(family.instances.Keys);
    } else {
      assert family.instances.Keys - old(family.instances.Keys) == {key};
    }
  }

  // ================================================================ the registry

  /** The message of the TypeError a lookup of the wrong type raises. */
  function NotA(familyType: string): string
  {
    if familyType == COUNTER then "is not a Counter"
    else if familyType == GAUGE then "is not a Gauge"
    else "is not a Timer"
  }

  class Registry {
    /** `options.monitoring_enabled`. */
    const monitoringEnabled: bool
    const startTime: Time
    var families: map<string, Family>
    /** The metrics changed since the last push. */
    var updated: set<Instance>
    /** The pending sets handed to `_do_flush_updated_metrics`, oldest first. */
    var flushed: seq<set<Instance>>

    constructor (monitoringEnabled: bool, startTime: Time)
      ensures this.monitoringEnabled == monitoringEnabled && this.startTime == startTime
      ensures families == map[] && updated == {} && flushed == []
    {
      this.monitoringEnabled := monitoringEnabled;
      this.startTime := startTime;
      families := map[];
      updated := {};
      flushed := [];
    }

    /**
     * Every family is filed under its own name, belongs to this registry and
     * makes the metric class of its type, and every instance is the family's
     * own and of that class.
     */
    ghost predicate Valid()
      reads this`families, families.Values
    {
      && (forall n | n in families ::
            families[n].registry == this && families[n].name == n
            && FactoryFits(families[n].factory, families[n].familyType))
      && (forall n, k | n in families && k in families[n].instances ::
            families[n].instances[k].Family() == families[n]
            && families[n].instances[k].MadeBy(families[n].factory))
    }

    /** `queue_update`: a set, so queueing the same metric twice keeps one entry. */
    method QueueUpdate(metric: Instance)
      modifies this`updated
      ensures updated == old(updated) + {metric}
    {
      updated := updated + {metric};
    }

    /**
     * `__register_family`: an existing family of that name is returned and
     * left in place; otherwise a new, empty family is filed under the name
     * and, as written, nothing is returned.
     */
    method RegisterFamily(name: string, description: string, labelNames: seq<string>,
                          factory: Factory, familyType: string) returns (existing: Option<Family>)
      requires Valid() && FactoryFits(factory, familyType)
      modifies this`families
      ensures Valid()
      ensures name in old(families) ==> existing == Some(old(families)[name]) && families == old(families)
      ensures name !in old(families) ==>
        && existing == None && name in families && fresh(families[name])
        && families == old(families)[name := families[name]]
        && families[name].familyType == familyType && families[name].factory == factory
        && families[name].description == description && families[name].labelNames == labelNames
        && families[name].instances == map[]
    {
      if name in families {
        existing := Some(families[name]);
      } else {
        var family := new Family(this, name, description, factory, familyType, labelNames);
        families := families[name := family];
        existing := None;
      }
    }

    /** The family object filed under the name, if any. */
    function FamilyObjects(name: string): set<object>
      reads this`families
    {
      if name in families then {families[name]} else {}
    }

    /** The instance the family under `name` already holds for the labels' key. */
    function Existing(name: string, labels: map<string, string>): Option<Instance>
      reads this`families, FamilyObjects(name)
    {
      if name in families && LabelKey(labels) in families[name].instances
      then Some(families[name].instances[LabelKey(labels)]) else None
    }

    function ExistingObjects(name: string, labels: map<string, string>): set<object>
      reads this`families, FamilyObjects(name)
    {
      match Existing(name, labels)
      case None => {}
      case Some(m) => {m.Object()}
    }

    /** What looking up `name` for the given type raises, if anything. */
    function LookupError(name: string, familyType: string): Option<Exception>
      reads this`families, FamilyObjects(name)
    {
      if name !in families then Some(KeyError(name))
      else if families[name].familyType != familyType then Some(TypeError(NotA(familyType)))
      else None
    }

    /**
     * `counter`, `gauge` and `timer`: the family under the name, which must
     * have the type asked for, hands out the instance for the labels.
     */
    method Metric(name: string, labels: map<string, string>, familyType: string) returns (r: Result<Instance>)
      requires Valid()
      modifies FamilyObjects(name)
      ensures Valid() && families == old(families)
      ensures r.Ok? <==> old(LookupError(name, familyType)).None?
      ensures r.Raise? ==> r.error == old(LookupError(name, familyType)).value && unchanged(FamilyObjects(name))
      ensures r.Ok? && old(Existing(name, labels)).Some? ==>
        r.value == old(Existing(name, labels)).value && unchanged(FamilyObjects(name))
      ensures r.Ok? ==> Existing(name, labels) == Some(r.value) && r.value.Family() == families[name]
      ensures r.Ok? ==> r.value.MadeBy(families[name].factory) && FactoryFits(families[name].factory, familyType)
      ensures r.Ok? && old(Existing(name, labels)).None? ==> fresh(r.value.Object()) && r.value.Initial()
    {
      if name !in families {
        return Raise(KeyError(name));
      }
      var family := families[name];
      if family.familyType != familyType {
        return Raise(TypeError(NotA(familyType)));
      }
      var got := family.Get(labels);
      r := Ok(got);
    }

    /** The count of the counter already held for the labels, 0 when there is none yet. */
    function CountOf(name: string, labels: map<string, string>): int
      reads this`families, FamilyObjects(name), ExistingObjects(name, labels)
    {
      match Existing(name, labels)
      case Some(CounterOf(c)) => c.count
      case _ => 0
    }

    /** The value of the gauge already held for the labels, 0 when there is none yet. */
    function ValueOf(name: string, labels: map<string, string>): int
      reads this`families, FamilyObjects(name), ExistingObjects(name, labels)
    {
      match Existing(name, labels)
      case Some(GaugeOf(g)) => g.value
      case _ => 0
    }

    /** The count and total of the timer already held for the labels, zero when there is none yet. */
    function ObservedOf(name: string, labels: map<string, string>): (int, real)
      reads this`families, FamilyObjects(name), ExistingObjects(name, labels)
    {
      match Existing(name, labels)
      case Some(TimerOf(t)) => (t.count, t.totalSeconds)
      case _ => (0, 0.0)
    }

    /** `inc(name, labels, amount)`: the counter for the labels goes up by the amount. */
    method Inc(name: string, labels: map<string, string>, amount: int, now: Time) returns (r: Result<()>)
      requires Valid()
      modifies this`updated, FamilyObjects(name), ExistingObjects(name, labels)
      ensures Valid() && families == old(families)
      ensures old(LookupError(name, COUNTER)).Some? ==>
        r == Raise(old(LookupError(name, COUNTER)).value) && updated == old(updated)
      ensures old(LookupError(name, COUNTER)).None? ==>
        && r.Ok? && Existing(name, labels).Some? && Existing(name, labels).value.CounterOf?
        && CountOf(name, labels) == old(CountOf(name, labels)) + amount
        && Existing(name, labels).value.counter.lastModified == Some(now)
        && updated == old(updated) + {Existing(name, labels).value}
    {
      ghost var before := CountOf(name, labels);
      var m := Metric(name, labels, COUNTER);
      match m {
        case Raise(e) => r := Raise(e);
        case Ok(instance) =>
          var c := instance.counter;
          assert c.count == before;
          c.Inc(amount, None, now);
          r := Ok(());
      }
    }

    /** `set(name, labels, value)`: the gauge for the labels takes the value. */
    method Set(name: string, labels: map<string, string>, value: int, now: Time) returns (r: Result<()>)
      requires Valid()
      modifies this`updated, FamilyObjects(name), ExistingObjects(name, labels)
      ensures Valid() && families == old(families)
      ensures old(LookupError(name, GAUGE)).Some? ==>
        r == Raise(old(LookupError(name, GAUGE)).value) && updated == old(updated)
      ensures old(LookupError(name, GAUGE)).None? ==>
        && r.Ok? && Existing(name, labels).Some? && Existing(name, labels).value.GaugeOf?
        && ValueOf(name, labels) == value
        && Existing(name, labels).value.gauge.lastModified == Some(now)
        && updated == old(updated) + {Existing(name, labels).value}
    {
      var m := Metric(name, labels, GAUGE);
      match m {
        case Raise(e) => r := Raise(e);
        case Ok(instance) =>
          var g := instance.gauge;
          g.Set(value, None, now);
          r := Ok(());
      }
    }

    /**
     * `track(name, labels, func)`: the gauge's `track`. The registry's
     * method does not return the call's value: it returns None, or lets the
     * call's exception through.
     */
    method Track<T>(name: string, labels: map<string, string>, call: Result<T>, started: Time, finished: Time)
      returns (r: Result<()>)
      requires Valid()
      modifies this`updated, FamilyObjects(name), ExistingObjects(name, labels)
      ensures Valid() && families == old(families)
      ensures old(LookupError(name, GAUGE)).Some? ==>
        r == Raise(old(LookupError(name, GAUGE)).value) && updated == old(updated)
      ensures old(LookupError(name, GAUGE)).None? ==>
        && (r == if call.Ok? then Ok(()) else Raise(call.error))
        && Existing(name, labels).Some? && Existing(name, labels).value.GaugeOf?
        && ValueOf(name, labels) == old(ValueOf(name, labels))
        && updated == old(updated) + {Existing(name, labels).value}
    {
      ghost var before := ValueOf(name, labels);
      var m := Metric(name, labels, GAUGE);
      match m {
        case Raise(e) => r := Raise(e);
        case Ok(instance) =>
          var g := instance.gauge;
          assert g.value == before;
          var outcome := g.Track(call, started, finished);
          r := if outcome.Ok? then Ok(()) else Raise(outcome.error);
      }
    }

    /**
     * `time(name, labels, func)`: the call's outcome, after the timer has
     * observed the call's duration, whether the call returned or raised.
     * The observation is made outside the timer's lock (see TimeLocking).
     */
    method Time<T>(name: string, labels: map<string, string>, call: Result<T>, seconds: real, now: Time)
      returns (r: Result<T>)
      requires Valid()
      modifies this`updated, FamilyObjects(name), ExistingObjects(name, labels)
      ensures Valid() && families == old(families)
      ensures old(LookupError(name, TIMER)).Some? ==>
        r == Raise(old(LookupError(name, TIMER)).value) && updated == old(updated)
      ensures old(LookupError(name, TIMER)).None? ==>
        && r == call
        && Existing(name, labels).Some? && Existing(name, labels).value.TimerOf?
        && ObservedOf(name, labels).0 == old(ObservedOf(name, labels)).0 + 1
        && ObservedOf(name, labels).1 == old(ObservedOf(name, labels)).1 + seconds
        && updated == old(updated) + {Existing(name, labels).value}
    {
      ghost var before := ObservedOf(name, labels);
      var m := Metric(name, labels, TIMER);
      match m {
        case Raise(e) => r := Raise(e);
        case Ok(instance) =>
          var t := instance.timer;
          assert (t.count, t.totalSeconds) == before;
          r := call;
          t.Observe(seconds, None, now);
      }
    }

    /**
     * `flush_updated_metrics`: nothing when monitoring is disabled;
     * otherwise the pending set goes to the push and a new empty set starts.
     */
    method FlushUpdatedMetrics()
      modifies this`updated, this`flushed
      ensures !monitoringEnabled ==> updated == old(updated) && flushed == old(flushed)
      ensures monitoringEnabled ==> flushed == old(flushed) + [old(updated)] && updated == {}
    {
      if !monitoringEnabled {
        return;
      }
      flushed := flushed + [updated];
      updated := {};
    }
  }
}
