/**
 * `infer`: the configuration a Spring Boot service reports through its
 * `/env` endpoint, re-layered the way Spring itself layers it. The decoded
 * endpoint document is the input (the HTTP fetch is not modelled); the
 * result is an `ExpressionDict` whose entries were updated layer by layer.
 */
module ScrapeSpringConfig {
  import opened Wrappers
  import opened Text
  import opened Json
  import ExpressionDict

  type Entries = map<string, ExpressionDict.Value>

  // ================================================================ application config keys

  /** The literal head of `applicationConfig: \[(.+)\](.*)`. */
  const ConfigPrefix: string := "applicationConfig: ["

  /**
   * `group(1) + group(2)` for the rest of the first line after the head:
   * the greedy `(.+)` ends at the last ']' that leaves it non-empty, and
   * `(.*)` takes what follows.
   */
  function Rekey(line: string): Option<string>
  {
    if |line| < 2 then None
    else
      var c := RFindChar(line[1..], ']');
      if c == -1 then None else Some(line[..c + 1] + line[c + 2..])
  }

  /**
   * The re-keyed name when `name` matches the pattern at its start, else
   * None; `.` stops at a newline, so only the first line counts.
   */
  function ConfigEntry(name: string): (r: Option<string>)
    ensures r.Some? ==> StartsWith(name, ConfigPrefix)
  {
    if !StartsWith(name, ConfigPrefix) then None
    else Rekey(name[|ConfigPrefix|..LineEnd(name, |ConfigPrefix|)])
  }

  lemma RekeyOf(x: string, suffix: string)
    requires |x| > 0 && ']' !in suffix
    ensures Rekey(x + "]" + suffix) == Some(x + suffix)
  {
    var line := x + "]" + suffix;
    var tail := line[1..];
    assert tail[|x| - 1] == ']';
    forall j | |x| - 1 < j < |tail| ensures tail[j] != ']' {
      assert tail[j] == suffix[j - |x|];
    }
    RFindCharAt(tail, ']', |x| - 1);
    assert line[..|x|] == x;
    assert line[|x| + 1..] == suffix;
  }

  /** A one-line remainder after `prefix` is everything a `.*` after that prefix matches. */
  lemma PrefixedLine(prefix: string, line: string)
    requires '\n' !in line
    ensures StartsWith(prefix + line, prefix)
    ensures (prefix + line)[|prefix|..LineEnd(prefix + line, |prefix|)] == line
  {
    var name := prefix + line;
    var p := |prefix|;
    assert name[..p] == prefix;
    forall q | p <= q < |name| ensures name[q] != '\n' {
      assert name[q] == line[q - p];
    }
    assert LineEnd(name, p) == |name|;
    assert name[p..] == line;
  }

  lemma ConcatLine(a: string, x: string, b: string, c: string)
    ensures a + x + b + c == a + (x + b + c)
  {
  }

  /** 'applicationConfig: [X]suffix' is re-keyed as X + suffix (X non-empty, one line, no ']' after X). */
  lemma ConfigEntryOf(x: string, suffix: string)
    requires |x| > 0 && '\n' !in x && '\n' !in suffix && ']' !in suffix
    ensures ConfigEntry(ConfigPrefix + x + "]" + suffix) == Some(x + suffix)
  {
    var line := x + "]" + suffix;
    assert '\n' !in line by {
      forall q | 0 <= q < |line| ensures line[q] != '\n' {
        if q < |x| { assert line[q] == x[q]; }
        else if q > |x| { assert line[q] == suffix[q - |x| - 1]; }
      }
    }
    PrefixedLine(ConfigPrefix, line);
    RekeyOf(x, suffix);
    ConcatLine(ConfigPrefix, x, "]", suffix);
  }

  /** A name that does not start with 'applicationConfig: [' contributes nothing. */
  lemma OtherNamesIgnored(name: string)
    requires !StartsWith(name, ConfigPrefix)
    ensures ConfigEntry(name) == None
  {
  }

  /** `json.items()`, in sorted order of the names. */
  function ItemsOf(fields: map<string, Json>): (r: seq<(string, Json)>)
    ensures forall i | 0 <= i < |r| :: r[i].0 in fields && r[i].1 == fields[r[i].0]
  {
    var names := SortedSeq(fields.Keys);
    seq(|names|, i requires 0 <= i < |names| => (names[i], fields[names[i]]))
  }

  /** Every name of the document is one of its items. */
  lemma ItemsCover(fields: map<string, Json>, n: string)
    requires n in fields
    ensures exists i | 0 <= i < |ItemsOf(fields)| :: ItemsOf(fields)[i].0 == n
  {
    var names := SortedSeq(fields.Keys);
    var i :| 0 <= i < |names| && names[i] == n;
    assert ItemsOf(fields)[i].0 == n;
  }

  /** Each item with the re-keyed form of its name. */
  function Keyed(items: seq<(string, Json)>): (r: seq<(Option<string>, Json)>)
    ensures |r| == |items|
  {
    seq(|items|, i requires 0 <= i < |items| => (ConfigEntry(items[i].0), items[i].1))
  }

  /** One pass of the loop over the items: a matching name is re-keyed, any other is skipped. */
  function AddItem(appConfig: map<string, Json>, entry: (Option<string>, Json)): map<string, Json>
  {
    match entry.0
    case None => appConfig
    case Some(key) => appConfig[key := entry.1]
  }

  /** The items added to `appConfig` in order: a later item wins. */
  function AddItems(appConfig: map<string, Json>, entries: seq<(Option<string>, Json)>): map<string, Json>
    decreases |entries|
  {
    if entries == [] then appConfig
    else AddItems(AddItem(appConfig, entries[0]), entries[1..])
  }

  lemma AddItemsStep(appConfig: map<string, Json>, entries: seq<(Option<string>, Json)>, i: nat)
    requires i < |entries|
    ensures AddItems(appConfig, entries[i..]) == AddItems(AddItem(appConfig, entries[i]), entries[i + 1..])
  {
    assert entries[i..][0] == entries[i] && entries[i..][1..] == entries[i + 1..];
  }

  /** The `applicationConfig` dictionary of the whole document. */
  function AppConfig(fields: map<string, Json>): map<string, Json>
  {
    AddItems(map[], Keyed(ItemsOf(fields)))
  }

  /**
   * Adding items gives a key exactly when it was there or an item re-keys to
   * it, and then binds it to the value of such an item or keeps the old one.
   */
  lemma {:induction false} AddItemsSpec(appConfig: map<string, Json>, entries: seq<(Option<string>, Json)>, key: string)
    ensures key in AddItems(appConfig, entries) <==>
      key in appConfig || exists i | 0 <= i < |entries| :: entries[i].0 == Some(key)
    ensures key in AddItems(appConfig, entries) ==>
      (exists i | 0 <= i < |entries| :: entries[i] == (Some(key), AddItems(appConfig, entries)[key]))
      || (key in appConfig && AddItems(appConfig, entries)[key] == appConfig[key])
    decreases |entries|
  {
    if entries != [] {
      var rest := entries[1..];
      var next := AddItem(appConfig, entries[0]);
      AddItemsSpec(next, rest, key);
      assert forall i | 0 <= i < |rest| :: rest[i] == entries[i + 1];
      if exists i | 0 <= i < |entries| :: entries[i].0 == Some(key) {
        var i :| 0 <= i < |entries| && entries[i].0 == Some(key);
        if i > 0 {
          assert rest[i - 1].0 == Some(key);
        }
      }
    }
  }

  /**
   * Only names shaped 'applicationConfig: [X]suffix' contribute: the keys of
   * `applicationConfig` are their re-keyed forms, each bound to the value of
   * a name that re-keys to it.
   */
  lemma AppConfigSpec(fields: map<string, Json>, key: string)
    ensures key in AppConfig(fields) <==> exists n | n in fields :: ConfigEntry(n) == Some(key)
    ensures key in AppConfig(fields) ==>
      exists n | n in fields :: ConfigEntry(n) == Some(key) && AppConfig(fields)[key] == fields[n]
  {
    var items := ItemsOf(fields);
    var keyed := Keyed(items);
    AddItemsSpec(map[], keyed, key);
    if exists n | n in fields :: ConfigEntry(n) == Some(key) {
      var n :| n in fields && ConfigEntry(n) == Some(key);
      ItemsCover(fields, n);
      var i :| 0 <= i < |items| && items[i].0 == n;
      assert keyed[i].0 == Some(key);
    }
    if key in AppConfig(fields) {
      var i :| 0 <= i < |keyed| && keyed[i] == (Some(key), AppConfig(fields)[key]);
      assert ConfigEntry(items[i].0) == Some(key) && fields[items[i].0] == AppConfig(fields)[key];
    }
  }

  // ================================================================ layering

  /** A JSON value as an `ExpressionDict` value; `show` is Python's `str()` of a non-string. */
  function ToValue(j: Json, show: Json -> string): ExpressionDict.Value
  {
    if j.JString? then ExpressionDict.Str(j.s) else ExpressionDict.Other(show(j))
  }

  /** `d.get(key, {})`. */
  function Layer(d: map<string, Json>, key: string): Json
  {
    if key in d then d[key] else JObject(map[])
  }

  /** `expr_dict.update(layer)`: the layer's keys are added or overwritten. */
  function Update(entries: Entries, layer: Json, show: Json -> string): (r: Result<Entries>)
    ensures r.Ok? <==> layer.JObject?
    ensures r.Ok? ==> r.value.Keys == entries.Keys + layer.fields.Keys
  {
    if layer.JObject? then
      Ok(entries + map k | k in layer.fields :: ToValue(layer.fields[k], show))
    else Raise(TypeError("cannot update a dict from a non-dict"))
  }

  /**
   * `expr_dict.update(d.get(key, {}))` for each key in turn; the first update
   * that fails ends the sequence.
   */
  function Apply(entries: Entries, d: map<string, Json>, keys: seq<string>, show: Json -> string): (r: Result<Entries>)
    ensures r.Ok? ==> entries.Keys <= r.value.Keys
    decreases |keys|
  {
    if keys == [] then Ok(entries)
    else
      match Update(entries, Layer(d, keys[0]), show)
      case Raise(e) => Raise(e)
      case Ok(m) => Apply(m, d, keys[1..], show)
  }

  /** Applying `a + b` is applying `a`, then `b` to what that gives. */
  lemma {:induction false} ApplyConcat(entries: Entries, d: map<string, Json>, a: seq<string>, b: seq<string>, show: Json -> string)
    ensures Apply(entries, d, a + b, show)
      == (match Apply(entries, d, a, show)
          case Raise(e) => Raise(e)
          case Ok(m) => Apply(m, d, b, show))
    decreases |a|
  {
    if a == [] {
      assert a + b == b;
    } else {
      assert (a + b)[0] == a[0] && (a + b)[1..] == a[1..] + b;
      match Update(entries, Layer(d, a[0]), show)
      case Raise(e) =>
      case Ok(m) => ApplyConcat(m, d, a[1..], b, show);
    }
  }

  /** `layer` is a dictionary that binds `key`. */
  predicate Binds(layer: Json, key: string)
  {
    layer.JObject? && key in layer.fields
  }

  /** No layer named at or after index `i` binds `key`. */
  predicate NoLaterLayer(d: map<string, Json>, keys: seq<string>, key: string, i: nat)
  {
    forall j | i <= j < |keys| :: !Binds(Layer(d, keys[j]), key)
  }

  /** A key no layer binds keeps its original entry, or stays absent. */
  lemma {:induction false} UnboundKeyKept(entries: Entries, d: map<string, Json>, keys: seq<string>, show: Json -> string, key: string)
    requires Apply(entries, d, keys, show).Ok? && NoLaterLayer(d, keys, key, 0)
    ensures key in Apply(entries, d, keys, show).value <==> key in entries
    ensures key in entries ==> Apply(entries, d, keys, show).value[key] == entries[key]
    decreases |keys|
  {
    if keys != [] {
      assert !Binds(Layer(d, keys[0]), key);
      assert NoLaterLayer(d, keys[1..], key, 0) by {
        forall j | 0 <= j < |keys[1..]| ensures !Binds(Layer(d, keys[1..][j]), key) {
          assert keys[1..][j] == keys[j + 1];
        }
      }
      var m := Update(entries, Layer(d, keys[0]), show).value;
      UnboundKeyKept(m, d, keys[1..], show, key);
    }
  }

  /** Later layers override earlier ones: a key takes its value from the last layer that binds it. */
  lemma {:induction false} LastLayerWins(entries: Entries, d: map<string, Json>, keys: seq<string>, show: Json -> string,
                                         key: string, i: nat)
    requires Apply(entries, d, keys, show).Ok?
    requires i < |keys| && Binds(Layer(d, keys[i]), key) && NoLaterLayer(d, keys, key, i + 1)
    ensures key in Apply(entries, d, keys, show).value
    ensures Apply(entries, d, keys, show).value[key] == ToValue(Layer(d, keys[i]).fields[key], show)
    decreases |keys|
  {
    var m := Update(entries, Layer(d, keys[0]), show).value;
    assert NoLaterLayer(d, keys[1..], key, if i == 0 then 0 else i) by {
      forall j | (if i == 0 then 0 else i) <= j < |keys[1..]| ensures !Binds(Layer(d, keys[1..][j]), key) {
        assert keys[1..][j] == keys[j + 1];
      }
    }
    if i == 0 {
      UnboundKeyKept(m, d, keys[1..], show, key);
    } else {
      assert keys[1..][i - 1] == keys[i];
      LastLayerWins(m, d, keys[1..], show, key, i - 1);
    }
  }

  /** The base layers, in order: default properties, system properties, the environment. */
  const BaseKeys: seq<string> := ["defaultProperties", "systemProperties", "systemEnvironment"]

  /**
   * The environment overrides the system properties, which override the
   * default properties.
   */
  lemma BasePrecedence(fields: map<string, Json>, show: Json -> string, key: string)
    requires Apply(map[], fields, BaseKeys, show).Ok?
    ensures var base := Apply(map[], fields, BaseKeys, show).value;
      var env := Layer(fields, "systemEnvironment");
      var sys := Layer(fields, "systemProperties");
      var dflt := Layer(fields, "defaultProperties");
      && (key in base <==> Binds(env, key) || Binds(sys, key) || Binds(dflt, key))
      && (Binds(env, key) ==> base[key] == ToValue(env.fields[key], show))
      && (!Binds(env, key) && Binds(sys, key) ==> base[key] == ToValue(sys.fields[key], show))
      && (!Binds(env, key) && !Binds(sys, key) && Binds(dflt, key) ==> base[key] == ToValue(dflt.fields[key], show))
  {
    if Binds(Layer(fields, BaseKeys[2]), key) {
      LastLayerWins(map[], fields, BaseKeys, show, key, 2);
    } else if Binds(Layer(fields, BaseKeys[1]), key) {
      LastLayerWins(map[], fields, BaseKeys, show, key, 1);
    } else if Binds(Layer(fields, BaseKeys[0]), key) {
      LastLayerWins(map[], fields, BaseKeys, show, key, 0);
    } else {
      UnboundKeyKept(map[], fields, BaseKeys, show, key);
    }
  }

  // ================================================================ the configuration files

  /** The profile files of one root, in the listed order. */
  function ProfileFiles(root: string, profiles: seq<string>): (r: seq<string>)
    ensures |r| == |profiles|
  {
    seq(|profiles|, k requires 0 <= k < |profiles| => root + "-" + profiles[k] + ".yml")
  }

  /** '<root>.yml' first, then '<root>-<profile>.yml' for each active profile. */
  function RootFiles(root: string, profiles: seq<string>): seq<string>
  {
    [root + ".yml"] + ProfileFiles(root, profiles)
  }

  /** The names combined with a location: every name after a '/', else only ''. */
  function LocationNames(location: string, names: seq<string>): seq<string>
  {
    if EndsWith(location, "/") then names else [""]
  }

  /** The root a location and a name give. */
  function Root(location: string, name: string): string
  {
    "file:" + location + name
  }

  /** The files of a location for the given names, in order. */
  function NameFiles(location: string, names: seq<string>, profiles: seq<string>): seq<string>
    decreases |names|
  {
    if names == [] then []
    else RootFiles(Root(location, names[0]), profiles) + NameFiles(location, names[1..], profiles)
  }

  /** Every file looked up, in the order of the locations, then the names, then the profiles. */
  function Files(locations: seq<string>, names: seq<string>, profiles: seq<string>): seq<string>
    decreases |locations|
  {
    if locations == [] then []
    else
      NameFiles(locations[0], LocationNames(locations[0], names), profiles)
        + Files(locations[1..], names, profiles)
  }

  /** `f` is one of the files of `root`. */
  predicate IsRootFile(f: string, root: string, profiles: seq<string>)
  {
    f == root + ".yml" || exists k | 0 <= k < |profiles| :: f == root + "-" + profiles[k] + ".yml"
  }

  lemma RootFilesMembers(root: string, profiles: seq<string>, f: string)
    ensures f in RootFiles(root, profiles) <==> IsRootFile(f, root, profiles)
  {
    var ps := ProfileFiles(root, profiles);
    if f in ps {
      var k :| 0 <= k < |ps| && ps[k] == f;
      assert f == root + "-" + profiles[k] + ".yml";
    }
    if exists k | 0 <= k < |profiles| :: f == root + "-" + profiles[k] + ".yml" {
      var k :| 0 <= k < |profiles| && f == root + "-" + profiles[k] + ".yml";
      assert ps[k] == f;
    }
  }

  lemma {:induction false} NameFilesMembers(location: string, names: seq<string>, profiles: seq<string>, f: string)
    ensures f in NameFiles(location, names, profiles) <==>
      exists n | n in names :: IsRootFile(f, Root(location, n), profiles)
    decreases |names|
  {
    if names != [] {
      RootFilesMembers(Root(location, names[0]), profiles, f);
      NameFilesMembers(location, names[1..], profiles, f);
      assert forall n | n in names :: n == names[0] || n in names[1..];
    }
  }

  /**
   * The files looked up are exactly '<root>.yml' and '<root>-<profile>.yml'
   * for the roots 'file:<location><name>' of each location and each name
   * combined with it: all names after a location ending in '/', else ''.
   */
  lemma {:induction false} FilesMembers(locations: seq<string>, names: seq<string>, profiles: seq<string>, f: string)
    ensures f in Files(locations, names, profiles) <==>
      exists l | l in locations ::
        exists n | n in LocationNames(l, names) :: IsRootFile(f, Root(l, n), profiles)
    decreases |locations|
  {
    if locations != [] {
      NameFilesMembers(locations[0], LocationNames(locations[0], names), profiles, f);
      FilesMembers(locations[1..], names, profiles, f);
      assert forall l | l in locations :: l == locations[0] || l in locations[1..];
    }
  }

  // ================================================================ infer

  /** `d[key].split(',')`: KeyError or the cycle error from the lookup, AttributeError for a non-string. */
  function Setting(d: ExpressionDict.ExprDict, key: string): (r: Result<seq<string>>)
    ensures key !in d.entries ==> r == Raise(KeyError(key))
  {
    match ExpressionDict.GetItem(d, key)
    case Raise(e) => Raise(e)
    case Ok(v) =>
      if v.Str? then Ok(SplitOn(v.s, ',')) else Raise(AttributeError("split"))
  }

  /** The files `infer` reads once the base layers are in place. */
  function Settings(d: ExpressionDict.ExprDict): Result<seq<string>>
  {
    match Setting(d, "spring.config.name")
    case Raise(e) => Raise(e)
    case Ok(names) =>
      match Setting(d, "spring.profiles.active")
      case Raise(e) => Raise(e)
      case Ok(profiles) =>
        match Setting(d, "spring.config.location")
        case Raise(e) => Raise(e)
        case Ok(locations) => Ok(Files(locations, names, profiles))
  }

  /** `infer(json)` for the decoded document; `show` is `str()` of a non-string value. */
  function Infer(doc: Json, show: Json -> string): Result<ExpressionDict.ExprDict>
  {
    if !doc.JObject? then Raise(AttributeError("items"))
    else
      match Apply(map[], doc.fields, BaseKeys, show)
      case Raise(e) => Raise(e)
      case Ok(base) =>
        match Settings(ExpressionDict.New(base))
        case Raise(e) => Raise(e)
        case Ok(files) =>
          match Apply(base, AppConfig(doc.fields), files, show)
          case Raise(e) => Raise(e)
          case Ok(entries) => Ok(ExpressionDict.New(entries))
  }

  /**
   * The three settings are looked up once the base layers are in place: when
   * no base layer binds one of them, `infer` raises, and for
   * 'spring.config.name', the first one read, the error is KeyError.
   */
  lemma MissingSettingRaises(doc: Json, show: Json -> string, key: string)
    requires doc.JObject? && Apply(map[], doc.fields, BaseKeys, show).Ok?
    requires key == "spring.config.name" || key == "spring.profiles.active" || key == "spring.config.location"
    requires NoLaterLayer(doc.fields, BaseKeys, key, 0)
    ensures Infer(doc, show).Raise?
    ensures key == "spring.config.name" ==> Infer(doc, show) == Raise(KeyError(key))
  {
    UnboundKeyKept(map[], doc.fields, BaseKeys, show, key);
  }

  /** A key some file binds takes its value from the last file that binds it. */
  lemma InferFileOverride(doc: Json, show: Json -> string, base: Entries, files: seq<string>, key: string, i: nat)
    requires doc.JObject? && Apply(map[], doc.fields, BaseKeys, show) == Ok(base)
    requires Settings(ExpressionDict.New(base)) == Ok(files) && Infer(doc, show).Ok?
    requires i < |files| && Binds(Layer(AppConfig(doc.fields), files[i]), key)
    requires NoLaterLayer(AppConfig(doc.fields), files, key, i + 1)
    ensures key in Infer(doc, show).value.entries
    ensures Infer(doc, show).value.entries[key] == ToValue(AppConfig(doc.fields)[files[i]].fields[key], show)
  {
    LastLayerWins(base, AppConfig(doc.fields), files, show, key, i);
  }

  /** A key no file binds keeps its base value, or stays absent. */
  lemma InferKeepsBase(doc: Json, show: Json -> string, base: Entries, files: seq<string>, key: string)
    requires doc.JObject? && Apply(map[], doc.fields, BaseKeys, show) == Ok(base)
    requires Settings(ExpressionDict.New(base)) == Ok(files) && Infer(doc, show).Ok?
    requires NoLaterLayer(AppConfig(doc.fields), files, key, 0)
    ensures key in Infer(doc, show).value.entries <==> key in base
    ensures key in base ==> Infer(doc, show).value.entries[key] == base[key]
  {
    UnboundKeyKept(base, AppConfig(doc.fields), files, show, key);
  }

  // ================================================================ the loops of infer

  /** The loop over `json.items()` that builds `applicationConfig`. */
  method CollectAppConfig(fields: map<string, Json>) returns (appConfig: map<string, Json>)
    ensures appConfig == AppConfig(fields)
  {
    var items := ItemsOf(fields);
    ghost var keyed := Keyed(items);
    appConfig := map[];
    var i := 0;
    while i < |items|
      invariant 0 <= i <= |items|
      invariant AddItems(appConfig, keyed[i..]) == AppConfig(fields)
    {
      var (name, value) := items[i];
      AddItemsStep(appConfig, keyed, i);
      ghost var before := appConfig;
      match ConfigEntry(name) {
        case None =>
        case Some(key) =>
          appConfig := appConfig[key := value];
      }
      assert appConfig == AddItem(before, keyed[i]);
      i := i + 1;
    }
  }

  /** `infer(json)`: the base updates, the three settings, then the loop over the locations. */
  method InferConfig(doc: Json, show: Json -> string) returns (r: Result<ExpressionDict.ExprDict>)
    ensures r == Infer(doc, show)
  {
    if !doc.JObject? {
      return Raise(AttributeError("items"));
    }
    var fields := doc.fields;
    var appConfig := CollectAppConfig(fields);
    var baseResult := Apply(map[], fields, BaseKeys, show);
    if baseResult.Raise? {
      return Raise(baseResult.error);
    }
    var base := baseResult.value;
    var d := ExpressionDict.New(base);
    var names := Setting(d, "spring.config.name");
    if names.Raise? {
      return Raise(names.error);
    }
    var profiles := Setting(d, "spring.profiles.active");
    if profiles.Raise? {
      return Raise(profiles.error);
    }
    var locations := Setting(d, "spring.config.location");
    if locations.Raise? {
      return Raise(locations.error);
    }
    ghost var goal := Apply(base, appConfig, Files(locations.value, names.value, profiles.value), show);
    var entries := base;
    var i := 0;
    while i < |locations.value|
      invariant 0 <= i <= |locations.value|
      invariant Apply(entries, appConfig, Files(locations.value[i..], names.value, profiles.value), show) == goal
    {
      var location := locations.value[i];
      var here := NameFiles(location, LocationNames(location, names.value), profiles.value);
      assert locations.value[i..][1..] == locations.value[i + 1..];
      ApplyConcat(entries, appConfig, here, Files(locations.value[i + 1..], names.value, profiles.value), show);
      var step := LoadLocation(entries, appConfig, location, names.value, profiles.value, show);
      if step.Raise? {
        return Raise(step.error);
      }
      entries := step.value;
      i := i + 1;
    }
    return Ok(ExpressionDict.New(entries));
  }

  /** The loop over the names combined with one location. */
  method LoadLocation(entries: Entries, appConfig: map<string, Json>, location: string, names: seq<string>,
                      profiles: seq<string>, show: Json -> string) returns (r: Result<Entries>)
    ensures r == Apply(entries, appConfig, NameFiles(location, LocationNames(location, names), profiles), show)
  {
    var locationNames := LocationNames(location, names);
    ghost var goal := Apply(entries, appConfig, NameFiles(location, locationNames, profiles), show);
    var current := entries;
    var j := 0;
    while j < |locationNames|
      invariant 0 <= j <= |locationNames|
      invariant Apply(current, appConfig, NameFiles(location, locationNames[j..], profiles), show) == goal
    {
      var root := Root(location, locationNames[j]);
      assert locationNames[j..][1..] == locationNames[j + 1..];
      ApplyConcat(current, appConfig, RootFiles(root, profiles), NameFiles(location, locationNames[j + 1..], profiles), show);
      var step := LoadRoot(current, appConfig, root, profiles, show);
      if step.Raise? {
        return Raise(step.error);
      }
      current := step.value;
      j := j + 1;
    }
    return Ok(current);
  }

  /** '<root>.yml', then the loop over the profiles. */
  method LoadRoot(entries: Entries, appConfig: map<string, Json>, root: string, profiles: seq<string>,
                  show: Json -> string) returns (r: Result<Entries>)
    ensures r == Apply(entries, appConfig, RootFiles(root, profiles), show)
  {
    var files := ProfileFiles(root, profiles);
    assert RootFiles(root, profiles)[1..] == files;
    var step := Update(entries, Layer(appConfig, root + ".yml"), show);
    if step.Raise? {
      return Raise(step.error);
    }
    var current := step.value;
    var k := 0;
    while k < |profiles|
      invariant 0 <= k <= |profiles|
      invariant Apply(current, appConfig, files[k..], show) == Apply(entries, appConfig, RootFiles(root, profiles), show)
    {
      var file := root + "-" + profiles[k] + ".yml";
      assert files[k..][0] == file && files[k..][1..] == files[k + 1..];
      step := Update(current, Layer(appConfig, file), show);
      if step.Raise? {
        return Raise(step.error);
      }
      current := step.value;
      k := k + 1;
    }
    return Ok(current);
  }
}
