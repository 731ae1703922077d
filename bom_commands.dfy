/**
 * The bill-of-materials assembly of `generate_bom`: where the BOM file
 * goes, how a version is decorated with the build number, which URL
 * prefix most repositories share, the per-service entries and the BOM
 * itself. Repository summaries and the clock are inputs.
 */
module BomCommands {
  import opened Wrappers
  import opened Text
  import opened Git
  import BuildUtil

  /** `DEFAULT_BOM_DEPENDENCIES`: each third-party dependency with its pinned version. */
  const DefaultBomDependencies: map<string, map<string, string>> :=
    map["consul" := map["version" := "0.7.5"],
        "redis" := map["version" := "2:2.8.4-2"],
        "vault" := map["version" := "0.7.0"]]

  // ================================================================ url prefix and bom path

  /**
   * `_url_prefix`: `url[:url.rfind('/')]`, the url before its last '/'.
   * Without a '/', `rfind` gives -1 and the slice drops the last character.
   */
  function UrlPrefix(url: string): string
  {
    var i := RFindChar(url, '/');
    if i >= 0 then url[..i] else if url == [] then [] else url[..|url| - 1]
  }

  /** With a '/', the prefix is the url up to its last '/'; without one, the url less its last character. */
  lemma UrlPrefixSpec(url: string)
    ensures var r := UrlPrefix(url);
      && ('/' in url ==> |r| < |url| && r == url[..|r|] && url[|r|] == '/' && '/' !in url[|r| + 1..])
      && ('/' !in url ==> r == if url == [] then [] else url[..|url| - 1])
  {
  }

  /** The prefix of `<prefix>/<name>`, for a name free of '/', is `<prefix>`. */
  lemma UrlPrefixOf(prefix: string, name: string)
    requires '/' !in name
    ensures UrlPrefix(prefix + "/" + name) == prefix
  {
    var url := prefix + "/" + name;
    assert url[|prefix|] == '/';
    forall j | |prefix| < j < |url| ensures url[j] != '/' {
      assert url[j] == name[j - |prefix| - 1];
    }
    RFindCharAt(url, '/', |prefix|);
    assert url[..|prefix|] == prefix;
  }

  /** A url with a '/' is its prefix, a '/', and the repository name `make_from_url` gives it. */
  lemma UrlPrefixAndName(url: string)
    requires '/' in url
    ensures UrlPrefix(url) + "/" + MakeFromUrl(url, None).name == url
  {
    UrlPrefixSpec(url);
    var p := UrlPrefix(url);
    var rest := url[|p| + 1..];
    assert url == p + "/" + rest;
    AfterLastShift(url, '/', |p|);
    AfterLastSpec(rest, '/');
  }

  /** The options `generate_bom` reads; a missing option is None. */
  datatype BomOptions = BomOptions(
    bomPath: Option<string>,
    gitBranch: Option<string>,
    buildNumber: string,
    scratchDir: string,
    buildBintrayRepository: Option<string>,
    buildDockerRegistry: Option<string>,
    publishGceImageProject: Option<string>)

  /** Python truthiness of an optional string: set and non-empty. */
  predicate Truthy(o: Option<string>) { o.Some? && o.value != "" }

  /** `o or d`. */
  function OrElse(o: Option<string>, d: string): string
  {
    if Truthy(o) then o.value else d
  }

  /**
   * `_determine_bom_path`: the `bom_path` option when it is set, else
   * `<scratch_dir>/bom-<git_branch or NOBRANCH>-<build_number>.yml`.
   */
  function BomPath(options: BomOptions): string
  {
    if Truthy(options.bomPath) then options.bomPath.value
    else
      var filename := "bom-" + OrElse(options.gitBranch, "NOBRANCH") + "-" + options.buildNumber + ".yml";
      BuildUtil.PathJoin(options.scratchDir, filename)
  }

  /** The BOM path is the given one, or a file named by branch and build inside the scratch directory. */
  lemma BomPathSpec(options: BomOptions)
    ensures Truthy(options.bomPath) ==> BomPath(options) == options.bomPath.value
    ensures !Truthy(options.bomPath) ==>
      var filename := "bom-" + OrElse(options.gitBranch, "NOBRANCH") + "-" + options.buildNumber + ".yml";
      StartsWith(BomPath(options), options.scratchDir) && EndsWith(BomPath(options), filename)
  {
    if !Truthy(options.bomPath) {
      var filename := "bom-" + OrElse(options.gitBranch, "NOBRANCH") + "-" + options.buildNumber + ".yml";
      assert filename[0] == 'b';
      assert !StartsWith(filename, "/");
    }
  }

  /** `to_build_version`: `<version>-<build_number>`. */
  function ToBuildVersion(version: string, buildNumber: string): string
  {
    version + "-" + buildNumber
  }

  /** A build version reads back as the version and, after its last '-', a dash-free build number. */
  lemma ToBuildVersionReadsBack(version: string, buildNumber: string)
    requires '-' !in buildNumber
    ensures var r := ToBuildVersion(version, buildNumber);
      StartsWith(r, version) && AfterLast(r, '-') == buildNumber && |r| == |version| + 1 + |buildNumber|
  {
    var r := ToBuildVersion(version, buildNumber);
    assert r[..|version|] == version;
    assert r[|version|] == '-';
    AfterLastShift(r, '-', |version|);
    assert r[|version| + 1..] == buildNumber;
    AfterLastSpec(buildNumber, '-');
  }

  // ================================================================ the most common prefix

  /** The url prefix of each named repository; names without a repository are never asked. */
  function PrefixOf(repositories: map<string, RemoteGitRepository>): string -> string
  {
    n => if n in repositories then UrlPrefix(repositories[n].url) else ""
  }

  /** The names among `names` that are `known` and whose key is `p`. */
  function Using(known: set<string>, key: string -> string, names: set<string>, p: string): set<string>
  {
    set n | n in names && n in known && key(n) == p
  }

  /**
   * How many of `names`, counted in order, have each key; KeyError for the
   * first name that is not `known`.
   */
  function CountBy(known: set<string>, key: string -> string, names: seq<string>): Result<map<string, nat>>
  {
    if names == [] then Ok(map[])
    else
      match CountBy(known, key, names[..|names| - 1])
      case Raise(e) => Raise(e)
      case Ok(counts) =>
        var name := names[|names| - 1];
        if name !in known then Raise(KeyError(name))
        else
          var p := key(name);
          Ok(counts[p := (if p in counts then counts[p] else 0) + 1])
  }

  /** The `prefix_count` dictionary: how many of the names have each url prefix. */
  function PrefixCounts(repositories: map<string, RemoteGitRepository>, names: seq<string>): Result<map<string, nat>>
  {
    CountBy(repositories.Keys, PrefixOf(repositories), names)
  }

  /** The names of a sequence, as a set. */
  function NameSet(names: seq<string>): set<string>
  {
    set n | n in names
  }

  /** No name occurs twice. */
  predicate Distinct(names: seq<string>)
  {
    forall i, j | 0 <= i < j < |names| :: names[i] != names[j]
  }

  /** Sorted names are distinct. */
  lemma SortedDistinct(names: seq<string>)
    requires SortedStrings(names)
    ensures Distinct(names)
  {
    forall i, j | 0 <= i < j < |names| ensures names[i] != names[j] {
      if names[i] == names[j] {
        LessIrreflexive(names[i]);
      }
    }
  }

  /** Counting succeeds exactly when every name is known, and raises KeyError for an unknown one otherwise. */
  lemma {:induction false} CountByErrors(known: set<string>, key: string -> string, names: seq<string>)
    ensures CountBy(known, key, names).Ok? <==> forall n | n in names :: n in known
    ensures CountBy(known, key, names).Raise? ==>
      exists n | n in names :: n !in known && CountBy(known, key, names).error == KeyError(n)
  {
    if names != [] {
      var init := names[..|names| - 1];
      assert names == init + [names[|names| - 1]];
      CountByErrors(known, key, init);
    }
  }

  /** Counting distinct known names: the keys counted are those some name has, each with the number of names that have it. */
  lemma {:induction false} CountByCounts(known: set<string>, key: string -> string, names: seq<string>)
    requires Distinct(names) && CountBy(known, key, names).Ok?
    ensures forall p :: (p in CountBy(known, key, names).value <==> Using(known, key, NameSet(names), p) != {})
                        && (p in CountBy(known, key, names).value ==>
                              CountBy(known, key, names).value[p] == |Using(known, key, NameSet(names), p)|)
  {
    if names != [] {
      var init, name := names[..|names| - 1], names[|names| - 1];
      assert names == init + [name];
      assert Distinct(init);
      CountByCounts(known, key, init);
      assert NameSet(names) == NameSet(init) + {name};
      assert name !in NameSet(init);
      UsingAdd(known, key, NameSet(init), name);
    }
  }

  /** Adding a new known name adds it to the users of its own key only. */
  lemma UsingAdd(known: set<string>, key: string -> string, names: set<string>, name: string)
    requires name in known && name !in names
    ensures forall q :: Using(known, key, names + {name}, q) == Using(known, key, names, q) + (if q == key(name) then {name} else {})
    ensures forall q :: |Using(known, key, names + {name}, q)| == |Using(known, key, names, q)| + (if q == key(name) then 1 else 0)
  {
    forall q
      ensures Using(known, key, names + {name}, q) == Using(known, key, names, q) + (if q == key(name) then {name} else {})
    {
    }
  }

  /**
   * The `for prefix, count in prefix_count.items()` loop over `order`: the
   * first prefix whose count beats every count before it, and that count;
   * None and 0 when no count is positive.
   */
  function Leader(counts: map<string, nat>, order: seq<string>): (r: (Option<string>, nat))
    requires forall p | p in order :: p in counts
  {
    if order == [] then (None, 0)
    else
      var (best, top) := Leader(counts, order[..|order| - 1]);
      var p := order[|order| - 1];
      if counts[p] > top then (Some(p), counts[p]) else (best, top)
  }

  /** The leader's count is the largest count in `order`, and the leader, if any, holds it. */
  lemma {:induction false} LeaderSpec(counts: map<string, nat>, order: seq<string>)
    requires forall p | p in order :: p in counts
    ensures var (best, top) := Leader(counts, order);
      && (forall p | p in order :: counts[p] <= top)
      && (best.None? <==> top == 0)
      && (best.Some? ==> best.value in order && counts[best.value] == top)
  {
    if order != [] {
      LeaderSpec(counts, order[..|order| - 1]);
    }
  }

  /** `determine_most_common_prefix` as a value: the leader of the counts, in sorted prefix order. */
  function MostCommonPrefix(repositories: map<string, RemoteGitRepository>, table: map<string, RepositorySummary>)
    : Result<Option<string>>
  {
    match PrefixCounts(repositories, SortedSeq(table.Keys))
    case Raise(e) => Raise(e)
    case Ok(counts) => Ok(Leader(counts, SortedSeq(counts.Keys)).0)
  }

  /** The number of summarized names whose repository url has prefix `p`. */
  function PrefixUsers(repositories: map<string, RemoteGitRepository>, table: map<string, RepositorySummary>, p: string): nat
  {
    |Using(repositories.Keys, PrefixOf(repositories), table.Keys, p)|
  }

  /**
   * The most common prefix: KeyError when a summarized name has no
   * repository; otherwise None exactly for an empty table, and else the
   * prefix of some summarized repository that no other prefix outnumbers.
   */
  lemma MostCommonPrefixSpec(repositories: map<string, RemoteGitRepository>, table: map<string, RepositorySummary>)
    ensures MostCommonPrefix(repositories, table).Raise? <==> exists n | n in table :: n !in repositories
    ensures MostCommonPrefix(repositories, table).Raise? ==> MostCommonPrefix(repositories, table).error.KeyError?
    ensures MostCommonPrefix(repositories, table) == Ok(None) <==> table == map[]
    ensures MostCommonPrefix(repositories, table).Ok? && MostCommonPrefix(repositories, table).value.Some? ==>
      var p := MostCommonPrefix(repositories, table).value.value;
      && (exists n | n in table :: n in repositories && PrefixOf(repositories)(n) == p)
      && forall n | n in table :: PrefixUsers(repositories, table, PrefixOf(repositories)(n)) <= PrefixUsers(repositories, table, p)
  {
    var names := SortedSeq(table.Keys);
    var known, key := repositories.Keys, PrefixOf(repositories);
    SortedDistinct(names);
    CountByErrors(known, key, names);
    assert NameSet(names) == table.Keys;
    if CountBy(known, key, names).Ok? {
      CountByCounts(known, key, names);
      var counts := CountBy(known, key, names).value;
      LeaderOfCounts(known, key, table.Keys, counts, SortedSeq(counts.Keys));
    }
  }

  /**
   * The leader of exact key counts, over any order of the counted keys,
   * holds the largest count and is None only when no name is counted.
   */
  lemma LeaderOfCounts(known: set<string>, key: string -> string, names: set<string>,
                       counts: map<string, nat>, order: seq<string>)
    requires forall p :: (p in counts <==> Using(known, key, names, p) != {})
                         && (p in counts ==> counts[p] == |Using(known, key, names, p)|)
    requires forall n | n in names :: n in known
    requires forall p :: p in order <==> p in counts
    ensures var best := Leader(counts, order).0;
      && (best.None? <==> names == {})
      && (best.Some? ==>
            && (exists n | n in names :: key(n) == best.value)
            && forall n | n in names :: |Using(known, key, names, key(n))| <= |Using(known, key, names, best.value)|)
  {
    LeaderSpec(counts, order);
    var (best, top) := Leader(counts, order);
    if names != {} {
      var n :| n in names;
      assert n in Using(known, key, names, key(n));
    }
    if best.Some? {
      var m :| m in Using(known, key, names, best.value);
      forall n | n in names
        ensures |Using(known, key, names, key(n))| <= |Using(known, key, names, best.value)|
      {
        assert n in Using(known, key, names, key(n));
      }
    }
  }

  /** `determine_most_common_prefix`: count the prefixes name by name, then keep the first strict maximum. */
  method DetermineMostCommonPrefix(repositories: map<string, RemoteGitRepository>, table: map<string, RepositorySummary>)
    returns (r: Result<Option<string>>)
    ensures r == MostCommonPrefix(repositories, table)
  {
    var prefixCount := CountKeys(repositories.Keys, PrefixOf(repositories), SortedSeq(table.Keys));
    if prefixCount.Raise? {
      return Raise(prefixCount.error);
    }
    var defaultPrefix, maxCount := FirstMaximum(prefixCount.value, SortedSeq(prefixCount.value.Keys));
    return Ok(defaultPrefix);
  }

  /** The counting loop of `determine_most_common_prefix`. */
  method CountKeys(known: set<string>, key: string -> string, names: seq<string>) returns (r: Result<map<string, nat>>)
    ensures r == CountBy(known, key, names)
  {
    var counts: map<string, nat> := map[];
    for i := 0 to |names|
      invariant CountBy(known, key, names[..i]) == Ok(counts)
    {
      assert names[..i + 1][..i] == names[..i];
      var name := names[i];
      if name !in known {
        CountByRaise(known, key, names, i + 1);
        return Raise(KeyError(name));
      }
      var p := key(name);
      counts := counts[p := (if p in counts then counts[p] else 0) + 1];
    }
    assert names[..|names|] == names;
    return Ok(counts);
  }

  /** The maximum loop of `determine_most_common_prefix`. */
  method FirstMaximum(counts: map<string, nat>, order: seq<string>) returns (best: Option<string>, top: nat)
    requires forall p | p in order :: p in counts
    ensures (best, top) == Leader(counts, order)
  {
    best, top := None, 0;
    for i := 0 to |order|
      invariant (best, top) == Leader(counts, order[..i])
    {
      assert order[..i + 1][..i] == order[..i];
      if counts[order[i]] > top {
        best, top := Some(order[i]), counts[order[i]];
      }
    }
    assert order[..|order|] == order;
  }

  /** Once a prefix of the names raises, counting all of them raises the same error. */
  lemma {:induction false} CountByRaise(known: set<string>, key: string -> string, names: seq<string>, k: nat)
    requires k <= |names| && CountBy(known, key, names[..k]).Raise?
    ensures CountBy(known, key, names) == CountBy(known, key, names[..k])
    decreases |names| - k
  {
    if k < |names| {
      assert names[..k + 1][..k] == names[..k];
      CountByRaise(known, key, names, k + 1);
    } else {
      assert names[..k] == names;
    }
  }

  // ================================================================ services

  /** A service's entry: its commit, its build version, and its url when the prefix is not the default. */
  datatype VersionInfo = VersionInfo(commit: string, version: string, source: Option<string>)

  /** The entry `make_bom_services_spec` writes for one repository. */
  function ServiceInfo(repository: RemoteGitRepository, summary: RepositorySummary, defaultPrefix: Option<string>, buildNumber: string)
    : VersionInfo
  {
    VersionInfo(summary.commitId, ToBuildVersion(summary.version, buildNumber),
                if Some(UrlPrefix(repository.url)) != defaultPrefix then Some(repository.url) else None)
  }

  /**
   * One entry stored: under its name, except for the name ' spinnaker-monitoring'
   * (with its leading blank), which is stored under both monitoring services.
   */
  function AddService(services: map<string, VersionInfo>, name: string, info: VersionInfo): map<string, VersionInfo>
  {
    if name == " spinnaker-monitoring" then services["monitoring-third-party" := info]["monitoring-daemon" := info]
    else services[name := info]
  }

  /**
   * An entry under the name ' spinnaker-monitoring' (blank first, so no
   * repository name) lands under both monitoring services and not under its
   * own name; any other name, 'spinnaker-monitoring' included, lands under
   * itself. Every other entry is kept.
   */
  lemma AddServiceSpec(services: map<string, VersionInfo>, name: string, info: VersionInfo)
    ensures var r := AddService(services, name, info);
      var targets := if name == " spinnaker-monitoring" then {"monitoring-third-party", "monitoring-daemon"} else {name};
      && r.Keys == services.Keys + targets
      && (forall k | k in targets :: r[k] == info)
      && (forall k | k in services && k !in targets :: r[k] == services[k])
  {
  }

  /** The blank-free name 'spinnaker-monitoring' never reaches the monitoring services. */
  lemma MonitoringBranchDead(services: map<string, VersionInfo>, info: VersionInfo)
    requires "monitoring-daemon" !in services
    ensures "monitoring-daemon" !in AddService(services, "spinnaker-monitoring", info)
    ensures AddService(services, "spinnaker-monitoring", info)["spinnaker-monitoring"] == info
  {
    assert "spinnaker-monitoring" != " spinnaker-monitoring" by {
      assert "spinnaker-monitoring"[0] != " spinnaker-monitoring"[0];
    }
    assert "spinnaker-monitoring" != "monitoring-daemon" by {
      assert "spinnaker-monitoring"[0] != "monitoring-daemon"[0];
    }
  }

  /** The `services` dictionary after the summaries of `names`, in that order; KeyError for a name without a repository. */
  function Services(repositories: map<string, RemoteGitRepository>, table: map<string, RepositorySummary>,
                    defaultPrefix: Option<string>, buildNumber: string, names: seq<string>): Result<map<string, VersionInfo>>
    requires forall n | n in names :: n in table
  {
    if names == [] then Ok(map[])
    else
      match Services(repositories, table, defaultPrefix, buildNumber, names[..|names| - 1])
      case Raise(e) => Raise(e)
      case Ok(services) =>
        var name := names[|names| - 1];
        if name !in repositories then Raise(KeyError(name))
        else Ok(AddService(services, name, ServiceInfo(repositories[name], table[name], defaultPrefix, buildNumber)))
  }

  /**
   * With no name ' spinnaker-monitoring', the services are one entry per
   * name, holding the summary's commit, its version decorated with the
   * build number, and the repository url exactly when its prefix is not
   * the default; KeyError exactly when a name has no repository.
   */
  lemma {:induction false} ServicesSpec(repositories: map<string, RemoteGitRepository>, table: map<string, RepositorySummary>,
                                        defaultPrefix: Option<string>, buildNumber: string, names: seq<string>)
    requires forall n | n in names :: n in table
    requires " spinnaker-monitoring" !in names
    ensures Services(repositories, table, defaultPrefix, buildNumber, names).Ok? <==> forall n | n in names :: n in repositories
    ensures Services(repositories, table, defaultPrefix, buildNumber, names).Raise? ==>
      exists n | n in names :: n !in repositories && Services(repositories, table, defaultPrefix, buildNumber, names).error == KeyError(n)
    ensures Services(repositories, table, defaultPrefix, buildNumber, names).Ok? ==>
      var services := Services(repositories, table, defaultPrefix, buildNumber, names).value;
      && (forall n :: n in services <==> n in names)
      && forall n | n in services ::
           && services[n].commit == table[n].commitId
           && services[n].version == table[n].version + "-" + buildNumber
           && (services[n].source.Some? <==> Some(UrlPrefix(repositories[n].url)) != defaultPrefix)
           && (services[n].source.Some? ==> services[n].source.value == repositories[n].url)
  {
    if names != [] {
      var init := names[..|names| - 1];
      assert names == init + [names[|names| - 1]];
      ServicesSpec(repositories, table, defaultPrefix, buildNumber, init);
    }
  }

  /** `make_bom_services_spec`, over the summarized names in sorted order. */
  method MakeBomServicesSpec(repositories: map<string, RemoteGitRepository>, table: map<string, RepositorySummary>,
                             defaultPrefix: Option<string>, buildNumber: string)
    returns (r: Result<map<string, VersionInfo>>)
    ensures r == Services(repositories, table, defaultPrefix, buildNumber, SortedSeq(table.Keys))
  {
    r := ServicesLoop(repositories, table, defaultPrefix, buildNumber, SortedSeq(table.Keys));
  }

  /** The loop of `make_bom_services_spec` over `names`, in that order. */
  method ServicesLoop(repositories: map<string, RemoteGitRepository>, table: map<string, RepositorySummary>,
                      defaultPrefix: Option<string>, buildNumber: string, names: seq<string>)
    returns (r: Result<map<string, VersionInfo>>)
    requires forall n | n in names :: n in table
    ensures r == Services(repositories, table, defaultPrefix, buildNumber, names)
  {
    var services: map<string, VersionInfo> := map[];
    for i := 0 to |names|
      invariant Services(repositories, table, defaultPrefix, buildNumber, names[..i]) == Ok(services)
    {
      assert names[..i + 1][..i] == names[..i];
      var name := names[i];
      if name !in repositories {
        ServicesRaise(repositories, table, defaultPrefix, buildNumber, names, i + 1);
        return Raise(KeyError(name));
      }
      var info := ServiceInfo(repositories[name], table[name], defaultPrefix, buildNumber);
      services := AddService(services, name, info);
    }
    assert names[..|names|] == names;
    return Ok(services);
  }

  /** Once a prefix of the names raises, the services of all of them raise the same error. */
  lemma {:induction false} ServicesRaise(repositories: map<string, RemoteGitRepository>, table: map<string, RepositorySummary>,
                                         defaultPrefix: Option<string>, buildNumber: string, names: seq<string>, k: nat)
    requires forall n | n in names :: n in table
    requires k <= |names| && Services(repositories, table, defaultPrefix, buildNumber, names[..k]).Raise?
    ensures Services(repositories, table, defaultPrefix, buildNumber, names)
            == Services(repositories, table, defaultPrefix, buildNumber, names[..k])
    decreases |names| - k
  {
    if k < |names| {
      assert names[..k + 1][..k] == names[..k];
      ServicesRaise(repositories, table, defaultPrefix, buildNumber, names, k + 1);
    } else {
      assert names[..k] == names;
    }
  }

  // ================================================================ the bom

  /** The BOM document. */
  datatype Bom = Bom(
    artifactSources: map<string, Option<string>>,
    dependencies: map<string, map<string, string>>,
    services: map<string, VersionInfo>,
    version: string,
    timestamp: string)

  /** The Debian repository url of a bintray repository, when one is given. */
  function DebianRepository(options: BomOptions): Option<string>
  {
    if options.buildBintrayRepository.None? then None
    else Some("https://dl.bintray.com/" + options.buildBintrayRepository.value)
  }

  /** `artifact_sources.update(...)`: the entry added only when the source is truthy. */
  function AddSource(sources: map<string, Option<string>>, name: string, source: Option<string>): map<string, Option<string>>
  {
    if Truthy(source) then sources[name := source] else sources
  }

  /** The `artifactSources` block: git prefix and branch, then the truthy optional sources. */
  function ArtifactSources(options: BomOptions, defaultPrefix: Option<string>): map<string, Option<string>>
  {
    var base := map["gitPrefix" := defaultPrefix, "gitBranch" := Some(OrElse(options.gitBranch, "master"))];
    var withDebian := AddSource(base, "debianRepository", DebianRepository(options));
    var withDocker := AddSource(withDebian, "dockerRegistry", options.buildDockerRegistry);
    AddSource(withDocker, "googleImageProject", options.publishGceImageProject)
  }

  /**
   * The artifact sources always hold the git prefix and the branch (the
   * `git_branch` option, or 'master'); the Debian repository appears exactly
   * when a bintray repository is given, the docker registry and the image
   * project exactly when they are truthy, each with its value.
   */
  lemma ArtifactSourcesSpec(options: BomOptions, defaultPrefix: Option<string>)
    ensures var a := ArtifactSources(options, defaultPrefix);
      && a.Keys == {"gitPrefix", "gitBranch"}
                   + (if options.buildBintrayRepository.Some? then {"debianRepository"} else {})
                   + (if Truthy(options.buildDockerRegistry) then {"dockerRegistry"} else {})
                   + (if Truthy(options.publishGceImageProject) then {"googleImageProject"} else {})
      && a["gitPrefix"] == defaultPrefix
      && a["gitBranch"] == Some(OrElse(options.gitBranch, "master"))
      && (options.buildBintrayRepository.Some? ==>
            a["debianRepository"] == Some("https://dl.bintray.com/" + options.buildBintrayRepository.value))
      && (Truthy(options.buildDockerRegistry) ==> a["dockerRegistry"] == options.buildDockerRegistry)
      && (Truthy(options.publishGceImageProject) ==> a["googleImageProject"] == options.publishGceImageProject)
  {
    if options.buildBintrayRepository.Some? {
      assert |"https://dl.bintray.com/" + options.buildBintrayRepository.value| > 0;
    }
  }

  /** The BOM version: `<branch>-<YYYY-MM-DD>-<build_number>`. */
  function BomVersion(options: BomOptions, now: BuildUtil.DateTime): string
  {
    ToBuildVersion(OrElse(options.gitBranch, "master") + "-" + BuildUtil.DateText(now.year, now.month, now.day), options.buildNumber)
  }

  /** `construct_bom` as a value, at the instant `now`. */
  function BomOf(options: BomOptions, repositories: map<string, RemoteGitRepository>, table: map<string, RepositorySummary>,
                 dependencies: map<string, map<string, string>>, now: BuildUtil.DateTime): Result<Bom>
  {
    match MostCommonPrefix(repositories, table)
    case Raise(e) => Raise(e)
    case Ok(defaultPrefix) =>
      match Services(repositories, table, defaultPrefix, options.buildNumber, SortedSeq(table.Keys))
      case Raise(e) => Raise(e)
      case Ok(services) =>
        Ok(Bom(ArtifactSources(options, defaultPrefix), dependencies, services,
               BomVersion(options, now), BuildUtil.Timestring(now)))
  }

  /**
   * A BOM is built exactly when every summarized name has a repository; it
   * carries the given dependencies, the services of the summaries under the
   * most common prefix, the artifact sources of that prefix, the version
   * `<branch>-<YYYY-MM-DD>-<build_number>` and the timestamp of `now`.
   */
  lemma BomOfSpec(options: BomOptions, repositories: map<string, RemoteGitRepository>, table: map<string, RepositorySummary>,
                  dependencies: map<string, map<string, string>>, now: BuildUtil.DateTime)
    ensures BomOf(options, repositories, table, dependencies, now).Ok? <==> forall n | n in table :: n in repositories
    ensures BomOf(options, repositories, table, dependencies, now).Ok? ==>
      var bom := BomOf(options, repositories, table, dependencies, now).value;
      var defaultPrefix := MostCommonPrefix(repositories, table).value;
      && bom.dependencies == dependencies
      && bom.artifactSources == ArtifactSources(options, defaultPrefix)
      && bom.services == Services(repositories, table, defaultPrefix, options.buildNumber, SortedSeq(table.Keys)).value
      && bom.version == OrElse(options.gitBranch, "master") + "-" + BuildUtil.DateText(now.year, now.month, now.day) + "-" + options.buildNumber
      && bom.timestamp == BuildUtil.Timestring(now)
  {
    MostCommonPrefixSpec(repositories, table);
    var names := SortedSeq(table.Keys);
    if MostCommonPrefix(repositories, table).Ok? {
      var defaultPrefix := MostCommonPrefix(repositories, table).value;
      if " spinnaker-monitoring" !in names {
        ServicesSpec(repositories, table, defaultPrefix, options.buildNumber, names);
      } else {
        ServicesTotal(repositories, table, defaultPrefix, options.buildNumber, names);
      }
    }
  }

  /** With every name's repository present, the services never raise. */
  lemma {:induction false} ServicesTotal(repositories: map<string, RemoteGitRepository>, table: map<string, RepositorySummary>,
                                         defaultPrefix: Option<string>, buildNumber: string, names: seq<string>)
    requires forall n | n in names :: n in table && n in repositories
    ensures Services(repositories, table, defaultPrefix, buildNumber, names).Ok?
  {
    if names != [] {
      ServicesTotal(repositories, table, defaultPrefix, buildNumber, names[..|names| - 1]);
    }
  }

  /** `construct_bom`: the most common prefix, the services under it, then the document. */
  method ConstructBom(options: BomOptions, repositories: map<string, RemoteGitRepository>, table: map<string, RepositorySummary>,
                      dependencies: map<string, map<string, string>>, now: BuildUtil.DateTime)
    returns (r: Result<Bom>)
    ensures r == BomOf(options, repositories, table, dependencies, now)
  {
    var defaultSourcePrefix := DetermineMostCommonPrefix(repositories, table);
    if defaultSourcePrefix.Raise? {
      return Raise(defaultSourcePrefix.error);
    }
    var services := MakeBomServicesSpec(repositories, table, defaultSourcePrefix.value, options.buildNumber);
    if services.Raise? {
      return Raise(services.error);
    }
    var artifactSources := ArtifactSources(options, defaultSourcePrefix.value);
    r := Ok(Bom(artifactSources, dependencies, services.value, BomVersion(options, now), BuildUtil.Timestring(now)));
  }
}
