/**
 * The source code manager of the build tool: the tables of repositories a
 * build needs, the checks on a manager's settings, where each repository
 * lives locally, what pulling a repository's source asks of git, and the
 * repository-by-repository application of a function.
 */
module SourceCodeManager {
  import opened Wrappers
  import opened Text
  import opened Json
  import Git
  import BuildUtil

  type Repository = Git.RemoteGitRepository

  // ================================================================ repository tables

  /** The url every spinnaker repository sits under. */
  const SpinnakerGithub := "https://github.com/spinnaker/"

  /** The url every google repository sits under. */
  const GoogleGithub := "https://github.com/google/"

  /** A repository hosted under `prefix`, named by its url's tail and without upstream. */
  function Hosted(prefix: string, name: string): Repository
  {
    Git.MakeFromUrl(prefix + name, None)
  }

  /** A repository hosted under a url ending in '/' is named by the name it was made from. */
  lemma HostedName(prefix: string, name: string)
    requires prefix != [] && prefix[|prefix| - 1] == '/' && '/' !in name
    ensures Hosted(prefix, name).name == name && Hosted(prefix, name).url == prefix + name
  {
    var url := prefix + name;
    forall j | |prefix| - 1 < j < |url| ensures url[j] != '/' {
      assert url[j] == name[j - |prefix|];
    }
    RFindCharAt(url, '/', |prefix| - 1);
    assert url[|prefix|..] == name;
  }

  /** `{repo.name: repo for repo in repos}`: each repository under its name, a later one replacing an earlier one. */
  function TableOf(repos: seq<Repository>): map<string, Repository>
  {
    if repos == [] then map[]
    else TableOf(repos[..|repos| - 1])[repos[|repos| - 1].name := repos[|repos| - 1]]
  }

  /** The table holds exactly the names of the repositories, each under its own name. */
  lemma {:induction false} TableOfSpec(repos: seq<Repository>)
    ensures forall k :: k in TableOf(repos) <==> exists i | 0 <= i < |repos| :: repos[i].name == k
    ensures forall k | k in TableOf(repos) :: TableOf(repos)[k].name == k && TableOf(repos)[k] in repos
  {
    if repos != [] {
      var init := repos[..|repos| - 1];
      TableOfSpec(init);
      forall k | k in TableOf(repos) ensures TableOf(repos)[k] in repos {
        if k != repos[|repos| - 1].name {
          assert TableOf(init)[k] in init;
        }
      }
      forall k | exists i | 0 <= i < |repos| :: repos[i].name == k ensures k in TableOf(repos) {
        var i :| 0 <= i < |repos| && repos[i].name == k;
        if i < |repos| - 1 {
          assert init[i].name == k;
        }
      }
      forall k | k in TableOf(init) ensures exists i | 0 <= i < |repos| :: repos[i].name == k {
        var i :| 0 <= i < |init| && init[i].name == k;
        assert repos[i].name == k;
      }
    }
  }

  /** The repositories of the given names, all hosted under `prefix`. */
  function HostedTable(prefix: string, names: seq<string>): map<string, Repository>
  {
    TableOf(seq(|names|, i requires 0 <= i < |names| => Hosted(prefix, names[i])))
  }

  /** A table of hosted repositories holds exactly the given names, each as the repository `<prefix><name>`. */
  lemma HostedTableSpec(prefix: string, names: seq<string>)
    requires prefix != [] && prefix[|prefix| - 1] == '/'
    requires forall i | 0 <= i < |names| :: '/' !in names[i]
    ensures forall k :: k in HostedTable(prefix, names) <==> k in names
    ensures forall k | k in HostedTable(prefix, names) ::
      HostedTable(prefix, names)[k] == Hosted(prefix, k) && HostedTable(prefix, names)[k].url == prefix + k
  {
    var repos := seq(|names|, i requires 0 <= i < |names| => Hosted(prefix, names[i]));
    TableOfSpec(repos);
    forall i | 0 <= i < |names| ensures repos[i].name == names[i] {
      HostedName(prefix, names[i]);
    }
    forall k | k in names ensures k in TableOf(repos) {
      var i :| 0 <= i < |names| && names[i] == k;
      assert repos[i].name == k;
    }
    forall k | k in TableOf(repos)
      ensures k in names && TableOf(repos)[k] == Hosted(prefix, k) && TableOf(repos)[k].url == prefix + k
    {
      var i :| 0 <= i < |repos| && repos[i] == TableOf(repos)[k];
      HostedName(prefix, k);
    }
  }

  /** The repositories needed to run spinnaker from source. */
  const RunnableNames: seq<string> :=
    ["clouddriver", "deck", "echo", "fiat", "front50", "gate", "igor", "orca", "rosco"]

  /** `SPINNAKER_RUNNABLE_REPOSITORIES`. */
  function SpinnakerRunnableRepositories(): map<string, Repository>
  {
    HostedTable(SpinnakerGithub, RunnableNames)
  }

  /** `SPINNAKER_BOM_REPOSITORIES`: spinnaker and spinnaker-monitoring, updated with the runnable ones. */
  function SpinnakerBomRepositories(): map<string, Repository>
  {
    HostedTable(SpinnakerGithub, ["spinnaker", "spinnaker-monitoring"]) + SpinnakerRunnableRepositories()
  }

  /** `SPINNAKER_TESTING_REPOSITORIES`: spinnaker and google's citest. */
  function SpinnakerTestingRepositories(): map<string, Repository>
  {
    TableOf([Hosted(SpinnakerGithub, "spinnaker"), Hosted(GoogleGithub, "citest")])
  }

  /** `SPINNAKER_HALYARD_REPOSITORIES`. */
  function SpinnakerHalyardRepositories(): map<string, Repository>
  {
    map["halyard" := Hosted(SpinnakerGithub, "halyard")]
  }

  /** The url prefixes end in '/', and no table name holds one. */
  lemma TableNamesFree()
    ensures SpinnakerGithub != [] && SpinnakerGithub[|SpinnakerGithub| - 1] == '/'
    ensures GoogleGithub != [] && GoogleGithub[|GoogleGithub| - 1] == '/'
    ensures forall i | 0 <= i < |RunnableNames| :: '/' !in RunnableNames[i]
    ensures '/' !in "spinnaker" && '/' !in "spinnaker-monitoring" && '/' !in "citest" && '/' !in "halyard"
  {
  }

  /** Two hosted tables together hold the names of both, each as the repository `<prefix><name>`. */
  lemma HostedUnionSpec(prefix: string, first: seq<string>, second: seq<string>)
    requires prefix != [] && prefix[|prefix| - 1] == '/'
    requires forall i | 0 <= i < |first| :: '/' !in first[i]
    requires forall i | 0 <= i < |second| :: '/' !in second[i]
    ensures var t := HostedTable(prefix, first) + HostedTable(prefix, second);
      && (forall k :: k in t <==> k in first || k in second)
      && (forall k | k in t :: t[k].name == k && t[k].url == prefix + k && t[k].upstreamRef == None)
  {
    HostedTableSpec(prefix, first);
    HostedTableSpec(prefix, second);
    var t := HostedTable(prefix, first) + HostedTable(prefix, second);
    forall k | k in t ensures t[k].name == k && t[k].url == prefix + k && t[k].upstreamRef == None {
      assert t[k] == Hosted(prefix, k);
      HostedName(prefix, k);
    }
  }

  /**
   * The BOM repositories are the runnable ones plus spinnaker and
   * spinnaker-monitoring, each keyed by its url's tail under the spinnaker
   * github organisation.
   */
  lemma SpinnakerBomRepositoriesSpec()
    ensures forall k :: k in SpinnakerBomRepositories() <==>
      k in RunnableNames || k == "spinnaker" || k == "spinnaker-monitoring"
    ensures forall k | k in SpinnakerBomRepositories() ::
      && SpinnakerBomRepositories()[k].name == k
      && SpinnakerBomRepositories()[k].url == SpinnakerGithub + k
      && SpinnakerBomRepositories()[k].upstreamRef == None
  {
    var first := ["spinnaker", "spinnaker-monitoring"];
    TableNamesFree();
    HostedUnionSpec(SpinnakerGithub, first, RunnableNames);
    assert forall k :: k in first <==> k == "spinnaker" || k == "spinnaker-monitoring";
  }

  /** The runnable repositories are exactly the nine services, each under its url's tail. */
  lemma SpinnakerRunnableRepositoriesSpec()
    ensures forall k :: k in SpinnakerRunnableRepositories() <==> k in RunnableNames
    ensures forall k | k in SpinnakerRunnableRepositories() ::
      SpinnakerRunnableRepositories()[k].name == k && SpinnakerRunnableRepositories()[k].url == SpinnakerGithub + k
  {
    TableNamesFree();
    HostedTableSpec(SpinnakerGithub, RunnableNames);
    forall k | k in SpinnakerRunnableRepositories() ensures SpinnakerRunnableRepositories()[k].name == k {
      HostedName(SpinnakerGithub, k);
    }
  }

  /** A table of two differently named repositories holds both, each under its name. */
  lemma TwoTable(first: Repository, second: Repository)
    requires first.name != second.name
    ensures TableOf([first, second]) == map[first.name := first, second.name := second]
  {
    var both := [first, second];
    assert both[..1] == [first];
    assert [first][..0] == [];
    assert TableOf([first]) == map[first.name := first];
    assert TableOf(both) == TableOf([first])[second.name := second];
  }

  /** The testing table holds spinnaker and google's citest, each under its url's tail. */
  lemma SpinnakerTestingRepositoriesSpec()
    ensures SpinnakerTestingRepositories()
            == map["spinnaker" := Hosted(SpinnakerGithub, "spinnaker"), "citest" := Hosted(GoogleGithub, "citest")]
    ensures SpinnakerTestingRepositories()["citest"].url == GoogleGithub + "citest"
  {
    TableNamesFree();
    HostedName(SpinnakerGithub, "spinnaker");
    HostedName(GoogleGithub, "citest");
    TwoTable(Hosted(SpinnakerGithub, "spinnaker"), Hosted(GoogleGithub, "citest"));
  }

  // ================================================================ the manager

  /** The keyword arguments of the constructor: the two it knows, and the names of any others. */
  datatype ManagerKeywords = ManagerKeywords(maxThreads: Option<int>, attachUpstream: Option<bool>, others: set<string>)

  /** `SpinnakerSourceCodeManager`: its settings never change after construction. */
  datatype Manager<G> = Manager(
    git: G,
    rootPath: string,
    sourceRepositories: map<string, Repository>,
    maxThreads: int,
    addUpstream: bool)

  /**
   * The constructor: a git controller, a root path and repositories are
   * required (ValueError, checked in that order), `max_threads` defaults to
   * 100 and `attach_upstream` to False, and any other keyword raises.
   */
  function NewManager<G>(git: Option<G>, rootPath: string, sourceRepositories: map<string, Repository>,
                         keywords: ManagerKeywords): Result<Manager<G>>
  {
    if git.None? then Raise(ValueError("No git controller provided."))
    else if rootPath == "" then Raise(ValueError("No root_path provied."))
    else if sourceRepositories == map[] then Raise(ValueError("No source_repositories were provided."))
    else if keywords.others != {} then Raise(ValueError("Unexpected arguments"))
    else Ok(Manager(git.value, rootPath, sourceRepositories,
                    keywords.maxThreads.GetOr(100), keywords.attachUpstream.GetOr(false)))
  }

  /**
   * A manager is made exactly when the controller, a non-empty root path and
   * at least one repository are given with no unknown keyword; it then keeps
   * them, with 100 threads and no upstream unless told otherwise.
   */
  lemma NewManagerSpec<G>(git: Option<G>, rootPath: string, sourceRepositories: map<string, Repository>,
                          keywords: ManagerKeywords)
    ensures var r := NewManager(git, rootPath, sourceRepositories, keywords);
      && (r.Ok? <==> git.Some? && rootPath != "" && sourceRepositories != map[] && keywords.others == {})
      && (r.Raise? ==> r.error.ValueError?)
      && (r.Ok? ==>
            && r.value.git == git.value && r.value.rootPath == rootPath
            && r.value.sourceRepositories == sourceRepositories
            && (keywords.maxThreads.None? ==> r.value.maxThreads == 100)
            && (keywords.maxThreads.Some? ==> r.value.maxThreads == keywords.maxThreads.value)
            && r.value.addUpstream == (keywords.attachUpstream == Some(true)))
  {
  }

  /** `get_local_repository_path`: the root path joined with the name, whether or not the repository exists. */
  function LocalRepositoryPath<G>(m: Manager<G>, repositoryName: string): (path: string)
  {
    BuildUtil.PathJoin(m.rootPath, repositoryName)
  }

  /** A relative name lands under the root path, as its last component when the root lacks a trailing '/'. */
  lemma LocalRepositoryPathSpec<G>(m: Manager<G>, repositoryName: string)
    ensures !StartsWith(repositoryName, "/") ==>
      StartsWith(LocalRepositoryPath(m, repositoryName), m.rootPath)
      && EndsWith(LocalRepositoryPath(m, repositoryName), repositoryName)
    ensures !StartsWith(repositoryName, "/") && m.rootPath != "" && !EndsWith(m.rootPath, "/") ==>
      LocalRepositoryPath(m, repositoryName) == m.rootPath + "/" + repositoryName
    ensures StartsWith(repositoryName, "/") ==> LocalRepositoryPath(m, repositoryName) == repositoryName
  {
  }

  // ================================================================ pulling source

  /** Python truthiness of an optional string argument. */
  predicate Given(o: Option<string>) { o.Some? && o.value != "" }

  /** Where the BOM of a pull comes from. */
  datatype BomSource = BomVersion(version: string) | BomPath(path: string)

  /** What `maybe_pull_repository_source` asks for. */
  datatype PullRequest =
    | NothingRequested
    | CloneBranch(url: string, gitDir: string, branch: string, defaultBranch: Option<string>)
    | PullFromBom(name: string, gitDir: string, source: BomSource)

  /**
   * `maybe_pull_repository_source`: nothing when none of a BOM version, a
   * BOM path or a branch is given; ValueError when more than one is, when a
   * default branch comes without a branch, or when the local directory
   * already exists; otherwise a clone of the branch, or a pull from the BOM
   * loaded from halyard or from the file. Whether the directory exists is
   * an input.
   */
  function MaybePullRepositorySource<G>(m: Manager<G>, repository: Repository,
                                        bomVersion: Option<string>, bomPath: Option<string>,
                                        gitBranch: Option<string>, defaultBranch: Option<string>,
                                        present: string -> bool): Result<PullRequest>
  {
    var have := (if Given(bomVersion) then 1 else 0) + (if Given(bomPath) then 1 else 0)
                + (if Given(gitBranch) then 1 else 0);
    if have == 0 then Ok(NothingRequested)
    else if have > 1 then Raise(ValueError("Ambiguous source code requests."))
    else if Given(defaultBranch) && !Given(gitBranch) then Raise(ValueError("A default_branch requires a git_branch"))
    else
      var gitDir := LocalRepositoryPath(m, repository.name);
      if present(gitDir) then Raise(ValueError(gitDir + " already exists. Cannot pull source."))
      else if Given(gitBranch) then Ok(CloneBranch(repository.url, gitDir, gitBranch.value, defaultBranch))
      else if Given(bomVersion) then Ok(PullFromBom(repository.name, gitDir, BomVersion(bomVersion.value)))
      else Ok(PullFromBom(repository.name, gitDir, BomPath(bomPath.value)))
  }

  /**
   * With none of the three requested nothing happens, whatever the default
   * branch; with two or more the request is ambiguous; with exactly one, a
   * default branch without a branch raises, and otherwise the source is
   * pulled (into the repository's local directory, unless it exists) from
   * the one that was given.
   */
  lemma MaybePullRepositorySourceSpec<G>(m: Manager<G>, repository: Repository,
                                         bomVersion: Option<string>, bomPath: Option<string>,
                                         gitBranch: Option<string>, defaultBranch: Option<string>,
                                         present: string -> bool)
    ensures var r := MaybePullRepositorySource(m, repository, bomVersion, bomPath, gitBranch, defaultBranch, present);
      var gitDir := LocalRepositoryPath(m, repository.name);
      && (!Given(bomVersion) && !Given(bomPath) && !Given(gitBranch) ==> r == Ok(NothingRequested))
      && (((Given(bomVersion) && Given(bomPath)) || (Given(bomVersion) && Given(gitBranch))
           || (Given(bomPath) && Given(gitBranch))) ==> r == Raise(ValueError("Ambiguous source code requests.")))
      && (Given(bomVersion) != Given(bomPath) && !Given(gitBranch) && Given(defaultBranch) ==> r.Raise?)
      && (r.Ok? && r.value != NothingRequested ==> !present(gitDir))
      && (Given(gitBranch) && !Given(bomVersion) && !Given(bomPath) && !present(gitDir) ==>
            r == Ok(CloneBranch(repository.url, gitDir, gitBranch.value, defaultBranch)))
      && (Given(bomVersion) && !Given(bomPath) && !Given(gitBranch) && !Given(defaultBranch) && !present(gitDir) ==>
            r == Ok(PullFromBom(repository.name, gitDir, BomVersion(bomVersion.value))))
      && (Given(bomPath) && !Given(bomVersion) && !Given(gitBranch) && !Given(defaultBranch) && !present(gitDir) ==>
            r == Ok(PullFromBom(repository.name, gitDir, BomPath(bomPath.value))))
  {
  }

  /** The clone and retagging that `pull_source_from_bom` asks of git. */
  datatype BomPull = BomPull(originUrl: Json, gitDir: string, commit: Json, tag: string, branch: Json)

  /** The BOM names the two monitoring packages after the repository that builds them. */
  function BomServiceName(repositoryName: string): string
  {
    if repositoryName == "monitoring-daemon" || repositoryName == "monitoring-third-party"
    then "spinnaker-monitoring" else repositoryName
  }

  /** `version[:version.index('-')]` made into a tag: ValueError without a '-', AttributeError for a non-text version. */
  function VersionTag(version: Json): Result<string>
  {
    if !version.JString? then Raise(AttributeError("index"))
    else
      var i := FindChar(version.s, '-');
      if i < 0 then Raise(ValueError("substring not found"))
      else Ok("version-" + version.s[..i])
  }

  /** `d.get(key, default)` on a decoded object. */
  function GetOr(fields: map<string, Json>, key: string, default: Json): Json
  {
    if key in fields then fields[key] else default
  }

  /**
   * `pull_source_from_bom`: the service entry (the monitoring packages under
   * spinnaker-monitoring), its commit and the tag from its version are read
   * first; an existing local directory then stops the pull; otherwise the
   * origin is the entry's `sourceRepository` or `<gitPrefix>/<name>` and the
   * branch the entry's `sourceBranch`, else the BOM's `gitBranch`, else
   * '(unknown)'. `show` is `str()` of a non-text value.
   */
  function PullSourceFromBom(repositoryName: string, gitDir: string, bom: Json, present: string -> bool,
                             show: Json -> string): Result<Option<BomPull>>
  {
    var name := BomServiceName(repositoryName);
    match Lookup(bom, "services")
    case Raise(e) => Raise(e)
    case Ok(services) =>
      match Lookup(services, name)
      case Raise(e) => Raise(e)
      case Ok(spec) =>
        match Lookup(spec, "commit")
        case Raise(e) => Raise(e)
        case Ok(commit) =>
          match Lookup(spec, "version")
          case Raise(e) => Raise(e)
          case Ok(version) =>
            match VersionTag(version)
            case Raise(e) => Raise(e)
            case Ok(tag) =>
              if present(gitDir) then Ok(None)
              else
                match Lookup(bom, "artifactSources")
                case Raise(e) => Raise(e)
                case Ok(sources) =>
                  match Lookup(sources, "gitPrefix")
                  case Raise(e) => Raise(e)
                  case Ok(base) =>
                    var baseText := if base.JString? then base.s else show(base);
                    var origin := GetOr(spec.fields, "sourceRepository", JString(baseText + "/" + name));
                    var branch := GetOr(spec.fields, "sourceBranch",
                                        GetOr(sources.fields, "gitBranch", JString("(unknown)")));
                    Ok(Some(BomPull(origin, gitDir, commit, tag, branch)))
  }

  /**
   * The tag is 'version-' and the BOM version up to its first '-'; the origin
   * defaults to `<gitPrefix>/<name>` and the branch to the BOM's, then
   * '(unknown)'; the monitoring packages are read from spinnaker-monitoring.
   */
  lemma PullSourceFromBomSpec(repositoryName: string, gitDir: string, bom: Json, present: string -> bool,
                              show: Json -> string)
    requires PullSourceFromBom(repositoryName, gitDir, bom, present, show).Ok?
    ensures var r := PullSourceFromBom(repositoryName, gitDir, bom, present, show).value;
      var name := BomServiceName(repositoryName);
      var spec := bom.fields["services"].fields[name];
      var version := spec.fields["version"].s;
      && (r.None? <==> present(gitDir))
      && (r.Some? ==>
            && r.value.gitDir == gitDir && r.value.commit == spec.fields["commit"]
            && '-' in version && StartsWith(r.value.tag, "version-")
            && r.value.tag[8..] == version[..FindChar(version, '-')]
            && '-' !in r.value.tag[8..]
            && ("sourceRepository" in spec.fields ==> r.value.originUrl == spec.fields["sourceRepository"])
            && ("sourceRepository" !in spec.fields && bom.fields["artifactSources"].fields["gitPrefix"].JString? ==>
                  r.value.originUrl == JString(bom.fields["artifactSources"].fields["gitPrefix"].s + "/" + name))
            && ("sourceRepository" !in spec.fields && !bom.fields["artifactSources"].fields["gitPrefix"].JString? ==>
                  r.value.originUrl == JString(show(bom.fields["artifactSources"].fields["gitPrefix"]) + "/" + name))
            && ("sourceBranch" in spec.fields ==> r.value.branch == spec.fields["sourceBranch"])
            && ("sourceBranch" !in spec.fields && "gitBranch" in bom.fields["artifactSources"].fields ==>
                  r.value.branch == bom.fields["artifactSources"].fields["gitBranch"])
            && ("sourceBranch" !in spec.fields && "gitBranch" !in bom.fields["artifactSources"].fields ==>
                  r.value.branch == JString("(unknown)")))
  {
    var r := PullSourceFromBom(repositoryName, gitDir, bom, present, show).value;
    var version := bom.fields["services"].fields[BomServiceName(repositoryName)].fields["version"].s;
    if r.Some? {
      var i := FindChar(version, '-');
      assert r.value.tag == "version-" + version[..i];
      assert r.value.tag[8..] == version[..i];
    }
  }

  /** A monitoring package is pulled from the BOM's spinnaker-monitoring entry. */
  lemma MonitoringFromBom(gitDir: string, bom: Json, present: string -> bool, show: Json -> string)
    ensures PullSourceFromBom("monitoring-daemon", gitDir, bom, present, show)
            == PullSourceFromBom("spinnaker-monitoring", gitDir, bom, present, show)
    ensures PullSourceFromBom("monitoring-third-party", gitDir, bom, present, show)
            == PullSourceFromBom("spinnaker-monitoring", gitDir, bom, present, show)
  {
  }

  // ================================================================ foreach and push

  /**
   * `foreach_source_repository` on its single-thread path: every repository
   * name mapped to the function applied to that repository (the extra
   * arguments are bound into `fn`).
   */
  method ForeachSourceRepository<G, T>(m: Manager<G>, fn: Repository -> T) returns (result: map<string, T>)
    ensures result.Keys == m.sourceRepositories.Keys
    ensures forall name | name in result :: result[name] == fn(m.sourceRepositories[name])
  {
    var all := m.sourceRepositories;
    var remaining := all.Keys;
    result := map[];
    while remaining != {}
      invariant remaining <= all.Keys
      invariant result.Keys == all.Keys - remaining
      invariant forall name | name in result :: result[name] == fn(all[name])
      decreases |remaining|
    {
      var name :| name in remaining;
      result := result[name := fn(all[name])];
      remaining := remaining - {name};
    }
  }

  /** The push `push_to_origin_if_not_upstream` asks for. */
  datatype Push = Push(gitDir: string, branch: string)

  /** `push_to_origin_if_not_upstream`: no push when the origin is the upstream, else the local directory's branch. */
  function PushToOriginIfNotUpstream<G>(m: Manager<G>, repository: Repository, branch: string): Option<Push>
  {
    if Git.UpstreamUrl(repository) == Some(repository.url) then None
    else Some(Push(LocalRepositoryPath(m, repository.name), branch))
  }

  /** Nothing is pushed exactly when the repository's upstream url is its own url. */
  lemma PushToOriginSpec<G>(m: Manager<G>, repository: Repository, branch: string)
    ensures PushToOriginIfNotUpstream(m, repository, branch).None? <==>
      repository.upstreamRef.Some? && repository.upstreamRef.value.url == repository.url
    ensures PushToOriginIfNotUpstream(m, repository, branch).Some? ==>
      PushToOriginIfNotUpstream(m, repository, branch).value
        == Push(LocalRepositoryPath(m, repository.name), branch)
  {
  }
}
