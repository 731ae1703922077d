/**
 * The configuration step of BOM validation: each configurable aspect of a
 * Spinnaker deployment (storage, the AWS, Google and Kubernetes providers,
 * a Jenkins master, and the aspects that add nothing) checks the options,
 * contributes halyard commands to a script and names the credential files
 * the script needs uploaded next to it.
 */
module ValidateBomConfig {
  import opened Wrappers
  import Text

  // ================================================================ options

  /** Python truthiness of an optional text option: present and not empty. */
  predicate Given(o: Option<string>)
  {
    o.Some? && o.value != ""
  }

  /** An optional value as `str.format` renders it: None becomes "None". */
  function Show(o: Option<string>): string
  {
    if o.Some? then o.value else "None"
  }

  /** `os.path.basename`: the text after the last '/'. */
  function Basename(path: string): (b: string)
    ensures '/' !in b && Text.EndsWith(path, b)
  {
    Text.AfterLastSpec(path, '/');
    Text.AfterLast(path, '/')
  }

  /** The parsed options the configurators read; a None is an option left at its default of None. */
  datatype Options = Options(
    spinnakerStorage: string,
    gcsStorageBucket: Option<string>,
    gcsStorageProject: Option<string>,
    gcsStorageCredentials: Option<string>,
    googleDeployProject: Option<string>,
    awsAccountCredentials: Option<string>,
    awsAccountName: string,
    awsAccountId: Option<string>,
    awsAccountRegions: string,
    googleAccountProject: Option<string>,
    googleAccountCredentials: Option<string>,
    googleAccountName: string,
    k8sAccountCredentials: Option<string>,
    k8sAccountName: string,
    dockerRegistry: Option<string>,
    jenkinsMasterName: Option<string>,
    jenkinsMasterAddress: Option<string>,
    jenkinsMasterUser: Option<string>)

  /**
   * The options as the configurators' `init_argument_parser` declare them:
   * the storage type is required, the account names and the AWS regions
   * have defaults, every other option defaults to None. The deploy project
   * is declared elsewhere and is given.
   */
  function DefaultOptions(storage: string, deployProject: Option<string>): (o: Options)
    ensures o.spinnakerStorage == storage && o.googleDeployProject == deployProject
    ensures o.awsAccountName == "my-aws-account" && o.awsAccountRegions == "us-east-1"
    ensures o.googleAccountName == "my-google-account" && o.k8sAccountName == "my-kubernetes-account"
    ensures o.gcsStorageCredentials.None? && o.awsAccountCredentials.None?
    ensures o.googleAccountCredentials.None? && o.k8sAccountCredentials.None?
    ensures o.jenkinsMasterName.None? && o.jenkinsMasterAddress.None? && o.jenkinsMasterUser.None?
  {
    Options(storage, None, None, None, deployProject,
            None, "my-aws-account", None, "us-east-1",
            None, None, "my-google-account",
            None, "my-kubernetes-account", None,
            None, None, None)
  }

  /**
   * The options object: its values, and the `<aspect>_enabled` attributes
   * that validation sets on it.
   */
  class Namespace {
    const options: Options
    var enabled: map<Enabled, bool>

    constructor (options: Options)
      ensures this.options == options && enabled == map[]
    {
      this.options := options;
      enabled := map[];
    }

    /** Sets one `<aspect>_enabled` attribute. */
    method SetEnabled(attribute: Enabled, value: bool)
      modifies this
      ensures enabled == old(enabled)[attribute := value]
    {
      enabled := enabled[attribute := value];
    }
  }

  /** The environment variable the Jenkins configurator's `add_config` reads the password from. */
  const PasswordVariable := "JENKINS_MASTER_PASSWORD"

  /** The variable the Jenkins configurator's `validate_options` looks up instead. */
  const MisspelledPasswordVariable := "JEKNINS_MASTER_PASSWORD"

  // ================================================================ configurators

  /** The configurators, one per configurable aspect. */
  datatype Configurator =
    | Storage | Aws | Google | Kubernetes | Jenkins | Monitoring | Notification | Security

  /** CONFIGURATOR_LIST: the order in which the configurators run. */
  const ConfiguratorList: seq<Configurator> :=
    [Storage, Aws, Google, Kubernetes, Jenkins, Monitoring, Notification, Security]

  /** The configurators that contribute no option checks, no commands and no files. */
  predicate Quiet(c: Configurator)
  {
    c.Monitoring? || c.Notification? || c.Security?
  }

  // ---------------------------------------------------------------- validate_options

  /** What a configurator's `validate_options` does: the attributes it sets, then the error it raises, if any. */
  datatype Validation = Validation(flags: map<Enabled, bool>, error: Option<Exception>)

  /** Whether the three Jenkins options are all None or all set. */
  predicate JenkinsConsistent(name: Option<string>, address: Option<string>, user: Option<string>)
  {
    name.None? == address.None? && name.None? == user.None?
  }

  /** The error for a storage type other than gcs. */
  function UnknownStorage(storage: string): Exception
  {
    ValueError("Unknown --spinnaker_storage=\"" + storage + "\"")
  }

  /** The error for Jenkins options that are neither all None nor all set. */
  function InconsistentJenkins(name: Option<string>, address: Option<string>, user: Option<string>): Exception
  {
    ValueError("Inconsistent jenkins_master specification:  --jenkins_master_name=\"" + Show(name)
               + "\" --jenkins_master_address=\"" + Show(address)
               + "\" --jenkins_master_user=\"" + Show(user) + "\"")
  }

  /** The error for a Jenkins name without its password variable. */
  const MissingJenkinsPassword := ValueError("--jenkins_master_name was provided, but no JENKINS_MASTER_PASSWORD environment variable")

  /** The errors for account credentials given without their companion option. */
  const MissingGoogleProject := "--google_account_project was not specified."
  const MissingDockerRegistry := "--docker_registry was not specified."

  /** The aspects whose `<aspect>_enabled` attribute validation sets. */
  datatype Enabled = AwsEnabled | GoogleEnabled | KubernetesEnabled | JenkinsEnabled

  /** The attribute's name on the options object. */
  function AttributeName(a: Enabled): string
  {
    match a
    case AwsEnabled => "aws_account_enabled"
    case GoogleEnabled => "google_account_enabled"
    case KubernetesEnabled => "k8s_account_enabled"
    case JenkinsEnabled => "jenkins_master_enabled"
  }

  /** The storage check: only gcs is known. */
  function StorageValidation(storage: string): (v: Validation)
    ensures v.flags == map[]
    ensures v.error.None? <==> storage == "gcs"
    ensures v.error.Some? ==> v.error.value == UnknownStorage(storage)
  {
    if storage != "gcs" then Validation(map[], Some(UnknownStorage(storage))) else Validation(map[], None)
  }

  /**
   * The Jenkins check, reading the password from `variable`: the three
   * options must be all None or all set, a given name needs the password
   * variable, and then `jenkins_master_enabled` records whether a name is
   * set.
   */
  function JenkinsValidation(o: Options, env: map<string, string>, variable: string): (v: Validation)
    ensures v.error.None? <==>
      JenkinsConsistent(o.jenkinsMasterName, o.jenkinsMasterAddress, o.jenkinsMasterUser)
      && (Given(o.jenkinsMasterName) ==> variable in env)
    ensures v.error.Some? ==> v.flags == map[] && v.error.value.ValueError?
    ensures v.error.None? ==> v.flags == map[JenkinsEnabled := o.jenkinsMasterName.Some?]
  {
    if !JenkinsConsistent(o.jenkinsMasterName, o.jenkinsMasterAddress, o.jenkinsMasterUser) then
      Validation(map[], Some(InconsistentJenkins(o.jenkinsMasterName, o.jenkinsMasterAddress, o.jenkinsMasterUser)))
    else if Given(o.jenkinsMasterName) && variable !in env then
      Validation(map[], Some(MissingJenkinsPassword))
    else
      Validation(map[JenkinsEnabled := o.jenkinsMasterName.Some?], None)
  }

  /**
   * An account check: `<aspect>_enabled` records whether the credentials are
   * set (even to an empty path), then credentials that are given without
   * their companion option raise `error`.
   */
  function AccountValidation(attribute: Enabled, credentials: Option<string>, companion: Option<string>,
                             error: string): (v: Validation)
    ensures v.flags == map[attribute := credentials.Some?]
    ensures v.error.None? <==> (Given(credentials) ==> Given(companion))
    ensures v.error.Some? ==> v.error.value == ValueError(error)
  {
    Validation(map[attribute := credentials.Some?],
               if Given(credentials) && !Given(companion) then Some(ValueError(error)) else None)
  }

  /** What each configurator's `validate_options` does. */
  function ValidationOf(c: Configurator, o: Options, env: map<string, string>): Validation
  {
    match c
    case Storage => StorageValidation(o.spinnakerStorage)
    case Aws => Validation(map[AwsEnabled := o.awsAccountCredentials.Some?], None)
    case Google =>
      AccountValidation(GoogleEnabled, o.googleAccountCredentials, o.googleAccountProject, MissingGoogleProject)
    case Kubernetes =>
      AccountValidation(KubernetesEnabled, o.k8sAccountCredentials, o.dockerRegistry, MissingDockerRegistry)
    case Jenkins => JenkinsValidation(o, env, PasswordVariable)
    case _ => Validation(map[], None)
  }

  /** What `validate_options` does for each configurator, on given options and environment. */
  function Checks(o: Options, env: map<string, string>): Configurator -> Validation
  {
    c => ValidationOf(c, o, env)
  }

  /** The checks of configurators in order, stopping at the first error, with every attribute set until then. */
  function ValidationOfAll(cs: seq<Configurator>, check: Configurator -> Validation): (v: Validation)
  {
    if cs == [] then Validation(map[], None)
    else Then(check(cs[0]), ValidationOfAll(cs[1..], check))
  }

  /** One check followed by others: the first one's error ends it; otherwise the attributes of both are set. */
  function Then(first: Validation, rest: Validation): Validation
  {
    if first.error.Some? then first else Validation(first.flags + rest.flags, rest.error)
  }

  /** An account configurator's `validate_options`: the attribute first, then the check. */
  method ValidateAccount(attribute: Enabled, credentials: Option<string>, companion: Option<string>, error: string,
                         ns: Namespace) returns (r: Result<()>)
    modifies ns
    ensures ns.enabled == old(ns.enabled) + AccountValidation(attribute, credentials, companion, error).flags
    ensures r.Ok? <==> AccountValidation(attribute, credentials, companion, error).error.None?
    ensures r.Raise? ==> r.error == AccountValidation(attribute, credentials, companion, error).error.value
  {
    ns.SetEnabled(attribute, credentials.Some?);
    if Given(credentials) && !Given(companion) {
      return Raise(ValueError(error));
    }
    r := Ok(());
  }

  /** One configurator's `validate_options` on the namespace. */
  method ValidateOne(c: Configurator, ns: Namespace, env: map<string, string>) returns (r: Result<()>)
    modifies ns
    ensures ns.enabled == old(ns.enabled) + ValidationOf(c, ns.options, env).flags
    ensures r.Ok? <==> ValidationOf(c, ns.options, env).error.None?
    ensures r.Raise? ==> r.error == ValidationOf(c, ns.options, env).error.value
  {
    var o := ns.options;
    match c {
      case Storage =>
        if o.spinnakerStorage != "gcs" {
          return Raise(UnknownStorage(o.spinnakerStorage));
        }
        r := Ok(());
      case Aws =>
        ns.SetEnabled(AwsEnabled, o.awsAccountCredentials.Some?);
        r := Ok(());
      case Google =>
        r := ValidateAccount(GoogleEnabled, o.googleAccountCredentials, o.googleAccountProject,
                             MissingGoogleProject, ns);
      case Kubernetes =>
        r := ValidateAccount(KubernetesEnabled, o.k8sAccountCredentials, o.dockerRegistry,
                             MissingDockerRegistry, ns);
      case Jenkins =>
        var v := JenkinsValidation(o, env, PasswordVariable);
        if v.error.Some? {
          return Raise(v.error.value);
        }
        ns.SetEnabled(JenkinsEnabled, o.jenkinsMasterName.Some?);
        r := Ok(());
      case _ =>
        r := Ok(());
    }
  }

  /** The checks of a run from its `i`th configurator on: that one's, then, unless it raises, the rest's. */
  lemma ValidationStep(cs: seq<Configurator>, i: nat, check: Configurator -> Validation)
    requires i < |cs|
    ensures ValidationOfAll(cs[i..], check) == Then(check(cs[i]), ValidationOfAll(cs[i + 1..], check))
  {
    assert cs[i..][1..] == cs[i + 1..];
  }

  /** Map union is associative. */
  lemma UnionAssociative<K, V>(a: map<K, V>, b: map<K, V>, c: map<K, V>)
    ensures a + b + c == a + (b + c)
  {
  }

  /**
   * `validate_options`: every configurator checks the options in turn; the
   * first error ends validation, with the attributes set until then kept.
   */
  method ValidateOptions(ns: Namespace, env: map<string, string>) returns (r: Result<()>)
    modifies ns
    ensures ns.enabled == old(ns.enabled) + ValidationOfAll(ConfiguratorList, Checks(ns.options, env)).flags
    ensures r.Ok? <==> ValidationOfAll(ConfiguratorList, Checks(ns.options, env)).error.None?
    ensures r.Raise? ==> r.error == ValidationOfAll(ConfiguratorList, Checks(ns.options, env)).error.value
  {
    r := ValidateEach(ConfiguratorList, ns, env);
  }

  /** The loop of `validate_options` over a list of configurators. */
  method ValidateEach(cs: seq<Configurator>, ns: Namespace, env: map<string, string>) returns (r: Result<()>)
    modifies ns
    ensures ns.enabled == old(ns.enabled) + ValidationOfAll(cs, Checks(ns.options, env)).flags
    ensures r.Ok? <==> ValidationOfAll(cs, Checks(ns.options, env)).error.None?
    ensures r.Raise? ==> r.error == ValidationOfAll(cs, Checks(ns.options, env)).error.value
  {
    ghost var check := Checks(ns.options, env);
    ghost var goal := ValidationOfAll(cs, check);
    var i := 0;
    while i < |cs|
      invariant 0 <= i <= |cs|
      invariant ns.enabled + ValidationOfAll(cs[i..], check).flags == old(ns.enabled) + goal.flags
      invariant ValidationOfAll(cs[i..], check).error == goal.error
    {
      ghost var before := ns.enabled;
      ValidationStep(cs, i, check);
      UnionAssociative(before, check(cs[i]).flags, ValidationOfAll(cs[i + 1..], check).flags);
      var step := ValidateOne(cs[i], ns, env);
      if step.Raise? {
        return Raise(step.error);
      }
      i := i + 1;
    }
    assert cs[i..] == [];
    r := Ok(());
  }

  /** The attributes a list of checks sets when none of them raises. */
  function FlagsOf(cs: seq<Configurator>, check: Configurator -> Validation): map<Enabled, bool>
  {
    if cs == [] then map[] else check(cs[0]).flags + FlagsOf(cs[1..], check)
  }

  /** A run of checks passes exactly when each check passes, and it then sets the attributes of all of them. */
  lemma {:induction false} PassingChecks(cs: seq<Configurator>, check: Configurator -> Validation)
    ensures ValidationOfAll(cs, check).error.None? <==> forall c | c in cs :: check(c).error.None?
    ensures ValidationOfAll(cs, check).error.None? ==> ValidationOfAll(cs, check).flags == FlagsOf(cs, check)
  {
    if cs != [] {
      PassingChecks(cs[1..], check);
      assert forall c | c in cs :: c == cs[0] || c in cs[1..];
    }
  }

  /** The attributes of a configurator's check followed by others'. */
  lemma FlagsCons(c: Configurator, rest: seq<Configurator>, check: Configurator -> Validation)
    ensures FlagsOf([c] + rest, check) == check(c).flags + FlagsOf(rest, check)
  {
    assert ([c] + rest)[1..] == rest;
  }

  /** The attributes CONFIGURATOR_LIST sets when it passes: those of storage, AWS, Google, Kubernetes and Jenkins. */
  lemma FlagsOfList(check: Configurator -> Validation)
    requires forall c: Configurator | Quiet(c) :: check(c).flags == map[]
    ensures FlagsOf(ConfiguratorList, check) ==
      check(Storage).flags + (check(Aws).flags + (check(Google).flags + (check(Kubernetes).flags + check(Jenkins).flags)))
  {
    var quiet := [Monitoring, Notification, Security];
    QuietFlags(quiet, check);
    var j := [Jenkins] + quiet;
    var k := [Kubernetes] + j;
    var g := [Google] + k;
    var a := [Aws] + g;
    FlagsCons(Jenkins, quiet, check);
    assert FlagsOf(j, check) == check(Jenkins).flags;
    FlagsCons(Kubernetes, j, check);
    FlagsCons(Google, k, check);
    FlagsCons(Aws, g, check);
    FlagsCons(Storage, a, check);
    ListShape();
  }

  /** CONFIGURATOR_LIST, one configurator at a time. */
  lemma ListShape()
    ensures ConfiguratorList ==
      [Storage] + ([Aws] + ([Google] + ([Kubernetes] + ([Jenkins] + [Monitoring, Notification, Security]))))
  {
  }

  /** The monitoring, notification and security configurators check nothing and set nothing. */
  lemma QuietChecks(o: Options, env: map<string, string>)
    ensures forall c: Configurator | Quiet(c) :: Checks(o, env)(c) == Validation(map[], None)
  {
  }

  /** Every configurator of CONFIGURATOR_LIST passes its check exactly when the options are consistent. */
  lemma ListChecksPass(o: Options, env: map<string, string>)
    ensures (forall c | c in ConfiguratorList :: ValidationOf(c, o, env).error.None?) <==>
      && o.spinnakerStorage == "gcs"
      && (Given(o.googleAccountCredentials) ==> Given(o.googleAccountProject))
      && (Given(o.k8sAccountCredentials) ==> Given(o.dockerRegistry))
      && JenkinsConsistent(o.jenkinsMasterName, o.jenkinsMasterAddress, o.jenkinsMasterUser)
      && (Given(o.jenkinsMasterName) ==> PasswordVariable in env)
  {
    assert Storage in ConfiguratorList && Google in ConfiguratorList;
    assert Kubernetes in ConfiguratorList && Jenkins in ConfiguratorList;
  }

  /**
   * With the misspelled variable name fixed, validation passes exactly when
   * the storage type is gcs, given Google credentials come with a project,
   * given Kubernetes credentials come with a docker registry, the Jenkins
   * options are all None or all set, and a given Jenkins name has its
   * password variable.
   */
  lemma ValidationErrorSpec(o: Options, env: map<string, string>)
    ensures ValidationOfAll(ConfiguratorList, Checks(o, env)).error.None? <==>
      && o.spinnakerStorage == "gcs"
      && (Given(o.googleAccountCredentials) ==> Given(o.googleAccountProject))
      && (Given(o.k8sAccountCredentials) ==> Given(o.dockerRegistry))
      && JenkinsConsistent(o.jenkinsMasterName, o.jenkinsMasterAddress, o.jenkinsMasterUser)
      && (Given(o.jenkinsMasterName) ==> PasswordVariable in env)
  {
    PassingChecks(ConfiguratorList, Checks(o, env));
    ListChecksPass(o, env);
  }

  /**
   * Validation that passes sets the four `_enabled` attributes, each true
   * exactly when its credentials (for Jenkins, the name) are not None.
   */
  lemma ValidationFlagsSpec(o: Options, env: map<string, string>)
    requires ValidationOfAll(ConfiguratorList, Checks(o, env)).error.None?
    ensures ValidationOfAll(ConfiguratorList, Checks(o, env)).flags ==
      map[AwsEnabled := o.awsAccountCredentials.Some?,
          GoogleEnabled := o.googleAccountCredentials.Some?,
          KubernetesEnabled := o.k8sAccountCredentials.Some?,
          JenkinsEnabled := o.jenkinsMasterName.Some?]
  {
    var check := Checks(o, env);
    PassingChecks(ConfiguratorList, check);
    QuietChecks(o, env);
    assert Jenkins in ConfiguratorList;
    AccountCheckFlags(o, env);
    JenkinsCheckFlags(o, env);
    FlagsFromChecks(check, o.awsAccountCredentials.Some?, o.googleAccountCredentials.Some?,
                    o.k8sAccountCredentials.Some?, o.jenkinsMasterName.Some?);
  }

  /** The attributes the storage check and the three account checks set. */
  lemma AccountCheckFlags(o: Options, env: map<string, string>)
    ensures Checks(o, env)(Storage).flags == map[]
    ensures Checks(o, env)(Aws).flags == map[AwsEnabled := o.awsAccountCredentials.Some?]
    ensures Checks(o, env)(Google).flags == map[GoogleEnabled := o.googleAccountCredentials.Some?]
    ensures Checks(o, env)(Kubernetes).flags == map[KubernetesEnabled := o.k8sAccountCredentials.Some?]
  {
  }

  /** The attribute the Jenkins check sets when it passes. */
  lemma JenkinsCheckFlags(o: Options, env: map<string, string>)
    ensures Checks(o, env)(Jenkins).error.None? ==>
      Checks(o, env)(Jenkins).flags == map[JenkinsEnabled := o.jenkinsMasterName.Some?]
  {
  }

  /** The attributes CONFIGURATOR_LIST sets, from those each check sets. */
  lemma FlagsFromChecks(check: Configurator -> Validation, a: bool, g: bool, k: bool, j: bool)
    requires forall c: Configurator | Quiet(c) :: check(c).flags == map[]
    requires check(Storage).flags == map[] && check(Aws).flags == map[AwsEnabled := a]
    requires check(Google).flags == map[GoogleEnabled := g] && check(Kubernetes).flags == map[KubernetesEnabled := k]
    requires check(Jenkins).flags == map[JenkinsEnabled := j]
    ensures FlagsOf(ConfiguratorList, check) ==
      map[AwsEnabled := a, GoogleEnabled := g, KubernetesEnabled := k, JenkinsEnabled := j]
  {
    FlagsOfList(check);
    FourFlags(a, g, k, j);
  }

  /** The attributes of the four checks that set one, merged in turn. */
  lemma FourFlags(a: bool, g: bool, k: bool, j: bool)
    ensures map[] + (map[AwsEnabled := a] + (map[GoogleEnabled := g] + (map[KubernetesEnabled := k] + map[JenkinsEnabled := j])))
      == map[AwsEnabled := a, GoogleEnabled := g, KubernetesEnabled := k, JenkinsEnabled := j]
  {
  }

  /** A run of configurators that set nothing has no attributes to set. */
  lemma {:induction false} QuietFlags(cs: seq<Configurator>, check: Configurator -> Validation)
    requires forall i | 0 <= i < |cs| :: check(cs[i]).flags == map[]
    ensures FlagsOf(cs, check) == map[]
  {
    if cs != [] {
      QuietFlags(cs[1..], check);
      var none: map<Enabled, bool> := map[];
      assert none + none == none;
    }
  }


  // ---------------------------------------------------------------- add_config

  /** A halyard command line: `hal --color=false <command>`. */
  function Hal(command: string): string
  {
    "hal --color=false " + command
  }

  /** The storage project: the gcs storage project when given, else the deploy project. */
  function StorageProject(o: Options): Option<string>
  {
    if Given(o.gcsStorageProject) then o.gcsStorageProject else o.googleDeployProject
  }

  /** The `--json-path` argument of the storage command: only for given credentials. */
  function JsonPath(credentials: Option<string>): string
  {
    if Given(credentials) then " --json-path ./" + Basename(credentials.value) else ""
  }

  /** The two storage lines: the gcs edit command, then the storage type. */
  function StorageLines(o: Options): seq<string>
  {
    [Hal("config storage gcs edit --project " + Show(StorageProject(o)) + " --bucket " + Show(o.gcsStorageBucket)
         + " --bucket-location us") + JsonPath(o.gcsStorageCredentials),
     Hal("config storage edit --type gcs")]
  }

  /** The storage configurator's `add_config`: gcs is the only storage type it can configure. */
  function StorageConfig(o: Options): (r: Result<seq<string>>)
    ensures r.Ok? <==> o.spinnakerStorage == "gcs"
  {
    if o.spinnakerStorage == "gcs" then Ok(StorageLines(o)) else Raise(NotImplementedError(o.spinnakerStorage))
  }

  /** Enabling a provider, then adding its account with the given parameters. */
  function ProviderLines(provider: string, params: seq<string>): seq<string>
  {
    [Hal("config provider " + provider + " enable"),
     Hal("config provider " + provider + " account add " + Text.Join(params, " "))]
  }

  /** The AWS account parameters: the name, then the account id and the regions when they are given. */
  function AwsParams(name: string, id: Option<string>, regions: string): seq<string>
  {
    [name] + (if Given(id) then ["--account-id", id.value] else [])
      + (if regions != "" then ["--account-regions", regions] else [])
  }

  /** The AWS lines for a credentials file: the provider, then moving the file into place. */
  function AwsLines(o: Options, credentials: string): seq<string>
  {
    var file := Basename(credentials);
    ProviderLines("aws", AwsParams(o.awsAccountName, o.awsAccountId, o.awsAccountRegions))
      + ["sudo chown spinnaker:spinnaker " + file, "sudo mkdir -p ~spinnaker/.aws",
         "sudo mv " + file + " ~spinnaker/.aws/credentials"]
  }

  /** The AWS configurator's `add_config`: nothing without credentials. */
  function AwsConfig(o: Options): (r: Result<seq<string>>)
    ensures r.Ok? && (r.value == [] <==> !Given(o.awsAccountCredentials))
  {
    if Given(o.awsAccountCredentials) then Ok(AwsLines(o, o.awsAccountCredentials.value)) else Ok([])
  }

  /**
   * An account configurator's `add_config`: nothing without credentials,
   * `error` when the companion option is missing, else the provider lines
   * with the account name, the companion under `companionFlag` and the
   * credentials file under `fileFlag`.
   */
  function AccountConfig(provider: string, name: string, credentials: Option<string>, companion: Option<string>,
                         companionFlag: string, fileFlag: string, error: string): (r: Result<seq<string>>)
    ensures r.Ok? <==> (Given(credentials) ==> Given(companion))
    ensures r.Ok? ==> (r.value == [] <==> !Given(credentials))
    ensures r.Raise? ==> r.error == ValueError(error)
  {
    if !Given(credentials) then Ok([])
    else if !Given(companion) then Raise(ValueError(error))
    else Ok(ProviderLines(provider, [name, companionFlag, companion.value, fileFlag, Basename(credentials.value)]))
  }

  /** The Google configurator's `add_config`. */
  function GoogleConfig(o: Options): Result<seq<string>>
  {
    AccountConfig("google", o.googleAccountName, o.googleAccountCredentials, o.googleAccountProject,
                  "--project", "--json-path", "--google_account_credentials without --google_account_project")
  }

  /** The Kubernetes configurator's `add_config`. */
  function KubernetesConfig(o: Options): Result<seq<string>>
  {
    AccountConfig("kubernetes", o.k8sAccountName, o.k8sAccountCredentials, o.dockerRegistry,
                  "--docker-registries", "--kubeconfig-file", "--k8s_account_credentials without --docker_registry")
  }

  /** Whether the Jenkins options are all given or all missing, in Python's truthiness. */
  predicate JenkinsAllOrNone(o: Options)
  {
    Given(o.jenkinsMasterName) == Given(o.jenkinsMasterAddress) && Given(o.jenkinsMasterName) == Given(o.jenkinsMasterUser)
  }

  /** The errors of the Jenkins configurator's `add_config`. */
  const JenkinsAllOrNoneError :=
    "Either all of --jenkins_master_name, --jenkins_master_address, --jenkins_master_user or none of them must be supplied."
  const JenkinsPasswordError := "No JENKINS_MASTER_PASSWORD environment variable was supplied."

  /** The Jenkins lines: enabling the CI, then adding the master, whose password comes from a file. */
  function JenkinsLines(name: string, address: string, user: string): seq<string>
  {
    [Hal("config ci jenkins enable"),
     Hal("config ci jenkins master add " + name + " --address " + address + " --username " + user
         + " < jenkins_" + name + "_password")]
  }

  /**
   * The Jenkins configurator's `add_config`: the options, each empty one
   * taken as missing, must be all given or all missing; nothing when they
   * are missing; then the password variable must be set.
   */
  function JenkinsConfig(o: Options, env: map<string, string>): (r: Result<seq<string>>)
    ensures r.Ok? <==> JenkinsAllOrNone(o) && (Given(o.jenkinsMasterName) ==> PasswordVariable in env)
    ensures r.Ok? ==> (r.value == [] <==> !Given(o.jenkinsMasterName))
  {
    if !JenkinsAllOrNone(o) then Raise(ValueError(JenkinsAllOrNoneError))
    else if !Given(o.jenkinsMasterName) then Ok([])
    else if PasswordVariable !in env then Raise(ValueError(JenkinsPasswordError))
    else Ok(JenkinsLines(o.jenkinsMasterName.value, o.jenkinsMasterAddress.value, o.jenkinsMasterUser.value))
  }

  /** What each configurator's `add_config` appends, or the error it raises before appending anything. */
  function ConfigLines(c: Configurator, o: Options, env: map<string, string>): Result<seq<string>>
  {
    match c
    case Storage => StorageConfig(o)
    case Aws => AwsConfig(o)
    case Google => GoogleConfig(o)
    case Kubernetes => KubernetesConfig(o)
    case Jenkins => JenkinsConfig(o, env)
    case _ => Ok([])
  }

  /** What `add_config` does for each configurator, on given options and environment. */
  function Contributions(o: Options, env: map<string, string>): Configurator -> Result<seq<string>>
  {
    c => ConfigLines(c, o, env)
  }

  /** The lines of configurators in order, or the first error among them. */
  function ScriptOf(cs: seq<Configurator>, lines: Configurator -> Result<seq<string>>): Result<seq<string>>
  {
    if cs == [] then Ok([]) else Follow(lines(cs[0]), ScriptOf(cs[1..], lines))
  }

  /** Lines followed by more lines: the first error, or all the lines in order. */
  function Follow(first: Result<seq<string>>, rest: Result<seq<string>>): Result<seq<string>>
  {
    if first.Raise? then first else if rest.Raise? then rest else Ok(first.value + rest.value)
  }

  /** The `script` list that `add_config` appends to. */
  class Script {
    var lines: seq<string>

    constructor ()
      ensures lines == []
    {
      lines := [];
    }

    /** `script.append(line)`. */
    method Append(line: string)
      modifies this
      ensures lines == old(lines) + [line]
    {
      lines := lines + [line];
    }
  }

  /** A call of `add_config` whose expected outcome is `expected`: the lines appended, or the error with nothing appended. */
  predicate AppendsAs(r: Result<()>, expected: Result<seq<string>>, before: seq<string>, after: seq<string>)
  {
    && (expected.Ok? ==> r.Ok? && after == before + expected.value)
    && (expected.Raise? ==> r == Raise(expected.error) && after == before)
  }

  /** The storage configurator's `add_config`. */
  method AddStorageConfig(o: Options, script: Script) returns (r: Result<()>)
    modifies script
    ensures AppendsAs(r, StorageConfig(o), old(script.lines), script.lines)
  {
    var project := if Given(o.gcsStorageProject) then o.gcsStorageProject else o.googleDeployProject;
    if o.spinnakerStorage == "gcs" {
      var hal := Hal("config storage gcs edit --project " + Show(project) + " --bucket " + Show(o.gcsStorageBucket)
                     + " --bucket-location us");
      if Given(o.gcsStorageCredentials) {
        hal := hal + " --json-path ./" + Basename(o.gcsStorageCredentials.value);
      }
      assert hal == StorageLines(o)[0];
      script.Append(hal);
      script.Append(Hal("config storage edit --type gcs"));
      return Ok(());
    }
    r := Raise(NotImplementedError(o.spinnakerStorage));
  }

  /** The AWS configurator's `add_config`. */
  method AddAwsConfig(o: Options, script: Script) returns (r: Result<()>)
    modifies script
    ensures AppendsAs(r, AwsConfig(o), old(script.lines), script.lines)
  {
    if !Given(o.awsAccountCredentials) {
      return Ok(());
    }
    var params := [o.awsAccountName];
    if Given(o.awsAccountId) {
      params := params + ["--account-id", o.awsAccountId.value];
    }
    if o.awsAccountRegions != "" {
      params := params + ["--account-regions", o.awsAccountRegions];
    }
    assert params == AwsParams(o.awsAccountName, o.awsAccountId, o.awsAccountRegions);
    var file := Basename(o.awsAccountCredentials.value);
    ghost var before := script.lines;
    var provider := ProviderLines("aws", params);
    var enable, add := provider[0], provider[1];
    var chown, mkdir := "sudo chown spinnaker:spinnaker " + file, "sudo mkdir -p ~spinnaker/.aws";
    var move := "sudo mv " + file + " ~spinnaker/.aws/credentials";
    script.Append(enable);
    script.Append(add);
    script.Append(chown);
    script.Append(mkdir);
    script.Append(move);
    assert script.lines == before + [enable, add, chown, mkdir, move];
    assert AwsLines(o, o.awsAccountCredentials.value) == [enable, add, chown, mkdir, move];
    r := Ok(());
  }

  /** The Google or Kubernetes configurator's `add_config`. */
  method AddAccountConfig(provider: string, name: string, credentials: Option<string>, companion: Option<string>,
                          companionFlag: string, fileFlag: string, error: string, script: Script)
    returns (r: Result<()>)
    modifies script
    ensures AppendsAs(r, AccountConfig(provider, name, credentials, companion, companionFlag, fileFlag, error),
                      old(script.lines), script.lines)
  {
    if !Given(credentials) {
      return Ok(());
    }
    if !Given(companion) {
      return Raise(ValueError(error));
    }
    var params := [name];
    params := params + [companionFlag, companion.value, fileFlag, Basename(credentials.value)];
    script.Append(Hal("config provider " + provider + " enable"));
    script.Append(Hal("config provider " + provider + " account add " + Text.Join(params, " ")));
    r := Ok(());
  }

  /** The Jenkins configurator's `add_config`. */
  method AddJenkinsConfig(o: Options, env: map<string, string>, script: Script) returns (r: Result<()>)
    modifies script
    ensures AppendsAs(r, JenkinsConfig(o, env), old(script.lines), script.lines)
  {
    var name := if Given(o.jenkinsMasterName) then o.jenkinsMasterName else None;
    var address := if Given(o.jenkinsMasterAddress) then o.jenkinsMasterAddress else None;
    var user := if Given(o.jenkinsMasterUser) then o.jenkinsMasterUser else None;
    var password := if PasswordVariable in env then Some(env[PasswordVariable]) else None;
    if name.None? != address.None? || name.None? != user.None? {
      return Raise(ValueError(JenkinsAllOrNoneError));
    }
    if name.None? {
      return Ok(());
    }
    if password.None? {
      return Raise(ValueError(JenkinsPasswordError));
    }
    var lines := JenkinsLines(o.jenkinsMasterName.value, o.jenkinsMasterAddress.value, o.jenkinsMasterUser.value);
    script.Append(lines[0]);
    script.Append(lines[1]);
    r := Ok(());
  }

  /** One configurator's `add_config` on the script. */
  method AddConfig(c: Configurator, o: Options, env: map<string, string>, script: Script) returns (r: Result<()>)
    modifies script
    ensures AppendsAs(r, ConfigLines(c, o, env), old(script.lines), script.lines)
  {
    match c {
      case Storage =>
        r := AddStorageConfig(o, script);
      case Aws =>
        r := AddAwsConfig(o, script);
      case Google =>
        r := AddAccountConfig("google", o.googleAccountName, o.googleAccountCredentials, o.googleAccountProject,
                              "--project", "--json-path",
                              "--google_account_credentials without --google_account_project", script);
      case Kubernetes =>
        r := AddAccountConfig("kubernetes", o.k8sAccountName, o.k8sAccountCredentials, o.dockerRegistry,
                              "--docker-registries", "--kubeconfig-file",
                              "--k8s_account_credentials without --docker_registry", script);
      case Jenkins =>
        r := AddJenkinsConfig(o, env, script);
      case _ =>
        r := Ok(());
    }
  }

  /** The lines of a run from its `i`th configurator on: that one's, then, unless it raises, the rest's. */
  lemma ScriptStep(cs: seq<Configurator>, i: nat, lines: Configurator -> Result<seq<string>>)
    requires i < |cs|
    ensures ScriptOf(cs[i..], lines) == Follow(lines(cs[i]), ScriptOf(cs[i + 1..], lines))
  {
    assert cs[i..][1..] == cs[i + 1..];
  }

  /** Lines already written, followed by one step and the rest: the step's error, or the step's lines joined to those written. */
  lemma FollowWritten(written: seq<string>, step: Result<seq<string>>, rest: Result<seq<string>>)
    ensures step.Raise? ==> Follow(Ok(written), Follow(step, rest)) == step
    ensures step.Ok? ==> Follow(Ok(written), Follow(step, rest)) == Follow(Ok(written + step.value), rest)
  {
    if step.Ok? && rest.Ok? {
      assert written + (step.value + rest.value) == written + step.value + rest.value;
    }
  }

  /** Nothing written, followed by lines: those lines. */
  lemma FollowNothing(rest: Result<seq<string>>)
    ensures Follow(Ok([]), rest) == rest
  {
    if rest.Ok? {
      assert [] + rest.value == rest.value;
    }
  }

  /**
   * `make_script`: every configurator adds its commands to the script in
   * turn; the script is returned when none raises.
   */
  method MakeScript(o: Options, env: map<string, string>) returns (r: Result<seq<string>>)
    ensures r == ScriptOf(ConfiguratorList, Contributions(o, env))
  {
    r := ScriptEach(ConfiguratorList, o, env);
  }

  /** The loop of `make_script` over a list of configurators. */
  method ScriptEach(cs: seq<Configurator>, o: Options, env: map<string, string>) returns (r: Result<seq<string>>)
    ensures r == ScriptOf(cs, Contributions(o, env))
  {
    ghost var lines := Contributions(o, env);
    ghost var goal := ScriptOf(cs, lines);
    var script := new Script();
    var i := 0;
    assert cs[i..] == cs;
    FollowNothing(goal);
    while i < |cs|
      invariant 0 <= i <= |cs|
      invariant Follow(Ok(script.lines), ScriptOf(cs[i..], lines)) == goal
    {
      ghost var written := script.lines;
      assert lines(cs[i]) == ConfigLines(cs[i], o, env);
      ScriptStep(cs, i, lines);
      FollowWritten(written, lines(cs[i]), ScriptOf(cs[i + 1..], lines));
      var step := AddConfig(cs[i], o, env, script);
      if step.Raise? {
        return Raise(step.error);
      }
      i := i + 1;
    }
    assert cs[i..] == [];
    assert script.lines + [] == script.lines;
    r := Ok(script.lines);
  }

  // ---------------------------------------------------------------- add_files_to_upload

  /** A credentials option's file, when the option is given. */
  function CredentialFile(path: Option<string>): set<string>
  {
    if Given(path) then {path.value} else {}
  }

  /** The files each configurator's `add_files_to_upload` adds: the credentials of storage and of the three providers. */
  function FilesOf(c: Configurator, o: Options): set<string>
  {
    match c
    case Storage => CredentialFile(o.gcsStorageCredentials)
    case Aws => CredentialFile(o.awsAccountCredentials)
    case Google => CredentialFile(o.googleAccountCredentials)
    case Kubernetes => CredentialFile(o.k8sAccountCredentials)
    case _ => {}
  }

  /** What `add_files_to_upload` adds for each configurator, on given options. */
  function FileContributions(o: Options): Configurator -> set<string>
  {
    c => FilesOf(c, o)
  }

  /** The files a list of configurators adds. */
  function UploadsOf(cs: seq<Configurator>, files: Configurator -> set<string>): set<string>
  {
    if cs == [] then {} else files(cs[0]) + UploadsOf(cs[1..], files)
  }

  /** The `file_set` that `add_files_to_upload` adds to. */
  class FileSet {
    var paths: set<string>

    constructor ()
      ensures paths == {}
    {
      paths := {};
    }

    /** `file_set.add(path)`. */
    method Add(path: string)
      modifies this
      ensures paths == old(paths) + {path}
    {
      paths := paths + {path};
    }
  }

  /** One configurator's `add_files_to_upload`. */
  method AddFilesToUpload(c: Configurator, o: Options, fileSet: FileSet)
    modifies fileSet
    ensures fileSet.paths == old(fileSet.paths) + FilesOf(c, o)
  {
    var credentials: Option<string> := None;
    match c {
      case Storage => credentials := o.gcsStorageCredentials;
      case Aws => credentials := o.awsAccountCredentials;
      case Google => credentials := o.googleAccountCredentials;
      case Kubernetes => credentials := o.k8sAccountCredentials;
      case _ =>
    }
    assert FilesOf(c, o) == CredentialFile(credentials);
    if Given(credentials) {
      fileSet.Add(credentials.value);
    }
  }

  /** The files of a run from its `i`th configurator on. */
  lemma UploadsStep(cs: seq<Configurator>, i: nat, files: Configurator -> set<string>)
    requires i < |cs|
    ensures UploadsOf(cs[i..], files) == files(cs[i]) + UploadsOf(cs[i + 1..], files)
  {
    assert cs[i..][1..] == cs[i + 1..];
  }

  /** `get_files_to_upload`: the files every configurator adds, collected in one set. */
  method GetFilesToUpload(o: Options) returns (files: set<string>)
    ensures files == UploadsOf(ConfiguratorList, FileContributions(o))
  {
    files := UploadsEach(ConfiguratorList, o);
  }

  /** The loop of `get_files_to_upload` over a list of configurators. */
  method UploadsEach(cs: seq<Configurator>, o: Options) returns (files: set<string>)
    ensures files == UploadsOf(cs, FileContributions(o))
  {
    ghost var contributions := FileContributions(o);
    var fileSet := new FileSet();
    var i := 0;
    assert cs[i..] == cs;
    while i < |cs|
      invariant 0 <= i <= |cs|
      invariant fileSet.paths + UploadsOf(cs[i..], contributions) == UploadsOf(cs, contributions)
    {
      UploadsStep(cs, i, contributions);
      AddFilesToUpload(cs[i], o, fileSet);
      i := i + 1;
    }
    assert cs[i..] == [];
    files := fileSet.paths;
  }

  // ---------------------------------------------------------------- the script

  /** A run of `add_config` calls succeeds exactly when each of them does. */
  lemma {:induction false} PassingScript(cs: seq<Configurator>, lines: Configurator -> Result<seq<string>>)
    ensures ScriptOf(cs, lines).Ok? <==> forall c | c in cs :: lines(c).Ok?
  {
    if cs != [] {
      PassingScript(cs[1..], lines);
      assert forall c | c in cs :: c == cs[0] || c in cs[1..];
    }
  }

  /** The lines of a configurator followed by others'. */
  lemma ScriptCons(c: Configurator, rest: seq<Configurator>, lines: Configurator -> Result<seq<string>>)
    ensures ScriptOf([c] + rest, lines) == Follow(lines(c), ScriptOf(rest, lines))
  {
    assert ([c] + rest)[1..] == rest;
  }

  /** The script of CONFIGURATOR_LIST: the lines of storage, AWS, Google, Kubernetes and Jenkins in that order. */
  lemma ScriptOfList(lines: Configurator -> Result<seq<string>>)
    requires forall c: Configurator | Quiet(c) :: lines(c) == Ok([])
    ensures ScriptOf(ConfiguratorList, lines) ==
      Follow(lines(Storage), Follow(lines(Aws), Follow(lines(Google), Follow(lines(Kubernetes), lines(Jenkins)))))
  {
    var quiet := [Monitoring, Notification, Security];
    ScriptCons(Security, [], lines);
    ScriptCons(Notification, [Security], lines);
    assert [Notification] + [Security] == [Notification, Security];
    ScriptCons(Monitoring, [Notification, Security], lines);
    assert [Monitoring] + [Notification, Security] == quiet;
    FollowNothing(Ok([]));
    var j := [Jenkins] + quiet;
    var k := [Kubernetes] + j;
    var g := [Google] + k;
    var a := [Aws] + g;
    ScriptCons(Jenkins, quiet, lines);
    FollowLast(lines(Jenkins));
    ScriptCons(Kubernetes, j, lines);
    ScriptCons(Google, k, lines);
    ScriptCons(Aws, g, lines);
    ScriptCons(Storage, a, lines);
    ListShape();
  }

  /** Lines followed by nothing: those lines. */
  lemma FollowLast(first: Result<seq<string>>)
    ensures Follow(first, Ok([])) == first
  {
    if first.Ok? {
      assert first.value + [] == first.value;
    }
  }

  /** The monitoring, notification and security configurators add no commands. */
  lemma QuietContributions(o: Options, env: map<string, string>)
    ensures forall c: Configurator | Quiet(c) :: Contributions(o, env)(c) == Ok([])
  {
  }

  /** What the storage and AWS configurators' `add_config` do. */
  lemma StorageAwsContributions(o: Options, env: map<string, string>)
    ensures Contributions(o, env)(Storage) == StorageConfig(o) && Contributions(o, env)(Aws) == AwsConfig(o)
  {
  }

  /** What the Google and Kubernetes configurators' `add_config` do. */
  lemma AccountContributions(o: Options, env: map<string, string>)
    ensures Contributions(o, env)(Google) == GoogleConfig(o) && Contributions(o, env)(Kubernetes) == KubernetesConfig(o)
  {
  }

  /** What the Jenkins configurator's `add_config` does. */
  lemma JenkinsContribution(o: Options, env: map<string, string>)
    ensures Contributions(o, env)(Jenkins) == JenkinsConfig(o, env)
  {
  }

  /** What each configurator's `add_config` does. */
  lemma ContributionsCases(o: Options, env: map<string, string>)
    ensures Contributions(o, env)(Storage) == StorageConfig(o) && Contributions(o, env)(Aws) == AwsConfig(o)
    ensures Contributions(o, env)(Google) == GoogleConfig(o) && Contributions(o, env)(Kubernetes) == KubernetesConfig(o)
    ensures Contributions(o, env)(Jenkins) == JenkinsConfig(o, env)
    ensures forall c: Configurator | Quiet(c) :: Contributions(o, env)(c) == Ok([])
  {
    StorageAwsContributions(o, env);
    AccountContributions(o, env);
    JenkinsContribution(o, env);
    QuietContributions(o, env);
  }

  /** A property holds for every configurator of CONFIGURATOR_LIST exactly when it holds for each of the eight. */
  lemma ListPasses(pass: Configurator -> bool)
    ensures (forall c | c in ConfiguratorList :: pass(c)) <==>
      && pass(Storage) && pass(Aws) && pass(Google) && pass(Kubernetes) && pass(Jenkins)
      && pass(Monitoring) && pass(Notification) && pass(Security)
  {
  }

  /** Every `add_config` of CONFIGURATOR_LIST succeeds exactly when each of the eight does. */
  lemma ListLinesPass(lines: Configurator -> Result<seq<string>>)
    ensures (forall c | c in ConfiguratorList :: lines(c).Ok?) <==>
      && lines(Storage).Ok? && lines(Aws).Ok? && lines(Google).Ok? && lines(Kubernetes).Ok? && lines(Jenkins).Ok?
      && lines(Monitoring).Ok? && lines(Notification).Ok? && lines(Security).Ok?
  {
  }

  /**
   * `make_script` returns a script exactly when the storage type is gcs,
   * given Google credentials come with a project, given Kubernetes
   * credentials come with a docker registry, the Jenkins options are all
   * given or all missing (an empty one counting as missing), and a given
   * Jenkins name has its password variable.
   */
  lemma ScriptErrorSpec(o: Options, env: map<string, string>)
    ensures ScriptOf(ConfiguratorList, Contributions(o, env)).Ok? <==>
      && o.spinnakerStorage == "gcs"
      && (Given(o.googleAccountCredentials) ==> Given(o.googleAccountProject))
      && (Given(o.k8sAccountCredentials) ==> Given(o.dockerRegistry))
      && JenkinsAllOrNone(o)
      && (Given(o.jenkinsMasterName) ==> PasswordVariable in env)
  {
    PassingScript(ConfiguratorList, Contributions(o, env));
    ListLinesPass(Contributions(o, env));
    ContributionsCases(o, env);
  }

  /** A script of CONFIGURATOR_LIST that succeeds: the five contributing configurators' lines in order. */
  lemma ScriptOfFive(lines: Configurator -> Result<seq<string>>, s: Result<seq<string>>, a: Result<seq<string>>,
                     g: Result<seq<string>>, k: Result<seq<string>>, j: Result<seq<string>>)
    requires forall c: Configurator | Quiet(c) :: lines(c) == Ok([])
    requires lines(Storage) == s && lines(Aws) == a && lines(Google) == g && lines(Kubernetes) == k && lines(Jenkins) == j
    requires ScriptOf(ConfiguratorList, lines).Ok?
    ensures s.Ok? && a.Ok? && g.Ok? && k.Ok? && j.Ok?
    ensures ScriptOf(ConfiguratorList, lines).value == s.value + (a.value + (g.value + (k.value + j.value)))
  {
    ScriptOfList(lines);
  }

  /** The script `make_script` returns: the storage, AWS, Google, Kubernetes and Jenkins commands, in that order. */
  lemma ScriptOrder(o: Options, env: map<string, string>)
    requires ScriptOf(ConfiguratorList, Contributions(o, env)).Ok?
    ensures StorageConfig(o).Ok? && GoogleConfig(o).Ok? && KubernetesConfig(o).Ok? && JenkinsConfig(o, env).Ok?
    ensures ScriptOf(ConfiguratorList, Contributions(o, env)).value ==
      StorageConfig(o).value + (AwsConfig(o).value + (GoogleConfig(o).value + (KubernetesConfig(o).value
        + JenkinsConfig(o, env).value)))
  {
    ContributionsCases(o, env);
    ScriptOfFive(Contributions(o, env), StorageConfig(o), AwsConfig(o), GoogleConfig(o), KubernetesConfig(o),
                 JenkinsConfig(o, env));
  }

  /**
   * Options that pass validation give a script, provided the Jenkins
   * options agree on being empty as well as on being None.
   */
  lemma ValidatedScriptSucceeds(o: Options, env: map<string, string>)
    requires ValidationOfAll(ConfiguratorList, Checks(o, env)).error.None?
    requires JenkinsAllOrNone(o)
    ensures ScriptOf(ConfiguratorList, Contributions(o, env)).Ok?
  {
    ValidationErrorSpec(o, env);
    ScriptErrorSpec(o, env);
  }

  /** A script of CONFIGURATOR_LIST whose only failing configurator is Jenkins: Jenkins's error. */
  lemma JenkinsFailsScript(lines: Configurator -> Result<seq<string>>)
    requires forall c: Configurator | Quiet(c) :: lines(c) == Ok([])
    requires lines(Storage).Ok? && lines(Aws).Ok? && lines(Google).Ok? && lines(Kubernetes).Ok? && lines(Jenkins).Raise?
    ensures ScriptOf(ConfiguratorList, lines) == lines(Jenkins)
  {
    ScriptOfList(lines);
  }

  /**
   * An empty Jenkins name with the address and user given passes
   * validation, which tests the names against None, and then makes
   * `make_script` raise, which tests them for emptiness.
   */
  lemma EmptyJenkinsNameGap(o: Options, env: map<string, string>)
    requires o.spinnakerStorage == "gcs" && o.googleAccountCredentials.None? && o.k8sAccountCredentials.None?
    requires o.jenkinsMasterName == Some("") && Given(o.jenkinsMasterAddress) && Given(o.jenkinsMasterUser)
    ensures ValidationOfAll(ConfiguratorList, Checks(o, env)).error.None?
    ensures ScriptOf(ConfiguratorList, Contributions(o, env)) == Raise(ValueError(JenkinsAllOrNoneError))
  {
    EmptyJenkinsNamePasses(o, env);
    EmptyJenkinsNameRaises(o, env);
  }

  /** Validation passes an empty Jenkins name given with an address and a user. */
  lemma EmptyJenkinsNamePasses(o: Options, env: map<string, string>)
    requires o.spinnakerStorage == "gcs" && o.googleAccountCredentials.None? && o.k8sAccountCredentials.None?
    requires o.jenkinsMasterName == Some("") && Given(o.jenkinsMasterAddress) && Given(o.jenkinsMasterUser)
    ensures ValidationOfAll(ConfiguratorList, Checks(o, env)).error.None?
  {
    ValidationErrorSpec(o, env);
  }

  /** `make_script` raises for an empty Jenkins name given with an address and a user. */
  lemma EmptyJenkinsNameRaises(o: Options, env: map<string, string>)
    requires o.spinnakerStorage == "gcs" && o.googleAccountCredentials.None? && o.k8sAccountCredentials.None?
    requires o.jenkinsMasterName == Some("") && Given(o.jenkinsMasterAddress) && Given(o.jenkinsMasterUser)
    ensures ScriptOf(ConfiguratorList, Contributions(o, env)) == Raise(ValueError(JenkinsAllOrNoneError))
  {
    ContributionsCases(o, env);
    JenkinsFailsScript(Contributions(o, env));
  }

  /**
   * AWS credentials set to an empty path enable the AWS account, yet add
   * no commands and no file.
   */
  lemma AwsEnabledWithoutLines(o: Options, env: map<string, string>)
    requires o.awsAccountCredentials == Some("")
    ensures ValidationOf(Aws, o, env).flags[AwsEnabled]
    ensures ConfigLines(Aws, o, env) == Ok([]) && FilesOf(Aws, o) == {}
  {
  }

  // ---------------------------------------------------------------- the files

  /** Whether each of the files is named, by its base name, at the end of a line of the script. */
  ghost predicate Referenced(script: seq<string>, files: set<string>)
  {
    forall p | p in files :: exists line | line in script :: Text.EndsWith(line, Basename(p))
  }

  /** The files of two parts are referenced by the two parts' lines together. */
  lemma ReferencedUnion(a: seq<string>, f: set<string>, b: seq<string>, g: set<string>)
    requires Referenced(a, f) && Referenced(b, g)
    ensures Referenced(a + b, f + g)
  {
    forall p | p in f + g
      ensures exists line | line in a + b :: Text.EndsWith(line, Basename(p))
    {
      var line :| (line in a || line in b) && Text.EndsWith(line, Basename(p));
      assert line in a + b;
    }
  }

  /** When every configurator's lines reference its files, a script of them references all their files. */
  lemma {:induction false} ReferencedAll(cs: seq<Configurator>, lines: Configurator -> Result<seq<string>>,
                                         files: Configurator -> set<string>)
    requires forall c | c in cs :: lines(c).Ok? ==> Referenced(lines(c).value, files(c))
    requires ScriptOf(cs, lines).Ok?
    ensures Referenced(ScriptOf(cs, lines).value, UploadsOf(cs, files))
  {
    if cs != [] {
      assert cs[0] in cs;
      assert forall c | c in cs[1..] :: c in cs;
      ReferencedAll(cs[1..], lines, files);
      ReferencedUnion(lines(cs[0]).value, files(cs[0]), ScriptOf(cs[1..], lines).value, UploadsOf(cs[1..], files));
    }
  }

  /** A text followed by a suffix ends with that suffix. */
  lemma EndsWithAppend(s: string, suffix: string)
    ensures Text.EndsWith(s + suffix, suffix)
  {
    assert (s + suffix)[|s|..] == suffix;
  }

  /** A text followed by something that ends with a suffix ends with that suffix too. */
  lemma EndsWithSuffix(s: string, t: string, suffix: string)
    requires Text.EndsWith(t, suffix)
    ensures Text.EndsWith(s + t, suffix)
  {
    assert (s + t)[|s + t| - |suffix|..] == t[|t| - |suffix|..];
  }

  /** Parts joined by a separator end with the last part. */
  lemma {:induction false} JoinEndsWith(parts: seq<string>, sep: string)
    requires parts != []
    ensures Text.EndsWith(Text.Join(parts, sep), parts[|parts| - 1])
  {
    if |parts| == 1 {
      EndsWithAppend("", parts[0]);
      assert "" + parts[0] == parts[0];
    } else {
      JoinEndsWith(parts[1..], sep);
      assert parts[1..][|parts[1..]| - 1] == parts[|parts| - 1];
      EndsWithSuffix(parts[0] + sep, Text.Join(parts[1..], sep), parts[|parts| - 1]);
    }
  }

  /** The account line of a provider ends with the last parameter. */
  lemma ProviderLineEnds(provider: string, params: seq<string>)
    requires params != []
    ensures Text.EndsWith(ProviderLines(provider, params)[1], params[|params| - 1])
  {
    var joined := Text.Join(params, " ");
    JoinEndsWith(params, " ");
    EndsWithSuffix("config provider " + provider + " account add ", joined, params[|params| - 1]);
    EndsWithSuffix("hal --color=false ", "config provider " + provider + " account add " + joined,
                   params[|params| - 1]);
  }

  /** The storage lines name the storage credentials, when given, by base name at the end of the first line. */
  lemma StorageReferences(o: Options)
    requires StorageConfig(o).Ok?
    ensures Referenced(StorageConfig(o).value, CredentialFile(o.gcsStorageCredentials))
  {
    if Given(o.gcsStorageCredentials) {
      var file := Basename(o.gcsStorageCredentials.value);
      EndsWithAppend(" --json-path ./", file);
      EndsWithSuffix(Hal("config storage gcs edit --project " + Show(StorageProject(o)) + " --bucket "
                         + Show(o.gcsStorageBucket) + " --bucket-location us"),
                     JsonPath(o.gcsStorageCredentials), file);
      assert StorageLines(o)[0] in StorageConfig(o).value;
    }
  }

  /** The AWS lines name the AWS credentials, when given, by base name at the end of the `chown` line. */
  lemma AwsReferences(o: Options)
    ensures Referenced(AwsConfig(o).value, CredentialFile(o.awsAccountCredentials))
  {
    if Given(o.awsAccountCredentials) {
      var lines := AwsLines(o, o.awsAccountCredentials.value);
      var file := Basename(o.awsAccountCredentials.value);
      EndsWithAppend("sudo chown spinnaker:spinnaker ", file);
      assert lines[2] == "sudo chown spinnaker:spinnaker " + file;
      assert lines[2] in AwsConfig(o).value;
    }
  }

  /** An account's lines name the credentials, when given, by base name at the end of the second line. */
  lemma AccountReferences(provider: string, name: string, credentials: Option<string>, companion: Option<string>,
                          companionFlag: string, fileFlag: string, error: string)
    requires AccountConfig(provider, name, credentials, companion, companionFlag, fileFlag, error).Ok?
    ensures Referenced(AccountConfig(provider, name, credentials, companion, companionFlag, fileFlag, error).value,
                       CredentialFile(credentials))
  {
    if Given(credentials) {
      var params := [name, companionFlag, companion.value, fileFlag, Basename(credentials.value)];
      ProviderLineEnds(provider, params);
      assert ProviderLines(provider, params)[1] in ProviderLines(provider, params);
    }
  }

  /** The files each configurator's `add_files_to_upload` adds. */
  lemma FilesCases(o: Options)
    ensures FileContributions(o)(Storage) == CredentialFile(o.gcsStorageCredentials)
    ensures FileContributions(o)(Aws) == CredentialFile(o.awsAccountCredentials)
    ensures FileContributions(o)(Google) == CredentialFile(o.googleAccountCredentials)
    ensures FileContributions(o)(Kubernetes) == CredentialFile(o.k8sAccountCredentials)
    ensures forall c: Configurator | c == Jenkins || Quiet(c) :: FileContributions(o)(c) == {}
  {
  }

  /**
   * Every file `get_files_to_upload` returns is named, by its base name, at
   * the end of a line of the script `make_script` returns.
   */
  lemma UploadsReferenced(o: Options, env: map<string, string>)
    requires ScriptOf(ConfiguratorList, Contributions(o, env)).Ok?
    ensures Referenced(ScriptOf(ConfiguratorList, Contributions(o, env)).value,
                       UploadsOf(ConfiguratorList, FileContributions(o)))
  {
    var lines := Contributions(o, env);
    var files := FileContributions(o);
    ContributionsCases(o, env);
    FilesCases(o);
    if StorageConfig(o).Ok? {
      StorageReferences(o);
    }
    AwsReferences(o);
    if GoogleConfig(o).Ok? {
      AccountReferences("google", o.googleAccountName, o.googleAccountCredentials, o.googleAccountProject,
                        "--project", "--json-path", "--google_account_credentials without --google_account_project");
    }
    if KubernetesConfig(o).Ok? {
      AccountReferences("kubernetes", o.k8sAccountName, o.k8sAccountCredentials, o.dockerRegistry,
                        "--docker-registries", "--kubeconfig-file", "--k8s_account_credentials without --docker_registry");
    }
    ReferencedList(lines, files);
  }

  /** A script of CONFIGURATOR_LIST references the files of the configurators whose lines reference their own. */
  lemma ReferencedList(lines: Configurator -> Result<seq<string>>, files: Configurator -> set<string>)
    requires forall c: Configurator | c == Jenkins || Quiet(c) :: files(c) == {}
    requires lines(Storage).Ok? ==> Referenced(lines(Storage).value, files(Storage))
    requires lines(Aws).Ok? ==> Referenced(lines(Aws).value, files(Aws))
    requires lines(Google).Ok? ==> Referenced(lines(Google).value, files(Google))
    requires lines(Kubernetes).Ok? ==> Referenced(lines(Kubernetes).value, files(Kubernetes))
    requires ScriptOf(ConfiguratorList, lines).Ok?
    ensures Referenced(ScriptOf(ConfiguratorList, lines).value, UploadsOf(ConfiguratorList, files))
  {
    ListPasses(c => lines(c).Ok? ==> Referenced(lines(c).value, files(c)));
    ReferencedAll(ConfiguratorList, lines, files);
  }

  /** A path is among the files of a list of configurators exactly when one of them adds it. */
  lemma {:induction false} UploadsMembers(cs: seq<Configurator>, files: Configurator -> set<string>, p: string)
    ensures p in UploadsOf(cs, files) <==> exists c | c in cs :: p in files(c)
  {
    if cs != [] {
      UploadsMembers(cs[1..], files, p);
      assert forall c | c in cs :: c == cs[0] || c in cs[1..];
      assert cs[0] in cs;
      assert forall c | c in cs[1..] :: c in cs;
    }
  }

  /** `get_files_to_upload` returns exactly the given credentials of storage, AWS, Google and Kubernetes. */
  lemma UploadsSpec(o: Options, p: string)
    ensures p in UploadsOf(ConfiguratorList, FileContributions(o)) <==>
      || (Given(o.gcsStorageCredentials) && p == o.gcsStorageCredentials.value)
      || (Given(o.awsAccountCredentials) && p == o.awsAccountCredentials.value)
      || (Given(o.googleAccountCredentials) && p == o.googleAccountCredentials.value)
      || (Given(o.k8sAccountCredentials) && p == o.k8sAccountCredentials.value)
  {
    UploadsMembers(ConfiguratorList, FileContributions(o), p);
    assert Storage in ConfiguratorList && Aws in ConfiguratorList;
    assert Google in ConfiguratorList && Kubernetes in ConfiguratorList;
  }

  /**
   * With every option at its default and gcs storage, validation passes
   * and enables nothing, the script only configures storage, and there are
   * no files to upload.
   */
  lemma DefaultConfiguration(storage: string, deployProject: Option<string>, env: map<string, string>)
    requires storage == "gcs"
    ensures ValidationOfAll(ConfiguratorList, Checks(DefaultOptions(storage, deployProject), env)).error.None?
    ensures ScriptOf(ConfiguratorList, Contributions(DefaultOptions(storage, deployProject), env))
      == Ok(StorageLines(DefaultOptions(storage, deployProject)))
    ensures UploadsOf(ConfiguratorList, FileContributions(DefaultOptions(storage, deployProject))) == {}
  {
    var o := DefaultOptions(storage, deployProject);
    ValidationErrorSpec(o, env);
    ScriptErrorSpec(o, env);
    ScriptOrder(o, env);
    assert AwsConfig(o).value == [] && GoogleConfig(o).value == [] && KubernetesConfig(o).value == [];
    assert JenkinsConfig(o, env).value == [];
    assert StorageLines(o) + ([] + ([] + ([] + []))) == StorageLines(o);
    forall p
      ensures p !in UploadsOf(ConfiguratorList, FileContributions(o))
    {
      UploadsSpec(o, p);
    }
  }

  // ---------------------------------------------------------------- the password variable

  /**
   * As written, the Jenkins check looks up the misspelled variable: with a
   * Jenkins name given, an environment that sets only the variable the
   * configuration reads is rejected.
   */
  lemma MisspelledCheckRejectsPassword(o: Options, env: map<string, string>)
    requires JenkinsConsistent(o.jenkinsMasterName, o.jenkinsMasterAddress, o.jenkinsMasterUser)
    requires Given(o.jenkinsMasterName) && PasswordVariable in env && MisspelledPasswordVariable !in env
    ensures JenkinsValidation(o, env, MisspelledPasswordVariable).error == Some(MissingJenkinsPassword)
    ensures JenkinsValidation(o, env, PasswordVariable).error.None?
  {
  }

  /**
   * As written, an environment that sets only the misspelled variable
   * passes the Jenkins check, and the Jenkins configuration then raises
   * for the missing password.
   */
  lemma MisspelledCheckAdmitsMissingPassword(o: Options, env: map<string, string>)
    requires JenkinsConsistent(o.jenkinsMasterName, o.jenkinsMasterAddress, o.jenkinsMasterUser)
    requires JenkinsAllOrNone(o) && Given(o.jenkinsMasterName)
    requires MisspelledPasswordVariable in env && PasswordVariable !in env
    ensures JenkinsValidation(o, env, MisspelledPasswordVariable).error.None?
    ensures JenkinsConfig(o, env) == Raise(ValueError(JenkinsPasswordError))
  {
  }

  /**
   * With the variable name corrected, options the Jenkins check accepts,
   * and whose Jenkins options agree on being empty, configure Jenkins
   * without raising.
   */
  lemma CorrectedCheckAdmitsConfig(o: Options, env: map<string, string>)
    requires JenkinsValidation(o, env, PasswordVariable).error.None? && JenkinsAllOrNone(o)
    ensures JenkinsConfig(o, env).Ok?
  {
  }
}
