/**
 * The command framework of the build tool: factories that register
 * themselves under a command name and make commands, and the processor
 * that runs a command over every source repository, between a
 * preprocessing and a postprocessing step.
 */
module Command {
  import opened Wrappers
  import opened Json
  import Git
  import SourceCodeManager

  type Repository = Git.RemoteGitRepository

  // ================================================================ command factories

  /** A sub-parser as the factory adds it: its parent parsers and its help text. */
  datatype ParserSpec = ParserSpec(parents: seq<ParserSpec>, help: string)

  /** The argparse sub-parsers: each parser under its command name. */
  class Subparsers {
    var parsers: map<string, ParserSpec>

    constructor ()
      ensures parsers == map[]
    {
      parsers := map[];
    }

    /** `add_parser`: a parser under the name, replacing any earlier one. */
    method AddParser(name: string, parents: seq<ParserSpec>, help: string) returns (parser: ParserSpec)
      modifies this
      ensures parser == ParserSpec(parents, help) && parsers == old(parsers)[name := parser]
    {
      parser := ParserSpec(parents, help);
      parsers := parsers[name := parser];
    }
  }

  /** An optional argument: `--<name>` with its default value. */
  datatype Argument = Argument(flag: string, default: Json)

  /** `add_argument`: `--<name>`, defaulting to the override in `defaults` when there is one. */
  function AddArgument(name: string, defaults: map<string, Json>, defaultValue: Json): (a: Argument)
  {
    Argument("--" + name, if name in defaults then defaults[name] else defaultValue)
  }

  /** The flag is `--<name>`; the default is the override when `defaults` has one, else the given default. */
  lemma AddArgumentSpec(name: string, defaults: map<string, Json>, defaultValue: Json)
    ensures AddArgument(name, defaults, defaultValue).flag[2..] == name
    ensures AddArgument(name, defaults, defaultValue).flag[..2] == "--"
    ensures name in defaults ==> AddArgument(name, defaults, defaultValue).default == defaults[name]
    ensures name !in defaults ==> AddArgument(name, defaults, defaultValue).default == defaultValue
  {
  }

  /** What a factory method is handed: the factory's name, the options and the bound arguments. */
  datatype FactoryCall<O> = FactoryCall(factoryName: string, options: O, posArgs: seq<Json>, kwargs: map<string, Json>)

  /** The command registry: each factory under its command name. */
  class Registry<O, C> {
    var factories: map<string, CommandFactory<O, C>>

    constructor ()
      ensures factories == map[]
    {
      factories := map[];
    }
  }

  /** `CommandFactory`: a command name, a description and the factory method with its bound arguments. */
  class CommandFactory<O, C> {
    const name: string
    const description: string
    const parentArguments: seq<string>
    const factoryMethod: FactoryCall<O> -> C
    const posArgs: seq<Json>
    const kwargs: map<string, Json>
    var calledDoInitArgparser: bool

    /**
     * `__init__`: the `parent_arguments` keyword (a list of parser names,
     * empty by default) is taken out of the keywords bound for the factory
     * method.
     */
    constructor (name: string, factoryMethod: FactoryCall<O> -> C, description: string,
                 posArgs: seq<Json>, kwargs: map<string, Json>, parentArguments: Option<seq<string>>)
      ensures this.name == name && this.description == description && this.factoryMethod == factoryMethod
      ensures this.posArgs == posArgs && this.kwargs == kwargs - {"parent_arguments"}
      ensures this.parentArguments == parentArguments.GetOr([])
      ensures !calledDoInitArgparser
    {
      this.name := name;
      this.description := description;
      this.factoryMethod := factoryMethod;
      this.posArgs := posArgs;
      this.kwargs := kwargs - {"parent_arguments"};
      this.parentArguments := parentArguments.GetOr([]);
      calledDoInitArgparser := false;
    }

    /** `make_command`: the factory method called with this factory, the options and the bound arguments. */
    function MakeCommand(options: O): C
    {
      factoryMethod(Call(options))
    }

    /** The call `make_command` makes. */
    function Call(options: O): (call: FactoryCall<O>)
      ensures call.factoryName == name && call.options == options
      ensures call.posArgs == posArgs && call.kwargs == kwargs
    {
      FactoryCall(name, options, posArgs, kwargs)
    }

    /** The parent parsers named by `parent_arguments`, looked up in order: KeyError for the first unknown one. */
    function ParentParsers(known: map<string, ParserSpec>, names: seq<string>): (r: Result<seq<ParserSpec>>)
      ensures r.Ok? <==> forall i | 0 <= i < |names| :: names[i] in known
      ensures r.Ok? ==> |r.value| == |names| && forall i | 0 <= i < |names| :: r.value[i] == known[names[i]]
      ensures r.Raise? ==> r.error.KeyError? && r.error.key in names && r.error.key !in known
    {
      if names == [] then Ok([])
      else if names[0] !in known then Raise(KeyError(names[0]))
      else
        match ParentParsers(known, names[1..])
        case Raise(e) => Raise(e)
        case Ok(rest) => Ok([known[names[0]]] + rest)
    }

    /**
     * `add_argparser`: a sub-parser under the command name, with the parent
     * parsers and the description as help; the initialisation hook then
     * records that it ran.
     */
    method AddArgparser(subparsers: Subparsers, defaults: map<string, Json>) returns (r: Result<ParserSpec>)
      modifies subparsers, this`calledDoInitArgparser
      ensures r.Ok? <==> ParentParsers(old(subparsers.parsers), parentArguments).Ok?
      ensures r.Raise? ==>
        && r == Raise(ParentParsers(old(subparsers.parsers), parentArguments).error)
        && subparsers.parsers == old(subparsers.parsers) && calledDoInitArgparser == old(calledDoInitArgparser)
      ensures r.Ok? ==>
        && r.value == ParserSpec(ParentParsers(old(subparsers.parsers), parentArguments).value, description)
        && subparsers.parsers == old(subparsers.parsers)[name := r.value]
        && calledDoInitArgparser
    {
      var parents := ParentParsers(subparsers.parsers, parentArguments);
      if parents.Raise? {
        return Raise(parents.error);
      }
      var parser := subparsers.AddParser(name, parents.value, description);
      DoInitArgparser(parser, defaults);
      r := Ok(parser);
    }

    /** `_do_init_argparser`: the base hook adds no argument and records that it ran. */
    method DoInitArgparser(parser: ParserSpec, defaults: map<string, Json>)
      modifies this`calledDoInitArgparser
      ensures calledDoInitArgparser
    {
      calledDoInitArgparser := true;
    }

    /**
     * `register`: ValueError when the registry already holds the command
     * name, and nothing changes; otherwise the factory's parser is added and
     * the factory is filed under its name.
     */
    method Register(registry: Registry<O, C>, subparsers: Subparsers, defaults: map<string, Json>) returns (r: Result<()>)
      modifies registry, subparsers, this`calledDoInitArgparser
      ensures name in old(registry.factories) ==>
        && r == Raise(ValueError("CommandFactory \"" + name + "\" already exists."))
        && registry.factories == old(registry.factories) && subparsers.parsers == old(subparsers.parsers)
      ensures name !in old(registry.factories) && ParentParsers(old(subparsers.parsers), parentArguments).Raise? ==>
        && r.Raise? && r.error.KeyError? && registry.factories == old(registry.factories)
        && subparsers.parsers == old(subparsers.parsers)
      ensures name !in old(registry.factories) && ParentParsers(old(subparsers.parsers), parentArguments).Ok? ==>
        && r.Ok? && registry.factories == old(registry.factories)[name := this]
        && name in subparsers.parsers && subparsers.parsers.Keys == old(subparsers.parsers).Keys + {name}
    {
      if name in registry.factories {
        return Raise(ValueError("CommandFactory \"" + name + "\" already exists."));
      }
      var added := AddArgparser(subparsers, defaults);
      if added.Raise? {
        return Raise(added.error);
      }
      registry.factories := registry.factories[name := this];
      r := Ok(());
    }
  }

  // ================================================================ the repository processor

  /** The options a repository command reads. */
  datatype Options = Options(oneAtATime: bool, rootPath: string)

  /** The keyword arguments of a repository command processor; `others` names any it does not know. */
  datatype ProcessorKeywords<G> = ProcessorKeywords(
    maxThreads: Option<int>,
    useThreadpool: Option<bool>,
    git: Option<G>,
    sourceRepositories: Option<map<string, Repository>>,
    others: set<string>)

  /** The steps of running a command, in the order they are taken. */
  datatype Phase = Preprocess | Repositories(names: set<string>) | Postprocess

  /**
   * The thread count of a processor: one when the options ask for one at a
   * time, otherwise the `max_threads` keyword, else 64.
   */
  function ThreadCount<G>(options: Options, keywords: ProcessorKeywords<G>): (n: int)
    ensures options.oneAtATime ==> n == 1
    ensures !options.oneAtATime && keywords.maxThreads.None? ==> n == 64
    ensures !options.oneAtATime && keywords.maxThreads.Some? ==> n == keywords.maxThreads.value
  {
    if options.oneAtATime then 1 else keywords.maxThreads.GetOr(64)
  }

  /** What the manager of a processor maps every repository to, and the results it collects. */
  function ResultsOf<G, T>(m: SourceCodeManager.Manager<G>, fn: Repository -> T): map<string, T>
  {
    map name | name in m.sourceRepositories :: fn(m.sourceRepositories[name])
  }

  /**
   * `RepositoryCommandProcessor`: the repositories and the source code
   * manager are computed when first asked for and then kept. `determine` is
   * what `_do_determine_source_repositories` gives, the base class's
   * NotImplementedError unless a derived class says otherwise.
   */
  class RepositoryCommandProcessor<G> {
    const name: string
    const options: Options
    const maxThreads: int
    const useThreadpool: bool
    const git: G
    const determine: Result<map<string, Repository>>
    var sourceRepositories: Option<map<string, Repository>>
    var scm: Option<SourceCodeManager.Manager<G>>
    ghost var determineCalls: nat
    ghost var trace: seq<Phase>

    /** `__init__` once the keywords are known to be ones it takes. */
    constructor (factoryName: string, options: Options, keywords: ProcessorKeywords<G>, defaultGit: G,
                 determine: Result<map<string, Repository>>)
      ensures name == factoryName && this.options == options && this.determine == determine
      ensures maxThreads == ThreadCount(options, keywords)
      ensures useThreadpool == keywords.useThreadpool.GetOr(false)
      ensures git == keywords.git.GetOr(defaultGit)
      ensures sourceRepositories == keywords.sourceRepositories && scm == None
      ensures determineCalls == 0 && trace == []
    {
      name := factoryName;
      this.options := options;
      maxThreads := ThreadCount(options, keywords);
      useThreadpool := keywords.useThreadpool.GetOr(false);
      git := keywords.git.GetOr(defaultGit);
      sourceRepositories := keywords.sourceRepositories;
      scm := None;
      this.determine := determine;
      determineCalls := 0;
      trace := [];
    }

    /**
     * Construction as the source does it: keywords other than the four the
     * processor takes reach `CommandProcessor.__init__`, which refuses them
     * with TypeError.
     */
    static method New(factoryName: string, options: Options, keywords: ProcessorKeywords<G>, defaultGit: G,
                      determine: Result<map<string, Repository>>) returns (r: Result<RepositoryCommandProcessor<G>>)
      ensures r.Raise? <==> keywords.others != {}
      ensures r.Raise? ==> r.error.TypeError?
      ensures r.Ok? ==>
        && fresh(r.value) && r.value.maxThreads == ThreadCount(options, keywords)
        && r.value.sourceRepositories == keywords.sourceRepositories && r.value.scm == None
        && r.value.git == keywords.git.GetOr(defaultGit) && r.value.determineCalls == 0 && r.value.trace == []
    {
      if keywords.others != {} {
        return Raise(TypeError("__init__() got an unexpected keyword argument"));
      }
      var p := new RepositoryCommandProcessor(factoryName, options, keywords, defaultGit, determine);
      r := Ok(p);
    }

    /**
     * `source_repositories`: the kept repositories, or else the ones the hook
     * determines, kept from then on; the hook runs only while none are kept.
     */
    method SourceRepositories() returns (r: Result<map<string, Repository>>)
      modifies this`sourceRepositories, this`determineCalls
      ensures old(sourceRepositories).Some? ==>
        && r == Ok(old(sourceRepositories).value) && sourceRepositories == old(sourceRepositories)
        && determineCalls == old(determineCalls)
      ensures old(sourceRepositories).None? ==>
        && r == determine && determineCalls == old(determineCalls) + 1
        && sourceRepositories == (if determine.Ok? then Some(determine.value) else None)
    {
      if sourceRepositories.None? {
        determineCalls := determineCalls + 1;
        if determine.Raise? {
          return Raise(determine.error);
        }
        sourceRepositories := Some(determine.value);
      }
      r := Ok(sourceRepositories.value);
    }

    /**
     * `source_code_manager`: the kept manager, or else one made from the git
     * controller, the root path option, the repositories and the thread
     * count, kept from then on.
     */
    method CodeManager() returns (r: Result<SourceCodeManager.Manager<G>>)
      modifies this`sourceRepositories, this`determineCalls, this`scm
      ensures old(scm).Some? ==>
        && r == Ok(old(scm).value) && scm == old(scm) && sourceRepositories == old(sourceRepositories)
        && determineCalls == old(determineCalls)
      ensures old(scm).None? && r.Ok? ==>
        && sourceRepositories.Some? && scm == Some(r.value)
        && r.value == SourceCodeManager.Manager(git, options.rootPath, sourceRepositories.value, maxThreads, false)
      ensures old(scm).None? && r.Raise? ==> scm == None
      ensures determineCalls <= old(determineCalls) + 1
      ensures old(sourceRepositories).Some? ==> sourceRepositories == old(sourceRepositories)
    {
      if scm.Some? {
        return Ok(scm.value);
      }
      var repositories := SourceRepositories();
      if repositories.Raise? {
        return Raise(repositories.error);
      }
      var made := SourceCodeManager.NewManager(Some(git), options.rootPath, repositories.value,
                                               SourceCodeManager.ManagerKeywords(Some(maxThreads), None, {}));
      if made.Raise? {
        return Raise(made.error);
      }
      scm := Some(made.value);
      r := Ok(made.value);
    }

    /**
     * `_do_command`: preprocess, then every repository through `fn` (the
     * `_do_repository` hook), then `post` (the `_do_postprocess` hook) on the
     * name-to-result map, whose value is the command's result. An error
     * making the manager ends the command after the preprocessing.
     */
    method DoCommand<T, R>(fn: Repository -> T, post: map<string, T> -> R) returns (r: Result<R>)
      modifies this`sourceRepositories, this`determineCalls, this`scm, this`trace
      ensures r.Raise? ==> trace == old(trace) + [Preprocess]
      ensures r.Ok? ==>
        && scm.Some? && r.value == post(ResultsOf(scm.value, fn))
        && trace == old(trace) + [Preprocess, Repositories(scm.value.sourceRepositories.Keys), Postprocess]
      ensures old(scm).Some? ==> r.Ok? && scm == old(scm)
    {
      trace := trace + [Preprocess];
      var m := CodeManager();
      if m.Raise? {
        return Raise(m.error);
      }
      var results := SourceCodeManager.ForeachSourceRepository(m.value, fn);
      assert results == ResultsOf(m.value, fn);
      trace := trace + [Repositories(results.Keys)];
      r := Ok(post(results));
      trace := trace + [Postprocess];
    }
  }
}
