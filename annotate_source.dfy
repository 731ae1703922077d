/**
 * Release tagging from dev/annotate_source.py: the `git show-ref --tags`
 * lines split into `version-X.Y.Z-<build>` tags and tags to delete, the
 * newest of those build tags, the semantic-version bump that the commit
 * messages since it call for, and the two tags written at HEAD. The output
 * of every git command is an input value here.
 */
module AnnotateSource {
  import opened Wrappers
  import opened Text
  import Git

  // ================================================================ tags

  /**
   * `TAG_MATCHER`, `^version-[0-9]+\.[0-9]+\.[0-9]+-[0-9]$`: three numbers
   * after "version-", then a dash and a single build digit.
   */
  predicate IsBuildTag(tag: string)
  {
    |tag| >= 10 && StartsWith(tag, "version-") && tag[|tag| - 2] == '-' && IsDigit(tag[|tag| - 1])
    && Git.IsNumberTriple(tag[8..|tag| - 2])
  }

  /** The tags whose match against `TAG_MATCHER` is `matching`, in their order. */
  function TagsMatching(tags: seq<Git.CommitTag>, matching: bool): (r: seq<Git.CommitTag>)
    ensures forall t | t in r :: IsBuildTag(t.tag) == matching
  {
    if tags == [] then []
    else (if IsBuildTag(tags[0].tag) == matching then [tags[0]] else []) + TagsMatching(tags[1..], matching)
  }

  /** Every tag lands in exactly one of the two lists, as often as it occurs. */
  lemma {:induction false} PartitionIsExact(tags: seq<Git.CommitTag>)
    ensures multiset(TagsMatching(tags, true)) + multiset(TagsMatching(tags, false)) == multiset(tags)
    ensures forall t | t in tags ::
      t in TagsMatching(tags, IsBuildTag(t.tag)) && t !in TagsMatching(tags, !IsBuildTag(t.tag))
  {
    if tags != [] {
      PartitionIsExact(tags[1..]);
      assert tags == [tags[0]] + tags[1..];
    }
    forall t | t in tags
      ensures t in TagsMatching(tags, IsBuildTag(t.tag))
    {
      assert t in multiset(tags);
    }
  }

  /** One `CommitTag` per line of the stripped `git show-ref --tags` output. */
  function ShowRefTags(output: string): Result<seq<Git.CommitTag>>
  {
    Collect(Git.ParsedTags(SplitOn(Strip(output), '\n')))
  }

  /**
   * The tags are read exactly when every line has a blank, one per line;
   * a line without one raises IndexError.
   */
  lemma ShowRefTagsSpec(output: string)
    ensures var lines := SplitOn(Strip(output), '\n');
      && (ShowRefTags(output).Raise? <==> exists line | line in lines :: ' ' !in line)
      && (ShowRefTags(output).Raise? ==> ShowRefTags(output).error.IndexError?)
      && (ShowRefTags(output).Ok? ==> |ShowRefTags(output).value| == |lines|)
  {
    Git.ParsedTagsRaise(SplitOn(Strip(output), '\n'));
  }

  // ================================================================ Annotator

  /** What an `Annotator` fixes at construction: its options and the partitioned tags. */
  datatype Annotator = Annotator(
    nextTag: string,
    buildNumber: string,
    filteredTags: seq<Git.CommitTag>,
    tagsToDelete: seq<Git.CommitTag>)
  {
    /** The kept tags are all build tags. */
    predicate Valid()
    {
      forall t | t in filteredTags :: IsBuildTag(t.tag)
    }
  }

  /**
   * `Annotator(options)` with the `show-ref` output: `--build_number`, or
   * else the BUILD_NUMBER environment variable, or else "", and the tags
   * partitioned on `TAG_MATCHER`.
   */
  function MakeAnnotator(nextTag: string, buildNumberOption: string, buildNumberEnv: Option<string>,
                         showRefOutput: string): (r: Result<Annotator>)
    ensures r.Ok? ==> r.value.Valid()
  {
    match ShowRefTags(showRefOutput)
    case Raise(e) => Raise(e)
    case Ok(tags) =>
      var build := if buildNumberOption != "" then buildNumberOption else buildNumberEnv.GetOr("");
      Ok(Annotator(nextTag, build, TagsMatching(tags, true), TagsMatching(tags, false)))
  }

  /**
   * Construction fails exactly when the tags cannot be read; otherwise the
   * two lists together hold every tag once, the build tags among them kept,
   * and the build number comes from the option before the environment.
   */
  lemma MakeAnnotatorSpec(nextTag: string, buildNumberOption: string, buildNumberEnv: Option<string>,
                          showRefOutput: string)
    ensures var r := MakeAnnotator(nextTag, buildNumberOption, buildNumberEnv, showRefOutput);
      && (r.Raise? <==> ShowRefTags(showRefOutput).Raise?)
      && (r.Ok? ==>
            && multiset(r.value.filteredTags) + multiset(r.value.tagsToDelete) == multiset(ShowRefTags(showRefOutput).value)
            && (forall t | t in ShowRefTags(showRefOutput).value :: (t in r.value.filteredTags <==> IsBuildTag(t.tag)))
            && r.value.nextTag == nextTag
            && (buildNumberOption != "" ==> r.value.buildNumber == buildNumberOption)
            && (buildNumberOption == "" && buildNumberEnv.Some? ==> r.value.buildNumber == buildNumberEnv.value)
            && (buildNumberOption == "" && buildNumberEnv.None? ==> r.value.buildNumber == ""))
  {
    if ShowRefTags(showRefOutput).Ok? {
      PartitionIsExact(ShowRefTags(showRefOutput).value);
    }
  }

  // ================================================================ versions

  /** The three numbers of a build tag, as text. */
  function TagNumbers(tag: string): (r: (string, string, string))
    requires IsBuildTag(tag)
    ensures IsIntText(r.0) && IsIntText(r.1) && IsIntText(r.2)
  {
    var parts := SplitOn(tag[8..|tag| - 2], '.');
    assert parts[0] in parts && parts[1] in parts && parts[2] in parts;
    (parts[0], parts[1], parts[2])
  }

  /** Text Python's `int()` reads as a non-negative number. */
  predicate IsIntText(s: string)
  {
    s != "" && AllDigits(s)
  }

  /**
   * `LooseVersion` of a build tag: after the word and the dashes it holds
   * the three numbers and the build digit, compared in that order.
   */
  datatype LooseVersion = LooseVersion(major: nat, minor: nat, patch: nat, build: nat)

  function VersionOf(tag: string): LooseVersion
    requires IsBuildTag(tag)
  {
    var (a, b, c) := TagNumbers(tag);
    LooseVersion(ParseNat(a), ParseNat(b), ParseNat(c), DigitValue(tag[|tag| - 1]))
  }

  /** The `LooseVersion` order on build tags: their numbers compared one after another. */
  predicate VersionLess(x: LooseVersion, y: LooseVersion)
  {
    x.major < y.major
    || (x.major == y.major && x.minor < y.minor)
    || (x.major == y.major && x.minor == y.minor && x.patch < y.patch)
    || (x.major == y.major && x.minor == y.minor && x.patch == y.patch && x.build < y.build)
  }

  /** The versions of build tags, in order. */
  function VersionsOf(tags: seq<Git.CommitTag>): (vs: seq<LooseVersion>)
    requires forall t | t in tags :: IsBuildTag(t.tag)
    ensures |vs| == |tags|
  {
    seq(|tags|, i requires 0 <= i < |tags| => VersionOf(tags[i].tag))
  }

  /**
   * The index of the first version that no other version exceeds: where
   * `sorted(..., reverse=True)`, which keeps equal versions in their order,
   * finds its first element.
   */
  function NewestIndex(vs: seq<LooseVersion>): (k: nat)
    requires vs != []
    ensures k < |vs|
  {
    if |vs| == 1 then 0
    else
      var j := 1 + NewestIndex(vs[1..]);
      if VersionLess(vs[0], vs[j]) then j else 0
  }

  /** No version exceeds the newest one, and every version before it is smaller. */
  lemma {:induction false} NewestIndexSpec(vs: seq<LooseVersion>)
    requires vs != []
    ensures var k := NewestIndex(vs);
      && (forall i | 0 <= i < |vs| :: !VersionLess(vs[k], vs[i]))
      && (forall i | 0 <= i < k :: VersionLess(vs[i], vs[k]))
  {
    if |vs| > 1 {
      var rest := vs[1..];
      NewestIndexSpec(rest);
      assert forall i | 1 <= i < |vs| :: vs[i] == rest[i - 1];
    }
  }

  /** `sorted(filtered_tags, key=lambda ht: ht.version, reverse=True)[0]`. */
  function NewestTag(tags: seq<Git.CommitTag>): (t: Git.CommitTag)
    requires tags != [] && forall t | t in tags :: IsBuildTag(t.tag)
    ensures t in tags && IsBuildTag(t.tag)
  {
    tags[NewestIndex(VersionsOf(tags))]
  }

  // ================================================================ bump_semver

  /** A suggested next version and the kind of bump it is. */
  datatype VersionBump = VersionBump(versionStr: string, major: bool, minor: bool, patch: bool)

  /** The kind of change a run of commits calls for. */
  datatype BumpKind = PatchBump | MinorBump | MajorBump

  /** Some line, stripped, starts with `prefix` (`re.match` of a pattern led by that literal). */
  predicate AnyStrippedLineStarts(lines: seq<string>, prefix: string)
  {
    lines != [] && (StartsWith(Strip(lines[0]), prefix) || AnyStrippedLineStarts(lines[1..], prefix))
  }

  lemma {:induction false} AnyStrippedLineStartsSpec(lines: seq<string>, prefix: string)
    ensures AnyStrippedLineStarts(lines, prefix) <==> exists i | 0 <= i < |lines| :: StartsWith(Strip(lines[i]), prefix)
  {
    if lines != [] {
      AnyStrippedLineStartsSpec(lines[1..], prefix);
      assert forall i | 1 <= i < |lines| :: lines[i] == lines[1..][i - 1];
      if AnyStrippedLineStarts(lines[1..], prefix) {
        var i :| 0 <= i < |lines[1..]| && StartsWith(Strip(lines[1..][i]), prefix);
        assert StartsWith(Strip(lines[i + 1]), prefix);
      }
    }
  }

  /** `bc_matcher`: a line starts with "BREAKING CHANGE". */
  predicate IsBreakingChange(msg: string)
  {
    AnyStrippedLineStarts(SplitOn(msg, '\n'), "BREAKING CHANGE")
  }

  /** `feat_matcher`, `feat\(.*\)*`: a line starts with "feat(". */
  predicate IsFeature(msg: string)
  {
    AnyStrippedLineStarts(SplitOn(msg, '\n'), "feat(")
  }

  /** The number of (hash, message) pairs `zip` makes. */
  function ZipLength(hashes: seq<string>, msgs: seq<string>): (n: nat)
    ensures n <= |hashes| && n <= |msgs|
  {
    if |hashes| < |msgs| then |hashes| else |msgs|
  }

  /** A commit of the zipped lists, with what its message announces. */
  datatype CommitClass = CommitClass(hash: string, breaking: bool, feature: bool)

  /** `zip(commit_hashes, commit_msgs)`, each message classified. */
  function Classified(hashes: seq<string>, msgs: seq<string>): (cs: seq<CommitClass>)
    ensures |cs| == ZipLength(hashes, msgs)
  {
    seq(ZipLength(hashes, msgs), i requires 0 <= i < ZipLength(hashes, msgs) =>
      CommitClass(hashes[i], IsBreakingChange(msgs[i]), IsFeature(msgs[i])))
  }

  /**
   * The kind of bump the commits from index `i` on call for, when the scan
   * stops at the first commit whose hash is `stop`.
   */
  function Scan(cs: seq<CommitClass>, stop: string, i: nat): BumpKind
    decreases |cs| - i
  {
    if i >= |cs| || cs[i].hash == stop then PatchBump
    else if cs[i].breaking then MajorBump
    else
      var rest := Scan(cs, stop, i + 1);
      if rest == MajorBump then MajorBump
      else if cs[i].feature then MinorBump
      else rest
  }

  /** Where a scan from `i` ends: the first commit from `i` on that is `stop`, or the end. */
  function StopIndex(cs: seq<CommitClass>, stop: string, i: nat): (e: nat)
    requires i <= |cs|
    ensures i <= e <= |cs|
    decreases |cs| - i
  {
    if i == |cs| || cs[i].hash == stop then i else StopIndex(cs, stop, i + 1)
  }

  /** The scan ends at a commit `stop`, or at the end, and passes no commit `stop` before. */
  lemma {:induction false} StopIndexSpec(cs: seq<CommitClass>, stop: string, i: nat)
    requires i <= |cs|
    ensures var e := StopIndex(cs, stop, i);
      && (e == |cs| || cs[e].hash == stop)
      && forall k | i <= k < e :: cs[k].hash != stop
    decreases |cs| - i
  {
    if i < |cs| && cs[i].hash != stop {
      StopIndexSpec(cs, stop, i + 1);
    }
  }

  /**
   * The scan calls for a major bump exactly when a commit it reaches is a
   * breaking change, a minor bump exactly when none is but one is a
   * feature, and a patch bump otherwise (also when it reaches no commit).
   */
  lemma {:induction false} ScanSpec(cs: seq<CommitClass>, stop: string, i: nat)
    requires i <= |cs|
    ensures var e := StopIndex(cs, stop, i);
      && (Scan(cs, stop, i) == MajorBump <==> exists j | i <= j < e :: cs[j].breaking)
      && (Scan(cs, stop, i) == MinorBump <==>
            (forall j | i <= j < e :: !cs[j].breaking) && exists j | i <= j < e :: cs[j].feature)
    decreases |cs| - i
  {
    if i < |cs| && cs[i].hash != stop {
      ScanSpec(cs, stop, i + 1);
    }
  }

  /** The kind of bump `bump_semver`'s loop settles on for these commits. */
  function BumpKindOf(hashes: seq<string>, msgs: seq<string>, stop: string): BumpKind
  {
    Scan(Classified(hashes, msgs), stop, 0)
  }

  /**
   * The commits scanned are those before the first one whose hash is `stop`,
   * or all pairs when there is none.
   */
  lemma ScannedCommits(hashes: seq<string>, msgs: seq<string>, stop: string)
    ensures var e := StopIndex(Classified(hashes, msgs), stop, 0);
      && e <= |hashes| && e <= |msgs|
      && (e == ZipLength(hashes, msgs) || hashes[e] == stop)
      && (forall k | 0 <= k < e :: hashes[k] != stop)
  {
    var cs := Classified(hashes, msgs);
    StopIndexSpec(cs, stop, 0);
    assert forall j | 0 <= j < |cs| :: cs[j].hash == hashes[j];
  }

  /**
   * The bump is major exactly when a scanned commit is a breaking change,
   * minor exactly when none is but one is a feature, and a patch bump
   * otherwise, also when no commit is scanned.
   */
  lemma BumpKindSpec(hashes: seq<string>, msgs: seq<string>, stop: string)
    ensures var e, kind := StopIndex(Classified(hashes, msgs), stop, 0), BumpKindOf(hashes, msgs, stop);
      && e <= ZipLength(hashes, msgs)
      && (kind == MajorBump <==> exists j | 0 <= j < e :: IsBreakingChange(msgs[j]))
      && (kind == MinorBump <==>
            (forall j | 0 <= j < e :: !IsBreakingChange(msgs[j])) && exists j | 0 <= j < e :: IsFeature(msgs[j]))
  {
    var cs := Classified(hashes, msgs);
    ScanSpec(cs, stop, 0);
    var e := StopIndex(cs, stop, 0);
    assert forall j | 0 <= j < e :: cs[j].breaking == IsBreakingChange(msgs[j]);
    assert forall j | 0 <= j < e :: cs[j].feature == IsFeature(msgs[j]);
  }

  /**
   * The commit tagged `stop` and the older ones never matter: two histories
   * that agree on the commits before it call for the same bump.
   */
  lemma {:induction false} ScanStopsAtPrevious(cs1: seq<CommitClass>, cs2: seq<CommitClass>, stop: string, i: nat, k: nat)
    requires i <= k < |cs1| && k < |cs2| && cs1[k].hash == stop && cs2[k].hash == stop
    requires cs1[..k] == cs2[..k]
    ensures Scan(cs1, stop, i) == Scan(cs2, stop, i)
    decreases k - i
  {
    if i < k {
      assert cs1[i] == cs1[..k][i] == cs2[..k][i] == cs2[i];
      ScanStopsAtPrevious(cs1, cs2, stop, i + 1, k);
    }
  }

  /**
   * Hence the messages of the previous version's commit and of all older
   * commits, and the hashes after it, do not affect the bump.
   */
  lemma OlderCommitsIgnored(h1: seq<string>, m1: seq<string>, h2: seq<string>, m2: seq<string>, stop: string, k: nat)
    requires k < ZipLength(h1, m1) && k < ZipLength(h2, m2) && h1[k] == stop
    requires h1[..k + 1] == h2[..k + 1] && m1[..k] == m2[..k]
    ensures BumpKindOf(h1, m1, stop) == BumpKindOf(h2, m2, stop)
  {
    var cs1, cs2 := Classified(h1, m1), Classified(h2, m2);
    forall j | 0 <= j < k ensures cs1[j] == cs2[j] {
      assert h1[j] == h1[..k + 1][j] == h2[..k + 1][j] == h2[j];
      assert m1[j] == m1[..k][j] == m2[..k][j] == m2[j];
    }
    assert cs1[..k] == cs2[..k];
    assert h2[k] == h2[..k + 1][k] == h1[..k + 1][k];
    ScanStopsAtPrevious(cs1, cs2, stop, 0, k);
  }

  /** The bump seen so far combined with the bump the remaining commits call for. */
  function Combined(feature: bool, rest: BumpKind): BumpKind
  {
    if rest == MajorBump then MajorBump else if feature then MinorBump else rest
  }

  /** `'version-' + major + '.' + minor + '.' + patch`. */
  function VersionText(major: string, minor: string, patch: string): string
  {
    "version-" + major + "." + minor + "." + patch
  }

  /**
   * The `VersionBump` returned for a kind of change; Python's `int()` is
   * applied to the component being bumped only.
   */
  function BumpText(major: string, minor: string, patch: string, kind: BumpKind): (r: Result<VersionBump>)
    ensures r.Raise? ==> r.error.ValueError?
  {
    match kind
    case MajorBump =>
      if !IsIntText(major) then Raise(ValueError("invalid literal for int() with base 10"))
      else Ok(VersionBump(VersionText(NatToString(ParseNat(major) + 1), "0", "0"), true, false, false))
    case MinorBump =>
      if !IsIntText(minor) then Raise(ValueError("invalid literal for int() with base 10"))
      else Ok(VersionBump(VersionText(major, NatToString(ParseNat(minor) + 1), "0"), false, true, false))
    case PatchBump =>
      if !IsIntText(patch) then Raise(ValueError("invalid literal for int() with base 10"))
      else Ok(VersionBump(VersionText(major, minor, NatToString(ParseNat(patch) + 1)), false, false, true))
  }

  /**
   * `bump_semver(prev_version, commit_hashes, commit_msgs)`: the numbers
   * after the previous tag's first '-' (exactly three '.'-separated parts,
   * the build dropped from the last), bumped by what the commits newer than
   * the previous tag call for.
   */
  function BumpOf(prev: Git.CommitTag, hashes: seq<string>, msgs: seq<string>): (r: Result<VersionBump>)
    ensures r.Raise? ==> r.error.ValueError?
  {
    BumpFrom(prev.tag, BumpKindOf(hashes, msgs, prev.commitId))
  }

  /** The bump of a tag's numbers by a given kind of change. */
  function BumpFrom(tag: string, kind: BumpKind): (r: Result<VersionBump>)
    ensures r.Raise? ==> r.error.ValueError?
  {
    var dash := FindChar(tag, '-');
    if dash == -1 then Raise(ValueError("substring not found"))
    else
      var parts := SplitOn(tag[dash + 1..], '.');
      if |parts| != 3 then Raise(ValueError("wrong number of values to unpack"))
      else BumpText(parts[0], parts[1], Before(parts[2], '-'), kind)
  }

  /** `bump_semver`: the previous tag's numbers, bumped as the scan of the commits calls for. */
  method BumpSemver(prev: Git.CommitTag, hashes: seq<string>, msgs: seq<string>) returns (r: Result<VersionBump>)
    ensures r == BumpOf(prev, hashes, msgs)
  {
    var dash := FindChar(prev.tag, '-');
    if dash == -1 {
      return Raise(ValueError("substring not found"));
    }
    var parts := SplitOn(prev.tag[dash + 1..], '.');
    if |parts| != 3 {
      return Raise(ValueError("wrong number of values to unpack"));
    }
    var kind := ScanCommits(hashes, msgs, prev.commitId);
    r := BumpText(parts[0], parts[1], Before(parts[2], '-'), kind);
  }

  /** The loop of `bump_semver` over the zipped commits, with its two flags and early break. */
  method ScanCommits(hashes: seq<string>, msgs: seq<string>, stop: string) returns (kind: BumpKind)
    ensures kind == BumpKindOf(hashes, msgs, stop)
  {
    var n := ZipLength(hashes, msgs);
    ghost var cs := Classified(hashes, msgs);
    var feature, breaking := false, false;
    var i := 0;
    while i < n && hashes[i] != stop
      invariant i <= n
      invariant !breaking
      invariant Combined(feature, Scan(cs, stop, i)) == Scan(cs, stop, 0)
      decreases n - i
    {
      var lines := SplitOn(msgs[i], '\n');
      if AnyStrippedLineStarts(lines, "BREAKING CHANGE") {
        breaking := true;
        break;
      }
      if AnyStrippedLineStarts(lines, "feat(") {
        feature := true;
      }
      i := i + 1;
    }
    kind := if breaking then MajorBump else if feature then MinorBump else PatchBump;
  }

  /** The semantic version a build tag names: its three numbers under the series "version". */
  function PreviousVersion(tag: string): (v: Git.SemanticVersion)
    requires IsBuildTag(tag)
    ensures v.seriesName == "version"
  {
    var lv := VersionOf(tag);
    Git.SemanticVersion("version", lv.major, lv.minor, lv.patch)
  }

  /** The `*_INDEX` of the component a kind of bump increments. */
  function IndexOf(kind: BumpKind): (i: int)
    ensures Git.MajorIndex <= i <= Git.PatchIndex
  {
    match kind
    case MajorBump => Git.MajorIndex
    case MinorBump => Git.MinorIndex
    case PatchBump => Git.PatchIndex
  }

  /** A build tag's text after its first '-' splits into its three numbers, the build on the last. */
  lemma BuildTagParts(tag: string)
    requires IsBuildTag(tag)
    ensures var (a, b, c) := TagNumbers(tag);
      && FindChar(tag, '-') == 7
      && SplitOn(tag[8..], '.') == [a, b, c + tag[|tag| - 2..]]
      && Before(c + tag[|tag| - 2..], '-') == c
  {
    var mid, build := tag[8..|tag| - 2], tag[|tag| - 2..];
    FirstDashAfterVersion(tag);
    SliceAt(tag, 8, |tag| - 2);
    BuildSuffix(tag);
    TripleThenBuild(mid, build, tag[8..]);
    var p := SplitOn(mid, '.');
    assert TagNumbers(tag) == (p[0], p[1], p[2]);
  }

  /** A number triple followed by a dotless `-<build>` splits on '.' with the build on the last part. */
  lemma TripleThenBuild(mid: string, build: string, whole: string)
    requires Git.IsNumberTriple(mid) && |build| > 0 && build[0] == '-' && '.' !in build
    requires whole == mid + build
    ensures var p := SplitOn(mid, '.');
      && SplitOn(whole, '.') == [p[0], p[1], p[2] + build]
      && Before(p[2] + build, '-') == p[2]
  {
    var p := SplitOn(mid, '.');
    assert p[2] in p;
    SplitOnAppend(mid, build, '.');
    ExtendThird(p, build);
    DigitsLackChar(p[2], '-');
    FindCharAt(p[2] + build, '-', |p[2]|);
  }

  /** In a text that starts with "version-", the first '-' is the one of that word. */
  lemma FirstDashAfterVersion(s: string)
    requires StartsWith(s, "version-")
    ensures FindChar(s, '-') == 7
  {
    assert s[..8] == "version-";
    forall j | 0 <= j < 7 ensures s[j] != '-' {
      assert s[j] == s[..8][j];
    }
    FindCharAt(s, '-', 7);
  }

  lemma SliceAt<T>(s: seq<T>, i: nat, j: nat)
    requires i <= j <= |s|
    ensures s[i..] == s[i..j] + s[j..]
  {
  }

  lemma BuildSuffix(tag: string)
    requires IsBuildTag(tag)
    ensures tag[|tag| - 2..] == ['-', tag[|tag| - 1]] && '.' !in tag[|tag| - 2..]
  {
  }

  lemma ExtendThird<T>(p: seq<seq<T>>, x: seq<T>)
    requires |p| == 3
    ensures p[..|p| - 1] + [p[|p| - 1] + x] == [p[0], p[1], p[2] + x]
  {
  }

  /** A version string `version-<a>.<b>.<c>` is read back as those numbers under the series "version". */
  lemma BumpReadsBack(a: string, b: string, c: string)
    requires IsIntText(a) && IsIntText(b) && IsIntText(c)
    ensures Git.MakeSemanticVersion(VersionText(a, b, c))
         == Ok(Git.SemanticVersion("version", ParseNat(a), ParseNat(b), ParseNat(c)))
  {
    var prefix := "version-";
    assert prefix[..|prefix| - 1] == "version";
    Git.MakeFromPrefixedDigits(prefix, a, b, c);
  }

  /**
   * From a build tag the bump always succeeds, sets exactly the flag of the
   * kind the commits call for, and its version string is read back as the
   * previous version advanced at that component (`SemanticVersion.next`):
   * the build is dropped, lower components reset to 0, and higher ones keep
   * their text.
   */
  lemma BumpFromBuildTag(prev: Git.CommitTag, hashes: seq<string>, msgs: seq<string>)
    requires IsBuildTag(prev.tag)
    ensures var r, kind := BumpOf(prev, hashes, msgs), BumpKindOf(hashes, msgs, prev.commitId);
      var (a, b, c) := TagNumbers(prev.tag);
      && r.Ok?
      && r.value.major == (kind == MajorBump)
      && r.value.minor == (kind == MinorBump)
      && r.value.patch == (kind == PatchBump)
      && Git.MakeSemanticVersion(r.value.versionStr) == Git.Next(PreviousVersion(prev.tag), Some(IndexOf(kind)))
      && (kind == MinorBump ==> StartsWith(r.value.versionStr, "version-" + a + "."))
      && (kind == PatchBump ==> StartsWith(r.value.versionStr, "version-" + a + "." + b + "."))
  {
    var (a, b, c) := TagNumbers(prev.tag);
    var kind := BumpKindOf(hashes, msgs, prev.commitId);
    BumpOfBuildTag(prev, hashes, msgs);
    BumpTextSpec(a, b, c, kind);
  }

  /** From a build tag, `bump_semver` bumps the tag's three numbers. */
  lemma BumpOfBuildTag(prev: Git.CommitTag, hashes: seq<string>, msgs: seq<string>)
    requires IsBuildTag(prev.tag)
    ensures var (a, b, c) := TagNumbers(prev.tag);
      BumpOf(prev, hashes, msgs) == BumpText(a, b, c, BumpKindOf(hashes, msgs, prev.commitId))
  {
    BuildTagParts(prev.tag);
  }

  /**
   * Bumping three numbers succeeds, sets exactly the flag of its kind, and
   * gives a version string read back as the numbers advanced at that
   * component, the higher components keeping their text.
   */
  lemma BumpTextSpec(a: string, b: string, c: string, kind: BumpKind)
    requires IsIntText(a) && IsIntText(b) && IsIntText(c)
    ensures var r := BumpText(a, b, c, kind);
      && r.Ok?
      && r.value.major == (kind == MajorBump)
      && r.value.minor == (kind == MinorBump)
      && r.value.patch == (kind == PatchBump)
      && Git.MakeSemanticVersion(r.value.versionStr)
         == Git.Next(Git.SemanticVersion("version", ParseNat(a), ParseNat(b), ParseNat(c)), Some(IndexOf(kind)))
      && (kind == MinorBump ==> StartsWith(r.value.versionStr, "version-" + a + "."))
      && (kind == PatchBump ==> StartsWith(r.value.versionStr, "version-" + a + "." + b + "."))
  {
    match kind
    case MajorBump => MajorBumpReads(a, b, c);
    case MinorBump => MinorBumpReads(a, b, c);
    case PatchBump => PatchBumpReads(a, b, c);
  }

  lemma MajorBumpReads(a: string, b: string, c: string)
    requires IsIntText(a) && IsIntText(b) && IsIntText(c)
    ensures var r := BumpText(a, b, c, MajorBump);
      && r.Ok?
      && Git.MakeSemanticVersion(r.value.versionStr)
         == Git.Next(Git.SemanticVersion("version", ParseNat(a), ParseNat(b), ParseNat(c)), Some(Git.MajorIndex))
  {
    var x := NatToString(ParseNat(a) + 1);
    assert BumpText(a, b, c, MajorBump) == Ok(VersionBump(VersionText(x, "0", "0"), true, false, false));
    ParseNatToString(ParseNat(a) + 1);
    ZeroText();
    BumpReadsBack(x, "0", "0");
    Git.NextFollowsSemver(Git.SemanticVersion("version", ParseNat(a), ParseNat(b), ParseNat(c)), Git.MajorIndex);
  }

  lemma MinorBumpReads(a: string, b: string, c: string)
    requires IsIntText(a) && IsIntText(b) && IsIntText(c)
    ensures var r := BumpText(a, b, c, MinorBump);
      && r.Ok?
      && Git.MakeSemanticVersion(r.value.versionStr)
         == Git.Next(Git.SemanticVersion("version", ParseNat(a), ParseNat(b), ParseNat(c)), Some(Git.MinorIndex))
      && StartsWith(r.value.versionStr, "version-" + a + ".")
  {
    var y := NatToString(ParseNat(b) + 1);
    assert BumpText(a, b, c, MinorBump) == Ok(VersionBump(VersionText(a, y, "0"), false, true, false));
    ParseNatToString(ParseNat(b) + 1);
    ZeroText();
    BumpReadsBack(a, y, "0");
    VersionTextPrefixes(a, y, "0");
    Git.NextFollowsSemver(Git.SemanticVersion("version", ParseNat(a), ParseNat(b), ParseNat(c)), Git.MinorIndex);
  }

  lemma PatchBumpReads(a: string, b: string, c: string)
    requires IsIntText(a) && IsIntText(b) && IsIntText(c)
    ensures var r := BumpText(a, b, c, PatchBump);
      && r.Ok?
      && Git.MakeSemanticVersion(r.value.versionStr)
         == Git.Next(Git.SemanticVersion("version", ParseNat(a), ParseNat(b), ParseNat(c)), Some(Git.PatchIndex))
      && StartsWith(r.value.versionStr, "version-" + a + "." + b + ".")
  {
    var z := NatToString(ParseNat(c) + 1);
    assert BumpText(a, b, c, PatchBump) == Ok(VersionBump(VersionText(a, b, z), false, false, true));
    ParseNatToString(ParseNat(c) + 1);
    BumpReadsBack(a, b, z);
    VersionTextPrefixes(a, b, z);
    Git.NextFollowsSemver(Git.SemanticVersion("version", ParseNat(a), ParseNat(b), ParseNat(c)), Git.PatchIndex);
  }

  lemma ZeroText()
    ensures IsIntText("0") && ParseNat("0") == 0
  {
    assert "0"[..0] == "";
  }

  /** A version string starts with its major number, then with its major and minor numbers. */
  lemma VersionTextPrefixes(a: string, b: string, c: string)
    ensures StartsWith(VersionText(a, b, c), "version-" + a + ".")
    ensures StartsWith(VersionText(a, b, c), "version-" + a + "." + b + ".")
  {
    var p1 := "version-" + a + ".";
    var p2 := p1 + b + ".";
    assert VersionText(a, b, c) == p1 + (b + "." + c);
    assert VersionText(a, b, c) == p2 + c;
  }

  // ================================================================ determine_next_tag

  /** What `determine_next_tag` returns: nothing to do, the `--next_tag` text, or a computed bump. */
  datatype NextTag = AlreadyTagged | GivenTag(tag: string) | Bumped(bump: VersionBump)

  /** `[line.split(' ')[0].strip() for line in output.strip().split('\n')]` on `git log --pretty=oneline`. */
  function CommitHashes(onelineOutput: string): (r: seq<string>)
    ensures |r| == |SplitOn(Strip(onelineOutput), '\n')|
  {
    var lines := SplitOn(Strip(onelineOutput), '\n');
    seq(|lines|, i requires 0 <= i < |lines| => Strip(Before(lines[i], ' ')))
  }

  /** The stripped `git log -n 1 --pretty=medium <hash>` output of each hash. */
  function CommitMessages(hashes: seq<string>, logOf: string -> string): (msgs: seq<string>)
    ensures |msgs| == |hashes|
  {
    seq(|hashes|, i requires 0 <= i < |hashes| => Strip(logOf(hashes[i])))
  }

  /**
   * `determine_next_tag`: `headOutput` is the output of `git rev-parse HEAD`,
   * `onelineOutput` that of `git log --pretty=oneline`, and `logOf(h)` that of
   * `git log -n 1 --pretty=medium h`.
   */
  function DetermineNextTag(a: Annotator, headOutput: string, onelineOutput: string,
                            logOf: string -> string): (r: Result<NextTag>)
    requires a.Valid()
  {
    if a.filteredTags == [] then
      Raise(GitTagMissing("No previous version tags of the form 'version-X.Y.Z-$build'."))
    else
      var prev := NewestTag(a.filteredTags);
      if prev.commitId == Strip(headOutput) then Ok(AlreadyTagged)
      else if a.nextTag != "" then Ok(GivenTag(a.nextTag))
      else
        var hashes := CommitHashes(onelineOutput);
        match BumpOf(prev, hashes, CommitMessages(hashes, logOf))
        case Raise(e) => Raise(e)
        case Ok(b) => Ok(Bumped(b))
  }

  /**
   * The choice raises exactly when there is no build tag; it does nothing
   * when the newest build tag is on HEAD; otherwise `--next_tag` wins over
   * any computed bump.
   */
  lemma DetermineNextTagSpec(a: Annotator, headOutput: string, onelineOutput: string, logOf: string -> string)
    requires a.Valid()
    ensures var r := DetermineNextTag(a, headOutput, onelineOutput, logOf);
      && (r.Raise? ==> r.error.GitTagMissing? || r.error.ValueError?)
      && (a.filteredTags == [] ==> r.Raise? && r.error.GitTagMissing?)
      && (r == Ok(AlreadyTagged) <==> a.filteredTags != [] && NewestTag(a.filteredTags).commitId == Strip(headOutput))
      && (r == Ok(GivenTag(a.nextTag)) <==>
            a.filteredTags != [] && NewestTag(a.filteredTags).commitId != Strip(headOutput) && a.nextTag != "")
      && (r.Ok? && r.value.GivenTag? ==> r.value.tag == a.nextTag)
      && (r.Ok? && r.value.Bumped? ==> a.nextTag == "")
  {
  }

  /**
   * When the newest build tag is not on HEAD and no `--next_tag` is given,
   * the choice is a bump of the newest tag's version, advanced as the
   * commit messages since that tag call for; it never raises then.
   */
  lemma DetermineNextTagBumps(a: Annotator, headOutput: string, onelineOutput: string, logOf: string -> string)
    requires a.Valid() && a.filteredTags != [] && a.nextTag == ""
    requires NewestTag(a.filteredTags).commitId != Strip(headOutput)
    ensures var r := DetermineNextTag(a, headOutput, onelineOutput, logOf);
      var prev := NewestTag(a.filteredTags);
      var hashes := CommitHashes(onelineOutput);
      var kind := BumpKindOf(hashes, CommitMessages(hashes, logOf), prev.commitId);
      && r.Ok? && r.value.Bumped?
      && r.value.bump.major == (kind == MajorBump)
      && r.value.bump.minor == (kind == MinorBump)
      && r.value.bump.patch == (kind == PatchBump)
      && Git.MakeSemanticVersion(r.value.bump.versionStr) == Git.Next(PreviousVersion(prev.tag), Some(IndexOf(kind)))
  {
    var prev := NewestTag(a.filteredTags);
    var hashes := CommitHashes(onelineOutput);
    var msgs := CommitMessages(hashes, logOf);
    BumpFromBuildTag(prev, hashes, msgs);
  }

  // ================================================================ tag_head

  /**
   * The two tags `tag_head` puts on HEAD for a version: `<version>-<build>`
   * and, for gradle, the text after its first '-'.
   */
  function HeadTags(versionStr: string, buildNumber: string): (string, string)
  {
    var nextTag := versionStr + "-" + buildNumber;
    var dash := FindChar(nextTag, '-');
    (nextTag, nextTag[dash + 1..])
  }

  /**
   * The gradle tag of a `version-...` release tag drops just the word
   * "version-": it is the version's numbers followed by the build number.
   */
  lemma HeadTagsSpec(versionStr: string, buildNumber: string)
    requires StartsWith(versionStr, "version-")
    ensures HeadTags(versionStr, buildNumber) == (versionStr + "-" + buildNumber, versionStr[8..] + "-" + buildNumber)
  {
    var nextTag := versionStr + "-" + buildNumber;
    assert nextTag[..8] == versionStr[..8];
    FirstDashAfterVersion(nextTag);
    assert nextTag[8..] == versionStr[8..] + "-" + buildNumber;
  }

  /**
   * `tag_head` as written: a `--next_tag` text reaches `version_bump.version_str`
   * and raises AttributeError, since a string has no such attribute.
   */
  function TagHeadAsWritten(decision: NextTag, buildNumber: string): (r: Result<Option<(string, string)>>)
    ensures r.Raise? <==> decision.GivenTag?
  {
    match decision
    case AlreadyTagged => Ok(None)
    case GivenTag(_) => Raise(AttributeError("'str' object has no attribute 'version_str'"))
    case Bumped(b) => Ok(Some(HeadTags(b.versionStr, buildNumber)))
  }

  /** A concrete annotator with `--next_tag` set whose tagging raises. */
  lemma GivenTagBreaksTagHead()
    ensures var a := Annotator("version-2.0.0", "7", [Git.CommitTag("abc", "version-1.0.0-1")], []);
      && a.Valid()
      && DetermineNextTag(a, "def\n", "", (h: string) => "") == Ok(GivenTag("version-2.0.0"))
      && TagHeadAsWritten(DetermineNextTag(a, "def\n", "", (h: string) => "").value, a.buildNumber).Raise?
  {
    var a := Annotator("version-2.0.0", "7", [Git.CommitTag("abc", "version-1.0.0-1")], []);
    BuildTagExample();
    assert NewestIndex(VersionsOf(a.filteredTags)) == 0;
    assert Strip("def\n") == "def" by {
      assert RStrip("def\n") == "def";
      assert LStrip("def") == "def";
    }
  }

  lemma BuildTagExample()
    ensures IsBuildTag("version-1.0.0-1")
  {
    ExampleTagSlices();
    TripleExample();
  }

  lemma ExampleTagSlices()
    ensures "version-1.0.0-1"[..8] == "version-"
    ensures "version-1.0.0-1"[8..13] == "1.0.0"
  {
  }

  lemma TripleExample()
    ensures Git.IsNumberTriple("1.0.0")
  {
    SplitExample();
    DigitTexts();
    TripleOfParts("1.0.0", "1", "0", "0");
  }

  lemma DigitTexts()
    ensures IsIntText("1") && IsIntText("0")
  {
    assert IsDigit("1"[0]) && IsDigit("0"[0]);
  }

  /** A text that splits on '.' into three digit strings is a number triple. */
  lemma TripleOfParts(t: string, a: string, b: string, c: string)
    requires SplitOn(t, '.') == [a, b, c]
    requires IsIntText(a) && IsIntText(b) && IsIntText(c)
    ensures Git.IsNumberTriple(t)
  {
  }

  lemma SplitExample()
    ensures SplitOn("1.0.0", '.') == ["1", "0", "0"]
  {
    FindCharAt("1.0.0", '.', 1);
    SplitOnStep("1.0.0", '.', 1);
    assert "1.0.0"[..1] == "1" && "1.0.0"[2..] == "0.0";
    FindCharAt("0.0", '.', 1);
    SplitOnStep("0.0", '.', 1);
    assert "0.0"[..1] == "0" && "0.0"[2..] == "0";
    SplitOnFree("0", '.');
  }

  /**
   * `tag_head` as intended: a `--next_tag` text is used as the version
   * string, exactly like a computed bump's.
   */
  function TagHead(decision: NextTag, buildNumber: string): (r: Result<Option<(string, string)>>)
    ensures r.Ok?
  {
    match decision
    case AlreadyTagged => Ok(None)
    case GivenTag(t) => Ok(Some(HeadTags(t, buildNumber)))
    case Bumped(b) => Ok(Some(HeadTags(b.versionStr, buildNumber)))
  }

  /**
   * Tagging never raises; it writes nothing exactly when HEAD already has a
   * build tag, and otherwise writes `<version>-<build>` and the gradle tag,
   * which for a `version-...` string is the numbers and the build.
   */
  lemma TagHeadWritesBothTags(decision: NextTag, buildNumber: string)
    ensures var r := TagHead(decision, buildNumber);
      && r.Ok?
      && (r.value.None? <==> decision.AlreadyTagged?)
      && (decision.GivenTag? && StartsWith(decision.tag, "version-") ==>
            r.value == Some((decision.tag + "-" + buildNumber, decision.tag[8..] + "-" + buildNumber)))
      && (decision.Bumped? && StartsWith(decision.bump.versionStr, "version-") ==>
            r.value == Some((decision.bump.versionStr + "-" + buildNumber, decision.bump.versionStr[8..] + "-" + buildNumber)))
  {
    match decision
    case AlreadyTagged =>
    case GivenTag(t) =>
      if StartsWith(t, "version-") { HeadTagsSpec(t, buildNumber); }
    case Bumped(b) =>
      if StartsWith(b.versionStr, "version-") { HeadTagsSpec(b.versionStr, buildNumber); }
  }
}
