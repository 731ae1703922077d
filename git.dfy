/**
 * Release versioning from dev/buildtool/git.py: repository references,
 * semantic-version tags, `git show-ref` lines, `git log --pretty=medium`
 * entries, the semantic-version implication of commit messages and the
 * tag/version choice of a repository summary. Every git command's output is
 * an input value here.
 */
module Git {
  import opened Wrappers
  import opened Text

  // ================================================================ RemoteGitRepository

  /** A remote repository, its url and possibly the repository it derives from. */
  datatype RemoteGitRepository = RemoteGitRepository(name: string, url: string, upstreamRef: Option<RemoteGitRepository>)

  /** `make_from_url`: the repository is named by the url's text after its last '/'. */
  function MakeFromUrl(url: string, upstreamRef: Option<RemoteGitRepository>): (r: RemoteGitRepository)
    ensures r.url == url && r.upstreamRef == upstreamRef
    ensures '/' !in r.name && EndsWith(url, r.name)
    ensures |r.name| < |url| ==> url[|url| - |r.name| - 1] == '/'
    ensures '/' !in url ==> r.name == url
  {
    var name := url[RFindChar(url, '/') + 1..];
    assert url[|url| - |name|..] == name;
    RemoteGitRepository(name, url, upstreamRef)
  }

  /** `upstream_url`: None exactly when there is no upstream reference. */
  function UpstreamUrl(repo: RemoteGitRepository): (r: Option<string>)
    ensures r.None? <==> repo.upstreamRef.None?
    ensures r.Some? ==> r.value == repo.upstreamRef.value.url
  {
    match repo.upstreamRef
    case None => None
    case Some(up) => Some(up.url)
  }

  /** The last of `dicts` that binds `k`, if any. */
  predicate BoundLastAt(dicts: seq<map<string, RemoteGitRepository>>, k: string, i: int)
  {
    0 <= i < |dicts| && k in dicts[i] && forall j | i < j < |dicts| :: k !in dicts[j]
  }

  /** `merge_to_dict`: `update` with each mapping in turn, so later mappings win. */
  method MergeToDict(dicts: seq<map<string, RemoteGitRepository>>) returns (result: map<string, RemoteGitRepository>)
    ensures forall k :: k in result <==> exists i | 0 <= i < |dicts| :: k in dicts[i]
    ensures forall k, i | k in result && BoundLastAt(dicts, k, i) :: result[k] == dicts[i][k]
  {
    result := map[];
    var n := 0;
    while n < |dicts|
      invariant 0 <= n <= |dicts|
      invariant forall k :: k in result <==> exists i | 0 <= i < n :: k in dicts[i]
      invariant forall k, i | k in result && BoundLastAt(dicts[..n], k, i) :: result[k] == dicts[i][k]
    {
      result := result + dicts[n];
      n := n + 1;
      forall k, i | k in result && BoundLastAt(dicts[..n], k, i) ensures result[k] == dicts[i][k] {
        if i < n - 1 {
          assert k !in dicts[n - 1];
          assert BoundLastAt(dicts[..n - 1], k, i);
        }
      }
    }
    assert dicts[..n] == dicts;
  }

  // ================================================================ SemanticVersion

  /** A tag `<series>-<major>.<minor>.<patch>`. */
  datatype SemanticVersion = SemanticVersion(seriesName: string, major: nat, minor: nat, patch: nat)

  /** The `*_INDEX` constants naming the components of a version. */
  const TagIndex := 0
  const MajorIndex := 1
  const MinorIndex := 2
  const PatchIndex := 3

  /** The character classes the matchers below skip over. */
  datatype CharClass = Digits | Blanks | Whitespace | HexDigits | LowerLetters

  predicate InClass(c: char, cls: CharClass)
  {
    match cls
    case Digits => IsDigit(c)
    case Blanks => c == ' '
    case Whitespace => IsSpace(c)
    case HexDigits => IsDigit(c) || 'a' <= c <= 'f'
    case LowerLetters => IsLower(c)
  }

  /** The number of characters from `i` on that belong to `cls`. */
  function Span(s: string, i: nat, cls: CharClass): (n: nat)
    requires i <= |s|
    ensures i + n <= |s|
    decreases |s| - i
  {
    if i < |s| && InClass(s[i], cls) then 1 + Span(s, i + 1, cls) else 0
  }

  /** The span is the longest run of `cls` characters from `i` on. */
  lemma {:induction false} SpanSpec(s: string, i: nat, cls: CharClass)
    requires i <= |s|
    ensures var n := Span(s, i, cls);
      && (forall j | i <= j < i + n :: InClass(s[j], cls))
      && (i + n == |s| || !InClass(s[i + n], cls))
    decreases |s| - i
  {
    if i < |s| && InClass(s[i], cls) {
      SpanSpec(s, i + 1, cls);
    }
  }

  /** The run of digits starting at `i`. */
  function DigitsAt(s: string, i: nat): (d: string)
    requires i <= |s|
    ensures AllDigits(d) && i + |d| <= |s| && d == s[i..i + |d|]
  {
    SpanSpec(s, i, Digits);
    s[i..i + Span(s, i, Digits)]
  }

  /** `(\d+)\.` at `i`: the index after the dot. */
  function DottedAt(s: string, i: nat): (r: Option<nat>)
    requires i <= |s|
    ensures r.Some? ==> r.value <= |s|
  {
    var d := DigitsAt(s, i);
    if |d| > 0 && i + |d| < |s| && s[i + |d|] == '.' then Some(i + |d| + 1) else None
  }

  /** The three `\d+` groups of `(\d+)\.(\d+)\.(\d+)` matched at `i`. */
  function NumbersAt(s: string, i: nat): (r: Option<(string, string, string)>)
    requires i <= |s|
    ensures r.Some? ==> AllDigits(r.value.0) && AllDigits(r.value.1) && AllDigits(r.value.2)
  {
    match DottedAt(s, i)
    case None => None
    case Some(j) =>
      match DottedAt(s, j)
      case None => None
      case Some(k) =>
        var c := DigitsAt(s, k);
        if |c| == 0 then None else Some((DigitsAt(s, i), DigitsAt(s, j), c))
  }

  /** `SEMVER_MATCHER` can split `s` into series and numbers with a series of length `k`. */
  predicate SplitsAt(s: string, k: int)
  {
    0 < k < |s| && '\n' !in s[..k] && s[k] == '-' && NumbersAt(s, k + 1).Some?
  }

  /** The greedy `(.+)` tries the longest series first: the largest split at or below `k`. */
  function MatchSemverFrom(s: string, k: nat): (r: Option<nat>)
    requires k < |s|
    ensures r.Some? ==> r.value <= k
  {
    if k == 0 then None
    else if SplitsAt(s, k) then Some(k)
    else MatchSemverFrom(s, k - 1)
  }

  /**
   * The split found is a split, and the largest one: no longer series could
   * be followed by a version.
   */
  lemma {:induction false} MatchSemverFromGreedy(s: string, k: nat)
    requires k < |s|
    ensures var r := MatchSemverFrom(s, k);
      && (r.Some? ==> SplitsAt(s, r.value) && forall j | r.value < j <= k :: !SplitsAt(s, j))
      && (r.None? ==> forall j | 0 < j <= k :: !SplitsAt(s, j))
  {
    if k > 0 && !SplitsAt(s, k) {
      var below: nat := k - 1;
      var r := MatchSemverFrom(s, below);
      assert MatchSemverFrom(s, k) == r;
      MatchSemverFromGreedy(s, below);
      if r.Some? {
        forall j | r.value < j <= k ensures !SplitsAt(s, j) {
          if j < k {
            assert r.value < j <= below;
          }
        }
      } else {
        forall j | 0 < j <= k ensures !SplitsAt(s, j) {
          if j < k {
            assert 0 < j <= below;
          }
        }
      }
    }
  }

  /** `SEMVER_MATCHER.match(tag)`: the length of the series the greedy match takes, if it matches. */
  function MatchSemver(tag: string): (r: Option<nat>)
    ensures r.Some? ==> r.value < |tag|
  {
    if |tag| == 0 then None else MatchSemverFrom(tag, |tag| - 1)
  }

  /** The match takes the longest series that a version can follow, and fails when none can. */
  lemma MatchSemverSpec(tag: string)
    ensures var r := MatchSemver(tag);
      && (r.Some? ==> SplitsAt(tag, r.value) && forall j | r.value < j :: !SplitsAt(tag, j))
      && (r.None? ==> forall j :: !SplitsAt(tag, j))
  {
    if |tag| > 0 {
      var top: nat := |tag| - 1;
      MatchSemverFromGreedy(tag, top);
    }
  }

  /** `SemanticVersion.make(tag)`, anchored at the start only. */
  function MakeSemanticVersion(tag: string): (r: Result<SemanticVersion>)
    ensures r.Raise? ==> r.error.ValueError?
  {
    var m := MatchSemver(tag);
    if m.None? then Raise(ValueError("Malformed tag \"" + tag + "\""))
    else
      MatchSemverSpec(tag);
      var nums := NumbersAt(tag, m.value + 1).value;
      Ok(SemanticVersion(tag[..m.value], ParseNat(nums.0), ParseNat(nums.1), ParseNat(nums.2)))
  }

  /**
   * `make` raises exactly when no split matches, and otherwise takes the
   * longest series that a version can follow.
   */
  lemma MakeRaisesIffNoMatch(tag: string)
    ensures MakeSemanticVersion(tag).Raise? <==> forall k :: !SplitsAt(tag, k)
    ensures MakeSemanticVersion(tag).Ok? ==>
      exists k :: (SplitsAt(tag, k)
        && MakeSemanticVersion(tag).value.seriesName == tag[..k]
        && forall j | k < j :: !SplitsAt(tag, j))
  {
    MatchSemverSpec(tag);
    var m := MatchSemver(tag);
    if m.Some? {
      var k := m.value;
      assert MakeSemanticVersion(tag).value.seriesName == tag[..k];
    }
  }

  /** `to_version`. */
  function ToVersion(v: SemanticVersion): string
  {
    NatToString(v.major) + "." + NatToString(v.minor) + "." + NatToString(v.patch)
  }

  /** `to_tag`. */
  function ToTag(v: SemanticVersion): string
  {
    v.seriesName + "-" + ToVersion(v)
  }

  /** A series name that `SEMVER_MATCHER` can give back: non-empty, one line. */
  predicate ValidSeries(series: string)
  {
    |series| > 0 && '\n' !in series
  }

  lemma SpanExact(s: string, i: nat, n: nat)
    requires i + n <= |s|
    requires forall j | i <= j < i + n :: IsDigit(s[j])
    requires i + n == |s| || !IsDigit(s[i + n])
    ensures Span(s, i, Digits) == n
    decreases n
  {
    if n > 0 { SpanExact(s, i + 1, n - 1); }
  }

  lemma DigitsThenStop(s: string, i: nat, d: string, rest: string)
    requires AllDigits(d) && i + |d| + |rest| == |s|
    requires s[i..i + |d|] == d && s[i + |d|..] == rest
    requires rest == "" || !IsDigit(rest[0])
    ensures DigitsAt(s, i) == d
  {
    forall j | i <= j < i + |d| ensures IsDigit(s[j]) {
      assert s[j] == d[j - i];
    }
    if rest != "" { assert s[i + |d|] == rest[0]; }
    SpanExact(s, i, |d|);
  }

  lemma SliceConcat(s: string, i: nat, x: string, y: string)
    requires i <= |s| && s[i..] == x + y
    ensures i + |x| <= |s| && s[i..i + |x|] == x && s[i + |x|..] == y
  {
    assert s[i..][..|x|] == x && s[i..][|x|..] == y;
  }

  /** A non-empty digit run followed by '.' is read as that run, and the text after the dot is left. */
  lemma DigitsDot(s: string, i: nat, d: string, rest: string)
    requires AllDigits(d) && i <= |s| && s[i..] == d + ("." + rest)
    requires |d| > 0
    ensures DigitsAt(s, i) == d && DottedAt(s, i) == Some(i + |d| + 1) && s[i + |d| + 1..] == rest
  {
    SliceConcat(s, i, d, "." + rest);
    SliceConcat(s, i + |d|, ".", rest);
    DigitsThenStop(s, i, d, s[i + |d|..]);
  }

  lemma NumbersAtDigits(s: string, i: nat, a: string, b: string, c: string, suffix: string)
    requires AllDigits(a) && AllDigits(b) && AllDigits(c) && |a| > 0 && |b| > 0 && |c| > 0
    requires suffix == "" || !IsDigit(suffix[0])
    requires i <= |s| && s[i..] == a + ("." + (b + ("." + (c + suffix))))
    ensures NumbersAt(s, i) == Some((a, b, c))
  {
    DigitsDot(s, i, a, b + ("." + (c + suffix)));
    var j := i + |a| + 1;
    DottedThenDigits(s, j, b, c, suffix);
    NumbersFromDotted(s, i, j, j + |b| + 1);
  }

  /** The second and third numbers of a version: digits, a dot, then digits the suffix does not extend. */
  lemma DottedThenDigits(s: string, j: nat, b: string, c: string, suffix: string)
    requires AllDigits(b) && AllDigits(c) && |b| > 0 && |c| > 0
    requires suffix == "" || !IsDigit(suffix[0])
    requires j <= |s| && s[j..] == b + ("." + (c + suffix))
    ensures DigitsAt(s, j) == b && DottedAt(s, j) == Some(j + |b| + 1) && DigitsAt(s, j + |b| + 1) == c
  {
    DigitsDot(s, j, b, c + suffix);
    var k := j + |b| + 1;
    SliceConcat(s, k, c, suffix);
    DigitsThenStop(s, k, c, suffix);
  }

  lemma NumbersFromDotted(s: string, i: nat, j: nat, k: nat)
    requires i <= |s| && DottedAt(s, i) == Some(j) && DottedAt(s, j) == Some(k) && |DigitsAt(s, k)| > 0
    ensures NumbersAt(s, i) == Some((DigitsAt(s, i), DigitsAt(s, j), DigitsAt(s, k)))
  {
  }

  lemma NumbersOfVersion(v: SemanticVersion, pre: string, suffix: string)
    requires suffix == "" || !IsDigit(suffix[0])
    ensures NumbersAt(pre + ToVersion(v) + suffix, |pre|)
         == Some((NatToString(v.major), NatToString(v.minor), NatToString(v.patch)))
  {
    var s := pre + ToVersion(v) + suffix;
    var a, b, c := NatToString(v.major), NatToString(v.minor), NatToString(v.patch);
    assert s[|pre|..] == a + ("." + (b + ("." + (c + suffix))));
    NumbersAtDigits(s, |pre|, NatToString(v.major), NatToString(v.minor), NatToString(v.patch), suffix);
  }

  /**
   * The matcher reads a rendered tag back, whatever follows it as long as
   * the following text neither extends the patch number nor holds a '-'.
   */
  lemma {:induction false} MakeToTag(v: SemanticVersion, suffix: string)
    requires ValidSeries(v.seriesName)
    requires '-' !in suffix && (suffix == "" || !IsDigit(suffix[0]))
    ensures MakeSemanticVersion(ToTag(v) + suffix) == Ok(v)
  {
    var series := v.seriesName;
    var t := ToTag(v) + suffix;
    var k := |series|;
    var tail := ToVersion(v) + suffix;
    assert t[..k] == series && t[k] == '-' && t[k + 1..] == tail by {
      assert t == (series + "-") + ToVersion(v) + suffix;
    }
    assert NumbersAt(t, k + 1) == Some((NatToString(v.major), NatToString(v.minor), NatToString(v.patch))) by {
      assert t == (series + "-") + ToVersion(v) + suffix;
      NumbersOfVersion(v, series + "-", suffix);
    }
    assert MatchSemver(t) == Some(k) by {
      VersionHasNoDash(v);
      assert '-' !in tail;
      LastDashMatches(t, k, tail);
    }
    MakeAt(t, k, v);
  }

  /** When no '-' follows a split, the matcher takes that split. */
  lemma LastDashMatches(t: string, k: nat, tail: string)
    requires SplitsAt(t, k) && t[k + 1..] == tail && '-' !in tail
    ensures MatchSemver(t) == Some(k)
  {
    NoDashAfter(t, k, tail);
    var top: nat := |t| - 1;
    MatchAbove(t, top, k);
  }

  lemma NoDashAfter(t: string, k: nat, tail: string)
    requires k < |t| && t[k + 1..] == tail && '-' !in tail
    ensures forall j | k < j < |t| :: t[j] != '-'
  {
    forall j | k < j < |t| ensures t[j] != '-' {
      assert t[j] == tail[j - k - 1];
    }
  }

  lemma MakeAt(t: string, k: nat, v: SemanticVersion)
    requires MatchSemver(t) == Some(k) && t[..k] == v.seriesName
    requires NumbersAt(t, k + 1) == Some((NatToString(v.major), NatToString(v.minor), NatToString(v.patch)))
    ensures MakeSemanticVersion(t) == Ok(v)
  {
    ParseNatToString(v.major);
    ParseNatToString(v.minor);
    ParseNatToString(v.patch);
  }

  lemma VersionHasNoDash(v: SemanticVersion)
    ensures '-' !in ToVersion(v)
  {
    var a, b, c := NatToString(v.major), NatToString(v.minor), NatToString(v.patch);
    assert ToVersion(v) == a + "." + b + "." + c;
    assert forall x | x in a :: IsDigit(x);
    assert forall x | x in b :: IsDigit(x);
    assert forall x | x in c :: IsDigit(x);
  }

  lemma {:induction false} MatchAbove(s: string, top: nat, k: nat)
    requires k <= top < |s|
    requires SplitsAt(s, k)
    requires forall j | k < j <= top :: s[j] != '-'
    ensures MatchSemverFrom(s, top) == Some(k)
    decreases top
  {
    if top > k { MatchAbove(s, top - 1, k); }
  }

  /** The matcher reads any three non-empty digit runs after the series, leading zeros included. */
  lemma MakeFromDigits(series: string, a: string, b: string, c: string)
    requires ValidSeries(series)
    requires AllDigits(a) && AllDigits(b) && AllDigits(c) && |a| > 0 && |b| > 0 && |c| > 0
    ensures MakeSemanticVersion(series + "-" + a + "." + b + "." + c)
         == Ok(SemanticVersion(series, ParseNat(a), ParseNat(b), ParseNat(c)))
  {
    var t := series + "-" + a + "." + b + "." + c;
    MatchDigits(series, a, b, c);
    assert t[..|series|] == series;
  }

  /** `MakeFromDigits` for a tag written as `<series>-` followed by the numbers. */
  lemma MakeFromPrefixedDigits(prefix: string, a: string, b: string, c: string)
    requires |prefix| > 1 && prefix[|prefix| - 1] == '-' && ValidSeries(prefix[..|prefix| - 1])
    requires AllDigits(a) && AllDigits(b) && AllDigits(c) && |a| > 0 && |b| > 0 && |c| > 0
    ensures MakeSemanticVersion(prefix + a + "." + b + "." + c)
         == Ok(SemanticVersion(prefix[..|prefix| - 1], ParseNat(a), ParseNat(b), ParseNat(c)))
  {
    var series := prefix[..|prefix| - 1];
    assert series + "-" == prefix;
    MakeFromDigits(series, a, b, c);
  }

  lemma MatchDigits(series: string, a: string, b: string, c: string)
    requires ValidSeries(series)
    requires AllDigits(a) && AllDigits(b) && AllDigits(c) && |a| > 0 && |b| > 0 && |c| > 0
    ensures var t := series + "-" + a + "." + b + "." + c;
      MatchSemver(t) == Some(|series|) && NumbersAt(t, |series| + 1) == Some((a, b, c))
  {
    var k := |series|;
    var tail := a + ("." + (b + ("." + (c + ""))));
    var t := (series + "-") + tail;
    assert series + "-" + a + "." + b + "." + c == t;
    assert t[..k] == series && t[k] == '-' && t[k + 1..] == tail;
    NumbersAtDigits(t, k + 1, a, b, c, "");
    DottedLacksDash(a, b, c);
    assert SplitsAt(t, k);
    LastDashMatches(t, k, tail);
  }

  lemma DottedLacksDash(a: string, b: string, c: string)
    requires AllDigits(a) && AllDigits(b) && AllDigits(c)
    ensures '-' !in a + ("." + (b + ("." + (c + ""))))
  {
    DigitsLackChar(a, '-');
    DigitsLackChar(b, '-');
    DigitsLackChar(c, '-');
  }

  /** For a canonical tag the round trip `to_tag(make(t)) == t` holds. */
  lemma TagRoundTrip(series: string, ma: string, mi: string, pa: string)
    requires ValidSeries(series)
    requires IsCanonicalNumeral(ma) && IsCanonicalNumeral(mi) && IsCanonicalNumeral(pa)
    ensures var t := series + "-" + ma + "." + mi + "." + pa;
            MakeSemanticVersion(t).Ok? && ToTag(MakeSemanticVersion(t).value) == t
  {
    NatToStringParse(ma);
    NatToStringParse(mi);
    NatToStringParse(pa);
    var v := SemanticVersion(series, ParseNat(ma), ParseNat(mi), ParseNat(pa));
    var t := series + "-" + ma + "." + mi + "." + pa;
    assert ToTag(v) + "" == t;
    MakeToTag(v, "");
  }

  /** `to_version` of a canonical tag is its text after the last '-'. */
  lemma VersionIsTextAfterLastDash(v: SemanticVersion)
    ensures var t := ToTag(v); t[RFindChar(t, '-') + 1..] == ToVersion(v)
  {
    var t := ToTag(v);
    var k := |v.seriesName|;
    assert t[k] == '-' && t[k + 1..] == ToVersion(v);
    VersionHasNoDash(v);
    NoDashAfter(t, k, ToVersion(v));
    RFindCharAt(t, '-', k);
  }

  /** `most_significant_diff_index`: the first differing component, in significance order. */
  function MostSignificantDiffIndex(a: SemanticVersion, b: SemanticVersion): (r: Option<nat>)
    ensures r.None? <==> a == b
    ensures r.Some? ==> r.value <= PatchIndex
    ensures r == Some(TagIndex) <==> a.seriesName != b.seriesName
    ensures r == Some(MajorIndex) <==> a.seriesName == b.seriesName && a.major != b.major
    ensures r == Some(MinorIndex) <==> a.seriesName == b.seriesName && a.major == b.major && a.minor != b.minor
    ensures r == Some(PatchIndex) <==> a.seriesName == b.seriesName && a.major == b.major && a.minor == b.minor && a.patch != b.patch
  {
    if b.seriesName != a.seriesName then Some(TagIndex)
    else if b.major != a.major then Some(MajorIndex)
    else if b.minor != a.minor then Some(MinorIndex)
    else if b.patch != a.patch then Some(PatchIndex)
    else None
  }

  /** The difference index does not depend on the order of its arguments. */
  lemma DiffIndexSymmetric(a: SemanticVersion, b: SemanticVersion)
    ensures MostSignificantDiffIndex(a, b) == MostSignificantDiffIndex(b, a)
  {
  }

  /** `next(at_index)`; the index is Python's int-or-None argument. */
  function Next(v: SemanticVersion, atIndex: Option<int>): (r: Result<SemanticVersion>)
    ensures r.Ok? <==> atIndex in {Some(MajorIndex), Some(MinorIndex), Some(PatchIndex)}
    ensures r.Raise? ==> r.error.ValueError?
  {
    match atIndex
    case None => Raise(ValueError("Invalid index=None"))
    case Some(i) =>
      if i == PatchIndex then Ok(v.(patch := v.patch + 1))
      else if i == MinorIndex then Ok(v.(minor := v.minor + 1, patch := 0))
      else if i == MajorIndex then Ok(v.(major := v.major + 1, minor := 0, patch := 0))
      else Raise(ValueError("Invalid index=" + IntToString(i)))
  }

  /** Version precedence on the numeric components (item 11 of Semantic Versioning 2.0.0). */
  predicate Precedes(a: SemanticVersion, b: SemanticVersion)
  {
    a.major < b.major
    || (a.major == b.major && a.minor < b.minor)
    || (a.major == b.major && a.minor == b.minor && a.patch < b.patch)
  }

  /**
   * Items 6-8 of Semantic Versioning 2.0.0: bumping a component increments it,
   * resets the less significant ones to 0, keeps the more significant ones
   * and the series, and yields a later version whose first difference from
   * the old one is exactly the bumped component.
   */
  lemma NextFollowsSemver(v: SemanticVersion, i: int)
    requires i in {MajorIndex, MinorIndex, PatchIndex}
    ensures var r := Next(v, Some(i));
      && r.Ok?
      && r.value.seriesName == v.seriesName
      && MostSignificantDiffIndex(v, r.value) == Some(i)
      && Precedes(v, r.value)
      && (i == PatchIndex ==> r.value.patch == v.patch + 1)
      && (i == MinorIndex ==> r.value.minor == v.minor + 1 && r.value.patch == 0)
      && (i == MajorIndex ==> r.value.major == v.major + 1 && r.value.minor == 0 && r.value.patch == 0)
      && (i >= MinorIndex ==> r.value.major == v.major)
      && (i == PatchIndex ==> r.value.minor == v.minor)
  {
  }

  // ================================================================ CommitTag

  /** One `git show-ref --tags` line; compared by tag text alone. */
  datatype CommitTag = CommitTag(commitId: string, tag: string)

  /** `CommitTag.make(ref_line)`: id is the first ' ' token, tag the last '/' part of the second. */
  function MakeCommitTag(refLine: string): Result<CommitTag>
  {
    var tokens := SplitOn(refLine, ' ');
    if |tokens| < 2 then Raise(IndexError("list index out of range"))
    else
      Ok(CommitTag(tokens[0], LastPart(SplitOn(tokens[1], '/'))))
  }

  /**
   * A `show-ref` line without a blank has no second token and raises; otherwise
   * the id is the text before the first blank and the tag is what follows the
   * last '/' of the second token.
   */
  lemma MakeCommitTagSpec(refLine: string)
    ensures var r := MakeCommitTag(refLine);
      && (r.Raise? <==> ' ' !in refLine)
      && (r.Raise? ==> r.error.IndexError?)
      && (r.Ok? ==> r.value.commitId == Before(refLine, ' '))
      && (r.Ok? ==> r.value.tag == AfterLast(Before(After(refLine, ' '), ' '), '/'))
  {
    SplitFirstTwo(refLine, ' ');
    var tokens := SplitOn(refLine, ' ');
    if |tokens| >= 2 {
      SplitLast(tokens[1], '/');
    }
  }

  /** The part of `MakeCommitTagSpec` about failure. */
  lemma MakeCommitTagRaises(refLine: string)
    ensures MakeCommitTag(refLine).Raise? <==> ' ' !in refLine
    ensures MakeCommitTag(refLine).Raise? ==> MakeCommitTag(refLine).error.IndexError?
  {
    SplitFirstTwo(refLine, ' ');
  }

  lemma SplitFirstTwo(s: string, c: char)
    ensures var parts := SplitOn(s, c);
      parts[0] == Before(s, c)
      && (|parts| >= 2 <==> c in s)
      && (c in s ==> parts[1] == Before(After(s, c), c))
  {
    var i := FindChar(s, c);
    if i != -1 {
      var rest := s[i + 1..];
      assert SplitOn(rest, c)[0] == Before(rest, c);
    }
  }

  /** The last part of `s.split(c)` is the text after the last `c`. */
  lemma {:induction false} SplitLast(s: string, c: char)
    ensures LastPart(SplitOn(s, c)) == AfterLast(s, c)
    decreases |s|
  {
    var i := FindChar(s, c);
    if i != -1 {
      SplitLastStep(s, c, i);
      SplitLast(s[i + 1..], c);
      AfterLastShift(s, c, i);
    } else {
      SplitLastFree(s, c);
    }
  }

  /** The last part after a first separator at `i` is the last part of what follows it. */
  lemma SplitLastStep(s: string, c: char, i: nat)
    requires FindChar(s, c) == i
    ensures LastPart(SplitOn(s, c)) == LastPart(SplitOn(s[i + 1..], c))
  {
    SplitOnStep(s, c, i);
    LastOfCons(SplitOn(s, c), s[..i], SplitOn(s[i + 1..], c));
  }

  /** Without a separator, the one part is the whole text, which is also what follows the last separator. */
  lemma SplitLastFree(s: string, c: char)
    requires FindChar(s, c) == -1
    ensures LastPart(SplitOn(s, c)) == AfterLast(s, c)
  {
    assert SplitOn(s, c) == [s];
    AfterLastSpec(s, c);
  }

  /** The last of the parts of a split. */
  function LastPart(parts: seq<string>): string
    requires |parts| >= 1
  {
    parts[|parts| - 1]
  }

  lemma LastOfCons(parts: seq<string>, head: string, tail: seq<string>)
    requires parts == [head] + tail && |tail| >= 1
    ensures LastPart(parts) == LastPart(tail)
  {
  }

  /** `CommitTag.__lt__`: tags are ordered by their text alone. */
  function TagKey(t: CommitTag): string { t.tag }

  /**
   * The id-to-tag map of `query_local_repository_commits_to_existing_tag_from_id`:
   * tags are inserted in sorted order, so a commit carrying several tags keeps
   * the greatest one.
   */
  method IdToNewestTag(commitTags: seq<CommitTag>) returns (m: map<string, string>)
    ensures m == NewestTags(commitTags)
    ensures forall id :: id in m <==> exists t | t in commitTags :: t.commitId == id
    ensures forall id | id in m :: exists t | t in commitTags :: t.commitId == id && t.tag == m[id]
    ensures forall t | t in commitTags :: LessEq(t.tag, m[t.commitId])
  {
    var sorted := SortBy(commitTags, TagKey);
    m := map[];
    var n := 0;
    while n < |sorted|
      invariant 0 <= n <= |sorted|
      invariant m == TagMap(sorted[..n])
    {
      TagMapStep(sorted, n);
      m := m[sorted[n].commitId := sorted[n].tag];
      n := n + 1;
    }
    assert sorted[..n] == sorted;
    NewestTagsSpec(commitTags);
  }

  /** The map the insertions build: each commit id bound to its last tag in the list. */
  function TagMap(tags: seq<CommitTag>): map<string, string>
  {
    if tags == [] then map[]
    else TagMap(tags[..|tags| - 1])[tags[|tags| - 1].commitId := tags[|tags| - 1].tag]
  }

  /** Inserting one more tag is one more update of the map. */
  lemma TagMapStep(tags: seq<CommitTag>, n: nat)
    requires n < |tags|
    ensures TagMap(tags[..n + 1]) == TagMap(tags[..n])[tags[n].commitId := tags[n].tag]
  {
    assert tags[..n + 1][..n] == tags[..n];
  }

  /** The inserted tags' commit ids are exactly the keys of the map. */
  lemma {:induction false} TagMapDomain(tags: seq<CommitTag>)
    ensures forall id :: id in TagMap(tags) <==> exists i | 0 <= i < |tags| :: tags[i].commitId == id
  {
    if tags != [] {
      var front := tags[..|tags| - 1];
      TagMapDomain(front);
      forall id ensures id in TagMap(tags) <==> exists i | 0 <= i < |tags| :: tags[i].commitId == id {
        if id in TagMap(front) {
          var i :| 0 <= i < |front| && front[i].commitId == id;
          assert tags[i] == front[i];
        }
        if exists i | 0 <= i < |tags| :: tags[i].commitId == id {
          var i :| 0 <= i < |tags| && tags[i].commitId == id;
          if i < |front| {
            assert front[i] == tags[i];
          }
        }
      }
    }
  }

  /** Each key of the map is bound to one of the tags inserted for it. */
  lemma {:induction false} TagMapValues(tags: seq<CommitTag>)
    ensures forall id | id in TagMap(tags) ::
      exists i | 0 <= i < |tags| :: tags[i].commitId == id && TagMap(tags)[id] == tags[i].tag
  {
    if tags != [] {
      var front := tags[..|tags| - 1];
      var last := tags[|tags| - 1];
      TagMapValues(front);
      forall id | id in TagMap(tags)
        ensures exists i | 0 <= i < |tags| :: tags[i].commitId == id && TagMap(tags)[id] == tags[i].tag
      {
        assert TagMap(tags) == TagMap(front)[last.commitId := last.tag];
        if id != last.commitId {
          assert id in TagMap(front);
          var i :| 0 <= i < |front| && front[i].commitId == id && TagMap(front)[id] == front[i].tag;
          assert tags[i] == front[i];
        }
      }
    }
  }

  /** Inserting tags in increasing order binds each commit id to its greatest tag. */
  lemma {:induction false} TagMapGreatest(tags: seq<CommitTag>)
    requires forall i, j | 0 <= i < j < |tags| :: LessEq(tags[i].tag, tags[j].tag)
    ensures forall i | 0 <= i < |tags| :: tags[i].commitId in TagMap(tags)
    ensures forall i | 0 <= i < |tags| :: LessEq(tags[i].tag, TagMap(tags)[tags[i].commitId])
  {
    TagMapDomain(tags);
    if tags != [] {
      var front := tags[..|tags| - 1];
      var last := tags[|tags| - 1];
      TagMapGreatest(front);
      forall i | 0 <= i < |tags| ensures LessEq(tags[i].tag, TagMap(tags)[tags[i].commitId]) {
        if tags[i].commitId != last.commitId {
          assert front[i] == tags[i];
        } else if i < |tags| - 1 {
          assert LessEq(tags[i].tag, last.tag);
        }
      }
    }
  }

  /** The id-to-tag map `IdToNewestTag` builds, as a value. */
  function NewestTags(commitTags: seq<CommitTag>): map<string, string>
  {
    TagMap(SortBy(commitTags, TagKey))
  }

  /** The map holds exactly the tagged commit ids, each bound to its greatest tag. */
  lemma NewestTagsSpec(commitTags: seq<CommitTag>)
    ensures forall id :: id in NewestTags(commitTags) <==> exists t | t in commitTags :: t.commitId == id
    ensures forall id | id in NewestTags(commitTags) ::
      exists t | t in commitTags :: t.commitId == id && t.tag == NewestTags(commitTags)[id]
    ensures forall t | t in commitTags :: LessEq(t.tag, NewestTags(commitTags)[t.commitId])
  {
    var sorted := SortBy(commitTags, TagKey);
    SortedByTag(sorted);
    SameMembers(sorted, commitTags);
    MembersDomain(commitTags, sorted);
    MembersValues(commitTags, sorted);
    MembersGreatest(commitTags, sorted);
  }

  /** The keys of the map built from a reordering of the tags are their commit ids. */
  lemma MembersDomain(commitTags: seq<CommitTag>, sorted: seq<CommitTag>)
    requires forall t :: t in sorted <==> t in commitTags
    ensures forall id :: id in TagMap(sorted) <==> exists t | t in commitTags :: t.commitId == id
  {
    TagMapDomain(sorted);
    forall id | exists t | t in commitTags :: t.commitId == id ensures id in TagMap(sorted) {
      var t :| t in commitTags && t.commitId == id;
      var i :| 0 <= i < |sorted| && sorted[i] == t;
    }
  }

  /** Each key of the map built from a reordering of the tags is bound to one of its tags. */
  lemma MembersValues(commitTags: seq<CommitTag>, sorted: seq<CommitTag>)
    requires forall t :: t in sorted <==> t in commitTags
    ensures forall id | id in TagMap(sorted) ::
      exists t | t in commitTags :: t.commitId == id && t.tag == TagMap(sorted)[id]
  {
    TagMapValues(sorted);
    forall id | id in TagMap(sorted)
      ensures exists t | t in commitTags :: t.commitId == id && t.tag == TagMap(sorted)[id]
    {
      var i :| 0 <= i < |sorted| && sorted[i].commitId == id && TagMap(sorted)[id] == sorted[i].tag;
      assert sorted[i] in commitTags;
    }
  }

  /** The map built from the tags in increasing order binds each commit id to its greatest tag. */
  lemma MembersGreatest(commitTags: seq<CommitTag>, sorted: seq<CommitTag>)
    requires forall t :: t in sorted <==> t in commitTags
    requires forall i, j | 0 <= i < j < |sorted| :: LessEq(sorted[i].tag, sorted[j].tag)
    ensures forall t | t in commitTags :: t.commitId in TagMap(sorted)
    ensures forall t | t in commitTags :: LessEq(t.tag, TagMap(sorted)[t.commitId])
  {
    TagMapGreatest(sorted);
    forall t | t in commitTags ensures t.commitId in TagMap(sorted) && LessEq(t.tag, TagMap(sorted)[t.commitId]) {
      var i :| 0 <= i < |sorted| && sorted[i] == t;
    }
  }

  /** Sorting by `TagKey` orders the tags. */
  lemma SortedByTag(sorted: seq<CommitTag>)
    requires SortedBy(sorted, TagKey)
    ensures forall i, j | 0 <= i < j < |sorted| :: LessEq(sorted[i].tag, sorted[j].tag)
  {
    forall i, j | 0 <= i < j < |sorted| ensures LessEq(sorted[i].tag, sorted[j].tag) {
      assert LessEq(TagKey(sorted[i]), TagKey(sorted[j]));
    }
  }

  /** Sequences with the same multiset have the same members. */
  lemma SameMembers<T>(a: seq<T>, b: seq<T>)
    requires multiset(a) == multiset(b)
    ensures forall x :: x in a <==> x in b
  {
    forall x ensures x in a <==> x in b {
      assert x in a <==> x in multiset(a);
      assert x in b <==> x in multiset(b);
    }
  }

  // ================================================================ CommitMessage

  /** One entry of `git log --pretty=medium`. */
  datatype CommitMessage = CommitMessage(commitId: string, author: string, date: string, message: string)

  /**
   * `_MEDIUM_PRETTY_COMMIT_MATCHER.match(entry)` for `(.+)\nAuthor: *(.+)\nDate: *(.*)\n`:
   * the id line, the author and the date, and the index where group 3 ends.
   */
  function MatchMediumHeader(entry: string): (r: Option<(string, string, string, nat)>)
    ensures r.Some? ==> r.value.3 < |entry| && entry[r.value.3] == '\n'
  {
    var e1 := LineEnd(entry, 0);
    if e1 == 0 || e1 == |entry| || !StartsWith(entry[e1 + 1..], "Author:") then None
    else
      var a := e1 + 1 + 7;
      var e2 := LineEnd(entry, a);
      var sp := Span(entry, a, Blanks);
      if e2 == |entry| || e2 == a then None
      else
        // ` *` gives back one blank when `(.+)` would otherwise be left empty
        var author := if a + sp < e2 then entry[a + sp..e2] else entry[e2 - 1..e2];
        if !StartsWith(entry[e2 + 1..], "Date:") then None
        else
          var d := e2 + 1 + 5;
          var e3 := LineEnd(entry, d);
          var sp3 := Span(entry, d, Blanks);
          if e3 == |entry| then None
          else
            var start := if d + sp3 <= e3 then d + sp3 else e3;
            Some((entry[..e1], author, entry[start..e3], e3))
  }

  function RStripAll(lines: seq<string>): (r: seq<string>)
    ensures |r| == |lines|
    ensures forall i | 0 <= i < |r| :: r[i] == RStrip(lines[i])
  {
    if lines == [] then [] else [RStrip(lines[0])] + RStripAll(lines[1..])
  }

  /** The lines without the blank lines at the start. */
  function DropLeadingBlank(lines: seq<string>): (r: seq<string>)
  {
    if lines != [] && lines[0] == "" then DropLeadingBlank(lines[1..]) else lines
  }

  /** The lines without the blank lines at the end. */
  function DropTrailingBlank(lines: seq<string>): (r: seq<string>)
  {
    if lines != [] && lines[|lines| - 1] == "" then DropTrailingBlank(lines[..|lines| - 1]) else lines
  }

  /** The lines without the blank lines at either end. */
  function TrimBlankLines(lines: seq<string>): seq<string>
  {
    DropTrailingBlank(DropLeadingBlank(lines))
  }

  /** The body of a log entry: its lines right-stripped, blank lines at both ends removed. */
  function BodyLines(text: string): seq<string>
  {
    TrimBlankLines(RStripAll(SplitOn(text, '\n')))
  }

  /**
   * Trimming keeps a contiguous run of the lines with only blank lines
   * around it, starting and ending with a non-blank line.
   */
  lemma TrimBlankLinesShape(all: seq<string>)
    ensures var body := TrimBlankLines(all);
      && (body != [] ==> body[0] != "" && body[|body| - 1] != "")
      && (exists lo, hi | 0 <= lo <= hi <= |all| :: body == all[lo..hi]
            && (forall i | 0 <= i < lo :: all[i] == "")
            && (forall i | hi <= i < |all| :: all[i] == ""))
  {
    var lo := LeadingBlankCount(all);
    var front := DropLeadingBlank(all);
    var hi := lo + |front| - TrailingBlankCount(front);
    TrimmedRun(all, lo, front, hi);
  }

  lemma TrimmedRun(all: seq<string>, lo: nat, front: seq<string>, hi: nat)
    requires lo <= |all| && front == all[lo..] && hi == lo + |front| - TrailingBlankCount(front)
    requires forall i | 0 <= i < lo :: all[i] == ""
    requires lo < |all| ==> all[lo] != ""
    ensures lo <= hi <= |all|
    ensures DropTrailingBlank(front) == all[lo..hi]
    ensures forall i | hi <= i < |all| :: all[i] == ""
    ensures hi > lo ==> all[lo] != "" && all[hi - 1] != ""
  {
    var n := TrailingBlankCount(front);
    assert front[..|front| - n] == all[lo..hi];
    forall i | hi <= i < |all| ensures all[i] == "" {
      assert all[i] == front[i - lo];
    }
    if hi > lo {
      assert all[hi - 1] == front[|front| - n - 1];
    }
  }

  /** Trimming only removes lines. */
  lemma TrimBlankLinesSubset(all: seq<string>)
    ensures forall line | line in TrimBlankLines(all) :: line in all
  {
    TrimBlankLinesShape(all);
  }

  /** Each right-stripped line is its own right-strip. */
  lemma RStripAllStripped(lines: seq<string>)
    ensures forall line | line in RStripAll(lines) :: line == RStrip(line)
  {
    forall line | line in RStripAll(lines) ensures line == RStrip(line) {
      var i :| 0 <= i < |lines| && RStripAll(lines)[i] == line;
      RStripIdempotent(lines[i]);
    }
  }

  /** No line of the body ends in whitespace. */
  lemma BodyLinesStripped(text: string)
    ensures forall line | line in BodyLines(text) :: line == RStrip(line)
  {
    var all := RStripAll(SplitOn(text, '\n'));
    TrimBlankLinesSubset(all);
    RStripAllStripped(SplitOn(text, '\n'));
  }

  lemma RStripIdempotent(s: string)
    ensures RStrip(RStrip(s)) == RStrip(s)
  {
  }

  function LeadingBlankCount(lines: seq<string>): (n: nat)
    ensures n <= |lines|
    ensures DropLeadingBlank(lines) == lines[n..]
    ensures forall i | 0 <= i < n :: lines[i] == ""
    ensures n < |lines| ==> lines[n] != ""
  {
    if lines != [] && lines[0] == "" then 1 + LeadingBlankCount(lines[1..]) else 0
  }

  function TrailingBlankCount(lines: seq<string>): (n: nat)
    ensures n <= |lines|
    ensures DropTrailingBlank(lines) == lines[..|lines| - n]
    ensures forall i | |lines| - n <= i < |lines| :: lines[i] == ""
    ensures n < |lines| ==> lines[|lines| - n - 1] != ""
  {
    if lines != [] && lines[|lines| - 1] == "" then 1 + TrailingBlankCount(lines[..|lines| - 1]) else 0
  }

  /** `CommitMessage.make(entry)`; a header that does not match raises AttributeError (`None.end`). */
  function CommitMessageOf(entry: string): Result<CommitMessage>
  {
    match MatchMediumHeader(entry)
    case None => Raise(AttributeError("'NoneType' object has no attribute 'end'"))
    case Some(h) => Ok(CommitMessage(h.0, h.1, h.2, Join(BodyLines(entry[h.3..]), "\n")))
  }

  /**
   * The parsed message fails exactly when the header does not match; otherwise
   * its text is its lines joined by newlines, none of them ending in
   * whitespace, the first and the last not blank.
   */
  lemma CommitMessageOfSpec(entry: string)
    ensures CommitMessageOf(entry).Raise? <==> MatchMediumHeader(entry).None?
    ensures CommitMessageOf(entry).Raise? ==> CommitMessageOf(entry).error.AttributeError?
    ensures CommitMessageOf(entry).Ok? ==>
      var h := MatchMediumHeader(entry).value;
      var lines := BodyLines(entry[h.3..]);
      && CommitMessageOf(entry).value.message == Join(lines, "\n")
      && CommitMessageOf(entry).value.commitId == h.0
      && (forall line | line in lines :: line == RStrip(line))
      && (lines != [] ==> lines[0] != "" && lines[|lines| - 1] != "")
  {
    if MatchMediumHeader(entry).Some? {
      var h := MatchMediumHeader(entry).value;
      var text := entry[h.3..];
      BodyLinesStripped(text);
      TrimBlankLinesShape(RStripAll(SplitOn(text, '\n')));
    }
  }

  /** `CommitMessage.make(entry)` with its two blank-line loops. */
  method MakeCommitMessage(entry: string) returns (r: Result<CommitMessage>)
    ensures r == CommitMessageOf(entry)
  {
    var header := MatchMediumHeader(entry);
    if header.None? {
      return Raise(AttributeError("'NoneType' object has no attribute 'end'"));
    }
    var h := header.value;
    var text := entry[h.3..];
    var lines := RStripAll(SplitOn(text, '\n'));
    while lines != [] && lines[0] == ""
      invariant DropLeadingBlank(lines) == DropLeadingBlank(RStripAll(SplitOn(text, '\n')))
    {
      lines := lines[1..];
    }
    while lines != [] && lines[|lines| - 1] == ""
      invariant DropTrailingBlank(lines) == BodyLines(text)
    {
      lines := lines[..|lines| - 1];
    }
    return Ok(CommitMessage(h.0, h.1, h.2, Join(lines, "\n")));
  }

  /** Each entry parsed on its own. */
  function ParsedEach(entries: seq<string>): (r: seq<Result<CommitMessage>>)
    ensures |r| == |entries|
  {
    seq(|entries|, i requires 0 <= i < |entries| => CommitMessageOf(entries[i]))
  }

  /** Every entry parsed in order; the first entry that fails raises its error. */
  function MessagesOf(entries: seq<string>): Result<seq<CommitMessage>>
  {
    Collect(ParsedEach(entries))
  }

  /**
   * The list parses when every entry does, and then holds each entry's
   * message in order; otherwise it raises the error of the first entry that fails.
   */
  lemma MessagesOfSpec(entries: seq<string>)
    ensures MessagesOf(entries).Ok? <==> forall i | 0 <= i < |entries| :: CommitMessageOf(entries[i]).Ok?
    ensures MessagesOf(entries).Ok? ==> |MessagesOf(entries).value| == |entries|
    ensures MessagesOf(entries).Ok? ==>
      forall i | 0 <= i < |entries| :: MessagesOf(entries).value[i] == CommitMessageOf(entries[i]).value
    ensures MessagesOf(entries).Raise? ==>
      exists i | 0 <= i < |entries| :: CommitMessageOf(entries[i]) == Raise(MessagesOf(entries).error)
  {
    var rs := ParsedEach(entries);
    CollectSpec(rs);
    assert forall i | 0 <= i < |entries| :: rs[i] == CommitMessageOf(entries[i]);
  }

  /** `make_list_from_result`: the entries are the text cut at each "\ncommit ", the first piece dropped. */
  function ListFromResult(responseText: string): Result<seq<CommitMessage>>
  {
    MessagesOf(Split("\n" + Strip(responseText), "\ncommit ")[1..])
  }

  /** `make_list_from_result` with its loop over the entries. */
  method MakeListFromResult(responseText: string) returns (r: Result<seq<CommitMessage>>)
    ensures r == ListFromResult(responseText)
  {
    var entries := Split("\n" + Strip(responseText), "\ncommit ")[1..];
    ghost var rs := ParsedEach(entries);
    var messages: seq<CommitMessage> := [];
    var n := 0;
    while n < |entries|
      invariant 0 <= n <= |entries|
      invariant Collect(rs[..n]) == Ok(messages)
    {
      var m := MakeCommitMessage(entries[n]);
      assert rs[n] == m;
      assert rs[..n + 1][..n] == rs[..n];
      if m.Raise? {
        CollectRaisePrefix(rs, n + 1);
        return Raise(m.error);
      }
      messages := messages + [m.value];
      n := n + 1;
    }
    assert rs[..n] == rs;
    return Ok(messages);
  }

  // ---------------------------------------------------------------- embedded commits

  /**
   * `_EMBEDDED_COMMIT_MATCHER` at line start `p`:
   * `( *)commit [a-f0-9]+\n\s*Author: .+\n\s*Date:   .+\n`; gives the indent width.
   */
  function EmbeddedCommitAt(t: string, p: nat): (r: Option<nat>)
    requires p <= |t|
    ensures r.Some? ==> p + r.value <= |t| && forall k | p <= k < p + r.value :: t[k] == ' '
  {
    SpanSpec(t, p, Blanks);
    var w := Span(t, p, Blanks);
    var q := p + w;
    if !StartsWith(t[q..], "commit ") then None
    else
      var h := Span(t, q + 7, HexDigits);
      if h == 0 || q + 7 + h == |t| || t[q + 7 + h] != '\n' then None
      else
        var q3 := q + 7 + h + 1;
        var q4 := q3 + Span(t, q3, Whitespace);
        if !StartsWith(t[q4..], "Author: ") then None
        else
          var e := LineEnd(t, q4 + 8);
          if e == q4 + 8 || e == |t| then None
          else
            var q7 := e + 1 + Span(t, e + 1, Whitespace);
            if !StartsWith(t[q7..], "Date:   ") then None
            else
              var e2 := LineEnd(t, q7 + 8);
              if e2 == q7 + 8 || e2 == |t| then None else Some(w)
  }

  /** `^` holds at `p`. */
  predicate LineStart(t: string, p: nat) { p == 0 || (p <= |t| && t[p - 1] == '\n') }

  /** `_EMBEDDED_COMMIT_MATCHER.search(t)` from `p` on: the first line start where it matches. */
  function SearchEmbeddedCommit(t: string, p: nat): (r: Option<(nat, nat)>)
    requires p <= |t|
    ensures r.Some? ==> p <= r.value.0 <= r.value.0 + r.value.1 <= |t| && LineStart(t, r.value.0)
                        && EmbeddedCommitAt(t, r.value.0) == Some(r.value.1)
    ensures r.None? ==> forall q | p <= q <= |t| && LineStart(t, q) :: EmbeddedCommitAt(t, q).None?
    decreases |t| - p
  {
    if LineStart(t, p) && EmbeddedCommitAt(t, p).Some? then Some((p, EmbeddedCommitAt(t, p).value))
    else if p == |t| then None
    else SearchEmbeddedCommit(t, p + 1)
  }

  predicate HasEmbeddedCommit(m: CommitMessage)
  {
    SearchEmbeddedCommit(m.message, 0).Some?
  }

  /** One line of the block de-indented: cut when indented, kept when empty, None otherwise. */
  function PruneLine(line: string, indent: string): Option<string>
  {
    if StartsWith(line, indent) then Some(line[|indent|..])
    else if line == "" then Some(line)
    else None
  }

  /** The block's lines de-indented, or None when one of them is neither indented nor empty. */
  function PruneIndented(lines: seq<string>, indent: string): (r: Option<seq<string>>)
    ensures r.Some? ==> |r.value| == |lines|
  {
    if lines == [] then Some([])
    else
      match PruneIndented(lines[..|lines| - 1], indent)
      case None => None
      case Some(init) =>
        match PruneLine(lines[|lines| - 1], indent)
        case None => None
        case Some(line) => Some(init + [line])
  }

  /** Pruning fails exactly when some line is neither indented nor empty, and otherwise cuts the indent off each line. */
  lemma {:induction false} PruneIndentedSpec(lines: seq<string>, indent: string)
    ensures PruneIndented(lines, indent).None? <==>
      exists i | 0 <= i < |lines| :: !StartsWith(lines[i], indent) && lines[i] != ""
    ensures PruneIndented(lines, indent).Some? ==> forall i | 0 <= i < |lines| ::
      lines[i] == indent + PruneIndented(lines, indent).value[i] || lines[i] == PruneIndented(lines, indent).value[i] == ""
  {
    if lines != [] {
      var n := |lines| - 1;
      var init := lines[..n];
      PruneIndentedSpec(init, indent);
      assert forall i | 0 <= i < n :: init[i] == lines[i];
      if PruneIndented(lines, indent).Some? {
        var line := lines[n];
        if StartsWith(line, indent) {
          assert line == indent + line[|indent|..];
        }
      }
    }
  }

  /** Once a prefix fails to prune, the whole block does. */
  lemma {:induction false} PruneNonePrefix(lines: seq<string>, indent: string, k: nat)
    requires k <= |lines| && PruneIndented(lines[..k], indent).None?
    ensures PruneIndented(lines, indent).None?
  {
    if k < |lines| {
      var n := |lines| - 1;
      assert lines[..n][..k] == lines[..k];
      PruneNonePrefix(lines[..n], indent, k);
    } else {
      assert lines[..k] == lines;
    }
  }

  /**
   * `_unpack_embedded_commits` for one message: the message itself when it holds
   * no embedded commit or its block is not consistently indented; otherwise the
   * commits parsed from the de-indented text from the block on.
   */
  function UnpackOne(m: CommitMessage): Result<seq<CommitMessage>>
  {
    match SearchEmbeddedCommit(m.message, 0)
    case None => Ok([m])
    case Some(found) => UnpackAt(m, found.0, found.1)
  }

  /** The message unpacked from the block that starts at `start` with an indent of `width`. */
  function UnpackAt(m: CommitMessage, start: nat, width: nat): Result<seq<CommitMessage>>
    requires start + width <= |m.message|
  {
    UnpackPruned(m, PruneIndented(SplitOn(m.message[start..], '\n'), m.message[start..start + width]))
  }

  /** What the de-indented block makes of the message: itself when the block broke off, else its commits. */
  function UnpackPruned(m: CommitMessage, pruned: Option<seq<string>>): Result<seq<CommitMessage>>
  {
    match pruned
    case None => Ok([m])
    case Some(lines) => if lines == [] then Ok([]) else ListFromResult(Join(lines, "\n"))
  }

  /** `_unpack_embedded_commits`: every message unpacked in order; the first parse failure raises. */
  function UnpackAll(msgs: seq<CommitMessage>): Result<seq<CommitMessage>>
  {
    CollectConcat(seq(|msgs|, i requires 0 <= i < |msgs| => UnpackOne(msgs[i])))
  }

  /** A list without embedded commits is left exactly as it is. */
  lemma UnpackAllPlain(msgs: seq<CommitMessage>)
    requires forall m | m in msgs :: !HasEmbeddedCommit(m)
    ensures UnpackAll(msgs) == Ok(msgs)
  {
    var rs := seq(|msgs|, i requires 0 <= i < |msgs| => UnpackOne(msgs[i]));
    forall i | 0 <= i < |msgs| ensures rs[i] == Ok([msgs[i]]) {
      assert msgs[i] in msgs;
    }
    CollectConcatSingles(rs, msgs);
  }

  /** Unpacking only raises when the commits parsed from some embedded block do. */
  lemma UnpackAllRaises(msgs: seq<CommitMessage>)
    ensures UnpackAll(msgs).Raise? ==> exists i | 0 <= i < |msgs| :: UnpackOne(msgs[i]).Raise? && HasEmbeddedCommit(msgs[i])
  {
    var rs := seq(|msgs|, i requires 0 <= i < |msgs| => UnpackOne(msgs[i]));
    CollectConcatOk(rs);
    if UnpackAll(msgs).Raise? {
      var i :| 0 <= i < |msgs| && !rs[i].Ok?;
      assert UnpackOne(msgs[i]).Raise?;
    }
  }

  /** The de-indenting loop of `_unpack_embedded_commits`; None when it breaks. */
  method PruneBlock(textLines: seq<string>, indent: string) returns (pruned: Option<seq<string>>)
    ensures pruned == PruneIndented(textLines, indent)
  {
    var lines: seq<string> := [];
    var i := 0;
    while i < |textLines|
      invariant 0 <= i <= |textLines|
      invariant PruneIndented(textLines[..i], indent) == Some(lines)
    {
      var line := textLines[i];
      assert textLines[..i + 1][..i] == textLines[..i];
      if StartsWith(line, indent) {
        lines := lines + [line[|indent|..]];
      } else if line == "" {
        lines := lines + [line];
      } else {
        PruneNonePrefix(textLines, indent, i + 1);
        return None;
      }
      i := i + 1;
    }
    assert textLines[..i] == textLines;
    return Some(lines);
  }

  lemma UnpackOneFound(m: CommitMessage, start: nat, width: nat)
    requires SearchEmbeddedCommit(m.message, 0) == Some((start, width))
    ensures start + width <= |m.message|
    ensures UnpackOne(m) == UnpackAt(m, start, width)
  {
  }

  /** The body of the `_unpack_embedded_commits` loop for one message. */
  method UnpackMessage(m: CommitMessage) returns (more: Result<seq<CommitMessage>>)
    ensures more == UnpackOne(m)
  {
    var text := m.message;
    var found := SearchEmbeddedCommit(text, 0);
    if found.None? {
      return Ok([m]);
    }
    var (start, width) := found.value;
    UnpackOneFound(m, start, width);
    more := UnpackBlock(m, start, width);
  }

  /** The de-indented block at `start` and what the message becomes from it. */
  method UnpackBlock(m: CommitMessage, start: nat, width: nat) returns (more: Result<seq<CommitMessage>>)
    requires start + width <= |m.message|
    ensures more == UnpackAt(m, start, width)
  {
    var text := m.message;
    var pruned := PruneBlock(SplitOn(text[start..], '\n'), text[start..start + width]);
    assert UnpackAt(m, start, width) == UnpackPruned(m, pruned);
    if pruned.None? {
      more := Ok([m]);
    } else if pruned.value == [] {
      more := Ok([]);
    } else {
      more := MakeListFromResult(Join(pruned.value, "\n"));
    }
  }

  /**
   * `_unpack_embedded_commits`: a message holding an indented `commit/Author/Date`
   * block is replaced by the commits parsed from the de-indented text from that
   * block on; a block with a line that is neither indented nor empty leaves the
   * message as it is.
   */
  method UnpackEmbeddedCommits(msgs: seq<CommitMessage>) returns (r: Result<seq<CommitMessage>>)
    ensures r == UnpackAll(msgs)
  {
    ghost var rs := seq(|msgs|, i requires 0 <= i < |msgs| => UnpackOne(msgs[i]));
    assert UnpackAll(msgs) == CollectConcat(rs);
    var result: seq<CommitMessage> := [];
    var n := 0;
    while n < |msgs|
      invariant 0 <= n <= |msgs|
      invariant CollectConcat(rs[..n]) == Ok(result)
    {
      var more := UnpackMessage(msgs[n]);
      assert rs[n] == more;
      CollectConcatAdvance(rs, n, result);
      if more.Raise? {
        return Raise(more.error);
      }
      result := result + more.value;
      n := n + 1;
    }
    assert rs[..n] == rs;
    return Ok(result);
  }

  // ---------------------------------------------------------------- embedded summaries

  /**
   * `_EMBEDDED_SUMMARY_MATCHER.match(line)` for `^\s*(?:\*\s*)?[a-z]+\(.+?\): .+`:
   * optional bullet, a lower-case word, '(' and at least one character, then
   * "): " followed by at least one more character.
   */
  predicate IsSummaryLine(line: string)
  {
    var t := LStrip(line);
    var u := if t != [] && t[0] == '*' then LStrip(t[1..]) else t;
    var w := Span(u, 0, LowerLetters);
    var j := FindFrom(u, "): ", w + 2);
    w > 0 && w < |u| && u[w] == '(' && j != -1 && j + 3 < |u|
  }

  /** Which lines are summary lines. */
  function SummaryFlags(lines: seq<string>): (r: seq<bool>)
    ensures |r| == |lines|
  {
    seq(|lines|, i requires 0 <= i < |lines| => IsSummaryLine(lines[i]))
  }

  /** The first flagged index at or after `i`, or |flags|. */
  function NextFlagged(flags: seq<bool>, i: nat): (j: nat)
    requires i <= |flags|
    ensures i <= j <= |flags|
    ensures forall k | i <= k < j :: !flags[k]
    ensures j < |flags| ==> flags[j]
    decreases |flags| - i
  {
    if i == |flags| || flags[i] then i else NextFlagged(flags, i + 1)
  }

  /** The blocks that start at summary line `start` and at each later one. */
  function BlocksFrom(lines: seq<string>, flags: seq<bool>, start: nat): (r: seq<string>)
    requires |flags| == |lines| && start < |lines|
    ensures |r| >= 1
    decreases |lines| - start
  {
    var e := NextFlagged(flags, start + 1);
    [RStrip(Join(lines[start..e], "\n"))] + (if e < |lines| then BlocksFrom(lines, flags, e) else [])
  }

  /**
   * The texts a message splits into: one block per summary line, each running
   * to the next summary line; the whole text when there is no summary line.
   */
  function SummaryTexts(lines: seq<string>): (r: seq<string>)
    ensures |r| >= 1
  {
    var flags := SummaryFlags(lines);
    var f := NextFlagged(flags, 0);
    if f == |lines| then [RStrip(Join(lines, "\n"))] else BlocksFrom(lines, flags, f)
  }

  /** A block runs from its summary line to the next one. */
  lemma BlocksFromStep(lines: seq<string>, flags: seq<bool>, prev: nat, index: nat)
    requires |flags| == |lines| && prev < index < |lines| && flags[index]
    requires NextFlagged(flags, prev + 1) >= index
    ensures BlocksFrom(lines, flags, prev)
         == [RStrip(Join(lines[prev..index], "\n"))] + BlocksFrom(lines, flags, index)
  {
    assert NextFlagged(flags, prev + 1) == index;
  }

  /** The block of the last summary line runs to the end. */
  lemma BlocksFromLast(lines: seq<string>, flags: seq<bool>, prev: nat)
    requires |flags| == |lines| && prev < |lines| && NextFlagged(flags, prev + 1) >= |lines|
    ensures BlocksFrom(lines, flags, prev) == [RStrip(Join(lines[prev..], "\n"))]
  {
    assert lines[prev..|lines|] == lines[prev..];
  }

  /** With a first summary line at `index`, the texts are the blocks from there on. */
  lemma SummaryTextsFirst(lines: seq<string>, index: nat)
    requires index < |lines| && SummaryFlags(lines)[index]
    requires NextFlagged(SummaryFlags(lines), 0) >= index
    ensures SummaryTexts(lines) == BlocksFrom(lines, SummaryFlags(lines), index)
  {
    assert NextFlagged(SummaryFlags(lines), 0) == index;
  }

  /** Without a summary line the text is kept whole. */
  lemma SummaryTextsNone(lines: seq<string>)
    requires NextFlagged(SummaryFlags(lines), 0) >= |lines|
    ensures SummaryTexts(lines) == [RStrip(Join(lines[0..], "\n"))]
  {
    assert lines[0..] == lines;
  }

  /** The number of flagged indices at or after `i`. */
  function CountFlagged(flags: seq<bool>, i: nat): nat
    requires i <= |flags|
    decreases |flags| - i
  {
    if i == |flags| then 0 else (if flags[i] then 1 else 0) + CountFlagged(flags, i + 1)
  }

  lemma {:induction false} CountSkips(flags: seq<bool>, i: nat, j: nat)
    requires i <= j <= |flags|
    requires forall k | i <= k < j :: !flags[k]
    ensures CountFlagged(flags, i) == CountFlagged(flags, j)
    decreases j - i
  {
    if i < j { CountSkips(flags, i + 1, j); }
  }

  lemma {:induction false} BlocksFromCount(lines: seq<string>, flags: seq<bool>, start: nat)
    requires |flags| == |lines| && start < |lines| && flags[start]
    ensures |BlocksFrom(lines, flags, start)| == CountFlagged(flags, start)
    decreases |lines| - start
  {
    var e := NextFlagged(flags, start + 1);
    CountSkips(flags, start + 1, e);
    if e < |lines| { BlocksFromCount(lines, flags, e); }
  }

  /** One text per summary line, or the whole text when there is none. */
  lemma SummaryTextsCount(lines: seq<string>)
    ensures var c := CountFlagged(SummaryFlags(lines), 0);
      |SummaryTexts(lines)| == (if c == 0 then 1 else c)
  {
    var flags := SummaryFlags(lines);
    var f := NextFlagged(flags, 0);
    CountSkips(flags, 0, f);
    if f < |lines| { BlocksFromCount(lines, flags, f); }
  }

  function WithText(m: CommitMessage, texts: seq<string>): (r: seq<CommitMessage>)
    ensures |r| == |texts|
    ensures forall i | 0 <= i < |r| :: r[i] == m.(message := texts[i])
  {
    if texts == [] then [] else [m.(message := texts[0])] + WithText(m, texts[1..])
  }

  /** The messages one commit message unpacks into. */
  function SummaryMessages(m: CommitMessage): seq<CommitMessage>
  {
    WithText(m, SummaryTexts(SplitOn(m.message, '\n')))
  }

  function UnpackedSummaries(msgs: seq<CommitMessage>): seq<CommitMessage>
  {
    if msgs == [] then [] else UnpackedSummaries(msgs[..|msgs| - 1]) + SummaryMessages(msgs[|msgs| - 1])
  }

  /** `_unpack_embedded_summaries` for one message: split at each summary line. */
  method SplitAtSummaries(m: CommitMessage) returns (parts: seq<CommitMessage>)
    ensures parts == SummaryMessages(m)
  {
    var texts := SummaryBlocks(SplitOn(m.message, '\n'));
    return WithText(m, texts);
  }

  /** The loop over the lines: a block is closed at each summary line after the first, and at the end. */
  method SummaryBlocks(lines: seq<string>) returns (texts: seq<string>)
    ensures texts == SummaryTexts(lines)
  {
    ghost var flags := SummaryFlags(lines);
    texts := [];
    var prev := -1;
    var index := 0;
    while index < |lines|
      invariant 0 <= index <= |lines|
      invariant BlocksSoFar(lines, texts, prev, index)
    {
      texts, prev := SummaryStep(lines, texts, prev, index);
      index := index + 1;
    }
    if prev < 0 {
      SummaryTextsNone(lines);
      prev := 0;
    } else {
      BlocksFromLast(lines, flags, prev);
    }
    texts := texts + [RStrip(Join(lines[prev..], "\n"))];
  }

  /**
   * What the loop over the lines knows before line `index`: `prev` is the last
   * summary line so far (-1 when none), and the closed blocks followed by the
   * blocks from `prev` on are all the texts.
   */
  ghost predicate BlocksSoFar(lines: seq<string>, texts: seq<string>, prev: int, index: nat)
  {
    var flags := SummaryFlags(lines);
    && index <= |lines| && -1 <= prev < index
    && (prev == -1 ==> texts == [] && NextFlagged(flags, 0) >= index)
    && (prev >= 0 ==> flags[prev] && NextFlagged(flags, prev + 1) >= index
                      && texts + BlocksFrom(lines, flags, prev) == SummaryTexts(lines))
  }

  /** One pass of the loop: a summary line closes the open block, if any, and opens its own. */
  method SummaryStep(lines: seq<string>, texts: seq<string>, prev: int, index: nat) returns (texts': seq<string>, prev': int)
    requires index < |lines| && BlocksSoFar(lines, texts, prev, index)
    ensures BlocksSoFar(lines, texts', prev', index + 1)
  {
    ghost var flags := SummaryFlags(lines);
    texts', prev' := texts, prev;
    assert flags[index] == IsSummaryLine(lines[index]);
    if IsSummaryLine(lines[index]) {
      if prev >= 0 {
        var block := RStrip(Join(lines[prev..index], "\n"));
        BlocksAdvance(texts, lines, flags, prev, index, SummaryTexts(lines));
        texts' := texts + [block];
      } else {
        SummaryTextsFirst(lines, index);
        assert texts + BlocksFrom(lines, flags, index) == BlocksFrom(lines, flags, index);
      }
      prev' := index;
    } else if prev >= 0 {
      assert NextFlagged(flags, prev + 1) != index;
    }
  }

  /** Closing the block of `prev` at the next summary line keeps the texts on course. */
  lemma BlocksAdvance(texts: seq<string>, lines: seq<string>, flags: seq<bool>, prev: nat, index: nat, all: seq<string>)
    requires |flags| == |lines| && prev < index < |lines| && flags[index]
    requires NextFlagged(flags, prev + 1) >= index
    requires texts + BlocksFrom(lines, flags, prev) == all
    ensures (texts + [RStrip(Join(lines[prev..index], "\n"))]) + BlocksFrom(lines, flags, index) == all
  {
    BlocksFromStep(lines, flags, prev, index);
    BlockShift(texts, RStrip(Join(lines[prev..index], "\n")), BlocksFrom(lines, flags, index), BlocksFrom(lines, flags, prev));
  }

  lemma BlockShift(texts: seq<string>, block: string, rest: seq<string>, whole: seq<string>)
    requires whole == [block] + rest
    ensures texts + whole == (texts + [block]) + rest
  {
  }

  /**
   * `_unpack_embedded_summaries`: each message yields at least one message,
   * every one of them carrying the source message's id, author and date.
   */
  method UnpackEmbeddedSummaries(msgs: seq<CommitMessage>) returns (result: seq<CommitMessage>)
    ensures result == UnpackedSummaries(msgs)
  {
    result := [];
    var n := 0;
    while n < |msgs|
      invariant 0 <= n <= |msgs|
      invariant result == UnpackedSummaries(msgs[..n])
    {
      var parts := SplitAtSummaries(msgs[n]);
      assert msgs[..n + 1][..n] == msgs[..n];
      result := result + parts;
      n := n + 1;
    }
    assert msgs[..n] == msgs;
  }

  /** What the unpacking keeps: metadata from the inputs, and at least one message per input. */
  lemma {:induction false} UnpackedSummariesKeepMetadata(msgs: seq<CommitMessage>)
    ensures |UnpackedSummaries(msgs)| >= |msgs|
    ensures forall r | r in UnpackedSummaries(msgs) ::
      exists m | m in msgs :: r.commitId == m.commitId && r.author == m.author && r.date == m.date
  {
    if msgs != [] {
      var init, last := msgs[..|msgs| - 1], msgs[|msgs| - 1];
      UnpackedSummariesKeepMetadata(init);
      forall r | r in UnpackedSummaries(msgs)
        ensures exists m | m in msgs :: r.commitId == m.commitId && r.author == m.author && r.date == m.date
      {
        if r in UnpackedSummaries(init) {
          var m :| m in init && r.commitId == m.commitId && r.author == m.author && r.date == m.date;
          assert m in msgs;
        } else {
          assert r in SummaryMessages(last);
          assert last in msgs;
        }
      }
    }
  }

  /** `normalize_message_list`: embedded commits first, then embedded summaries. */
  method NormalizeMessageList(msgs: seq<CommitMessage>) returns (r: Result<seq<CommitMessage>>)
    ensures r == match UnpackAll(msgs) case Raise(e) => Raise(e) case Ok(c) => Ok(UnpackedSummaries(c))
  {
    var commits := UnpackEmbeddedCommits(msgs);
    if commits.Raise? {
      return Raise(commits.error);
    }
    var summaries := UnpackEmbeddedSummaries(commits.value);
    return Ok(summaries);
  }

  // ---------------------------------------------------------------- semver implication

  /** The conventional-commit type words that imply a patch release. */
  const PatchWords: seq<string> := ["fix", "bug", "doc", "docs", "test"]
  /** The type words that imply a minor release. */
  const MinorWords: seq<string> := ["feat", "feature", "chore", "refactor", "perf", "config"]

  /** `(?:<words>)[\(:]` at the start of `t`: one of `words` followed by '(' or ':'. */
  predicate StartsWithTypeWord(t: string, words: seq<string>)
  {
    words != []
    && (StartsWith(t, words[0] + "(") || StartsWith(t, words[0] + ":") || StartsWithTypeWord(t, words[1..]))
  }

  /** One line matches `^\s*(?:\*\s+)?(?:<words>)[\(:]`. */
  predicate LineLeadsWith(line: string, words: seq<string>)
  {
    var t := LStrip(line);
    StartsWithTypeWord(t, words)
    || (|t| >= 2 && t[0] == '*' && IsSpace(t[1]) && StartsWithTypeWord(LStrip(t[1..]), words))
  }

  /** Some line of `lines` leads with one of `words`. */
  predicate AnyLineLeadsWith(lines: seq<string>, words: seq<string>)
  {
    lines != [] && (LineLeadsWith(lines[0], words) || AnyLineLeadsWith(lines[1..], words))
  }

  /** `DEFAULT_MAJOR_REGEXS` match: some line holds "BREAKING CHANGE". */
  predicate IsMajorMessage(message: string) { Contains(Strip(message), "BREAKING CHANGE") }
  /** `DEFAULT_MINOR_REGEXS` match. */
  predicate IsMinorMessage(message: string) { AnyLineLeadsWith(SplitOn(Strip(message), '\n'), MinorWords) }
  /** `DEFAULT_PATCH_REGEXS` match. */
  predicate IsPatchMessage(message: string) { AnyLineLeadsWith(SplitOn(Strip(message), '\n'), PatchWords) }

  /** `determine_semver_implication` with the default patterns and the default MINOR index. */
  function SemverImplication(m: CommitMessage): (r: nat)
    ensures MajorIndex <= r <= PatchIndex
  {
    if IsMajorMessage(m.message) then MajorIndex
    else if IsMinorMessage(m.message) then MinorIndex
    else if IsPatchMessage(m.message) then PatchIndex
    else MinorIndex
  }

  /**
   * The major patterns win over the minor ones and those over the patch ones;
   * a message matching none implies the default, MINOR.
   */
  lemma SemverImplicationSpec(m: CommitMessage)
    ensures var r := SemverImplication(m);
      && (r == MajorIndex <==> IsMajorMessage(m.message))
      && (r == MinorIndex <==> !IsMajorMessage(m.message) && (IsMinorMessage(m.message) || !IsPatchMessage(m.message)))
      && (r == PatchIndex <==> !IsMajorMessage(m.message) && !IsMinorMessage(m.message) && IsPatchMessage(m.message))
  {
  }

  /** The smallest of a non-empty list of indices. */
  function MinOf(xs: seq<nat>): nat
    requires xs != []
  {
    if |xs| == 1 then xs[0]
    else
      var rest := MinOf(xs[..|xs| - 1]);
      if xs[|xs| - 1] < rest then xs[|xs| - 1] else rest
  }

  /** `MinOf` is an element of the list and no element is smaller. */
  lemma {:induction false} MinOfIsMin(xs: seq<nat>)
    requires xs != []
    ensures exists i | 0 <= i < |xs| :: MinOf(xs) == xs[i]
    ensures forall i | 0 <= i < |xs| :: MinOf(xs) <= xs[i]
  {
    var n := |xs| - 1;
    if n == 0 {
      assert MinOf(xs) == xs[0];
    } else {
      var init := xs[..n];
      MinOfIsMin(init);
      var i :| 0 <= i < n && MinOf(init) == init[i];
      assert init[i] == xs[i];
      forall j | 0 <= j < n ensures MinOf(xs) <= xs[j] {
        assert init[j] == xs[j];
      }
      if xs[n] < MinOf(init) {
        assert MinOf(xs) == xs[n];
      } else {
        assert MinOf(xs) == xs[i];
      }
    }
  }

  /** The implication of each message, in order. */
  function Implications(msgs: seq<CommitMessage>): (r: seq<nat>)
    ensures |r| == |msgs|
    ensures forall i | 0 <= i < |msgs| :: r[i] == SemverImplication(msgs[i])
  {
    if msgs == [] then [] else Implications(msgs[..|msgs| - 1]) + [SemverImplication(msgs[|msgs| - 1])]
  }

  /** The smallest implication over a non-empty list: the most significant bump any message needs. */
  function ListImplication(msgs: seq<CommitMessage>): (r: nat)
    requires msgs != []
    ensures MajorIndex <= r <= PatchIndex
  {
    var xs := Implications(msgs);
    MinOfIsMin(xs);
    MinOf(xs)
  }

  /** The list implication is the minimum of the messages' implications. */
  lemma ListImplicationIsMin(msgs: seq<CommitMessage>)
    requires msgs != []
    ensures exists i | 0 <= i < |msgs| :: ListImplication(msgs) == SemverImplication(msgs[i])
    ensures forall i | 0 <= i < |msgs| :: ListImplication(msgs) <= SemverImplication(msgs[i])
  {
    var xs := Implications(msgs);
    MinOfIsMin(xs);
    var i :| 0 <= i < |xs| && MinOf(xs) == xs[i];
    assert ListImplication(msgs) == SemverImplication(msgs[i]);
    forall j | 0 <= j < |msgs| ensures ListImplication(msgs) <= SemverImplication(msgs[j]) {
      assert xs[j] == SemverImplication(msgs[j]);
    }
  }

  /** Reordering the commits does not change the implication. */
  lemma ListImplicationOrderFree(a: seq<CommitMessage>, b: seq<CommitMessage>)
    requires a != [] && multiset(a) == multiset(b)
    ensures b != [] && ListImplication(a) == ListImplication(b)
  {
    assert b != [] by { assert |b| == |multiset(b)| == |multiset(a)| == |a|; }
    ListImplicationIsMin(a);
    ListImplicationIsMin(b);
    var i :| 0 <= i < |a| && ListImplication(a) == SemverImplication(a[i]);
    var j :| 0 <= j < |b| && ListImplication(b) == SemverImplication(b[j]);
    assert a[i] in multiset(b);
    var i' :| 0 <= i' < |b| && b[i'] == a[i];
    assert b[j] in multiset(a);
    var j' :| 0 <= j' < |a| && a[j'] == b[j];
  }

  /** `determine_semver_implication_on_list`: None for no messages, else the running minimum. */
  method ImplicationOnList(msgs: seq<CommitMessage>) returns (r: Option<nat>)
    ensures r.None? <==> msgs == []
    ensures r.Some? ==> r.value == ListImplication(msgs)
  {
    if msgs == [] {
      return None;
    }
    var msi := PatchIndex + 1;
    var n := 0;
    while n < |msgs|
      invariant 0 <= n <= |msgs|
      invariant n == 0 ==> msi == PatchIndex + 1
      invariant n > 0 ==> msi == ListImplication(msgs[..n])
    {
      var implied := SemverImplication(msgs[n]);
      ghost var xs := Implications(msgs[..n + 1]);
      assert msgs[..n + 1][..n] == msgs[..n];
      assert xs == Implications(msgs[..n]) + [implied];
      if n == 0 {
        assert MinOf(xs) == implied;
      } else {
        assert xs[..n] == Implications(msgs[..n]);
      }
      msi := if implied < msi then implied else msi;
      n := n + 1;
    }
    assert msgs[..n] == msgs;
    return Some(msi);
  }

  // ================================================================ summary selection

  /** `RepositorySummary`: HEAD commit, tag and version to use, and the commits since the tag. */
  datatype RepositorySummary = RepositorySummary(commitId: string, tag: string, version: string, commitMessages: seq<CommitMessage>)

  /** `^version-[0-9]+\.[0-9]+\.[0-9]+$`: the tag pattern `collect_repository_summary` queries. */
  predicate IsVersionTag(tag: string)
  {
    StartsWith(tag, "version-") && IsNumberTriple(tag[8..])
  }

  /** `[0-9]+\.[0-9]+\.[0-9]+` as the whole text. */
  predicate IsNumberTriple(t: string)
  {
    var parts := SplitOn(t, '.');
    |parts| == 3 && forall p | p in parts :: p != "" && AllDigits(p)
  }

  /** The tags that match the version pattern, in their order. */
  function VersionTagsOf(tags: seq<CommitTag>): (r: seq<CommitTag>)
    ensures forall t :: t in r <==> t in tags && IsVersionTag(t.tag)
  {
    if tags == [] then []
    else (if IsVersionTag(tags[0].tag) then [tags[0]] else []) + VersionTagsOf(tags[1..])
  }

  /**
   * `query_tag_commits` on the `git show-ref --tags` output: every line made a
   * `CommitTag` (the first malformed line raises), the version tags kept and
   * sorted most recent first.
   */
  function TagCommits(refText: string): Result<seq<CommitTag>>
  {
    var lines := SplitOn(refText, '\n');
    match Collect(ParsedTags(lines))
    case Raise(e) => Raise(e)
    case Ok(tags) => Ok(SortDescBy(VersionTagsOf(tags), TagKey))
  }

  /** The parsed `show-ref` lines. */
  function ParsedTags(lines: seq<string>): (r: seq<Result<CommitTag>>)
    ensures |r| == |lines|
  {
    seq(|lines|, i requires 0 <= i < |lines| => MakeCommitTag(lines[i]))
  }

  /** The tag query raises IndexError exactly when some line has no blank. */
  lemma TagCommitsRaises(refText: string)
    ensures TagCommits(refText).Raise? <==> exists line | line in SplitOn(refText, '\n') :: ' ' !in line
    ensures TagCommits(refText).Raise? ==> TagCommits(refText).error.IndexError?
  {
    ParsedTagsRaise(SplitOn(refText, '\n'));
  }

  /** Parsing `show-ref` lines fails, with IndexError, exactly when some line has no blank. */
  lemma ParsedTagsRaise(lines: seq<string>)
    ensures Collect(ParsedTags(lines)).Raise? <==> exists line | line in lines :: ' ' !in line
    ensures Collect(ParsedTags(lines)).Raise? ==> Collect(ParsedTags(lines)).error.IndexError?
  {
    var rs := ParsedTags(lines);
    CollectSpec(rs);
    if Collect(rs).Raise? {
      var i :| 0 <= i < |rs| && rs[i] == Raise(Collect(rs).error);
      assert rs[i] == MakeCommitTag(lines[i]);
      MakeCommitTagRaises(lines[i]);
      assert 0 <= i < |lines| && ' ' !in lines[i];
      assert lines[i] in lines;
    } else {
      forall line | line in lines ensures ' ' in line {
        var i :| 0 <= i < |lines| && lines[i] == line;
        assert rs[i].Ok?;
        MakeCommitTagRaises(lines[i]);
      }
    }
  }

  /** The queried tags are version tags, greatest first. */
  lemma TagCommitsOrdered(refText: string)
    ensures TagCommits(refText).Ok? ==>
      var r := TagCommits(refText).value;
      && (forall i, j | 0 <= i < j < |r| :: LessEq(r[j].tag, r[i].tag))
      && (forall t | t in r :: IsVersionTag(t.tag))
  {
    var rs := ParsedTags(SplitOn(refText, '\n'));
    if Collect(rs).Ok? {
      var kept := VersionTagsOf(Collect(rs).value);
      SortDescBySpec(kept, TagKey);
      var r := SortDescBy(kept, TagKey);
      assert TagCommits(refText).value == r;
      SameMembers(r, kept);
      forall i, j | 0 <= i < j < |r| ensures LessEq(r[j].tag, r[i].tag) {
        assert LessEq(TagKey(r[j]), TagKey(r[i]));
      }
    }
  }

  /** Every line that parses to a version tag is among the queried tags. */
  lemma TagCommitsComplete(refText: string)
    ensures var lines := SplitOn(refText, '\n');
      TagCommits(refText).Ok? ==> forall i | 0 <= i < |lines| ::
        MakeCommitTag(lines[i]).Ok? && (IsVersionTag(MakeCommitTag(lines[i]).value.tag)
          ==> MakeCommitTag(lines[i]).value in TagCommits(refText).value)
  {
    var lines := SplitOn(refText, '\n');
    var rs := ParsedTags(lines);
    if Collect(rs).Ok? {
      CollectSpec(rs);
      var tags := Collect(rs).value;
      var kept := VersionTagsOf(tags);
      SortDescBySpec(kept, TagKey);
      var r := SortDescBy(kept, TagKey);
      assert TagCommits(refText).value == r;
      SameMembers(r, kept);
      forall i | 0 <= i < |lines| ensures MakeCommitTag(lines[i]).Ok? {
        assert rs[i] == MakeCommitTag(lines[i]);
      }
      forall i | 0 <= i < |lines| && IsVersionTag(MakeCommitTag(lines[i]).value.tag)
        ensures MakeCommitTag(lines[i]).value in r
      {
        assert rs[i] == MakeCommitTag(lines[i]);
        assert tags[i] in tags;
      }
    }
  }

  /** The tag a `git log --pretty=oneline` line's commit id carries, if any. */
  function LineTag(idToTag: map<string, string>, line: string): Option<string>
  {
    var id := Before(line, ' ');
    if id in idToTag then Some(idToTag[id]) else None
  }

  /** A line whose tag is missing or empty does not stop the scan. */
  predicate Untagged(idToTag: map<string, string>, line: string)
  {
    LineTag(idToTag, line).None? || LineTag(idToTag, line) == Some("")
  }

  /**
   * The tag the `git log --pretty=oneline` scan settles on: the tag of the first
   * line whose id carries a non-empty tag, else the last line's tag, missing or
   * empty; no lines give no tag.
   */
  function BaselineTag(idToTag: map<string, string>, logLines: seq<string>): Option<string>
  {
    if logLines == [] then None
    else if !Untagged(idToTag, logLines[0]) || |logLines| == 1 then LineTag(idToTag, logLines[0])
    else BaselineTag(idToTag, logLines[1..])
  }

  /**
   * The line that decides the baseline: the first one with a non-empty tag, or
   * the last one when every line before it is untagged.
   */
  lemma {:induction false} BaselineTagAt(idToTag: map<string, string>, logLines: seq<string>, k: nat)
    requires k < |logLines|
    requires forall i | 0 <= i < k :: Untagged(idToTag, logLines[i])
    requires !Untagged(idToTag, logLines[k]) || k == |logLines| - 1
    ensures BaselineTag(idToTag, logLines) == LineTag(idToTag, logLines[k])
  {
    if k > 0 {
      assert Untagged(idToTag, logLines[0]);
      var rest := logLines[1..];
      forall i | 0 <= i < k - 1 ensures Untagged(idToTag, rest[i]) {
        assert rest[i] == logLines[i + 1];
      }
      assert rest[k - 1] == logLines[k];
      BaselineTagAt(idToTag, rest, k - 1);
    }
  }

  /**
   * The `git log --pretty=oneline` scan: count the commits before the first one
   * whose id carries a non-empty tag. When the scan runs out, the last line's
   * tag decides: none raises ValueError, an empty one is returned as it is.
   */
  method CountCommitsToTag(idToTag: map<string, string>, logLines: seq<string>) returns (r: Result<(string, nat)>)
    ensures r.Ok? ==> r.value.1 <= |logLines|
    ensures r.Ok? ==> forall i | 0 <= i < r.value.1 :: Untagged(idToTag, logLines[i])
    ensures r.Ok? && r.value.1 < |logLines| ==>
      r.value.0 != "" && LineTag(idToTag, logLines[r.value.1]) == Some(r.value.0)
    ensures r.Ok? && r.value.1 == |logLines| ==>
      r.value.0 == "" && |logLines| > 0 && LineTag(idToTag, logLines[|logLines| - 1]) == Some("")
    ensures r.Raise? <==> (forall i | 0 <= i < |logLines| :: Untagged(idToTag, logLines[i]))
                          && (|logLines| == 0 || LineTag(idToTag, logLines[|logLines| - 1]).None?)
    ensures r.Raise? ==> r.error.ValueError?
    ensures r.Raise? <==> BaselineTag(idToTag, logLines).None?
    ensures r.Ok? ==> BaselineTag(idToTag, logLines) == Some(r.value.0)
  {
    var tag: Option<string> := None;
    var count := 0;
    var n := 0;
    while n < |logLines|
      invariant 0 <= count == n <= |logLines|
      invariant forall i | 0 <= i < count :: Untagged(idToTag, logLines[i])
      invariant n == 0 ==> tag.None?
      invariant n > 0 ==> tag == LineTag(idToTag, logLines[n - 1])
    {
      var lineId := Before(logLines[n], ' ');
      tag := if lineId in idToTag then Some(idToTag[lineId]) else None;
      if tag.Some? && tag.value != "" {
        BaselineTagAt(idToTag, logLines, count);
        return Ok((tag.value, count));
      }
      count := count + 1;
      n := n + 1;
    }
    if n > 0 {
      BaselineTagAt(idToTag, logLines, n - 1);
    }
    if tag.None? {
      return Raise(ValueError("There is no baseline tag"));
    }
    return Ok((tag.value, count));
  }

  /**
   * `query_local_repository_commits_to_existing_tag_from_id`, with the two
   * `git log` outputs given: a commit that carries a tag needs no log and has
   * no messages; otherwise the tag is found by the oneline scan and the
   * messages are parsed from the medium log.
   */
  method CommitsToExistingTag(commitId: string, commitTags: seq<CommitTag>, onelineLog: string, mediumLog: string)
    returns (r: Result<(string, seq<CommitMessage>)>)
    ensures (exists t | t in commitTags :: t.commitId == commitId) ==>
      && r.Ok? && r.value.1 == []
      && (exists t | t in commitTags :: t.commitId == commitId && t.tag == r.value.0)
      && (forall t | t in commitTags && t.commitId == commitId :: LessEq(t.tag, r.value.0))
    ensures (forall t | t in commitTags :: t.commitId != commitId) ==>
      var baseline := BaselineTag(NewestTags(commitTags), SplitOn(onelineLog, '\n'));
      && (r.Raise? <==> baseline.None? || ListFromResult(mediumLog).Raise?)
      && (r.Raise? && baseline.None? ==> r.error.ValueError?)
      && (r.Raise? && baseline.Some? ==> r.error == ListFromResult(mediumLog).error)
      && (r.Ok? ==> baseline == Some(r.value.0) && ListFromResult(mediumLog) == Ok(r.value.1))
  {
    var idToTag := IdToNewestTag(commitTags);
    if commitId in idToTag {
      return Ok((idToTag[commitId], []));
    }
    var scan := CountCommitsToTag(idToTag, SplitOn(onelineLog, '\n'));
    if scan.Raise? {
      return Raise(scan.error);
    }
    var messages := MakeListFromResult(mediumLog);
    if messages.Raise? {
      return Raise(messages.error);
    }
    return Ok((scan.value.0, messages.value));
  }

  /**
   * The tag/version choice of `collect_repository_summary`: with no commits
   * since the tag, the tag and its version are kept; otherwise the version is
   * bumped by the list implication.
   */
  method CollectRepositorySummary(currentId: string, tag: string, msgs: seq<CommitMessage>)
    returns (r: Result<RepositorySummary>)
    ensures r.Ok? <==> MakeSemanticVersion(tag).Ok?
    ensures r.Ok? ==> r.value.commitId == currentId && r.value.commitMessages == msgs
    ensures r.Ok? && msgs == [] ==> r.value.tag == tag && r.value.version == ToVersion(MakeSemanticVersion(tag).value)
    ensures r.Ok? && msgs != [] ==>
      var next := Next(MakeSemanticVersion(tag).value, Some(ListImplication(msgs)));
      next.Ok? && r.value.tag == ToTag(next.value) && r.value.version == ToVersion(next.value)
  {
    var current := MakeSemanticVersion(tag);
    if current.Raise? {
      return Raise(current.error);
    }
    if msgs != [] {
      var significance := ImplicationOnList(msgs);
      var next := Next(current.value, significance);
      return Ok(RepositorySummary(currentId, ToTag(next.value), ToVersion(next.value), msgs));
    }
    return Ok(RepositorySummary(currentId, tag, ToVersion(current.value), msgs));
  }
}
