/**
 * Release changelogs from dev/buildtool/changelog_commands.py: the title
 * scanners, the partition of a repository's commit messages into sections by
 * type of change, the grouping of each section by affected component, and the
 * `ChangelogBuilder` that collects repositories and renders the markdown.
 */
module Changelog {
  import opened Wrappers
  import opened Text
  import opened Git

  // ================================================================ filtering

  /** The elements of `s` whose key is `k`, in their order in `s`. */
  function Filter<T, K(==)>(s: seq<T>, key: T -> K, k: K): (r: seq<T>)
    ensures |r| <= |s|
  {
    if s == [] then []
    else Filter(s[..|s| - 1], key, k) + (if key(s[|s| - 1]) == k then [s[|s| - 1]] else [])
  }

  /** The keys that occur in `s`. */
  function KeySet<T(==), K(==)>(s: seq<T>, key: T -> K): set<K>
  {
    set x | x in s :: key(x)
  }

  /** Filtering keeps exactly the elements with the key, and each with its multiplicity. */
  lemma {:induction false} FilterSpec<T, K>(s: seq<T>, key: T -> K, k: K)
    ensures forall x :: x in Filter(s, key, k) <==> x in s && key(x) == k
    ensures forall x | key(x) == k :: multiset(Filter(s, key, k))[x] == multiset(s)[x]
  {
    if s != [] {
      var init, last := s[..|s| - 1], s[|s| - 1];
      FilterSpec(init, key, k);
      assert s == init + [last];
    }
  }

  /** Filtering distributes over concatenation. */
  lemma {:induction false} FilterAppend<T, K>(a: seq<T>, b: seq<T>, key: T -> K, k: K)
    ensures Filter(a + b, key, k) == Filter(a, key, k) + Filter(b, key, k)
  {
    if b != [] {
      var init := b[..|b| - 1];
      FilterAppend(a, init, key, k);
      assert (a + b)[..|a + b| - 1] == a + init;
    } else {
      assert a + b == a;
    }
  }

  /** A filtered sequence filtered again by the same key is kept whole, by another key emptied. */
  lemma {:induction false} FilterFilter<T, K>(s: seq<T>, key: T -> K, k: K, t: K)
    ensures Filter(Filter(s, key, k), key, t) == if k == t then Filter(s, key, k) else []
  {
    if s != [] {
      var init, last := s[..|s| - 1], s[|s| - 1];
      FilterFilter(init, key, k, t);
      var part := if key(last) == k then [last] else [];
      FilterAppend(Filter(init, key, k), part, key, t);
      if key(last) == k {
        assert Filter(part, key, t) == Filter([], key, t) + (if k == t then [last] else []);
      }
    }
  }

  /** Filtering by a key that does not occur gives nothing. */
  lemma {:induction false} FilterAbsent<T, K>(s: seq<T>, key: T -> K, k: K)
    requires k !in KeySet(s, key)
    ensures Filter(s, key, k) == []
  {
    if s != [] {
      var init := s[..|s| - 1];
      assert forall x | x in init :: x in s;
      FilterAbsent(init, key, k);
    }
  }

  /** Filtering a sequence extended by one element. */
  lemma FilterSnoc<T, K>(s: seq<T>, x: T, key: T -> K, k: K)
    ensures Filter(s + [x], key, k) == Filter(s, key, k) + if key(x) == k then [x] else []
  {
    assert (s + [x])[..|s + [x]| - 1] == s;
  }

  /** One more element adds its key. */
  lemma KeySetStep<T, K>(s: seq<T>, i: nat, key: T -> K)
    requires i < |s|
    ensures KeySet(s[..i + 1], key) == KeySet(s[..i], key) + {key(s[i])}
  {
    assert s[..i + 1] == s[..i] + [s[i]];
  }

  /** A key occurs exactly when its filter is non-empty. */
  lemma KeySetFilter<T, K>(s: seq<T>, key: T -> K, k: K)
    ensures k in KeySet(s, key) <==> Filter(s, key, k) != []
  {
    FilterSpec(s, key, k);
    if k !in KeySet(s, key) {
      FilterAbsent(s, key, k);
    } else {
      var x :| x in s && key(x) == k;
      assert x in Filter(s, key, k);
    }
  }

  /**
   * The dictionary of lists the source fills element by element: each key
   * that occurs maps to its elements, in their order.
   */
  method Bucket<T(==), K(==)>(s: seq<T>, key: T -> K) returns (buckets: map<K, seq<T>>)
    ensures buckets.Keys == KeySet(s, key)
    ensures forall k | k in buckets :: buckets[k] == Filter(s, key, k)
  {
    buckets := map[];
    for i := 0 to |s|
      invariant buckets.Keys == KeySet(s[..i], key)
      invariant forall k | k in buckets :: buckets[k] == Filter(s[..i], key, k)
    {
      var k := key(s[i]);
      KeySetStep(s, i, key);
      assert s[..i + 1] == s[..i] + [s[i]];
      forall t ensures Filter(s[..i + 1], key, t) == Filter(s[..i], key, t) + if key(s[i]) == t then [s[i]] else [] {
        FilterSnoc(s[..i], s[i], key, t);
      }
      if k !in buckets {
        FilterAbsent(s[..i], key, k);
        buckets := buckets[k := []];
      }
      buckets := buckets[k := buckets[k] + [s[i]]];
    }
    assert s[..|s|] == s;
  }

  // ================================================================ title lines

  /** `\W*`: the index of the first word character at or after `p`, or |s|. */
  function WordStart(s: string, p: nat): (e: nat)
    requires p <= |s|
    ensures p <= e <= |s|
    ensures forall i | p <= i < e :: !IsWordChar(s[i])
    ensures e == |s| || IsWordChar(s[e])
    decreases |s| - p
  {
    if p < |s| && !IsWordChar(s[p]) then WordStart(s, p + 1) else p
  }

  /** The two groups of `TITLE_LINE_MATCHER`: the affected component and the text after it. */
  datatype TitleParts = TitleParts(thing: string, message: string)

  /** What `\s*[:-]?(.*)` captures: leading whitespace and one ':' or '-' dropped, up to the line end. */
  function TitleRest(s: string): (r: string)
    ensures '\n' !in r
  {
    var t := LStrip(s);
    var u := if t != [] && (t[0] == ':' || t[0] == '-') then t[1..] else t;
    BeforeAfterSpec(u, '\n');
    Before(u, '\n')
  }

  /**
   * `TITLE_LINE_MATCHER.match(line)`, `\W*\w+\(([^\)]+)\)\s*[:-]?(.*)`: a
   * word after any non-word characters, then a non-empty parenthesised
   * component without ')'.
   */
  function TitleMatch(line: string): (r: Option<TitleParts>)
    ensures r.Some? ==> r.value.thing != [] && ')' !in r.value.thing && '\n' !in r.value.message
  {
    var a := WordStart(line, 0);
    var b := WordEnd(line, a);
    if a == b || b == |line| || line[b] != '(' then None else ComponentAt(line[b + 1..])
  }

  /** `([^\)]+)\)\s*[:-]?(.*)` at the start of `rest`. */
  function ComponentAt(rest: string): (r: Option<TitleParts>)
    ensures r.Some? ==> r.value.thing != [] && ')' !in r.value.thing && '\n' !in r.value.message
  {
    var c := FindChar(rest, ')');
    if c <= 0 then None else Some(TitleParts(rest[..c], TitleRest(rest[c + 1..])))
  }

  /** A leading word followed by '(' is where the component starts. */
  lemma LeadingWord(kind: string, rest: string)
    requires kind != [] && (forall i | 0 <= i < |kind| :: IsWordChar(kind[i]))
    requires rest != [] && rest[0] == '('
    ensures TitleMatch(kind + rest) == ComponentAt(rest[1..])
  {
    var line := kind + rest;
    assert line[0] == kind[0] && line[|kind|] == '(';
    assert WordStart(line, 0) == 0;
    assert forall i | 0 <= i < |kind| :: line[i] == kind[i];
    assert WordEnd(line, 0) == |kind|;
    assert line[|kind| + 1..] == rest[1..];
  }

  /** A component free of ')' ends at the first ')'. */
  lemma ClosedComponent(thing: string, tail: string)
    requires thing != [] && ')' !in thing
    ensures ComponentAt(thing + ")" + tail) == Some(TitleParts(thing, TitleRest(tail)))
  {
    var rest := thing + ")" + tail;
    assert rest[|thing|] == ')' && forall j | 0 <= j < |thing| :: rest[j] == thing[j];
    FindCharAt(rest, ')', |thing|);
    assert rest[..|thing|] == thing && rest[|thing| + 1..] == tail;
  }

  /** A one-line message after a ':' is captured whole. */
  lemma ColonRest(message: string)
    requires '\n' !in message
    ensures TitleRest(":" + message) == message
  {
    var tail := ":" + message;
    assert LStrip(tail) == tail;
    assert tail[1..] == message;
    assert FindChar(message, '\n') == -1;
  }

  /** A title in the conventional `<type>(<component>):<message>` form yields its component and message. */
  lemma TitleMatchConventional(kind: string, thing: string, message: string)
    requires kind != [] && forall i | 0 <= i < |kind| :: IsWordChar(kind[i])
    requires thing != [] && ')' !in thing && '\n' !in message
    ensures TitleMatch(kind + "(" + thing + "):" + message) == Some(TitleParts(thing, message))
  {
    var tail := ":" + message;
    var rest := "(" + (thing + ")" + tail);
    assert kind + "(" + thing + "):" + message == kind + rest;
    LeadingWord(kind, rest);
    assert rest[1..] == thing + ")" + tail;
    ClosedComponent(thing, tail);
    ColonRest(message);
  }

  // ================================================================ clean_message

  /** The start of the run of digits that ends `s`. */
  function DigitRunStart(s: string): (d: nat)
    ensures d <= |s| && AllDigits(s[d..]) && (d == 0 || !IsDigit(s[d - 1]))
  {
    if s != [] && IsDigit(s[|s| - 1]) then
      var d := DigitRunStart(s[..|s| - 1]);
      assert s[d..] == s[..|s| - 1][d..] + [s[|s| - 1]];
      d
    else |s|
  }

  /** A digit run preceded by a non-digit is the one that ends the string. */
  lemma {:induction false} DigitRunStartAt(s: string, d: nat)
    requires 0 < d <= |s| && AllDigits(s[d..]) && !IsDigit(s[d - 1])
    ensures DigitRunStart(s) == d
  {
    if d < |s| {
      var init := s[..|s| - 1];
      assert init[d..] == s[d..|s| - 1];
      assert s[|s| - 1] == s[d..][|s| - 1 - d];
      DigitRunStartAt(init, d);
    }
  }

  /**
   * `STRIP_GITHUB_ID_MATCHER.match(line)`, `^(.*?)\s*\(#\d+\)$`, on one line:
   * group 1, the line before the trailing `(#<digits>)` and the whitespace before it.
   */
  function StripGithubId(line: string): Option<string>
  {
    if line == [] || line[|line| - 1] != ')' then None
    else
      var body := line[..|line| - 1];
      var d := DigitRunStart(body);
      if d == |body| || d < 2 || body[d - 2] != '(' || body[d - 1] != '#' then None
      else Some(RStrip(body[..d - 2]))
  }

  /** `clean_message`: the trailing `(#<id>)` removed from the first line; the other lines kept. */
  function CleanMessage(text: string): string
  {
    var first, rest := Before(text, '\n'), After(text, '\n');
    match StripGithubId(first)
    case None => text
    case Some(title) => if rest != "" then title + "\n" + rest else title
  }

  /** A title with the pull-request id GitHub appends loses it, with the whitespace before it. */
  lemma StripGithubIdRoundTrip(title: string, digits: string)
    requires digits != [] && AllDigits(digits)
    ensures StripGithubId(title + "(#" + digits + ")") == Some(RStrip(title))
  {
    var line := title + "(#" + digits + ")";
    var body := line[..|line| - 1];
    assert body == title + "(#" + digits;
    var d := |title| + 2;
    assert body[d..] == digits && body[d - 1] == '#' && body[d - 2] == '(';
    DigitRunStartAt(body, d);
    assert body[..d - 2] == title;
  }

  /** A line free of '\n' is its own first line. */
  lemma OneLine(line: string, rest: string)
    requires '\n' !in line
    ensures Before(line, '\n') == line && After(line, '\n') == ""
    ensures Before(line + "\n" + rest, '\n') == line && After(line + "\n" + rest, '\n') == rest
  {
    var text := line + "\n" + rest;
    assert text[|line|] == '\n' && forall j | 0 <= j < |line| :: text[j] == line[j];
    FindCharAt(text, '\n', |line|);
    assert text[..|line|] == line && text[|line| + 1..] == rest;
  }

  /**
   * Cleaning a message whose title ends in a pull-request id leaves the
   * title without it and every later line as it was.
   */
  lemma CleanMessageRoundTrip(title: string, digits: string, rest: string)
    requires '\n' !in title && digits != [] && AllDigits(digits)
    ensures CleanMessage(title + "(#" + digits + ")") == RStrip(title)
    ensures CleanMessage(title + "(#" + digits + ")" + "\n" + rest)
      == if rest == "" then RStrip(title) else RStrip(title) + "\n" + rest
  {
    var line := title + "(#" + digits + ")";
    assert forall i | 0 <= i < |line| && line[i] == '\n' :: i < |title| && title[i] == '\n';
    OneLine(line, rest);
    StripGithubIdRoundTrip(title, digits);
  }

  /** What is left of a line after its pull-request id is a prefix of it. */
  lemma StripGithubIdPrefix(line: string)
    requires StripGithubId(line).Some?
    ensures StartsWith(line, StripGithubId(line).value)
  {
    var body := line[..|line| - 1];
    var d := DigitRunStart(body);
    RStripSpec(body[..d - 2]);
  }

  /**
   * Cleaning only shortens the first line from its end: the new first line
   * is a prefix of the old one and the lines after it are untouched.
   */
  lemma CleanMessageKeepsBody(text: string)
    ensures StartsWith(Before(text, '\n'), Before(CleanMessage(text), '\n'))
    ensures After(CleanMessage(text), '\n') == After(text, '\n')
  {
    var first, rest := Before(text, '\n'), After(text, '\n');
    BeforeAfterSpec(text, '\n');
    match StripGithubId(first)
    case None =>
    case Some(title) =>
      StripGithubIdPrefix(first);
      assert forall i | 0 <= i < |title| :: title[i] == first[i];
      OneLine(title, rest);
  }

  // ================================================================ _sort_partition

  /** The component `_sort_partition` files a message under: group 1 of its title line, or None. */
  function Thing(m: CommitMessage): Option<string>
  {
    match TitleMatch(Before(m.message, '\n'))
    case Some(parts) => Some(parts.thing)
    case None => None
  }

  /** Python 2 order on components: None before every string, strings by code point. */
  predicate ThingLess(a: Option<string>, b: Option<string>)
  {
    b.Some? && (a.None? || Less(a.value, b.value))
  }

  predicate ThingLessEq(a: Option<string>, b: Option<string>) { a == b || ThingLess(a, b) }

  /** The string components among `things`. */
  function Names(things: set<Option<string>>): set<string>
  {
    set t | t in things && t.Some? :: t.value
  }

  /** `sorted(thing_dict.keys())`. */
  function SortedThings(things: set<Option<string>>): seq<Option<string>>
  {
    var names := SortedSeq(Names(things));
    (if None in things then [None] else []) + seq(|names|, i requires 0 <= i < |names| => Some(names[i]))
  }

  /** The components sorted are exactly the given ones. */
  lemma SortedThingsHas(things: set<Option<string>>, t: Option<string>)
    ensures t in SortedThings(things) <==> t in things
  {
    var names := SortedSeq(Names(things));
    var somes := seq(|names|, i requires 0 <= i < |names| => Some(names[i]));
    var head: seq<Option<string>> := if None in things then [None] else [];
    assert SortedThings(things) == head + somes;
    if t.Some? {
      assert t in somes <==> t.value in names by {
        if t.value in names {
          var i :| 0 <= i < |names| && names[i] == t.value;
          assert somes[i] == t;
        }
      }
      assert t.value in Names(things) <==> t in things;
      assert t !in head;
    } else {
      assert forall i | 0 <= i < |somes| :: somes[i].Some?;
      assert t !in somes;
    }
  }

  /** The components sorted are in strictly increasing order. */
  lemma SortedThingsIncreasing(things: set<Option<string>>)
    ensures var r := SortedThings(things); forall i, j | 0 <= i < j < |r| :: ThingLess(r[i], r[j])
  {
    var names := SortedSeq(Names(things));
    var somes := seq(|names|, i requires 0 <= i < |names| => Some(names[i]));
    var head: seq<Option<string>> := if None in things then [None] else [];
    var r := head + somes;
    assert SortedThings(things) == r;
    forall i, j | 0 <= i < j < |r| ensures ThingLess(r[i], r[j]) {
      assert r[j] == somes[j - |head|];
      if i >= |head| {
        assert r[i] == somes[i - |head|];
      }
    }
  }

  /** The messages of each component of `keys` in turn, each group in message order. */
  function Grouped<T>(msgs: seq<T>, key: T -> Option<string>, keys: seq<Option<string>>): seq<T>
  {
    if keys == [] then [] else Grouped(msgs, key, keys[..|keys| - 1]) + Filter(msgs, key, keys[|keys| - 1])
  }

  /** The elements of `s` grouped by key, the groups in increasing key order. */
  function SortGroups<T(==)>(s: seq<T>, key: T -> Option<string>): seq<T>
  {
    Grouped(s, key, SortedThings(KeySet(s, key)))
  }

  /** `_sort_partition`: the messages grouped by component, the groups in component order. */
  function SortPartition(msgs: seq<CommitMessage>): seq<CommitMessage>
  {
    SortGroups(msgs, Thing)
  }

  /** With distinct keys, one component's messages in the grouping are its messages in the input. */
  lemma {:induction false} GroupedFilter<T>(msgs: seq<T>, key: T -> Option<string>, keys: seq<Option<string>>, t: Option<string>)
    requires forall i, j | 0 <= i < j < |keys| :: keys[i] != keys[j]
    ensures Filter(Grouped(msgs, key, keys), key, t) == if t in keys then Filter(msgs, key, t) else []
  {
    if keys != [] {
      var init, k := keys[..|keys| - 1], keys[|keys| - 1];
      GroupedFilter(msgs, key, init, t);
      FilterAppend(Grouped(msgs, key, init), Filter(msgs, key, k), key, t);
      FilterFilter(msgs, key, k, t);
      assert t in keys <==> t in init || t == k;
      if t == k {
        assert t !in init;
      }
    }
  }

  /** An element of a filtered sequence has the key filtered for. */
  lemma FilterKey<T, K>(s: seq<T>, key: T -> K, k: K, x: T)
    requires x in Filter(s, key, k)
    ensures x in s && key(x) == k
  {
    FilterSpec(s, key, k);
  }

  /** The keys of the elements of `s` never decrease. */
  predicate OrderedBy<T>(s: seq<T>, key: T -> Option<string>)
  {
    forall i, j | 0 <= i < j < |s| :: ThingLessEq(key(s[i]), key(s[j]))
  }

  /** Every element of a grouping has one of the grouped keys. */
  lemma {:induction false} GroupedKeys<T>(msgs: seq<T>, key: T -> Option<string>, keys: seq<Option<string>>, x: T)
    requires x in Grouped(msgs, key, keys)
    ensures key(x) in keys
  {
    var init, k := keys[..|keys| - 1], keys[|keys| - 1];
    if x in Grouped(msgs, key, init) {
      GroupedKeys(msgs, key, init, x);
      assert init == keys[..|keys| - 1];
    } else {
      FilterKey(msgs, key, k, x);
    }
  }

  /** With increasing keys, the grouping lists the components in that order. */
  lemma {:induction false} GroupedOrdered<T>(msgs: seq<T>, key: T -> Option<string>, keys: seq<Option<string>>)
    requires forall i, j | 0 <= i < j < |keys| :: ThingLess(keys[i], keys[j])
    ensures OrderedBy(Grouped(msgs, key, keys), key)
  {
    if keys != [] {
      var init, k := keys[..|keys| - 1], keys[|keys| - 1];
      GroupedOrdered(msgs, key, init);
      var a, b := Grouped(msgs, key, init), Filter(msgs, key, k);
      var g := a + b;
      assert Grouped(msgs, key, keys) == g;
      forall i, j | 0 <= i < j < |g| ensures ThingLessEq(key(g[i]), key(g[j])) {
        if j >= |a| {
          assert g[j] == b[j - |a|];
          FilterKey(msgs, key, k, g[j]);
          if i < |a| {
            assert g[i] == a[i];
            GroupedKeys(msgs, key, init, g[i]);
            var p :| 0 <= p < |init| && init[p] == key(g[i]);
            assert init[p] == keys[p];
            assert key(g[j]) == keys[|keys| - 1];
            assert ThingLess(keys[p], keys[|keys| - 1]);
          } else {
            assert g[i] == b[i - |a|];
            FilterKey(msgs, key, k, g[i]);
            assert key(g[i]) == key(g[j]);
          }
        } else {
          assert g[i] == a[i] && g[j] == a[j];
        }
      }
    }
  }

  /** Grouping by `key` keeps, for each key, its elements and their order. */
  lemma SortGroupsStable<T>(s: seq<T>, key: T -> Option<string>, t: Option<string>)
    ensures Filter(SortGroups(s, key), key, t) == Filter(s, key, t)
  {
    var keys := SortedThings(KeySet(s, key));
    SortedThingsIncreasing(KeySet(s, key));
    forall i, j | 0 <= i < j < |keys| ensures keys[i] != keys[j] {
      if keys[i].Some? {
        LessIrreflexive(keys[i].value);
      }
    }
    GroupedFilter(s, key, keys, t);
    SortedThingsHas(KeySet(s, key), t);
    if t !in keys {
      FilterAbsent(s, key, t);
    }
  }

  /** Grouping by `key` is a permutation. */
  lemma SortGroupsPermutes(s: seq<CommitMessage>, key: CommitMessage -> Option<string>)
    ensures multiset(SortGroups(s, key)) == multiset(s)
  {
    var r := SortGroups(s, key);
    forall x ensures multiset(r)[x] == multiset(s)[x] {
      SortGroupsStable(s, key, key(x));
      FilterSpec(r, key, key(x));
      FilterSpec(s, key, key(x));
    }
    assert multiset(r) == multiset(s);
  }

  /** Grouping by `key` orders the elements by key. */
  lemma SortGroupsOrdered<T>(s: seq<T>, key: T -> Option<string>)
    ensures OrderedBy(SortGroups(s, key), key)
  {
    SortedThingsIncreasing(KeySet(s, key));
    GroupedOrdered(s, key, SortedThings(KeySet(s, key)));
    assert SortGroups(s, key) == Grouped(s, key, SortedThings(KeySet(s, key)));
  }

  /**
   * `_sort_partition` rearranges the messages (a permutation) so that their
   * components are in sorted order, None first, and keeps the order of the
   * messages within each component.
   */
  lemma SortPartitionSpec(msgs: seq<CommitMessage>)
    ensures var r := SortPartition(msgs);
      && multiset(r) == multiset(msgs)
      && OrderedBy(r, Thing)
      && (forall t :: Filter(r, Thing, t) == Filter(msgs, Thing, t))
  {
    SortGroupsPermutes(msgs, Thing);
    SortGroupsOrdered(msgs, Thing);
    forall t ensures Filter(SortPartition(msgs), Thing, t) == Filter(msgs, Thing, t) {
      SortGroupsStable(msgs, Thing, t);
    }
  }

  /** `_sort_partition` as the source runs it: messages bucketed by component, then the buckets in component order. */
  method SortPartitionBuckets(msgs: seq<CommitMessage>) returns (r: seq<CommitMessage>)
    ensures r == SortPartition(msgs)
  {
    r := SortGroupsBuckets(msgs, Thing);
  }

  /** Bucketing by component, then concatenating the buckets in component order, is `SortGroups`. */
  method SortGroupsBuckets<T(==)>(s: seq<T>, key: T -> Option<string>) returns (r: seq<T>)
    ensures r == SortGroups(s, key)
  {
    var buckets := Bucket(s, key);
    var keys := SortedThings(buckets.Keys);
    forall t | t in keys ensures t in buckets {
      SortedThingsHas(buckets.Keys, t);
    }
    r := ConcatBuckets(s, key, buckets, keys);
  }

  /** The buckets of `keys`, one after the other. */
  method ConcatBuckets<T>(s: seq<T>, key: T -> Option<string>, buckets: map<Option<string>, seq<T>>, keys: seq<Option<string>>)
    returns (r: seq<T>)
    requires forall t | t in keys :: t in buckets && buckets[t] == Filter(s, key, t)
    ensures r == Grouped(s, key, keys)
  {
    r := [];
    for j := 0 to |keys|
      invariant r == Grouped(s, key, keys[..j])
    {
      assert keys[..j + 1][..j] == keys[..j];
      r := r + buckets[keys[j]];
    }
    assert keys[..|keys|] == keys;
  }

  // ================================================================ partition_commits

  /** The sections of `partition_commits`, most significant first. */
  const SectionTitles: seq<string> := ["Breaking Changes", "Features", "Configuration", "Fixes", "Other"]
  const FeatureWords: seq<string> := ["feat", "feature"]
  const ConfigWords: seq<string> := ["config"]
  const FixWords: seq<string> := ["bug", "fix"]

  /**
   * The index of the first section whose pattern `re.search` finds in the
   * message: a line holding "BREAKING CHANGE", a line leading with a
   * feature, configuration or fix type word, and otherwise "Other", whose
   * `.*` matches anything.
   */
  function SectionOf(message: string): (k: nat)
    ensures k < |SectionTitles|
  {
    var lines := SplitOn(message, '\n');
    if Contains(message, "BREAKING CHANGE") then 0
    else if AnyLineLeadsWith(lines, FeatureWords) then 1
    else if AnyLineLeadsWith(lines, ConfigWords) then 2
    else if AnyLineLeadsWith(lines, FixWords) then 3
    else 4
  }

  /** The section of a commit message. */
  function Kind(m: CommitMessage): (k: nat)
    ensures k < |SectionTitles|
  {
    SectionOf(m.message)
  }

  /** One section of the result: its title and its messages. */
  datatype SectionEntry = SectionEntry(title: string, messages: seq<CommitMessage>)

  /**
   * The non-empty sections among the first `k` by `key`, titled from
   * `titles`, in section order, each section's messages passed through
   * `arrange`.
   */
  function PartitionUpTo(msgs: seq<CommitMessage>, key: CommitMessage -> nat, titles: seq<string>,
                         arrange: seq<CommitMessage> -> seq<CommitMessage>, k: nat): seq<SectionEntry>
    requires k <= |titles|
  {
    if k == 0 then []
    else
      var section := Filter<CommitMessage, nat>(msgs, key, k - 1);
      PartitionUpTo(msgs, key, titles, arrange, k - 1)
      + if section == [] then [] else [SectionEntry(titles[k - 1], arrange(section))]
  }

  /** Messages in the order they came. */
  function Unsorted(section: seq<CommitMessage>): seq<CommitMessage> { section }

  /** How a section's messages are arranged: by `_sort_partition` when asked, else as they came. */
  function Arrangement(sort: bool): seq<CommitMessage> -> seq<CommitMessage>
  {
    if sort then SortPartition else Unsorted
  }

  /** Either arrangement is a permutation. */
  lemma ArrangementPermutes(sort: bool)
    ensures forall s :: multiset(Arrangement(sort)(s)) == multiset(s)
  {
    forall s ensures multiset(Arrangement(sort)(s)) == multiset(s) {
      if sort {
        SortPartitionPermutes(s);
      }
    }
  }

  /** The sections among the first `k` that hold a message. */
  function SectionRanks(msgs: seq<CommitMessage>, key: CommitMessage -> nat, k: nat): seq<nat>
  {
    if k == 0 then [] else SectionRanks(msgs, key, k - 1) + if Filter<CommitMessage, nat>(msgs, key, k - 1) == [] then [] else [k - 1]
  }

  /** `partition_commits(sort)`: the ordered dictionary from section title to messages. */
  function Partition(msgs: seq<CommitMessage>, sort: bool): seq<SectionEntry>
  {
    PartitionUpTo(msgs, Kind, SectionTitles, Arrangement(sort), |SectionTitles|)
  }

  /** The messages of all sections, section after section. */
  function Flatten(p: seq<SectionEntry>): seq<CommitMessage>
  {
    if p == [] then [] else Flatten(p[..|p| - 1]) + p[|p| - 1].messages
  }

  /** The sections listed below `k` are listed in increasing order. */
  lemma {:induction false} SectionRanksIncreasing(msgs: seq<CommitMessage>, key: CommitMessage -> nat, k: nat)
    ensures forall i | 0 <= i < |SectionRanks(msgs, key, k)| :: SectionRanks(msgs, key, k)[i] < k
    ensures forall i, j | 0 <= i < j < |SectionRanks(msgs, key, k)| :: SectionRanks(msgs, key, k)[i] < SectionRanks(msgs, key, k)[j]
  {
    if k > 0 {
      SectionRanksIncreasing(msgs, key, k - 1);
      var qr := SectionRanks(msgs, key, k - 1);
      var last: seq<nat> := if Filter<CommitMessage, nat>(msgs, key, k - 1) == [] then [] else [k - 1];
      var ranks := qr + last;
      assert SectionRanks(msgs, key, k) == ranks;
      assert forall i | 0 <= i < |qr| :: ranks[i] == qr[i];
    }
  }

  /** No section at or above `k` is listed below `k`. */
  lemma SectionRanksBelow(msgs: seq<CommitMessage>, key: CommitMessage -> nat, k: nat)
    ensures k !in SectionRanks(msgs, key, k)
  {
    SectionRanksIncreasing(msgs, key, k);
  }

  /** Section `r` below `k` is listed exactly when it is non-empty. */
  lemma {:induction false} SectionRanksHas(msgs: seq<CommitMessage>, key: CommitMessage -> nat, k: nat, r: nat)
    requires r < k
    ensures r in SectionRanks(msgs, key, k) <==> Filter<CommitMessage, nat>(msgs, key, r) != []
  {
    if r == k - 1 {
      SectionRanksTop(msgs, key, k);
    } else {
      SectionRanksLower(msgs, key, k, r);
      SectionRanksHas(msgs, key, k - 1, r);
    }
  }

  /** Section `k - 1` is listed below `k` exactly when it is non-empty. */
  lemma SectionRanksTop(msgs: seq<CommitMessage>, key: CommitMessage -> nat, k: nat)
    requires k > 0
    ensures k - 1 in SectionRanks(msgs, key, k) <==> Filter<CommitMessage, nat>(msgs, key, k - 1) != []
  {
    SectionRanksBelow(msgs, key, k - 1);
    TopRank(k - 1, SectionRanks(msgs, key, k - 1), Filter<CommitMessage, nat>(msgs, key, k - 1) != [], SectionRanks(msgs, key, k));
  }

  lemma TopRank(top: nat, below: seq<nat>, nonEmpty: bool, ranks: seq<nat>)
    requires top !in below && ranks == below + if nonEmpty then [top] else []
    ensures top in ranks <==> nonEmpty
  {
    RankInConcat(top, below, if nonEmpty then [top] else []);
  }

  /** A section below `k - 1` is listed below `k` exactly when it is listed below `k - 1`. */
  lemma SectionRanksLower(msgs: seq<CommitMessage>, key: CommitMessage -> nat, k: nat, r: nat)
    requires r < k - 1
    ensures r in SectionRanks(msgs, key, k) <==> r in SectionRanks(msgs, key, k - 1)
  {
    var qr := SectionRanks(msgs, key, k - 1);
    var last: seq<nat> := if Filter<CommitMessage, nat>(msgs, key, k - 1) == [] then [] else [k - 1];
    assert SectionRanks(msgs, key, k) == qr + last;
    RankInConcat(r, qr, last);
  }

  lemma RankInConcat(r: nat, front: seq<nat>, back: seq<nat>)
    ensures r in front + back <==> r in front || r in back
  {
  }

  /** The sections listed below `k` are the non-empty ones. */
  lemma SectionRanksMembers(msgs: seq<CommitMessage>, key: CommitMessage -> nat, k: nat)
    ensures forall r: nat | r < k :: r in SectionRanks(msgs, key, k) <==> Filter<CommitMessage, nat>(msgs, key, r) != []
  {
    forall r: nat | r < k ensures r in SectionRanks(msgs, key, k) <==> Filter<CommitMessage, nat>(msgs, key, r) != [] {
      SectionRanksHas(msgs, key, k, r);
    }
  }

  /** The first `k` sections are the non-empty ones, in order, each under its own title. */
  lemma {:induction false} PartitionUpToTitles(
    msgs: seq<CommitMessage>, key: CommitMessage -> nat, titles: seq<string>, arrange: seq<CommitMessage> -> seq<CommitMessage>, k: nat)
    requires k <= |titles|
    requires forall s :: multiset(arrange(s)) == multiset(s)
    ensures var p, ranks := PartitionUpTo(msgs, key, titles, arrange, k), SectionRanks(msgs, key, k);
      && |ranks| == |p|
      && forall i | 0 <= i < |p| :: ranks[i] < k && p[i].title == titles[ranks[i]] && p[i].messages != []
  {
    if k > 0 {
      PartitionUpToTitles(msgs, key, titles, arrange, k - 1);
      var section := Filter<CommitMessage, nat>(msgs, key, k - 1);
      var q, qr := PartitionUpTo(msgs, key, titles, arrange, k - 1), SectionRanks(msgs, key, k - 1);
      if section != [] {
        var e := SectionEntry(titles[k - 1], arrange(section));
        var p, ranks := q + [e], qr + [k - 1];
        assert PartitionUpTo(msgs, key, titles, arrange, k) == p;
        assert SectionRanks(msgs, key, k) == ranks;
        forall i | 0 <= i < |p| ensures ranks[i] < k && p[i].title == titles[ranks[i]] && p[i].messages != [] {
          if i < |q| {
            assert p[i] == q[i] && ranks[i] == qr[i];
          }
        }
      } else {
        assert PartitionUpTo(msgs, key, titles, arrange, k) == q;
        assert SectionRanks(msgs, key, k) == qr;
      }
    }
  }

  /** Each of the first `k` sections holds the messages of its rank, arranged. */
  lemma {:induction false} PartitionUpToSections(
    msgs: seq<CommitMessage>, key: CommitMessage -> nat, titles: seq<string>, arrange: seq<CommitMessage> -> seq<CommitMessage>, k: nat)
    requires k <= |titles|
    ensures |SectionRanks(msgs, key, k)| == |PartitionUpTo(msgs, key, titles, arrange, k)|
    ensures forall i | 0 <= i < |PartitionUpTo(msgs, key, titles, arrange, k)| ::
      PartitionUpTo(msgs, key, titles, arrange, k)[i].messages == arrange(Filter<CommitMessage, nat>(msgs, key, SectionRanks(msgs, key, k)[i]))
  {
    if k > 0 {
      PartitionUpToSections(msgs, key, titles, arrange, k - 1);
      var section := Filter<CommitMessage, nat>(msgs, key, k - 1);
      var q, qr := PartitionUpTo(msgs, key, titles, arrange, k - 1), SectionRanks(msgs, key, k - 1);
      if section != [] {
        var e := SectionEntry(titles[k - 1], arrange(section));
        var p, ranks := q + [e], qr + [k - 1];
        assert PartitionUpTo(msgs, key, titles, arrange, k) == p;
        assert SectionRanks(msgs, key, k) == ranks;
        forall i | 0 <= i < |p| ensures p[i].messages == arrange(Filter<CommitMessage, nat>(msgs, key, ranks[i])) {
          if i < |q| {
            assert p[i] == q[i] && ranks[i] == qr[i];
            assert q[i].messages == arrange(Filter<CommitMessage, nat>(msgs, key, qr[i]));
          } else {
            assert p[i] == e && ranks[i] == k - 1;
            assert p[i].messages == arrange(section);
            assert section == Filter<CommitMessage, nat>(msgs, key, ranks[i]);
          }
        }
      } else {
        assert PartitionUpTo(msgs, key, titles, arrange, k) == q;
        assert SectionRanks(msgs, key, k) == qr;
      }
    }
  }

  /** One more section, holding the messages of key `k - 1`, extends the counts from keys below `k - 1` to keys below `k`. */
  lemma CountStep<T>(before: seq<T>, added: seq<T>, msgs: seq<T>, key: T -> nat, k: nat)
    requires k > 0
    requires forall x :: multiset(before)[x] == if key(x) < k - 1 then multiset(msgs)[x] else 0
    requires multiset(added) == multiset(Filter<T, nat>(msgs, key, k - 1))
    ensures forall x :: multiset(before + added)[x] == if key(x) < k then multiset(msgs)[x] else 0
  {
    FilterSpec<T, nat>(msgs, key, k - 1);
    forall x ensures multiset(before + added)[x] == if key(x) < k then multiset(msgs)[x] else 0 {
      assert multiset(before + added)[x] == multiset(before)[x] + multiset(added)[x];
      if key(x) != k - 1 {
        assert x !in Filter<T, nat>(msgs, key, k - 1);
      }
    }
  }

  /** The first `k` sections hold each message whose key is below `k`, as often as `msgs` does, and no other. */
  ghost predicate CountsBelow(
    msgs: seq<CommitMessage>, key: CommitMessage -> nat, titles: seq<string>, arrange: seq<CommitMessage> -> seq<CommitMessage>, k: nat)
    requires k <= |titles|
  {
    forall x :: multiset(Flatten(PartitionUpTo(msgs, key, titles, arrange, k)))[x] == if key(x) < k then multiset(msgs)[x] else 0
  }

  /** No messages, no sections. */
  lemma {:induction false} PartitionUpToEmpty(
    key: CommitMessage -> nat, titles: seq<string>, arrange: seq<CommitMessage> -> seq<CommitMessage>, k: nat)
    requires k <= |titles|
    ensures PartitionUpTo([], key, titles, arrange, k) == []
  {
    if k > 0 {
      PartitionUpToEmpty(key, titles, arrange, k - 1);
    }
  }

  /** No sections hold no messages. */
  lemma CountsNone(
    msgs: seq<CommitMessage>, key: CommitMessage -> nat, titles: seq<string>, arrange: seq<CommitMessage> -> seq<CommitMessage>)
    ensures CountsBelow(msgs, key, titles, arrange, 0)
  {
    assert PartitionUpTo(msgs, key, titles, arrange, 0) == [];
  }

  /** Section `k - 1` extends the counts of the first `k - 1` sections to the first `k`. */
  lemma CountsStep(
    msgs: seq<CommitMessage>, key: CommitMessage -> nat, titles: seq<string>, arrange: seq<CommitMessage> -> seq<CommitMessage>, k: nat)
    requires 0 < k <= |titles|
    requires forall s :: multiset(arrange(s)) == multiset(s)
    requires CountsBelow(msgs, key, titles, arrange, k - 1)
    ensures CountsBelow(msgs, key, titles, arrange, k)
  {
    var section := Filter<CommitMessage, nat>(msgs, key, k - 1);
    var q := PartitionUpTo(msgs, key, titles, arrange, k - 1);
    var added := if section == [] then [] else arrange(section);
    assert multiset(added) == multiset(section);
    CountStep(Flatten(q), added, msgs, key, k);
    if section != [] {
      var p := q + [SectionEntry(titles[k - 1], added)];
      assert PartitionUpTo(msgs, key, titles, arrange, k) == p;
      assert p[..|p| - 1] == q;
      assert Flatten(p) == Flatten(q) + added;
    } else {
      assert PartitionUpTo(msgs, key, titles, arrange, k) == q;
      assert Flatten(q) + added == Flatten(q);
    }
  }

  /** The first `k` sections hold each message whose key is below `k`, as often as the input does. */
  lemma {:induction false} PartitionUpToCounts(
    msgs: seq<CommitMessage>, key: CommitMessage -> nat, titles: seq<string>, arrange: seq<CommitMessage> -> seq<CommitMessage>, k: nat)
    requires k <= |titles|
    requires forall s :: multiset(arrange(s)) == multiset(s)
    ensures CountsBelow(msgs, key, titles, arrange, k)
  {
    if k > 0 {
      PartitionUpToCounts(msgs, key, titles, arrange, k - 1);
      CountsStep(msgs, key, titles, arrange, k);
    } else {
      CountsNone(msgs, key, titles, arrange);
    }
  }

  /** `_sort_partition` is a permutation of its input. */
  lemma SortPartitionPermutes(msgs: seq<CommitMessage>)
    ensures multiset(SortPartition(msgs)) == multiset(msgs)
  {
    SortGroupsPermutes(msgs, Thing);
  }

  /**
   * `partition_commits` puts each message into the first section whose
   * pattern matches it, and lists exactly the non-empty sections, in the
   * order Breaking Changes, Features, Configuration, Fixes, Other, each under
   * its own title.
   */
  lemma PartitionShape(msgs: seq<CommitMessage>, sort: bool)
    ensures var p, ranks := Partition(msgs, sort), SectionRanks(msgs, Kind, |SectionTitles|);
      && |ranks| == |p|
      && (forall i | 0 <= i < |p| :: ranks[i] < |SectionTitles| && p[i].title == SectionTitles[ranks[i]] && p[i].messages != [])
      && (forall i, j | 0 <= i < j < |p| :: ranks[i] < ranks[j])
      && (forall r: nat | r < |SectionTitles| :: r in ranks <==> Filter<CommitMessage, nat>(msgs, Kind, r) != [])
  {
    ArrangementPermutes(sort);
    PartitionUpToTitles(msgs, Kind, SectionTitles, Arrangement(sort), |SectionTitles|);
    SectionRanksIncreasing(msgs, Kind, |SectionTitles|);
    SectionRanksMembers(msgs, Kind, |SectionTitles|);
  }

  /**
   * Each section of `partition_commits` holds the messages of its pattern:
   * sorted by `_sort_partition` when asked, else in their order.
   */
  lemma PartitionSections(msgs: seq<CommitMessage>, sort: bool)
    ensures var p, ranks := Partition(msgs, sort), SectionRanks(msgs, Kind, |SectionTitles|);
      && |ranks| == |p|
      && forall i | 0 <= i < |p| ::
           p[i].messages == if sort then SortPartition(Filter<CommitMessage, nat>(msgs, Kind, ranks[i]))
                            else Filter<CommitMessage, nat>(msgs, Kind, ranks[i])
  {
    PartitionUpToSections(msgs, Kind, SectionTitles, Arrangement(sort), |SectionTitles|);
    assert forall s :: Arrangement(sort)(s) == if sort then SortPartition(s) else s;
  }

  /**
   * `partition_commits` holds every message exactly once, and is empty only
   * when there are no messages.
   */
  lemma PartitionPermutes(msgs: seq<CommitMessage>, sort: bool)
    ensures multiset(Flatten(Partition(msgs, sort))) == multiset(msgs)
    ensures Partition(msgs, sort) == [] <==> msgs == []
  {
    ArrangementPermutes(sort);
    PartitionUpToCounts(msgs, Kind, SectionTitles, Arrangement(sort), |SectionTitles|);
    var p := Partition(msgs, sort);
    assert CountsBelow(msgs, Kind, SectionTitles, Arrangement(sort), |SectionTitles|);
    forall x ensures multiset(Flatten(p))[x] == multiset(msgs)[x] {
      assert Kind(x) < |SectionTitles|;
    }
    assert multiset(Flatten(p)) == multiset(msgs);
    if p == [] {
      assert Flatten(p) == [];
      assert multiset(msgs) == multiset{};
    }
    if msgs == [] {
      PartitionUpToEmpty(Kind, SectionTitles, Arrangement(sort), |SectionTitles|);
    }
  }

  /**
   * `partition_commits` as the source runs it: a workspace filled message by
   * message, then read in section order. The workspace is keyed by section
   * position rather than by title; the titles are distinct.
   */
  method PartitionCommits(msgs: seq<CommitMessage>, sort: bool) returns (r: seq<SectionEntry>)
    ensures r == Partition(msgs, sort)
  {
    var workspace := Bucket<CommitMessage, nat>(msgs, Kind);
    r := [];
    for k := 0 to |SectionTitles|
      invariant r == PartitionUpTo(msgs, Kind, SectionTitles, Arrangement(sort), k)
    {
      KeySetFilter<CommitMessage, nat>(msgs, Kind, k);
      if k in workspace {
        var v := workspace[k];
        if sort {
          v := SortPartitionBuckets(v);
        }
        r := r + [SectionEntry(SectionTitles[k], v)];
      }
    }
  }

  // ================================================================ ChangelogBuilder

  /** `ChangelogRepositoryData`: a repository, its summary and its normalized commit messages. */
  datatype ChangelogRepositoryData =
    ChangelogRepositoryData(repository: RemoteGitRepository, summary: RepositorySummary, normalizedMessages: seq<CommitMessage>)

  /** The name entries are sorted by. */
  function EntryName(e: ChangelogRepositoryData): string { e.repository.name }

  /** What `normalize_message_list` returns for a summary's messages, or the error it raises. */
  function Normalized(msgs: seq<CommitMessage>): Result<seq<CommitMessage>>
  {
    match UnpackAll(msgs)
    case Raise(e) => Raise(e)
    case Ok(c) => Ok(UnpackedSummaries(c))
  }

  // The fixed lines of the report.
  const ByTypeHeading: string := "### Changes by Type"
  const NoSignificantChanges: string := "  No Significant Changes."
  const BySequenceHeading: string := "### Changes by Sequence"
  const NoChanges: string := "  No Changes"
  const BlankPair: string := "\n\n"
  const Newline: string := "\n"

  /** One line per item, in order: the lines a loop appends item by item. */
  function Lines<T>(xs: seq<T>, line: T -> string): (r: seq<string>)
    ensures |r| == |xs|
  {
    if xs == [] then [] else Lines(xs[..|xs| - 1], line) + [line(xs[|xs| - 1])]
  }

  /** The blocks of lines of the items, one after the other. */
  function Blocks<T>(xs: seq<T>, block: T -> seq<string>): seq<string>
  {
    if xs == [] then [] else Blocks(xs[..|xs| - 1], block) + block(xs[|xs| - 1])
  }

  /** Line `i` is the line of item `i`. */
  lemma {:induction false} LinesAt<T>(xs: seq<T>, line: T -> string, i: nat)
    requires i < |xs|
    ensures Lines(xs, line)[i] == line(xs[i])
  {
    if i < |xs| - 1 {
      LinesAt(xs[..|xs| - 1], line, i);
    }
  }

  /** Every item has its line among the lines. */
  lemma LinesHas<T>(xs: seq<T>, line: T -> string, x: T)
    requires x in xs
    ensures line(x) in Lines(xs, line)
  {
    var i :| 0 <= i < |xs| && xs[i] == x;
    LinesAt(xs, line, i);
  }

  /** Appends `line(x)` for each item `x` in turn. */
  method RenderLines<T>(xs: seq<T>, line: T -> string) returns (r: seq<string>)
    ensures r == Lines(xs, line)
  {
    r := [];
    for i := 0 to |xs|
      invariant r == Lines(xs[..i], line)
    {
      assert xs[..i + 1][..i] == xs[..i];
      r := r + [line(xs[i])];
    }
    assert xs[..|xs|] == xs;
  }

  /** Appends the block of each item in turn. */
  method RenderBlocks<T>(xs: seq<T>, block: T -> seq<string>) returns (r: seq<string>)
    ensures r == Blocks(xs, block)
  {
    r := [];
    for i := 0 to |xs|
      invariant r == Blocks(xs[..i], block)
    {
      assert xs[..i + 1][..i] == xs[..i];
      r := r + block(xs[i]);
    }
    assert xs[..|xs|] == xs;
  }

  /** `commit_id[:8]`. */
  function ShortId(id: string): (r: string)
    ensures |r| == if |id| < 8 then |id| else 8
    ensures StartsWith(id, r)
  {
    if |id| <= 8 then id else id[..8]
  }

  /** `[<short hash>](<base url>/commit/<full hash>)`. */
  function Link(commitId: string, baseUrl: string): string
  {
    "[" + ShortId(commitId) + "](" + baseUrl + "/commit/" + commitId + ")"
  }

  /** `**<component>:**  <message>`. */
  function ConventionalText(parts: TitleParts): string
  {
    "**" + parts.thing + ":**  " + parts.message
  }

  /**
   * The text of a message in "Changes by Type": its first line stripped and
   * cleaned, shown through `ConventionalText` when it is a conventional title.
   */
  function TypeText(m: CommitMessage): string
  {
    var clean := CleanMessage(Strip(Before(m.message, '\n')));
    match TitleMatch(clean)
    case Some(parts) => ConventionalText(parts)
    case None => clean
  }

  /** `* <text> (<link>)`. */
  function Bullet(text: string, link: string): string
  {
    "* " + text + " (" + link + ")"
  }

  /** A message's bullet line in "Changes by Type". */
  function TypeLine(m: CommitMessage, baseUrl: string): string
  {
    Bullet(TypeText(m), Link(m.commitId, baseUrl))
  }

  /** `TypeLine` as a function value, for `Lines`. */
  function TypeBullet(baseUrl: string): CommitMessage -> string
  {
    m => TypeLine(m, baseUrl)
  }

  /** `#### <title>`. */
  function SectionHeading(title: string): string
  {
    "#### " + title
  }

  /** One section: its heading, a bullet per message in order, and an empty line. */
  function SectionLines(e: SectionEntry, baseUrl: string): seq<string>
  {
    [SectionHeading(e.title)] + Lines(e.messages, TypeBullet(baseUrl)) + [""]
  }

  /** The sections' lines, section after section. */
  function SectionsLines(p: seq<SectionEntry>, baseUrl: string): seq<string>
  {
    Blocks(p, SectionBlock(baseUrl))
  }

  /** `SectionLines` as a function value, for `Blocks`. */
  function SectionBlock(baseUrl: string): SectionEntry -> seq<string>
  {
    e => SectionLines(e, baseUrl)
  }

  /** `build_commits_by_type` on a partition. */
  function ByTypeLines(p: seq<SectionEntry>, baseUrl: string): seq<string>
  {
    if p == [] then [ByTypeHeading, NoSignificantChanges]
    else [ByTypeHeading] + SectionsLines(p, baseUrl)
  }

  /** `build_commits_by_type(entry)`. */
  function CommitsByType(entry: ChangelogRepositoryData, sort: bool): seq<string>
  {
    ByTypeLines(Partition(entry.normalizedMessages, sort), entry.repository.url)
  }

  /** `level_name`: the name of a semantic-version implication. */
  function LevelName(level: nat): string
  {
    if level == MajorIndex then "MAJOR"
    else if level == MinorIndex then "MINOR"
    else if level == PatchIndex then "PATCH"
    else "None"
  }

  /** `**<level>** (<link>)`, a newline, the detail and a newline. */
  function Paragraph(level: string, link: string, detail: string): string
  {
    "**" + level + "** (" + link + ")\n" + detail + "\n"
  }

  /** A message's paragraph in "Changes by Sequence": its level, its link, and the cleaned message. */
  function SequenceLine(m: CommitMessage, baseUrl: string): string
  {
    Paragraph(LevelName(SemverImplication(m)), Link(m.commitId, baseUrl), CleanMessage(m.message))
  }

  /** `SequenceLine` as a function value, for `Lines`. */
  function SequenceParagraph(baseUrl: string): CommitMessage -> string
  {
    m => SequenceLine(m, baseUrl)
  }

  /** `build_commits_by_sequence(entry)`. */
  function CommitsBySequence(entry: ChangelogRepositoryData): seq<string>
  {
    [BySequenceHeading] + Lines(entry.normalizedMessages, SequenceParagraph(entry.repository.url))
  }

  /** `<sep>## [<Name>](#<name>) <version>`: the heading line of an entry, after the separator. */
  function EntryHeader(entry: ChangelogRepositoryData, sep: string): string
  {
    var name := entry.repository.name;
    sep + "## [" + Capitalize(name) + "](#" + name + ") " + entry.summary.version
  }

  /** The report lines `build` writes for one entry. */
  function EntryLines(entry: ChangelogRepositoryData, sep: string, withPartition: bool, withDetail: bool, sort: bool)
    : seq<string>
  {
    [EntryHeader(entry, sep)]
    + if entry.normalizedMessages == [] then [NoChanges, BlankPair]
      else ByTypeBlock(entry, withPartition, sort) + BySequenceBlock(entry, withDetail)
  }

  /** "Changes by Type" and a newline, when the builder was asked for it. */
  function ByTypeBlock(entry: ChangelogRepositoryData, withPartition: bool, sort: bool): seq<string>
  {
    if withPartition then CommitsByType(entry, sort) + [Newline] else []
  }

  /** "Changes by Sequence" and a newline, when the builder was asked for it. */
  function BySequenceBlock(entry: ChangelogRepositoryData, withDetail: bool): seq<string>
  {
    if withDetail then CommitsBySequence(entry) + [Newline] else []
  }

  /** The separator after an entry: an entry with changes sets it, one without keeps it. */
  function NextSep(entry: ChangelogRepositoryData, sep: string): string
  {
    if entry.normalizedMessages == [] then sep else BlankPair
  }

  /** The report lines of `entries` in order, starting with separator `sep`. */
  function ReportLines(entries: seq<ChangelogRepositoryData>, sep: string, withPartition: bool, withDetail: bool, sort: bool)
    : seq<string>
    decreases |entries|
  {
    if entries == [] then []
    else EntryLines(entries[0], sep, withPartition, withDetail, sort)
         + ReportLines(entries[1..], NextSep(entries[0], sep), withPartition, withDetail, sort)
  }

  /** `build()`: the entries sorted by repository name, their lines joined by newlines. */
  function BuildText(entries: seq<ChangelogRepositoryData>, withPartition: bool, withDetail: bool, sort: bool): string
  {
    Join(ReportLines(SortBy(entries, EntryName), "", withPartition, withDetail, sort), Newline)
  }

  /** The lines from entry `i` on are entry `i`'s lines and then those of the rest. */
  lemma ReportLinesStep(entries: seq<ChangelogRepositoryData>, i: nat, sep: string, withPartition: bool, withDetail: bool, sort: bool)
    requires i < |entries|
    ensures ReportLines(entries[i..], sep, withPartition, withDetail, sort)
            == EntryLines(entries[i], sep, withPartition, withDetail, sort)
               + ReportLines(entries[i + 1..], NextSep(entries[i], sep), withPartition, withDetail, sort)
  {
    assert entries[i..][1..] == entries[i + 1..];
  }

  /** Moving a block from the front of the remainder to the end of what is done keeps the whole. */
  lemma AppendShift(done: seq<string>, block: seq<string>, rest: seq<string>, whole: seq<string>)
    requires done + (block + rest) == whole
    ensures (done + block) + rest == whole
  {
  }

  /** The lines of entries `i` onwards, each with the separator `build` puts before its heading. */
  function EntriesLines(entries: seq<ChangelogRepositoryData>, i: nat, withPartition: bool, withDetail: bool, sort: bool)
    : seq<string>
    decreases |entries| - i
  {
    if i >= |entries| then []
    else EntryLines(entries[i], SepBefore(entries, i), withPartition, withDetail, sort)
         + EntriesLines(entries, i + 1, withPartition, withDetail, sort)
  }

  /** Some entry before `i` has changes. */
  predicate ChangesBefore(entries: seq<ChangelogRepositoryData>, i: nat)
  {
    exists j | 0 <= j < i && j < |entries| :: entries[j].normalizedMessages != []
  }

  /** A blank separator before an entry's heading exactly when an earlier entry had changes. */
  function SepBefore(entries: seq<ChangelogRepositoryData>, i: nat): string
  {
    if ChangesBefore(entries, i) then BlankPair else ""
  }

  /** The separator carried past entry `i` is the one due before entry `i + 1`. */
  lemma SepStep(entries: seq<ChangelogRepositoryData>, i: nat)
    requires i < |entries|
    ensures NextSep(entries[i], SepBefore(entries, i)) == SepBefore(entries, i + 1)
  {
    if entries[i].normalizedMessages != [] {
      assert ChangesBefore(entries, i + 1);
    } else if ChangesBefore(entries, i + 1) {
      var j :| 0 <= j < i + 1 && j < |entries| && entries[j].normalizedMessages != [];
      assert ChangesBefore(entries, i);
    }
  }

  /** From entry `i` on, `build` carries the separator `SepBefore` describes. */
  lemma {:induction false} ReportLinesSeparators(entries: seq<ChangelogRepositoryData>, i: nat, withPartition: bool, withDetail: bool, sort: bool)
    requires i <= |entries|
    ensures ReportLines(entries[i..], SepBefore(entries, i), withPartition, withDetail, sort)
            == EntriesLines(entries, i, withPartition, withDetail, sort)
    decreases |entries| - i
  {
    if i < |entries| {
      ReportLinesSeparators(entries, i + 1, withPartition, withDetail, sort);
      SepStep(entries, i);
      assert entries[i..][1..] == entries[i + 1..];
    }
  }

  /**
   * The whole report: each entry's lines in order, its heading preceded by a
   * blank line exactly when an earlier entry had changes.
   */
  lemma ReportLinesSpec(entries: seq<ChangelogRepositoryData>, withPartition: bool, withDetail: bool, sort: bool)
    ensures ReportLines(entries, "", withPartition, withDetail, sort) == EntriesLines(entries, 0, withPartition, withDetail, sort)
  {
    ReportLinesSeparators(entries, 0, withPartition, withDetail, sort);
    assert entries[0..] == entries;
    assert SepBefore(entries, 0) == "";
  }

  /**
   * `build()` reports the entries ordered by repository name (stably, a
   * permutation of those added), each entry's lines in turn, a blank
   * separator before a heading exactly when an earlier entry had changes.
   */
  lemma BuildTextSpec(entries: seq<ChangelogRepositoryData>, withPartition: bool, withDetail: bool, sort: bool)
    ensures var sorted := SortBy(entries, EntryName);
      && SortedBy(sorted, EntryName) && multiset(sorted) == multiset(entries)
      && BuildText(entries, withPartition, withDetail, sort) == Join(EntriesLines(sorted, 0, withPartition, withDetail, sort), Newline)
  {
    ReportLinesSpec(SortBy(entries, EntryName), withPartition, withDetail, sort);
  }

  /** The section lines are two per section plus one per message. */
  lemma {:induction false} SectionsLinesCount(p: seq<SectionEntry>, baseUrl: string)
    ensures |SectionsLines(p, baseUrl)| == 2 * |p| + |Flatten(p)|
  {
    if p != [] {
      SectionsLinesCount(p[..|p| - 1], baseUrl);
      assert |SectionLines(p[|p| - 1], baseUrl)| == 2 + |p[|p| - 1].messages|;
    }
  }

  /** Each message of the sections has its bullet line among the section lines. */
  lemma {:induction false} SectionsLinesHas(p: seq<SectionEntry>, baseUrl: string, m: CommitMessage)
    requires m in Flatten(p)
    ensures TypeLine(m, baseUrl) in SectionsLines(p, baseUrl)
  {
    var init, last := p[..|p| - 1], p[|p| - 1];
    assert Flatten(p) == Flatten(init) + last.messages;
    assert SectionsLines(p, baseUrl) == SectionsLines(init, baseUrl) + SectionBlock(baseUrl)(last);
    if m in Flatten(init) {
      SectionsLinesHas(init, baseUrl, m);
    } else {
      LinesHas(last.messages, TypeBullet(baseUrl), m);
    }
  }

  /**
   * For a repository with changes, "Changes by Type" is never "No
   * Significant Changes": it has its heading, then a heading and a closing
   * empty line per section and one bullet line per message, and every
   * message has its bullet line.
   */
  lemma CommitsByTypeSpec(entry: ChangelogRepositoryData, sort: bool)
    requires entry.normalizedMessages != []
    ensures var r, p := CommitsByType(entry, sort), Partition(entry.normalizedMessages, sort);
      && r == [ByTypeHeading] + SectionsLines(p, entry.repository.url)
      && |r| == 1 + 2 * |p| + |entry.normalizedMessages|
      && forall m | m in entry.normalizedMessages :: TypeLine(m, entry.repository.url) in r
  {
    var msgs, url := entry.normalizedMessages, entry.repository.url;
    var p := Partition(msgs, sort);
    PartitionPermutes(msgs, sort);
    SectionsLinesCount(p, url);
    assert |multiset(Flatten(p))| == |multiset(msgs)|;
    forall m | m in msgs ensures TypeLine(m, url) in CommitsByType(entry, sort) {
      assert m in multiset(Flatten(p));
      SectionsLinesHas(p, url, m);
    }
  }

  /**
   * "Changes by Sequence" has its heading and then a paragraph per message,
   * in order: line `i + 1` is the paragraph of message `i`.
   */
  lemma CommitsBySequenceSpec(entry: ChangelogRepositoryData, i: nat)
    requires i < |entry.normalizedMessages|
    ensures var r := CommitsBySequence(entry);
      && |r| == 1 + |entry.normalizedMessages| && r[0] == BySequenceHeading
      && r[i + 1] == SequenceLine(entry.normalizedMessages[i], entry.repository.url)
  {
    var msgs, url := entry.normalizedMessages, entry.repository.url;
    var paragraph := SequenceParagraph(url);
    var ls := Lines(msgs, paragraph);
    LinesAt(msgs, paragraph, i);
    assert paragraph(msgs[i]) == SequenceLine(msgs[i], url);
    HeadedAt(BySequenceHeading, ls, i);
  }

  lemma AppendTwice(whole: seq<string>, front: seq<string>, a: seq<string>, b: seq<string>)
    requires whole == front + a + b
    ensures whole == front + (a + b)
  {
  }

  /** Line `i + 1` under a heading is line `i` of the body. */
  lemma HeadedAt(heading: string, body: seq<string>, i: nat)
    requires i < |body|
    ensures |[heading] + body| == 1 + |body| && ([heading] + body)[0] == heading && ([heading] + body)[i + 1] == body[i]
  {
  }

  // ---------------------------------------------------------------- the builder object

  /** `ChangelogBuilder`: the repositories added so far and the options it was made with. */
  class ChangelogBuilder {
    var entries: seq<ChangelogRepositoryData>
    const withPartition: bool
    const withDetail: bool
    const sortPartitions: bool

    constructor (withPartition: bool, withDetail: bool)
      ensures entries == [] && this.withPartition == withPartition && this.withDetail == withDetail && sortPartitions
    {
      entries := [];
      this.withPartition := withPartition;
      this.withDetail := withDetail;
      sortPartitions := true;
    }

    /**
     * `add_repository`: the summary's messages normalized and the repository
     * appended; when normalizing raises, nothing is added.
     */
    method AddRepository(repository: RemoteGitRepository, summary: RepositorySummary) returns (r: Result<()>)
      modifies this
      ensures match Normalized(summary.commitMessages)
        case Raise(e) => r == Raise(e) && entries == old(entries)
        case Ok(msgs) => r == Ok(()) && entries == old(entries) + [ChangelogRepositoryData(repository, summary, msgs)]
    {
      var normalized := NormalizeMessageList(summary.commitMessages);
      if normalized.Raise? {
        return Raise(normalized.error);
      }
      entries := entries + [ChangelogRepositoryData(repository, summary, normalized.value)];
      return Ok(());
    }

    /** `build_commits_by_type(entry)`. */
    method BuildCommitsByType(entry: ChangelogRepositoryData) returns (report: seq<string>)
      ensures report == CommitsByType(entry, sortPartitions)
    {
      var partitioned := PartitionCommits(entry.normalizedMessages, sortPartitions);
      report := SectionsReport(partitioned, entry.repository.url);
    }

    /** `build_commits_by_sequence(entry)`. */
    method BuildCommitsBySequence(entry: ChangelogRepositoryData) returns (report: seq<string>)
      ensures report == CommitsBySequence(entry)
    {
      var paragraphs := RenderLines(entry.normalizedMessages, SequenceParagraph(entry.repository.url));
      report := [BySequenceHeading] + paragraphs;
    }

    /** `build()`. */
    method Build() returns (text: string)
      ensures text == BuildText(entries, withPartition, withDetail, sortPartitions)
    {
      var sorted := SortBy(entries, EntryName);
      var report := ReportEntries(sorted);
      text := Join(report, Newline);
    }

    /** The loop of `build()` over the sorted entries, carrying the separator. */
    method ReportEntries(sorted: seq<ChangelogRepositoryData>) returns (report: seq<string>)
      ensures report == ReportLines(sorted, "", withPartition, withDetail, sortPartitions)
    {
      report := [];
      var sep := "";
      ghost var goal := ReportLines(sorted, "", withPartition, withDetail, sortPartitions);
      assert sorted[0..] == sorted;
      for i := 0 to |sorted|
        invariant report + ReportLines(sorted[i..], sep, withPartition, withDetail, sortPartitions) == goal
      {
        var entry := sorted[i];
        ghost var rest := ReportLines(sorted[i + 1..], NextSep(entry, sep), withPartition, withDetail, sortPartitions);
        ReportLinesStep(sorted, i, sep, withPartition, withDetail, sortPartitions);
        var lines := EntryReport(entry, sep);
        AppendShift(report, lines, rest, goal);
        report := report + lines;
        sep := NextSep(entry, sep);
      }
      assert sorted[|sorted|..] == [];
      assert report + [] == report;
    }

    /** The lines of one entry, as the body of `build`'s loop appends them. */
    method EntryReport(entry: ChangelogRepositoryData, sep: string) returns (lines: seq<string>)
      ensures lines == EntryLines(entry, sep, withPartition, withDetail, sortPartitions)
    {
      var header := EntryHeader(entry, sep);
      lines := [header];
      if entry.normalizedMessages == [] {
        lines := lines + [NoChanges, BlankPair];
        return;
      }
      var byType := ByTypeReport(entry);
      var bySequence := BySequenceReport(entry);
      lines := lines + byType + bySequence;
      AppendTwice(lines, [header], byType, bySequence);
    }

    /** `build_commits_by_type` and a newline when `with_partition` is set, nothing otherwise. */
    method ByTypeReport(entry: ChangelogRepositoryData) returns (lines: seq<string>)
      ensures lines == ByTypeBlock(entry, withPartition, sortPartitions)
    {
      lines := [];
      if withPartition {
        var byType := BuildCommitsByType(entry);
        lines := byType + [Newline];
      }
    }

    /** `build_commits_by_sequence` and a newline when `with_detail` is set, nothing otherwise. */
    method BySequenceReport(entry: ChangelogRepositoryData) returns (lines: seq<string>)
      ensures lines == BySequenceBlock(entry, withDetail)
    {
      lines := [];
      if withDetail {
        var bySequence := BuildCommitsBySequence(entry);
        lines := bySequence + [Newline];
      }
    }
  }

  /** "Changes by Type" for a computed partition. */
  method SectionsReport(partitioned: seq<SectionEntry>, baseUrl: string) returns (report: seq<string>)
    ensures report == ByTypeLines(partitioned, baseUrl)
  {
    if partitioned == [] {
      return [ByTypeHeading, NoSignificantChanges];
    }
    var sections := RenderBlocks(partitioned, SectionBlock(baseUrl));
    report := [ByTypeHeading] + sections;
  }

  /**
   * `ChangelogBuilder(**kwargs)`: `with_partition` (default on) and
   * `with_detail` (default off) are taken from the keywords; any other
   * keyword raises KeyError.
   */
  method NewChangelogBuilder(kwargs: map<string, bool>) returns (r: Result<ChangelogBuilder>)
    ensures r.Raise? <==> kwargs.Keys - {"with_partition", "with_detail"} != {}
    ensures r.Raise? ==> r.error.KeyError?
    ensures r.Ok? ==> && fresh(r.value) && r.value.entries == [] && r.value.sortPartitions
                      && r.value.withPartition == (if "with_partition" in kwargs then kwargs["with_partition"] else true)
                      && r.value.withDetail == (if "with_detail" in kwargs then kwargs["with_detail"] else false)
  {
    var rest := kwargs;
    var withPartition := true;
    if "with_partition" in rest {
      withPartition := rest["with_partition"];
      rest := rest - {"with_partition"};
    }
    var withDetail := false;
    if "with_detail" in rest {
      withDetail := rest["with_detail"];
      rest := rest - {"with_detail"};
    }
    var builder := new ChangelogBuilder(withPartition, withDetail);
    assert rest.Keys == kwargs.Keys - {"with_partition", "with_detail"};
    if rest != map[] {
      return Raise(KeyError("Unrecognized arguments"));
    }
    return Ok(builder);
  }
}
