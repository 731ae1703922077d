/**
 * `ExpressionDict`: a dictionary whose string values may refer to other
 * entries as `${key}` or `${key:default}`. Resolution reads the dictionary
 * recursively; the substitution of fragments inside a longer string is a
 * loop that appends to the result and advances an offset.
 */
module ExpressionDict {
  import opened Wrappers
  import opened Text

  /** A stored value: a string, or any other Python value given by its `str()` text. */
  datatype Value = Str(s: string) | Other(text: string)

  /** `str(value)`. */
  function StrOf(v: Value): string
  {
    match v
    case Str(s) => s
    case Other(t) => t
  }

  /** The entries and the `default_value_interpreter`. */
  datatype ExprDict = ExprDict(entries: map<string, Value>, interpret: string -> Value)

  /** `ExpressionDict(entries)`: the interpreter starts as the identity. */
  function New(entries: map<string, Value>): (d: ExprDict)
    ensures d.entries == entries
    ensures forall text :: d.interpret(text) == Str(text)
  {
    ExprDict(entries, text => Str(text))
  }

  // ================================================================ the pattern

  /** The characters of `[\._a-zA-Z0-9]`. */
  predicate IsKeyChar(c: char)
  {
    c == '.' || c == '_' || IsAlpha(c) || IsDigit(c)
  }

  /** The end of the run of key characters starting at `i`. */
  function KeyEnd(s: string, i: nat): (k: nat)
    requires i <= |s|
    ensures i <= k <= |s|
    ensures forall j | i <= j < k :: IsKeyChar(s[j])
    ensures k < |s| ==> !IsKeyChar(s[k])
    decreases |s| - i
  {
    if i < |s| && IsKeyChar(s[i]) then KeyEnd(s, i + 1) else i
  }

  /**
   * The lazy `.+?}` after a default's ':' : the first '}' at or after `j`,
   * when no newline comes first.
   */
  function CloseAt(s: string, j: nat): (p: Option<nat>)
    requires j <= |s|
    ensures p.Some? ==> j <= p.value < |s| && s[p.value] == '}'
    ensures p.Some? ==> forall q | j <= q < p.value :: s[q] != '}' && s[q] != '\n'
    decreases |s| - j
  {
    if j == |s| || s[j] == '\n' then None
    else if s[j] == '}' then Some(j)
    else CloseAt(s, j + 1)
  }

  /** One match of `\${([\._a-zA-Z0-9]+)(:.+?)?}`: the key, the default after ':', and the end. */
  datatype Fragment = Fragment(key: string, default: Option<string>, end: nat)

  /** The match of the pattern starting exactly at `i`, if there is one. */
  function MatchAt(s: string, i: nat): (r: Option<Fragment>)
    requires i <= |s|
    ensures r.Some? ==> i + 4 <= r.value.end <= |s| && 0 < |r.value.key| <= r.value.end - i - 3
    ensures r.Some? ==> s[i..i + 2] == "${" && s[r.value.end - 1] == '}'
    ensures r.Some? ==> r.value.key == s[i + 2..i + 2 + |r.value.key|]
    ensures r.Some? && r.value.default.None? ==> r.value.end == i + 2 + |r.value.key| + 1
  {
    if i + 2 <= |s| && s[i] == '$' && s[i + 1] == '{' then
      var k := KeyEnd(s, i + 2);
      if k == i + 2 || k == |s| then None
      else if s[k] == ':' then
        if k + 1 < |s| && s[k + 1] != '\n' then
          match CloseAt(s, k + 2)
          case Some(p) => Some(Fragment(s[i + 2..k], Some(s[k + 1..p]), p + 1))
          case None => None
        else None
      else if s[k] == '}' then Some(Fragment(s[i + 2..k], None, k + 1))
      else None
    else None
  }

  /** The next match `finditer` reports at or after `pos`: its start and the fragment. */
  function NextMatch(s: string, pos: nat): (r: Option<(nat, Fragment)>)
    requires pos <= |s|
    ensures r.Some? ==> pos <= r.value.0 < r.value.1.end <= |s|
    ensures r.Some? ==> MatchAt(s, r.value.0) == Some(r.value.1)
    decreases |s| - pos
  {
    match MatchAt(s, pos)
    case Some(f) => Some((pos, f))
    case None => if pos == |s| then None else NextMatch(s, pos + 1)
  }

  /** `finditer` reports the leftmost match: no match starts before it, and none at all when it reports none. */
  lemma {:induction false} NextMatchIsFirst(s: string, pos: nat)
    requires pos <= |s|
    ensures NextMatch(s, pos).Some? ==> forall j | pos <= j < NextMatch(s, pos).value.0 :: MatchAt(s, j).None?
    ensures NextMatch(s, pos).None? ==> forall j | pos <= j <= |s| :: MatchAt(s, j).None?
    decreases |s| - pos
  {
    if MatchAt(s, pos).None? && pos < |s| {
      NextMatchIsFirst(s, pos + 1);
    }
  }

  // ================================================================ resolution

  /** The error `__resolve_value` raises on reaching a key already on the chain. */
  function CycleError(original: string): Exception
  {
    ValueError("Cycle looking up variable " + original)
  }

  /**
   * `__resolve_value(field, saw, original)`: a stored non-string comes back
   * as it is; a string that is one whole fragment takes the referenced
   * entry's value; any other string has each fragment substituted.
   */
  function Resolve(d: ExprDict, field: string, saw: set<string>, original: string): (r: Result<Value>)
    decreases d.entries.Keys - saw, 0
  {
    if field !in d.entries then Raise(KeyError(field))
    else
      var value := d.entries[field];
      if !value.Str? then Ok(value)
      else if field in saw then Raise(CycleError(original))
      else
        var chain := saw + {field};
        var s := value.s;
        var exact := MatchAt(s, 0);
        if exact.Some? && exact.value.end == |s| then
          match Resolve(d, exact.value.key, chain, original)
          case Ok(got) => Ok(got)
          case Raise(e) =>
            if !e.KeyError? then Raise(e)
            else if exact.value.default.Some? then Ok(d.interpret(exact.value.default.value))
            else Ok(value)
        else
          match Substitute(d, s, 0, chain, original)
          case Ok(t) => Ok(Str(t))
          case Raise(e) => Raise(e)
  }

  /** What one fragment contributes to the joined result. */
  function Replacement(d: ExprDict, f: Fragment, text: string, start: nat, saw: set<string>, original: string): (r: Result<string>)
    requires start <= f.end <= |text|
    decreases d.entries.Keys - saw, 1
  {
    match Resolve(d, f.key, saw, original)
    case Ok(got) => Ok(StrOf(got))
    case Raise(e) =>
      if !e.KeyError? then Raise(e)
      else if f.default.Some? then Ok(f.default.value)
      else Ok(text[start..f.end])
  }

  /** The text from `offset` on, with every fragment `finditer` reports replaced. */
  function Substitute(d: ExprDict, text: string, offset: nat, saw: set<string>, original: string): (r: Result<string>)
    requires offset <= |text|
    decreases d.entries.Keys - saw, 2, |text| - offset
  {
    match NextMatch(text, offset)
    case None => Ok(text[offset..])
    case Some((start, f)) =>
      match Replacement(d, f, text, start, saw, original)
      case Raise(e) => Raise(e)
      case Ok(piece) =>
        match Substitute(d, text, f.end, saw, original)
        case Raise(e) => Raise(e)
        case Ok(rest) => Ok(text[offset..start] + piece + rest)
  }

  /** `d.get(key, default_value)`. */
  function Get(d: ExprDict, key: string, defaultValue: Value): (r: Result<Value>)
    ensures key !in d.entries ==> r == Ok(defaultValue)
    ensures key in d.entries ==> r == Resolve(d, key, {}, key)
  {
    if key !in d.entries then Ok(defaultValue) else Resolve(d, key, {}, key)
  }

  /** `d[key]`. */
  function GetItem(d: ExprDict, key: string): (r: Result<Value>)
    ensures key !in d.entries ==> r == Raise(KeyError(key))
    ensures key in d.entries ==> r == Resolve(d, key, {}, key)
  {
    if key !in d.entries then Raise(KeyError(key)) else Resolve(d, key, {}, key)
  }

  // ================================================================ properties

  /** A stored value that is not a string comes back unchanged, whatever the chain. */
  lemma NonStringUnchanged(d: ExprDict, field: string, saw: set<string>, original: string)
    requires field in d.entries && d.entries[field].Other?
    ensures Resolve(d, field, saw, original) == Ok(d.entries[field])
  {
  }

  /**
   * A string that is exactly one fragment resolves to the referenced entry,
   * its type kept; an absent key gives the interpreted default, or the
   * string itself without a default.
   */
  lemma ExactFragment(d: ExprDict, field: string, saw: set<string>, original: string)
    requires field in d.entries && field !in saw && d.entries[field].Str?
    requires var s := d.entries[field].s; MatchAt(s, 0).Some? && MatchAt(s, 0).value.end == |s|
    ensures var s := d.entries[field].s;
      var f := MatchAt(s, 0).value;
      var r := Resolve(d, field, saw, original);
      && (f.key in d.entries ==> r == Resolve(d, f.key, saw + {field}, original))
      && (f.key !in d.entries && f.default.Some? ==> r == Ok(d.interpret(f.default.value)))
      && (f.key !in d.entries && f.default.None? ==> r == Ok(Str(s)))
  {
    var s := d.entries[field].s;
    var f := MatchAt(s, 0).value;
    if f.key in d.entries {
      ResolveKeyError(d, f.key, saw + {field}, original);
    }
  }

  /** Only an absent key raises KeyError; every other failure is the cycle error. */
  lemma {:induction false} ResolveKeyError(d: ExprDict, field: string, saw: set<string>, original: string)
    ensures var r := Resolve(d, field, saw, original);
      r.Raise? ==> (field !in d.entries && r.error == KeyError(field)) || r.error == CycleError(original)
    decreases d.entries.Keys - saw, 0
  {
    if field in d.entries && d.entries[field].Str? && field !in saw {
      var chain := saw + {field};
      var s := d.entries[field].s;
      var exact := MatchAt(s, 0);
      if exact.Some? && exact.value.end == |s| {
        ResolveKeyError(d, exact.value.key, chain, original);
      } else {
        SubstituteErrors(d, s, 0, chain, original);
      }
    }
  }

  /**
   * A fragment becomes the text of its key's resolved value; an absent key
   * gives the default, or the fragment verbatim without one.
   */
  lemma ReplacementSpec(d: ExprDict, f: Fragment, text: string, start: nat, saw: set<string>, original: string)
    requires start <= f.end <= |text|
    ensures var r := Replacement(d, f, text, start, saw, original);
      && (f.key in d.entries ==> (r.Raise? <==> Resolve(d, f.key, saw, original).Raise?))
      && (f.key in d.entries && r.Ok? ==> r.value == StrOf(Resolve(d, f.key, saw, original).value))
      && (f.key !in d.entries && f.default.Some? ==> r == Ok(f.default.value))
      && (f.key !in d.entries && f.default.None? ==> r == Ok(text[start..f.end]))
  {
    ResolveKeyError(d, f.key, saw, original);
  }

  /** Substitution fails only with the cycle error: absent keys are caught. */
  lemma {:induction false} SubstituteErrors(d: ExprDict, text: string, offset: nat, saw: set<string>, original: string)
    requires offset <= |text|
    ensures var r := Substitute(d, text, offset, saw, original);
      r.Raise? ==> r.error == CycleError(original)
    decreases d.entries.Keys - saw, 2, |text| - offset
  {
    match NextMatch(text, offset)
    case None =>
    case Some((start, f)) =>
      ResolveKeyError(d, f.key, saw, original);
      SubstituteErrors(d, text, f.end, saw, original);
  }

  /** A fragment whose key is absent and has no default stays verbatim, so such a text comes back whole. */
  lemma {:induction false} AbsentKeysVerbatim(d: ExprDict, text: string, offset: nat, saw: set<string>, original: string)
    requires offset <= |text|
    requires forall j | offset <= j <= |text| && MatchAt(text, j).Some? ::
      MatchAt(text, j).value.key !in d.entries && MatchAt(text, j).value.default.None?
    ensures Substitute(d, text, offset, saw, original) == Ok(text[offset..])
    decreases |text| - offset
  {
    match NextMatch(text, offset)
    case None =>
    case Some((start, f)) =>
      assert MatchAt(text, start) == Some(f);
      AbsentReplacement(d, f, text, start, saw, original);
      AbsentKeysVerbatim(d, text, f.end, saw, original);
      SubstituteMatched(d, text, offset, saw, original, start, f);
      ThreeStretches(text, offset, start, f.end);
  }

  /** Three adjacent stretches of a text make up the text from the first one's start. */
  lemma ThreeStretches(text: string, i: nat, j: nat, k: nat)
    requires i <= j <= k <= |text|
    ensures text[i..j] + text[j..k] + text[k..] == text[i..]
  {
  }

  /** A fragment whose key is absent and has no default is replaced by its own text. */
  lemma AbsentReplacement(d: ExprDict, f: Fragment, text: string, start: nat, saw: set<string>, original: string)
    requires start <= f.end <= |text| && f.key !in d.entries && f.default.None?
    ensures Replacement(d, f, text, start, saw, original) == Ok(text[start..f.end])
  {
    assert Resolve(d, f.key, saw, original) == Raise(KeyError(f.key));
  }

  /** The text `${key}`. */
  function Reference(key: string): string
  {
    "${" + key + "}"
  }

  /** A name made of key characters only. */
  predicate IsKey(key: string)
  {
    |key| > 0 && forall i | 0 <= i < |key| :: IsKeyChar(key[i])
  }

  /** `${key}` written at `i` matches there, with no default. */
  lemma ReferenceMatches(s: string, i: nat, key: string)
    requires IsKey(key) && i + |key| + 3 <= |s| && s[i..i + |key| + 3] == Reference(key)
    ensures MatchAt(s, i) == Some(Fragment(key, None, i + |key| + 3))
  {
    var r := Reference(key);
    assert s[i] == r[0] == '$' && s[i + 1] == r[1] == '{';
    assert forall j | i + 2 <= j < i + 2 + |key| :: s[j] == r[j - i] == key[j - i - 2];
    KeyEndAt(s, i + 2, i + 2 + |key|);
    assert s[i + 2 + |key|] == r[|key| + 2] == '}';
    assert s[i + 2..i + 2 + |key|] == key;
  }

  /** An entry whose value refers to itself is a cycle. */
  lemma SelfReferenceIsCycle(d: ExprDict, key: string)
    requires key in d.entries && d.entries[key] == Str(Reference(key)) && IsKey(key)
    ensures GetItem(d, key) == Raise(CycleError(key))
  {
    var s := Reference(key);
    assert |s| == |key| + 3;
    ReferenceMatches(s, 0, key);
    assert s[0..|key| + 3] == s;
    assert MatchAt(s, 0).value.end == |s|;
    assert Resolve(d, key, {key}, key) == Raise(CycleError(key));
    assert Resolve(d, key, {}, key) == Raise(CycleError(key));
  }

  /** The run of key characters ends where the text stops being key characters. */
  lemma {:induction false} KeyEndAt(s: string, i: nat, k: nat)
    requires i <= k <= |s| && (forall j | i <= j < k :: IsKeyChar(s[j])) && (k < |s| ==> !IsKeyChar(s[k]))
    ensures KeyEnd(s, i) == k
    decreases k - i
  {
    if i < k {
      KeyEndAt(s, i + 1, k);
    }
  }

  /**
   * The chain is per branch: two references to the same entry from one
   * string are not a cycle. With `b` bound to a non-string, `${b}${b}`
   * resolves to its text twice.
   */
  lemma SiblingsAreNotACycle(d: ExprDict, a: string, b: string, t: string)
    requires IsKey(b) && a != b
    requires a in d.entries && d.entries[a] == Str(Reference(b) + Reference(b))
    requires b in d.entries && d.entries[b] == Other(t)
    ensures GetItem(d, a) == Ok(Str(t + t))
  {
    var none: set<string> := {};
    var chain := none + {a};
    DoubleReference(b);
    TwiceSubstituted(d, b, t, chain, a);
    ResolveSubstituted(d, a, none, a);
  }

  /** Both references in `${b}${b}` resolve on the same chain, each to the text of `b`. */
  lemma TwiceSubstituted(d: ExprDict, b: string, t: string, chain: set<string>, original: string)
    requires IsKey(b) && b in d.entries && d.entries[b] == Other(t)
    ensures Substitute(d, Reference(b) + Reference(b), 0, chain, original) == Ok(t + t)
  {
    var s := Reference(b) + Reference(b);
    var n := |Reference(b)|;
    DoubleReference(b);
    SecondSubstituted(d, b, t, chain, original);
    OtherReplacement(d, b, t, s, 0, n, chain, original);
    SubstituteMatched(d, s, 0, chain, original, 0, Fragment(b, None, n));
    EmptyStretch(s, 0, t);
  }

  /** An empty stretch adds nothing in front. */
  lemma EmptyStretch(s: string, i: nat, x: string)
    requires i <= |s|
    ensures s[i..i] + x == x
  {
  }

  /** The second reference of `${b}${b}` is the last thing to substitute. */
  lemma SecondSubstituted(d: ExprDict, b: string, t: string, chain: set<string>, original: string)
    requires IsKey(b) && b in d.entries && d.entries[b] == Other(t)
    ensures |Reference(b)| <= |Reference(b) + Reference(b)|
    ensures Substitute(d, Reference(b) + Reference(b), |Reference(b)|, chain, original) == Ok(t)
  {
    var s := Reference(b) + Reference(b);
    var n := |Reference(b)|;
    DoubleReference(b);
    OtherReplacement(d, b, t, s, n, |s|, chain, original);
    SubstituteEnd(d, s, chain, original);
    SubstituteMatched(d, s, n, chain, original, n, Fragment(b, None, |s|));
    EmptyStretch(s, n, t);
    assert t + "" == t;
  }

  /** A reference to an entry bound to a non-string is replaced by that value's text. */
  lemma OtherReplacement(d: ExprDict, b: string, t: string, s: string, start: nat, end: nat,
                         chain: set<string>, original: string)
    requires b in d.entries && d.entries[b] == Other(t) && start <= end <= |s|
    ensures Replacement(d, Fragment(b, None, end), s, start, chain, original) == Ok(t)
  {
  }

  /** A string that is not one whole fragment resolves to its substitution, on the chain extended by its key. */
  lemma ResolveSubstituted(d: ExprDict, field: string, saw: set<string>, original: string)
    requires field in d.entries && d.entries[field].Str? && field !in saw
    requires var s := d.entries[field].s; !(MatchAt(s, 0).Some? && MatchAt(s, 0).value.end == |s|)
    ensures var sub := Substitute(d, d.entries[field].s, 0, saw + {field}, original);
      Resolve(d, field, saw, original) == if sub.Ok? then Ok(Str(sub.value)) else Raise(sub.error)
  {
  }

  /** In `${b}${b}` the first match is the first reference, the second the other, and nothing follows. */
  lemma DoubleReference(b: string)
    requires IsKey(b)
    ensures var s, n := Reference(b) + Reference(b), |Reference(b)|;
      && |s| == n + n && MatchAt(s, 0).Some? && MatchAt(s, 0).value.end == n < |s|
      && NextMatch(s, 0) == Some((0, Fragment(b, None, n)))
      && NextMatch(s, n) == Some((n, Fragment(b, None, |s|)))
  {
    var r := Reference(b);
    var s := r + r;
    var n := |r|;
    assert s[0..n] == r && s[n..n + n] == r;
    ReferenceMatches(s, 0, b);
    ReferenceMatches(s, n, b);
  }

  /** Nothing is left to substitute at the end of the text. */
  lemma SubstituteEnd(d: ExprDict, text: string, saw: set<string>, original: string)
    ensures Substitute(d, text, |text|, saw, original) == Ok("")
  {
    assert MatchAt(text, |text|).None?;
    assert text[|text|..] == "";
  }

  /** A successful step of the substitution: the stretch before the match, its replacement, and the rest. */
  lemma SubstituteUnfold(d: ExprDict, text: string, offset: nat, saw: set<string>, original: string,
                         start: nat, f: Fragment, piece: string, rest: string)
    requires offset <= |text| && NextMatch(text, offset) == Some((start, f))
    requires Replacement(d, f, text, start, saw, original) == Ok(piece)
    requires Substitute(d, text, f.end, saw, original) == Ok(rest)
    ensures Substitute(d, text, offset, saw, original) == Ok(text[offset..start] + piece + rest)
  {
  }

  // ================================================================ the loop

  /** `Ok(prefix + t)` for a successful tail, the tail's error otherwise. */
  function Prefixed(prefix: string, r: Result<string>): Result<string>
  {
    match r
    case Ok(t) => Ok(prefix + t)
    case Raise(e) => Raise(e)
  }

  /** One step of the loop: the stretch before a match and its replacement move into the prefix. */
  lemma SubstituteStep(d: ExprDict, text: string, offset: nat, saw: set<string>, original: string,
                       result: string, start: nat, f: Fragment)
    requires offset <= |text| && NextMatch(text, offset) == Some((start, f))
    ensures var piece := Replacement(d, f, text, start, saw, original);
      && (piece.Raise? ==> Substitute(d, text, offset, saw, original) == Raise(piece.error))
      && (piece.Ok? ==> Prefixed(result, Substitute(d, text, offset, saw, original))
                          == Prefixed(result + text[offset..start] + piece.value, Substitute(d, text, f.end, saw, original)))
  {
    SubstituteMatched(d, text, offset, saw, original, start, f);
    PrefixedJoined(result, text[offset..start], Replacement(d, f, text, start, saw, original),
                   Substitute(d, text, f.end, saw, original));
  }

  /** The stretch before a match, its replacement and the rest, or the first error among them. */
  function Joined(before: string, piece: Result<string>, tail: Result<string>): Result<string>
  {
    match piece
    case Raise(e) => Raise(e)
    case Ok(p) =>
      match tail
      case Raise(e) => Raise(e)
      case Ok(t) => Ok(before + p + t)
  }

  /** Where a match is found, the substitution joins the stretch before it, its replacement and the rest. */
  lemma SubstituteMatched(d: ExprDict, text: string, offset: nat, saw: set<string>, original: string,
                          start: nat, f: Fragment)
    requires offset <= |text| && NextMatch(text, offset) == Some((start, f))
    ensures Substitute(d, text, offset, saw, original)
         == Joined(text[offset..start], Replacement(d, f, text, start, saw, original), Substitute(d, text, f.end, saw, original))
  {
  }

  /** A raising replacement ends the join; a successful one moves into the prefix. */
  lemma PrefixedJoined(result: string, before: string, piece: Result<string>, tail: Result<string>)
    ensures piece.Raise? ==> Joined(before, piece, tail) == Raise(piece.error)
    ensures piece.Ok? ==> Prefixed(result, Joined(before, piece, tail)) == Prefixed(result + before + piece.value, tail)
  {
    if piece.Ok? && tail.Ok? {
      assert result + (before + piece.value + tail.value) == result + before + piece.value + tail.value;
    }
  }

  /**
   * The `for match in expression_re.finditer(text)` loop of
   * `__resolve_value`, which appends each stretch of text and each
   * replacement to `result` and moves `offset` past the match.
   */
  method SubstituteFragments(d: ExprDict, text: string, saw: set<string>, original: string) returns (r: Result<string>)
    ensures r == Substitute(d, text, 0, saw, original)
  {
    var result := "";
    var offset := 0;
    assert Prefixed(result, Substitute(d, text, 0, saw, original)) == Substitute(d, text, 0, saw, original) by {
      if Substitute(d, text, 0, saw, original).Ok? {
        assert "" + Substitute(d, text, 0, saw, original).value == Substitute(d, text, 0, saw, original).value;
      }
    }
    while true
      invariant offset <= |text|
      invariant Substitute(d, text, 0, saw, original) == Prefixed(result, Substitute(d, text, offset, saw, original))
      decreases |text| - offset
    {
      var next := NextMatch(text, offset);
      if next.None? {
        break;
      }
      var start, f := next.value.0, next.value.1;
      var piece := Replacement(d, f, text, start, saw, original);
      SubstituteStep(d, text, offset, saw, original, result, start, f);
      if piece.Raise? {
        return Raise(piece.error);
      }
      result := result + text[offset..start] + piece.value;
      offset := f.end;
    }
    result := result + text[offset..];
    r := Ok(result);
  }
}
