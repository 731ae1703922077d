/**
 * `YamlBindings`: nested YAML mappings merged together, looked up by dotted
 * field names, with '$'-valued fields resolved through `${key}` references.
 * The bindings object holds the root mapping and updates it in place; the
 * nested mappings are values here.
 */
module YamlUtil {
  import opened Wrappers
  import opened Text

  /** A loaded YAML node: a mapping, a string, or any other value given by its text. */
  datatype Node = YMap(m: map<string, Node>) | YStr(s: string) | YOther(text: string)

  // ================================================================ merging

  /**
   * The node `__update_field` leaves under a name: a mapping landing on an
   * existing mapping merges into it key by key; anything else replaces.
   */
  function MergeValue(existing: Option<Node>, value: Node): Node
    decreases value, 1
  {
    if value.YMap? && existing.Some? && existing.value.YMap?
    then YMap(MergeMaps(existing.value.m, value))
    else value
  }

  /** The loop of `__update_field` (and of `import_dict`) over the items of a mapping. */
  function MergeMaps(container: map<string, Node>, value: Node): (r: map<string, Node>)
    requires value.YMap?
    decreases value, 0
  {
    map k | k in container.Keys + value.m.Keys ::
      if k in value.m then MergeValue(if k in container then Some(container[k]) else None, value.m[k])
      else container[k]
  }

  /** `import_dict(d)` on the bindings' root mapping. */
  function Import(root: map<string, Node>, d: map<string, Node>): map<string, Node>
  {
    MergeMaps(root, YMap(d))
  }

  /** `__update_field(name, value, container)`: the container with that one name updated. */
  function UpdateField(name: string, value: Node, container: map<string, Node>): (r: map<string, Node>)
    ensures r.Keys == container.Keys + {name}
    ensures forall k | k in container && k != name :: r[k] == container[k]
  {
    container[name := MergeValue(if name in container then Some(container[name]) else None, value)]
  }

  /** The entry a merge leaves under one key. */
  lemma MergeMapsAt(container: map<string, Node>, value: Node, k: string)
    requires value.YMap? && (k in container || k in value.m)
    ensures var r := MergeMaps(container, value);
      && k in r
      && (k !in value.m ==> r[k] == container[k])
      && (k in value.m && (k !in container || !value.m[k].YMap? || !container[k].YMap?) ==> r[k] == value.m[k])
      && (k in value.m && k in container && value.m[k].YMap? && container[k].YMap? ==>
            r[k] == YMap(MergeMaps(container[k].m, value.m[k])))
  {
  }

  /**
   * Importing keeps every existing key and adds the imported ones; an
   * imported mapping merges into an existing mapping, anything else
   * replaces what was there.
   */
  lemma ImportSpec(root: map<string, Node>, d: map<string, Node>)
    ensures var r := Import(root, d);
      && r.Keys == root.Keys + d.Keys
      && (forall k | k in root && k !in d :: r[k] == root[k])
      && (forall k | k in d && (k !in root || !d[k].YMap? || !root[k].YMap?) :: r[k] == d[k])
      && (forall k | k in d && k in root && d[k].YMap? && root[k].YMap? ::
            r[k] == YMap(Import(root[k].m, d[k].m)))
  {
    var r := Import(root, d);
    forall k | k in root.Keys + d.Keys
      ensures k in r
    {
      MergeMapsAt(root, YMap(d), k);
    }
    forall k | k in root || k in d
      ensures k in d && k in root && d[k].YMap? && root[k].YMap? ==> r[k] == YMap(Import(root[k].m, d[k].m))
      ensures k in d && (k !in root || !d[k].YMap? || !root[k].YMap?) ==> r[k] == d[k]
      ensures k in root && k !in d ==> r[k] == root[k]
    {
      MergeMapsAt(root, YMap(d), k);
      if k in d && k in root && d[k].YMap? && root[k].YMap? {
        assert YMap(d[k].m) == d[k];
      }
    }
  }

  /** The node at a path of keys, walking nested mappings. */
  function GetPath(n: Node, path: seq<string>): Option<Node>
  {
    if path == [] then Some(n)
    else if n.YMap? && path[0] in n.m then GetPath(n.m[path[0]], path[1..])
    else None
  }

  /**
   * A path that merging `d` into `n` leaves alone: its first key is not
   * imported, or both sides hold mappings there and the rest of the path
   * is left alone below.
   */
  predicate Untouched(n: Node, d: Node, path: seq<string>)
  {
    && path != [] && n.YMap? && d.YMap?
    && (path[0] in d.m ==>
          && path[0] in n.m && d.m[path[0]].YMap? && n.m[path[0]].YMap?
          && Untouched(n.m[path[0]], d.m[path[0]], path[1..]))
  }

  /** Existing entries the import does not mention survive at every depth. */
  lemma {:induction false} MergeKeepsUntouched(n: Node, d: Node, path: seq<string>)
    requires Untouched(n, d, path)
    ensures GetPath(YMap(MergeMaps(n.m, d)), path) == GetPath(n, path)
  {
    var k := path[0];
    var r := MergeMaps(n.m, d);
    if k in d.m {
      MergeKeepsUntouched(n.m[k], d.m[k], path[1..]);
      MergeMapsAt(n.m, d, k);
    } else if k in n.m {
      MergeMapsAt(n.m, d, k);
    }
  }

  /** Every non-mapping value the import carries is found at its path afterwards. */
  lemma {:induction false} MergeLeavesWin(n: Node, d: Node, path: seq<string>)
    requires n.YMap? && d.YMap? && path != []
    requires GetPath(d, path).Some? && !GetPath(d, path).value.YMap?
    ensures GetPath(YMap(MergeMaps(n.m, d)), path) == GetPath(d, path)
  {
    var k := path[0];
    var r := MergeMaps(n.m, d);
    assert k in d.m;
    MergeMapsAt(n.m, d, k);
    if path[1..] != [] && k in n.m && n.m[k].YMap? {
      assert d.m[k].YMap?;
      MergeLeavesWin(n.m[k], d.m[k], path[1..]);
    }
  }

  /** Importing the keys of `d` one at a time, in any order, gives the whole import. */
  lemma ImportStep(root: map<string, Node>, d: map<string, Node>, done: set<string>, k: string)
    requires k in d && k !in done
    ensures Import(root, Restrict(d, done + {k})) == UpdateField(k, d[k], Import(root, Restrict(d, done)))
  {
    var before := Import(root, Restrict(d, done));
    var left := Import(root, Restrict(d, done + {k}));
    var right := UpdateField(k, d[k], before);
    assert left.Keys == right.Keys;
    forall j | j in left.Keys
      ensures left[j] == right[j]
    {
      if j != k && j in Restrict(d, done) {
        assert left[j] == before[j];
      }
    }
  }

  /** The entries of `d` whose keys are in `keys`. */
  function Restrict(d: map<string, Node>, keys: set<string>): (r: map<string, Node>)
    ensures r.Keys == d.Keys * keys
    ensures forall k | k in r :: r[k] == d[k]
  {
    map k | k in d.Keys * keys :: d[k]
  }

  // ================================================================ lookup

  /** `__get_node(field)`: the node at the '.'-separated parts of the field, or KeyError(field). */
  function GetNode(root: map<string, Node>, field: string): (r: Result<Node>)
    ensures r.Raise? ==> r.error == KeyError(field)
  {
    match GetPath(YMap(root), SplitOn(field, '.'))
    case Some(n) => Ok(n)
    case None => Raise(KeyError(field))
  }

  /** Every path that leads somewhere in a node. */
  ghost function Paths(n: Node): set<seq<string>>
  {
    match n
    case YMap(m) => {[]} + (set k, p | k in m && p in Paths(m[k]) :: [k] + p)
    case _ => {[]}
  }

  /** The dotted names of all fields of the root mapping. */
  ghost function Fields(root: map<string, Node>): set<string>
  {
    set p | p in Paths(YMap(root)) :: Join(p, ".")
  }

  lemma {:induction false} GetPathInPaths(n: Node, path: seq<string>)
    requires GetPath(n, path).Some?
    ensures path in Paths(n)
  {
    if path != [] {
      GetPathInPaths(n.m[path[0]], path[1..]);
      assert path == [path[0]] + path[1..];
    }
  }

  /** A field that resolves to a node is one of the root's fields. */
  lemma FoundIsField(root: map<string, Node>, field: string)
    requires GetNode(root, field).Ok?
    ensures field in Fields(root)
  {
    var path := SplitOn(field, '.');
    GetPathInPaths(YMap(root), path);
    SplitOnJoin(field, '.');
    assert Join(path, ".") == field;
  }

  // ================================================================ references

  /** `[a-zA-Z_]`, the first character of a reference's key. */
  predicate IsKeyHead(c: char) { IsAlpha(c) || c == '_' }

  /** `[a-zA-Z0-0_\.]`, the later characters of a key: letters, '0', '_' and '.'. */
  predicate IsKeyTail(c: char) { IsAlpha(c) || c == '0' || c == '_' || c == '.' }

  function TailEnd(s: string, i: nat): (k: nat)
    requires i <= |s|
    ensures i <= k <= |s|
    ensures forall j | i <= j < k :: IsKeyTail(s[j])
    ensures k < |s| ==> !IsKeyTail(s[k])
    decreases |s| - i
  {
    if i < |s| && IsKeyTail(s[i]) then TailEnd(s, i + 1) else i
  }

  /** The last '}' in `s[lo..hi]`, where the greedy `.+` of a default gives back. */
  function LastClose(s: string, lo: nat, hi: nat): (p: Option<nat>)
    requires lo <= hi <= |s|
    ensures p.Some? ==> lo <= p.value < hi && s[p.value] == '}'
    ensures p.Some? ==> forall q | p.value < q < hi :: s[q] != '}'
    decreases hi
  {
    if hi == lo then None
    else if s[hi - 1] == '}' then Some(hi - 1)
    else LastClose(s, lo, hi - 1)
  }

  /** One match of `\${([a-zA-Z_][a-zA-Z0-0_\.]+)(:.+)?}`: the key, the default after ':', and the end. */
  datatype Reference = Reference(key: string, default: Option<string>, end: nat)

  /** The match of the pattern starting exactly at `i`, if there is one. */
  function MatchAt(s: string, i: nat): (r: Option<Reference>)
    requires i <= |s|
    ensures r.Some? ==> i + 5 <= r.value.end <= |s| && 2 <= |r.value.key| <= r.value.end - i - 3
    ensures r.Some? ==> r.value.key == s[i + 2..i + 2 + |r.value.key|]
    ensures r.Some? && r.value.default.None? ==> r.value.end == i + 2 + |r.value.key| + 1
  {
    if i + 3 <= |s| && s[i] == '$' && s[i + 1] == '{' && IsKeyHead(s[i + 2]) then
      var k := TailEnd(s, i + 3);
      if k == i + 3 || k == |s| then None
      else if s[k] == ':' then
        var e := LineEnd(s, k + 1);
        if k + 2 <= e then
          match LastClose(s, k + 2, e)
          case Some(p) => Some(Reference(s[i + 2..k], Some(s[k + 1..p]), p + 1))
          case None => None
        else None
      else if s[k] == '}' then Some(Reference(s[i + 2..k], None, k + 1))
      else None
    else None
  }

  /** The next match `finditer` reports at or after `pos`. */
  function NextMatch(s: string, pos: nat): (r: Option<Reference>)
    requires pos <= |s|
    ensures r.Some? ==> pos < r.value.end <= |s|
    decreases |s| - pos
  {
    match MatchAt(s, pos)
    case Some(f) => Some(f)
    case None => if pos == |s| then None else NextMatch(s, pos + 1)
  }

  // ================================================================ resolution

  /** The outcome of `__get_value`, with the shared `saw` list as it is left. */
  datatype Resolution<T> = Resolution(result: Result<T>, saw: set<string>)

  function CycleError(original: string): Exception
  {
    ValueError("Cycle looking up variable " + original)
  }

  /**
   * `__get_value(field, saw, original)`: anything other than a '$'-string
   * is returned as stored; a field already in `saw` is a cycle; otherwise
   * the value's references are resolved with `saw` shared between them.
   */
  function GetValue(root: map<string, Node>, field: string, saw: set<string>, original: string): (r: Resolution<Node>)
    ensures saw <= r.saw
    decreases Fields(root) - saw, 0
  {
    match GetNode(root, field)
    case Raise(e) => Resolution(Raise(e), saw)
    case Ok(value) =>
      if !value.YStr? || !StartsWith(value.s, "$") then Resolution(Ok(value), saw)
      else if field in saw then Resolution(Raise(CycleError(original)), saw)
      else
        FoundIsField(root, field);
        var text := value.s;
        if NextMatch(text, 0).None? then Resolution(Ok(value), saw + {field})
        else
          var pieces := Pieces(root, text, 0, saw + {field}, original);
          match pieces.result
          case Ok(t) => Resolution(Ok(YStr(t)), pieces.saw)
          case Raise(e) => Resolution(Raise(e), pieces.saw)
  }

  /**
   * What one reference appends to `result`: the referenced string, its
   * default when the key is missing, or the whole value without one; a
   * referenced non-string cannot be appended.
   */
  function Piece(got: Result<Node>, ref: Reference, value: string): Result<string>
  {
    match got
    case Ok(n) => if n.YStr? then Ok(n.s) else Raise(TypeError("cannot concatenate 'str' and a non-string"))
    case Raise(e) =>
      if !e.KeyError? then Raise(e)
      else if ref.default.Some? then Ok(ref.default.value)
      else Ok(value)
  }

  /**
   * The loop over the matches. Each pass appends `value[offset:match.pos]`,
   * which is empty since `match.pos` is the start of the search, and sets
   * the offset to `match.endpos`, the end of the value; so only the pieces
   * are kept.
   */
  function Pieces(root: map<string, Node>, value: string, pos: nat, saw: set<string>, original: string): (r: Resolution<string>)
    requires pos <= |value|
    ensures saw <= r.saw
    decreases Fields(root) - saw, 1, |value| - pos
  {
    match NextMatch(value, pos)
    case None => Resolution(Ok(""), saw)
    case Some(ref) =>
      var got := GetValue(root, ref.key, saw, original);
      match Piece(got.result, ref, value)
      case Raise(e) => Resolution(Raise(e), got.saw)
      case Ok(piece) =>
        var rest := Pieces(root, value, ref.end, got.saw, original);
        match rest.result
        case Ok(t) => Resolution(Ok(piece + t), rest.saw)
        case Raise(e) => Resolution(Raise(e), rest.saw)
  }

  /** What `get(field)` returns. */
  function Resolved(root: map<string, Node>, field: string): Result<Node>
  {
    GetValue(root, field, {}, field).result
  }

  /** A missing field, or one below a non-mapping, raises KeyError naming the field. */
  lemma GetMissing(root: map<string, Node>, field: string)
    requires GetPath(YMap(root), SplitOn(field, '.')).None?
    ensures Resolved(root, field) == Raise(KeyError(field))
  {
  }

  /** A field holding a non-string, or a string not starting with '$', is returned as stored. */
  lemma GetPassthrough(root: map<string, Node>, field: string, saw: set<string>, original: string)
    requires GetNode(root, field).Ok?
    requires var n := GetNode(root, field).value; !n.YStr? || !StartsWith(n.s, "$")
    ensures GetValue(root, field, saw, original) == Resolution(GetNode(root, field), saw)
  {
  }

  /** Revisiting a '$'-valued field raises the cycle error. */
  lemma RevisitIsCycle(root: map<string, Node>, field: string, saw: set<string>, original: string)
    requires GetNode(root, field).Ok? && field in saw
    requires var n := GetNode(root, field).value; n.YStr? && StartsWith(n.s, "$")
    ensures GetValue(root, field, saw, original).result == Raise(CycleError(original))
  {
  }

  /** Only a missing field raises KeyError from a lookup; references to missing keys are caught. */
  lemma {:induction false} KeyErrorOnlyWhenMissing(root: map<string, Node>, field: string, saw: set<string>, original: string)
    ensures var r := GetValue(root, field, saw, original).result;
      r.Raise? && r.error.KeyError? ==> GetNode(root, field).Raise?
    decreases Fields(root) - saw, 0
  {
    if GetNode(root, field).Ok? {
      var value := GetNode(root, field).value;
      if value.YStr? && StartsWith(value.s, "$") && field !in saw && NextMatch(value.s, 0).Some? {
        FoundIsField(root, field);
        PiecesNoKeyError(root, value.s, 0, saw + {field}, original);
      }
    }
  }

  lemma {:induction false} PiecesNoKeyError(root: map<string, Node>, value: string, pos: nat, saw: set<string>, original: string)
    requires pos <= |value|
    ensures var r := Pieces(root, value, pos, saw, original).result; r.Raise? ==> !r.error.KeyError?
    decreases Fields(root) - saw, 1, |value| - pos
  {
    match NextMatch(value, pos)
    case None =>
    case Some(ref) =>
      var got := GetValue(root, ref.key, saw, original);
      KeyErrorOnlyWhenMissing(root, ref.key, saw, original);
      if Piece(got.result, ref, value).Ok? {
        PiecesNoKeyError(root, value, ref.end, got.saw, original);
      }
  }

  /** The text `${key}`. */
  function RefText(key: string): string
  {
    "${" + key + "}"
  }

  /** A key the reference pattern accepts and a lookup reads as one part. */
  predicate IsPlainKey(key: string)
  {
    |key| >= 2 && IsKeyHead(key[0]) && (forall i | 1 <= i < |key| :: IsKeyTail(key[i])) && '.' !in key
  }

  /** `${key}` at the start of a text matches there, with no default. */
  lemma RefMatches(s: string, key: string)
    requires IsPlainKey(key) && |key| + 3 <= |s| && s[..|key| + 3] == RefText(key)
    ensures MatchAt(s, 0) == Some(Reference(key, None, |key| + 3))
  {
    var r := RefText(key);
    assert s[0] == r[0] && s[1] == r[1] && s[2] == r[2] == key[0];
    assert forall j | 3 <= j < 2 + |key| :: s[j] == r[j] == key[j - 2];
    TailEndAt(s, 3, 2 + |key|);
    assert s[2 + |key|] == r[2 + |key|] == '}';
    assert s[2..2 + |key|] == key;
  }

  lemma {:induction false} TailEndAt(s: string, i: nat, k: nat)
    requires i <= k <= |s| && (forall j | i <= j < k :: IsKeyTail(s[j])) && (k < |s| ==> !IsKeyTail(s[k]))
    ensures TailEnd(s, i) == k
    decreases k - i
  {
    if i < k {
      TailEndAt(s, i + 1, k);
    }
  }

  /** A key without '.' is looked up as the one part it is. */
  lemma PlainKeyLookup(root: map<string, Node>, key: string)
    requires '.' !in key
    ensures GetNode(root, key) == if key in root then Ok(root[key]) else Raise(KeyError(key))
  {
    SplitOnFree(key, '.');
    var path := SplitOn(key, '.');
    assert path == [key] && path[1..] == [];
    if key in root {
      assert GetPath(YMap(root), path) == GetPath(root[key], []);
    }
  }

  /** A field whose value refers to itself is a cycle. */
  lemma SelfReferenceIsCycle(root: map<string, Node>, key: string)
    requires IsPlainKey(key) && key in root && root[key] == YStr(RefText(key))
    ensures Resolved(root, key) == Raise(CycleError(key))
  {
    var s := RefText(key);
    PlainKeyLookup(root, key);
    assert s[..|key| + 3] == s;
    RefMatches(s, key);
    assert StartsWith(s, "$");
    var none: set<string> := {};
    FoundIsField(root, key);
    assert GetValue(root, key, none + {key}, key).result == Raise(CycleError(key));
    assert Pieces(root, s, 0, none + {key}, key).result == Raise(CycleError(key));
  }

  /**
   * `saw` is shared between the references of one value: the second of two
   * references to the same '$'-valued field is taken for a cycle.
   */
  lemma SharedSawRejectsSiblings(root: map<string, Node>, a: string, b: string, t: string)
    requires IsPlainKey(a) && IsPlainKey(b) && a != b
    requires a in root && root[a] == YStr(RefText(b) + RefText(b))
    requires b in root && root[b] == YStr("$" + t) && NextMatch("$" + t, 0).None?
    ensures Resolved(root, a) == Raise(CycleError(a))
  {
    var s := RefText(b) + RefText(b);
    var n := |RefText(b)|;
    PlainKeyLookup(root, a);
    DoubleRef(b);
    assert StartsWith(s, "$");
    var none: set<string> := {};
    var chain := none + {a};
    FoundIsField(root, a);
    SecondSiblingIsCycle(root, s, b, t, chain, a);
  }

  /** `${b}${b}` starts with a match for `b`, and the next match is the second reference. */
  lemma DoubleRef(b: string)
    requires IsPlainKey(b)
    ensures var s, n := RefText(b) + RefText(b), |RefText(b)|;
      && |s| == n + n && n == |b| + 3
      && NextMatch(s, 0) == Some(Reference(b, None, n))
      && NextMatch(s, n) == Some(Reference(b, None, n + n))
  {
    var s := RefText(b) + RefText(b);
    var n := |RefText(b)|;
    assert s[..n] == RefText(b);
    RefMatches(s, b);
    assert s[n..][..n] == RefText(b);
    SecondRefAt(s, n, b);
  }

  /** With `b` a '$'-string without references, the first reference adds `b` to `saw` and the second fails. */
  lemma SecondSiblingIsCycle(root: map<string, Node>, s: string, b: string, t: string, chain: set<string>, original: string)
    requires IsPlainKey(b) && b !in chain && s == RefText(b) + RefText(b)
    requires b in root && root[b] == YStr("$" + t) && NextMatch("$" + t, 0).None?
    ensures Pieces(root, s, 0, chain, original).result == Raise(CycleError(original))
  {
    var n := |RefText(b)|;
    DoubleRef(b);
    PlainKeyLookup(root, b);
    assert StartsWith("$" + t, "$");
    FoundIsField(root, b);
    assert GetValue(root, b, chain, original) == Resolution(Ok(YStr("$" + t)), chain + {b});
    assert GetValue(root, b, chain + {b}, original).result == Raise(CycleError(original));
    assert Pieces(root, s, n, chain + {b}, original).result == Raise(CycleError(original));
  }

  /** A match found at offset 0 of `s[n..]` is the one `finditer` reports at `n` in `s`. */
  lemma SecondRefAt(s: string, n: nat, b: string)
    requires IsPlainKey(b) && n + |b| + 3 <= |s| && s[n..][..|b| + 3] == RefText(b)
    ensures MatchAt(s, n) == Some(Reference(b, None, n + |b| + 3))
  {
    var r := RefText(b);
    assert s[n] == r[0] && s[n + 1] == r[1] && s[n + 2] == r[2] == b[0];
    assert forall j | n + 3 <= j < n + 2 + |b| :: s[j] == r[j - n] == b[j - n - 2];
    TailEndAt(s, n + 3, n + 2 + |b|);
    assert s[n + 2 + |b|] == r[2 + |b|] == '}';
    assert s[n + 2..n + 2 + |b|] == b;
  }

  /**
   * The text around a reference is dropped: a value made of a reference and
   * a suffix resolves to the referenced text alone.
   */
  lemma SurroundingTextDropped(root: map<string, Node>, a: string, b: string, t: string, suffix: string)
    requires IsPlainKey(a) && IsPlainKey(b) && a != b
    requires a in root && root[a] == YStr(RefText(b) + suffix) && NextMatch(RefText(b) + suffix, |b| + 3).None?
    requires b in root && root[b] == YStr(t) && !StartsWith(t, "$")
    ensures Resolved(root, a) == Ok(YStr(t))
  {
    var s := RefText(b) + suffix;
    PlainKeyLookup(root, a);
    PlainKeyLookup(root, b);
    assert s[..|b| + 3] == RefText(b);
    RefMatches(s, b);
    assert StartsWith(s, "$");
    var none: set<string> := {};
    var chain := none + {a};
    FoundIsField(root, a);
    assert GetValue(root, b, chain, a) == Resolution(Ok(YStr(t)), chain);
    assert Pieces(root, s, |b| + 3, chain, a).result == Ok("");
    assert Pieces(root, s, 0, chain, a).result == Ok(t + "");
    assert t + "" == t;
  }

  /** `Resolution(Ok(prefix + t), saw)` for a successful tail, the tail itself otherwise. */
  function Prefixed(prefix: string, r: Resolution<string>): Resolution<string>
  {
    match r.result
    case Ok(t) => Resolution(Ok(prefix + t), r.saw)
    case Raise(e) => r
  }

  lemma PrefixedEmpty(r: Resolution<string>)
    ensures Prefixed("", r) == r
  {
    if r.result.Ok? {
      assert "" + r.result.value == r.result.value;
    }
  }

  /** One pass of the loop: the piece for the next match moves into the prefix. */
  lemma PiecesStep(root: map<string, Node>, text: string, pos: nat, saw: set<string>, original: string, result: string)
    requires pos <= |text| && NextMatch(text, pos).Some?
    ensures var ref := NextMatch(text, pos).value;
      var got := GetValue(root, ref.key, saw, original);
      var piece := Piece(got.result, ref, text);
      && (piece.Raise? ==> Prefixed(result, Pieces(root, text, pos, saw, original)) == Resolution(Raise(piece.error), got.saw))
      && (piece.Ok? ==> Prefixed(result, Pieces(root, text, pos, saw, original))
                          == Prefixed(result + piece.value, Pieces(root, text, ref.end, got.saw, original)))
  {
    var ref := NextMatch(text, pos).value;
    var got := GetValue(root, ref.key, saw, original);
    var piece := Piece(got.result, ref, text);
    var rest := Pieces(root, text, ref.end, got.saw, original);
    PiecesMatched(root, text, pos, saw, original);
    PrefixedThen(result, piece, got.saw, rest);
  }

  /** The resolution of a piece followed by the resolution of the rest of the value. */
  function PieceThen(piece: Result<string>, saw: set<string>, rest: Resolution<string>): Resolution<string>
  {
    match piece
    case Raise(e) => Resolution(Raise(e), saw)
    case Ok(p) =>
      match rest.result
      case Ok(t) => Resolution(Ok(p + t), rest.saw)
      case Raise(e) => Resolution(Raise(e), rest.saw)
  }

  /** With a next match, the pieces are that match's piece followed by the pieces after it. */
  lemma PiecesMatched(root: map<string, Node>, text: string, pos: nat, saw: set<string>, original: string)
    requires pos <= |text| && NextMatch(text, pos).Some?
    ensures var ref := NextMatch(text, pos).value;
      var got := GetValue(root, ref.key, saw, original);
      Pieces(root, text, pos, saw, original)
        == PieceThen(Piece(got.result, ref, text), got.saw, Pieces(root, text, ref.end, got.saw, original))
  {
  }

  /** A prefix in front of a piece and the rest moves onto the piece. */
  lemma PrefixedThen(result: string, piece: Result<string>, saw: set<string>, rest: Resolution<string>)
    ensures piece.Raise? ==> Prefixed(result, PieceThen(piece, saw, rest)) == Resolution(Raise(piece.error), saw)
    ensures piece.Ok? ==> Prefixed(result, PieceThen(piece, saw, rest)) == Prefixed(result + piece.value, rest)
  {
    if piece.Ok? && rest.result.Ok? {
      assert result + (piece.value + rest.result.value) == result + piece.value + rest.result.value;
    }
  }

  // ================================================================ the bindings

  /** A `YamlBindings` object: its root mapping is updated in place by each import. */
  class YamlBindings {
    var root: map<string, Node>

    constructor ()
      ensures root == map[]
    {
      root := map[];
    }

    /** `import_dict(d)`: each item of `d` is merged into the root in turn. */
    method ImportDict(d: map<string, Node>)
      modifies this
      ensures root == Import(old(root), d)
    {
      var done: set<string> := {};
      var todo := d.Keys;
      assert Restrict(d, done) == map[];
      assert Import(root, map[]) == root;
      while todo != {}
        invariant todo + done == d.Keys && todo !! done
        invariant root == Import(old(root), Restrict(d, done))
        decreases todo
      {
        var k :| k in todo;
        ImportStep(old(root), d, done, k);
        root := UpdateField(k, d[k], root);
        done := done + {k};
        todo := todo - {k};
      }
      assert Restrict(d, done) == d;
    }

    /** `__get_node(field)`: the walk down the nested mappings, part by part. */
    method GetNodeWalk(field: string) returns (r: Result<Node>)
      ensures r == GetNode(root, field)
    {
      var path := SplitOn(field, '.');
      var node := YMap(root);
      var i := 0;
      while i < |path|
        invariant i <= |path|
        invariant GetPath(YMap(root), path) == GetPath(node, path[i..])
        decreases |path| - i
      {
        if !node.YMap? || path[i] !in node.m {
          return Raise(KeyError(field));
        }
        assert path[i..][1..] == path[i + 1..];
        node := node.m[path[i]];
        i := i + 1;
      }
      r := Ok(node);
    }

    /**
     * `__get_value(field, saw, original)`: the loop over the matches appends
     * each piece to `result`; `saw` comes back as the calls left it.
     */
    method GetValueLoop(field: string, saw: set<string>, original: string) returns (r: Result<Node>, sawOut: set<string>)
      ensures Resolution(r, sawOut) == GetValue(root, field, saw, original)
      decreases Fields(root) - saw, 0
    {
      r := GetNodeWalk(field);
      sawOut := saw;
      if r.Raise? {
        return;
      }
      var value := r.value;
      if !value.YStr? || !StartsWith(value.s, "$") {
        return;
      }
      if field in saw {
        return Raise(CycleError(original)), saw;
      }
      FoundIsField(root, field);
      var text := value.s;
      sawOut := saw + {field};
      if NextMatch(text, 0).None? {
        return;
      }
      var pieces;
      pieces, sawOut := PiecesLoop(text, saw + {field}, original);
      r := if pieces.Ok? then Ok(YStr(pieces.value)) else Raise(pieces.error);
    }

    /** The `for match in re_variable.finditer(value)` loop of `__get_value`. */
    method PiecesLoop(text: string, saw: set<string>, original: string) returns (r: Result<string>, sawOut: set<string>)
      ensures Resolution(r, sawOut) == Pieces(root, text, 0, saw, original)
      decreases Fields(root) - saw, 1
    {
      var result := "";
      var pos := 0;
      sawOut := saw;
      PrefixedEmpty(Pieces(root, text, 0, saw, original));
      while NextMatch(text, pos).Some?
        invariant pos <= |text| && saw <= sawOut
        invariant Pieces(root, text, 0, saw, original) == Prefixed(result, Pieces(root, text, pos, sawOut, original))
        decreases |text| - pos
      {
        var ref := NextMatch(text, pos).value;
        var got, after := GetValueLoop(ref.key, sawOut, original);
        var piece := Piece(got, ref, text);
        PiecesStep(root, text, pos, sawOut, original, result);
        if piece.Raise? {
          return Raise(piece.error), after;
        }
        result := result + piece.value;
        pos, sawOut := ref.end, after;
      }
      assert result + "" == result;
      r := Ok(result);
    }

    /** `get(field)`. */
    method Get(field: string) returns (r: Result<Node>)
      ensures r == Resolved(root, field)
    {
      var saw;
      r, saw := GetValueLoop(field, {}, field);
    }
  }
}
