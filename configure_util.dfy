/**
 * `Bindings` from the installation configuration utilities: a table of
 * variables filled from configuration text ('NAME=value' lines) and by
 * `set_variable`, and the substitution of '$NAME', '${NAME}' and
 * '${NAME:default}' in a template. Reading the configuration file is left
 * to the caller: the methods take the text.
 */
module ConfigureUtil {
  import opened Wrappers
  import opened Text

  // ================================================================ configuration text

  /** A name as `[A-Za-z]\w*` accepts it. */
  predicate IsName(name: string)
  {
    |name| > 0 && IsAlpha(name[0]) && forall i | 0 <= i < |name| :: IsWordChar(name[i])
  }

  /**
   * The match of `^([A-Za-z]\w*)=(.*)` on one line: the name, then the rest
   * of the line after its '='. `\w*` takes the whole run of word characters,
   * so a space before '=' spoils the match.
   */
  function ParseLine(line: string): Option<(string, string)>
  {
    if |line| == 0 || !IsAlpha(line[0]) then None
    else
      var k := WordEnd(line, 1);
      if k < |line| && line[k] == '=' then Some((line[..k], line[k + 1..])) else None
  }

  /** 'NAME=value' binds NAME to the value, whatever it holds apart from a newline. */
  lemma ParseLineOf(name: string, value: string)
    requires IsName(name)
    ensures ParseLine(name + "=" + value) == Some((name, value))
  {
    var line := name + "=" + value;
    assert forall i | 1 <= i < |name| :: IsWordChar(line[i]);
    assert WordEnd(line, 1) == |name| by {
      WordEndAt(line, 1, |name|);
    }
    assert line[..|name|] == name;
    assert line[|name| + 1..] == value;
  }

  /** The run of word characters from `p` ends at the first other character. */
  lemma {:induction false} WordEndAt(s: string, p: nat, e: nat)
    requires p <= e <= |s|
    requires forall i | p <= i < e :: IsWordChar(s[i])
    requires e == |s| || !IsWordChar(s[e])
    ensures WordEnd(s, p) == e
    decreases e - p
  {
    if p < e {
      WordEndAt(s, p + 1, e);
    }
  }

  /** A line binds only when it is exactly a name, '=' and the value. */
  lemma ParseLineShape(line: string)
    requires ParseLine(line).Some?
    ensures IsName(ParseLine(line).value.0)
    ensures line == ParseLine(line).value.0 + "=" + ParseLine(line).value.1
  {
    var k := WordEnd(line, 1);
    assert line == line[..k] + "=" + line[k + 1..];
  }

  /** Blank lines, comment lines and lines not starting with a letter bind nothing. */
  lemma NonNameLines(line: string)
    requires |line| == 0 || line[0] == '#' || !IsAlpha(line[0])
    ensures ParseLine(line) == None
  {
  }

  /** `line` binds `key`. */
  predicate LineBinds(line: string, key: string)
  {
    ParseLine(line).Some? && ParseLine(line).value.0 == key
  }

  /** The bindings after the lines, in order: a later line overrides an earlier one. */
  function Load(variables: map<string, string>, lines: seq<string>): map<string, string>
    decreases |lines|
  {
    if lines == [] then variables
    else
      var next := match ParseLine(lines[0])
        case None => variables
        case Some(binding) => variables[binding.0 := binding.1];
      Load(next, lines[1..])
  }

  /** `update_from_config` on the text: each line of the text in turn. */
  function LoadText(variables: map<string, string>, content: string): map<string, string>
  {
    Load(variables, SplitOn(content, '\n'))
  }

  /** No line at or after `i` binds `key`. */
  predicate NoLaterLine(lines: seq<string>, key: string, i: nat)
  {
    forall j | i <= j < |lines| :: !LineBinds(lines[j], key)
  }

  /** A name no line binds keeps its earlier value, or stays unbound. */
  lemma {:induction false} LoadKeeps(variables: map<string, string>, lines: seq<string>, key: string)
    requires NoLaterLine(lines, key, 0)
    ensures key in Load(variables, lines) <==> key in variables
    ensures key in variables ==> Load(variables, lines)[key] == variables[key]
    decreases |lines|
  {
    if lines != [] {
      assert !LineBinds(lines[0], key);
      assert NoLaterLine(lines[1..], key, 0) by {
        forall j | 0 <= j < |lines[1..]| ensures !LineBinds(lines[1..][j], key) {
          assert lines[1..][j] == lines[j + 1];
        }
      }
      var next := match ParseLine(lines[0])
        case None => variables
        case Some(binding) => variables[binding.0 := binding.1];
      LoadKeeps(next, lines[1..], key);
    }
  }

  /** A name takes the value of the last line that binds it. */
  lemma {:induction false} LoadLastWins(variables: map<string, string>, lines: seq<string>, key: string, i: nat)
    requires i < |lines| && LineBinds(lines[i], key) && NoLaterLine(lines, key, i + 1)
    ensures key in Load(variables, lines)
    ensures Load(variables, lines)[key] == ParseLine(lines[i]).value.1
    decreases |lines|
  {
    var next := match ParseLine(lines[0])
      case None => variables
      case Some(binding) => variables[binding.0 := binding.1];
    assert NoLaterLine(lines[1..], key, if i == 0 then 0 else i) by {
      forall j | (if i == 0 then 0 else i) <= j < |lines[1..]| ensures !LineBinds(lines[1..][j], key) {
        assert lines[1..][j] == lines[j + 1];
      }
    }
    if i == 0 {
      LoadKeeps(next, lines[1..], key);
    } else {
      assert lines[1..][i - 1] == lines[i];
      LoadLastWins(next, lines[1..], key, i - 1);
    }
  }

  /** Loading binds a name exactly when it was bound or some line binds it. */
  lemma {:induction false} LoadDomain(variables: map<string, string>, lines: seq<string>, key: string)
    ensures key in Load(variables, lines) <==> key in variables || exists i | 0 <= i < |lines| :: LineBinds(lines[i], key)
    decreases |lines|
  {
    if exists i | 0 <= i < |lines| :: LineBinds(lines[i], key) {
      var i :| 0 <= i < |lines| && LineBinds(lines[i], key);
      while i + 1 < |lines| && !NoLaterLine(lines, key, i + 1)
        invariant 0 <= i < |lines| && LineBinds(lines[i], key)
        decreases |lines| - i
      {
        var j :| i + 1 <= j < |lines| && LineBinds(lines[j], key);
        i := j;
      }
      LoadLastWins(variables, lines, key, i);
    } else {
      LoadKeeps(variables, lines, key);
    }
  }

  /**
   * Loading a second text keeps every name it does not bind and overrides
   * the names it binds: the result is the union, the later text winning.
   */
  lemma SecondTextOverrides(variables: map<string, string>, first: string, second: string, key: string)
    ensures var lines := SplitOn(second, '\n');
      var after := LoadText(LoadText(variables, first), second);
      && (NoLaterLine(lines, key, 0) ==>
            (key in after <==> key in LoadText(variables, first))
            && (key in LoadText(variables, first) ==> after[key] == LoadText(variables, first)[key]))
      && (forall i | 0 <= i < |lines| && LineBinds(lines[i], key) && NoLaterLine(lines, key, i + 1) ::
            key in after && after[key] == ParseLine(lines[i]).value.1)
  {
    var lines := SplitOn(second, '\n');
    if NoLaterLine(lines, key, 0) {
      LoadKeeps(LoadText(variables, first), lines, key);
    }
    forall i | 0 <= i < |lines| && LineBinds(lines[i], key) && NoLaterLine(lines, key, i + 1)
      ensures key in LoadText(LoadText(variables, first), second)
      ensures LoadText(LoadText(variables, first), second)[key] == ParseLine(lines[i]).value.1
    {
      LoadLastWins(LoadText(variables, first), lines, key, i);
    }
  }

  // ================================================================ substitution

  /** `s.replace(pattern, replacement)`: every non-overlapping occurrence, from the left. */
  function Replace(s: string, pattern: string, replacement: string): string
    requires |pattern| > 0
    decreases |s|
  {
    if |s| < |pattern| then s
    else if s[..|pattern|] == pattern then replacement + Replace(s[|pattern|..], pattern, replacement)
    else [s[0]] + Replace(s[1..], pattern, replacement)
  }

  /** Text without an occurrence comes back unchanged. */
  lemma {:induction false} ReplaceAbsent(s: string, pattern: string, replacement: string)
    requires |pattern| > 0 && !Contains(s, pattern)
    ensures Replace(s, pattern, replacement) == s
    decreases |s|
  {
    if |s| >= |pattern| {
      assert !OccursAt(s, pattern, 0);
      assert !Contains(s[1..], pattern) by {
        forall i | 0 <= i <= |s[1..]| ensures !OccursAt(s[1..], pattern, i) {
          if OccursAt(s[1..], pattern, i) {
            assert s[1..][i..i + |pattern|] == s[i + 1..i + 1 + |pattern|];
            assert OccursAt(s, pattern, i + 1);
          }
        }
      }
      ReplaceAbsent(s[1..], pattern, replacement);
      assert s == [s[0]] + s[1..];
    }
  }

  /** The whole text being one occurrence gives the replacement. */
  lemma ReplaceWhole(pattern: string, replacement: string)
    requires |pattern| > 0
    ensures Replace(pattern, pattern, replacement) == replacement
  {
    assert pattern[..|pattern|] == pattern;
    assert Replace(pattern[|pattern|..], pattern, replacement) == pattern[|pattern|..];
    assert replacement + pattern[|pattern|..] == replacement;
  }

  /** The head `${NAME:` of a fragment with a default. */
  function DefaultHead(name: string): string
  {
    "${" + name + ":"
  }

  /**
   * `re.sub('\${NAME:[^}]*}', value, s)`: from the left, each '${NAME:'
   * followed by a '}' is replaced through the first such '}'.
   */
  function SubDefault(s: string, name: string, value: string): string
    decreases |s|
  {
    var head := DefaultHead(name);
    if |s| < |head| then s
    else if s[..|head|] == head && '}' in s[|head|..] then
      var c := FindChar(s[|head|..], '}');
      value + SubDefault(s[|head| + c + 1..], name, value)
    else [s[0]] + SubDefault(s[1..], name, value)
  }

  /** Text without '${NAME:' comes back unchanged. */
  lemma {:induction false} SubDefaultAbsent(s: string, name: string, value: string)
    requires !Contains(s, DefaultHead(name))
    ensures SubDefault(s, name, value) == s
    decreases |s|
  {
    var head := DefaultHead(name);
    if |s| >= |head| {
      assert !OccursAt(s, head, 0);
      assert !Contains(s[1..], head) by {
        forall i | 0 <= i <= |s[1..]| ensures !OccursAt(s[1..], head, i) {
          if OccursAt(s[1..], head, i) {
            assert s[1..][i..i + |head|] == s[i + 1..i + 1 + |head|];
            assert OccursAt(s, head, i + 1);
          }
        }
      }
      SubDefaultAbsent(s[1..], name, value);
      assert s == [s[0]] + s[1..];
    }
  }

  /** '${NAME:default}' with no '}' in the default becomes the value. */
  lemma SubDefaultWhole(name: string, default: string, value: string)
    requires '}' !in default
    ensures SubDefault(DefaultHead(name) + default + "}", name, value) == value
  {
    var head := DefaultHead(name);
    var s := head + default + "}";
    assert s[..|head|] == head;
    var rest := s[|head|..];
    assert rest == default + "}";
    FindCharAt(rest, '}', |default|);
    assert s[|head| + |default| + 1..] == [];
    assert value + [] == value;
  }

  /** The three rewrites for one bound name. */
  function RewriteOne(s: string, name: string, value: string): string
  {
    var plain := Replace(s, "$" + name, value);
    var braced := Replace(plain, "${" + name + "}", value);
    SubDefault(braced, name, value)
  }

  /** The rewrites for each name in turn. */
  function RewriteAll(s: string, variables: map<string, string>, names: seq<string>): string
    requires forall n | n in names :: n in variables
    decreases |names|
  {
    if names == [] then s
    else RewriteAll(RewriteOne(s, names[0], variables[names[0]]), variables, names[1..])
  }

  /** `replace_variables(content)`, the bound names taken in sorted order. */
  function Rewrite(content: string, variables: map<string, string>): string
  {
    RewriteAll(content, variables, SortedSeq(variables.Keys))
  }

  /** A text that holds `a + b` holds `b`. */
  lemma ContainsTail(s: string, a: string, b: string)
    requires Contains(s, a + b)
    ensures Contains(s, b)
  {
    var i :| 0 <= i <= |s| && OccursAt(s, a + b, i);
    assert s[i + |a|..i + |a| + |b|] == (a + b)[|a|..];
    assert OccursAt(s, b, i + |a|);
  }

  /** A text that holds `a + b` holds `a`. */
  lemma ContainsHead(s: string, a: string, b: string)
    requires Contains(s, a + b)
    ensures Contains(s, a)
  {
    var i :| 0 <= i <= |s| && OccursAt(s, a + b, i);
    assert s[i..i + |a|] == (a + b)[..|a|];
    assert OccursAt(s, a, i);
  }

  /** A text that holds `a + b + c` holds `b`. */
  lemma ContainsMiddle(s: string, a: string, b: string, c: string)
    requires Contains(s, a + b + c)
    ensures Contains(s, b)
  {
    assert a + b + c == a + (b + c);
    ContainsTail(s, a, b + c);
    ContainsHead(s, b, c);
  }

  /** A text that does not mention `name` is left alone by its rewrites. */
  lemma RewriteOneAbsent(s: string, name: string, value: string)
    requires |name| > 0 && !Contains(s, name)
    ensures RewriteOne(s, name, value) == s
  {
    if Contains(s, "$" + name) {
      ContainsTail(s, "$", name);
    }
    ReplaceAbsent(s, "$" + name, value);
    if Contains(s, "${" + name + "}") {
      ContainsMiddle(s, "${", name, "}");
    }
    ReplaceAbsent(s, "${" + name + "}", value);
    if Contains(s, DefaultHead(name)) {
      ContainsMiddle(s, "${", name, ":");
    }
    SubDefaultAbsent(s, name, value);
  }

  lemma {:induction false} RewriteAllAbsent(s: string, variables: map<string, string>, names: seq<string>)
    requires forall n | n in names :: n in variables && |n| > 0 && !Contains(s, n)
    ensures RewriteAll(s, variables, names) == s
    decreases |names|
  {
    if names != [] {
      RewriteOneAbsent(s, names[0], variables[names[0]]);
      RewriteAllAbsent(s, variables, names[1..]);
    }
  }

  /** Content that mentions no bound name (names being non-empty) is returned unchanged. */
  lemma RewriteUntouched(content: string, variables: map<string, string>)
    requires forall n | n in variables :: |n| > 0 && !Contains(content, n)
    ensures Rewrite(content, variables) == content
  {
    RewriteAllAbsent(content, variables, SortedSeq(variables.Keys));
  }

  /** No occurrence of a pattern starting with '$' in text without '$'. */
  lemma NoDollarAt(s: string, pattern: string)
    requires '$' !in s && |pattern| > 0 && pattern[0] == '$'
    ensures !Contains(s, pattern)
  {
    forall i | 0 <= i <= |s| ensures !OccursAt(s, pattern, i) {
      if i + |pattern| <= |s| {
        assert s[i..i + |pattern|][0] == s[i];
      }
    }
  }

  /** '$NAME', '${NAME}' and '${NAME:' do not occur in text with no '$'. */
  lemma NoDollar(s: string, name: string)
    requires '$' !in s
    ensures !Contains(s, "$" + name) && !Contains(s, "${" + name + "}") && !Contains(s, DefaultHead(name))
  {
    NoDollarAt(s, "$" + name);
    NoDollarAt(s, "${" + name + "}");
    NoDollarAt(s, DefaultHead(name));
  }

  /**
   * In text whose only '$' is its first character, a pattern starting with
   * '$' occurs at most at the start.
   */
  lemma DollarOnlyFirst(s: string, pattern: string)
    requires |s| > 0 && '$' !in s[1..] && |pattern| > 0 && pattern[0] == '$'
    requires !OccursAt(s, pattern, 0)
    ensures !Contains(s, pattern)
  {
    forall i | 1 <= i <= |s| ensures !OccursAt(s, pattern, i) {
      if i + |pattern| <= |s| {
        assert s[i..i + |pattern|][0] == s[1..][i - 1];
      }
    }
  }

  /** With one name bound to a value free of '$', '$NAME' becomes the value. */
  lemma PlainReference(name: string, value: string)
    requires IsName(name) && '$' !in value
    ensures RewriteOne("$" + name, name, value) == value
  {
    ReplaceWhole("$" + name, value);
    NoDollar(value, name);
    ReplaceAbsent(value, "${" + name + "}", value);
    SubDefaultAbsent(value, name, value);
  }

  /** '$NAME' does not occur in '${' and a tail without '$'. */
  lemma BracedHasNoPlain(name: string, rest: string)
    requires IsName(name) && '$' !in rest
    ensures !Contains("${" + rest, "$" + name)
  {
    var s := "${" + rest;
    var plain := "$" + name;
    assert s[1..] == "{" + rest;
    if |plain| <= |s| {
      assert s[0..|plain|][1] == '{' && plain[1] == name[0];
    }
    DollarOnlyFirst(s, plain);
  }

  /** With one name bound to a value free of '$', '${NAME}' becomes the value. */
  lemma BracedReference(name: string, value: string)
    requires IsName(name) && '$' !in value
    ensures RewriteOne("${" + name + "}", name, value) == value
  {
    var s := "${" + name + "}";
    assert s == "${" + (name + "}");
    BracedHasNoPlain(name, name + "}");
    ReplaceAbsent(s, "$" + name, value);
    ReplaceWhole(s, value);
    NoDollar(value, name);
    SubDefaultAbsent(value, name, value);
  }

  /** '${NAME}' does not occur in '${NAME:default}' when the default has no '$'. */
  lemma DefaultedHasNoBraced(name: string, default: string)
    requires '$' !in name && '$' !in default
    ensures !Contains(DefaultHead(name) + default + "}", "${" + name + "}")
  {
    var s := DefaultHead(name) + default + "}";
    var braced := "${" + name + "}";
    assert s[1..] == "{" + name + ":" + default + "}";
    assert s[|name| + 2] == ':';
    assert s[0..|braced|][|name| + 2] == ':';
    DollarOnlyFirst(s, braced);
  }

  /** With one name bound to a value free of '$', '${NAME:default}' becomes the value. */
  lemma DefaultedReference(name: string, default: string, value: string)
    requires IsName(name) && '$' !in value && '}' !in default && '$' !in default
    ensures RewriteOne(DefaultHead(name) + default + "}", name, value) == value
  {
    var s := DefaultHead(name) + default + "}";
    assert s == "${" + (name + ":" + default + "}");
    BracedHasNoPlain(name, name + ":" + default + "}");
    ReplaceAbsent(s, "$" + name, value);
    forall k | 0 <= k < |name| ensures name[k] != '$' {
      assert IsWordChar(name[k]);
    }
    DefaultedHasNoBraced(name, default);
    ReplaceAbsent(s, "${" + name + "}", value);
    SubDefaultWhole(name, default, value);
  }

  // ================================================================ the bindings object

  class Bindings {
    /** The variable bindings. */
    var variables: map<string, string>

    constructor ()
      ensures variables == map[]
    {
      variables := map[];
    }

    /** A new object holding a copy of the bindings: setting a variable on it leaves this one alone. */
    method Clone() returns (copy: Bindings)
      ensures fresh(copy) && copy.variables == variables
    {
      copy := new Bindings();
      copy.variables := copy.variables + variables;
    }

    /** `get_variable(name, default)`. */
    function GetVariable(name: string, default: string): (r: string)
      reads this
      ensures name in variables ==> r == variables[name]
      ensures name !in variables ==> r == default
    {
      if name in variables then variables[name] else default
    }

    method SetVariable(name: string, value: string)
      modifies this
      ensures variables == old(variables)[name := value]
      ensures GetVariable(name, value) == value
    {
      variables := variables[name := value];
    }

    /** `update_from_config` with the file's text: the loop over the matches, one per line at most. */
    method UpdateFromConfig(content: string)
      modifies this
      ensures variables == LoadText(old(variables), content)
    {
      var lines := SplitOn(content, '\n');
      var i := 0;
      while i < |lines|
        invariant 0 <= i <= |lines|
        invariant Load(variables, lines[i..]) == LoadText(old(variables), content)
      {
        assert lines[i..][0] == lines[i] && lines[i..][1..] == lines[i + 1..];
        match ParseLine(lines[i]) {
          case None =>
          case Some(binding) =>
            variables := variables[binding.0 := binding.1];
        }
        i := i + 1;
      }
    }

    /** `replace_variables(content)`: the loop over the bindings, each applying its three rewrites. */
    method ReplaceVariables(content: string) returns (result: string)
      ensures result == Rewrite(content, variables)
    {
      var names := SortedSeq(variables.Keys);
      result := content;
      var i := 0;
      while i < |names|
        invariant 0 <= i <= |names|
        invariant RewriteAll(result, variables, names[i..]) == Rewrite(content, variables)
      {
        var name := names[i];
        var value := variables[name];
        assert names[i..][0] == name && names[i..][1..] == names[i + 1..];
        result := Replace(result, "$" + name, value);
        result := Replace(result, "${" + name + "}", value);
        result := SubDefault(result, name, value);
        i := i + 1;
      }
    }
  }
}
