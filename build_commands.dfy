/**
 * The outcome bookkeeping of the gradle builds: the failure summary read
 * from gradle's output, the labels that classify an outcome, the
 * `GradleOutcome` counter that counts it, and the checks the Debian build
 * makes of its publishing options.
 */
module BuildCommands {
  import opened Wrappers
  import opened Text
  import Git
  import BaseMetrics

  // ================================================================ extract_failure_summary

  /** The text before the task name in `Execution failed for task '(.+)'.*\n`. */
  const ExecutionFailed := "Execution failed for task '"

  /** The first `k` in `[i, n)` that `p` holds of: how a regex search scans its start positions. */
  function FirstWhere(p: nat -> bool, i: nat, n: nat): (r: Option<nat>)
    ensures r.Some? ==> i <= r.value < n && p(r.value)
    decreases n - i
  {
    if i >= n then None
    else if p(i) then Some(i)
    else FirstWhere(p, i + 1, n)
  }

  /** The scan finds the first position that holds, and none when none does. */
  lemma {:induction false} FirstWhereSpec(p: nat -> bool, i: nat, n: nat)
    ensures FirstWhere(p, i, n).None? <==> forall k | i <= k < n :: !p(k)
    ensures FirstWhere(p, i, n).Some? ==> forall k | i <= k < FirstWhere(p, i, n).value :: !p(k)
    decreases n - i
  {
    if i < n && !p(i) {
      FirstWhereSpec(p, i + 1, n);
    }
  }

  /** A position that holds, with none before it, is the one the scan finds. */
  lemma {:induction false} FirstWhereAt(p: nat -> bool, i: nat, n: nat, v: nat)
    requires i <= v < n && p(v) && forall k | i <= k < v :: !p(k)
    ensures FirstWhere(p, i, n) == Some(v)
    decreases v - i
  {
    if i < v {
      FirstWhereAt(p, i + 1, n, v);
    }
  }

  /**
   * The pattern `<marker>(.+)'.*\n` matches at `i`: the marker, then, on
   * the same newline-terminated line, a quote after at least one character
   * of task name.
   */
  predicate SummaryAt(marker: string, output: string, i: nat)
  {
    && OccursAt(output, marker, i)
    && var s := i + |marker|;
       var e := LineEnd(output, s);
       e < |output| && s < e && '\'' in output[s + 1..e]
  }

  /** The positions where the summary pattern matches. */
  function SummaryMatches(marker: string, output: string): nat -> bool
  {
    (k: nat) => SummaryAt(marker, output, k)
  }

  /**
   * `remainder[:remainder.find('\n')]`: the text before the first newline;
   * without one, `find`'s -1 makes the slice drop the last character.
   */
  function FirstLine(remainder: string): string
  {
    var k := FindChar(remainder, '\n');
    if k >= 0 then remainder[..k] else if remainder == [] then [] else remainder[..|remainder| - 1]
  }

  /** The failed task and the line that follows the summary. */
  datatype FailureSummary = FailureSummary(task: string, line: string)

  /**
   * The match at `i`: group 1, which the greedy `(.+)` runs to the last
   * quote of the line, and the line after the match.
   */
  function SummaryOf(marker: string, output: string, i: nat): FailureSummary
    requires SummaryAt(marker, output, i)
  {
    var s := i + |marker|;
    var e := LineEnd(output, s);
    var q := s + 1 + RFindChar(output[s + 1..e], '\'');
    FailureSummary(output[s..q], FirstLine(output[e + 1..]))
  }

  /** `re.search("<marker>(.+)'.*\n", output, re.MULTILINE)`, read as a failure summary. */
  function SearchSummary(marker: string, output: string): Option<FailureSummary>
  {
    match FirstWhere(SummaryMatches(marker, output), 0, |output|)
    case None => None
    case Some(i) => Some(SummaryOf(marker, output, i))
  }

  /**
   * `extract_failure_summary`: None (the pair `(None, None)`) for a zero
   * return code or output without a match; otherwise the task and line of
   * the first match.
   */
  function ExtractFailureSummary(retcode: int, output: string): Option<FailureSummary>
  {
    if retcode == 0 then None else SearchSummary(ExecutionFailed, output)
  }

  /** A search finds a summary exactly when the pattern matches somewhere. */
  lemma SearchSummaryFound(marker: string, output: string)
    ensures SearchSummary(marker, output).None? <==> forall k | 0 <= k < |output| :: !SummaryAt(marker, output, k)
  {
    FirstWhereSpec(SummaryMatches(marker, output), 0, |output|);
    forall k | 0 <= k < |output| ensures SummaryMatches(marker, output)(k) == SummaryAt(marker, output, k) {
    }
  }

  /** No summary for a zero return code; otherwise one exactly when the pattern matches somewhere. */
  lemma ExtractFailureSummaryFound(retcode: int, output: string)
    ensures retcode == 0 ==> ExtractFailureSummary(retcode, output).None?
    ensures retcode != 0 ==>
      (ExtractFailureSummary(retcode, output).None? <==>
         forall k | 0 <= k < |output| :: !SummaryAt(ExecutionFailed, output, k))
  {
    SearchSummaryFound(ExecutionFailed, output);
  }

  /** A matched task is never empty, and neither it nor the line after holds a newline. */
  lemma SummaryOfLines(marker: string, output: string, i: nat)
    requires SummaryAt(marker, output, i)
    ensures var summary := SummaryOf(marker, output, i);
      summary.task != [] && '\n' !in summary.task && '\n' !in summary.line
  {
    var s := i + |marker|;
    var e := LineEnd(output, s);
    var q := s + 1 + RFindChar(output[s + 1..e], '\'');
    SliceFree(output, s, q, '\n');
    FirstLineFree(output[e + 1..]);
  }

  /** The task is never empty, and neither the task nor the line holds a newline. */
  lemma ExtractFailureSummaryLines(retcode: int, output: string)
    requires ExtractFailureSummary(retcode, output).Some?
    ensures var summary := ExtractFailureSummary(retcode, output).value;
      summary.task != [] && '\n' !in summary.task && '\n' !in summary.line
  {
    var i := FirstWhere(SummaryMatches(ExecutionFailed, output), 0, |output|).value;
    SummaryOfLines(ExecutionFailed, output, i);
  }

  /** A stretch of text without `c` at any index has no `c` in its slice. */
  lemma SliceFree(t: string, i: nat, j: nat, c: char)
    requires i <= j <= |t| && forall k | i <= k < j :: t[k] != c
    ensures c !in t[i..j]
  {
    forall k | 0 <= k < j - i ensures t[i..j][k] != c {
      assert t[i..j][k] == t[i + k];
    }
  }

  /** The first line of a text holds no newline. */
  lemma FirstLineFree(remainder: string)
    ensures '\n' !in FirstLine(remainder)
  {
    var k := FindChar(remainder, '\n');
    if k < 0 && remainder != [] {
      assert forall c | c in remainder[..|remainder| - 1] :: c in remainder;
    }
  }

  /** A newline at `m` with none from `i` on before it ends the line at `m`. */
  lemma LineEndAt(s: string, i: nat, m: nat)
    requires i <= m < |s| && s[m] == '\n' && forall q | i <= q < m :: s[q] != '\n'
    ensures LineEnd(s, i) == m
  {
  }

  /**
   * A report read back: after text without an earlier marker, the marker,
   * a task (non-empty, one line) whose closing quote is the last on its
   * line, and the next line, the search finds that task and that line.
   */
  lemma SearchSummaryOf(marker: string, pre: string, task: string, tail: string, line: string, post: string)
    requires marker != [] && Find(pre + marker, marker) == |pre|
    requires task != [] && '\n' !in task && '\n' !in tail && '\'' !in tail && '\n' !in line
    ensures SearchSummary(marker, pre + marker + task + "'" + tail + "\n" + line + "\n" + post)
            == Some(FailureSummary(task, line))
  {
    var output := pre + marker + task + "'" + tail + "\n" + line + "\n" + post;
    var i, s := |pre|, |pre| + |marker|;
    var q := s + |task|;
    var e := q + 1 + |tail|;
    assert output[..s] == pre + marker;
    assert output[s..q] == task;
    assert output[q] == '\'';
    assert output[q + 1..e] == tail;
    assert output[e] == '\n';
    assert output[e + 1..] == line + "\n" + post;
    NoEarlierSummary(marker, pre, output);
    forall k | s <= k < e ensures output[k] != '\n' {
      if k < q { assert output[k] == task[k - s]; }
      else if k > q { assert output[k] == tail[k - q - 1]; }
    }
    forall k | q < k < e ensures output[k] != '\'' {
      assert output[k] == tail[k - q - 1];
    }
    SummaryAtParts(marker, output, i, q, e);
    FirstLineOf(line, post);
    FirstWhereAt(SummaryMatches(marker, output), 0, |output|, i);
  }

  /**
   * The marker at `i`, then at least one character, a quote at `q` that is
   * the last on its line, and the newline at `e`: a match, read as the text
   * before the quote and the line after the newline.
   */
  lemma SummaryAtParts(marker: string, output: string, i: nat, q: nat, e: nat)
    requires OccursAt(output, marker, i) && i + |marker| < q < e < |output|
    requires output[q] == '\'' && output[e] == '\n'
    requires forall k | i + |marker| <= k < e :: output[k] != '\n'
    requires forall k | q < k < e :: output[k] != '\''
    ensures SummaryAt(marker, output, i)
    ensures SummaryOf(marker, output, i) == FailureSummary(output[i + |marker|..q], FirstLine(output[e + 1..]))
  {
    var s := i + |marker|;
    LineEndAt(output, s, e);
    var slice := output[s + 1..e];
    assert slice[q - s - 1] == '\'';
    forall j | q - s - 1 < j < |slice| ensures slice[j] != '\'' {
      assert slice[j] == output[s + 1 + j];
    }
    RFindCharAt(slice, '\'', q - s - 1);
    SummaryOfAt(marker, output, i, q, e);
  }

  /** The match at `i` read through the end of its line and its last quote. */
  lemma SummaryOfAt(marker: string, output: string, i: nat, q: nat, e: nat)
    requires SummaryAt(marker, output, i) && LineEnd(output, i + |marker|) == e
    requires i + |marker| + 1 <= q && RFindChar(output[i + |marker| + 1..e], '\'') == q - (i + |marker| + 1)
    ensures SummaryOf(marker, output, i) == FailureSummary(output[i + |marker|..q], FirstLine(output[e + 1..]))
  {
  }

  /** Where the marker first occurs after `pre`, no earlier position matches. */
  lemma NoEarlierSummary(marker: string, pre: string, output: string)
    requires marker != [] && Find(pre + marker, marker) == |pre|
    requires |pre| + |marker| <= |output| && output[..|pre| + |marker|] == pre + marker
    ensures forall k | 0 <= k < |pre| :: !SummaryMatches(marker, output)(k)
  {
    FindSpec(pre + marker, marker);
    forall k | 0 <= k < |pre| ensures !OccursAt(output, marker, k) {
      if OccursAt(output, marker, k) {
        assert output[k..k + |marker|] == (pre + marker)[k..k + |marker|];
        assert OccursAt(pre + marker, marker, k);
      }
    }
  }

  /** The gradle report read back, for the `Execution failed for task '` marker. */
  lemma ExtractFailureSummaryOf(retcode: int, pre: string, task: string, tail: string, line: string, post: string)
    requires retcode != 0
    requires Find(pre + ExecutionFailed, ExecutionFailed) == |pre|
    requires task != [] && '\n' !in task && '\n' !in tail && '\'' !in tail && '\n' !in line
    ensures ExtractFailureSummary(retcode, pre + ExecutionFailed + task + "'" + tail + "\n" + line + "\n" + post)
            == Some(FailureSummary(task, line))
  {
    SearchSummaryOf(ExecutionFailed, pre, task, tail, line, post);
  }

  /** The first line of `<line>\n<post>` is `<line>`. */
  lemma FirstLineOf(line: string, post: string)
    requires '\n' !in line
    ensures FirstLine(line + "\n" + post) == line
  {
    var remainder := line + "\n" + post;
    FindCharAt(remainder, '\n', |line|);
    assert remainder[..|line|] == line;
  }

  // ================================================================ update_failure_cause

  /** The text that follows the quoted target in `': HTTP/[0-9\.]+ ([0-9]{3}) ([\w]+)`. */
  const HttpMarker := "': HTTP/"

  /** A character of `[0-9\.]`. */
  predicate IsVersionChar(c: char) { IsDigit(c) || c == '.' }

  /** The end of the run of `[0-9\.]` characters from `i`, as the greedy `+` takes it. */
  function VersionRunEnd(s: string, i: nat): (e: nat)
    requires i <= |s|
    ensures i <= e <= |s| && (e < |s| ==> !IsVersionChar(s[e]))
    ensures forall q | i <= q < e :: IsVersionChar(s[q])
    decreases |s| - i
  {
    if i == |s| || !IsVersionChar(s[i]) then i else VersionRunEnd(s, i + 1)
  }

  /**
   * `': HTTP/[0-9\.]+ ([0-9]{3}) ([\w]+)` matches at `v`: the quote closing
   * the target, the protocol version, a blank, three digits, a blank and a
   * word character (the trailing `(.*)` takes anything).
   */
  predicate CauseAt(line: string, v: nat)
  {
    && OccursAt(line, HttpMarker, v)
    && var a := v + |HttpMarker|;
       var b := VersionRunEnd(line, a);
       && a < b && b + 5 < |line|
       && line[b] == ' ' && IsDigit(line[b + 1]) && IsDigit(line[b + 2]) && IsDigit(line[b + 3])
       && line[b + 4] == ' ' && IsWordChar(line[b + 5])
  }

  /** Group 3 of a match at `v`: the three-digit HTTP status. */
  function HttpCode(line: string, v: nat): (code: string)
    requires CauseAt(line, v)
    ensures |code| == 3 && forall k | 0 <= k < 3 :: IsDigit(code[k])
  {
    var b := VersionRunEnd(line, v + |HttpMarker|);
    line[b + 1..b + 4]
  }

  /** The positions where the HTTP part of the cause pattern matches. */
  function CauseMatches(line: string): nat -> bool
  {
    (k: nat) => CauseAt(line, k)
  }

  /** The quoted target (group 2) and the HTTP status (group 3). */
  datatype Cause = Cause(thing: string, code: string)

  /**
   * `re.match(r"[> ]*(.*?)'(.+?)': HTTP/[0-9\.]+ ([0-9]{3}) ([\w]+)(.*)", line)`.
   * No part of the pattern crosses a newline, so only the first line counts.
   * The lazy groups make the target start after the first quote and end at
   * the first place after it where the HTTP part matches; no later quote can
   * do better, since it would need a match further on still.
   */
  function MatchCause(summaryLine: string): Option<Cause>
  {
    var line := summaryLine[..LineEnd(summaryLine, 0)];
    var q := FindChar(line, '\'');
    if q < 0 then None
    else
      match FirstWhere(CauseMatches(line), q + 2, |line|)
      case None => None
      case Some(v) => Some(Cause(line[q + 1..v], HttpCode(line, v)))
  }

  /** A parsed cause has a non-empty target and a three-digit status. */
  lemma MatchCauseSpec(summaryLine: string)
    ensures MatchCause(summaryLine).Some? ==>
      var c := MatchCause(summaryLine).value;
      c.thing != [] && |c.code| == 3 && forall k | 0 <= k < 3 :: IsDigit(c.code[k])
  {
  }

  /**
   * The gradle cause read back: after text without a quote, a quoted target
   * with no quote of its own, then `': HTTP/<version> <code> <word>...`,
   * the cause is that target and that code.
   */
  lemma MatchCauseOf(prefix: string, thing: string, version: string, code: string, word: string, rest: string)
    requires '\'' !in prefix && '\'' !in thing && thing != []
    requires version != [] && forall k | 0 <= k < |version| :: IsVersionChar(version[k])
    requires |code| == 3 && forall k | 0 <= k < 3 :: IsDigit(code[k])
    requires word != [] && IsWordChar(word[0])
    requires '\n' !in prefix + thing + version + code + word + rest
    ensures MatchCause(prefix + "'" + thing + HttpMarker + version + " " + code + " " + word + rest)
            == Some(Cause(thing, code))
  {
    var line := prefix + "'" + thing + HttpMarker + version + " " + code + " " + word + rest;
    var q := |prefix|;
    var v := q + 1 + |thing|;
    var a := v + |HttpMarker|;
    var b := a + |version|;
    assert line[q] == '\'';
    assert line[q + 1..v] == thing;
    assert line[v..a] == HttpMarker;
    assert line[b + 1..b + 4] == code;
    forall k | 0 <= k < q ensures line[k] != '\'' {
      assert line[k] == prefix[k];
    }
    forall k | a <= k < b ensures IsVersionChar(line[k]) {
      assert line[k] == version[k - a];
    }
    assert line[b] == ' ' && line[b + 4] == ' ' && line[b + 5] == word[0];
    CauseAtParts(line, v, b);
    forall k | q + 2 <= k < v ensures line[k] != '\'' {
      assert line[k] == thing[k - q - 1];
    }
    NoCauseWithoutQuote(line, q + 2, v);
    CauseLineFree(prefix, thing, version, code, word, rest);
    MatchCauseAt(line, q, v);
  }

  /** The HTTP part at `v`, its version running to the blank at `b`, three digits, a blank and a word character. */
  lemma CauseAtParts(line: string, v: nat, b: nat)
    requires OccursAt(line, HttpMarker, v) && v + |HttpMarker| < b && b + 5 < |line|
    requires forall k | v + |HttpMarker| <= k < b :: IsVersionChar(line[k])
    requires line[b] == ' ' && IsDigit(line[b + 1]) && IsDigit(line[b + 2]) && IsDigit(line[b + 3])
    requires line[b + 4] == ' ' && IsWordChar(line[b + 5])
    ensures CauseAt(line, v) && HttpCode(line, v) == line[b + 1..b + 4]
  {
    VersionRunEndAt(line, v + |HttpMarker|, b);
  }

  /**
   * On a line without a newline, the first quote at `q` and the first match
   * of the HTTP part at or after `q + 2` at `v`: the target between them and
   * the status there.
   */
  lemma MatchCauseAt(line: string, q: nat, v: nat)
    requires '\n' !in line
    requires q < |line| && line[q] == '\'' && forall k | 0 <= k < q :: line[k] != '\''
    requires q + 2 <= v && CauseAt(line, v) && forall k | q + 2 <= k < v :: !CauseAt(line, k)
    ensures MatchCause(line) == Some(Cause(line[q + 1..v], HttpCode(line, v)))
  {
    LineEndAll(line, 0);
    assert line[..|line|] == line;
    FindCharAt(line, '\'', q);
    forall k | q + 2 <= k < v ensures !CauseMatches(line)(k) {
    }
    FirstWhereAt(CauseMatches(line), q + 2, |line|, v);
  }

  /** The HTTP part opens with a quote, so it matches nowhere in a stretch without one. */
  lemma NoCauseWithoutQuote(line: string, lo: nat, hi: nat)
    requires lo <= hi <= |line| && forall k | lo <= k < hi :: line[k] != '\''
    ensures forall k | lo <= k < hi :: !CauseAt(line, k)
  {
    forall k | lo <= k < hi ensures !OccursAt(line, HttpMarker, k) {
      if k + |HttpMarker| <= |line| {
        assert line[k..k + |HttpMarker|][0] == line[k];
      }
    }
  }

  /** A line without a newline ends at the end of the text. */
  lemma {:induction false} LineEndAll(s: string, i: nat)
    requires i <= |s| && '\n' !in s
    ensures LineEnd(s, i) == |s|
    decreases |s| - i
  {
    if i < |s| {
      assert s[i] in s;
      LineEndAll(s, i + 1);
    }
  }

  /** The assembled cause line holds no newline. */
  lemma CauseLineFree(prefix: string, thing: string, version: string, code: string, word: string, rest: string)
    requires '\n' !in prefix + thing + version + code + word + rest
    ensures '\n' !in prefix + "'" + thing + HttpMarker + version + " " + code + " " + word + rest
  {
    var parts := prefix + thing + version + code + word + rest;
    assert forall c | c in prefix :: c in parts;
    assert forall c | c in thing :: c in parts;
    assert forall c | c in version :: c in parts;
    assert forall c | c in code :: c in parts;
    assert forall c | c in word :: c in parts;
    assert forall c | c in rest :: c in parts;
  }

  /** A run of version characters ended by one that is not ends where it ends. */
  lemma {:induction false} VersionRunEndAt(s: string, i: nat, e: nat)
    requires i <= e < |s| && !IsVersionChar(s[e]) && forall k | i <= k < e :: IsVersionChar(s[k])
    ensures VersionRunEnd(s, i) == e
    decreases e - i
  {
    if i < e {
      VersionRunEndAt(s, i + 1, e);
    }
  }

  // ================================================================ labels

  /** The labels of one gradle outcome. */
  datatype GradleLabels = GradleLabels(
    repository: string,
    context: string,
    success: bool,
    failedTask: string,
    failedBy: string,
    failedReason: string)

  /** The labels as the counter is keyed by them; the boolean is shown as Python prints it. */
  function LabelMap(labels: GradleLabels): map<string, string>
  {
    map["repository" := labels.repository, "context" := labels.context,
        "success" := if labels.success then "True" else "False",
        "failed_task" := labels.failedTask, "failed_by" := labels.failedBy,
        "failed_reason" := labels.failedReason]
  }

  /**
   * `update_failure_cause`: the task, 'bintray' when the target names
   * bintray.com (else 'unknown'), and the HTTP status; both 'unknown' for a
   * line the pattern does not match. `re.match` on the None of a missing
   * summary raises TypeError.
   */
  function UpdateFailureCause(labels: GradleLabels, summary: Option<FailureSummary>): Result<GradleLabels>
  {
    match summary
    case None => Raise(TypeError("expected string or buffer"))
    case Some(FailureSummary(task, line)) =>
      match MatchCause(line)
      case None => Ok(labels.(failedTask := task, failedBy := "unknown", failedReason := "unknown"))
      case Some(Cause(thing, code)) =>
        Ok(labels.(failedTask := task, failedBy := if Find(thing, "bintray.com") >= 0 then "bintray" else "unknown",
                   failedReason := code))
  }

  /** `determine_labels`: success labels for a zero return code, the failure cause otherwise. */
  function DetermineLabels(repository: string, context: string, retcode: int, output: string): Result<GradleLabels>
  {
    var labels := GradleLabels(repository, context, retcode == 0, "", "", "");
    if retcode == 0 then Ok(labels)
    else UpdateFailureCause(labels, ExtractFailureSummary(retcode, output))
  }

  /** A zero return code is a success, with every failure label blank whatever the output. */
  lemma SuccessLabels(repository: string, context: string, output: string)
    ensures DetermineLabels(repository, context, 0, output)
            == Ok(GradleLabels(repository, context, true, "", "", ""))
  {
  }

  /**
   * A non-zero return code is a failure: TypeError exactly when the output
   * has no summary; otherwise the task is the summary's, the reason the
   * line's three-digit status, or 'unknown' with 'unknown' blame when the
   * line does not parse, and the blame is 'bintray' exactly when the target
   * contains 'bintray.com'.
   */
  lemma FailureLabels(repository: string, context: string, retcode: int, output: string)
    requires retcode != 0
    ensures DetermineLabels(repository, context, retcode, output).Raise? <==>
            forall k | 0 <= k < |output| :: !SummaryAt(ExecutionFailed, output, k)
    ensures DetermineLabels(repository, context, retcode, output).Ok? ==>
      var labels := DetermineLabels(repository, context, retcode, output).value;
      var summary := ExtractFailureSummary(retcode, output).value;
      && labels.repository == repository && labels.context == context && !labels.success
      && labels.failedTask == summary.task && labels.failedTask != []
      && (MatchCause(summary.line).None? ==> labels.failedBy == "unknown" && labels.failedReason == "unknown")
      && (MatchCause(summary.line).Some? ==>
            && labels.failedReason == MatchCause(summary.line).value.code && |labels.failedReason| == 3
            && (labels.failedBy == "bintray" <==> Contains(MatchCause(summary.line).value.thing, "bintray.com"))
            && (labels.failedBy != "bintray" ==> labels.failedBy == "unknown"))
  {
    ExtractFailureSummaryFound(retcode, output);
    var summary := ExtractFailureSummary(retcode, output);
    if summary.Some? {
      ExtractFailureSummaryLines(retcode, output);
      MatchCauseSpec(summary.value.line);
      if MatchCause(summary.value.line).Some? {
        FindSpec(MatchCause(summary.value.line).value.thing, "bintray.com");
      }
    }
  }

  /** The label keys are always the same six. */
  lemma LabelMapKeys(labels: GradleLabels)
    ensures LabelMap(labels).Keys == {"repository", "context", "success", "failed_task", "failed_by", "failed_reason"}
  {
  }

  // ================================================================ the updater

  /** The counter family every gradle outcome is counted in. */
  const GradleOutcome := "GradleOutcome"

  /** `GradleMetricsUpdater`: the hook called with gradle's return code and output. */
  class GradleMetricsUpdater {
    const metrics: BaseMetrics.Registry
    const name: string
    const context: string

    constructor (metrics: BaseMetrics.Registry, repository: Git.RemoteGitRepository, gradleContextName: string)
      ensures this.metrics == metrics && name == repository.name && context == gradleContextName
    {
      this.metrics := metrics;
      name := repository.name;
      context := gradleContextName;
    }

    /** The counter labels of an outcome, or the error computing them raises. */
    function Outcome(retcode: int, output: string): Result<map<string, string>>
    {
      match DetermineLabels(name, context, retcode, output)
      case Raise(e) => Raise(e)
      case Ok(labels) => Ok(LabelMap(labels))
    }

    /** The counter objects recording an outcome may touch: the one already held for its labels. */
    function OutcomeObjects(outcome: Result<map<string, string>>): set<object>
      reads metrics`families, metrics.FamilyObjects(GradleOutcome)
    {
      match outcome
      case Raise(_) => {}
      case Ok(labels) => metrics.ExistingObjects(GradleOutcome, labels)
    }

    /**
     * `__call__`: determine the outcome's labels, then record it.
     */
    method Call(retcode: int, output: string, now: BaseMetrics.Time) returns (r: Result<BaseMetrics.Instance>)
      requires metrics.Valid()
      modifies metrics`families, metrics`updated, metrics.FamilyObjects(GradleOutcome)
      modifies OutcomeObjects(Outcome(retcode, output))
      ensures metrics.Valid()
      ensures Outcome(retcode, output).Raise? ==>
        r == Raise(Outcome(retcode, output).error) && metrics.families == old(metrics.families)
        && metrics.updated == old(metrics.updated)
      ensures Outcome(retcode, output).Ok? ==>
        && GradleOutcome in metrics.families
        && metrics.families == old(metrics.families)[GradleOutcome := metrics.families[GradleOutcome]]
        && (GradleOutcome in old(metrics.families) ==> metrics.families == old(metrics.families))
      ensures Outcome(retcode, output).Ok? && GradleOutcome in old(metrics.families)
              && old(metrics.families)[GradleOutcome].familyType != BaseMetrics.COUNTER ==>
        r.Raise? && r.error.TypeError? && metrics.updated == old(metrics.updated)
      ensures r.Ok? ==>
        var labels := Outcome(retcode, output).value;
        && metrics.Existing(GradleOutcome, labels) == Some(r.value) && r.value.CounterOf?
        && metrics.CountOf(GradleOutcome, labels) == old(metrics.CountOf(GradleOutcome, labels)) + 1
        && r.value.counter.lastModified == Some(now)
        && metrics.updated == old(metrics.updated) + {r.value}
      ensures Outcome(retcode, output).Ok? &&
              (GradleOutcome !in old(metrics.families) || old(metrics.families)[GradleOutcome].familyType == BaseMetrics.COUNTER) ==>
        r.Ok?
    {
      r := Record(Outcome(retcode, output), now);
    }

    /**
     * Recording an outcome: register the `GradleOutcome` counter family (kept
     * when it exists), then increment the one counter of the outcome's labels
     * and return it. A label error and a `GradleOutcome` family of another
     * type raise, and nothing is counted.
     */
    method Record(outcome: Result<map<string, string>>, now: BaseMetrics.Time) returns (r: Result<BaseMetrics.Instance>)
      requires metrics.Valid()
      modifies metrics`families, metrics`updated, metrics.FamilyObjects(GradleOutcome), OutcomeObjects(outcome)
      ensures metrics.Valid()
      ensures outcome.Raise? ==>
        r == Raise(outcome.error) && metrics.families == old(metrics.families) && metrics.updated == old(metrics.updated)
      ensures outcome.Ok? ==>
        && GradleOutcome in metrics.families
        && metrics.families == old(metrics.families)[GradleOutcome := metrics.families[GradleOutcome]]
        && (GradleOutcome in old(metrics.families) ==> metrics.families == old(metrics.families))
      ensures outcome.Ok? && GradleOutcome in old(metrics.families)
              && old(metrics.families)[GradleOutcome].familyType != BaseMetrics.COUNTER ==>
        r.Raise? && r.error.TypeError? && metrics.updated == old(metrics.updated)
      ensures r.Ok? ==>
        && metrics.Existing(GradleOutcome, outcome.value) == Some(r.value) && r.value.CounterOf?
        && metrics.CountOf(GradleOutcome, outcome.value) == old(metrics.CountOf(GradleOutcome, outcome.value)) + 1
        && r.value.counter.lastModified == Some(now)
        && metrics.updated == old(metrics.updated) + {r.value}
      ensures outcome.Ok? &&
              (GradleOutcome !in old(metrics.families) || old(metrics.families)[GradleOutcome].familyType == BaseMetrics.COUNTER) ==>
        r.Ok?
    {
      if outcome.Raise? {
        return Raise(outcome.error);
      }
      r := RecordLabels(outcome.value, now);
    }

    /** `Record` for labels that were made without error. */
    method RecordLabels(labels: map<string, string>, now: BaseMetrics.Time) returns (r: Result<BaseMetrics.Instance>)
      requires metrics.Valid()
      modifies metrics`families, metrics`updated, metrics.FamilyObjects(GradleOutcome), metrics.ExistingObjects(GradleOutcome, labels)
      ensures metrics.Valid()
      ensures GradleOutcome in metrics.families
      ensures metrics.families == old(metrics.families)[GradleOutcome := metrics.families[GradleOutcome]]
      ensures GradleOutcome in old(metrics.families) ==> metrics.families == old(metrics.families)
      ensures r.Ok? <==> metrics.families[GradleOutcome].familyType == BaseMetrics.COUNTER
      ensures GradleOutcome !in old(metrics.families) ==> metrics.families[GradleOutcome].familyType == BaseMetrics.COUNTER
      ensures r.Raise? ==> r.error.TypeError? && metrics.updated == old(metrics.updated)
      ensures r.Ok? ==>
        && metrics.Existing(GradleOutcome, labels) == Some(r.value) && r.value.CounterOf?
        && metrics.CountOf(GradleOutcome, labels) == old(metrics.CountOf(GradleOutcome, labels)) + 1
        && r.value.counter.lastModified == Some(now)
        && metrics.updated == old(metrics.updated) + {r.value}
    {
      ghost var before := metrics.CountOf(GradleOutcome, labels);
      ghost var objects := metrics.ExistingObjects(GradleOutcome, labels);
      var _ := metrics.RegisterFamily(GradleOutcome, "Outcomes when running gradle", SortedSeq(labels.Keys),
                                      BaseMetrics.MakeCounter, BaseMetrics.COUNTER);
      assert metrics.ExistingObjects(GradleOutcome, labels) == objects;
      assert metrics.CountOf(GradleOutcome, labels) == before;
      r := Count(labels, now);
    }

    /** `counter = self.__metrics.counter('GradleOutcome', labels); counter.inc()`. */
    method Count(labels: map<string, string>, now: BaseMetrics.Time) returns (r: Result<BaseMetrics.Instance>)
      requires metrics.Valid() && GradleOutcome in metrics.families
      modifies metrics`updated, metrics.FamilyObjects(GradleOutcome), metrics.ExistingObjects(GradleOutcome, labels)
      ensures metrics.Valid() && metrics.families == old(metrics.families)
      ensures r.Ok? <==> metrics.families[GradleOutcome].familyType == BaseMetrics.COUNTER
      ensures r.Raise? ==> r.error.TypeError? && metrics.updated == old(metrics.updated)
      ensures r.Ok? ==>
        && metrics.Existing(GradleOutcome, labels) == Some(r.value) && r.value.CounterOf?
        && metrics.CountOf(GradleOutcome, labels) == old(metrics.CountOf(GradleOutcome, labels)) + 1
        && r.value.counter.lastModified == Some(now)
        && metrics.updated == old(metrics.updated) + {r.value}
    {
      ghost var before := metrics.CountOf(GradleOutcome, labels);
      var m := metrics.Metric(GradleOutcome, labels, BaseMetrics.COUNTER);
      match m {
        case Raise(e) => r := Raise(e);
        case Ok(instance) =>
          var c := instance.counter;
          assert c.count == before;
          c.Inc(1, None, now);
          r := Ok(instance);
      }
    }
  }

  // ================================================================ the Debian build options

  /** The distributions every Debian package is published for. */
  const Distribution := "trusty,xenial"

  const JarRepositoryMessage :=
    "Expected --build_jar_repository in the form <repo> using the implied owner from --build_bintray_repository"
  const BintrayRepositoryMessage := "Expected --build_bintray_repository to be in the form <owner>/<repo>"

  /** Python truthiness of an optional string: set and non-empty. */
  predicate Truthy(o: Option<string>) { o.Some? && o.value != "" }

  /**
   * `BuildDebianCommand._do_append_extra_args`: the credentials must be in
   * the environment (KeyError otherwise) and non-empty (ValueError), the jar
   * repository a non-empty name without '/', the bintray repository exactly
   * `<owner>/<repo>`; the extra arguments then gain the bintray properties.
   */
  function DebianExtraArgs(extraArgs: seq<string>, environ: map<string, string>,
                           buildJarRepository: Option<string>, buildBintrayRepository: Option<string>)
    : Result<seq<string>>
  {
    if "BINTRAY_KEY" !in environ then Raise(KeyError("BINTRAY_KEY"))
    else if "BINTRAY_USER" !in environ then Raise(KeyError("BINTRAY_USER"))
    else if environ["BINTRAY_KEY"] == "" then Raise(ValueError("Expected BINTRAY_KEY set."))
    else if environ["BINTRAY_USER"] == "" then Raise(ValueError("Expected BINTRAY_USER set."))
    else if !Truthy(buildJarRepository) || |SplitOn(buildJarRepository.value, '/')| != 1 then
      Raise(ValueError(JarRepositoryMessage))
    else
      var parts := SplitOn(if Truthy(buildBintrayRepository) then buildBintrayRepository.value else "", '/');
      if |parts| != 2 then Raise(ValueError(BintrayRepositoryMessage))
      else Ok(extraArgs + BintrayArgs(parts[0], parts[1], buildJarRepository.value,
                                      environ["BINTRAY_KEY"], environ["BINTRAY_USER"]))
  }

  /** The six bintray properties handed to gradle. */
  function BintrayArgs(org: string, packageRepo: string, jarRepo: string, key: string, user: string): seq<string>
  {
    ["-PbintrayOrg=\"" + org + "\"",
     "-PbintrayPackageRepo=\"" + packageRepo + "\"",
     "-PbintrayJarRepo=\"" + jarRepo + "\"",
     "-PbintrayKey=\"" + key + "\"",
     "-PbintrayUser=\"" + user + "\"",
     "-PbintrayPackageDebDistribution=" + Distribution]
  }

  /** A text splits into one part exactly when it has no separator. */
  lemma SplitOnOnePart(s: string, c: char)
    ensures |SplitOn(s, c)| == 1 <==> c !in s
  {
    if c in s {
      var i := FindChar(s, c);
      SplitOnStep(s, c, i);
    }
  }

  /** `<a><c><b>` with no separator in either part splits into exactly those two parts. */
  lemma SplitOnPair(a: string, b: string, c: char)
    requires c !in a && c !in b
    ensures SplitOn(a + [c] + b, c) == [a, b]
  {
    var s := a + [c] + b;
    assert s[|a|] == c;
    forall j | 0 <= j < |a| ensures s[j] != c {
      assert s[j] == a[j];
    }
    FindCharAt(s, c, |a|);
    assert s[..|a|] == a && s[|a| + 1..] == b;
    SplitOnStep(s, c, |a|);
    SplitOnFree(b, c);
  }

  /** Two parts of a split join back around the one separator, and neither holds it. */
  lemma SplitOnTwoJoin(s: string, c: char)
    requires |SplitOn(s, c)| == 2
    ensures var p := SplitOn(s, c); s == p[0] + [c] + p[1] && c !in p[0] && c !in p[1]
  {
    var p := SplitOn(s, c);
    SplitOnJoin(s, c);
    SplitOnPartsFree(s, c);
    assert p[1..] == [p[1]];
    assert p[0] in p && p[1] in p;
  }

  /**
   * The Debian options are accepted exactly when both credentials are set
   * and non-empty, the jar repository is a non-empty name without '/', and
   * the bintray repository is `<owner>/<repo>` with no further '/'; the
   * arguments then gain owner, repo, jar repository, key, user and the
   * distributions, after the ones already there.
   */
  lemma DebianExtraArgsSpec(extraArgs: seq<string>, environ: map<string, string>,
                            buildJarRepository: Option<string>, owner: string, repo: string)
    ensures var r := DebianExtraArgs(extraArgs, environ, buildJarRepository, Some(owner + "/" + repo));
      && (r.Ok? <==>
            && "BINTRAY_KEY" in environ && environ["BINTRAY_KEY"] != ""
            && "BINTRAY_USER" in environ && environ["BINTRAY_USER"] != ""
            && Truthy(buildJarRepository) && '/' !in buildJarRepository.value
            && '/' !in owner && '/' !in repo)
      && (r.Ok? ==> r.value == extraArgs + BintrayArgs(owner, repo, buildJarRepository.value,
                                                        environ["BINTRAY_KEY"], environ["BINTRAY_USER"]))
  {
    if Truthy(buildJarRepository) {
      SplitOnOnePart(buildJarRepository.value, '/');
    }
    var s := owner + "/" + repo;
    if '/' !in owner && '/' !in repo {
      SplitOnPair(owner, repo, '/');
    } else if |SplitOn(s, '/')| == 2 {
      SplitOnTwoJoin(s, '/');
      var p := SplitOn(s, '/');
      SplitOnUnique(owner, repo, p[0], p[1]);
    }
  }

  /** `<a>/<b>` with '/'-free parts is `<owner>/<repo>` only for those very parts. */
  lemma SplitOnUnique(owner: string, repo: string, a: string, b: string)
    requires '/' !in a && '/' !in b && owner + "/" + repo == a + ['/'] + b
    ensures '/' !in owner && '/' !in repo
  {
    var s := a + ['/'] + b;
    assert s[|owner|] == '/';
    assert owner == s[..|owner|] == a;
    assert repo == s[|owner| + 1..] == b;
  }

  /** Without a bintray repository, or with one that is not `<owner>/<repo>`, the Debian build never starts. */
  lemma DebianNeedsOwnerAndRepo(extraArgs: seq<string>, environ: map<string, string>,
                                buildJarRepository: Option<string>, buildBintrayRepository: Option<string>)
    requires !Truthy(buildBintrayRepository) || '/' !in buildBintrayRepository.value
    ensures DebianExtraArgs(extraArgs, environ, buildJarRepository, buildBintrayRepository).Raise?
  {
    if Truthy(buildBintrayRepository) {
      SplitOnOnePart(buildBintrayRepository.value, '/');
    } else {
      SplitOnFree("", '/');
    }
  }
}
