/**
 * The pure helpers of the build tool: duration and timestamp formatting,
 * log file placement and the check that required options are set.
 * The source runs under Python 2, so `/` on ints is floor division.
 */
module BuildUtil {
  import opened Wrappers
  import opened Text
  import Json

  // ================================================================ paths

  /** `os.path.join(a, b)`: an absolute `b` replaces `a`, otherwise one '/' separates them. */
  function PathJoin(a: string, b: string): (r: string)
    ensures StartsWith(b, "/") ==> r == b
    ensures !StartsWith(b, "/") ==> EndsWith(r, b) && StartsWith(r, a)
  {
    if StartsWith(b, "/") then b
    else if a == "" || EndsWith(a, "/") then a + b
    else a + "/" + b
  }

  /**
   * `determine_logfile_path`: the `--logs_dir` when it is non-empty, else
   * `<scratch_dir>/logs`, joined with `<component>-<decorator>.log`.
   */
  function LogfilePath(logsDir: string, scratchDir: string, component: string, decorator: string): (r: string)
  {
    var dir := if logsDir != "" then logsDir else PathJoin(scratchDir, "logs");
    PathJoin(dir, component + "-" + decorator + ".log")
  }

  /** A relative component lands in the chosen directory under the name `<component>-<decorator>.log`. */
  lemma LogfilePathSpec(logsDir: string, scratchDir: string, component: string, decorator: string)
    requires !StartsWith(component, "/")
    ensures var r := LogfilePath(logsDir, scratchDir, component, decorator);
      && EndsWith(r, component + "-" + decorator + ".log")
      && (logsDir != "" ==> StartsWith(r, logsDir))
      && (logsDir == "" && scratchDir != "" ==> StartsWith(r, scratchDir) && Contains(r, "logs"))
  {
    var name := component + "-" + decorator + ".log";
    assert name[..1] == [name[0]];
    if component == "" {
      assert name[0] == '-';
    } else {
      assert component[..1] == [component[0]];
      assert name[0] == component[0];
    }
    var r := LogfilePath(logsDir, scratchDir, component, decorator);
    if logsDir == "" && scratchDir != "" {
      var dir := PathJoin(scratchDir, "logs");
      assert !StartsWith("logs", "/");
      assert StartsWith(r, dir);
      assert r[..|scratchDir|] == dir[..|scratchDir|];
      assert EndsWith(dir, "logs");
      var at := |dir| - 4;
      assert r[at..at + 4] == dir[at..];
      assert OccursAt(r, "logs", at);
    }
  }

  // ================================================================ options

  /** The names among `names` whose option value is missing or falsy, in order. */
  function MissingOptions(options: map<string, Json.Json>, names: seq<string>): (r: seq<string>)
    ensures |r| <= |names|
  {
    if names == [] then []
    else
      var init := MissingOptions(options, names[..|names| - 1]);
      var last := names[|names| - 1];
      if Json.Truthy(Json.Get(options, last)) then init else init + [last]
  }

  /** Exactly the unset names are reported, each as often and in the order it is listed. */
  lemma {:induction false} MissingOptionsSpec(options: map<string, Json.Json>, names: seq<string>)
    ensures forall n :: n in MissingOptions(options, names) <==>
      n in names && !Json.Truthy(Json.Get(options, n))
    ensures MissingOptions(options, names) == [] <==>
      forall i | 0 <= i < |names| :: Json.Truthy(Json.Get(options, names[i]))
  {
    if names != [] {
      var init := names[..|names| - 1];
      MissingOptionsSpec(options, init);
      assert names == init + [names[|names| - 1]];
      assert forall i | 0 <= i < |init| :: init[i] == names[i];
    }
  }

  /** `ensure_options_set`: ValueError naming every unset option, or nothing. */
  function EnsureOptionsSet(options: map<string, Json.Json>, names: seq<string>): (r: Result<()>)
    ensures r.Ok? <==> MissingOptions(options, names) == []
    ensures r.Raise? ==> r.error == ValueError("The following options were not configured: "
                                                + Join(MissingOptions(options, names), ", "))
  {
    var missing := MissingOptions(options, names);
    if missing != [] then
      Raise(ValueError("The following options were not configured: " + Join(missing, ", ")))
    else Ok(())
  }

  /** The check passes exactly when every listed option holds a truthy value. */
  lemma EnsureOptionsSetSpec(options: map<string, Json.Json>, names: seq<string>)
    ensures EnsureOptionsSet(options, names).Ok? <==>
      forall i | 0 <= i < |names| :: Json.Truthy(Json.Get(options, names[i]))
  {
    MissingOptionsSpec(options, names);
  }

  // ================================================================ timestring

  /** A `datetime.datetime` down to the second. */
  datatype DateTime = DateTime(year: nat, month: nat, day: nat, hour: nat, minute: nat, second: nat)

  /** `'{:%Y-%m-%d %H:%M:%S}'.format(now)` for the given instant. */
  function Timestring(t: DateTime): string
  {
    DateText(t.year, t.month, t.day) + " " + ClockText(t.hour, t.minute, t.second)
  }

  /** `'%Y-%m-%d'`: the year as printed by `str`, then two-digit month and day. */
  function DateText(y: nat, m: nat, d: nat): string
  {
    NatToString(y) + "-" + Pad2(m) + "-" + Pad2(d)
  }

  /** `'%02d:%02d:%02d' % (h, m, s)`. */
  function ClockText(h: nat, m: nat, s: nat): string
  {
    Pad2(h) + ":" + Pad2(m) + ":" + Pad2(s)
  }

  /** `'%02d' % n` for n below 100 is two digits that read back as n. */
  lemma Pad2ReadsBack(n: nat)
    requires n < 100
    ensures |Pad2(n)| == 2 && ParseNat(Pad2(n)) == n
  {
    ParseNatToString(n);
    if n < 10 {
      var s := NatToString(n);
      assert s == [DigitChar(n)];
      assert "0" + s == ['0', DigitChar(n)];
      assert ParseNat(['0']) == 0 by { assert ['0'][..0] == []; }
      ParseNatAppend(['0'], DigitChar(n));
    }
  }

  /** A clock reading is eight characters whose fields read back as the hours, minutes and seconds. */
  lemma ClockTextReadsBack(h: nat, m: nat, s: nat)
    requires h < 100 && m < 100 && s < 100
    ensures var r := ClockText(h, m, s);
      && |r| == 8 && r[2] == ':' && r[5] == ':'
      && ParseNat(r[..2]) == h && ParseNat(r[3..5]) == m && ParseNat(r[6..]) == s
  {
    Pad2ReadsBack(h);
    Pad2ReadsBack(m);
    Pad2ReadsBack(s);
    var r := ClockText(h, m, s);
    assert r[..2] == Pad2(h);
    assert r[3..5] == Pad2(m);
    assert r[6..] == Pad2(s);
  }

  /** A date of a four-digit year is ten characters whose fields read back as the year, month and day. */
  lemma DateTextReadsBack(y: nat, m: nat, d: nat)
    requires 1000 <= y <= 9999 && m < 100 && d < 100
    ensures var r := DateText(y, m, d);
      && |r| == 10 && r[4] == '-' && r[7] == '-'
      && AllDigits(r[..4]) && ParseNat(r[..4]) == y && ParseNat(r[5..7]) == m && ParseNat(r[8..]) == d
  {
    ParseNatToString(y);
    YearWidth(y);
    Pad2ReadsBack(m);
    Pad2ReadsBack(d);
    var r := DateText(y, m, d);
    assert r[..4] == NatToString(y);
    assert r[5..7] == Pad2(m);
    assert r[8..] == Pad2(d);
  }

  /**
   * A timestamp of a four-digit year is 19 characters: the date, a space and
   * the clock reading, whose fields read back as the instant's components.
   */
  lemma TimestringReadsBack(t: DateTime)
    requires 1000 <= t.year <= 9999 && t.month < 100 && t.day < 100
    requires t.hour < 100 && t.minute < 100 && t.second < 100
    ensures var r := Timestring(t);
      && |r| == 19 && r[10] == ' '
      && r[..10] == DateText(t.year, t.month, t.day)
      && r[11..] == ClockText(t.hour, t.minute, t.second)
  {
    DateTextReadsBack(t.year, t.month, t.day);
    ClockTextReadsBack(t.hour, t.minute, t.second);
  }

  /** A four-digit number prints as four characters. */
  lemma YearWidth(n: nat)
    requires 1000 <= n <= 9999
    ensures |NatToString(n)| == 4
  {
    assert |NatToString(n / 10)| == 3 by {
      assert |NatToString(n / 100)| == 2;
    }
  }

  // ================================================================ timedelta_string

  /** A `datetime.timedelta` in its normal form: days, then seconds and microseconds within a day. */
  datatype TimeDelta = TimeDelta(days: int, seconds: int, microseconds: int)
  {
    predicate Valid() { 0 <= seconds < 86400 && 0 <= microseconds < 1000000 }

    /** `int(delta.total_seconds())`: `int()` truncates toward zero. */
    function WholeSeconds(): int
    {
      var micros := (days * 86400 + seconds) * 1000000 + microseconds;
      if micros >= 0 then micros / 1000000 else -((-micros) / 1000000)
    }
  }

  /** `'days=%d + '` for a non-zero day count, else nothing. */
  function DayPrefix(days: int): (r: string)
    ensures r == "" <==> days == 0
  {
    if days == 0 then "" else "days=" + IntToString(days) + " + "
  }

  /** `timedelta_string`: the duration as a clock reading, minutes and seconds, or seconds. */
  function TimedeltaString(d: TimeDelta): string
    requires d.Valid()
  {
    var secs := d.WholeSeconds();
    var mins := secs / 60;
    var hours := mins / 60 % 24;
    var dayStr := DayPrefix(d.days);
    var m := mins % 60;
    var s := secs % 60;
    if hours != 0 || dayStr != "" then dayStr + ClockText(hours, m, s)
    else if m != 0 then Pad2(m) + ":" + Pad2(s)
    else NatToString(s) + "." + Pad3(d.microseconds / 1000) + " secs"
  }

  /**
   * For a non-negative duration the text is the day count (when non-zero)
   * with the time of day as hours, minutes and seconds when there are days
   * or hours; otherwise minutes and seconds when there are minutes;
   * otherwise seconds and milliseconds.
   */
  lemma TimedeltaStringSpec(d: TimeDelta)
    requires d.Valid() && d.days >= 0
    ensures var h, m, s := d.seconds / 3600, d.seconds / 60 % 60, d.seconds % 60;
      var r := TimedeltaString(d);
      && h * 3600 + m * 60 + s == d.seconds
      && h < 24 && m < 60 && s < 60
      && (d.days != 0 ==> r == "days=" + NatToString(d.days) + " + " + ClockText(h, m, s))
      && (d.days == 0 && h != 0 ==> r == ClockText(h, m, s))
      && (d.days == 0 && h == 0 && m != 0 ==> r == Pad2(m) + ":" + Pad2(s))
      && (d.days == 0 && h == 0 && m == 0 ==> r == NatToString(s) + "." + Pad3(d.microseconds / 1000) + " secs")
  {
    var secs := d.WholeSeconds();
    var t := d.days * 86400 + d.seconds;
    assert secs == t by {
      assert (t * 1000000 + d.microseconds) / 1000000 == t;
    }
    assert t / 60 == d.days * 1440 + d.seconds / 60;
    assert t % 60 == d.seconds % 60;
    var mins := d.days * 1440 + d.seconds / 60;
    assert mins / 60 == d.days * 24 + d.seconds / 3600;
    assert mins % 60 == d.seconds / 60 % 60;
    assert (d.days * 24 + d.seconds / 3600) % 24 == d.seconds / 3600;
  }


  /** The numerals the unit-test durations print. */
  lemma SmallNumerals()
    ensures Pad2(0) == "00" && Pad2(2) == "02" && Pad2(4) == "04" && Pad2(5) == "05"
    ensures NatToString(1) == "1" && NatToString(2) == "2" && IntToString(1) == "1"
    ensures Pad3(123) == "123"
  {
    assert NatToString(12) == "12";
  }

  /** The clock readings the unit-test durations print. */
  lemma SmallClocks()
    ensures ClockText(4, 5, 2) == "04:05:02" && ClockText(0, 5, 2) == "00:05:02"
    ensures ClockText(0, 0, 2) == "00:00:02"
  {
    SmallNumerals();
  }

  /** A day and 4:05:02 prints as the build tool's unit test expects. */
  lemma TimedeltaDayHoursExample()
    ensures TimedeltaString(TimeDelta(1, 4 * 3600 + 5 * 60 + 2, 123456)) == "days=1 + 04:05:02"
  {
    var d := TimeDelta(1, 4 * 3600 + 5 * 60 + 2, 123456);
    assert d.seconds / 3600 == 4 && d.seconds / 60 % 60 == 5 && d.seconds % 60 == 2;
    TimedeltaStringSpec(d);
    SmallNumerals();
    SmallClocks();
  }

  /** A day and 0:05:02 prints as the build tool's unit test expects. */
  lemma TimedeltaDayMinutesExample()
    ensures TimedeltaString(TimeDelta(1, 5 * 60 + 2, 123456)) == "days=1 + 00:05:02"
  {
    var d := TimeDelta(1, 5 * 60 + 2, 123456);
    assert d.seconds / 3600 == 0 && d.seconds / 60 % 60 == 5 && d.seconds % 60 == 2;
    TimedeltaStringSpec(d);
    SmallNumerals();
    SmallClocks();
  }

  /** A day and two seconds prints as the build tool's unit test expects. */
  lemma TimedeltaDaySecondsExample()
    ensures TimedeltaString(TimeDelta(1, 2, 123456)) == "days=1 + 00:00:02"
  {
    var d := TimeDelta(1, 2, 123456);
    assert d.seconds / 3600 == 0 && d.seconds / 60 % 60 == 0 && d.seconds % 60 == 2;
    TimedeltaStringSpec(d);
    SmallNumerals();
    SmallClocks();
  }

  /** 4:05:02 prints as the build tool's unit test expects. */
  lemma TimedeltaHoursExample()
    ensures TimedeltaString(TimeDelta(0, 4 * 3600 + 5 * 60 + 2, 123456)) == "04:05:02"
  {
    var d := TimeDelta(0, 4 * 3600 + 5 * 60 + 2, 123456);
    assert d.seconds / 3600 == 4 && d.seconds / 60 % 60 == 5 && d.seconds % 60 == 2;
    TimedeltaStringSpec(d);
    SmallClocks();
  }

  /** 5:02 prints as the build tool's unit test expects. */
  lemma TimedeltaMinutesExample()
    ensures TimedeltaString(TimeDelta(0, 5 * 60 + 2, 123456)) == "05:02"
  {
    var d := TimeDelta(0, 5 * 60 + 2, 123456);
    assert d.seconds / 3600 == 0 && d.seconds / 60 % 60 == 5 && d.seconds % 60 == 2;
    TimedeltaStringSpec(d);
    SmallNumerals();
  }

  /** 2.123456 seconds prints as the build tool's unit test expects. */
  lemma TimedeltaSecondsExample()
    ensures TimedeltaString(TimeDelta(0, 2, 123456)) == "2.123 secs"
  {
    var d := TimeDelta(0, 2, 123456);
    assert d.seconds / 3600 == 0 && d.seconds / 60 % 60 == 0 && d.seconds % 60 == 2;
    assert d.microseconds / 1000 == 123;
    TimedeltaStringSpec(d);
    SmallNumerals();
  }
}
