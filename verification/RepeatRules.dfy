/** The text of repeat rules and durations: the parser, the canonical form it
    prints, and how the two undo each other. */
module RepeatRules {
  import opened Wrappers

  const MS_PER_MINUTE: int := 60_000

  /** The interpreter turns no more digits than this into a number. */
  const MAX_DIGITS: nat := 4300

  datatype LocalTime = LocalTime(hour: int, minute: int)

  datatype Kind = Every | Daily | Weekly

  datatype Recurrence = Recurrence(
    kind: Kind,
    canonical: string,
    intervalMs: Option<int>,
    localTime: Option<LocalTime>,
    weekdays: seq<int>)

  datatype Duration = Duration(milliseconds: int, canonical: string)

  datatype Error = Malformed | TooManyDigits | NotPositive | InvalidTime | InvalidWeekday

  datatype Parsed<T> = Ok(value: T) | Failed(error: Error)

  // ---- digits ----

  predicate IsDigit(c: char) { '0' <= c <= '9' }

  predicate AllDigits(s: string) { forall i :: 0 <= i < |s| ==> IsDigit(s[i]) }

  function DigitValue(c: char): nat
    requires IsDigit(c)
  {
    c as int - '0' as int
  }

  function Digit(d: nat): char
    requires d < 10
  {
    ('0' as int + d) as char
  }

  function Value(s: string): nat
    requires AllDigits(s)
  {
    if s == [] then 0 else 10 * Value(s[..|s| - 1]) + DigitValue(s[|s| - 1])
  }

  function Decimal(n: nat): string {
    if n < 10 then [Digit(n)] else Decimal(n / 10) + [Digit(n % 10)]
  }

  lemma {:induction false} DecimalValue(n: nat)
    ensures AllDigits(Decimal(n)) && Value(Decimal(n)) == n
  {
    if n >= 10 {
      DecimalValue(n / 10);
      var s := Decimal(n);
      assert s[..|s| - 1] == Decimal(n / 10);
    }
  }

  /** Writing a number out again takes no more digits than it was read from. */
  lemma {:induction false} DecimalIsShort(s: string)
    requires AllDigits(s) && s != []
    ensures |Decimal(Value(s))| <= |s|
  {
    if |s| > 1 {
      DecimalIsShort(s[..|s| - 1]);
    }
  }

  lemma {:induction false} LeadingZero(s: string)
    requires AllDigits(s)
    ensures AllDigits("0" + s) && Value("0" + s) == Value(s)
  {
    assert AllDigits("0" + s);
    if s != [] {
      LeadingZero(s[..|s| - 1]);
      assert ("0" + s)[..|s|] == "0" + s[..|s| - 1];
    }
  }

  /** `{:%H}` and `{:%M}`: two digits. */
  function Two(n: int): string
    requires 0 <= n < 100
  {
    [Digit(n / 10), Digit(n % 10)]
  }

  lemma TwoValue(n: int)
    requires 0 <= n < 100
    ensures AllDigits(Two(n)) && Value(Two(n)) == n
  {
    var tens := [Digit(n / 10)];
    assert tens[..0] == [];
    assert Value(tens) == n / 10;
    assert Two(n)[..1] == tens;
  }

  // ---- units and weekdays ----

  predicate IsUnit(c: char) { c == 'm' || c == 'h' || c == 'd' }

  function UnitMs(c: char): int
    requires IsUnit(c)
  {
    if c == 'm' then MS_PER_MINUTE else if c == 'h' then 60 * MS_PER_MINUTE else 24 * 60 * MS_PER_MINUTE
  }

  const WEEKDAY_NAMES: seq<string> := ["mon", "tue", "wed", "thu", "fri", "sat", "sun"]

  function DayName(d: int): string
    requires 0 <= d < 7
  {
    WEEKDAY_NAMES[d]
  }

  predicate IsLower(c: char) { 'a' <= c <= 'z' }

  /** One piece of a weekday list: letters, at least one. */
  predicate IsWord(s: string) { s != [] && forall i :: 0 <= i < |s| ==> IsLower(s[i]) }

  predicate AllWords(pieces: seq<string>) {
    forall i :: 0 <= i < |pieces| ==> IsWord(pieces[i])
  }

  /** `str.split(",")`. */
  function Split(s: string): (pieces: seq<string>)
    ensures pieces != []
  {
    if s == [] then [[]]
    else
      var rest := Split(s[1..]);
      if s[0] == ',' then [[]] + rest else [[s[0]] + rest[0]] + rest[1..]
  }

  /** `",".join`. */
  function Join(pieces: seq<string>): string
    requires pieces != []
  {
    if |pieces| == 1 then pieces[0] else pieces[0] + "," + Join(pieces[1..])
  }

  lemma {:induction false} SplitWord(word: string, tail: string)
    requires IsWord(word) && (tail == [] || tail[0] == ',')
    ensures Split(word + tail) == [word] + Split(tail)[1..]
  {
    assert (word + tail)[1..] == word[1..] + tail;
    assert [word[0]] + word[1..] == word;
    if |word| == 1 {
      assert word[1..] + tail == tail;
      assert [word[0]] + [] == word;
    } else {
      SplitWord(word[1..], tail);
    }
  }

  lemma {:induction false} SplitJoin(words: seq<string>)
    requires words != [] && AllWords(words)
    ensures Split(Join(words)) == words
  {
    if |words| == 1 {
      SplitWord(words[0], []);
      assert words[0] + [] == words[0];
    } else {
      var tail := "," + Join(words[1..]);
      SplitJoin(words[1..]);
      assert tail[1..] == Join(words[1..]);
      SplitWord(words[0], tail);
      assert words[0] + tail == Join(words);
    }
  }

  /** The weekdays, from `day` on, whose names are listed: `sorted` of a set. */
  function DaysFrom(names: seq<string>, day: nat): seq<int>
    decreases 7 - day
  {
    if day >= 7 then []
    else if DayName(day) in names then [day] + DaysFrom(names, day + 1)
    else DaysFrom(names, day + 1)
  }

  predicate Rising(days: seq<int>) {
    && (forall i :: 0 <= i < |days| ==> 0 <= days[i] < 7)
    && forall i, j :: 0 <= i < j < |days| ==> days[i] < days[j]
  }

  lemma {:induction false} DaysRise(names: seq<string>, day: nat)
    requires day <= 7
    ensures Rising(DaysFrom(names, day))
    ensures forall i :: 0 <= i < |DaysFrom(names, day)| ==> day <= DaysFrom(names, day)[i]
    decreases 7 - day
  {
    hide DayName;
    if day < 7 {
      DaysRise(names, day + 1);
    }
  }

  lemma {:induction false} DaysAreListed(names: seq<string>, day: nat, d: int)
    requires day <= 7
    ensures d in DaysFrom(names, day) <==> day <= d < 7 && DayName(d) in names
    decreases 7 - day
  {
    hide DayName;
    if day < 7 {
      DaysAreListed(names, day + 1, d);
    }
  }

  function NamesOf(days: seq<int>): seq<string>
    requires forall i :: 0 <= i < |days| ==> 0 <= days[i] < 7
  {
    seq(|days|, i requires 0 <= i < |days| => DayName(days[i]))
  }

  lemma NamesAreDistinct(a: int, b: int)
    requires 0 <= a < 7 && 0 <= b < 7 && DayName(a) == DayName(b)
    ensures a == b
  {
    assert DayName(a)[0] == DayName(b)[0] && DayName(a)[1] == DayName(b)[1];
  }

  /** Only which weekdays are named matters, not their order or how often. */
  lemma {:induction false} SameDays(a: seq<string>, b: seq<string>, day: nat)
    requires forall d :: 0 <= d < 7 ==> (DayName(d) in a <==> DayName(d) in b)
    ensures DaysFrom(a, day) == DaysFrom(b, day)
    decreases 7 - day
  {
    hide DayName;
    if day < 7 {
      SameDays(a, b, day + 1);
    }
  }

  lemma NamesOfDays(days: seq<int>, d: int)
    requires forall i :: 0 <= i < |days| ==> 0 <= days[i] < 7
    requires 0 <= d < 7
    ensures DayName(d) in NamesOf(days) <==> d in days
  {
    if d in days {
      var i :| 0 <= i < |days| && days[i] == d;
      assert NamesOf(days)[i] == DayName(d);
    }
    if DayName(d) in NamesOf(days) {
      var i :| 0 <= i < |days| && NamesOf(days)[i] == DayName(d);
      NamesAreDistinct(days[i], d);
    }
  }

  // ---- the parser ----

  /** The tail `@HH:MM` of a calendar rule. */
  predicate EndsInTime(s: string) {
    && |s| == 6 && s[0] == '@' && s[3] == ':' && AllDigits(s[1..3]) && AllDigits(s[4..6])
  }

  /** `_parse_local_time` on the digits of such a tail. */
  function ParseTime(tail: string): Parsed<LocalTime>
    requires EndsInTime(tail)
  {
    var hour, minute := Value(tail[1..3]), Value(tail[4..6]);
    if hour > 23 || minute > 59 then Failed(InvalidTime) else Ok(LocalTime(hour, minute))
  }

  function TimeText(t: LocalTime): string
    requires 0 <= t.hour < 24 && 0 <= t.minute < 60
  {
    "@" + Two(t.hour) + ":" + Two(t.minute)
  }

  /** `<count><unit>`, at least one digit. */
  predicate IsCount(s: string) {
    |s| >= 2 && AllDigits(s[..|s| - 1]) && IsUnit(s[|s| - 1])
  }

  function ParseCount(s: string): Parsed<(nat, char)>
    requires IsCount(s)
  {
    var digits := s[..|s| - 1];
    if |digits| > MAX_DIGITS then Failed(TooManyDigits)
    else if Value(digits) == 0 then Failed(NotPositive)
    else Ok((Value(digits), s[|s| - 1]))
  }

  function CountText(count: nat, unit: char): string {
    Decimal(count) + [unit]
  }

  predicate StartsWith(s: string, prefix: string) {
    |prefix| <= |s| && s[..|prefix|] == prefix
  }

  /** `parse_duration`. */
  function ParseDuration(s: string): Parsed<Duration> {
    if !IsCount(s) then Failed(Malformed)
    else
      match ParseCount(s)
      case Failed(error) => Failed(error)
      case Ok((count, unit)) => Ok(Duration(count * UnitMs(unit), CountText(count, unit)))
  }

  /** A weekday list and a time. */
  predicate IsWeekly(s: string) {
    |s| >= 7 && EndsInTime(s[|s| - 6..]) && AllWords(Split(s[..|s| - 6]))
  }

  predicate AllWeekdays(names: seq<string>) {
    forall i :: 0 <= i < |names| ==> names[i] in WEEKDAY_NAMES
  }

  function ParseWeekly(s: string): Parsed<Recurrence>
    requires IsWeekly(s)
  {
    var tail := s[|s| - 6..];
    match ParseTime(tail)
    case Failed(error) => Failed(error)
    case Ok(time) =>
      var names := Split(s[..|s| - 6]);
      if !AllWeekdays(names) then Failed(InvalidWeekday) else Ok(WeeklyRule(names, time))
  }

  function WeeklyRule(names: seq<string>, time: LocalTime): (r: Recurrence)
    requires names != [] && AllWeekdays(names) && 0 <= time.hour < 24 && 0 <= time.minute < 60
    ensures r.weekdays == DaysFrom(names, 0) && r.weekdays != [] && Rising(r.weekdays)
  {
    var days := DaysFrom(names, 0);
    ListedDays(names);
    Recurrence(Weekly, "weekly:" + Join(NamesOf(days)) + TimeText(time), None, Some(time), days)
  }

  /** A list of weekday names has a weekday in it. */
  lemma ListedDays(names: seq<string>)
    requires names != [] && AllWeekdays(names)
    ensures Rising(DaysFrom(names, 0)) && DaysFrom(names, 0) != []
  {
    hide DaysFrom, DayName;
    DaysRise(names, 0);
    var d := DayNamed(names[0]);
    DaysAreListed(names, 0, d);
    assert d in DaysFrom(names, 0);
  }

  lemma DayNamed(name: string) returns (d: int)
    requires name in WEEKDAY_NAMES
    ensures 0 <= d < 7 && DayName(d) == name
  {
    d :| 0 <= d < |WEEKDAY_NAMES| && WEEKDAY_NAMES[d] == name;
  }

  /** `parse_repeat_rule`. */
  function ParseRule(s: string): Parsed<Recurrence> {
    if StartsWith(s, "every:") && IsCount(s[6..]) then
      match ParseCount(s[6..])
      case Failed(error) => Failed(error)
      case Ok((count, unit)) =>
        Ok(Recurrence(Every, "every:" + CountText(count, unit), Some(count * UnitMs(unit)), None, []))
    else if StartsWith(s, "daily") && EndsInTime(s[5..]) then
      match ParseTime(s[5..])
      case Failed(error) => Failed(error)
      case Ok(time) => Ok(Recurrence(Daily, "daily" + TimeText(time), None, Some(time), []))
    else if StartsWith(s, "weekly:") && IsWeekly(s[7..]) then ParseWeekly(s[7..])
    else Failed(Malformed)
  }

  /** The checks a recurrence makes of itself when it is built. */
  predicate WellFormed(r: Recurrence) {
    match r.kind
    case Every => r.intervalMs.Some? && r.localTime.None? && r.weekdays == []
    case Daily => r.localTime.Some? && r.intervalMs.None? && r.weekdays == []
    case Weekly =>
      && r.localTime.Some? && r.weekdays != [] && r.intervalMs.None?
      && (forall i :: 0 <= i < |r.weekdays| ==> 0 <= r.weekdays[i] <= 6)
      && forall i, j :: 0 <= i < j < |r.weekdays| ==> r.weekdays[i] < r.weekdays[j]
  }

  // ---- parsing what was printed ----

  lemma CountAgain(s: string)
    requires IsCount(s) && ParseCount(s).Ok?
    ensures var (count, unit) := ParseCount(s).value;
            && IsUnit(unit)
            && IsCount(CountText(count, unit))
            && ParseCount(CountText(count, unit)) == ParseCount(s)
  {
    var digits := s[..|s| - 1];
    var (count, unit) := ParseCount(s).value;
    var text := CountText(count, unit);
    DecimalValue(count);
    DecimalIsShort(digits);
    assert text[..|text| - 1] == Decimal(count);
  }

  lemma TimeAgain(t: LocalTime)
    requires 0 <= t.hour < 24 && 0 <= t.minute < 60
    ensures EndsInTime(TimeText(t)) && ParseTime(TimeText(t)) == Ok(t)
  {
    TwoValue(t.hour);
    TwoValue(t.minute);
    assert TimeText(t)[1..3] == Two(t.hour);
    assert TimeText(t)[4..6] == Two(t.minute);
  }

  lemma NamesAreWords(days: seq<int>)
    requires forall i :: 0 <= i < |days| ==> 0 <= days[i] < 7
    ensures AllWords(NamesOf(days)) && AllWeekdays(NamesOf(days))
  {
    forall i | 0 <= i < |days|
      ensures IsWord(NamesOf(days)[i]) && NamesOf(days)[i] in WEEKDAY_NAMES
    {
      WeekdayIsWord(days[i]);
    }
  }

  lemma WeekdayIsWord(d: int)
    requires 0 <= d < 7
    ensures IsWord(DayName(d))
  {
    assert IsWord("mon") && IsWord("tue") && IsWord("wed") && IsWord("thu");
    assert IsWord("fri") && IsWord("sat") && IsWord("sun");
  }

  /** Naming the days found gives the same days. */
  lemma DaysAgain(names: seq<string>)
    ensures Rising(DaysFrom(names, 0)) && DaysFrom(NamesOf(DaysFrom(names, 0)), 0) == DaysFrom(names, 0)
  {
    hide DaysFrom, DayName;
    var days := DaysFrom(names, 0);
    DaysRise(names, 0);
    forall d | 0 <= d < 7
      ensures DayName(d) in NamesOf(days) <==> DayName(d) in names
    {
      DaysAreListed(names, 0, d);
      NamesOfDays(days, d);
    }
    SameDays(NamesOf(days), names, 0);
  }

  lemma WeeklyIsRead(s: string)
    requires StartsWith(s, "weekly:") && IsWeekly(s[7..])
    ensures ParseRule(s) == ParseWeekly(s[7..])
  {
    hide IsWeekly, ParseWeekly, IsCount, EndsInTime;
    assert s[0] == 'w';
  }

  lemma WeeklyBody(names: seq<string>, tail: string)
    requires names != [] && AllWords(names) && EndsInTime(tail)
    ensures var body := Join(names) + tail;
            && IsWeekly(body) && Split(body[..|body| - 6]) == names && body[|body| - 6..] == tail
  {
    hide Split, Join, AllWords;
    var body := Join(names) + tail;
    SplitJoin(names);
    assert body[..|body| - 6] == Join(names) && body[|body| - 6..] == tail;
    JoinIsLong(names);
  }

  lemma JoinIsLong(names: seq<string>)
    requires names != [] && AllWords(names)
    ensures Join(names) != []
  {
    assert IsWord(names[0]);
  }

  lemma WeeklyTextIs(names: seq<string>, t: LocalTime)
    requires names != [] && AllWords(names) && 0 <= t.hour < 24 && 0 <= t.minute < 60
    ensures var s := "weekly:" + Join(names) + TimeText(t);
            && StartsWith(s, "weekly:") && IsWeekly(s[7..])
            && Split(s[7..][..|s[7..]| - 6]) == names && s[7..][|s[7..]| - 6..] == TimeText(t)
            && ParseTime(TimeText(t)) == Ok(t)
            && ParseRule(s) == ParseWeekly(s[7..])
  {
    hide IsWeekly, ParseWeekly, ParseRule, Split, Join, AllWords, TimeText;
    var s := "weekly:" + Join(names) + TimeText(t);
    TimeAgain(t);
    WeeklyBody(names, TimeText(t));
    assert s[7..] == Join(names) + TimeText(t) && s[..7] == "weekly:";
    WeeklyIsRead(s);
  }

  /** The rule for a list of names is the rule for the days found in it. */
  lemma WeeklyRuleAgain(names: seq<string>, time: LocalTime)
    requires names != [] && AllWeekdays(names) && 0 <= time.hour < 24 && 0 <= time.minute < 60
    ensures var listed := NamesOf(WeeklyRule(names, time).weekdays);
            && listed != [] && AllWords(listed) && AllWeekdays(listed)
            && WeeklyRule(listed, time) == WeeklyRule(names, time)
            && WeeklyRule(names, time).canonical == "weekly:" + Join(listed) + TimeText(time)
            && WellFormed(WeeklyRule(names, time))
  {
    hide DaysFrom, DayName, Join, TimeText;
    DaysAgain(names);
    NamesAreWords(DaysFrom(names, 0));
  }

  lemma WeeklyRoundTrip(s: string)
    requires IsWeekly(s) && ParseWeekly(s).Ok?
    ensures ParseRule(ParseWeekly(s).value.canonical) == ParseWeekly(s) && WellFormed(ParseWeekly(s).value)
  {
    var names := Split(s[..|s| - 6]);
    var time := ParseTime(s[|s| - 6..]).value;
    WeeklyRuleAgain(names, time);
    WeeklyTextIs(NamesOf(WeeklyRule(names, time).weekdays), time);
  }

  lemma EveryRoundTrip(s: string)
    requires IsCount(s) && ParseCount(s).Ok?
    ensures ParseRule("every:" + s).Ok?
    ensures ParseRule(ParseRule("every:" + s).value.canonical) == ParseRule("every:" + s)
    ensures WellFormed(ParseRule("every:" + s).value)
  {
    CountAgain(s);
    var (count, unit) := ParseCount(s).value;
    assert ("every:" + s)[6..] == s && ("every:" + s)[..6] == "every:";
    var text := "every:" + CountText(count, unit);
    assert text[6..] == CountText(count, unit) && text[..6] == "every:";
  }

  lemma DailyRoundTrip(s: string)
    requires EndsInTime(s) && ParseTime(s).Ok?
    ensures ParseRule("daily" + s).Ok?
    ensures ParseRule(ParseRule("daily" + s).value.canonical) == ParseRule("daily" + s)
    ensures WellFormed(ParseRule("daily" + s).value)
  {
    var time := ParseTime(s).value;
    TimeAgain(time);
    assert ("daily" + s)[5..] == s && ("daily" + s)[..5] == "daily" && ("daily" + s)[0] == 'd';
    var text := "daily" + TimeText(time);
    assert text[5..] == TimeText(time) && text[..5] == "daily" && text[0] == 'd';
  }

  /** Every accepted rule is accepted again in its canonical form, and means the
      same; what is built passes its own checks. */
  lemma RuleRoundTrip(s: string)
    requires ParseRule(s).Ok?
    ensures ParseRule(ParseRule(s).value.canonical) == ParseRule(s)
    ensures WellFormed(ParseRule(s).value)
  {
    if StartsWith(s, "every:") && IsCount(s[6..]) {
      assert s == "every:" + s[6..];
      EveryRoundTrip(s[6..]);
    } else if StartsWith(s, "daily") && EndsInTime(s[5..]) {
      assert s == "daily" + s[5..];
      DailyRoundTrip(s[5..]);
    } else {
      WeeklyRoundTrip(s[7..]);
    }
  }

  lemma DurationRoundTrip(s: string)
    requires ParseDuration(s).Ok?
    ensures ParseDuration(ParseDuration(s).value.canonical) == ParseDuration(s)
    ensures ParseDuration(s).value.milliseconds >= MS_PER_MINUTE
  {
    CountAgain(s);
  }

  // ---- what the canonical form forgets ----

  /** Leading zeros, up to what the interpreter reads. */
  lemma LeadingZerosForgotten(count: string)
    requires IsCount(count) && |count| <= MAX_DIGITS
    ensures IsCount("0" + count) && ParseCount("0" + count) == ParseCount(count)
    ensures ParseRule("every:" + ("0" + count)) == ParseRule("every:" + count)
  {
    var digits := count[..|count| - 1];
    LeadingZero(digits);
    assert ("0" + count)[..|count|] == "0" + digits;
    assert ("every:" + ("0" + count))[6..] == "0" + count && ("every:" + ("0" + count))[..6] == "every:";
    assert ("every:" + count)[6..] == count && ("every:" + count)[..6] == "every:";
  }

  /** The order of the weekdays, and naming one twice. */
  lemma WeekdayOrderForgotten(a: seq<string>, b: seq<string>, t: LocalTime)
    requires a != [] && b != [] && AllWords(a) && AllWords(b)
    requires forall name :: name in a <==> name in b
    requires 0 <= t.hour < 24 && 0 <= t.minute < 60
    ensures ParseRule("weekly:" + Join(a) + TimeText(t)) == ParseRule("weekly:" + Join(b) + TimeText(t))
    ensures AllWeekdays(a) ==> ParseRule("weekly:" + Join(a) + TimeText(t)).Ok?
  {
    WeeklyTextIs(a, t);
    WeeklyTextIs(b, t);
    SameDays(a, b, 0);
    assert AllWeekdays(a) <==> AllWeekdays(b) by {
      if AllWeekdays(a) {
        forall i | 0 <= i < |b| ensures b[i] in WEEKDAY_NAMES { assert b[i] in a; }
      }
      if AllWeekdays(b) {
        forall i | 0 <= i < |a| ensures a[i] in WEEKDAY_NAMES { assert a[i] in b; }
      }
    }
  }

  // ---- what a rule means, in numbers ----

  /** Digits are read as a decimal number. */
  lemma ValueIs(s: string, c: char)
    requires AllDigits(s) && IsDigit(c)
    ensures AllDigits(s + [c]) && Value("") == 0 && Value(s + [c]) == 10 * Value(s) + (c as int - '0' as int)
  {
    assert (s + [c])[..|s|] == s;
  }

  /** A count is so many minutes, hours or days, of a duration as of a rule. */
  lemma CountIsRead(digits: string, unit: char)
    requires digits != "" && AllDigits(digits) && |digits| <= MAX_DIGITS && unit in "mhd"
    ensures var text, ms := digits + [unit], match unit case 'm' => 60_000 case 'h' => 3_600_000 case _ => 86_400_000;
            && (Value(digits) == 0 ==>
                  ParseDuration(text) == Failed(NotPositive) && ParseRule("every:" + text) == Failed(NotPositive))
            && (Value(digits) > 0 ==>
                  && ParseDuration(text).Ok? && ParseDuration(text).value.milliseconds == Value(digits) * ms
                  && ParseRule("every:" + text).Ok? && ParseRule("every:" + text).value.kind == Every
                  && ParseRule("every:" + text).value.intervalMs == Some(Value(digits) * ms))
  {
    var text := digits + [unit];
    assert text[..|text| - 1] == digits && IsCount(text);
    assert ("every:" + text)[6..] == text && ("every:" + text)[..6] == "every:";
  }

  /** The digits of a time. */
  function TimeDigits(h: char, hh: char, m: char, mm: char): string {
    "@" + [h, hh] + ":" + [m, mm]
  }

  lemma TimeIsRead(h: char, hh: char, m: char, mm: char)
    requires IsDigit(h) && IsDigit(hh) && IsDigit(m) && IsDigit(mm)
    ensures var hour, minute := 10 * (h as int - 48) + hh as int - 48, 10 * (m as int - 48) + mm as int - 48;
            && EndsInTime(TimeDigits(h, hh, m, mm))
            && ParseTime(TimeDigits(h, hh, m, mm)) ==
                 if hour <= 23 && minute <= 59 then Ok(LocalTime(hour, minute)) else Failed(InvalidTime)
  {
    var tail := TimeDigits(h, hh, m, mm);
    assert tail[1..3] == "" + [h] + [hh] && tail[4..6] == "" + [m] + [mm];
    ValueIs("", h);
    ValueIs([h], hh);
    ValueIs("", m);
    ValueIs([m], mm);
    assert "" + [h] == [h] && "" + [m] == [m];
  }

  /** A daily rule is for the hour and minute its digits say. */
  lemma DailyIsRead(h: char, hh: char, m: char, mm: char)
    requires IsDigit(h) && IsDigit(hh) && IsDigit(m) && IsDigit(mm)
    ensures var hour, minute := 10 * (h as int - 48) + hh as int - 48, 10 * (m as int - 48) + mm as int - 48;
            var parsed := ParseRule("daily" + TimeDigits(h, hh, m, mm));
            if hour <= 23 && minute <= 59
            then parsed.Ok? && parsed.value.kind == Daily && parsed.value.localTime == Some(LocalTime(hour, minute))
            else parsed == Failed(InvalidTime)
  {
    TimeIsRead(h, hh, m, mm);
    var tail := TimeDigits(h, hh, m, mm);
    hide TimeDigits, EndsInTime, ParseTime;
    var text := "daily" + tail;
    assert text[5..] == tail && text[..5] == "daily" && text[0] == 'd';
  }

  /** A weekly rule is for the weekdays it names, Monday being 0, at that time. */
  lemma WeeklyIsFor(names: seq<string>, h: char, hh: char, m: char, mm: char)
    requires names != [] && AllWords(names) && IsDigit(h) && IsDigit(hh) && IsDigit(m) && IsDigit(mm)
    ensures var hour, minute := 10 * (h as int - 48) + hh as int - 48, 10 * (m as int - 48) + mm as int - 48;
            var parsed := ParseRule("weekly:" + Join(names) + TimeDigits(h, hh, m, mm));
            && (hour > 23 || minute > 59 ==> parsed == Failed(InvalidTime))
            && (hour <= 23 && minute <= 59 && !AllWeekdays(names) ==> parsed == Failed(InvalidWeekday))
            && (hour <= 23 && minute <= 59 && AllWeekdays(names) ==>
                  && parsed.Ok? && parsed.value.kind == Weekly
                  && parsed.value.localTime == Some(LocalTime(hour, minute))
                  && Names(names, parsed.value.weekdays))
  {
    var tail := TimeDigits(h, hh, m, mm);
    TimeIsRead(h, hh, m, mm);
    WeeklyBody(names, tail);
    hide TimeDigits, EndsInTime, ParseTime, Join, Split, AllWords, Names, IsWeekly, DaysFrom;
    var s := "weekly:" + Join(names) + tail;
    assert s[7..] == Join(names) + tail && s[..7] == "weekly:";
    WeeklyIsRead(s);
    DaysAreNamed(names);
  }

  /** Exactly the numbers of the weekdays named. */
  ghost predicate Names(names: seq<string>, days: seq<int>) {
    && ("mon" in names <==> 0 in days) && ("tue" in names <==> 1 in days) && ("wed" in names <==> 2 in days)
    && ("thu" in names <==> 3 in days) && ("fri" in names <==> 4 in days) && ("sat" in names <==> 5 in days)
    && ("sun" in names <==> 6 in days)
  }

  lemma DaysAreNamed(names: seq<string>)
    ensures Names(names, DaysFrom(names, 0))
  {
    forall d | 0 <= d < 7 ensures DayName(d) in names <==> d in DaysFrom(names, 0) {
      DaysAreListed(names, 0, d);
    }
    hide DaysFrom;
    assert DayName(0) == "mon" && DayName(1) == "tue" && DayName(2) == "wed" && DayName(3) == "thu";
    assert DayName(4) == "fri" && DayName(5) == "sat" && DayName(6) == "sun";
  }

  // ---- which texts are rules ----

  ghost predicate CountOf(digits: string, unit: char, s: string) {
    digits != "" && AllDigits(digits) && unit in "mhd" && s == "every:" + (digits + [unit])
  }

  ghost predicate EveryText(s: string) {
    exists digits, unit :: CountOf(digits, unit, s)
  }

  ghost predicate ATime(s: string) {
    exists h, hh, m, mm :: IsDigit(h) && IsDigit(hh) && IsDigit(m) && IsDigit(mm) && s == TimeDigits(h, hh, m, mm)
  }

  ghost predicate DailyText(s: string) {
    exists tail :: ATime(tail) && s == "daily" + tail
  }

  ghost predicate WeeklyText(s: string) {
    exists names, tail :: names != [] && AllWords(names) && ATime(tail) && s == "weekly:" + Join(names) + tail
  }

  lemma {:induction false} JoinSplit(s: string)
    ensures Join(Split(s)) == s
  {
    if s != [] {
      JoinSplit(s[1..]);
      var rest := Split(s[1..]);
      assert s == [s[0]] + s[1..];
      hide Join;
      if s[0] == ',' {
        JoinMore([], rest);
      } else {
        JoinOn([s[0]], rest);
      }
    }
  }

  lemma JoinMore(first: string, rest: seq<string>)
    requires rest != []
    ensures Join([first] + rest) == first + "," + Join(rest)
  {
    assert ([first] + rest)[1..] == rest;
  }

  lemma JoinOne(word: string)
    ensures Join([word]) == word
  {
  }

  lemma Regroup(a: string, b: string, c: string)
    ensures a + b + "," + c == a + (b + "," + c)
  {
  }

  /** A longer first word makes a longer list. */
  lemma JoinOn(head: string, rest: seq<string>)
    requires rest != []
    ensures Join([head + rest[0]] + rest[1..]) == head + Join(rest)
  {
    hide Join;
    var first, others := rest[0], rest[1..];
    assert rest == [first] + others;
    if others == [] {
      assert rest == [first] && [head + first] + others == [head + first];
      JoinOne(first);
      JoinOne(head + first);
    } else {
      JoinMore(head + first, others);
      JoinMore(first, others);
      Regroup(head, first, Join(others));
    }
  }

  lemma ATimeIff(s: string)
    ensures ATime(s) <==> EndsInTime(s)
  {
    if EndsInTime(s) {
      assert s[1..3][0] == s[1] && s[1..3][1] == s[2] && s[4..6][0] == s[4] && s[4..6][1] == s[5];
      assert s == TimeDigits(s[1], s[2], s[4], s[5]);
    }
    if h, hh, m, mm :| IsDigit(h) && IsDigit(hh) && IsDigit(m) && IsDigit(mm) && s == TimeDigits(h, hh, m, mm) {
      TimeIsRead(h, hh, m, mm);
    }
  }

  /** A text is taken for a rule, be it one with a wrong number or name in it, if and
      only if it has one of the three forms. */
  lemma MalformedIff(s: string)
    ensures ParseRule(s) == Failed(Malformed) <==> !EveryText(s) && !DailyText(s) && !WeeklyText(s)
  {
    hide ParseCount, ParseTime, ParseWeekly, EveryText, DailyText, WeeklyText, EndsInTime, IsCount, IsWeekly;
    EveryIff(s);
    DailyIff(s);
    WeeklyIff(s);
    CountFails(s);
  }

  lemma CountFails(s: string)
    ensures forall c :: IsCount(c) ==> ParseCount(c) != Failed(Malformed)
    ensures forall t :: EndsInTime(t) ==> ParseTime(t) != Failed(Malformed)
    ensures forall w :: IsWeekly(w) ==> ParseWeekly(w) != Failed(Malformed)
  {
  }

  lemma EveryIff(s: string)
    ensures EveryText(s) <==> StartsWith(s, "every:") && IsCount(s[6..])
  {
    if StartsWith(s, "every:") && IsCount(s[6..]) {
      var text := s[6..];
      var digits, unit := text[..|text| - 1], text[|text| - 1];
      assert text == digits + [unit] && s == "every:" + text;
      assert CountOf(digits, unit, s);
    }
    if digits, unit :| CountOf(digits, unit, s) {
      assert s[6..] == digits + [unit] && s[6..][..|s[6..]| - 1] == digits;
      assert s[..6] == "every:";
    }
  }

  lemma DailyIff(s: string)
    ensures DailyText(s) <==> StartsWith(s, "daily") && EndsInTime(s[5..])
  {
    hide EndsInTime, ATime;
    if StartsWith(s, "daily") && EndsInTime(s[5..]) {
      ATimeIff(s[5..]);
      assert s == "daily" + s[5..];
    }
    if tail :| ATime(tail) && s == "daily" + tail {
      ATimeIff(tail);
      assert s[5..] == tail && s[..5] == "daily";
    }
  }

  lemma WeeklyIff(s: string)
    ensures WeeklyText(s) <==> StartsWith(s, "weekly:") && IsWeekly(s[7..])
  {
    hide EndsInTime, ATime, Join, Split, AllWords;
    if StartsWith(s, "weekly:") && IsWeekly(s[7..]) {
      var body := s[7..];
      var list, tail := body[..|body| - 6], body[|body| - 6..];
      ATimeIff(tail);
      JoinSplit(list);
      assert body == list + tail;
      assert s == "weekly:" + body && s == "weekly:" + Join(Split(list)) + tail;
    }
    if names, tail :| names != [] && AllWords(names) && ATime(tail) && s == "weekly:" + Join(names) + tail {
      ATimeIff(tail);
      WeeklyBody(names, tail);
      assert s[7..] == Join(names) + tail && s[..7] == "weekly:";
    }
  }
}
