/** The next time a daily or weekly rule falls due in a time zone. */
module CalendarSlots {
  import opened Wrappers
  import opened RepeatRules
  import opened TimeZones

  /** A rule the parser builds, other than a plain interval. */
  predicate Calendar(r: Recurrence) {
    && !r.kind.Every? && RepeatRules.WellFormed(r)
    && 0 <= r.localTime.value.hour < 24 && 0 <= r.localTime.value.minute < 60
  }

  function TimeOfDay(r: Recurrence): int
    requires Calendar(r)
  {
    (r.localTime.value.hour * 60 + r.localTime.value.minute) * MINUTE
  }

  /** Days are counted from 1 January 1970, a Thursday; Monday is 0. */
  function Weekday(day: int): int {
    (day + 3) % 7
  }

  predicate Falls(r: Recurrence, day: int) {
    r.kind.Weekly? ==> Weekday(day) in r.weekdays
  }

  /** The local time a rule comes to on a day, moved on past what the zone skips. */
  function LocalSlot(z: Zone, r: Recurrence, day: int): int
    requires Calendar(r)
  {
    FirstShown(z, day * DAY + TimeOfDay(r), 1440)
  }

  function Slot(z: Zone, r: Recurrence, day: int): int
    requires Calendar(r)
  {
    ToUtc(z, LocalSlot(z, r, day))
  }

  datatype Search = Found(at: int) | GapTooLong | NotFound

  function LocalDate(z: Zone, timestamp: int): int {
    ToLocal(z, timestamp) / DAY
  }

  /** What the search finds on the days left of those before `last`. */
  function SearchFrom(z: Zone, r: Recurrence, timestamp: int, day: int, last: int): Search
    requires Calendar(r)
    decreases last - day
  {
    if day >= last then NotFound
    else if !Falls(r, day) then SearchFrom(z, r, timestamp, day + 1, last)
    else if !Shown(z, LocalSlot(z, r, day)) then GapTooLong
    else if Slot(z, r, day) > timestamp then Found(Slot(z, r, day))
    else SearchFrom(z, r, timestamp, day + 1, last)
  }

  /** What the search finds. */
  function NextSlot(z: Zone, r: Recurrence, timestamp: int): Search
    requires Calendar(r)
  {
    SearchFrom(z, r, timestamp, LocalDate(z, timestamp), LocalDate(z, timestamp) + 8)
  }

  /** `_resolve_local_datetime`, as a local time. */
  method ResolveLocal(z: Zone, l: int) returns (r: Option<int>)
    ensures r == if Shown(z, FirstShown(z, l, 1440)) then Some(FirstShown(z, l, 1440)) else None
  {
    if Shown(z, l) {
      return Some(l);
    }
    var probe := l;
    for i := 0 to 24 * 60
      invariant !Shown(z, probe)
      invariant FirstShown(z, l, 1440) == FirstShown(z, probe, 1440 - i)
    {
      probe := probe + MINUTE;
      if Shown(z, probe) {
        return Some(probe);
      }
    }
    return None;
  }

  /** `_next_calendar_slot`. */
  method NextCalendarSlot(z: Zone, r: Recurrence, timestamp: int) returns (found: Search)
    requires Calendar(r)
    ensures found == NextSlot(z, r, timestamp)
  {
    hide ToUtc, ToLocal, Shown, FirstShown, Falls, LocalDate, TimeOfDay, Calendar;
    var localDate := LocalDate(z, timestamp);
    for offset := 0 to 8
      invariant NextSlot(z, r, timestamp) == SearchFrom(z, r, timestamp, localDate + offset, localDate + 8)
    {
      var day := localDate + offset;
      if Falls(r, day) {
        var candidate := ResolveLocal(z, day * DAY + TimeOfDay(r));
        if candidate.None? {
          return GapTooLong;
        }
        var at := ToUtc(z, candidate.value);
        if at > timestamp {
          return Found(at);
        }
      }
    }
    return NotFound;
  }

  /** A zone whose table is in order, on whole minutes, never off by more than a day
      at once. */
  ghost predicate Usable(z: Zone) {
    z.InOrder() && z.WithinADay() && z.OnMinutes()
  }

  // ---- the slots of a rule ----

  lemma WithinTheDay(r: Recurrence, day: int)
    requires Calendar(r)
    ensures 0 <= TimeOfDay(r) < DAY && (day * DAY + TimeOfDay(r)) % MINUTE == 0
  {
    var minutes := day * 1440 + r.localTime.value.hour * 60 + r.localTime.value.minute;
    assert day * DAY + TimeOfDay(r) == minutes * MINUTE;
    WholeMinutes(minutes);
  }

  lemma WholeMinutes(minutes: int)
    ensures (minutes * MINUTE) % MINUTE == 0
  {
  }

  lemma SlotSettles(z: Zone, r: Recurrence, day: int)
    requires Usable(z) && Calendar(r)
    ensures var from := day * DAY + TimeOfDay(r);
            && day * DAY <= from <= LocalSlot(z, r, day) && Shown(z, LocalSlot(z, r, day))
            && forall x :: from <= x < LocalSlot(z, r, day) ==> !Shown(z, x)
  {
    hide TimeOfDay, Shown, FirstShown, ToLocal, ToUtc, Zone.InOrder, Zone.WithinADay, Zone.OnMinutes, Calendar;
    WithinTheDay(r, day);
    SearchSettles(z, day * DAY + TimeOfDay(r));
  }

  /** Day 4 was a Monday, and every seventh day before and after it. */
  lemma FallsIff(r: Recurrence, day: int)
    requires Calendar(r)
    ensures Falls(r, day) <==>
            r.kind.Daily? || exists i :: 0 <= i < |r.weekdays| && (day - 4 - r.weekdays[i]) % 7 == 0
  {
    if i :| 0 <= i < |r.weekdays| && (day - 4 - r.weekdays[i]) % 7 == 0 {
      assert Weekday(day) == r.weekdays[i];
    }
  }

  /** The local time a rule asks for on a day, in milliseconds. */
  function Asked(r: Recurrence, day: int): int
    requires Calendar(r)
  {
    day * 86_400_000 + r.localTime.value.hour * 3_600_000 + r.localTime.value.minute * 60_000
  }

  /** In terms of the hour and minute of the rule: a clock in the zone shows exactly them
      at the slot of a day, unless the zone skips them; then it shows the first local
      time after them that is not skipped. */
  lemma SlotIsAsked(z: Zone, r: Recurrence, day: int)
    requires Usable(z) && Calendar(r)
    ensures var shown := ToLocal(z, Slot(z, r, day));
            && Asked(r, day) <= shown && Shown(z, shown)
            && (forall x :: Asked(r, day) <= x < shown ==> !Shown(z, x))
            && (Shown(z, Asked(r, day)) ==> shown == Asked(r, day))
            && (forall t :: ToLocal(z, t) == shown ==> Slot(z, r, day) <= t)
  {
    SlotSettles(z, r, day);
    var local := LocalSlot(z, r, day);
    assert ToLocal(z, Slot(z, r, day)) == local;
    assert Asked(r, day) == day * DAY + TimeOfDay(r);
    forall t | ToLocal(z, t) == local
      ensures Slot(z, r, day) <= t
    {
      FirstReading(z, local, t);
    }
  }

  /** Later days never have earlier slots. */
  lemma SlotsInOrder(z: Zone, r: Recurrence, a: int, b: int)
    requires Usable(z) && Calendar(r) && a <= b
    ensures Slot(z, r, a) <= Slot(z, r, b)
  {
    SlotSettles(z, r, a);
    SlotSettles(z, r, b);
    ReadingsInOrder(z, LocalSlot(z, r, a), LocalSlot(z, r, b));
  }

  /** The slots of days gone by are not ahead. */
  lemma EarlierDaysArePast(z: Zone, r: Recurrence, timestamp: int, day: int)
    requires Usable(z) && Calendar(r) && day < LocalDate(z, timestamp)
    ensures Slot(z, r, day) <= timestamp
  {
    var now := ToLocal(z, timestamp);
    SlotSettles(z, r, day);
    assert day * DAY + TimeOfDay(r) <= now;
    FirstReading(z, now, timestamp);
    FirstReading(z, LocalSlot(z, r, day), timestamp);
  }

  /** A slot of a later day that is already past was shown before the clock went
      back across midnight. */
  lemma PastSlotWasRepeated(z: Zone, r: Recurrence, timestamp: int, day: int) returns (i: nat)
    requires Usable(z) && Calendar(r)
    requires LocalDate(z, timestamp) < day && Slot(z, r, day) <= timestamp
    ensures i < |z.changes| && z.changes[i].at <= timestamp
    ensures z.After(i) <= ToLocal(z, timestamp) < day * DAY <= LocalSlot(z, r, day) < z.Before(i) <= z.After(i) + DAY
  {
    SlotSettles(z, r, day);
    i := ReadBefore(z, LocalSlot(z, r, day), timestamp);
    assert z.High(i) - z.Low(i) <= DAY;
  }

  /** From the day after tomorrow on, every slot is ahead. */
  lemma TwoDaysOnIsAhead(z: Zone, r: Recurrence, timestamp: int, day: int)
    requires Usable(z) && Calendar(r) && LocalDate(z, timestamp) + 2 <= day
    ensures Slot(z, r, day) > timestamp
  {
    if Slot(z, r, day) <= timestamp {
      var i := PastSlotWasRepeated(z, r, timestamp, day);
    }
  }

  // ---- what the search finds ----

  /** Every slot of the rule on the days from `from` up to `to` is past. */
  ghost predicate AllPast(z: Zone, r: Recurrence, timestamp: int, from: int, to: int)
    requires Calendar(r)
  {
    forall day :: from <= day < to && Falls(r, day) ==> Slot(z, r, day) <= timestamp
  }

  /** An instant at which the rule falls due next. */
  ghost predicate IsNext(z: Zone, r: Recurrence, timestamp: int, at: int)
    requires Calendar(r)
  {
    && at > timestamp
    && (exists day :: Falls(r, day) && Slot(z, r, day) == at)
    && forall day :: Falls(r, day) && Slot(z, r, day) > timestamp ==> at <= Slot(z, r, day)
  }

  lemma FirstAheadIsNext(z: Zone, r: Recurrence, timestamp: int, day: int)
    requires Usable(z) && Calendar(r) && Falls(r, day) && Slot(z, r, day) > timestamp
    requires AllPast(z, r, timestamp, LocalDate(z, timestamp), day)
    ensures IsNext(z, r, timestamp, Slot(z, r, day))
  {
    forall other | Falls(r, other) && Slot(z, r, other) > timestamp
      ensures Slot(z, r, day) <= Slot(z, r, other)
    {
      if other < LocalDate(z, timestamp) {
        EarlierDaysArePast(z, r, timestamp, other);
      } else if day <= other {
        SlotsInOrder(z, r, day, other);
      }
    }
  }

  lemma {:induction false} FoundIsNext(z: Zone, r: Recurrence, timestamp: int, day: int, last: int)
    requires Usable(z) && Calendar(r) && day <= last
    requires AllPast(z, r, timestamp, LocalDate(z, timestamp), day)
    ensures match SearchFrom(z, r, timestamp, day, last)
            case Found(at) => IsNext(z, r, timestamp, at)
            case GapTooLong => false
            case NotFound => AllPast(z, r, timestamp, LocalDate(z, timestamp), last)
    decreases last - day
  {
    hide LocalDate, Weekday, ToUtc, ToLocal, TimeOfDay, Usable, IsNext, Shown, LocalSlot, Slot;
    if day < last {
      ShownSlot(z, r, day);
      if Falls(r, day) && Slot(z, r, day) > timestamp {
        FirstAheadIsNext(z, r, timestamp, day);
      } else {
        FoundIsNext(z, r, timestamp, day + 1, last);
      }
    }
  }

  lemma ShownSlot(z: Zone, r: Recurrence, day: int)
    requires Usable(z) && Calendar(r)
    ensures Shown(z, LocalSlot(z, r, day))
  {
    SlotSettles(z, r, day);
  }

  /** Whatever is found is due after the timestamp, is a slot of the rule, and none
      of its slots lies between; nothing is found only when eight days are past. */
  lemma SearchFindsNext(z: Zone, r: Recurrence, timestamp: int)
    requires Usable(z) && Calendar(r)
    ensures match NextSlot(z, r, timestamp)
            case Found(at) => IsNext(z, r, timestamp, at)
            case GapTooLong => false
            case NotFound => AllPast(z, r, timestamp, LocalDate(z, timestamp), LocalDate(z, timestamp) + 8)
  {
    FoundIsNext(z, r, timestamp, LocalDate(z, timestamp), LocalDate(z, timestamp) + 8);
  }

  /** What is found, in terms of clocks: it is a day the rule falls on, and a clock in the
      zone shows the rule's hour and minute then, or the first time after them that is
      not skipped. */
  lemma FoundShowsTheTime(z: Zone, r: Recurrence, timestamp: int) returns (day: int)
    requires Usable(z) && Calendar(r) && NextSlot(z, r, timestamp).Found?
    ensures var at := NextSlot(z, r, timestamp).at;
            && at > timestamp && Falls(r, day) && Asked(r, day) <= ToLocal(z, at)
            && (forall x :: Asked(r, day) <= x < ToLocal(z, at) ==> !Shown(z, x))
            && (Shown(z, Asked(r, day)) ==> ToLocal(z, at) == Asked(r, day))
  {
    SearchFindsNext(z, r, timestamp);
    hide NextSlot, Slot, ToLocal, Shown, Falls;
    var at := NextSlot(z, r, timestamp).at;
    day :| Falls(r, day) && Slot(z, r, day) == at;
    SlotIsAsked(z, r, day);
  }

  /** The rule is for tomorrow's weekday alone, and the clock has been put back from
      tomorrow, past its slot. */
  predicate Stranded(z: Zone, r: Recurrence, timestamp: int)
    requires Calendar(r)
  {
    var tomorrow := LocalDate(z, timestamp) + 1;
    r.kind.Weekly? && r.weekdays == [Weekday(tomorrow)] && Slot(z, r, tomorrow) <= timestamp
  }

  /** The search comes back empty-handed in exactly one situation. */
  lemma NotFoundIff(z: Zone, r: Recurrence, timestamp: int)
    requires Usable(z) && Calendar(r)
    ensures NextSlot(z, r, timestamp) == NotFound <==> Stranded(z, r, timestamp)
  {
    if Stranded(z, r, timestamp) {
      MissedWeek(z, r, timestamp, LocalDate(z, timestamp), LocalDate(z, timestamp) + 8);
    }
    if NextSlot(z, r, timestamp) == NotFound {
      EmptyHanded(z, r, timestamp);
    }
  }

  lemma EmptyHanded(z: Zone, r: Recurrence, timestamp: int)
    requires Usable(z) && Calendar(r) && NextSlot(z, r, timestamp) == NotFound
    ensures Stranded(z, r, timestamp)
  {
    hide Weekday, ToUtc, ToLocal, TimeOfDay, Usable, LocalSlot, Slot, NextSlot;
    var today := LocalDate(z, timestamp);
    SearchFindsNext(z, r, timestamp);
    forall day | today + 2 <= day < today + 8
      ensures !Falls(r, day)
    {
      TwoDaysOnIsAhead(z, r, timestamp, day);
    }
    OnlyTomorrow(r, today);
  }

  /** Of eight days in a row the first and the last share a weekday, and no two
      others do. */
  lemma WeekdaysApart(a: int, b: int)
    requires a <= b < a + 7 && Weekday(a) == Weekday(b)
    ensures a == b
  {
  }

  lemma DayOfWeekday(from: int, weekday: int) returns (day: int)
    requires 0 <= weekday < 7
    ensures from <= day < from + 7 && Weekday(day) == weekday
  {
    day := from + (weekday - Weekday(from)) % 7;
  }

  /** A weekly rule that falls on none of the six days after tomorrow. */
  lemma OnlyTomorrow(r: Recurrence, today: int)
    requires Calendar(r)
    requires forall day :: today + 2 <= day < today + 8 ==> !Falls(r, day)
    ensures r.kind.Weekly? && r.weekdays == [Weekday(today + 1)]
  {
    assert !Falls(r, today + 2);
    forall i | 0 <= i < |r.weekdays|
      ensures r.weekdays[i] == Weekday(today + 1)
    {
      var day := DayOfWeekday(today + 1, r.weekdays[i]);
      assert Falls(r, day);
    }
    assert r.weekdays[0] == r.weekdays[|r.weekdays| - 1];
  }

  lemma {:induction false} MissedWeek(z: Zone, r: Recurrence, timestamp: int, day: int, last: int)
    requires Usable(z) && Calendar(r) && Stranded(z, r, timestamp)
    requires LocalDate(z, timestamp) <= day <= last <= LocalDate(z, timestamp) + 8
    ensures SearchFrom(z, r, timestamp, day, last) == NotFound
    decreases last - day
  {
    hide LocalDate, Weekday, ToUtc, ToLocal, TimeOfDay, Usable, Shown, LocalSlot, Slot;
    if day < last {
      ShownSlot(z, r, day);
      MissedWeek(z, r, timestamp, day + 1, last);
      if Falls(r, day) {
        OneInEight(LocalDate(z, timestamp), day);
      }
    }
  }

  lemma OneInEight(today: int, day: int)
    requires today <= day < today + 8 && Weekday(day) == Weekday(today + 1)
    ensures day == today + 1
  {
    if day < today + 1 { WeekdaysApart(day, today + 1); } else { WeekdaysApart(today + 1, day); }
  }

  /** No stretch of local time is repeated across a midnight. */
  ghost predicate MidnightsPassOnce(z: Zone) {
    forall i :: 0 <= i < |z.changes| && z.After(i) < z.Before(i) ==> z.After(i) / DAY == (z.Before(i) - 1) / DAY
  }

  /** Where the clock is never put back across midnight, eight days always do. */
  lemma EightDaysSuffice(z: Zone, r: Recurrence, timestamp: int)
    requires Usable(z) && Calendar(r) && MidnightsPassOnce(z)
    ensures NextSlot(z, r, timestamp).Found?
  {
    NotFoundIff(z, r, timestamp);
    SearchFindsNext(z, r, timestamp);
    TomorrowIsAhead(z, r, timestamp);
  }

  lemma TomorrowIsAhead(z: Zone, r: Recurrence, timestamp: int)
    requires Usable(z) && Calendar(r) && MidnightsPassOnce(z)
    ensures Slot(z, r, LocalDate(z, timestamp) + 1) > timestamp
  {
    hide ToLocal, ToUtc, Slot, LocalSlot, TimeOfDay, Zone.InOrder, Zone.WithinADay, Zone.OnMinutes, Calendar;
    var now := ToLocal(z, timestamp);
    var tomorrow := now / DAY + 1;
    if Slot(z, r, tomorrow) <= timestamp {
      var i := PastSlotWasRepeated(z, r, timestamp, tomorrow);
      SameDay(z.After(i), now, z.Before(i) - 1);
    }
  }

  lemma SameDay(a: int, now: int, b: int)
    requires a <= now <= b && a / DAY == b / DAY
    ensures b < (now / DAY + 1) * DAY
  {
  }

  // ---- the rule as a whole ----

  /** `first_after`. */
  method FirstAfter(z: Zone, r: Recurrence, timestamp: int) returns (found: Search)
    requires if r.kind.Every? then r.intervalMs.Some? else Calendar(r)
    ensures found == if r.kind.Every? then Found(timestamp + r.intervalMs.value) else NextSlot(z, r, timestamp)
  {
    if r.kind.Every? {
      return Found(timestamp + r.intervalMs.value);
    }
    found := NextCalendarSlot(z, r, timestamp);
  }

  // ---- the one failure, made concrete ----

  /** Clocks go back one hour at 00:30, so that 23:30 to 00:30 comes twice. */
  const MIDNIGHT_ZONE: Zone := Zone(0, [Change(1_800_000, -3_600_000)])

  const THURSDAY_0015: Recurrence := Recurrence(Weekly, "weekly:thu@00:15", None, Some(LocalTime(0, 15)), [3])

  lemma SlotOnTheDot(z: Zone, r: Recurrence, day: int)
    requires Calendar(r) && Shown(z, day * DAY + TimeOfDay(r))
    ensures Slot(z, r, day) == ToUtc(z, day * DAY + TimeOfDay(r))
  {
  }

  /** A zone of one change. */
  lemma OneChange(z: Zone, t: int)
    requires |z.changes| == 1
    ensures ToLocal(z, t) == t + if z.changes[0].at <= t then z.changes[0].offset else z.first
    ensures ToUtc(z, t) == t - if z.High(0) <= t then z.changes[0].offset else z.first
  {
    assert z.Passed(t, 1) == if z.changes[0].at <= t then 1 else 0;
    assert z.PassedLocal(t, 1) == if z.High(0) <= t then 1 else 0;
  }

  /** At 23:40 the second time round, the slot at 00:15 is gone and the search for
      the next one gives up. */
  lemma EightDaysAreNotAlwaysEnough()
    ensures Usable(MIDNIGHT_ZONE) && Calendar(THURSDAY_0015)
    ensures NextSlot(MIDNIGHT_ZONE, THURSDAY_0015, 2_400_000) == NotFound
  {
    hide Slot, LocalSlot, NextSlot, ToLocal, ToUtc;
    OneChange(MIDNIGHT_ZONE, 2_400_000);
    OneChange(MIDNIGHT_ZONE, 900_000);
    SlotOnTheDot(MIDNIGHT_ZONE, THURSDAY_0015, 0);
    NotFoundIff(MIDNIGHT_ZONE, THURSDAY_0015, 2_400_000);
  }
}
