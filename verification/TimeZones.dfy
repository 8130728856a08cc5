/** A time zone as its table of offset changes, and the two conversions the
    interpreter makes with it: from an instant to local time, and from local time
    back, taking the first of two readings.  All times are milliseconds. */
module TimeZones {

  const MINUTE: int := 60_000
  const DAY: int := 86_400_000

  /** From the instant `at` on, local time is ahead of UTC by `offset`. */
  datatype Change = Change(at: int, offset: int)

  datatype Zone = Zone(first: int, changes: seq<Change>) {

    /** The offset once n changes have happened. */
    function Offset(n: nat): int
      requires n <= |changes|
    {
      if n == 0 then first else changes[n - 1].offset
    }

    /** Local time just before change i, and from it on. */
    function Before(i: nat): int
      requires i < |changes|
    {
      changes[i].at + Offset(i)
    }

    function After(i: nat): int
      requires i < |changes|
    {
      changes[i].at + Offset(i + 1)
    }

    /** The stretch of local time a change skips, or repeats. */
    function Low(i: nat): int
      requires i < |changes|
    {
      if Before(i) < After(i) then Before(i) else After(i)
    }

    function High(i: nat): int
      requires i < |changes|
    {
      if Before(i) < After(i) then After(i) else Before(i)
    }

    /** Changes come in order, and the stretches they skip or repeat do not meet. */
    ghost predicate InOrder() {
      forall i :: 0 <= i < |changes| - 1 ==> changes[i].at < changes[i + 1].at && High(i) <= Low(i + 1)
    }

    /** No change skips or repeats more than a day. */
    ghost predicate WithinADay() {
      forall i :: 0 <= i < |changes| ==> High(i) - Low(i) <= DAY
    }

    /** Changes fall on whole minutes of UTC and of local time. */
    ghost predicate OnMinutes() {
      forall i :: 0 <= i < |changes| ==> changes[i].at % MINUTE == 0 && changes[i].offset % MINUTE == 0
    }

    /** How many of the first n changes have happened at instant u: a search from
        the last one back. */
    function Passed(u: int, n: nat): nat
      requires n <= |changes|
    {
      if n == 0 then 0 else if changes[n - 1].at <= u then n else Passed(u, n - 1)
    }

    function Happened(u: int): nat { Passed(u, |changes|) }

    /** How many of the first n changes a local time is past, counting a repeated
        stretch as before its change. */
    function PassedLocal(l: int, n: nat): nat
      requires n <= |changes|
    {
      if n == 0 then 0 else if High(n - 1) <= l then n else PassedLocal(l, n - 1)
    }

    function HappenedLocal(l: int): nat { PassedLocal(l, |changes|) }
  }

  lemma {:induction false} PassedBound(z: Zone, u: int, n: nat)
    requires n <= |z.changes|
    ensures z.Passed(u, n) <= n
    ensures z.Passed(u, n) > 0 ==> z.changes[z.Passed(u, n) - 1].at <= u
    ensures z.Passed(u, n) < n ==> u < z.changes[z.Passed(u, n)].at
    ensures forall i :: z.Passed(u, n) <= i < n ==> u < z.changes[i].at
  {
    if n > 0 && u < z.changes[n - 1].at { PassedBound(z, u, n - 1); }
  }

  lemma {:induction false} PassedLocalBound(z: Zone, l: int, n: nat)
    requires n <= |z.changes|
    ensures z.PassedLocal(l, n) <= n
    ensures z.PassedLocal(l, n) > 0 ==> z.High(z.PassedLocal(l, n) - 1) <= l
    ensures z.PassedLocal(l, n) < n ==> l < z.High(z.PassedLocal(l, n))
  {
    if n > 0 && l < z.High(n - 1) { PassedLocalBound(z, l, n - 1); }
  }

  /** `astimezone(zone)`. */
  function ToLocal(z: Zone, u: int): int {
    PassedBound(z, u, |z.changes|);
    u + z.Offset(z.Happened(u))
  }

  /** `replace(tzinfo=zone, fold=0).astimezone(UTC)`. */
  function ToUtc(z: Zone, l: int): int {
    PassedLocalBound(z, l, |z.changes|);
    l - z.Offset(z.HappenedLocal(l))
  }

  /** `_roundtrips_to`: a clock in the zone does show this local time. */
  predicate Shown(z: Zone, l: int) {
    ToLocal(z, ToUtc(z, l)) == l
  }

  lemma {:induction false} StretchesInOrder(z: Zone, i: nat, j: nat)
    requires z.InOrder() && i < j < |z.changes|
    ensures z.High(i) <= z.Low(j) && z.changes[i].at < z.changes[j].at
    decreases j - i
  {
    assert z.changes[j - 1].at < z.changes[j].at && z.High(j - 1) <= z.Low(j);
    if i + 1 < j {
      StretchesInOrder(z, i, j - 1);
    }
  }

  lemma HappenedIs(z: Zone, u: int, k: nat)
    requires z.InOrder() && k <= |z.changes|
    requires (k > 0 ==> z.changes[k - 1].at <= u) && (k < |z.changes| ==> u < z.changes[k].at)
    ensures z.Happened(u) == k
  {
    var p := z.Happened(u);
    PassedBound(z, u, |z.changes|);
    if k + 1 < p { StretchesInOrder(z, k, p - 1); }
  }

  /** Local time between two changes lies between what they skip or repeat. */
  lemma LocalBetween(z: Zone, u: int)
    requires z.InOrder()
    ensures var m := z.Happened(u);
            && m <= |z.changes| && ToLocal(z, u) == u + z.Offset(m)
            && (m > 0 ==> z.changes[m - 1].at <= u && z.After(m - 1) <= ToLocal(z, u))
            && (m < |z.changes| ==> u < z.changes[m].at && ToLocal(z, u) < z.Before(m))
  {
    PassedBound(z, u, |z.changes|);
  }

  lemma LocalPast(z: Zone, u: int, i: nat)
    requires z.InOrder() && i + 1 < z.Happened(u) && i < |z.changes|
    ensures z.High(i) <= ToLocal(z, u)
  {
    LocalBetween(z, u);
    StretchesInOrder(z, i, z.Happened(u) - 1);
  }

  lemma LocalNotYet(z: Zone, u: int, i: nat)
    requires z.InOrder() && z.Happened(u) <= i < |z.changes|
    ensures ToLocal(z, u) < z.High(i)
  {
    LocalBetween(z, u);
    if z.Happened(u) < i {
      StretchesInOrder(z, z.Happened(u), i);
    }
  }

  /** A local time is shown exactly when the next change has not skipped it. */
  lemma ShownIff(z: Zone, l: int)
    requires z.InOrder()
    ensures var k := z.HappenedLocal(l);
            && k <= |z.changes|
            && (Shown(z, l) <==> k == |z.changes| || l < z.Before(k))
            && (Shown(z, l) ==> z.Happened(ToUtc(z, l)) == k)
  {
    var k := z.HappenedLocal(l);
    var u := ToUtc(z, l);
    PassedLocalBound(z, l, |z.changes|);
    if k == |z.changes| || l < z.Before(k) {
      HappenedIs(z, u, k);
    } else {
      var q := z.Happened(u);
      assert z.changes[k].at <= u;
      LocalBetween(z, u);
      if q < k {
        ChangesInOrder(z, q, k);
      } else if q > k + 1 {
        LocalPast(z, u, k);
      }
    }
  }

  lemma ChangesInOrder(z: Zone, i: nat, j: nat)
    requires z.InOrder() && i <= j < |z.changes|
    ensures z.changes[i].at <= z.changes[j].at
  {
    if i < j { StretchesInOrder(z, i, j); }
  }

  /** Of the instants that show a local time, ToUtc is the first; and what any
      instant shows is shown. */
  lemma FirstReading(z: Zone, l: int, t: int)
    requires z.InOrder() && l <= ToLocal(z, t)
    ensures Shown(z, l) ==> ToUtc(z, l) <= t
    ensures ToLocal(z, t) == l ==> Shown(z, l)
  {
    var k := z.HappenedLocal(l);
    var m := z.Happened(t);
    PassedLocalBound(z, l, |z.changes|);
    LocalBetween(z, t);
    ShownIff(z, l);
    if m < k {
      LocalNotYet(z, t, k - 1);
    } else if m > k {
      LocalBetween(z, ToUtc(z, l));
      ChangesInOrder(z, k, m - 1);
      if m > k + 1 { LocalPast(z, t, k); }
    }
  }

  /** A later local time whose first reading is already past was shown before the
      clock went back over it. */
  lemma ReadBefore(z: Zone, l: int, t: int) returns (i: nat)
    requires z.InOrder() && Shown(z, l) && ToLocal(z, t) < l && ToUtc(z, l) <= t
    ensures i < |z.changes| && z.changes[i].at <= t && z.After(i) <= ToLocal(z, t) < l < z.Before(i)
  {
    var k := z.HappenedLocal(l);
    var m := z.Happened(t);
    PassedLocalBound(z, l, |z.changes|);
    LocalBetween(z, t);
    ShownIff(z, l);
    LocalBetween(z, ToUtc(z, l));
    if m < k {
      ChangesInOrder(z, m, k - 1);
    } else if m > k + 1 {
      LocalPast(z, t, k);
    }
    i := k;
  }

  /** First readings keep the order of local time. */
  lemma ReadingsInOrder(z: Zone, a: int, b: int)
    requires z.InOrder() && Shown(z, a) && Shown(z, b) && a <= b
    ensures ToUtc(z, a) <= ToUtc(z, b)
  {
    FirstReading(z, a, ToUtc(z, b));
  }

  // ---- local times that are skipped ----

  /** The first local time from l on, in steps of a minute, that is shown. */
  function FirstShown(z: Zone, l: int, tries: nat): (r: int)
    decreases tries
  {
    if Shown(z, l) || tries == 0 then l else FirstShown(z, l + MINUTE, tries - 1)
  }

  /** A skipped local time lies in one stretch, and a day's worth of minutes leads
      out of it. */
  lemma SkippedStretch(z: Zone, l: int)
    requires z.InOrder() && !Shown(z, l)
    ensures var k := z.HappenedLocal(l);
            k < |z.changes| && z.Before(k) <= l < z.After(k) && Shown(z, z.After(k))
    ensures forall x :: l <= x < z.After(z.HappenedLocal(l)) ==> !Shown(z, x)
  {
    var k := z.HappenedLocal(l);
    ShownIff(z, l);
    PassedLocalBound(z, l, |z.changes|);
    var at := z.changes[k].at;
    if k + 1 < |z.changes| { StretchesInOrder(z, k, k + 1); }
    HappenedIs(z, at, k + 1);
    LocalBetween(z, at);
    FirstReading(z, z.After(k), at);
    forall x | l <= x < z.After(k)
      ensures !Shown(z, x)
    {
      SameStretch(z, x, k);
      ShownIff(z, x);
    }
  }

  lemma SameStretch(z: Zone, x: int, k: nat)
    requires z.InOrder() && k < |z.changes| && z.Before(k) <= x < z.After(k)
    ensures z.HappenedLocal(x) == k
  {
    var p := z.HappenedLocal(x);
    PassedLocalBound(z, x, |z.changes|);
    if p < k { StretchesInOrder(z, p, k); }
    if k + 1 < p { StretchesInOrder(z, k, p - 1); }
  }

  /** The minutes from a to b, and a in step with b. */
  lemma {:induction false} MinutesLead(z: Zone, l: int, goal: int, tries: nat)
    requires l <= goal <= l + tries * MINUTE && (goal - l) % MINUTE == 0
    requires Shown(z, goal) && forall x :: l <= x < goal ==> !Shown(z, x)
    ensures FirstShown(z, l, tries) == goal
    decreases tries
  {
    if l < goal {
      assert l + MINUTE <= goal;
      MinutesLead(z, l + MINUTE, goal, tries - 1);
    }
  }

  lemma WholeDifference(a: int, b: int, l: int)
    requires a % MINUTE == 0 && b % MINUTE == 0 && l % MINUTE == 0
    ensures (a + b) % MINUTE == 0 && (a + b - l) % MINUTE == 0
  {
  }

  lemma SkipEnds(z: Zone, l: int)
    requires z.InOrder() && z.WithinADay() && z.OnMinutes() && l % MINUTE == 0 && !Shown(z, l)
    ensures var k := z.HappenedLocal(l);
            && k < |z.changes| && l < z.After(k) <= l + DAY
            && z.After(k) % MINUTE == 0 && (z.After(k) - l) % MINUTE == 0
            && Shown(z, z.After(k)) && forall x :: l <= x < z.After(k) ==> !Shown(z, x)
  {
    SkippedStretch(z, l);
    var k := z.HappenedLocal(l);
    assert z.High(k) - z.Low(k) <= DAY;
    assert z.changes[k].at % MINUTE == 0 && z.changes[k].offset % MINUTE == 0;
    WholeDifference(z.changes[k].at, z.changes[k].offset, l);
  }

  /** From any whole minute the search ends within a day on a local time that is
      shown, and passes over none. */
  lemma SearchSettles(z: Zone, l: int)
    requires z.InOrder() && z.WithinADay() && z.OnMinutes() && l % MINUTE == 0
    ensures var r := FirstShown(z, l, 1440);
            l <= r <= l + DAY && r % MINUTE == 0 && Shown(z, r) && forall x :: l <= x < r ==> !Shown(z, x)
  {
    if !Shown(z, l) {
      SkipEnds(z, l);
      MinutesLead(z, l, z.After(z.HappenedLocal(l)), 1440);
    }
  }
}
