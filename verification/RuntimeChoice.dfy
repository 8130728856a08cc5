/** Which runtime serves next: priority order, bans, and turns taken among the banned. */
module RuntimeChoice {
  import opened Wrappers

  const BAN_MS: int := 3_600_000

  type Bans = map<nat, int>

  /** Not banned, or no longer. */
  predicate Free(bans: Bans, i: nat, now: int) {
    i in bans ==> bans[i] <= now
  }

  /** The runtime to serve among n, when some are excluded: the first that is free,
      and otherwise the one whose ban ends first. */
  ghost predicate Chosen(n: nat, bans: Bans, exclude: set<nat>, now: int, i: nat) {
    && i < n && i !in exclude
    && (Free(bans, i, now) ==> forall j: nat :: j < i && j !in exclude ==> !Free(bans, j, now))
    && (!Free(bans, i, now) ==> forall j: nat :: j < n && j !in exclude ==>
          !Free(bans, j, now) && (bans[i] < bans[j] || (bans[i] == bans[j] && i <= j)))
  }

  /** There is only one such runtime. */
  lemma ChosenIsUnique(n: nat, bans: Bans, exclude: set<nat>, now: int, i: nat, j: nat)
    requires Chosen(n, bans, exclude, now, i) && Chosen(n, bans, exclude, now, j)
    ensures i == j
  {
    assert Free(bans, i, now) == Free(bans, j, now);
  }

  /** Those before runtime i that are not excluded stand banned past `now`. */
  ghost predicate Barred(bans: Bans, exclude: set<nat>, now: int, i: nat) {
    forall j: nat :: j < i && j !in exclude ==> j in bans && now < bans[j]
  }

  /** Runtime i may serve, and none that comes before it. */
  ghost predicate IsFirst(bans: Bans, exclude: set<nat>, now: int, i: nat) {
    i !in exclude && (i !in bans || bans[i] <= now) && Barred(bans, exclude, now, i)
  }

  lemma FirstIsChosen(n: nat, bans: Bans, exclude: set<nat>, now: int, pick: nat)
    requires Chosen(n, bans, exclude, now, pick)
    ensures forall i: nat :: i < n && IsFirst(bans, exclude, now, i) ==> i == pick
  {
    forall i: nat | i < n && IsFirst(bans, exclude, now, i) ensures i == pick {
      assert Free(bans, i, now) && Free(bans, pick, now);
    }
  }

  /** A failure keeps a runtime out for an hour as long as any other may serve; once the
      hour is over it serves again, unless one before it does. */
  lemma BanLastsAnHour(n: nat, bans: Bans, exclude: set<nat>, failedAt: int, i: nat, now: int, pick: nat)
    requires i < n && Chosen(n, bans[i := failedAt + BAN_MS], exclude, now, pick)
    ensures now < failedAt + 3_600_000 && pick == i ==>
              forall j: nat :: j < n && j !in exclude && j != i ==> j in bans && now < bans[j]
    ensures failedAt + 3_600_000 <= now && i !in exclude && Barred(bans, exclude, now, i) ==> pick == i
  {
    var after := bans[i := failedAt + BAN_MS];
    FirstIsChosen(n, after, exclude, now, pick);
    if now < failedAt + 3_600_000 && pick == i {
      assert !Free(after, i, now);
      forall j: nat | j < n && j !in exclude && j != i ensures j in bans && now < bans[j] {
        assert !Free(after, j, now);
      }
    }
    if failedAt + 3_600_000 <= now && i !in exclude && Barred(bans, exclude, now, i) {
      assert IsFirst(after, exclude, now, i);
    }
  }

  class Runtime {
    const count: nat
    var banUntilMs: Bans

    constructor (count: nat)
      requires count > 0
      ensures this.count == count && banUntilMs == map[]
    {
      this.count := count;
      banUntilMs := map[];
    }

    /** `select`: nothing exactly when every runtime is excluded.  Choosing one that
        is free forgets its ban; a ban that stands is left standing. */
    method Select(exclude: set<nat>, now: int) returns (chosen: Option<nat>)
      modifies this
      ensures chosen.None? <==> forall i: nat :: i < count ==> i in exclude
      ensures chosen.None? ==> banUntilMs == old(banUntilMs)
      ensures chosen.Some? ==> Chosen(count, old(banUntilMs), exclude, now, chosen.value)
      ensures forall i: nat :: i < count && IsFirst(old(banUntilMs), exclude, now, i) ==> chosen == Some(i)
      ensures chosen.Some? ==>
                banUntilMs == if Free(old(banUntilMs), chosen.value, now) then old(banUntilMs) - {chosen.value}
                              else old(banUntilMs)
    {
      var first: Option<nat> := None;
      for i := 0 to count
        invariant first.None? <==> forall j: nat :: j < i ==> j in exclude
        invariant banUntilMs == old(banUntilMs)
        invariant first.Some? ==> first.value < i && first.value !in exclude
        invariant forall j: nat :: j < i && j !in exclude ==> !Free(banUntilMs, j, now)
        invariant first.Some? ==> forall j: nat :: j < i && j !in exclude ==>
                    banUntilMs[first.value] < banUntilMs[j] ||
                        (banUntilMs[first.value] == banUntilMs[j] && first.value <= j)
      {
        if i !in exclude {
          if i !in banUntilMs || banUntilMs[i] <= now {
            banUntilMs := banUntilMs - {i};
            return Some(i);
          }
          if first.None? || banUntilMs[i] < banUntilMs[first.value] {
            first := Some(i);
          }
        }
      }
      return first;
    }

    /** `record_failure`. */
    method RecordFailure(i: nat, now: int) returns (until: int)
      requires i < count
      modifies this
      ensures until == now + BAN_MS && banUntilMs == old(banUntilMs)[i := until]
    {
      until := now + BAN_MS;
      banUntilMs := banUntilMs[i := until];
    }

    /** `record_success`. */
    method RecordSuccess(i: nat) returns (lifted: Option<int>)
      requires i < count
      modifies this
      ensures banUntilMs == old(banUntilMs) - {i}
      ensures lifted == if i in old(banUntilMs) then Some(old(banUntilMs)[i]) else None
    {
      lifted := if i in banUntilMs then Some(banUntilMs[i]) else None;
      banUntilMs := banUntilMs - {i};
    }
  }

  // ---- rounds that all fail ----

  /** One round: a runtime is selected, and its failure is recorded. */
  datatype Round = Round(selectedAt: int, failedAt: int, pick: nat)

  /** The bans after a round. */
  function After(bans: Bans, r: Round): Bans {
    (if Free(bans, r.pick, r.selectedAt) then bans - {r.pick} else bans)[r.pick := r.failedAt + BAN_MS]
  }

  lemma AfterIs(bans: Bans, r: Round)
    ensures After(bans, r) == bans[r.pick := r.failedAt + BAN_MS]
  {
  }

  /** The bans after the first k rounds. */
  function BansAt(bans: Bans, rounds: seq<Round>, k: nat): Bans
    requires k <= |rounds|
  {
    if k == 0 then bans else After(BansAt(bans, rounds, k - 1), rounds[k - 1])
  }

  /** A run of rounds among n runtimes, in time order; the bans it starts with were
      recorded no later than its first failure. */
  ghost predicate Rounds(n: nat, bans: Bans, rounds: seq<Round>) {
    && (forall k :: 0 <= k < |rounds| ==>
          Chosen(n, BansAt(bans, rounds, k), {}, rounds[k].selectedAt, rounds[k].pick)
          && rounds[k].selectedAt <= rounds[k].failedAt)
    && (forall j, k :: 0 <= j < k < |rounds| ==> rounds[j].failedAt <= rounds[k].selectedAt)
    && (rounds != [] ==> forall i :: i in bans ==> bans[i] <= rounds[0].failedAt + BAN_MS)
  }

  /** Such a run in which no two failures are recorded at the same time. */
  ghost predicate Fails(n: nat, bans: Bans, rounds: seq<Round>) {
    && Rounds(n, bans, rounds)
    && (forall j, k :: 0 <= j < k < |rounds| ==> rounds[j].failedAt < rounds[k].failedAt)
    && (rounds != [] ==> forall i :: i in bans ==> bans[i] < rounds[0].failedAt + BAN_MS)
  }

  /** The runtimes picked from round s up to round k. */
  function Picks(rounds: seq<Round>, s: nat, k: nat): set<nat>
    requires k <= |rounds|
  {
    set j | s <= j < k :: rounds[j].pick
  }

  lemma PicksOn(rounds: seq<Round>, s: nat, k: nat)
    requires k <= |rounds|
    ensures s < k ==> Picks(rounds, s, k) == Picks(rounds, s, k - 1) + {rounds[k - 1].pick}
    ensures k <= s ==> Picks(rounds, s, k) == {}
  {
  }

  /** Rounds come in time order. */
  lemma Earlier(n: nat, bans: Bans, rounds: seq<Round>, j: nat, k: nat)
    requires Rounds(n, bans, rounds) && j <= k < |rounds|
    ensures rounds[j].pick < n && rounds[k].pick < n
    ensures rounds[j].selectedAt <= rounds[k].selectedAt && rounds[j].failedAt <= rounds[k].failedAt
    ensures Fails(n, bans, rounds) && j < k ==> rounds[j].failedAt < rounds[k].failedAt
  {
    hide BansAt;
  }

  lemma FirstBans(n: nat, bans: Bans, rounds: seq<Round>, s: nat)
    requires Rounds(n, bans, rounds) && s < |rounds|
    ensures forall i :: i in bans ==> bans[i] <= rounds[s].failedAt + BAN_MS
    ensures Fails(n, bans, rounds) ==> forall i :: i in bans ==> bans[i] < rounds[s].failedAt + BAN_MS
  {
    Earlier(n, bans, rounds, 0, s);
  }

  /** Bans recorded before a round, and since. */
  lemma {:induction false} BansSince(n: nat, bans: Bans, rounds: seq<Round>, s: nat, k: nat)
    requires Rounds(n, bans, rounds) && s < |rounds| && k <= |rounds|
    ensures forall i :: i in BansAt(bans, rounds, k) && i !in Picks(rounds, s, k) ==>
              && BansAt(bans, rounds, k)[i] <= rounds[s].failedAt + BAN_MS
              && (Fails(n, bans, rounds) ==> BansAt(bans, rounds, k)[i] < rounds[s].failedAt + BAN_MS)
    ensures forall i :: i in Picks(rounds, s, k) ==>
              i in BansAt(bans, rounds, k) && BansAt(bans, rounds, k)[i] >= rounds[s].failedAt + BAN_MS
  {
    hide Rounds, Fails, Picks, After;
    PicksOn(rounds, s, k);
    if k == 0 {
      FirstBans(n, bans, rounds, s);
    } else {
      BansSince(n, bans, rounds, s, k - 1);
      PicksOn(rounds, s, k - 1);
      AfterIs(BansAt(bans, rounds, k - 1), rounds[k - 1]);
      if k <= s {
        Earlier(n, bans, rounds, k - 1, s);
      } else {
        Earlier(n, bans, rounds, s, k - 1);
      }
    }
  }

  lemma {:induction false} PicksAreFew(rounds: seq<Round>, s: nat, k: nat)
    requires s <= k <= |rounds|
    ensures |Picks(rounds, s, k)| <= k - s
  {
    if s < k {
      PicksAreFew(rounds, s, k - 1);
      assert Picks(rounds, s, k) == Picks(rounds, s, k - 1) + {rounds[k - 1].pick};
    }
  }

  lemma {:induction false} Spare(n: nat, taken: set<nat>) returns (i: nat)
    requires |taken| < n
    ensures i < n && i !in taken
  {
    if n - 1 !in taken {
      i := n - 1;
    } else {
      i := Spare(n - 1, taken - {n - 1});
    }
  }

  /** While the first of some rounds still bans, n rounds in a row pick n different
      runtimes. */
  lemma RoundsDiffer(n: nat, bans: Bans, rounds: seq<Round>, s: nat, k: nat)
    requires Fails(n, bans, rounds) && s < k < |rounds| && k < s + n
    requires rounds[k].selectedAt < rounds[s].failedAt + BAN_MS
    ensures rounds[s].pick != rounds[k].pick && rounds[k].pick !in Picks(rounds, s, k)
  {
    BansSince(n, bans, rounds, s, k);
    PicksAreFew(rounds, s, k);
    var other := Spare(n, Picks(rounds, s, k));
    assert rounds[s].pick in Picks(rounds, s, k);
  }

  lemma {:induction false} PicksAreMany(n: nat, bans: Bans, rounds: seq<Round>, s: nat, k: nat)
    requires Fails(n, bans, rounds) && s <= k <= |rounds| && k <= s + n
    requires s < k ==> rounds[k - 1].selectedAt < rounds[s].failedAt + BAN_MS
    ensures |Picks(rounds, s, k)| == k - s && forall i :: i in Picks(rounds, s, k) ==> i < n
  {
    hide Rounds, Picks, Chosen, BansAt;
    PicksOn(rounds, s, k);
    if s < k {
      if s < k - 1 { Earlier(n, bans, rounds, k - 2, k - 1); }
      PicksAreMany(n, bans, rounds, s, k - 1);
      Earlier(n, bans, rounds, s, k - 1);
      if s < k - 1 {
        RoundsDiffer(n, bans, rounds, s, k - 1);
      }
    }
  }

  lemma {:induction false} Few(n: nat, s: set<nat>)
    requires forall i :: i in s ==> i < n
    ensures |s| <= n
  {
    if n == 0 {
      assert s == {};
    } else {
      Few(n - 1, s - {n - 1});
    }
  }

  lemma FirstNotBetween(n: nat, bans: Bans, rounds: seq<Round>, k: nat)
    requires Fails(n, bans, rounds) && n > 0 && k + n < |rounds|
    requires rounds[k + n].selectedAt < rounds[k].failedAt + BAN_MS
    ensures rounds[k].pick !in Picks(rounds, k + 1, k + n)
    ensures n == 1 ==> Picks(rounds, k + 1, k + n) == {}
  {
    forall j | k < j < k + n ensures rounds[j].pick != rounds[k].pick {
      Earlier(n, bans, rounds, j, k + n);
      RoundsDiffer(n, bans, rounds, k, j);
    }
  }

  /** So they take turns: after n rounds it is the same one again. */
  lemma TakeTurns(n: nat, bans: Bans, rounds: seq<Round>, k: nat)
    requires Fails(n, bans, rounds) && n > 0 && k + n < |rounds|
    requires rounds[k + n].selectedAt < rounds[k].failedAt + BAN_MS
    ensures rounds[k + n].pick == rounds[k].pick
  {
    hide Rounds, Picks, Chosen, BansAt;
    Earlier(n, bans, rounds, k, k + n);
    var a, b, between := rounds[k].pick, rounds[k + n].pick, Picks(rounds, k + 1, k + n);
    FirstNotBetween(n, bans, rounds, k);
    if n > 1 {
      Earlier(n, bans, rounds, k, k + 1);
      Earlier(n, bans, rounds, k + n - 1, k + n);
      RoundsDiffer(n, bans, rounds, k + 1, k + n);
    }
    PicksAreMany(n, bans, rounds, k + 1, k + n);
    if a != b {
      Few(n, between + {a} + {b});
    }
  }

  /** Such runs exist: two runtimes that always fail are picked 0, 1, 0. */
  lemma TwoTakeTurns(now: int)
    ensures Fails(2, map[], [Round(now, now, 0), Round(now + 1, now + 1, 1), Round(now + 2, now + 2, 0)])
  {
    var rounds := [Round(now, now, 0), Round(now + 1, now + 1, 1), Round(now + 2, now + 2, 0)];
    AfterIs(map[], rounds[0]);
    AfterIs(BansAt(map[], rounds, 1), rounds[1]);
    assert BansAt(map[], rounds, 1) == map[0 := now + BAN_MS];
    assert BansAt(map[], rounds, 2) == map[0 := now + BAN_MS, 1 := now + 1 + BAN_MS];
  }

  // ---- when failures are recorded at the same time ----

  lemma RoundIs(n: nat, bans: Bans, rounds: seq<Round>, k: nat)
    requires Rounds(n, bans, rounds) && k < |rounds|
    ensures Chosen(n, BansAt(bans, rounds, k), {}, rounds[k].selectedAt, rounds[k].pick) && rounds[k].pick < n
  {
    hide BansAt;
  }

  /** What stands before round k: all that were not picked since round s are banned to
      the very time round s banned its own pick to, and so is one that was picked and
      comes before them all. */
  ghost predicate Tied(n: nat, bans: Bans, rounds: seq<Round>, s: nat, k: nat)
    requires s < k <= |rounds|
  {
    var until, before, picked := rounds[s].failedAt + BAN_MS, BansAt(bans, rounds, k), Picks(rounds, s, k);
    exists j :: j in picked && j in before && before[j] == until && Precedes(n, before, picked, until, j)
  }

  ghost predicate Precedes(n: nat, bans: Bans, picked: set<nat>, until: int, j: nat) {
    forall i: nat :: i < n && i !in picked ==> i in bans && bans[i] == until && j < i
  }

  /** The pick among runtimes of which some were picked lately, and none of the others
      is banned for longer than those. */
  lemma PickReturns(n: nat, bans: Bans, picked: set<nat>, until: int, time: int, pick: nat)
    requires Chosen(n, bans, {}, time, pick) && time < until && |picked| < n
    requires forall i :: i in bans && i !in picked ==> bans[i] <= until
    requires forall i :: i in picked ==> i < n && i in bans && bans[i] >= until
    ensures pick in picked <==>
            exists j :: j in picked && j in bans && bans[j] == until && Precedes(n, bans, picked, until, j)
  {
    if pick in picked {
      assert !Free(bans, pick, time);
      var other := Spare(n, picked);
      assert !Free(bans, other, time);
      forall i: nat | i < n && i !in picked
        ensures i in bans && bans[i] == until && pick < i
      {
        assert !Free(bans, i, time);
      }
      assert Precedes(n, bans, picked, until, pick);
    } else {
      forall j | j in picked && bans[j] == until
        ensures !Precedes(n, bans, picked, until, j)
      {
        assert !Free(bans, j, time);
        assert Free(bans, pick, time) || bans[pick] < until || pick < j;
      }
    }
  }

  lemma PicksBelow(n: nat, bans: Bans, rounds: seq<Round>, s: nat, k: nat)
    requires Rounds(n, bans, rounds) && k <= |rounds|
    ensures forall i :: i in Picks(rounds, s, k) ==> i < n
  {
    hide BansAt;
  }

  /** In every run, whatever the clock does: within a ban and n rounds, a round picks
      one that was picked since round s if and only if there is such a tie before it. */
  lemma ReturnsIff(n: nat, bans: Bans, rounds: seq<Round>, s: nat, k: nat)
    requires Rounds(n, bans, rounds) && s < k < |rounds| && k < s + n
    requires rounds[k].selectedAt < rounds[s].failedAt + BAN_MS
    ensures rounds[k].pick in Picks(rounds, s, k) <==> Tied(n, bans, rounds, s, k)
  {
    BansSince(n, bans, rounds, s, k);
    PicksAreFew(rounds, s, k);
    PicksBelow(n, bans, rounds, s, k);
    RoundIs(n, bans, rounds, k);
    hide Rounds, Picks, BansAt, Chosen, Precedes;
    PickReturns(n, BansAt(bans, rounds, k), Picks(rounds, s, k), rounds[s].failedAt + BAN_MS, rounds[k].selectedAt,
      rounds[k].pick);
  }

  /** So rounds in a row pick different runtimes, as many as there are rounds, if and
      only if there is no tie before any of them. */
  lemma {:induction false} AllDifferIff(n: nat, bans: Bans, rounds: seq<Round>, s: nat, k: nat)
    requires Rounds(n, bans, rounds) && s < k <= |rounds| && k <= s + n
    requires rounds[k - 1].selectedAt < rounds[s].failedAt + BAN_MS
    ensures |Picks(rounds, s, k)| == k - s <==> forall m :: s < m < k ==> !Tied(n, bans, rounds, s, m)
  {
    hide Rounds, Picks, BansAt, Tied;
    PicksOn(rounds, s, k);
    PicksOn(rounds, s, k - 1);
    PicksAreFew(rounds, s, k - 1);
    if s < k - 1 {
      Earlier(n, bans, rounds, k - 2, k - 1);
      AllDifferIff(n, bans, rounds, s, k - 1);
      ReturnsIff(n, bans, rounds, s, k - 1);
    }
  }

  /** All but the first stand banned to one time. */
  ghost predicate OthersBannedTo(n: nat, bans: Bans, until: int) {
    forall i: nat :: 0 < i < n ==> i in bans && bans[i] == until
  }

  /** One round repeats the pick of the last, within its ban, if and only if that pick
      was the first runtime and all the others stood banned to the very time its own ban
      was set to. */
  lemma RepeatsIff(n: nat, bans: Bans, rounds: seq<Round>, k: nat)
    requires Rounds(n, bans, rounds) && k + 1 < |rounds|
    requires rounds[k + 1].selectedAt < rounds[k].failedAt + BAN_MS
    ensures rounds[k + 1].pick == rounds[k].pick <==>
            rounds[k].pick == 0 && OthersBannedTo(n, BansAt(bans, rounds, k), rounds[k].failedAt + BAN_MS)
  {
    Earlier(n, bans, rounds, k, k + 1);
    hide Rounds, Picks, BansAt, Tied;
    if n > 1 {
      PicksOn(rounds, k, k + 1);
      PicksOn(rounds, k, k);
      ReturnsIff(n, bans, rounds, k, k + 1);
      TiedToLast(n, bans, rounds, k);
    }
  }

  lemma PrecedesAll(n: nat, bans: Bans, picked: set<nat>, until: int, pick: nat)
    requires picked == {pick} && pick < n && n > 1
    ensures Precedes(n, bans[pick := until], picked, until, pick) <==>
            pick == 0 && OthersBannedTo(n, bans, until)
  {
    var after := bans[pick := until];
    if Precedes(n, after, picked, until, pick) {
      forall i: nat | i < n && i != pick
        ensures i in bans && bans[i] == until && pick < i
      {
        assert i !in picked && i in after && after[i] == until;
      }
      var zero: nat := 0;
      assert zero != pick ==> zero in bans && pick < zero;
    }
  }

  lemma TiedToLast(n: nat, bans: Bans, rounds: seq<Round>, k: nat)
    requires k < |rounds| && rounds[k].pick < n && n > 1
    ensures Tied(n, bans, rounds, k, k + 1) <==>
            rounds[k].pick == 0 && OthersBannedTo(n, BansAt(bans, rounds, k), rounds[k].failedAt + BAN_MS)
  {
    var before, r, picked := BansAt(bans, rounds, k), rounds[k], Picks(rounds, k, k + 1);
    var until := r.failedAt + BAN_MS;
    AfterIs(before, r);
    PicksOn(rounds, k, k + 1);
    PicksOn(rounds, k, k);
    assert picked == {r.pick};
    assert BansAt(bans, rounds, k + 1) == before[r.pick := until];
    hide Precedes, BansAt, After, Picks, OthersBannedTo;
    PrecedesAll(n, before, picked, until, r.pick);
    assert Tied(n, bans, rounds, k, k + 1) <==> Precedes(n, before[r.pick := until], picked, until, r.pick) by {
      assert r.pick in picked;
    }
  }

  /** Such a tie comes about from no bans at all: with both failures in one millisecond
      the picks are 0, 1, 0, 0. */
  lemma TiesBreakTurns(now: int)
    ensures Rounds(2, map[], [Round(now, now, 0), Round(now, now, 1), Round(now, now, 0), Round(now, now, 0)])
  {
    var rounds := [Round(now, now, 0), Round(now, now, 1), Round(now, now, 0), Round(now, now, 0)];
    AfterIs(map[], rounds[0]);
    AfterIs(BansAt(map[], rounds, 1), rounds[1]);
    AfterIs(BansAt(map[], rounds, 2), rounds[2]);
    var until := now + BAN_MS;
    assert BansAt(map[], rounds, 1) == map[0 := until];
    assert BansAt(map[], rounds, 2) == map[0 := until, 1 := until];
    assert BansAt(map[], rounds, 3) == map[0 := until, 1 := until];
  }

  /** Six rounds among three runtimes, the last three of which leave out runtime 2. */
  function SixRounds(now: int): seq<Round> {
    [Round(now, now, 0), Round(now, now, 1), Round(now, now + 1, 2),
     Round(now + 1, now + 1, 0), Round(now + 1, now + 1, 1), Round(now + 1, now + 1, 0)]
  }

  lemma SixBans(now: int)
    ensures var rounds, first, second := SixRounds(now), now + BAN_MS, now + 1 + BAN_MS;
            && BansAt(map[], rounds, 1) == map[0 := first]
            && BansAt(map[], rounds, 2) == map[0 := first, 1 := first]
            && BansAt(map[], rounds, 3) == map[0 := first, 1 := first, 2 := second]
            && BansAt(map[], rounds, 4) == map[0 := second, 1 := first, 2 := second]
            && BansAt(map[], rounds, 5) == map[0 := second, 1 := second, 2 := second]
  {
    var rounds, first, second := SixRounds(now), now + BAN_MS, now + 1 + BAN_MS;
    forall k | 0 <= k < 5 {
      AfterIs(BansAt(map[], rounds, k), rounds[k]);
    }
    hide After;
    assert BansAt(map[], rounds, 1) == map[0 := first];
    assert BansAt(map[], rounds, 2) == map[0 := first, 1 := first];
    assert BansAt(map[], rounds, 3) == map[0 := first, 1 := first, 2 := second];
    assert BansAt(map[], rounds, 4) == map[0 := second, 1 := first, 2 := second];
  }

  /** A tie can make one miss its turn though no round repeats the pick of the last. */
  lemma TiesSkipOne(now: int)
    ensures Rounds(3, map[], SixRounds(now))
    ensures Picks(SixRounds(now), 3, 6) == {0, 1}
  {
    SixBans(now);
    SixPicks(now);
    var rounds := SixRounds(now);
    assert BansAt(map[], rounds, 0) == map[];
    hide BansAt, Picks;
  }

  lemma SixPicks(now: int)
    ensures Picks(SixRounds(now), 3, 6) == {0, 1}
  {
    var rounds := SixRounds(now);
    PicksOn(rounds, 3, 6);
    PicksOn(rounds, 3, 5);
    PicksOn(rounds, 3, 4);
    PicksOn(rounds, 3, 3);
  }
}
