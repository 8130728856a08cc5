/** Where the timing wheel puts an entry, as arithmetic on ticks alone.

    A tick is any integer: the source's `>>` and `&` on ticks floor, as Dafny's
    `/` and `%` do for a positive divisor.  Shifts by 8, 14, 20 and 26 bits are
    divisions by `SlotWidth` of the four levels. */
module WheelLayout {

  const NEAR: int := -1
  const NEAR_SIZE: int := 256
  const LEVEL_SIZE: int := 64
  const LEVEL_COUNT: int := 4
  const MAX_DELAY_TICKS: int := 0xFFFF_FFFF

  /** Number of bits needed to write x. */
  function BitLength(x: nat): nat {
    if x == 0 then 0 else 1 + BitLength(x / 2)
  }

  function Pow2(n: nat): nat {
    if n == 0 then 1 else 2 * Pow2(n - 1)
  }

  /** Ticks covered by one slot of a level: 2^(8 + 6 * level). */
  function SlotWidth(level: int): int
    requires 0 <= level < LEVEL_COUNT
  {
    match level
    case 0 => 0x100
    case 1 => 0x4000
    case 2 => 0x10_0000
    case _ => 0x400_0000
  }

  /** The slot-wide block of ticks that a tick falls in at a level. */
  function Block(level: int, tick: int): int
    requires 0 <= level < LEVEL_COUNT
  {
    tick / SlotWidth(level)
  }

  /** The level chosen for a delta by its bit length, before any clamping. */
  function RawLevel(delta: nat): int
    requires NEAR_SIZE <= delta
  {
    (BitLength(delta) - 8 - 1) / 6
  }

  datatype Home = Home(level: int, slot: int)

  /** The bucket an entry is put in when it is inserted at tick `now`. */
  function HomeFor(deadline: int, now: int): Home
    requires now <= deadline
  {
    var delta := deadline - now;
    if delta < NEAR_SIZE then
      Home(NEAR, deadline % NEAR_SIZE)
    else
      var raw := RawLevel(delta);
      var level := if raw < 0 then 0 else if raw < LEVEL_COUNT - 1 then raw else LEVEL_COUNT - 1;
      Home(level, Block(level, deadline) % LEVEL_SIZE)
  }

  predicate Exists(home: Home) {
    || (home.level == NEAR && 0 <= home.slot < NEAR_SIZE)
    || (0 <= home.level < LEVEL_COUNT && 0 <= home.slot < LEVEL_SIZE)
  }

  /** The placement rule while levels below `cascaded` have been cascaded for
      tick `now` and the others still stand as they did one tick earlier. */
  predicate Fits(home: Home, deadline: int, now: int, cascaded: int) {
    if home.level == NEAR then
      && 0 <= deadline - now < NEAR_SIZE
      && home.slot == deadline % NEAR_SIZE
    else
      && 0 <= home.level < LEVEL_COUNT
      && home.slot == Block(home.level, deadline) % LEVEL_SIZE
      && var seen := if home.level < cascaded then now else now - 1;
         1 <= Block(home.level, deadline) - Block(home.level, seen) <= LEVEL_SIZE
  }

  /** The placement rule between operations: everything is still to come. */
  predicate Placed(home: Home, deadline: int, now: int) {
    Fits(home, deadline, now, LEVEL_COUNT) && now < deadline <= now + MAX_DELAY_TICKS
  }

  lemma {:induction false} BitLengthBounds(x: nat)
    requires 0 < x
    ensures 0 < BitLength(x)
    ensures Pow2(BitLength(x) - 1) <= x < Pow2(BitLength(x))
  {
    if x > 1 { BitLengthBounds(x / 2); }
  }

  lemma {:induction false} Pow2Monotone(m: nat, n: nat)
    requires m <= n
    ensures Pow2(m) <= Pow2(n)
    decreases n - m
  {
    if m < n { Pow2Monotone(m, n - 1); }
  }

  lemma Pow2Values()
    ensures Pow2(8) == 0x100 && Pow2(14) == 0x4000 && Pow2(20) == 0x10_0000
    ensures Pow2(26) == 0x400_0000 && Pow2(32) == 0x1_0000_0000
  {
    assert Pow2(8) == 0x100;
    assert Pow2(14) == 64 * Pow2(8);
    assert Pow2(20) == 64 * Pow2(14);
    assert Pow2(26) == 64 * Pow2(20);
    assert Pow2(32) == 64 * Pow2(26);
  }

  /** The level picked by bit length needs no clamp, and it is the one whose
      slots are at most delta wide and whose 64 slots reach past delta. */
  lemma LevelSpansDelta(delta: nat)
    requires NEAR_SIZE <= delta <= MAX_DELAY_TICKS
    ensures 0 <= RawLevel(delta) < LEVEL_COUNT
    ensures SlotWidth(RawLevel(delta)) <= delta < LEVEL_SIZE * SlotWidth(RawLevel(delta))
  {
    var bits := BitLength(delta);
    BitLengthBounds(delta);
    Pow2Values();
    hide Pow2, BitLength;
    if bits <= 8 { Pow2Monotone(bits, 8); assert false; }
    if bits > 32 { Pow2Monotone(32, bits - 1); assert false; }
    var level := RawLevel(delta);
    assert 8 + 6 * level <= bits - 1 && bits <= 14 + 6 * level;
    Pow2Monotone(8 + 6 * level, bits - 1);
    Pow2Monotone(bits, 14 + 6 * level);
  }

  /** No other level would do: the choice is determined by the spans. */
  lemma LevelUnique(delta: nat, level: int)
    requires NEAR_SIZE <= delta <= MAX_DELAY_TICKS
    requires 0 <= level < LEVEL_COUNT
    requires SlotWidth(level) <= delta < LEVEL_SIZE * SlotWidth(level)
    ensures RawLevel(delta) == level
  {
    LevelSpansDelta(delta);
  }

  /** A fresh entry obeys the placement rule of the tick it is inserted at. */
  lemma InsertFits(deadline: int, now: int)
    requires now <= deadline <= now + MAX_DELAY_TICKS
    ensures var home := HomeFor(deadline, now);
            Exists(home) && Fits(home, deadline, now, LEVEL_COUNT)
  {
    if deadline - now >= NEAR_SIZE {
      LevelSpansDelta(deadline - now);
    }
  }

  lemma PlacedExists(home: Home, deadline: int, now: int)
    requires Placed(home, deadline, now)
    ensures Exists(home)
  {
  }

  /** An entry nearer than one slot of a level goes strictly below that level. */
  lemma InsertBelow(deadline: int, now: int, level: int)
    requires 0 <= level < LEVEL_COUNT
    requires now <= deadline < now + SlotWidth(level)
    ensures HomeFor(deadline, now).level < level
  {
    if deadline - now >= NEAR_SIZE {
      LevelSpansDelta(deadline - now);
    }
  }

  /** A block turns over exactly at the multiples of its width. */
  lemma BlockTurns(level: int, now: int)
    requires 0 <= level < LEVEL_COUNT
    ensures Block(level, now) == Block(level, now - 1) + if now % SlotWidth(level) == 0 then 1 else 0
  {
  }

  lemma FirstNest(now: int)
    ensures now % 0x4000 == 0 <==> now % 0x100 == 0 && now / 0x100 % 64 == 0
  {
  }

  lemma SecondNest(now: int)
    ensures now % 0x10_0000 == 0 <==> now % 0x4000 == 0 && now / 0x4000 % 64 == 0
  {
  }

  lemma ThirdNest(now: int)
    ensures now % 0x400_0000 == 0 <==> now % 0x10_0000 == 0 && now / 0x10_0000 % 64 == 0
  {
  }

  /** A wider block turns over only where the narrower ones do. */
  lemma WidthsNest(level: int, now: int)
    requires 0 <= level < LEVEL_COUNT - 1
    ensures now % SlotWidth(level + 1) == 0 <==>
            now % SlotWidth(level) == 0 && Block(level, now) % LEVEL_SIZE == 0
  {
    match level
    case 0 => FirstNest(now);
    case 1 => SecondNest(now);
    case _ => ThirdNest(now);
  }

  lemma {:induction false} NoTurnAbove(level: int, higher: int, now: int)
    requires 0 <= level <= higher < LEVEL_COUNT
    requires now % SlotWidth(level) != 0
    ensures now % SlotWidth(higher) != 0
    decreases higher - level
  {
    if level < higher {
      WidthsNest(level, now);
      NoTurnAbove(level + 1, higher, now);
    }
  }

  /** One tick later every entry is where it was, nothing cascaded yet; off a
      256-tick boundary that already is the full rule. */
  lemma TickKeepsFit(home: Home, deadline: int, now: int)
    requires Placed(home, deadline, now)
    ensures Fits(home, deadline, now + 1, 0)
    ensures (now + 1) % NEAR_SIZE != 0 ==> Fits(home, deadline, now + 1, LEVEL_COUNT)
  {
    if home.level != NEAR && (now + 1) % NEAR_SIZE != 0 {
      NoTurnAbove(0, home.level, now + 1);
      BlockTurns(home.level, now + 1);
    }
  }

  /** A cascade of a level empties one slot: it holds the entries of the
      current block and no others, and what stays behind fits the new tick. */
  lemma CascadeFinds(home: Home, deadline: int, now: int, level: int)
    requires 0 <= level < LEVEL_COUNT && now % SlotWidth(level) == 0
    requires home.level == level && Fits(home, deadline, now, level)
    ensures home.slot == Block(level, now) % LEVEL_SIZE <==> Block(level, deadline) == Block(level, now)
    ensures Block(level, deadline) == Block(level, now) ==> now <= deadline < now + SlotWidth(level)
    ensures Block(level, deadline) != Block(level, now) ==> Fits(home, deadline, now, level + 1)
  {
    assert Block(level, now) == Block(level, now - 1) + 1;
  }

  /** Slot 0 of a level comes up exactly when the level above turns over; at
      any other slot the levels above have nothing to do. */
  lemma CascadeCarries(now: int, level: int)
    requires 0 <= level < LEVEL_COUNT && now % SlotWidth(level) == 0
    ensures level + 1 < LEVEL_COUNT ==>
              (Block(level, now) % LEVEL_SIZE == 0 <==> now % SlotWidth(level + 1) == 0)
    ensures Block(level, now) % LEVEL_SIZE != 0 ==>
              forall higher :: level < higher < LEVEL_COUNT ==> Block(higher, now) == Block(higher, now - 1)
  {
    if level + 1 < LEVEL_COUNT { WidthsNest(level, now); }
    if Block(level, now) % LEVEL_SIZE != 0 {
      forall higher | level < higher < LEVEL_COUNT
        ensures Block(higher, now) == Block(higher, now - 1)
      {
        NoTurnAbove(level + 1, higher, now);
        BlockTurns(higher, now);
      }
    }
  }

  /** The near slot of the current tick holds what is due at it and no more. */
  lemma ExpireFinds(home: Home, deadline: int, now: int)
    requires home.level == NEAR && Fits(home, deadline, now, LEVEL_COUNT)
    ensures home.slot == now % NEAR_SIZE <==> deadline == now
  {
  }

  /** At any tick the rule leaves an entry due now nowhere but in the near slot
      of that tick, so expiring that one slot misses nothing. */
  lemma DueIsNear(home: Home, now: int)
    requires Fits(home, now, now, LEVEL_COUNT)
    ensures home == Home(NEAR, now % NEAR_SIZE)
  {
  }
}
