/** Where the hierarchical timing wheel keeps a timer, and how that changes with the time. */
module TimerWheel {

  /** The time and expiry values are 32-bit and wrap around. */
  const WRAP := 0x1_0000_0000

  const TIME_NEAR := 0x100

  const TIME_LEVEL := 64

  /** The longest delay a caller can ask for fits in a positive 'int'. */
  const MAX_DELAY := 0x7fff_ffff

  datatype Place = Near(k: nat) | Far(level: nat, idx: nat)

  /** x | (m - 1), for 'm' a power of two. */
  function OrLow(x: nat, m: nat): nat
    requires m > 0
  {
    x - x % m + (m - 1)
  }

  /** Ticks covered by one slot of a level. */
  function Unit(level: nat): nat
    requires level <= 3
  {
    if level == 0 then 0x100 else if level == 1 then 0x4000 else if level == 2 then 0x10_0000 else 0x400_0000
  }

  /** The slot for expiry value 'e' at time 'now'. */
  function PlaceOf(e: nat, now: nat): Place {
    if e / 0x100 == now / 0x100 then Near(e % 0x100)
    else if e / 0x4000 == now / 0x4000 then Far(0, (e / 0x100) % 64)
    else if e / 0x10_0000 == now / 0x10_0000 then Far(1, (e / 0x4000) % 64)
    else if e / 0x400_0000 == now / 0x400_0000 then Far(2, (e / 0x10_0000) % 64)
    else Far(3, (e / 0x400_0000) % 64)
  }

  datatype Moved = NoSlot | Slot(p: Place)

  /** The slot that is redistributed when the time becomes 'ct'. */
  function MovedAt(ct: nat): Moved {
    if ct == 0 then Slot(Far(3, 0))
    else if ct % 0x100 != 0 then NoSlot
    else if (ct / 0x100) % 64 != 0 then Slot(Far(0, (ct / 0x100) % 64))
    else if (ct / 0x4000) % 64 != 0 then Slot(Far(1, (ct / 0x4000) % 64))
    else if (ct / 0x10_0000) % 64 != 0 then Slot(Far(2, (ct / 0x10_0000) % 64))
    else Slot(Far(3, (ct / 0x400_0000) % 64))
  }

  lemma SameBlock(x: nat, y: nat, m: nat)
    requires m > 0
    ensures OrLow(x, m) == OrLow(y, m) <==> x / m == y / m
  {
    assert x == x / m * m + x % m && y == y / m * m + y % m;
    if x / m != y / m {
      Apart(x / m, y / m, m);
    }
  }

  lemma Apart(a: nat, b: nat, m: nat)
    requires m > 0 && a != b
    ensures a * m != b * m
  {
    if a < b {
      assert (b - a) * m > 0;
    } else {
      assert (a - b) * m > 0;
    }
  }

  lemma Digit0(x: nat)
    ensures x / 0x100 == 64 * (x / 0x4000) + (x / 0x100) % 64
  {
  }

  lemma Digit1(x: nat)
    ensures x / 0x4000 == 64 * (x / 0x10_0000) + (x / 0x4000) % 64
  {
  }

  lemma Digit2(x: nat)
    ensures x / 0x10_0000 == 64 * (x / 0x400_0000) + (x / 0x10_0000) % 64
  {
  }

  /** The digits of a number in the radixes of the wheel. */
  lemma Digits(x: nat)
    ensures x / 0x100 == 64 * (x / 0x4000) + (x / 0x100) % 64
    ensures x / 0x4000 == 64 * (x / 0x10_0000) + (x / 0x4000) % 64
    ensures x / 0x10_0000 == 64 * (x / 0x400_0000) + (x / 0x10_0000) % 64
  {
    Digit0(x);
    Digit1(x);
    Digit2(x);
  }

  lemma Advance100(x: nat)
    ensures (x + 1) / 0x100 == x / 0x100 + if (x + 1) % 0x100 == 0 then 1 else 0
  {
  }

  /** How the digits above the lowest change with one tick. */
  lemma Advance(x: nat)
    ensures (x + 1) / 0x100 == x / 0x100 + if (x + 1) % 0x100 == 0 then 1 else 0
    ensures (x + 1) / 0x4000 == x / 0x4000 + if (x + 1) / 0x100 == x / 0x100 || (x + 1) / 0x100 % 64 != 0 then 0 else 1
    ensures (x + 1) / 0x10_0000 == x / 0x10_0000 + if (x + 1) / 0x4000 == x / 0x4000 || (x + 1) / 0x4000 % 64 != 0
      then 0 else 1
    ensures (x + 1) / 0x400_0000 == x / 0x400_0000 + if (x + 1) / 0x10_0000 == x / 0x10_0000
      || (x + 1) / 0x10_0000 % 64 != 0 then 0 else 1
  {
    Digits(x);
    Digits(x + 1);
    Advance100(x);
  }

  /** At every tick, a timer that is still to come sits in the redistributed slot, or its
      place does not change. */
  lemma PlacesMove(e: nat, now: nat)
    requires e < WRAP && now < WRAP
    requires (e - (now + 1)) % WRAP <= MAX_DELAY
    ensures var ct := (now + 1) % WRAP;
            MovedAt(ct) == Slot(PlaceOf(e, now)) || PlaceOf(e, ct) == PlaceOf(e, now)
  {
    hide PlaceOf, MovedAt;
    if now + 1 == WRAP {
      PlacesMoveAtWrap(e);
    } else if e >= now + 1 {
      PlacesMoveAhead(e, now);
    } else {
      assert e < now + 1 - MAX_DELAY;
      PlacesMoveBehind(e, now);
    }
  }

  lemma PlacesMoveAhead(e: nat, now: nat)
    requires now < e < WRAP
    ensures MovedAt(now + 1) == Slot(PlaceOf(e, now)) || PlaceOf(e, now + 1) == PlaceOf(e, now)
  {
    Digits(e);
    Digits(now);
    Digits(now + 1);
    Advance(now);
  }

  /** The expiry value has already wrapped, the time has not: they differ in the top digit. */
  lemma PlacesMoveBehind(e: nat, now: nat)
    requires e + MAX_DELAY < now + 1 < WRAP
    ensures MovedAt(now + 1) == Slot(PlaceOf(e, now)) || PlaceOf(e, now + 1) == PlaceOf(e, now)
  {
    FarApart(e, now);
    FarApart(e, now + 1);
  }

  lemma FarApart(e: nat, now: nat)
    requires e + 0x400_0000 <= now < WRAP
    ensures PlaceOf(e, now) == Far(3, (e / 0x400_0000) % 64)
  {
    assert e / 0x400_0000 < now / 0x400_0000;
    Digits(e);
    Digits(now);
  }

  lemma PlacesMoveAtWrap(e: nat)
    requires e <= MAX_DELAY
    ensures MovedAt(0) == Slot(PlaceOf(e, WRAP - 1)) || PlaceOf(e, 0) == PlaceOf(e, WRAP - 1)
  {
    FarApart(e, WRAP - 1);
    Digits(e);
  }

  /** The slot that is dispatched holds only timers of exactly this time. */
  lemma DueNow(e: nat, now: nat)
    ensures PlaceOf(e, now) == Near(now % 0x100) <==> e == now
  {
  }

  lemma PlaceInRange(e: nat, now: nat)
    requires e < WRAP
    ensures match PlaceOf(e, now) case Near(k) => k < TIME_NEAR case Far(level, idx) => level < 4 && idx < TIME_LEVEL
  {
  }
}
