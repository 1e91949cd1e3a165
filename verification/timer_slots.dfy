/**
 Where the timing wheel files a timer, on absolute ticks and on the wrapping 32-bit clock, and
 which slot cascades when the clock advances. The or-with-mask comparisons of the source are
 written as comparisons of quotients; TimerWords shows that they are the same.
 */
module TimerSlots {

  const WORD := 0x1_0000_0000
  const MAX_DELAY := 0x7FFF_FFFF

  /** One of the 256 near slots or of the 64 slots of level 0, 1, 2 or 3. */
  datatype Slot = Near(k: int) | Level(i: int, j: int)

  /** The number of ticks one slot of level i spans; Unit(4) is the whole 32-bit range. */
  function Unit(i: int): int {
    match i
    case 0 => 0x100
    case 1 => 0x4000
    case 2 => 0x10_0000
    case 3 => 0x400_0000
    case _ => WORD
  }

  /** x >> (8 + 6 * i) */
  function Quot(x: nat, i: int): nat {
    match i
    case 0 => x / 0x100
    case 1 => x / 0x4000
    case 2 => x / 0x10_0000
    case 3 => x / 0x400_0000
    case _ => x / WORD
  }

  /** x & (2^(8 + 6 * i) - 1) */
  function Rem(x: nat, i: int): nat {
    match i
    case 0 => x % 0x100
    case 1 => x % 0x4000
    case 2 => x % 0x10_0000
    case 3 => x % 0x400_0000
    case _ => x % WORD
  }

  /** The level that holds a timer: the first whose successor no longer tells the ticks apart. */
  function LevelOf(due: nat, now: nat): (i: int)
    ensures 0 <= i <= 3
  {
    if Quot(due, 1) == Quot(now, 1) then 0
    else if Quot(due, 2) == Quot(now, 2) then 1
    else if Quot(due, 3) == Quot(now, 3) then 2
    else 3
  }

  /** The one slot that may hold a timer due at tick `due` while the clock shows `now`. */
  function SlotOf(due: nat, now: nat): Slot {
    if Quot(due, 0) == Quot(now, 0) then Near(due % 0x100)
    else
      var i := LevelOf(due, now);
      Level(i, Quot(due, i) % 64)
  }

  /** A timer may be pending only inside this window; it makes 32-bit ticks unambiguous. */
  predicate InWindow(due: nat, now: nat) {
    now <= due <= now + MAX_DELAY
  }

  predicate Below(s: Slot, i: int) {
    s.Near? || s.i < i
  }

  // ----- the 32-bit word against the absolute tick -----

  /** The units of level i that the wraps of the clock account for. */
  function WrappedUnits(x: nat, i: int): nat {
    match i
    case 0 => x / WORD * 0x100_0000
    case 1 => x / WORD * 0x4_0000
    case 2 => x / WORD * 0x1000
    case 3 => x / WORD * 0x40
    case _ => x / WORD
  }

  lemma SplitWord(x: nat, i: int)
    requires 0 <= i <= 3
    ensures Quot(x, i) == WrappedUnits(x, i) + Quot(x % WORD, i)
  {
    match i
    case 0 => assert x / 0x100 == x / WORD * 0x100_0000 + x % WORD / 0x100;
    case 1 => assert x / 0x4000 == x / WORD * 0x4_0000 + x % WORD / 0x4000;
    case 2 => assert x / 0x10_0000 == x / WORD * 0x1000 + x % WORD / 0x10_0000;
    case 3 => assert x / 0x400_0000 == x / WORD * 0x40 + x % WORD / 0x400_0000;
  }

  lemma Apart(a: nat, b: nat, i: int)
    requires a >= b + 0x8000_0000 && 0 <= i <= 3
    ensures Quot(a, i) != Quot(b, i)
  {
    match i
    case 0 => assert (b + 0x100) / 0x100 == b / 0x100 + 1;
    case 1 => assert (b + 0x4000) / 0x4000 == b / 0x4000 + 1;
    case 2 => assert (b + 0x10_0000) / 0x10_0000 == b / 0x10_0000 + 1;
    case 3 => assert (b + 0x400_0000) / 0x400_0000 == b / 0x400_0000 + 1;
  }

  /** Two ticks of the window whose clocks wrapped differently never agree in any unit. */
  lemma WrappedUnitsDiffer(due: nat, now: nat, i: int)
    requires InWindow(due, now) && 0 <= i <= 3
    requires due / WORD != now / WORD
    ensures Quot(due % WORD, i) != Quot(now % WORD, i)
    ensures Quot(due, i) != Quot(now, i)
  {
    assert due / WORD == now / WORD + 1;
    assert now % WORD >= due % WORD + 0x8000_0000;
    Apart(now % WORD, due % WORD, i);
    SplitWord(due, i);
    SplitWord(now, i);
    WithinWord(now % WORD, i);
    hide Quot;
  }

  lemma WithinWord(x: nat, i: int)
    requires x < WORD && 0 <= i <= 3
    ensures Quot(x, i) < WrappedUnits(WORD, i)
  {
  }

  lemma SameWrapUnits(due: nat, now: nat, i: int)
    requires 0 <= i <= 3 && due / WORD == now / WORD
    ensures Quot(due % WORD, i) == Quot(now % WORD, i) <==> Quot(due, i) == Quot(now, i)
  {
    hide Quot;
    SplitWord(due, i);
    SplitWord(now, i);
  }

  /** Comparing the 32-bit words unit by unit is the same as comparing the absolute ticks. */
  lemma UnitsAgree(due: nat, now: nat, i: int)
    requires InWindow(due, now) && 0 <= i <= 3
    ensures Quot(due % WORD, i) == Quot(now % WORD, i) <==> Quot(due, i) == Quot(now, i)
  {
    if due / WORD != now / WORD {
      WrappedUnitsDiffer(due, now, i);
    } else {
      SameWrapUnits(due, now, i);
    }
  }

  lemma DigitOfWord(x: nat, i: int)
    requires 0 <= i <= 3
    ensures Quot(x % WORD, i) % 64 == Quot(x, i) % 64
  {
    hide Quot;
    SplitWord(x, i);
    assert WrappedUnits(x, i) % 64 == 0;
  }

  lemma RemOfWord(x: nat, i: int)
    requires 0 <= i <= 3
    ensures Rem(x % WORD, i) == Rem(x, i)
  {
    RemIsRest(x, i);
    RemIsRest(x % WORD, i);
    SplitWord(x, i);
    hide Quot, Rem;
    assert x == x / WORD * WORD + x % WORD;
    match i
    case 0 =>
    case 1 =>
    case 2 =>
    case 3 =>
  }

  // ----- how units nest -----

  lemma UnitsNest(x: nat, i: int)
    requires 0 <= i <= 3
    ensures Quot(x, i + 1) == Quot(x, i) / 64
  {
    match i
    case 0 => assert x / 0x4000 == x / 0x100 / 64;
    case 1 => assert x / 0x10_0000 == x / 0x4000 / 64;
    case 2 => assert x / 0x400_0000 == x / 0x10_0000 / 64;
    case 3 => assert x / WORD == x / 0x400_0000 / 64;
  }

  lemma RemIsRest(x: nat, i: int)
    requires 0 <= i <= 4
    ensures Rem(x, i) == x - Unit(i) * Quot(x, i)
  {
    match i
    case 0 => assert x % 0x100 == x - 0x100 * (x / 0x100);
    case 1 => assert x % 0x4000 == x - 0x4000 * (x / 0x4000);
    case 2 => assert x % 0x10_0000 == x - 0x10_0000 * (x / 0x10_0000);
    case 3 => assert x % 0x400_0000 == x - 0x400_0000 * (x / 0x400_0000);
    case 4 => assert x % WORD == x - WORD * (x / WORD);
  }

  /** A multiple of one unit is a multiple of the next iff its digit is zero. */
  lemma DigitAndUnit(x: nat, i: int)
    requires 0 <= i <= 3 && Rem(x, i) == 0
    ensures Quot(x, i) % 64 == 0 <==> Rem(x, i + 1) == 0
  {
    hide Quot, Rem;
    RemIsRest(x, i);
    RemIsRest(x, i + 1);
    UnitsNest(x, i);
    assert Unit(i + 1) == 64 * Unit(i);
    calc {
      Rem(x, i + 1);
      Unit(i) * Quot(x, i) - Unit(i) * 64 * (Quot(x, i) / 64);
      Unit(i) * (Quot(x, i) % 64);
    }
  }

  lemma CoarserUnitsDiffer(due: nat, now: nat, i: int)
    requires 0 <= i < 3 && Quot(due, i + 1) != Quot(now, i + 1)
    ensures Quot(due, i) != Quot(now, i)
  {
    UnitsNest(due, i);
    UnitsNest(now, i);
  }

  lemma FinerUnitsDiffer(due: nat, now: nat, i: int, l: int)
    requires 0 <= l <= i <= 3 && Quot(due, i) != Quot(now, i)
    ensures Quot(due, l) != Quot(now, l)
    decreases i - l
  {
    if l < i {
      FinerUnitsDiffer(due, now, i, l + 1);
      CoarserUnitsDiffer(due, now, l);
    }
  }

  /** Inside one unit of the next level, or inside the window for the topmost level, a digit
      names a single unit. */
  lemma DigitNamesUnit(due: nat, now: nat, i: int)
    requires InWindow(due, now) && 0 <= i <= 3
    requires i < 3 ==> Quot(due, i + 1) == Quot(now, i + 1)
    ensures Quot(due, i) % 64 == Quot(now, i) % 64 <==> Quot(due, i) == Quot(now, i)
  {
    if i < 3 {
      UnitsNest(due, i);
      UnitsNest(now, i);
    } else {
      TopUnitsClose(due, now);
    }
    hide Quot;
    SameDigits(Quot(due, i), Quot(now, i));
  }

  lemma TopUnitsClose(due: nat, now: nat)
    requires InWindow(due, now)
    ensures Quot(now, 3) <= Quot(due, 3) <= Quot(now, 3) + 32
  {
    assert (now + 0x8000_0000) / 0x400_0000 == now / 0x400_0000 + 32;
  }

  lemma SameDigits(a: nat, b: nat)
    requires a / 64 == b / 64 || (b <= a <= b + 32)
    ensures a % 64 == b % 64 <==> a == b
  {
    assert a == a / 64 * 64 + a % 64 && b == b / 64 * 64 + b % 64;
  }

  lemma QuotientStays(now: nat, i: int)
    requires now > 0 && 0 <= i <= 3 && Rem(now, i) != 0
    ensures Quot(now, i) == Quot(now - 1, i)
  {
    match i
    case 0 =>
    case 1 =>
    case 2 =>
    case 3 =>
  }

  lemma QuotientSteps(due: nat, now: nat, i: int)
    requires 0 < now <= due && 0 <= i <= 3 && Rem(now, i) == 0
    ensures Quot(now - 1, i) < Quot(now, i) <= Quot(due, i)
  {
    match i
    case 0 =>
    case 1 =>
    case 2 =>
    case 3 =>
  }

  lemma RemZeroBelow(now: nat, i: int, l: int)
    requires 0 <= l <= i <= 3 && Rem(now, i) == 0
    ensures Rem(now, l) == 0
    decreases i - l
  {
    if l < i {
      RemZeroBelow(now, i, l + 1);
      match l
      case 0 => assert now == 0x100 * (0x40 * (now / 0x4000));
      case 1 => assert now == 0x4000 * (0x40 * (now / 0x10_0000));
      case 2 => assert now == 0x10_0000 * (0x40 * (now / 0x400_0000));
    }
  }

  // ----- cascading -----

  /** The level whose slot cascades when the clock reaches `now`; -1 if none does. */
  function CascadeLevel(now: nat): (i: int)
    ensures -1 <= i <= 3
    ensures i >= 0 ==> Rem(now, i) == 0
    ensures i < 3 ==> Rem(now, i + 1) != 0
  {
    if Rem(now, 0) != 0 then -1
    else if Rem(now, 1) != 0 then 0
    else if Rem(now, 2) != 0 then 1
    else if Rem(now, 3) != 0 then 2
    else 3
  }

  function CascadeSlot(now: nat): Slot
    requires CascadeLevel(now) >= 0
  {
    var i := CascadeLevel(now);
    Level(i, Quot(now, i) % 64)
  }

  /** A tick at which `now` is a multiple of the cascading unit is one for every smaller unit. */
  lemma CascadeDivides(now: nat, l: int)
    requires 0 <= l <= 3
    ensures l <= CascadeLevel(now) <==> Rem(now, l) == 0
  {
    var i := CascadeLevel(now);
    if l <= i {
      RemZeroBelow(now, i, l);
    } else if Rem(now, l) == 0 {
      RemZeroBelow(now, l, i + 1);
    }
  }

  /** When nothing cascades, every pending timer already sits where the new clock wants it. */
  lemma NoCascadeKeepsSlot(due: nat, now: nat)
    requires now > 0 && CascadeLevel(now) == -1
    ensures SlotOf(due, now) == SlotOf(due, now - 1)
  {
    forall l | 0 <= l <= 3
      ensures Quot(now, l) == Quot(now - 1, l)
    {
      CascadeDivides(now, l);
      QuotientStays(now, l);
    }
    SameTestsSameSlot(due, now, now - 1);
  }

  /** Only the comparisons with the clock decide the slot. */
  lemma SameTestsSameSlot(due: nat, now: nat, earlier: nat)
    requires forall l | 0 <= l <= 3 :: Quot(due, l) == Quot(now, l) <==> Quot(due, l) == Quot(earlier, l)
    ensures SlotOf(due, now) == SlotOf(due, earlier)
  {
    assert forall l | 0 <= l <= 3 :: Quot(due, l) == Quot(now, l) <==> Quot(due, l) == Quot(earlier, l);
    hide Quot;
  }

  lemma CascadeFromAbove(due: nat, now: nat)
    requires now > 0 && due >= now
    requires CascadeLevel(now) >= 0
    ensures forall l | 0 <= l <= CascadeLevel(now) :: Quot(now - 1, l) < Quot(now, l) <= Quot(due, l)
    ensures forall l | CascadeLevel(now) < l <= 3 :: Quot(now - 1, l) == Quot(now, l)
  {
    hide Quot, Rem, CascadeLevel;
    forall l | 0 <= l <= CascadeLevel(now)
      ensures Quot(now - 1, l) < Quot(now, l) <= Quot(due, l)
    {
      CascadeDivides(now, l);
      QuotientSteps(due, now, l);
    }
    forall l | CascadeLevel(now) < l <= 3
      ensures Quot(now - 1, l) == Quot(now, l)
    {
      CascadeDivides(now, l);
      QuotientStays(now, l);
    }
  }

  /** No pending timer is in a slot below the cascading one. */
  lemma NothingBelowCascade(due: nat, now: nat)
    requires now > 0 && due >= now
    requires CascadeLevel(now) >= 0
    ensures !Below(SlotOf(due, now - 1), CascadeLevel(now))
  {
    hide Quot, Rem, CascadeLevel;
    CascadeFromAbove(due, now);
    assert forall l | 0 <= l <= CascadeLevel(now) :: Quot(due, l) != Quot(now - 1, l);
  }

  /** A pending timer is in the cascading slot exactly when the new clock has reached its unit. */
  lemma CascadeSlotHolds(due: nat, now: nat)
    requires now > 0 && InWindow(due, now - 1) && due >= now
    requires CascadeLevel(now) >= 0
    ensures var i := CascadeLevel(now);
            SlotOf(due, now - 1) == CascadeSlot(now) <==> Quot(due, i) == Quot(now, i)
  {
    hide Quot, Rem, CascadeLevel;
    var i := CascadeLevel(now);
    NothingBelowCascade(due, now);
    CascadeFromAbove(due, now);
    if i == 3 || Quot(due, i + 1) == Quot(now, i + 1) {
      DigitNamesUnit(due, now, i);
    } else {
      CoarserUnitsDiffer(due, now, i);
    }
  }

  lemma OthersStay(due: nat, now: nat)
    requires now > 0 && due >= now
    requires CascadeLevel(now) >= 0
    requires Quot(due, CascadeLevel(now)) != Quot(now, CascadeLevel(now))
    ensures SlotOf(due, now) == SlotOf(due, now - 1)
  {
    hide Quot, Rem, CascadeLevel;
    var i := CascadeLevel(now);
    CascadeFromAbove(due, now);
    forall l | 0 <= l <= 3
      ensures Quot(due, l) == Quot(now, l) <==> Quot(due, l) == Quot(now - 1, l)
    {
      if l <= i {
        FinerUnitsDiffer(due, now, i, l);
      }
    }
    SameTestsSameSlot(due, now, now - 1);
  }

  /** When the slot of level i cascades, exactly its timers change place, and they move strictly
      lower; no pending timer is in a slot below it at that moment. */
  lemma CascadeMovesDown(due: nat, now: nat)
    requires now > 0 && InWindow(due, now - 1) && due >= now
    requires CascadeLevel(now) >= 0
    ensures SlotOf(due, now - 1) == CascadeSlot(now) ==> Below(SlotOf(due, now), CascadeLevel(now))
    ensures SlotOf(due, now - 1) != CascadeSlot(now) ==> SlotOf(due, now) == SlotOf(due, now - 1)
    ensures !Below(SlotOf(due, now - 1), CascadeLevel(now))
  {
    hide Quot, Rem, CascadeLevel;
    NothingBelowCascade(due, now);
    CascadeSlotHolds(due, now);
    if Quot(due, CascadeLevel(now)) == Quot(now, CascadeLevel(now)) {
      assert Below(SlotOf(due, now), CascadeLevel(now));
    } else {
      OthersStay(due, now);
    }
  }

  // ----- the cascading level, read off the 32-bit word -----

  lemma CascadeOnWrap(now: nat)
    requires now % WORD == 0
    ensures CascadeLevel(now) == 3 && CascadeSlot(now) == Level(3, 0)
  {
    assert Rem(now, 3) == 0 by {
      RemOfWord(now, 3);
    }
    CascadeDivides(now, 3);
    DigitOfWord(now, 3);
  }

  /** The loop of timer_shift stops at the cascading level: at the first unit with a non-zero
      digit ... */
  lemma CascadeOfWord(now: nat, time: nat, i: int)
    requires now > 0 && 0 <= i <= 3 && time == now % WORD
    requires Rem(time, i) == 0 && Quot(time, i) % 64 != 0
    ensures CascadeLevel(now) == i && CascadeSlot(now) == Level(i, Quot(time, i) % 64)
  {
    hide Quot, Rem, CascadeLevel;
    DigitAndUnit(time, i);
    RemOfWord(now, i);
    CascadeDivides(now, i);
    if i < 3 {
      RemOfWord(now, i + 1);
      CascadeDivides(now, i + 1);
    }
    DigitOfWord(now, i);
  }

  /** ... or at once, when the low byte is not zero. */
  lemma NoCascadeOfWord(now: nat, time: nat)
    requires time == now % WORD && Rem(time, 0) != 0
    ensures CascadeLevel(now) == -1
  {
    RemOfWord(now, 0);
  }
}
