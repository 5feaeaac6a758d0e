/** Where a deadline lives in the five wheels: 256 slots of one microsecond, then
  four times 64 slots of 2^8, 2^14, 2^20 and 2^26 microseconds. */
module WheelGeometry {
  import opened Microseconds

  datatype Slot = Slot(level: nat, idx: nat)

  /** Width in microseconds of one slot of wheel `level`; at 5, the range of all wheels. */
  function Gran(level: nat): nat
    requires level <= 5
  {
    match level
    case 0 => 1
    case 1 => 0x100
    case 2 => 0x4000
    case 3 => 0x10_0000
    case 4 => 0x400_0000
    case 5 => UINT_RANGE
  }

  function Size(level: nat): nat { if level == 0 then 256 else 64 }

  predicate ValidSlot(s: Slot) { s.level < 5 && s.idx < Size(s.level) }

  /** The slot of wheel `level` that a point in time belongs to: shift, then mask. */
  function Index(level: nat, t: nat): nat
    requires level < 5
  {
    (t / Gran(level)) % Size(level)
  }

  /** The slot `addTimerNode` picks, `long` having 64 bits. */
  function SlotFor(jiffies: nat, endtime: nat): Slot
    requires jiffies <= endtime < jiffies + UINT_RANGE
  {
    var expiration: uint := (endtime - jiffies) % UINT_RANGE;
    if expiration < 0x100 then Slot(0, endtime % 256)
    else if expiration < 0x4000 then Slot(1, (endtime / 0x100) % 64)
    else if expiration < 0x10_0000 then Slot(2, (endtime / 0x4000) % 64)
    else if expiration < 0x400_0000 then Slot(3, (endtime / 0x10_0000) % 64)
    else Slot(4, (endtime / 0x400_0000) % 64)
  }

  /** The one time at which a slot holding deadline `endtime` on wheel `level` is next
    drained: the start of the slot-wide interval around the deadline. */
  function DrainTime(level: nat, endtime: nat): nat
    requires level < 5
  {
    endtime - endtime % Gran(level)
  }

  /** A deadline rests in slot `s` at time `jiffies`, the wheels 1 to `drained` having
    already been drained for that time. */
  ghost predicate PlacedAt(jiffies: nat, drained: nat, endtime: nat, s: Slot) {
    && ValidSlot(s)
    && s.idx == Index(s.level, endtime)
    && jiffies <= DrainTime(s.level, endtime) < jiffies + Gran(s.level + 1)
    && (0 < s.level <= drained ==> jiffies < DrainTime(s.level, endtime))
  }

  /** `addTimerNode` picks the lowest wheel whose range covers the delay, and the slot it
    picks there has not been passed by the hand. */
  lemma SlotForPlaces(jiffies: nat, endtime: nat)
    requires jiffies <= endtime < jiffies + UINT_RANGE
    ensures SlotFor(jiffies, endtime).level < 5
    ensures PlacedAt(jiffies, 4, endtime, SlotFor(jiffies, endtime))
    ensures endtime - jiffies < Gran(SlotFor(jiffies, endtime).level + 1)
    ensures SlotFor(jiffies, endtime).level > 0 ==> endtime - jiffies >= Gran(SlotFor(jiffies, endtime).level)
  {
    assert (endtime - jiffies) % UINT_RANGE == endtime - jiffies;
    match SlotFor(jiffies, endtime).level
    case 0 =>
    case 1 =>
    case 2 =>
    case 3 =>
    case 4 =>
  }

  /** The slot under the hand of a wheel holds exactly the deadlines due to leave it. */
  lemma UnderHandIffDue(jiffies: nat, drained: nat, endtime: nat, s: Slot)
    requires PlacedAt(jiffies, drained, endtime, s) && jiffies % Gran(s.level) == 0
    ensures s.idx == Index(s.level, jiffies) <==> DrainTime(s.level, endtime) == jiffies
  {
    var hand, turn := jiffies / Gran(s.level), endtime / Gran(s.level);
    InSlots(s.level, jiffies, endtime);
    if hand != turn {
      assert hand % Size(s.level) != turn % Size(s.level);
    }
  }

  /** The range of a placement, counted in slots of its wheel. */
  lemma InSlots(level: nat, jiffies: nat, endtime: nat)
    requires level < 5 && jiffies % Gran(level) == 0
    requires jiffies <= DrainTime(level, endtime) < jiffies + Gran(level + 1)
    ensures jiffies / Gran(level) <= endtime / Gran(level) < jiffies / Gran(level) + Size(level)
    ensures DrainTime(level, endtime) == jiffies <==> endtime / Gran(level) == jiffies / Gran(level)
  {
    var hand, turn := jiffies / Gran(level), endtime / Gran(level);
    match level
    case 0 =>
    case 1 => assert jiffies == 0x100 * hand && DrainTime(1, endtime) == 0x100 * turn;
    case 2 => assert jiffies == 0x4000 * hand && DrainTime(2, endtime) == 0x4000 * turn;
    case 3 => assert jiffies == 0x10_0000 * hand && DrainTime(3, endtime) == 0x10_0000 * turn;
    case 4 => assert jiffies == 0x400_0000 * hand && DrainTime(4, endtime) == 0x400_0000 * turn;
  }

  /** A deadline leaving a wheel fits a strictly lower one. */
  lemma DueFitsLower(jiffies: nat, endtime: nat, level: nat)
    requires 0 < level < 5 && DrainTime(level, endtime) == jiffies
    ensures jiffies <= endtime < jiffies + Gran(level) <= jiffies + UINT_RANGE
    ensures SlotFor(jiffies, endtime).level < level
  {
  }

  /** When the hand of a wheel is not at its first slot, no higher wheel has anything due:
    the `&&` chain in `handle` may stop. */
  lemma ChainMayStop(jiffies: nat, drained: nat, endtime: nat, s: Slot)
    requires drained < 5 && jiffies % Gran(drained) == 0
    requires Index(drained, jiffies) != 0
    requires PlacedAt(jiffies, drained, endtime, s)
    ensures PlacedAt(jiffies, 4, endtime, s)
  {
    hide DrainTime, Index, Gran;
    if drained < s.level {
      DrainTimeIsMultiple(s.level, endtime);
      if DrainTime(s.level, endtime) == jiffies {
        HandsBelowAtStart(jiffies, drained, s.level);
      }
    }
  }

  /** When it is the turn of a wheel, the hands of the wheels below are at their first slots. */
  lemma {:induction false} HandsBelowAtStart(jiffies: nat, drained: nat, level: nat)
    requires drained < level <= 5 && jiffies % Gran(level) == 0
    ensures Index(drained, jiffies) == 0
    decreases level
  {
    HandAtStart(jiffies, level - 1);
    if drained < level - 1 {
      HandsBelowAtStart(jiffies, drained, level - 1);
    }
  }

  lemma HandAtStart(jiffies: nat, level: nat)
    requires level < 5 && jiffies % Gran(level + 1) == 0
    ensures jiffies % Gran(level) == 0 && Index(level, jiffies) == 0
  {
    var rounds := jiffies / Gran(level + 1);
    match level
    case 0 =>
    case 1 => assert jiffies / 0x100 == 0x40 * rounds;
    case 2 => assert jiffies / 0x4000 == 0x40 * rounds;
    case 3 => assert jiffies / 0x10_0000 == 0x40 * rounds;
    case 4 => assert jiffies / 0x400_0000 == 0x40 * rounds;
  }

  lemma DrainTimeIsMultiple(level: nat, endtime: nat)
    requires level < 5
    ensures DrainTime(level, endtime) % Gran(level) == 0
  {
    match level
    case 0 =>
    case 1 =>
    case 2 =>
    case 3 =>
    case 4 =>
  }

  lemma MultipleHasNoRest(a: int, m: int)
    requires a > 0
    ensures a * m % a == 0
  {
    var q, r := a * m / a, a * m % a;
    assert a * (m - q) == r;
    assert m - q >= 1 ==> a * (m - q) >= a;
    assert m - q <= -1 ==> a * (m - q) <= -a;
  }

  /** When the hand is at the first slot of a wheel, the time is a multiple of the next wheel's slot. */
  lemma ChainGoesOn(jiffies: nat, level: nat)
    requires level < 5 && jiffies % Gran(level) == 0 && Index(level, jiffies) == 0
    ensures jiffies % Gran(level + 1) == 0
  {
    var hand := jiffies / Gran(level);
    var rounds := hand / Size(level);
    assert hand == Size(level) * rounds;
    assert Gran(level + 1) == Gran(level) * Size(level);
    assert jiffies == Gran(level + 1) * rounds by {
      assert jiffies == Gran(level) * (Size(level) * rounds);
      assert Gran(level) * (Size(level) * rounds) == (Gran(level) * Size(level)) * rounds;
    }
    MultipleHasNoRest(Gran(level + 1), rounds);
  }

  /** Having drained all wheels is the stronger placement. */
  lemma PlacedWeakens(jiffies: nat, drained: nat, endtime: nat, s: Slot)
    requires PlacedAt(jiffies, 4, endtime, s) && drained <= 4
    ensures PlacedAt(jiffies, drained, endtime, s)
  {
  }

  /** A deadline that is not due survives the step of the clock. */
  lemma PlacementSurvivesTick(jiffies: nat, endtime: nat, s: Slot)
    requires PlacedAt(jiffies, 4, endtime, s) && endtime != jiffies
    ensures PlacedAt(jiffies + 1, 0, endtime, s)
  {
  }
}
