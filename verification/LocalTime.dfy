/** Facility-local wall time: one fixed offset maps local days and times of day to instants. */
module LocalTime {
  import opened Options
  import opened FacilityTypes

  const SECOND := 1_000_000
  const MINUTE := 60_000_000
  const HOUR := 3_600_000_000
  const DAY := 86_400_000_000

  /** Days are counted from a Monday. */
  type Date = int

  type TimeOfDay = t: int | 0 <= t < DAY

  datatype Zone = Zone(offset: int) {
    function DateOf(t: Instant): Date {
      (t + offset) / DAY
    }

    function TimeOf(t: Instant): TimeOfDay {
      (t + offset) % DAY
    }

    /** The instant of a local time on a local day. */
    function Combine(day: Date, time: TimeOfDay): Instant {
      day * DAY + time - offset
    }
  }

  function Weekday(day: Date): (w: int)
    ensures 0 <= w < 7
  {
    day % 7
  }

  /** Bit `w` of the mask says whether weekday `w` (Monday is 0) is selected. */
  predicate MaskHas(mask: bv8, day: Date) {
    mask & ((1 as bv8) << Weekday(day)) != 0
  }

  /** An inclusive, optionally open-ended range of days. */
  predicate InEffect(day: Date, effectiveFrom: Option<Date>, effectiveTo: Option<Date>) {
    && (effectiveFrom.Some? ==> effectiveFrom.value <= day)
    && (effectiveTo.Some? ==> day <= effectiveTo.value)
  }

  lemma CombineInverse(zone: Zone, day: Date, time: TimeOfDay)
    ensures zone.DateOf(zone.Combine(day, time)) == day && zone.TimeOf(zone.Combine(day, time)) == time
  {
  }

  /** A local day and time of day say the instant, and a span of one day's times is exactly that day's instants. */
  lemma PartsCombine(zone: Zone, t: Instant)
    ensures zone.Combine(zone.DateOf(t), zone.TimeOf(t)) == t
  {
  }

  lemma SpanOfDay(zone: Zone, day: Date, from: TimeOfDay, to: TimeOfDay, t: Instant)
    ensures zone.Combine(day, from) <= t < zone.Combine(day, to) <==> zone.DateOf(t) == day && from <= zone.TimeOf(t) < to
  {
    if zone.DateOf(t) == day {
      PartsCombine(zone, t);
    }
    if zone.Combine(day, from) <= t < zone.Combine(day, to) {
      DayOf(t + zone.offset, day);
    }
  }

  lemma DayOf(x: int, day: Date)
    requires day * DAY <= x < day * DAY + DAY
    ensures x / DAY == day
  {
  }

  // ----- Weekday masks

  /** The mask that selects some weekdays; Monday is 0. */
  function DaysToMask(days: seq<nat>): bv8
    requires forall i | 0 <= i < |days| :: days[i] < 7
  {
    if days == [] then 0 else DaysToMask(days[1..]) | ((1 as bv8) << days[0])
  }

  lemma OrHas(mask: bv8, x: bv8, y: bv8)
    ensures (mask | x) & y != 0 <==> mask & y != 0 || x & y != 0
  {
  }

  lemma BitsDiffer(d: nat, w: nat)
    requires d < 7 && w < 7
    ensures ((1 as bv8) << d) & ((1 as bv8) << w) != 0 <==> d == w
  {
    assert d == 0 || d == 1 || d == 2 || d == 3 || d == 4 || d == 5 || d == 6;
    assert w == 0 || w == 1 || w == 2 || w == 3 || w == 4 || w == 5 || w == 6;
  }

  /** A mask made from weekdays applies on exactly the days that fall on one of them. */
  lemma {:induction false} MaskHasIff(days: seq<nat>, day: Date)
    requires forall i | 0 <= i < |days| :: days[i] < 7
    ensures MaskHas(DaysToMask(days), day) <==> Weekday(day) in days
  {
    var w := Weekday(day);
    if days == [] {
      EmptyMask((1 as bv8) << w);
    } else {
      MaskHasIff(days[1..], day);
      OrHas(DaysToMask(days[1..]), (1 as bv8) << days[0], (1 as bv8) << w);
      BitsDiffer(days[0], w);
      assert days == [days[0]] + days[1..];
    }
  }

  lemma EmptyMask(y: bv8)
    ensures (0 as bv8) & y == 0
  {
  }

  /** Weekdays follow one another and come back after a week. */
  lemma WeekdayCycle(day: Date)
    ensures Weekday(0) == 0 && Weekday(day + 1) == (Weekday(day) + 1) % 7 && Weekday(day + 7) == Weekday(day)
  {
  }

  /** The zone's offset shifts instants before they are cut into days of 24 hours. */
  lemma OffsetShifts(offset: int, t: Instant)
    ensures Zone(offset).DateOf(t) == Zone(0).DateOf(t + offset) && Zone(offset).TimeOf(t) == Zone(0).TimeOf(t + offset)
    ensures Zone(0).DateOf(0) == 0 && Zone(0).TimeOf(0) == 0 && Zone(0).DateOf(86_399_999_999) == 0 && Zone(0).DateOf(86_400_000_000) == 1
  {
  }
}
