/** Closures of one room or the whole campus, on one day or on weekdays of a season. */
module Blackouts {
  import opened Options
  import opened FacilityTypes
  import opened LocalTime

  datatype BlackoutKind = OneOff | Recurring

  datatype Blackout = Blackout(room: Option<Uuid>, kind: BlackoutKind, date: Option<Date>, daysMask: Option<bv8>,
                               startTime: TimeOfDay, endTime: TimeOfDay,
                               effectiveFrom: Option<Date>, effectiveTo: Option<Date>, active: bool)

  const LAST_SECOND: TimeOfDay := DAY - SECOND

  predicate AppliesOnDate(b: Blackout, day: Date) {
    if b.kind.OneOff? then b.date == Some(day)
    else b.daysMask.Some? && MaskHas(b.daysMask.value, day) && InEffect(day, b.effectiveFrom, b.effectiveTo)
  }

  /** No room means every room. */
  predicate CoversRoom(b: Blackout, room: Uuid) {
    b.room.None? || b.room.value == room
  }

  predicate AppliesToRoomDay(b: Blackout, room: Uuid, day: Date) {
    b.active && CoversRoom(b, room) && AppliesOnDate(b, day)
  }

  /** The stored closures that apply to a room on a local day. */
  function ListActiveForRoomDay(blackouts: seq<Blackout>, room: Uuid, day: Date): (r: seq<Blackout>)
    ensures forall b :: b in r <==> b in blackouts && AppliesToRoomDay(b, room, day)
  {
    if blackouts == [] then []
    else
      var rest := ListActiveForRoomDay(blackouts[1..], room, day);
      if AppliesToRoomDay(blackouts[0], room, day) then [blackouts[0]] + rest else rest
  }

  predicate TimesOverlap(leftStart: TimeOfDay, leftEnd: TimeOfDay, rightStart: TimeOfDay, rightEnd: TimeOfDay) {
    leftStart < rightEnd && rightStart < leftEnd
  }

  predicate SlotOverlapsBlackouts(blackouts: seq<Blackout>, slotStart: TimeOfDay, slotEnd: TimeOfDay) {
    exists b :: b in blackouts && TimesOverlap(slotStart, slotEnd, b.startTime, b.endTime)
  }

  /** An interval across midnight is compared with the closures of its first and its last day. */
  predicate HasBlackoutOverlap(blackouts: seq<Blackout>, room: Uuid, startAt: Instant, endAt: Instant, zone: Zone) {
    var first, last := zone.DateOf(startAt), zone.DateOf(endAt);
    if first == last then
      SlotOverlapsBlackouts(ListActiveForRoomDay(blackouts, room, first), zone.TimeOf(startAt), zone.TimeOf(endAt))
    else
      || SlotOverlapsBlackouts(ListActiveForRoomDay(blackouts, room, first), zone.TimeOf(startAt), LAST_SECOND)
      || SlotOverlapsBlackouts(ListActiveForRoomDay(blackouts, room, last), 0, zone.TimeOf(endAt))
  }

  predicate BlackoutCovers(b: Blackout, day: Date, zone: Zone, t: Instant) {
    zone.Combine(day, b.startTime) <= t < zone.Combine(day, b.endTime)
  }

  ghost predicate AnyBlackoutCovers(blackouts: seq<Blackout>, day: Date, zone: Zone, t: Instant) {
    exists b :: b in blackouts && BlackoutCovers(b, day, zone, t)
  }

  /** The stored constraint that a closure has positive length. */
  predicate Positive(b: Blackout) {
    b.startTime < b.endTime
  }

  ghost predicate ClosedDuring(blackouts: seq<Blackout>, day: Date, zone: Zone, startAt: Instant, endAt: Instant) {
    exists t :: startAt <= t < endAt && AnyBlackoutCovers(blackouts, day, zone, t)
  }

  lemma OneBlackoutOverlap(b: Blackout, day: Date, startAt: Instant, endAt: Instant, zone: Zone)
    requires startAt < endAt && zone.DateOf(startAt) == zone.DateOf(endAt) == day && Positive(b)
    ensures TimesOverlap(zone.TimeOf(startAt), zone.TimeOf(endAt), b.startTime, b.endTime)
       <==> exists t :: startAt <= t < endAt && BlackoutCovers(b, day, zone, t)
  {
    var from := zone.Combine(day, b.startTime);
    var t := if startAt < from then from else startAt;
    if TimesOverlap(zone.TimeOf(startAt), zone.TimeOf(endAt), b.startTime, b.endTime) {
      assert startAt <= t < endAt && BlackoutCovers(b, day, zone, t);
    }
  }

  /** Within one local day, overlapping a closure means sharing an instant with it. */
  lemma SameDayOverlap(blackouts: seq<Blackout>, room: Uuid, startAt: Instant, endAt: Instant, zone: Zone)
    requires startAt < endAt && zone.DateOf(startAt) == zone.DateOf(endAt)
    requires forall b | b in blackouts :: Positive(b)
    ensures HasBlackoutOverlap(blackouts, room, startAt, endAt, zone)
       <==> ClosedDuring(ListActiveForRoomDay(blackouts, room, zone.DateOf(startAt)), zone.DateOf(startAt), zone, startAt, endAt)
  {
    var day := zone.DateOf(startAt);
    var applicable := ListActiveForRoomDay(blackouts, room, day);
    if HasBlackoutOverlap(blackouts, room, startAt, endAt, zone) {
      var b :| b in applicable && TimesOverlap(zone.TimeOf(startAt), zone.TimeOf(endAt), b.startTime, b.endTime);
      OneBlackoutOverlap(b, day, startAt, endAt, zone);
      var t :| startAt <= t < endAt && BlackoutCovers(b, day, zone, t);
      assert AnyBlackoutCovers(applicable, day, zone, t);
    }
    if t :| startAt <= t < endAt && AnyBlackoutCovers(applicable, day, zone, t) {
      var b :| b in applicable && BlackoutCovers(b, day, zone, t);
      OneBlackoutOverlap(b, day, startAt, endAt, zone);
      assert SlotOverlapsBlackouts(applicable, zone.TimeOf(startAt), zone.TimeOf(endAt));
    }
  }

  // ----- The closures in wall time

  /** An active closure of the room, or of every room, on this day and at this time of day. */
  predicate Closes(b: Blackout, room: Uuid, day: Date, time: TimeOfDay) {
    && b.active && (b.room == None || b.room == Some(room))
    && (b.kind.OneOff? ==> b.date == Some(day))
    && (b.kind.Recurring? ==>
          && b.daysMask.Some? && MaskHas(b.daysMask.value, day)
          && (b.effectiveFrom.Some? ==> b.effectiveFrom.value <= day) && (b.effectiveTo.Some? ==> day <= b.effectiveTo.value))
    && b.startTime <= time < b.endTime
  }

  ghost predicate ClosedWithin(blackouts: seq<Blackout>, room: Uuid, startAt: Instant, endAt: Instant, zone: Zone) {
    exists b, t :: b in blackouts && InSpan(startAt, t, endAt) && Closes(b, room, zone.DateOf(t), zone.TimeOf(t))
  }

  predicate InSpan(startAt: Instant, t: Instant, endAt: Instant) {
    startAt <= t < endAt
  }

  lemma ClosesIff(b: Blackout, room: Uuid, day: Date, zone: Zone, t: Instant)
    ensures AppliesToRoomDay(b, room, day) && BlackoutCovers(b, day, zone, t)
       <==> zone.DateOf(t) == day && Closes(b, room, zone.DateOf(t), zone.TimeOf(t))
  {
    SpanOfDay(zone, day, b.startTime, b.endTime, t);
  }

  lemma ClosedDuringIff(blackouts: seq<Blackout>, room: Uuid, day: Date, startAt: Instant, endAt: Instant, zone: Zone)
    requires forall t | InSpan(startAt, t, endAt) :: zone.DateOf(t) == day
    ensures ClosedDuring(ListActiveForRoomDay(blackouts, room, day), day, zone, startAt, endAt) <==> ClosedWithin(blackouts, room, startAt, endAt, zone)
  {
    var listed := ListActiveForRoomDay(blackouts, room, day);
    if t :| startAt <= t < endAt && AnyBlackoutCovers(listed, day, zone, t) {
      var b :| b in listed && BlackoutCovers(b, day, zone, t);
      ClosesIff(b, room, day, zone, t);
      assert InSpan(startAt, t, endAt);
    }
    if b, t :| b in blackouts && InSpan(startAt, t, endAt) && Closes(b, room, zone.DateOf(t), zone.TimeOf(t)) {
      ClosesIff(b, room, day, zone, t);
      assert b in listed && AnyBlackoutCovers(listed, day, zone, t);
    }
  }

  lemma SameDaySpan(startAt: Instant, endAt: Instant, zone: Zone)
    requires startAt < endAt && zone.DateOf(startAt) == zone.DateOf(endAt)
    ensures forall t | InSpan(startAt, t, endAt) :: zone.DateOf(t) == zone.DateOf(startAt)
  {
    var day := zone.DateOf(startAt);
    forall t | InSpan(startAt, t, endAt) ensures zone.DateOf(t) == day {
      DayOf(t + zone.offset, day);
    }
  }

  /** A one-day interval is refused exactly when some closure of its room holds at some instant of it. */
  lemma OverlapIffClosedWithin(blackouts: seq<Blackout>, room: Uuid, startAt: Instant, endAt: Instant, zone: Zone)
    requires startAt < endAt && zone.DateOf(startAt) == zone.DateOf(endAt)
    requires forall b | b in blackouts :: Positive(b)
    ensures HasBlackoutOverlap(blackouts, room, startAt, endAt, zone) <==> ClosedWithin(blackouts, room, startAt, endAt, zone)
  {
    SameDayOverlap(blackouts, room, startAt, endAt, zone);
    SameDaySpan(startAt, endAt, zone);
    ClosedDuringIff(blackouts, room, zone.DateOf(startAt), startAt, endAt, zone);
  }

  lemma OneDayPart(blackouts: seq<Blackout>, room: Uuid, day: Date, from: TimeOfDay, to: TimeOfDay, zone: Zone)
    requires from < to && forall b | b in blackouts :: Positive(b)
    ensures SlotOverlapsBlackouts(ListActiveForRoomDay(blackouts, room, day), from, to)
       <==> ClosedWithin(blackouts, room, zone.Combine(day, from), zone.Combine(day, to), zone)
  {
    CombineInverse(zone, day, from);
    CombineInverse(zone, day, to);
    OverlapIffClosedWithin(blackouts, room, zone.Combine(day, from), zone.Combine(day, to), zone);
  }

  /** Across midnight, the first day counts up to its last second and the last day from its first instant. */
  lemma OverlapAcrossMidnight(blackouts: seq<Blackout>, room: Uuid, startAt: Instant, endAt: Instant, zone: Zone)
    requires zone.DateOf(startAt) != zone.DateOf(endAt) && forall b | b in blackouts :: Positive(b)
    requires zone.TimeOf(startAt) < 86_399_000_000 && 0 < zone.TimeOf(endAt)
    ensures HasBlackoutOverlap(blackouts, room, startAt, endAt, zone)
       <==> || ClosedWithin(blackouts, room, startAt, zone.Combine(zone.DateOf(startAt), 86_399_000_000), zone)
            || ClosedWithin(blackouts, room, zone.Combine(zone.DateOf(endAt), 0), endAt, zone)
  {
    PartsCombine(zone, startAt);
    PartsCombine(zone, endAt);
    OneDayPart(blackouts, room, zone.DateOf(startAt), zone.TimeOf(startAt), 86_399_000_000, zone);
    OneDayPart(blackouts, room, zone.DateOf(endAt), 0, zone.TimeOf(endAt), zone);
  }
}
