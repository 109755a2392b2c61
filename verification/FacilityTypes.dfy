/** Identifiers and intervals shared by the facility modules. */
module FacilityTypes {

  type Uuid = nat

  /** Microseconds since a fixed origin, UTC. */
  type Instant = int

  /** One room for the half-open time `[startAt, endAt)`. */
  datatype RoomInterval = RoomInterval(room: Uuid, startAt: Instant, endAt: Instant) {
    predicate Holds(t: Instant) {
      startAt <= t < endAt
    }

    predicate Positive() {
      startAt < endAt
    }
  }

  predicate IntervalsOverlap(startA: Instant, endA: Instant, startB: Instant, endB: Instant) {
    startA < endB && endA > startB
  }

  predicate Overlaps(a: RoomInterval, b: RoomInterval) {
    a.room == b.room && IntervalsOverlap(a.startAt, a.endAt, b.startAt, b.endAt)
  }

  lemma SharedInstantOverlaps(a: RoomInterval, b: RoomInterval, t: Instant)
    requires a.room == b.room && a.Holds(t) && b.Holds(t)
    ensures Overlaps(a, b)
  {
  }

  /** Non-empty intervals overlap exactly when they share a room and an instant; touching is not overlapping. */
  lemma OverlapsIffShared(a: RoomInterval, b: RoomInterval)
    requires a.Positive() && b.Positive()
    ensures Overlaps(a, b) <==> a.room == b.room && exists t :: a.Holds(t) && b.Holds(t)
  {
    var t := if a.startAt < b.startAt then b.startAt else a.startAt;
    if Overlaps(a, b) {
      assert a.Holds(t) && b.Holds(t);
    }
  }
}
