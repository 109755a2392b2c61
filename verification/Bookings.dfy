/** The booking table: what a Booking occupies, and what creating, displacing and cancelling do to it. */
module Bookings {
  import opened Options
  import opened FacilityTypes
  import opened Sorting
  import opened BookingLines

  datatype BookingStatus = Draft | PendingPayment | Confirmed | Cancelled | Overridden

  datatype Slot = Slot(interval: RoomInterval, confirmed: bool)

  /** `startAt` and `endAt` are the header's; a series occurrence carries its series' hold expiry. */
  datatype Booking = Booking(booker: Uuid, ministry: Option<Uuid>, startAt: Instant, endAt: Instant,
                             series: Option<Uuid>, status: BookingStatus, holdExpiresAt: Option<Instant>,
                             deleted: bool, slots: seq<Slot>)

  type Table = map<Uuid, Booking>

  /** Confirmed, or pending payment with an unexpired hold. */
  predicate Active(b: Booking, at: Instant) {
    && !b.deleted
    && (b.status.Confirmed?
        || (b.status.PendingPayment? && (b.holdExpiresAt.None? || b.holdExpiresAt.value > at)))
  }

  predicate HoldsConfirmedSlot(b: Booking, wanted: RoomInterval) {
    exists s :: s in b.slots && s.confirmed && Overlaps(s.interval, wanted)
  }

  /** What the occupancy query lists for a room and time. */
  predicate Occupies(b: Booking, wanted: RoomInterval, at: Instant) {
    Active(b, at) && HoldsConfirmedSlot(b, wanted)
  }

  predicate MeetsAny(b: Booking, lines: seq<Line>) {
    exists l :: l in lines && HoldsConfirmedSlot(b, l.Interval())
  }

  predicate OccupiesAny(b: Booking, lines: seq<Line>, at: Instant) {
    Active(b, at) && MeetsAny(b, lines)
  }

  function ConfirmedIntervals(slots: seq<Slot>): (r: seq<RoomInterval>)
    ensures forall x :: x in r <==> exists s :: s in slots && s.confirmed && s.interval == x
  {
    if slots == [] then []
    else
      var rest := ConfirmedIntervals(slots[1..]);
      assert slots == [slots[0]] + slots[1..];
      if slots[0].confirmed then [slots[0].interval] + rest else rest
  }

  predicate StartThenRoom(a: RoomInterval, b: RoomInterval) {
    a.startAt < b.startAt || (a.startAt == b.startAt && a.room <= b.room)
  }

  /** Every interval that a Booking still occupies, by start and room. */
  function LiveSlotIntervals(b: Booking): seq<RoomInterval> {
    Sort(ConfirmedIntervals(b.slots), StartThenRoom)
  }

  function ReleasedSlots(slots: seq<Slot>): (r: seq<Slot>)
    ensures forall s | s in r :: !s.confirmed
  {
    seq(|slots|, i requires 0 <= i < |slots| => slots[i].(confirmed := false))
  }

  function OverriddenBooking(b: Booking): Booking {
    b.(status := BookingStatus.Overridden, slots := ReleasedSlots(b.slots))
  }

  /** Every listed Booking overridden with all its slots released; every other one untouched. */
  function OverrideAll(table: Table, ids: set<Uuid>): Table {
    map id | id in table :: if id in ids then OverriddenBooking(table[id]) else table[id]
  }

  /** Scope "series" keeps the slot rows. */
  function CancelIn(table: Table, id: Uuid, cancelSlots: bool): Table {
    if id !in table then table
    else
      var b := table[id];
      table[id := b.(status := BookingStatus.Cancelled, slots := if cancelSlots then ReleasedSlots(b.slots) else b.slots)]
  }

  function ConfirmedSlots(lines: seq<Line>): (slots: seq<Slot>)
    ensures |slots| == |lines|
  {
    seq(|lines|, i requires 0 <= i < |lines| => Slot(lines[i].Interval(), true))
  }

  function ConfirmedBooking(booker: Uuid, ministry: Option<Uuid>, lines: seq<Line>): Booking
    requires lines != []
  {
    Booking(booker, ministry, EnvelopeStart(lines), EnvelopeEnd(lines), None, BookingStatus.Confirmed, None, false, ConfirmedSlots(lines))
  }

  // ----- Double booking

  predicate SlotsClash(a: Booking, b: Booking) {
    exists s, t :: s in a.slots && t in b.slots && s.confirmed && t.confirmed && Overlaps(s.interval, t.interval)
  }

  /** No two different Bookings that are active at `at` hold overlapping confirmed slots in one room. */
  ghost predicate NoDoubleBooking(table: Table, at: Instant) {
    forall a, b | a in table && b in table && a != b :: !(Active(table[a], at) && Active(table[b], at) && SlotsClash(table[a], table[b]))
  }

  /** The same claim about slot rows alone, whatever their Bookings' status. */
  ghost predicate NoConfirmedSlotClash(table: Table) {
    forall a, b | a in table && b in table && a != b :: !SlotsClash(table[a], table[b])
  }

  lemma ActiveShrinks(b: Booking, early: Instant, late: Instant)
    requires early <= late && Active(b, late)
    ensures Active(b, early)
  {
  }

  lemma NewBookingClash(b: Booking, booker: Uuid, ministry: Option<Uuid>, lines: seq<Line>)
    requires lines != []
    ensures var n := ConfirmedBooking(booker, ministry, lines);
      && (SlotsClash(b, n) <==> MeetsAny(b, lines))
      && (SlotsClash(n, b) <==> SlotsClash(b, n))
  {
    var n := ConfirmedBooking(booker, ministry, lines);
    if s, t :| s in b.slots && t in n.slots && s.confirmed && t.confirmed && Overlaps(s.interval, t.interval) {
      var i :| 0 <= i < |lines| && n.slots[i] == t;
      assert lines[i] in lines && HoldsConfirmedSlot(b, lines[i].Interval());
    }
    if l :| l in lines && HoldsConfirmedSlot(b, l.Interval()) {
      var i :| 0 <= i < |lines| && lines[i] == l;
      assert n.slots[i] in n.slots && n.slots[i].interval == l.Interval();
    }
  }

  lemma OverriddenNeverClashes(b: Booking, other: Booking)
    ensures !SlotsClash(OverriddenBooking(b), other) && !SlotsClash(other, OverriddenBooking(b))
  {
  }

  /** Releasing slots and adding a Booking that meets no remaining active one keeps the invariant. */
  lemma ConfirmKeepsNoDoubleBooking(table: Table, displaced: set<Uuid>, id: Uuid, booker: Uuid, ministry: Option<Uuid>,
                                    lines: seq<Line>, at: Instant)
    requires lines != [] && id !in table
    requires NoDoubleBooking(table, at)
    requires forall b | b in table && b !in displaced :: !OccupiesAny(table[b], lines, at)
    ensures NoDoubleBooking(OverrideAll(table, displaced)[id := ConfirmedBooking(booker, ministry, lines)], at)
  {
    var n := ConfirmedBooking(booker, ministry, lines);
    var after := OverrideAll(table, displaced)[id := n];
    forall a, b | a in after && b in after && a != b
      ensures !(Active(after[a], at) && Active(after[b], at) && SlotsClash(after[a], after[b]))
    {
      if a != id && a in displaced {
        OverriddenNeverClashes(table[a], after[b]);
      } else if b != id && b in displaced {
        OverriddenNeverClashes(table[b], after[a]);
      } else if a == id {
        NewBookingClash(table[b], booker, ministry, lines);
      } else if b == id {
        NewBookingClash(table[a], booker, ministry, lines);
      }
    }
  }

  lemma CancelKeepsNoDoubleBooking(table: Table, id: Uuid, cancelSlots: bool, at: Instant)
    requires NoDoubleBooking(table, at)
    ensures NoDoubleBooking(CancelIn(table, id, cancelSlots), at)
  {
  }

  lemma TimeKeepsNoDoubleBooking(table: Table, early: Instant, late: Instant)
    requires early <= late && NoDoubleBooking(table, early)
    ensures NoDoubleBooking(table, late)
  {
  }

  lemma SlotRowsDisjointAfter(table: Table, displaced: set<Uuid>, id: Uuid, n: Booking)
    requires id !in table && NoConfirmedSlotClash(table)
    requires forall b | b in table && b !in displaced :: !SlotsClash(table[b], n) && !SlotsClash(n, table[b])
    ensures NoConfirmedSlotClash(OverrideAll(table, displaced)[id := n])
  {
  }

  /**
   Slot rows of different Bookings stay disjoint exactly when no undisplaced Booking, active or not,
   still has a confirmed row that meets a new line; the occupancy query does not show the inactive ones.
   */
  lemma SlotRowsDisjointIff(table: Table, displaced: set<Uuid>, id: Uuid, booker: Uuid, ministry: Option<Uuid>, lines: seq<Line>)
    requires lines != [] && id !in table && NoConfirmedSlotClash(table)
    ensures NoConfirmedSlotClash(OverrideAll(table, displaced)[id := ConfirmedBooking(booker, ministry, lines)])
       <==> forall b | b in table && b !in displaced :: !MeetsAny(table[b], lines)
  {
    var n := ConfirmedBooking(booker, ministry, lines);
    var after := OverrideAll(table, displaced)[id := n];
    forall b | b in table
      ensures SlotsClash(table[b], n) <==> MeetsAny(table[b], lines)
      ensures SlotsClash(n, table[b]) <==> SlotsClash(table[b], n)
    {
      NewBookingClash(table[b], booker, ministry, lines);
    }
    if forall b | b in table && b !in displaced :: !MeetsAny(table[b], lines) {
      SlotRowsDisjointAfter(table, displaced, id, n);
    }
    forall b | b in table && b !in displaced && NoConfirmedSlotClash(after) ensures !MeetsAny(table[b], lines) {
      assert after[b] == table[b] && after[id] == n;
    }
  }

  // ----- Occupancy instant by instant

  /** A confirmed slot of the Booking holds the room at the instant. */
  predicate HoldsAt(b: Booking, room: Uuid, t: Instant) {
    exists s :: s in b.slots && s.confirmed && s.interval.room == room && s.interval.Holds(t)
  }

  predicate PositiveSlots(b: Booking) {
    forall s | s in b.slots :: s.interval.Positive()
  }

  ghost predicate AllPositive(table: Table) {
    forall id | id in table :: PositiveSlots(table[id])
  }

  /** A Booking meets a wanted interval exactly when it holds the room at some instant of it. */
  lemma MeetsIffHoldsAt(b: Booking, wanted: RoomInterval)
    requires PositiveSlots(b) && wanted.Positive()
    ensures HoldsConfirmedSlot(b, wanted) <==> exists t :: wanted.Holds(t) && HoldsAt(b, wanted.room, t)
  {
    if HoldsConfirmedSlot(b, wanted) {
      var s :| s in b.slots && s.confirmed && Overlaps(s.interval, wanted);
      OverlapsIffShared(s.interval, wanted);
      var t :| s.interval.Holds(t) && wanted.Holds(t);
      assert HoldsAt(b, wanted.room, t);
    }
    if t :| wanted.Holds(t) && HoldsAt(b, wanted.room, t) {
      var s :| s in b.slots && s.confirmed && s.interval.room == wanted.room && s.interval.Holds(t);
      SharedInstantOverlaps(s.interval, wanted, t);
    }
  }

  /** At every instant, every room is held by at most one active Booking. */
  ghost predicate OneHolder(table: Table, at: Instant) {
    forall a, b, room, t | a in table && b in table && a != b && HoldsAt(table[a], room, t) && HoldsAt(table[b], room, t) ::
      !(Active(table[a], at) && Active(table[b], at))
  }

  lemma NoDoubleBookingHasOneHolder(table: Table, at: Instant)
    requires NoDoubleBooking(table, at)
    ensures OneHolder(table, at)
  {
    forall a, b, room, t | a in table && b in table && a != b && HoldsAt(table[a], room, t) && HoldsAt(table[b], room, t)
      ensures !(Active(table[a], at) && Active(table[b], at))
    {
      var s :| s in table[a].slots && s.confirmed && s.interval.room == room && s.interval.Holds(t);
      var u :| u in table[b].slots && u.confirmed && u.interval.room == room && u.interval.Holds(t);
      SharedInstantOverlaps(s.interval, u.interval, t);
      assert SlotsClash(table[a], table[b]);
    }
  }

  /** No double booking means exactly: no room and instant held by two active Bookings. */
  lemma NoDoubleBookingIffOneHolder(table: Table, at: Instant)
    requires AllPositive(table)
    ensures NoDoubleBooking(table, at) <==> OneHolder(table, at)
  {
    if NoDoubleBooking(table, at) {
      NoDoubleBookingHasOneHolder(table, at);
    }
    forall a, b | OneHolder(table, at) && a in table && b in table && a != b
      ensures !(Active(table[a], at) && Active(table[b], at) && SlotsClash(table[a], table[b]))
    {
      if SlotsClash(table[a], table[b]) {
        var s, u :| s in table[a].slots && u in table[b].slots && s.confirmed && u.confirmed && Overlaps(s.interval, u.interval);
        OverlapsIffShared(s.interval, u.interval);
        var t :| s.interval.Holds(t) && u.interval.Holds(t);
        assert HoldsAt(table[a], s.interval.room, t) && HoldsAt(table[b], s.interval.room, t);
      }
    }
  }

  /** A pending hold ends at its very instant; a confirmed Booking is active always, any other one never. */
  lemma ActiveWhile(b: Booking)
    ensures b.deleted || b.status.Draft? || b.status.Cancelled? || b.status.Overridden? ==> forall at :: !Active(b, at)
    ensures !b.deleted && b.status.Confirmed? ==> forall at :: Active(b, at)
    ensures !b.deleted && b.status.PendingPayment? && b.holdExpiresAt.None? ==> forall at :: Active(b, at)
    ensures !b.deleted && b.status.PendingPayment? && b.holdExpiresAt.Some? ==> forall at :: Active(b, at) <==> at < b.holdExpiresAt.value
  {
  }

  // ----- What an override releases

  lemma {:induction false} ConfirmedIntervalsCount(slots: seq<Slot>, x: RoomInterval)
    ensures multiset(ConfirmedIntervals(slots))[x] == multiset(slots)[Slot(x, true)]
  {
    if slots != [] {
      ConfirmedIntervalsCount(slots[1..], x);
      assert slots == [slots[0]] + slots[1..];
    }
  }

  /** Each interval as often as the Booking has a confirmed slot with it, by start and then by room. */
  lemma LiveSlotIntervalsListed(b: Booking)
    ensures forall x :: multiset(LiveSlotIntervals(b))[x] == multiset(b.slots)[Slot(x, true)]
    ensures forall i, j | 0 <= i < j < |LiveSlotIntervals(b)| ::
      var p, q := LiveSlotIntervals(b)[i], LiveSlotIntervals(b)[j];
      p.startAt < q.startAt || (p.startAt == q.startAt && p.room <= q.room)
  {
    SortMultiset(ConfirmedIntervals(b.slots), StartThenRoom);
    SortSorted(ConfirmedIntervals(b.slots), StartThenRoom);
    forall x ensures multiset(LiveSlotIntervals(b))[x] == multiset(b.slots)[Slot(x, true)] {
      ConfirmedIntervalsCount(b.slots, x);
    }
  }

  // ----- What a cancellation does

  /** The Booking is cancelled and never active again; its rows are released or kept; everything else stays. */
  lemma CancelledBooking(table: Table, id: Uuid, cancelSlots: bool)
    requires id in table
    ensures var after := CancelIn(table, id, cancelSlots);
      && after.Keys == table.Keys && (forall b | b in table && b != id :: after[b] == table[b])
      && after[id].status.Cancelled? && (forall at :: !Active(after[id], at))
      && (if cancelSlots then forall room, t :: !HoldsAt(after[id], room, t) else after[id].slots == table[id].slots)
      && |after[id].slots| == |table[id].slots|
      && after[id].(status := table[id].status, slots := table[id].slots) == table[id]
  {
  }
}
