/** Placement of the Mock fixture suite: two closures and ten bookings, each on its earliest free day. */
module MockFixtures {
  import opened Options
  import opened FacilityTypes
  import opened LocalTime
  import opened Blackouts

  datatype Persona = Personal | Steward

  datatype Plan = Plan(title: string, booker: Persona, bookerIndex: nat, roomCodes: seq<string>, startHour: int, endHour: int,
                       ministry: Option<string>)

  datatype PlacedBooking = PlacedBooking(plan: Plan, day: Date, rooms: seq<Uuid>, startAt: Instant, endAt: Instant)

  datatype Suite = Suite(campusDay: Date, roomDay: Date, placed: seq<PlacedBooking>)

  datatype PlacementError =
    | NoCampusDay
    | NoRoomDay(campusDay: Date)
    | MissingRoom(code: string)
    | NoBookingDay(campusDay: Date, roomDay: Date, placed: seq<PlacedBooking>)

  const WINDOW_DAYS: nat := 30
  const SANCTUARY := "sanctuary-hall"
  const CAMPUS_START: TimeOfDay := 0
  const CAMPUS_END: TimeOfDay := 23 * HOUR + 59 * MINUTE
  const ROOM_START: TimeOfDay := 13 * HOUR
  const ROOM_END: TimeOfDay := 17 * HOUR

  const PLANS: seq<Plan> := [
    Plan("Personal classroom 105", Personal, 0, ["classroom-105"], 10, 11, None),
    Plan("Personal classroom 106", Personal, 1, ["classroom-106"], 11, 12, None),
    Plan("Personal lounge", Personal, 2, ["lounge"], 14, 15, None),
    Plan("Personal meeting room", Personal, 3, ["meeting-room"], 15, 16, None),
    Plan("Personal nursery", Personal, 4, ["nursery"], 10, 11, None),
    Plan("Personal classroom 107", Personal, 0, ["classroom-107"], 13, 14, None),
    Plan("Badminton gym", Steward, 0, ["gym"], 18, 19, Some("Badminton")),
    Plan("Alpha classroom 125", Steward, 1, ["classroom-125"], 10, 12, Some("Alpha")),
    Plan("Basketball lobby", Steward, 2, ["lobby"], 18, 19, Some("Basketball")),
    Plan("Pickleball gym lobby", Steward, 0, ["gym", "lobby"], 17, 18, Some("Pickleball"))
  ]

  /** One day's interval for a set of rooms. */
  datatype Wanted = Wanted(rooms: set<Uuid>, startAt: Instant, endAt: Instant)

  predicate MeetsOccupancy(occupancy: seq<RoomInterval>, w: Wanted) {
    exists o :: o in occupancy && o.room in w.rooms && IntervalsOverlap(o.startAt, o.endAt, w.startAt, w.endAt)
  }

  /** Looks at the local day on which the interval starts. */
  predicate MeetsBlackout(b: Blackout, w: Wanted, zone: Zone) {
    && AppliesOnDate(b, zone.DateOf(w.startAt))
    && (exists room :: room in w.rooms && CoversRoom(b, room))
    && TimesOverlap(zone.TimeOf(w.startAt), zone.TimeOf(w.endAt), b.startTime, b.endTime)
  }

  predicate IsFree(occupancy: seq<RoomInterval>, blackouts: seq<Blackout>, w: Wanted, zone: Zone) {
    !MeetsOccupancy(occupancy, w) && forall b | b in blackouts :: !MeetsBlackout(b, w, zone)
  }

  function RoomSet(rooms: seq<Uuid>): set<Uuid> {
    set r | r in rooms
  }

  function WantedBy(p: PlacedBooking): Wanted {
    Wanted(RoomSet(p.rooms), p.startAt, p.endAt)
  }

  function OnDay(rooms: set<Uuid>, day: Date, from: TimeOfDay, to: TimeOfDay, zone: Zone): Wanted {
    Wanted(rooms, zone.Combine(day, from), zone.Combine(day, to))
  }

  predicate ValidHours(p: Plan) {
    0 <= p.startHour < p.endHour < 24
  }

  predicate IsCandidate(today: Date, day: Date) {
    today < day <= today + WINDOW_DAYS
  }

  /** A daily interval for some rooms, with the days it must keep off. */
  datatype Item = Item(rooms: set<Uuid>, from: TimeOfDay, to: TimeOfDay, excluded: set<Date>)

  /** What the search looks at: occupancy, closures, the zone and today. */
  datatype Calendar = Calendar(occupancy: seq<RoomInterval>, blackouts: seq<Blackout>, today: Date, zone: Zone) {
    predicate Fits(item: Item, day: Date) {
      day !in item.excluded && IsFree(occupancy, blackouts, OnDay(item.rooms, day, item.from, item.to, zone), zone)
    }

    /** The earliest candidate day that fits; none when no candidate does. */
    ghost predicate IsFirst(item: Item, r: Option<Date>) {
      match r
      case Some(day) => IsCandidate(today, day) && Fits(item, day) && forall d | IsCandidate(today, d) && d < day :: !Fits(item, d)
      case None => forall d | IsCandidate(today, d) :: !Fits(item, d)
    }
  }

  method FirstFreeDay(c: Calendar, item: Item) returns (r: Option<Date>)
    ensures c.IsFirst(item, r)
  {
    for offset := 1 to WINDOW_DAYS + 1
      invariant forall d | IsCandidate(c.today, d) && d < c.today + offset :: !c.Fits(item, d)
    {
      var day := c.today + offset;
      if day !in item.excluded && IsFree(c.occupancy, c.blackouts, OnDay(item.rooms, day, item.from, item.to, c.zone), c.zone) {
        return Some(day);
      }
    }
    r := None;
  }

  function CampusBlackout(day: Date): Blackout {
    Blackout(None, OneOff, Some(day), None, CAMPUS_START, CAMPUS_END, None, None, true)
  }

  function RoomBlackout(room: Uuid, day: Date): Blackout {
    Blackout(Some(room), OneOff, Some(day), None, ROOM_START, ROOM_END, None, None, true)
  }

  function Occupied(p: PlacedBooking): seq<RoomInterval> {
    seq(|p.rooms|, i requires 0 <= i < |p.rooms| => RoomInterval(p.rooms[i], p.startAt, p.endAt))
  }

  /** Prior occupancy followed by that of the bookings placed so far. */
  function OccupancyAfter(prior: seq<RoomInterval>, placed: seq<PlacedBooking>): seq<RoomInterval> {
    if placed == [] then prior
    else OccupancyAfter(prior, placed[..|placed| - 1]) + Occupied(placed[|placed| - 1])
  }

  function ItemOf(p: Plan, rooms: seq<Uuid>): Item
    requires ValidHours(p)
  {
    Item(RoomSet(rooms), p.startHour * HOUR, p.endHour * HOUR, {})
  }

  /** Booking `k` takes the earliest day that is free given everything before it. */
  ghost predicate PlacedFirst(c: Calendar, placed: seq<PlacedBooking>, k: nat)
    requires k < |placed|
  {
    var p := placed[k];
    && ValidHours(p.plan)
    && WantedBy(p) == OnDay(RoomSet(p.rooms), p.day, p.plan.startHour * HOUR, p.plan.endHour * HOUR, c.zone)
    && c.(occupancy := OccupancyAfter(c.occupancy, placed[..k])).IsFirst(ItemOf(p.plan, p.rooms), Some(p.day))
  }

  ghost predicate AllPlacedFirst(c: Calendar, placed: seq<PlacedBooking>) {
    forall k | 0 <= k < |placed| :: PlacedFirst(c, placed, k)
  }

  ghost predicate Follows(placed: seq<PlacedBooking>, plans: seq<Plan>, rooms: map<string, Uuid>) {
    && |placed| <= |plans|
    && forall k | 0 <= k < |placed| :: placed[k].plan == plans[k] && HasRooms(plans[k], rooms) && placed[k].rooms == RoomsOf(plans[k], rooms)
  }

  predicate HasRooms(p: Plan, rooms: map<string, Uuid>) {
    forall code | code in p.roomCodes :: code in rooms
  }

  function FirstMissing(codes: seq<string>, rooms: map<string, Uuid>): (r: Option<string>)
    ensures r.None? <==> forall code | code in codes :: code in rooms
    ensures r.Some? ==> r.value in codes && r.value !in rooms
  {
    if codes == [] then None
    else if codes[0] !in rooms then Some(codes[0])
    else FirstMissing(codes[1..], rooms)
  }

  function RoomsOf(p: Plan, rooms: map<string, Uuid>): seq<Uuid>
    requires HasRooms(p, rooms)
  {
    seq(|p.roomCodes|, i requires 0 <= i < |p.roomCodes| => rooms[p.roomCodes[i]])
  }

  function CampusItem(rooms: map<string, Uuid>): Item {
    Item(rooms.Values, CAMPUS_START, CAMPUS_END, {})
  }

  function RoomItem(room: Uuid, campusDay: Date): Item {
    Item({room}, ROOM_START, ROOM_END, {campusDay})
  }

  function WithBlackout(c: Calendar, b: Blackout): Calendar {
    c.(blackouts := c.blackouts + [b])
  }

  /** The plan after `placed` has no free day left among the candidates. */
  ghost predicate Stuck(c: Calendar, placed: seq<PlacedBooking>, plans: seq<Plan>, rooms: map<string, Uuid>) {
    && |placed| < |plans| && HasRooms(plans[|placed|], rooms) && ValidHours(plans[|placed|])
    && c.(occupancy := OccupancyAfter(c.occupancy, placed)).IsFirst(ItemOf(plans[|placed|], RoomsOf(plans[|placed|], rooms)), None)
  }

  /** Both closures placed, the second after the first. */
  ghost predicate ClosuresPlaced(c: Calendar, rooms: map<string, Uuid>, campusDay: Date, roomDay: Option<Date>) {
    && c.IsFirst(CampusItem(rooms), Some(campusDay))
    && SANCTUARY in rooms
    && WithBlackout(c, CampusBlackout(campusDay)).IsFirst(RoomItem(rooms[SANCTUARY], campusDay), roomDay)
  }

  function Closed(c: Calendar, room: Uuid, campusDay: Date, roomDay: Date): Calendar {
    WithBlackout(WithBlackout(c, CampusBlackout(campusDay)), RoomBlackout(room, roomDay))
  }

  ghost predicate BookingsPlaced(c: Calendar, plans: seq<Plan>, rooms: map<string, Uuid>, placed: seq<PlacedBooking>) {
    Follows(placed, plans, rooms) && AllPlacedFirst(c, placed)
  }

  /** What the placement phase answers; every failure to place means that no candidate day was free. */
  ghost predicate Answers(c: Calendar, plans: seq<Plan>, rooms: map<string, Uuid>, r: Result<Suite, PlacementError>) {
    match r
    case Success(s) =>
      && ClosuresPlaced(c, rooms, s.campusDay, Some(s.roomDay))
      && |s.placed| == |plans| && BookingsPlaced(Closed(c, rooms[SANCTUARY], s.campusDay, s.roomDay), plans, rooms, s.placed)
    case Failure(NoCampusDay) => c.IsFirst(CampusItem(rooms), None)
    case Failure(NoRoomDay(campusDay)) => ClosuresPlaced(c, rooms, campusDay, None)
    case Failure(NoBookingDay(campusDay, roomDay, placed)) =>
      && ClosuresPlaced(c, rooms, campusDay, Some(roomDay))
      && BookingsPlaced(Closed(c, rooms[SANCTUARY], campusDay, roomDay), plans, rooms, placed)
      && Stuck(Closed(c, rooms[SANCTUARY], campusDay, roomDay), placed, plans, rooms)
    case Failure(MissingRoom(code)) =>
      || (code == SANCTUARY && SANCTUARY !in rooms && exists day :: c.IsFirst(CampusItem(rooms), Some(day)))
      || (SANCTUARY in rooms && exists k :: 0 <= k < |plans| && FirstMissing(plans[k].roomCodes, rooms) == Some(code))
  }

  lemma AppendPlaced(c: Calendar, placed: seq<PlacedBooking>, p: PlacedBooking)
    requires AllPlacedFirst(c, placed) && PlacedFirst(c, placed + [p], |placed|)
    ensures AllPlacedFirst(c, placed + [p])
  {
    forall k | 0 <= k < |placed| ensures PlacedFirst(c, placed + [p], k) {
      assert PlacedFirst(c, placed, k);
      assert (placed + [p])[..k] == placed[..k];
    }
  }

  /** Each plan in turn, against the occupancy that grows with every booking placed. */
  method PlaceBookings(c: Calendar, plans: seq<Plan>, rooms: map<string, Uuid>)
    returns (placed: seq<PlacedBooking>, missing: Option<string>)
    requires forall p | p in plans :: ValidHours(p)
    ensures BookingsPlaced(c, plans, rooms, placed)
    ensures missing.Some? ==> |placed| < |plans| && missing == FirstMissing(plans[|placed|].roomCodes, rooms)
    ensures missing.None? && |placed| < |plans| ==> Stuck(c, placed, plans, rooms)
  {
    placed, missing := [], None;
    var occupancy := c.occupancy;
    for k := 0 to |plans|
      invariant |placed| == k && missing.None? && BookingsPlaced(c, plans, rooms, placed)
      invariant occupancy == OccupancyAfter(c.occupancy, placed)
    {
      var plan := plans[k];
      missing := FirstMissing(plan.roomCodes, rooms);
      if missing.Some? {
        return;
      }
      var ids := RoomsOf(plan, rooms);
      var day := FirstFreeDay(c.(occupancy := occupancy), ItemOf(plan, ids));
      if day.None? {
        return;
      }
      var p := PlacedBooking(plan, day.value, ids, c.zone.Combine(day.value, plan.startHour * HOUR), c.zone.Combine(day.value, plan.endHour * HOUR));
      assert (placed + [p])[..k] == placed;
      assert PlacedFirst(c, placed + [p], k);
      AppendPlaced(c, placed, p);
      placed := placed + [p];
      occupancy := occupancy + Occupied(p);
    }
  }

  /** Closures first, then the bookings, each against everything placed before it. */
  method PlaceSuite(c: Calendar, plans: seq<Plan>, rooms: map<string, Uuid>) returns (r: Result<Suite, PlacementError>)
    requires forall p | p in plans :: ValidHours(p)
    ensures Answers(c, plans, rooms, r)
  {
    var blackouts := c.blackouts;
    var campusDay := FirstFreeDay(c, CampusItem(rooms));
    if campusDay.None? {
      return Failure(NoCampusDay);
    }
    blackouts := blackouts + [CampusBlackout(campusDay.value)];
    if SANCTUARY !in rooms {
      return Failure(MissingRoom(SANCTUARY));
    }
    var room := rooms[SANCTUARY];
    var roomDay := FirstFreeDay(c.(blackouts := blackouts), RoomItem(room, campusDay.value));
    if roomDay.None? {
      return Failure(NoRoomDay(campusDay.value));
    }
    blackouts := blackouts + [RoomBlackout(room, roomDay.value)];
    var placed, missing := PlaceBookings(c.(blackouts := blackouts), plans, rooms);
    if missing.Some? {
      return Failure(MissingRoom(missing.value));
    }
    if |placed| < |plans| {
      return Failure(NoBookingDay(campusDay.value, roomDay.value, placed));
    }
    r := Success(Suite(campusDay.value, roomDay.value, placed));
  }

  /** The suite that the seed command places. */
  method PlaceMockSuite(c: Calendar, rooms: map<string, Uuid>) returns (r: Result<Suite, PlacementError>)
    ensures Answers(c, PLANS, rooms, r)
  {
    r := PlaceSuite(c, PLANS, rooms);
  }

  // ----- What a placed suite guarantees

  lemma {:induction false} OccupancyHas(prior: seq<RoomInterval>, placed: seq<PlacedBooking>)
    ensures forall o | o in prior :: o in OccupancyAfter(prior, placed)
    ensures forall i, r | 0 <= i < |placed| && r in placed[i].rooms ::
        RoomInterval(r, placed[i].startAt, placed[i].endAt) in OccupancyAfter(prior, placed)
  {
    if placed != [] {
      var n := |placed| - 1;
      OccupancyHas(prior, placed[..n]);
      forall i, r | 0 <= i < |placed| && r in placed[i].rooms
        ensures RoomInterval(r, placed[i].startAt, placed[i].endAt) in OccupancyAfter(prior, placed)
      {
        if i == n {
          var j :| 0 <= j < |placed[n].rooms| && placed[n].rooms[j] == r;
          assert Occupied(placed[n])[j] == RoomInterval(r, placed[n].startAt, placed[n].endAt);
        } else {
          assert placed[..n][i] == placed[i];
        }
      }
    }
  }

  lemma LaterMissesEarlier(c: Calendar, placed: seq<PlacedBooking>, i: nat, k: nat, room: Uuid)
    requires AllPlacedFirst(c, placed) && i < k < |placed|
    requires room in placed[i].rooms && room in placed[k].rooms
    ensures !IntervalsOverlap(placed[i].startAt, placed[i].endAt, placed[k].startAt, placed[k].endAt)
  {
    assert PlacedFirst(c, placed, k);
    OccupancyHas(c.occupancy, placed[..k]);
    assert placed[..k][i] == placed[i];
    var taken := RoomInterval(room, placed[i].startAt, placed[i].endAt);
    assert taken in OccupancyAfter(c.occupancy, placed[..k]) && taken.room in WantedBy(placed[k]).rooms;
  }

  /** Placed bookings meet no prior occupancy, no closure, and no other placed booking in a shared room. */
  lemma PlacedNeverOverlap(c: Calendar, placed: seq<PlacedBooking>, k: nat)
    requires AllPlacedFirst(c, placed) && k < |placed|
    ensures IsFree(c.occupancy, c.blackouts, WantedBy(placed[k]), c.zone)
    ensures forall i, r | 0 <= i < |placed| && i != k && r in placed[i].rooms && r in placed[k].rooms ::
        !IntervalsOverlap(placed[i].startAt, placed[i].endAt, placed[k].startAt, placed[k].endAt)
  {
    assert PlacedFirst(c, placed, k);
    OccupancyHas(c.occupancy, placed[..k]);
    forall i, r | 0 <= i < |placed| && i != k && r in placed[i].rooms && r in placed[k].rooms
      ensures !IntervalsOverlap(placed[i].startAt, placed[i].endAt, placed[k].startAt, placed[k].endAt)
    {
      if i < k {
        LaterMissesEarlier(c, placed, i, k, r);
      } else {
        LaterMissesEarlier(c, placed, k, i, r);
      }
    }
  }

  /** The campus closure keeps its whole day clear of the suite's other items. */
  lemma CampusDayIsClear(c: Calendar, plans: seq<Plan>, rooms: map<string, Uuid>, s: Suite, k: nat)
    requires Answers(c, plans, rooms, Success(s)) && k < |s.placed| && plans[k].roomCodes != []
    ensures s.placed[k].day != s.campusDay && s.roomDay != s.campusDay
  {
    var p := s.placed[k];
    var all := Closed(c, rooms[SANCTUARY], s.campusDay, s.roomDay);
    PlacedNeverOverlap(all, s.placed, k);
    assert PlacedFirst(all, s.placed, k);
    CombineInverse(c.zone, p.day, p.plan.startHour * HOUR);
    CombineInverse(c.zone, p.day, p.plan.endHour * HOUR);
    var b := CampusBlackout(s.campusDay);
    assert all.blackouts[|c.blackouts|] == b;
    assert !MeetsBlackout(b, WantedBy(p), c.zone);
    assert p.rooms[0] in WantedBy(p).rooms && CoversRoom(b, p.rooms[0]);
  }

  /** The fixture search and the booking gate agree on closures: a one-day interval is open here iff every room passes the gate. */
  lemma SearchAgreesWithGate(blackouts: seq<Blackout>, w: Wanted, zone: Zone)
    requires forall b | b in blackouts :: b.active
    requires zone.DateOf(w.startAt) == zone.DateOf(w.endAt)
    ensures (exists b :: b in blackouts && MeetsBlackout(b, w, zone))
       <==> exists room :: room in w.rooms && HasBlackoutOverlap(blackouts, room, w.startAt, w.endAt, zone)
  {
  }

  // ----- The same in instants and wall time

  /** A free day's interval shares no instant with an occupied slot of its rooms, and no room of it would be refused for a closure. */
  lemma FreeSharesNoInstant(occupancy: seq<RoomInterval>, blackouts: seq<Blackout>, w: Wanted, zone: Zone)
    requires forall o | o in occupancy :: o.Positive()
    requires w.startAt < w.endAt && zone.DateOf(w.startAt) == zone.DateOf(w.endAt)
    requires forall b | b in blackouts :: b.active && Positive(b)
    ensures IsFree(occupancy, blackouts, w, zone)
       <==> && (forall o, t | o in occupancy && o.room in w.rooms && o.Holds(t) :: !(w.startAt <= t < w.endAt))
            && forall room | room in w.rooms :: !ClosedWithin(blackouts, room, w.startAt, w.endAt, zone)
  {
    SearchAgreesWithGate(blackouts, w, zone);
    forall room | room in w.rooms
      ensures HasBlackoutOverlap(blackouts, room, w.startAt, w.endAt, zone) <==> ClosedWithin(blackouts, room, w.startAt, w.endAt, zone)
    {
      OverlapIffClosedWithin(blackouts, room, w.startAt, w.endAt, zone);
    }
    forall o | o in occupancy && o.room in w.rooms
      ensures IntervalsOverlap(o.startAt, o.endAt, w.startAt, w.endAt) <==> exists t :: o.Holds(t) && w.startAt <= t < w.endAt
    {
      var wanted := RoomInterval(o.room, w.startAt, w.endAt);
      OverlapsIffShared(o, wanted);
      assert forall t :: wanted.Holds(t) <==> w.startAt <= t < w.endAt;
    }
  }

  /** A placed booking is on its plan's hours of a day in the window. */
  lemma PlacedAtItsHours(c: Calendar, placed: seq<PlacedBooking>, k: nat)
    requires AllPlacedFirst(c, placed) && k < |placed|
    ensures var p := placed[k];
      && c.today < p.day <= c.today + 30
      && c.zone.DateOf(p.startAt) == p.day == c.zone.DateOf(p.endAt)
      && c.zone.TimeOf(p.startAt) == p.plan.startHour * 3_600_000_000 && c.zone.TimeOf(p.endAt) == p.plan.endHour * 3_600_000_000
  {
    assert PlacedFirst(c, placed, k);
    var p := placed[k];
    CombineInverse(c.zone, p.day, p.plan.startHour * HOUR);
    CombineInverse(c.zone, p.day, p.plan.endHour * HOUR);
  }

  /** No instant finds two placed bookings, or a placed booking and prior occupancy, in one room. */
  lemma PlacedShareNoInstant(c: Calendar, placed: seq<PlacedBooking>, k: nat, room: Uuid, t: Instant)
    requires AllPlacedFirst(c, placed) && k < |placed| && room in placed[k].rooms && placed[k].startAt <= t < placed[k].endAt
    ensures forall i | 0 <= i < |placed| && i != k && room in placed[i].rooms :: !(placed[i].startAt <= t < placed[i].endAt)
    ensures forall o | o in c.occupancy && o.room == room :: !o.Holds(t)
  {
    PlacedNeverOverlap(c, placed, k);
    var mine := RoomInterval(room, placed[k].startAt, placed[k].endAt);
    forall i | 0 <= i < |placed| && i != k && room in placed[i].rooms ensures !(placed[i].startAt <= t < placed[i].endAt) {
      if placed[i].startAt <= t < placed[i].endAt {
        SharedInstantOverlaps(RoomInterval(room, placed[i].startAt, placed[i].endAt), mine, t);
      }
    }
    forall o | o in c.occupancy && o.room == room ensures !o.Holds(t) {
      if o.Holds(t) {
        SharedInstantOverlaps(o, mine, t);
      }
    }
  }

  /** Ten scenarios within the day's hours: six Personal ones of one room, four of Ministries, the last of two rooms. */
  lemma TenScenarios()
    ensures |PLANS| == 10
    ensures forall k | 0 <= k < 10 :: ValidHours(PLANS[k]) && 10 <= PLANS[k].startHour && PLANS[k].endHour <= 19
    ensures forall k | 0 <= k < 10 :: (PLANS[k].booker == Personal <==> k < 6) && (PLANS[k].ministry.None? <==> k < 6)
    ensures forall k | 0 <= k < 9 :: |PLANS[k].roomCodes| == 1
    ensures PLANS[9].roomCodes == ["gym", "lobby"]
  {
  }

  /** The campus closure lasts until the last minute of its day, the sanctuary's from one to five in the afternoon. */
  lemma ClosureHours(room: Uuid, other: Uuid, day: Date, d: Date, time: TimeOfDay)
    ensures Closes(CampusBlackout(day), other, d, time) <==> d == day && time < 86_340_000_000
    ensures Closes(RoomBlackout(room, day), other, d, time) <==> other == room && d == day && 46_800_000_000 <= time < 61_200_000_000
  {
  }
}
