/**
 Occupancy of a One-time proposal: each occupant of each line either blocks it or, for an Active Priority
 Ministry, is a future Non-ministry Booking that the confirmation displaces as a whole.
 */
module OneTimeOverride {
  import opened Options
  import opened FacilityTypes
  import opened LocalTime
  import opened Sequences
  import opened BookingLines
  import opened Bookings
  import opened FacilityDatabase
  import opened ReviewToken

  datatype Ministry = Ministry(active: bool, deleted: bool, priority: bool, stewards: set<Uuid>)

  /** The current, validated Ministry of a proposal; absent for a Personal one. */
  datatype Context = Context(ministryId: Uuid, isPriority: bool)

  datatype Contact = Contact(name: Option<string>, email: Option<string>)

  /** Names shown on conflicts. */
  datatype Directory = Directory(ministryName: Uuid -> Option<string>, primarySteward: Uuid -> Contact, booker: Uuid -> Contact)

  datatype ConflictKind = OccupancyConflict | MinistryConflict | BlackoutConflict | OpeningHoursConflict

  datatype Conflict = Conflict(interval: RoomInterval, kind: ConflictKind, ministryName: Option<string>, contact: Contact)

  datatype OverrideTarget = OverrideTarget(impact: Impact, booker: Uuid, occurrenceDate: Date, overlappingRooms: seq<Uuid>)

  datatype Evaluation = Evaluation(conflicts: seq<Conflict>, targets: seq<OverrideTarget>)

  const NO_CONTACT := Contact(None, None)

  /** The lookup by id does not filter soft-deleted Ministries. */
  function LoadMinistryProposalContext(ministries: map<Uuid, Ministry>, ministryId: Uuid, user: Uuid): Option<Context> {
    if ministryId !in ministries || !ministries[ministryId].active then None
    else if user !in ministries[ministryId].stewards then None
    else Some(Context(ministryId, ministries[ministryId].priority))
  }

  predicate CanOverride(context: Option<Context>, allowOverride: bool) {
    allowOverride && context.Some? && context.value.isPriority
  }

  /** Only a Non-ministry Booking whose header starts strictly after now gives way. */
  predicate Displaceable(b: Booking, canOverride: bool, now: Instant) {
    b.ministry.None? && canOverride && b.startAt > now
  }

  /** The clock readings of one evaluation: the service's now and the transaction's. */
  datatype Clocks = Clocks(now: Instant, dbNow: Instant)

  function Blockers(table: Table, line: Line, canOverride: bool, clocks: Clocks): set<Uuid> {
    set id | id in Occupants(table, line.Interval(), clocks.dbNow) && !Displaceable(table[id], canOverride, clocks.now)
  }

  function Displaced(table: Table, line: Line, canOverride: bool, clocks: Clocks): set<Uuid> {
    set id | id in Occupants(table, line.Interval(), clocks.dbNow) && Displaceable(table[id], canOverride, clocks.now)
  }

  function AllDisplaced(table: Table, lines: seq<Line>, canOverride: bool, clocks: Clocks): set<Uuid> {
    set id | id in table && OccupiesAny(table[id], lines, clocks.dbNow) && Displaceable(table[id], canOverride, clocks.now)
  }

  ghost predicate Unblocked(table: Table, lines: seq<Line>, canOverride: bool, clocks: Clocks) {
    forall l | l in lines :: Blockers(table, l, canOverride, clocks) == {}
  }

  function Generic(line: Line): Conflict {
    Conflict(line.Interval(), OccupancyConflict, None, NO_CONTACT)
  }

  /** A Ministry occupant shows its name and steward; a Rental booker is shown to a Non-priority Ministry only. */
  function ConflictWith(line: Line, row: OccupyingRow, context: Context, names: Directory): Conflict {
    match row.ministryId
    case Some(m) => Conflict(line.Interval(), MinistryConflict, names.ministryName(m), names.primarySteward(m))
    case None => Conflict(line.Interval(), OccupancyConflict, None, if context.isPriority then NO_CONTACT else names.booker(row.userId))
  }

  /** Conflicts of one line, given the rows of its blocking occupants in the order they were met. */
  function LineConflicts(line: Line, blockers: seq<OccupyingRow>, context: Option<Context>, names: Directory): seq<Conflict> {
    match context
    case None => if blockers == [] then [] else [Generic(line)]
    case Some(c) => seq(|blockers|, i requires 0 <= i < |blockers| => ConflictWith(line, blockers[i], c, names))
  }

  function AllConflicts(lines: seq<Line>, blockers: seq<seq<OccupyingRow>>, context: Option<Context>, names: Directory): seq<Conflict>
    requires |blockers| == |lines|
  {
    if lines == [] then []
    else
      var n := |lines| - 1;
      AllConflicts(lines[..n], blockers[..n], context, names) + LineConflicts(lines[n], blockers[n], context, names)
  }

  function RowsOf(table: Table, ids: set<Uuid>): set<OccupyingRow>
    requires ids <= table.Keys
  {
    set id | id in ids :: RowFor(table, id)
  }

  /** `blockers[k]` lists line `k`'s blocking Bookings once each. */
  ghost predicate AreBlockers(blockers: seq<seq<OccupyingRow>>, table: Table, lines: seq<Line>, canOverride: bool, clocks: Clocks) {
    && |blockers| == |lines|
    && forall k | 0 <= k < |lines| ::
        Distinct(blockers[k]) && AsSet(blockers[k]) == RowsOf(table, Blockers(table, lines[k], canOverride, clocks))
  }

  function ImpactOf(table: Table, id: Uuid): Impact
    requires id in table
  {
    var b := table[id];
    Impact(id, b.series.Some?, b.startAt, b.endAt, LiveSlotIntervals(b))
  }

  function OverlapRooms(table: Table, id: Uuid, lines: seq<Line>, dbNow: Instant): set<Uuid>
    requires id in table
  {
    set l | l in lines && Occupies(table[id], l.Interval(), dbNow) :: l.room
  }

  ghost predicate IsTargetOf(t: OverrideTarget, id: Uuid, table: Table, lines: seq<Line>, dbNow: Instant, zone: Zone) {
    && id in table
    && t.impact == ImpactOf(table, id)
    && t.booker == table[id].booker
    && t.occurrenceDate == zone.DateOf(table[id].startAt)
    && Distinct(t.overlappingRooms)
    && AsSet(t.overlappingRooms) == OverlapRooms(table, id, lines, dbNow)
  }

  function TargetIds(targets: seq<OverrideTarget>): (ids: seq<Uuid>)
    ensures |ids| == |targets|
  {
    seq(|targets|, i requires 0 <= i < |targets| => targets[i].impact.bookingId)
  }

  /** One complete target for each displaced Booking, and no other. */
  ghost predicate AreTargets(targets: seq<OverrideTarget>, table: Table, lines: seq<Line>, canOverride: bool, clocks: Clocks, zone: Zone) {
    && Distinct(TargetIds(targets))
    && AsSet(TargetIds(targets)) == AllDisplaced(table, lines, canOverride, clocks)
    && forall t | t in targets :: IsTargetOf(t, t.impact.bookingId, table, lines, clocks.dbNow, zone)
  }

  predicate GivesWay(row: OccupyingRow, canOverride: bool, now: Instant) {
    row.ministryId.None? && canOverride && row.startAt > now
  }

  function Ids(rows: seq<OccupyingRow>): set<Uuid> {
    set row | row in rows :: row.bookingId
  }

  /** The rows that do not give way, the first of each Booking. */
  function BlockersMet(rows: seq<OccupyingRow>, canOverride: bool, now: Instant): (met: seq<OccupyingRow>)
    ensures forall r | r in met :: r in rows && !GivesWay(r, canOverride, now)
  {
    if rows == [] then []
    else
      var n := |rows| - 1;
      var met := BlockersMet(rows[..n], canOverride, now);
      if GivesWay(rows[n], canOverride, now) || rows[n].bookingId in Ids(met) then met else met + [rows[n]]
  }

  function DisplacedMet(rows: seq<OccupyingRow>, canOverride: bool, now: Instant): set<Uuid> {
    set row | row in rows && GivesWay(row, canOverride, now) :: row.bookingId
  }

  lemma {:induction false} BlockersMetComplete(rows: seq<OccupyingRow>, canOverride: bool, now: Instant)
    ensures Distinct(BlockersMet(rows, canOverride, now))
    ensures forall r | r in rows && !GivesWay(r, canOverride, now) :: r.bookingId in Ids(BlockersMet(rows, canOverride, now))
  {
    if rows != [] {
      var n := |rows| - 1;
      BlockersMetComplete(rows[..n], canOverride, now);
      var met := BlockersMet(rows[..n], canOverride, now);
      assert Ids(met + [rows[n]]) == Ids(met) + {rows[n].bookingId};
      forall r | r in rows && !GivesWay(r, canOverride, now) ensures r.bookingId in Ids(BlockersMet(rows, canOverride, now)) {
        assert r in rows[..n] || r == rows[n];
      }
    }
  }

  /** On rows of the occupancy query, both collections are exactly the table's. */
  lemma MetIsTable(rows: seq<OccupyingRow>, table: Table, line: Line, canOverride: bool, clocks: Clocks)
    requires AreOccupyingRows(rows, table, line.Interval(), clocks.dbNow)
    ensures Distinct(BlockersMet(rows, canOverride, clocks.now))
    ensures AsSet(BlockersMet(rows, canOverride, clocks.now)) == RowsOf(table, Blockers(table, line, canOverride, clocks))
    ensures DisplacedMet(rows, canOverride, clocks.now) == Displaced(table, line, canOverride, clocks)
  {
    BlockersMetComplete(rows, canOverride, clocks.now);
    var met := BlockersMet(rows, canOverride, clocks.now);
    forall id | id in Blockers(table, line, canOverride, clocks) ensures RowFor(table, id) in met {
      assert RowFor(table, id) in rows;
      var r :| r in met && r.bookingId == id;
    }
    forall id | id in Displaced(table, line, canOverride, clocks) ensures id in DisplacedMet(rows, canOverride, clocks.now) {
      assert RowFor(table, id) in rows;
    }
  }

  /** `setdefault` on the target's rooms, then the line's room once. */
  method NoteTarget(order0: seq<Uuid>, rooms0: map<Uuid, seq<Uuid>>, id: Uuid, line: Line)
    returns (order: seq<Uuid>, rooms: map<Uuid, seq<Uuid>>)
    requires id in order0 <==> id in rooms0
    ensures order == if id in order0 then order0 else order0 + [id]
    ensures rooms == rooms0[id := RoomsAfter(rooms0, id, line, true)]
  {
    order, rooms := order0, rooms0;
    if id !in rooms {
      order := order + [id];
      rooms := rooms[id := []];
    }
    if line.room !in rooms[id] {
      rooms := rooms[id := rooms[id] + [line.room]];
    }
  }

  /** The targets in the order in which they were first seen. */
  function OrderMet(order: seq<Uuid>, rows: seq<OccupyingRow>, canOverride: bool, now: Instant): seq<Uuid> {
    if rows == [] then order
    else
      var n := |rows| - 1;
      var before := OrderMet(order, rows[..n], canOverride, now);
      if GivesWay(rows[n], canOverride, now) && rows[n].bookingId !in before then before + [rows[n].bookingId] else before
  }

  lemma OrderMetStep(order: seq<Uuid>, rows: seq<OccupyingRow>, i: nat, canOverride: bool, now: Instant)
    requires i < |rows|
    ensures var before := OrderMet(order, rows[..i], canOverride, now);
      OrderMet(order, rows[..i + 1], canOverride, now)
      == if GivesWay(rows[i], canOverride, now) && rows[i].bookingId !in before then before + [rows[i].bookingId] else before
  {
    assert rows[..i + 1][..i] == rows[..i];
  }

  /** The targets seen are those known before and those of the rows, each once. */
  lemma {:induction false} OrderMetComplete(order: seq<Uuid>, rows: seq<OccupyingRow>, canOverride: bool, now: Instant)
    requires Distinct(order)
    ensures Distinct(OrderMet(order, rows, canOverride, now))
    ensures AsSet(OrderMet(order, rows, canOverride, now)) == AsSet(order) + DisplacedMet(rows, canOverride, now)
  {
    if rows != [] {
      var n := |rows| - 1;
      OrderMetComplete(order, rows[..n], canOverride, now);
      DisplacedMetStep(rows, canOverride, now);
      var before := OrderMet(order, rows[..n], canOverride, now);
      if rows[n].bookingId !in before {
        AppendDistinct(before, rows[n].bookingId);
      }
    }
  }

  lemma {:induction false} OrderMetPrefix(order: seq<Uuid>, rows: seq<OccupyingRow>, canOverride: bool, now: Instant, n: nat)
    requires n <= |rows|
    ensures OrderMet(order, rows[..n], canOverride, now) <= OrderMet(order, rows, canOverride, now)
  {
    if n == |rows| {
      assert rows[..n] == rows;
    } else {
      var last := |rows| - 1;
      OrderMetPrefix(order, rows[..last], canOverride, now, n);
      assert rows[..last][..n] == rows[..n];
    }
  }

  /** First-seen order: what the first `n` rows gave stays in front, and it is exactly their targets after the known ones. */
  lemma FirstSeenOrder(order: seq<Uuid>, rows: seq<OccupyingRow>, canOverride: bool, now: Instant, n: nat)
    requires n <= |rows| && Distinct(order)
    ensures OrderMet(order, rows[..n], canOverride, now) <= OrderMet(order, rows, canOverride, now)
    ensures Distinct(OrderMet(order, rows, canOverride, now))
    ensures AsSet(OrderMet(order, rows[..n], canOverride, now)) == AsSet(order) + DisplacedMet(rows[..n], canOverride, now)
  {
    OrderMetPrefix(order, rows, canOverride, now, n);
    OrderMetComplete(order, rows, canOverride, now);
    OrderMetComplete(order, rows[..n], canOverride, now);
  }

  lemma OrderAndRoomsAgree(order: seq<Uuid>, rooms: map<Uuid, seq<Uuid>>, rows: seq<OccupyingRow>, line: Line, canOverride: bool, now: Instant)
    requires Distinct(order) && AsSet(order) == rooms.Keys
    ensures Distinct(OrderMet(order, rows, canOverride, now))
    ensures AsSet(OrderMet(order, rows, canOverride, now)) == RoomsMet(rooms, rows, line, canOverride, now).Keys
  {
    OrderMetComplete(order, rows, canOverride, now);
    RoomsMetIs(rooms, rows, line, canOverride, now);
  }

  lemma DisplacedMetStep(rows: seq<OccupyingRow>, canOverride: bool, now: Instant)
    requires rows != []
    ensures var n := |rows| - 1;
      DisplacedMet(rows, canOverride, now)
      == DisplacedMet(rows[..n], canOverride, now) + if GivesWay(rows[n], canOverride, now) then {rows[n].bookingId} else {}
  {
    assert rows == rows[..|rows| - 1] + [rows[|rows| - 1]];
  }

  /** The rooms of every target after some of a line's rows. */
  function RoomsMet(rooms: map<Uuid, seq<Uuid>>, rows: seq<OccupyingRow>, line: Line, canOverride: bool, now: Instant): map<Uuid, seq<Uuid>> {
    if rows == [] then rooms
    else
      var n := |rows| - 1;
      var before := RoomsMet(rooms, rows[..n], line, canOverride, now);
      if GivesWay(rows[n], canOverride, now)
      then before[rows[n].bookingId := RoomsAfter(before, rows[n].bookingId, line, true)]
      else before
  }

  lemma {:induction false} RoomsMetIs(rooms: map<Uuid, seq<Uuid>>, rows: seq<OccupyingRow>, line: Line, canOverride: bool, now: Instant)
    ensures var after := RoomsMet(rooms, rows, line, canOverride, now);
      && after.Keys == rooms.Keys + DisplacedMet(rows, canOverride, now)
      && forall id | id in after :: after[id] == RoomsAfter(rooms, id, line, id in DisplacedMet(rows, canOverride, now))
  {
    if rows != [] {
      var n := |rows| - 1;
      RoomsMetIs(rooms, rows[..n], line, canOverride, now);
      DisplacedMetStep(rows, canOverride, now);
    }
  }

  lemma BlockersMetStep(rows: seq<OccupyingRow>, i: nat, canOverride: bool, now: Instant)
    requires i < |rows|
    ensures var met := BlockersMet(rows[..i], canOverride, now);
      BlockersMet(rows[..i + 1], canOverride, now)
      == if GivesWay(rows[i], canOverride, now) || rows[i].bookingId in Ids(met) then met else met + [rows[i]]
  {
    assert rows[..i + 1][..i] == rows[..i];
  }

  lemma RoomsMetStep(rooms: map<Uuid, seq<Uuid>>, rows: seq<OccupyingRow>, i: nat, line: Line, canOverride: bool, now: Instant)
    requires i < |rows|
    ensures var before := RoomsMet(rooms, rows[..i], line, canOverride, now);
      RoomsMet(rooms, rows[..i + 1], line, canOverride, now)
      == if GivesWay(rows[i], canOverride, now) then before[rows[i].bookingId := RoomsAfter(before, rows[i].bookingId, line, true)] else before
  {
    assert rows[..i + 1][..i] == rows[..i];
  }

  lemma MetAppend(line: Line, met: seq<OccupyingRow>, row: OccupyingRow, context: Context, names: Directory)
    ensures Ids(met + [row]) == Ids(met) + {row.bookingId}
    ensures LineConflicts(line, met + [row], Some(context), names)
         == LineConflicts(line, met, Some(context), names) + [ConflictWith(line, row, context, names)]
  {
  }

  /** The conflicts collected from the blocking rows met so far: one each, or just a flag for a Personal caller. */
  ghost predicate ConflictsMet(met: seq<OccupyingRow>, seen: set<Uuid>, blocked: bool, conflicts: seq<Conflict>, line: Line,
                               context: Option<Context>, names: Directory) {
    match context
    case None => conflicts == [] && (blocked <==> met != [])
    case Some(_) => !blocked && seen == Ids(met) && conflicts == LineConflicts(line, met, context, names)
  }

  /** A row that does not give way blocks its line, once for its Booking. */
  method ScanBlocker(line: Line, row: OccupyingRow, context: Option<Context>, names: Directory, seen0: set<Uuid>, blocked0: bool,
                     conflicts0: seq<Conflict>, ghost met: seq<OccupyingRow>)
    returns (seen: set<Uuid>, blocked: bool, conflicts: seq<Conflict>)
    requires ConflictsMet(met, seen0, blocked0, conflicts0, line, context, names)
    ensures ConflictsMet(if row.bookingId in Ids(met) then met else met + [row], seen, blocked, conflicts, line, context, names)
  {
    seen, blocked, conflicts := seen0, blocked0, conflicts0;
    if context.None? {
      blocked := true;
      return;
    }
    if row.bookingId in seen {
      return;
    }
    MetAppend(line, met, row, context.value, names);
    seen := seen + {row.bookingId};
    conflicts := conflicts + [ConflictWith(line, row, context.value, names)];
  }

  /** Row by row: targets with their rooms, conflicts, and whether a Personal caller is blocked. */
  method ScanRows(line: Line, rows: seq<OccupyingRow>, canOverride: bool, context: Option<Context>, now: Instant, names: Directory,
                  order0: seq<Uuid>, rooms0: map<Uuid, seq<Uuid>>)
    returns (order: seq<Uuid>, rooms: map<Uuid, seq<Uuid>>, seen: set<Uuid>, blocked: bool, conflicts: seq<Conflict>)
    requires Distinct(order0) && AsSet(order0) == rooms0.Keys
    ensures TargetsScanned(order, rooms, order0, rooms0, rows, line, canOverride, now)
    ensures ConflictsMet(BlockersMet(rows, canOverride, now), seen, blocked, conflicts, line, context, names)
  {
    order, rooms, seen, blocked, conflicts := order0, rooms0, {}, false, [];
    for i := 0 to |rows|
      invariant TargetsScanned(order, rooms, order0, rooms0, rows[..i], line, canOverride, now)
      invariant ConflictsMet(BlockersMet(rows[..i], canOverride, now), seen, blocked, conflicts, line, context, names)
    {
      var row := rows[i];
      BlockersMetStep(rows, i, canOverride, now);
      if row.ministryId.None? && canOverride && row.startAt > now {
        order, rooms := ScanTarget(line, rows, i, canOverride, now, order, rooms, order0, rooms0);
      } else {
        TargetSkipped(order0, rooms0, rows, i, line, canOverride, now);
        seen, blocked, conflicts := ScanBlocker(line, row, context, names, seen, blocked, conflicts, BlockersMet(rows[..i], canOverride, now));
      }
    }
    assert rows[..|rows|] == rows;
  }

  /** Scan one line's rows: new targets in first-seen order, their rooms, and the conflicts. */
  method ScanLine(line: Line, rows: seq<OccupyingRow>, canOverride: bool, context: Option<Context>, now: Instant, names: Directory,
                  order0: seq<Uuid>, rooms0: map<Uuid, seq<Uuid>>)
    returns (order: seq<Uuid>, rooms: map<Uuid, seq<Uuid>>, conflicts: seq<Conflict>)
    requires Distinct(order0) && AsSet(order0) == rooms0.Keys
    ensures Distinct(order) && AsSet(order) == rooms.Keys
    ensures order == OrderMet(order0, rows, canOverride, now)
    ensures rooms == RoomsMet(rooms0, rows, line, canOverride, now)
    ensures conflicts == LineConflicts(line, BlockersMet(rows, canOverride, now), context, names)
  {
    var seen, blocked;
    order, rooms, seen, blocked, conflicts := ScanRows(line, rows, canOverride, context, now, names, order0, rooms0);
    OrderAndRoomsAgree(order0, rooms0, rows, line, canOverride, now);
    if blocked {
      conflicts := conflicts + [Generic(line)];
    }
  }

  ghost predicate TargetsScanned(order: seq<Uuid>, rooms: map<Uuid, seq<Uuid>>, order0: seq<Uuid>, rooms0: map<Uuid, seq<Uuid>>, rows: seq<OccupyingRow>,
                                 line: Line, canOverride: bool, now: Instant) {
    order == OrderMet(order0, rows, canOverride, now) && rooms == RoomsMet(rooms0, rows, line, canOverride, now)
  }

  lemma TargetScanned(order0: seq<Uuid>, rooms0: map<Uuid, seq<Uuid>>, rows: seq<OccupyingRow>, i: nat, line: Line, canOverride: bool, now: Instant)
    requires i < |rows| && GivesWay(rows[i], canOverride, now)
    ensures var order, rooms := OrderMet(order0, rows[..i], canOverride, now), RoomsMet(rooms0, rows[..i], line, canOverride, now);
      TargetsScanned(if rows[i].bookingId in order then order else order + [rows[i].bookingId],
                     rooms[rows[i].bookingId := RoomsAfter(rooms, rows[i].bookingId, line, true)], order0, rooms0, rows[..i + 1], line, canOverride, now)
  {
    OrderMetStep(order0, rows, i, canOverride, now);
    RoomsMetStep(rooms0, rows, i, line, canOverride, now);
  }

  /** A row that gives way is a target, first seen now or known already. */
  method ScanTarget(line: Line, rows: seq<OccupyingRow>, i: nat, canOverride: bool, now: Instant, order: seq<Uuid>, rooms: map<Uuid, seq<Uuid>>,
                    ghost order0: seq<Uuid>, ghost rooms0: map<Uuid, seq<Uuid>>)
    returns (order': seq<Uuid>, rooms': map<Uuid, seq<Uuid>>)
    requires Distinct(order0) && AsSet(order0) == rooms0.Keys && i < |rows| && GivesWay(rows[i], canOverride, now)
    requires TargetsScanned(order, rooms, order0, rooms0, rows[..i], line, canOverride, now)
    ensures TargetsScanned(order', rooms', order0, rooms0, rows[..i + 1], line, canOverride, now)
  {
    KnownTarget(order0, rooms0, rows[..i], line, canOverride, now, rows[i].bookingId);
    TargetScanned(order0, rooms0, rows, i, line, canOverride, now);
    order', rooms' := NoteTarget(order, rooms, rows[i].bookingId, line);
  }

  lemma TargetSkipped(order0: seq<Uuid>, rooms0: map<Uuid, seq<Uuid>>, rows: seq<OccupyingRow>, i: nat, line: Line, canOverride: bool, now: Instant)
    requires i < |rows| && !GivesWay(rows[i], canOverride, now)
    ensures TargetsScanned(OrderMet(order0, rows[..i], canOverride, now), RoomsMet(rooms0, rows[..i], line, canOverride, now),
                           order0, rooms0, rows[..i + 1], line, canOverride, now)
  {
    OrderMetStep(order0, rows, i, canOverride, now);
    RoomsMetStep(rooms0, rows, i, line, canOverride, now);
  }

  lemma KnownTarget(order: seq<Uuid>, rooms: map<Uuid, seq<Uuid>>, rows: seq<OccupyingRow>, line: Line, canOverride: bool, now: Instant, id: Uuid)
    requires Distinct(order) && AsSet(order) == rooms.Keys
    ensures id in OrderMet(order, rows, canOverride, now) <==> id in RoomsMet(rooms, rows, line, canOverride, now)
  {
    OrderAndRoomsAgree(order, rooms, rows, line, canOverride, now);
    assert id in OrderMet(order, rows, canOverride, now) <==> id in AsSet(OrderMet(order, rows, canOverride, now));
  }

  function RoomsAfter(rooms: map<Uuid, seq<Uuid>>, id: Uuid, line: Line, displaced: bool): seq<Uuid> {
    var before := if id in rooms then rooms[id] else [];
    if displaced && line.room !in before then before + [line.room] else before
  }

  /** One more line, with whatever rows the query gave for it. */
  lemma ScannedOneMore(table: Table, lines: seq<Line>, k: nat, rows: seq<OccupyingRow>, canOverride: bool, context: Option<Context>, clocks: Clocks,
                       names: Directory, rooms: map<Uuid, seq<Uuid>>, blockers: seq<seq<OccupyingRow>>)
    requires k < |lines| && AreOccupyingRows(rows, table, lines[k].Interval(), clocks.dbNow)
    requires AreRooms(rooms, table, lines[..k], canOverride, clocks) && AreBlockers(blockers, table, lines[..k], canOverride, clocks)
    ensures AreRooms(RoomsMet(rooms, rows, lines[k], canOverride, clocks.now), table, lines[..k + 1], canOverride, clocks)
    ensures var met := BlockersMet(rows, canOverride, clocks.now);
      && AreBlockers(blockers + [met], table, lines[..k + 1], canOverride, clocks)
      && AllConflicts(lines[..k + 1], blockers + [met], context, names) == AllConflicts(lines[..k], blockers, context, names) + LineConflicts(lines[k], met, context, names)
  {
    var line, met := lines[k], BlockersMet(rows, canOverride, clocks.now);
    MetIsTable(rows, table, line, canOverride, clocks);
    RoomsMetIs(rooms, rows, line, canOverride, clocks.now);
    assert lines[..k + 1] == lines[..k] + [line];
    ExtendRooms(table, lines[..k], line, canOverride, clocks, rooms, RoomsMet(rooms, rows, line, canOverride, clocks.now));
    ExtendBlockers(blockers, met, table, lines[..k], line, canOverride, clocks);
    ExtendConflicts(lines[..k], line, blockers, met, context, names);
  }

  /** Scan every line in order, folding the targets found so far. */
  method ScanLines(db: Database, lines: seq<Line>, context: Option<Context>, clocks: Clocks, names: Directory, canOverride: bool)
    returns (order: seq<Uuid>, rooms: map<Uuid, seq<Uuid>>, conflicts: seq<Conflict>, ghost blockers: seq<seq<OccupyingRow>>)
    ensures Distinct(order) && AsSet(order) == rooms.Keys
    ensures AreRooms(rooms, db.bookings, lines, canOverride, clocks)
    ensures AreBlockers(blockers, db.bookings, lines, canOverride, clocks)
    ensures conflicts == AllConflicts(lines, blockers, context, names)
  {
    order, rooms, conflicts, blockers := [], map[], [], [];
    for k := 0 to |lines|
      invariant Distinct(order) && AsSet(order) == rooms.Keys
      invariant AreRooms(rooms, db.bookings, lines[..k], canOverride, clocks)
      invariant AreBlockers(blockers, db.bookings, lines[..k], canOverride, clocks)
      invariant conflicts == AllConflicts(lines[..k], blockers, context, names)
    {
      var line := lines[k];
      var rows := db.ListOccupyingSlots(line.Interval(), clocks.dbNow);
      ghost var met := BlockersMet(rows, canOverride, clocks.now);
      ScannedOneMore(db.bookings, lines, k, rows, canOverride, context, clocks, names, rooms, blockers);
      var found: seq<Conflict>;
      order, rooms, found := ScanLine(line, rows, canOverride, context, clocks.now, names, order, rooms);
      conflicts := conflicts + found;
      blockers := blockers + [met];
    }
    assert lines[..|lines|] == lines;
  }

  /** Classify every occupant of every line; nothing is written. */
  method EvaluateOneTimeOccupancy(db: Database, lines: seq<Line>, context: Option<Context>, clocks: Clocks, zone: Zone, names: Directory,
                                  allowOverride: bool)
    returns (evaluation: Evaluation, ghost blockers: seq<seq<OccupyingRow>>)
    ensures AreBlockers(blockers, db.bookings, lines, CanOverride(context, allowOverride), clocks)
    ensures evaluation.conflicts == AllConflicts(lines, blockers, context, names)
    ensures AreTargets(evaluation.targets, db.bookings, lines, CanOverride(context, allowOverride), clocks, zone)
    ensures forall t | t in evaluation.targets :: Describes(t.impact, db.bookings)
  {
    var order, rooms, conflicts;
    order, rooms, conflicts, blockers := ScanLines(db, lines, context, clocks, names, CanOverride(context, allowOverride));
    var targets: seq<OverrideTarget> := [];
    for i := 0 to |order|
      invariant |targets| == i
      invariant forall j | 0 <= j < i ::
          targets[j].impact.bookingId == order[j] && IsTargetOf(targets[j], order[j], db.bookings, lines, clocks.dbNow, zone)
    {
      var id := order[i];
      assert id in AsSet(order);
      var b := db.bookings[id];
      targets := targets + [OverrideTarget(ImpactOf(db.bookings, id), b.booker, zone.DateOf(b.startAt), rooms[id])];
    }
    assert TargetIds(targets) == order;
    evaluation := Evaluation(conflicts, targets);
    TargetsDescribe(targets, db.bookings, lines, CanOverride(context, allowOverride), clocks, zone);
  }

  /** The targets found so far, each with the rooms where it overlaps. */
  ghost predicate AreRooms(rooms: map<Uuid, seq<Uuid>>, table: Table, lines: seq<Line>, canOverride: bool, clocks: Clocks) {
    && rooms.Keys == AllDisplaced(table, lines, canOverride, clocks)
    && forall id | id in rooms :: Distinct(rooms[id]) && AsSet(rooms[id]) == OverlapRooms(table, id, lines, clocks.dbNow)
  }

  lemma ExtendConflicts(lines: seq<Line>, line: Line, blockers: seq<seq<OccupyingRow>>, met: seq<OccupyingRow>,
                        context: Option<Context>, names: Directory)
    requires |blockers| == |lines|
    ensures AllConflicts(lines + [line], blockers + [met], context, names)
         == AllConflicts(lines, blockers, context, names) + LineConflicts(line, met, context, names)
  {
  }

  lemma ExtendBlockers(blockers: seq<seq<OccupyingRow>>, met: seq<OccupyingRow>, table: Table, lines: seq<Line>, line: Line, canOverride: bool, clocks: Clocks)
    requires AreBlockers(blockers, table, lines, canOverride, clocks)
    requires Distinct(met) && AsSet(met) == RowsOf(table, Blockers(table, line, canOverride, clocks))
    ensures AreBlockers(blockers + [met], table, lines + [line], canOverride, clocks)
  {
  }

  lemma ExtendRoomsOf(table: Table, id: Uuid, lines: seq<Line>, line: Line, dbNow: Instant, known: bool, rooms: seq<Uuid>, displaced: bool)
    requires id in table && Distinct(rooms)
    requires if known then AsSet(rooms) == OverlapRooms(table, id, lines, dbNow) else rooms == [] && OverlapRooms(table, id, lines, dbNow) == {}
    requires displaced <==> Occupies(table[id], line.Interval(), dbNow)
    ensures var after := if displaced && line.room !in rooms then rooms + [line.room] else rooms;
      Distinct(after) && AsSet(after) == OverlapRooms(table, id, lines + [line], dbNow)
  {
    OverlapRoomsAppend(table, id, lines, line, dbNow);
    if line.room !in rooms {
      AppendDistinct(rooms, line.room);
    }
  }

  lemma AllDisplacedAppend(table: Table, lines: seq<Line>, line: Line, canOverride: bool, clocks: Clocks)
    ensures AllDisplaced(table, lines + [line], canOverride, clocks) == AllDisplaced(table, lines, canOverride, clocks) + Displaced(table, line, canOverride, clocks)
  {
    forall id | id in table
      ensures OccupiesAny(table[id], lines + [line], clocks.dbNow)
         <==> OccupiesAny(table[id], lines, clocks.dbNow) || Occupies(table[id], line.Interval(), clocks.dbNow)
    {
      MeetsAppend(table[id], lines, line);
    }
  }

  lemma ExtendRooms(table: Table, lines: seq<Line>, line: Line, canOverride: bool, clocks: Clocks,
                      before: map<Uuid, seq<Uuid>>, after: map<Uuid, seq<Uuid>>)
    requires AreRooms(before, table, lines, canOverride, clocks)
    requires after.Keys == before.Keys + Displaced(table, line, canOverride, clocks)
    requires forall id | id in after :: after[id] == RoomsAfter(before, id, line, id in Displaced(table, line, canOverride, clocks))
    ensures AreRooms(after, table, lines + [line], canOverride, clocks)
  {
    AllDisplacedAppend(table, lines, line, canOverride, clocks);
    forall id | id in after
      ensures Distinct(after[id]) && AsSet(after[id]) == OverlapRooms(table, id, lines + [line], clocks.dbNow)
    {
      ExtendRoomsOf(table, id, lines, line, clocks.dbNow, id in before, if id in before then before[id] else [],
                    id in Displaced(table, line, canOverride, clocks));
    }
  }

  lemma MeetsAppend(b: Booking, lines: seq<Line>, line: Line)
    ensures MeetsAny(b, lines + [line]) <==> MeetsAny(b, lines) || HoldsConfirmedSlot(b, line.Interval())
  {
  }

  lemma OverlapRoomsAppend(table: Table, id: Uuid, lines: seq<Line>, line: Line, dbNow: Instant)
    requires id in table
    ensures OverlapRooms(table, id, lines + [line], dbNow)
         == OverlapRooms(table, id, lines, dbNow) + if Occupies(table[id], line.Interval(), dbNow) then {line.room} else {}
  {
  }

  // ----- What an evaluation tells its caller

  lemma {:induction false} NoConflictIffNoBlocker(lines: seq<Line>, blockers: seq<seq<OccupyingRow>>, context: Option<Context>, names: Directory)
    requires |blockers| == |lines|
    ensures AllConflicts(lines, blockers, context, names) == [] <==> forall k | 0 <= k < |lines| :: blockers[k] == []
  {
    if lines != [] {
      var n := |lines| - 1;
      NoConflictIffNoBlocker(lines[..n], blockers[..n], context, names);
    }
  }

  lemma NoConflictIffUnblocked(table: Table, lines: seq<Line>, blockers: seq<seq<OccupyingRow>>, context: Option<Context>,
                               names: Directory, canOverride: bool, clocks: Clocks)
    requires AreBlockers(blockers, table, lines, canOverride, clocks)
    ensures AllConflicts(lines, blockers, context, names) == [] <==> Unblocked(table, lines, canOverride, clocks)
  {
    NoConflictIffNoBlocker(lines, blockers, context, names);
    forall k | 0 <= k < |lines| ensures blockers[k] == [] <==> Blockers(table, lines[k], canOverride, clocks) == {} {
      if blockers[k] != [] {
        assert blockers[k][0] in AsSet(blockers[k]);
      }
      if id :| id in Blockers(table, lines[k], canOverride, clocks) {
        assert RowFor(table, id) in AsSet(blockers[k]);
      }
    }
  }

  /** An unblocked proposal meets no active Booking except the ones it displaces, now or later. */
  lemma UnblockedMeetsOnlyDisplaced(table: Table, lines: seq<Line>, canOverride: bool, clocks: Clocks, at: Instant)
    requires Unblocked(table, lines, canOverride, clocks) && clocks.dbNow <= at
    ensures forall id | id in table && id !in AllDisplaced(table, lines, canOverride, clocks) :: !OccupiesAny(table[id], lines, at)
  {
    forall id | id in table && OccupiesAny(table[id], lines, at) ensures id in AllDisplaced(table, lines, canOverride, clocks) {
      ActiveShrinks(table[id], clocks.dbNow, at);
      var l :| l in lines && HoldsConfirmedSlot(table[id], l.Interval());
      assert id !in Blockers(table, l, canOverride, clocks);
    }
  }

  /** Ministry Bookings, started Bookings, and Bookings away from every line are never displaced. */
  lemma DisplacedAreEligible(table: Table, lines: seq<Line>, context: Option<Context>, allowOverride: bool, clocks: Clocks, id: Uuid)
    requires id in AllDisplaced(table, lines, CanOverride(context, allowOverride), clocks)
    ensures id in table && table[id].ministry.None? && table[id].startAt > clocks.now
    ensures Active(table[id], clocks.dbNow) && MeetsAny(table[id], lines)
    ensures allowOverride && context.Some? && context.value.isPriority
  {
  }

  /** A Personal caller learns only which lines are taken: no name, contact or Ministry, and each blocked line once. */
  lemma {:induction false} PersonalConflictsAreGeneric(lines: seq<Line>, blockers: seq<seq<OccupyingRow>>, names: Directory, c: Conflict)
    requires |blockers| == |lines|
    ensures c in AllConflicts(lines, blockers, None, names) <==> exists k :: 0 <= k < |lines| && blockers[k] != [] && TellsNothing(c, lines[k])
    ensures |AllConflicts(lines, blockers, None, names)| <= |lines|
  {
    if lines != [] {
      var n := |lines| - 1;
      PersonalConflictsAreGeneric(lines[..n], blockers[..n], names, c);
      if k :| 0 <= k < |lines| && blockers[k] != [] && TellsNothing(c, lines[k]) && k < n {
        assert blockers[..n][k] != [] && TellsNothing(c, lines[..n][k]);
      }
      if k :| 0 <= k < n && blockers[..n][k] != [] && TellsNothing(c, lines[..n][k]) {
        assert blockers[k] != [] && TellsNothing(c, lines[k]);
      }
    }
  }

  predicate TellsNothing(c: Conflict, line: Line) {
    c.interval == RoomInterval(line.room, line.startAt, line.endAt) && c.kind.OccupancyConflict? && c.ministryName.None? && c.contact == Contact(None, None)
  }

  // ----- The same, read off the booking rows and the clock

  /** An impact holds its Booking's header times and series flag, and every confirmed interval, by start and room. */
  ghost predicate Describes(i: Impact, table: Table) {
    && i.bookingId in table
    && var b := table[i.bookingId];
    && i.startAt == b.startAt && i.endAt == b.endAt && (i.isSeriesOccurrence <==> b.series.Some?)
    && (forall x :: multiset(i.released)[x] == multiset(b.slots)[Slot(x, true)])
    && InStartOrder(i.released)
  }

  predicate InStartOrder(intervals: seq<RoomInterval>) {
    forall i, j | 0 <= i < j < |intervals| ::
      intervals[i].startAt < intervals[j].startAt || (intervals[i].startAt == intervals[j].startAt && intervals[i].room <= intervals[j].room)
  }

  lemma ImpactDescribes(table: Table, id: Uuid)
    requires id in table
    ensures Describes(ImpactOf(table, id), table)
  {
    LiveSlotIntervalsListed(table[id]);
  }

  lemma TargetsDescribe(targets: seq<OverrideTarget>, table: Table, lines: seq<Line>, canOverride: bool, clocks: Clocks, zone: Zone)
    requires AreTargets(targets, table, lines, canOverride, clocks, zone)
    ensures forall t | t in targets :: Describes(t.impact, table)
  {
    forall t | t in targets ensures Describes(t.impact, table) {
      assert IsTargetOf(t, t.impact.bookingId, table, lines, clocks.dbNow, zone);
      ImpactDescribes(table, t.impact.bookingId);
    }
  }

  /** A context exists exactly for a current steward of an Active Ministry, and carries that Ministry's priority. */
  lemma ContextIffSteward(ministries: map<Uuid, Ministry>, id: Uuid, user: Uuid)
    ensures LoadMinistryProposalContext(ministries, id, user).Some?
       <==> id in ministries && ministries[id].active && user in ministries[id].stewards
    ensures LoadMinistryProposalContext(ministries, id, user).Some? ==>
       LoadMinistryProposalContext(ministries, id, user).value == Context(id, ministries[id].priority)
  {
  }

  /** An active Booking that holds a line's room at some instant of it and does not give way to this caller. */
  ghost predicate BlockedAt(table: Table, lines: seq<Line>, canOverride: bool, clocks: Clocks) {
    exists l, id, t ::
      && l in lines && l.Interval().Holds(t)
      && id in table && Active(table[id], clocks.dbNow) && HoldsAt(table[id], l.room, t)
      && (table[id].ministry.Some? || !canOverride || table[id].startAt <= clocks.now)
  }

  lemma BlockedIffHeld(table: Table, lines: seq<Line>, canOverride: bool, clocks: Clocks)
    requires AllPositive(table) && forall l | l in lines :: l.Interval().Positive()
    ensures !Unblocked(table, lines, canOverride, clocks) <==> BlockedAt(table, lines, canOverride, clocks)
  {
    if !Unblocked(table, lines, canOverride, clocks) {
      var l :| l in lines && Blockers(table, l, canOverride, clocks) != {};
      var id :| id in Blockers(table, l, canOverride, clocks);
      MeetsIffHoldsAt(table[id], l.Interval());
      var t :| l.Interval().Holds(t) && HoldsAt(table[id], l.room, t);
    }
    if l, id, t :| && l in lines && l.Interval().Holds(t) && id in table && Active(table[id], clocks.dbNow) && HoldsAt(table[id], l.room, t)
                   && (table[id].ministry.Some? || !canOverride || table[id].startAt <= clocks.now) {
      MeetsIffHoldsAt(table[id], l.Interval());
      assert id in Blockers(table, l, canOverride, clocks);
    }
  }

  /** The displaced Bookings: active, Non-ministry, starting after now, and holding a line's room at some instant of it. */
  lemma DisplacedIffHeld(table: Table, lines: seq<Line>, canOverride: bool, clocks: Clocks, id: Uuid)
    requires AllPositive(table) && forall l | l in lines :: l.Interval().Positive()
    ensures id in AllDisplaced(table, lines, canOverride, clocks)
       <==> && id in table && canOverride && Active(table[id], clocks.dbNow)
            && table[id].ministry.None? && clocks.now < table[id].startAt
            && exists l, t :: l in lines && l.Interval().Holds(t) && HoldsAt(table[id], l.room, t)
  {
    if id in table {
      forall l | l in lines
        ensures HoldsConfirmedSlot(table[id], l.Interval()) <==> exists t :: l.Interval().Holds(t) && HoldsAt(table[id], l.room, t)
      {
        MeetsIffHoldsAt(table[id], l.Interval());
      }
    }
  }

  /** A line that only touches the active slots of its room has no occupant at all. */
  lemma TouchingLineIsFree(table: Table, line: Line, canOverride: bool, clocks: Clocks)
    requires forall id, s | id in table && Active(table[id], clocks.dbNow) && s in table[id].slots && s.confirmed && s.interval.room == line.room ::
               s.interval.endAt <= line.startAt || line.endAt <= s.interval.startAt
    ensures Blockers(table, line, canOverride, clocks) == {} && Displaced(table, line, canOverride, clocks) == {}
  {
  }

  /** The audited rooms of a target: those of the lines at whose instants it holds the line's room. */
  lemma OverlapRoomsHeld(table: Table, id: Uuid, lines: seq<Line>, dbNow: Instant, room: Uuid)
    requires id in table && PositiveSlots(table[id]) && forall l | l in lines :: l.Interval().Positive()
    ensures room in OverlapRooms(table, id, lines, dbNow)
       <==> Active(table[id], dbNow) && exists l, t :: l in lines && l.room == room && l.Interval().Holds(t) && HoldsAt(table[id], room, t)
  {
    forall l | l in lines
      ensures HoldsConfirmedSlot(table[id], l.Interval()) <==> exists t :: l.Interval().Holds(t) && HoldsAt(table[id], l.room, t)
    {
      MeetsIffHoldsAt(table[id], l.Interval());
    }
  }

  // ----- What conflicts tell a Ministry caller

  /** A Ministry occupant is named with its steward; a Rental booker is shown to a Non-priority Ministry and hidden from a Priority one. */
  ghost predicate Tells(c: Conflict, line: Line, row: OccupyingRow, context: Context, names: Directory) {
    && c.interval == RoomInterval(line.room, line.startAt, line.endAt)
    && (row.ministryId.Some? ==> c.kind.MinistryConflict? && c.ministryName == names.ministryName(row.ministryId.value)
                                 && c.contact == names.primarySteward(row.ministryId.value))
    && (row.ministryId.None? ==> c.kind.OccupancyConflict? && c.ministryName.None?
                                 && c.contact == if context.isPriority then Contact(None, None) else names.booker(row.userId))
  }

  lemma {:induction false} ConflictsTell(lines: seq<Line>, blockers: seq<seq<OccupyingRow>>, context: Context, names: Directory, c: Conflict)
    requires |blockers| == |lines|
    ensures c in AllConflicts(lines, blockers, Some(context), names)
       <==> exists k, row :: 0 <= k < |lines| && row in blockers[k] && Tells(c, lines[k], row, context, names)
  {
    if lines != [] {
      var n := |lines| - 1;
      ConflictsTell(lines[..n], blockers[..n], context, names, c);
      LineConflictsTell(lines[n], blockers[n], context, names, c);
      if k, row :| 0 <= k < |lines| && row in blockers[k] && Tells(c, lines[k], row, context, names) && k < n {
        assert row in blockers[..n][k] && Tells(c, lines[..n][k], row, context, names);
      }
      if k, row :| 0 <= k < n && row in blockers[..n][k] && Tells(c, lines[..n][k], row, context, names) {
        assert row in blockers[k] && Tells(c, lines[k], row, context, names);
      }
    }
  }

  lemma LineConflictsTell(line: Line, blockers: seq<OccupyingRow>, context: Context, names: Directory, c: Conflict)
    ensures c in LineConflicts(line, blockers, Some(context), names) <==> exists row :: row in blockers && Tells(c, line, row, context, names)
  {
    var conflicts := LineConflicts(line, blockers, Some(context), names);
    forall i | 0 <= i < |blockers| ensures Tells(conflicts[i], line, blockers[i], context, names) && blockers[i] in blockers {
    }
    if row :| row in blockers && Tells(c, line, row, context, names) {
      var i :| 0 <= i < |blockers| && blockers[i] == row;
      assert conflicts[i] == c;
    }
  }
}
