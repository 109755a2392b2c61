/** Whole-Booking displacement: each target overridden once, one audit row per overlapping room. */
module PriorityOverride {
  import opened FacilityTypes
  import opened Sequences
  import opened Bookings
  import opened FacilityDatabase
  import opened OneTimeOverride

  /** The new Booking and a target that it displaces. */
  datatype Replacement = Replacement(booking: Uuid, target: OverrideTarget) {
    function Id(): Uuid {
      target.impact.bookingId
    }
  }

  function ReplacedIds(replacements: seq<Replacement>): set<Uuid> {
    set r | r in replacements :: r.Id()
  }

  /** The rooms of the released intervals, each once, in order. */
  function RoomsOnce(intervals: seq<RoomInterval>): (rooms: seq<Uuid>)
    ensures Distinct(rooms)
    ensures AsSet(rooms) == set x | x in intervals :: x.room
  {
    if intervals == [] then []
    else
      var n := |intervals| - 1;
      var before := RoomsOnce(intervals[..n]);
      assert intervals == intervals[..n] + [intervals[n]];
      if intervals[n].room in before then before
      else
        AppendDistinct(before, intervals[n].room);
        before + [intervals[n].room]
  }

  function ItemFor(r: Replacement): DisplacedItem {
    DisplacedItem(r.Id(), r.target.booker, r.target.occurrenceDate, RoomsOnce(r.target.impact.released), r.booking)
  }

  function RoomRows(r: Replacement, operator: Uuid): (rows: seq<OverrideLogRow>)
    ensures |rows| == |r.target.overlappingRooms|
  {
    seq(|r.target.overlappingRooms|, i requires 0 <= i < |r.target.overlappingRooms| =>
      OverrideLogRow(r.booking, r.Id(), operator, r.target.overlappingRooms[i]))
  }

  function AuditRows(replacements: seq<Replacement>, operator: Uuid): seq<OverrideLogRow> {
    if replacements == [] then []
    else
      var n := |replacements| - 1;
      AuditRows(replacements[..n], operator) + RoomRows(replacements[n], operator)
  }

  /** One item for the first replacement of each Booking. */
  function Items(replacements: seq<Replacement>): seq<DisplacedItem> {
    if replacements == [] then []
    else
      var n := |replacements| - 1;
      var before := Items(replacements[..n]);
      if replacements[n].Id() in ReplacedIds(replacements[..n]) then before else before + [ItemFor(replacements[n])]
  }

  lemma OverrideOneMore(table: Table, ids: set<Uuid>, id: Uuid)
    requires id !in ids
    ensures OverrideAll(OverrideAll(table, ids), {id}) == OverrideAll(table, ids + {id})
  {
  }

  lemma ReplacementStep(replacements: seq<Replacement>, i: nat, operator: Uuid)
    requires i < |replacements|
    ensures ReplacedIds(replacements[..i + 1]) == ReplacedIds(replacements[..i]) + {replacements[i].Id()}
    ensures AuditRows(replacements[..i + 1], operator) == AuditRows(replacements[..i], operator) + RoomRows(replacements[i], operator)
    ensures Items(replacements[..i + 1])
         == if replacements[i].Id() in ReplacedIds(replacements[..i]) then Items(replacements[..i])
            else Items(replacements[..i]) + [ItemFor(replacements[i])]
  {
    assert replacements[..i + 1][..i] == replacements[..i];
    assert replacements[..i + 1] == replacements[..i] + [replacements[i]];
  }

  method AppendRoomRows(rows: seq<OverrideLogRow>, r: Replacement, operator: Uuid) returns (more: seq<OverrideLogRow>)
    ensures more == rows + RoomRows(r, operator)
  {
    more := rows;
    for j := 0 to |r.target.overlappingRooms|
      invariant more == rows + RoomRows(r, operator)[..j]
    {
      more := more + [OverrideLogRow(r.booking, r.Id(), operator, r.target.overlappingRooms[j])];
    }
  }

  method ApplyWholeBookingOverrides(db: Database, replacements: seq<Replacement>, operator: Uuid) returns (items: seq<DisplacedItem>)
    modifies db`bookings, db`overrideLog
    ensures db.bookings == OverrideAll(old(db.bookings), ReplacedIds(replacements))
    ensures db.overrideLog == old(db.overrideLog) + AuditRows(replacements, operator)
    ensures items == Items(replacements)
  {
    items := [];
    var logRows: seq<OverrideLogRow> := [];
    var overridden: set<Uuid> := {};
    ghost var table := db.bookings;
    assert db.bookings == OverrideAll(table, {});
    for i := 0 to |replacements|
      invariant db.overrideLog == old(db.overrideLog)
      invariant overridden == ReplacedIds(replacements[..i])
      invariant db.bookings == OverrideAll(table, overridden)
      invariant items == Items(replacements[..i])
      invariant logRows == AuditRows(replacements[..i], operator)
    {
      var r := replacements[i];
      ReplacementStep(replacements, i, operator);
      if r.Id() !in overridden {
        OverrideOneMore(table, overridden, r.Id());
        db.OverrideBooking(r.Id());
        overridden := overridden + {r.Id()};
        items := items + [ItemFor(r)];
      }
      logRows := AppendRoomRows(logRows, r, operator);
    }
    assert replacements[..|replacements|] == replacements;
    if logRows != [] {
      db.InsertLogs(logRows);
    }
  }

  /** Every displaced Booking is announced exactly once, however often it was targeted. */
  lemma {:induction false} EachAnnouncedOnce(replacements: seq<Replacement>)
    ensures forall i, j | 0 <= i < j < |Items(replacements)| :: Items(replacements)[i].bookingId != Items(replacements)[j].bookingId
    ensures (set x | x in Items(replacements) :: x.bookingId) == ReplacedIds(replacements)
  {
    if replacements != [] {
      var n := |replacements| - 1;
      EachAnnouncedOnce(replacements[..n]);
      assert replacements == replacements[..n] + [replacements[n]];
      var before := Items(replacements[..n]);
      assert forall x | x in before :: x.bookingId in ReplacedIds(replacements[..n]);
      assert ReplacedIds(replacements) == ReplacedIds(replacements[..n]) + {replacements[n].Id()};
      if replacements[n].Id() !in ReplacedIds(replacements[..n]) {
        assert Items(replacements) == before + [ItemFor(replacements[n])];
      }
    }
  }

  /** An audit row exists exactly for each displaced Booking and each proposed room where it overlapped. */
  lemma {:induction false} AuditRowsComplete(replacements: seq<Replacement>, operator: Uuid, row: OverrideLogRow)
    ensures row in AuditRows(replacements, operator)
       <==> exists r :: r in replacements && row.replacement == r.booking && row.overridden == r.Id()
                        && row.operator == operator && row.room in r.target.overlappingRooms
  {
    if replacements != [] {
      var n := |replacements| - 1;
      var last := replacements[n];
      AuditRowsComplete(replacements[..n], operator, row);
      assert replacements == replacements[..n] + [last];
      if row in RoomRows(last, operator) {
        var i :| 0 <= i < |last.target.overlappingRooms| && RoomRows(last, operator)[i] == row;
        assert row.room in last.target.overlappingRooms;
      }
      if row.replacement == last.booking && row.overridden == last.Id() && row.operator == operator && row.room in last.target.overlappingRooms {
        var i :| 0 <= i < |last.target.overlappingRooms| && last.target.overlappingRooms[i] == row.room;
        assert RoomRows(last, operator)[i] == row;
      }
    }
  }

  /** An announcement names its target's Booking, booker and day, each released room once, and the new Booking. */
  ghost predicate Announces(item: DisplacedItem, r: Replacement) {
    && item.bookingId == r.target.impact.bookingId && item.booker == r.target.booker
    && item.occurrenceDate == r.target.occurrenceDate && item.replacement == r.booking
    && Distinct(item.rooms)
    && forall room :: room in item.rooms <==> exists x :: x in r.target.impact.released && x.room == room
  }

  lemma ItemAnnounces(r: Replacement)
    ensures Announces(ItemFor(r), r)
  {
    var rooms := RoomsOnce(r.target.impact.released);
    forall room ensures room in rooms <==> exists x :: x in r.target.impact.released && x.room == room {
      assert room in rooms <==> room in AsSet(rooms);
    }
  }

  lemma {:induction false} ItemsAnnounce(replacements: seq<Replacement>)
    ensures forall item | item in Items(replacements) :: exists r :: r in replacements && Announces(item, r)
  {
    if replacements != [] {
      var n := |replacements| - 1;
      ItemsAnnounce(replacements[..n]);
      ItemAnnounces(replacements[n]);
      forall item | item in Items(replacements) ensures exists r :: r in replacements && Announces(item, r) {
        if item in Items(replacements[..n]) {
          var r :| r in replacements[..n] && Announces(item, r);
          assert r in replacements;
        } else {
          assert replacements[n] in replacements;
        }
      }
    }
  }

  /** With distinct targets and each room listed once per target, no audit row is written twice. */
  lemma {:induction false} AuditRowsOnce(replacements: seq<Replacement>, operator: Uuid)
    requires forall i, j | 0 <= i < j < |replacements| :: replacements[i].Id() != replacements[j].Id()
    requires forall r | r in replacements :: Distinct(r.target.overlappingRooms)
    ensures Distinct(AuditRows(replacements, operator))
  {
    if replacements != [] {
      var n := |replacements| - 1;
      var last := replacements[n];
      AuditRowsOnce(replacements[..n], operator);
      assert last in replacements;
      forall row | row in AuditRows(replacements[..n], operator) ensures row !in RoomRows(last, operator) {
        AuditRowsComplete(replacements[..n], operator, row);
        var r :| r in replacements[..n] && row.overridden == r.Id();
        var i :| 0 <= i < n && replacements[..n][i] == r;
        assert replacements[i].Id() != last.Id();
      }
      ConcatDistinct(AuditRows(replacements[..n], operator), RoomRows(last, operator));
    }
  }
}
