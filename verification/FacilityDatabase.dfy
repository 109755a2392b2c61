/** The session's booking, draft and audit tables, with the queries and updates the services issue. */
module FacilityDatabase {
  import opened Options
  import opened FacilityTypes
  import opened BookingLines
  import opened Bookings

  /** One joined row of the occupancy query; times are the Booking header's. */
  datatype OccupyingRow = OccupyingRow(bookingId: Uuid, userId: Uuid, ministryId: Option<Uuid>,
                                       startAt: Instant, endAt: Instant, seriesId: Option<Uuid>)

  function RowFor(table: Table, id: Uuid): OccupyingRow
    requires id in table
  {
    var b := table[id];
    OccupyingRow(id, b.booker, b.ministry, b.startAt, b.endAt, b.series)
  }

  function Occupants(table: Table, wanted: RoomInterval, at: Instant): set<Uuid> {
    set id | id in table && Occupies(table[id], wanted, at)
  }

  /** A result of the occupancy query: the occupants' rows in some order, perhaps several per Booking. */
  ghost predicate AreOccupyingRows(rows: seq<OccupyingRow>, table: Table, wanted: RoomInterval, at: Instant) {
    && (forall row | row in rows :: row.bookingId in Occupants(table, wanted, at) && row == RowFor(table, row.bookingId))
    && (forall id | id in Occupants(table, wanted, at) :: RowFor(table, id) in rows)
  }

  /** The listed Bookings are exactly the active ones that hold the room at some instant of the wanted interval. */
  ghost predicate ListsHolders(rows: seq<OccupyingRow>, table: Table, wanted: RoomInterval, at: Instant) {
    forall id :: (exists row :: row in rows && row.bookingId == id)
            <==> id in table && Active(table[id], at) && exists t :: wanted.Holds(t) && HoldsAt(table[id], wanted.room, t)
  }

  lemma RowsListHolders(rows: seq<OccupyingRow>, table: Table, wanted: RoomInterval, at: Instant)
    requires AreOccupyingRows(rows, table, wanted, at) && AllPositive(table) && wanted.Positive()
    ensures ListsHolders(rows, table, wanted, at)
  {
    forall id ensures (exists row :: row in rows && row.bookingId == id)
                 <==> id in table && Active(table[id], at) && exists t :: wanted.Holds(t) && HoldsAt(table[id], wanted.room, t)
    {
      if id in table {
        MeetsIffHoldsAt(table[id], wanted);
      }
      if id in Occupants(table, wanted, at) {
        assert RowFor(table, id) in rows;
      }
    }
  }

  /** A stored draft; its lines were validated when they were written. */
  datatype BookingDraft = BookingDraft(user: Uuid, title: string, ministry: Option<Uuid>, lines: seq<Line>)

  datatype OverrideLogRow = OverrideLogRow(replacement: Uuid, overridden: Uuid, operator: Uuid, room: Uuid)

  /** One displaced Booking in the notification that is sent after commit. */
  datatype DisplacedItem = DisplacedItem(bookingId: Uuid, booker: Uuid, occurrenceDate: int, rooms: seq<Uuid>, replacement: Uuid)

  class Database {
    var bookings: Table
    var drafts: map<Uuid, BookingDraft>
    var overrideLog: seq<OverrideLogRow>
    var afterCommit: seq<seq<DisplacedItem>>

    constructor ()
      ensures bookings == map[] && drafts == map[] && overrideLog == [] && afterCommit == []
    {
      bookings, drafts, overrideLog, afterCommit := map[], map[], [], [];
    }

    /** One row per matching slot; the query has no order. */
    method ListOccupyingSlots(wanted: RoomInterval, dbNow: Instant) returns (rows: seq<OccupyingRow>)
      ensures AreOccupyingRows(rows, bookings, wanted, dbNow)
      ensures AllPositive(bookings) && wanted.Positive() ==> ListsHolders(rows, bookings, wanted, dbNow)
    {
      rows := CollectOccupyingSlots(wanted, dbNow);
      if AllPositive(bookings) && wanted.Positive() {
        RowsListHolders(rows, bookings, wanted, dbNow);
      }
    }

    method CollectOccupyingSlots(wanted: RoomInterval, dbNow: Instant) returns (rows: seq<OccupyingRow>)
      ensures AreOccupyingRows(rows, bookings, wanted, dbNow)
    {
      rows := [];
      var left := bookings.Keys;
      while left != {}
        invariant left <= bookings.Keys
        invariant forall row | row in rows ::
            && row.bookingId in Occupants(bookings, wanted, dbNow)
            && row == RowFor(bookings, row.bookingId)
        invariant forall id | id in Occupants(bookings, wanted, dbNow) :: id in left || RowFor(bookings, id) in rows
        decreases left
      {
        var id :| id in left;
        left := left - {id};
        var b := bookings[id];
        ghost var before := rows;
        for i := 0 to |b.slots|
          invariant before <= rows
          invariant forall row | row in rows :: row in before || (Occupies(b, wanted, dbNow) && row == RowFor(bookings, id))
          invariant forall j | 0 <= j < i ::
              Active(b, dbNow) && b.slots[j].confirmed && Overlaps(b.slots[j].interval, wanted) ==> RowFor(bookings, id) in rows
        {
          var s := b.slots[i];
          if Active(b, dbNow) && s.confirmed && Overlaps(s.interval, wanted) {
            assert s in b.slots && HoldsConfirmedSlot(b, wanted);
            rows := rows + [RowFor(bookings, id)];
          }
        }
      }
    }

    method HasConfirmedSlotOverlap(wanted: RoomInterval, dbNow: Instant) returns (occupied: bool)
      ensures occupied <==> Occupants(bookings, wanted, dbNow) != {}
    {
      var rows := ListOccupyingSlots(wanted, dbNow);
      if rows != [] {
        assert rows[0] in rows;
        return true;
      }
      return false;
    }

    method InsertBooking(id: Uuid, header: Booking)
      requires id !in bookings
      modifies this`bookings
      ensures bookings == old(bookings)[id := header]
    {
      bookings := bookings[id := header];
    }

    method ReplaceBookingSlots(id: Uuid, slots: seq<Slot>)
      requires id in bookings
      modifies this`bookings
      ensures bookings == old(bookings)[id := old(bookings)[id].(slots := slots)]
    {
      bookings := bookings[id := bookings[id].(slots := slots)];
    }

    /** Two updates by Booking id: the header's status, then every slot row. */
    method OverrideBooking(id: Uuid)
      modifies this`bookings
      ensures bookings == OverrideAll(old(bookings), {id})
    {
      if id in bookings {
        bookings := bookings[id := bookings[id].(status := BookingStatus.Overridden)];
        bookings := bookings[id := bookings[id].(slots := ReleasedSlots(bookings[id].slots))];
      }
    }

    method CancelBooking(id: Uuid, cancelSlots: bool)
      modifies this`bookings
      ensures bookings == CancelIn(old(bookings), id, cancelSlots)
    {
      if id in bookings {
        bookings := bookings[id := bookings[id].(status := BookingStatus.Cancelled)];
        if cancelSlots {
          bookings := bookings[id := bookings[id].(slots := ReleasedSlots(bookings[id].slots))];
        }
      }
    }

    method InsertLogs(rows: seq<OverrideLogRow>)
      modifies this`overrideLog
      ensures overrideLog == old(overrideLog) + rows
    {
      overrideLog := overrideLog + rows;
    }

    method InsertDraft(id: Uuid, draft: BookingDraft)
      requires id !in drafts
      modifies this`drafts
      ensures drafts == old(drafts)[id := draft]
    {
      drafts := drafts[id := draft];
    }

    method ReplaceDraft(id: Uuid, draft: BookingDraft)
      requires id in drafts
      modifies this`drafts
      ensures drafts == old(drafts)[id := draft]
    {
      drafts := drafts[id := draft];
    }

    method DeleteDraft(id: Uuid)
      modifies this`drafts
      ensures drafts == old(drafts) - {id}
    {
      drafts := drafts - {id};
    }
  }
}
