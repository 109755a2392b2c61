/**
 Confirming a Pending-payment series among One-time confirmations: the hold is read, then the occurrences are confirmed,
 and no room is locked in between.
 */
module PaymentConfirmation {
  import opened Options
  import opened FacilityTypes
  import opened BookingLines
  import opened Bookings
  import opened ConfirmationProtocol
  import SlotRows

  datatype Move =
    | Plain(action: Action)
    | ReadHold(series: Uuid)
    | ConfirmPayment(series: Uuid)

  predicate PendingIn(b: Booking, series: Uuid) {
    b.series == Some(series) && b.status.PendingPayment? && !b.deleted
  }

  /** The series' hold, which each of its occurrences carries, has not expired. */
  ghost predicate HoldActive(table: Table, series: Uuid, at: Instant) {
    forall b | b in table && PendingIn(table[b], series) :: Active(table[b], at)
  }

  /** The series loses its hold, and its pending occurrences are confirmed; slot rows stay as they are. */
  function ConfirmPending(table: Table, series: Uuid): Table {
    map id | id in table ::
      if PendingIn(table[id], series) then table[id].(status := BookingStatus.Confirmed, holdExpiresAt := None)
      else if table[id].series == Some(series) then table[id].(holdExpiresAt := None)
      else table[id]
  }

  ghost predicate Moves(w: World, m: Move, w': World) {
    match m
    case Plain(a) => Leads(w, a, w')
    case ReadHold(series) => HoldActive(w.table, series, w.clock) && w' == w
    case ConfirmPayment(series) => w' == w.(table := ConfirmPending(w.table, series))
  }

  /** An interleaving in which every payment is confirmed after its hold was read as active. */
  ghost predicate IsPaidRun(ws: seq<World>, ms: seq<Move>) {
    && |ws| == |ms| + 1
    && Init(ws[0])
    && (forall i | 0 <= i < |ms| :: Moves(ws[i], ms[i], ws[i + 1]))
    && (forall j | 0 <= j < |ms| && ms[j].ConfirmPayment? :: exists i :: 0 <= i < j && ms[i] == ReadHold(ms[j].series))
  }

  /** The hold is still active when the payment's update takes effect. */
  ghost predicate InTime(w: World, m: Move) {
    m.ConfirmPayment? ==> HoldActive(w.table, m.series, w.clock)
  }

  // ----- Payments confirmed in time are safe

  /** The hold of a pending occurrence that is not deleted is dropped only as it is confirmed. */
  lemma InTimeKeepsActive(table: Table, series: Uuid, at: Instant, b: Uuid)
    requires HoldActive(table, series, at) && b in table && Active(ConfirmPending(table, series)[b], at)
    ensures Active(table[b], at)
  {
  }

  lemma InTimeInv(w: World, series: Uuid)
    requires Inv(w) && HoldActive(w.table, series, w.clock)
    ensures Inv(w.(table := ConfirmPending(w.table, series)))
  {
    var after := ConfirmPending(w.table, series);
    forall b | b in after ensures Active(after[b], w.clock) ==> Active(w.table[b], w.clock) {
      if Active(after[b], w.clock) {
        InTimeKeepsActive(w.table, series, w.clock, b);
      }
    }
    InTimeKeepsDisjoint(w.table, after, w.clock);
    forall tx | tx in w.txns && Live(w.txns[tx]) ensures Accounted(w.txns[tx], after, w.clock) {
      TransactionFacts(w, tx);
      ReleaseAccounted(w.txns[tx], w.table, after, w.clock);
    }
  }

  lemma InTimeKeepsDisjoint(table: Table, after: Table, at: Instant)
    requires NoDoubleBooking(table, at) && after.Keys == table.Keys
    requires forall b | b in after :: after[b].slots == table[b].slots && (Active(after[b], at) ==> Active(table[b], at))
    ensures NoDoubleBooking(after, at)
  {
    forall a, b | a in after && b in after && a != b ensures !(Active(after[a], at) && Active(after[b], at) && SlotsClash(after[a], after[b])) {
      assert SlotsClash(after[a], after[b]) <==> SlotsClash(table[a], table[b]);
    }
  }

  /** While every payment so far was confirmed before its hold expired, active Bookings never share a room and time. */
  lemma {:induction false} PaidRunInv(ws: seq<World>, ms: seq<Move>, i: nat)
    requires IsPaidRun(ws, ms) && i < |ws|
    requires forall k | 0 <= k < i :: InTime(ws[k], ms[k])
    ensures Inv(ws[i]) && NoDoubleBooking(ws[i].table, ws[i].clock)
  {
    if i == 0 {
      InitInv(ws[0]);
    } else {
      PaidRunInv(ws, ms, i - 1);
      assert Moves(ws[i - 1], ms[i - 1], ws[i]);
      match ms[i - 1]
      case Plain(a) => StepInv(ws[i - 1], a);
      case ReadHold(_) =>
      case ConfirmPayment(series) => InTimeInv(ws[i - 1], series);
    }
  }

  // ----- What can happen between the reading and the confirmation

  /** A Booking occupies no more than it did, and is pending only if it was. */
  ghost predicate NoMore(b: Booking, at: Instant, b': Booking, at': Instant) {
    && (Active(b', at') ==> Active(b, at))
    && (b'.slots == b.slots || !SlotRows.HoldsRows(b'))
    && b'.series == b.series
    && (b'.status.PendingPayment? && !b'.deleted ==> b.status.PendingPayment? && !b.deleted)
  }

  ghost predicate OldShrink(w: World, w': World) {
    forall b | b in w.table :: b in w'.table && NoMore(w.table[b], w.clock, w'.table[b], w'.clock)
  }

  /** Only One-time confirmations add Bookings, and those are never pending. */
  ghost predicate NewNotPending(w: World, w': World) {
    forall b | b in w'.table && b !in w.table :: !(w'.table[b].status.PendingPayment? && !w'.table[b].deleted)
  }

  lemma CommitShrinks(w: World, tx: Uuid)
    requires Inv(w) && Enabled(w, Commit(tx)) && w.txns[tx].lines != []
    ensures OldShrink(w, Committed(w, tx)) && NewNotPending(w, Committed(w, tx))
  {
    assert w.txns[tx].bookingId !in w.table;
  }

  lemma StepShrinks(w: World, a: Action, w': World)
    requires Inv(w) && Leads(w, a, w')
    ensures OldShrink(w, w') && NewNotPending(w, w')
  {
    match a
    case Commit(tx) => CommitShrinks(w, tx);
    case _ =>
  }

  lemma MoveShrinks(w: World, m: Move, w': World)
    requires Inv(w) && Moves(w, m, w') && InTime(w, m)
    ensures OldShrink(w, w') && NewNotPending(w, w')
  {
    match m
    case Plain(a) => StepShrinks(w, a, w');
    case ReadHold(_) =>
    case ConfirmPayment(series) =>
      forall b | b in w.table ensures NoMore(w.table[b], w.clock, w'.table[b], w'.clock) {
        if Active(w'.table[b], w'.clock) {
          InTimeKeepsActive(w.table, series, w.clock, b);
        }
      }
  }

  lemma ShrinkAgain(w: World, v: World, u: World)
    requires OldShrink(w, v) && NewNotPending(w, v) && OldShrink(v, u) && NewNotPending(v, u)
    ensures OldShrink(w, u) && NewNotPending(w, u)
  {
    forall b | b in w.table ensures b in u.table && NoMore(w.table[b], w.clock, u.table[b], u.clock) {
      assert NoMore(w.table[b], w.clock, v.table[b], v.clock) && NoMore(v.table[b], v.clock, u.table[b], u.clock);
    }
    forall b | b in u.table && b !in w.table ensures !(u.table[b].status.PendingPayment? && !u.table[b].deleted) {
      if b in v.table {
        assert NoMore(v.table[b], v.clock, u.table[b], u.clock);
      }
    }
  }

  ghost predicate InTimeUntil(ws: seq<World>, ms: seq<Move>, j: nat)
    requires j <= |ms| < |ws|
  {
    forall k | 0 <= k < j :: InTime(ws[k], ms[k])
  }

  ghost predicate Shrinks(w: World, v: World) {
    OldShrink(w, v) && NewNotPending(w, v)
  }

  lemma ShrinksItself(w: World)
    ensures Shrinks(w, w)
  {
  }

  lemma PaidStepShrinks(ws: seq<World>, ms: seq<Move>, j: nat)
    requires IsPaidRun(ws, ms) && j < |ms| && InTimeUntil(ws, ms, j + 1)
    ensures Shrinks(ws[j], ws[j + 1])
  {
    PaidRunInv(ws, ms, j);
    assert Moves(ws[j], ms[j], ws[j + 1]) && InTime(ws[j], ms[j]);
    MoveShrinks(ws[j], ms[j], ws[j + 1]);
  }

  lemma {:induction false} ChainShrinks(ws: seq<World>, i: nat, j: nat)
    requires i <= j < |ws| && forall k | i <= k < j :: Shrinks(ws[k], ws[k + 1])
    ensures Shrinks(ws[i], ws[j])
  {
    if i == j {
      ShrinksItself(ws[i]);
    } else {
      ChainShrinks(ws, i, j - 1);
      assert Shrinks(ws[j - 1], ws[j - 1 + 1]);
      ShrinkAgain(ws[i], ws[j - 1], ws[j]);
    }
  }

  lemma RunShrinks(ws: seq<World>, ms: seq<Move>, i: nat, j: nat)
    requires IsPaidRun(ws, ms) && i <= j < |ws| && InTimeUntil(ws, ms, j)
    ensures OldShrink(ws[i], ws[j]) && NewNotPending(ws[i], ws[j])
  {
    forall k | i <= k < j ensures Shrinks(ws[k], ws[k + 1]) {
      PaidStepShrinks(ws, ms, k);
    }
    ChainShrinks(ws, i, j);
  }

  // ----- The exact condition

  /** A Booking made since the hold was read is active on a row of a pending occurrence. */
  ghost predicate Taken(read: World, now: World, series: Uuid) {
    exists b, r :: b in now.table && b !in read.table && Active(now.table[b], now.clock)
                   && r in now.table && PendingIn(now.table[r], series) && SlotsClash(now.table[b], now.table[r])
  }

  lemma TakenDoubleBooks(read: World, now: World, series: Uuid)
    requires NewNotPending(read, now) && Taken(read, now, series)
    ensures !NoDoubleBooking(ConfirmPending(now.table, series), now.clock)
  {
    var after := ConfirmPending(now.table, series);
    var b, r :| b in now.table && b !in read.table && Active(now.table[b], now.clock)
                && r in now.table && PendingIn(now.table[r], series) && SlotsClash(now.table[b], now.table[r]);
    assert b != r && Active(after[b], now.clock) && Active(after[r], now.clock);
    assert after[b].slots == now.table[b].slots && after[r].slots == now.table[r].slots;
    assert SlotsClash(after[b], after[r]);
  }

  lemma ClashSymmetric(a: Booking, b: Booking)
    ensures SlotsClash(a, b) <==> SlotsClash(b, a)
  {
  }

  /** What is active once the payment is confirmed was active when the hold was read, or was made since. */
  lemma ActiveThen(read: World, now: World, series: Uuid, b: Uuid)
    requires OldShrink(read, now) && HoldActive(read.table, series, read.clock)
    requires b in now.table && b in read.table && Active(ConfirmPending(now.table, series)[b], now.clock)
    ensures Active(read.table[b], read.clock)
  {
    assert NoMore(read.table[b], read.clock, now.table[b], now.clock);
    if PendingIn(now.table[b], series) {
      assert PendingIn(read.table[b], series);
    }
  }

  lemma OldRows(read: World, now: World, a: Uuid, b: Uuid)
    requires OldShrink(read, now) && a in read.table && b in read.table && SlotsClash(now.table[a], now.table[b])
    ensures SlotsClash(read.table[a], read.table[b])
  {
    assert NoMore(read.table[a], read.clock, now.table[a], now.clock) && NoMore(read.table[b], read.clock, now.table[b], now.clock);
    assert SlotRows.HoldsRows(now.table[a]) && SlotRows.HoldsRows(now.table[b]);
  }

  lemma UntakenPair(read: World, now: World, series: Uuid, a: Uuid, b: Uuid)
    requires NoDoubleBooking(read.table, read.clock) && HoldActive(read.table, series, read.clock)
    requires NoDoubleBooking(now.table, now.clock) && OldShrink(read, now) && NewNotPending(read, now) && !Taken(read, now, series)
    requires a in now.table && b in now.table && a != b
    requires Active(ConfirmPending(now.table, series)[a], now.clock) && Active(ConfirmPending(now.table, series)[b], now.clock)
    ensures !SlotsClash(now.table[a], now.table[b])
  {
    ClashSymmetric(now.table[a], now.table[b]);
    if SlotsClash(now.table[a], now.table[b]) {
      if a in read.table && b in read.table {
        ActiveThen(read, now, series, a);
        ActiveThen(read, now, series, b);
        OldRows(read, now, a, b);
      }
    }
  }

  lemma UntakenKeepsDisjoint(read: World, now: World, series: Uuid)
    requires NoDoubleBooking(read.table, read.clock) && HoldActive(read.table, series, read.clock)
    requires NoDoubleBooking(now.table, now.clock) && OldShrink(read, now) && NewNotPending(read, now) && !Taken(read, now, series)
    ensures NoDoubleBooking(ConfirmPending(now.table, series), now.clock)
  {
    var after := ConfirmPending(now.table, series);
    forall a, b | a in after && b in after && a != b
      ensures !(Active(after[a], now.clock) && Active(after[b], now.clock) && SlotsClash(after[a], after[b]))
    {
      if Active(after[a], now.clock) && Active(after[b], now.clock) {
        UntakenPair(read, now, series, a, b);
        assert after[a].slots == now.table[a].slots && after[b].slots == now.table[b].slots;
      }
    }
  }

  /**
   A payment confirmed at `j` on a hold read at `i`, in any run whose other payments were in time, leaves active Bookings
   disjoint exactly when no Booking made between the two holds a row of a pending occurrence.
   */
  lemma PaymentKeepsDisjointIff(ws: seq<World>, ms: seq<Move>, i: nat, j: nat, series: Uuid)
    requires IsPaidRun(ws, ms) && i < j < |ms| && ms[i] == ReadHold(series) && ms[j] == ConfirmPayment(series)
    requires forall k | 0 <= k < j :: InTime(ws[k], ms[k])
    ensures NoDoubleBooking(ws[j + 1].table, ws[j + 1].clock) <==> !Taken(ws[i], ws[j], series)
    ensures HoldActive(ws[j].table, series, ws[j].clock) ==> !Taken(ws[i], ws[j], series)
  {
    PaidRunInv(ws, ms, i);
    PaidRunInv(ws, ms, j);
    RunShrinks(ws, ms, i, j);
    assert Moves(ws[i], ms[i], ws[i + 1]) && Moves(ws[j], ms[j], ws[j + 1]);
    if Taken(ws[i], ws[j], series) {
      TakenDoubleBooks(ws[i], ws[j], series);
    } else {
      UntakenKeepsDisjoint(ws[i], ws[j], series);
    }
    if HoldActive(ws[j].table, series, ws[j].clock) {
      InTimeInv(ws[j], series);
    }
  }

  // ----- A run that double-books

  /** The hold is read in time and expires; a Personal booker confirms the freed line; then the payment is confirmed. */
  lemma LatePaymentDoubleBooks(l: Line, booker: Uuid, other: Uuid, series: Uuid, clock: Instant) returns (ws: seq<World>, ms: seq<Move>)
    requires l.startAt < l.endAt
    ensures IsPaidRun(ws, ms) && |ws| > 0 && !NoDoubleBooking(ws[|ws| - 1].table, ws[|ws| - 1].clock)
  {
    var held := Booking(booker, None, l.startAt, l.endAt, Some(series), BookingStatus.PendingPayment, Some(clock + 1), false, ConfirmedSlots([l]));
    var start := World(map[1 := held], map[], map[], clock);
    var late := start.(clock := clock + 1);
    assert !Active(late.table[1], late.clock);
    SlotRows.ConfirmsAlone(late, 0, 2, other, l);
    var worlds, actions := SlotRows.AloneWorlds(late, 0, 2, other, l), SlotRows.AloneActions(0, 2, other, l);
    var taken := worlds[6];
    ws := [start, start] + worlds + [taken.(table := ConfirmPending(taken.table, series))];
    ms := [ReadHold(series), Plain(Tick(clock + 1))] + seq(6, k requires 0 <= k < 6 => Plain(actions[k])) + [ConfirmPayment(series)];
    forall i | 0 <= i < |ms| ensures Moves(ws[i], ms[i], ws[i + 1]) {
      if 2 <= i < 8 {
        assert Leads(worlds[i - 2], actions[i - 2], worlds[i - 1]);
      }
    }
    assert ms[0] == ReadHold(ms[8].series);
    var after := ws[9].table;
    assert after[1].slots[0] in after[1].slots && after[2].slots[0] in after[2].slots;
    assert SlotsClash(after[1], after[2]) && Active(after[1], ws[9].clock) && Active(after[2], ws[9].clock);
  }

  /** Exactly the undeleted pending occurrences of the series become confirmed, for good; nothing else changes status, rows or times. */
  lemma ConfirmedOccurrences(table: Table, series: Uuid, b: Uuid)
    requires b in table
    ensures ConfirmPending(table, series).Keys == table.Keys
    ensures var after := ConfirmPending(table, series)[b];
      && after.slots == table[b].slots && after.startAt == table[b].startAt && after.endAt == table[b].endAt && after.booker == table[b].booker
      && (if table[b].series == Some(series) && table[b].status.PendingPayment? && !table[b].deleted
          then after.status.Confirmed? && forall at :: Active(after, at)
          else after.status == table[b].status && (table[b].series != Some(series) ==> after == table[b]))
  {
  }
}
