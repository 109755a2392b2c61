/**
 Slot rows alone, whatever their Bookings' status: when they stay disjoint over a confirmation and over a whole run,
 and a run in which they do not.
 */
module SlotRows {
  import opened Options
  import opened FacilityTypes
  import opened BookingLines
  import opened Bookings
  import opened OneTimeOverride
  import opened ConfirmationProtocol
  import opened FacilityDatabase
  import opened BookingService

  /** An inactive Booking still has a confirmed row where a new line goes; the occupancy query does not show it. */
  ghost predicate StaleRowMet(table: Table, lines: seq<Line>, at: Instant) {
    exists b :: b in table && !Active(table[b], at) && MeetsAny(table[b], lines)
  }

  /** Once nothing active outside the targets meets the lines, only stale rows can clash with the new ones. */
  lemma RowsDisjointIff(table: Table, targets: set<Uuid>, id: Uuid, booker: Uuid, ministry: Option<Uuid>, lines: seq<Line>, at: Instant)
    requires lines != [] && id !in table && NoConfirmedSlotClash(table)
    requires forall b | b in table && b !in targets :: !OccupiesAny(table[b], lines, at)
    ensures NoConfirmedSlotClash(OverrideAll(table, targets)[id := ConfirmedBooking(booker, ministry, lines)])
       <==> forall b | b in table && b !in targets && !Active(table[b], at) :: !MeetsAny(table[b], lines)
  {
    SlotRowsDisjointIff(table, targets, id, booker, ministry, lines);
  }

  /** A successful confirmation keeps slot rows disjoint exactly when no inactive Booking has a confirmed row on one of its lines. */
  lemma ConfirmationKeepsRowsDisjointIff(table: Table, drafts: map<Uuid, BookingDraft>, f: Facility, operator: Option<Uuid>,
                                         clocks: Clocks, command: CreateCommand, id: Uuid)
    requires CreateRefusal(table, drafts, f, operator, clocks, command).None?
    requires id !in table && NoConfirmedSlotClash(table)
    ensures NoConfirmedSlotClash(CreatedTable(table, f, clocks, command, BookerOf(command, operator.value), id))
       <==> !StaleRowMet(table, Lines(command), clocks.dbNow)
  {
    var booker := BookerOf(command, operator.value);
    var can := Overrides(f, command, booker);
    UnblockedMeetsOnlyDisplaced(table, Lines(command), can, clocks, clocks.dbNow);
    RowsDisjointIff(table, AllDisplaced(table, Lines(command), can, clocks), id, booker, command.ministry, Lines(command), clocks.dbNow);
  }

  /** The same at the commit of an interleaved transaction; a target that went inactive meanwhile is released all the same. */
  lemma CommitKeepsRowsDisjointIff(w: World, tx: Uuid)
    requires Inv(w) && Enabled(w, Commit(tx)) && w.txns[tx].lines != [] && NoConfirmedSlotClash(w.table)
    ensures NoConfirmedSlotClash(Committed(w, tx).table)
       <==> forall b | b in w.table && b !in w.txns[tx].targets && !Active(w.table[b], w.clock) :: !MeetsAny(w.table[b], w.txns[tx].lines)
  {
    var t := w.txns[tx];
    UntargetedAreClear(w, tx);
    assert t.bookingId !in w.table;
    RowsDisjointIff(w.table, t.targets, t.bookingId, t.booker, t.ministry, t.lines, w.clock);
  }

  // ----- Runs that cancel without scope "series"

  predicate HoldsRows(b: Booking) {
    exists s :: s in b.slots && s.confirmed
  }

  /** Whoever has a confirmed row is confirmed for good: no hold that could expire, and not deleted. */
  ghost predicate RowsConfirmed(table: Table) {
    forall b | b in table && HoldsRows(table[b]) :: table[b].status.Confirmed? && !table[b].deleted
  }

  lemma CancelKeepsRows(table: Table, id: Uuid)
    requires NoConfirmedSlotClash(table) && RowsConfirmed(table)
    ensures NoConfirmedSlotClash(CancelIn(table, id, true)) && RowsConfirmed(CancelIn(table, id, true))
  {
    var after := CancelIn(table, id, true);
    forall b | b in after ensures after[b] == table[b] || !HoldsRows(after[b]) {
    }
    forall a, b | a in after && b in after && a != b ensures !SlotsClash(after[a], after[b]) {
      if SlotsClash(after[a], after[b]) {
        assert HoldsRows(after[a]) && HoldsRows(after[b]);
      }
    }
  }

  lemma CommitKeepsRows(w: World, tx: Uuid)
    requires Inv(w) && Enabled(w, Commit(tx)) && w.txns[tx].lines != [] && NoConfirmedSlotClash(w.table) && RowsConfirmed(w.table)
    ensures NoConfirmedSlotClash(Committed(w, tx).table) && RowsConfirmed(Committed(w, tx).table)
  {
    var t, after := w.txns[tx], Committed(w, tx).table;
    forall b | b in w.table && !Active(w.table[b], w.clock) ensures !MeetsAny(w.table[b], t.lines) {
      assert !HoldsRows(w.table[b]);
    }
    CommitKeepsRowsDisjointIff(w, tx);
    forall b | b in after && HoldsRows(after[b]) ensures after[b].status.Confirmed? && !after[b].deleted {
      if b != t.bookingId {
        assert b !in t.targets && after[b] == w.table[b];
      }
    }
  }

  /** Not a cancellation with scope "series". */
  predicate ReleasesRows(a: Action) {
    a.Cancel? ==> a.cancelSlots
  }

  lemma StepKeepsRows(w: World, a: Action, w': World)
    requires Inv(w) && Leads(w, a, w') && NoConfirmedSlotClash(w.table) && RowsConfirmed(w.table)
    requires ReleasesRows(a)
    ensures NoConfirmedSlotClash(w'.table) && RowsConfirmed(w'.table)
  {
    match a
    case Commit(tx) => CommitKeepsRows(w, tx);
    case Cancel(id, _) => CancelKeepsRows(w.table, id);
    case _ =>
  }

  ghost predicate RowsSafe(table: Table) {
    NoConfirmedSlotClash(table) && RowsConfirmed(table)
  }

  lemma RunStep(ws: seq<World>, actions: seq<Action>, i: nat)
    requires IsRun(ws, actions) && i < |actions|
    ensures Inv(ws[i]) && Leads(ws[i], actions[i], ws[i + 1])
  {
    RunInv(ws, actions, i);
  }

  /**
   Over every run: when rows start disjoint on confirmed Bookings and no cancellation has scope "series", the slot rows
   of different Bookings are disjoint in every state.
   */
  lemma {:induction false} RowsStayDisjoint(ws: seq<World>, actions: seq<Action>, i: nat)
    requires IsRun(ws, actions) && i < |ws| && RowsSafe(ws[0].table)
    requires forall k | 0 <= k < i :: ReleasesRows(actions[k])
    ensures RowsSafe(ws[i].table)
  {
    if i > 0 {
      RowsStayDisjoint(ws, actions, i - 1);
      RunStep(ws, actions, i - 1);
      StepKeepsRows(ws[i - 1], actions[i - 1], ws[i]);
    }
  }

  // ----- A run with one series-scope cancellation

  lemma Prepend(w: World, a: Action, ws: seq<World>, actions: seq<Action>)
    requires IsSteps(ws, actions) && Leads(w, a, ws[0])
    ensures IsSteps([w] + ws, [a] + actions)
  {
    forall i | 0 <= i < |actions| + 1 ensures Leads(([w] + ws)[i], ([a] + actions)[i], ([w] + ws)[i + 1]) {
      if i > 0 {
        assert Leads(ws[i - 1], actions[i - 1], ws[i]);
      }
    }
  }

  function Alone(id: Uuid, booker: Uuid, l: Line, at: Instant, phase: Phase): Transaction {
    Transaction(id, booker, None, false, [l], [l.room], Clocks(at, at), phase, {}, false)
  }

  lemma AloneLocks(w: World, tx: Uuid, id: Uuid, booker: Uuid, l: Line)
    requires w.txns == map[] && w.locks == map[] && id !in w.table
    ensures Leads(w, Begin(tx, id, booker, None, false, [l], [l.room]), w.(txns := map[tx := Alone(id, booker, l, w.clock, Locking(0))]))
    ensures Leads(w.(txns := map[tx := Alone(id, booker, l, w.clock, Locking(0))]), Lock(tx),
                  w.(locks := map[l.room := tx], txns := map[tx := Alone(id, booker, l, w.clock, Locking(1))]))
  {
  }

  lemma AloneStarts(w: World, tx: Uuid, id: Uuid, booker: Uuid, l: Line)
    ensures Leads(w.(txns := map[tx := Alone(id, booker, l, w.clock, Locking(1))]), StartEvaluation(tx),
                  w.(txns := map[tx := Alone(id, booker, l, w.clock, Evaluating(0))]))
  {
  }

  lemma AloneEvaluates(w: World, tx: Uuid, id: Uuid, booker: Uuid, l: Line)
    requires Blockers(w.table, l, false, Clocks(w.clock, w.clock)) == {}
    ensures Leads(w.(txns := map[tx := Alone(id, booker, l, w.clock, Evaluating(0))]), EvaluateLine(tx),
                  w.(txns := map[tx := Alone(id, booker, l, w.clock, Evaluating(1))]))
  {
    assert Displaced(w.table, l, false, Clocks(w.clock, w.clock)) == {};
    assert AfterLine(Alone(id, booker, l, w.clock, Evaluating(0)), w.table) == Alone(id, booker, l, w.clock, Evaluating(1));
  }

  lemma AloneWrites(w: World, tx: Uuid, id: Uuid, booker: Uuid, l: Line)
    ensures Leads(w.(txns := map[tx := Alone(id, booker, l, w.clock, Evaluating(1))]), Write(tx),
                  w.(txns := map[tx := Alone(id, booker, l, w.clock, Written)]))
  {
  }

  lemma AloneCommits(w: World, tx: Uuid, id: Uuid, booker: Uuid, l: Line)
    requires w.locks == map[l.room := tx] && id !in w.table
    ensures Leads(w.(txns := map[tx := Alone(id, booker, l, w.clock, Written)]), Commit(tx),
                  World(w.table[id := ConfirmedBooking(booker, None, [l])], map[], map[tx := Alone(id, booker, l, w.clock, Ended)], w.clock))
  {
    assert OverrideAll(w.table, {}) == w.table;
    assert Unlock(w.locks, tx) == map[];
  }

  function AloneActions(tx: Uuid, id: Uuid, booker: Uuid, l: Line): seq<Action> {
    [Begin(tx, id, booker, None, false, [l], [l.room]), Lock(tx), StartEvaluation(tx), EvaluateLine(tx), Write(tx), Commit(tx)]
  }

  function AloneWorlds(w: World, tx: Uuid, id: Uuid, booker: Uuid, l: Line): seq<World> {
    var held := w.(locks := map[l.room := tx]);
    [ w,
      w.(txns := map[tx := Alone(id, booker, l, w.clock, Locking(0))]),
      held.(txns := map[tx := Alone(id, booker, l, w.clock, Locking(1))]),
      held.(txns := map[tx := Alone(id, booker, l, w.clock, Evaluating(0))]),
      held.(txns := map[tx := Alone(id, booker, l, w.clock, Evaluating(1))]),
      held.(txns := map[tx := Alone(id, booker, l, w.clock, Written)]),
      World(w.table[id := ConfirmedBooking(booker, None, [l])], map[], map[tx := Alone(id, booker, l, w.clock, Ended)], w.clock) ]
  }

  /** From a world at rest, a Personal booker confirms one unblocked line. */
  lemma ConfirmsAlone(w: World, tx: Uuid, id: Uuid, booker: Uuid, l: Line)
    requires w.txns == map[] && w.locks == map[] && id !in w.table
    requires Blockers(w.table, l, false, Clocks(w.clock, w.clock)) == {}
    ensures IsSteps(AloneWorlds(w, tx, id, booker, l), AloneActions(tx, id, booker, l))
  {
    var held := w.(locks := map[l.room := tx]);
    AloneLocks(w, tx, id, booker, l);
    AloneStarts(held, tx, id, booker, l);
    AloneEvaluates(held, tx, id, booker, l);
    AloneWrites(held, tx, id, booker, l);
    AloneCommits(held, tx, id, booker, l);
  }

  /**
   A run from disjoint rows: a confirmed Booking is cancelled with scope "series", which keeps its row and frees the
   room, and another Personal booker confirms the same line. Two confirmed rows then overlap.
   */
  lemma SlotRowsCanClash(l: Line, booker: Uuid, other: Uuid, clock: Instant) returns (ws: seq<World>, actions: seq<Action>)
    requires l.startAt < l.endAt
    ensures IsRun(ws, actions) && NoConfirmedSlotClash(ws[0].table) && RowsConfirmed(ws[0].table)
    ensures forall k | 0 <= k < |actions| :: ReleasesRows(actions[k]) <==> k > 0
    ensures !NoConfirmedSlotClash(ws[|ws| - 1].table)
  {
    var before := World(map[1 := ConfirmedBooking(booker, None, [l])], map[], map[], clock);
    var freed := before.(table := CancelIn(before.table, 1, false));
    assert !Active(freed.table[1], clock);
    ConfirmsAlone(freed, 0, 2, other, l);
    Prepend(before, Cancel(1, false), AloneWorlds(freed, 0, 2, other, l), AloneActions(0, 2, other, l));
    ws := [before] + AloneWorlds(freed, 0, 2, other, l);
    actions := [Cancel(1, false)] + AloneActions(0, 2, other, l);
    var after := ws[|ws| - 1].table;
    assert after == freed.table[2 := ConfirmedBooking(other, None, [l])];
    assert after[1].slots[0] in after[1].slots && after[2].slots[0] in after[2].slots;
    assert SlotsClash(after[1], after[2]);
  }
}
