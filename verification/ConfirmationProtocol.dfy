/**
 Many confirmations at once. Each takes one exclusive lock per proposed room in sorted order, evaluates its
 lines one query at a time against the committed table, writes, and commits; cancellations commit in between.
 A commit also releases slots in rooms its transaction never locked.
 */
module ConfirmationProtocol {
  import opened Options
  import opened FacilityTypes
  import opened BookingLines
  import opened Bookings
  import opened OneTimeOverride

  datatype Phase =
    | Locking(next: nat)
    | Evaluating(next: nat)
    | Written
    | Ended

  /** `targets` and `blocked` collect what the evaluation has met so far. */
  datatype Transaction = Transaction(bookingId: Uuid, booker: Uuid, ministry: Option<Uuid>, canOverride: bool, lines: seq<Line>,
                                     rooms: seq<Uuid>, clocks: Clocks, phase: Phase, targets: set<Uuid>, blocked: bool)

  /** The committed table, the holder of each room lock, the transactions, and the clock. */
  datatype World = World(table: Table, locks: map<Uuid, Uuid>, txns: map<Uuid, Transaction>, clock: Instant)

  datatype Action =
    | Tick(to: Instant)
    | Begin(tx: Uuid, bookingId: Uuid, booker: Uuid, ministry: Option<Uuid>, canOverride: bool, lines: seq<Line>, rooms: seq<Uuid>)
    | Lock(tx: Uuid)
    | StartEvaluation(tx: Uuid)
    | EvaluateLine(tx: Uuid)
    | Write(tx: Uuid)
    | Commit(tx: Uuid)
    | RollBack(tx: Uuid)
    | Cancel(bookingId: Uuid, cancelSlots: bool)

  predicate Live(t: Transaction) {
    !t.phase.Ended?
  }

  /** The distinct rooms of the lines in increasing order. */
  predicate SortedRooms(rooms: seq<Uuid>, lines: seq<Line>) {
    && (forall i, j | 0 <= i < j < |rooms| :: rooms[i] < rooms[j])
    && (forall l | l in lines :: l.room in rooms)
    && (forall r | r in rooms :: exists l :: l in lines && l.room == r)
  }

  ghost predicate NewId(w: World, id: Uuid) {
    id !in w.table && forall u | u in w.txns :: w.txns[u].bookingId != id
  }

  /** The transaction's next room is free. */
  predicate CanLock(w: World, tx: Uuid) {
    && tx in w.txns && w.txns[tx].phase.Locking? && w.txns[tx].phase.next < |w.txns[tx].rooms|
    && w.txns[tx].rooms[w.txns[tx].phase.next] !in w.locks
  }

  ghost predicate Enabled(w: World, a: Action) {
    match a
    case Tick(to) => w.clock <= to
    case Begin(tx, id, _, _, _, lines, rooms) =>
      && tx !in w.txns && lines != [] && SortedRooms(rooms, lines)
      && NewId(w, id)
    case Lock(tx) => CanLock(w, tx)
    case StartEvaluation(tx) =>
      tx in w.txns && w.txns[tx].phase == Locking(|w.txns[tx].rooms|)
    case EvaluateLine(tx) =>
      tx in w.txns && w.txns[tx].phase.Evaluating? && w.txns[tx].phase.next < |w.txns[tx].lines|
    case Write(tx) =>
      tx in w.txns && w.txns[tx].phase == Evaluating(|w.txns[tx].lines|) && !w.txns[tx].blocked
    case Commit(tx) =>
      tx in w.txns && w.txns[tx].phase.Written?
    case RollBack(tx) =>
      tx in w.txns && Live(w.txns[tx])
    case Cancel(_, _) => true
  }

  function Unlock(locks: map<Uuid, Uuid>, tx: Uuid): map<Uuid, Uuid> {
    map r | r in locks && locks[r] != tx :: locks[r]
  }

  function CommittedTable(table: Table, t: Transaction): Table
    requires t.lines != []
  {
    OverrideAll(table, t.targets)[t.bookingId := ConfirmedBooking(t.booker, t.ministry, t.lines)]
  }

  /** One more line classified against the table as it stands. */
  function AfterLine(t: Transaction, table: Table): Transaction
    requires t.phase.Evaluating? && t.phase.next < |t.lines|
  {
    var line := t.lines[t.phase.next];
    t.(phase := Evaluating(t.phase.next + 1),
       targets := t.targets + Displaced(table, line, t.canOverride, t.clocks),
       blocked := t.blocked || Blockers(table, line, t.canOverride, t.clocks) != {})
  }

  function Locked(w: World, tx: Uuid): World
    requires CanLock(w, tx)
  {
    var t := w.txns[tx];
    w.(locks := w.locks[t.rooms[t.phase.next] := tx], txns := w.txns[tx := t.(phase := Locking(t.phase.next + 1))])
  }

  /** All of a transaction's writes at once, and its locks released. */
  function Committed(w: World, tx: Uuid): World
    requires tx in w.txns && w.txns[tx].lines != []
  {
    World(CommittedTable(w.table, w.txns[tx]), Unlock(w.locks, tx), w.txns[tx := w.txns[tx].(phase := Ended)], w.clock)
  }

  ghost predicate AllHaveLines(w: World) {
    forall tx | tx in w.txns :: w.txns[tx].lines != []
  }

  function Step(w: World, a: Action): World
    requires Enabled(w, a)
    requires AllHaveLines(w)
  {
    match a
    case Tick(to) => w.(clock := to)
    case Begin(tx, id, booker, ministry, canOverride, lines, rooms) =>
      w.(txns := w.txns[tx := Transaction(id, booker, ministry, canOverride, lines, rooms, Clocks(w.clock, w.clock), Locking(0), {}, false)])
    case Lock(tx) => Locked(w, tx)
    case StartEvaluation(tx) =>
      var t := w.txns[tx];
      w.(txns := w.txns[tx := t.(phase := Evaluating(0), clocks := Clocks(w.clock, t.clocks.dbNow))])
    case EvaluateLine(tx) =>
      var t := w.txns[tx];
      w.(txns := w.txns[tx := AfterLine(t, w.table)])
    case Write(tx) => w.(txns := w.txns[tx := w.txns[tx].(phase := Written)])
    case Commit(tx) => Committed(w, tx)
    case RollBack(tx) =>
      w.(locks := Unlock(w.locks, tx), txns := w.txns[tx := w.txns[tx].(phase := Ended)])
    case Cancel(id, cancelSlots) => w.(table := CancelIn(w.table, id, cancelSlots))
  }

  // ----- What every step keeps

  /** The rooms that a transaction holds now. */
  function Held(t: Transaction): set<Uuid> {
    match t.phase
    case Locking(k) => set i | 0 <= i < k && i < |t.rooms| :: t.rooms[i]
    case Evaluating(_) => set r | r in t.rooms
    case Written => set r | r in t.rooms
    case Ended => {}
  }

  /** How many lines have been evaluated. */
  function Evaluated(t: Transaction): nat {
    match t.phase case Evaluating(k) => if k <= |t.lines| then k else |t.lines| case Written => |t.lines| case _ => 0
  }

  predicate WellFormed(t: Transaction, clock: Instant) {
    && t.lines != [] && SortedRooms(t.rooms, t.lines)
    && t.clocks.dbNow <= clock
    && (t.phase.Locking? ==> t.phase.next <= |t.rooms|)
    && (t.phase.Evaluating? ==> t.phase.next <= |t.lines|)
    && (t.phase.Written? ==> !t.blocked)
    && t.bookingId !in t.targets
  }

  /** Every active Booking that an unblocked evaluation has met on its lines so far is a target. */
  ghost predicate Accounted(t: Transaction, table: Table, clock: Instant) {
    !t.blocked ==> forall b, i | b in table && 0 <= i < Evaluated(t) && Occupies(table[b], t.lines[i].Interval(), clock) :: b in t.targets
  }

  ghost predicate AllWellFormed(w: World) {
    forall tx | tx in w.txns :: WellFormed(w.txns[tx], w.clock)
  }

  /** A room is locked by exactly the transaction that holds it. */
  ghost predicate LocksMatch(locks: map<Uuid, Uuid>, txns: map<Uuid, Transaction>) {
    && (forall tx, r | tx in txns && r in Held(txns[tx]) :: r in locks && locks[r] == tx)
    && (forall r | r in locks :: locks[r] in txns && r in Held(txns[locks[r]]))
  }

  ghost predicate IdsFresh(w: World) {
    && (forall tx | tx in w.txns && Live(w.txns[tx]) :: w.txns[tx].bookingId !in w.table)
    && (forall tx, u | tx in w.txns && u in w.txns && tx != u :: w.txns[tx].bookingId != w.txns[u].bookingId)
  }

  ghost predicate TargetsKnown(w: World) {
    forall tx | tx in w.txns :: w.txns[tx].targets <= w.table.Keys
  }

  ghost predicate AllAccounted(w: World) {
    forall tx | tx in w.txns && Live(w.txns[tx]) :: Accounted(w.txns[tx], w.table, w.clock)
  }

  ghost predicate Inv(w: World) {
    && NoDoubleBooking(w.table, w.clock)
    && AllWellFormed(w) && LocksMatch(w.locks, w.txns) && IdsFresh(w) && TargetsKnown(w) && AllAccounted(w)
  }

  ghost predicate Init(w: World) {
    w.txns == map[] && w.locks == map[] && NoDoubleBooking(w.table, w.clock)
  }

  lemma InitInv(w: World)
    requires Init(w)
    ensures Inv(w)
  {
  }

  lemma TickInv(w: World, to: Instant)
    requires Inv(w) && w.clock <= to
    ensures Inv(w.(clock := to))
  {
  }

  lemma ReplaceKeepsLocks(w: World, tx: Uuid, t': Transaction)
    requires LocksMatch(w.locks, w.txns) && tx in w.txns && Held(t') == Held(w.txns[tx])
    ensures LocksMatch(w.locks, w.txns[tx := t'])
  {
  }

  /** One transaction changes within its request, and the locks with it. */
  lemma SetTransaction(w: World, tx: Uuid, t': Transaction, locks': map<Uuid, Uuid>)
    requires Inv(w) && LocksMatch(locks', w.txns[tx := t'])
    requires if tx in w.txns then Live(w.txns[tx]) && t'.bookingId == w.txns[tx].bookingId else NewId(w, t'.bookingId)
    requires WellFormed(t', w.clock) && t'.targets <= w.table.Keys && (Live(t') ==> Accounted(t', w.table, w.clock))
    ensures Inv(w.(locks := locks', txns := w.txns[tx := t']))
  {
    SetKeepsForm(w, tx, t', locks');
    SetKeepsIds(w, tx, t', locks');
    SetKeepsAccounts(w, tx, t', locks');
  }

  lemma SetKeepsForm(w: World, tx: Uuid, t': Transaction, locks': map<Uuid, Uuid>)
    requires AllWellFormed(w) && TargetsKnown(w) && WellFormed(t', w.clock) && t'.targets <= w.table.Keys
    ensures var w' := w.(locks := locks', txns := w.txns[tx := t']); AllWellFormed(w') && TargetsKnown(w')
  {
  }

  lemma SetKeepsIds(w: World, tx: Uuid, t': Transaction, locks': map<Uuid, Uuid>)
    requires IdsFresh(w)
    requires if tx in w.txns then Live(w.txns[tx]) && t'.bookingId == w.txns[tx].bookingId else NewId(w, t'.bookingId)
    ensures IdsFresh(w.(locks := locks', txns := w.txns[tx := t']))
  {
  }

  lemma SetKeepsAccounts(w: World, tx: Uuid, t': Transaction, locks': map<Uuid, Uuid>)
    requires AllAccounted(w) && (Live(t') ==> Accounted(t', w.table, w.clock))
    ensures AllAccounted(w.(locks := locks', txns := w.txns[tx := t']))
  {
  }

  lemma ReplaceInv(w: World, tx: Uuid, t': Transaction)
    requires Inv(w) && tx in w.txns && Live(w.txns[tx]) && t'.bookingId == w.txns[tx].bookingId
    requires Held(t') == Held(w.txns[tx]) && WellFormed(t', w.clock) && t'.targets <= w.table.Keys && Accounted(t', w.table, w.clock)
    ensures Inv(w.(txns := w.txns[tx := t']))
  {
    ReplaceKeepsLocks(w, tx, t');
    SetTransaction(w, tx, t', w.locks);
  }

  lemma LockKeepsLocks(w: World, tx: Uuid, t': Transaction, room: Uuid)
    requires LocksMatch(w.locks, w.txns) && tx in w.txns && room !in w.locks && Held(t') == Held(w.txns[tx]) + {room}
    ensures LocksMatch(w.locks[room := tx], w.txns[tx := t'])
  {
  }

  lemma LockStep(t: Transaction, table: Table, clock: Instant)
    requires WellFormed(t, clock) && t.phase.Locking? && t.phase.next < |t.rooms|
    ensures var t' := t.(phase := Locking(t.phase.next + 1));
      WellFormed(t', clock) && Held(t') == Held(t) + {t.rooms[t.phase.next]} && Accounted(t', table, clock)
  {
  }

  lemma TransactionFacts(w: World, tx: Uuid)
    requires AllWellFormed(w) && TargetsKnown(w) && tx in w.txns
    ensures WellFormed(w.txns[tx], w.clock) && w.txns[tx].targets <= w.table.Keys
  {
  }

  lemma LockInv(w: World, tx: Uuid)
    requires Inv(w) && CanLock(w, tx)
    ensures Inv(Locked(w, tx))
  {
    var t := w.txns[tx];
    var room := t.rooms[t.phase.next];
    var t' := t.(phase := Locking(t.phase.next + 1));
    TransactionFacts(w, tx);
    LockStep(t, w.table, w.clock);
    LockKeepsLocks(w, tx, t', room);
    SetTransaction(w, tx, t', w.locks[room := tx]);
  }

  lemma StartEvaluationInv(w: World, tx: Uuid)
    requires Inv(w) && Enabled(w, StartEvaluation(tx))
    ensures Inv(Step(w, StartEvaluation(tx)))
  {
    var t := w.txns[tx];
    var t' := t.(phase := Evaluating(0), clocks := Clocks(w.clock, t.clocks.dbNow));
    assert WellFormed(t, w.clock);
    assert Held(t') == Held(t);
    ReplaceInv(w, tx, t');
  }

  lemma LineAccounted(t: Transaction, t': Transaction, table: Table, clock: Instant)
    requires t.phase.Evaluating? && t.phase.next < |t.lines| && Accounted(t, table, clock) && t.clocks.dbNow <= clock
    requires t' == AfterLine(t, table)
    ensures Accounted(t', table, clock)
  {
    var k := t.phase.next;
    forall b, i | !t'.blocked && b in table && 0 <= i < k + 1 && Occupies(table[b], t.lines[i].Interval(), clock) ensures b in t'.targets {
      if i == k {
        ActiveShrinks(table[b], t.clocks.dbNow, clock);
        assert b !in Blockers(table, t.lines[k], t.canOverride, t.clocks);
      }
    }
  }

  lemma EvaluateLineInv(w: World, tx: Uuid)
    requires Inv(w) && Enabled(w, EvaluateLine(tx))
    ensures Inv(Step(w, EvaluateLine(tx)))
  {
    var t := w.txns[tx];
    var t' := AfterLine(t, w.table);
    assert WellFormed(t, w.clock) && t.bookingId !in w.table;
    LineAccounted(t, t', w.table, w.clock);
    assert Held(t') == Held(t);
    ReplaceInv(w, tx, t');
  }

  lemma WriteInv(w: World, tx: Uuid)
    requires Inv(w) && Enabled(w, Write(tx))
    ensures Inv(Step(w, Write(tx)))
  {
    var t := w.txns[tx];
    var t' := t.(phase := Written);
    assert WellFormed(t, w.clock);
    assert Held(t') == Held(t) && Evaluated(t') == Evaluated(t);
    assert Accounted(t', w.table, w.clock);
    ReplaceInv(w, tx, t');
  }

  lemma EndLocks(w: World, tx: Uuid)
    requires LocksMatch(w.locks, w.txns) && tx in w.txns
    ensures LocksMatch(Unlock(w.locks, tx), w.txns[tx := w.txns[tx].(phase := Ended)])
  {
  }

  lemma RollBackInv(w: World, tx: Uuid)
    requires Inv(w) && Enabled(w, RollBack(tx))
    ensures Inv(Step(w, RollBack(tx)))
  {
    EndLocks(w, tx);
    assert WellFormed(w.txns[tx], w.clock);
    SetTransaction(w, tx, w.txns[tx].(phase := Ended), Unlock(w.locks, tx));
  }

  /** A change that only releases occupancy leaves every evaluation accounted for. */
  lemma ReleaseAccounted(t: Transaction, table: Table, table': Table, clock: Instant)
    requires Accounted(t, table, clock) && (t.phase.Evaluating? ==> t.phase.next <= |t.lines|)
    requires forall b | b in table' :: b in table && forall wanted | Occupies(table'[b], wanted, clock) :: Occupies(table[b], wanted, clock)
    ensures Accounted(t, table', clock)
  {
  }

  lemma CancelInv(w: World, id: Uuid, cancelSlots: bool)
    requires Inv(w)
    ensures Inv(w.(table := CancelIn(w.table, id, cancelSlots)))
  {
    var table' := CancelIn(w.table, id, cancelSlots);
    CancelKeepsNoDoubleBooking(w.table, id, cancelSlots, w.clock);
    forall tx | tx in w.txns && Live(w.txns[tx]) ensures Accounted(w.txns[tx], table', w.clock) {
      ReleaseAccounted(w.txns[tx], w.table, table', w.clock);
    }
  }

  /** What an unblocked, fully evaluated transaction has not targeted does not meet its lines. */
  lemma UntargetedAreClear(w: World, tx: Uuid)
    requires Inv(w) && tx in w.txns && w.txns[tx].phase.Written?
    ensures forall b | b in w.table && b !in w.txns[tx].targets :: !OccupiesAny(w.table[b], w.txns[tx].lines, w.clock)
  {
  }

  lemma NewSlotsStayInRooms(booker: Uuid, ministry: Option<Uuid>, lines: seq<Line>, wanted: RoomInterval)
    requires lines != [] && HoldsConfirmedSlot(ConfirmedBooking(booker, ministry, lines), wanted)
    ensures exists l :: l in lines && l.room == wanted.room
  {
  }

  lemma HeldIsLocked(w: World, tx: Uuid, room: Uuid)
    requires LocksMatch(w.locks, w.txns) && tx in w.txns && room in Held(w.txns[tx])
    ensures room in w.locks && w.locks[room] == tx
  {
  }

  lemma EvaluatedRoomHeld(t: Transaction, clock: Instant, i: nat)
    requires WellFormed(t, clock) && i < Evaluated(t)
    ensures t.lines[i].room in Held(t)
  {
  }

  lemma WrittenRoomHeld(t: Transaction, clock: Instant, l: Line)
    requires WellFormed(t, clock) && t.phase.Written? && l in t.lines
    ensures l.room in Held(t)
  {
  }

  /** Two live transactions that hold all their rooms share no room, so one's new slots miss the other's lines. */
  lemma NewSlotsMissOtherLines(w: World, tx: Uuid, u: Uuid, i: nat)
    requires Inv(w) && tx in w.txns && u in w.txns && tx != u
    requires w.txns[tx].phase.Written? && i < Evaluated(w.txns[u])
    ensures w.txns[tx].lines != []
    ensures !HoldsConfirmedSlot(ConfirmedBooking(w.txns[tx].booker, w.txns[tx].ministry, w.txns[tx].lines), w.txns[u].lines[i].Interval())
  {
    var t, o := w.txns[tx], w.txns[u];
    var wanted := o.lines[i].Interval();
    assert WellFormed(t, w.clock) && WellFormed(o, w.clock);
    EvaluatedRoomHeld(o, w.clock, i);
    if HoldsConfirmedSlot(ConfirmedBooking(t.booker, t.ministry, t.lines), wanted) {
      NewSlotsStayInRooms(t.booker, t.ministry, t.lines, wanted);
      var l :| l in t.lines && l.room == wanted.room;
      WrittenRoomHeld(t, w.clock, l);
      HeldIsLocked(w, tx, wanted.room);
      HeldIsLocked(w, u, wanted.room);
    }
  }

  lemma CommitAccounted(w: World, tx: Uuid, u: Uuid)
    requires Inv(w) && Enabled(w, Commit(tx)) && u in w.txns && u != tx && Live(w.txns[u]) && w.txns[tx].lines != []
    ensures Accounted(w.txns[u], CommittedTable(w.table, w.txns[tx]), w.clock)
  {
    var t, o := w.txns[tx], w.txns[u];
    var table' := CommittedTable(w.table, t);
    assert Accounted(o, w.table, w.clock);
    forall b, i | !o.blocked && b in table' && 0 <= i < Evaluated(o) && Occupies(table'[b], o.lines[i].Interval(), w.clock)
      ensures b in o.targets
    {
      if b == t.bookingId {
        NewSlotsMissOtherLines(w, tx, u, i);
      } else if b !in t.targets {
        assert table'[b] == w.table[b];
      }
    }
  }

  lemma CommitKeepsIds(w: World, tx: Uuid)
    requires IdsFresh(w) && tx in w.txns && Live(w.txns[tx]) && w.txns[tx].lines != []
    ensures IdsFresh(Committed(w, tx))
  {
    assert Committed(w, tx).table.Keys == w.table.Keys + {w.txns[tx].bookingId};
  }

  lemma CommitKeepsForm(w: World, tx: Uuid)
    requires AllWellFormed(w) && TargetsKnown(w) && tx in w.txns && w.txns[tx].phase.Written? && w.txns[tx].lines != []
    ensures AllWellFormed(Committed(w, tx)) && TargetsKnown(Committed(w, tx))
  {
    assert WellFormed(w.txns[tx], w.clock);
    assert w.table.Keys <= Committed(w, tx).table.Keys;
  }

  lemma CommitKeepsDisjoint(w: World, tx: Uuid)
    requires Inv(w) && Enabled(w, Commit(tx)) && w.txns[tx].lines != []
    ensures NoDoubleBooking(CommittedTable(w.table, w.txns[tx]), w.clock)
  {
    var t := w.txns[tx];
    UntargetedAreClear(w, tx);
    ConfirmKeepsNoDoubleBooking(w.table, t.targets, t.bookingId, t.booker, t.ministry, t.lines, w.clock);
  }

  lemma CommitKeepsAccounts(w: World, tx: Uuid)
    requires Inv(w) && Enabled(w, Commit(tx)) && w.txns[tx].lines != []
    ensures AllAccounted(Committed(w, tx))
  {
    var w' := Committed(w, tx);
    forall u | u in w'.txns && Live(w'.txns[u]) ensures Accounted(w'.txns[u], w'.table, w.clock) {
      CommitAccounted(w, tx, u);
    }
  }

  lemma CommitInv(w: World, tx: Uuid)
    requires Inv(w) && Enabled(w, Commit(tx)) && w.txns[tx].lines != []
    ensures Inv(Committed(w, tx))
  {
    CommitKeepsDisjoint(w, tx);
    EndLocks(w, tx);
    CommitKeepsForm(w, tx);
    CommitKeepsIds(w, tx);
    CommitKeepsAccounts(w, tx);
  }

  lemma BeginInv(w: World, a: Action)
    requires Inv(w) && a.Begin? && Enabled(w, a)
    ensures Inv(Step(w, a))
  {
    var t := Transaction(a.bookingId, a.booker, a.ministry, a.canOverride, a.lines, a.rooms, Clocks(w.clock, w.clock), Locking(0), {}, false);
    assert Held(t) == {};
    BeginKeepsLocks(w, a.tx, t);
    SetTransaction(w, a.tx, t, w.locks);
  }

  lemma BeginKeepsLocks(w: World, tx: Uuid, t: Transaction)
    requires LocksMatch(w.locks, w.txns) && tx !in w.txns && Held(t) == {}
    ensures LocksMatch(w.locks, w.txns[tx := t])
  {
  }

  lemma StepInv(w: World, a: Action)
    requires Inv(w) && Enabled(w, a)
    ensures Inv(Step(w, a))
  {
    match a
    case Tick(to) => TickInv(w, to);
    case Begin(_, _, _, _, _, _, _) => BeginInv(w, a);
    case Lock(tx) => LockInv(w, tx);
    case StartEvaluation(tx) => StartEvaluationInv(w, tx);
    case EvaluateLine(tx) => EvaluateLineInv(w, tx);
    case Write(tx) => WriteInv(w, tx);
    case Commit(tx) =>
      assert WellFormed(w.txns[tx], w.clock);
      CommitInv(w, tx);
    case RollBack(tx) => RollBackInv(w, tx);
    case Cancel(id, cancelSlots) => CancelInv(w, id, cancelSlots);
  }

  // ----- Whole runs

  ghost predicate Leads(w: World, a: Action, w': World) {
    AllHaveLines(w) && Enabled(w, a) && w' == Step(w, a)
  }

  /** Each world follows from the one before by the action taken. */
  ghost predicate IsSteps(ws: seq<World>, actions: seq<Action>) {
    && |ws| == |actions| + 1
    && forall i | 0 <= i < |actions| :: Leads(ws[i], actions[i], ws[i + 1])
  }

  /** `ws` is an interleaving from a world at rest. */
  ghost predicate IsRun(ws: seq<World>, actions: seq<Action>) {
    IsSteps(ws, actions) && Init(ws[0])
  }

  lemma {:induction false} RunInv(ws: seq<World>, actions: seq<Action>, i: nat)
    requires IsRun(ws, actions) && i < |ws|
    ensures Inv(ws[i])
  {
    if i == 0 {
      InitInv(ws[0]);
    } else {
      RunInv(ws, actions, i - 1);
      assert Leads(ws[i - 1], actions[i - 1], ws[i]);
      StepInv(ws[i - 1], actions[i - 1]);
    }
  }

  /** In every committed state of every interleaving, different active Bookings never share a room and time. */
  lemma NoInterleavingDoubleBooks(ws: seq<World>, actions: seq<Action>, i: nat)
    requires IsRun(ws, actions) && i < |ws|
    ensures NoDoubleBooking(ws[i].table, ws[i].clock)
  {
    RunInv(ws, actions, i);
  }

  /** Over every run, at every instant every room is held by at most one active Booking. */
  lemma NoInstantHeldTwice(ws: seq<World>, actions: seq<Action>, i: nat, a: Uuid, b: Uuid, room: Uuid, t: Instant)
    requires IsRun(ws, actions) && i < |ws| && a in ws[i].table && b in ws[i].table && a != b
    requires Active(ws[i].table[a], ws[i].clock) && Active(ws[i].table[b], ws[i].clock)
    ensures !(HoldsAt(ws[i].table[a], room, t) && HoldsAt(ws[i].table[b], room, t))
  {
    RunInv(ws, actions, i);
    NoDoubleBookingHasOneHolder(ws[i].table, ws[i].clock);
  }

  /** Every collected target was a Non-ministry Booking when it was met, and no commit changes that. */
  ghost predicate TargetsEligible(w: World) {
    forall tx, b | tx in w.txns && b in w.txns[tx].targets :: b in w.table && w.table[b].ministry.None?
  }

  lemma EvaluationKeepsEligible(w: World, tx: Uuid)
    requires TargetsEligible(w) && Enabled(w, EvaluateLine(tx))
    ensures TargetsEligible(w.(txns := w.txns[tx := AfterLine(w.txns[tx], w.table)]))
  {
  }

  lemma CommitKeepsEligible(w: World, tx: Uuid)
    requires TargetsEligible(w) && tx in w.txns && w.txns[tx].lines != [] && w.txns[tx].bookingId !in w.table
    ensures TargetsEligible(Committed(w, tx))
  {
  }

  lemma OtherStepKeepsEligible(w: World, a: Action)
    requires AllHaveLines(w) && TargetsEligible(w) && Enabled(w, a) && !a.Commit? && !a.EvaluateLine?
    ensures TargetsEligible(Step(w, a))
  {
  }

  lemma StepKeepsEligible(w: World, a: Action)
    requires AllHaveLines(w) && IdsFresh(w) && TargetsEligible(w) && Enabled(w, a)
    ensures TargetsEligible(Step(w, a))
  {
    if a.EvaluateLine? {
      EvaluationKeepsEligible(w, a.tx);
    } else if a.Commit? {
      CommitKeepsEligible(w, a.tx);
    } else {
      OtherStepKeepsEligible(w, a);
    }
  }

  lemma {:induction false} RunEligible(ws: seq<World>, actions: seq<Action>, i: nat)
    requires IsRun(ws, actions) && i < |ws|
    ensures TargetsEligible(ws[i])
  {
    if i > 0 {
      RunEligible(ws, actions, i - 1);
      RunInv(ws, actions, i - 1);
      assert Leads(ws[i - 1], actions[i - 1], ws[i]);
      StepKeepsEligible(ws[i - 1], actions[i - 1]);
    }
  }

  lemma StepKeepsMinistryBooking(w: World, a: Action, b: Uuid)
    requires AllHaveLines(w) && IdsFresh(w) && TargetsEligible(w) && Enabled(w, a)
    requires b in w.table && w.table[b].ministry.Some? && !(a.Cancel? && a.bookingId == b)
    ensures b in Step(w, a).table && Step(w, a).table[b] == w.table[b]
  {
    if a.Commit? {
      assert b !in w.txns[a.tx].targets;
      assert w.txns[a.tx].bookingId !in w.table;
    }
  }

  /** Over every run, a Ministry Booking changes only when it is cancelled; no confirmation displaces it. */
  lemma MinistryBookingsStand(ws: seq<World>, actions: seq<Action>, i: nat, b: Uuid)
    requires IsRun(ws, actions) && i < |actions|
    requires b in ws[i].table && ws[i].table[b].ministry.Some?
    requires !(actions[i].Cancel? && actions[i].bookingId == b)
    ensures b in ws[i + 1].table && ws[i + 1].table[b] == ws[i].table[b]
  {
    RunEligible(ws, actions, i);
    RunInv(ws, actions, i);
    assert Leads(ws[i], actions[i], ws[i + 1]);
    StepKeepsMinistryBooking(ws[i], actions[i], b);
  }

  // ----- An undisturbed transaction is one whole confirmation

  /** Every remaining line evaluated against one unchanged table. */
  function EvaluateRest(t: Transaction, table: Table): Transaction
    requires t.phase.Evaluating? && t.phase.next <= |t.lines|
    decreases |t.lines| - t.phase.next
  {
    if t.phase.next == |t.lines| then t else EvaluateRest(AfterLine(t, table), table)
  }

  ghost predicate CollectedAll(t: Transaction, table: Table, lines: seq<Line>) {
    && t.targets == AllDisplaced(table, lines, t.canOverride, t.clocks)
    && (t.blocked <==> !Unblocked(table, lines, t.canOverride, t.clocks))
  }

  lemma UnblockedAppend(table: Table, lines: seq<Line>, line: Line, canOverride: bool, clocks: Clocks)
    ensures Unblocked(table, lines + [line], canOverride, clocks) <==> Unblocked(table, lines, canOverride, clocks) && Blockers(table, line, canOverride, clocks) == {}
  {
  }

  lemma {:induction false} EvaluateRestCollects(t: Transaction, table: Table)
    requires t.phase.Evaluating? && t.phase.next <= |t.lines| && CollectedAll(t, table, t.lines[..t.phase.next])
    ensures var e := EvaluateRest(t, table);
      e == t.(phase := Evaluating(|t.lines|), targets := e.targets, blocked := e.blocked) && CollectedAll(e, table, t.lines)
    decreases |t.lines| - t.phase.next
  {
    var k := t.phase.next;
    if k == |t.lines| {
      assert t.lines[..k] == t.lines;
    } else {
      assert t.lines[..k + 1] == t.lines[..k] + [t.lines[k]];
      AllDisplacedAppend(table, t.lines[..k], t.lines[k], t.canOverride, t.clocks);
      UnblockedAppend(table, t.lines[..k], t.lines[k], t.canOverride, t.clocks);
      EvaluateRestCollects(AfterLine(t, table), table);
    }
  }

  /**
   With nothing else committed while it evaluates, a transaction is blocked exactly when the confirmation of the same
   lines is, and commits exactly that confirmation's table.
   */
  lemma UndisturbedIsOneConfirmation(t: Transaction, table: Table)
    requires t.phase == Evaluating(0) && t.targets == {} && !t.blocked && t.lines != []
    ensures var e := EvaluateRest(t, table);
      && (e.blocked <==> !Unblocked(table, t.lines, t.canOverride, t.clocks))
      && e.lines == t.lines
      && CommittedTable(table, e)
         == OverrideAll(table, AllDisplaced(table, t.lines, t.canOverride, t.clocks))[t.bookingId := ConfirmedBooking(t.booker, t.ministry, t.lines)]
  {
    assert AllDisplaced(table, [], t.canOverride, t.clocks) == {} && t.lines[..0] == [];
    EvaluateRestCollects(t, table);
  }

  // ----- Sorted locks do not deadlock

  ghost predicate CanMove(w: World, tx: Uuid) {
    || Enabled(w, Lock(tx)) || Enabled(w, StartEvaluation(tx)) || Enabled(w, EvaluateLine(tx))
    || Enabled(w, Write(tx)) || Enabled(w, Commit(tx))
  }

  predicate Waiting(w: World, tx: Uuid) {
    && tx in w.txns && w.txns[tx].phase.Locking? && w.txns[tx].phase.next < |w.txns[tx].rooms|
    && w.txns[tx].rooms[w.txns[tx].phase.next] in w.locks
  }

  function Wanted(w: World, tx: Uuid): Uuid
    requires Waiting(w, tx)
  {
    w.txns[tx].rooms[w.txns[tx].phase.next]
  }

  /** Some member of a non-empty set wants the greatest room. */
  lemma {:induction false} GreatestWanted(w: World, waiting: set<Uuid>) returns (tx: Uuid)
    requires waiting != {} && forall u | u in waiting :: Waiting(w, u)
    ensures tx in waiting && forall u | u in waiting :: Wanted(w, u) <= Wanted(w, tx)
    decreases waiting
  {
    var first :| first in waiting;
    if waiting == {first} {
      return first;
    }
    var rest := GreatestWanted(w, waiting - {first});
    tx := if Wanted(w, rest) <= Wanted(w, first) then first else rest;
  }

  /** The holder of a room that another transaction waits for either waits for a greater room or does not wait. */
  lemma HolderWantsGreater(w: World, tx: Uuid)
    requires Inv(w) && Waiting(w, tx)
    ensures var h := w.locks[Wanted(w, tx)];
      h in w.txns && Live(w.txns[h]) && (Waiting(w, h) ==> Wanted(w, tx) < Wanted(w, h))
  {
    var room := Wanted(w, tx);
    var h := w.locks[room];
    assert room in Held(w.txns[h]);
    if Waiting(w, h) {
      var t := w.txns[h];
      var j :| 0 <= j < t.phase.next && t.rooms[j] == room;
    }
  }

  /** A blocked evaluation can only roll back; anything else that is live and not waiting can move. */
  lemma LiveMovesOrWaits(w: World, tx: Uuid)
    requires Inv(w) && tx in w.txns && Live(w.txns[tx])
    ensures CanMove(w, tx) || Waiting(w, tx) || (w.txns[tx].phase.Evaluating? && w.txns[tx].blocked)
  {
  }

  /** While any transaction is live, some live transaction is not waiting for a room: the sorted locks cannot deadlock. */
  lemma NoDeadlock(ws: seq<World>, actions: seq<Action>, i: nat)
    requires IsRun(ws, actions) && i < |ws|
    requires exists tx :: tx in ws[i].txns && Live(ws[i].txns[tx])
    ensures exists tx :: tx in ws[i].txns && Live(ws[i].txns[tx])
              && (CanMove(ws[i], tx) || (ws[i].txns[tx].phase.Evaluating? && ws[i].txns[tx].blocked))
  {
    var w := ws[i];
    RunInv(ws, actions, i);
    var live :| live in w.txns && Live(w.txns[live]);
    LiveMovesOrWaits(w, live);
    var waiting := set tx | tx in w.txns && Waiting(w, tx);
    if Waiting(w, live) {
      assert live in waiting;
      var tx := GreatestWanted(w, waiting);
      HolderWantsGreater(w, tx);
      var h := w.locks[Wanted(w, tx)];
      assert h !in waiting;
      LiveMovesOrWaits(w, h);
    }
  }

  // ----- Why the claim is about commits

  /** The transaction's own view once its slots are inserted and before its targets are released. */
  ghost function InsertedView(w: World, tx: Uuid): Table
    requires tx in w.txns && w.txns[tx].lines != []
  {
    w.table[w.txns[tx].bookingId := ConfirmedBooking(w.txns[tx].booker, w.txns[tx].ministry, w.txns[tx].lines)]
  }

  ghost predicate StillMet(w: World, tx: Uuid) {
    tx in w.txns && exists c :: c in w.txns[tx].targets && c in w.table && OccupiesAny(w.table[c], w.txns[tx].lines, w.clock)
  }

  lemma InsertedViewClashes(w: World, tx: Uuid)
    requires Inv(w) && tx in w.txns && w.txns[tx].phase.Written? && w.txns[tx].lines != [] && StillMet(w, tx)
    ensures !NoDoubleBooking(InsertedView(w, tx), w.clock)
  {
    var t, view := w.txns[tx], InsertedView(w, tx);
    var c :| c in t.targets && c in w.table && OccupiesAny(w.table[c], t.lines, w.clock);
    NewBookingClash(w.table[c], t.booker, t.ministry, t.lines);
    assert t.bookingId !in w.table;
    assert view[c] == w.table[c] && Active(view[t.bookingId], w.clock) && SlotsClash(view[c], view[t.bookingId]);
  }

  lemma InsertedViewClear(w: World, tx: Uuid)
    requires Inv(w) && tx in w.txns && w.txns[tx].phase.Written? && w.txns[tx].lines != [] && !StillMet(w, tx)
    ensures NoDoubleBooking(InsertedView(w, tx), w.clock)
  {
    var t := w.txns[tx];
    UntargetedAreClear(w, tx);
    assert t.bookingId !in w.table;
    assert OverrideAll(w.table, {}) == w.table;
    ConfirmKeepsNoDoubleBooking(w.table, {}, t.bookingId, t.booker, t.ministry, t.lines, w.clock);
  }

  /**
   Slots are inserted before the displaced ones are released, so the invariant is one of commits: until then the
   transaction's own view double-books exactly while one of its targets still occupies one of its lines.
   */
  lemma InsertedViewClashesOnlyWithTargets(w: World, tx: Uuid)
    requires Inv(w) && tx in w.txns && w.txns[tx].phase.Written?
    ensures w.txns[tx].lines != [] && (NoDoubleBooking(InsertedView(w, tx), w.clock) <==> !StillMet(w, tx))
  {
    assert WellFormed(w.txns[tx], w.clock);
    if StillMet(w, tx) {
      InsertedViewClashes(w, tx);
    } else {
      InsertedViewClear(w, tx);
    }
  }
}
