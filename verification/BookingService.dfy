/** One-time confirmation and cancellation against the facility tables. */
module BookingService {
  import opened Options
  import opened FacilityTypes
  import opened LocalTime
  import opened Sorting
  import opened Sequences
  import opened BookingLines
  import opened Bookings
  import opened FacilityDatabase
  import opened OneTimeOverride
  import opened PriorityOverride
  import OpeningHours
  import Blackouts
  import Pricing
  import RT = ReviewToken
  import Strings

  /** Everything that a confirmation reads besides the booking tables. */
  datatype Facility = Facility(ministries: map<Uuid, Ministry>, templates: seq<OpeningHours.Template>, blackouts: seq<Blackouts.Blackout>,
                               zone: Zone, maxLines: nat, prices: Pricing.Catalog, names: Directory, codec: RT.Codec)

  datatype CreateCommand = CreateCommand(title: string, startAt: Instant, endAt: Instant, ministry: Option<Uuid>, user: Option<Uuid>,
                                         rooms: seq<RoomLine>, surchargeCodes: seq<string>, draftId: Option<Uuid>,
                                         enforceOpeningHours: bool, allowOverride: bool, token: Option<string>)

  datatype Refusal =
    | RoomsRequired | NotAuthenticated | MinistryInactive | NotSteward | TitleRequired | TooManyLines
    | BadLines(fault: LineError) | SchedulingConflict | RoomBlackout(room: Uuid) | OutsideOpeningHours(room: Uuid)
    | NotReviewed(verdict: RT.Verdict) | QuoteRefused(reason: Pricing.QuoteError) | BookingNotFound

  // ----- The checks, in the order they are made

  /** The status lookup hides soft-deleted Ministries. */
  function GateRefusal(f: Facility, ministry: Option<Uuid>, booker: Uuid): Option<Refusal> {
    match ministry
    case None => None
    case Some(id) =>
      if id !in f.ministries || f.ministries[id].deleted || !f.ministries[id].active then Some(MinistryInactive)
      else if booker !in f.ministries[id].stewards then Some(NotSteward)
      else None
  }

  function DraftTitle(drafts: map<Uuid, BookingDraft>, draftId: Option<Uuid>, booker: Uuid): string {
    if draftId.Some? && draftId.value in drafts && drafts[draftId.value].user == booker then drafts[draftId.value].title else ""
  }

  function TitleOf(drafts: map<Uuid, BookingDraft>, command: CreateCommand, booker: Uuid): string {
    var own := DraftTitle(drafts, command.draftId, booker);
    if own != "" then own else command.title
  }

  function ListActiveForDay(templates: seq<OpeningHours.Template>, room: Uuid, day: Date): seq<OpeningHours.Template> {
    Sort(ActiveTemplates(templates, room, day), (a: OpeningHours.Template, b: OpeningHours.Template) => a.startTime <= b.startTime)
  }

  function ActiveTemplates(templates: seq<OpeningHours.Template>, room: Uuid, day: Date): seq<OpeningHours.Template> {
    if templates == [] then []
    else
      var rest := ActiveTemplates(templates[1..], room, day);
      if templates[0].active && templates[0].room == room && MaskHas(templates[0].daysMask, day) then [templates[0]] + rest else rest
  }

  predicate IsBlackedOut(f: Facility, line: Line) {
    Blackouts.HasBlackoutOverlap(f.blackouts, line.room, line.startAt, line.endAt, f.zone)
  }

  ghost predicate IsOpen(f: Facility, line: Line) {
    OpeningHours.WithinOpeningHours(line.startAt, line.endAt, ListActiveForDay(f.templates, line.room, f.zone.DateOf(line.startAt)), f.zone)
  }

  ghost function ClosureRefusal(f: Facility, lines: seq<Line>, enforceOpeningHours: bool): Option<Refusal> {
    if lines == [] then None
    else if IsBlackedOut(f, lines[0]) then Some(RoomBlackout(lines[0].room))
    else if enforceOpeningHours && !IsOpen(f, lines[0]) then Some(OutsideOpeningHours(lines[0].room))
    else ClosureRefusal(f, lines[1..], enforceOpeningHours)
  }

  /** Hours to two decimals, ties to the even hundredth. */
  function BilledHours(startAt: Instant, endAt: Instant): real {
    var hundredths := (endAt - startAt) * 100;
    var whole, rest := hundredths / HOUR, hundredths % HOUR;
    (if 2 * rest > HOUR || (2 * rest == HOUR && whole % 2 == 1) then whole + 1 else whole) as real / 100.0
  }

  function QuoteLines(lines: seq<Line>): (r: seq<Pricing.QuoteLine>)
    ensures |r| == |lines|
  {
    seq(|lines|, i requires 0 <= i < |lines| => Pricing.QuoteLine(lines[i].room, BilledHours(lines[i].startAt, lines[i].endAt)))
  }

  /** A qualifying Ministry books for free; any other One-time booking has no discount. */
  function QuoteCommandOf(f: Facility, lines: seq<Line>, ministry: Option<Uuid>, booker: Uuid, codes: seq<string>): Pricing.QuoteCommand {
    Pricing.QuoteCommand(QuoteLines(lines), codes, ministry.Some? && GateRefusal(f, ministry, booker).None?, 0.0)
  }

  function ContextOf(f: Facility, ministry: Option<Uuid>, booker: Uuid): Option<Context> {
    match ministry case None => None case Some(id) => LoadMinistryProposalContext(f.ministries, id, booker)
  }

  function Proposal(codec: RT.Codec, lines: seq<Line>): seq<string> {
    RT.Keys(codec, Intervals(lines))
  }

  function ImpactsOf(table: Table, ids: set<Uuid>): set<RT.Impact>
    requires ids <= table.Keys
  {
    set id | id in ids :: ImpactOf(table, id)
  }

  ghost function ReviewRefusal(table: Table, f: Facility, lines: seq<Line>, ministry: Option<Uuid>, booker: Uuid, token: Option<string>,
                               displaced: set<Uuid>): Option<Refusal>
    requires displaced <= table.Keys
  {
    var verdict := RT.ReviewVerdict(f.codec, token, booker, ministry, Proposal(f.codec, lines), ImpactsOf(table, displaced));
    if verdict.Accepted? then None else Some(NotReviewed(verdict))
  }

  /** The named booker, or the operator. */
  function BookerOf(command: CreateCommand, operator: Uuid): Uuid {
    match command.user case Some(user) => user case None => operator
  }

  function Lines(command: CreateCommand): seq<Line> {
    ResolveBookingLines(command.rooms, command.startAt, command.endAt)
  }

  function Overrides(f: Facility, command: CreateCommand, booker: Uuid): bool {
    CanOverride(ContextOf(f, command.ministry, booker), command.allowOverride)
  }

  function DisplacedBy(table: Table, f: Facility, clocks: Clocks, command: CreateCommand, booker: Uuid): (ids: set<Uuid>)
    ensures ids <= table.Keys
  {
    AllDisplaced(table, Lines(command), Overrides(f, command, booker), clocks)
  }

  /** Why the occupied, closed, unreviewed or unpriced lines of a command are refused. */
  ghost function LinesRefusal(table: Table, f: Facility, clocks: Clocks, command: CreateCommand, booker: Uuid): Option<Refusal> {
    var lines := Lines(command);
    if !Unblocked(table, lines, Overrides(f, command, booker), clocks) then Some(SchedulingConflict)
    else if ClosureRefusal(f, lines, command.enforceOpeningHours).Some? then ClosureRefusal(f, lines, command.enforceOpeningHours)
    else
      var review := ReviewRefusal(table, f, lines, command.ministry, booker, command.token, DisplacedBy(table, f, clocks, command, booker));
      if review.Some? then review
      else
        match Pricing.Refusal(f.prices, QuoteCommandOf(f, lines, command.ministry, booker, command.surchargeCodes))
        case Some(e) => Some(QuoteRefused(e))
        case None => None
  }

  /** The refusal of a create command, or none when it succeeds. */
  ghost function CreateRefusal(table: Table, drafts: map<Uuid, BookingDraft>, f: Facility, operator: Option<Uuid>, clocks: Clocks,
                               command: CreateCommand): Option<Refusal> {
    if command.rooms == [] then Some(RoomsRequired)
    else if operator.None? then Some(NotAuthenticated)
    else
      var booker := BookerOf(command, operator.value);
      if GateRefusal(f, command.ministry, booker).Some? then GateRefusal(f, command.ministry, booker)
      else if TitleOf(drafts, command, booker) == "" then Some(TitleRequired)
      else if |command.rooms| > f.maxLines then Some(TooManyLines)
      else
        match FaultFrom(Lines(command), 0, f.zone)
        case Some(fault) => Some(BadLines(fault))
        case None => LinesRefusal(table, f, clocks, command, booker)
  }

  /** The table after a successful confirmation. */
  function CreatedTable(table: Table, f: Facility, clocks: Clocks, command: CreateCommand, booker: Uuid, id: Uuid): Table
    requires command.rooms != []
  {
    OverrideAll(table, DisplacedBy(table, f, clocks, command, booker))[id := ConfirmedBooking(booker, command.ministry, Lines(command))]
  }

  function Replacements(id: Uuid, targets: seq<OverrideTarget>): (r: seq<Replacement>)
    ensures |r| == |targets|
  {
    seq(|targets|, i requires 0 <= i < |targets| => Replacement(id, targets[i]))
  }

  /** The drafts after a confirmation: the source draft is consumed only when the booker owns it. */
  function ConsumedDrafts(drafts: map<Uuid, BookingDraft>, draftId: Option<Uuid>, booker: Uuid): map<Uuid, BookingDraft> {
    if draftId.Some? && draftId.value in drafts && drafts[draftId.value].user == booker then drafts - {draftId.value} else drafts
  }

  class BookingService {
    const db: Database

    constructor (db: Database)
      ensures this.db == db
    {
      this.db := db;
    }

    method RaiseIfRoomClosed(f: Facility, line: Line, enforceOpeningHours: bool) returns (refusal: Option<Refusal>)
      ensures refusal == if IsBlackedOut(f, line) then Some(RoomBlackout(line.room))
                         else if enforceOpeningHours && !IsOpen(f, line) then Some(OutsideOpeningHours(line.room))
                         else None
    {
      if Blackouts.HasBlackoutOverlap(f.blackouts, line.room, line.startAt, line.endAt, f.zone) {
        return Some(RoomBlackout(line.room));
      }
      if enforceOpeningHours {
        var templates := ListActiveForDay(f.templates, line.room, f.zone.DateOf(line.startAt));
        var open := OpeningHours.MemberIntervalWithinOpeningHours(line.startAt, line.endAt, templates, f.zone);
        if !open {
          return Some(OutsideOpeningHours(line.room));
        }
      }
      return None;
    }

    method RaiseIfAnyRoomClosed(f: Facility, lines: seq<Line>, enforceOpeningHours: bool) returns (refusal: Option<Refusal>)
      ensures refusal == ClosureRefusal(f, lines, enforceOpeningHours)
    {
      for i := 0 to |lines|
        invariant ClosureRefusal(f, lines, enforceOpeningHours) == ClosureRefusal(f, lines[i..], enforceOpeningHours)
      {
        refusal := RaiseIfRoomClosed(f, lines[i], enforceOpeningHours);
        if refusal.Some? {
          return;
        }
      }
      return None;
    }

    /** The checks under the room locks; `conflicts` is the context of a scheduling conflict. */
    method ValidateOccupancy(f: Facility, clocks: Clocks, command: CreateCommand, booker: Uuid)
      returns (refusal: Option<Refusal>, targets: seq<OverrideTarget>, conflicts: seq<Conflict>, ghost blockers: seq<seq<OccupyingRow>>)
      ensures refusal == LinesRefusal(db.bookings, f, clocks, command, booker)
      ensures AreTargets(targets, db.bookings, Lines(command), Overrides(f, command, booker), clocks, f.zone)
      ensures AreBlockers(blockers, db.bookings, Lines(command), Overrides(f, command, booker), clocks)
      ensures conflicts == AllConflicts(Lines(command), blockers, ContextOf(f, command.ministry, booker), f.names)
    {
      var lines := Lines(command);
      var context := ContextOf(f, command.ministry, booker);
      var evaluation;
      evaluation, blockers := EvaluateOneTimeOccupancy(db, lines, context, clocks, f.zone, f.names, command.allowOverride);
      targets, conflicts := evaluation.targets, evaluation.conflicts;
      NoConflictIffUnblocked(db.bookings, lines, blockers, context, f.names, CanOverride(context, command.allowOverride), clocks);
      if conflicts != [] {
        return Some(SchedulingConflict), targets, conflicts, blockers;
      }
      refusal := RaiseIfAnyRoomClosed(f, lines, command.enforceOpeningHours);
      if refusal.Some? {
        return;
      }
      var impacts := Impacts(targets);
      TargetImpacts(targets, db.bookings, lines, Overrides(f, command, booker), clocks, f.zone);
      var verdict := RT.RequireReviewedOverride(f.codec, command.token, booker, command.ministry, Proposal(f.codec, lines), impacts);
      if !verdict.Accepted? {
        return Some(NotReviewed(verdict)), targets, conflicts, blockers;
      }
      var quote := Pricing.PreviewQuote(f.prices, QuoteCommandOf(f, lines, command.ministry, booker, command.surchargeCodes));
      if quote.Failure? {
        return Some(QuoteRefused(quote.error)), targets, conflicts, blockers;
      }
      return None, targets, conflicts, blockers;
    }

    /** Override every target and queue one notification; without targets nothing happens. */
    method DisplaceTargets(id: Uuid, targets: seq<OverrideTarget>, operator: Uuid)
      modifies db`bookings, db`overrideLog, db`afterCommit
      ensures db.bookings == OverrideAll(old(db.bookings), AsSet(TargetIds(targets)))
      ensures db.overrideLog == old(db.overrideLog) + AuditRows(Replacements(id, targets), operator)
      ensures db.afterCommit == old(db.afterCommit) + if targets == [] then [] else [Items(Replacements(id, targets))]
    {
      ReplacedAreTargets(id, targets);
      if targets != [] {
        var items := ApplyWholeBookingOverrides(db, Replacements(id, targets), operator);
        db.afterCommit := db.afterCommit + [items];
      } else {
        assert AsSet(TargetIds(targets)) == {};
        assert OverrideAll(db.bookings, {}) == db.bookings;
      }
    }

    /** Insert the new Booking, displace every target, and consume the draft. */
    method WriteConfirmation(command: CreateCommand, booker: Uuid, operator: Uuid, targets: seq<OverrideTarget>, id: Uuid)
      requires command.rooms != [] && id !in db.bookings && id !in TargetIds(targets)
      modifies db
      ensures db.bookings == OverrideAll(old(db.bookings), AsSet(TargetIds(targets)))[id := ConfirmedBooking(booker, command.ministry, Lines(command))]
      ensures db.overrideLog == old(db.overrideLog) + AuditRows(Replacements(id, targets), operator)
      ensures db.afterCommit == old(db.afterCommit) + if targets == [] then [] else [Items(Replacements(id, targets))]
      ensures db.drafts == ConsumedDrafts(old(db.drafts), command.draftId, booker)
    {
      var lines := Lines(command);
      ghost var table := db.bookings;
      var header := ConfirmedBooking(booker, command.ministry, lines);
      db.InsertBooking(id, header.(slots := []));
      db.ReplaceBookingSlots(id, ConfirmedSlots(lines));
      assert db.bookings == table[id := header];
      OverrideAround(table, AsSet(TargetIds(targets)), id, header);
      DisplaceTargets(id, targets, operator);
      if command.draftId.Some? && command.draftId.value in db.drafts && db.drafts[command.draftId.value].user == booker {
        db.DeleteDraft(command.draftId.value);
      }
    }

    /** The checks in order, then the writes. */
    method CheckAndConfirm(f: Facility, operator: Option<Uuid>, clocks: Clocks, command: CreateCommand, id: Uuid)
      returns (r: Result<Uuid, Refusal>, conflicts: seq<Conflict>)
      requires id !in db.bookings
      modifies db
      ensures r == (match CreateRefusal(old(db.bookings), old(db.drafts), f, operator, clocks, command)
                    case Some(e) => Failure(e) case None => Success(id))
      ensures r.Failure? ==> unchanged(db)
      ensures r.Success? ==> operator.Some? && command.rooms != []
      ensures r.Success? ==> db.bookings == CreatedTable(old(db.bookings), f, clocks, command, BookerOf(command, operator.value), id)
      ensures r.Success? ==> db.drafts == ConsumedDrafts(old(db.drafts), command.draftId, BookerOf(command, operator.value))
      ensures r.Success? ==> exists targets ::
          && AreTargets(targets, old(db.bookings), Lines(command), Overrides(f, command, BookerOf(command, operator.value)), clocks, f.zone)
          && db.overrideLog == old(db.overrideLog) + AuditRows(Replacements(id, targets), operator.value)
          && db.afterCommit == old(db.afterCommit) + (if targets == [] then [] else [Items(Replacements(id, targets))])
      ensures r == Failure(SchedulingConflict) ==> operator.Some? && exists blockers ::
          && AreBlockers(blockers, old(db.bookings), Lines(command), Overrides(f, command, BookerOf(command, operator.value)), clocks)
          && conflicts == AllConflicts(Lines(command), blockers, ContextOf(f, command.ministry, BookerOf(command, operator.value)), f.names)
    {
      conflicts := [];
      if command.rooms == [] {
        return Failure(RoomsRequired), conflicts;
      }
      if operator.None? {
        return Failure(NotAuthenticated), conflicts;
      }
      var booker := BookerOf(command, operator.value);
      var gate := GateRefusal(f, command.ministry, booker);
      if gate.Some? {
        return Failure(gate.value), conflicts;
      }
      if TitleOf(db.drafts, command, booker) == "" {
        return Failure(TitleRequired), conflicts;
      }
      if |command.rooms| > f.maxLines {
        return Failure(TooManyLines), conflicts;
      }
      var fault := ValidateBookingLines(Lines(command), f.zone);
      if fault.Some? {
        return Failure(BadLines(fault.value)), conflicts;
      }
      var refusal, targets;
      ghost var blockers;
      refusal, targets, conflicts, blockers := ValidateOccupancy(f, clocks, command, booker);
      if refusal.Some? {
        return Failure(refusal.value), conflicts;
      }
      WriteConfirmation(command, booker, operator.value, targets, id);
      return Success(id), conflicts;
    }

    /**
     Confirm a proposal. It succeeds exactly when no check refuses it, and then displaces exactly the
     eligible occupants; a refused command changes nothing. `id` is the new Booking's fresh identifier.
     */
    method CreateBooking(f: Facility, operator: Option<Uuid>, clocks: Clocks, command: CreateCommand, id: Uuid)
      returns (r: Result<Uuid, Refusal>, conflicts: seq<Conflict>)
      requires id !in db.bookings
      modifies db
      ensures r == (match CreateRefusal(old(db.bookings), old(db.drafts), f, operator, clocks, command)
                    case Some(e) => Failure(e) case None => Success(id))
      ensures r.Failure? ==> unchanged(db)
      ensures r.Success? ==> operator.Some? && command.rooms != []
      ensures r.Success? ==> db.bookings == CreatedTable(old(db.bookings), f, clocks, command, BookerOf(command, operator.value), id)
      ensures r.Success? ==> db.drafts == ConsumedDrafts(old(db.drafts), command.draftId, BookerOf(command, operator.value))
      ensures r.Success? ==> db.bookings.Keys == old(db.bookings).Keys + {id} && StoredAs(db.bookings[id], command, operator.value)
      ensures r.Success? ==> OnlyDraftConsumed(old(db.drafts), db.drafts, command, operator.value)
      ensures r.Success? ==> exists targets ::
          && AreTargets(targets, old(db.bookings), Lines(command), Overrides(f, command, BookerOf(command, operator.value)), clocks, f.zone)
          && db.overrideLog == old(db.overrideLog) + AuditRows(Replacements(id, targets), operator.value)
          && db.afterCommit == old(db.afterCommit) + (if targets == [] then [] else [Items(Replacements(id, targets))])
          && forall item | item in Items(Replacements(id, targets)) :: TellsOf(item, old(db.bookings), id, f.zone)
      ensures r == Failure(SchedulingConflict) ==> operator.Some? && exists blockers ::
          && AreBlockers(blockers, old(db.bookings), Lines(command), Overrides(f, command, BookerOf(command, operator.value)), clocks)
          && conflicts == AllConflicts(Lines(command), blockers, ContextOf(f, command.ministry, BookerOf(command, operator.value)), f.names)
    {
      ghost var table, drafts := db.bookings, db.drafts;
      r, conflicts := CheckAndConfirm(f, operator, clocks, command, id);
      if r.Success? {
        CreatedIsStored(command, operator.value);
        CreatedKeys(table, f, clocks, command, BookerOf(command, operator.value), id);
        DraftsLeft(drafts, command, operator.value);
        forall targets | AreTargets(targets, table, Lines(command), Overrides(f, command, BookerOf(command, operator.value)), clocks, f.zone)
          ensures forall item | item in Items(Replacements(id, targets)) :: TellsOf(item, table, id, f.zone)
        {
          AnnouncementsTell(table, targets, Lines(command), Overrides(f, command, BookerOf(command, operator.value)), clocks, f.zone, id);
        }
      }
    }

    method CancelBooking(id: Uuid, scopeSeries: bool) returns (r: Result<(), Refusal>)
      modifies db`bookings
      ensures r.Success? <==> id in old(db.bookings) && !old(db.bookings)[id].deleted
      ensures r.Success? ==> db.bookings == CancelIn(old(db.bookings), id, !scopeSeries)
      ensures r.Failure? ==> r.error == BookingNotFound && db.bookings == old(db.bookings)
    {
      if id !in db.bookings || db.bookings[id].deleted {
        return Failure(BookingNotFound);
      }
      db.CancelBooking(id, !scopeSeries);
      return Success(());
    }
  }

  function Impacts(targets: seq<OverrideTarget>): (r: seq<RT.Impact>)
    ensures |r| == |targets|
  {
    seq(|targets|, i requires 0 <= i < |targets| => targets[i].impact)
  }

  lemma TargetImpacts(targets: seq<OverrideTarget>, table: Table, lines: seq<Line>, canOverride: bool, clocks: Clocks, zone: Zone)
    requires AreTargets(targets, table, lines, canOverride, clocks, zone)
    ensures RT.ImpactSet(Impacts(targets)) == ImpactsOf(table, AllDisplaced(table, lines, canOverride, clocks))
  {
    var ids := TargetIds(targets);
    forall i | 0 <= i < |targets| ensures ids[i] in AllDisplaced(table, lines, canOverride, clocks) && Impacts(targets)[i] == ImpactOf(table, ids[i]) {
      assert targets[i] in targets && ids[i] in AsSet(ids);
    }
    forall id | id in AllDisplaced(table, lines, canOverride, clocks) ensures ImpactOf(table, id) in RT.ImpactSet(Impacts(targets)) {
      assert id in AsSet(ids);
      var i :| 0 <= i < |ids| && ids[i] == id;
      assert Impacts(targets)[i] == ImpactOf(table, id);
    }
  }

  lemma ReplacedAreTargets(id: Uuid, targets: seq<OverrideTarget>)
    ensures ReplacedIds(Replacements(id, targets)) == AsSet(TargetIds(targets))
  {
    var r := Replacements(id, targets);
    forall i | 0 <= i < |targets| ensures r[i].Id() == TargetIds(targets)[i] && r[i] in r && TargetIds(targets)[i] in TargetIds(targets) {
    }
  }

  lemma OverrideAround(table: Table, ids: set<Uuid>, id: Uuid, header: Booking)
    requires id !in ids && id !in table
    ensures OverrideAll(table[id := header], ids) == OverrideAll(table, ids)[id := header]
    ensures ids == {} ==> OverrideAll(table[id := header], ids) == table[id := header]
  {
  }

  // ----- What a successful confirmation did

  /**
   A confirmed proposal displaced exactly the active Bookings that held a confirmed slot on some line, every
   one a Non-ministry Booking starting after now; each of those keeps no confirmed slot in any room, and every
   other Booking is as it was. Personal and Non-priority callers displace nothing.
   */
  lemma ConfirmationDisplacesExactly(table: Table, drafts: map<Uuid, BookingDraft>, f: Facility, operator: Option<Uuid>, clocks: Clocks,
                                     command: CreateCommand, id: Uuid, b: Uuid)
    requires CreateRefusal(table, drafts, f, operator, clocks, command).None?
    requires id !in table && b in table
    ensures var after := CreatedTable(table, f, clocks, command, BookerOf(command, operator.value), id);
      if OccupiesAny(table[b], Lines(command), clocks.dbNow) then
        && table[b].ministry.None? && table[b].startAt > clocks.now && command.allowOverride
        && command.ministry.Some? && command.ministry.value in f.ministries
        && f.ministries[command.ministry.value].active && f.ministries[command.ministry.value].priority
        && after[b].status.Overridden?
        && (forall wanted :: !HoldsConfirmedSlot(after[b], wanted))
        && after[b].(status := table[b].status, slots := table[b].slots) == table[b]
      else after[b] == table[b]
  {
    var booker := BookerOf(command, operator.value);
    var lines, can := Lines(command), Overrides(f, command, booker);
    UnblockedMeetsOnlyDisplaced(table, lines, can, clocks, clocks.dbNow);
    if OccupiesAny(table[b], lines, clocks.dbNow) {
      DisplacedAreEligible(table, lines, ContextOf(f, command.ministry, booker), command.allowOverride, clocks, b);
    }
  }

  /** No later instant finds two active Bookings in one room at one time, if none was found before. */
  lemma ConfirmationKeepsNoDoubleBooking(table: Table, drafts: map<Uuid, BookingDraft>, f: Facility, operator: Option<Uuid>, clocks: Clocks,
                                         command: CreateCommand, id: Uuid, at: Instant)
    requires CreateRefusal(table, drafts, f, operator, clocks, command).None?
    requires id !in table && clocks.dbNow <= at && NoDoubleBooking(table, at)
    ensures NoDoubleBooking(CreatedTable(table, f, clocks, command, BookerOf(command, operator.value), id), at)
  {
    var booker := BookerOf(command, operator.value);
    UnblockedMeetsOnlyDisplaced(table, Lines(command), Overrides(f, command, booker), clocks, at);
    ConfirmKeepsNoDoubleBooking(table, DisplacedBy(table, f, clocks, command, booker), id, booker, command.ministry, Lines(command), at);
  }

  // ----- What is stored and announced, by the command and the rows

  predicate IsBooker(user: Uuid, command: CreateCommand, operator: Uuid) {
    if command.user.Some? then user == command.user.value else user == operator
  }

  /** The header spans its rooms' times exactly; each requested room has one confirmed slot with its own times or else the command's. */
  ghost predicate StoredAs(b: Booking, command: CreateCommand, operator: Uuid) {
    && IsBooker(b.booker, command, operator) && b.ministry == command.ministry
    && b.status.Confirmed? && b.holdExpiresAt.None? && b.series.None? && !b.deleted
    && |b.slots| == |command.rooms|
    && (forall i | 0 <= i < |b.slots| :: SlotFor(b.slots[i], command.rooms[i], command))
    && (forall i | 0 <= i < |b.slots| :: b.startAt <= b.slots[i].interval.startAt && b.slots[i].interval.endAt <= b.endAt)
    && (exists i :: 0 <= i < |b.slots| && b.slots[i].interval.startAt == b.startAt)
    && (exists i :: 0 <= i < |b.slots| && b.slots[i].interval.endAt == b.endAt)
  }

  predicate SlotFor(s: Slot, room: RoomLine, command: CreateCommand) {
    && s.confirmed && s.interval.room == room.room
    && s.interval.startAt == (if room.startAt.Some? then room.startAt.value else command.startAt)
    && s.interval.endAt == (if room.endAt.Some? then room.endAt.value else command.endAt)
  }

  lemma CreatedIsStored(command: CreateCommand, operator: Uuid)
    requires command.rooms != []
    ensures StoredAs(ConfirmedBooking(BookerOf(command, operator), command.ministry, Lines(command)), command, operator)
  {
    var lines := Lines(command);
    var b := ConfirmedBooking(BookerOf(command, operator), command.ministry, lines);
    forall i | 0 <= i < |b.slots| ensures b.startAt <= b.slots[i].interval.startAt && b.slots[i].interval.endAt <= b.endAt {
      assert lines[i] in lines;
    }
    var first :| first in lines && first.startAt == EnvelopeStart(lines);
    var i :| 0 <= i < |lines| && lines[i] == first;
    assert b.slots[i].interval.startAt == b.startAt;
    var last :| last in lines && last.endAt == EnvelopeEnd(lines);
    var j :| 0 <= j < |lines| && lines[j] == last;
    assert b.slots[j].interval.endAt == b.endAt;
  }

  lemma CreatedKeys(table: Table, f: Facility, clocks: Clocks, command: CreateCommand, booker: Uuid, id: Uuid)
    requires command.rooms != []
    ensures CreatedTable(table, f, clocks, command, booker, id).Keys == table.Keys + {id}
    ensures CreatedTable(table, f, clocks, command, booker, id)[id] == ConfirmedBooking(booker, command.ministry, Lines(command))
  {
  }

  /** Only the command's own draft goes. */
  ghost predicate OnlyDraftConsumed(before: map<Uuid, BookingDraft>, after: map<Uuid, BookingDraft>, command: CreateCommand, operator: Uuid) {
    && (forall d :: d in after <==> d in before && !(command.draftId == Some(d) && IsBooker(before[d].user, command, operator)))
    && (forall d | d in after :: after[d] == before[d])
  }

  lemma DraftsLeft(drafts: map<Uuid, BookingDraft>, command: CreateCommand, operator: Uuid)
    ensures OnlyDraftConsumed(drafts, ConsumedDrafts(drafts, command.draftId, BookerOf(command, operator)), command, operator)
  {
  }

  /** A displaced booker is told the day of the Booking, the new Booking, and exactly the rooms of its confirmed slots. */
  ghost predicate TellsOf(item: DisplacedItem, table: Table, id: Uuid, zone: Zone) {
    && item.bookingId in table && item.replacement == id
    && var b := table[item.bookingId];
    && item.booker == b.booker && item.occurrenceDate == zone.DateOf(b.startAt) && Distinct(item.rooms)
    && forall room :: room in item.rooms <==> exists s :: s in b.slots && s.confirmed && s.interval.room == room
  }

  lemma ReleasedRooms(i: RT.Impact, table: Table, room: Uuid)
    requires Describes(i, table)
    ensures (exists x :: x in i.released && x.room == room) <==> exists s :: s in table[i.bookingId].slots && s.confirmed && s.interval.room == room
  {
    var slots := table[i.bookingId].slots;
    if x :| x in i.released && x.room == room {
      assert x in multiset(i.released);
      assert Slot(x, true) in multiset(slots);
    }
    if s :| s in slots && s.confirmed && s.interval.room == room {
      assert s == Slot(s.interval, true) && s in multiset(slots);
      assert s.interval in multiset(i.released);
    }
  }

  lemma AnnouncementsTell(table: Table, targets: seq<OverrideTarget>, lines: seq<Line>, canOverride: bool, clocks: Clocks, zone: Zone, id: Uuid)
    requires AreTargets(targets, table, lines, canOverride, clocks, zone)
    ensures forall item | item in Items(Replacements(id, targets)) :: TellsOf(item, table, id, zone)
  {
    TargetsDescribe(targets, table, lines, canOverride, clocks, zone);
    ItemsAnnounce(Replacements(id, targets));
    forall item | item in Items(Replacements(id, targets)) ensures TellsOf(item, table, id, zone) {
      var r :| r in Replacements(id, targets) && Announces(item, r);
      var k :| 0 <= k < |targets| && Replacements(id, targets)[k] == r;
      var t := targets[k];
      assert t in targets && IsTargetOf(t, t.impact.bookingId, table, lines, clocks.dbNow, zone);
      forall room ensures room in item.rooms <==> exists s :: s in table[item.bookingId].slots && s.confirmed && s.interval.room == room {
        ReleasedRooms(t.impact, table, room);
      }
    }
  }

  /** The active templates of the room that apply on the day's weekday, each as often as stored, by start time. */
  lemma TemplatesOfDay(templates: seq<OpeningHours.Template>, room: Uuid, day: Date)
    ensures forall x :: multiset(ListActiveForDay(templates, room, day))[x]
                     == if x.active && x.room == room && MaskHas(x.daysMask, day) then multiset(templates)[x] else 0
    ensures forall i, j | 0 <= i < j < |ListActiveForDay(templates, room, day)| ::
      ListActiveForDay(templates, room, day)[i].startTime <= ListActiveForDay(templates, room, day)[j].startTime
  {
    var earlier := (a: OpeningHours.Template, b: OpeningHours.Template) => a.startTime <= b.startTime;
    SortMultiset(ActiveTemplates(templates, room, day), earlier);
    SortSorted(ActiveTemplates(templates, room, day), earlier);
    forall x ensures multiset(ActiveTemplates(templates, room, day))[x]
                  == if x.active && x.room == room && MaskHas(x.daysMask, day) then multiset(templates)[x] else 0 {
      ActiveTemplatesCount(templates, room, day, x);
    }
  }

  lemma {:induction false} ActiveTemplatesCount(templates: seq<OpeningHours.Template>, room: Uuid, day: Date, x: OpeningHours.Template)
    ensures multiset(ActiveTemplates(templates, room, day))[x]
         == if x.active && x.room == room && MaskHas(x.daysMask, day) then multiset(templates)[x] else 0
  {
    if templates != [] {
      ActiveTemplatesCount(templates[1..], room, day, x);
      assert templates == [templates[0]] + templates[1..];
    }
  }

  /** The nearest hundredth of an hour, the even one from halfway between two. */
  lemma BilledHoursNearest(startAt: Instant, endAt: Instant)
    ensures exists n: int :: NearestHundredth(n, startAt, endAt) && BilledHours(startAt, endAt) == n as real / 100.0
  {
    var hundredths := (endAt - startAt) * 100;
    var whole, rest := hundredths / HOUR, hundredths % HOUR;
    var n := if 2 * rest > HOUR || (2 * rest == HOUR && whole % 2 == 1) then whole + 1 else whole;
    assert hundredths == whole * HOUR + rest;
    assert NearestHundredth(n, startAt, endAt);
  }

  /** `n` hundredths of an hour are nearest to the time from start to end; a tie goes to an even `n`. */
  predicate NearestHundredth(n: int, startAt: Instant, endAt: Instant) {
    var off := 2 * (n * 3_600_000_000 - (endAt - startAt) * 100);
    -3_600_000_000 <= off <= 3_600_000_000 && (off == 3_600_000_000 || off == -3_600_000_000 ==> n % 2 == 0)
  }

  // ----- When a command succeeds, with every check spelled out

  /** No Ministry, or an undeleted Active one of which the booker is a steward. */
  predicate GatePasses(f: Facility, ministry: Option<Uuid>, booker: Uuid) {
    ministry.None? || (ministry.value in f.ministries && !f.ministries[ministry.value].deleted && f.ministries[ministry.value].active
                       && booker in f.ministries[ministry.value].stewards)
  }

  lemma GateIff(f: Facility, ministry: Option<Uuid>, booker: Uuid)
    ensures GateRefusal(f, ministry, booker).None? <==> GatePasses(f, ministry, booker)
    ensures GateRefusal(f, ministry, booker) == Some(NotSteward) <==>
      ministry.Some? && ministry.value in f.ministries && !f.ministries[ministry.value].deleted && f.ministries[ministry.value].active
      && booker !in f.ministries[ministry.value].stewards
    ensures QuoteCommandOf(f, [], ministry, booker, []).free <==> ministry.Some? && GatePasses(f, ministry, booker)
  {
  }

  /** The command has a title, or comes from the booker's own titled draft. */
  predicate TitleGiven(drafts: map<Uuid, BookingDraft>, command: CreateCommand, booker: Uuid) {
    command.title != "" || (command.draftId.Some? && command.draftId.value in drafts
                            && drafts[command.draftId.value].user == booker && drafts[command.draftId.value].title != "")
  }

  /** A steward of an Active Priority Ministry who allows the override. */
  predicate MayOverride(f: Facility, command: CreateCommand, booker: Uuid) {
    && command.allowOverride && command.ministry.Some? && command.ministry.value in f.ministries
    && f.ministries[command.ministry.value].active && f.ministries[command.ministry.value].priority
    && booker in f.ministries[command.ministry.value].stewards
  }

  ghost predicate OpenLine(f: Facility, l: Line, enforceOpeningHours: bool) {
    && !Blackouts.ClosedWithin(f.blackouts, l.room, l.startAt, l.endAt, f.zone)
    && (enforceOpeningHours ==>
          OpeningHours.Offered(l.startAt, l.endAt, ListActiveForDay(f.templates, l.room, f.zone.DateOf(l.startAt)), f.zone))
  }

  /** Every check before the review of the impact passes. */
  ghost predicate ReachesReview(table: Table, drafts: map<Uuid, BookingDraft>, f: Facility, operator: Option<Uuid>, clocks: Clocks, command: CreateCommand) {
    && command.rooms != [] && operator.Some?
    && var booker := BookerOf(command, operator.value);
    && GatePasses(f, command.ministry, booker) && TitleGiven(drafts, command, booker) && |command.rooms| <= f.maxLines
    && ValidIntervals(multiset(Intervals(Lines(command))), f.zone)
    && !BlockedAt(table, Lines(command), MayOverride(f, command, booker), clocks)
    && forall l | l in Lines(command) :: OpenLine(f, l, command.enforceOpeningHours)
  }

  ghost predicate StoredPositive(table: Table, f: Facility) {
    AllPositive(table) && forall b | b in f.blackouts :: Blackouts.Positive(b)
  }

  lemma ValidLinesPositive(lines: seq<Line>, zone: Zone)
    requires ValidIntervals(multiset(Intervals(lines)), zone)
    ensures forall l | l in lines :: l.Interval().Positive() && zone.DateOf(l.startAt) == zone.DateOf(l.endAt)
  {
    forall l | l in lines ensures l.Interval().Positive() && zone.DateOf(l.startAt) == zone.DateOf(l.endAt) {
      var i :| 0 <= i < |lines| && lines[i] == l;
      assert Intervals(lines)[i] == l.Interval() && l.Interval() in multiset(Intervals(lines));
    }
  }

  lemma OpenLineIff(f: Facility, l: Line, enforceOpeningHours: bool)
    requires forall b | b in f.blackouts :: Blackouts.Positive(b)
    requires l.startAt < l.endAt && f.zone.DateOf(l.startAt) == f.zone.DateOf(l.endAt)
    ensures OpenLine(f, l, enforceOpeningHours) <==> !IsBlackedOut(f, l) && (enforceOpeningHours ==> IsOpen(f, l))
  {
    Blackouts.OverlapIffClosedWithin(f.blackouts, l.room, l.startAt, l.endAt, f.zone);
    OpeningHours.WithinOpeningHoursIffOffered(l.startAt, l.endAt, ListActiveForDay(f.templates, l.room, f.zone.DateOf(l.startAt)), f.zone);
  }

  lemma {:induction false} ClosureRefusalIff(f: Facility, lines: seq<Line>, enforceOpeningHours: bool)
    requires forall b | b in f.blackouts :: Blackouts.Positive(b)
    requires forall l | l in lines :: l.startAt < l.endAt && f.zone.DateOf(l.startAt) == f.zone.DateOf(l.endAt)
    ensures ClosureRefusal(f, lines, enforceOpeningHours).None? <==> forall l | l in lines :: OpenLine(f, l, enforceOpeningHours)
  {
    if lines != [] {
      ClosureRefusalIff(f, lines[1..], enforceOpeningHours);
      OpenLineIff(f, lines[0], enforceOpeningHours);
      assert lines == [lines[0]] + lines[1..];
    }
  }

  /** Until the lines are validated, the refusals are those of the command alone. */
  lemma LinesReached(table: Table, drafts: map<Uuid, BookingDraft>, f: Facility, operator: Option<Uuid>, clocks: Clocks, command: CreateCommand)
    requires command.rooms != [] && operator.Some?
    requires GatePasses(f, command.ministry, BookerOf(command, operator.value)) && TitleGiven(drafts, command, BookerOf(command, operator.value))
    requires |command.rooms| <= f.maxLines && ValidIntervals(multiset(Intervals(Lines(command))), f.zone)
    ensures CreateRefusal(table, drafts, f, operator, clocks, command) == LinesRefusal(table, f, clocks, command, BookerOf(command, operator.value))
  {
    AcceptedIffValid(Lines(command), f.zone);
    GateIff(f, command.ministry, BookerOf(command, operator.value));
  }

  lemma AcceptedReachesLines(table: Table, drafts: map<Uuid, BookingDraft>, f: Facility, operator: Option<Uuid>, clocks: Clocks, command: CreateCommand)
    requires CreateRefusal(table, drafts, f, operator, clocks, command).None?
    ensures command.rooms != [] && operator.Some?
    ensures GatePasses(f, command.ministry, BookerOf(command, operator.value)) && TitleGiven(drafts, command, BookerOf(command, operator.value))
    ensures |command.rooms| <= f.maxLines && ValidIntervals(multiset(Intervals(Lines(command))), f.zone)
  {
    AcceptedIffValid(Lines(command), f.zone);
    GateIff(f, command.ministry, BookerOf(command, operator.value));
  }

  lemma ReviewReachedIff(table: Table, f: Facility, clocks: Clocks, command: CreateCommand, booker: Uuid)
    requires StoredPositive(table, f) && ValidIntervals(multiset(Intervals(Lines(command))), f.zone)
    ensures Overrides(f, command, booker) <==> MayOverride(f, command, booker)
    ensures Unblocked(table, Lines(command), Overrides(f, command, booker), clocks)
       <==> !BlockedAt(table, Lines(command), MayOverride(f, command, booker), clocks)
    ensures ClosureRefusal(f, Lines(command), command.enforceOpeningHours).None?
       <==> forall l | l in Lines(command) :: OpenLine(f, l, command.enforceOpeningHours)
  {
    ValidLinesPositive(Lines(command), f.zone);
    BlockedIffHeld(table, Lines(command), Overrides(f, command, booker), clocks);
    ClosureRefusalIff(f, Lines(command), command.enforceOpeningHours);
  }

  /**
   A confirmation succeeds exactly when every check holds on its own terms: rooms, operator, Ministry, title, line rules,
   no room held by a Booking that does not give way, no closure and, if enforced, opening hours at every instant, the
   impact reviewed, and the quote given.
   */
  lemma CreateSucceedsIff(table: Table, drafts: map<Uuid, BookingDraft>, f: Facility, operator: Option<Uuid>, clocks: Clocks, command: CreateCommand)
    requires StoredPositive(table, f)
    ensures CreateRefusal(table, drafts, f, operator, clocks, command).None?
       <==> && ReachesReview(table, drafts, f, operator, clocks, command)
            && var booker := BookerOf(command, operator.value);
            && ReviewRefusal(table, f, Lines(command), command.ministry, booker, command.token, DisplacedBy(table, f, clocks, command, booker)).None?
            && Pricing.Refusal(f.prices, QuoteCommandOf(f, Lines(command), command.ministry, booker, command.surchargeCodes)).None?
  {
    if CreateRefusal(table, drafts, f, operator, clocks, command).None? {
      AcceptedReachesLines(table, drafts, f, operator, clocks, command);
      LinesReached(table, drafts, f, operator, clocks, command);
      ReviewReachedIff(table, f, clocks, command, BookerOf(command, operator.value));
    } else if ReachesReview(table, drafts, f, operator, clocks, command) {
      LinesReached(table, drafts, f, operator, clocks, command);
      ReviewReachedIff(table, f, clocks, command, BookerOf(command, operator.value));
    }
  }

  // ----- A release that changed since its review

  lemma {:induction false} Listed(impacts: set<RT.Impact>) returns (s: seq<RT.Impact>)
    ensures RT.ImpactSet(s) == impacts
  {
    if impacts == {} {
      return [];
    }
    var i :| i in impacts;
    var rest := Listed(impacts - {i});
    s := [i] + rest;
    assert RT.ImpactSet(s) == {i} + RT.ImpactSet(rest);
  }

  /** No reviewed impact of the Booking released what its confirmed slots are now. */
  ghost predicate ReleaseChanged(r: RT.Review, table: Table, b: Uuid) {
    b in table && forall i | i in r.impacts && i.bookingId == b :: exists x :: multiset(i.released)[x] != multiset(table[b].slots)[Slot(x, true)]
  }

  lemma ChangedNotReviewed(r: RT.Review, table: Table, b: Uuid)
    requires ReleaseChanged(r, table, b)
    ensures !RT.ReviewedUnchanged(r.impacts, ImpactOf(table, b))
  {
    ImpactDescribes(table, b);
    forall k: nat | RT.LastFor(r.impacts, k) ensures !RT.SameImpact(r.impacts[k], ImpactOf(table, b)) {
      assert r.impacts[k] in r.impacts;
    }
  }

  /** A command that reaches the review is refused by it alone. */
  lemma ReviewDecides(table: Table, drafts: map<Uuid, BookingDraft>, f: Facility, operator: Option<Uuid>, clocks: Clocks, command: CreateCommand)
    requires StoredPositive(table, f) && ReachesReview(table, drafts, f, operator, clocks, command)
    ensures var booker := BookerOf(command, operator.value);
      var review := ReviewRefusal(table, f, Lines(command), command.ministry, booker, command.token, DisplacedBy(table, f, clocks, command, booker));
      review.Some? ==> CreateRefusal(table, drafts, f, operator, clocks, command) == review
  {
    LinesReached(table, drafts, f, operator, clocks, command);
    ReviewReachedIff(table, f, clocks, command, BookerOf(command, operator.value));
  }

  lemma IssuedReview(table: Table, f: Facility, lines: seq<Line>, ministry: Option<Uuid>, booker: Uuid, r: RT.Review, displaced: set<Uuid>, impacts: seq<RT.Impact>)
    requires RT.Lawful(f.codec) && Strings.AllFree(r.proposal, RT.NEWLINE)
    requires displaced <= table.Keys && RT.ImpactSet(impacts) == ImpactsOf(table, displaced)
    ensures ReviewRefusal(table, f, lines, ministry, booker, Some(RT.IssueOverrideReviewToken(f.codec, r)), displaced)
         == if impacts == [] || RT.Covers(r, booker, ministry, Proposal(f.codec, lines), impacts) then None else Some(NotReviewed(RT.ReviewStale))
  {
    RT.KeysFree(f.codec, Intervals(lines));
    RT.IssuedTokenAccepts(f.codec, r, booker, ministry, Proposal(f.codec, lines), impacts);
  }

  /**
   A slot moved, added or released since the review makes the issued token stale: when a displaced Booking's confirmed
   intervals differ from those reviewed, a command that passes every earlier check is refused as stale.
   */
  lemma ChangedReleaseIsStale(table: Table, drafts: map<Uuid, BookingDraft>, f: Facility, operator: Option<Uuid>, clocks: Clocks,
                              command: CreateCommand, r: RT.Review, b: Uuid)
    requires RT.Lawful(f.codec) && StoredPositive(table, f) && Strings.AllFree(r.proposal, RT.NEWLINE)
    requires ReachesReview(table, drafts, f, operator, clocks, command) && command.token == Some(RT.IssueOverrideReviewToken(f.codec, r))
    requires b in DisplacedBy(table, f, clocks, command, BookerOf(command, operator.value)) && ReleaseChanged(r, table, b)
    ensures CreateRefusal(table, drafts, f, operator, clocks, command) == Some(NotReviewed(RT.ReviewStale))
  {
    var booker := BookerOf(command, operator.value);
    var displaced := DisplacedBy(table, f, clocks, command, booker);
    var impacts := Listed(ImpactsOf(table, displaced));
    assert ImpactOf(table, b) in RT.ImpactSet(impacts);
    ChangedNotReviewed(r, table, b);
    IssuedReview(table, f, Lines(command), command.ministry, booker, r, displaced, impacts);
    ReviewDecides(table, drafts, f, operator, clocks, command);
  }

  /** A token reviewed for other rooms or times, another booker or another Ministry is stale as soon as anything would be displaced. */
  lemma OtherProposalIsStale(table: Table, drafts: map<Uuid, BookingDraft>, f: Facility, operator: Option<Uuid>, clocks: Clocks,
                             command: CreateCommand, r: RT.Review, reviewed: seq<Line>)
    requires RT.Lawful(f.codec) && StoredPositive(table, f) && r.proposal == Proposal(f.codec, reviewed)
    requires ReachesReview(table, drafts, f, operator, clocks, command) && command.token == Some(RT.IssueOverrideReviewToken(f.codec, r))
    requires DisplacedBy(table, f, clocks, command, BookerOf(command, operator.value)) != {}
    requires multiset(Intervals(reviewed)) != multiset(Intervals(Lines(command))) || r.booker != BookerOf(command, operator.value) || r.ministry != command.ministry
    ensures CreateRefusal(table, drafts, f, operator, clocks, command) == Some(NotReviewed(RT.ReviewStale))
  {
    var booker := BookerOf(command, operator.value);
    var displaced := DisplacedBy(table, f, clocks, command, booker);
    var impacts := Listed(ImpactsOf(table, displaced));
    var b :| b in displaced;
    assert ImpactOf(table, b) in RT.ImpactSet(impacts);
    RT.KeysFree(f.codec, Intervals(reviewed));
    RT.KeysCanonical(f.codec, Intervals(reviewed), Intervals(Lines(command)));
    IssuedReview(table, f, Lines(command), command.ministry, booker, r, displaced, impacts);
    ReviewDecides(table, drafts, f, operator, clocks, command);
  }

  /** A One-time quote bills each line's rooms and hours with the given surcharges, without discount, free for a steward of an Active Ministry. */
  lemma QuotedLines(f: Facility, lines: seq<Line>, ministry: Option<Uuid>, booker: Uuid, codes: seq<string>)
    ensures var q := QuoteCommandOf(f, lines, ministry, booker, codes);
      && |q.lines| == |lines| && (forall i | 0 <= i < |lines| :: q.lines[i] == Pricing.QuoteLine(lines[i].room, BilledHours(lines[i].startAt, lines[i].endAt)))
      && q.surchargeCodes == codes && q.percent == 0.0 && (q.free <==> ministry.Some? && GatePasses(f, ministry, booker))
  {
  }

  /** The first line that is not open decides, a closure before the opening hours. */
  lemma {:induction false} ClosureByFirst(f: Facility, lines: seq<Line>, enforceOpeningHours: bool)
    ensures var refusal := ClosureRefusal(f, lines, enforceOpeningHours);
      refusal.Some? ==> exists k :: 0 <= k < |lines| && ClosedFirst(f, lines, k, enforceOpeningHours, refusal.value)
  {
    if lines != [] {
      var rest := lines[1..];
      ClosureByFirst(f, rest, enforceOpeningHours);
      if IsBlackedOut(f, lines[0]) || (enforceOpeningHours && !IsOpen(f, lines[0])) {
        assert ClosedFirst(f, lines, 0, enforceOpeningHours, ClosureRefusal(f, lines, enforceOpeningHours).value);
      } else if ClosureRefusal(f, rest, enforceOpeningHours).Some? {
        var e := ClosureRefusal(f, rest, enforceOpeningHours).value;
        var k :| 0 <= k < |rest| && ClosedFirst(f, rest, k, enforceOpeningHours, e);
        forall j | 0 <= j < k + 1 ensures PassesClosures(f, lines[j], enforceOpeningHours) {
          assert j > 0 ==> lines[j] == rest[j - 1];
        }
        assert ClosedFirst(f, lines, k + 1, enforceOpeningHours, e);
      }
    }
  }

  ghost predicate PassesClosures(f: Facility, l: Line, enforceOpeningHours: bool) {
    !IsBlackedOut(f, l) && (enforceOpeningHours ==> IsOpen(f, l))
  }

  ghost predicate ClosedFirst(f: Facility, lines: seq<Line>, k: nat, enforceOpeningHours: bool, e: Refusal)
    requires k < |lines|
  {
    && (forall j | 0 <= j < k :: PassesClosures(f, lines[j], enforceOpeningHours))
    && !PassesClosures(f, lines[k], enforceOpeningHours)
    && e == if IsBlackedOut(f, lines[k]) then RoomBlackout(lines[k].room) else OutsideOpeningHours(lines[k].room)
  }

  lemma LinesRefusalKinds(table: Table, f: Facility, clocks: Clocks, command: CreateCommand, booker: Uuid)
    ensures var refusal := LinesRefusal(table, f, clocks, command, booker);
      if !Unblocked(table, Lines(command), Overrides(f, command, booker), clocks) then refusal == Some(SchedulingConflict)
      else refusal.None? || refusal.value.RoomBlackout? || refusal.value.OutsideOpeningHours? || refusal.value.NotReviewed? || refusal.value.QuoteRefused?
  {
    ClosureByFirst(f, Lines(command), command.enforceOpeningHours);
  }

  /** The first check that fails names the refusal. */
  lemma RefusalByFirst(table: Table, drafts: map<Uuid, BookingDraft>, f: Facility, operator: Option<Uuid>, clocks: Clocks, command: CreateCommand)
    ensures var refusal := CreateRefusal(table, drafts, f, operator, clocks, command);
      if command.rooms == [] then refusal == Some(RoomsRequired)
      else if operator.None? then refusal == Some(NotAuthenticated)
      else
        var booker := BookerOf(command, operator.value);
        if !GatePasses(f, command.ministry, booker) then refusal == Some(MinistryInactive) || refusal == Some(NotSteward)
        else if !TitleGiven(drafts, command, booker) then refusal == Some(TitleRequired)
        else if |command.rooms| > f.maxLines then refusal == Some(TooManyLines)
        else if !ValidIntervals(multiset(Intervals(Lines(command))), f.zone) then refusal.Some? && refusal.value.BadLines?
        else if !Unblocked(table, Lines(command), MayOverride(f, command, booker), clocks) then refusal == Some(SchedulingConflict)
        else refusal.None? || refusal.value.RoomBlackout? || refusal.value.OutsideOpeningHours? || refusal.value.NotReviewed? || refusal.value.QuoteRefused?
  {
    if command.rooms != [] && operator.Some? {
      LinesRefusalKinds(table, f, clocks, command, BookerOf(command, operator.value));
      GateIff(f, command.ministry, BookerOf(command, operator.value));
      AcceptedIffValid(Lines(command), f.zone);
      assert Overrides(f, command, BookerOf(command, operator.value)) <==> MayOverride(f, command, BookerOf(command, operator.value));
    }
  }
}
