/** Booking Drafts: stored proposals, evaluated live without writing, and their agreement with confirmation. */
module BookingDraftService {
  import opened Options
  import opened FacilityTypes
  import opened LocalTime
  import opened Sequences
  import opened BookingLines
  import opened Bookings
  import opened FacilityDatabase
  import opened OneTimeOverride
  import opened BookingService
  import OpeningHours
  import Blackouts
  import Pricing
  import RT = ReviewToken

  datatype DraftError = DraftNotAuthenticated | DraftNotFound | DraftLinesRequired | DraftTooManyLines | DraftBadLines(fault: LineError) | DraftQuoteRefused(reason: Pricing.QuoteError)

  datatype DraftView = DraftView(conflicts: seq<Conflict>, available: seq<bool>, quote: Pricing.Quote, confirmable: bool,
                                 impacts: seq<RT.Impact>, token: Option<string>)

  // ----- What the evaluation of a draft promises

  function DraftContext(f: Facility, draft: BookingDraft): Option<Context> {
    ContextOf(f, draft.ministry, draft.user)
  }

  function DraftOverrides(f: Facility, draft: BookingDraft): bool {
    CanOverride(DraftContext(f, draft), true)
  }

  function DraftQuoteCommand(f: Facility, draft: BookingDraft): Pricing.QuoteCommand {
    QuoteCommandOf(f, draft.lines, draft.ministry, draft.user, [])
  }

  function ClosureConflict(line: Line, kind: ConflictKind): Conflict {
    Conflict(line.Interval(), kind, None, NO_CONTACT)
  }

  ghost function LineClosures(f: Facility, line: Line): seq<Conflict> {
    (if IsBlackedOut(f, line) then [ClosureConflict(line, BlackoutConflict)] else [])
    + (if IsOpen(f, line) then [] else [ClosureConflict(line, OpeningHoursConflict)])
  }

  ghost function ClosureConflicts(f: Facility, lines: seq<Line>): seq<Conflict> {
    if lines == [] then []
    else
      var n := |lines| - 1;
      ClosureConflicts(f, lines[..n]) + LineClosures(f, lines[n])
  }

  ghost predicate IsAvailable(table: Table, f: Facility, clocks: Clocks, line: Line) {
    Occupants(table, line.Interval(), clocks.dbNow) == {} && !IsBlackedOut(f, line) && IsOpen(f, line)
  }

  ghost predicate AllOpen(f: Facility, lines: seq<Line>) {
    forall l | l in lines :: !IsBlackedOut(f, l) && IsOpen(f, l)
  }

  /** A draft may be confirmed: nothing blocks or closes a line, and a Ministry draft has its context. */
  ghost predicate Confirmable(table: Table, f: Facility, clocks: Clocks, draft: BookingDraft) {
    && draft.lines != []
    && Unblocked(table, draft.lines, DraftOverrides(f, draft), clocks)
    && AllOpen(f, draft.lines)
    && (draft.ministry.None? || DraftContext(f, draft).Some?)
  }

  function DraftReview(f: Facility, draft: BookingDraft, impacts: seq<RT.Impact>): RT.Review {
    RT.Review(draft.user, draft.ministry, Proposal(f.codec, draft.lines), impacts)
  }

  /** A complete view of an owned draft over the current tables. */
  ghost predicate IsViewOf(view: DraftView, table: Table, f: Facility, clocks: Clocks, draft: BookingDraft) {
    && (view.confirmable <==> Confirmable(table, f, clocks, draft))
    && (exists blockers ::
          && AreBlockers(blockers, table, draft.lines, DraftOverrides(f, draft), clocks)
          && view.conflicts == AllConflicts(draft.lines, blockers, DraftContext(f, draft), f.names) + ClosureConflicts(f, draft.lines))
    && (exists targets ::
          && AreTargets(targets, table, draft.lines, DraftOverrides(f, draft), clocks, f.zone)
          && view.impacts == Impacts(targets))
    && |view.available| == |draft.lines|
    && (forall k | 0 <= k < |draft.lines| :: view.available[k] <==> IsAvailable(table, f, clocks, draft.lines[k]))
    && view.quote == (if DraftQuoteCommand(f, draft).free then Pricing.FreeQuote(DraftQuoteCommand(f, draft))
                      else Pricing.QuoteOf(f.prices, DraftQuoteCommand(f, draft)))
    && view.token == if view.confirmable && view.impacts != []
                     then Some(RT.IssueOverrideReviewToken(f.codec, DraftReview(f, draft, view.impacts))) else None
  }

  class BookingDraftService {
    const db: Database

    constructor (db: Database)
      ensures this.db == db
    {
      this.db := db;
    }

    method EvaluateLine(f: Facility, clocks: Clocks, line: Line) returns (conflicts: seq<Conflict>, available: bool)
      ensures conflicts == LineClosures(f, line)
      ensures available <==> IsAvailable(db.bookings, f, clocks, line)
    {
      var templates := ListActiveForDay(f.templates, line.room, f.zone.DateOf(line.startAt));
      var open := OpeningHours.MemberIntervalWithinOpeningHours(line.startAt, line.endAt, templates, f.zone);
      var closed := Blackouts.HasBlackoutOverlap(f.blackouts, line.room, line.startAt, line.endAt, f.zone);
      var occupied := db.HasConfirmedSlotOverlap(line.Interval(), clocks.dbNow);
      conflicts := [];
      if closed {
        conflicts := conflicts + [ClosureConflict(line, BlackoutConflict)];
      }
      if !open {
        conflicts := conflicts + [ClosureConflict(line, OpeningHoursConflict)];
      }
      available := !(occupied || closed || !open);
    }

    /** Closure conflicts and per-line availability, line by line. */
    method EvaluateClosures(f: Facility, clocks: Clocks, lines: seq<Line>) returns (conflicts: seq<Conflict>, available: seq<bool>)
      ensures conflicts == ClosureConflicts(f, lines)
      ensures |available| == |lines|
      ensures forall k | 0 <= k < |lines| :: available[k] <==> IsAvailable(db.bookings, f, clocks, lines[k])
    {
      conflicts, available := [], [];
      for k := 0 to |lines|
        invariant conflicts == ClosureConflicts(f, lines[..k])
        invariant |available| == k
        invariant forall j | 0 <= j < k :: available[j] <==> IsAvailable(db.bookings, f, clocks, lines[j])
      {
        assert lines[..k + 1][..k] == lines[..k];
        var found, free := EvaluateLine(f, clocks, lines[k]);
        conflicts := conflicts + found;
        available := available + [free];
      }
      assert lines[..|lines|] == lines;
    }

    /** Evaluate the owned draft live; nothing is reserved, displaced or written. */
    method GetDraft(f: Facility, user: Option<Uuid>, clocks: Clocks, draftId: Uuid) returns (r: Result<DraftView, DraftError>)
      ensures r == Failure(DraftNotAuthenticated) <==> user.None?
      ensures r == Failure(DraftNotFound) <==>
          user.Some? && !(draftId in db.drafts && db.drafts[draftId].user == user.value)
      ensures user.Some? && draftId in db.drafts && db.drafts[draftId].user == user.value ==>
          match Pricing.Refusal(f.prices, DraftQuoteCommand(f, db.drafts[draftId]))
          case Some(e) => r == Failure(DraftQuoteRefused(e))
          case None => r.Success? && IsViewOf(r.value, db.bookings, f, clocks, db.drafts[draftId])
      ensures r.Success? ==> forall i | i in r.value.impacts :: Describes(i, db.bookings)
    {
      if user.None? {
        return Failure(DraftNotAuthenticated);
      }
      if draftId !in db.drafts || db.drafts[draftId].user != user.value {
        return Failure(DraftNotFound);
      }
      r := ViewDraft(f, clocks, db.drafts[draftId]);
    }

    /** Occupancy, closures, quote and impacts of a draft's lines as they stand. */
    method ViewDraft(f: Facility, clocks: Clocks, draft: BookingDraft) returns (r: Result<DraftView, DraftError>)
      ensures match Pricing.Refusal(f.prices, DraftQuoteCommand(f, draft))
        case Some(e) => r == Failure(DraftQuoteRefused(e))
        case None => r.Success? && IsViewOf(r.value, db.bookings, f, clocks, draft)
      ensures r.Success? ==> forall i | i in r.value.impacts :: Describes(i, db.bookings)
    {
      var context := DraftContext(f, draft);
      var evaluation;
      ghost var blockers;
      evaluation, blockers := EvaluateOneTimeOccupancy(db, draft.lines, context, clocks, f.zone, f.names, true);
      NoConflictIffUnblocked(db.bookings, draft.lines, blockers, context, f.names, CanOverride(context, true), clocks);
      var closures, available := EvaluateClosures(f, clocks, draft.lines);
      NoClosureIffOpen(f, draft.lines);
      var quote := Pricing.PreviewQuote(f.prices, DraftQuoteCommand(f, draft));
      if quote.Failure? {
        return Failure(DraftQuoteRefused(quote.error));
      }
      var conflicts := evaluation.conflicts + closures;
      var confirmable := draft.lines != [] && conflicts == [] && (draft.ministry.None? || context.Some?);
      var impacts := Impacts(evaluation.targets);
      ImpactsDescribe(evaluation.targets, db.bookings);
      var token := if confirmable && impacts != [] then Some(RT.IssueOverrideReviewToken(f.codec, DraftReview(f, draft, impacts))) else None;
      assert confirmable <==> Confirmable(db.bookings, f, clocks, draft);
      return Success(DraftView(conflicts, available, quote.value, confirmable, impacts, token));
    }

    method ResolveAndValidateLines(f: Facility, lines: seq<Line>) returns (error: Option<DraftError>)
      ensures error == LinesError(f, lines)
    {
      if lines == [] {
        return Some(DraftLinesRequired);
      }
      if |lines| > f.maxLines {
        return Some(DraftTooManyLines);
      }
      var fault := ValidateBookingLines(lines, f.zone);
      if fault.Some? {
        return Some(DraftBadLines(fault.value));
      }
      return None;
    }

    method CreateDraft(f: Facility, user: Option<Uuid>, title: string, ministry: Option<Uuid>, lines: seq<Line>, id: Uuid)
      returns (r: Result<Uuid, DraftError>)
      requires id !in db.drafts
      modifies db`drafts
      ensures r == if user.None? then Failure(DraftNotAuthenticated)
                   else if LinesError(f, lines).Some? then Failure(LinesError(f, lines).value) else Success(id)
      ensures db.drafts == if r.Success? then old(db.drafts)[id := BookingDraft(user.value, title, ministry, lines)] else old(db.drafts)
    {
      if user.None? {
        return Failure(DraftNotAuthenticated);
      }
      var error := ResolveAndValidateLines(f, lines);
      if error.Some? {
        return Failure(error.value);
      }
      db.InsertDraft(id, BookingDraft(user.value, title, ministry, lines));
      return Success(id);
    }

    /** Replace an owned draft's header and lines; the last write wins. */
    /** Replace an owned draft, then answer with its live view; a quote refused there comes after the write. */
    method UpdateDraft(f: Facility, user: Option<Uuid>, clocks: Clocks, draftId: Uuid, title: string, ministry: Option<Uuid>, lines: seq<Line>)
      returns (r: Result<DraftView, DraftError>)
      modifies db`drafts
      ensures var refusal := UpdateRefusal(f, old(db.drafts), user, draftId, lines);
        if refusal.Some? then r == Failure(refusal.value) && db.drafts == old(db.drafts)
        else
          var draft := BookingDraft(user.value, title, ministry, lines);
          && db.drafts == old(db.drafts)[draftId := draft]
          && match Pricing.Refusal(f.prices, DraftQuoteCommand(f, draft))
             case Some(e) => r == Failure(DraftQuoteRefused(e))
             case None => r.Success? && IsViewOf(r.value, db.bookings, f, clocks, draft)
    {
      if user.None? {
        return Failure(DraftNotAuthenticated);
      }
      if draftId !in db.drafts || db.drafts[draftId].user != user.value {
        return Failure(DraftNotFound);
      }
      var error := ResolveAndValidateLines(f, lines);
      if error.Some? {
        return Failure(error.value);
      }
      db.ReplaceDraft(draftId, BookingDraft(user.value, title, ministry, lines));
      r := GetDraft(f, user, clocks, draftId);
    }

    /** The request around an update: whatever fails, also after the write, leaves the drafts as they were. */
    method HandleUpdateDraft(f: Facility, user: Option<Uuid>, clocks: Clocks, draftId: Uuid, title: string, ministry: Option<Uuid>, lines: seq<Line>)
      returns (r: Result<DraftView, DraftError>)
      modifies db`drafts
      ensures r.Failure? ==> db.drafts == old(db.drafts)
      ensures r.Success? ==> user.Some? && db.drafts == old(db.drafts)[draftId := BookingDraft(user.value, title, ministry, lines)]
      ensures r.Success? ==> IsViewOf(r.value, db.bookings, f, clocks, db.drafts[draftId])
      ensures r.Success? <==>
          && UpdateRefusal(f, old(db.drafts), user, draftId, lines).None?
          && Pricing.Refusal(f.prices, DraftQuoteCommand(f, BookingDraft(user.value, title, ministry, lines))).None?
    {
      var committed := db.drafts;
      r := UpdateDraft(f, user, clocks, draftId, title, ministry, lines);
      if r.Failure? {
        db.drafts := committed;
      }
    }
  }

  /** Why an update is refused before it writes. */
  function UpdateRefusal(f: Facility, drafts: map<Uuid, BookingDraft>, user: Option<Uuid>, draftId: Uuid, lines: seq<Line>): (e: Option<DraftError>)
    ensures e.None? ==> user.Some?
  {
    if user.None? then Some(DraftNotAuthenticated)
    else if !(draftId in drafts && drafts[draftId].user == user.value) then Some(DraftNotFound)
    else LinesError(f, lines)
  }

  function LinesError(f: Facility, lines: seq<Line>): Option<DraftError> {
    if lines == [] then Some(DraftLinesRequired)
    else if |lines| > f.maxLines then Some(DraftTooManyLines)
    else match FaultFrom(lines, 0, f.zone) case Some(fault) => Some(DraftBadLines(fault)) case None => None
  }

  lemma NoLineClosureIffOpen(f: Facility, line: Line)
    ensures LineClosures(f, line) == [] <==> !IsBlackedOut(f, line) && IsOpen(f, line)
  {
  }

  lemma AllOpenAppend(f: Facility, lines: seq<Line>, line: Line)
    ensures AllOpen(f, lines + [line]) <==> AllOpen(f, lines) && !IsBlackedOut(f, line) && IsOpen(f, line)
  {
  }

  lemma {:induction false} NoClosureIffOpen(f: Facility, lines: seq<Line>)
    ensures ClosureConflicts(f, lines) == [] <==> AllOpen(f, lines)
  {
    if lines != [] {
      var n := |lines| - 1;
      NoClosureIffOpen(f, lines[..n]);
      NoLineClosureIffOpen(f, lines[n]);
      AllOpenAppend(f, lines[..n], lines[n]);
      assert lines == lines[..n] + [lines[n]];
    }
  }

  lemma {:induction false} NotRefusedIffOpen(f: Facility, lines: seq<Line>)
    ensures ClosureRefusal(f, lines, true).None? <==> AllOpen(f, lines)
  {
    if lines != [] {
      NotRefusedIffOpen(f, lines[1..]);
      assert lines == [lines[0]] + lines[1..];
    }
  }

  // ----- Preview and confirmation

  /** The member's confirmation of an owned draft: the same rooms and times, in any order, with the draft's token. */
  ghost predicate Confirms(command: CreateCommand, f: Facility, draft: BookingDraft, draftId: Uuid, token: Option<string>) {
    && command.user.None?
    && command.ministry == draft.ministry
    && multiset(Intervals(Lines(command))) == multiset(Intervals(draft.lines))
    && command.surchargeCodes == []
    && command.draftId == Some(draftId)
    && command.enforceOpeningHours
    && command.allowOverride
    && command.token == token
  }

  ghost predicate SoftDeleted(f: Facility, ministry: Option<Uuid>) {
    ministry.Some? && ministry.value in f.ministries && f.ministries[ministry.value].deleted
  }

  /** Rules on single lines hold of both lists or of neither. */
  lemma SameLines(a: seq<Line>, b: seq<Line>, l: Line)
    requires multiset(Intervals(a)) == multiset(Intervals(b)) && l in a
    ensures exists m :: m in b && m.Interval() == l.Interval()
  {
    var i :| 0 <= i < |a| && a[i] == l;
    assert Intervals(a)[i] in multiset(Intervals(a));
    assert Intervals(a)[i] in Intervals(b);
    var j :| 0 <= j < |b| && Intervals(b)[j] == l.Interval();
    assert b[j] in b;
  }

  lemma SameOpen(f: Facility, a: seq<Line>, b: seq<Line>)
    requires multiset(Intervals(a)) == multiset(Intervals(b)) && AllOpen(f, b)
    ensures AllOpen(f, a)
  {
    forall l | l in a ensures !IsBlackedOut(f, l) && IsOpen(f, l) {
      SameLines(a, b, l);
      var m :| m in b && m.Interval() == l.Interval();
      assert m.room == l.room && m.startAt == l.startAt && m.endAt == l.endAt;
      assert !IsBlackedOut(f, m) && IsOpen(f, m);
    }
  }

  lemma SameUnblocked(table: Table, a: seq<Line>, b: seq<Line>, canOverride: bool, clocks: Clocks)
    requires multiset(Intervals(a)) == multiset(Intervals(b)) && Unblocked(table, b, canOverride, clocks)
    ensures Unblocked(table, a, canOverride, clocks)
  {
    forall l | l in a ensures Blockers(table, l, canOverride, clocks) == {} {
      SameLines(a, b, l);
      var m :| m in b && m.Interval() == l.Interval();
      assert Blockers(table, l, canOverride, clocks) == Blockers(table, m, canOverride, clocks);
    }
  }

  lemma SameDisplaced(table: Table, a: seq<Line>, b: seq<Line>, canOverride: bool, clocks: Clocks)
    requires multiset(Intervals(a)) == multiset(Intervals(b))
    ensures AllDisplaced(table, a, canOverride, clocks) == AllDisplaced(table, b, canOverride, clocks)
  {
    forall id | id in table ensures MeetsAny(table[id], a) <==> MeetsAny(table[id], b) {
      if l :| l in a && HoldsConfirmedSlot(table[id], l.Interval()) {
        SameLines(a, b, l);
      }
      if l :| l in b && HoldsConfirmedSlot(table[id], l.Interval()) {
        SameLines(b, a, l);
      }
    }
  }

  lemma {:induction false} LineRefusalNone(catalog: Pricing.Catalog, lines: seq<Pricing.QuoteLine>)
    ensures Pricing.LineRefusal(catalog, lines).None? <==> forall l | l in lines :: l.room in catalog.rooms && l.billedHours > 0.0
  {
    if lines != [] {
      LineRefusalNone(catalog, lines[1..]);
      assert lines == [lines[0]] + lines[1..];
    }
  }

  /** Without surcharges a quote is refused or not whatever the order of the lines. */
  lemma SameQuotable(catalog: Pricing.Catalog, a: seq<Line>, b: seq<Line>, free: bool)
    requires multiset(Intervals(a)) == multiset(Intervals(b)) && |a| == |b|
    requires Pricing.Refusal(catalog, Pricing.QuoteCommand(QuoteLines(b), [], free, 0.0)).None?
    ensures Pricing.Refusal(catalog, Pricing.QuoteCommand(QuoteLines(a), [], free, 0.0)).None?
  {
    LineRefusalNone(catalog, QuoteLines(a));
    LineRefusalNone(catalog, QuoteLines(b));
    forall q | q in QuoteLines(a) ensures q in QuoteLines(b) {
      var i :| 0 <= i < |a| && QuoteLines(a)[i] == q;
      SameLines(a, b, a[i]);
      var m :| m in b && m.Interval() == a[i].Interval();
      var j :| 0 <= j < |b| && b[j] == m;
      assert QuoteLines(b)[j] == q;
    }
  }

  /** The draft's own token reviews exactly the current impacts of the same lines. */
  lemma DraftTokenAccepted(table: Table, f: Facility, clocks: Clocks, draft: BookingDraft, view: DraftView, command: CreateCommand, draftId: Uuid)
    requires RT.Lawful(f.codec)
    requires IsViewOf(view, table, f, clocks, draft) && view.confirmable
    requires Confirms(command, f, draft, draftId, view.token)
    ensures ReviewRefusal(table, f, Lines(command), draft.ministry, draft.user, view.token,
                          AllDisplaced(table, draft.lines, DraftOverrides(f, draft), clocks)).None?
  {
    var displaced := AllDisplaced(table, draft.lines, DraftOverrides(f, draft), clocks);
    var targets :| AreTargets(targets, table, draft.lines, DraftOverrides(f, draft), clocks, f.zone) && view.impacts == Impacts(targets);
    TargetImpacts(targets, table, draft.lines, DraftOverrides(f, draft), clocks, f.zone);
    assert RT.ImpactSet(view.impacts) == ImpactsOf(table, displaced);
    if view.impacts != [] {
      var review := DraftReview(f, draft, view.impacts);
      RT.KeysFree(f.codec, Intervals(draft.lines));
      RT.KeysCanonical(f.codec, Intervals(Lines(command)), Intervals(draft.lines));
      forall i, j | 0 <= i < j < |view.impacts| ensures view.impacts[i].bookingId != view.impacts[j].bookingId {
        assert TargetIds(targets)[i] != TargetIds(targets)[j];
      }
      RT.UnchangedSubsetAccepted(f.codec, review, Proposal(f.codec, Lines(command)), view.impacts);
    } else {
      assert RT.ImpactSet(view.impacts) == {};
    }
  }

  /** The gate and the preview's Ministry lookup differ on soft-deleted Ministries only. */
  lemma GateAgreesWithContext(f: Facility, draft: BookingDraft)
    ensures GateRefusal(f, draft.ministry, draft.user).None?
       <==> (draft.ministry.None? || DraftContext(f, draft).Some?) && !SoftDeleted(f, draft.ministry)
  {
  }

  /** For the lines of a stored draft, only the gate and the line checks can refuse. */
  lemma StoredLinesReachOccupancy(table: Table, drafts: map<Uuid, BookingDraft>, f: Facility, clocks: Clocks, draftId: Uuid,
                                  command: CreateCommand, token: Option<string>)
    requires draftId in drafts && LinesError(f, drafts[draftId].lines).None? && drafts[draftId].title != ""
    requires Confirms(command, f, drafts[draftId], draftId, token)
    ensures |Lines(command)| == |drafts[draftId].lines|
    ensures CreateRefusal(table, drafts, f, Some(drafts[draftId].user), clocks, command).None?
       <==> && GateRefusal(f, drafts[draftId].ministry, drafts[draftId].user).None?
            && LinesRefusal(table, f, clocks, command, drafts[draftId].user).None?
  {
    var draft, lines := drafts[draftId], Lines(command);
    assert |Intervals(lines)| == |multiset(Intervals(lines))| == |Intervals(draft.lines)|;
    AcceptedIffValid(lines, f.zone);
    AcceptedIffValid(draft.lines, f.zone);
  }

  lemma ConfirmableLinesPass(table: Table, f: Facility, clocks: Clocks, draft: BookingDraft, draftId: Uuid, view: DraftView, command: CreateCommand)
    requires RT.Lawful(f.codec)
    requires IsViewOf(view, table, f, clocks, draft) && view.confirmable
    requires |Lines(command)| == |draft.lines|
    requires Pricing.Refusal(f.prices, DraftQuoteCommand(f, draft)).None?
    requires Confirms(command, f, draft, draftId, view.token)
    ensures LinesRefusal(table, f, clocks, command, draft.user).None?
  {
    var lines, canOverride := Lines(command), DraftOverrides(f, draft);
    SameDisplaced(table, lines, draft.lines, canOverride, clocks);
    SameUnblocked(table, lines, draft.lines, canOverride, clocks);
    SameOpen(f, lines, draft.lines);
    NotRefusedIffOpen(f, lines);
    SameQuotable(f.prices, lines, draft.lines, DraftQuoteCommand(f, draft).free);
    DraftTokenAccepted(table, f, clocks, draft, view, command, draftId);
  }

  lemma PassedLinesConfirmable(table: Table, f: Facility, clocks: Clocks, draft: BookingDraft, draftId: Uuid, command: CreateCommand,
                               token: Option<string>)
    requires Confirms(command, f, draft, draftId, token)
    requires LinesRefusal(table, f, clocks, command, draft.user).None?
    ensures Unblocked(table, draft.lines, DraftOverrides(f, draft), clocks) && AllOpen(f, draft.lines)
  {
    SameUnblocked(table, draft.lines, Lines(command), DraftOverrides(f, draft), clocks);
    NotRefusedIffOpen(f, Lines(command));
    SameOpen(f, draft.lines, Lines(command));
  }

  /**
   On unchanged tables and clocks, confirming an owned draft with its token succeeds exactly when the draft
   was shown as confirmable and its Ministry is not soft-deleted: the preview's lookup does not filter those.
   */
  lemma PreviewAgreesWithConfirmation(table: Table, drafts: map<Uuid, BookingDraft>, f: Facility, clocks: Clocks, draftId: Uuid,
                                      view: DraftView, command: CreateCommand)
    requires RT.Lawful(f.codec)
    requires draftId in drafts && IsViewOf(view, table, f, clocks, drafts[draftId])
    requires LinesError(f, drafts[draftId].lines).None? && drafts[draftId].title != ""
    requires Pricing.Refusal(f.prices, DraftQuoteCommand(f, drafts[draftId])).None?
    requires Confirms(command, f, drafts[draftId], draftId, view.token)
    ensures CreateRefusal(table, drafts, f, Some(drafts[draftId].user), clocks, command).None?
       <==> view.confirmable && !SoftDeleted(f, drafts[draftId].ministry)
  {
    var draft := drafts[draftId];
    GateAgreesWithContext(f, draft);
    StoredLinesReachOccupancy(table, drafts, f, clocks, draftId, command, view.token);
    if view.confirmable {
      ConfirmableLinesPass(table, f, clocks, draft, draftId, view, command);
    } else if LinesRefusal(table, f, clocks, command, draft.user).None? {
      PassedLinesConfirmable(table, f, clocks, draft, draftId, command, view.token);
    }
  }

  /** A soft-deleted Ministry whose row still says active: the draft is shown as confirmable, the confirmation is refused. */
  lemma SoftDeletedMinistryPreview(table: Table, drafts: map<Uuid, BookingDraft>, f: Facility, clocks: Clocks, draftId: Uuid,
                                   command: CreateCommand, ministry: Uuid)
    requires draftId in drafts && drafts[draftId].ministry == Some(ministry) == command.ministry
    requires command.user.None? && command.rooms != []
    requires f.ministries == map[ministry := Ministry(true, true, false, {drafts[draftId].user})]
    requires table == map[] && drafts[draftId].lines != [] && AllOpen(f, drafts[draftId].lines)
    ensures Confirmable(table, f, clocks, drafts[draftId])
    ensures CreateRefusal(table, drafts, f, Some(drafts[draftId].user), clocks, command) == Some(MinistryInactive)
  {
  }

  // ----- The view, read off the rows and the clock

  lemma ImpactsDescribe(targets: seq<OverrideTarget>, table: Table)
    requires forall t | t in targets :: Describes(t.impact, table)
    ensures forall i | i in Impacts(targets) :: Describes(i, table)
  {
    forall i | i in Impacts(targets) ensures Describes(i, table) {
      var k :| 0 <= k < |targets| && Impacts(targets)[k] == i;
      assert targets[k] in targets;
    }
  }

  /** The impacts are those of exactly the Bookings that a confirmation now would displace, one each. */
  lemma ImpactsOfView(view: DraftView, table: Table, f: Facility, clocks: Clocks, draft: BookingDraft, id: Uuid)
    requires IsViewOf(view, table, f, clocks, draft)
    ensures (exists i :: i in view.impacts && i.bookingId == id) <==> id in AllDisplaced(table, draft.lines, DraftOverrides(f, draft), clocks)
    ensures forall i, j | 0 <= i < j < |view.impacts| :: view.impacts[i].bookingId != view.impacts[j].bookingId
  {
    var targets :| AreTargets(targets, table, draft.lines, DraftOverrides(f, draft), clocks, f.zone) && view.impacts == Impacts(targets);
    var ids := TargetIds(targets);
    if id in AsSet(ids) {
      var k :| 0 <= k < |ids| && ids[k] == id;
      assert view.impacts[k] in view.impacts && view.impacts[k].bookingId == id;
    }
    if i :| i in view.impacts && i.bookingId == id {
      var k :| 0 <= k < |view.impacts| && view.impacts[k] == i;
      assert ids[k] in AsSet(ids);
    }
    forall i, j | 0 <= i < j < |view.impacts| ensures view.impacts[i].bookingId != view.impacts[j].bookingId {
      assert ids[i] != ids[j];
    }
  }

  ghost predicate MayOverrideIn(f: Facility, draft: BookingDraft) {
    && draft.ministry.Some? && draft.ministry.value in f.ministries
    && f.ministries[draft.ministry.value].active && f.ministries[draft.ministry.value].priority
    && draft.user in f.ministries[draft.ministry.value].stewards
  }

  /** A valid draft is confirmable exactly when no line is held by a Booking that does not give way, closed, or outside opening hours, and the Ministry, if any, is Active with the member as steward. */
  lemma ConfirmableIff(table: Table, f: Facility, clocks: Clocks, draft: BookingDraft)
    requires StoredPositive(table, f) && draft.lines != [] && ValidIntervals(multiset(Intervals(draft.lines)), f.zone)
    ensures Confirmable(table, f, clocks, draft)
       <==> && !BlockedAt(table, draft.lines, MayOverrideIn(f, draft), clocks)
            && (forall l | l in draft.lines :: OpenLine(f, l, true))
            && (draft.ministry.Some? ==> draft.ministry.value in f.ministries && f.ministries[draft.ministry.value].active
                                         && draft.user in f.ministries[draft.ministry.value].stewards)
  {
    ValidLinesPositive(draft.lines, f.zone);
    assert DraftOverrides(f, draft) <==> MayOverrideIn(f, draft);
    BlockedIffHeld(table, draft.lines, DraftOverrides(f, draft), clocks);
    forall l | l in draft.lines ensures OpenLine(f, l, true) <==> !IsBlackedOut(f, l) && IsOpen(f, l) {
      OpenLineIff(f, l, true);
    }
  }

  /** A line is shown available exactly when no active Booking holds its room at any instant of it and it is open. */
  lemma AvailableIff(table: Table, f: Facility, clocks: Clocks, l: Line)
    requires StoredPositive(table, f) && l.startAt < l.endAt && f.zone.DateOf(l.startAt) == f.zone.DateOf(l.endAt)
    ensures IsAvailable(table, f, clocks, l)
       <==> && OpenLine(f, l, true)
            && forall id, t | id in table && Active(table[id], clocks.dbNow) && l.Interval().Holds(t) :: !HoldsAt(table[id], l.room, t)
  {
    OpenLineIff(f, l, true);
    forall id | id in table
      ensures HoldsConfirmedSlot(table[id], l.Interval()) <==> exists t :: l.Interval().Holds(t) && HoldsAt(table[id], l.room, t)
    {
      MeetsIffHoldsAt(table[id], l.Interval());
    }
    if id, t :| id in table && Active(table[id], clocks.dbNow) && l.Interval().Holds(t) && HoldsAt(table[id], l.room, t) {
      assert id in Occupants(table, l.Interval(), clocks.dbNow);
    }
  }

  ghost predicate TellsClosure(c: Conflict, f: Facility, l: Line) {
    && c.interval == RoomInterval(l.room, l.startAt, l.endAt) && c.ministryName.None? && c.contact == Contact(None, None)
    && ((c.kind.BlackoutConflict? && IsBlackedOut(f, l)) || (c.kind.OpeningHoursConflict? && !IsOpen(f, l)))
  }

  lemma LineClosuresTell(f: Facility, l: Line, c: Conflict)
    ensures c in LineClosures(f, l) <==> TellsClosure(c, f, l)
  {
  }

  ghost predicate FromLine(f: Facility, lines: seq<Line>, k: nat, c: Conflict)
    requires k < |lines|
  {
    c in LineClosures(f, lines[k])
  }

  lemma SameFromLine(f: Facility, lines: seq<Line>, n: nat, k: nat, c: Conflict)
    requires k < n <= |lines|
    ensures FromLine(f, lines[..n], k, c) <==> FromLine(f, lines, k, c)
  {
    assert lines[..n][k] == lines[k];
  }

  lemma {:induction false} FromSomeLine(f: Facility, lines: seq<Line>, c: Conflict)
    requires c in ClosureConflicts(f, lines)
    ensures exists k :: 0 <= k < |lines| && FromLine(f, lines, k, c)
  {
    var n := |lines| - 1;
    if c in ClosureConflicts(f, lines[..n]) {
      FromSomeLine(f, lines[..n], c);
      var k :| 0 <= k < n && FromLine(f, lines[..n], k, c);
      SameFromLine(f, lines, n, k, c);
    } else {
      assert FromLine(f, lines, n, c);
    }
  }

  lemma ClosureConflictsLast(f: Facility, lines: seq<Line>, n: nat)
    requires |lines| == n + 1
    ensures ClosureConflicts(f, lines) == ClosureConflicts(f, lines[..n]) + LineClosures(f, lines[n])
  {
  }

  lemma {:induction false} FromEachLine(f: Facility, lines: seq<Line>, n: nat, k: nat, c: Conflict)
    requires k < n <= |lines| && c in LineClosures(f, lines[k])
    ensures c in ClosureConflicts(f, lines[..n])
  {
    assert lines[..n][..n - 1] == lines[..n - 1] && lines[..n][n - 1] == lines[n - 1];
    ClosureConflictsLast(f, lines[..n], n - 1);
    if k < n - 1 {
      FromEachLine(f, lines, n - 1, k, c);
    }
  }

  /** The closure conflicts: one per line and kind, for closed lines and for lines outside opening hours. */
  lemma ClosureConflictsTell(f: Facility, lines: seq<Line>, c: Conflict)
    ensures c in ClosureConflicts(f, lines) <==> exists l :: l in lines && TellsClosure(c, f, l)
  {
    if c in ClosureConflicts(f, lines) {
      FromSomeLine(f, lines, c);
      var k :| 0 <= k < |lines| && FromLine(f, lines, k, c);
      LineClosuresTell(f, lines[k], c);
    }
    if l :| l in lines && TellsClosure(c, f, l) {
      var k :| 0 <= k < |lines| && lines[k] == l;
      LineClosuresTell(f, l, c);
      FromEachLine(f, lines, |lines|, k, c);
      assert lines[..|lines|] == lines;
    }
  }

  /** Lines are stored exactly when there are some, not too many, and valid in any order. */
  lemma StoredIffValid(f: Facility, lines: seq<Line>)
    ensures LinesError(f, lines).None? <==> 0 < |lines| <= f.maxLines && ValidIntervals(multiset(Intervals(lines)), f.zone)
    ensures LinesError(f, lines) == Some(DraftLinesRequired) <==> lines == []
    ensures LinesError(f, lines) == Some(DraftTooManyLines) <==> |lines| > 0 && |lines| > f.maxLines
  {
    AcceptedIffValid(lines, f.zone);
  }
}
