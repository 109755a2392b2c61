# Facility booking and session model

A Dafny model of the church facility service: how a One-time Booking is previewed, confirmed and cancelled while
others do the same, how rooms are open or closed, how a stay is priced, and how member and admin sessions refresh.
`dafny verify dfyconfig.toml` checks every file.

| files | what they model |
|---|---|
| `Bookings`, `FacilityDatabase` | the booking table, its queries and its updates |
| `OneTimeOverride`, `PriorityOverride`, `BookingLines` | classifying occupants, displacing whole Bookings, validating lines |
| `BookingService`, `BookingDraftService` | confirmation and cancellation; the live preview of a draft |
| `ConfirmationProtocol` | many confirmations and cancellations interleaved, one query or write at a time |
| `SlotRows`, `PaymentConfirmation` | what slot rows alone do over those runs; payments of a pending series among them |
| `ReviewToken`, `Base64Url`, `Strings`, `Sorting`, `Sequences` | the signed review of an override's impact and its canonical text |
| `OpeningHours`, `Blackouts`, `Availability`, `LocalTime` | templates, closures, Timetable windows and wall time |
| `Pricing` | quotes and their rounding |
| `RefreshTokens`, `MemberSessions` | token families, and the requests around them |
| `MockFixtures` | placement of the Mock fixture suite |
| `JwtScope`, `MyBookings` | the scope claim; the My Bookings cards and pages |

Services and stores that change state are classes; their methods state the whole new state, by functions whose
properties the lemmas then prove. Clock readings, new identifiers, hashes, JSON and the signature are parameters.

## Where the code falls short, and exactly when

- Confirmed slot rows of different Bookings can overlap. A cancellation with scope "series" keeps its rows
  (portal/application/facility/booking_service.py:162), and an expired hold keeps its rows too; the occupancy query
  shows neither. The no-double-booking theorems are therefore about active Bookings. A confirmation keeps rows disjoint
  if and only if no inactive Booking has a confirmed row on its lines (`SlotRows.ConfirmationKeepsRowsDisjointIff`);
  without scope "series" and without holds they stay disjoint over every run (`SlotRows.RowsStayDisjoint`);
  `SlotRows.SlotRowsCanClash` is a run in which they do not.
- Confirming the payment of a recurring series reads its hold and then confirms, with no room locked
  (portal/application/facility/recurring_booking_service.py:517-531). When the hold expires in between, a confirmation can
  take the rows and the payment double-books: `PaymentConfirmation.LatePaymentDoubleBooks` is such a run, and
  `PaymentConfirmation.PaymentKeepsDisjointIff` the exact condition.
- A draft of a soft-deleted Active Ministry previews as confirmable and is then refused: the preview looks the Ministry
  up by id, the gate by the status of undeleted Ministries. `BookingDraftService.PreviewAgreesWithConfirmation` has that
  as its only condition, `BookingDraftService.SoftDeletedMinistryPreview` is the case.
- A review token whose signature part is not ASCII is promised a stale-review conflict
  (docs/adr/0035-reviewed-one-time-priority-override.md), but comparing it raises a type error. `ReviewToken.TypeErrorIff`
  says exactly when, `ReviewToken.TypeErrorExample` is one such token.
- A permission whose verb is "*" does not survive the scope claim; `JwtScope.ScopeRoundTrip` is an equivalence.
- Rounding the discount before the total can quote minus one cent: exactly under a full discount, without surcharge, of a
  subtotal on half a cent (`Pricing.NegativeQuoteIff`); `Pricing.NegativeQuoteExample` is one.

## Model

| member | source | states |
|---|---|---|
| `ConfirmationProtocol.NoInterleavingDoubleBooks` | portal/application/facility/booking_service.py:208-320 | In every committed state of every interleaving of locking, line-by-line evaluation, writing, committing, rolling back and cancelling, no two different active Bookings hold overlapping confirmed slots in one room |
| `ConfirmationProtocol.NoInstantHeldTwice` | portal/application/facility/booking_service.py:208-320 | Over every such run, at every instant every room is held by at most one active Booking |
| `ConfirmationProtocol.StepInv` | portal/application/facility/booking_service.py:208-320 | Every single step keeps the whole invariant: lock ownership, the accounting of what an evaluation has met, fresh ids, known targets and no double booking |
| `ConfirmationProtocol.CommitInv` | portal/application/facility/booking_service.py:252-320 | A commit keeps the invariant although it also releases slots in rooms it never locked, and although other transactions are midway through their evaluation |
| `ConfirmationProtocol.NewSlotsMissOtherLines` | portal/infrastructure/persistence/repositories/facility/booking_repository.py:393-396 | A committing transaction's new slots meet no line that another live transaction has already evaluated, because their locked rooms are disjoint |
| `ConfirmationProtocol.UntargetedAreClear` | portal/application/facility/one_time_override.py:86-133 | After an unblocked evaluation, every committed Booking that is not a target occupies none of the lines, even when the table changed during the evaluation |
| `ConfirmationProtocol.MinistryBookingsStand` | portal/application/facility/one_time_override.py:91-96 | Over every run, no confirmation changes a Ministry Booking; only its own cancellation does |
| `ConfirmationProtocol.NoDeadlock` | portal/infrastructure/persistence/repositories/facility/booking_repository.py:393-396 | While any transaction is live, some live transaction is not waiting for a room: locking the rooms in sorted order cannot deadlock |
| `ConfirmationProtocol.HolderWantsGreater` | portal/infrastructure/persistence/repositories/facility/booking_repository.py:395-396 | Whoever holds a room that is waited for either does not wait or waits for a strictly greater room |
| `ConfirmationProtocol.InsertedViewClashesOnlyWithTargets` | portal/application/facility/booking_service.py:307-316 | New slots are inserted before displaced ones are released: until the release, the transaction's own view double-books if and only if one of its targets still occupies one of its lines |
| `ConfirmationProtocol.UndisturbedIsOneConfirmation` | portal/application/facility/booking_service.py:210-316 | A transaction that evaluates against an unchanged table is blocked exactly when a whole confirmation of the same lines is, and commits exactly that confirmation's table |
| `SlotRows.ConfirmationKeepsRowsDisjointIff` | portal/infrastructure/persistence/repositories/facility/booking_repository.py:569-577 | A successful confirmation keeps the slot rows of different Bookings disjoint if and only if no inactive Booking still has a confirmed row on one of its lines |
| `SlotRows.CommitKeepsRowsDisjointIff` | portal/infrastructure/persistence/repositories/facility/booking_repository.py:569-577 | The same at the commit of an interleaved transaction, where a target that went inactive meanwhile is released all the same |
| `SlotRows.RowsStayDisjoint` | portal/application/facility/booking_service.py:162-165 | Over every run that starts with disjoint rows held by confirmed Bookings and cancels without scope "series", the slot rows are disjoint in every state |
| `SlotRows.SlotRowsCanClash` | portal/application/facility/booking_service.py:162-165 | A run from disjoint rows whose one scope "series" cancellation, followed by a confirmation of the freed line, ends with clashing rows |
| `PaymentConfirmation.PaidRunInv` | portal/application/facility/recurring_booking_service.py:512-531 | Over every interleaving of confirmations, cancellations and payments whose hold is still active when they take effect, the whole invariant holds |
| `PaymentConfirmation.PaymentKeepsDisjointIff` | portal/application/facility/recurring_booking_service.py:517-531 | In a run whose earlier payments took effect in time, a payment whose hold was read earlier leaves active Bookings disjoint if and only if no Booking made since the reading holds a row of a pending occurrence; a hold that is still active guarantees that |
| `PaymentConfirmation.ConfirmedOccurrences` | portal/infrastructure/persistence/repositories/facility/booking_repository.py:556-567 | A payment confirms exactly the undeleted pending occurrences of its series and changes no rows |
| `PaymentConfirmation.LatePaymentDoubleBooks` | portal/application/facility/recurring_booking_service.py:523-531 | A run in which the hold expires after its reading, the freed line is confirmed, and the payment then double-books |
| `Bookings.SlotRowsDisjointIff` | portal/infrastructure/persistence/repositories/facility/booking_repository.py:569-577 | Confirmed slot rows of different Bookings stay disjoint through a confirmation if and only if no undisplaced Booking, active or not, still has a confirmed row on a new line |
| `Bookings.ConfirmKeepsNoDoubleBooking` | portal/application/facility/booking_service.py:252-316 | Releasing the displaced Bookings and adding one that meets no other active Booking keeps active Bookings disjoint |
| `Bookings.TimeKeepsNoDoubleBooking` | portal/infrastructure/persistence/repositories/facility/booking_repository.py:569-577 | An expiring payment hold can only end occupancy, so the invariant holds at every later instant |
| `Bookings.OverriddenNeverClashes` | portal/infrastructure/persistence/repositories/facility/booking_repository.py:418-431 | An overridden Booking clashes with no Booking in any room |
| `FacilityTypes.OverlapsIffShared` | portal/application/facility/timetable_projection.py:69-70 | Non-empty intervals overlap exactly when they share a room and an instant, so touching is not overlapping |
| `Bookings.MeetsIffHoldsAt` | portal/infrastructure/persistence/repositories/facility/booking_repository.py:336-339 | A Booking meets a wanted interval exactly when one of its confirmed slots holds the room at some instant of it |
| `Bookings.NoDoubleBookingIffOneHolder` | portal/infrastructure/persistence/repositories/facility/booking_repository.py:569-577 | No double booking means exactly that no room and instant is held by two active Bookings |
| `Bookings.ActiveWhile` | portal/infrastructure/persistence/repositories/facility/booking_repository.py:569-577 | A pending Booking is active exactly before its hold's instant, a confirmed one always, a deleted, cancelled, overridden or draft one never |
| `Bookings.LiveSlotIntervalsListed` | portal/infrastructure/persistence/repositories/facility/booking_repository.py:398-416 | An override's released intervals hold each interval as often as the Booking has a confirmed slot with it, by start and then room |
| `Bookings.CancelledBooking` | portal/infrastructure/persistence/repositories/facility/booking_repository.py:433-447 | A cancelled Booking is never active again and keeps everything but its status and, unless the scope is "series", holds no room; every other Booking stays |
| `BookingService.BookingService.CreateBooking` | portal/application/facility/booking_service.py:182-335 | Succeeds exactly when no check, in the order of the code, refuses; a success stores the command's booker, Ministry and rooms under a header that spans their times exactly, and states the whole new audit, draft and after-commit state; a refusal changes nothing |
| `BookingService.CreateSucceedsIff` | portal/application/facility/booking_service.py:182-250 | A confirmation succeeds if and only if every check holds in its own terms: rooms, operator, Ministry, title, line rules, no instant held by a Booking that does not give way, no closure and, if enforced, opening hours at every instant, the reviewed impact and the quote |
| `BookingService.RefusalByFirst` | portal/application/facility/booking_service.py:182-222 | The first check that fails names the refusal |
| `BookingService.ClosureByFirst` | portal/application/facility/booking_service.py:223-226 | The first line that is not open is refused, for a closure before its opening hours |
| `BookingService.CreatedIsStored` | portal/application/facility/booking_service.py:206-305 | The stored header spans exactly the rooms' times; each requested room has one confirmed slot with its own times or else the command's |
| `BookingService.AnnouncementsTell` | portal/application/facility/priority_override.py:148-159 | Each announcement names the displaced Booking, its booker and day, the new Booking, and exactly the rooms of its confirmed slots |
| `BookingService.ChangedReleaseIsStale` | portal/application/facility/booking_service.py:227-234 | When a displaced Booking's confirmed intervals differ from those reviewed, a command that passes every earlier check is refused as stale |
| `BookingService.OtherProposalIsStale` | portal/application/facility/booking_service.py:227-234 | A token reviewed for other rooms or times, another booker or another Ministry is refused as stale once something would be displaced |
| `BookingService.TemplatesOfDay` | portal/infrastructure/persistence/repositories/facility/room_slot_template_repository.py:135-147 | The active templates of the room on the day's weekday, each as often as stored, by start time |
| `BookingService.BilledHoursNearest` | portal/application/facility/booking_service.py:123-127 | The billed hours are the nearest hundredth of an hour, the even one from halfway |
| `BookingService.GateIff` | portal/application/facility/booking_service.py:463-477 | The gate passes exactly without a Ministry or with an undeleted Active one of which the booker is a steward |
| `BookingService.QuotedLines` | portal/application/facility/booking_service.py:236-250 | The quote bills each line's room and hours without discount, free exactly for a steward of an undeleted Active Ministry |
| `BookingService.BookingService.ValidateOccupancy` | portal/application/facility/booking_service.py:208-250 | The checks from the room locks to the quote, in order, with the targets and conflicts they found |
| `BookingService.BookingService.WriteConfirmation` | portal/application/facility/booking_service.py:252-333 | Insert, slots, displacement, notification and draft consumption together equal one table update |
| `BookingService.ConfirmationDisplacesExactly` | portal/application/facility/one_time_override.py:80-151 | A successful confirmation displaces exactly the active Bookings that held a confirmed slot on some line, each Non-ministry and starting after now, for an Active Priority Ministry with override allowed; they keep no confirmed slot in any room and every other Booking is unchanged |
| `BookingService.ConfirmationKeepsNoDoubleBooking` | portal/application/facility/booking_service.py:208-320 | A successful confirmation leaves active Bookings disjoint now and at every later instant |
| `BookingService.BookingService.CancelBooking` | portal/application/facility/booking_service.py:158-165 | Cancels an existing Booking; its slots are released unless the scope is "series" |
| `BookingService.BookingService.RaiseIfAnyRoomClosed` | portal/application/facility/booking_service.py:223-226 | The first closed line, closures before opening hours, decides the refusal |
| `FacilityDatabase.Database.ListOccupyingSlots` | portal/infrastructure/persistence/repositories/facility/booking_repository.py:346-391 | Exactly the rows of the active Bookings that hold the room at some instant of the wanted interval, in no particular order |
| `FacilityDatabase.Database.HasConfirmedSlotOverlap` | portal/infrastructure/persistence/repositories/facility/booking_repository.py:328-344 | True exactly when some active Booking occupies the room at that time |
| `FacilityDatabase.Database.OverrideBooking` | portal/infrastructure/persistence/repositories/facility/booking_repository.py:418-431 | Two updates by id equal overriding that Booking with every slot released |
| `OneTimeOverride.EvaluateOneTimeOccupancy` | portal/application/facility/one_time_override.py:68-151 | One target for each displaced Booking and no other, with its header times, series flag and every confirmed interval; conflicts of the blocking occupants, line by line |
| `OneTimeOverride.ScanLine` | portal/application/facility/one_time_override.py:90-133 | One line's rows: targets in the order of their first rows, each room once, one conflict per blocking Booking, or a single generic one for a Personal caller |
| `OneTimeOverride.FirstSeenOrder` | portal/application/facility/one_time_override.py:90-96 | The targets of the first rows stay in front of those of later rows, each once |
| `OneTimeOverride.MetIsTable` | portal/application/facility/one_time_override.py:90-102 | Whatever order the rows came in, the blocking and displaced Bookings collected are exactly those of the table |
| `OneTimeOverride.NoConflictIffUnblocked` | portal/application/facility/one_time_override.py:97-133 | The conflict list is empty exactly when no line has a blocking occupant |
| `OneTimeOverride.UnblockedMeetsOnlyDisplaced` | portal/application/facility/one_time_override.py:86-133 | An unblocked proposal meets no active Booking other than the ones it displaces, now or later |
| `OneTimeOverride.DisplacedAreEligible` | portal/application/facility/one_time_override.py:79-96 | Ministry Bookings, started Bookings and Bookings away from every line are never displaced, and only a Priority Ministry with override allowed displaces |
| `OneTimeOverride.BlockedIffHeld` | portal/application/facility/one_time_override.py:86-133 | A proposal is blocked exactly when at some instant of a line its room is held by an active Booking that has a Ministry or has started, or the caller cannot override |
| `OneTimeOverride.DisplacedIffHeld` | portal/application/facility/one_time_override.py:86-96 | Exactly the active Non-ministry Bookings starting after now that hold a line's room at some instant of it are displaced, by callers who can override |
| `OneTimeOverride.TouchingLineIsFree` | portal/infrastructure/persistence/repositories/facility/booking_repository.py:369-370 | A line that only touches the active slots of its room has no occupant |
| `OneTimeOverride.ImpactDescribes` | portal/application/facility/one_time_override.py:135-145 | An impact holds the header's times, the series flag, and every confirmed interval of its Booking, in order |
| `OneTimeOverride.OverlapRoomsHeld` | portal/application/facility/one_time_override.py:93-95 | A target's overlapping rooms are those of the lines at whose instants it holds the room |
| `OneTimeOverride.ContextIffSteward` | portal/application/facility/one_time_override.py:44-52 | A context exists exactly for a current steward of an Active Ministry, with that Ministry's priority |
| `OneTimeOverride.ConflictsTell` | portal/application/facility/one_time_override.py:100-129 | A Ministry caller's conflicts are exactly one for each blocking Booking of each line; Ministries are named with their steward, a Rental booker is hidden from a Priority Ministry |
| `OneTimeOverride.PersonalConflictsAreGeneric` | portal/application/facility/one_time_override.py:97-99 | A Personal caller's conflicts carry no name, contact or Ministry, at most one per line |
| `PriorityOverride.ApplyWholeBookingOverrides` | portal/application/facility/priority_override.py:136-174 | Overrides each replaced Booking once, appends its audit rows, and returns one announcement per Booking |
| `PriorityOverride.EachAnnouncedOnce` | portal/application/facility/priority_override.py:148-159 | Each displaced Booking is announced once, and no other |
| `PriorityOverride.AuditRowsComplete` | portal/application/facility/priority_override.py:160-171 | There is an audit row for exactly each pair of a replaced Booking and a room where it overlapped |
| `PriorityOverride.AuditRowsOnce` | portal/application/facility/priority_override.py:160-171 | With distinct targets no audit row is written twice |
| `PriorityOverride.ItemsAnnounce` | portal/application/facility/priority_override.py:151-159 | Each announcement carries its target's data and each released room once |
| `BookingDraftService.PreviewAgreesWithConfirmation` | portal/application/facility/booking_draft_service.py:136-194 | On an unchanged store and clock, the confirmation of an owned draft's lines, in any order, with its token succeeds if and only if the draft is confirmable and its Ministry is not soft-deleted |
| `BookingDraftService.SoftDeletedMinistryPreview` | portal/application/facility/booking_draft_service.py:145-185 | A soft-deleted Active Ministry previews as confirmable and is refused at confirmation: the preview reads the Ministry by id, the gate by an undeleted status |
| `BookingDraftService.BookingDraftService.GetDraft` | portal/application/facility/booking_draft_service.py:136-213 | A live view of the owned draft; nothing is written |
| `BookingDraftService.BookingDraftService.CreateDraft` | portal/application/facility/booking_draft_service.py:104-115 | Stores validated lines under a new id, or reports why not |
| `BookingDraftService.BookingDraftService.UpdateDraft` | portal/application/facility/booking_draft_service.py:118-133 | Replaces an owned draft's header and lines in place and answers with its live view; a quote refused there comes after the write |
| `BookingDraftService.BookingDraftService.HandleUpdateDraft` | portal/apps.py:92-103 | An update request succeeds exactly when nothing refuses it, and any failure, also after the write, leaves the drafts as they were |
| `BookingDraftService.GateAgreesWithContext` | portal/infrastructure/persistence/repositories/org/ministry_repository.py:301-318 | The confirmation gate passes exactly when the preview found its context and the Ministry is not soft-deleted |
| `BookingDraftService.DraftTokenAccepted` | portal/application/facility/booking_draft_service.py:187-194 | The token that a confirmable preview issues is accepted for the same proposal in any line order |
| `BookingDraftService.ConfirmableIff` | portal/application/facility/booking_draft_service.py:145-185 | A valid draft is confirmable exactly when no instant of a line is held by a Booking that does not give way, no line is closed or outside opening hours, and its Ministry, if any, is Active with the member as steward |
| `BookingDraftService.AvailableIff` | portal/application/facility/booking_draft_service.py:159-178 | A line is shown available exactly when it is open and no active Booking holds its room at any instant of it |
| `BookingDraftService.ImpactsOfView` | portal/application/facility/booking_draft_service.py:196-212 | The shown impacts are those of exactly the Bookings that a confirmation now would displace, one each |
| `BookingDraftService.ClosureConflictsTell` | portal/application/facility/booking_draft_service.py:167-169 | There is a closure conflict for exactly each closed line and each line outside opening hours, naming nobody |
| `BookingDraftService.StoredIffValid` | portal/application/facility/booking_draft_service.py:87-101 | Lines are accepted exactly when there are some, not too many, and valid in any order |
| `BookingLines.ValidateBookingLines` | portal/application/facility/booking_line_validation.py:44-68 | Reports the first fault in the order of the code |
| `BookingLines.AcceptedIffValid` | portal/application/facility/booking_line_validation.py:44-68 | Lines are accepted if and only if, as a multiset of intervals, they are positive, within one common local day and free of exact duplicates; so the order of lines never matters |
| `BookingLines.FaultByFirst` | portal/application/facility/booking_line_validation.py:49-68 | The first line that is not clean names the fault: its length, then midnight, then the repeat; the common day comes last |
| `ReviewToken.AcceptedIffReviewed` | portal/application/facility/priority_override.py:109-123 | For every token text: displacement is accepted if and only if nothing is displaced, or the token was issued for this booker, Ministry and proposal and every current impact appears in it unchanged |
| `ReviewToken.IssuedTokenAccepts` | portal/application/facility/priority_override.py:78-123 | The exact verdict on an issued token for any booker, Ministry, proposal and impacts |
| `ReviewToken.UnchangedSubsetAccepted` | portal/application/facility/priority_override.py:112-123 | Every subset of the reviewed impacts passes, with the proposal in any order |
| `ReviewToken.TypeErrorIff` | portal/application/facility/priority_override.py:92-98 | For every token text: the type error of the signature comparison arises if and only if there is an impact, the part before the first dot is non-empty and the part after it is not ASCII; every other refusal is a conflict |
| `ReviewToken.AsciiTokenMeetsOnlyConflicts` | portal/application/facility/priority_override.py:92-98 | A caller whose token is ASCII never meets the type error |
| `ReviewToken.IssuedTokenIsAscii` | portal/application/facility/priority_override.py:87-89 | Every issued token is ASCII |
| `ReviewToken.ReviewRequiredIff` | portal/application/facility/priority_override.py:113-118 | A review is asked for exactly when something would be displaced and no token was sent |
| `ReviewToken.TypeErrorExample` | portal/application/facility/priority_override.py:96-98 | One token that raises the type error for any proposal with an impact |
| `ReviewToken.FingerprintInjective` | portal/application/facility/priority_override.py:65-67 | Two fingerprints are equal if and only if Booking, times and the multiset of released intervals are |
| `ReviewToken.ContextDigestInjective` | portal/application/facility/priority_override.py:52-53 | Two context digests are equal if and only if booker, Ministry and the multiset of the proposal are |
| `ReviewToken.CanonicalJoin` | portal/application/facility/priority_override.py:52-67 | Joining a fixed head and a sorted tail with newlines identifies the head and the tail's multiset |
| `ReviewToken.KeysCanonical` | portal/application/facility/priority_override.py:60-67 | Room interval keys identify the multiset of intervals, whatever offset the instants were written in |
| `ReviewToken.TargetsLastWins` | portal/application/facility/priority_override.py:82-86 | The signed dictionary holds, for each Booking, the fingerprint of the last impact listed for it |
| `ReviewToken.IssuedTokenReads` | portal/application/facility/priority_override.py:87-100 | Partitioning an issued token at its first dot recovers body and signature, and decoding the body recovers the payload |
| `Base64Url.DecodeEncode` | portal/application/facility/priority_override.py:70-75 | Unpadded base64url round-trips for every byte sequence |
| `Base64Url.EncodedLetters` | portal/application/facility/priority_override.py:70-71 | Encoded text uses only the URL-safe alphabet, so it never holds a dot |
| `Base64Url.EncodeInjective` | portal/application/facility/priority_override.py:70-71 | Different byte sequences have different encodings |
| `Base64Url.Rfc4648Vectors` | portal/application/facility/priority_override.py:70-71 | The test vectors of section 10 of RFC 4648, without padding, and both letters of the URL-safe alphabet |
| `OpeningHours.MergeOpenWindows` | portal/application/facility/opening_hours.py:33-44 | Covers the same instants as its input, and is sorted and strictly separated when every window is non-empty |
| `OpeningHours.NormalUnique` | portal/application/facility/opening_hours.py:33-44 | A sorted, strictly separated list is determined by the instants it covers, so the merge of any permutation is the same list |
| `OpeningHours.CoveredThroughout` | portal/application/facility/opening_hours.py:84-87 | In such a list, an interval is covered at every instant exactly when one window holds all of it |
| `OpeningHours.FilterApplicableTemplates` | portal/application/facility/opening_hours.py:17-26 | Keeps, in order, exactly the templates in effect on the day |
| `OpeningHours.MemberIntervalWithinOpeningHours` | portal/application/facility/opening_hours.py:55-87 | True if and only if the interval is non-empty, every instant of it is covered by applicable templates, and it lasts the minimum of the template at its start |
| `OpeningHours.WithinOpeningHoursIffOffered` | portal/application/facility/opening_hours.py:55-87 | The check holds exactly when every instant lies on the start's local day at a time of day that some template in effect offers, and the first template to offer the start asks for no longer |
| `LocalTime.MaskHasIff` | portal/domain/facility/days_of_week_mask.py:19-28 | A mask made from weekdays applies on exactly the days that fall on one of them |
| `LocalTime.SpanOfDay` | portal/application/facility/opening_hours.py:29-30 | The instants between two local times of a day are exactly those of that day at a time between them |
| `LocalTime.OffsetShifts` | portal/application/facility/opening_hours.py:63 | Local days and times are those of the instant shifted by the zone's offset |
| `Availability.CutSegment` | portal/application/facility/availability_service.py:130-136 | One segment minus one closure: what remains, as separated segments |
| `Availability.SubtractBlackouts` | portal/application/facility/availability_service.py:123-138 | Repeated subtraction leaves exactly the instants of the window that no closure covers |
| `Availability.BuildOpenWindows` | portal/application/facility/availability_service.py:110-139 | Covers an instant if and only if some template covers it and no closure does, in non-empty, ordered, strictly separated windows |
| `Availability.OpenWindowsUnique` | portal/application/facility/availability_service.py:110-139 | The windows do not depend on the order or repetition of templates or closures |
| `Availability.TimetableAgreesWithAdmission` | portal/application/facility/opening_hours.py:55-87 | An interval passes the opening-hours check and overlaps no closure if and only if it meets its start template's minimum and lies inside one Timetable window |
| `Blackouts.SameDayOverlap` | portal/infrastructure/persistence/repositories/facility/room_blackout_repository.py:204-225 | Within one local day, the closure check holds exactly when some instant of the interval is closed |
| `Blackouts.OverlapIffClosedWithin` | portal/infrastructure/persistence/repositories/facility/room_blackout_repository.py:149-225 | A one-day interval is refused exactly when, at some instant of it, an active closure of its room or of every room holds on that date or weekday in season |
| `Blackouts.OverlapAcrossMidnight` | portal/infrastructure/persistence/repositories/facility/room_blackout_repository.py:204-225 | Across midnight the same holds of the first day up to its last second or of the last day from its start |
| `RefreshTokens.RefreshTokenProvider.IssueToken` | portal/providers/refresh_token_provider.py:36-72 | Adds one parentless, unreplaced token to the pending table |
| `RefreshTokens.RefreshTokenProvider.RotateToken` | portal/providers/refresh_token_provider.py:74-133 | Succeeds exactly for an unreplaced row that is neither revoked nor past its expiry, and adds its child to the pending rows; a replaced row in force revokes the family and commits; anything else changes nothing |
| `RefreshTokens.RefreshTokenProvider.RevokeFamily` | portal/providers/refresh_token_provider.py:135-142 | Revokes every token of the family and commits at once |
| `RefreshTokens.RefreshTokenProvider.RevokeByToken` | portal/providers/refresh_token_provider.py:144-166 | Revokes the found token's family and commits, or only that token and leaves it pending |
| `RefreshTokens.StoreRunInv` | portal/providers/refresh_token_provider.py:36-166 | Over every run of issue, rotate, revoke, commit and rollback, each family forms one chain in both tables, on its opening terms |
| `RefreshTokens.PresentByRow` | portal/providers/refresh_token_provider.py:74-133 | What presenting a token does to both tables, by its row alone |
| `RefreshTokens.LatestTokenRotates` | portal/providers/refresh_token_provider.py:92-133 | Over every run, the last token of a family that is neither revoked nor expired rotates: the chain gains the new token and nothing else changes |
| `RefreshTokens.RotateExtendsChain` | portal/providers/refresh_token_provider.py:92-127 | Rotation appends the new token to the end of its family's chain |
| `RefreshTokens.ReplacementIsChild` | portal/providers/refresh_token_provider.py:96-127 | In a table of chains, a replacement exists, belongs to the family and names the replaced token as parent |
| `RefreshTokens.ParentIsReplaced` | portal/providers/refresh_token_provider.py:96-127 | In a table of chains, a parent exists, belongs to the family and names this token as its replacement |
| `RefreshTokens.OneUnreplaced` | portal/providers/refresh_token_provider.py:84-127 | A family has at most one unreplaced and at most one parentless token |
| `RefreshTokens.RotationNeverExtends` | portal/providers/refresh_token_provider.py:48-107 | Every rotation of a family happens within one lifetime of its issue, for the same user and device, and its child expires when the first token did |
| `RefreshTokens.ReuseKillsFamily` | portal/providers/refresh_token_provider.py:87-90 | Presenting a replaced, unrevoked, unexpired token revokes its whole family in the committed table for good, whatever rolls back later, and no later rotation of the family succeeds |
| `RefreshTokens.PresentThenRollBack` | portal/apps.py:92-103 | Outside reuse, presenting a token and rolling back gives the whole store back; after reuse the revocation stays committed |
| `MemberSessions.AuthService.CompleteMemberLogin` | portal/application/auth/login_service.py:86-103 | Issues a token and binds its family to the app, or does neither |
| `MemberSessions.AuthService.CompleteAdminLogin` | portal/application/auth/login_service.py:56-82 | Issues a token without any app binding, for a verified, active admin only |
| `MemberSessions.AuthService.RefreshMemberToken` | portal/application/auth/refresh_token_service.py:74-103 | Succeeds exactly for an unreplaced row in force, bound to the requesting app, of a verified, active user; a failure after rotation leaves the rotated row pending |
| `MemberSessions.AuthService.RefreshToken` | portal/application/auth/refresh_token_service.py:50-71 | Succeeds exactly for an unreplaced row in force whose user is a verified, active admin; no binding is asked |
| `MemberSessions.AuthService.LogoutMember` | portal/application/auth/refresh_token_service.py:115-123 | Clears the access token's binding and revokes the refresh token's family |
| `MemberSessions.AuthService.HandleMemberLogin` | portal/middlewares/core_request.py:123-137 | A login request commits its token or leaves the table as it was |
| `MemberSessions.AuthService.HandleMemberRefresh` | portal/apps.py:92-103 | A refresh request refused for any reason but reuse leaves the committed tokens as they were, even after rotation wrote; reuse leaves the family revoked |
| `MemberSessions.AuthService.HandleAdminRefresh` | portal/apps.py:92-103 | The same for the admin refresh |
| `MemberSessions.AuthService.AbandonRefresh` | portal/middlewares/core_request.py:124-126 | An exception of any kind after the token was presented, short of reuse, leaves the committed tokens as they were |
| `MemberSessions.RequestEvents` | portal/application/auth/refresh_token_service.py:50-123 | Every request changes the committed tokens like one provider event, or not at all |
| `MemberSessions.RequestRunInv` | portal/application/auth/refresh_token_service.py:50-123 | Over every run of logins, refreshes, logouts and lost bindings: families are chains, and bindings and access tokens agree with their login |
| `MemberSessions.MemberRefreshAnswers` | portal/application/auth/refresh_token_service.py:74-103 | Who is granted a member refresh, and which refusal names which defect of app, row, binding or user |
| `MemberSessions.AdminRefreshAnswers` | portal/application/auth/refresh_token_service.py:50-71 | The same for the admin refresh |
| `MemberSessions.GrantedIffInGoodStanding` | portal/application/auth/refresh_token_service.py:50-103 | Over every run, exactly the requests whose row, binding and user are in order at that moment are granted, and a step mints their token alone |
| `MemberSessions.AdminTokensGoToAdmins` | portal/application/auth/refresh_token_service.py:57-68 | Every admin token handed out in a run goes to a verified, active admin of that moment |
| `MemberSessions.TokensByRequest` | portal/application/auth/refresh_token_service.py:50-123 | What each request does to the committed tokens, row by row |
| `MemberSessions.BindingsByRequest` | portal/providers/member_refresh_app_binding_provider.py:23-37 | A family's binding is its login's app until its member logs out or it is lost |
| `MemberSessions.UsersByRequest` | portal/application/auth/refresh_token_service.py:57-61 | Only a change of the user itself changes who may refresh |
| `MemberSessions.MemberTokensCarryLoginApp` | portal/application/auth/refresh_token_service.py:85-101 | Every member access token of a family carries the app code and user of its login |
| `MemberSessions.AdminFamiliesMintNoMemberTokens` | portal/application/auth/refresh_token_service.py:85-87 | A family opened by an admin login never yields a member access token |
| `MemberSessions.OtherAppGetsNothing` | portal/application/auth/refresh_token_service.py:78-89 | A refresh from another app, or from no known app, yields no token and, short of replaying a replaced token, changes no token |
| `MemberSessions.SessionsEnd` | portal/application/auth/refresh_token_service.py:50-103 | No refresh succeeds later than one lifetime after its family's login |
| `MemberSessions.EndedSessionsStayEnded` | portal/application/auth/refresh_token_service.py:110-123 | After a reuse or a logout, no refresh of that family is ever granted again |
| `MockFixtures.FirstFreeDay` | portal/application/cli/mock_fixture_plans.py:177-220 | The earliest of the thirty candidate days that is free and not excluded; none if and only if no candidate is |
| `MockFixtures.PlaceBookings` | portal/application/cli/seed_mock_data_service.py:392-403 | Each plan takes the earliest day free of all occupancy so far; stopping early means a missing room or thirty blocked days |
| `MockFixtures.PlaceSuite` | portal/application/cli/seed_mock_data_service.py:352-403 | Closures then bookings, each on its earliest free day; every placement failure means that all thirty days were blocked for that item |
| `MockFixtures.PlaceMockSuite` | portal/application/cli/mock_fixture_plans.py:91-104 | The same for the ten shipped scenarios |
| `MockFixtures.PlacedNeverOverlap` | portal/application/cli/seed_mock_data_service.py:390-403 | Placed bookings meet no prior occupancy, no old or new closure, and no other placed booking in a shared room |
| `MockFixtures.CampusDayIsClear` | portal/application/cli/seed_mock_data_service.py:352-367 | No placed booking and no room closure falls on the campus closure's day |
| `MockFixtures.SearchAgreesWithGate` | portal/application/cli/mock_fixture_plans.py:146-159 | For a one-day interval, the fixture search sees a closure exactly when the booking check refuses some room |
| `MockFixtures.FreeSharesNoInstant` | portal/application/cli/mock_fixture_plans.py:129-173 | A day is free exactly when its interval shares no instant with occupancy of its rooms and no room of it is closed at any |
| `MockFixtures.PlacedShareNoInstant` | portal/application/cli/seed_mock_data_service.py:390-403 | No instant finds two placed bookings, or a placed booking and prior occupancy, in one room |
| `MockFixtures.PlacedAtItsHours` | portal/application/cli/mock_fixture_plans.py:106-110 | A placed booking starts and ends at its plan's local hours on one of the next thirty days |
| `MockFixtures.TenScenarios` | portal/application/cli/mock_fixture_plans.py:91-104 | Ten scenarios, six Personal and four of Ministries, the last of two rooms |
| `MockFixtures.ClosureHours` | portal/application/cli/mock_fixture_plans.py:30-33 | The hours of the two placed closures |
| `Pricing.PreviewQuote` | portal/application/facility/pricing_service.py:46-103 | Refuses in the order of the code, is free for a qualifying Ministry, and otherwise is the rounded quote of the exact amounts |
| `Pricing.QuotedWithinOneCent` | portal/application/facility/pricing_service.py:88-100 | The quoted amount is within one cent of the total computed without any rounding |
| `Pricing.PartsAddUpWithinOneCent` | portal/application/facility/pricing_service.py:94-103 | The quoted amount differs from subtotal minus discount plus surcharge by at most one cent |
| `Pricing.LineSubtotalsNearSubtotal` | portal/application/facility/pricing_service.py:64-86 | The sum of n rounded line subtotals differs from the rounded subtotal by at most (n+1)/2 cents |
| `Pricing.QuoteNotBelowMinusOneCent` | portal/application/facility/pricing_service.py:88-100 | With non-negative prices and at most a full discount, a quote is never below minus one cent |
| `Pricing.NegativeQuoteIff` | portal/application/facility/pricing_service.py:88-100 | With non-negative amounts and at most a full discount, a quote is negative if and only if the discount is full, there is no surcharge and the subtotal lies on half a cent; it is then minus one cent |
| `Pricing.AmountsNonNegative` | portal/application/facility/pricing_service.py:64-92 | Non-negative prices give every accepted quote a non-negative subtotal and surcharge |
| `Pricing.NegativeQuoteExample` | portal/application/facility/pricing_service.py:88-100 | Half a cent of rent under a full discount is quoted as minus one cent |
| `Pricing.ComputeSurcharges` | portal/application/facility/pricing_service.py:135-151 | The sum of the active surcharges, or a refusal for an unknown or inactive code |
| `Pricing.QuotedIff` | portal/application/facility/pricing_service.py:50-70 | A quote is given exactly for known rooms with positive hours, either free or with every rate and surcharge active |
| `Pricing.LineRefusalByFirst` | portal/application/facility/pricing_service.py:52-56 | The first bad line decides the refusal, its unknown room before its hours |
| `Pricing.LineAmountByUnit` | portal/application/facility/pricing_service.py:122-133 | Daily, per-slot and per-booking rates ignore the hours; every other unit multiplies by them |
| `Pricing.HalfUpIffNearest` | portal/application/facility/pricing_service.py:29-31 | Rounding takes the nearest integer, away from zero from halfway |
| `Pricing.LastActiveCounts` | portal/application/facility/pricing_service.py:138-146 | Of several active surcharges with a code the last one counts, and inactive ones never |
| `Pricing.SurchargeByKind` | portal/application/facility/pricing_service.py:141-150 | A per-hour surcharge multiplies by the hours of all lines together, any other is charged once |
| `Pricing.PublishedAmounts` | portal/application/facility/pricing_service.py:88-103 | Subtotal, discount and surcharge are whole cents within half a cent of their exact values, the quoted amount whole cents |
| `Pricing.LineSubtotalOf` | portal/application/facility/pricing_service.py:66-86 | Each line's published subtotal is its own exact amount, rounded to whole cents |
| `JwtScope.GenerateScope` | portal/providers/jwt_provider.py:34-59 | The result lists each compressed permission once and nothing else, in some order; it fails exactly when a permission has no colon |
| `JwtScope.ScopeRoundTrip` | portal/providers/jwt_provider.py:34-59 | For space-free permissions, expanding any scope it may give returns the permissions if and only if none has the verb "*" itself |
| `JwtScope.WildcardIffAllVerbs` | portal/providers/jwt_provider.py:53-58 | A resource is written as a wildcard if and only if its verbs are exactly the four, or "*" was one of them already |
| `JwtScope.OthersWrittenAsGiven` | portal/providers/jwt_provider.py:56-58 | Every other resource is written verb by verb, exactly as given |
| `JwtScope.ParseText` | portal/providers/jwt_provider.py:48-49 | Splitting at the last colon recovers resource and verb |
| `MyBookings.ProjectMyBookingsCards` | portal/application/facility/my_bookings.py:12-47 | Cards show exactly the section's rows as a multiset, at most one card per series, each series card all its rows in order, the cards sorted by the section's key |
| `MyBookings.EachRowInOneCard` | portal/application/facility/my_bookings.py:12-47 | A row of the section is in exactly one card, a row of another section in none |
| `MyBookings.SectionOf` | portal/domain/facility/my_bookings.py:12-28 | Which status, hold and end put a row in which section |
| `MyBookings.CardsInOrder` | portal/application/facility/my_bookings.py:70-83 | Upcoming cards come by their earliest occurrence, the others by their latest, the most recent first |
| `MyBookings.CardRowsOfSection` | portal/application/facility/my_bookings.py:19-46 | A series card holds exactly the section's occurrences of its series, a one-time card a row of no series |
| `MyBookings.GroupingConserves` | portal/application/facility/my_bookings.py:25-31 | Grouping by series loses no row and repeats none |
| `MyBookings.PagesGiveAllCards` | portal/application/facility/my_bookings.py:50-53 | Reading every page gives every card once, in order, and each page reports the same total |

## Left out

- Recurring series, their drafts and the expiry sweep. A series is an id and a hold on its occurrences; of its service only the payment confirmation is modelled, and there not the operator check, the names stored or the answer for a series already confirmed.
- Updating a Booking's title, admin and member listings other than My Bookings, cancellation reasons and participant checks, and the audit columns of rows.
- The price snapshot stored on a Booking and its rooms; a quote's outcome only decides whether the confirmation succeeds.
- Choosing a rental rate for a line, and discounts of recurring bookings: the chosen rate and the percent are inputs.
- The 28-digit decimal context: amounts are exact reals rounded where the code rounds.
- Daylight saving: a facility's zone is one fixed offset. Instants count microseconds.
- SHA-256, HMAC, JSON and UUID text: parameters of `ReviewToken.Codec`, assumed injective and of the expected alphabets; a signature is assumed valid only when issued.
- A review secret shared with other tokens, and review tokens of recurring series.
- SQL isolation below one query: each query or write is one step on the committed table, advisory locks are exclusive until commit or rollback, and row locks taken by the updates of displaced Bookings are not modelled.
- Recurring series creation takes the same room locks in the code and does not take part in `ConfirmationProtocol`.
- Sending notifications after commit; only what is queued is modelled.
- Concurrent rotation of one refresh token: the code takes no lock, so requests are taken one after another.
- A refresh token's row id and its hash are one key, both being unique; device rows, addresses and user agents are left out.
- The blacklist of access tokens, passwords, Microsoft and mock sign-in, and the mapping of an Origin to an app code: the resolved app code is an input.
- Bindings expire at any moment rather than after their exact lifetime.
- The fixture command's prerequisites and inserts after placement, and its ministry and account lookups.
- Reading a scope claim: `JwtScope.Expand` is the reading that the claim's documentation describes; the service itself never expands one.
- Photos of My Bookings cards; UUIDs compare as numbers, which is their text order.
- Availability.BuildOpenWindows: takes closures of positive length, as the stored constraint guarantees (portal/models/facility/room_blackout.py:29).
- BookingService.CreateSucceedsIff: takes stored slots and closures of positive length, which the code validates for lines and the store constrains for closures (portal/application/facility/booking_line_validation.py:50-51).
