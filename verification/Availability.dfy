/** Timetable windows: the union of the day's templates minus its closures, and its agreement with admission. */
module Availability {
  import opened FacilityTypes
  import opened LocalTime
  import opened OpeningHours
  import opened Blackouts

  function BlackoutWindow(b: Blackout, day: Date, zone: Zone): Window {
    Window(zone.Combine(day, b.startTime), zone.Combine(day, b.endTime))
  }

  /** What one closure leaves of one segment: at most a part before it and a part after it. */
  method CutSegment(seg: Window, cut: Window) returns (rest: seq<Window>)
    requires seg.startAt < seg.endAt && cut.startAt < cut.endAt
    ensures Normal(rest)
    ensures forall t :: Covered(rest, t) <==> seg.Covers(t) && !cut.Covers(t)
    ensures forall w | w in rest :: seg.startAt <= w.startAt && w.endAt <= seg.endAt
  {
    if !IntervalsOverlap(seg.startAt, seg.endAt, cut.startAt, cut.endAt) {
      assert seg in [seg];
      return [seg];
    }
    rest := [];
    if seg.startAt < cut.startAt {
      var left := Window(seg.startAt, Min(seg.endAt, cut.startAt));
      CoveredAppend(rest, left);
      rest := rest + [left];
    }
    if cut.endAt < seg.endAt {
      var right := Window(Max(seg.startAt, cut.endAt), seg.endAt);
      CoveredAppend(rest, right);
      rest := rest + [right];
    }
  }

  ghost predicate EndsBefore(windows: seq<Window>, split: Instant) {
    forall w | w in windows :: w.endAt < split
  }

  /** Cut one closure out of every segment. */
  method SubtractBlackout(segments: seq<Window>, cut: Window) returns (next: seq<Window>)
    requires Normal(segments) && cut.startAt < cut.endAt
    ensures Normal(next)
    ensures forall t :: Covered(next, t) <==> Covered(segments, t) && !cut.Covers(t)
    ensures forall lo, hi | Within(segments, lo, hi) :: Within(next, lo, hi)
  {
    next := [];
    for i := 0 to |segments|
      invariant Normal(next)
      invariant forall t :: Covered(next, t) <==> Covered(segments[..i], t) && !cut.Covers(t)
      invariant forall lo, hi | Within(segments, lo, hi) :: Within(next, lo, hi)
      invariant forall j | i <= j < |segments| :: EndsBefore(next, segments[j].startAt)
    {
      var seg := segments[i];
      assert segments[..i + 1] == segments[..i] + [seg];
      CoveredAppend(segments[..i], seg);
      var rest := CutSegment(seg, cut);
      CoveredConcat(next, rest);
      NormalConcat(next, rest, seg.startAt);
      next := next + rest;
    }
    assert segments[..|segments|] == segments;
  }

  ghost predicate Within(windows: seq<Window>, lo: Instant, hi: Instant) {
    forall w | w in windows :: lo <= w.startAt && w.endAt <= hi
  }

  function Min(a: int, b: int): int {
    if a < b then a else b
  }

  ghost predicate Open(day: Date, templates: seq<Template>, blackouts: seq<Blackout>, zone: Zone, t: Instant) {
    AnyTemplateCovers(templates, day, zone, t) && !AnyBlackoutCovers(blackouts, day, zone, t)
  }

  /** `Normal` and this coverage determine the windows. */
  ghost predicate IsTimetable(open: seq<Window>, day: Date, templates: seq<Template>, blackouts: seq<Blackout>, zone: Zone) {
    Normal(open) && forall t :: Covered(open, t) <==> Open(day, templates, blackouts, zone, t)
  }

  /** Cut every closure of the day out of one merged window. */
  method SubtractBlackouts(day: Date, window: Window, blackouts: seq<Blackout>, zone: Zone) returns (segments: seq<Window>)
    requires window.startAt < window.endAt
    requires forall b | b in blackouts :: Positive(b)
    ensures Normal(segments)
    ensures forall t :: Covered(segments, t) <==> window.Covers(t) && !AnyBlackoutCovers(blackouts, day, zone, t)
    ensures Within(segments, window.startAt, window.endAt)
  {
    segments := [window];
    assert window in segments;
    for i := 0 to |blackouts|
      invariant Normal(segments)
      invariant forall t :: Covered(segments, t) <==> window.Covers(t) && !AnyBlackoutCovers(blackouts[..i], day, zone, t)
      invariant Within(segments, window.startAt, window.endAt)
    {
      assert blackouts[..i + 1] == blackouts[..i] + [blackouts[i]];
      AnyBlackoutAppend(blackouts[..i], blackouts[i], day, zone);
      assert blackouts[i] in blackouts;
      segments := SubtractBlackout(segments, BlackoutWindow(blackouts[i], day, zone));
    }
    assert blackouts[..|blackouts|] == blackouts;
  }

  lemma AnyBlackoutAppend(blackouts: seq<Blackout>, next: Blackout, day: Date, zone: Zone)
    ensures forall t :: AnyBlackoutCovers(blackouts + [next], day, zone, t)
                   <==> AnyBlackoutCovers(blackouts, day, zone, t) || BlackoutWindow(next, day, zone).Covers(t)
  {
    forall t ensures AnyBlackoutCovers(blackouts + [next], day, zone, t)
                <==> AnyBlackoutCovers(blackouts, day, zone, t) || BlackoutWindow(next, day, zone).Covers(t)
    {
      if AnyBlackoutCovers(blackouts, day, zone, t) {
        var b :| b in blackouts && BlackoutCovers(b, day, zone, t);
        assert b in blackouts + [next];
      }
      if BlackoutWindow(next, day, zone).Covers(t) {
        assert next in blackouts + [next] && BlackoutCovers(next, day, zone, t);
      }
    }
  }

  lemma CoveredConcat(a: seq<Window>, b: seq<Window>)
    ensures forall t :: Covered(a + b, t) <==> Covered(a, t) || Covered(b, t)
  {
  }

  /** The Timetable's open windows cover exactly the instants that are offered and not closed. */
  method BuildOpenWindows(day: Date, templates: seq<Template>, blackouts: seq<Blackout>, zone: Zone)
    returns (open: seq<Window>)
    requires forall b | b in blackouts :: Positive(b)
    ensures IsTimetable(open, day, templates, blackouts, zone)
  {
    var raw := TemplateWindows(templates, day, zone);
    var merged := MergeOpenWindows(raw);
    if blackouts == [] {
      return merged;
    }
    open := [];
    for i := 0 to |merged|
      invariant Normal(open)
      invariant forall t :: Covered(open, t) <==> Covered(merged[..i], t) && !AnyBlackoutCovers(blackouts, day, zone, t)
      invariant forall j | i <= j < |merged| :: EndsBefore(open, merged[j].startAt)
    {
      assert merged[..i + 1] == merged[..i] + [merged[i]];
      CoveredAppend(merged[..i], merged[i]);
      var segments := SubtractBlackouts(day, merged[i], blackouts, zone);
      CoveredConcat(open, segments);
      NormalConcat(open, segments, merged[i].startAt);
      open := open + segments;
    }
    assert merged[..|merged|] == merged;
  }

  lemma NormalConcat(a: seq<Window>, b: seq<Window>, split: Instant)
    requires Normal(a) && Normal(b)
    requires forall w | w in a :: w.endAt < split
    requires forall w | w in b :: split <= w.startAt
    ensures Normal(a + b)
  {
  }

  /** Reordering or repeating templates and closures leaves the Timetable as it is. */
  lemma OpenWindowsUnique(day: Date, zone: Zone, templates: seq<Template>, templates': seq<Template>,
                          blackouts: seq<Blackout>, blackouts': seq<Blackout>, open: seq<Window>, open': seq<Window>)
    requires forall x :: x in templates <==> x in templates'
    requires forall b :: b in blackouts <==> b in blackouts'
    requires IsTimetable(open, day, templates, blackouts, zone)
    requires IsTimetable(open', day, templates', blackouts', zone)
    ensures open == open'
  {
    forall t ensures Covered(open, t) <==> Covered(open', t) {
      assert Open(day, templates, blackouts, zone, t) <==> Open(day, templates', blackouts', zone, t);
    }
    NormalUnique(open, open');
  }

  ghost predicate InOneWindow(open: seq<Window>, startAt: Instant, endAt: Instant) {
    exists w :: w in open && w.startAt <= startAt && endAt <= w.endAt
  }

  /** Every template ends on the day it starts, so nothing offered crosses local midnight. */
  lemma OfferedEndsSameDay(templates: seq<Template>, startAt: Instant, endAt: Instant, zone: Zone)
    requires startAt < endAt
    requires forall t | startAt <= t < endAt :: AnyTemplateCovers(templates, zone.DateOf(startAt), zone, t)
    ensures zone.DateOf(endAt) == zone.DateOf(startAt)
  {
    var day := zone.DateOf(startAt);
    assert AnyTemplateCovers(templates, day, zone, endAt - 1);
    var x :| x in templates && TemplateCovers(x, day, zone, endAt - 1);
    assert endAt <= zone.Combine(day, x.endTime);
    CombineInverse(zone, day, x.endTime);
  }

  /**
   Timetable and admission agree: a proposal passes the opening-hours check and meets no closure exactly
   when it lasts the start template's minimum and lies inside one open window of the Timetable.
   */
  lemma TimetableAgreesWithAdmission(room: Uuid, startAt: Instant, endAt: Instant, templates: seq<Template>,
                                     blackouts: seq<Blackout>, zone: Zone, open: seq<Window>)
    requires forall b | b in blackouts :: Positive(b)
    requires IsTimetable(open, zone.DateOf(startAt), ApplicableTemplates(templates, zone.DateOf(startAt)),
                         ListActiveForRoomDay(blackouts, room, zone.DateOf(startAt)), zone)
    ensures WithinOpeningHours(startAt, endAt, templates, zone) && !HasBlackoutOverlap(blackouts, room, startAt, endAt, zone)
       <==> && startAt < endAt
            && MeetsStartMinimum(ApplicableTemplates(templates, zone.DateOf(startAt)), startAt, endAt, zone)
            && InOneWindow(open, startAt, endAt)
  {
    var day := zone.DateOf(startAt);
    var applicable := ApplicableTemplates(templates, day);
    if startAt < endAt {
      CoveredThroughout(open, startAt, endAt);
      if forall t | startAt <= t < endAt :: AnyTemplateCovers(applicable, day, zone, t) {
        OfferedEndsSameDay(applicable, startAt, endAt, zone);
        SameDayOverlap(blackouts, room, startAt, endAt, zone);
        assert forall t | startAt <= t < endAt ::
            Covered(open, t) <==> !AnyBlackoutCovers(ListActiveForRoomDay(blackouts, room, day), day, zone, t);
        assert InOneWindow(open, startAt, endAt)
          <==> !ClosedDuring(ListActiveForRoomDay(blackouts, room, day), day, zone, startAt, endAt);
      } else {
        var t :| startAt <= t < endAt && !AnyTemplateCovers(applicable, day, zone, t);
        assert !Covered(open, t);
      }
    }
  }
}
