/**
 Member opening hours: an interval is inside them when every instant of it is covered by an applicable
 Room Slot Template and it lasts at least the minimum of the template it starts in.
 */
module OpeningHours {
  import opened Options
  import opened FacilityTypes
  import opened LocalTime
  import opened Sorting

  datatype Window = Window(startAt: Instant, endAt: Instant) {
    predicate Covers(t: Instant) {
      startAt <= t < endAt
    }
  }

  datatype Template = Template(room: Uuid, daysMask: bv8, startTime: TimeOfDay, endTime: TimeOfDay, slotMinutes: int,
                               effectiveFrom: Option<Date>, effectiveTo: Option<Date>, active: bool)

  ghost predicate Covered(windows: seq<Window>, t: Instant) {
    exists w :: w in windows && w.Covers(t)
  }

  /** Non-empty windows in order with at least one closed instant between neighbours. */
  ghost predicate Normal(windows: seq<Window>) {
    && (forall i | 0 <= i < |windows| :: windows[i].startAt < windows[i].endAt)
    && (forall i, j | 0 <= i < j < |windows| :: windows[i].endAt < windows[j].startAt)
  }

  predicate StartsNoLater(a: Window, b: Window) {
    a.startAt <= b.startAt
  }

  function Max(a: int, b: int): int {
    if a < b then b else a
  }

  /** Sort by start and join windows that overlap or touch. */
  method MergeOpenWindows(windows: seq<Window>) returns (merged: seq<Window>)
    ensures SameCover(merged, windows)
    ensures (forall w | w in windows :: w.startAt < w.endAt) ==> Normal(merged)
  {
    if windows == [] {
      return [];
    }
    SortedByStart(windows);
    merged := MergeOrdered(Sort(windows, StartsNoLater));
  }

  method MergeOrdered(ordered: seq<Window>) returns (merged: seq<Window>)
    requires ordered != [] && SortedBy(ordered, StartsNoLater)
    ensures SameCover(merged, ordered) && (AllNonEmpty(ordered) ==> Normal(merged))
  {
    merged := [ordered[0]];
    assert ordered[..1] == [ordered[0]];
    var i := 1;
    while i < |ordered|
      invariant MergedUpTo(merged, ordered, i)
    {
      MergeStep(merged, ordered, i);
      if ordered[i].startAt <= merged[|merged| - 1].endAt {
        merged := Extended(merged, ordered[i]);
      } else {
        merged := merged + [ordered[i]];
      }
      i := i + 1;
    }
    assert ordered[..i] == ordered;
  }

  ghost predicate SameCover(a: seq<Window>, b: seq<Window>) {
    forall t :: Covered(a, t) <==> Covered(b, t)
  }

  /** The first `i` windows are merged, and none after them starts before the last merged one. */
  ghost predicate MergedUpTo(merged: seq<Window>, ordered: seq<Window>, i: nat) {
    && 0 < i <= |ordered| && merged != [] && merged[|merged| - 1].startAt <= ordered[i - 1].startAt
    && SameCover(merged, ordered[..i]) && (AllNonEmpty(ordered) ==> Normal(merged))
  }

  ghost predicate AllNonEmpty(windows: seq<Window>) {
    forall i | 0 <= i < |windows| :: windows[i].startAt < windows[i].endAt
  }

  lemma StartsAscend(ordered: seq<Window>, i: nat)
    requires SortedBy(ordered, StartsNoLater) && 0 < i < |ordered|
    ensures ordered[i - 1].startAt <= ordered[i].startAt
  {
    assert StartsNoLater(ordered[i - 1], ordered[i]);
  }

  /** `next` joined to the last window if it starts inside or at its end, appended otherwise. */
  function Joined(merged: seq<Window>, next: Window): (r: seq<Window>)
    requires merged != []
    ensures r != []
  {
    if next.startAt <= merged[|merged| - 1].endAt then Extended(merged, next) else merged + [next]
  }

  lemma MergeStep(merged: seq<Window>, ordered: seq<Window>, i: nat)
    requires SortedBy(ordered, StartsNoLater) && i < |ordered| && MergedUpTo(merged, ordered, i)
    ensures MergedUpTo(Joined(merged, ordered[i]), ordered, i + 1)
  {
    StartsAscend(ordered, i);
    if ordered[i].startAt <= merged[|merged| - 1].endAt {
      MergeExtend(merged, ordered, i);
      ExtendKeepsNormal(merged, ordered[i]);
    } else {
      MergeAppend(merged, ordered, i);
      AppendKeepsNormal(merged, ordered[i]);
    }
  }

  lemma SortedByStart(windows: seq<Window>)
    ensures var ordered := Sort(windows, StartsNoLater);
      && SortedBy(ordered, StartsNoLater)
      && (forall w :: w in ordered <==> w in windows)
      && SameCover(ordered, windows)
      && (AllNonEmpty(ordered) <==> forall w | w in windows :: w.startAt < w.endAt)
  {
    SortSorted(windows, StartsNoLater);
    SortMultiset(windows, StartsNoLater);
    SameMembers(Sort(windows, StartsNoLater), windows);
  }

  lemma MergeExtend(merged: seq<Window>, ordered: seq<Window>, i: nat)
    requires i < |ordered| && merged != [] && SameCover(merged, ordered[..i])
    requires merged[|merged| - 1].startAt <= ordered[i].startAt <= merged[|merged| - 1].endAt
    ensures SameCover(Extended(merged, ordered[i]), ordered[..i + 1])
  {
    CoveredStep(ordered, i);
    CoveredExtend(merged, ordered[i]);
  }

  lemma MergeAppend(merged: seq<Window>, ordered: seq<Window>, i: nat)
    requires i < |ordered| && SameCover(merged, ordered[..i])
    ensures SameCover(merged + [ordered[i]], ordered[..i + 1])
  {
    CoveredStep(ordered, i);
    CoveredAppend(merged, ordered[i]);
  }

  /** The last window lengthened to reach the end of `next`. */
  function Extended(windows: seq<Window>, next: Window): (r: seq<Window>)
    requires windows != []
    ensures |r| == |windows|
  {
    var last := windows[|windows| - 1];
    windows[|windows| - 1 := Window(last.startAt, Max(last.endAt, next.endAt))]
  }

  lemma ExtendKeepsNormal(windows: seq<Window>, next: Window)
    requires windows != []
    ensures Normal(windows) ==> Normal(Extended(windows, next))
  {
  }

  lemma AppendKeepsNormal(windows: seq<Window>, next: Window)
    requires windows != [] && windows[|windows| - 1].endAt < next.startAt
    ensures Normal(windows) && next.startAt < next.endAt ==> Normal(windows + [next])
  {
  }

  lemma CoveredStep(windows: seq<Window>, i: nat)
    requires i < |windows|
    ensures forall t :: Covered(windows[..i + 1], t) <==> Covered(windows[..i], t) || windows[i].Covers(t)
  {
  }

  lemma CoveredAppend(windows: seq<Window>, next: Window)
    ensures forall t :: Covered(windows + [next], t) <==> Covered(windows, t) || next.Covers(t)
  {
  }

  /** Extending the last window over one that starts inside it covers exactly both. */
  lemma CoveredExtend(windows: seq<Window>, next: Window)
    requires windows != []
    requires windows[|windows| - 1].startAt <= next.startAt <= windows[|windows| - 1].endAt
    ensures forall t :: Covered(Extended(windows, next), t) <==> Covered(windows, t) || next.Covers(t)
  {
    var front, last := windows[..|windows| - 1], windows[|windows| - 1];
    var joined := Window(last.startAt, Max(last.endAt, next.endAt));
    assert windows == front + [last];
    assert windows[|windows| - 1 := joined] == front + [joined];
    CoveredAppend(front, last);
    CoveredAppend(front, joined);
  }

  /** Normal windows are determined by the instants they cover. */
  lemma {:induction false} NormalUnique(a: seq<Window>, b: seq<Window>)
    requires Normal(a) && Normal(b) && SameCover(a, b)
    ensures a == b
    decreases |a|
  {
    StartIsCovered(a);
    StartIsCovered(b);
    if a != [] {
      SameFirstWindow(a, b);
      NormalTail(a);
      NormalTail(b);
      assert SameCover(a[1..], b[1..]) by {
        SameTail(a, b);
      }
      NormalUnique(a[1..], b[1..]);
      assert a == [a[0]] + a[1..] && b == [b[0]] + b[1..];
    }
  }

  lemma SameFirstWindow(a: seq<Window>, b: seq<Window>)
    requires a != [] && b != [] && Normal(a) && Normal(b) && SameCover(a, b)
    ensures a[0] == b[0]
  {
    FirstWindow(a, b);
    FirstWindow(b, a);
  }

  lemma SameTail(a: seq<Window>, b: seq<Window>)
    requires a != [] && b != [] && Normal(a) && Normal(b) && SameCover(a, b) && a[0] == b[0]
    ensures SameCover(a[1..], b[1..])
  {
    forall t ensures Covered(a[1..], t) <==> Covered(b[1..], t) {
      CoveredTail(a, t);
      CoveredTail(b, t);
    }
  }

  lemma NormalTail(a: seq<Window>)
    requires a != [] && Normal(a)
    ensures Normal(a[1..])
  {
  }

  lemma StartIsCovered(windows: seq<Window>)
    requires Normal(windows)
    ensures windows != [] ==> Covered(windows, windows[0].startAt)
  {
    assert windows != [] ==> windows[0].Covers(windows[0].startAt);
  }

  lemma CoveredTail(a: seq<Window>, t: Instant)
    requires a != [] && Normal(a)
    ensures Covered(a[1..], t) <==> Covered(a, t) && !a[0].Covers(t)
  {
  }

  lemma FirstWindow(a: seq<Window>, b: seq<Window>)
    requires a != [] && b != [] && Normal(a) && Normal(b) && SameCover(a, b)
    ensures a[0].startAt <= b[0].startAt
    ensures a[0].startAt == b[0].startAt ==> a[0].endAt <= b[0].endAt
  {
    assert b[0].Covers(b[0].startAt);
    assert Covered(b, b[0].startAt);
    assert !Covered(b, b[0].endAt);
    assert a[0] in a && !a[0].Covers(b[0].endAt);
  }

  /** In a normal list, an interval is covered throughout exactly when one window holds all of it. */
  lemma {:induction false} CoveredThroughout(windows: seq<Window>, startAt: Instant, endAt: Instant)
    requires Normal(windows) && startAt < endAt
    ensures (forall t | startAt <= t < endAt :: Covered(windows, t))
       <==> exists w :: w in windows && w.startAt <= startAt && endAt <= w.endAt
  {
    if forall t | startAt <= t < endAt :: Covered(windows, t) {
      assert Covered(windows, startAt);
      var w :| w in windows && w.Covers(startAt);
      assert w.endAt < endAt ==> !Covered(windows, w.endAt);
    }
    if w :| w in windows && w.startAt <= startAt && endAt <= w.endAt {
      forall t | startAt <= t < endAt ensures Covered(windows, t) {
        assert w.Covers(t);
      }
    }
  }

  // ----- Templates of one day

  predicate Applicable(template: Template, day: Date) {
    InEffect(day, template.effectiveFrom, template.effectiveTo)
  }

  /** Keep the templates in effect on `day`, in order. */
  method FilterApplicableTemplates(templates: seq<Template>, day: Date) returns (applicable: seq<Template>)
    ensures applicable == ApplicableTemplates(templates, day)
    ensures forall x :: x in applicable <==> x in templates && !(x.effectiveFrom.Some? && day < x.effectiveFrom.value) && !(x.effectiveTo.Some? && x.effectiveTo.value < day)
  {
    applicable := [];
    for i := 0 to |templates|
      invariant applicable == ApplicableTemplates(templates[..i], day)
    {
      var template := templates[i];
      assert templates[..i + 1] == templates[..i] + [template];
      if template.effectiveFrom.Some? && day < template.effectiveFrom.value {
        continue;
      }
      if template.effectiveTo.Some? && day > template.effectiveTo.value {
        continue;
      }
      applicable := applicable + [template];
    }
    assert templates[..|templates|] == templates;
  }

  function ApplicableTemplates(templates: seq<Template>, day: Date): (r: seq<Template>)
    ensures forall x :: x in r <==> x in templates && Applicable(x, day)
  {
    if templates == [] then []
    else
      var last := templates[|templates| - 1];
      var front := ApplicableTemplates(templates[..|templates| - 1], day);
      if Applicable(last, day) then front + [last] else front
  }

  /** The first template whose hours contain the time of day of `startAt`. */
  function TemplateContainingStart(templates: seq<Template>, startAt: Instant, zone: Zone): (r: Option<Template>)
    ensures r.Some? <==> exists x :: x in templates && x.startTime <= zone.TimeOf(startAt) < x.endTime
    ensures r.Some? ==> r.value in templates && r.value.startTime <= zone.TimeOf(startAt) < r.value.endTime
  {
    if templates == [] then None
    else if templates[0].startTime <= zone.TimeOf(startAt) < templates[0].endTime then Some(templates[0])
    else TemplateContainingStart(templates[1..], startAt, zone)
  }

  predicate TemplateCovers(template: Template, day: Date, zone: Zone, t: Instant) {
    zone.Combine(day, template.startTime) <= t < zone.Combine(day, template.endTime)
  }

  ghost predicate AnyTemplateCovers(templates: seq<Template>, day: Date, zone: Zone, t: Instant) {
    exists x :: x in templates && TemplateCovers(x, day, zone, t)
  }

  predicate MeetsStartMinimum(applicable: seq<Template>, startAt: Instant, endAt: Instant, zone: Zone) {
    var start := TemplateContainingStart(applicable, startAt, zone);
    start.Some? && start.value.slotMinutes * MINUTE <= endAt - startAt
  }

  /** What opening hours promise a member, instant by instant. */
  ghost predicate WithinOpeningHours(startAt: Instant, endAt: Instant, templates: seq<Template>, zone: Zone) {
    var day := zone.DateOf(startAt);
    var applicable := ApplicableTemplates(templates, day);
    && startAt < endAt
    && MeetsStartMinimum(applicable, startAt, endAt, zone)
    && forall t | startAt <= t < endAt :: AnyTemplateCovers(applicable, day, zone, t)
  }

  /** The non-empty windows of the templates on `day`, in order. */
  method TemplateWindows(templates: seq<Template>, day: Date, zone: Zone) returns (windows: seq<Window>)
    ensures forall w | w in windows :: w.startAt < w.endAt
    ensures forall t :: Covered(windows, t) <==> AnyTemplateCovers(templates, day, zone, t)
  {
    windows := [];
    for i := 0 to |templates|
      invariant forall w | w in windows :: w.startAt < w.endAt
      invariant forall t :: Covered(windows, t) <==> AnyTemplateCovers(templates[..i], day, zone, t)
    {
      var template := templates[i];
      assert templates[..i + 1] == templates[..i] + [template];
      AnyTemplateAppend(templates[..i], template, day, zone);
      if template.startTime < template.endTime {
        var w := Window(zone.Combine(day, template.startTime), zone.Combine(day, template.endTime));
        CoveredAppend(windows, w);
        windows := windows + [w];
      }
    }
    assert templates[..|templates|] == templates;
  }

  lemma AnyTemplateAppend(templates: seq<Template>, next: Template, day: Date, zone: Zone)
    ensures forall t :: AnyTemplateCovers(templates + [next], day, zone, t)
                   <==> AnyTemplateCovers(templates, day, zone, t) || TemplateCovers(next, day, zone, t)
  {
  }

  /** The admission check: merge the day's windows and look for one that holds the whole interval. */
  method MemberIntervalWithinOpeningHours(startAt: Instant, endAt: Instant, templates: seq<Template>, zone: Zone)
    returns (ok: bool)
    ensures ok <==> WithinOpeningHours(startAt, endAt, templates, zone)
  {
    if endAt <= startAt {
      return false;
    }
    var day := zone.DateOf(startAt);
    var applicable := FilterApplicableTemplates(templates, day);
    if applicable == [] {
      return false;
    }
    var start := TemplateContainingStart(applicable, startAt, zone);
    if start.None? {
      return false;
    }
    if endAt - startAt < start.value.slotMinutes * MINUTE {
      return false;
    }
    var raw := TemplateWindows(applicable, day, zone);
    var merged := MergeOpenWindows(raw);
    CoveredThroughout(merged, startAt, endAt);
    for i := 0 to |merged|
      invariant forall j | 0 <= j < i :: !(merged[j].startAt <= startAt && endAt <= merged[j].endAt)
    {
      if merged[i].startAt <= startAt && endAt <= merged[i].endAt {
        assert merged[i] in merged;
        assert forall t | startAt <= t < endAt :: Covered(merged, t);
        return true;
      }
    }
    assert !exists w :: w in merged && w.startAt <= startAt && endAt <= w.endAt;
    return false;
  }

  // ----- The promise in wall time

  /** In effect on the day and open at the time of day. */
  predicate OffersAt(x: Template, day: Date, time: TimeOfDay) {
    && (x.effectiveFrom.Some? ==> x.effectiveFrom.value <= day) && (x.effectiveTo.Some? ==> day <= x.effectiveTo.value)
    && x.startTime <= time < x.endTime
  }

  /** Template `k` is the first that offers the time. */
  predicate IsFirstOffer(templates: seq<Template>, k: nat, day: Date, time: TimeOfDay) {
    && k < |templates| && OffersAt(templates[k], day, time)
    && forall j | 0 <= j < k :: !OffersAt(templates[j], day, time)
  }

  /** Every instant falls on the start's local day and is offered, and the first template that offers the start asks for no longer. */
  ghost predicate Offered(startAt: Instant, endAt: Instant, templates: seq<Template>, zone: Zone) {
    var day := zone.DateOf(startAt);
    && startAt < endAt
    && (exists k: nat :: IsFirstOffer(templates, k, day, zone.TimeOf(startAt)) && templates[k].slotMinutes * 60_000_000 <= endAt - startAt)
    && (forall t | startAt <= t < endAt :: zone.DateOf(t) == day && exists x :: x in templates && OffersAt(x, day, zone.TimeOf(t)))
  }

  lemma FirstOfferTail(templates: seq<Template>, k: nat, day: Date, time: TimeOfDay)
    requires templates != [] && !OffersAt(templates[0], day, time)
    ensures k > 0 ==> (IsFirstOffer(templates, k, day, time) <==> IsFirstOffer(templates[1..], k - 1, day, time))
  {
    var rest := templates[1..];
    assert forall j | 0 <= j < |rest| :: rest[j] == templates[j + 1];
    if k > 0 && IsFirstOffer(rest, k - 1, day, time) {
      forall j | 0 <= j < k ensures !OffersAt(templates[j], day, time) {
        assert j > 0 ==> !OffersAt(rest[j - 1], day, time);
      }
    }
  }

  lemma {:induction false} FirstOffering(templates: seq<Template>, startAt: Instant, zone: Zone, day: Date)
    ensures var start := TemplateContainingStart(ApplicableTemplates(templates, day), startAt, zone);
      && (start.Some? <==> exists k: nat :: IsFirstOffer(templates, k, day, zone.TimeOf(startAt)))
      && (forall k: nat | IsFirstOffer(templates, k, day, zone.TimeOf(startAt)) :: start == Some(templates[k]))
  {
    var time := zone.TimeOf(startAt);
    if templates != [] {
      var rest := templates[1..];
      ApplicableTail(templates, day);
      if OffersAt(templates[0], day, time) {
        assert IsFirstOffer(templates, 0, day, time);
      } else {
        FirstOffering(rest, startAt, zone, day);
        SkipFirst(templates, startAt, zone, day);
        var start := TemplateContainingStart(ApplicableTemplates(templates, day), startAt, zone);
        forall k: nat | IsFirstOffer(templates, k, day, time) ensures start == Some(templates[k]) {
          assert k > 0;
          FirstOfferTail(templates, k, day, time);
          assert IsFirstOffer(rest, k - 1, day, time) && rest[k - 1] == templates[k];
        }
        if k: nat :| IsFirstOffer(rest, k, day, time) {
          FirstOfferTail(templates, k + 1, day, time);
          assert IsFirstOffer(templates, k + 1, day, time);
        }
      }
    }
  }

  lemma SkipFirst(templates: seq<Template>, startAt: Instant, zone: Zone, day: Date)
    requires templates != [] && !OffersAt(templates[0], day, zone.TimeOf(startAt))
    ensures TemplateContainingStart(ApplicableTemplates(templates, day), startAt, zone)
         == TemplateContainingStart(ApplicableTemplates(templates[1..], day), startAt, zone)
  {
    ApplicableTail(templates, day);
    var rest := ApplicableTemplates(templates[1..], day);
    if Applicable(templates[0], day) {
      SkipHead(templates[0], rest, startAt, zone);
    } else {
      assert [] + rest == rest;
    }
  }

  lemma SkipHead(x: Template, rest: seq<Template>, startAt: Instant, zone: Zone)
    requires !(x.startTime <= zone.TimeOf(startAt) < x.endTime)
    ensures TemplateContainingStart([x] + rest, startAt, zone) == TemplateContainingStart(rest, startAt, zone)
  {
    assert ([x] + rest)[1..] == rest;
  }

  lemma {:induction false} ApplicableTail(templates: seq<Template>, day: Date)
    requires templates != []
    ensures ApplicableTemplates(templates, day)
         == (if Applicable(templates[0], day) then [templates[0]] else []) + ApplicableTemplates(templates[1..], day)
  {
    var n := |templates| - 1;
    if n > 0 {
      ApplicableTail(templates[..n], day);
      assert templates[..n][1..] == templates[1..][..n - 1];
      assert templates[1..][n - 1] == templates[n];
    } else {
      assert templates[..0] == [] && templates[1..] == [];
    }
  }

  /** The check is exactly that promise. */
  lemma WithinOpeningHoursIffOffered(startAt: Instant, endAt: Instant, templates: seq<Template>, zone: Zone)
    ensures WithinOpeningHours(startAt, endAt, templates, zone) <==> Offered(startAt, endAt, templates, zone)
  {
    var day := zone.DateOf(startAt);
    FirstOffering(templates, startAt, zone, day);
    forall t ensures AnyTemplateCovers(ApplicableTemplates(templates, day), day, zone, t)
                <==> zone.DateOf(t) == day && exists x :: x in templates && OffersAt(x, day, zone.TimeOf(t))
    {
      forall x: Template ensures TemplateCovers(x, day, zone, t) <==> zone.DateOf(t) == day && x.startTime <= zone.TimeOf(t) < x.endTime {
        SpanOfDay(zone, day, x.startTime, x.endTime, t);
      }
      if x :| x in templates && OffersAt(x, day, zone.TimeOf(t)) && zone.DateOf(t) == day {
        assert x in ApplicableTemplates(templates, day) && TemplateCovers(x, day, zone, t);
      }
    }
  }
}
