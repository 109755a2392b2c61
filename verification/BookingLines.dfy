/** Room lines of a One-time proposal and the rules that every line list must meet. */
module BookingLines {
  import opened Options
  import opened FacilityTypes
  import opened LocalTime
  import opened Sequences

  datatype Line = Line(room: Uuid, startAt: Instant, endAt: Instant, sequence: int) {
    function Interval(): RoomInterval {
      RoomInterval(room, startAt, endAt)
    }
  }

  /** A requested line; a missing time falls back to the header's. */
  datatype RoomLine = RoomLine(room: Uuid, startAt: Option<Instant>, endAt: Option<Instant>, sequence: int)

  function OrElse(value: Option<Instant>, fallback: Instant): Instant {
    match value case Some(v) => v case None => fallback
  }

  function ResolveBookingLines(rooms: seq<RoomLine>, headerStart: Instant, headerEnd: Instant): (lines: seq<Line>)
    ensures |lines| == |rooms|
  {
    seq(|rooms|, i requires 0 <= i < |rooms| =>
      Line(rooms[i].room, OrElse(rooms[i].startAt, headerStart), OrElse(rooms[i].endAt, headerEnd), rooms[i].sequence))
  }

  function Intervals(lines: seq<Line>): (r: seq<RoomInterval>)
    ensures |r| == |lines|
    ensures forall i | 0 <= i < |lines| :: r[i] == lines[i].Interval()
  {
    seq(|lines|, i requires 0 <= i < |lines| => lines[i].Interval())
  }

  /** The earliest start of a non-empty line list. */
  function EnvelopeStart(lines: seq<Line>): (s: Instant)
    requires lines != []
    ensures forall l | l in lines :: s <= l.startAt
    ensures exists l :: l in lines && s == l.startAt
  {
    if |lines| == 1 then assert lines[0] in lines; lines[0].startAt
    else
      var rest := EnvelopeStart(lines[1..]);
      assert lines == [lines[0]] + lines[1..];
      if lines[0].startAt <= rest then lines[0].startAt else rest
  }

  /** The latest end of a non-empty line list. */
  function EnvelopeEnd(lines: seq<Line>): (e: Instant)
    requires lines != []
    ensures forall l | l in lines :: l.endAt <= e
    ensures exists l :: l in lines && e == l.endAt
  {
    if |lines| == 1 then assert lines[0] in lines; lines[0].endAt
    else
      var rest := EnvelopeEnd(lines[1..]);
      assert lines == [lines[0]] + lines[1..];
      if lines[0].endAt >= rest then lines[0].endAt else rest
  }

  datatype LineError = InvalidTimeRange | CrossMidnight | DuplicateLine | LinesNotSameDay

  predicate RepeatsEarlier(lines: seq<Line>, k: nat)
    requires k < |lines|
  {
    exists j :: 0 <= j < k && lines[j].Interval() == lines[k].Interval()
  }

  /** The first rule that line `k` breaks, given the lines before it. */
  function LineFault(lines: seq<Line>, k: nat, zone: Zone): Option<LineError>
    requires k < |lines|
  {
    var line := lines[k];
    if line.endAt <= line.startAt then Some(InvalidTimeRange)
    else if zone.DateOf(line.startAt) != zone.DateOf(line.endAt) then Some(CrossMidnight)
    else if RepeatsEarlier(lines, k) then Some(DuplicateLine)
    else None
  }

  /** The verdict on lines `k` onwards, then on the day they share. */
  function FaultFrom(lines: seq<Line>, k: nat, zone: Zone): Option<LineError>
    requires k <= |lines|
    decreases |lines| - k
  {
    if k == |lines| then
      if forall i, j | 0 <= i < |lines| && 0 <= j < |lines| :: zone.DateOf(lines[i].startAt) == zone.DateOf(lines[j].startAt)
      then None else Some(LinesNotSameDay)
    else
      match LineFault(lines, k, zone)
      case Some(e) => Some(e)
      case None => FaultFrom(lines, k + 1, zone)
  }

  /** Positive length, one common local day, no exact repeat: a rule on the lines in any order. */
  ghost predicate ValidIntervals(intervals: multiset<RoomInterval>, zone: Zone) {
    && (forall x | x in intervals :: x.startAt < x.endAt && zone.DateOf(x.startAt) == zone.DateOf(x.endAt))
    && (forall x, y | x in intervals && y in intervals :: zone.DateOf(x.startAt) == zone.DateOf(y.startAt))
    && (forall x :: intervals[x] <= 1)
  }

  method ValidateBookingLines(lines: seq<Line>, zone: Zone) returns (error: Option<LineError>)
    ensures error == FaultFrom(lines, 0, zone)
  {
    var days: set<Date> := {};
    var seen: set<RoomInterval> := {};
    for k := 0 to |lines|
      invariant days == set i | 0 <= i < k :: zone.DateOf(lines[i].startAt)
      invariant seen == set i | 0 <= i < k :: lines[i].Interval()
      invariant FaultFrom(lines, 0, zone) == FaultFrom(lines, k, zone)
    {
      var line := lines[k];
      if line.endAt <= line.startAt {
        return Some(InvalidTimeRange);
      }
      if zone.DateOf(line.startAt) != zone.DateOf(line.endAt) {
        return Some(CrossMidnight);
      }
      days := days + {zone.DateOf(line.startAt)};
      assert line.Interval() in seen <==> RepeatsEarlier(lines, k);
      if line.Interval() in seen {
        return Some(DuplicateLine);
      }
      seen := seen + {line.Interval()};
    }
    var several := |days| > 1;
    SeveralDays(lines, zone, days);
    if several {
      return Some(LinesNotSameDay);
    }
    return None;
  }

  lemma SeveralDays(lines: seq<Line>, zone: Zone, days: set<Date>)
    requires days == set i | 0 <= i < |lines| :: zone.DateOf(lines[i].startAt)
    ensures |days| > 1 <==>
        exists i, j :: 0 <= i < |lines| && 0 <= j < |lines| && zone.DateOf(lines[i].startAt) != zone.DateOf(lines[j].startAt)
  {
    if i, j :| 0 <= i < |lines| && 0 <= j < |lines| && zone.DateOf(lines[i].startAt) != zone.DateOf(lines[j].startAt) {
      var a, b := zone.DateOf(lines[i].startAt), zone.DateOf(lines[j].startAt);
      assert {a, b} <= days && |{a, b}| == 2;
      Subset({a, b}, days);
    } else if days != {} {
      var a :| a in days;
      assert days == {a};
    }
  }

  lemma Subset<T>(a: set<T>, b: set<T>)
    requires a <= b
    ensures |a| <= |b|
  {
    assert b == a + (b - a);
  }

  lemma {:induction false} FaultFromNone(lines: seq<Line>, k: nat, zone: Zone)
    requires k <= |lines|
    ensures FaultFrom(lines, k, zone).None?
       <==> && (forall i | k <= i < |lines| :: LineFault(lines, i, zone).None?)
            && forall i, j | 0 <= i < |lines| && 0 <= j < |lines| :: zone.DateOf(lines[i].startAt) == zone.DateOf(lines[j].startAt)
    decreases |lines| - k
  {
    if k < |lines| {
      FaultFromNone(lines, k + 1, zone);
    }
  }

  lemma DistinctIffNoDuplicate(lines: seq<Line>)
    ensures Distinct(Intervals(lines)) <==> forall j | 0 <= j < |lines| :: !RepeatsEarlier(lines, j)
  {
    var r := Intervals(lines);
    if forall j | 0 <= j < |lines| :: !RepeatsEarlier(lines, j) {
      forall i, j | 0 <= i < j < |r| ensures r[i] != r[j] {
        assert !RepeatsEarlier(lines, j);
      }
    }
    if Distinct(r) {
      forall j | 0 <= j < |lines| ensures !RepeatsEarlier(lines, j) {
        assert forall i | 0 <= i < j :: r[i] != r[j];
      }
    }
  }

  lemma ValidLinesPass(lines: seq<Line>, zone: Zone)
    requires ValidIntervals(multiset(Intervals(lines)), zone)
    ensures FaultFrom(lines, 0, zone).None?
  {
    var r := Intervals(lines);
    FaultFromNone(lines, 0, zone);
    CountsDistinct(r);
    DistinctIffNoDuplicate(lines);
    forall i | 0 <= i < |lines| ensures r[i] in multiset(r) {
    }
    forall i | 0 <= i < |lines| ensures LineFault(lines, i, zone).None? {
      assert r[i] in multiset(r);
    }
    forall i, j | 0 <= i < |lines| && 0 <= j < |lines|
      ensures zone.DateOf(lines[i].startAt) == zone.DateOf(lines[j].startAt)
    {
      assert zone.DateOf(r[i].startAt) == zone.DateOf(r[j].startAt);
    }
  }

  lemma PassedLinesValid(lines: seq<Line>, zone: Zone)
    requires FaultFrom(lines, 0, zone).None?
    ensures ValidIntervals(multiset(Intervals(lines)), zone)
  {
    var r := Intervals(lines);
    FaultFromNone(lines, 0, zone);
    forall j | 0 <= j < |lines|
      ensures !RepeatsEarlier(lines, j) && r[j].startAt < r[j].endAt && zone.DateOf(r[j].startAt) == zone.DateOf(r[j].endAt)
    {
      assert LineFault(lines, j, zone).None?;
    }
    DistinctIffNoDuplicate(lines);
    DistinctCounts(r);
    forall x | x in multiset(r) ensures x.startAt < x.endAt && zone.DateOf(x.startAt) == zone.DateOf(x.endAt) {
      assert x in r;
    }
    forall x, y | x in multiset(r) && y in multiset(r) ensures zone.DateOf(x.startAt) == zone.DateOf(y.startAt) {
      var i :| 0 <= i < |r| && r[i] == x;
      var j :| 0 <= j < |r| && r[j] == y;
      assert zone.DateOf(lines[i].startAt) == zone.DateOf(lines[j].startAt);
    }
  }

  /** A line list passes exactly when it is valid, so the order of the lines does not matter. */
  lemma AcceptedIffValid(lines: seq<Line>, zone: Zone)
    ensures FaultFrom(lines, 0, zone).None? <==> ValidIntervals(multiset(Intervals(lines)), zone)
  {
    if FaultFrom(lines, 0, zone).None? {
      PassedLinesValid(lines, zone);
    } else if ValidIntervals(multiset(Intervals(lines)), zone) {
      ValidLinesPass(lines, zone);
    }
  }

  /** Positive, within one local day, and not an exact repeat of an earlier line. */
  predicate CleanLine(lines: seq<Line>, k: nat, zone: Zone)
    requires k < |lines|
  {
    && lines[k].startAt < lines[k].endAt && zone.DateOf(lines[k].startAt) == zone.DateOf(lines[k].endAt)
    && forall j | 0 <= j < k :: !SameRoomAndTimes(lines[j], lines[k])
  }

  predicate SameRoomAndTimes(a: Line, b: Line) {
    a.room == b.room && a.startAt == b.startAt && a.endAt == b.endAt
  }

  /** The first line that is not clean decides, by its length, then midnight, then the repeat; the common day comes last. */
  lemma {:induction false} FaultByFirst(lines: seq<Line>, k: nat, from: nat, zone: Zone)
    requires from <= k <= |lines| && forall j | from <= j < k :: CleanLine(lines, j, zone)
    ensures k < |lines| && lines[k].endAt <= lines[k].startAt ==> FaultFrom(lines, from, zone) == Some(InvalidTimeRange)
    ensures k < |lines| && lines[k].startAt < lines[k].endAt && zone.DateOf(lines[k].startAt) != zone.DateOf(lines[k].endAt)
        ==> FaultFrom(lines, from, zone) == Some(CrossMidnight)
    ensures k < |lines| && lines[k].startAt < lines[k].endAt && zone.DateOf(lines[k].startAt) == zone.DateOf(lines[k].endAt) && !CleanLine(lines, k, zone)
        ==> FaultFrom(lines, from, zone) == Some(DuplicateLine)
    ensures k == |lines| ==> FaultFrom(lines, from, zone) == None || FaultFrom(lines, from, zone) == Some(LinesNotSameDay)
    decreases k - from
  {
    if from < k {
      assert CleanLine(lines, from, zone);
      CleanHasNoFault(lines, from, zone);
      FaultByFirst(lines, k, from + 1, zone);
    } else if k < |lines| {
      CleanHasNoFault(lines, k, zone);
    }
  }

  lemma CleanHasNoFault(lines: seq<Line>, k: nat, zone: Zone)
    requires k < |lines|
    ensures LineFault(lines, k, zone).None? <==> CleanLine(lines, k, zone)
    ensures lines[k].startAt < lines[k].endAt && zone.DateOf(lines[k].startAt) == zone.DateOf(lines[k].endAt) && !CleanLine(lines, k, zone)
        ==> LineFault(lines, k, zone) == Some(DuplicateLine)
  {
  }
}
