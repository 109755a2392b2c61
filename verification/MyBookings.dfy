/** My Bookings: one section's rows as One-time cards and Series cards, sorted and cut into pages. */
module MyBookings {
  import opened Options
  import opened FacilityTypes
  import opened Sequences
  import opened Sorting
  import opened Bookings

  datatype Row = Row(id: Uuid, user: Uuid, recurring: bool, series: Option<Uuid>, seriesTitle: Option<string>, startAt: Instant, endAt: Instant,
                     status: BookingStatus, holdExpiresAt: Option<Instant>)

  datatype Section = Upcoming | PastSection | CancelledOrExpired | OverriddenSection

  datatype Card =
    | OneTime(isBooker: bool, booking: Row)
    | Series(isBooker: bool, seriesId: Uuid, title: Option<string>, occurrences: seq<Row>)

  /** Drafts belong to no section. */
  function Classify(r: Row, now: Instant): Option<Section> {
    if r.status.Overridden? then Some(OverriddenSection)
    else if r.status.Cancelled? then Some(CancelledOrExpired)
    else if r.status.PendingPayment? && !(r.holdExpiresAt.None? || r.holdExpiresAt.value > now) then Some(CancelledOrExpired)
    else if !r.status.Confirmed? && !r.status.PendingPayment? then None
    else if r.endAt > now then Some(Upcoming)
    else Some(PastSection)
  }

  predicate InSeries(r: Row) {
    r.recurring && r.series.Some?
  }

  /** The rows for which `keep` holds, in order. */
  function Filter(rows: seq<Row>, keep: Row -> bool): (r: seq<Row>)
    ensures forall x :: multiset(r)[x] == if keep(x) then multiset(rows)[x] else 0
  {
    if rows == [] then []
    else
      var n := |rows| - 1;
      assert rows == rows[..n] + [rows[n]];
      if keep(rows[n]) then Filter(rows[..n], keep) + [rows[n]] else Filter(rows[..n], keep)
  }

  lemma FilterStep(rows: seq<Row>, i: nat, keep: Row -> bool)
    requires i < |rows|
    ensures Filter(rows[..i + 1], keep) == if keep(rows[i]) then Filter(rows[..i], keep) + [rows[i]] else Filter(rows[..i], keep)
  {
    assert rows[..i + 1][..i] == rows[..i];
  }

  function Matching(rows: seq<Row>, section: Section, now: Instant): seq<Row> {
    Filter(rows, (r: Row) => Classify(r, now) == Some(section))
  }

  function Occurrences(rows: seq<Row>, series: Uuid): seq<Row> {
    Filter(rows, (r: Row) => InSeries(r) && r.series.value == series)
  }

  function Ungrouped(rows: seq<Row>): seq<Row> {
    Filter(rows, (r: Row) => !InSeries(r))
  }

  predicate StartThenId(a: Row, b: Row) {
    a.startAt < b.startAt || (a.startAt == b.startAt && a.id <= b.id)
  }

  function OneTimeCard(r: Row, user: Uuid): Card {
    OneTime(r.user == user, r)
  }

  function SeriesCard(series: Uuid, occurrences: seq<Row>, user: Uuid): Card
    requires occurrences != []
  {
    var ordered := Sort(occurrences, StartThenId);
    Series(ordered[0].user == user, series, ordered[0].seriesTitle, ordered)
  }

  // ----- The order of cards

  function CardRows(c: Card): seq<Row> {
    if c.OneTime? then [c.booking] else c.occurrences
  }

  function Earliest(rows: seq<Row>): (t: Instant)
    ensures rows != [] ==> (exists r :: r in rows && r.startAt == t) && forall r | r in rows :: t <= r.startAt
  {
    if rows == [] then 0
    else if |rows| == 1 then rows[0].startAt
    else
      var rest := Earliest(rows[1..]);
      assert rows == [rows[0]] + rows[1..];
      if rows[0].startAt < rest then rows[0].startAt else rest
  }

  function Latest(rows: seq<Row>): (t: Instant)
    ensures rows != [] ==> (exists r :: r in rows && r.startAt == t) && forall r | r in rows :: r.startAt <= t
  {
    if rows == [] then 0
    else if |rows| == 1 then rows[0].startAt
    else
      var rest := Latest(rows[1..]);
      assert rows == [rows[0]] + rows[1..];
      if rows[0].startAt > rest then rows[0].startAt else rest
  }

  function CardId(c: Card): Uuid {
    if c.OneTime? then c.booking.id else c.seriesId
  }

  /** Upcoming cards by their earliest start, the other sections latest first; ties by id. */
  function SortTime(c: Card, section: Section): int {
    if section.Upcoming? then Earliest(CardRows(c)) else -Latest(CardRows(c))
  }

  function CardOrder(section: Section): (Card, Card) -> bool {
    (a: Card, b: Card) => SortTime(a, section) < SortTime(b, section) || (SortTime(a, section) == SortTime(b, section) && CardId(a) <= CardId(b))
  }

  // ----- Projecting

  /** All rows that the cards show, counted. */
  function AllRows(cards: seq<Card>): multiset<Row> {
    if cards == [] then multiset{}
    else multiset(CardRows(cards[0])) + AllRows(cards[1..])
  }

  predicate OneCardPerSeries(cards: seq<Card>) {
    forall i, j | 0 <= i < j < |cards| && cards[i].Series? && cards[j].Series? :: cards[i].seriesId != cards[j].seriesId
  }

  /** A card shows one ungrouped row, or all of one series' rows in order. */
  ghost predicate GoodCard(c: Card, matching: seq<Row>, user: Uuid) {
    match c
    case OneTime(isBooker, booking) => !InSeries(booking) && booking in matching && (isBooker <==> booking.user == user)
    case Series(isBooker, series, title, occurrences) =>
      && occurrences != [] && multiset(occurrences) == multiset(Occurrences(matching, series))
      && SortedBy(occurrences, StartThenId)
      && (isBooker <==> occurrences[0].user == user) && title == occurrences[0].seriesTitle
  }

  ghost predicate IsProjection(cards: seq<Card>, matching: seq<Row>, section: Section, user: Uuid) {
    && AllRows(cards) == multiset(matching)
    && OneCardPerSeries(cards)
    && (forall c | c in cards :: GoodCard(c, matching, user))
    && SortedBy(cards, CardOrder(section))
  }

  ghost predicate GroupedUnder(groups: map<Uuid, seq<Row>>, rows: seq<Row>, s: Uuid) {
    if s in groups then groups[s] == Occurrences(rows, s) != [] else Occurrences(rows, s) == []
  }

  ghost predicate Grouped(groups: map<Uuid, seq<Row>>, order: seq<Uuid>, ungrouped: seq<Row>, rows: seq<Row>) {
    && Distinct(order)
    && (forall s :: s in groups <==> s in order)
    && (forall s :: GroupedUnder(groups, rows, s))
    && ungrouped == Ungrouped(rows)
  }

  lemma OccurrencesStep(rows: seq<Row>, i: nat, s: Uuid)
    requires i < |rows|
    ensures Occurrences(rows[..i + 1], s)
         == if InSeries(rows[i]) && rows[i].series.value == s then Occurrences(rows[..i], s) + [rows[i]] else Occurrences(rows[..i], s)
  {
    FilterStep(rows, i, (r: Row) => InSeries(r) && r.series.value == s);
  }

  lemma UngroupedStep(rows: seq<Row>, i: nat)
    requires i < |rows|
    ensures Ungrouped(rows[..i + 1]) == if InSeries(rows[i]) then Ungrouped(rows[..i]) else Ungrouped(rows[..i]) + [rows[i]]
  {
    FilterStep(rows, i, (r: Row) => !InSeries(r));
  }

  lemma GroupOneTime(groups: map<Uuid, seq<Row>>, order: seq<Uuid>, ungrouped: seq<Row>, rows: seq<Row>, i: nat)
    requires i < |rows| && Grouped(groups, order, ungrouped, rows[..i]) && !InSeries(rows[i])
    ensures Grouped(groups, order, ungrouped + [rows[i]], rows[..i + 1])
  {
    var before, after := rows[..i], rows[..i + 1];
    forall s ensures GroupedUnder(groups, after, s) {
      OccurrencesStep(rows, i, s);
      assert GroupedUnder(groups, before, s);
    }
    UngroupedStep(rows, i);
  }

  function Filed(groups: map<Uuid, seq<Row>>, s: Uuid, row: Row): map<Uuid, seq<Row>> {
    groups[s := (if s in groups then groups[s] else []) + [row]]
  }

  lemma GroupOccurrence(groups: map<Uuid, seq<Row>>, order: seq<Uuid>, ungrouped: seq<Row>, rows: seq<Row>, i: nat, s: Uuid)
    requires i < |rows| && Grouped(groups, order, ungrouped, rows[..i]) && InSeries(rows[i]) && rows[i].series.value == s
    ensures Grouped(Filed(groups, s, rows[i]), if s in groups then order else order + [s], ungrouped, rows[..i + 1])
  {
    var before, after, filed := rows[..i], rows[..i + 1], Filed(groups, s, rows[i]);
    forall t ensures GroupedUnder(filed, after, t) {
      OccurrencesStep(rows, i, t);
      assert GroupedUnder(groups, before, t);
    }
    UngroupedStep(rows, i);
  }

  method GroupRows(rows: seq<Row>) returns (groups: map<Uuid, seq<Row>>, order: seq<Uuid>, ungrouped: seq<Row>)
    ensures Grouped(groups, order, ungrouped, rows)
  {
    groups, order, ungrouped := map[], [], [];
    for i := 0 to |rows|
      invariant Grouped(groups, order, ungrouped, rows[..i])
    {
      var row := rows[i];
      if row.recurring && row.series.Some? {
        var s := row.series.value;
        GroupOccurrence(groups, order, ungrouped, rows, i, s);
        order := if s in groups then order else order + [s];
        groups := Filed(groups, s, row);
      } else {
        GroupOneTime(groups, order, ungrouped, rows, i);
        ungrouped := ungrouped + [row];
      }
    }
    assert rows[..|rows|] == rows;
  }

  /** The rows of the listed series, counted. */
  function SeriesRows(rows: seq<Row>, order: seq<Uuid>): multiset<Row> {
    if order == [] then multiset{}
    else SeriesRows(rows, order[..|order| - 1]) + multiset(Occurrences(rows, order[|order| - 1]))
  }

  lemma {:induction false} SeriesRowsCount(rows: seq<Row>, order: seq<Uuid>, r: Row)
    requires Distinct(order)
    ensures SeriesRows(rows, order)[r] == if InSeries(r) && r.series.value in order then multiset(rows)[r] else 0
  {
    if order != [] {
      var n := |order| - 1;
      SeriesRowsCount(rows, order[..n], r);
      assert order == order[..n] + [order[n]];
      assert multiset(Occurrences(rows, order[n]))[r] == if InSeries(r) && r.series.value == order[n] then multiset(rows)[r] else 0;
    }
  }

  /** Grouping loses no row and repeats none. */
  lemma GroupingConserves(groups: map<Uuid, seq<Row>>, order: seq<Uuid>, ungrouped: seq<Row>, rows: seq<Row>)
    requires Grouped(groups, order, ungrouped, rows)
    ensures multiset(ungrouped) + SeriesRows(rows, order) == multiset(rows)
  {
    forall r ensures (multiset(ungrouped) + SeriesRows(rows, order))[r] == multiset(rows)[r] {
      SeriesRowsCount(rows, order, r);
      assert InSeries(r) ==> GroupedUnder(groups, rows, r.series.value);
      if InSeries(r) && r.series.value !in order {
        assert multiset(Occurrences(rows, r.series.value))[r] == multiset(rows)[r];
      }
    }
  }

  lemma {:induction false} AllRowsAppend(cards: seq<Card>, c: Card)
    ensures AllRows(cards + [c]) == AllRows(cards) + multiset(CardRows(c))
  {
    if cards != [] {
      AllRowsAppend(cards[1..], c);
      assert (cards + [c])[1..] == cards[1..] + [c];
    } else {
      assert (cards + [c])[1..] == [];
    }
  }

  lemma {:induction false} InsertKeepsRows(c: Card, cards: seq<Card>, leq: (Card, Card) -> bool)
    ensures AllRows(Insert(c, cards, leq)) == multiset(CardRows(c)) + AllRows(cards)
  {
    if cards == [] || leq(c, cards[0]) {
      assert ([c] + cards)[1..] == cards;
    } else {
      InsertKeepsRows(c, cards[1..], leq);
      assert ([cards[0]] + Insert(c, cards[1..], leq))[1..] == Insert(c, cards[1..], leq);
    }
  }

  lemma {:induction false} SortKeepsRows(cards: seq<Card>, leq: (Card, Card) -> bool)
    ensures AllRows(Sort(cards, leq)) == AllRows(cards)
  {
    if cards != [] {
      SortKeepsRows(cards[1..], leq);
      InsertKeepsRows(cards[0], Sort(cards[1..], leq), leq);
    }
  }

  predicate NoCardOf(cards: seq<Card>, c: Card) {
    c.Series? ==> forall d | d in cards :: !(d.Series? && d.seriesId == c.seriesId)
  }

  lemma HeadAndTail(c: Card, cards: seq<Card>)
    ensures OneCardPerSeries([c] + cards) <==> OneCardPerSeries(cards) && NoCardOf(cards, c)
  {
    var all := [c] + cards;
    if OneCardPerSeries(all) {
      forall i, j | 0 <= i < j < |cards| && cards[i].Series? && cards[j].Series? ensures cards[i].seriesId != cards[j].seriesId {
        assert all[i + 1] == cards[i] && all[j + 1] == cards[j];
      }
      forall d | d in cards && c.Series? ensures !(d.Series? && d.seriesId == c.seriesId) {
        var j :| 0 <= j < |cards| && cards[j] == d;
        assert all[0] == c && all[j + 1] == d;
      }
    }
  }

  lemma {:induction false} InsertKeepsSeries(c: Card, cards: seq<Card>, leq: (Card, Card) -> bool)
    requires OneCardPerSeries(cards) && NoCardOf(cards, c)
    ensures OneCardPerSeries(Insert(c, cards, leq))
  {
    if cards == [] || leq(c, cards[0]) {
      HeadAndTail(c, cards);
    } else {
      var rest := cards[1..];
      assert cards == [cards[0]] + rest;
      HeadAndTail(cards[0], rest);
      InsertKeepsSeries(c, rest, leq);
      InsertMultiset(c, rest, leq);
      assert multiset([c] + rest) == multiset(rest) + multiset{c};
      SameMembers(Insert(c, rest, leq), [c] + rest);
      HeadAndTail(cards[0], Insert(c, rest, leq));
    }
  }

  lemma {:induction false} SortKeepsSeries(cards: seq<Card>, leq: (Card, Card) -> bool)
    requires OneCardPerSeries(cards)
    ensures OneCardPerSeries(Sort(cards, leq))
  {
    if cards != [] {
      var rest := cards[1..];
      assert cards == [cards[0]] + rest;
      HeadAndTail(cards[0], rest);
      SortKeepsSeries(rest, leq);
      SortMultiset(rest, leq);
      SameMembers(Sort(rest, leq), rest);
      InsertKeepsSeries(cards[0], Sort(rest, leq), leq);
    }
  }

  lemma SeriesCardIsGood(matching: seq<Row>, series: Uuid, user: Uuid)
    requires Occurrences(matching, series) != []
    ensures GoodCard(SeriesCard(series, Occurrences(matching, series), user), matching, user)
  {
    SortMultiset(Occurrences(matching, series), StartThenId);
    SortSorted(Occurrences(matching, series), StartThenId);
  }

  lemma SortedIsProjection(cards: seq<Card>, matching: seq<Row>, section: Section, user: Uuid)
    requires AllRows(cards) == multiset(matching) && OneCardPerSeries(cards)
    requires forall c | c in cards :: GoodCard(c, matching, user)
    ensures IsProjection(Sort(cards, CardOrder(section)), matching, section, user)
  {
    SortKeepsRows(cards, CardOrder(section));
    SortKeepsSeries(cards, CardOrder(section));
    SortMultiset(cards, CardOrder(section));
    SameMembers(Sort(cards, CardOrder(section)), cards);
    SortSorted(cards, CardOrder(section));
  }

  function OneTimeCards(ungrouped: seq<Row>, user: Uuid): (cards: seq<Card>)
    ensures |cards| == |ungrouped|
    ensures forall i | 0 <= i < |ungrouped| :: cards[i] == OneTimeCard(ungrouped[i], user)
  {
    if ungrouped == [] then [] else [OneTimeCard(ungrouped[0], user)] + OneTimeCards(ungrouped[1..], user)
  }

  lemma AllRowsCons(c: Card, rest: seq<Card>)
    ensures AllRows([c] + rest) == multiset(CardRows(c)) + AllRows(rest)
  {
    assert ([c] + rest)[1..] == rest;
  }

  lemma {:induction false} OneTimeCardsShow(ungrouped: seq<Row>, user: Uuid)
    ensures AllRows(OneTimeCards(ungrouped, user)) == multiset(ungrouped)
  {
    if ungrouped != [] {
      OneTimeCardsShow(ungrouped[1..], user);
      AllRowsCons(OneTimeCard(ungrouped[0], user), OneTimeCards(ungrouped[1..], user));
      TailMultiset(ungrouped);
    }
  }

  lemma OneTimeCardsAreGood(matching: seq<Row>, user: Uuid)
    ensures forall c | c in OneTimeCards(Ungrouped(matching), user) :: c.OneTime? && GoodCard(c, matching, user)
  {
    var ungrouped := Ungrouped(matching);
    forall i | 0 <= i < |ungrouped| ensures GoodCard(OneTimeCard(ungrouped[i], user), matching, user) {
      assert ungrouped[i] in multiset(ungrouped);
    }
  }

  /** The cards after the series in `done` have been added. */
  ghost predicate Collected(cards: seq<Card>, matching: seq<Row>, done: seq<Uuid>, user: Uuid) {
    && AllRows(cards) == multiset(Ungrouped(matching)) + SeriesRows(matching, done)
    && OneCardPerSeries(cards)
    && (forall c | c in cards :: GoodCard(c, matching, user))
    && (forall c | c in cards && c.Series? :: c.seriesId in done)
  }

  lemma AppendSeries(cards: seq<Card>, c: Card)
    requires OneCardPerSeries(cards) && NoCardOf(cards, c)
    ensures OneCardPerSeries(cards + [c])
  {
  }

  lemma CollectRows(cards: seq<Card>, c: Card, matching: seq<Row>, done: seq<Uuid>, s: Uuid)
    requires AllRows(cards) == multiset(Ungrouped(matching)) + SeriesRows(matching, done)
    requires multiset(CardRows(c)) == multiset(Occurrences(matching, s))
    ensures AllRows(cards + [c]) == multiset(Ungrouped(matching)) + SeriesRows(matching, done + [s])
  {
    AllRowsAppend(cards, c);
    assert (done + [s])[..|done|] == done;
  }

  lemma CollectSeries(cards: seq<Card>, matching: seq<Row>, done: seq<Uuid>, s: Uuid, user: Uuid)
    requires Collected(cards, matching, done, user) && s !in done && Occurrences(matching, s) != []
    ensures Collected(cards + [SeriesCard(s, Occurrences(matching, s), user)], matching, done + [s], user)
  {
    var card := SeriesCard(s, Occurrences(matching, s), user);
    SeriesCardIsGood(matching, s, user);
    SortMultiset(Occurrences(matching, s), StartThenId);
    CollectRows(cards, card, matching, done, s);
    AppendSeries(cards, card);
  }

  lemma OneTimeCollected(matching: seq<Row>, user: Uuid)
    ensures Collected(OneTimeCards(Ungrouped(matching), user), matching, [], user)
  {
    OneTimeCardsShow(Ungrouped(matching), user);
    OneTimeCardsAreGood(matching, user);
  }

  lemma CollectedAll(cards: seq<Card>, groups: map<Uuid, seq<Row>>, order: seq<Uuid>, matching: seq<Row>, section: Section, user: Uuid)
    requires Grouped(groups, order, Ungrouped(matching), matching) && Collected(cards, matching, order, user)
    ensures IsProjection(Sort(cards, CardOrder(section)), matching, section, user)
  {
    GroupingConserves(groups, order, Ungrouped(matching), matching);
    SortedIsProjection(cards, matching, section, user);
  }

  lemma NextSeries(groups: map<Uuid, seq<Row>>, order: seq<Uuid>, ungrouped: seq<Row>, matching: seq<Row>, k: nat)
    requires Grouped(groups, order, ungrouped, matching) && k < |order|
    ensures order[k] in groups && groups[order[k]] == Occurrences(matching, order[k]) != []
    ensures order[k] !in order[..k] && order[..k + 1] == order[..k] + [order[k]]
  {
    assert order[k] in order && GroupedUnder(groups, matching, order[k]);
  }

  method ProjectMyBookingsCards(rows: seq<Row>, section: Section, user: Uuid, now: Instant) returns (cards: seq<Card>)
    ensures IsProjection(cards, Matching(rows, section, now), section, user)
  {
    var matching := Matching(rows, section, now);
    var groups, order, ungrouped := GroupRows(matching);
    cards := OneTimeCards(ungrouped, user);
    OneTimeCollected(matching, user);
    for k := 0 to |order|
      invariant Collected(cards, matching, order[..k], user)
    {
      NextSeries(groups, order, ungrouped, matching, k);
      CollectSeries(cards, matching, order[..k], order[k], user);
      cards := cards + [SeriesCard(order[k], groups[order[k]], user)];
    }
    assert order[..|order|] == order;
    CollectedAll(cards, groups, order, matching, section, user);
    cards := Sort(cards, CardOrder(section));
  }

  // ----- Each row in exactly one card

  lemma {:induction false} ShownInSomeCard(cards: seq<Card>, r: Row)
    ensures r in AllRows(cards) <==> exists i :: 0 <= i < |cards| && r in CardRows(cards[i])
  {
    if cards != [] {
      var rest := cards[1..];
      ShownInSomeCard(rest, r);
      assert r in CardRows(cards[0]) <==> r in multiset(CardRows(cards[0]));
      if i :| 0 <= i < |cards| && r in CardRows(cards[i]) && i > 0 {
        assert r in CardRows(rest[i - 1]);
      }
      if i :| 0 <= i < |rest| && r in CardRows(rest[i]) {
        assert r in CardRows(cards[i + 1]);
      }
    }
  }

  lemma {:induction false} ShownTwiceCounts(cards: seq<Card>, i: nat, j: nat, r: Row)
    requires i < j < |cards| && r in CardRows(cards[i]) && r in CardRows(cards[j])
    ensures AllRows(cards)[r] >= 2
  {
    var rest := cards[1..];
    if i > 0 {
      ShownTwiceCounts(rest, i - 1, j - 1, r);
    } else {
      ShownInSomeCard(rest, r);
      assert r in CardRows(rest[j - 1]);
      assert r in multiset(CardRows(cards[0]));
    }
  }

  /** A row of the section appears in exactly one card, a row of another section in none. */
  lemma EachRowInOneCard(cards: seq<Card>, rows: seq<Row>, section: Section, user: Uuid, now: Instant, r: Row)
    requires IsProjection(cards, Matching(rows, section, now), section, user)
    requires r in rows && multiset(rows)[r] == 1
    ensures (exists i :: 0 <= i < |cards| && r in CardRows(cards[i])) <==> Classify(r, now) == Some(section)
    ensures forall i, j | 0 <= i < j < |cards| :: !(r in CardRows(cards[i]) && r in CardRows(cards[j]))
  {
    ShownInSomeCard(cards, r);
    forall i, j | 0 <= i < j < |cards| && r in CardRows(cards[i]) && r in CardRows(cards[j]) ensures false {
      ShownTwiceCounts(cards, i, j, r);
    }
  }

  // ----- Pages

  function PaginateMyBookingsCards(cards: seq<Card>, page: nat, pageSize: nat): (seq<Card>, nat) {
    var start := page * pageSize;
    var from := if start < |cards| then start else |cards|;
    var to := if start + pageSize < |cards| then start + pageSize else |cards|;
    (cards[from..to], |cards|)
  }

  /** The first pages one after another. */
  function Pages(cards: seq<Card>, count: nat, pageSize: nat): seq<Card> {
    if count == 0 then [] else Pages(cards, count - 1, pageSize) + PaginateMyBookingsCards(cards, count - 1, pageSize).0
  }

  lemma {:induction false} PagesArePrefix(cards: seq<Card>, count: nat, pageSize: nat)
    ensures Pages(cards, count, pageSize) == cards[..if count * pageSize < |cards| then count * pageSize else |cards|]
  {
    if count > 0 {
      PagesArePrefix(cards, count - 1, pageSize);
      assert count * pageSize == (count - 1) * pageSize + pageSize;
    }
  }

  /** Reading every page gives every card once, in order. */
  lemma PagesGiveAllCards(cards: seq<Card>, count: nat, pageSize: nat)
    requires count * pageSize >= |cards|
    ensures Pages(cards, count, pageSize) == cards
    ensures forall p :: PaginateMyBookingsCards(cards, p, pageSize).1 == |cards|
  {
    PagesArePrefix(cards, count, pageSize);
  }

  // ----- Sections and their order, said without the keys

  /** Overridden Bookings, cancelled or expired ones, and active ones by whether they have ended; drafts are nowhere. */
  lemma SectionOf(r: Row, now: Instant)
    ensures Classify(r, now) == Some(OverriddenSection) <==> r.status == Overridden
    ensures Classify(r, now) == Some(CancelledOrExpired)
       <==> r.status == Cancelled || (r.status == PendingPayment && r.holdExpiresAt.Some? && r.holdExpiresAt.value <= now)
    ensures Classify(r, now) == Some(Upcoming)
       <==> (r.status == Confirmed || (r.status == PendingPayment && (r.holdExpiresAt.Some? ==> now < r.holdExpiresAt.value))) && now < r.endAt
    ensures Classify(r, now) == Some(PastSection)
       <==> (r.status == Confirmed || (r.status == PendingPayment && (r.holdExpiresAt.Some? ==> now < r.holdExpiresAt.value))) && r.endAt <= now
    ensures Classify(r, now) == None <==> r.status == Draft
  {
  }

  /** Upcoming cards come by their earliest occurrence; in the other sections by their latest, the most recent first. */
  lemma CardsInOrder(cards: seq<Card>, matching: seq<Row>, section: Section, user: Uuid, i: nat, j: nat)
    requires IsProjection(cards, matching, section, user) && i < j < |cards|
    ensures section == Upcoming ==> exists r :: r in CardRows(cards[i]) && forall s | s in CardRows(cards[j]) :: r.startAt <= s.startAt
    ensures section != Upcoming ==> exists r :: r in CardRows(cards[i]) && forall s | s in CardRows(cards[j]) :: s.startAt <= r.startAt
    ensures cards[i].OneTime? && cards[j].OneTime? && cards[i].booking.startAt == cards[j].booking.startAt ==> cards[i].booking.id <= cards[j].booking.id
  {
    assert CardOrder(section)(cards[i], cards[j]);
    OrderedByTime(cards[i], cards[j], section);
    CardsHaveRows(cards, matching, section, user, i);
    CardsHaveRows(cards, matching, section, user, j);
    if section == Upcoming {
      EarlierFirst(CardRows(cards[i]), CardRows(cards[j]));
    } else {
      LaterFirst(CardRows(cards[i]), CardRows(cards[j]));
    }
  }

  lemma OrderedByTime(a: Card, b: Card, section: Section)
    requires CardOrder(section)(a, b)
    ensures if section == Upcoming then Earliest(CardRows(a)) <= Earliest(CardRows(b)) else Latest(CardRows(b)) <= Latest(CardRows(a))
    ensures a.OneTime? && b.OneTime? && a.booking.startAt == b.booking.startAt ==> a.booking.id <= b.booking.id
  {
    assert SortTime(a, section) <= SortTime(b, section);
  }

  lemma CardsHaveRows(cards: seq<Card>, matching: seq<Row>, section: Section, user: Uuid, i: nat)
    requires IsProjection(cards, matching, section, user) && i < |cards|
    ensures CardRows(cards[i]) != []
  {
    assert GoodCard(cards[i], matching, user);
  }

  lemma EarlierFirst(a: seq<Row>, b: seq<Row>)
    requires a != [] && b != [] && Earliest(a) <= Earliest(b)
    ensures exists r :: r in a && forall s | s in b :: r.startAt <= s.startAt
  {
  }

  lemma LaterFirst(a: seq<Row>, b: seq<Row>)
    requires a != [] && b != [] && Latest(b) <= Latest(a)
    ensures exists r :: r in a && forall s | s in b :: s.startAt <= r.startAt
  {
  }

  /** A series card holds exactly the section's occurrences of its series, and a one-time card a row of no series. */
  lemma CardRowsOfSection(cards: seq<Card>, rows: seq<Row>, section: Section, user: Uuid, now: Instant, c: Card, r: Row)
    requires IsProjection(cards, Matching(rows, section, now), section, user) && c in cards
    ensures c.Series? ==> (multiset(c.occurrences)[r]
                           == if Classify(r, now) == Some(section) && r.recurring && r.series == Some(c.seriesId) then multiset(rows)[r] else 0)
    ensures c.OneTime? ==> c.booking in rows && Classify(c.booking, now) == Some(section) && !(c.booking.recurring && c.booking.series.Some?)
    ensures c.isBooker <==> (if c.OneTime? then c.booking.user == user else c.occurrences != [] && c.occurrences[0].user == user)
  {
    var matching := Matching(rows, section, now);
    assert GoodCard(c, matching, user);
    if c.OneTime? {
      assert c.booking in multiset(matching);
    }
  }
}
