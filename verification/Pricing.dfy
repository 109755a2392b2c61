/** Rental quotes: exact line amounts, one half-up rounding per published amount, and how far rounding can move them. */
module Pricing {
  import opened Options
  import opened FacilityTypes

  datatype BillingUnit = Hourly | DailyFlat | PerSlot | FlatPerBooking | OtherUnit

  /** The rate picked for a line; a missing unit bills by the hour. */
  datatype Rate = Rate(unit: Option<BillingUnit>, unitAmount: real)

  datatype Surcharge = Surcharge(code: string, active: bool, perHour: bool, unitAmount: real)

  datatype Catalog = Catalog(rooms: set<Uuid>, rateFor: (Uuid, real) -> Option<Rate>, surcharges: seq<Surcharge>)

  datatype QuoteLine = QuoteLine(room: Uuid, billedHours: real)

  /** `free` and `percent` are the outcome of discount eligibility. */
  datatype QuoteCommand = QuoteCommand(lines: seq<QuoteLine>, surchargeCodes: seq<string>, free: bool, percent: real)

  datatype Quote = Quote(subtotal: real, percent: real, discount: real, surcharge: real, quoted: real,
                         lineSubtotals: seq<real>, freeMinistry: bool)

  datatype QuoteError = NoLines | RoomNotFound | HoursNotPositive | NoActiveRate | SurchargeNotActive

  // ----- Rounding

  /** The nearest integer, ties away from zero. */
  function HalfUp(y: real): int {
    if y >= 0.0 then (y + 0.5).Floor else -((-y + 0.5).Floor)
  }

  function Quantize(amount: real): real {
    HalfUp(amount * 100.0) as real / 100.0
  }

  lemma HalfUpError(y: real)
    ensures -0.5 <= HalfUp(y) as real - y <= 0.5
  {
  }

  lemma QuantizeError(x: real)
    ensures -0.005 <= Quantize(x) - x <= 0.005
  {
    HalfUpError(x * 100.0);
  }

  // ----- Exact amounts

  function LineAmount(rate: Rate, billedHours: real): real {
    match rate.unit
    case Some(DailyFlat) => rate.unitAmount
    case Some(PerSlot) => rate.unitAmount
    case Some(FlatPerBooking) => rate.unitAmount
    case _ => rate.unitAmount * billedHours
  }

  function RateOf(catalog: Catalog, line: QuoteLine): Option<Rate> {
    catalog.rateFor(line.room, line.billedHours)
  }

  function ExactLine(catalog: Catalog, line: QuoteLine): real {
    match RateOf(catalog, line) case Some(rate) => LineAmount(rate, line.billedHours) case None => 0.0
  }

  function ExactLines(catalog: Catalog, lines: seq<QuoteLine>): (r: seq<real>)
    ensures |r| == |lines|
  {
    seq(|lines|, i requires 0 <= i < |lines| => ExactLine(catalog, lines[i]))
  }

  function RoundedLines(catalog: Catalog, lines: seq<QuoteLine>): (r: seq<real>)
    ensures |r| == |lines|
  {
    seq(|lines|, i requires 0 <= i < |lines| => Quantize(ExactLine(catalog, lines[i])))
  }

  function Sum(amounts: seq<real>): real {
    if amounts == [] then 0.0 else Sum(amounts[..|amounts| - 1]) + amounts[|amounts| - 1]
  }

  function BilledHours(lines: seq<QuoteLine>): seq<real> {
    seq(|lines|, i requires 0 <= i < |lines| => lines[i].billedHours)
  }

  /** The last active surcharge with the code. */
  function ActiveSurcharge(surcharges: seq<Surcharge>, code: string): Option<Surcharge> {
    if surcharges == [] then None
    else
      var last := surcharges[|surcharges| - 1];
      if last.active && last.code == code then Some(last)
      else ActiveSurcharge(surcharges[..|surcharges| - 1], code)
  }

  function SurchargeCharge(s: Surcharge, hours: real): real {
    if s.perHour then s.unitAmount * hours else s.unitAmount
  }

  function SurchargeAmount(catalog: Catalog, code: string, hours: real): real {
    match ActiveSurcharge(catalog.surcharges, code)
    case Some(s) => SurchargeCharge(s, hours)
    case None => 0.0
  }

  function SurchargeAmounts(catalog: Catalog, codes: seq<string>, hours: real): (r: seq<real>)
    ensures |r| == |codes|
  {
    seq(|codes|, i requires 0 <= i < |codes| => SurchargeAmount(catalog, codes[i], hours))
  }

  function ExactSubtotal(catalog: Catalog, command: QuoteCommand): real {
    Sum(ExactLines(catalog, command.lines))
  }

  function ExactSurcharges(catalog: Catalog, command: QuoteCommand): real {
    Sum(SurchargeAmounts(catalog, command.surchargeCodes, Sum(BilledHours(command.lines))))
  }

  function Unrounded(subtotal: real, percent: real, surcharge: real): real {
    subtotal - subtotal * percent / 100.0 + surcharge
  }

  /** The total with no rounding anywhere. */
  function ExactTotal(catalog: Catalog, command: QuoteCommand): real {
    Unrounded(ExactSubtotal(catalog, command), command.percent, ExactSurcharges(catalog, command))
  }

  // ----- Refusals, in the order they are checked

  function LineRefusal(catalog: Catalog, lines: seq<QuoteLine>): Option<QuoteError> {
    if lines == [] then None
    else if lines[0].room !in catalog.rooms then Some(RoomNotFound)
    else if lines[0].billedHours <= 0.0 then Some(HoursNotPositive)
    else LineRefusal(catalog, lines[1..])
  }

  predicate EveryLineRated(catalog: Catalog, lines: seq<QuoteLine>) {
    forall l | l in lines :: RateOf(catalog, l).Some?
  }

  predicate EveryCodeActive(catalog: Catalog, codes: seq<string>) {
    forall c | c in codes :: ActiveSurcharge(catalog.surcharges, c).Some?
  }

  function Refusal(catalog: Catalog, command: QuoteCommand): Option<QuoteError> {
    if command.lines == [] then Some(NoLines)
    else if LineRefusal(catalog, command.lines).Some? then LineRefusal(catalog, command.lines)
    else if command.free then None
    else if !EveryLineRated(catalog, command.lines) then Some(NoActiveRate)
    else if !EveryCodeActive(catalog, command.surchargeCodes) then Some(SurchargeNotActive)
    else None
  }

  function DiscountCents(subtotal: real, percent: real): int {
    HalfUp(subtotal * percent / 100.0 * 100.0)
  }

  /** Each published amount is rounded once; the total is computed with the rounded discount. */
  function Assemble(subtotal: real, percent: real, surcharge: real, lineSubtotals: seq<real>): Quote {
    var discount := DiscountCents(subtotal, percent) as real / 100.0;
    Quote(Quantize(subtotal), percent, discount, Quantize(surcharge), Quantize(subtotal - discount + surcharge), lineSubtotals, false)
  }

  function QuoteOf(catalog: Catalog, command: QuoteCommand): Quote {
    Assemble(ExactSubtotal(catalog, command), command.percent, ExactSurcharges(catalog, command), RoundedLines(catalog, command.lines))
  }

  function FreeQuote(command: QuoteCommand): Quote {
    Quote(0.0, 0.0, 0.0, 0.0, 0.0, seq(|command.lines|, _ => 0.0), true)
  }

  method ComputeSurcharges(catalog: Catalog, command: QuoteCommand) returns (r: Result<real, QuoteError>)
    ensures r == if EveryCodeActive(catalog, command.surchargeCodes) then Success(ExactSurcharges(catalog, command)) else Failure(SurchargeNotActive)
  {
    var codes := command.surchargeCodes;
    var total, hours := 0.0, Sum(BilledHours(command.lines));
    ghost var amounts := SurchargeAmounts(catalog, codes, hours);
    for i := 0 to |codes|
      invariant total == Sum(amounts[..i])
      invariant forall j | 0 <= j < i :: ActiveSurcharge(catalog.surcharges, codes[j]).Some?
    {
      var surcharge := ActiveSurcharge(catalog.surcharges, codes[i]);
      if surcharge.None? {
        assert codes[i] in codes;
        return Failure(SurchargeNotActive);
      }
      assert amounts[..i + 1][..i] == amounts[..i];
      total := total + SurchargeCharge(surcharge.value, hours);
    }
    assert amounts[..|codes|] == amounts;
    return Success(total);
  }

  /** The exact subtotal and each line's rounded subtotal. */
  method PriceLines(catalog: Catalog, lines: seq<QuoteLine>) returns (r: Result<(real, seq<real>), QuoteError>)
    ensures r == if EveryLineRated(catalog, lines) then Success((Sum(ExactLines(catalog, lines)), RoundedLines(catalog, lines)))
                 else Failure(NoActiveRate)
  {
    ghost var exact := ExactLines(catalog, lines);
    var subtotal := 0.0;
    var rounded: seq<real> := [];
    for i := 0 to |lines|
      invariant subtotal == Sum(exact[..i])
      invariant |rounded| == i && forall j | 0 <= j < i :: rounded[j] == Quantize(exact[j])
      invariant forall j | 0 <= j < i :: RateOf(catalog, lines[j]).Some?
    {
      var rate := RateOf(catalog, lines[i]);
      if rate.None? {
        assert lines[i] in lines;
        return Failure(NoActiveRate);
      }
      assert exact[..i + 1][..i] == exact[..i];
      var amount := LineAmount(rate.value, lines[i].billedHours);
      subtotal := subtotal + amount;
      rounded := rounded + [Quantize(amount)];
    }
    assert exact[..|lines|] == exact;
    assert rounded == RoundedLines(catalog, lines);
    return Success((subtotal, rounded));
  }

  method PreviewQuote(catalog: Catalog, command: QuoteCommand) returns (r: Result<Quote, QuoteError>)
    ensures r.Failure? <==> Refusal(catalog, command).Some?
    ensures r.Failure? ==> Some(r.error) == Refusal(catalog, command)
    ensures r.Success? ==> r.value == if command.free then FreeQuote(command) else QuoteOf(catalog, command)
    ensures r.Success? && command.free ==> r.value.freeMinistry && r.value.quoted == 0.0 && r.value.subtotal == 0.0 && r.value.surcharge == 0.0
    ensures r.Success? && command.free ==> r.value.discount == 0.0 && forall i | 0 <= i < |r.value.lineSubtotals| :: r.value.lineSubtotals[i] == 0.0
  {
    var lines := command.lines;
    if lines == [] {
      return Failure(NoLines);
    }
    for i := 0 to |lines|
      invariant LineRefusal(catalog, lines) == LineRefusal(catalog, lines[i..])
    {
      if lines[i].room !in catalog.rooms {
        return Failure(RoomNotFound);
      }
      if lines[i].billedHours <= 0.0 {
        return Failure(HoursNotPositive);
      }
    }
    if command.free {
      return Success(FreeQuote(command));
    }
    var priced := PriceLines(catalog, lines);
    if priced.Failure? {
      return Failure(priced.error);
    }
    var (subtotal, rounded) := priced.value;
    var surcharge := ComputeSurcharges(catalog, command);
    if surcharge.Failure? {
      return Failure(surcharge.error);
    }
    return Success(Assemble(subtotal, command.percent, surcharge.value, rounded));
  }

  // ----- How far rounding moves a quote

  function Abs(x: real): real {
    if x < 0.0 then -x else x
  }

  lemma AssembledWithinOneCent(subtotal: real, percent: real, surcharge: real, lineSubtotals: seq<real>)
    ensures Abs(Assemble(subtotal, percent, surcharge, lineSubtotals).quoted - Unrounded(subtotal, percent, surcharge)) <= 0.01
  {
  }

  /** The quoted amount is within one cent of the total computed without any rounding. */
  lemma QuotedWithinOneCent(catalog: Catalog, command: QuoteCommand)
    ensures Abs(QuoteOf(catalog, command).quoted - ExactTotal(catalog, command)) <= 0.01
  {
    AssembledWithinOneCent(ExactSubtotal(catalog, command), command.percent, ExactSurcharges(catalog, command), RoundedLines(catalog, command.lines));
  }

  /** Rounding a difference of exact amounts against rounding its parts, in cents. */
  lemma RoundedParts(subtotal: real, discountCents: int, surcharge: real)
    ensures -1 <= HalfUp((subtotal - discountCents as real / 100.0 + surcharge) * 100.0)
                  - (HalfUp(subtotal * 100.0) - discountCents + HalfUp(surcharge * 100.0)) <= 1
  {
  }

  lemma CentsClose(total: int, subtotal: int, discount: int, surcharge: int)
    requires -1 <= total - (subtotal - discount + surcharge) <= 1
    ensures Abs(total as real / 100.0 - (subtotal as real / 100.0 - discount as real / 100.0 + surcharge as real / 100.0)) <= 0.01
  {
  }

  /** The published parts add up to the quoted amount, give or take one cent. */
  lemma PartsAddUpWithinOneCent(catalog: Catalog, command: QuoteCommand)
    ensures var q := QuoteOf(catalog, command); Abs(q.quoted - (q.subtotal - q.discount + q.surcharge)) <= 0.01
  {
    var subtotal, surcharge := ExactSubtotal(catalog, command), ExactSurcharges(catalog, command);
    var discount := DiscountCents(subtotal, command.percent);
    RoundedParts(subtotal, discount, surcharge);
    var total := (subtotal - discount as real / 100.0 + surcharge) * 100.0;
    CentsClose(HalfUp(total), HalfUp(subtotal * 100.0), discount, HalfUp(surcharge * 100.0));
  }

  lemma {:induction false} SumOfRounded(amounts: seq<real>, rounded: seq<real>)
    requires |rounded| == |amounts| && forall i | 0 <= i < |amounts| :: rounded[i] == Quantize(amounts[i])
    ensures Abs(Sum(rounded) - Sum(amounts)) <= |amounts| as real * 0.005
  {
    if amounts != [] {
      var n := |amounts| - 1;
      SumOfRounded(amounts[..n], rounded[..n]);
      QuantizeError(amounts[n]);
      assert |amounts| as real * 0.005 == n as real * 0.005 + 0.005;
    }
  }

  /** The sum of n rounded line subtotals is within (n + 1) / 2 cents of the rounded subtotal. */
  lemma LineSubtotalsNearSubtotal(catalog: Catalog, command: QuoteCommand)
    ensures var q := QuoteOf(catalog, command);
      Abs(Sum(q.lineSubtotals) - q.subtotal) <= (|command.lines| + 1) as real * 0.005
  {
    var q := QuoteOf(catalog, command);
    SumOfRounded(ExactLines(catalog, command.lines), q.lineSubtotals);
    QuantizeError(ExactSubtotal(catalog, command));
    assert (|command.lines| + 1) as real * 0.005 == |command.lines| as real * 0.005 + 0.005;
  }

  lemma ProductNonNegative(a: real, b: real)
    requires a >= 0.0 && b >= 0.0
    ensures a * b >= 0.0
  {
  }

  lemma UnroundedNonNegative(subtotal: real, percent: real, surcharge: real)
    requires subtotal >= 0.0 && surcharge >= 0.0 && 0.0 <= percent <= 100.0
    ensures Unrounded(subtotal, percent, surcharge) >= 0.0
  {
    ProductNonNegative(subtotal, 100.0 - percent);
  }

  /** With non-negative prices and at most a full discount, rounding can take a quote one cent below zero, no further. */
  lemma QuoteNotBelowMinusOneCent(catalog: Catalog, command: QuoteCommand)
    requires ExactSubtotal(catalog, command) >= 0.0 && ExactSurcharges(catalog, command) >= 0.0
    requires 0.0 <= command.percent <= 100.0
    ensures QuoteOf(catalog, command).quoted >= -0.01
  {
    QuotedWithinOneCent(catalog, command);
    UnroundedNonNegative(ExactSubtotal(catalog, command), command.percent, ExactSurcharges(catalog, command));
  }

  /** The unrounded total lies on or above zero, so a negative quote can only come from rounding the discount up. */
  lemma NegativeAssembledIff(subtotal: real, percent: real, surcharge: real, lineSubtotals: seq<real>)
    requires subtotal >= 0.0 && surcharge >= 0.0 && 0.0 <= percent <= 100.0
    ensures Assemble(subtotal, percent, surcharge, lineSubtotals).quoted < 0.0
       <==> percent == 100.0 && surcharge == 0.0 && OnHalfCent(subtotal)
  {
    var exact, kept := subtotal * percent, subtotal * (100.0 - percent);
    var cents := DiscountCents(subtotal, percent);
    assert subtotal * percent / 100.0 * 100.0 == exact;
    HalfUpError(exact);
    ProductNonNegative(subtotal, 100.0 - percent);
    assert kept == subtotal * 100.0 - exact;
    NegativeHalfUp((subtotal - cents as real / 100.0 + surcharge) * 100.0);
    NegativeCents(subtotal, surcharge, exact, kept, cents as real);
    if kept == 0.0 {
      ZeroProduct(subtotal, 100.0 - percent);
    }
  }

  /** A rounded-up half cent is all that can take the total below zero. */
  lemma NegativeCents(subtotal: real, surcharge: real, exact: real, kept: real, cents: real)
    requires surcharge >= 0.0 && kept >= 0.0 && kept == subtotal * 100.0 - exact && cents <= exact + 0.5
    ensures (subtotal - cents / 100.0 + surcharge) * 100.0 <= -0.5 <==> surcharge == 0.0 && kept == 0.0 && cents == exact + 0.5
  {
  }

  lemma NegativeHalfUp(y: real)
    ensures HalfUp(y) < 0 <==> y <= -0.5
  {
  }

  lemma ZeroProduct(a: real, b: real)
    requires a * b == 0.0
    ensures a == 0.0 || b == 0.0
  {
  }

  /** An exact number of cents and a half, which rounds up by half a cent. */
  predicate OnHalfCent(amount: real) {
    (amount * 100.0 + 0.5).Floor as real == amount * 100.0 + 0.5
  }

  /**
   With non-negative amounts and at most a full discount, a quote is negative exactly when the discount is full, there is
   no surcharge and the subtotal lies on half a cent; and then it is minus one cent.
   */
  lemma NegativeQuoteIff(catalog: Catalog, command: QuoteCommand)
    requires ExactSubtotal(catalog, command) >= 0.0 && ExactSurcharges(catalog, command) >= 0.0
    requires 0.0 <= command.percent <= 100.0
    ensures QuoteOf(catalog, command).quoted < 0.0
       <==> command.percent == 100.0 && ExactSurcharges(catalog, command) == 0.0 && OnHalfCent(ExactSubtotal(catalog, command))
    ensures QuoteOf(catalog, command).quoted < 0.0 ==> QuoteOf(catalog, command).quoted == -0.01
  {
    NegativeAssembledIff(ExactSubtotal(catalog, command), command.percent, ExactSurcharges(catalog, command), RoundedLines(catalog, command.lines));
    QuoteNotBelowMinusOneCent(catalog, command);
  }

  ghost predicate PricesNonNegative(catalog: Catalog) {
    && (forall s | s in catalog.surcharges :: s.unitAmount >= 0.0)
    && forall l: QuoteLine :: RateOf(catalog, l).Some? ==> RateOf(catalog, l).value.unitAmount >= 0.0
  }

  /** Non-negative prices give every accepted quote non-negative exact amounts. */
  lemma AmountsNonNegative(catalog: Catalog, command: QuoteCommand)
    requires PricesNonNegative(catalog) && Refusal(catalog, command).None? && !command.free
    ensures ExactSubtotal(catalog, command) >= 0.0 && ExactSurcharges(catalog, command) >= 0.0
  {
    PositiveHours(catalog, command.lines);
    forall i | 0 <= i < |command.lines| ensures ExactLines(catalog, command.lines)[i] >= 0.0 {
      var line := command.lines[i];
      assert line in command.lines;
      ProductNonNegative(RateOf(catalog, line).value.unitAmount, line.billedHours);
    }
    SumNonNegative(ExactLines(catalog, command.lines));
    SumNonNegative(BilledHours(command.lines));
    var hours := Sum(BilledHours(command.lines));
    var amounts := SurchargeAmounts(catalog, command.surchargeCodes, hours);
    forall i | 0 <= i < |amounts| ensures amounts[i] >= 0.0 {
      SurchargeNonNegative(catalog, command.surchargeCodes[i], hours);
    }
    SumNonNegative(amounts);
  }

  lemma {:induction false} PositiveHours(catalog: Catalog, lines: seq<QuoteLine>)
    requires LineRefusal(catalog, lines).None?
    ensures forall i | 0 <= i < |lines| :: lines[i].billedHours > 0.0
  {
    if lines != [] {
      PositiveHours(catalog, lines[1..]);
      forall i | 0 <= i < |lines| ensures lines[i].billedHours > 0.0 {
        assert i > 0 ==> lines[i] == lines[1..][i - 1];
      }
    }
  }

  lemma {:induction false} SumNonNegative(amounts: seq<real>)
    requires forall i | 0 <= i < |amounts| :: amounts[i] >= 0.0
    ensures Sum(amounts) >= 0.0
  {
    if amounts != [] {
      SumNonNegative(amounts[..|amounts| - 1]);
    }
  }

  lemma {:induction false} ActiveSurchargeListed(surcharges: seq<Surcharge>, code: string)
    ensures ActiveSurcharge(surcharges, code).Some? ==> ActiveSurcharge(surcharges, code).value in surcharges
  {
    if surcharges != [] {
      ActiveSurchargeListed(surcharges[..|surcharges| - 1], code);
    }
  }

  lemma SurchargeNonNegative(catalog: Catalog, code: string, hours: real)
    requires PricesNonNegative(catalog) && hours >= 0.0
    ensures SurchargeAmount(catalog, code, hours) >= 0.0
  {
    ActiveSurchargeListed(catalog.surcharges, code);
    match ActiveSurcharge(catalog.surcharges, code)
    case Some(s) => ProductNonNegative(s.unitAmount, hours);
    case None =>
  }

  /** Half a cent of rent under a full discount is quoted as minus one cent. */
  lemma NegativeQuoteExample(catalog: Catalog, line: QuoteLine)
    requires RateOf(catalog, line) == Some(Rate(Some(Hourly), 0.5)) && line.billedHours == 0.01
    ensures QuoteOf(catalog, QuoteCommand([line], [], false, 100.0)).quoted == -0.01
  {
  }

  // ----- What each amount is

  /** Daily, per-slot and per-booking rates ignore the hours; an hourly, missing or unknown unit multiplies by them. */
  lemma LineAmountByUnit(rate: Rate, hours: real)
    ensures rate.unit == Some(DailyFlat) || rate.unit == Some(PerSlot) || rate.unit == Some(FlatPerBooking) ==> LineAmount(rate, hours) == rate.unitAmount
    ensures rate.unit.None? || rate.unit == Some(Hourly) || rate.unit == Some(OtherUnit) ==> LineAmount(rate, hours) == rate.unitAmount * hours
  {
  }

  /** The nearest integer, and away from zero from halfway between two. */
  lemma HalfUpIffNearest(y: real, n: int)
    ensures HalfUp(y) == n <==> if y >= 0.0 then n as real - 0.5 <= y < n as real + 0.5 else n as real - 0.5 < y <= n as real + 0.5
  {
  }

  lemma {:induction false} SumLaws(a: seq<real>, b: seq<real>, x: real)
    ensures Sum([]) == 0.0 && Sum([x]) == x && Sum(a + b) == Sum(a) + Sum(b)
  {
    assert Sum([x]) == Sum([x][..0]) + x;
    if b == [] {
      assert a + b == a;
    } else {
      var n := |b| - 1;
      SumLaws(a, b[..n], x);
      assert (a + b)[..|a| + n] == a + b[..n];
    }
  }

  predicate ActiveWith(s: Surcharge, code: string) {
    s.active && s.code == code
  }

  /** Surcharge `k` is the last active one with the code. */
  predicate IsLastActive(surcharges: seq<Surcharge>, k: nat, code: string) {
    && k < |surcharges| && ActiveWith(surcharges[k], code)
    && forall j | k < j < |surcharges| :: !ActiveWith(surcharges[j], code)
  }

  /** Of several active surcharges with a code the last one counts; an inactive one never does. */
  lemma {:induction false} LastActiveCounts(surcharges: seq<Surcharge>, code: string)
    ensures ActiveSurcharge(surcharges, code).Some? <==> exists k: nat :: IsLastActive(surcharges, k, code)
    ensures forall k: nat | IsLastActive(surcharges, k, code) :: ActiveSurcharge(surcharges, code) == Some(surcharges[k])
  {
    if surcharges != [] {
      var n := |surcharges| - 1;
      LastActiveCounts(surcharges[..n], code);
      if ActiveWith(surcharges[n], code) {
        assert IsLastActive(surcharges, n, code);
      } else {
        forall k: nat ensures IsLastActive(surcharges, k, code) <==> IsLastActive(surcharges[..n], k, code) {
          assert k < n ==> surcharges[..n][k] == surcharges[k];
        }
      }
    }
  }

  /** A per-hour surcharge multiplies by the billed hours of all lines together, any other is charged once. */
  lemma SurchargeByKind(catalog: Catalog, lines: seq<QuoteLine>, hours: seq<real>, code: string, s: Surcharge)
    requires |hours| == |lines| && forall k | 0 <= k < |lines| :: hours[k] == lines[k].billedHours
    requires ActiveSurcharge(catalog.surcharges, code) == Some(s)
    ensures SurchargeAmount(catalog, code, Sum(BilledHours(lines))) == if s.perHour then s.unitAmount * Sum(hours) else s.unitAmount
    ensures ExactSurcharges(catalog, QuoteCommand(lines, [code], false, 0.0)) == if s.perHour then s.unitAmount * Sum(hours) else s.unitAmount
  {
    assert BilledHours(lines) == hours;
    var amounts := SurchargeAmounts(catalog, [code], Sum(hours));
    assert amounts == [SurchargeAmount(catalog, code, Sum(hours))];
    SumLaws([], [], amounts[0]);
  }

  predicate GoodLine(catalog: Catalog, line: QuoteLine) {
    line.room in catalog.rooms && line.billedHours > 0.0
  }

  /** The first bad line decides: its unknown room before its hours. */
  lemma {:induction false} LineRefusalByFirst(catalog: Catalog, lines: seq<QuoteLine>, k: nat)
    requires k <= |lines| && forall j | 0 <= j < k :: GoodLine(catalog, lines[j])
    ensures k == |lines| ==> LineRefusal(catalog, lines).None?
    ensures k < |lines| && lines[k].room !in catalog.rooms ==> LineRefusal(catalog, lines) == Some(RoomNotFound)
    ensures k < |lines| && lines[k].room in catalog.rooms && lines[k].billedHours <= 0.0 ==> LineRefusal(catalog, lines) == Some(HoursNotPositive)
  {
    if k > 0 {
      assert GoodLine(catalog, lines[0]);
      forall j | 0 <= j < k - 1 ensures GoodLine(catalog, lines[1..][j]) {
        assert lines[1..][j] == lines[j + 1];
      }
      LineRefusalByFirst(catalog, lines[1..], k - 1);
    }
  }

  /** A quote is given exactly for known rooms with positive hours, free or with every rate and surcharge active. */
  lemma QuotedIff(catalog: Catalog, command: QuoteCommand)
    ensures Refusal(catalog, command).None?
       <==> && command.lines != [] && (forall l | l in command.lines :: l.room in catalog.rooms && l.billedHours > 0.0)
            && (command.free || ((forall l | l in command.lines :: catalog.rateFor(l.room, l.billedHours).Some?)
                                 && forall c | c in command.surchargeCodes :: exists k :: 0 <= k < |catalog.surcharges| && ActiveWith(catalog.surcharges[k], c)))
  {
    LinesGoodIff(catalog, command.lines);
    forall c ensures ActiveSurcharge(catalog.surcharges, c).Some? <==> exists k :: 0 <= k < |catalog.surcharges| && ActiveWith(catalog.surcharges[k], c) {
      CodeActiveIff(catalog.surcharges, c);
    }
  }

  lemma {:induction false} LinesGoodIff(catalog: Catalog, lines: seq<QuoteLine>)
    ensures LineRefusal(catalog, lines).None? <==> forall l | l in lines :: l.room in catalog.rooms && l.billedHours > 0.0
  {
    if lines != [] {
      LinesGoodIff(catalog, lines[1..]);
      assert lines == [lines[0]] + lines[1..];
    }
  }

  lemma {:induction false} CodeActiveIff(surcharges: seq<Surcharge>, code: string)
    ensures ActiveSurcharge(surcharges, code).Some? <==> exists k :: 0 <= k < |surcharges| && ActiveWith(surcharges[k], code)
  {
    if surcharges != [] {
      var n := |surcharges| - 1;
      CodeActiveIff(surcharges[..n], code);
      if k :| 0 <= k < |surcharges| && ActiveWith(surcharges[k], code) && k < n {
        assert surcharges[..n][k] == surcharges[k];
      }
    }
  }

  predicate WholeCents(x: real) {
    (x * 100.0).Floor as real == x * 100.0
  }

  lemma QuantizeWhole(x: real)
    ensures WholeCents(Quantize(x))
  {
    assert Quantize(x) * 100.0 == HalfUp(x * 100.0) as real;
  }

  lemma AssembledAmounts(subtotal: real, percent: real, surcharge: real, lineSubtotals: seq<real>)
    ensures var q := Assemble(subtotal, percent, surcharge, lineSubtotals);
      && WholeCents(q.subtotal) && WholeCents(q.discount) && WholeCents(q.surcharge) && WholeCents(q.quoted)
      && Abs(q.subtotal - subtotal) <= 0.005 && Abs(q.discount - subtotal * percent / 100.0) <= 0.005 && Abs(q.surcharge - surcharge) <= 0.005
  {
    QuantizeError(subtotal);
    QuantizeError(surcharge);
    QuantizeWhole(subtotal);
    QuantizeWhole(surcharge);
    DiscountPublished(subtotal, percent);
    QuantizeWhole(subtotal - DiscountCents(subtotal, percent) as real / 100.0 + surcharge);
  }

  ghost predicate CentsNear(amount: real, exact: real) {
    WholeCents(amount) && Abs(amount - exact) <= 0.005
  }

  /** Every published amount is a whole number of cents within half a cent of its exact value. */
  lemma PublishedAmounts(catalog: Catalog, command: QuoteCommand)
    ensures CentsNear(QuoteOf(catalog, command).subtotal, ExactSubtotal(catalog, command))
    ensures CentsNear(QuoteOf(catalog, command).discount, ExactSubtotal(catalog, command) * command.percent / 100.0)
    ensures CentsNear(QuoteOf(catalog, command).surcharge, ExactSurcharges(catalog, command))
    ensures WholeCents(QuoteOf(catalog, command).quoted) && QuoteOf(catalog, command).percent == command.percent
    ensures |QuoteOf(catalog, command).lineSubtotals| == |command.lines| && !QuoteOf(catalog, command).freeMinistry
  {
    AssembledAmounts(ExactSubtotal(catalog, command), command.percent, ExactSurcharges(catalog, command), RoundedLines(catalog, command.lines));
  }

  lemma DiscountPublished(subtotal: real, percent: real)
    ensures WholeCents(DiscountCents(subtotal, percent) as real / 100.0)
    ensures Abs(DiscountCents(subtotal, percent) as real / 100.0 - subtotal * percent / 100.0) <= 0.005
  {
    var exact := subtotal * percent / 100.0;
    HalfUpError(exact * 100.0);
    assert DiscountCents(subtotal, percent) as real / 100.0 * 100.0 == DiscountCents(subtotal, percent) as real;
  }

  /** Each line's published subtotal is its own exact amount, rounded. */
  lemma LineSubtotalOf(catalog: Catalog, command: QuoteCommand, i: nat, rate: Rate)
    requires i < |command.lines| && catalog.rateFor(command.lines[i].room, command.lines[i].billedHours) == Some(rate)
    ensures |QuoteOf(catalog, command).lineSubtotals| == |command.lines|
    ensures CentsNear(QuoteOf(catalog, command).lineSubtotals[i], LineAmount(rate, command.lines[i].billedHours))
    ensures ExactLines(catalog, command.lines)[i] == LineAmount(rate, command.lines[i].billedHours)
  {
    QuantizeError(LineAmount(rate, command.lines[i].billedHours));
    QuantizeWhole(LineAmount(rate, command.lines[i].billedHours));
  }
}
