/**
 Spend of a time range: usage is cut at billing period boundaries, and tiered prices continue
 from the usage earlier in the period. Times are nanoseconds, money and usage exact reals.
 */
module Spend {
  import opened Common
  import opened Pricing

  /** time.Time.Truncate(time.Second). */
  function Truncate(t: int): (r: int)
    ensures r <= t < r + SECOND && r % SECOND == 0
  {
    t / SECOND * SECOND
  }

  lemma TruncateMonotone(s: int, t: int)
    requires s <= t
    ensures Truncate(s) <= Truncate(t)
  {
  }

  /** Each instant lies in its period, and a period is the same seen from any of its instants. */
  ghost predicate IsRecurrence(f: int -> Period) {
    && (forall t :: f(t).from <= t < f(t).to)
    && (forall t, u {:trigger f(t), f(u)} :: f(t).from <= u < f(t).to ==> f(u) == f(t))
  }

  type Recurrence = f: int -> Period | IsRecurrence(f)
    ghost witness ((t: int) => Period(t, t + 1))

  datatype Subscription = Subscription(activeFrom: int, activeTo: Option<int>, anchor: int, cadence: string,
                                       deleted: bool, planId: Option<string>)

  /** A usage rate card: its price, the factor its usage is divided by, and its discount in percent. */
  datatype Card = Card(meterSlug: string, cadence: string, price: Price, factor: real, discount: real)

  datatype PricedRange = PricedRange(plan: nat, from: int, to: int, earlierFrom: int)

  function ActiveEnd(sub: Subscription, end: int): int {
    if sub.activeTo.Some? && sub.activeTo.value < end then sub.activeTo.value else end
  }

  /** The range that prices the part [t, partEnd) of one billing period. */
  function PartRange(sub: Subscription, plan: nat, period: Period, t: int, partEnd: int): PricedRange {
    PricedRange(plan, Truncate(t), Truncate(partEnd), Truncate(Max(period.from, sub.activeFrom)))
  }

  /** The ranges of [t, to), one per billing period, without those shorter than the seconds they span. */
  function RangesFrom(sub: Subscription, plan: nat, periods: Recurrence, t: int, to: int): seq<PricedRange>
    decreases -t + to
  {
    if t >= to then []
    else
      var partEnd := if periods(t).to < to then periods(t).to else to;
      var r := PartRange(sub, plan, periods(t), t, partEnd);
      (if r.from < r.to then [r] else []) + RangesFrom(sub, plan, periods, partEnd, to)
  }

  /** What cardRanges is to return for a card that prices a queried meter. */
  function RangesOf(sub: Subscription, plan: nat, periods: Recurrence, start: int, end: int): seq<PricedRange> {
    RangesFrom(sub, plan, periods, Max(sub.activeFrom, start), ActiveEnd(sub, end))
  }

  /** Non-empty, in order, without gap or overlap, and covering exactly [lo, hi). */
  ghost predicate Tiles(ranges: seq<PricedRange>, lo: int, hi: int) {
    && (forall i :: 0 <= i < |ranges| ==> ranges[i].earlierFrom <= ranges[i].from < ranges[i].to)
    && (forall i, j :: 0 <= i && j == i + 1 && j < |ranges| ==> ranges[i].to == ranges[j].from)
    && (if ranges == [] then lo == hi else ranges[0].from == lo && ranges[|ranges| - 1].to == hi)
  }

  /** A range before a tiling extends it; an empty one is left out. */
  lemma TilesCons(all: seq<PricedRange>, part: PricedRange, rest: seq<PricedRange>, hi: int)
    requires part.earlierFrom <= part.from <= part.to && Tiles(rest, part.to, hi)
    requires all == (if part.from < part.to then [part] else []) + rest
    ensures Tiles(all, part.from, hi)
  {
    if part.from == part.to {
      assert all == rest;
    }
  }

  lemma {:induction false} RangesTile(sub: Subscription, plan: nat, periods: Recurrence, t: int, to: int)
    requires sub.activeFrom <= t <= to
    ensures Tiles(RangesFrom(sub, plan, periods, t, to), Truncate(t), Truncate(to))
    decreases -t + to
  {
    if t < to {
      var partEnd := if periods(t).to < to then periods(t).to else to;
      RangesTile(sub, plan, periods, partEnd, to);
      TruncateMonotone(t, partEnd);
      TruncateMonotone(Max(periods(t).from, sub.activeFrom), t);
      var part, rest := PartRange(sub, plan, periods(t), t, partEnd), RangesFrom(sub, plan, periods, partEnd, to);
      TilesCons(RangesFrom(sub, plan, periods, t, to), part, rest, Truncate(to));
    }
  }

  lemma Regroup(a: seq<PricedRange>, b: seq<PricedRange>, c: seq<PricedRange>)
    ensures a + (b + c) == (a + b) + c
  {
  }

  /** The loop of cardRanges: advance from one billing period boundary to the next. */
  method SplitAtPeriods(sub: Subscription, plan: nat, periods: Recurrence, from: int, to: int)
    returns (out: seq<PricedRange>)
    requires sub.activeFrom <= from <= to
    ensures out == RangesFrom(sub, plan, periods, from, to)
    ensures Tiles(out, Truncate(from), Truncate(to))
  {
    out := [];
    var t := from;
    while t < to
      invariant from <= t <= to
      invariant out + RangesFrom(sub, plan, periods, t, to) == RangesFrom(sub, plan, periods, from, to)
      decreases -t + to
    {
      var period := periods(t);
      var partEnd := to;
      if period.to < partEnd {
        partEnd := period.to;
      }
      var part := PartRange(sub, plan, period, t, partEnd);
      ghost var rest := RangesFrom(sub, plan, periods, partEnd, to);
      Regroup(out, if part.from < part.to then [part] else [], rest);
      if part.from < part.to {
        out := out + [part];
      } else {
        assert out + [] == out;
      }
      t := partEnd;
    }
    assert out + [] == out;
    RangesTile(sub, plan, periods, from, to);
  }

  /** cardRanges. An unreadable cadence is an error; a card for another meter has no ranges. */
  method CardRanges(sub: Subscription, card: Card, planBySlug: map<string, nat>,
                    recurrence: (string, int) -> Option<Recurrence>, start: int, end: int)
    returns (r: Result<seq<PricedRange>, string>)
    ensures card.meterSlug !in planBySlug ==> r == Ok([])
    ensures
      var from, to := Max(sub.activeFrom, start), ActiveEnd(sub, end);
      var periods := recurrence(if card.cadence != "" then card.cadence else sub.cadence, sub.anchor);
      card.meterSlug in planBySlug ==>
        && (from >= to ==> r == Ok([]))
        && (from < to && periods.None? ==> r.Err?)
        && (from < to && periods.Some? ==>
              && r == Ok(RangesOf(sub, planBySlug[card.meterSlug], periods.value, start, end))
              && Tiles(r.value, Truncate(from), Truncate(to)))
  {
    if card.meterSlug !in planBySlug {
      return Ok([]);
    }
    var plan := planBySlug[card.meterSlug];
    var from := Max(sub.activeFrom, start);
    var to := end;
    if sub.activeTo.Some? && sub.activeTo.value < to {
      to := sub.activeTo.value;
    }
    if !(from < to) {
      return Ok([]);
    }
    var cadence := sub.cadence;
    if card.cadence != "" {
      cadence := card.cadence;
    }
    var parsed := recurrence(cadence, sub.anchor);
    if parsed.None? {
      return Err(cadence);
    }
    var periods := parsed.value;
    var out := SplitAtPeriods(sub, plan, periods, from, to);
    r := Ok(out);
  }

  /** One metered usage event that a card covers. */
  datatype Point = Point(at: int, value: real)

  ghost predicate NonNegative(points: seq<Point>) {
    forall i :: 0 <= i < |points| ==> points[i].value >= 0.0
  }

  /** The usage a Sum meter reports for [from, to). */
  function Usage(points: seq<Point>, from: int, to: int): real {
    if points == [] then 0.0
    else (if from <= points[0].at < to then points[0].value else 0.0) + Usage(points[1..], from, to)
  }

  lemma {:induction false} UsageAdds(points: seq<Point>, a: int, b: int, c: int)
    requires a <= b <= c && NonNegative(points)
    ensures Usage(points, a, c) == Usage(points, a, b) + Usage(points, b, c)
    ensures Usage(points, a, b) >= 0.0 && Usage(points, a, a) == 0.0
  {
    if points != [] {
      UsageAdds(points[1..], a, b, c);
    }
  }

  /** PriceUsage without rounding: converted quantities, rated, less the discount. */
  function Rate(card: Card, earlier: real, quantity: real): real
    requires card.factor > 0.0
  {
    LessDiscount(Charge(card.price, earlier / card.factor, quantity / card.factor), card.discount)
  }

  function LessDiscount(amount: real, discount: real): real {
    amount * (100.0 - discount) / 100.0
  }

  /** The rated amount of [from, to) after the usage of [earlierFrom, from). */
  function Amount(card: Card, points: seq<Point>, earlierFrom: int, from: int, to: int): real
    requires card.factor > 0.0
  {
    Rate(card, Usage(points, earlierFrom, from), Usage(points, from, to))
  }

  /** priceRange: no rating without usage, and no earlier usage for a unit price. */
  function PriceRange(card: Card, points: seq<Point>, r: PricedRange): real
    requires card.factor > 0.0
  {
    var quantity := Usage(points, r.from, r.to);
    if quantity == 0.0 then 0.0
    else
      var earlier :=
        if card.price.Graduated? && r.earlierFrom < r.from then Usage(points, r.earlierFrom, r.from) else 0.0;
      Rate(card, earlier, quantity)
  }

  function RangesSpend(card: Card, points: seq<Point>, ranges: seq<PricedRange>): real
    requires card.factor > 0.0
  {
    if ranges == [] then 0.0 else PriceRange(card, points, ranges[0]) + RangesSpend(card, points, ranges[1..])
  }

  lemma RateSplits(card: Card, earlier: real, q1: real, q2: real)
    requires card.factor > 0.0 && q1 >= 0.0 && q2 >= 0.0
    ensures Rate(card, earlier, q1 + q2) == Rate(card, earlier, q1) + Rate(card, earlier + q1, q2)
  {
    var f := card.factor;
    QuotientAdds(q1, q2, f);
    QuotientAdds(earlier, q1, f);
    ConvertedSplits(card.price, card.discount, earlier / f, q1 / f, q2 / f);
  }

  lemma ConvertedSplits(price: Price, discount: real, earlier: real, q1: real, q2: real)
    requires q1 >= 0.0 && q2 >= 0.0
    ensures LessDiscount(Charge(price, earlier, q1 + q2), discount)
            == LessDiscount(Charge(price, earlier, q1), discount)
               + LessDiscount(Charge(price, earlier + q1, q2), discount)
  {
    ChargeSplits(price, earlier, q1, q2);
    DiscountAdds(Charge(price, earlier, q1), Charge(price, earlier + q1, q2), discount);
  }

  lemma RateShortcuts(card: Card, earlier: real, quantity: real)
    requires card.factor > 0.0
    ensures Rate(card, earlier, 0.0) == 0.0
    ensures card.price.UnitPrice? ==> Rate(card, earlier, quantity) == Rate(card, 0.0, quantity)
  {
    QuotientAdds(earlier, 0.0, card.factor);
    ChargeSplits(card.price, earlier / card.factor, 0.0, 0.0);
  }

  lemma QuotientAdds(x: real, y: real, f: real)
    requires f > 0.0
    ensures (x + y) / f == x / f + y / f && 0.0 / f == 0.0
    ensures x >= 0.0 ==> x / f >= 0.0
    ensures y >= 0.0 ==> y / f >= 0.0
  {
  }

  lemma DiscountAdds(x: real, y: real, discount: real)
    ensures LessDiscount(x + y, discount) == LessDiscount(x, discount) + LessDiscount(y, discount)
  {
    Distributes(100.0 - discount, x, y);
  }

  lemma AmountSplits(card: Card, points: seq<Point>, e: int, a: int, b: int, c: int)
    requires card.factor > 0.0 && NonNegative(points) && e <= a <= b <= c
    ensures Amount(card, points, e, a, c) == Amount(card, points, e, a, b) + Amount(card, points, e, b, c)
  {
    UsageAdds(points, e, a, b);
    UsageAdds(points, a, b, c);
    UsageAdds(points, b, c, c);
    RateSplits(card, Usage(points, e, a), Usage(points, a, b), Usage(points, b, c));
  }

  /** The shortcuts of priceRange do not change the rated amount. */
  lemma PriceRangeIsAmount(card: Card, points: seq<Point>, r: PricedRange)
    requires card.factor > 0.0 && NonNegative(points) && r.earlierFrom <= r.from <= r.to
    ensures PriceRange(card, points, r) == Amount(card, points, r.earlierFrom, r.from, r.to)
  {
    UsageAdds(points, r.from, r.to, r.to);
    UsageAdds(points, r.from, r.from, r.to);
    RateShortcuts(card, Usage(points, r.earlierFrom, r.from), Usage(points, r.from, r.to));
  }

  /** The spend of [t, to): that of its ranges. */
  function SpendFrom(sub: Subscription, card: Card, points: seq<Point>, periods: Recurrence, t: int, to: int): real
    requires card.factor > 0.0
  {
    RangesSpend(card, points, RangesFrom(sub, 0, periods, t, to))
  }

  /** The first part of [t, to) costs its rated amount, whether or not it is long enough for a range. */
  lemma SpendStep(sub: Subscription, card: Card, points: seq<Point>, periods: Recurrence, t: int, to: int)
    requires card.factor > 0.0 && NonNegative(points) && sub.activeFrom <= t < to
    ensures
      var partEnd := if periods(t).to < to then periods(t).to else to;
      var r := PartRange(sub, 0, periods(t), t, partEnd);
      SpendFrom(sub, card, points, periods, t, to)
        == Amount(card, points, r.earlierFrom, r.from, r.to) + SpendFrom(sub, card, points, periods, partEnd, to)
  {
    var partEnd := if periods(t).to < to then periods(t).to else to;
    var r := PartRange(sub, 0, periods(t), t, partEnd);
    var rest := RangesFrom(sub, 0, periods, partEnd, to);
    TruncateMonotone(t, partEnd);
    TruncateMonotone(Max(periods(t).from, sub.activeFrom), t);
    PriceRangeIsAmount(card, points, r);
    if r.from < r.to {
      assert ([r] + rest)[1..] == rest;
    } else {
      UsageAdds(points, r.from, r.from, r.from);
      assert [] + rest == rest;
    }
  }

  /** The cut falls into the period that a is in. */
  lemma WithinPeriodSplits(sub: Subscription, card: Card, points: seq<Point>, periods: Recurrence, a: int, b: int,
                           c: int)
    requires card.factor > 0.0 && NonNegative(points) && sub.activeFrom <= a < b < c && b < periods(a).to
    ensures SpendFrom(sub, card, points, periods, a, c)
         == SpendFrom(sub, card, points, periods, a, b) + SpendFrom(sub, card, points, periods, b, c)
  {
    SpendStep(sub, card, points, periods, a, c);
    SpendStep(sub, card, points, periods, a, b);
    SpendStep(sub, card, points, periods, b, c);
    assert periods(b) == periods(a);
    var partEnd := if periods(a).to < c then periods(a).to else c;
    var e := Truncate(Max(periods(a).from, sub.activeFrom));
    TruncateMonotone(Max(periods(a).from, sub.activeFrom), a);
    TruncateMonotone(a, b);
    TruncateMonotone(b, partEnd);
    AmountSplits(card, points, e, Truncate(a), Truncate(b), Truncate(partEnd));
  }

  /** Spend is additive over time: cutting [a, c) at any instant b changes nothing. */
  lemma {:induction false} SpendFromSplits(sub: Subscription, card: Card, points: seq<Point>, periods: Recurrence,
                                           a: int, b: int, c: int)
    requires card.factor > 0.0 && NonNegative(points) && sub.activeFrom <= a <= b <= c
    ensures SpendFrom(sub, card, points, periods, a, c)
         == SpendFrom(sub, card, points, periods, a, b) + SpendFrom(sub, card, points, periods, b, c)
    decreases c - a
  {
    if a < b {
      var boundary := periods(a).to;
      if boundary <= b {
        SpendStep(sub, card, points, periods, a, c);
        SpendStep(sub, card, points, periods, a, b);
        SpendFromSplits(sub, card, points, periods, boundary, b, c);
      } else if b < c {
        WithinPeriodSplits(sub, card, points, periods, a, b, c);
      }
    }
  }

  /** The spend of a query [start, end) on one card of one subscription. */
  function CardSpend(sub: Subscription, card: Card, points: seq<Point>, periods: Recurrence, start: int, end: int): real
    requires card.factor > 0.0
  {
    RangesSpend(card, points, RangesOf(sub, 0, periods, start, end))
  }

  /** The same for queries, whatever part of them the subscription was active in. */
  lemma CardSpendSplits(sub: Subscription, card: Card, points: seq<Point>, periods: Recurrence, a: int, b: int, c: int)
    requires card.factor > 0.0 && NonNegative(points) && a <= b <= c
    ensures CardSpend(sub, card, points, periods, a, c)
         == CardSpend(sub, card, points, periods, a, b) + CardSpend(sub, card, points, periods, b, c)
  {
    var from, to := Max(sub.activeFrom, a), ActiveEnd(sub, c);
    if from < to {
      var cut := if b < from then from else if to < b then to else b;
      SpendFromSplits(sub, card, points, periods, from, cut, to);
    }
  }

  /**
   Over a whole billing period the spend is what one invoice line charges for all the usage of it while the subscription
   was active: its first period counts from its start, its last one up to its end.
   */
  lemma WholePeriodSpend(sub: Subscription, card: Card, points: seq<Point>, periods: Recurrence, t: int)
    requires card.factor > 0.0 && NonNegative(points)
    ensures
      var p := periods(t);
      var from := Max(p.from, sub.activeFrom);
      var to := Max(from, if sub.activeTo.Some? then Min(p.to, sub.activeTo.value) else p.to);
      CardSpend(sub, card, points, periods, p.from, p.to)
        == Rate(card, 0.0, Usage(points, Truncate(from), Truncate(to)))
  {
    var p := periods(t);
    var from, to := Max(sub.activeFrom, p.from), ActiveEnd(sub, p.to);
    UsageAdds(points, Truncate(from), Truncate(from), Truncate(from));
    if from < to {
      assert periods(from) == p;
      SpendStep(sub, card, points, periods, from, to);
    } else {
      RateShortcuts(card, 0.0, 0.0);
    }
  }

  // ---- What counts at all ----

  /** The points from lo on and before hi, in order. */
  function Within(points: seq<Point>, lo: int, hi: int): seq<Point> {
    if points == [] then []
    else (if lo <= points[0].at < hi then [points[0]] else []) + Within(points[1..], lo, hi)
  }

  lemma {:induction false} UsageWithin(points: seq<Point>, lo: int, hi: int, from: int, to: int)
    requires lo <= from && to <= hi
    ensures Usage(Within(points, lo, hi), from, to) == Usage(points, from, to)
  {
    if points != [] {
      UsageWithin(points[1..], lo, hi, from, to);
      var rest := Within(points[1..], lo, hi);
      if lo <= points[0].at < hi {
        assert ([points[0]] + rest)[1..] == rest;
      } else {
        assert [] + rest == rest;
      }
    }
  }

  /** A range between lo and hi, its earlier usage included, costs what it costs by the points between them. */
  lemma PriceWithin(card: Card, points: seq<Point>, lo: int, hi: int, r: PricedRange)
    requires card.factor > 0.0 && lo <= r.earlierFrom <= r.from <= r.to <= hi
    ensures PriceRange(card, Within(points, lo, hi), r) == PriceRange(card, points, r)
  {
    UsageWithin(points, lo, hi, r.from, r.to);
    UsageWithin(points, lo, hi, r.earlierFrom, r.from);
  }

  lemma {:induction false} SpendWithin(sub: Subscription, card: Card, points: seq<Point>, periods: Recurrence, t: int,
                                       to: int, lo: int, hi: int)
    requires card.factor > 0.0 && sub.activeFrom <= t && lo <= Truncate(sub.activeFrom) && Truncate(to) <= hi
    ensures SpendFrom(sub, card, Within(points, lo, hi), periods, t, to) == SpendFrom(sub, card, points, periods, t, to)
    decreases -t + to
  {
    if t < to {
      var partEnd := if periods(t).to < to then periods(t).to else to;
      SpendWithin(sub, card, points, periods, partEnd, to, lo, hi);
      var r, rest := PartRange(sub, 0, periods(t), t, partEnd), RangesFrom(sub, 0, periods, partEnd, to);
      TruncateMonotone(sub.activeFrom, Max(periods(t).from, sub.activeFrom));
      TruncateMonotone(Max(periods(t).from, sub.activeFrom), t);
      TruncateMonotone(t, partEnd);
      TruncateMonotone(partEnd, to);
      PriceWithin(card, points, lo, hi, r);
      if r.from < r.to {
        assert ([r] + rest)[1..] == rest;
      } else {
        assert [] + rest == rest;
      }
    }
  }

  /**
   Usage before the subscription, after it, or after the query never counts, not even towards the tiers: two lists of
   points that agree while the subscription is active cost the same in every query.
   */
  lemma OnlyActiveUsageCounts(sub: Subscription, card: Card, points: seq<Point>, others: seq<Point>,
                              periods: Recurrence, start: int, end: int)
    requires card.factor > 0.0
    requires var lo, hi := Truncate(sub.activeFrom), Truncate(ActiveEnd(sub, end));
      Within(points, lo, hi) == Within(others, lo, hi)
    ensures CardSpend(sub, card, points, periods, start, end) == CardSpend(sub, card, others, periods, start, end)
  {
    var from, to := Max(sub.activeFrom, start), ActiveEnd(sub, end);
    SpendWithin(sub, card, points, periods, from, to, Truncate(sub.activeFrom), Truncate(to));
    SpendWithin(sub, card, others, periods, from, to, Truncate(sub.activeFrom), Truncate(to));
  }

  predicate Overlaps(sub: Subscription, start: int, end: int) {
    sub.activeFrom < end && (sub.activeTo.None? || sub.activeTo.value > start)
  }

  /** One card of one of a customer's subscriptions, with the usage it covers and its billing periods. */
  datatype Line = Line(sub: Subscription, card: Card, points: seq<Point>, periods: Recurrence)

  ghost predicate ValidLine(line: Line) {
    line.card.factor > 0.0 && NonNegative(line.points)
  }

  /** customerRanges, priced: deleted, plan-less and non-overlapping subscriptions are skipped. */
  function CustomerSpend(lines: seq<Line>, start: int, end: int): real
    requires forall i :: 0 <= i < |lines| ==> ValidLine(lines[i])
  {
    if lines == [] then 0.0
    else
      var line := lines[0];
      assert ValidLine(line);
      (if line.sub.deleted || line.sub.planId.None? || !Overlaps(line.sub, start, end) then 0.0
       else CardSpend(line.sub, line.card, line.points, line.periods, start, end))
      + CustomerSpend(lines[1..], start, end)
  }

  /** Skipping a subscription that does not overlap the query loses nothing. */
  lemma SkippedSpendsNothing(line: Line, start: int, end: int)
    requires ValidLine(line) && start <= end && !Overlaps(line.sub, start, end)
    ensures CardSpend(line.sub, line.card, line.points, line.periods, start, end) == 0.0
  {
    assert RangesOf(line.sub, 0, line.periods, start, end) == [];
  }

  /** The lines of subscriptions that are not deleted and have a plan. */
  function Billed(lines: seq<Line>): (r: seq<Line>)
    ensures forall line :: line in r <==> line in lines && !line.sub.deleted && line.sub.planId.Some?
  {
    if lines == [] then []
    else (if lines[0].sub.deleted || lines[0].sub.planId.None? then [] else [lines[0]]) + Billed(lines[1..])
  }

  function LinesSpend(lines: seq<Line>, start: int, end: int): real
    requires forall line :: line in lines ==> ValidLine(line)
  {
    if lines == [] then 0.0
    else
      assert ValidLine(lines[0]);
      CardSpend(lines[0].sub, lines[0].card, lines[0].points, lines[0].periods, start, end)
      + LinesSpend(lines[1..], start, end)
  }

  /** What counts is every subscription that is not deleted and has a plan, and nothing else. */
  lemma {:induction false} CustomerSpendIsBilled(lines: seq<Line>, start: int, end: int)
    requires (forall i :: 0 <= i < |lines| ==> ValidLine(lines[i])) && start <= end
    ensures CustomerSpend(lines, start, end) == LinesSpend(Billed(lines), start, end)
  {
    if lines != [] {
      var line, rest := lines[0], Billed(lines[1..]);
      assert ValidLine(line);
      CustomerSpendIsBilled(lines[1..], start, end);
      if line.sub.deleted || line.sub.planId.None? {
        assert Billed(lines) == [] + rest == rest;
      } else {
        LinesSpendCons(line, rest, start, end);
        if !Overlaps(line.sub, start, end) {
          SkippedSpendsNothing(line, start, end);
        }
      }
    }
  }

  lemma LinesSpendCons(line: Line, rest: seq<Line>, start: int, end: int)
    requires ValidLine(line) && forall other :: other in rest ==> ValidLine(other)
    ensures LinesSpend([line] + rest, start, end)
            == CardSpend(line.sub, line.card, line.points, line.periods, start, end) + LinesSpend(rest, start, end)
  {
    assert ([line] + rest)[1..] == rest;
  }

  /** A customer's spend over [a, c) is that over [a, b) plus that over [b, c), for every instant b. */
  lemma {:induction false} CustomerSpendSplits(lines: seq<Line>, a: int, b: int, c: int)
    requires (forall i :: 0 <= i < |lines| ==> ValidLine(lines[i])) && a <= b <= c
    ensures CustomerSpend(lines, a, c) == CustomerSpend(lines, a, b) + CustomerSpend(lines, b, c)
  {
    if lines != [] {
      var line := lines[0];
      assert ValidLine(line);
      CustomerSpendSplits(lines[1..], a, b, c);
      CardSpendSplits(line.sub, line.card, line.points, line.periods, a, b, c);
      if !Overlaps(line.sub, a, b) {
        SkippedSpendsNothing(line, a, b);
      }
      if !Overlaps(line.sub, b, c) {
        SkippedSpendsNothing(line, b, c);
      }
      if !Overlaps(line.sub, a, c) {
        SkippedSpendsNothing(line, a, c);
      }
    }
  }

  /** Consecutive queries over a list of instants add up to the query over all of them. */
  function PiecewiseSpend(sub: Subscription, card: Card, points: seq<Point>, periods: Recurrence, cuts: seq<int>): real
    requires card.factor > 0.0
  {
    if |cuts| < 2 then 0.0
    else CardSpend(sub, card, points, periods, cuts[0], cuts[1]) + PiecewiseSpend(sub, card, points, periods, cuts[1..])
  }

  lemma {:induction false} BucketsAddUp(sub: Subscription, card: Card, points: seq<Point>, periods: Recurrence,
                                        cuts: seq<int>)
    requires card.factor > 0.0 && NonNegative(points) && cuts != []
    requires forall i, j :: 0 <= i < j < |cuts| ==> cuts[i] <= cuts[j]
    ensures PiecewiseSpend(sub, card, points, periods, cuts)
         == CardSpend(sub, card, points, periods, cuts[0], cuts[|cuts| - 1])
    decreases |cuts|
  {
    if |cuts| == 1 {
      assert RangesOf(sub, 0, periods, cuts[0], cuts[0]) == [];
    } else {
      BucketsAddUp(sub, card, points, periods, cuts[1..]);
      CardSpendSplits(sub, card, points, periods, cuts[0], cuts[1], cuts[|cuts| - 1]);
    }
  }
}
