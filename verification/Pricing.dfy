/**
 Usage prices as OpenMeter rates them: a unit price, or graduated tiers of unit prices.
 Money and quantities are exact reals.
 */
module Pricing {
  import opened Common

  /** upTo is the inclusive upper bound of the tier; the last tier may have none. */
  datatype Tier = Tier(upTo: Option<real>, unitPrice: real)

  datatype Price =
    | UnitPrice(amount: real)
    | Graduated(tiers: seq<Tier>)

  function Lesser(a: real, b: real): real {
    if a < b then a else b
  }

  function Greater(a: real, b: real): real {
    if a < b then b else a
  }

  /** How much of the usage between from and to falls in a tier that starts at lower. */
  function Overlap(lower: real, upTo: Option<real>, from: real, to: real): real {
    var upper := if upTo.Some? then upTo.value else Greater(lower, to);
    Greater(0.0, Lesser(upper, to) - Greater(lower, from))
  }

  /** How the usage between the running totals from and to spreads over tiers that start at lower. */
  function Portions(tiers: seq<Tier>, lower: real, from: real, to: real): (r: seq<real>)
    ensures |r| <= |tiers|
    decreases |tiers|
  {
    if tiers == [] then []
    else
      [Overlap(lower, tiers[0].upTo, from, to)]
      + (if tiers[0].upTo.None? then [] else Portions(tiers[1..], Greater(lower, tiers[0].upTo.value), from, to))
  }

  /** Each portion at its tier's unit price. */
  function Cost(tiers: seq<Tier>, portions: seq<real>): real
    requires |portions| <= |tiers|
  {
    if portions == [] then 0.0
    else tiers[0].unitPrice * portions[0] + Cost(tiers[1..], portions[1..])
  }

  function TierCharge(tiers: seq<Tier>, from: real, to: real): real {
    Cost(tiers, Portions(tiers, 0.0, from, to))
  }

  /** The charge for quantity units of usage that follow earlier units in the same billing period. */
  function Charge(price: Price, earlier: real, quantity: real): real {
    match price
    case UnitPrice(amount) => quantity * amount
    case Graduated(tiers) => TierCharge(tiers, earlier, earlier + quantity)
  }

  lemma OverlapSplits(lower: real, upTo: Option<real>, a: real, b: real, c: real)
    requires a <= b <= c
    ensures Overlap(lower, upTo, a, c) == Overlap(lower, upTo, a, b) + Overlap(lower, upTo, b, c)
  {
  }

  lemma {:induction false} PortionsSplit(tiers: seq<Tier>, lower: real, a: real, b: real, c: real)
    requires a <= b <= c
    ensures IsSum(Portions(tiers, lower, a, c), Portions(tiers, lower, a, b), Portions(tiers, lower, b, c))
    decreases |tiers|
  {
    if tiers != [] {
      var upTo := tiers[0].upTo;
      OverlapSplits(lower, upTo, a, b, c);
      var z, x, y := Overlap(lower, upTo, a, c), Overlap(lower, upTo, a, b), Overlap(lower, upTo, b, c);
      if upTo.None? {
        SumCons(z, x, y, [], [], []);
      } else {
        var rest, start := tiers[1..], Greater(lower, upTo.value);
        PortionsSplit(rest, start, a, b, c);
        SumCons(z, x, y, Portions(rest, start, a, c), Portions(rest, start, a, b), Portions(rest, start, b, c));
      }
    }
  }

  lemma SumCons(z: real, x: real, y: real, zs: seq<real>, xs: seq<real>, ys: seq<real>)
    requires z == x + y && IsSum(zs, xs, ys)
    ensures IsSum([z] + zs, [x] + xs, [y] + ys)
  {
  }

  ghost predicate IsSum(z: seq<real>, x: seq<real>, y: seq<real>) {
    |z| == |x| == |y| && forall i :: 0 <= i < |z| ==> z[i] == x[i] + y[i]
  }

  lemma {:induction false} CostAdds(tiers: seq<Tier>, z: seq<real>, x: seq<real>, y: seq<real>)
    requires IsSum(z, x, y) && |z| <= |tiers|
    ensures Cost(tiers, z) == Cost(tiers, x) + Cost(tiers, y)
    decreases |z|
  {
    if z != [] {
      CostAdds(tiers[1..], z[1..], x[1..], y[1..]);
      Distributes(tiers[0].unitPrice, x[0], y[0]);
    }
  }

  lemma Distributes(p: real, x: real, y: real)
    ensures p * (x + y) == p * x + p * y
  {
  }

  /** Rating usage in two consecutive parts, the second continuing from the first, changes nothing. */
  lemma ChargeSplits(price: Price, earlier: real, q1: real, q2: real)
    requires q1 >= 0.0 && q2 >= 0.0
    ensures Charge(price, earlier, q1 + q2) == Charge(price, earlier, q1) + Charge(price, earlier + q1, q2)
  {
    match price
    case UnitPrice(amount) => Distributes(amount, q1, q2);
    case Graduated(tiers) =>
      var mid, end := earlier + q1, earlier + q1 + q2;
      PortionsSplit(tiers, 0.0, earlier, mid, end);
      CostAdds(tiers, Portions(tiers, 0.0, earlier, end), Portions(tiers, 0.0, earlier, mid),
               Portions(tiers, 0.0, mid, end));
  }
}
