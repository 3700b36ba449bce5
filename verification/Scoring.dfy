/** The comparison the committee reads: five component scores and their weighted mean (internal/httpapi/sourcing.go). */
module Scoring {
  import opened Common

  datatype Risk = Low | Medium | High | Other

  /** What the score of a submitted bid is computed from; a submitted bid has an amount. */
  datatype Entry = Entry(amount: real, days: Option<int>, quality: Option<real>, risk: Risk, evaluations: seq<real>)

  datatype Weights = Weights(price: real, quality: real, delivery: real, risk: real, technical: real)
  {
    function Total(): real { price + quality + delivery + risk + technical }

    predicate NotNegative() { price >= 0.0 && quality >= 0.0 && delivery >= 0.0 && risk >= 0.0 && technical >= 0.0 }
  }

  /** The weights in force: the stored ones unless they add up to nothing. */
  function InForce(w: Weights): (r: Weights)
    ensures r.Total() != 0.0
    ensures w.NotNegative() ==> r.NotNegative() && r.Total() > 0.0
  {
    if w.Total() == 0.0 then Weights(30.0, 20.0, 15.0, 15.0, 20.0) else w
  }

  /** The smallest amount above zero. */
  function MinAmount(bids: seq<Entry>): (r: Option<real>)
    ensures forall b :: b in bids && b.amount > 0.0 ==> r.Some? && r.value <= b.amount
    ensures r.Some? ==> r.value > 0.0 && exists b :: b in bids && b.amount == r.value
  {
    if bids == [] then None
    else
      var front, b := bids[..|bids| - 1], bids[|bids| - 1];
      var before := MinAmount(front);
      assert forall x :: x in bids <==> x in front || x == b;
      if b.amount > 0.0 && (before.None? || b.amount < before.value) then Some(b.amount) else before
  }

  predicate PositiveDays(b: Entry) { b.days.Some? && b.days.value > 0 }

  function MinDays(bids: seq<Entry>): (r: Option<int>)
    ensures forall b :: b in bids && PositiveDays(b) ==> r.Some? && r.value <= b.days.value
    ensures r.Some? ==> r.value > 0 && exists b :: b in bids && b.days == r
  {
    if bids == [] then None
    else
      var front, b := bids[..|bids| - 1], bids[|bids| - 1];
      var before := MinDays(front);
      assert forall x :: x in bids <==> x in front || x == b;
      if PositiveDays(b) && (before.None? || b.days.value < before.value) then b.days else before
  }

  // The component scores of one bid, given the two minima.

  function Price(b: Entry, min: Option<real>): real {
    if b.amount > 0.0 && min.Some? then 100.0 * min.value / b.amount else 0.0
  }

  function Delivery(b: Entry, min: Option<int>): real {
    if PositiveDays(b) && min.Some? then 100.0 * (min.value as real) / (b.days.value as real) else 50.0
  }

  function Quality(b: Entry): real { if b.quality.Some? then b.quality.value else 50.0 }

  function RiskScore(b: Entry): real {
    match b.risk
    case Low => 100.0
    case Medium => 70.0
    case High => 30.0
    case Other => 0.0
  }

  function Sum(xs: seq<real>): real {
    if xs == [] then 0.0 else Sum(xs[..|xs| - 1]) + xs[|xs| - 1]
  }

  function Technical(b: Entry): real {
    if b.evaluations == [] then 50.0 else Sum(b.evaluations) / (|b.evaluations| as real)
  }

  function Times(x: real, y: real): real { x * y }

  /** The bid's score apart from its price, times the total weight. */
  function Others(b: Entry, min: Option<int>, w: Weights): real {
    Times(Quality(b), w.quality) + Times(Delivery(b, min), w.delivery) + Times(RiskScore(b), w.risk)
    + Times(Technical(b), w.technical)
  }

  /** The weighted mean of a price score and the rest. */
  function Blend(price: real, others: real, w: Weights): real
    requires w.Total() != 0.0
  {
    (Times(price, w.price) + others) / w.Total()
  }

  function Score(b: Entry, minAmount: Option<real>, minDays: Option<int>, w: Weights): real
    requires w.Total() != 0.0
  {
    Blend(Price(b, minAmount), Others(b, minDays, w), w)
  }

  function Final(bids: seq<Entry>, i: nat, w: Weights): real
    requires i < |bids|
  {
    Score(bids[i], MinAmount(bids), MinDays(bids), InForce(w))
  }

  predicate InScale(x: real) { 0.0 <= x <= 100.0 }

  /** What the columns hold: amounts not negative, scores on the scale. */
  predicate Sound(b: Entry) {
    && b.amount >= 0.0
    && (b.quality.Some? ==> InScale(b.quality.value))
    && forall k :: 0 <= k < |b.evaluations| ==> InScale(b.evaluations[k])
  }

  // Arithmetic.

  lemma Ratio(m: real, a: real)
    requires 0.0 < m <= a
    ensures 0.0 < 100.0 * m / a <= 100.0
    ensures 100.0 * m / a == 100.0 <==> m == a
  {
    var r := 100.0 * m / a;
    assert r * a == 100.0 * m;
    assert r <= 0.0 ==> r * a <= 0.0;
    assert r > 100.0 ==> r * a > 100.0 * a;
  }

  lemma NotNegative(x: real, y: real)
    requires x >= 0.0 && y >= 0.0
    ensures x * y >= 0.0
  {
  }

  lemma Scale(w: real, x: real, y: real)
    requires w >= 0.0 && x <= y
    ensures x * w <= y * w
  {
    NotNegative(y - x, w);
    assert (y - x) * w == y * w - x * w;
  }

  lemma Divide(x: real, y: real, t: real)
    requires t > 0.0 && x <= y
    ensures x / t <= y / t
  {
  }

  /** A ratio grows with its numerator and as its denominator shrinks. */
  lemma RatioGrows(m: real, a: real, n: real, b: real)
    requires 0.0 < m <= n && 0.0 < b <= a
    ensures 100.0 * m / a <= 100.0 * n / b
  {
    var q := 100.0 * n / b;
    assert q * b == 100.0 * n;
    assert q <= 0.0 ==> q * b <= 0.0;
    Scale(q, b, a);
    Divide(100.0 * m, q * a, a);
    assert q * a / a == q;
  }

  lemma {:induction false} SumInScale(xs: seq<real>)
    requires forall k :: 0 <= k < |xs| ==> InScale(xs[k])
    ensures 0.0 <= Sum(xs) <= 100.0 * (|xs| as real)
  {
    if xs != [] {
      SumInScale(xs[..|xs| - 1]);
    }
  }

  lemma MeanInScale(xs: seq<real>)
    requires xs != [] && forall k :: 0 <= k < |xs| ==> InScale(xs[k])
    ensures InScale(Sum(xs) / (|xs| as real))
  {
    SumInScale(xs);
    var n := |xs| as real;
    Divide(0.0, Sum(xs), n);
    Divide(Sum(xs), 100.0 * n, n);
    assert 100.0 * n / n == 100.0;
  }

  // The range.

  lemma PriceInScale(b: Entry, min: Option<real>)
    requires b.amount > 0.0 ==> min.Some? && 0.0 < min.value <= b.amount
    ensures InScale(Price(b, min))
    ensures Price(b, min) == 100.0 <==> b.amount > 0.0 && min.value == b.amount
  {
    if b.amount > 0.0 {
      Ratio(min.value, b.amount);
    }
  }

  lemma DeliveryInScale(b: Entry, min: Option<int>)
    requires PositiveDays(b) ==> min.Some? && 0 < min.value <= b.days.value
    ensures InScale(Delivery(b, min))
    ensures Delivery(b, min) == 100.0 <==> PositiveDays(b) && min.value == b.days.value
  {
    if PositiveDays(b) {
      Ratio(min.value as real, b.days.value as real);
    }
  }

  lemma MarksInScale(b: Entry)
    requires Sound(b)
    ensures InScale(Quality(b)) && InScale(RiskScore(b)) && InScale(Technical(b))
  {
    hide Sum;
    if b.evaluations != [] {
      MeanInScale(b.evaluations);
    }
  }

  lemma ComponentsInScale(bids: seq<Entry>, i: nat)
    requires i < |bids| && Sound(bids[i])
    ensures InScale(Price(bids[i], MinAmount(bids)))
    ensures InScale(Delivery(bids[i], MinDays(bids)))
    ensures InScale(Quality(bids[i])) && InScale(RiskScore(bids[i])) && InScale(Technical(bids[i]))
  {
    hide Price, Delivery, Quality, RiskScore, Technical;
    var b := bids[i];
    assert b in bids;
    PriceInScale(b, MinAmount(bids));
    DeliveryInScale(b, MinDays(bids));
    hide Sound;
    MarksInScale(b);
  }

  lemma Weighted(x: real, w: real)
    requires InScale(x) && w >= 0.0
    ensures 0.0 <= Times(x, w) <= 100.0 * w
  {
    NotNegative(x, w);
    NotNegative(100.0 - x, w);
    assert (100.0 - x) * w == 100.0 * w - x * w;
  }

  lemma OthersInScale(b: Entry, min: Option<int>, w: Weights)
    requires InScale(Quality(b)) && InScale(Delivery(b, min)) && InScale(RiskScore(b)) && InScale(Technical(b)) && w.NotNegative()
    ensures 0.0 <= Others(b, min, w) <= 100.0 * (w.quality + w.delivery + w.risk + w.technical)
  {
    hide Times, Quality, Delivery, RiskScore, Technical;
    Weighted(Quality(b), w.quality);
    Weighted(Delivery(b, min), w.delivery);
    Weighted(RiskScore(b), w.risk);
    Weighted(Technical(b), w.technical);
  }

  lemma BlendInScale(price: real, others: real, w: Weights)
    requires InScale(price) && w.NotNegative() && w.Total() > 0.0
    requires 0.0 <= others <= 100.0 * (w.quality + w.delivery + w.risk + w.technical)
    ensures InScale(Blend(price, others, w))
  {
    hide Times;
    Weighted(price, w.price);
    var sum, total := Times(price, w.price) + others, w.Total();
    assert sum <= 100.0 * total;
    MeanBound(sum, total);
    assert InScale(sum / total) && Blend(price, others, w) == sum / total;
  }

  lemma MeanBound(sum: real, total: real)
    requires total > 0.0 && 0.0 <= sum <= 100.0 * total
    ensures 0.0 <= sum / total <= 100.0
  {
    Divide(0.0, sum, total);
    Divide(sum, 100.0 * total, total);
    assert 100.0 * total / total == 100.0;
  }

  /** With weights that are not negative every final score is on the scale. */
  lemma FinalInScale(bids: seq<Entry>, i: nat, w: Weights)
    requires i < |bids| && Sound(bids[i]) && w.NotNegative()
    ensures InScale(Final(bids, i, w))
  {
    hide Price, Delivery, Quality, RiskScore, Technical, Others, Blend;
    ComponentsInScale(bids, i);
    OthersInScale(bids[i], MinDays(bids), InForce(w));
    BlendInScale(Price(bids[i], MinAmount(bids)), Others(bids[i], MinDays(bids), InForce(w)), InForce(w));
  }

  /** Full marks for price mean the smallest positive amount. */
  lemma FullPriceExactly(bids: seq<Entry>, i: nat)
    requires i < |bids| && bids[i].amount >= 0.0
    ensures Price(bids[i], MinAmount(bids)) == 100.0 <==>
            bids[i].amount > 0.0 && forall b :: b in bids && b.amount > 0.0 ==> bids[i].amount <= b.amount
  {
    hide Price;
    assert bids[i] in bids;
    PriceInScale(bids[i], MinAmount(bids));
  }

  /** Likewise full marks for delivery, among the bids that state a positive number of days. */
  lemma FullDeliveryExactly(bids: seq<Entry>, i: nat)
    requires i < |bids|
    ensures Delivery(bids[i], MinDays(bids)) == 100.0 <==>
            PositiveDays(bids[i]) && forall b :: b in bids && PositiveDays(b) ==> bids[i].days.value <= b.days.value
  {
    hide Delivery;
    assert bids[i] in bids;
    DeliveryInScale(bids[i], MinDays(bids));
  }

  lemma Alone(x: real, w: real)
    requires w > 0.0
    ensures Times(x, w) / w == x && Times(x, 0.0) == 0.0
  {
  }

  /** With all the weight on one component the final score is that component, with 50 for a quality, delivery or evaluation that is not there. */
  lemma OneWeightDecides(bids: seq<Entry>, i: nat, x: real)
    requires i < |bids| && x > 0.0
    ensures Final(bids, i, Weights(x, 0.0, 0.0, 0.0, 0.0)) == Price(bids[i], MinAmount(bids))
    ensures Final(bids, i, Weights(0.0, x, 0.0, 0.0, 0.0)) == if bids[i].quality.Some? then bids[i].quality.value else 50.0
    ensures Final(bids, i, Weights(0.0, 0.0, x, 0.0, 0.0)) == Delivery(bids[i], MinDays(bids))
    ensures bids[i].days.None? || bids[i].days.value <= 0 ==> Final(bids, i, Weights(0.0, 0.0, x, 0.0, 0.0)) == 50.0
    ensures Final(bids, i, Weights(0.0, 0.0, 0.0, x, 0.0))
            == match bids[i].risk { case Low => 100.0 case Medium => 70.0 case High => 30.0 case Other => 0.0 }
    ensures Final(bids, i, Weights(0.0, 0.0, 0.0, 0.0, x)) == Technical(bids[i])
    ensures |bids[i].evaluations| == 0 ==> Final(bids, i, Weights(0.0, 0.0, 0.0, 0.0, x)) == 50.0
  {
    OneMark(bids, i, x);
    hide Final, Price;
  }

  lemma OneMark(bids: seq<Entry>, i: nat, x: real)
    requires i < |bids| && x > 0.0
    ensures Final(bids, i, Weights(x, 0.0, 0.0, 0.0, 0.0)) == Price(bids[i], MinAmount(bids))
    ensures Final(bids, i, Weights(0.0, x, 0.0, 0.0, 0.0)) == Quality(bids[i])
    ensures Final(bids, i, Weights(0.0, 0.0, x, 0.0, 0.0)) == Delivery(bids[i], MinDays(bids))
    ensures Final(bids, i, Weights(0.0, 0.0, 0.0, x, 0.0)) == RiskScore(bids[i])
    ensures Final(bids, i, Weights(0.0, 0.0, 0.0, 0.0, x)) == Technical(bids[i])
  {
    hide Price, Delivery, Quality, RiskScore, Technical, Times;
    var b := bids[i];
    Alone(Price(b, MinAmount(bids)), x);
    Alone(Quality(b), x);
    Alone(Delivery(b, MinDays(bids)), x);
    Alone(RiskScore(b), x);
    Alone(Technical(b), x);
  }

  // What the score is made of.

  lemma {:induction false} SumAdds(xs: seq<real>, ys: seq<real>)
    ensures Sum(xs + ys) == Sum(xs) + Sum(ys)
    ensures |xs| == 1 ==> Sum(xs) == xs[0]
  {
    if |xs| == 1 {
      assert xs[..0] == [];
    }
    if ys == [] {
      assert xs + ys == xs;
    } else {
      assert (xs + ys)[..|xs + ys| - 1] == xs + ys[..|ys| - 1];
      SumAdds(xs, ys[..|ys| - 1]);
    }
  }

  lemma DividedBack(x: real, t: real)
    requires t != 0.0
    ensures x / t * t == x
  {
  }

  /** The weights in force are the stored ones, or 30, 20, 15, 15 and 20 when those add up to nothing. */
  lemma DefaultWeights(bids: seq<Entry>, i: nat, w: Weights)
    requires i < |bids| && w.price + w.quality + w.delivery + w.risk + w.technical == 0.0
    ensures Final(bids, i, w) == Final(bids, i, Weights(30.0, 20.0, 15.0, 15.0, 20.0))
  {
    hide Score, MinAmount, MinDays;
  }

  /** What the five marks of a bid are, given the least positive amount and the least positive days. */
  predicate AreTheMarks(b: Entry, least: real, quick: int, price: real, quality: real, delivery: real, risk: real, technical: real) {
    && price == (if b.amount > 0.0 then 100.0 * least / b.amount else 0.0)
    && quality == (if b.quality.Some? then b.quality.value else 50.0)
    && delivery == (if b.days.Some? && b.days.value > 0 then 100.0 * (quick as real) / (b.days.value as real) else 50.0)
    && risk == (if b.risk == Low then 100.0 else if b.risk == Medium then 70.0 else if b.risk == High then 30.0 else 0.0)
    && technical == (if |b.evaluations| == 0 then 50.0 else Sum(b.evaluations) / (|b.evaluations| as real))
  }

  predicate IsMean(final: real, w: Weights, price: real, quality: real, delivery: real, risk: real, technical: real) {
    final * (w.price + w.quality + w.delivery + w.risk + w.technical)
    == price * w.price + quality * w.quality + delivery * w.delivery + risk * w.risk + technical * w.technical
  }

  /** No bid with a positive amount undercuts least, and some bid has it. */
  predicate IsLeast(bids: seq<Entry>, least: real) {
    && least > 0.0 && (exists k :: 0 <= k < |bids| && bids[k].amount == least)
    && forall k :: 0 <= k < |bids| && bids[k].amount > 0.0 ==> least <= bids[k].amount
  }

  predicate IsQuickest(bids: seq<Entry>, quick: int) {
    && quick > 0 && (exists k :: 0 <= k < |bids| && bids[k].days == Some(quick))
    && forall k :: 0 <= k < |bids| && bids[k].days.Some? && bids[k].days.value > 0 ==> quick <= bids[k].days.value
  }

  /**
   * The final score is the weighted mean of five marks: the price against the cheapest bid, the supplier's score, the
   * delivery against the quickest, 100, 70, 30 or 0 by risk, and the mean evaluation; with 50 for each that is not there.
   */
  lemma FinalExactly(bids: seq<Entry>, i: nat, w: Weights, least: real, quick: int,
      price: real, quality: real, delivery: real, risk: real, technical: real)
    requires i < |bids| && w.price + w.quality + w.delivery + w.risk + w.technical != 0.0
    requires bids[i].amount > 0.0 ==> IsLeast(bids, least)
    requires bids[i].days.Some? && bids[i].days.value > 0 ==> IsQuickest(bids, quick)
    requires AreTheMarks(bids[i], least, quick, price, quality, delivery, risk, technical)
    ensures IsMean(Final(bids, i, w), w, price, quality, delivery, risk, technical)
  {
    hide IsMean, AreTheMarks, IsLeast, IsQuickest, MinAmount, MinDays, Score;
    if bids[i].amount > 0.0 { LeastAmount(bids, i, least); }
    if PositiveDays(bids[i]) { LeastDays(bids, i, quick); }
    MarksOf(bids[i], MinAmount(bids), MinDays(bids), least, quick, price, quality, delivery, risk, technical);
    ScoreIsMean(bids[i], MinAmount(bids), MinDays(bids), w, price, quality, delivery, risk, technical);
    var score := Score(bids[i], MinAmount(bids), MinDays(bids), w);
    assert Final(bids, i, w) == score by { WeightsStand(w); }
  }

  lemma WeightsStand(w: Weights)
    requires w.Total() != 0.0
    ensures InForce(w) == w
  {
  }

  lemma MarksOf(b: Entry, min: Option<real>, days: Option<int>, least: real, quick: int,
      price: real, quality: real, delivery: real, risk: real, technical: real)
    requires b.amount > 0.0 ==> min == Some(least)
    requires PositiveDays(b) ==> days == Some(quick)
    requires AreTheMarks(b, least, quick, price, quality, delivery, risk, technical)
    ensures Price(b, min) == price && Quality(b) == quality && Delivery(b, days) == delivery
    ensures RiskScore(b) == risk && Technical(b) == technical
  {
  }

  lemma ScoreIsMean(b: Entry, min: Option<real>, days: Option<int>, w: Weights,
      price: real, quality: real, delivery: real, risk: real, technical: real)
    requires w.Total() != 0.0
    requires Price(b, min) == price && Quality(b) == quality && Delivery(b, days) == delivery
    requires RiskScore(b) == risk && Technical(b) == technical
    ensures IsMean(Score(b, min, days, w), w, price, quality, delivery, risk, technical)
  {
    hide Price, Delivery, Quality, RiskScore, Technical;
    DividedBack(Times(price, w.price) + Others(b, days, w), w.Total());
  }

  lemma LeastAmount(bids: seq<Entry>, i: nat, least: real)
    requires i < |bids| && bids[i].amount > 0.0 && IsLeast(bids, least)
    ensures MinAmount(bids) == Some(least)
  {
    assert bids[i] in bids;
    var m := MinAmount(bids).value;
    var k :| 0 <= k < |bids| && bids[k].amount == least;
    assert bids[k] in bids && m <= least;
    var b :| b in bids && b.amount == m;
    var l :| 0 <= l < |bids| && bids[l] == b;
    assert least <= bids[l].amount;
  }

  lemma LeastDays(bids: seq<Entry>, i: nat, quick: int)
    requires i < |bids| && PositiveDays(bids[i]) && IsQuickest(bids, quick)
    ensures MinDays(bids) == Some(quick)
  {
    assert bids[i] in bids;
    var m := MinDays(bids).value;
    var k :| 0 <= k < |bids| && bids[k].days == Some(quick);
    assert bids[k] in bids && m <= quick;
    var b :| b in bids && b.days == Some(m);
    var l :| 0 <= l < |bids| && bids[l] == b;
    assert quick <= bids[l].days.value;
  }

  predicate Safer(a: Risk, b: Risk) {
    (a == Low && b != Low) || (a == Medium && (b == High || b == Other)) || (a == High && b == Other)
  }

  lemma OthersBySaferRisk(b: Entry, c: Entry, min: Option<int>, w: Weights)
    requires c == b.(risk := c.risk) && Safer(b.risk, c.risk) && w.NotNegative()
    ensures Others(c, min, w) <= Others(b, min, w)
    ensures w.risk > 0.0 ==> Others(c, min, w) < Others(b, min, w)
  {
    var x, y := RiskScore(b), RiskScore(c);
    assert x > y;
    NotNegative(x - y, w.risk);
    if w.risk > 0.0 {
      Product(w.risk, x - y);
    }
    assert (x - y) * w.risk == x * w.risk - y * w.risk;
    assert Times(x, w.risk) - Times(y, w.risk) == (x - y) * w.risk;
  }

  lemma BlendByOthers(p: real, x: real, y: real, w: Weights)
    requires w.Total() > 0.0
    ensures x <= y ==> Blend(p, x, w) <= Blend(p, y, w)
    ensures x < y ==> Blend(p, x, w) < Blend(p, y, w)
  {
    var a, b, t := Times(p, w.price) + x, Times(p, w.price) + y, w.Total();
    DividedBack(a, t);
    DividedBack(b, t);
    if x <= y {
      Divide(a, b, t);
    }
  }

  // The order.

  /** The comparison's order: final score downward, then amount upward. */
  predicate Before(bids: seq<Entry>, w: Weights, i: nat, j: nat)
    requires i < |bids| && j < |bids|
  {
    || Final(bids, i, w) > Final(bids, j, w)
    || (Final(bids, i, w) == Final(bids, j, w) && bids[i].amount < bids[j].amount)
  }

  /** How many of the first n bids stand before bid i. */
  function Rank(bids: seq<Entry>, w: Weights, i: nat, n: nat): nat
    requires i < |bids| && n <= |bids|
  {
    if n == 0 then 0 else Rank(bids, w, i, n - 1) + if Before(bids, w, n - 1, i) then 1 else 0
  }

  /** Of two bids alike but for the risk, the safer one never stands behind, and stands in front when risk has weight. */
  lemma SaferIsAhead(bids: seq<Entry>, w: Weights, i: nat, j: nat)
    requires i < |bids| && j < |bids| && w.NotNegative()
    requires bids[j] == bids[i].(risk := bids[j].risk) && Safer(bids[i].risk, bids[j].risk)
    ensures !Before(bids, w, j, i)
    ensures w.risk > 0.0 ==> Before(bids, w, i, j) && Final(bids, i, w) > Final(bids, j, w)
  {
    hide Others, Blend, MinAmount, MinDays;
    OthersBySaferRisk(bids[i], bids[j], MinDays(bids), InForce(w));
    BlendByOthers(Price(bids[i], MinAmount(bids)), Others(bids[j], MinDays(bids), InForce(w)),
                  Others(bids[i], MinDays(bids), InForce(w)), InForce(w));
  }

  /** A bid's place is the number of bids with a higher final score, or the same and a smaller amount. */
  lemma {:induction false} RankCounts(bids: seq<Entry>, w: Weights, i: nat, n: nat)
    requires i < |bids| && n <= |bids|
    ensures Rank(bids, w, i, n)
            == |set k | 0 <= k < n && (Final(bids, k, w) > Final(bids, i, w)
                                       || (Final(bids, k, w) == Final(bids, i, w) && bids[k].amount < bids[i].amount))|
    decreases n
  {
    hide Final;
    if n != 0 {
      RankCounts(bids, w, i, n - 1);
      var before := set k | 0 <= k < n - 1 && (Final(bids, k, w) > Final(bids, i, w)
                            || (Final(bids, k, w) == Final(bids, i, w) && bids[k].amount < bids[i].amount));
      var all := set k | 0 <= k < n && (Final(bids, k, w) > Final(bids, i, w)
                         || (Final(bids, k, w) == Final(bids, i, w) && bids[k].amount < bids[i].amount));
      assert all == before + if Before(bids, w, n - 1, i) then {n - 1} else {};
    }
  }

  function Lowered(bids: seq<Entry>, i: nat, amount: real): seq<Entry>
    requires i < |bids|
  {
    bids[i := bids[i].(amount := amount)]
  }

  lemma MinAmountLowered(bids: seq<Entry>, i: nat, amount: real)
    requires i < |bids| && 0.0 < amount <= bids[i].amount
    ensures var m, n := MinAmount(bids), MinAmount(Lowered(bids, i, amount));
            m.Some? && n.Some? && 0.0 < n.value <= m.value && (n.value == m.value || n.value == amount)
  {
    var after := Lowered(bids, i, amount);
    assert bids[i] in bids && after[i] in after;
    var m, n := MinAmount(bids), MinAmount(after);
    var b :| b in bids && b.amount == m.value;
    var k :| 0 <= k < |bids| && bids[k] == b;
    assert after[k] in after && after[k].amount <= b.amount;
    var c :| c in after && c.amount == n.value;
    var l :| 0 <= l < |after| && after[l] == c;
    assert l != i ==> bids[l] == c && c in bids;
  }

  lemma {:induction false} MinDaysSame(bids: seq<Entry>, other: seq<Entry>)
    requires |bids| == |other| && forall k :: 0 <= k < |bids| ==> bids[k].days == other[k].days
    ensures MinDays(bids) == MinDays(other)
  {
    if bids != [] {
      MinDaysSame(bids[..|bids| - 1], other[..|other| - 1]);
    }
  }

  lemma OthersIgnoreAmount(b: Entry, amount: real, d: Option<int>, w: Weights)
    ensures Others(b.(amount := amount), d, w) == Others(b, d, w)
  {
  }

  lemma ScoreGrows(b: Entry, c: Entry, m: Option<real>, n: Option<real>, d: Option<int>, w: Weights)
    requires w.NotNegative() && w.Total() > 0.0 && c == b.(amount := c.amount)
    requires Price(b, m) <= Price(c, n)
    ensures Score(b, m, d, w) <= Score(c, n, d, w)
  {
    hide Price, Others, Blend;
    OthersIgnoreAmount(b, c.amount, d, w);
    BlendGrows(Price(b, m), Price(c, n), Others(b, d, w), w);
  }

  lemma BlendGrows(p: real, q: real, others: real, w: Weights)
    requires w.NotNegative() && w.Total() > 0.0 && p <= q
    ensures Blend(p, others, w) <= Blend(q, others, w)
  {
    Scale(w.price, p, q);
    Divide(Times(p, w.price) + others, Times(q, w.price) + others, w.Total());
  }

  lemma PriceGrows(b: Entry, c: Entry, m: real, n: real)
    requires 0.0 < m && 0.0 < n && (b.amount > 0.0 ==> c.amount > 0.0 && m <= b.amount)
    requires n == c.amount || (m <= n && c.amount <= b.amount)
    ensures Price(b, Some(m)) <= Price(c, Some(n))
  {
    if b.amount > 0.0 {
      if n == c.amount {
        Ratio(m, b.amount);
        Ratio(n, n);
      } else {
        RatioGrows(m, b.amount, n, c.amount);
      }
    } else if c.amount > 0.0 {
      Divide(0.0, 100.0 * n, c.amount);
    }
  }

  /** A bidder's own score does not fall, and nobody else's rises. */
  lemma LoweringMoves(bids: seq<Entry>, w: Weights, i: nat, j: nat, amount: real)
    requires i < |bids| && j < |bids| && 0.0 < amount <= bids[i].amount && bids[j].amount >= 0.0 && w.NotNegative()
    ensures j == i ==> Final(bids, i, w) <= Final(Lowered(bids, i, amount), i, w)
    ensures j != i ==> Final(Lowered(bids, i, amount), j, w) <= Final(bids, j, w)
  {
    hide Price, Score;
    var after := Lowered(bids, i, amount);
    MinAmountLowered(bids, i, amount);
    MinDaysSame(bids, after);
    var m, n := MinAmount(bids), MinAmount(after);
    assert bids[i] in bids && after[j] in after && bids[j] in bids;
    if j == i {
      PriceGrows(bids[i], after[i], m.value, n.value);
      ScoreGrows(bids[i], after[i], m, n, MinDays(bids), InForce(w));
    } else {
      PriceGrows(after[j], bids[j], n.value, m.value);
      ScoreGrows(after[j], bids[j], n, m, MinDays(bids), InForce(w));
    }
  }

  lemma {:induction false} RankFalls(bids: seq<Entry>, w: Weights, i: nat, amount: real, n: nat)
    requires i < |bids| && n <= |bids| && 0.0 < amount <= bids[i].amount && w.NotNegative()
    requires forall j :: 0 <= j < |bids| ==> bids[j].amount >= 0.0
    ensures Rank(Lowered(bids, i, amount), w, i, n) <= Rank(bids, w, i, n)
    decreases n
  {
    hide Final;
    if n != 0 {
      RankFalls(bids, w, i, amount, n - 1);
      LoweringMoves(bids, w, i, i, amount);
      LoweringMoves(bids, w, i, n - 1, amount);
    }
  }

  /** Lowering one's own positive amount never worsens one's place in the comparison. */
  lemma LoweringNeverHurts(bids: seq<Entry>, w: Weights, i: nat, amount: real)
    requires i < |bids| && 0.0 < amount <= bids[i].amount && w.NotNegative()
    requires forall j :: 0 <= j < |bids| ==> bids[j].amount >= 0.0
    ensures Rank(Lowered(bids, i, amount), w, i, |bids|) <= Rank(bids, w, i, |bids|)
  {
    RankFalls(bids, w, i, amount, |bids|);
  }

  // Invariances.

  function Scaled(bids: seq<Entry>, c: real): (r: seq<Entry>)
    ensures |r| == |bids| && forall k :: 0 <= k < |r| ==> r[k] == bids[k].(amount := Times(c, bids[k].amount))
  {
    if bids == [] then []
    else
      var last := bids[|bids| - 1];
      Scaled(bids[..|bids| - 1], c) + [last.(amount := Times(c, last.amount))]
  }

  lemma Product(c: real, x: real)
    requires c > 0.0
    ensures (c * x > 0.0 <==> x > 0.0) && (c * x < 0.0 <==> x < 0.0)
  {
  }

  lemma Keeps(c: real, x: real, y: real)
    requires c > 0.0
    ensures (Times(c, x) > 0.0 <==> x > 0.0) && (Times(c, x) < Times(c, y) <==> x < y)
  {
    assert c * x - c * y == c * (x - y);
    Product(c, x);
    Product(c, x - y);
  }

  lemma {:induction false} MinAmountScaled(bids: seq<Entry>, c: real)
    requires c > 0.0
    ensures MinAmount(Scaled(bids, c)) == match MinAmount(bids) { case None => None case Some(m) => Some(Times(c, m)) }
  {
    hide Times;
    if bids != [] {
      var front, last := bids[..|bids| - 1], bids[|bids| - 1];
      MinAmountScaled(front, c);
      var scaled := Scaled(front, c) + [last.(amount := Times(c, last.amount))];
      assert scaled[..|scaled| - 1] == Scaled(front, c);
      Keeps(c, last.amount, if MinAmount(front).Some? then MinAmount(front).value else 0.0);
    }
  }

  lemma PriceScaled(b: Entry, c: real, m: Option<real>)
    requires c > 0.0
    ensures Price(b.(amount := Times(c, b.amount)), match m { case None => None case Some(x) => Some(Times(c, x)) }) == Price(b, m)
  {
    Product(c, b.amount);
    if b.amount > 0.0 && m.Some? {
      var r := 100.0 * m.value / b.amount;
      assert r * b.amount == 100.0 * m.value;
      assert r * (c * b.amount) == c * (r * b.amount) == 100.0 * (c * m.value);
    }
  }

  /** Counting every amount in another unit changes no score. */
  lemma UnitDoesNotMatter(bids: seq<Entry>, w: Weights, i: nat, c: real)
    requires i < |bids| && c > 0.0
    ensures Final(Scaled(bids, c), i, w) == Final(bids, i, w)
  {
    hide Times, Price, Others, Blend;
    MinAmountScaled(bids, c);
    MinDaysSame(bids, Scaled(bids, c));
    PriceScaled(bids[i], c, MinAmount(bids));
    OthersIgnoreAmount(bids[i], Times(c, bids[i].amount), MinDays(bids), InForce(w));
  }

  /** A further bid that undercuts neither minimum leaves every score as it was. */
  lemma NewcomerDoesNotMatter(bids: seq<Entry>, w: Weights, i: nat, b: Entry)
    requires i < |bids|
    requires b.amount > 0.0 ==> MinAmount(bids).Some? && MinAmount(bids).value <= b.amount
    requires PositiveDays(b) ==> MinDays(bids).Some? && MinDays(bids).value <= b.days.value
    ensures Final(bids + [b], i, w) == Final(bids, i, w)
  {
    hide Score;
    assert (bids + [b])[..|bids|] == bids;
  }

  // The committee's mark.

  /** The mean of the marks, unless there are none or one is off the scale. */
  method Average(marks: seq<real>) returns (mean: Option<real>)
    ensures mean.Some? <==> marks != [] && forall k :: 0 <= k < |marks| ==> InScale(marks[k])
    ensures mean.Some? ==> mean.value == Sum(marks) / (|marks| as real) && InScale(mean.value)
  {
    if marks == [] {
      return None;
    }
    var total := 0.0;
    for i := 0 to |marks|
      invariant total == Sum(marks[..i])
      invariant forall k :: 0 <= k < i ==> InScale(marks[k])
    {
      if marks[i] < 0.0 || marks[i] > 100.0 {
        return None;
      }
      assert marks[..i + 1][..i] == marks[..i];
      total := total + marks[i];
    }
    assert marks[..|marks|] == marks;
    MeanInScale(marks);
    return Some(total / (|marks| as real));
  }
}
