/** Fees of inverse options and the premium inferred back from premium plus fee (fees.py:101-153). */
module Fees {
  import opened Common

  function Discounted(fee: real, discount: real): real {
    if fee <= 0.0 || discount <= 0.0 then fee else fee * (1.0 - Min(Max(discount, 0.0), 1.0))
  }

  /** A discount takes its share off a fee: none of it up to 0, all of it from 1 on. */
  lemma DiscountTakesItsShare(fee: real, discount: real)
    requires fee >= 0.0
    ensures 0.0 <= Discounted(fee, discount) <= fee
    ensures 0.0 <= discount <= 1.0 ==> Discounted(fee, discount) + discount * fee == fee
    ensures (discount <= 0.0 ==> Discounted(fee, discount) == fee) && (discount >= 1.0 ==> Discounted(fee, discount) == 0.0)
  {
    var kept := 1.0 - Min(Max(discount, 0.0), 1.0);
    assert 0.0 <= kept <= 1.0;
    assert 0.0 <= fee * kept <= fee;
  }

  function FeePerContract(premium: real, rate: real, capRate: real, discount: real): real {
    Discounted(Min(rate, capRate * premium), discount)
  }

  function FeeTotal(premium: real, quantity: real, rate: real, capRate: real, discount: real): real {
    if quantity <= 0.0 || premium <= 0.0 then 0.0 else FeePerContract(premium, rate, capRate, discount) * quantity
  }

  /** The discount takes its share off the whole fee, whatever the quantity. */
  lemma DiscountOnTheTotal(premium: real, quantity: real, rate: real, capRate: real, discount: real)
    requires rate >= 0.0 && capRate >= 0.0 && 0.0 <= discount <= 1.0
    ensures var full := FeeTotal(premium, quantity, rate, capRate, 0.0);
            FeeTotal(premium, quantity, rate, capRate, discount) + discount * full == full
  {
    if quantity > 0.0 && premium > 0.0 {
      var each := Min(rate, capRate * premium);
      assert capRate * premium >= 0.0;
      DiscountTakesItsShare(each, discount);
      DiscountTakesItsShare(each, 0.0);
      Shared(Discounted(each, discount), discount, each, quantity);
    }
  }

  lemma Shared(kept: real, discount: real, each: real, quantity: real)
    requires kept + discount * each == each
    ensures kept * quantity + discount * (each * quantity) == each * quantity
  {
    var taken := discount * each;
    assert (kept + taken) * quantity == kept * quantity + taken * quantity;
    assert taken * quantity == discount * (each * quantity);
  }

  /** A fee is no more than the rate and the capped share of the premium, per contract. */
  lemma FeeWithinCaps(premium: real, quantity: real, rate: real, capRate: real, discount: real)
    requires rate >= 0.0 && capRate >= 0.0
    ensures var fee := FeeTotal(premium, quantity, rate, capRate, discount);
            && 0.0 <= fee && (quantity > 0.0 && premium > 0.0 ==> fee <= rate * quantity && fee <= capRate * premium * quantity)
            && (quantity <= 0.0 || premium <= 0.0 ==> fee == 0.0)
  {
    if quantity > 0.0 && premium > 0.0 {
      var flat, capped := rate, capRate * premium;
      assert capped >= 0.0;
      DiscountTakesItsShare(Min(flat, capped), discount);
      var each := FeePerContract(premium, rate, capRate, discount);
      assert 0.0 <= each * quantity <= flat * quantity && each * quantity <= capped * quantity;
    }
  }

  /** Lines 144 to 153; `debit` is per contract and `flatFits` the test of line 145. */
  function Choose(debit: real, rate: real, capRate: real, flatFits: bool): real {
    var atRate := debit - rate;
    if atRate > 0.0 && flatFits then atRate
    else if 1.0 + capRate <= 0.0 then 0.0
    else
      var atCap := debit / (1.0 + capRate);
      if atCap > 0.0 && capRate * atCap <= rate then atCap
      else if atRate > 0.0 then atRate
      else atCap
  }

  function InferPremium(total: real, quantity: real, rate: real, capRate: real): real {
    if quantity <= 0.0 || total <= 0.0 then 0.0
    else
      var debit := total / quantity;
      Choose(debit, rate, capRate, capRate * (debit - rate) <= rate)
  }

  /** The same with line 145 comparing the other way. */
  function InferReversed(total: real, quantity: real, rate: real, capRate: real): real {
    if quantity <= 0.0 || total <= 0.0 then 0.0
    else
      var debit := total / quantity;
      Choose(debit, rate, capRate, capRate * (debit - rate) >= rate)
  }

  /** What buying back at a premium costs, all in. */
  function BuyBack(premium: real, quantity: real, rate: real, capRate: real): real {
    premium * quantity + FeeTotal(premium, quantity, rate, capRate, 0.0)
  }

  lemma CostPerContract(premium: real, quantity: real, rate: real, capRate: real)
    requires premium > 0.0 && quantity > 0.0 && rate > 0.0 && capRate > 0.0
    ensures var total := BuyBack(premium, quantity, rate, capRate);
            total > 0.0 && total / quantity == premium + Min(rate, capRate * premium)
  {
  }

  lemma ProductPositive(a: real, b: real)
    requires a > 0.0 && b > 0.0
    ensures a * b > 0.0
  {
  }

  lemma Distribute(c: real, x: real, y: real)
    ensures c * (x + y) == c * x + c * y && c * (x - y) == c * x - c * y
  {
  }

  /** The premium read off the capped fee: exact below the kink, and over the cap above it. */
  lemma AtCap(premium: real, rate: real, capRate: real)
    requires premium > 0.0 && rate > 0.0 && capRate > 0.0
    ensures var atCap := (premium + Min(rate, capRate * premium)) / (1.0 + capRate);
            atCap > 0.0 && (if capRate * premium <= rate then atCap == premium else capRate * atCap > rate)
  {
  }

  /**
   The kinks are p = r/(1+c) and p = r/c, written without quotients. The inference is exact up to
   the first and from the second; between them it falls short by r - c*p, less than r/(1+c).
   */
  lemma InferredPremiumExactly(premium: real, quantity: real, rate: real, capRate: real)
    requires premium > 0.0 && quantity > 0.0 && rate > 0.0 && capRate > 0.0
    ensures var inferred := InferPremium(BuyBack(premium, quantity, rate, capRate), quantity, rate, capRate);
            && (inferred == premium <==> premium * (1.0 + capRate) <= rate || capRate * premium >= rate)
            && (inferred != premium ==>
                  && 0.0 < premium - inferred == rate - capRate * premium
                  && (premium - inferred) * (1.0 + capRate) < rate)
  {
    CostPerContract(premium, quantity, rate, capRate);
    AtCap(premium, rate, capRate);
    var fee := Min(rate, capRate * premium);
    var short := rate - capRate * premium;
    Distribute(premium, 1.0, capRate);
    Distribute(short, 1.0, capRate);
    if short > 0.0 && premium * (1.0 + capRate) > rate {
      Distribute(capRate, premium, short);
      ProductPositive(capRate, short);
      Distribute(capRate, premium * (1.0 + capRate), rate);
      ProductPositive(capRate, premium * (1.0 + capRate) - rate);
      assert capRate * (premium * (1.0 + capRate)) == (capRate * premium) * (1.0 + capRate);
      assert short * (1.0 + capRate) == rate * (1.0 + capRate) - (capRate * premium) * (1.0 + capRate);
    }
  }

  /** With the comparison reversed, inferring undoes paying for every premium. */
  lemma ReversedInferenceIsExact(premium: real, quantity: real, rate: real, capRate: real)
    requires premium > 0.0 && quantity > 0.0 && rate > 0.0 && capRate > 0.0
    ensures InferReversed(BuyBack(premium, quantity, rate, capRate), quantity, rate, capRate) == premium
  {
    CostPerContract(premium, quantity, rate, capRate);
    AtCap(premium, rate, capRate);
    var short := rate - capRate * premium;
    Distribute(capRate, premium, short);
    if short > 0.0 {
      ProductPositive(capRate, short);
    }
  }

  /** At a rate of 3 and a cap of a half, a premium of 4 costs 6 and is inferred as 3. */
  lemma BandPremiumReadShort()
    ensures BuyBack(4.0, 1.0, 3.0, 0.5) == 6.0
    ensures InferPremium(6.0, 1.0, 3.0, 0.5) == 3.0 && InferReversed(6.0, 1.0, 3.0, 0.5) == 4.0
  {
    QuotientOne(6.0);
    assert 4.0 * 1.5 == 6.0;
  }

  lemma QuotientOne(x: real)
    ensures x / 1.0 == x
  {
  }
}
