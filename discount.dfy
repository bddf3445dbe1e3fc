/**
 * The cross-product discount pass (DiscountOfferCalculatorService.Calculate): for each
 * offer "buy NumberToBuy of one product, get PercentageOff off another", price the first
 * earned units of the discounted product at the reduced price, mark them processed and
 * add their prices to a running total.
 */
module DiscountOfferCalculator {
  import opened Entities
  import opened LineItems

  /** The pass divides by NumberToBuy; a positive one is required here. */
  predicate ValidOffer(o: DiscountOffer)
  {
    o.numberToBuy > 0
  }

  predicate ValidOffers(offers: seq<DiscountOffer>)
  {
    forall o :: o in offers ==> ValidOffer(o)
  }

  /** Discounts earned by `bought` units of the bought product (floor division). */
  function Earned(o: DiscountOffer, bought: nat): nat
    requires ValidOffer(o)
  {
    bought / o.numberToBuy
  }

  /** Number of units of the discounted product the offer prices: the earned count, cut to what is there. */
  function DiscountedCount(s: seq<Product>, o: DiscountOffer): (k: nat)
    requires ValidOffer(o)
    ensures k <= Count(s, o.productDiscountedId)
  {
    Clamp(Earned(o, Count(s, o.productBoughtId)), Count(s, o.productDiscountedId))
  }

  /** The reduced price of one item. */
  function ItemCharge(p: Product, percentageOff: real): real
  {
    p.unitPrice * (1.0 - percentageOff)
  }

  /** Sum of the reduced prices of the items at positions `idx`. */
  function ChargeAt(s: seq<Product>, idx: seq<nat>, percentageOff: real): real
    requires forall k :: 0 <= k < |idx| ==> idx[k] < |s|
  {
    if idx == [] then 0.0
    else ChargeAt(s, idx[..|idx| - 1], percentageOff) + ItemCharge(s[idx[|idx| - 1]], percentageOff)
  }

  /** Pricing one more position. */
  lemma {:induction false} ChargeAtNext(s: seq<Product>, idx: seq<nat>, i: nat, percentageOff: real)
    requires i < |idx| && forall k :: 0 <= k < |idx| ==> idx[k] < |s|
    ensures ChargeAt(s, idx[..i + 1], percentageOff) == ChargeAt(s, idx[..i], percentageOff) + ItemCharge(s[idx[i]], percentageOff)
  {
    assert idx[..i + 1][..i] == idx[..i];
  }

  /** What one offer adds to the total: the first DiscountedCount units of its product at the reduced price. */
  function OfferCharge(s: seq<Product>, o: DiscountOffer): real
    requires ValidOffer(o)
  {
    ChargeAt(s, Matches(s, o.productDiscountedId)[..DiscountedCount(s, o)], o.percentageOff)
  }

  /** The line items after the pass and the total it returns. */
  datatype Priced = Priced(items: seq<Product>, cost: real)

  /**
   * The pass as a function: offers are applied in order, each marking its discounted units
   * and adding their reduced prices.
   */
  function DiscountPass(s: seq<Product>, offers: seq<DiscountOffer>): Priced
    requires ValidOffers(offers)
    decreases |offers|
  {
    if offers == [] then Priced(s, 0.0)
    else
      var o := offers[0];
      var rest := DiscountPass(MarkFirst(s, o.productDiscountedId, DiscountedCount(s, o)), offers[1..]);
      Priced(rest.items, OfferCharge(s, o) + rest.cost)
  }

  /** Independent reference for the total: every offer's charge, each computed on the list as given. */
  function TotalCharge(s: seq<Product>, offers: seq<DiscountOffer>): real
    requires ValidOffers(offers)
    decreases |offers|
  {
    if offers == [] then 0.0 else OfferCharge(s, offers[0]) + TotalCharge(s, offers[1..])
  }

  /** The largest number of discounts any offer on product `id` earns in `s`, or 0. */
  function DiscountLimit(offers: seq<DiscountOffer>, id: int, s: seq<Product>): (m: nat)
    requires ValidOffers(offers)
    ensures forall o :: o in offers && o.productDiscountedId == id ==> Earned(o, Count(s, o.productBoughtId)) <= m
  {
    if offers == [] then 0
    else
      var rest := DiscountLimit(offers[1..], id, s);
      var o := offers[0];
      var e := Earned(o, Count(s, o.productBoughtId));
      if o.productDiscountedId == id && e > rest then e else rest
  }

  // ---- The pass ----

  method Calculate(products: array<Product>, offers: seq<DiscountOffer>) returns (totalCost: real)
    requires ValidOffers(offers)
    modifies products
    ensures totalCost == DiscountPass(old(products[..]), offers).cost
    ensures products[..] == DiscountPass(old(products[..]), offers).items
  {
    ghost var s0 := products[..];
    totalCost := 0.0;
    var oi := 0;
    while oi < |offers|
      invariant 0 <= oi <= |offers|
      invariant totalCost + DiscountPass(products[..], offers[oi..]).cost == DiscountPass(s0, offers).cost
      invariant DiscountPass(products[..], offers[oi..]).items == DiscountPass(s0, offers).items
    {
      var discount := offers[oi];
      assert discount in offers;
      assert offers[oi..][0] == discount && offers[oi..][1..] == offers[oi + 1..];
      var numBought := CountMatching(products, discount.productBoughtId);
      var numDiscounts := numBought / discount.numberToBuy;
      var productsToDiscount := SelectMatching(products, discount.productDiscountedId);
      totalCost := PriceDiscounted(products, productsToDiscount, discount, numDiscounts, totalCost);
      oi := oi + 1;
    }
    assert offers[oi..] == [];
  }

  /**
   * The loop over `productsToDiscount` that stops once `numDiscounts` items are priced:
   * adds each item's reduced price to the running total and marks it processed.
   */
  method PriceDiscounted(products: array<Product>, productsToDiscount: seq<nat>, discount: DiscountOffer,
                         numDiscounts: nat, total: real) returns (totalCost: real)
    requires ValidOffer(discount)
    requires productsToDiscount == Matches(products[..], discount.productDiscountedId)
    requires numDiscounts == Earned(discount, Count(products[..], discount.productBoughtId))
    modifies products
    ensures totalCost == total + OfferCharge(old(products[..]), discount)
    ensures products[..] == MarkFirst(old(products[..]), discount.productDiscountedId, DiscountedCount(old(products[..]), discount))
  {
    ghost var s := products[..];
    ghost var id := discount.productDiscountedId;
    totalCost := total;
    var i := 0;
    while i < |productsToDiscount|
      invariant 0 <= i <= |productsToDiscount| && i <= numDiscounts
      invariant products[..] == MarkFirst(s, id, i)
      invariant totalCost == total + ChargeAt(s, productsToDiscount[..i], discount.percentageOff)
    {
      if i == numDiscounts {
        break;
      }
      MarkNext(s, id, i);
      var p := productsToDiscount[i];
      ChargeAtNext(s, productsToDiscount, i, discount.percentageOff);
      MatchesRank(s, id, i);
      assert products[p] == s[p];
      totalCost := totalCost + ItemCharge(products[p], discount.percentageOff);
      products[p] := products[p].(processed := true);
      i := i + 1;
    }
    assert i == DiscountedCount(s, discount);
  }

  // ---- Properties of the pass ----

  /** The pass only changes flags, never clears one, and leaves items no offer discounts as they were. */
  lemma {:induction false} DiscountPassFrame(s: seq<Product>, offers: seq<DiscountOffer>)
    requires ValidOffers(offers)
    ensures SameExceptProcessed(s, DiscountPass(s, offers).items)
    ensures KeepsMarks(s, DiscountPass(s, offers).items)
    ensures forall j :: 0 <= j < |s| && (forall o :: o in offers ==> o.productDiscountedId != s[j].id) ==>
      DiscountPass(s, offers).items[j] == s[j]
    decreases |offers|
  {
    if offers != [] {
      var o := offers[0];
      var s1 := MarkFirst(s, o.productDiscountedId, DiscountedCount(s, o));
      MarkFirstFrame(s, o.productDiscountedId, DiscountedCount(s, o));
      DiscountPassFrame(s1, offers[1..]);
      forall j | 0 <= j < |s| && (forall o' :: o' in offers ==> o'.productDiscountedId != s[j].id)
        ensures DiscountPass(s, offers).items[j] == s[j]
      {
        assert o in offers;
        forall o' | o' in offers[1..] ensures o'.productDiscountedId != s1[j].id {
          assert o' in offers;
        }
      }
    }
  }

  /** An offer's charge does not depend on the processed flags: they are neither counted nor filtered on. */
  lemma {:induction false} ChargeAtIgnoresFlags(s: seq<Product>, t: seq<Product>, idx: seq<nat>, percentageOff: real)
    requires SameExceptProcessed(s, t)
    requires forall k :: 0 <= k < |idx| ==> idx[k] < |s|
    ensures ChargeAt(s, idx, percentageOff) == ChargeAt(t, idx, percentageOff)
    decreases |idx|
  {
    if idx != [] {
      ChargeAtIgnoresFlags(s, t, idx[..|idx| - 1], percentageOff);
    }
  }

  lemma {:induction false} OfferChargeIgnoresFlags(s: seq<Product>, t: seq<Product>, o: DiscountOffer)
    requires ValidOffer(o) && SameExceptProcessed(s, t)
    ensures DiscountedCount(s, o) == DiscountedCount(t, o)
    ensures OfferCharge(s, o) == OfferCharge(t, o)
  {
    SameExceptProcessedMatches(s, t, o.productBoughtId);
    SameExceptProcessedMatches(s, t, o.productDiscountedId);
    ChargeAtIgnoresFlags(s, t, Matches(s, o.productDiscountedId)[..DiscountedCount(s, o)], o.percentageOff);
  }

  /**
   * The returned total is the sum of every offer's charge computed on the list as it was
   * given: what earlier offers marked changes nothing for later ones.
   */
  lemma {:induction false} DiscountPassCostIsTotalCharge(s: seq<Product>, offers: seq<DiscountOffer>)
    requires ValidOffers(offers)
    ensures DiscountPass(s, offers).cost == TotalCharge(s, offers)
    decreases |offers|
  {
    if offers != [] {
      var o := offers[0];
      var s1 := MarkFirst(s, o.productDiscountedId, DiscountedCount(s, o));
      MarkFirstFrame(s, o.productDiscountedId, DiscountedCount(s, o));
      DiscountPassCostIsTotalCharge(s1, offers[1..]);
      TotalChargeIgnoresFlags(s, s1, offers[1..]);
    }
  }

  lemma {:induction false} TotalChargeIgnoresFlags(s: seq<Product>, t: seq<Product>, offers: seq<DiscountOffer>)
    requires ValidOffers(offers) && SameExceptProcessed(s, t)
    ensures TotalCharge(s, offers) == TotalCharge(t, offers)
    decreases |offers|
  {
    if offers != [] {
      OfferChargeIgnoresFlags(s, t, offers[0]);
      TotalChargeIgnoresFlags(s, t, offers[1..]);
    }
  }

  /** Items already processed (by the bulk pass, say) are counted and priced all the same. */
  lemma {:induction false} DiscountPassCostIgnoresFlags(s: seq<Product>, t: seq<Product>, offers: seq<DiscountOffer>)
    requires ValidOffers(offers) && SameExceptProcessed(s, t)
    ensures DiscountPass(s, offers).cost == DiscountPass(t, offers).cost
  {
    DiscountPassCostIsTotalCharge(s, offers);
    DiscountPassCostIsTotalCharge(t, offers);
    TotalChargeIgnoresFlags(s, t, offers);
  }

  lemma {:induction false} DiscountLimitIgnoresFlags(offers: seq<DiscountOffer>, id: int, s: seq<Product>, t: seq<Product>)
    requires ValidOffers(offers) && SameExceptProcessed(s, t)
    ensures DiscountLimit(offers, id, s) == DiscountLimit(offers, id, t)
    decreases |offers|
  {
    if offers != [] {
      SameExceptProcessedMatches(s, t, offers[0].productBoughtId);
      DiscountLimitIgnoresFlags(offers[1..], id, s, t);
    }
  }

  /** Without an offer on product `id`, nothing earns a discount on it. */
  lemma {:induction false} DiscountLimitNoOffer(offers: seq<DiscountOffer>, id: int, s: seq<Product>)
    requires ValidOffers(offers)
    requires forall o :: o in offers ==> o.productDiscountedId != id
    ensures DiscountLimit(offers, id, s) == 0
    decreases |offers|
  {
    if offers != [] {
      assert offers[0] in offers;
      forall o | o in offers[1..] ensures o.productDiscountedId != id {
        assert o in offers;
      }
      DiscountLimitNoOffer(offers[1..], id, s);
    }
  }

  /** With a single offer on product `id`, DiscountLimit is what that offer earns. */
  lemma {:induction false} DiscountLimitOneOffer(offers: seq<DiscountOffer>, i: nat, s: seq<Product>)
    requires ValidOffers(offers) && i < |offers|
    requires forall k :: 0 <= k < |offers| && k != i ==> offers[k].productDiscountedId != offers[i].productDiscountedId
    ensures offers[i] in offers
    ensures DiscountLimit(offers, offers[i].productDiscountedId, s) == Earned(offers[i], Count(s, offers[i].productBoughtId))
    decreases |offers|
  {
    var id := offers[i].productDiscountedId;
    if i == 0 {
      forall o | o in offers[1..] ensures o.productDiscountedId != id {
        var k :| 0 <= k < |offers[1..]| && offers[1..][k] == o;
        assert offers[k + 1] == o;
      }
      DiscountLimitNoOffer(offers[1..], id, s);
    } else {
      assert offers[1..][i - 1] == offers[i];
      DiscountLimitOneOffer(offers[1..], i - 1, s);
    }
  }

  /** A positive DiscountLimit is what one of the offers on the product earns. */
  lemma {:induction false} DiscountLimitAttained(offers: seq<DiscountOffer>, id: int, s: seq<Product>) returns (o: DiscountOffer)
    requires ValidOffers(offers) && DiscountLimit(offers, id, s) > 0
    ensures o in offers && o.productDiscountedId == id
    ensures Earned(o, Count(s, o.productBoughtId)) == DiscountLimit(offers, id, s)
  {
    var e := Earned(offers[0], Count(s, offers[0].productBoughtId));
    if offers[0].productDiscountedId == id && e > DiscountLimit(offers[1..], id, s) {
      o := offers[0];
    } else {
      o := DiscountLimitAttained(offers[1..], id, s);
    }
  }

  /**
   * Exactly which items end up processed: an item is processed after the pass when it was
   * before, or when fewer items of its product precede it than the largest number of
   * discounts an offer on that product earns. Bought-side items are never marked for it.
   */
  lemma {:induction false} DiscountPassExactly(s: seq<Product>, offers: seq<DiscountOffer>)
    requires ValidOffers(offers)
    ensures |DiscountPass(s, offers).items| == |s|
    ensures forall j :: 0 <= j < |s| ==>
      DiscountPass(s, offers).items[j].processed ==
        (s[j].processed || Count(s[..j], s[j].id) < DiscountLimit(offers, s[j].id, s))
    decreases |offers|
  {
    DiscountPassFrame(s, offers);
    if offers != [] {
      var o := offers[0];
      var s1 := MarkFirst(s, o.productDiscountedId, DiscountedCount(s, o));
      MarkFirstFrame(s, o.productDiscountedId, DiscountedCount(s, o));
      MarkFirstClamp(s, o.productDiscountedId, Earned(o, Count(s, o.productBoughtId)));
      DiscountPassExactly(s1, offers[1..]);
      forall j | 0 <= j < |s|
        ensures DiscountPass(s, offers).items[j].processed ==
          (s[j].processed || Count(s[..j], s[j].id) < DiscountLimit(offers, s[j].id, s))
      {
        var id := s[j].id;
        assert s1[j].processed ==
          (s[j].processed || (id == o.productDiscountedId && Count(s[..j], id) < Earned(o, Count(s, o.productBoughtId))));
        SameExceptProcessedPrefixCount(s, s1, id, j);
        DiscountLimitIgnoresFlags(offers[1..], id, s, s1);
      }
    }
  }

  /**
   * Starting from a list with nothing processed, the pass leaves min(DiscountLimit, units
   * present) units of each product processed; for a single offer that is
   * min(bought / NumberToBuy, discounted units present).
   */
  lemma {:induction false} DiscountPassCounts(s: seq<Product>, offers: seq<DiscountOffer>, id: int)
    requires ValidOffers(offers)
    requires forall j :: 0 <= j < |s| ==> !s[j].processed
    ensures CountProcessed(DiscountPass(s, offers).items, id) == Clamp(DiscountLimit(offers, id, s), Count(s, id))
  {
    var t := DiscountPass(s, offers).items;
    var m := DiscountLimit(offers, id, s);
    DiscountPassExactly(s, offers);
    DiscountPassFrame(s, offers);
    forall j | 0 <= j < |t| && t[j].id == id
      ensures t[j].processed <==> Count(t[..j], id) < m
    {
      SameExceptProcessedPrefixCount(s, t, id, j);
    }
    CountProcessedRankBelow(t, id, m);
    SameExceptProcessedMatches(s, t, id);
  }

  /** For a single offer, min(bought / NumberToBuy, discounted units present) units are marked. */
  lemma {:induction false} SingleOfferCount(s: seq<Product>, offers: seq<DiscountOffer>, o: DiscountOffer)
    requires offers == [o] && ValidOffer(o)
    requires forall j :: 0 <= j < |s| ==> !s[j].processed
    ensures CountProcessed(DiscountPass(s, offers).items, o.productDiscountedId) ==
      Clamp(Count(s, o.productBoughtId) / o.numberToBuy, Count(s, o.productDiscountedId))
  {
    DiscountPassCounts(s, offers, o.productDiscountedId);
    assert offers[1..] == [];
  }

  /**
   * With no offers, or when no offer earns a discount on something present (no products at
   * all, say), the total is 0 and the list is unchanged.
   */
  lemma {:induction false} DiscountPassNoOp(s: seq<Product>, offers: seq<DiscountOffer>)
    requires ValidOffers(offers)
    requires forall o :: o in offers ==> Earned(o, Count(s, o.productBoughtId)) == 0 || Count(s, o.productDiscountedId) == 0
    ensures DiscountPass(s, offers) == Priced(s, 0.0)
    decreases |offers|
  {
    if offers != [] {
      var o := offers[0];
      assert o in offers;
      assert DiscountedCount(s, o) == 0;
      MarkFirstClamp(s, o.productDiscountedId, 0);
      assert MarkFirst(s, o.productDiscountedId, 0) == s;
      forall o' | o' in offers[1..]
        ensures Earned(o', Count(s, o'.productBoughtId)) == 0 || Count(s, o'.productDiscountedId) == 0
      {
        assert o' in offers;
      }
      DiscountPassNoOp(s, offers[1..]);
    }
  }

  /** When every listed item has the reduced price `charge`, the listed items cost |idx| times `charge`. */
  lemma {:induction false} UniformCharge(s: seq<Product>, idx: seq<nat>, percentageOff: real, charge: real)
    requires forall m :: 0 <= m < |idx| ==> idx[m] < |s| && ItemCharge(s[idx[m]], percentageOff) == charge
    ensures ChargeAt(s, idx, percentageOff) == Times(|idx|, charge)
  {
    if idx != [] {
      UniformCharge(s, idx[..|idx| - 1], percentageOff, charge);
    }
  }

  /**
   * Running the pass again on its own result, or on that result with more items marked
   * since, marks nothing new and charges the same: counts and charges ignore the flags.
   */
  lemma {:induction false} DiscountPassRepeat(s: seq<Product>, u: seq<Product>, offers: seq<DiscountOffer>)
    requires ValidOffers(offers)
    requires SameExceptProcessed(DiscountPass(s, offers).items, u) && KeepsMarks(DiscountPass(s, offers).items, u)
    ensures DiscountPass(u, offers) == Priced(u, DiscountPass(s, offers).cost)
  {
    var t := DiscountPass(s, offers).items;
    DiscountPassFrame(s, offers);
    DiscountPassExactly(s, offers);
    SameExceptProcessedTransitive(s, t, u);
    var t2 := DiscountPass(u, offers).items;
    DiscountPassFrame(u, offers);
    DiscountPassExactly(u, offers);
    forall j | 0 <= j < |u| ensures u[j].processed == t2[j].processed {
      DiscountLimitIgnoresFlags(offers, u[j].id, s, u);
      SameExceptProcessedPrefixCount(s, u, u[j].id, j);
    }
    SameExceptProcessedSameFlags(u, t2);
    DiscountPassCostIgnoresFlags(s, u, offers);
  }

  /** The first `k` units of a product whose units all have the reduced price `charge` cost k times `charge`. */
  lemma {:induction false} UniformOfferCharge(s: seq<Product>, id: int, k: nat, percentageOff: real, charge: real)
    requires k <= Count(s, id)
    requires forall j :: 0 <= j < |s| && s[j].id == id ==> ItemCharge(s[j], percentageOff) == charge
    ensures ChargeAt(s, Matches(s, id)[..k], percentageOff) == Times(k, charge)
  {
    var idx := Matches(s, id)[..k];
    forall m | 0 <= m < |idx| ensures idx[m] < |s| && ItemCharge(s[idx[m]], percentageOff) == charge {
      assert idx[m] == Matches(s, id)[m];
    }
    UniformCharge(s, idx, percentageOff, charge);
  }

  // ---- The multiple-discount unit test ----

  /** The four offers of the multiple-discount tests. */
  const FourOffers: seq<DiscountOffer> := [
    DiscountOffer(1, 2, 5, 0.2), DiscountOffer(2, 3, 6, 0.8),
    DiscountOffer(3, 5, 7, 0.3), DiscountOffer(4, 6, 8, 0.5)]

  /**
   * The basket of the multiple-discount tests, in any order (5 Butter, 4 Milk, 2 Bread,
   * 14 Cheese, 4 Bacon at 1.50, 3 Bananas at 0.70, 2 Peaches at 1.00, 1 Table Salt at
   * 0.50): the total is 2.79, whatever is already processed.
   */
  lemma {:induction false} FourOffersTotal(s: seq<Product>, offers: seq<DiscountOffer>)
    requires offers == FourOffers
    requires Count(s, 1) == 5 && Count(s, 2) == 4 && Count(s, 3) == 2 && Count(s, 4) == 14
    requires Count(s, 5) == 4 && Count(s, 6) == 3 && Count(s, 7) == 2 && Count(s, 8) == 1
    requires forall j :: 0 <= j < |s| && s[j].id == 5 ==> s[j].unitPrice == 1.5
    requires forall j :: 0 <= j < |s| && s[j].id == 6 ==> s[j].unitPrice == 0.7
    requires forall j :: 0 <= j < |s| && s[j].id == 8 ==> s[j].unitPrice == 0.5
    ensures DiscountPass(s, offers).cost == 2.79
  {
    assert DiscountedCount(s, offers[0]) == 2 && DiscountedCount(s, offers[1]) == 1;
    assert DiscountedCount(s, offers[2]) == 0 && DiscountedCount(s, offers[3]) == 1;
    UniformOfferCharge(s, 5, 2, 0.2, 1.2);
    UniformOfferCharge(s, 6, 1, 0.8, 0.14);
    UniformOfferCharge(s, 8, 1, 0.5, 0.25);
    assert OfferCharge(s, offers[2]) == 0.0;
    assert offers[1..][1..][1..][1..] == [];
    DiscountPassCostIsTotalCharge(s, offers);
  }

  /** No two offers discount the same product. */
  predicate DistinctDiscounted(offers: seq<DiscountOffer>)
  {
    forall k, l :: 0 <= k < l < |offers| ==> offers[k].productDiscountedId != offers[l].productDiscountedId
  }

  /** With no other offer on the same product, the discount pass marks as many units as offer `i` earns, as far as they go. */
  lemma {:induction false} DiscountPassCountsOneOffer(s: seq<Product>, offers: seq<DiscountOffer>, i: nat)
    requires ValidOffers(offers) && i < |offers| && DistinctDiscounted(offers)
    requires NoneProcessed(s)
    ensures offers[i] in offers
    ensures CountProcessed(DiscountPass(s, offers).items, offers[i].productDiscountedId) ==
      Clamp(Earned(offers[i], Count(s, offers[i].productBoughtId)), Count(s, offers[i].productDiscountedId))
  {
    forall k | 0 <= k < |offers| && k != i ensures offers[k].productDiscountedId != offers[i].productDiscountedId {
      if k < i {
        assert offers[k].productDiscountedId != offers[i].productDiscountedId;
      } else {
        assert offers[i].productDiscountedId != offers[k].productDiscountedId;
      }
    }
    DiscountLimitOneOffer(offers, i, s);
    DiscountPassCounts(s, offers, offers[i].productDiscountedId);
  }

  /**
   * The same basket with nothing processed: 2 Bacon, 1 Bananas, no Peaches and the Table
   * Salt end up processed.
   */
  lemma {:induction false} FourOffersMarks(s: seq<Product>, offers: seq<DiscountOffer>)
    requires offers == FourOffers
    requires Count(s, 1) == 5 && Count(s, 2) == 4 && Count(s, 3) == 2 && Count(s, 4) == 14
    requires Count(s, 5) == 4 && Count(s, 6) == 3 && Count(s, 7) == 2 && Count(s, 8) == 1
    requires NoneProcessed(s)
    ensures CountProcessed(DiscountPass(s, offers).items, 5) == 2
    ensures CountProcessed(DiscountPass(s, offers).items, 6) == 1
    ensures CountProcessed(DiscountPass(s, offers).items, 7) == 0
    ensures CountProcessed(DiscountPass(s, offers).items, 8) == 1
  {
    assert DistinctDiscounted(offers);
    assert CountProcessed(DiscountPass(s, offers).items, 5) == 2 by {
      assert offers[0].productDiscountedId == 5 && Earned(offers[0], Count(s, 1)) == 2;
      DiscountPassCountsOneOffer(s, offers, 0);
    }
    assert CountProcessed(DiscountPass(s, offers).items, 6) == 1 by {
      assert offers[1].productDiscountedId == 6 && Earned(offers[1], Count(s, 2)) == 1;
      DiscountPassCountsOneOffer(s, offers, 1);
    }
    assert CountProcessed(DiscountPass(s, offers).items, 7) == 0 by {
      assert offers[2].productDiscountedId == 7 && Earned(offers[2], Count(s, 3)) == 0;
      DiscountPassCountsOneOffer(s, offers, 2);
    }
    assert CountProcessed(DiscountPass(s, offers).items, 8) == 1 by {
      assert offers[3].productDiscountedId == 8 && Earned(offers[3], Count(s, 4)) == 2;
      DiscountPassCountsOneOffer(s, offers, 3);
    }
  }

  /** In the same basket, none of the bought-side Butter, Milk, Bread or Cheese ends up processed. */
  lemma {:induction false} FourOffersMarksBought(s: seq<Product>, offers: seq<DiscountOffer>)
    requires offers == FourOffers
    requires NoneProcessed(s)
    ensures forall id :: 1 <= id <= 4 ==> CountProcessed(DiscountPass(s, offers).items, id) == 0
  {
    forall id | 1 <= id <= 4 ensures CountProcessed(DiscountPass(s, offers).items, id) == 0 {
      DiscountLimitNoOffer(offers, id, s);
      DiscountPassCounts(s, offers, id);
    }
  }
}
