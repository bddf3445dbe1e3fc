/**
 * The basket (BasketService): a list of line items that AddProduct appends copies of
 * catalog products to, and CalculateTotalCost, which runs the bulk pass, then the
 * discount pass, then the regular-price pass over that list and adds up what the last
 * two return.
 */
module Basket {
  import opened Wrappers
  import opened Entities
  import opened LineItems
  import opened Repositories
  import BulkBuyOfferCalculator
  import DiscountOfferCalculator
  import NonOfferCalculator

  /** `quantity` copies of `p` (none for a quantity of zero or less). */
  function Copies(p: Product, quantity: int): (r: seq<Product>)
    ensures |r| == if quantity > 0 then quantity else 0
    ensures forall k :: 0 <= k < |r| ==> r[k] == p.ShallowCopy()
    decreases quantity
  {
    if quantity <= 0 then [] else Copies(p, quantity - 1) + [p.ShallowCopy()]
  }

  /**
   * The three passes as one function: the line items afterwards and the total, or the
   * bulk pass's error.
   */
  function Checkout(s: seq<Product>, bulkBuyOffers: seq<BulkBuyOffer>, discountOffers: seq<DiscountOffer>)
    : Result<DiscountOfferCalculator.Priced, BulkBuyOfferCalculator.BulkError>
    requires BulkBuyOfferCalculator.ValidOffers(bulkBuyOffers)
    requires DiscountOfferCalculator.ValidOffers(discountOffers)
  {
    match BulkBuyOfferCalculator.FreeMarked(s, bulkBuyOffers)
    case Failure(e) => Failure(e)
    case Success(t) => Success(WithRegularCost(DiscountOfferCalculator.DiscountPass(t, discountOffers)))
  }

  /** The discount pass's result with the regular-price pass's total added to its cost. */
  function WithRegularCost(d: DiscountOfferCalculator.Priced): DiscountOfferCalculator.Priced
  {
    DiscountOfferCalculator.Priced(d.items, d.cost + NonOfferCalculator.Calculate(d.items))
  }

  /** The line items both offer passes leave are left as they are by both passes run again. */
  lemma {:induction false} PassesRepeat(s: seq<Product>, t: seq<Product>, bulkBuyOffers: seq<BulkBuyOffer>, discountOffers: seq<DiscountOffer>)
    requires BulkBuyOfferCalculator.ValidOffers(bulkBuyOffers)
    requires DiscountOfferCalculator.ValidOffers(discountOffers)
    requires BulkBuyOfferCalculator.FreeMarked(s, bulkBuyOffers) == Success(t)
    ensures var d := DiscountOfferCalculator.DiscountPass(t, discountOffers);
      BulkBuyOfferCalculator.FreeMarked(d.items, bulkBuyOffers) == Success(d.items) &&
      DiscountOfferCalculator.DiscountPass(d.items, discountOffers) == d
  {
    var u := DiscountOfferCalculator.DiscountPass(t, discountOffers).items;
    DiscountOfferCalculator.DiscountPassFrame(t, discountOffers);
    BulkBuyOfferCalculator.FreeMarkedRepeat(s, u, bulkBuyOffers);
    assert SameExceptProcessed(u, u) && KeepsMarks(u, u);
    DiscountOfferCalculator.DiscountPassRepeat(t, u, discountOffers);
  }

  /**
   * Totalling a basket a second time gives the same list and the same total: the passes
   * leave flags that they would set again, and their counts ignore flags.
   */
  lemma {:induction false} CheckoutRepeat(s: seq<Product>, bulkBuyOffers: seq<BulkBuyOffer>, discountOffers: seq<DiscountOffer>)
    requires BulkBuyOfferCalculator.ValidOffers(bulkBuyOffers)
    requires DiscountOfferCalculator.ValidOffers(discountOffers)
    requires Checkout(s, bulkBuyOffers, discountOffers).Success?
    ensures Checkout(Checkout(s, bulkBuyOffers, discountOffers).value.items, bulkBuyOffers, discountOffers) ==
      Checkout(s, bulkBuyOffers, discountOffers)
  {
    var t := BulkBuyOfferCalculator.FreeMarked(s, bulkBuyOffers).value;
    var d := DiscountOfferCalculator.DiscountPass(t, discountOffers);
    PassesRepeat(s, t, bulkBuyOffers, discountOffers);
    CheckoutAfterPasses(s, t, d, bulkBuyOffers, discountOffers);
    CheckoutAfterPasses(d.items, d.items, d, bulkBuyOffers, discountOffers);
  }

  /** Checkout in terms of what the two offer passes return. */
  lemma {:induction false} CheckoutAfterPasses(s: seq<Product>, t: seq<Product>, d: DiscountOfferCalculator.Priced,
                            bulkBuyOffers: seq<BulkBuyOffer>, discountOffers: seq<DiscountOffer>)
    requires BulkBuyOfferCalculator.ValidOffers(bulkBuyOffers)
    requires DiscountOfferCalculator.ValidOffers(discountOffers)
    requires BulkBuyOfferCalculator.FreeMarked(s, bulkBuyOffers) == Success(t)
    requires DiscountOfferCalculator.DiscountPass(t, discountOffers) == d
    ensures Checkout(s, bulkBuyOffers, discountOffers) == Success(WithRegularCost(d))
  {
  }

  /**
   * What a successful checkout charges: every discount offer's charge, worked out on the
   * basket as given, plus the full price of the basket less the prices of the items the
   * offers accounted for.
   */
  lemma {:induction false} CheckoutCost(s: seq<Product>, bulkBuyOffers: seq<BulkBuyOffer>, discountOffers: seq<DiscountOffer>)
    requires BulkBuyOfferCalculator.ValidOffers(bulkBuyOffers)
    requires DiscountOfferCalculator.ValidOffers(discountOffers)
    requires Checkout(s, bulkBuyOffers, discountOffers).Success?
    ensures var d := Checkout(s, bulkBuyOffers, discountOffers).value;
      d.cost == DiscountOfferCalculator.TotalCharge(s, discountOffers) +
        NonOfferCalculator.SumPrices(s) - NonOfferCalculator.ProcessedPrices(d.items)
  {
    var t := BulkBuyOfferCalculator.FreeMarked(s, bulkBuyOffers).value;
    var d := DiscountOfferCalculator.DiscountPass(t, discountOffers);
    CheckoutAfterPasses(s, t, d, bulkBuyOffers, discountOffers);
    BulkBuyOfferCalculator.FreeMarkedFrame(s, bulkBuyOffers);
    DiscountOfferCalculator.DiscountPassFrame(t, discountOffers);
    DiscountOfferCalculator.DiscountPassCostIsTotalCharge(t, discountOffers);
    DiscountOfferCalculator.TotalChargeIgnoresFlags(s, t, discountOffers);
    SameExceptProcessedTransitive(s, t, d.items);
    NonOfferCalculator.SumPricesIgnoresFlags(s, d.items);
    NonOfferCalculator.CalculateSplitsFullPrice(d.items);
  }

  /**
   * A basket that no offer applies to (no bulk offer on a product it holds, no discount
   * earned on a product it holds) and in which nothing is processed costs the sum of its
   * unit prices, and keeps its flags.
   */
  lemma {:induction false} NoApplicableOfferCostsFullPrice(s: seq<Product>, bulkBuyOffers: seq<BulkBuyOffer>, discountOffers: seq<DiscountOffer>)
    requires BulkBuyOfferCalculator.ValidOffers(bulkBuyOffers)
    requires DiscountOfferCalculator.ValidOffers(discountOffers)
    requires forall o :: o in bulkBuyOffers ==> o.numberToBuy > 0 && Count(s, o.productId) == 0
    requires forall o :: o in discountOffers ==>
      DiscountOfferCalculator.Earned(o, Count(s, o.productBoughtId)) == 0 || Count(s, o.productDiscountedId) == 0
    requires NoneProcessed(s)
    ensures Checkout(s, bulkBuyOffers, discountOffers) == Success(DiscountOfferCalculator.Priced(s, NonOfferCalculator.SumPrices(s)))
  {
    BulkBuyOfferCalculator.FreeMarkedAbsentProducts(s, bulkBuyOffers);
    DiscountOfferCalculator.DiscountPassNoOp(s, discountOffers);
    NonOfferCalculator.NothingProcessedCostsEverything(s);
  }

  class BasketService {
    /** The table `GetProduct` looks products up in, and the offers the offer repositories return. */
    const catalog: seq<Product>
    const bulkBuyOffers: seq<BulkBuyOffer>
    const discountOffers: seq<DiscountOffer>

    /** The `Products` list. */
    var products: seq<Product>

    constructor(catalog: seq<Product>, bulkBuyOffers: seq<BulkBuyOffer>, discountOffers: seq<DiscountOffer>)
      ensures this.catalog == catalog
      ensures this.bulkBuyOffers == bulkBuyOffers && this.discountOffers == discountOffers
      ensures products == []
    {
      this.catalog := catalog;
      this.bulkBuyOffers := bulkBuyOffers;
      this.discountOffers := discountOffers;
      products := [];
    }

    /**
     * Looks the product up (failing, with the list unchanged, on an unknown id) and appends
     * `quantity` copies of it.
     */
    method AddProduct(productId: int, quantity: int) returns (r: Outcome<CatalogError>)
      modifies this
      ensures match Find(catalog, productId)
        case Failure(e) => r == Fail(e) && products == old(products)
        case Success(p) => r == Pass && products == old(products) + Copies(p, quantity)
    {
      var lookup := Find(catalog, productId);
      if lookup.Failure? {
        return Fail(lookup.error);
      }
      var product := lookup.value;
      var i := 0;
      while i < quantity
        invariant 0 <= i <= (if quantity > 0 then quantity else 0)
        invariant products == old(products) + Copies(product, i)
      {
        products := products + [product.ShallowCopy()];
        i := i + 1;
      }
      assert Copies(product, i) == Copies(product, quantity);
      r := Pass;
    }

    /**
     * Runs the bulk pass, then the discount pass, then the regular-price pass on the list
     * and returns the sum of the last two. When the bulk pass fails, the list keeps the
     * cleared flags it left and the error is returned instead of a total.
     */
    method CalculateTotalCost() returns (r: Result<real, BulkBuyOfferCalculator.BulkError>)
      requires BulkBuyOfferCalculator.ValidOffers(bulkBuyOffers)
      requires DiscountOfferCalculator.ValidOffers(discountOffers)
      modifies this
      ensures match Checkout(old(products), bulkBuyOffers, discountOffers)
        case Success(p) => r == Success(p.cost) && products == p.items
        case Failure(e) => r == Failure(e) && products == ClearAll(old(products))
    {
      var s := products;
      var items := new Product[|s|](i requires 0 <= i < |s| => s[i]);
      assert items[..] == s;
      var totalCost := 0.0;
      var bulk := BulkBuyOfferCalculator.ProcessFreeProducts(items, bulkBuyOffers);
      if bulk.Fail? {
        products := items[..];
        return Failure(bulk.error);
      }
      var discount := DiscountOfferCalculator.Calculate(items, discountOffers);
      totalCost := totalCost + discount;
      var regular := NonOfferCalculator.Calculate(items[..]);
      totalCost := totalCost + regular;
      products := items[..];
      r := Success(totalCost);
    }
  }

  // ---- The shipped catalog and offers ----

  /** The line item is one of the catalog's products at its catalog price. */
  predicate CatalogItem(p: Product)
  {
    (p.id == 1 && p.unitPrice == 0.80) || (p.id == 2 && p.unitPrice == 1.15) || (p.id == 3 && p.unitPrice == 1.00)
  }

  /** Units of product `id` not yet accounted for by an offer. */
  function Unprocessed(s: seq<Product>, id: int): (n: nat)
    ensures n <= Count(s, id)
  {
    Count(s, id) - CountProcessed(s, id)
  }

  /** The regular-price pass over catalog products: each product's unprocessed units at its price. */
  lemma {:induction false} RegularCostOfCatalogItems(s: seq<Product>)
    requires forall j :: 0 <= j < |s| ==> CatalogItem(s[j])
    ensures NonOfferCalculator.Calculate(s) ==
      Times(Unprocessed(s, 1), 0.80) + Times(Unprocessed(s, 2), 1.15) + Times(Unprocessed(s, 3), 1.00)
  {
    if s != [] {
      var init, p := s[..|s| - 1], s[|s| - 1];
      assert init + [p] == s;
      NonOfferCalculator.CalculateAppend(init, [p]);
      assert NonOfferCalculator.Calculate([p]) == if p.processed then 0.0 else p.unitPrice;
      RegularCostOfCatalogItems(init);
      var u1, u2, u3 := Unprocessed(init, 1), Unprocessed(init, 2), Unprocessed(init, 3);
      if p.processed {
        assert Unprocessed(s, 1) == u1 && Unprocessed(s, 2) == u2 && Unprocessed(s, 3) == u3;
      } else if p.id == 1 {
        assert Unprocessed(s, 1) == u1 + 1 && Unprocessed(s, 2) == u2 && Unprocessed(s, 3) == u3;
        assert Times(u1 + 1, 0.80) == Times(u1, 0.80) + 0.80;
      } else if p.id == 2 {
        assert Unprocessed(s, 1) == u1 && Unprocessed(s, 2) == u2 + 1 && Unprocessed(s, 3) == u3;
        assert Times(u2 + 1, 1.15) == Times(u2, 1.15) + 1.15;
      } else {
        assert Unprocessed(s, 1) == u1 && Unprocessed(s, 2) == u2 && Unprocessed(s, 3) == u3 + 1;
        assert Times(u3 + 1, 1.00) == Times(u3, 1.00) + 1.00;
      }
    }
  }

  /**
   * The price the shipped offers set for b Butter, m Milk and r Bread: m / 4 Milk
   * free, one Bread per two Butter (as far as the Bread goes) at half price, the rest in full.
   */
  function ShippedPrice(b: nat, m: nat, r: nat): real
  {
    var halfPrice := Clamp(b / 2, r);
    Times(halfPrice, 0.5) + Times(b, 0.80) + Times(m - m / 4, 1.15) + Times(r - halfPrice, 1.00)
  }

  /** The shipped price, from what the discount pass charged and what it left unprocessed. */
  lemma {:induction false} ShippedTotalFromUnprocessed(d: DiscountOfferCalculator.Priced, b: nat, m: nat, r: nat)
    requires forall j :: 0 <= j < |d.items| ==> CatalogItem(d.items[j])
    requires d.cost == Times(Clamp(b / 2, r), 0.5)
    requires Unprocessed(d.items, 1) == b && Unprocessed(d.items, 2) == m - m / 4
    requires Unprocessed(d.items, 3) == r - Clamp(b / 2, r)
    ensures WithRegularCost(d).cost == ShippedPrice(b, m, r)
  {
    RegularCostOfCatalogItems(d.items);
  }

  /** `t` is `s` after the shipped bulk offer: the first m / 4 Milk are marked and nothing else. */
  predicate MilkFreeMarked(t: seq<Product>, m: nat)
  {
    forall j :: 0 <= j < |t| ==> (t[j].processed <==> t[j].id == 2 && Count(t[..j], 2) < m / 4)
  }

  /** The shipped bulk offer (buy 3 Milk, get 1 free) on unprocessed catalog items. */
  lemma {:induction false} ShippedBulkStage(s: seq<Product>, bulk: seq<BulkBuyOffer>, m: nat)
    requires bulk == BulkBuyOffers
    requires forall j :: 0 <= j < |s| ==> CatalogItem(s[j]) && !s[j].processed
    requires Count(s, 2) == m
    ensures BulkBuyOfferCalculator.FreeMarked(s, bulk).Failure? <==> m % 4 == 3
    ensures BulkBuyOfferCalculator.FreeMarked(s, bulk).Success? ==>
      var t := BulkBuyOfferCalculator.FreeMarked(s, bulk).value;
      SameExceptProcessed(s, t) && MilkFreeMarked(t, m) &&
      forall j :: 0 <= j < |t| ==> CatalogItem(t[j])
  {
    var o := bulk[0];
    assert bulk[1..] == [];
    assert BulkBuyOfferCalculator.Groups(o, m) == m / 4;
    assert BulkBuyOfferCalculator.NonQualifying(o, m) == m % 4;
    BulkBuyOfferCalculator.FreeMarkedFailsIff(s, bulk);
    if m % 4 != 3 {
      var t := BulkBuyOfferCalculator.FreeMarked(s, bulk).value;
      BulkBuyOfferCalculator.FreeMarkedFrame(s, bulk);
      BulkBuyOfferCalculator.FreeMarkedExactly(s, bulk);
      forall j | 0 <= j < |t|
        ensures CatalogItem(t[j])
        ensures t[j].processed <==> t[j].id == 2 && Count(t[..j], 2) < m / 4
      {
        SameExceptProcessedPrefixCount(s, t, 2, j);
        assert BulkBuyOfferCalculator.FreeLimit(bulk, s[j].id, Count(s, s[j].id)) ==
          if s[j].id == 2 then m / 4 else 0;
      }
    } else {
      assert BulkBuyOfferCalculator.Insufficient(bulk[0], Count(s, bulk[0].productId));
    }
  }

  /** The shipped discount offer charges half price for one Bread per two Butter, as far as the Bread goes. */
  lemma {:induction false} ShippedDiscountCost(t: seq<Product>, disc: seq<DiscountOffer>, b: nat, r: nat)
    requires disc == [DiscountOffer(1, 2, 3, 0.5)]
    requires forall j :: 0 <= j < |t| ==> CatalogItem(t[j])
    requires Count(t, 1) == b && Count(t, 3) == r
    ensures DiscountOfferCalculator.DiscountPass(t, disc).cost == Times(Clamp(b / 2, r), 0.5)
  {
    assert disc[1..] == [];
    DiscountOfferCalculator.DiscountPassCostIsTotalCharge(t, disc);
    forall j | 0 <= j < |t| && t[j].id == 3
      ensures DiscountOfferCalculator.ItemCharge(t[j], 0.5) == 0.5
    {
    }
    DiscountOfferCalculator.UniformOfferCharge(t, 3, Clamp(b / 2, r), 0.5, 0.5);
  }

  /** Catalog items whose marks are the first m / 4 Milk and the first b / 2 Bread, and nothing else. */
  predicate MilkAndBreadMarked(d: seq<Product>, b: nat, m: nat)
  {
    forall j :: 0 <= j < |d| ==>
      (CatalogItem(d[j]) &&
       (d[j].processed <==> (d[j].id == 2 && Count(d[..j], 2) < m / 4) || (d[j].id == 3 && Count(d[..j], 3) < b / 2)))
  }

  /** After the shipped discount offer, the first b / 2 Bread are marked as well, and nothing else. */
  lemma {:induction false} ShippedDiscountFlags(t: seq<Product>, disc: seq<DiscountOffer>, b: nat, m: nat)
    requires disc == [DiscountOffer(1, 2, 3, 0.5)]
    requires forall j :: 0 <= j < |t| ==> CatalogItem(t[j])
    requires MilkFreeMarked(t, m)
    requires Count(t, 1) == b
    ensures var d := DiscountOfferCalculator.DiscountPass(t, disc).items;
      SameExceptProcessed(t, d) && MilkAndBreadMarked(d, b, m)
  {
    var d := DiscountOfferCalculator.DiscountPass(t, disc).items;
    assert disc[1..] == [];
    DiscountOfferCalculator.DiscountPassFrame(t, disc);
    DiscountOfferCalculator.DiscountPassExactly(t, disc);
    forall j | 0 <= j < |d|
      ensures CatalogItem(d[j])
      ensures d[j].processed <==>
        (d[j].id == 2 && Count(d[..j], 2) < m / 4) || (d[j].id == 3 && Count(d[..j], 3) < b / 2)
    {
      SameExceptProcessedPrefixCount(t, d, t[j].id, j);
      assert DiscountOfferCalculator.DiscountLimit(disc, t[j].id, t) == if t[j].id == 3 then b / 2 else 0;
    }
  }

  /** What the shipped discount offer leaves unprocessed of each catalog product. */
  lemma {:induction false} ShippedDiscountMarks(t: seq<Product>, disc: seq<DiscountOffer>, b: nat, m: nat, r: nat)
    requires disc == [DiscountOffer(1, 2, 3, 0.5)]
    requires forall j :: 0 <= j < |t| ==> CatalogItem(t[j])
    requires MilkFreeMarked(t, m)
    requires Count(t, 1) == b && Count(t, 2) == m && Count(t, 3) == r
    ensures var d := DiscountOfferCalculator.DiscountPass(t, disc).items;
      (forall j :: 0 <= j < |d| ==> CatalogItem(d[j])) &&
      Unprocessed(d, 1) == b && Unprocessed(d, 2) == m - m / 4 && Unprocessed(d, 3) == r - Clamp(b / 2, r)
  {
    var d := DiscountOfferCalculator.DiscountPass(t, disc).items;
    ShippedDiscountFlags(t, disc, b, m);
    assert Unprocessed(d, 1) == b by {
      SameExceptProcessedMatches(t, d, 1);
      CountProcessedRankBelow(d, 1, 0);
    }
    assert Unprocessed(d, 2) == m - m / 4 by {
      SameExceptProcessedMatches(t, d, 2);
      CountProcessedRankBelow(d, 2, m / 4);
    }
    assert Unprocessed(d, 3) == r - Clamp(b / 2, r) by {
      SameExceptProcessedMatches(t, d, 3);
      CountProcessedRankBelow(d, 3, b / 2);
    }
  }

  /** The discount pass and the regular-price pass over the list the shipped bulk offer left. */
  lemma {:induction false} ShippedDiscountTotal(t: seq<Product>, disc: seq<DiscountOffer>, b: nat, m: nat, r: nat)
    requires disc == [DiscountOffer(1, 2, 3, 0.5)]
    requires forall j :: 0 <= j < |t| ==> CatalogItem(t[j])
    requires MilkFreeMarked(t, m)
    requires Count(t, 1) == b && Count(t, 2) == m && Count(t, 3) == r
    ensures WithRegularCost(DiscountOfferCalculator.DiscountPass(t, disc)).cost == ShippedPrice(b, m, r)
  {
    var d := DiscountOfferCalculator.DiscountPass(t, disc);
    assert d.cost == Times(Clamp(b / 2, r), 0.5) by {
      ShippedDiscountCost(t, disc, b, r);
    }
    assert (forall j :: 0 <= j < |d.items| ==> CatalogItem(d.items[j])) &&
      Unprocessed(d.items, 1) == b && Unprocessed(d.items, 2) == m - m / 4 &&
      Unprocessed(d.items, 3) == r - Clamp(b / 2, r) by {
      ShippedDiscountMarks(t, disc, b, m, r);
    }
    ShippedTotalFromUnprocessed(d, b, m, r);
  }

  /**
   * What the shipped offers make of any basket of catalog products with nothing processed
   * yet, holding b Butter, m Milk and r Bread in any order: the bulk pass fails exactly when
   * m leaves 3 Milk over after the groups of 4; otherwise the total is the price of m / 4
   * fewer Milk, one Bread in two Butter at half price, and the rest in full.
   */
  lemma {:induction false} ShippedOffersTotal(s: seq<Product>, bulk: seq<BulkBuyOffer>, disc: seq<DiscountOffer>,
                           b: nat, m: nat, r: nat)
    requires bulk == BulkBuyOffers && disc == DiscountOffers
    requires forall j :: 0 <= j < |s| ==> CatalogItem(s[j]) && !s[j].processed
    requires Count(s, 1) == b && Count(s, 2) == m && Count(s, 3) == r
    ensures Checkout(s, bulk, disc).Failure? <==> m % 4 == 3
    ensures Checkout(s, bulk, disc).Success? ==>
      Checkout(s, bulk, disc).value.cost ==
        ShippedPrice(b, m, r)
  {
    assert BulkBuyOfferCalculator.FreeMarked(s, bulk).Failure? <==> m % 4 == 3 by {
      ShippedBulkStage(s, bulk, m);
    }
    if m % 4 != 3 {
      var t := BulkBuyOfferCalculator.FreeMarked(s, bulk).value;
      var d := DiscountOfferCalculator.DiscountPass(t, disc);
      assert WithRegularCost(d).cost == ShippedPrice(b, m, r) by {
        ShippedBulkStage(s, bulk, m);
        SameExceptProcessedMatches(s, t, 1);
        SameExceptProcessedMatches(s, t, 2);
        SameExceptProcessedMatches(s, t, 3);
        ShippedDiscountTotal(t, disc, b, m, r);
      }
    }
  }

  // ---- Acceptance scenarios, with the shipped catalog and offers ----

  const Butter: Product := NewProduct(1, "Butter", 0.80)
  const Milk: Product := NewProduct(2, "Milk", 1.15)
  const Bread: Product := NewProduct(3, "Bread", 1.00)

  lemma {:induction false} CountCopies(p: Product, quantity: nat, id: int)
    ensures Count(Copies(p, quantity), id) == if p.id == id then quantity else 0
  {
    if quantity > 0 {
      CountCopies(p, quantity - 1, id);
      CountAppend(Copies(p, quantity - 1), [p.ShallowCopy()], id);
    }
  }

  /** The list after adding b Butter, then m Milk, then r Bread to an empty basket. */
  function ShippedBasket(b: nat, m: nat, r: nat): (s: seq<Product>)
    ensures |s| == b + m + r
  {
    Copies(Butter, b) + Copies(Milk, m) + Copies(Bread, r)
  }

  /** The shipped offers on such a basket, for every b, m and r. */
  lemma {:induction false} ShippedBasketTotal(bulk: seq<BulkBuyOffer>, disc: seq<DiscountOffer>, b: nat, m: nat, r: nat)
    requires bulk == BulkBuyOffers && disc == DiscountOffers
    ensures Checkout(ShippedBasket(b, m, r), bulk, disc).Failure? <==> m % 4 == 3
    ensures Checkout(ShippedBasket(b, m, r), bulk, disc).Success? ==>
      Checkout(ShippedBasket(b, m, r), bulk, disc).value.cost ==
        ShippedPrice(b, m, r)
  {
    var s := ShippedBasket(b, m, r);
    forall id | id == 1 || id == 2 || id == 3
      ensures Count(s, id) == if id == 1 then b else if id == 2 then m else r
    {
      CountAppend(Copies(Butter, b) + Copies(Milk, m), Copies(Bread, r), id);
      CountAppend(Copies(Butter, b), Copies(Milk, m), id);
      CountCopies(Butter, b, id);
      CountCopies(Milk, m, id);
      CountCopies(Bread, r, id);
    }
    ShippedOffersTotal(s, bulk, disc, b, m, r);
  }

  /** Adds b Butter, m Milk and r Bread to a new basket over the shipped repositories and totals it. */
  method TotalShippedBasket(b: nat, m: nat, r: nat) returns (total: Result<real, BulkBuyOfferCalculator.BulkError>)
    ensures total.Failure? <==> m % 4 == 3
    ensures total.Success? ==>
      total.value == ShippedPrice(b, m, r)
  {
    var basket := new BasketService(Catalog, BulkBuyOffers, DiscountOffers);
    GetProductShipped();
    var added := basket.AddProduct(1, b);
    added := basket.AddProduct(2, m);
    added := basket.AddProduct(3, r);
    assert basket.products == ShippedBasket(b, m, r);
    ShippedBasketTotal(basket.bulkBuyOffers, basket.discountOffers, b, m, r);
    total := basket.CalculateTotalCost();
  }

  /** One Butter, one Milk and one Bread: no offer applies, 2.95. */
  method OneOfEachTest() returns (total: Result<real, BulkBuyOfferCalculator.BulkError>)
    ensures total == Success(2.95)
  {
    total := TotalShippedBasket(1, 1, 1);
  }

  /** Two Butter and two Bread: one Bread at half price, 3.10. */
  method TwoButterTwoBreadTest() returns (total: Result<real, BulkBuyOfferCalculator.BulkError>)
    ensures total == Success(3.10)
  {
    total := TotalShippedBasket(2, 0, 2);
  }

  /** Four Milk: the fourth is free, 3.45. */
  method FourMilkTest() returns (total: Result<real, BulkBuyOfferCalculator.BulkError>)
    ensures total == Success(3.45)
  {
    total := TotalShippedBasket(0, 4, 0);
  }

  /** Two Butter, eight Milk and one Bread: two Milk free and the Bread at half price, 9.00. */
  method MixedBasketTest() returns (total: Result<real, BulkBuyOfferCalculator.BulkError>)
    ensures total == Success(9.00)
  {
    total := TotalShippedBasket(2, 8, 1);
    assert Times(6, 1.15) == 6.90;
  }

  /** Three Milk: the fourth was not selected, so the bulk pass raises its error. */
  method ThreeMilkTest() returns (total: Result<real, BulkBuyOfferCalculator.BulkError>)
    ensures total == Failure(BulkBuyOfferCalculator.InsufficientFreeProductsSelected)
  {
    total := TotalShippedBasket(0, 3, 0);
    assert total.error.InsufficientFreeProductsSelected?;
  }
}
