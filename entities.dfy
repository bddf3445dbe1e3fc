/**
 * The domain entities: a product line item and the two kinds of offer, each with the
 * value equality it overrides `Equals` with (the Domain/Entity classes).
 */
module Entities {

  /** What `Equals(object obj)` may be handed: null, one of the entities, or any other object. */
  datatype Obj =
    | Null
    | ProductObj(product: Product)
    | BulkBuyOfferObj(bulkBuyOffer: BulkBuyOffer)
    | DiscountOfferObj(discountOffer: DiscountOffer)
    | OtherObj

  /**
   * One unit of a product in a basket. `processed` records that an offer has
   * already accounted for the unit's cost.
   */
  datatype Product = Product(id: int, name: string, unitPrice: real, processed: bool)
  {
    /** Value equality on Id, Name and UnitPrice; `processed` takes no part. */
    function Equals(obj: Obj): (r: bool)
      ensures r <==> obj.ProductObj? && obj.product.(processed := processed) == this
    {
      match obj
      case ProductObj(p) => id == p.id && name == p.name && unitPrice == p.unitPrice
      case _ => false
    }

    /** A member-wise copy: a new line item with the same four fields. */
    function ShallowCopy(): (r: Product)
      ensures r == this
      ensures r.Equals(ProductObj(this))
    {
      Product(id, name, unitPrice, processed)
    }
  }

  /** A product built by an object initializer that does not set `Processed`. */
  function NewProduct(id: int, name: string, unitPrice: real): (p: Product)
    ensures !p.processed
    ensures p.id == id && p.name == name && p.unitPrice == unitPrice
  {
    Product(id, name, unitPrice, false)
  }

  /** "Buy `numberToBuy` units of `productId` and get `numberFree` more free." */
  datatype BulkBuyOffer = BulkBuyOffer(productId: int, numberToBuy: int, numberFree: int)
  {
    /** Field-wise equality on ProductId, NumberToBuy and NumberFree. */
    function Equals(obj: Obj): (r: bool)
      ensures r <==> obj == BulkBuyOfferObj(this)
    {
      match obj
      case BulkBuyOfferObj(o) =>
        productId == o.productId && numberToBuy == o.numberToBuy && numberFree == o.numberFree
      case _ => false
    }
  }

  /**
   * "For every `numberToBuy` units of `productBoughtId`, one unit of
   * `productDiscountedId` costs its unit price times (1 - `percentageOff`)."
   */
  datatype DiscountOffer =
    DiscountOffer(productBoughtId: int, numberToBuy: int, productDiscountedId: int, percentageOff: real)
  {
    /** Field-wise equality on all four fields. */
    function Equals(obj: Obj): (r: bool)
      ensures r <==> obj == DiscountOfferObj(this)
    {
      match obj
      case DiscountOfferObj(o) =>
        productBoughtId == o.productBoughtId && numberToBuy == o.numberToBuy &&
        productDiscountedId == o.productDiscountedId && percentageOff == o.percentageOff
      case _ => false
    }
  }

  lemma {:induction false} ProductEqualsIgnoresProcessed(p: Product, q: Product)
    ensures p.Equals(ProductObj(q)) <==> p.id == q.id && p.name == q.name && p.unitPrice == q.unitPrice
    ensures p.Equals(ProductObj(q)) ==> p.Equals(ProductObj(q.(processed := !q.processed)))
  {
  }

  lemma {:induction false} ProductEqualsReflexiveSymmetric(p: Product, q: Product)
    ensures p.Equals(ProductObj(p))
    ensures p.Equals(ProductObj(q)) <==> q.Equals(ProductObj(p))
  {
  }

  lemma {:induction false} BulkBuyOfferEqualsReflexiveSymmetric(a: BulkBuyOffer, b: BulkBuyOffer)
    ensures a.Equals(BulkBuyOfferObj(a))
    ensures a.Equals(BulkBuyOfferObj(b)) <==> b.Equals(BulkBuyOfferObj(a))
  {
  }

  lemma {:induction false} DiscountOfferEqualsReflexiveSymmetric(a: DiscountOffer, b: DiscountOffer)
    ensures a.Equals(DiscountOfferObj(a))
    ensures a.Equals(DiscountOfferObj(b)) <==> b.Equals(DiscountOfferObj(a))
  {
  }

  /** Element-wise list comparison with `Equals`, as a collection assertion performs it. */
  predicate BulkBuyOffersAreEqual(expected: seq<BulkBuyOffer>, actual: seq<BulkBuyOffer>)
  {
    |expected| == |actual| &&
    forall i :: 0 <= i < |expected| ==> expected[i].Equals(BulkBuyOfferObj(actual[i]))
  }

  predicate DiscountOffersAreEqual(expected: seq<DiscountOffer>, actual: seq<DiscountOffer>)
  {
    |expected| == |actual| &&
    forall i :: 0 <= i < |expected| ==> expected[i].Equals(DiscountOfferObj(actual[i]))
  }

  lemma {:induction false} BulkBuyOffersAreEqualIsEquality(expected: seq<BulkBuyOffer>, actual: seq<BulkBuyOffer>)
    ensures BulkBuyOffersAreEqual(expected, actual) <==> expected == actual
  {
  }

  lemma {:induction false} DiscountOffersAreEqualIsEquality(expected: seq<DiscountOffer>, actual: seq<DiscountOffer>)
    ensures DiscountOffersAreEqual(expected, actual) <==> expected == actual
  {
  }
}
