/**
 * The data-access layer: the product catalog lookup (ProductRepository.GetProduct) and
 * the offer lists the two offer repositories return.
 */
module Repositories {
  import opened Wrappers
  import opened Entities
  import opened LineItems

  /** ProductNotFoundException, and the exception `SingleOrDefault` throws on a duplicate id. */
  datatype CatalogError = ProductNotFound | MoreThanOneMatch

  /** The fixed product table. */
  const Catalog: seq<Product> := [
    NewProduct(1, "Butter", 0.80),
    NewProduct(2, "Milk", 1.15),
    NewProduct(3, "Bread", 1.00)]

  /** The one bulk offer shipped: buy 3 Milk, get 1 free. */
  const BulkBuyOffers: seq<BulkBuyOffer> := [BulkBuyOffer(2, 3, 1)]

  /** The one discount offer shipped: buy 2 Butter, get a Bread at 50% off. */
  const DiscountOffers: seq<DiscountOffer> := [DiscountOffer(1, 2, 3, 0.5)]

  /** What a single-or-default search by id finds: nothing, exactly one product, or more than one. */
  datatype Lookup = NoMatch | Single(product: Product) | Multiple

  function SingleOrDefault(table: seq<Product>, id: int): (r: Lookup)
    ensures r.NoMatch? <==> Count(table, id) == 0
    ensures r.Multiple? <==> Count(table, id) > 1
    ensures r.Single? ==> r.product in table && r.product.id == id
  {
    var m := Matches(table, id);
    if |m| == 0 then NoMatch
    else if |m| == 1 then Single(table[m[0]])
    else Multiple
  }

  /** `GetProduct` over a given table: the product with that id, or the exception raised. */
  function Find(table: seq<Product>, id: int): (r: Result<Product, CatalogError>)
    ensures r.Success? <==> Count(table, id) == 1
    ensures r.Success? ==> r.value in table && r.value.id == id
    ensures r == Failure(ProductNotFound) <==> forall j :: 0 <= j < |table| ==> table[j].id != id
  {
    CountZeroIff(table, id);
    match SingleOrDefault(table, id)
    case NoMatch => Failure(ProductNotFound)
    case Single(p) => Success(p)
    case Multiple => Failure(MoreThanOneMatch)
  }

  /** ProductRepository.GetProduct: the lookup in the fixed table. */
  function GetProduct(id: int): (r: Result<Product, CatalogError>)
    ensures r.Success? ==> r.value in Catalog && r.value.id == id
  {
    Find(Catalog, id)
  }

  /** No two entries of a table share an id, so a lookup never finds more than one. */
  predicate UniqueIds(table: seq<Product>)
  {
    forall i, j :: 0 <= i < j < |table| ==> table[i].id != table[j].id
  }

  /** In a table with unique ids, each id occurs at most once. */
  lemma {:induction false} UniqueIdsCountAtMostOne(table: seq<Product>, id: int)
    requires UniqueIds(table)
    ensures Count(table, id) <= 1
  {
    if table != [] {
      var init := table[..|table| - 1];
      assert UniqueIds(init);
      UniqueIdsCountAtMostOne(init, id);
      if table[|table| - 1].id == id {
        CountZeroIff(init, id);
      }
    }
  }

  /** In a table with unique ids, a lookup succeeds exactly for the ids present and never hits the duplicate error. */
  lemma {:induction false} UniqueIdsNeverMultiple(table: seq<Product>, id: int)
    requires UniqueIds(table)
    ensures Find(table, id) != Failure(MoreThanOneMatch)
    ensures Find(table, id).Success? <==> exists j :: 0 <= j < |table| && table[j].id == id
  {
    UniqueIdsCountAtMostOne(table, id);
    CountZeroIff(table, id);
  }

  lemma {:induction false} CatalogIdsUnique()
    ensures UniqueIds(Catalog)
  {
  }

  /** Ids 1, 2 and 3 give Butter at 0.80, Milk at 1.15 and Bread at 1.00, none of them processed. */
  lemma {:induction false} GetProductShipped()
    ensures GetProduct(1) == Success(NewProduct(1, "Butter", 0.80))
    ensures GetProduct(2) == Success(NewProduct(2, "Milk", 1.15))
    ensures GetProduct(3) == Success(NewProduct(3, "Bread", 1.00))
  {
    assert Catalog[0] == NewProduct(1, "Butter", 0.80);
    assert Catalog[1] == NewProduct(2, "Milk", 1.15);
    assert Catalog[2] == NewProduct(3, "Bread", 1.00);
  }

  /** Every other id (4, say) raises ProductNotFound. */
  lemma {:induction false} GetProductUnknown(id: int)
    requires id != 1 && id != 2 && id != 3
    ensures GetProduct(id) == Failure(ProductNotFound)
  {
  }
}
