/**
 * The regular-price pass (NonOfferCalculatorService.Calculate): the sum of the unit
 * prices of the line items no offer has accounted for.
 */
module NonOfferCalculator {
  import opened Entities
  import opened LineItems

  /** Sum of the unit prices of the items no offer has processed. */
  function Calculate(s: seq<Product>): (total: real)
  {
    if s == [] then 0.0
    else (if !s[0].processed then s[0].unitPrice else 0.0) + Calculate(s[1..])
  }

  /** Sum of every item's unit price, processed or not. */
  function SumPrices(s: seq<Product>): real
  {
    if s == [] then 0.0 else s[0].unitPrice + SumPrices(s[1..])
  }

  /** Sum of the unit prices of the processed items. */
  function ProcessedPrices(s: seq<Product>): real
  {
    if s == [] then 0.0
    else (if s[0].processed then s[0].unitPrice else 0.0) + ProcessedPrices(s[1..])
  }

  /** The regular cost and the cost of the processed items split the full price of the basket. */
  lemma {:induction false} CalculateSplitsFullPrice(s: seq<Product>)
    ensures Calculate(s) + ProcessedPrices(s) == SumPrices(s)
  {
    if s != [] {
      CalculateSplitsFullPrice(s[1..]);
    }
  }

  /** The full price does not depend on the flags. */
  lemma {:induction false} SumPricesIgnoresFlags(s: seq<Product>, t: seq<Product>)
    requires SameExceptProcessed(s, t)
    ensures SumPrices(s) == SumPrices(t)
  {
    if s != [] {
      assert t[0].unitPrice == s[0].unitPrice;
      assert SameExceptProcessed(s[1..], t[1..]) by {
        forall j | 0 <= j < |s| - 1
          ensures t[1..][j] == s[1..][j].(processed := t[1..][j].processed)
        {
          assert t[1..][j] == t[j + 1] && s[1..][j] == s[j + 1];
        }
      }
      SumPricesIgnoresFlags(s[1..], t[1..]);
    }
  }

  /** With nothing processed, the result is the price of every item. */
  lemma {:induction false} NothingProcessedCostsEverything(s: seq<Product>)
    requires forall j :: 0 <= j < |s| ==> !s[j].processed
    ensures Calculate(s) == SumPrices(s)
  {
    if s != [] {
      NothingProcessedCostsEverything(s[1..]);
    }
  }

  /** The result is additive over list concatenation. */
  lemma {:induction false} CalculateAppend(a: seq<Product>, b: seq<Product>)
    ensures Calculate(a + b) == Calculate(a) + Calculate(b)
    decreases |a|
  {
    if a == [] {
      assert a + b == b;
    } else {
      assert (a + b)[1..] == a[1..] + b;
      CalculateAppend(a[1..], b);
    }
  }

  /** Marking one more item processed lowers the result by exactly that item's price. */
  lemma {:induction false} MarkOneLowersCost(s: seq<Product>, j: nat)
    requires j < |s| && !s[j].processed
    ensures Calculate(s[j := Mark(s[j])]) == Calculate(s) - s[j].unitPrice
  {
    var t := s[j := Mark(s[j])];
    assert s == s[..j] + [s[j]] + s[j + 1..];
    assert t == s[..j] + [Mark(s[j])] + s[j + 1..];
    CalculateAppend(s[..j] + [s[j]], s[j + 1..]);
    CalculateAppend(s[..j], [s[j]]);
    CalculateAppend(s[..j] + [Mark(s[j])], s[j + 1..]);
    CalculateAppend(s[..j], [Mark(s[j])]);
    assert [s[j]][..0] == [] && [Mark(s[j])][..0] == [];
  }

  /** With no negative prices, the result lies between 0 and the full price of the basket. */
  lemma {:induction false} CalculateWithinFullPrice(s: seq<Product>)
    requires forall j :: 0 <= j < |s| ==> s[j].unitPrice >= 0.0
    ensures 0.0 <= Calculate(s) <= SumPrices(s)
  {
    if s != [] {
      CalculateWithinFullPrice(s[1..]);
    }
  }

  // ---- The unit tests ----

  lemma {:induction false} EmptyListCostsNothing()
    ensures Calculate([]) == 0.0
  {
  }

  /** Four Butter at 0.80 and eight Bread at 1.00, nothing processed. */
  lemma {:induction false} NothingProcessedTest()
    ensures Calculate([
      NewProduct(1, "Butter", 0.80), NewProduct(1, "Butter", 0.80), NewProduct(1, "Butter", 0.80),
      NewProduct(1, "Butter", 0.80), NewProduct(3, "Bread", 1.00), NewProduct(3, "Bread", 1.00),
      NewProduct(3, "Bread", 1.00), NewProduct(3, "Bread", 1.00), NewProduct(3, "Bread", 1.00),
      NewProduct(3, "Bread", 1.00), NewProduct(3, "Bread", 1.00), NewProduct(3, "Bread", 1.00)]) == 11.2
  {
  }

  /** Four Butter and nine Bread, two Butter and three Bread already processed. */
  lemma {:induction false} SomeProcessedTest()
    ensures Calculate([
      Product(1, "Butter", 0.80, true), Product(1, "Butter", 0.80, false),
      Product(1, "Butter", 0.80, true), Product(1, "Butter", 0.80, false),
      Product(3, "Bread", 1.00, false), Product(3, "Bread", 1.00, false),
      Product(3, "Bread", 1.00, true), Product(3, "Bread", 1.00, false),
      Product(3, "Bread", 1.00, false), Product(3, "Bread", 1.00, true),
      Product(3, "Bread", 1.00, false), Product(3, "Bread", 1.00, false),
      Product(3, "Bread", 1.00, true)]) == 7.6
  {
  }
}
