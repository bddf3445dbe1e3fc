# Basket offer pricing, modelled in Dafny

The system prices a shopping basket. A basket (`BasketService`) is a list of line items. Each
item is one unit of a catalog product (id, name, unit price) plus a `Processed` flag.
`AddProduct` looks a product up in the catalog (`ProductRepository.GetProduct`) and appends
`quantity` member-wise copies of it. `CalculateTotalCost` runs three passes over the same list,
in order:

1. **Bulk pass** (`BulkBuytOfferCalculatorService.ProcessFreeProducts`). For each "buy N, get
   F free" offer, the basket's units of the product form groups of N + F. The first
   `groups * F` units are marked processed, which makes them free. When the leftover units
   already reach N, the customer has not picked up the free unit they are owed. The pass then
   clears every flag and raises `InsufficientFreeProductsSelected`.
2. **Discount pass** (`DiscountOfferCalculatorService.Calculate`). For each "buy N of A, get B
   at p% off" offer, `count(A) / N` units of B are priced at `unitPrice * (1 - p)` and marked
   processed, as far as the units of B go. The pass returns the sum of those reduced prices.
3. **Regular pass** (`NonOfferCalculatorService.Calculate`). It returns the sum of the unit
   prices of the items that are still unprocessed.

The total is the discount pass's sum plus the regular pass's sum. The shipped catalog has
Butter (1) at 0.80, Milk (2) at 1.15 and Bread (3) at 1.00. The shipped offers are "buy 3
Milk, get 1 free" and "buy 2 Butter, get a Bread at 50% off".

Layout:

- `wrappers.dfy`: the `Outcome` and `Result` types that stand for exceptions.
- `entities.dfy`: `Product`, `BulkBuyOffer`, `DiscountOffer` and their `Equals`.
- `line_items.dfy`: counting, selecting and marking the items of one product, as functions and
  as the array loops the passes use.
- `repositories.dfy`: the catalog, the lookup and the shipped offers.
- `bulk_buy.dfy`, `discount.dfy`, `nonoffer.dfy`: the three passes.
- `basket.dfy`: the basket service and the shipped-offer results.

Each imperative pass is a method over an `array<Product>`. It is proved equal to a function
(`FreeMarked`, `DiscountPass`, `NonOfferCalculator.Calculate`), and the lemmas state what the
source promises in terms of those functions.

## Model

| member | source | states |
|---|---|---|
| Entities.Product.Equals | Domain/Entity/Product.cs:10-23 | true exactly when the argument is a non-null product with the same Id, Name and UnitPrice; the Processed flag takes no part |
| Entities.Product.ShallowCopy | Domain/Entity/Product.cs:25-28 | the copy has all four fields of the original, so it is Equal to it |
| Entities.NewProduct | DataAccess/Repository/ProductRepository.cs:13-15 | a product built by the object initializer has the given id, name and price and is not processed |
| Entities.BulkBuyOffer.Equals | Domain/Entity/BulkBuyOffer.cs:9-22 | true exactly when the argument is a bulk-buy offer with the same three fields (false for null or any other type) |
| Entities.DiscountOffer.Equals | Domain/Entity/DiscountOffer.cs:10-24 | true exactly when the argument is a discount offer with the same four fields (false for null or any other type) |
| Entities.ProductEqualsIgnoresProcessed | Domain/Entity/Product.cs:19-22 | equality is the comparison of Id, Name and UnitPrice, and flipping the other item's Processed flag does not change it |
| Entities.ProductEqualsReflexiveSymmetric | Domain/Entity/Product.cs:10-23 | every product equals itself, and equality is symmetric |
| Entities.BulkBuyOfferEqualsReflexiveSymmetric | Domain/Entity/BulkBuyOffer.cs:9-22 | every offer equals itself, and equality is symmetric |
| Entities.DiscountOfferEqualsReflexiveSymmetric | Domain/Entity/DiscountOffer.cs:10-24 | every offer equals itself, and equality is symmetric |
| Entities.BulkBuyOffersAreEqualIsEquality | DataAccess.IntegrationTests/Repository/BulkBuyOfferRepositoryTests.cs:13-24 | comparing offer lists element by element with Equals is the same as list equality |
| Entities.DiscountOffersAreEqualIsEquality | DataAccess.IntegrationTests/Repository/DiscountOfferRepositoryTests.cs:13-24 | comparing offer lists element by element with Equals is the same as list equality |
| LineItems.Count | BusinessLogic/Service/BulkBuytOfferCalculatorService.cs:25-27 | the number of units of a product is at most the length of the list |
| LineItems.Matches | BusinessLogic/Service/BulkBuytOfferCalculatorService.cs:25 | the selection of a product's items holds exactly Count positions, each of an item of that product, in increasing list order |
| LineItems.MatchesRank | BusinessLogic/Service/DiscountOfferCalculatorService.cs:30 | the k-th selected item has exactly k items of the same product before it |
| LineItems.MatchesComplete | BusinessLogic/Service/DiscountOfferCalculatorService.cs:30 | every item of the product is selected, at the position its rank gives |
| LineItems.SameExceptProcessedMatches | BusinessLogic/Service/DiscountOfferCalculatorService.cs:26-30 | counting and selecting ignore the Processed flags |
| LineItems.MarkNext | BusinessLogic/Service/BulkBuytOfferCalculatorService.cs:42-46 | marking the next selected item extends the marked prefix of the product by one item |
| LineItems.MarkFirstClamp | BusinessLogic/Service/BulkBuytOfferCalculatorService.cs:42 | the loop's two bounds: asking for more items than there are marks all of them, and a bound of zero or less marks none |
| LineItems.MarkFirstCount | BusinessLogic/Service/BulkBuytOfferCalculatorService.cs:42-46 | starting from nothing processed, marking the first k items leaves min(k, n) of the product's n items processed |
| LineItems.CountProcessedRankBelow | BusinessLogic/Service/DiscountOfferCalculatorService.cs:32-43 | when exactly the items ranked below m are processed, min(m, n) of them are |
| LineItems.MarkFirstFrame | BusinessLogic/Service/BulkBuytOfferCalculatorService.cs:42-46 | marking changes only flags, never clears one, and leaves other products' items alone |
| LineItems.CountZeroIff | DataAccess/Repository/ProductRepository.cs:20-25 | the count of an id is zero exactly when no item has that id |
| LineItems.CountAppend | BusinessLogic/Service/BasketService.cs:35-38 | counting is additive over appended items |
| LineItems.SelectMatching | BusinessLogic/Service/BulkBuytOfferCalculatorService.cs:25 | the filtering loop returns exactly the positions of the product's items, in list order |
| LineItems.CountMatching | BusinessLogic/Service/DiscountOfferCalculatorService.cs:26 | the counting loop returns the number of the product's items |
| LineItems.ClearProcessed | BusinessLogic/Service/BulkBuytOfferCalculatorService.cs:35-38 | after the loop every item's flag is cleared and nothing else has changed |
| Repositories.SingleOrDefault | DataAccess/Repository/ProductRepository.cs:20 | returns nothing exactly when no entry has the id, reports more than one exactly when several do, and otherwise returns the entry with that id |
| Repositories.Find | DataAccess/Repository/ProductRepository.cs:18-28 | succeeds exactly when one entry has the id and returns that entry; fails with ProductNotFound exactly when no entry has the id |
| Repositories.GetProduct | DataAccess/Repository/ProductRepository.cs:18-28 | a product that is returned comes from the fixed table and has the requested id |
| Repositories.UniqueIdsNeverMultiple | DataAccess/Repository/ProductRepository.cs:20 | in a table with unique ids the lookup never hits the duplicate error, and it succeeds exactly for the ids present |
| Repositories.CatalogIdsUnique | DataAccess/Repository/ProductRepository.cs:11-16 | the shipped table has no duplicate id |
| Repositories.GetProductShipped | DataAccess.IntegrationTests/Repository/ProductRepositoryTests.cs:21-28 | ids 1, 2 and 3 give Butter at 0.80, Milk at 1.15 and Bread at 1.00 |
| Repositories.GetProductUnknown | DataAccess.IntegrationTests/Repository/ProductRepositoryTests.cs:31-34 | every other id (4, for instance) raises ProductNotFound |
| BulkBuyOfferCalculator.ProcessFreeProducts | BusinessLogic/Service/BulkBuytOfferCalculatorService.cs:19-48 | on success the array holds the FreeMarked list; on failure it returns the error and every flag in the array is cleared |
| BulkBuyOfferCalculator.MarkFree | BusinessLogic/Service/BulkBuytOfferCalculatorService.cs:42-46 | the loop marks the first totalFree selected items, or all of them when there are fewer |
| BulkBuyOfferCalculator.FreeMarked | BusinessLogic/Service/BulkBuytOfferCalculatorService.cs:21-47 | the pass as a function, which ProcessFreeProducts is proved equal to; when it fails is given by FreeMarkedFailsIff, and what it marks by FreeMarkedExactly and FreeMarkedCounts |
| BulkBuyOfferCalculator.FreeLimit | BusinessLogic/Service/BulkBuytOfferCalculatorService.cs:23-30 | bounds from above the free count of every offer on the product |
| BulkBuyOfferCalculator.FreeLimitAttained | BusinessLogic/Service/BulkBuytOfferCalculatorService.cs:23-30 | a positive limit is the free count of an actual offer on the product |
| BulkBuyOfferCalculator.FreeLimitNoOffer | BusinessLogic/Service/BulkBuytOfferCalculatorService.cs:25 | a product without an offer gets nothing free |
| BulkBuyOfferCalculator.FreeLimitOneOffer | BusinessLogic/Service/BulkBuytOfferCalculatorService.cs:29-30 | with a single offer on the product, the limit is (count / (N + F)) * F |
| BulkBuyOfferCalculator.FreeCountWithinUnits | BusinessLogic/Service/BulkBuytOfferCalculatorService.cs:29-42 | when the offer does not fail, the leftover is below N and the free count fits within the units bought, so the loop's second bound never cuts it short |
| BulkBuyOfferCalculator.WholeGroupsNeverFail | BusinessLogic/Service/BulkBuytOfferCalculatorService.cs:29-33 | a whole number of groups of N + F never fails, and it gives groups * F free units |
| BulkBuyOfferCalculator.FreeMarkedFrame | BusinessLogic/Service/BulkBuytOfferCalculatorService.cs:42-46 | a successful pass changes only flags, never clears one, and leaves products without an offer as they were |
| BulkBuyOfferCalculator.FreeMarkedFailsIff | BusinessLogic/Service/BulkBuytOfferCalculatorService.cs:27-39 | the pass fails exactly when some offer's leftover, counted on the list as given, reaches its NumberToBuy |
| BulkBuyOfferCalculator.FreeMarkedExactly | BusinessLogic/Service/BulkBuytOfferCalculatorService.cs:23-47 | after a successful pass an item is processed exactly when it was before, or when fewer of its product's items precede it than the largest free count of the offers on that product |
| BulkBuyOfferCalculator.FreeMarkedIgnoresInterleaving | BusinessLogic.UnitTests/Service/BulkBuyOfferCalculatorServiceTests.cs:311-375 | two baskets with the same counts per product fail alike, and their k-th units of each product are marked alike, whatever the order of the items |
| BulkBuyOfferCalculator.ClearAllClearsEverything | BusinessLogic/Service/BulkBuytOfferCalculatorService.cs:35-38 | clearing leaves no item processed, including items earlier offers marked, and changes nothing else; ProcessFreeProducts returns this list on failure |
| BulkBuyOfferCalculator.FreeMarkedNoOp | BusinessLogic.UnitTests/Service/BulkBuyOfferCalculatorServiceTests.cs:27-74 | with no offers, or with no items, the pass succeeds and marks nothing |
| BulkBuyOfferCalculator.FreeMarkedAbsentProducts | BusinessLogic/Service/BulkBuytOfferCalculatorService.cs:25-46 | offers (with NumberToBuy > 0) on products the basket does not hold neither fail nor mark anything |
| BulkBuyOfferCalculator.FreeMarkedCounts | BusinessLogic/Service/BulkBuytOfferCalculatorService.cs:42-46 | starting from nothing processed, a successful pass leaves exactly the free limit of each product processed |
| BulkBuyOfferCalculator.FreeMarkedCountsOneOffer | BusinessLogic/Service/BulkBuytOfferCalculatorService.cs:29-46 | with one offer per product, exactly (count / (N + F)) * F units of each product end up processed |
| BulkBuyOfferCalculator.FreeMarkedRepeat | BusinessLogic/Service/BulkBuytOfferCalculatorService.cs:23-47 | the pass run again on its own result, even with more items marked since, succeeds and marks nothing new |
| BulkBuyOfferCalculator.OneUnitBuyTwoGetTwo | BusinessLogic.UnitTests/Service/BulkBuyOfferCalculatorServiceTests.cs:204-219 | one unit under "buy 2 get 2" neither fails nor marks anything |
| BulkBuyOfferCalculator.FiveUnitsBuyTwoGetTwo | BusinessLogic.UnitTests/Service/BulkBuyOfferCalculatorServiceTests.cs:222-241 | five units under "buy 2 get 2": two processed and three not |
| BulkBuyOfferCalculator.MultipleOffersSucceed | BusinessLogic.UnitTests/Service/BulkBuyOfferCalculatorServiceTests.cs:245-307 | the five-offer basket, in any order, does not fail |
| BulkBuyOfferCalculator.MultipleOffersCounts | BusinessLogic.UnitTests/Service/BulkBuyOfferCalculatorServiceTests.cs:297-304 | in it 2 Butter, 2 Milk and 8 Cheese end up processed |
| BulkBuyOfferCalculator.MultipleOffersCountsRest | BusinessLogic.UnitTests/Service/BulkBuyOfferCalculatorServiceTests.cs:297-307 | in it no Bananas and 1 Peaches end up processed |
| BulkBuyOfferCalculator.MultipleOffersOnePeachFails | BusinessLogic.UnitTests/Service/BulkBuyOfferCalculatorServiceTests.cs:377-427 | one Peaches under "buy 1 get 1" makes the pass fail with InsufficientFreeProductsSelected |
| DiscountOfferCalculator.Calculate | BusinessLogic/Service/DiscountOfferCalculatorService.cs:18-47 | the returned total and the new array are the cost and the items of DiscountPass on the array as given |
| DiscountOfferCalculator.PriceDiscounted | BusinessLogic/Service/DiscountOfferCalculatorService.cs:32-43 | the loop adds the offer's charge to the running total and marks the first min(numDiscounts, units present) items of the discounted product |
| DiscountOfferCalculator.DiscountPass | BusinessLogic/Service/DiscountOfferCalculatorService.cs:20-46 | the pass as a function, which Calculate is proved equal to; its total is given by DiscountPassCostIsTotalCharge, and what it marks by DiscountPassExactly and DiscountPassCounts |
| DiscountOfferCalculator.DiscountedCount | BusinessLogic/Service/DiscountOfferCalculatorService.cs:28-37 | an offer never prices more units than the basket holds |
| DiscountOfferCalculator.ChargeAtNext | BusinessLogic/Service/DiscountOfferCalculatorService.cs:41 | pricing one more item adds its unit price times (1 - PercentageOff) |
| DiscountOfferCalculator.DiscountLimit | BusinessLogic/Service/DiscountOfferCalculatorService.cs:24-30 | bounds from above the discounts every offer on the product earns |
| DiscountOfferCalculator.DiscountLimitAttained | BusinessLogic/Service/DiscountOfferCalculatorService.cs:24-30 | a positive limit is what an actual offer on the product earns |
| DiscountOfferCalculator.DiscountLimitNoOffer | BusinessLogic/Service/DiscountOfferCalculatorService.cs:30 | a product no offer discounts earns no discount |
| DiscountOfferCalculator.DiscountLimitOneOffer | BusinessLogic/Service/DiscountOfferCalculatorService.cs:26-28 | with a single offer on the product, the limit is count(bought product) / NumberToBuy |
| DiscountOfferCalculator.DiscountLimitIgnoresFlags | BusinessLogic/Service/DiscountOfferCalculatorService.cs:26-28 | the number of discounts earned ignores the Processed flags |
| DiscountOfferCalculator.DiscountPassFrame | BusinessLogic/Service/DiscountOfferCalculatorService.cs:39-42 | the pass changes only flags, never clears one, and leaves items no offer discounts as they were |
| DiscountOfferCalculator.ChargeAtIgnoresFlags | BusinessLogic/Service/DiscountOfferCalculatorService.cs:41 | the reduced prices do not depend on the flags |
| DiscountOfferCalculator.OfferChargeIgnoresFlags | BusinessLogic/Service/DiscountOfferCalculatorService.cs:26-43 | an offer's count and charge do not depend on the flags |
| DiscountOfferCalculator.DiscountPassCostIsTotalCharge | BusinessLogic/Service/DiscountOfferCalculatorService.cs:20-46 | the returned total is the sum of every offer's charge computed on the list as given, so what earlier offers marked does not change it |
| DiscountOfferCalculator.TotalChargeIgnoresFlags | BusinessLogic/Service/DiscountOfferCalculatorService.cs:20-46 | the reference total does not depend on the flags |
| DiscountOfferCalculator.DiscountPassCostIgnoresFlags | BusinessLogic/Service/DiscountOfferCalculatorService.cs:26-41 | items the bulk pass already made free are still counted and priced by the discount pass |
| DiscountOfferCalculator.DiscountPassExactly | BusinessLogic/Service/DiscountOfferCalculatorService.cs:24-44 | an item is processed after the pass exactly when it was before, or when fewer of its product's items precede it than the most discounts an offer on that product earns |
| DiscountOfferCalculator.DiscountPassCounts | BusinessLogic/Service/DiscountOfferCalculatorService.cs:32-43 | starting from nothing processed, min(limit, units present) units of each product end up processed |
| DiscountOfferCalculator.DiscountPassCountsOneOffer | BusinessLogic/Service/DiscountOfferCalculatorService.cs:26-43 | with one offer per discounted product, min(count(bought) / NumberToBuy, units present) units of that product end up processed |
| DiscountOfferCalculator.SingleOfferCount | BusinessLogic/Service/DiscountOfferCalculatorService.cs:26-43 | for a single offer, min(count(bought) / NumberToBuy, units present) units end up processed |
| DiscountOfferCalculator.DiscountPassNoOp | BusinessLogic.UnitTests/Service/DiscountOfferCalculatorServiceTests.cs:26-54 | with no offers, or when no offer earns a discount on something present, the total is 0 and nothing is marked |
| DiscountOfferCalculator.UniformCharge | BusinessLogic/Service/DiscountOfferCalculatorService.cs:41 | items that share one reduced price cost their number times that price |
| DiscountOfferCalculator.UniformOfferCharge | BusinessLogic/Service/DiscountOfferCalculatorService.cs:32-41 | the first k units of a product with one reduced price cost k times that price |
| DiscountOfferCalculator.DiscountPassRepeat | BusinessLogic/Service/DiscountOfferCalculatorService.cs:24-44 | the pass run again on its own result, even with more items marked since, marks nothing new and charges the same |
| DiscountOfferCalculator.FourOffersTotal | BusinessLogic.UnitTests/Service/DiscountOfferCalculatorServiceTests.cs:222-274 | the four-offer basket, in any order and whatever is already processed, totals 2.79 |
| DiscountOfferCalculator.FourOffersMarks | BusinessLogic.UnitTests/Service/DiscountOfferCalculatorServiceTests.cs:275-283 | in that basket 2 Bacon, 1 Bananas, no Peaches and the Table Salt end up processed |
| DiscountOfferCalculator.FourOffersMarksBought | BusinessLogic.UnitTests/Service/DiscountOfferCalculatorServiceTests.cs:275-283 | in that basket none of the bought-side Butter, Milk, Bread or Cheese ends up processed |
| NonOfferCalculator.Calculate | BusinessLogic/Service/NonOfferCalculatorService.cs:12 | the sum of the unit prices of the unprocessed items; characterised by CalculateSplitsFullPrice, NothingProcessedCostsEverything and MarkOneLowersCost |
| NonOfferCalculator.SumPricesIgnoresFlags | BusinessLogic/Service/NonOfferCalculatorService.cs:12 | the full price of a list does not depend on its flags |
| NonOfferCalculator.CalculateSplitsFullPrice | BusinessLogic/Service/NonOfferCalculatorService.cs:12 | the regular cost plus the prices of the processed items is the full price of the list |
| NonOfferCalculator.NothingProcessedCostsEverything | BusinessLogic/Service/NonOfferCalculatorService.cs:12 | with nothing processed, the regular cost is the full price |
| NonOfferCalculator.CalculateAppend | BusinessLogic/Service/NonOfferCalculatorService.cs:12 | the regular cost is additive over concatenation |
| NonOfferCalculator.MarkOneLowersCost | BusinessLogic/Service/NonOfferCalculatorService.cs:12 | marking one unprocessed item lowers the regular cost by exactly its unit price |
| NonOfferCalculator.CalculateWithinFullPrice | BusinessLogic/Service/NonOfferCalculatorService.cs:12 | with no negative prices the regular cost lies between 0 and the full price |
| NonOfferCalculator.EmptyListCostsNothing | BusinessLogic.UnitTests/Service/NonOfferCalculatorServiceTests.cs:21-29 | an empty list costs 0 |
| NonOfferCalculator.NothingProcessedTest | BusinessLogic.UnitTests/Service/NonOfferCalculatorServiceTests.cs:32-54 | four Butter and eight Bread, nothing processed, cost 11.2 |
| NonOfferCalculator.SomeProcessedTest | BusinessLogic.UnitTests/Service/NonOfferCalculatorServiceTests.cs:57-80 | with two Butter and three Bread processed, the rest costs 7.6 |
| Basket.Copies | BusinessLogic/Service/BasketService.cs:35-38 | `quantity` member-wise copies of the product, none when quantity is zero or less |
| Basket.BasketService.constructor | BusinessLogic/Service/BasketService.cs:17-29 | a new basket has an empty Products list and the given repositories |
| Basket.BasketService.AddProduct | BusinessLogic/Service/BasketService.cs:31-39 | an unknown id fails with the lookup's error and leaves the list as it was; otherwise the list gains exactly `quantity` copies of the product at its end |
| Basket.BasketService.CalculateTotalCost | BusinessLogic/Service/BasketService.cs:42-51 | returns the Checkout total, the discount pass's sum plus the regular cost of what the offer passes left, and the list holds their flags; a bulk failure returns the error and leaves every flag cleared |
| Basket.Checkout | BusinessLogic/Service/BasketService.cs:44-50 | the three passes in order: the bulk pass's error, or the discount pass's items with its total plus the regular cost of those items; characterised by CheckoutCost, CheckoutRepeat and ShippedOffersTotal |
| Basket.PassesRepeat | BusinessLogic/Service/BasketService.cs:46-47 | the flags the two offer passes leave are left unchanged by both passes run again |
| Basket.CheckoutRepeat | BusinessLogic/Service/BasketService.cs:42-51 | totalling a basket a second time gives the same list and the same total |
| Basket.CheckoutCost | BusinessLogic/Service/BasketService.cs:42-51 | a successful checkout charges every discount offer's charge, worked out on the basket as given, plus the basket's full price less the prices of the items the offers accounted for |
| Basket.NoApplicableOfferCostsFullPrice | BusinessLogic/Service/BasketService.cs:42-51 | a basket that no offer applies to, with nothing processed, costs the sum of its unit prices and keeps its flags |
| Basket.RegularCostOfCatalogItems | BusinessLogic/Service/NonOfferCalculatorService.cs:12 | for catalog items, the regular cost is 0.80, 1.15 and 1.00 times the unprocessed Butter, Milk and Bread |
| Basket.ShippedBulkStage | DataAccess/Repository/BulkBuyOfferRepository.cs:13 | the shipped bulk offer fails exactly when Milk leaves 3 over after the groups of 4, and otherwise marks the first m / 4 Milk in list order and nothing else |
| Basket.ShippedDiscountCost | DataAccess/Repository/DiscountOfferRepository.cs:13 | the shipped discount offer charges min(Butter / 2, Bread) Bread at 0.50 |
| Basket.ShippedDiscountFlags | DataAccess/Repository/DiscountOfferRepository.cs:13 | after the shipped discount offer, the first m / 4 Milk and the first min(Butter / 2, Bread) Bread are exactly the processed items |
| Basket.ShippedDiscountMarks | DataAccess/Repository/DiscountOfferRepository.cs:13 | after both shipped offers, what is left to pay in full is b Butter, m - m / 4 Milk and r - min(b / 2, r) Bread |
| Basket.ShippedDiscountTotal | BusinessLogic/Service/BasketService.cs:47-48 | the total after the shipped discount offer and the regular pass is ShippedPrice |
| Basket.ShippedOffersTotal | BusinessLogic/Service/BasketService.cs:42-51 | with the shipped offers, any basket of b Butter, m Milk and r Bread in any order fails exactly when m % 4 == 3, and otherwise costs ShippedPrice: m / 4 Milk free, min(b / 2, r) Bread at half price, and the rest in full |
| Basket.ShippedBasketTotal | Application.AcceptanceTests/BasketTests.cs:23-73 | the same for the basket built by adding b Butter, then m Milk, then r Bread |
| Basket.CountCopies | BusinessLogic/Service/BasketService.cs:35-38 | adding `quantity` copies adds `quantity` units of that product and none of any other |
| Basket.TotalShippedBasket | Application.AcceptanceTests/BasketTests.cs:23-73 | building and totalling such a basket through BasketService fails exactly when m % 4 == 3 and otherwise returns ShippedPrice |
| Basket.OneOfEachTest | Application.AcceptanceTests/BasketTests.cs:23-34 | one of each costs 2.95 |
| Basket.TwoButterTwoBreadTest | Application.AcceptanceTests/BasketTests.cs:37-47 | two Butter and two Bread cost 3.10 |
| Basket.FourMilkTest | Application.AcceptanceTests/BasketTests.cs:50-59 | four Milk cost 3.45 |
| Basket.MixedBasketTest | Application.AcceptanceTests/BasketTests.cs:62-73 | two Butter, eight Milk and one Bread cost 9.00 |
| Basket.ThreeMilkTest | BusinessLogic/Service/BulkBuytOfferCalculatorService.cs:32-39 | three Milk (the free fourth not picked up) raise InsufficientFreeProductsSelected |

## Left out

- Money is an exact `real`. The source's `decimal` is exact for every amount here, and its 28-digit precision limit and overflow are not modelled.
- The `Products` list is a `seq` field. `CalculateTotalCost` copies it into an array, runs the passes on the array and writes it back. The source's passes share the list's item objects with the caller and with the lists they filter into. Here items are values, and the model is exact only because every pass writes through to the one array.
- BulkBuyOfferCalculator.FreeMarked: computes numDiscounts * NumberFree, numBought - numDiscounts * (NumberToBuy + NumberFree) and NumberToBuy + NumberFree in unbounded integers. The source computes them in 32-bit `int`, without checked arithmetic, so they wrap around on overflow. With realistic basket sizes this happens only for offer fields near the 32-bit bounds, a negative NumberFree for instance: NumberToBuy 2^30 + 2 and NumberFree -2^30 on six items give a wrapped free count of +2^30 in the source, so all six items are made free, while the model's count is negative and marks none.
- BulkBuyOfferCalculator.ProcessFreeProducts: the same 32-bit wrap-around is not modelled, for the same reason.
- BulkBuyOfferCalculator.ProcessFreeProducts requires NumberToBuy + NumberFree > 0. The source raises DivideByZeroException when it is zero, and that exception path is not modelled. A negative group size is excluded as well.
- DiscountOfferCalculator.Calculate requires NumberToBuy > 0. The source raises DivideByZeroException when it is zero, and that path is not modelled. A negative NumberToBuy is excluded as well.
- Basket.BasketService.CalculateTotalCost has the same two requirements on the offers it holds.
- Exceptions become `Outcome`/`Result` values, and a `SingleOrDefault` over a table with a duplicate id gives `MoreThanOneMatch`. A thrown exception has no further effect here.
- The repositories and calculator services are injected through interfaces in the source. Here the catalog and offer lists are constructor parameters and constants, and the calculators are module functions and methods.
- `GetHashCode` is not overridden in the source and is not modelled.
- `Application/Basket.cs` only wires the services together and forwards calls, so it is not modelled.
- The discount pass keeps a running total item by item. DiscountPass adds one offer's charge at a time. In exact arithmetic the two sums are equal, and `PriceDiscounted` proves the loop against it.
- BulkBuyOfferCalculator.FreeLimitOneOffer counts a negative free count (a negative NumberFree) as 0, since the marking loop then marks nothing.
- The unit-test scenarios are stated over any basket with the tests' counts per product, not over the tests' literal lists. The scenarios that used mocks supply the offer lists directly. The "jumbled order" variants follow from these and from FreeMarkedIgnoresInterleaving and the order-free DiscountPass lemmas.
- The basket tests of `BasketServiceTests.cs` use mocked services, and only the real services are modelled here.
