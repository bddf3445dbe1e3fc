/**
 * The bulk "buy N get M free" pass (BulkBuytOfferCalculatorService.ProcessFreeProducts):
 * for each offer in turn, mark the free units of its product processed, or clear every
 * flag in the basket and fail when the customer has not picked up the free units owed.
 */
module BulkBuyOfferCalculator {
  import opened Wrappers
  import opened Entities
  import opened LineItems

  datatype BulkError = InsufficientFreeProductsSelected

  /** The pass divides by the group size, so it must not be zero; a positive one is required here. */
  predicate ValidOffer(o: BulkBuyOffer)
  {
    o.numberToBuy + o.numberFree > 0
  }

  predicate ValidOffers(offers: seq<BulkBuyOffer>)
  {
    forall o :: o in offers ==> ValidOffer(o)
  }

  function GroupSize(o: BulkBuyOffer): int
  {
    o.numberToBuy + o.numberFree
  }

  /** Complete groups of NumberToBuy + NumberFree among `n` units (floor division). */
  function Groups(o: BulkBuyOffer, n: nat): nat
    requires ValidOffer(o)
  {
    n / GroupSize(o)
  }

  /** Number of units the offer makes free among `n` units of its product. */
  function TotalFree(o: BulkBuyOffer, n: nat): int
    requires ValidOffer(o)
  {
    Groups(o, n) * o.numberFree
  }

  /** Units left over after the complete groups. */
  function NonQualifying(o: BulkBuyOffer, n: nat): int
    requires ValidOffer(o)
  {
    n - Groups(o, n) * GroupSize(o)
  }

  /** The leftover units already pay for another free unit that is not in the basket. */
  predicate Insufficient(o: BulkBuyOffer, n: nat)
    requires ValidOffer(o)
  {
    NonQualifying(o, n) >= o.numberToBuy
  }

  /**
   * The line items after the pass: offers are applied in order, each marking the first
   * TotalFree items of its product; the first offer whose leftover is insufficient
   * stops the pass with an error.
   */
  function FreeMarked(s: seq<Product>, offers: seq<BulkBuyOffer>): Result<seq<Product>, BulkError>
    requires ValidOffers(offers)
    decreases |offers|
  {
    if offers == [] then Success(s)
    else
      var o := offers[0];
      var n := Count(s, o.productId);
      if Insufficient(o, n) then Failure(InsufficientFreeProductsSelected)
      else FreeMarked(MarkFirst(s, o.productId, TotalFree(o, n)), offers[1..])
  }

  /** The largest free count any offer on product `id` gives for `n` units, or 0. */
  function FreeLimit(offers: seq<BulkBuyOffer>, id: int, n: nat): (m: nat)
    requires ValidOffers(offers)
    ensures forall o :: o in offers && o.productId == id ==> TotalFree(o, n) <= m
  {
    if offers == [] then 0
    else
      var rest := FreeLimit(offers[1..], id, n);
      var o := offers[0];
      if o.productId == id && TotalFree(o, n) > rest then TotalFree(o, n) else rest
  }

  /** A positive FreeLimit is the free count of one of the offers on the product. */
  lemma {:induction false} FreeLimitAttained(offers: seq<BulkBuyOffer>, id: int, n: nat) returns (o: BulkBuyOffer)
    requires ValidOffers(offers) && FreeLimit(offers, id, n) > 0
    ensures o in offers && o.productId == id && TotalFree(o, n) == FreeLimit(offers, id, n)
  {
    if offers[0].productId == id && TotalFree(offers[0], n) > FreeLimit(offers[1..], id, n) {
      o := offers[0];
    } else {
      o := FreeLimitAttained(offers[1..], id, n);
    }
  }

  /** No two offers are on the same product. */
  predicate DistinctProducts(offers: seq<BulkBuyOffer>)
  {
    forall k, l :: 0 <= k < l < |offers| ==> offers[k].productId != offers[l].productId
  }

  /** Without an offer on product `id`, nothing of it is free. */
  lemma {:induction false} FreeLimitNoOffer(offers: seq<BulkBuyOffer>, id: int, n: nat)
    requires ValidOffers(offers)
    requires forall o :: o in offers ==> o.productId != id
    ensures FreeLimit(offers, id, n) == 0
    decreases |offers|
  {
    if offers != [] {
      assert offers[0] in offers;
      forall o | o in offers[1..] ensures o.productId != id {
        assert o in offers;
      }
      FreeLimitNoOffer(offers[1..], id, n);
    }
  }

  /** With a single offer on product `id`, FreeLimit is that offer's free count (0 if that is negative). */
  lemma {:induction false} FreeLimitOneOffer(offers: seq<BulkBuyOffer>, i: nat, n: nat)
    requires ValidOffers(offers) && i < |offers|
    requires forall k :: 0 <= k < |offers| && k != i ==> offers[k].productId != offers[i].productId
    ensures offers[i] in offers
    ensures FreeLimit(offers, offers[i].productId, n) == if TotalFree(offers[i], n) > 0 then TotalFree(offers[i], n) else 0
    decreases |offers|
  {
    var id := offers[i].productId;
    if i == 0 {
      forall o | o in offers[1..] ensures o.productId != id {
        var k :| 0 <= k < |offers[1..]| && offers[1..][k] == o;
        assert offers[k + 1] == o;
      }
      FreeLimitNoOffer(offers[1..], id, n);
    } else {
      assert offers[1..][i - 1] == offers[i];
      FreeLimitOneOffer(offers[1..], i - 1, n);
    }
  }

  // ---- The pass ----

  method ProcessFreeProducts(products: array<Product>, offers: seq<BulkBuyOffer>) returns (r: Outcome<BulkError>)
    requires ValidOffers(offers)
    modifies products
    ensures match FreeMarked(old(products[..]), offers)
      case Success(t) => r == Pass && products[..] == t
      case Failure(e) => r == Fail(e) && products[..] == ClearAll(old(products[..]))
  {
    ghost var s0 := products[..];
    var oi := 0;
    while oi < |offers|
      invariant 0 <= oi <= |offers|
      invariant SameExceptProcessed(s0, products[..])
      invariant FreeMarked(s0, offers) == FreeMarked(products[..], offers[oi..])
    {
      var offer := offers[oi];
      assert offer in offers;
      var applicable := SelectMatching(products, offer.productId);
      var numBought := |applicable|;
      var numDiscounts := numBought / (offer.numberToBuy + offer.numberFree);
      var totalFree := numDiscounts * offer.numberFree;
      var nonQualifying := numBought - numDiscounts * (offer.numberToBuy + offer.numberFree);
      assert numBought == Count(products[..], offer.productId);
      assert totalFree == TotalFree(offer, numBought) && nonQualifying == NonQualifying(offer, numBought);
      FreeMarkedStep(products[..], offers, oi);
      if nonQualifying >= offer.numberToBuy {
        ghost var before := products[..];
        ClearProcessed(products);
        assert ClearAll(before) == ClearAll(s0);
        return Fail(InsufficientFreeProductsSelected);
      }
      ghost var s := products[..];
      MarkFree(products, applicable, offer.productId, totalFree);
      MarkFirstFrame(s, offer.productId, totalFree);
      oi := oi + 1;
    }
    assert offers[oi..] == [];
    r := Pass;
  }

  /** One offer of the pass: it fails, or it marks its free units and hands over to the rest. */
  lemma {:induction false} FreeMarkedStep(s: seq<Product>, offers: seq<BulkBuyOffer>, i: nat)
    requires ValidOffers(offers) && i < |offers|
    ensures offers[i] in offers
    ensures var o := offers[i];
      var n := Count(s, o.productId);
      FreeMarked(s, offers[i..]) ==
        if Insufficient(o, n) then Failure(InsufficientFreeProductsSelected)
        else FreeMarked(MarkFirst(s, o.productId, TotalFree(o, n)), offers[i + 1..])
  {
    assert offers[i..][0] == offers[i] && offers[i..][1..] == offers[i + 1..];
  }

  /**
   * The counted loop that marks selected items processed, stopping at `totalFree` items
   * or at the end of the selection, whichever comes first.
   */
  method MarkFree(products: array<Product>, applicable: seq<nat>, id: int, totalFree: int)
    requires applicable == Matches(products[..], id)
    modifies products
    ensures products[..] == MarkFirst(old(products[..]), id, totalFree)
  {
    ghost var s := products[..];
    var i := 0;
    while i < totalFree && i < |applicable|
      invariant 0 <= i <= |applicable|
      invariant i == 0 || i <= totalFree
      invariant products[..] == MarkFirst(s, id, i)
    {
      MarkNext(s, id, i);
      MatchesRank(s, id, i);
      var p := applicable[i];
      products[p] := products[p].(processed := true);
      i := i + 1;
    }
    assert i == Clamp(totalFree, |applicable|);
    MarkFirstClamp(s, id, totalFree);
  }

  // ---- Properties of the pass ----

  /**
   * When the offer does not fail, its free count is between 0 and the number of units
   * (when NumberFree is not negative), so the marking loop's bound on the selection's
   * length never cuts it short.
   */
  lemma {:induction false} FreeCountWithinUnits(o: BulkBuyOffer, n: nat)
    requires ValidOffer(o) && !Insufficient(o, n)
    ensures 0 <= NonQualifying(o, n) < o.numberToBuy
    ensures TotalFree(o, n) <= n
    ensures o.numberFree >= 0 ==> Clamp(TotalFree(o, n), n) == TotalFree(o, n)
  {
    var g := Groups(o, n);
    var size := GroupSize(o);
    assert n == g * size + NonQualifying(o, n);
    if o.numberFree > 0 {
      assert o.numberFree <= size;
      assert g * o.numberFree <= g * size;
    } else {
      assert g * o.numberFree <= 0;
    }
  }

  /** A number of units that is a whole number of groups never fails (for NumberToBuy > 0). */
  lemma {:induction false} WholeGroupsNeverFail(o: BulkBuyOffer, groups: nat)
    requires ValidOffer(o) && o.numberToBuy > 0
    ensures !Insufficient(o, groups * GroupSize(o))
    ensures TotalFree(o, groups * GroupSize(o)) == groups * o.numberFree
  {
    var n := GroupSize(o);
    var x := groups * n;
    var q := x / n;
    assert x == q * n + x % n;
    assert (q - groups) * n == -(x % n);
    MultipleOfPositive(q - groups, n);
    assert Groups(o, x) == groups;
  }

  /** A non-zero multiple of a positive number is at least that number away from zero. */
  lemma {:induction false} MultipleOfPositive(a: int, n: int)
    requires n > 0
    ensures a >= 1 ==> a * n >= n
    ensures a <= -1 ==> a * n <= -n
  {
    if a >= 1 {
      assert a * n == n + (a - 1) * n;
    } else if a <= -1 {
      assert a * n == -n + (a + 1) * n;
    }
  }

  /** The pass only changes flags: length, order, ids, names and prices stay. */
  lemma {:induction false} FreeMarkedFrame(s: seq<Product>, offers: seq<BulkBuyOffer>)
    requires ValidOffers(offers)
    requires FreeMarked(s, offers).Success?
    ensures SameExceptProcessed(s, FreeMarked(s, offers).value)
    ensures KeepsMarks(s, FreeMarked(s, offers).value)
    ensures forall j :: 0 <= j < |s| && (forall o :: o in offers ==> o.productId != s[j].id) ==>
      FreeMarked(s, offers).value[j] == s[j]
    decreases |offers|
  {
    if offers != [] {
      var o := offers[0];
      var s1 := MarkFirst(s, o.productId, TotalFree(o, Count(s, o.productId)));
      MarkFirstFrame(s, o.productId, TotalFree(o, Count(s, o.productId)));
      FreeMarkedFrame(s1, offers[1..]);
      forall j | 0 <= j < |s| && (forall o' :: o' in offers ==> o'.productId != s[j].id)
        ensures FreeMarked(s, offers).value[j] == s[j]
      {
        assert o in offers;
        forall o' | o' in offers[1..] ensures o'.productId != s1[j].id {
          assert o' in offers;
        }
      }
    }
  }

  /**
   * The pass fails exactly when some offer's leftover reaches its NumberToBuy, counted on
   * the original list: marking never changes the counts later offers see.
   */
  lemma {:induction false} FreeMarkedFailsIff(s: seq<Product>, offers: seq<BulkBuyOffer>)
    requires ValidOffers(offers)
    ensures FreeMarked(s, offers).Failure? <==>
      exists i :: 0 <= i < |offers| && Insufficient(offers[i], Count(s, offers[i].productId))
    decreases |offers|
  {
    if offers != [] {
      var o := offers[0];
      var n := Count(s, o.productId);
      if !Insufficient(o, n) {
        var s1 := MarkFirst(s, o.productId, TotalFree(o, n));
        MarkFirstFrame(s, o.productId, TotalFree(o, n));
        FreeMarkedFailsIff(s1, offers[1..]);
        forall i | 0 <= i < |offers|
          ensures Insufficient(offers[i], Count(s, offers[i].productId)) <==>
                  i > 0 && Insufficient(offers[1..][i - 1], Count(s1, offers[1..][i - 1].productId))
        {
          SameExceptProcessedMatches(s, s1, offers[i].productId);
        }
        if exists i :: 0 <= i < |offers| && Insufficient(offers[i], Count(s, offers[i].productId)) {
          var i :| 0 <= i < |offers| && Insufficient(offers[i], Count(s, offers[i].productId));
          assert Insufficient(offers[1..][i - 1], Count(s1, offers[1..][i - 1].productId));
        }
      }
    }
  }

  /**
   * Exactly which items end up processed: an item is processed after the pass when it was
   * before, or when fewer items of its product precede it than the largest free count of
   * the offers on that product. Offers on other products leave it alone.
   */
  lemma {:induction false} FreeMarkedExactly(s: seq<Product>, offers: seq<BulkBuyOffer>)
    requires ValidOffers(offers)
    requires FreeMarked(s, offers).Success?
    ensures |FreeMarked(s, offers).value| == |s|
    ensures forall j :: 0 <= j < |s| ==>
      FreeMarked(s, offers).value[j].processed ==
        (s[j].processed || Count(s[..j], s[j].id) < FreeLimit(offers, s[j].id, Count(s, s[j].id)))
    decreases |offers|
  {
    FreeMarkedFrame(s, offers);
    if offers != [] {
      var o := offers[0];
      var n := Count(s, o.productId);
      var s1 := MarkFirst(s, o.productId, TotalFree(o, n));
      MarkFirstFrame(s, o.productId, TotalFree(o, n));
      FreeMarkedExactly(s1, offers[1..]);
      forall j | 0 <= j < |s|
        ensures FreeMarked(s, offers).value[j].processed ==
          (s[j].processed || Count(s[..j], s[j].id) < FreeLimit(offers, s[j].id, Count(s, s[j].id)))
      {
        SameExceptProcessedMatches(s, s1, s[j].id);
        SameExceptProcessedPrefixCount(s, s1, s[j].id, j);
      }
    }
  }

  /**
   * How products are interleaved in the basket does not matter: for two baskets with the
   * same number of units of every product and nothing processed yet, the pass fails for
   * both or for neither, and the k-th unit of a product is marked in one exactly when the
   * k-th unit of that product is marked in the other.
   */
  lemma {:induction false} FreeMarkedIgnoresInterleaving(s: seq<Product>, u: seq<Product>, offers: seq<BulkBuyOffer>)
    requires ValidOffers(offers)
    requires forall id :: Count(s, id) == Count(u, id)
    requires forall j :: 0 <= j < |s| ==> !s[j].processed
    requires forall j :: 0 <= j < |u| ==> !u[j].processed
    ensures FreeMarked(s, offers).Failure? <==> FreeMarked(u, offers).Failure?
    ensures FreeMarked(s, offers).Success? ==>
      |FreeMarked(s, offers).value| == |s| && |FreeMarked(u, offers).value| == |u| &&
      forall j, j' :: 0 <= j < |s| && 0 <= j' < |u| && s[j].id == u[j'].id &&
                      Count(s[..j], s[j].id) == Count(u[..j'], u[j'].id) ==>
        FreeMarked(s, offers).value[j].processed == FreeMarked(u, offers).value[j'].processed
  {
    FreeMarkedFailsIff(s, offers);
    FreeMarkedFailsIff(u, offers);
    if FreeMarked(s, offers).Success? {
      FreeMarkedExactly(s, offers);
      FreeMarkedExactly(u, offers);
    }
  }

  /** Clearing leaves no flag set, whoever set it, and changes nothing else. */
  lemma {:induction false} ClearAllClearsEverything(products: seq<Product>)
    ensures forall j :: 0 <= j < |ClearAll(products)| ==> !ClearAll(products)[j].processed
    ensures SameExceptProcessed(products, ClearAll(products))
  {
  }

  /** No offers, or no items (with NumberToBuy > 0), leave the list as it is. */
  lemma {:induction false} FreeMarkedNoOp(s: seq<Product>, offers: seq<BulkBuyOffer>)
    requires ValidOffers(offers)
    requires offers == [] || (s == [] && forall o :: o in offers ==> o.numberToBuy > 0)
    ensures FreeMarked(s, offers) == Success(s)
  {
    if offers != [] {
      var o := offers[0];
      assert o in offers;
      assert MarkFirst(s, o.productId, TotalFree(o, 0)) == [];
      FreeMarkedNoOp(s, offers[1..]);
    }
  }

  /**
   * Offers on products the basket does not hold (with NumberToBuy > 0) neither fail nor
   * mark anything.
   */
  lemma {:induction false} FreeMarkedAbsentProducts(s: seq<Product>, offers: seq<BulkBuyOffer>)
    requires ValidOffers(offers)
    requires forall o :: o in offers ==> o.numberToBuy > 0 && Count(s, o.productId) == 0
    ensures FreeMarked(s, offers) == Success(s)
    decreases |offers|
  {
    if offers != [] {
      var o := offers[0];
      assert o in offers;
      assert !Insufficient(o, 0);
      assert MarkFirst(s, o.productId, TotalFree(o, 0)) == s;
      assert forall o' :: o' in offers[1..] ==> o' in offers;
      FreeMarkedAbsentProducts(s, offers[1..]);
    }
  }

  /**
   * Starting from a basket with nothing processed, a successful pass leaves exactly
   * FreeLimit units of each product processed: the free units every offer asks for fit
   * within the units bought.
   */
  lemma {:induction false} FreeMarkedCounts(s: seq<Product>, offers: seq<BulkBuyOffer>, id: int)
    requires ValidOffers(offers)
    requires forall j :: 0 <= j < |s| ==> !s[j].processed
    requires FreeMarked(s, offers).Success?
    ensures CountProcessed(FreeMarked(s, offers).value, id) == FreeLimit(offers, id, Count(s, id))
  {
    var t := FreeMarked(s, offers).value;
    var n := Count(s, id);
    var m := FreeLimit(offers, id, n);
    FreeMarkedExactly(s, offers);
    FreeMarkedFrame(s, offers);
    forall j | 0 <= j < |t| && t[j].id == id
      ensures t[j].processed <==> Count(t[..j], id) < m
    {
      SameExceptProcessedPrefixCount(s, t, id, j);
    }
    CountProcessedRankBelow(t, id, m);
    SameExceptProcessedMatches(s, t, id);
    if m > 0 {
      var o := FreeLimitAttained(offers, id, n);
      FreeMarkedFailsIff(s, offers);
      FreeCountWithinUnits(o, n);
    }
  }
  /** With nothing processed beforehand and a single offer on its product, exactly that offer's free count is processed. */
  lemma {:induction false} FreeMarkedCountsOneOffer(s: seq<Product>, offers: seq<BulkBuyOffer>, i: nat)
    requires ValidOffers(offers) && i < |offers| && DistinctProducts(offers)
    requires NoneProcessed(s)
    requires FreeMarked(s, offers).Success?
    ensures var n := TotalFree(offers[i], Count(s, offers[i].productId));
      CountProcessed(FreeMarked(s, offers).value, offers[i].productId) == if n > 0 then n else 0
  {
    FreeMarkedCounts(s, offers, offers[i].productId);
    forall k | 0 <= k < |offers| && k != i ensures offers[k].productId != offers[i].productId {
      if k < i {
        assert offers[k].productId != offers[i].productId;
      } else {
        assert offers[i].productId != offers[k].productId;
      }
    }
    FreeLimitOneOffer(offers, i, Count(s, offers[i].productId));
  }


  /**
   * Running the pass again on its own result, or on that result with more items marked
   * since, succeeds and marks nothing new: the counts it works from ignore the flags.
   */
  lemma {:induction false} FreeMarkedRepeat(s: seq<Product>, u: seq<Product>, offers: seq<BulkBuyOffer>)
    requires ValidOffers(offers)
    requires FreeMarked(s, offers).Success?
    requires SameExceptProcessed(FreeMarked(s, offers).value, u) && KeepsMarks(FreeMarked(s, offers).value, u)
    ensures FreeMarked(u, offers) == Success(u)
  {
    var t := FreeMarked(s, offers).value;
    FreeMarkedFrame(s, offers);
    FreeMarkedExactly(s, offers);
    SameExceptProcessedTransitive(s, t, u);
    FreeMarkedFailsIff(s, offers);
    FreeMarkedFailsIff(u, offers);
    forall i | 0 <= i < |offers| ensures Count(u, offers[i].productId) == Count(s, offers[i].productId) {
      SameExceptProcessedMatches(s, u, offers[i].productId);
    }
    var t2 := FreeMarked(u, offers).value;
    FreeMarkedFrame(u, offers);
    FreeMarkedExactly(u, offers);
    forall j | 0 <= j < |u| ensures u[j].processed == t2[j].processed {
      SameExceptProcessedMatches(s, u, u[j].id);
      SameExceptProcessedPrefixCount(s, u, u[j].id, j);
    }
    SameExceptProcessedSameFlags(u, t2);
  }

  // ---- The unit-test scenarios, stated for any basket with the tests' unit counts ----

  /** One unit with "buy 2 get 2 free" marks nothing and does not fail. */
  lemma {:induction false} OneUnitBuyTwoGetTwo(s: seq<Product>, offers: seq<BulkBuyOffer>)
    requires offers == [BulkBuyOffer(1, 2, 2)]
    requires Count(s, 1) == 1
    ensures FreeMarked(s, offers) == Success(s)
  {
    var o := offers[0];
    assert Groups(o, 1) == 0 && TotalFree(o, 1) == 0 && !Insufficient(o, 1);
    assert MarkFirst(s, 1, 0) == s;
    assert offers[1..] == [];
  }

  /** Five units with "buy 2 get 2 free": two marked, three not. */
  lemma {:induction false} FiveUnitsBuyTwoGetTwo(s: seq<Product>, offers: seq<BulkBuyOffer>)
    requires offers == [BulkBuyOffer(1, 2, 2)]
    requires Count(s, 1) == 5
    requires NoneProcessed(s)
    ensures FreeMarked(s, offers).Success?
    ensures CountProcessed(FreeMarked(s, offers).value, 1) == 2
    ensures Count(FreeMarked(s, offers).value, 1) == 5
  {
    assert Groups(offers[0], 5) == 1;
    FreeMarkedCounts(s, offers, 1);
    FreeMarkedFrame(s, offers);
    SameExceptProcessedMatches(s, FreeMarked(s, offers).value, 1);
  }

  /**
   * The sorted and the jumbled baskets of the multiple-offer test, under its five offers (6 Butter, 3 Milk,
   * 14 Cheese, 3 Bananas, 2 Peaches and others): whatever the order, the pass succeeds.
   */
  lemma {:induction false} MultipleOffersSucceed(s: seq<Product>, offers: seq<BulkBuyOffer>)
    requires offers == [BulkBuyOffer(1, 2, 1), BulkBuyOffer(2, 1, 2), BulkBuyOffer(4, 3, 4), BulkBuyOffer(6, 4, 2), BulkBuyOffer(7, 1, 1)]
    requires Count(s, 1) == 6 && Count(s, 2) == 3 && Count(s, 4) == 14
    requires Count(s, 6) == 3 && Count(s, 7) == 2
    ensures FreeMarked(s, offers).Success?
  {
    forall i | 0 <= i < |offers| ensures !Insufficient(offers[i], Count(s, offers[i].productId)) {
      if i == 0 {
        assert Groups(offers[0], 6) == 2;
      } else if i == 1 {
        assert Groups(offers[1], 3) == 1;
      } else if i == 2 {
        assert Groups(offers[2], 14) == 2;
      } else if i == 3 {
        assert Groups(offers[3], 3) == 0;
      } else {
        assert Groups(offers[4], 2) == 1;
      }
    }
    FreeMarkedFailsIff(s, offers);
  }

  /** In those baskets, whatever the order, 2 Butter, 2 Milk and 8 Cheese end up processed. */
  lemma {:induction false} MultipleOffersCounts(s: seq<Product>, offers: seq<BulkBuyOffer>)
    requires offers == [BulkBuyOffer(1, 2, 1), BulkBuyOffer(2, 1, 2), BulkBuyOffer(4, 3, 4), BulkBuyOffer(6, 4, 2), BulkBuyOffer(7, 1, 1)]
    requires Count(s, 1) == 6 && Count(s, 2) == 3 && Count(s, 4) == 14
    requires Count(s, 6) == 3 && Count(s, 7) == 2
    requires NoneProcessed(s)
    requires FreeMarked(s, offers).Success?
    ensures CountProcessed(FreeMarked(s, offers).value, 1) == 2
    ensures CountProcessed(FreeMarked(s, offers).value, 2) == 2
    ensures CountProcessed(FreeMarked(s, offers).value, 4) == 8
  {
    assert DistinctProducts(offers);
    assert CountProcessed(FreeMarked(s, offers).value, 1) == 2 by {
      assert offers[0].productId == 1;
      assert TotalFree(offers[0], 6) == 2;
      FreeMarkedCountsOneOffer(s, offers, 0);
      assert CountProcessed(FreeMarked(s, offers).value, offers[0].productId) == 2;
    }
    assert CountProcessed(FreeMarked(s, offers).value, 2) == 2 by {
      assert offers[1].productId == 2;
      assert TotalFree(offers[1], 3) == 2;
      FreeMarkedCountsOneOffer(s, offers, 1);
      assert CountProcessed(FreeMarked(s, offers).value, offers[1].productId) == 2;
    }
    assert CountProcessed(FreeMarked(s, offers).value, 4) == 8 by {
      assert offers[2].productId == 4;
      assert TotalFree(offers[2], 14) == 8;
      FreeMarkedCountsOneOffer(s, offers, 2);
      assert CountProcessed(FreeMarked(s, offers).value, offers[2].productId) == 8;
    }
  }

  /** In those baskets no Bananas and 1 Peaches end up processed. */
  lemma {:induction false} MultipleOffersCountsRest(s: seq<Product>, offers: seq<BulkBuyOffer>)
    requires offers == [BulkBuyOffer(1, 2, 1), BulkBuyOffer(2, 1, 2), BulkBuyOffer(4, 3, 4), BulkBuyOffer(6, 4, 2), BulkBuyOffer(7, 1, 1)]
    requires Count(s, 1) == 6 && Count(s, 2) == 3 && Count(s, 4) == 14
    requires Count(s, 6) == 3 && Count(s, 7) == 2
    requires NoneProcessed(s)
    requires FreeMarked(s, offers).Success?
    ensures CountProcessed(FreeMarked(s, offers).value, 6) == 0
    ensures CountProcessed(FreeMarked(s, offers).value, 7) == 1
  {
    assert DistinctProducts(offers);
    assert CountProcessed(FreeMarked(s, offers).value, 6) == 0 by {
      assert offers[3].productId == 6;
      assert TotalFree(offers[3], 3) == 0;
      FreeMarkedCountsOneOffer(s, offers, 3);
      assert CountProcessed(FreeMarked(s, offers).value, offers[3].productId) == 0;
    }
    assert CountProcessed(FreeMarked(s, offers).value, 7) == 1 by {
      assert offers[4].productId == 7;
      assert TotalFree(offers[4], 2) == 1;
      FreeMarkedCountsOneOffer(s, offers, 4);
      assert CountProcessed(FreeMarked(s, offers).value, offers[4].productId) == 1;
    }
  }

  /** With a single Peaches under "buy 1 get 1 free" the pass fails (and so clears every flag). */
  lemma {:induction false} MultipleOffersOnePeachFails(s: seq<Product>, offers: seq<BulkBuyOffer>)
    requires offers == [BulkBuyOffer(1, 2, 1), BulkBuyOffer(2, 1, 2), BulkBuyOffer(4, 3, 4), BulkBuyOffer(6, 4, 2), BulkBuyOffer(7, 1, 1)]
    requires Count(s, 7) == 1
    ensures FreeMarked(s, offers) == Failure(InsufficientFreeProductsSelected)
  {
    assert Groups(offers[4], 1) == 0 && Insufficient(offers[4], Count(s, offers[4].productId));
    FreeMarkedFailsIff(s, offers);
    assert FreeMarked(s, offers).error.InsufficientFreeProductsSelected?;
  }
}
