/**
 * Queries and updates on a basket's list of line items shared by the offer passes:
 * counting the items of one product, selecting them in list order, and marking the
 * first few of them processed.
 */
module LineItems {
  import opened Entities

  /** Number of items with id `id`. */
  function Count(s: seq<Product>, id: int): (n: nat)
    ensures n <= |s|
  {
    if s == [] then 0
    else Count(s[..|s| - 1], id) + (if s[|s| - 1].id == id then 1 else 0)
  }

  /**
   * Positions of the items with id `id`, in list order: the items an offer pass
   * selects for one product, given by their indices in the line-item array.
   */
  function Matches(s: seq<Product>, id: int): (idx: seq<nat>)
    ensures |idx| == Count(s, id)
    ensures forall k :: 0 <= k < |idx| ==> idx[k] < |s| && s[idx[k]].id == id
    ensures forall a, b :: 0 <= a < b < |idx| ==> idx[a] < idx[b]
  {
    if s == [] then []
    else Matches(s[..|s| - 1], id) + (if s[|s| - 1].id == id then [|s| - 1] else [])
  }

  /** The item marked as accounted for by an offer; nothing else about it changes. */
  function Mark(p: Product): Product
  {
    p.(processed := true)
  }

  /**
   * `s` with the first `k` items of product `id`, in list order, marked processed
   * (all of them when there are fewer than `k`, none when `k <= 0`). An item's rank
   * is the number of items of the same product before it.
   */
  function MarkFirst(s: seq<Product>, id: int, k: int): (r: seq<Product>)
  {
    seq(|s|, j requires 0 <= j < |s| =>
      if s[j].id == id && Count(s[..j], id) < k then Mark(s[j]) else s[j])
  }

  /** `s` with every item's `processed` flag cleared. */
  function ClearAll(s: seq<Product>): (r: seq<Product>)
  {
    seq(|s|, j requires 0 <= j < |s| => s[j].(processed := false))
  }

  /** `t` is `s` with at most the `processed` flags changed: same length, order, ids, names and prices. */
  predicate SameExceptProcessed(s: seq<Product>, t: seq<Product>)
  {
    |s| == |t| && forall j :: 0 <= j < |s| ==> t[j] == s[j].(processed := t[j].processed)
  }

  /** No item is processed yet. */
  predicate NoneProcessed(s: seq<Product>)
  {
    forall j :: 0 <= j < |s| ==> !s[j].processed
  }

  /** Every item processed in `s` is still processed in `t`. */
  predicate KeepsMarks(s: seq<Product>, t: seq<Product>)
    requires |s| == |t|
  {
    forall j :: 0 <= j < |s| && s[j].processed ==> t[j].processed
  }

  /** Number of processed items with id `id`. */
  function CountProcessed(s: seq<Product>, id: int): (n: nat)
    ensures n <= Count(s, id)
  {
    if s == [] then 0
    else CountProcessed(s[..|s| - 1], id) + (if s[|s| - 1].id == id && s[|s| - 1].processed then 1 else 0)
  }

  /** `k` cut down to the range 0..n. */
  function Clamp(k: int, n: nat): (r: nat)
    ensures r <= n
    ensures 0 <= k <= n ==> r == k
  {
    if k <= 0 then 0 else if k < n then k else n
  }

  // ---- Ranks and positions ----

  lemma {:induction false} CountPrefixStep(s: seq<Product>, id: int, j: nat)
    requires j < |s|
    ensures Count(s[..j + 1], id) == Count(s[..j], id) + (if s[j].id == id then 1 else 0)
  {
    assert s[..j + 1][..j] == s[..j];
  }

  /** The k-th selected position has exactly k items of the product before it. */
  lemma {:induction false} MatchesRank(s: seq<Product>, id: int, k: nat)
    requires k < |Matches(s, id)|
    ensures Count(s[..Matches(s, id)[k]], id) == k
  {
    var init := s[..|s| - 1];
    if k < |Matches(init, id)| {
      MatchesRank(init, id, k);
      var m := Matches(init, id)[k];
      assert Matches(s, id)[k] == m;
      assert init[..m] == s[..m];
    } else {
      assert Matches(s, id)[k] == |s| - 1;
      assert s[..|s| - 1] == init;
    }
  }

  /** Every item of the product is selected, at the position given by its rank. */
  lemma {:induction false} MatchesComplete(s: seq<Product>, id: int, j: nat)
    requires j < |s| && s[j].id == id
    ensures Count(s[..j], id) < Count(s, id)
    ensures Matches(s, id)[Count(s[..j], id)] == j
  {
    var init := s[..|s| - 1];
    if j == |s| - 1 {
      assert s[..j] == init;
    } else {
      MatchesComplete(init, id, j);
      assert init[..j] == s[..j];
    }
  }

  /** Counting and selecting look only at ids, so they ignore `processed`. */
  lemma {:induction false} SameExceptProcessedMatches(s: seq<Product>, t: seq<Product>, id: int)
    requires SameExceptProcessed(s, t)
    ensures Count(s, id) == Count(t, id)
    ensures Matches(s, id) == Matches(t, id)
  {
    if s != [] {
      SameExceptProcessedMatches(s[..|s| - 1], t[..|t| - 1], id);
    }
  }

  lemma {:induction false} SameExceptProcessedPrefixCount(s: seq<Product>, t: seq<Product>, id: int, j: nat)
    requires SameExceptProcessed(s, t) && j <= |s|
    ensures Count(s[..j], id) == Count(t[..j], id)
  {
    SameExceptProcessedMatches(s[..j], t[..j], id);
  }

  // ---- Marking ----

  /**
   * Marking the item at the next selected position extends the marked prefix by one:
   * the step the marking loops of both offer passes take.
   */
  lemma {:induction false} MarkNext(s: seq<Product>, id: int, i: nat)
    requires i < |Matches(s, id)|
    ensures Matches(s, id)[i] < |s|
    ensures MarkFirst(s, id, i)[Matches(s, id)[i] := Mark(s[Matches(s, id)[i]])] == MarkFirst(s, id, i + 1)
  {
    var m := Matches(s, id)[i];
    MatchesRank(s, id, i);
    var a := MarkFirst(s, id, i)[m := Mark(s[m])];
    var b := MarkFirst(s, id, i + 1);
    forall j | 0 <= j < |s|
      ensures a[j] == b[j]
    {
      if j != m && s[j].id == id {
        MatchesComplete(s, id, j);
      }
    }
  }

  /** Asking for more than there are marks all of them: `k` acts as `Clamp(k, Count(s, id))`. */
  lemma {:induction false} MarkFirstClamp(s: seq<Product>, id: int, k: int)
    ensures MarkFirst(s, id, k) == MarkFirst(s, id, Clamp(k, Count(s, id)))
  {
    forall j | 0 <= j < |s| && s[j].id == id
      ensures Count(s[..j], id) < Count(s, id)
    {
      MatchesComplete(s, id, j);
    }
  }

  lemma {:induction false} MarkFirstPrefix(s: seq<Product>, id: int, k: int, m: nat)
    requires m <= |s|
    ensures MarkFirst(s, id, k)[..m] == MarkFirst(s[..m], id, k)
  {
    forall j | 0 <= j < m
      ensures MarkFirst(s, id, k)[j] == MarkFirst(s[..m], id, k)[j]
    {
      assert s[..m][..j] == s[..j];
    }
  }

  /**
   * When the processed items of a product are exactly those ranked below `m`, there are
   * `min(m, n)` of them among its `n` items (none when `m <= 0`).
   */
  lemma {:induction false} CountProcessedRankBelow(s: seq<Product>, id: int, m: int)
    requires forall j :: 0 <= j < |s| && s[j].id == id ==> (s[j].processed <==> Count(s[..j], id) < m)
    ensures CountProcessed(s, id) == Clamp(m, Count(s, id))
  {
    if s != [] {
      var init := s[..|s| - 1];
      forall j | 0 <= j < |init| && init[j].id == id
        ensures init[j].processed <==> Count(init[..j], id) < m
      {
        assert init[..j] == s[..j];
      }
      CountProcessedRankBelow(init, id, m);
      assert s[..|s| - 1] == init;
    }
  }

  /** With nothing of the product processed yet, marking the first `k` leaves `min(k, n)` of its `n` items processed. */
  lemma {:induction false} MarkFirstCount(s: seq<Product>, id: int, k: int)
    requires forall j :: 0 <= j < |s| && s[j].id == id ==> !s[j].processed
    ensures CountProcessed(MarkFirst(s, id, k), id) == Clamp(k, Count(s, id))
  {
    var r := MarkFirst(s, id, k);
    forall j | 0 <= j < |r| && r[j].id == id
      ensures r[j].processed <==> Count(r[..j], id) < k
    {
      MarkFirstFrame(s, id, k);
      SameExceptProcessedPrefixCount(s, r, id, j);
    }
    CountProcessedRankBelow(r, id, k);
    MarkFirstFrame(s, id, k);
    SameExceptProcessedMatches(s, r, id);
  }

  /** `n` times the amount `c`, as repeated addition. */
  function Times(n: nat, c: real): real
  {
    if n == 0 then 0.0 else Times(n - 1, c) + c
  }

    /** No item has id `id` exactly when none is counted. */
  lemma {:induction false} CountZeroIff(s: seq<Product>, id: int)
    ensures Count(s, id) == 0 <==> forall j :: 0 <= j < |s| ==> s[j].id != id
  {
    if Count(s, id) > 0 {
      assert s[Matches(s, id)[0]].id == id;
    }
    forall j | 0 <= j < |s| && s[j].id == id ensures Count(s, id) > 0 {
      MatchesComplete(s, id, j);
    }
  }

  /** Counting is additive over list concatenation. */
  lemma {:induction false} CountAppend(a: seq<Product>, b: seq<Product>, id: int)
    ensures Count(a + b, id) == Count(a, id) + Count(b, id)
    decreases |b|
  {
    if b != [] {
      assert (a + b)[..|a + b| - 1] == a + b[..|b| - 1];
      CountAppend(a, b[..|b| - 1], id);
    } else {
      assert a + b == a;
    }
  }

  /** Marking changes nothing but flags, never clears one, and leaves other products alone. */
  lemma {:induction false} MarkFirstFrame(s: seq<Product>, id: int, k: int)
    ensures SameExceptProcessed(s, MarkFirst(s, id, k))
    ensures KeepsMarks(s, MarkFirst(s, id, k))
    ensures forall j :: 0 <= j < |s| && s[j].id != id ==> MarkFirst(s, id, k)[j] == s[j]
  {
  }

  /** Marking commutes with forgetting the flags: it is decided by ids alone. */
  lemma {:induction false} MarkFirstSameExceptProcessed(s: seq<Product>, t: seq<Product>, id: int, k: int)
    requires SameExceptProcessed(s, t)
    ensures SameExceptProcessed(MarkFirst(s, id, k), MarkFirst(t, id, k))
  {
    forall j | 0 <= j < |s| ensures Count(s[..j], id) == Count(t[..j], id) {
      SameExceptProcessedPrefixCount(s, t, id, j);
    }
  }

  /** Only flags differ between `s` and `u` when only flags differ between `s` and `t` and between `t` and `u`. */
  lemma {:induction false} SameExceptProcessedTransitive(s: seq<Product>, t: seq<Product>, u: seq<Product>)
    requires SameExceptProcessed(s, t) && SameExceptProcessed(t, u)
    ensures SameExceptProcessed(s, u)
  {
    forall j | 0 <= j < |s| ensures u[j] == s[j].(processed := u[j].processed) {
      assert u[j] == t[j].(processed := u[j].processed);
    }
  }

  /** Two lists that differ at most in their flags, and agree on those, are the same list. */
  lemma {:induction false} SameExceptProcessedSameFlags(s: seq<Product>, t: seq<Product>)
    requires SameExceptProcessed(s, t)
    requires forall j :: 0 <= j < |s| ==> s[j].processed == t[j].processed
    ensures s == t
  {
    forall j | 0 <= j < |s| ensures s[j] == t[j] {
      assert t[j] == s[j].(processed := t[j].processed);
    }
  }

  // ---- The loops that walk a line-item array ----

  /** Selects the product's items: their positions in the array, in list order. */
  method SelectMatching(products: array<Product>, id: int) returns (idx: seq<nat>)
    ensures idx == Matches(products[..], id)
  {
    idx := [];
    var i := 0;
    while i < products.Length
      invariant 0 <= i <= products.Length
      invariant idx == Matches(products[..i], id)
    {
      assert products[..i + 1][..i] == products[..i];
      if products[i].id == id {
        idx := idx + [i];
      }
      i := i + 1;
    }
    assert products[..i] == products[..];
  }

  /** Counts the product's items in the array. */
  method CountMatching(products: array<Product>, id: int) returns (n: nat)
    ensures n == Count(products[..], id)
  {
    n := 0;
    var i := 0;
    while i < products.Length
      invariant 0 <= i <= products.Length
      invariant n == Count(products[..i], id)
    {
      assert products[..i + 1][..i] == products[..i];
      if products[i].id == id {
        n := n + 1;
      }
      i := i + 1;
    }
    assert products[..i] == products[..];
  }

  /** Clears every item's `processed` flag in place. */
  method ClearProcessed(products: array<Product>)
    modifies products
    ensures products[..] == ClearAll(old(products[..]))
  {
    var i := 0;
    while i < products.Length
      invariant 0 <= i <= products.Length
      invariant forall j :: 0 <= j < i ==> products[j] == old(products[j]).(processed := false)
      invariant forall j :: i <= j < products.Length ==> products[j] == old(products[j])
    {
      products[i] := products[i].(processed := false);
      i := i + 1;
    }
  }
}
