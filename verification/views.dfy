/** Sequence views of the pallet's compact arrays: the order book as the
    list `SellOrders[0..count]`, and an account's tokens as the list
    `OwnerToTokenIds[(a, 0..count(a))]`. Under these views `sell` and `mint`
    append, and `cancel_order` is the swap-with-last removal `SwapRemove`. */
module NftViews {
  import opened Integers
  import opened Nft
  import opened NftInvariants

  /** Removes element `i` by moving the last element into its place and
      dropping the last slot. */
  function SwapRemove<T>(b: seq<T>, i: nat): (r: seq<T>)
    requires i < |b|
    ensures |r| == |b| - 1
    ensures forall j :: 0 <= j < |r| && j != i ==> r[j] == b[j]
    ensures i < |r| ==> r[i] == b[|b| - 1]
  {
    b[i := b[|b| - 1]][..|b| - 1]
  }

  /** `SwapRemove` removes exactly one occurrence of `b[i]`: the result is a
      permutation of `b` without that element. */
  lemma SwapRemoveIsPermutation<T>(b: seq<T>, i: nat)
    requires i < |b|
    ensures multiset(SwapRemove(b, i)) == multiset(b) - multiset{b[i]}
  {
    var last := |b| - 1;
    var c := b[i := b[last]];
    assert c == c[..last] + [c[last]];
    assert b == b[..last] + [b[last]];
    if i == last {
      assert c == b;
    } else {
      assert multiset(c) == multiset(b) - multiset{b[i]} + multiset{b[last]};
    }
  }

  /** The order book as a list: `SellOrders[0..count]`. */
  function Book<A>(s: State<A>): (b: seq<Order>)
    requires OrderBookCompact(s)
    ensures |b| == OrderCount(s)
    ensures forall i :: 0 <= i < |b| ==> b[i] == s.sellOrders[i]
  {
    seq(OrderCount(s), i requires 0 <= i < OrderCount(s) => s.sellOrders[i])
  }

  /** The tokens of account `a` as a list: `OwnerToTokenIds[(a, 0..count(a))]`. */
  function OwnedTokens<A(==,!new)>(s: State<A>, a: A): (ts: seq<u64>)
    requires OwnerArraysCompact(s)
    ensures |ts| == NftCount(s, a)
    ensures forall p :: 0 <= p < |ts| ==> ts[p] == s.ownerToTokenIds[(a, p)]
  {
    seq(NftCount(s, a), p requires 0 <= p < NftCount(s, a) => s.ownerToTokenIds[(a, p)])
  }

  /** Every token listed for an account is recorded as owned by that account
      at its list position. */
  lemma OwnedTokensAreOwned<A(!new)>(s: State<A>, a: A, p: nat)
    requires OwnershipInv(s)
    requires p < NftCount(s, a)
    ensures OwnedTokens(s, a)[p] in s.tokenIdToOwner
    ensures s.tokenIdToOwner[OwnedTokens(s, a)[p]] == (a, p)
  {
    assert (a, p) in s.ownerToTokenIds;
  }

  /** Every token recorded as owned by account `a` sits in `a`'s list at its
      recorded position; with `OwnedTokensAreOwned`, the list holds exactly
      the account's tokens and its length is the number of tokens it owns. */
  lemma OwnedTokensHoldAllOwned<A(!new)>(s: State<A>, a: A, u: u64)
    requires OwnershipInv(s)
    requires u in s.tokenIdToOwner && s.tokenIdToOwner[u].0 == a
    ensures s.tokenIdToOwner[u].1 < |OwnedTokens(s, a)|
    ensures OwnedTokens(s, a)[s.tokenIdToOwner[u].1] == u
  {
    assert s.tokenIdToOwner[u] in s.ownerToTokenIds;
  }

  /** `sell` appends `Order(tokenId, price)` to the order book. */
  lemma SellAppendsToBook<A>(s: State<A>, who: A, tokenId: u64, price: u64)
    requires OrderBookInv(s)
    requires Sell(s, who, tokenId, price).Ok?
    ensures OrderBookCompact(Sell(s, who, tokenId, price).value.state)
    ensures Book(Sell(s, who, tokenId, price).value.state) == Book(s) + [Order(tokenId, price)]
  {
    SellPreservesOrderBook(s, who, tokenId, price);
    var t := Sell(s, who, tokenId, price).value.state;
    var before, after := Book(s), Book(t);
    assert OrderCount(s) !in s.sellOrders;
    assert |after| == |before| + 1;
    forall i | 0 <= i < |before|
      ensures after[i] == before[i]
    {
      assert t.sellOrders[i] == s.sellOrders[i];
    }
    assert after[|before|] == Order(tokenId, price);
    assert after == before + [Order(tokenId, price)];
  }

  /** `cancel_order` removes the token's order from the book by swapping the
      last order into its slot, so the book keeps every other order. */
  lemma CancelIsSwapRemove<A>(s: State<A>, who: A, tokenId: u64)
    requires OrderBookInv(s)
    requires CancelOrder(s, who, tokenId).Ok?
    ensures OrderBookCompact(CancelOrder(s, who, tokenId).value.state)
    ensures s.isTokenOnSale[tokenId] < |Book(s)|
    ensures Book(CancelOrder(s, who, tokenId).value.state)
            == SwapRemove(Book(s), s.isTokenOnSale[tokenId])
    ensures multiset(Book(CancelOrder(s, who, tokenId).value.state))
            == multiset(Book(s)) - multiset{Book(s)[s.isTokenOnSale[tokenId]]}
  {
    CancelPreservesOrderBook(s, who, tokenId);
    var idx := s.isTokenOnSale[tokenId];
    assert idx in s.sellOrders;
    SwapRemoveIsPermutation(Book(s), idx);
  }

  /** `mint` appends the new id to the caller's token list and leaves every
      other account's list alone. */
  lemma MintAppendsToOwner<A(!new)>(s: State<A>, caller: A, other: A)
    requires OwnershipInv(s)
    requires Mint(s, caller).Ok?
    ensures OwnerArraysCompact(Mint(s, caller).value.state)
    ensures OwnedTokens(Mint(s, caller).value.state, caller) == OwnedTokens(s, caller) + [NextId(s)]
    ensures other != caller ==>
              OwnedTokens(Mint(s, caller).value.state, other) == OwnedTokens(s, other)
  {
    MintPreservesOwnership(s, caller);
    var t := Mint(s, caller).value.state;
    assert (caller, NftCount(s, caller)) !in s.ownerToTokenIds;
    if other != caller {
      assert NftCount(t, other) == NftCount(s, other);
    }
  }
}
