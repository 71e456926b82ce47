/** The consistency invariants the pallet's storage keeps between calls, and
    their preservation by `mint`, `sell` and `cancel_order`. */
module NftInvariants {
  import opened Wrappers
  import opened Integers
  import opened Nft

  /** Per-owner compactness: account `a`'s entries of `OwnerToTokenIds` occupy
      exactly positions `0..count(a)`. */
  ghost predicate OwnerArraysCompact<A(!new)>(s: State<A>) {
    forall a, p: u64 :: (a, p) in s.ownerToTokenIds <==> p < NftCount(s, a)
  }

  /** `TokenIdToOwner` and `OwnerToTokenIds` are inverse to each other. */
  ghost predicate OwnershipAgrees<A>(s: State<A>) {
    && (forall u :: u in s.tokenIdToOwner ==>
          s.tokenIdToOwner[u] in s.ownerToTokenIds && s.ownerToTokenIds[s.tokenIdToOwner[u]] == u)
    && (forall k :: k in s.ownerToTokenIds ==>
          s.ownerToTokenIds[k] in s.tokenIdToOwner && s.tokenIdToOwner[s.ownerToTokenIds[k]] == k)
  }

  /** Every minted token id lies below the next id to be issued. */
  ghost predicate IssuedBelowNext<A>(s: State<A>) {
    forall u :: u in s.tokenIdToOwner ==> u < NextId(s)
  }

  /** Order-book compactness: `SellOrders` occupies exactly indices `0..count`. */
  ghost predicate OrderBookCompact<A>(s: State<A>) {
    forall i: u128 :: i in s.sellOrders <==> i < OrderCount(s)
  }

  /** `IsTokenOnSale` is the reverse index of `SellOrders`. */
  ghost predicate SaleIndexAgrees<A>(s: State<A>) {
    && (forall u :: u in s.isTokenOnSale ==>
          s.isTokenOnSale[u] in s.sellOrders && s.sellOrders[s.isTokenOnSale[u]].tokenId == u)
    && (forall i :: i in s.sellOrders ==>
          s.sellOrders[i].tokenId in s.isTokenOnSale && s.isTokenOnSale[s.sellOrders[i].tokenId] == i)
  }

  /** Only minted tokens are on sale. */
  ghost predicate OnSaleAreMinted<A>(s: State<A>) {
    forall u :: u in s.isTokenOnSale ==> u in s.tokenIdToOwner
  }

  ghost predicate OwnershipInv<A(!new)>(s: State<A>) {
    OwnerArraysCompact(s) && OwnershipAgrees(s) && IssuedBelowNext(s)
  }

  ghost predicate OrderBookInv<A>(s: State<A>) {
    OrderBookCompact(s) && SaleIndexAgrees(s)
  }

  /** The whole invariant the store keeps between calls. */
  ghost predicate Inv<A(!new)>(s: State<A>) {
    OwnershipInv(s) && OrderBookInv(s) && OnSaleAreMinted(s)
  }

  /** The genesis store satisfies the invariant. */
  lemma GenesisInv<A(!new)>()
    ensures Inv(Genesis<A>())
  {
  }

  /** Under the reverse-index invariant, `IsTokenOnSale[t] = i` holds exactly
      when `SellOrders[i]` is an order for `t`: the sale index is a bijection
      between listed tokens and occupied slots. */
  lemma SaleIndexIsBijection<A>(s: State<A>, u: u64, i: u128)
    requires SaleIndexAgrees(s)
    ensures (u in s.isTokenOnSale && s.isTokenOnSale[u] == i)
            <==> (i in s.sellOrders && s.sellOrders[i].tokenId == u)
  {
  }

  /** Under the ownership invariant, `TokenIdToOwner[t] = (a, p)` holds exactly
      when `OwnerToTokenIds[(a, p)] = t`. */
  lemma OwnershipIsBijection<A>(s: State<A>, u: u64, a: A, p: u64)
    requires OwnershipAgrees(s)
    ensures (u in s.tokenIdToOwner && s.tokenIdToOwner[u] == (a, p))
            <==> ((a, p) in s.ownerToTokenIds && s.ownerToTokenIds[(a, p)] == u)
  {
  }

  /** `mint` preserves per-owner compactness, the agreement of the two
      ownership maps and the issuance bound. */
  lemma MintPreservesOwnership<A(!new)>(s: State<A>, caller: A)
    requires OwnershipInv(s)
    requires Mint(s, caller).Ok?
    ensures OwnershipInv(Mint(s, caller).value.state)
  {
    var t := Mint(s, caller).value.state;
    var id, pos := NextId(s), NftCount(s, caller);
    assert (caller, pos) !in s.ownerToTokenIds;
    forall a, p: u64
      ensures (a, p) in t.ownerToTokenIds <==> p < NftCount(t, a)
    {
      if a != caller {
        assert NftCount(t, a) == NftCount(s, a);
      }
    }
  }

  /** Under the invariant `mint` never reports `TokenIdAlreadyMinted`: the
      issued id is always fresh. */
  lemma MintIdIsFresh<A>(s: State<A>, caller: A)
    requires IssuedBelowNext(s)
    ensures Mint(s, caller) != Err(TokenIdAlreadyMinted)
  {
  }

  /** `sell` preserves order-book compactness and the reverse index. */
  lemma SellPreservesOrderBook<A>(s: State<A>, who: A, tokenId: u64, price: u64)
    requires OrderBookInv(s)
    requires Sell(s, who, tokenId, price).Ok?
    ensures OrderBookInv(Sell(s, who, tokenId, price).value.state)
  {
    var t := Sell(s, who, tokenId, price).value.state;
    var n := OrderCount(s);
    assert n !in s.sellOrders;
    forall i | i in t.sellOrders
      ensures t.sellOrders[i].tokenId in t.isTokenOnSale
      ensures t.isTokenOnSale[t.sellOrders[i].tokenId] == i
    {
      if i != n {
        assert s.sellOrders[i].tokenId in s.isTokenOnSale;
      }
    }
  }

  /** `cancel_order` preserves order-book compactness and the reverse index:
      the swap with the last order keeps the book gap-free and the moved
      order's sale index follows it. */
  lemma CancelPreservesOrderBook<A>(s: State<A>, who: A, tokenId: u64)
    requires OrderBookInv(s)
    requires CancelOrder(s, who, tokenId).Ok?
    ensures OrderBookInv(CancelOrder(s, who, tokenId).value.state)
  {
    var t := CancelOrder(s, who, tokenId).value.state;
    var idx, last := s.isTokenOnSale[tokenId], OrderCount(s) - 1;
    assert s.sellOrders[idx].tokenId == tokenId;
    if idx != last {
      var moved := s.sellOrders[last].tokenId;
      assert s.isTokenOnSale[moved] == last;
      assert moved != tokenId;
      forall u | u in t.isTokenOnSale
        ensures t.isTokenOnSale[u] in t.sellOrders
        ensures t.sellOrders[t.isTokenOnSale[u]].tokenId == u
      {
        if u != moved {
          assert s.isTokenOnSale[u] != last && s.isTokenOnSale[u] != idx;
        }
      }
      forall i | i in t.sellOrders
        ensures t.sellOrders[i].tokenId in t.isTokenOnSale
        ensures t.isTokenOnSale[t.sellOrders[i].tokenId] == i
      {
        if i != idx {
          assert s.sellOrders[i].tokenId != tokenId && s.sellOrders[i].tokenId != moved;
        }
      }
    } else {
      forall i | i in t.sellOrders
        ensures t.sellOrders[i].tokenId in t.isTokenOnSale
        ensures t.isTokenOnSale[t.sellOrders[i].tokenId] == i
      {
        assert s.sellOrders[i].tokenId != tokenId;
      }
    }
  }

  /** `mint` keeps the whole invariant. */
  lemma MintPreservesInv<A(!new)>(s: State<A>, caller: A)
    requires Inv(s)
    requires Mint(s, caller).Ok?
    ensures Inv(Mint(s, caller).value.state)
  {
    MintPreservesOwnership(s, caller);
  }

  /** `sell` keeps the whole invariant. */
  lemma SellPreservesInv<A(!new)>(s: State<A>, who: A, tokenId: u64, price: u64)
    requires Inv(s)
    requires Sell(s, who, tokenId, price).Ok?
    ensures Inv(Sell(s, who, tokenId, price).value.state)
  {
    SellPreservesOrderBook(s, who, tokenId, price);
  }

  /** `cancel_order` keeps the whole invariant. */
  lemma CancelPreservesInv<A(!new)>(s: State<A>, who: A, tokenId: u64)
    requires Inv(s)
    requires CancelOrder(s, who, tokenId).Ok?
    ensures Inv(CancelOrder(s, who, tokenId).value.state)
  {
    CancelPreservesOrderBook(s, who, tokenId);
  }

  /** Under the invariant `mint` fails only on counter overflow. */
  lemma MintSucceedsUnderInv<A(!new)>(s: State<A>, caller: A)
    requires Inv(s)
    ensures Mint(s, caller).Ok?
            <==> s.nextTokenId != Some(U64_MAX) && NftsOwned(s, caller) != Some(U64_MAX)
  {
    MintIdIsFresh(s, caller);
  }

  /** Under the order-book invariant `cancel_order` fails only with
      `InValidTokenId`, `NotTokenOwner` or `TokenNotOnSale`: the defensive
      `NoSellOrdersFound` and `SellOrderNotFound` cannot occur. */
  lemma CancelSucceedsUnderInv<A>(s: State<A>, who: A, tokenId: u64)
    requires OrderBookInv(s)
    ensures CancelOrder(s, who, tokenId).Ok? <==> IsOwner(s, who, tokenId) && tokenId in s.isTokenOnSale
  {
    if IsOwner(s, who, tokenId) && tokenId in s.isTokenOnSale {
      var idx := s.isTokenOnSale[tokenId];
      assert idx in s.sellOrders;
      assert OrderCount(s) > 0;
    }
  }
}
