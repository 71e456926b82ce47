/** Concrete runs of the pallet from genesis, with accounts as integers. */
module NftScenarios {
  import opened Wrappers
  import opened Integers
  import opened Nft
  import opened NftInvariants

  const X: int := 1
  const Y: int := 2

  /** The store after X mints from genesis. */
  function AfterMint(): State<int> {
    var r := Mint(Genesis<int>(), X);
    assert r.Ok?;
    r.value.state
  }

  /** The store after X then lists token 0 at price 100. */
  function AfterSell(): State<int> {
    var r := Sell(AfterMint(), X, 0, 100);
    assert r.Ok?;
    r.value.state
  }

  /** The first mint issues token 0 to X at position 0, and X owns one token. */
  lemma FirstMint()
    ensures Mint(Genesis<int>(), X) == Ok(Step(AfterMint(), NFTMinted(0, X)))
    ensures AfterMint().tokenIdToOwner[0] == (X, 0)
    ensures AfterMint().ownerToTokenIds[(X, 0)] == 0
    ensures NftCount(AfterMint(), X) == 1 && NextId(AfterMint()) == 1
  {
  }

  /** X lists token 0 at 100: one order, at index 0, indexed from token 0. */
  lemma FirstSell()
    ensures OrderCount(AfterSell()) == 1
    ensures AfterSell().sellOrders[0] == Order(0, 100)
    ensures AfterSell().isTokenOnSale[0] == 0
  {
  }

  /** Y neither lists nor cancels X's token; X cannot list it twice; after X
      cancels, a second cancel finds it not on sale. */
  lemma ForeignAndRepeatedCalls()
    ensures Sell(AfterMint(), Y, 0, 100) == Err(NotTokenOwner)
    ensures CancelOrder(AfterSell(), Y, 0) == Err(NotTokenOwner)
    ensures Sell(AfterSell(), X, 0, 5) == Err(TokenAlreadyOnSale)
    ensures Sell(AfterSell(), X, 1, 5) == Err(InValidTokenId)
    ensures CancelOrder(AfterMint(), X, 0) == Err(TokenNotOnSale)
    ensures CancelOrder(AfterSell(), X, 0).Ok?
    ensures CancelOrder(CancelOrder(AfterSell(), X, 0).value.state, X, 0) == Err(TokenNotOnSale)
  {
  }

  /** Swap-delete on a book of five orders: cancelling the order at index 1
      moves the order at index 4 into slot 1, points its token's sale index
      at 1, and leaves four orders. */
  lemma CancelMiddleOfFive<A>(s: State<A>, who: A, tokenId: u64)
    requires OrderBookInv(s)
    requires OrderCount(s) == 5 && tokenId in s.isTokenOnSale && s.isTokenOnSale[tokenId] == 1
    requires IsOwner(s, who, tokenId)
    ensures CancelOrder(s, who, tokenId).Ok?
    ensures var t := CancelOrder(s, who, tokenId).value.state;
            && OrderCount(t) == 4
            && t.sellOrders[1] == s.sellOrders[4]
            && t.isTokenOnSale[s.sellOrders[4].tokenId] == 1
            && 4 !in t.sellOrders
  {
    assert 4 in s.sellOrders;
    assert s.isTokenOnSale[s.sellOrders[4].tokenId] == 4;
  }
}
