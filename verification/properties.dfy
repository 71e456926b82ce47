/** Properties relating several calls: `cancel_order` undoes `sell`, and a
    second cancel of the same token is rejected. */
module NftProperties {
  import opened Wrappers
  import opened Integers
  import opened Nft
  import opened NftInvariants

  /** Cancelling an order right after listing it restores the store, except
      that an unset order counter is left explicitly set to its old value. */
  lemma SellThenCancelRestores<A>(s: State<A>, who: A, tokenId: u64, price: u64)
    requires OrderBookInv(s)
    requires Sell(s, who, tokenId, price).Ok?
    ensures CancelOrder(Sell(s, who, tokenId, price).value.state, who, tokenId)
            == Ok(Step(s.(numberOfSellOrders := Some(OrderCount(s))), CancelledOrder(tokenId)))
  {
    var n := OrderCount(s);
    var t := Sell(s, who, tokenId, price).value.state;
    assert n !in s.sellOrders;
    assert t.sellOrders - {n} == s.sellOrders;
    assert t.isTokenOnSale - {tokenId} == s.isTokenOnSale;
  }

  /** After a successful cancel, cancelling the same token again fails with
      `TokenNotOnSale` (and so, the call being reverted, leaves the store as
      the first cancel left it). */
  lemma CancelTwiceFails<A>(s: State<A>, who: A, tokenId: u64)
    requires CancelOrder(s, who, tokenId).Ok?
    ensures CancelOrder(CancelOrder(s, who, tokenId).value.state, who, tokenId) == Err(TokenNotOnSale)
  {
  }

  /** A listed token cannot be listed again until its order is cancelled. */
  lemma SellTwiceFails<A>(s: State<A>, who: A, tokenId: u64, price: u64, price': u64)
    requires Sell(s, who, tokenId, price).Ok?
    ensures Sell(Sell(s, who, tokenId, price).value.state, who, tokenId, price') == Err(TokenAlreadyOnSale)
  {
  }
}
