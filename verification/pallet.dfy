/** The NFT pallet: its storage items, errors, events and the three
    dispatchables `mint`, `sell` and `cancel_order`.

    Storage is an immutable record of maps and optional counters. A
    dispatchable is a function from the pre-call state, the already
    authenticated caller and the call's arguments to either the post-call
    state with the emitted event, or an error. The host reverts every write of
    a call that returns an error, so an error carries no state: the store
    stays as it was before the call. */
module Nft {
  import opened Wrappers
  import opened Integers

  /** A sell order: the token for sale and its asking price. */
  datatype Order = Order(tokenId: u64, sellPrice: u64)

  /** The pallet's error variants, in declaration order. `NoneValue` is
      declared but no dispatchable returns it. */
  datatype Error =
    | NoneValue
    | StorageOverflow
    | TokenIdAlreadyMinted
    | InValidTokenId
    | NotTokenOwner
    | TokenAlreadyOnSale
    | TokenNotOnSale
    | SellOrderNotFound
    | NoSellOrdersFound

  /** The events a successful call deposits. */
  datatype Event<A> =
    | NFTMinted(mintedId: u64, owner: A)
    | SellOrderCreated(listedId: u64, price: u64)
    | CancelledOrder(cancelledId: u64)

  /** The seven storage items of the pallet. `A` is the runtime's account id.
      `OwnerToTokenIds` is a double map, keyed here by the pair (owner, position). */
  datatype State<A> = State(
    nextTokenId: Option<u64>,
    tokenIdToOwner: map<u64, (A, u64)>,
    numberOfSellOrders: Option<u128>,
    sellOrders: map<u128, Order>,
    isTokenOnSale: map<u64, u128>,
    ownerToNumberOfNfts: map<A, u64>,
    ownerToTokenIds: map<(A, u64), u64>)

  /** A successful call: the new store and the event it deposits. */
  datatype Step<A> = Step(state: State<A>, event: Event<A>)

  /** The store at genesis: every item unset or empty. */
  function Genesis<A>(): State<A> {
    State(None, map[], None, map[], map[], map[], map[])
  }

  /** The id `mint` issues next: `NextTokenId`, read as 0 while unset. */
  function NextId<A>(s: State<A>): u64 {
    s.nextTokenId.GetOr(0)
  }

  /** The number of live sell orders: `NumberOfSellOrders`, read as 0 while unset. */
  function OrderCount<A>(s: State<A>): u128 {
    s.numberOfSellOrders.GetOr(0)
  }

  /** The raw `OwnerToNumberOfNFTs` entry of account `a`. */
  function NftsOwned<A(==)>(s: State<A>, a: A): Option<u64> {
    if a in s.ownerToNumberOfNfts then Some(s.ownerToNumberOfNfts[a]) else None
  }

  /** The number of tokens account `a` holds, read as 0 while unset. */
  function NftCount<A(==)>(s: State<A>, a: A): u64 {
    NftsOwned(s, a).GetOr(0)
  }

  /** `who` is the recorded owner of minted token `tokenId`. */
  predicate IsOwner<A(==)>(s: State<A>, who: A, tokenId: u64) {
    tokenId in s.tokenIdToOwner && s.tokenIdToOwner[tokenId].0 == who
  }

  /** `t` has the same ownership items (and token counter) as `s`. */
  predicate SameOwnership<A>(s: State<A>, t: State<A>) {
    && t.nextTokenId == s.nextTokenId
    && t.tokenIdToOwner == s.tokenIdToOwner
    && t.ownerToNumberOfNfts == s.ownerToNumberOfNfts
    && t.ownerToTokenIds == s.ownerToTokenIds
  }

  /** `t` has the same order-book items as `s`. */
  predicate SameOrderBook<A>(s: State<A>, t: State<A>) {
    && t.numberOfSellOrders == s.numberOfSellOrders
    && t.sellOrders == s.sellOrders
    && t.isTokenOnSale == s.isTokenOnSale
  }

  /** What a successful `mint` by `caller` leaves behind: the token counter
      advanced by one, the old counter value recorded as owned by `caller` at
      position = `caller`'s old count in both directions, `caller`'s count
      advanced by one, and nothing else changed. */
  ghost predicate Minted<A>(s: State<A>, caller: A, st: Step<A>) {
    var id, pos, t := NextId(s), NftCount(s, caller), st.state;
    && st.event == NFTMinted(id, caller)
    && t.nextTokenId == Some(id + 1)
    && t.ownerToNumberOfNfts.Keys == s.ownerToNumberOfNfts.Keys + {caller}
    && NftCount(t, caller) == pos + 1
    && (forall a :: a in s.ownerToNumberOfNfts && a != caller ==>
          t.ownerToNumberOfNfts[a] == s.ownerToNumberOfNfts[a])
    && t.tokenIdToOwner.Keys == s.tokenIdToOwner.Keys + {id}
    && t.tokenIdToOwner[id] == (caller, pos)
    && (forall u :: u in s.tokenIdToOwner ==> t.tokenIdToOwner[u] == s.tokenIdToOwner[u])
    && t.ownerToTokenIds.Keys == s.ownerToTokenIds.Keys + {(caller, pos)}
    && t.ownerToTokenIds[(caller, pos)] == id
    && (forall k :: k in s.ownerToTokenIds && k != (caller, pos) ==>
          t.ownerToTokenIds[k] == s.ownerToTokenIds[k])
    && SameOrderBook(s, t)
  }

  /** Mints a fresh token for `caller` (lib.rs `mint`). */
  function Mint<A(==)>(s: State<A>, caller: A): (r: Result<Step<A>, Error>)
    ensures s.nextTokenId == Some(U64_MAX) ==> r == Err(StorageOverflow)
    ensures s.nextTokenId != Some(U64_MAX) && NftsOwned(s, caller) == Some(U64_MAX) ==>
              r == Err(StorageOverflow)
    ensures (s.nextTokenId != Some(U64_MAX) && NftsOwned(s, caller) != Some(U64_MAX)
             && NextId(s) in s.tokenIdToOwner) ==> r == Err(TokenIdAlreadyMinted)
    ensures r.Ok? <==> s.nextTokenId != Some(U64_MAX) && NftsOwned(s, caller) != Some(U64_MAX)
                       && NextId(s) !in s.tokenIdToOwner
    ensures r.Ok? ==> Minted(s, caller, r.value)
  {
    if s.nextTokenId == Some(U64_MAX) then Err(StorageOverflow)
    else
      var id := NextId(s);
      if NftsOwned(s, caller) == Some(U64_MAX) then Err(StorageOverflow)
      else
        var pos := NftCount(s, caller);
        if id in s.tokenIdToOwner then Err(TokenIdAlreadyMinted)
        else
          var t := s.(
            nextTokenId := Some(id + 1),
            ownerToNumberOfNfts := s.ownerToNumberOfNfts[caller := pos + 1],
            tokenIdToOwner := s.tokenIdToOwner[id := (caller, pos)],
            ownerToTokenIds := s.ownerToTokenIds[(caller, pos) := id]);
          Ok(Step(t, NFTMinted(id, caller)))
  }

  /** What a successful `sell` of `tokenId` at `price` leaves behind: the
      order appended at index = the old order count, the count advanced by
      one, the token's sale index pointing at the new order, every other
      order and sale entry kept, and the ownership items untouched. */
  ghost predicate Listed<A>(s: State<A>, tokenId: u64, price: u64, st: Step<A>) {
    var n, t := OrderCount(s), st.state;
    && st.event == SellOrderCreated(tokenId, price)
    && t.numberOfSellOrders == Some(n + 1)
    && t.sellOrders.Keys == s.sellOrders.Keys + {n}
    && t.sellOrders[n] == Order(tokenId, price)
    && (forall i :: i in s.sellOrders && i != n ==> t.sellOrders[i] == s.sellOrders[i])
    && t.isTokenOnSale.Keys == s.isTokenOnSale.Keys + {tokenId}
    && t.isTokenOnSale[tokenId] == n
    && (forall u :: u in s.isTokenOnSale && u != tokenId ==> t.isTokenOnSale[u] == s.isTokenOnSale[u])
    && SameOwnership(s, t)
  }

  /** Lists `tokenId`, owned by `who`, for sale at `price` (lib.rs `sell`). */
  function Sell<A(==)>(s: State<A>, who: A, tokenId: u64, price: u64): (r: Result<Step<A>, Error>)
    ensures tokenId !in s.tokenIdToOwner ==> r == Err(InValidTokenId)
    ensures tokenId in s.tokenIdToOwner && !IsOwner(s, who, tokenId) ==> r == Err(NotTokenOwner)
    ensures IsOwner(s, who, tokenId) && tokenId in s.isTokenOnSale ==> r == Err(TokenAlreadyOnSale)
    ensures (IsOwner(s, who, tokenId) && tokenId !in s.isTokenOnSale
             && s.numberOfSellOrders == Some(U128_MAX)) ==> r == Err(StorageOverflow)
    ensures r.Ok? <==> IsOwner(s, who, tokenId) && tokenId !in s.isTokenOnSale
                       && s.numberOfSellOrders != Some(U128_MAX)
    ensures r.Ok? ==> Listed(s, tokenId, price, r.value)
  {
    if tokenId !in s.tokenIdToOwner then Err(InValidTokenId)
    else if s.tokenIdToOwner[tokenId].0 != who then Err(NotTokenOwner)
    else if tokenId in s.isTokenOnSale then Err(TokenAlreadyOnSale)
    else if s.numberOfSellOrders == Some(U128_MAX) then Err(StorageOverflow)
    else
      var n := OrderCount(s);
      var t := s.(
        numberOfSellOrders := Some(n + 1),
        sellOrders := s.sellOrders[n := Order(tokenId, price)],
        isTokenOnSale := s.isTokenOnSale[tokenId := n]);
      Ok(Step(t, SellOrderCreated(tokenId, price)))
  }

  /** `tokenId` is on sale and the order count is positive, so `cancel_order`
      has both the index of the token's order and a last index to work on. */
  ghost predicate CancelSlots<A>(s: State<A>, tokenId: u64) {
    tokenId in s.isTokenOnSale && OrderCount(s) > 0
  }

  /** What a successful `cancel_order` of `tokenId` leaves behind, with
      `idx` its order's index and `last` the last index: the count is
      `last`; slot `last` is gone; when `idx != last` the last order now sits
      at `idx` and its token's sale index says `idx`; `tokenId` is no longer
      on sale; every other order and sale entry is kept; the ownership items
      are untouched. */
  ghost predicate Delisted<A>(s: State<A>, tokenId: u64, st: Step<A>) {
    && CancelSlots(s, tokenId)
    && var idx, last, t := s.isTokenOnSale[tokenId], OrderCount(s) - 1, st.state;
    && st.event == CancelledOrder(tokenId)
    && t.numberOfSellOrders == Some(last)
    && last !in t.sellOrders
    && (idx != last ==>
          && last in s.sellOrders
          && idx in t.sellOrders && t.sellOrders[idx] == s.sellOrders[last])
    && (forall i :: i != idx && i != last ==>
          (i in t.sellOrders <==> i in s.sellOrders)
          && (i in t.sellOrders ==> t.sellOrders[i] == s.sellOrders[i]))
    && tokenId !in t.isTokenOnSale
    && (idx != last && s.sellOrders[last].tokenId != tokenId ==>
          var moved := s.sellOrders[last].tokenId;
          moved in t.isTokenOnSale && t.isTokenOnSale[moved] == idx)
    && (forall u :: u != tokenId && (idx == last || u != s.sellOrders[last].tokenId) ==>
          (u in t.isTokenOnSale <==> u in s.isTokenOnSale)
          && (u in t.isTokenOnSale ==> t.isTokenOnSale[u] == s.isTokenOnSale[u]))
    && SameOwnership(s, t)
  }

  /** Cancels the sell order of `tokenId`, owned by `who`, by moving the last
      order into the freed slot (lib.rs `cancel_order`). */
  function CancelOrder<A(==)>(s: State<A>, who: A, tokenId: u64): (r: Result<Step<A>, Error>)
    ensures tokenId !in s.tokenIdToOwner ==> r == Err(InValidTokenId)
    ensures tokenId in s.tokenIdToOwner && !IsOwner(s, who, tokenId) ==> r == Err(NotTokenOwner)
    ensures IsOwner(s, who, tokenId) && tokenId !in s.isTokenOnSale ==> r == Err(TokenNotOnSale)
    ensures IsOwner(s, who, tokenId) && tokenId in s.isTokenOnSale && OrderCount(s) == 0 ==>
              r == Err(NoSellOrdersFound)
    ensures (IsOwner(s, who, tokenId) && CancelSlots(s, tokenId)
             && s.isTokenOnSale[tokenId] != OrderCount(s) - 1
             && OrderCount(s) - 1 !in s.sellOrders) ==> r == Err(SellOrderNotFound)
    ensures r.Ok? <==> IsOwner(s, who, tokenId) && CancelSlots(s, tokenId)
                       && (s.isTokenOnSale[tokenId] == OrderCount(s) - 1
                           || OrderCount(s) - 1 in s.sellOrders)
    ensures r.Ok? ==> Delisted(s, tokenId, r.value)
  {
    if tokenId !in s.tokenIdToOwner then Err(InValidTokenId)
    else if s.tokenIdToOwner[tokenId].0 != who then Err(NotTokenOwner)
    else if tokenId !in s.isTokenOnSale then Err(TokenNotOnSale)
    else if OrderCount(s) == 0 then Err(NoSellOrdersFound)
    else
      var idx, last := s.isTokenOnSale[tokenId], OrderCount(s) - 1;
      if idx != last && last !in s.sellOrders then Err(SellOrderNotFound)
      else
        // The last order moves into the freed slot and its sale index follows it.
        var (orders, sale) :=
          if idx != last then
            var moved := s.sellOrders[last];
            (s.sellOrders[idx := moved], s.isTokenOnSale[moved.tokenId := idx])
          else (s.sellOrders, s.isTokenOnSale);
        var t := s.(
          isTokenOnSale := sale - {tokenId},
          sellOrders := orders - {last},
          numberOfSellOrders := Some(last));
        Ok(Step(t, CancelledOrder(tokenId)))
  }
}
