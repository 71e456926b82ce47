# NFT pallet: a Dafny model of mint, sell and cancel_order

This project models the NFT pallet of a Substrate runtime (`pallets/template/src/lib.rs`).
The pallet keeps two compact arrays, each with a reverse index:

- **Per-owner token arrays.** `OwnerToNumberOfNFTs` plus `OwnerToTokenIds` form one
  array per owner. `TokenIdToOwner` maps each token back to `(owner, position)`.
- **The order book.** `NumberOfSellOrders` plus `SellOrders` form one global array
  of sell orders. `IsTokenOnSale` maps each listed token back to its order's index.

The pallet has three dispatchables:

- `mint` issues the next token id and appends it to the caller's array.
- `sell` appends an order to the book.
- `cancel_order` removes an order in O(1). It moves the last order into the freed
  slot and repoints that order's sale index.

## Model structure

- `wrappers.dfy` (`Wrappers`): `Option` for storage items read with `OptionQuery`,
  and `Result` for a `DispatchResult`.
- `integers.dfy` (`Integers`): `u64` and `u128` as subset types. Each `checked_add(1)`
  is written as an explicit comparison with the type's maximum.
- `pallet.dfy` (`Nft`): `Order`, `Error`, `Event` and the storage record `State<A>`.
  `A` is the runtime's account id. This file also holds `Mint`, `Sell` and
  `CancelOrder`, each a pure function `(State, caller, args) -> Result<Step, Error>`.
  A `Step` is the new store together with the event it deposits.
- `invariants.dfy` (`NftInvariants`) defines the invariants and proves that every
  call preserves them:
  - per-owner compactness;
  - agreement between `TokenIdToOwner` and `OwnerToTokenIds`;
  - every minted id lies below `NextTokenId`;
  - order-book compactness;
  - `IsTokenOnSale` is the exact reverse index of `SellOrders`;
  - only minted tokens are on sale.
- `views.dfy` (`NftViews`) reads the two compact arrays as sequences. Under that
  view `sell` and `mint` append, and `cancel_order` is the reference operation
  `SwapRemove`, which removes exactly one element (multiset equation).
- `runtime.dfy` (`NftRuntime`) applies sequences of calls, with every failed call
  reverted. It proves that every store reachable from genesis satisfies the
  invariant.
- `properties.dfy` (`NftProperties`) proves that cancel undoes sell, and that a
  repeated cancel or a repeated sell is rejected.
- `scenarios.dfy` (`NftScenarios`) holds concrete runs from genesis and the
  five-order swap-delete example.

The `expect` calls at lib.rs:166, 209, 218 and 242 are map lookups in the model.
Dafny proves each one safe from the `contains_key` check just before it, so
none of them can panic. Separately, `CancelSucceedsUnderInv` shows that under
the invariant the two defensive errors `NoSellOrdersFound` and
`SellOrderNotFound` are unreachable. `MintIdIsFresh` does the same for
`TokenIdAlreadyMinted`.

Facts about the source that the model keeps:

- The order price is a `u64` (`Order.sell_price`, lib.rs:36).
- The order counter `NumberOfSellOrders` is a `u128` (lib.rs:53).
- The error for an unminted token is spelled `InValidTokenId` (lib.rs:93).
- `mint` writes its counters (lib.rs:117, 122, 130, 135) before checks that can
  still fail (lib.rs:134 and 141). The model assumes that the host reverts a failed
  call's writes, so an error returns the pre-call store.

## Model

| member | source | states |
|---|---|---|
| Nft.Mint | pallets/template/src/lib.rs:110-153 | Returns `StorageOverflow` when `NextTokenId` is at `u64::MAX`. Otherwise returns `StorageOverflow` when the caller's count is at `u64::MAX`. Otherwise returns `TokenIdAlreadyMinted` when the id already has an owner. Otherwise it succeeds. On success, the issued id is the old counter (0 when unset) and the counter becomes id+1. The token is recorded in both directions as owned by the caller at the caller's old count (0 when unset). That count grows by one. Every other entry and the order book are unchanged. The event is `NFTMinted(id, caller)`. |
| Nft.Sell | pallets/template/src/lib.rs:157-197 | Rejects in this order: `InValidTokenId` for an unminted token, then `NotTokenOwner`, then `TokenAlreadyOnSale`, then `StorageOverflow` when the order count is at `u128::MAX`. Otherwise it succeeds. On success, `Order{token, price}` is stored at index = the old count (0 when unset). The count grows by one and `IsTokenOnSale[token]` points at the new index. Other orders and sale entries are kept. The ownership items and `NextTokenId` are untouched. |
| Nft.CancelOrder | pallets/template/src/lib.rs:201-262 | Rejects in this order: `InValidTokenId`, then `NotTokenOwner`, then `TokenNotOnSale`, then `NoSellOrdersFound` when the count is unset or 0, then `SellOrderNotFound` when the token's index is not the last and the last slot is empty. Otherwise it succeeds. On success the count becomes `last` and slot `last` is removed. When index differs from last, the last order sits at index and its token's sale entry says index. The cancelled token is no longer on sale. Everything else is kept, and the ownership items are untouched. |
| NftInvariants.GenesisInv | pallets/template/src/lib.rs:45-69 | The empty store, with all items unset, satisfies every invariant. |
| NftInvariants.SaleIndexIsBijection | pallets/template/src/lib.rs:55-61 | Under the reverse-index invariant, `IsTokenOnSale[t] = i` holds exactly when `SellOrders[i].token_id = t`. |
| NftInvariants.OwnershipIsBijection | pallets/template/src/lib.rs:47-69 | Under ownership agreement, `TokenIdToOwner[t] = (a, p)` holds exactly when `OwnerToTokenIds[(a, p)] = t`. |
| NftInvariants.MintPreservesOwnership | pallets/template/src/lib.rs:127-147 | A successful mint preserves three properties: per-owner compactness (keys `0..count(a)` for every account), agreement of the two ownership maps, and the issuance bound. |
| NftInvariants.MintIdIsFresh | pallets/template/src/lib.rs:114-141 | When every minted id lies below `NextTokenId`, mint never returns `TokenIdAlreadyMinted`. |
| NftInvariants.SellPreservesOrderBook | pallets/template/src/lib.rs:178-192 | A successful sell keeps `SellOrders` with exactly the keys `0..count`, and keeps `IsTokenOnSale` as its exact reverse index. |
| NftInvariants.CancelPreservesOrderBook | pallets/template/src/lib.rs:237-257 | The swap-with-last deletion keeps the book gap-free, and keeps the reverse index a bijection. |
| NftInvariants.MintPreservesInv | pallets/template/src/lib.rs:110-153 | A successful mint keeps the whole store invariant. |
| NftInvariants.SellPreservesInv | pallets/template/src/lib.rs:157-197 | A successful sell keeps the whole store invariant. |
| NftInvariants.CancelPreservesInv | pallets/template/src/lib.rs:201-262 | A successful cancel keeps the whole store invariant. |
| NftInvariants.MintSucceedsUnderInv | pallets/template/src/lib.rs:115-141 | Under the invariant, mint succeeds exactly when neither counter is at `u64::MAX`. |
| NftInvariants.CancelSucceedsUnderInv | pallets/template/src/lib.rs:214-242 | Under the order-book invariant, cancel succeeds exactly when the caller owns the token and the token is listed. So `NoSellOrdersFound` and `SellOrderNotFound` are unreachable. |
| NftViews.SwapRemove | pallets/template/src/lib.rs:237-257 | The reference swap-with-last removal. The length drops by one, every other slot is kept, and the last element lands in the freed slot. |
| NftViews.SwapRemoveIsPermutation | pallets/template/src/lib.rs:237-257 | The swap-with-last removal removes exactly one occurrence of the chosen element. The result is a permutation of the rest. |
| NftViews.OwnedTokensAreOwned | pallets/template/src/lib.rs:144-147 | Every token in an account's array is recorded in `TokenIdToOwner` as owned by that account at that position. |
| NftViews.OwnedTokensHoldAllOwned | pallets/template/src/lib.rs:144-147 | Conversely, every token recorded as owned by an account sits in that account's array at its recorded position. So `OwnerToNumberOfNFTs` is the number of tokens the account owns. |
| NftViews.SellAppendsToBook | pallets/template/src/lib.rs:178-192 | As a list, the order book after sell is the old book followed by `Order{token, price}`. |
| NftViews.CancelIsSwapRemove | pallets/template/src/lib.rs:237-257 | As a list, the order book after cancel is `SwapRemove` of the old book at the token's index. Its multiset is the old one minus the cancelled order. |
| NftViews.MintAppendsToOwner | pallets/template/src/lib.rs:128-147 | The caller's token array after mint is the old array followed by the new id. Every other account's array is unchanged. |
| NftRuntime.RunPreservesInv | pallets/template/src/lib.rs:106-262 | Any sequence of calls keeps the invariant, with failed calls reverted. |
| NftRuntime.ReachableInv | pallets/template/src/lib.rs:45-69 | Every store reachable from genesis has gap-free arrays and bijective reverse indexes. |
| NftRuntime.RunKeepsOwnership | pallets/template/src/lib.rs:141-147 | A minted token keeps its ownership record, owner and position, across any sequence of calls. Only mint writes `TokenIdToOwner`, and only for a fresh id. |
| NftProperties.SellThenCancelRestores | pallets/template/src/lib.rs:199-262 | Cancelling right after selling restores the store, except that an unset order counter ends up explicitly set. |
| NftProperties.CancelTwiceFails | pallets/template/src/lib.rs:214-253 | A second cancel of the same token fails with `TokenNotOnSale`. |
| NftProperties.SellTwiceFails | pallets/template/src/lib.rs:171-192 | A second sell of the same token fails with `TokenAlreadyOnSale`. |
| NftScenarios.FirstMint | pallets/template/src/lib.rs:115-147 | The first mint from genesis issues token 0 to the caller at position 0. The caller then owns one token and the next id is 1. |
| NftScenarios.FirstSell | pallets/template/src/lib.rs:173-192 | Listing token 0 at 100 gives one order, `SellOrders[0] = (0, 100)` and `IsTokenOnSale[0] = 0`. |
| NftScenarios.ForeignAndRepeatedCalls | pallets/template/src/lib.rs:162-215 | Concrete error cases. A non-owner's sell or cancel fails with `NotTokenOwner`. A repeated sell fails with `TokenAlreadyOnSale`. Selling an unminted id fails with `InValidTokenId`. Cancelling an unlisted token fails with `TokenNotOnSale`, including a second cancel. |
| NftScenarios.CancelMiddleOfFive | pallets/template/src/lib.rs:237-257 | In a five-order book, cancelling index 1 moves order 4 into slot 1 and repoints its token's sale index to 1. Four orders remain. |

## Left out

- Buy and any balance or currency transfer: the pallet has no such dispatchable. Its `Config` declares only `Event` (lib.rs:24-27).
- `ensure_signed` and origin handling: the caller is an already authenticated account id parameter.
- Event deposit: each successful call returns its event value in `Step`. The deposit into the system's event log is not modelled.
- Weights, `DbWeight`, storage hashers, SCALE encoding, the `pallet::getter` accessors and the FRAME macros are host plumbing. Each getter is a field access on the state record.
- The `mock`, `tests` and `benchmarking` modules are not part of this model.
- Partial writes before a late error (lib.rs:117, 122, 130, 135) are not modelled. An error leaves the pre-call store, on the assumption that the host reverts all writes of a failed call.
- The `NoneValue` error variant is declared but never returned. It is kept in `Error` and used nowhere.
- NftInvariants.MintSucceedsUnderInv: still admits `StorageOverflow` on the per-owner count. In fact that count cannot reach `u64::MAX` before `NextTokenId` does, but the model does not prove it, because the proof needs a cardinality argument over all minted ids.
- Order-count overflow in `sell` (lib.rs:184) is not proved unreachable. In fact the count is bounded by the number of minted tokens (at most 2^64), but proving it needs the same cardinality argument.
