/** Sequences of calls as the host applies them: a call that returns an
    error is reverted as a whole, so the store after it is the store before
    it. Every store reachable from genesis satisfies the invariant. */
module NftRuntime {
  import opened Wrappers
  import opened Integers
  import opened Nft
  import opened NftInvariants

  /** One signed extrinsic of the pallet, with its authenticated caller. */
  datatype Call<A> =
    | MintCall(minter: A)
    | SellCall(seller: A, sellId: u64, price: u64)
    | CancelCall(canceller: A, cancelId: u64)

  /** Routes a call to its dispatchable. */
  function Dispatch<A(==)>(s: State<A>, c: Call<A>): Result<Step<A>, Error> {
    match c
    case MintCall(a) => Mint(s, a)
    case SellCall(a, u, p) => Sell(s, a, u, p)
    case CancelCall(a, u) => CancelOrder(s, a, u)
  }

  /** The store after the host applies `c`: its result on success, the
      unchanged store when the call fails. */
  function Apply<A(==)>(s: State<A>, c: Call<A>): State<A> {
    match Dispatch(s, c)
    case Ok(st) => st.state
    case Err(_) => s
  }

  /** The store after applying `calls` in order. */
  function Run<A(==)>(s: State<A>, calls: seq<Call<A>>): State<A>
    decreases |calls|
  {
    if |calls| == 0 then s else Run(Apply(s, calls[0]), calls[1..])
  }

  /** Every call, successful or not, keeps the invariant. */
  lemma ApplyPreservesInv<A(!new)>(s: State<A>, c: Call<A>)
    requires Inv(s)
    ensures Inv(Apply(s, c))
  {
    if Dispatch(s, c).Ok? {
      match c
      case MintCall(a) => MintPreservesInv(s, a);
      case SellCall(a, u, p) => SellPreservesInv(s, a, u, p);
      case CancelCall(a, u) => CancelPreservesInv(s, a, u);
    }
  }

  /** Any sequence of calls keeps the invariant. */
  lemma {:induction false} RunPreservesInv<A(!new)>(s: State<A>, calls: seq<Call<A>>)
    requires Inv(s)
    ensures Inv(Run(s, calls))
    decreases |calls|
  {
    if |calls| > 0 {
      ApplyPreservesInv(s, calls[0]);
      RunPreservesInv(Apply(s, calls[0]), calls[1..]);
    }
  }

  /** Every store reachable from genesis satisfies the invariant: both
      compact arrays are gap-free and both reverse indexes are bijections. */
  lemma ReachableInv<A(!new)>(calls: seq<Call<A>>)
    ensures Inv(Run(Genesis<A>(), calls))
  {
    GenesisInv<A>();
    RunPreservesInv(Genesis<A>(), calls);
  }

  /** Tokens are never destroyed and, with no transfer operation, never
      change hands or position: a minted token keeps its ownership record
      across any sequence of calls. */
  lemma {:induction false} RunKeepsOwnership<A>(s: State<A>, calls: seq<Call<A>>, u: u64)
    requires u in s.tokenIdToOwner
    ensures u in Run(s, calls).tokenIdToOwner
    ensures Run(s, calls).tokenIdToOwner[u] == s.tokenIdToOwner[u]
    decreases |calls|
  {
    if |calls| > 0 {
      RunKeepsOwnership(Apply(s, calls[0]), calls[1..], u);
    }
  }
}
