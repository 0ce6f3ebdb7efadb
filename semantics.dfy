/**
 * The contract's entry points as transitions of its storage. Each returns the new storage
 * and the response, or an error; the host commits a transaction's writes only when it
 * succeeds (`Commit`), so every error leaves the storage as it was.
 */
module Semantics {
  import opened Types
  import opened Msg
  import opened KeyOrder
  import Ledger

  /** A `RND_OUTCOME` value: the randomness and a flag meant to mark it used. */
  type Outcome = (Randomness, bool)

  /** The contract's storage items: `POINTS_STATE`, `NOIS_PROXY` and `RND_OUTCOME`. */
  datatype Storage = Storage(
    state: Option<Ledger.StateValue>,
    noisProxy: Option<Addr>,
    rndOutcome: map<string, Outcome>)

  /** What a transaction returns. */
  type Executed = Result<(Storage, Response)>

  /** The storage after a transaction: its writes if it succeeded, the old storage if it failed. */
  function Commit(before: Storage, e: Executed): (after: Storage)
    ensures e.Err? ==> after == before
    ensures e.Ok? ==> after == e.value.0
  {
    if e.Ok? then e.value.0 else before
  }

  /** What the caller sees of a transaction. */
  function ResponseOf(e: Executed): (r: Result<Response>)
    ensures r.Ok? <==> e.Ok?
    ensures r.Ok? ==> r.value == e.value.1
    ensures r.Err? ==> r.error == e.error
  {
    if e.Ok? then Ok(e.value.1) else Err(e.error)
  }

  /** Invariant of every storage the entry points produce: ledger solvent, no outcome flagged used. */
  predicate Invariant(deps: Storage)
  {
    && (deps.state.Some? ==> Ledger.Solvent(deps.state.value.balances))
    && (forall j | j in deps.rndOutcome :: !deps.rndOutcome[j].1)
  }

  /** Every outcome stored in `before` is still stored in `after`, with the same value. */
  predicate OutcomesKept(before: map<string, Outcome>, after: map<string, Outcome>)
  {
    forall j | j in before :: j in after && after[j] == before[j]
  }

  /** The record `instantiate` saves. */
  function InitialState(info: MessageInfo, msg: InstantiateMsg): Ledger.StateValue
  {
    Ledger.StateValue(info.sender, "POINTS", msg.shortDescription, map[], false, [], msg.prizeCost, [])
  }

  /**
   * `instantiate`: the sender becomes admin, the prize cost comes from the message, balances,
   * pool and whitelist start empty, `locked` false. An invalid oracle proxy address fails the
   * whole transaction, so the record saved first is discarded too.
   */
  function Instantiate(deps: Storage, info: MessageInfo, msg: InstantiateMsg, addrValid: string -> bool): (r: Executed)
    ensures r.Err? <==> !addrValid(msg.noisProxy)
    ensures r.Err? ==> r.error == InvalidProxyAddress
    ensures r.Ok? ==> r.value.0 == deps.(state := r.value.0.state, noisProxy := Some(msg.noisProxy))
    ensures r.Ok? ==> r.value.1.messages == []
    ensures r.Ok? ==>
      && r.value.0.state.Some?
      && var s := r.value.0.state.value;
      && s.admin == info.sender && s.symbol == "POINTS" && s.shortDescription == msg.shortDescription
      && s.balances == map[] && !s.locked && s.prizePool == [] && s.prizeCost == msg.prizeCost && s.whitelist == []
    ensures r.Ok? && Invariant(deps) ==> Invariant(r.value.0)
  {
    var deps' := deps.(state := Some(InitialState(info, msg)));
    if !addrValid(msg.noisProxy) then Err(InvalidProxyAddress)
    else Ok((deps'.(noisProxy := Some(msg.noisProxy)), Response([])))
  }

  /** `receive_nft`: anyone may append `(sender contract, token id)` to the end of the pool. */
  function ReceiveNft(deps: Storage, info: MessageInfo, msg: Cw721ReceiveMsg): (r: Executed)
    ensures r.Err? <==> deps.state.None?
    ensures r.Err? ==> r.error == Std
    ensures r.Ok? ==>
      && r.value.0.state.Some?
      && r.value.0.state.value.prizePool == deps.state.value.prizePool + [(msg.sender, msg.tokenId)]
      && r.value.0.state.value.(prizePool := deps.state.value.prizePool) == deps.state.value
      && r.value.0 == deps.(state := r.value.0.state)
      && r.value.1.messages == []
    ensures r.Ok? && Invariant(deps) ==> Invariant(r.value.0)
  {
    match deps.state
    case None => Err(Std)
    case Some(s) =>
      Ok((deps.(state := Some(s.(prizePool := s.prizePool + [(msg.sender, msg.tokenId)]))), Response([])))
  }

  /** The account has a balance record and has earned at least one point. */
  predicate HasEarned(s: Ledger.StateValue, address: Addr)
  {
    address in s.balances && s.balances[address].lifetime > 0
  }

  /**
   * The outcome a claim uses: the one under the smallest job id, whatever its flag.
   */
  ghost function FirstOutcome(rndOutcome: map<string, Outcome>): (o: Outcome)
    requires rndOutcome != map[]
    ensures exists j :: IsLeast(j, rndOutcome.Keys) && o == rndOutcome[j]
  {
    assert rndOutcome.Keys != {} by {
      var j :| j in rndOutcome;
    }
    MinKeyIsLeast(rndOutcome.Keys);
    rndOutcome[MinKey(rndOutcome.Keys)]
  }

  /**
   * `claim_prize`. The caller is never consulted; points are spent from `address`. The
   * checks run in order: state loaded; address valid (reported as `InvalidProxyAddress`);
   * account earned something (`Unauthorized`); some outcome stored (`NoRandomnessAvailable`);
   * then the ledger's claim, whose aborts are `Panic`. The outcome store is never written.
   */
  ghost function ClaimPrize(deps: Storage, info: MessageInfo, address: Addr, addrValid: string -> bool, intsInRange: Ledger.Draw): (r: Executed)
    ensures deps.state.None? ==> r == Err(Std)
    ensures deps.state.Some? && !addrValid(address) ==> r == Err(InvalidProxyAddress)
    ensures deps.state.Some? && addrValid(address) && !HasEarned(deps.state.value, address) ==> r == Err(Unauthorized)
    ensures deps.state.Some? && addrValid(address) && HasEarned(deps.state.value, address) && deps.rndOutcome == map[]
      ==> r == Err(NoRandomnessAvailable)
    ensures deps.state.Some? && addrValid(address) && HasEarned(deps.state.value, address) && deps.rndOutcome != map[]
      ==> (r.Err? <==> Ledger.ClaimPrize(deps.state.value, address, FirstOutcome(deps.rndOutcome).0, intsInRange).Err?)
    ensures r.Ok? ==>
      && deps.state.Some? && addrValid(address) && HasEarned(deps.state.value, address) && deps.rndOutcome != map[]
      && var claimed := Ledger.ClaimPrize(deps.state.value, address, FirstOutcome(deps.rndOutcome).0, intsInRange);
      && claimed.Ok?
      && r.value.0 == deps.(state := Some(claimed.value.0))
      && r.value.1 == Response([TransferNft(claimed.value.1.0, claimed.value.1.1, address)])
    ensures r.Err? && deps.state.Some? && addrValid(address) && HasEarned(deps.state.value, address) && deps.rndOutcome != map[]
      ==> r.error == Panic
    ensures r.Ok? ==> r.value.0.rndOutcome == deps.rndOutcome && r.value.0.noisProxy == deps.noisProxy
    ensures r.Ok? ==> |r.value.0.state.value.prizePool| == |deps.state.value.prizePool| - 1
    ensures r.Ok? && Invariant(deps) ==> Invariant(r.value.0)
  {
    match deps.state
    case None => Err(Std)
    case Some(s) =>
      if !addrValid(address) then Err(InvalidProxyAddress)
      else if address !in s.balances then Err(Unauthorized)
      else if !(s.balances[address].lifetime > 0) then Err(Unauthorized)
      else if deps.rndOutcome == map[] then Err(NoRandomnessAvailable)
      else
        match Ledger.ClaimPrize(s, address, FirstOutcome(deps.rndOutcome).0, intsInRange)
        case Err(e) => Err(e)
        case Ok((s', prize)) =>
          Ok((deps.(state := Some(s')), Response([TransferNft(prize.0, prize.1, address)])))
  }

  /**
   * `execute_receive`: the oracle's callback. The sender is checked first, then the length of
   * the randomness, then that the job id is new; only then is `(randomness, false)` stored,
   * under that job id alone.
   */
  function ExecuteReceive(deps: Storage, info: MessageInfo, callback: NoisCallback): (r: Executed)
    ensures deps.noisProxy.None? ==> r == Err(Std)
    ensures deps.noisProxy.Some? && info.sender != deps.noisProxy.value ==> r == Err(UnauthorizedReceive)
    ensures deps.noisProxy.Some? && info.sender == deps.noisProxy.value && |callback.randomness| != 32
      ==> r == Err(InvalidRandomness)
    ensures (deps.noisProxy.Some? && info.sender == deps.noisProxy.value && |callback.randomness| == 32
             && callback.jobId in deps.rndOutcome) ==> r == Err(JobIdAlreadyPresent)
    ensures r.Ok? <==>
      && deps.noisProxy.Some? && info.sender == deps.noisProxy.value
      && |callback.randomness| == 32 && callback.jobId !in deps.rndOutcome
    ensures r.Ok? ==>
      && r.value.0.rndOutcome.Keys == deps.rndOutcome.Keys + {callback.jobId}
      && r.value.0.rndOutcome[callback.jobId] == (callback.randomness, false)
      && OutcomesKept(deps.rndOutcome, r.value.0.rndOutcome)
      && r.value.0 == deps.(rndOutcome := r.value.0.rndOutcome)
      && r.value.1.messages == []
    ensures r.Ok? && Invariant(deps) ==> Invariant(r.value.0)
  {
    match deps.noisProxy
    case None => Err(Std)
    case Some(proxy) =>
      if info.sender != proxy then Err(UnauthorizedReceive)
      else if |callback.randomness| != 32 then Err(InvalidRandomness)
      else if callback.jobId in deps.rndOutcome then Err(JobIdAlreadyPresent)
      else
        var randomness: Randomness := callback.randomness;
        Ok((deps.(rndOutcome := deps.rndOutcome[callback.jobId := (randomness, false)]), Response([])))
  }

  /** `set_admin`: only the current admin may hand the role to `address` (which is not validated). */
  function SetAdmin(deps: Storage, info: MessageInfo, address: Addr): (r: Executed)
    ensures deps.state.None? ==> r == Err(Std)
    ensures deps.state.Some? ==> (r.Ok? <==> info.sender == deps.state.value.admin)
    ensures deps.state.Some? && r.Err? ==> r.error == Unauthorized
    ensures r.Ok? ==>
      && r.value.0 == deps.(state := Some(deps.state.value.(admin := address)))
      && r.value.1.messages == []
    ensures r.Ok? && Invariant(deps) ==> Invariant(r.value.0)
  {
    match deps.state
    case None => Err(Std)
    case Some(s) =>
      if info.sender != s.admin then Err(Unauthorized)
      else Ok((deps.(state := Some(s.(admin := address))), Response([])))
  }

  /** `set_prize_cost`: only the admin may change the cost of a claim. */
  function SetPrizeCost(deps: Storage, info: MessageInfo, cost: U64): (r: Executed)
    ensures deps.state.None? ==> r == Err(Std)
    ensures deps.state.Some? ==> (r.Ok? <==> info.sender == deps.state.value.admin)
    ensures deps.state.Some? && r.Err? ==> r.error == Unauthorized
    ensures r.Ok? ==>
      && r.value.0 == deps.(state := Some(deps.state.value.(prizeCost := cost)))
      && r.value.1.messages == []
    ensures r.Ok? && Invariant(deps) ==> Invariant(r.value.0)
  {
    match deps.state
    case None => Err(Std)
    case Some(s) =>
      if info.sender != s.admin then Err(Unauthorized)
      else Ok((deps.(state := Some(s.(prizeCost := cost))), Response([])))
  }

  /** `execute`: routes each message to its entry point. */
  ghost function Execute(deps: Storage, info: MessageInfo, msg: ExecuteMsg, addrValid: string -> bool, intsInRange: Ledger.Draw): Executed
  {
    match msg
    case Cw721Receive(receive) => ReceiveNft(deps, info, receive)
    case ClaimPrize(claimant) => ClaimPrize(deps, info, claimant, addrValid, intsInRange)
    case NoisReceive(callback) => ExecuteReceive(deps, info, callback)
    case SetAdmin(newAdmin) => SetAdmin(deps, info, newAdmin)
    case SetPrizeCost(cost) => SetPrizeCost(deps, info, cost)
  }

  /** One transaction: who sent it and what it asks. */
  datatype Call = Call(info: MessageInfo, msg: ExecuteMsg)

  /** The storage after the host runs `calls` one at a time, committing only those that succeed. */
  ghost function Run(deps: Storage, calls: seq<Call>, addrValid: string -> bool, intsInRange: Ledger.Draw): Storage
    decreases |calls|
  {
    if calls == [] then deps
    else
      var next := Commit(deps, Execute(deps, calls[0].info, calls[0].msg, addrValid, intsInRange));
      Run(next, calls[1..], addrValid, intsInRange)
  }

  /** Solvency, and every outcome flag being false, hold after any sequence of transactions. */
  lemma {:induction false} RunPreservesInvariant(deps: Storage, calls: seq<Call>, addrValid: string -> bool, intsInRange: Ledger.Draw)
    requires Invariant(deps)
    ensures Invariant(Run(deps, calls, addrValid, intsInRange))
    decreases |calls|
  {
    if calls != [] {
      var next := Commit(deps, Execute(deps, calls[0].info, calls[0].msg, addrValid, intsInRange));
      assert Invariant(next);
      RunPreservesInvariant(next, calls[1..], addrValid, intsInRange);
    }
  }

  /** No transaction ever removes or rewrites a stored outcome: a job id's randomness is fixed once received. */
  lemma {:induction false} RunKeepsOutcomes(deps: Storage, calls: seq<Call>, addrValid: string -> bool, intsInRange: Ledger.Draw)
    ensures OutcomesKept(deps.rndOutcome, Run(deps, calls, addrValid, intsInRange).rndOutcome)
    decreases |calls|
  {
    if calls != [] {
      var next := Commit(deps, Execute(deps, calls[0].info, calls[0].msg, addrValid, intsInRange));
      assert OutcomesKept(deps.rndOutcome, next.rndOutcome);
      RunKeepsOutcomes(next, calls[1..], addrValid, intsInRange);
    }
  }

  /** The ledger of a loaded state has no accounts. */
  predicate NoAccounts(deps: Storage)
  {
    deps.state.Some? ==> deps.state.value.balances == map[]
  }

  /**
   * No entry point credits points, so a ledger without accounts stays without accounts
   * through any sequence of transactions.
   */
  lemma {:induction false} RunKeepsNoAccounts(deps: Storage, calls: seq<Call>, addrValid: string -> bool, intsInRange: Ledger.Draw)
    requires NoAccounts(deps)
    ensures NoAccounts(Run(deps, calls, addrValid, intsInRange))
    decreases |calls|
  {
    if calls != [] {
      var next := Commit(deps, Execute(deps, calls[0].info, calls[0].msg, addrValid, intsInRange));
      assert NoAccounts(next);
      RunKeepsNoAccounts(next, calls[1..], addrValid, intsInRange);
    }
  }

  /**
   * After `instantiate`, whatever transactions follow, `claim_prize` never succeeds: the
   * ledger it checks can only be filled by `add_points`, which no entry point calls.
   */
  lemma ClaimNeverSucceedsAfterInstantiate(
    deps: Storage, info: MessageInfo, msg: InstantiateMsg, calls: seq<Call>,
    claimer: MessageInfo, address: Addr, addrValid: string -> bool, intsInRange: Ledger.Draw)
    requires Instantiate(deps, info, msg, addrValid).Ok?
    ensures ClaimPrize(Run(Instantiate(deps, info, msg, addrValid).value.0, calls, addrValid, intsInRange),
                       claimer, address, addrValid, intsInRange).Err?
  {
    RunKeepsNoAccounts(Instantiate(deps, info, msg, addrValid).value.0, calls, addrValid, intsInRange);
  }

  /**
   * The outcome store survives a successful claim unchanged, so the next claim draws from the
   * very same randomness.
   */
  lemma ConsecutiveClaimsShareRandomness(
    deps: Storage, info: MessageInfo, address: Addr, addrValid: string -> bool, intsInRange: Ledger.Draw)
    requires ClaimPrize(deps, info, address, addrValid, intsInRange).Ok?
    ensures var after := ClaimPrize(deps, info, address, addrValid, intsInRange).value.0;
      after.rndOutcome != map[] && FirstOutcome(after.rndOutcome) == FirstOutcome(deps.rndOutcome)
  {
  }

  // Read-only queries

  /**
   * `get_balance`: one balance of one account; an account without a record aborts
   * (`unwrap`). The selector is an enumeration, so there is no invalid kind.
   */
  function GetBalance(deps: Storage, address: Addr, kind: BalanceKind): (r: Result<U64>)
    ensures deps.state.None? ==> r == Err(Std)
    ensures deps.state.Some? ==> (r.Ok? <==> address in deps.state.value.balances)
    ensures deps.state.Some? && r.Err? ==> r.error == Panic
    ensures r.Ok? && kind == Lifetime ==> r.value == deps.state.value.balances[address].lifetime
    ensures r.Ok? && kind == Spent ==> r.value == deps.state.value.balances[address].spent
  {
    match deps.state
    case None => Err(Std)
    case Some(s) =>
      if address !in s.balances then Err(Panic)
      else
        var balance := s.balances[address];
        match kind
        case Lifetime => Ok(balance.lifetime)
        case Spent => Ok(balance.spent)
  }

  /** `get_prize_cost`. */
  function GetPrizeCost(deps: Storage): (r: Result<U64>)
    ensures r.Err? <==> deps.state.None?
    ensures r.Err? ==> r.error == Std
    ensures r.Ok? ==> r.value == deps.state.value.prizeCost
  {
    match deps.state
    case None => Err(Std)
    case Some(s) => Ok(s.prizeCost)
  }

  /** `get_prize_pool`: the pool in insertion order, minus the prizes claimed. */
  function GetPrizePool(deps: Storage): (r: Result<seq<Prize>>)
    ensures r.Err? <==> deps.state.None?
    ensures r.Err? ==> r.error == Std
    ensures r.Ok? ==> r.value == deps.state.value.prizePool
  {
    match deps.state
    case None => Err(Std)
    case Some(s) => Ok(s.prizePool)
  }

  /** Under the invariant the spent-balance query never exceeds the lifetime one. */
  lemma SpentQueryNeverExceedsLifetime(deps: Storage, address: Addr)
    requires Invariant(deps)
    requires GetBalance(deps, address, Spent).Ok?
    ensures GetBalance(deps, address, Lifetime).Ok?
    ensures GetBalance(deps, address, Spent).value <= GetBalance(deps, address, Lifetime).value
  {
  }

  /**
   * As the queries see it, a successful claim raises the claimant's spent balance by the prize
   * cost, keeps the lifetime balance and the cost, and shortens the pool by one.
   */
  lemma ClaimAsSeenByQueries(deps: Storage, info: MessageInfo, address: Addr, addrValid: string -> bool, intsInRange: Ledger.Draw)
    requires ClaimPrize(deps, info, address, addrValid, intsInRange).Ok?
    ensures var after := ClaimPrize(deps, info, address, addrValid, intsInRange).value.0;
      && GetBalance(after, address, Spent) == Ok(GetBalance(deps, address, Spent).value + deps.state.value.prizeCost)
      && GetBalance(after, address, Lifetime) == GetBalance(deps, address, Lifetime)
      && GetPrizeCost(after) == GetPrizeCost(deps)
      && |GetPrizePool(after).value| == |GetPrizePool(deps).value| - 1
  {
  }

  /** A second delivery under the same job id fails, and the first delivery's value stays stored. */
  lemma DuplicateDeliveryKeepsFirst(deps: Storage, info: MessageInfo, first: NoisCallback, second: NoisCallback)
    requires ExecuteReceive(deps, info, first).Ok?
    requires second.jobId == first.jobId && |second.randomness| == 32
    ensures var after := ExecuteReceive(deps, info, first).value.0;
      && ExecuteReceive(after, info, second) == Err(JobIdAlreadyPresent)
      && after.rndOutcome[first.jobId].0 == first.randomness
  {
  }
}
