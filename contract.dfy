/**
 * The contract's entry points as the source writes them: load the stored record into a
 * `State` object, check, change the object in place, save it. The host keeps a transaction's
 * writes only if it succeeds, so a method here writes its storage items only on success.
 * Each method is proved against its transition in `Semantics`.
 */
module Contract {
  import opened Types
  import opened Msg
  import opened KeyOrder
  import Ledger
  import State
  import Semantics

  class Contract {
    /** `POINTS_STATE` */
    var state: Option<Ledger.StateValue>
    /** `NOIS_PROXY` */
    var noisProxy: Option<Addr>
    /** `RND_OUTCOME` */
    var rndOutcome: map<string, Semantics.Outcome>

    function Storage(): Semantics.Storage
      reads this
    {
      Semantics.Storage(state, noisProxy, rndOutcome)
    }

    /** A contract whose storage holds nothing yet. */
    constructor ()
      ensures Storage() == Semantics.Storage(None, None, map[])
    {
      state := None;
      noisProxy := None;
      rndOutcome := map[];
    }

    method Instantiate(info: MessageInfo, msg: InstantiateMsg, addrValid: string -> bool) returns (r: Result<Response>)
      modifies this
      ensures r == Semantics.ResponseOf(Semantics.Instantiate(old(Storage()), info, msg, addrValid))
      ensures Storage() == Semantics.Commit(old(Storage()), Semantics.Instantiate(old(Storage()), info, msg, addrValid))
    {
      var s := new State.State(Semantics.InitialState(info, msg));
      if !addrValid(msg.noisProxy) {
        return Err(InvalidProxyAddress);
      }
      state := Some(s.Value());
      noisProxy := Some(msg.noisProxy);
      r := Ok(Response([]));
    }

    method ReceiveNft(info: MessageInfo, msg: Cw721ReceiveMsg) returns (r: Result<Response>)
      modifies this
      ensures r == Semantics.ResponseOf(Semantics.ReceiveNft(old(Storage()), info, msg))
      ensures Storage() == Semantics.Commit(old(Storage()), Semantics.ReceiveNft(old(Storage()), info, msg))
    {
      if state.None? {
        return Err(Std);
      }
      var s := new State.State(state.value);
      s.prizePool := s.prizePool + [(msg.sender, msg.tokenId)];
      state := Some(s.Value());
      r := Ok(Response([]));
    }

    method ClaimPrize(info: MessageInfo, address: Addr, addrValid: string -> bool, intsInRange: Ledger.Draw)
      returns (r: Result<Response>)
      modifies this
      ensures r == Semantics.ResponseOf(Semantics.ClaimPrize(old(Storage()), info, address, addrValid, intsInRange))
      ensures Storage() == Semantics.Commit(old(Storage()), Semantics.ClaimPrize(old(Storage()), info, address, addrValid, intsInRange))
    {
      if state.None? {
        return Err(Std);
      }
      var s := new State.State(state.value);
      if !addrValid(address) {
        return Err(InvalidProxyAddress);
      }
      if address !in s.balances {
        return Err(Unauthorized);
      }
      var balance := s.balances[address];
      if !(balance.lifetime > 0) {
        return Err(Unauthorized);
      }
      if rndOutcome == map[] {
        return Err(NoRandomnessAvailable);
      }
      // the first entry of an ascending range over the store
      assert rndOutcome.Keys != {} by {
        var j :| j in rndOutcome;
      }
      MinKeyIsLeast(rndOutcome.Keys);
      var jobId :| IsLeast(jobId, rndOutcome.Keys);
      LeastIsMinKey(jobId, rndOutcome.Keys);
      var randomness := rndOutcome[jobId].0;
      var prize := s.ClaimPrize(address, randomness, intsInRange);
      if prize.Err? {
        return Err(prize.error);
      }
      var transfer := TransferNft(prize.value.0, prize.value.1, address);
      state := Some(s.Value());
      r := Ok(Response([transfer]));
    }

    method ExecuteReceive(info: MessageInfo, callback: NoisCallback) returns (r: Result<Response>)
      modifies this
      ensures r == Semantics.ResponseOf(Semantics.ExecuteReceive(old(Storage()), info, callback))
      ensures Storage() == Semantics.Commit(old(Storage()), Semantics.ExecuteReceive(old(Storage()), info, callback))
    {
      if noisProxy.None? {
        return Err(Std);
      }
      if info.sender != noisProxy.value {
        return Err(UnauthorizedReceive);
      }
      if |callback.randomness| != 32 {
        return Err(InvalidRandomness);
      }
      var randomness: Randomness := callback.randomness;
      if callback.jobId in rndOutcome {
        return Err(JobIdAlreadyPresent);
      }
      rndOutcome := rndOutcome[callback.jobId := (randomness, false)];
      r := Ok(Response([]));
    }

    method SetAdmin(info: MessageInfo, address: Addr) returns (r: Result<Response>)
      modifies this
      ensures r == Semantics.ResponseOf(Semantics.SetAdmin(old(Storage()), info, address))
      ensures Storage() == Semantics.Commit(old(Storage()), Semantics.SetAdmin(old(Storage()), info, address))
    {
      if state.None? {
        return Err(Std);
      }
      var s := new State.State(state.value);
      if info.sender != s.admin {
        return Err(Unauthorized);
      }
      s.admin := address;
      state := Some(s.Value());
      r := Ok(Response([]));
    }

    method SetPrizeCost(info: MessageInfo, cost: U64) returns (r: Result<Response>)
      modifies this
      ensures r == Semantics.ResponseOf(Semantics.SetPrizeCost(old(Storage()), info, cost))
      ensures Storage() == Semantics.Commit(old(Storage()), Semantics.SetPrizeCost(old(Storage()), info, cost))
    {
      if state.None? {
        return Err(Std);
      }
      var s := new State.State(state.value);
      if info.sender != s.admin {
        return Err(Unauthorized);
      }
      s.prizeCost := cost;
      state := Some(s.Value());
      r := Ok(Response([]));
    }

    /**
     * `get_balances`: one `(address, (lifetime, spent))` row per account, built by iterating
     * over the ledger. The iteration order of the source's hash map is unspecified, so only
     * the set of rows is promised, each account appearing exactly once.
     */
    method GetBalances() returns (r: Result<seq<(Addr, (U64, U64))>>)
      ensures state.None? ==> r == Err(Std)
      ensures state.Some? ==> r.Ok?
      ensures r.Ok? ==> (set row | row in r.value) == Rows(state.value.balances, state.value.balances.Keys)
      ensures r.Ok? ==> |r.value| == |state.value.balances|
    {
      if state.None? {
        return Err(Std);
      }
      var balances := state.value.balances;
      var rows: seq<(Addr, (U64, U64))> := [];
      var rest := balances.Keys;
      while rest != {}
        invariant rest <= balances.Keys
        invariant (set row | row in rows) == Rows(balances, balances.Keys - rest)
        invariant |rows| + |rest| == |balances|
        decreases rest
      {
        var address :| address in rest;
        var points := balances[address];
        var row := (address, (points.lifetime, points.spent));
        assert (set x | x in rows + [row]) == (set x | x in rows) + {row};
        assert Rows(balances, balances.Keys - (rest - {address})) == Rows(balances, balances.Keys - rest) + {row};
        rows := rows + [row];
        rest := rest - {address};
      }
      assert balances.Keys - rest == balances.Keys;
      r := Ok(rows);
    }
  }

  /** The rows of `get_balances` for the accounts in `accounts`. */
  ghost function Rows(balances: map<Addr, Ledger.Points>, accounts: set<Addr>): set<(Addr, (U64, U64))>
    requires accounts <= balances.Keys
  {
    set a | a in accounts :: (a, (balances[a].lifetime, balances[a].spent))
  }
}
