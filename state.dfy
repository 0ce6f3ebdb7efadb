/**
 * The `State` struct as it lives in memory during one transaction: loaded from storage,
 * changed in place by its methods, saved back by the entry point. Each method is proved
 * against the value semantics in `Ledger`.
 */
module State {
  import opened Types
  import Ledger

  class State {
    var admin: string
    var symbol: string
    var shortDescription: string
    var balances: map<Addr, Ledger.Points>
    var locked: bool
    var prizePool: seq<Prize>
    var prizeCost: U64
    var whitelist: seq<Addr>

    /** The record this object holds, as it would be saved. */
    function Value(): Ledger.StateValue
      reads this
    {
      Ledger.StateValue(admin, symbol, shortDescription, balances, locked, prizePool, prizeCost, whitelist)
    }

    /** An in-memory copy of a record: a struct literal, or what `POINTS_STATE.load` deserialises. */
    constructor (v: Ledger.StateValue)
      ensures Value() == v
    {
      admin := v.admin;
      symbol := v.symbol;
      shortDescription := v.shortDescription;
      balances := v.balances;
      locked := v.locked;
      prizePool := v.prizePool;
      prizeCost := v.prizeCost;
      whitelist := v.whitelist;
    }

    /**
     * `add_points`. On overflow it aborts after `or_insert` has already created the zero
     * record; the transaction discards the object either way.
     */
    method AddPoints(address: Addr, points: U64) returns (r: Result<()>)
      modifies this
      ensures r.Ok? <==> Ledger.AddPoints(old(Value()), address, points).Ok?
      ensures r.Ok? ==> Value() == Ledger.AddPoints(old(Value()), address, points).value
      ensures r.Err? ==>
        && r.error == Panic
        && Value() == old(Value()).(balances := old(balances)[address := Ledger.EntryOrZero(old(balances), address)])
    {
      if address !in balances {
        balances := balances[address := Ledger.Points(0, 0)];
      }
      var balance := balances[address];
      if balance.lifetime + points > U64_MAX {
        return Err(Panic);
      }
      balances := balances[address := balance.(lifetime := balance.lifetime + points)];
      r := Ok(());
    }

    /** `spend_points`; every abort happens before anything is written. */
    method SpendPoints(address: Addr, points: U64) returns (r: Result<()>)
      modifies this
      ensures r.Ok? <==> Ledger.SpendPoints(old(Value()), address, points).Ok?
      ensures r.Ok? ==> Value() == Ledger.SpendPoints(old(Value()), address, points).value
      ensures r.Err? ==> r.error == Panic && Value() == old(Value())
    {
      if address !in balances {
        return Err(Panic);
      }
      var balance := balances[address];
      if balance.lifetime < balance.spent {
        return Err(Panic);
      }
      if balance.lifetime - balance.spent < points {
        return Err(Panic);
      }
      balances := balances[address := balance.(spent := balance.spent + points)];
      r := Ok(());
    }

    /**
     * `claim_prize`. The empty-pool check comes first; the points are spent before the
     * index is drawn, so a later abort leaves a changed object that the transaction discards.
     */
    method ClaimPrize(address: Addr, randomness: Randomness, intsInRange: Ledger.Draw) returns (r: Result<Prize>)
      modifies this
      ensures r.Ok? <==> Ledger.ClaimPrize(old(Value()), address, randomness, intsInRange).Ok?
      ensures r.Ok? ==> (Value(), r.value) == Ledger.ClaimPrize(old(Value()), address, randomness, intsInRange).value
      ensures r.Err? ==> r.error == Panic
      ensures |old(prizePool)| == 0 ==> Value() == old(Value())
    {
      if |prizePool| == 0 {
        return Err(Panic);
      }
      var spent := SpendPoints(address, prizeCost);
      if spent.Err? {
        return Err(Panic);
      }
      var bound: U8 := |prizePool| % 256;
      if bound == 0 {
        return Err(Panic);
      }
      var i := intsInRange(randomness, bound);
      if i >= |prizePool| {
        return Err(Panic);
      }
      var prize := prizePool[i];
      prizePool := Ledger.RemoveAt(prizePool, i);
      r := Ok(prize);
    }
  }
}
