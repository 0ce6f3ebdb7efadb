/**
 * The points ledger and prize pool as values: what `State::add_points`, `State::spend_points`
 * and `State::claim_prize` compute from the state they are given. A failed `assert!`,
 * an `unwrap` of nothing or an overflow is `Err(Panic)`.
 */
module Ledger {
  import opened Types

  /** One account's balances: points ever earned and points ever spent. */
  datatype Points = Points(lifetime: U64, spent: U64)

  /** The contract's `State` record. `symbol`, `shortDescription`, `locked` and `whitelist` are carried and never read. */
  datatype StateValue = StateValue(
    admin: string,
    symbol: string,
    shortDescription: string,
    balances: map<Addr, Points>,
    locked: bool,
    prizePool: seq<Prize>,
    prizeCost: U64,
    whitelist: seq<Addr>)

  /** The ledger invariant: no account has spent more than it has earned. */
  predicate Solvent(balances: map<Addr, Points>)
  {
    forall a | a in balances :: balances[a].spent <= balances[a].lifetime
  }

  /** The record `entry(address).or_insert(..)` yields: the existing one, or zero balances. */
  function EntryOrZero(balances: map<Addr, Points>, address: Addr): Points
  {
    if address in balances then balances[address] else Points(0, 0)
  }

  /** Every account other than `address` has the same record (or none) before and after. */
  predicate OthersUnchanged(before: map<Addr, Points>, after: map<Addr, Points>, address: Addr)
  {
    && (forall a | a in before && a != address :: a in after && after[a] == before[a])
    && (forall a | a in after && a != address :: a in before)
  }

  /** `add_points`: credit `points` to `address`, creating its record if absent; overflow aborts. */
  function AddPoints(s: StateValue, address: Addr, points: U64): (r: Result<StateValue>)
    ensures r.Ok? <==> EntryOrZero(s.balances, address).lifetime + points <= U64_MAX
    ensures r.Err? ==> r.error == Panic
    ensures r.Ok? ==>
      && address in r.value.balances
      && r.value.balances[address].lifetime == EntryOrZero(s.balances, address).lifetime + points
      && r.value.balances[address].spent == EntryOrZero(s.balances, address).spent
    ensures r.Ok? && address !in s.balances ==> r.value.balances[address] == Points(points, 0)
    ensures r.Ok? ==> OthersUnchanged(s.balances, r.value.balances, address)
    ensures r.Ok? ==> r.value.(balances := s.balances) == s
    ensures r.Ok? && Solvent(s.balances) ==> Solvent(r.value.balances)
  {
    var entry := EntryOrZero(s.balances, address);
    if entry.lifetime + points > U64_MAX then Err(Panic)
    else Ok(s.(balances := s.balances[address := entry.(lifetime := entry.lifetime + points)]))
  }

  /**
   * `spend_points`: debit `points` from an existing account that can afford them.
   * A missing account, `lifetime - spent` underflowing, or too few available points abort.
   */
  function SpendPoints(s: StateValue, address: Addr, points: U64): (r: Result<StateValue>)
    ensures r.Ok? <==>
      && address in s.balances
      && s.balances[address].spent <= s.balances[address].lifetime
      && points <= s.balances[address].lifetime - s.balances[address].spent
    ensures r.Err? ==> r.error == Panic
    ensures r.Ok? ==>
      && address in r.value.balances
      && r.value.balances[address].lifetime == s.balances[address].lifetime
      && r.value.balances[address].spent == s.balances[address].spent + points
      && r.value.balances[address].spent <= r.value.balances[address].lifetime
    ensures r.Ok? ==> r.value.balances.Keys == s.balances.Keys
    ensures r.Ok? ==> OthersUnchanged(s.balances, r.value.balances, address)
    ensures r.Ok? ==> r.value.(balances := s.balances) == s
    ensures r.Ok? && Solvent(s.balances) ==> Solvent(r.value.balances)
  {
    if address !in s.balances then Err(Panic)
    else
      var b := s.balances[address];
      if b.lifetime < b.spent then Err(Panic)
      else if b.lifetime - b.spent < points then Err(Panic)
      else Ok(s.(balances := s.balances[address := b.(spent := b.spent + points)]))
  }

  /** The library call `ints_in_range(randomness, 1, 0, bound)[0]`, left abstract. */
  type Draw = (Randomness, U8) -> U8

  /** The upper bound handed to the library: the pool length cast with `as u8`, which truncates. */
  function DrawBound(pool: seq<Prize>): (n: U8)
    ensures n == |pool| % 256
    ensures |pool| < 256 ==> n == |pool|
  {
    |pool| % 256
  }

  /** Removing position `i` of `pool`, as `Vec::remove` does. */
  function RemoveAt(pool: seq<Prize>, i: nat): (r: seq<Prize>)
    requires i < |pool|
    ensures |r| == |pool| - 1
    ensures forall k | 0 <= k < i :: r[k] == pool[k]
    ensures forall k | i <= k < |r| :: r[k] == pool[k + 1]
    ensures multiset(pool) == multiset(r) + multiset{pool[i]}
  {
    assert pool == pool[..i] + [pool[i]] + pool[i + 1..];
    pool[..i] + pool[i + 1..]
  }

  /**
   * `claim_prize`: with a non-empty pool, charge the prize cost, draw an index from the
   * randomness and remove that prize. An empty pool aborts before anything is spent; a
   * zero bound (a pool whose length is a multiple of 256) and an index outside the pool abort too.
   */
  function ClaimPrize(s: StateValue, address: Addr, randomness: Randomness, intsInRange: Draw): (r: Result<(StateValue, Prize)>)
    ensures |s.prizePool| == 0 ==> r == Err(Panic)
    ensures SpendPoints(s, address, s.prizeCost).Err? ==> r == Err(Panic)
    ensures |s.prizePool| % 256 == 0 ==> r.Err?
    ensures r.Err? ==> r.error == Panic
    ensures r.Ok? <==>
      && 0 < DrawBound(s.prizePool)
      && SpendPoints(s, address, s.prizeCost).Ok?
      && intsInRange(randomness, DrawBound(s.prizePool)) < |s.prizePool|
    ensures r.Ok? ==>
      var i := intsInRange(randomness, DrawBound(s.prizePool));
      && i < |s.prizePool|
      && r.value.1 == s.prizePool[i]
      && r.value.0.prizePool == RemoveAt(s.prizePool, i)
    ensures r.Ok? ==> |r.value.0.prizePool| == |s.prizePool| - 1
    ensures r.Ok? ==> multiset(s.prizePool) == multiset(r.value.0.prizePool) + multiset{r.value.1}
    ensures r.Ok? ==>
      && address in s.balances && address in r.value.0.balances
      && r.value.0.balances[address].lifetime == s.balances[address].lifetime
      && r.value.0.balances[address].spent == s.balances[address].spent + s.prizeCost
      && OthersUnchanged(s.balances, r.value.0.balances, address)
    ensures r.Ok? ==> r.value.0.(balances := s.balances, prizePool := s.prizePool) == s
    ensures r.Ok? && Solvent(s.balances) ==> Solvent(r.value.0.balances)
  {
    if |s.prizePool| == 0 then Err(Panic)
    else match SpendPoints(s, address, s.prizeCost)
      case Err(e) => Err(e)
      case Ok(spent) =>
        var bound := DrawBound(spent.prizePool);
        if bound == 0 then Err(Panic)
        else
          var i := intsInRange(randomness, bound);
          if i >= |spent.prizePool| then Err(Panic)
          else Ok((spent.(prizePool := RemoveAt(spent.prizePool, i)), spent.prizePool[i]))
  }

  /** The library keeps its promise for bound `n`: the index is below `n`. */
  predicate DrawInRange(intsInRange: Draw, randomness: Randomness, n: U8)
  {
    0 < n ==> intsInRange(randomness, n) < n
  }

  /**
   * If the library keeps its promise, a claim on a pool of 1 to 255 prizes by an account that
   * can afford it always succeeds.
   */
  lemma ClaimSucceedsWhenAffordable(s: StateValue, address: Addr, randomness: Randomness, intsInRange: Draw)
    requires 0 < |s.prizePool| < 256
    requires DrawInRange(intsInRange, randomness, DrawBound(s.prizePool))
    requires address in s.balances && Solvent(s.balances)
    requires s.prizeCost <= s.balances[address].lifetime - s.balances[address].spent
    ensures ClaimPrize(s, address, randomness, intsInRange).Ok?
  {
  }

  /**
   * Because the bound is truncated to a byte, only the first `|pool| % 256` prizes can ever be
   * won when the library keeps its promise: in a pool of 300, positions 44 and up are never drawn.
   */
  lemma ClaimWinsOnlyBelowTruncatedBound(s: StateValue, address: Addr, randomness: Randomness, intsInRange: Draw)
    requires DrawInRange(intsInRange, randomness, DrawBound(s.prizePool))
    requires ClaimPrize(s, address, randomness, intsInRange).Ok?
    ensures exists i :: 0 <= i < |s.prizePool| % 256 && ClaimPrize(s, address, randomness, intsInRange).value.1 == s.prizePool[i]
  {
    var i := intsInRange(randomness, DrawBound(s.prizePool));
    assert ClaimPrize(s, address, randomness, intsInRange).value.1 == s.prizePool[i];
  }
}
