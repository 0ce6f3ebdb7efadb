# Points ledger and prize lottery

This is a Dafny model of a CosmWasm contract. Accounts hold loyalty points, and an oracle delivers randomness. A claimant spends `prize_cost` points to win one prize from a pool of deposited NFTs.

What is modelled:
- the points ledger kept in `State`: `add_points`, `spend_points` and `claim_prize` in `src/state.rs`;
- the entry points of `src/contract.rs` that load, change and save it;
- the randomness-outcome store.

The modules follow the program:

- `Types` and `Msg` hold the `u64`/`u8` ranges, the error enumeration and the message shapes from `src/error.rs` and `src/msg.rs`. The error enumeration adds `Panic` for a failed `assert!`, an `unwrap` of nothing, an overflow or an out-of-range `Vec::remove`. It also has `Std` for a storage item that is not there.
- `KeyOrder` is the ascending key order of the outcome store: byte-lexicographic, the same as code-point order of the keys. It defines the first key `MinKey` and proves that it is the unique least key.
- `Ledger`: what the three `State` methods compute, as functions on the record value (`StateValue`).
- `State`: the `State` struct as a class. Its methods change the fields in place and are proved equal to the `Ledger` functions.
- `Semantics`: each entry point as a pure transition `Storage -> Result<(Storage, Response)>`. Also here:
  - the queries;
  - the `execute` dispatch;
  - `Run`, which applies a sequence of transactions and keeps only the successful ones;
  - lemmas over runs.
- `Contract`: a class whose fields are the three storage items. Its entry-point methods load a `State` object, check, change it and save it, and each is proved equal to its `Semantics` transition. A failed transaction writes nothing.

Facts about the model that follow from the code:

- `claim_prize` checks in this order:
  1. the state loads;
  2. the address is valid, reported as `InvalidProxyAddress`;
  3. the account has a record, otherwise `Unauthorized`;
  4. its lifetime balance is non-zero, otherwise `Unauthorized`;
  5. some outcome is stored, otherwise `NoRandomnessAvailable`;
  6. last come the ledger's aborts: an empty pool is checked before any points are spent, then too few points.
- `claim_prize` never looks at the caller.
- `claim_prize` uses the outcome under the smallest job id, whatever its flag, and never writes the store. Every flag therefore stays `false`, and consecutive claims draw from the same randomness (`ConsecutiveClaimsShareRandomness`).
- The library's upper bound is `len as u8`, which is 0 for a pool whose length is a multiple of 256. The model assumes the library aborts on a zero bound; the code does not show this (see "## Left out"). If the library keeps its range promise, only the first `len % 256` positions of a larger pool can be won (`ClaimWinsOnlyBelowTruncatedBound`).
- No entry point calls `add_points`. Once `instantiate` has succeeded, no sequence of transactions gives any account a record, so `claim_prize` never succeeds (`ClaimNeverSucceedsAfterInstantiate`).
- `receive_nft` is open to anyone, and `set_admin` does not validate the new admin address.
- `receive_nft` stores the receive hook's `sender`, the account that called `send_nft` on the NFT contract. It ignores the NFT contract itself, which is the message's caller (`_info`, src/contract.rs:116). A pool entry therefore holds the depositor's address. `claim_prize` then executes `TransferNft` with that address as the contract to call (src/contract.rs:157-158). The model stores and uses the depositor's address exactly as the code does.

Two points where the code does less than its own comments and types suggest:
- The comment at src/contract.rs:145 asks for the first randomness whose flag is false. Lines 146-151 take the first key whatever its flag, and no entry point ever sets a flag or removes an outcome.
- src/error.rs has no variant for an empty pool or for too few points. Both cases are `assert!`s (src/state.rs:38, 43), so they abort as `Panic`.

Arithmetic overflow is taken to abort the transaction, as it does with overflow checks on (the usual release profile of a CosmWasm contract).

## Model

| member | source | states |
|---|---|---|
| `Ledger.AddPoints` | src/state.rs:29-35 | Succeeds exactly when the current (or zero) lifetime balance plus `points` fits in a u64; overflow aborts. On success it raises that account's lifetime by `points` and keeps its spent balance. An absent account gets the record `(points, 0)`. Other accounts and every other field are unchanged, and solvency is kept. |
| `Ledger.SpendPoints` | src/state.rs:36-40 | Succeeds exactly when the account exists, `lifetime - spent` does not underflow and at least `points` are available; otherwise it aborts. On success spent rises by exactly `points`, lifetime is kept and `spent <= lifetime` still holds for the account. The set of accounts, other accounts and every other field are unchanged, and solvency is kept. |
| `Ledger.RemoveAt` | src/state.rs:52 | Removing position `i` gives a sequence one shorter that keeps the entries before `i` and shifts the later ones down by one. The removed entry is taken out of the multiset exactly once. |
| `Ledger.ClaimPrize` | src/state.rs:41-54 | An empty pool aborts before anything is spent, and so does a spend that fails; every failure is a panic. It succeeds exactly when the bound `len as u8` (the pool length modulo 256) is non-zero, the spend succeeds and the drawn index is inside the pool. It then returns `pool[i]` for the drawn `i`, and the new pool is `pool` with position `i` removed (one shorter, same multiset minus the prize). The claimant's spent balance rises by `prize_cost`, other accounts and other fields are unchanged, and solvency is kept. |
| `Ledger.ClaimSucceedsWhenAffordable` | src/state.rs:41-54 | If the library keeps its range promise, a claim on a pool of 1 to 255 prizes by a solvent account that can afford `prize_cost` succeeds. |
| `Ledger.ClaimWinsOnlyBelowTruncatedBound` | src/state.rs:49-52 | If the library keeps its range promise, the prize won is at a position below `len % 256`. |
| `State.State.constructor` | src/state.rs:16-26 | The in-memory struct holds exactly the given record. |
| `State.State.AddPoints` | src/state.rs:29-35 | The in-place update agrees with `Ledger.AddPoints`. On overflow it aborts, with only the `or_insert` zero record added. |
| `State.State.SpendPoints` | src/state.rs:36-40 | The in-place update agrees with `Ledger.SpendPoints`. Every abort leaves the object unchanged. |
| `State.State.ClaimPrize` | src/state.rs:41-54 | The in-place update agrees with `Ledger.ClaimPrize`: the same success condition, new record and prize. Aborts are panics, and an empty pool leaves the object unchanged. |
| `KeyOrder.LexLeReflexive` | src/contract.rs:145-148 | The key order is reflexive. |
| `KeyOrder.LexLeTotal` | src/contract.rs:145-148 | Any two keys are ordered one way or the other. |
| `KeyOrder.LexLeAntisymmetric` | src/contract.rs:145-148 | Keys ordered both ways are equal. |
| `KeyOrder.LexLeTransitive` | src/contract.rs:145-148 | The key order is transitive. |
| `KeyOrder.MinKey` | src/contract.rs:145-149 | The first key of a non-empty store is one of its keys. |
| `KeyOrder.MinKeyIsLeast` | src/contract.rs:145-149 | The first key sorts at or before every key of the store. |
| `KeyOrder.LeastIsMinKey` | src/contract.rs:145-149 | Any key that sorts at or before all the others is the first key, so the ascending range's first entry is unique. |
| `Semantics.FirstOutcome` | src/contract.rs:145-151 | The outcome a claim uses is the value stored under the least job id. |
| `Semantics.Instantiate` | src/contract.rs:19-50 | Fails with `InvalidProxyAddress` exactly when the proxy address is invalid, and then nothing is saved. Otherwise it saves a record whose admin is the sender, with symbol "POINTS", the message's description and prize cost, no accounts, an empty pool, an empty whitelist and `locked` false. It stores the proxy and emits no message. |
| `Semantics.ReceiveNft` | src/contract.rs:113-124 | With a loaded state it appends `(sender, token_id)` to the end of the pool and changes nothing else. |
| `Semantics.ClaimPrize` | src/contract.rs:126-168 | The fixed order of checks and their errors. Once all pass, it fails exactly when the ledger's claim on the first outcome fails, and that failure is a panic with nothing saved. On success it saves the ledger's new record and emits exactly one `TransferNft(prize.0, prize.1, address)`. The outcome store and the proxy are unchanged, the pool shrinks by one and the invariant is kept. |
| `Semantics.ExecuteReceive` | src/contract.rs:170-194 | Checks the sender against the stored proxy first (`UnauthorizedReceive`), then that the randomness is 32 bytes (`InvalidRandomness`), then that the job id is new (`JobIdAlreadyPresent`). It succeeds exactly when all three pass. It then stores `(randomness, false)` under that job id alone, keeps every earlier outcome and changes nothing else. |
| `Semantics.SetAdmin` | src/contract.rs:196-208 | Succeeds exactly when the sender is the admin; otherwise `Unauthorized` with nothing changed. On success only `admin` changes. |
| `Semantics.SetPrizeCost` | src/contract.rs:210-224 | Succeeds exactly when the sender is the admin; otherwise `Unauthorized` with nothing changed. On success only `prize_cost` changes. |
| `Semantics.RunPreservesInvariant` | src/contract.rs:53-66 | After any sequence of transactions every account still has `spent <= lifetime`, and no outcome flag is ever true. |
| `Semantics.RunKeepsOutcomes` | src/contract.rs:187-191 | After any sequence of transactions every stored outcome is still stored, with its first value. |
| `Semantics.RunKeepsNoAccounts` | src/contract.rs:53-66 | An empty ledger stays empty through any sequence of transactions, because no entry point credits points. |
| `Semantics.ClaimNeverSucceedsAfterInstantiate` | src/contract.rs:139-143 | After a successful `instantiate` and any transactions, `claim_prize` fails. |
| `Semantics.ConsecutiveClaimsShareRandomness` | src/contract.rs:145-151 | A successful claim leaves the store non-empty with the same first outcome, so the next claim draws the same randomness. |
| `Semantics.GetBalance` | src/contract.rs:93-101 | Fails with `Std` without a state and aborts for an account without a record. Otherwise it returns that account's lifetime or spent balance, as the selector says. |
| `Semantics.GetPrizeCost` | src/contract.rs:103-106 | Returns the stored prize cost, or `Std` without a state. |
| `Semantics.GetPrizePool` | src/contract.rs:108-111 | Returns the stored pool in its order, or `Std` without a state. |
| `Semantics.SpentQueryNeverExceedsLifetime` | src/contract.rs:93-101 | Under the invariant, an account's spent-balance query never exceeds its lifetime-balance query. |
| `Semantics.ClaimAsSeenByQueries` | src/contract.rs:126-168 | After a successful claim the queries show the spent balance up by `prize_cost`, the lifetime balance and cost unchanged, and the pool one shorter. |
| `Semantics.DuplicateDeliveryKeepsFirst` | src/contract.rs:187-191 | A second 32-byte delivery under a job id already stored fails with `JobIdAlreadyPresent`, and the first delivery's randomness stays stored. |
| `Contract.Contract.Instantiate` | src/contract.rs:19-50 | The imperative entry point returns what `Semantics.Instantiate` returns. It writes its storage only on success. |
| `Contract.Contract.ReceiveNft` | src/contract.rs:113-124 | Loads the record, pushes onto its pool in place and saves, agreeing with `Semantics.ReceiveNft`. |
| `Contract.Contract.ClaimPrize` | src/contract.rs:126-168 | Loads the record and finds the least job id. Then it claims through `State.State.ClaimPrize` and saves, agreeing with `Semantics.ClaimPrize`. Nothing is written on any failure. |
| `Contract.Contract.ExecuteReceive` | src/contract.rs:170-194 | Writes the outcome map as `Semantics.ExecuteReceive` says, and only on success. |
| `Contract.Contract.SetAdmin` | src/contract.rs:196-208 | Agrees with `Semantics.SetAdmin`. |
| `Contract.Contract.SetPrizeCost` | src/contract.rs:210-224 | Agrees with `Semantics.SetPrizeCost`. |
| `Contract.Contract.GetBalances` | src/contract.rs:81-91 | The rows returned are exactly the set of `(address, (lifetime, spent))` triples of the ledger, one row per account. Their order is unspecified. |

## Left out

- `nois::ints_in_range` is a foreign library call. It is the parameter `intsInRange` of the claim, with no properties assumed. An index outside the pool is the panic of `Vec::remove`. A zero bound (a pool whose length is a multiple of 256) is taken to make the library abort; that is an assumption, not something the code shows. If the library's range included its upper bound, a zero bound would give index 0 and the claim would go on. Uniformity of the draw is not modelled: it would need the library's internals and probability.
- `deps.api.addr_validate` is the parameter `addrValid: string -> bool`. A validated address is taken to be the input string itself.
- CosmWasm storage and serialisation are not modelled: `Item`/`Map` encoding, `to_json_binary`, the entry-point macros and `set_contract_version`. Only a missing item is modelled, as `Std`; other load and save errors, and a failing deserialisation of an outcome (`outcome.unwrap()`), are not.
- The `query` dispatch and JSON encoding are left out; the three single queries and `get_balances` are modelled directly.
- Response attributes, attached funds, the `msg` field of the cw721 receive hook and the `published` field of the oracle callback are not modelled. The transfer message is the plain datatype `TransferNft(contract_addr, token_id, recipient)`, standing for a `WasmMsg::Execute` with no funds.
- The unused `POINTS_BALANCES` item and the `symbol`, `short_description`, `locked` and `whitelist` fields are carried, with no enforcement.
- The `name` field of the instantiate message is carried but unused, as in the code.
- Concurrency is not modelled: the host runs one transaction at a time, which `Run` reflects.
- State.State.ClaimPrize: does not describe the in-memory object after an abort past the empty-pool check (points may already be spent), because the entry point discards the object and saves nothing.
- Contract.Contract.GetBalances: promises the set of rows and their number, not an order, because the source iterates a hash map.
