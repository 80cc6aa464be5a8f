# Polkadot test-service chain spec, modelled in Dafny

This project models the genesis builder of the Polkadot test service
(`polkadot-test-service/src/chain_spec.rs`). The builder turns seed strings such as
`"Alice"` into authority key sets. It then lays these out, together with a fixed
registry of twelve test accounts, as the initial state of each runtime module:
balances, session keys, staking and a few sections that start empty. Finally it
wraps the result in the "Local Testnet" chain spec.

The source is pure: struct literals, `vec!` literals, `unwrap_or_else` and
`iter().map(..).collect()` projections. The model is therefore datatypes,
functions and lemmas:

- `common.dfy`, module `Common`: `Option` and `Map`. `Map` is the
  `iter().map(f).collect()` idiom, with its order- and length-preserving contract.
- `seed_keys.dfy`, module `SeedKeys`: the key types and `Deriver`. `Deriver` holds
  the cryptographic derivation as one arbitrary function per key kind.
  `AuthorityKeysFromSeed` is `get_authority_keys_from_seed`.
- `account_registry.dfy`, module `AccountRegistry`: `testnet_accounts` and the
  layout of its twelve seeds.
- `genesis.dfy`, module `Genesis`: the `ENDOWMENT` and `STASH` constants, the
  genesis datatypes, each section's projection, `polkadot_testnet_genesis`, and the
  cross-section lemmas.
- `chain_spec.dfy`, module `ChainSpec`: `polkadot_local_testnet_genesis`,
  `polkadot_local_testnet_config` and the lemmas about the default Alice + Bob
  network.

The model treats these as parameters or assumptions:

- **Key derivation.** `get_account_id_from_seed` and `get_from_seed` are foreign
  calls. They are the four function fields of `SeedKeys.Deriver`, and every
  operation takes the deriver as a parameter. Keys are 32-byte public keys, so the
  derivation cannot be injective on all strings, and no lemma assumes it is.
  Distinctness results take, as a precondition, that the few seeds involved do not
  collide (`SeedKeys.CollisionFree`).
- **`DOTS`.** The runtime defines this constant. Here it is the parameter
  `dots: Genesis.Dots`, which is positive and small enough that `1_000_000 * DOTS`
  fits in a `u128`. The Rust `const ENDOWMENT: u128` would not compile otherwise.
- **`Perbill`.** Only its parts-per-billion value is kept.

What the code does not check, and the model therefore does not promise:

- A session entry puts the stash (`x.0`) in both of its id slots, while the
  staker built from the same authority has `x.1` as its controller.
  `Genesis.SessionMatchesStaking` states exactly this.
- Nothing checks that stashes are distinct, or compares `validator_count` with
  the number of authorities; no configuration error is raised
  (`Genesis.ValidatorCountUnchecked`, `Genesis.RepeatedAuthorityKept`).
- Alice's and Bob's stashes and controllers are guaranteed to differ when the
  derivation does not collide on their four seeds
  (`ChainSpec.LocalTestnetDistinctStakers`); the code itself guarantees nothing more.

## Model

| member | source | states |
|---|---|---|
| Common.Map | polkadot-test-service/src/chain_spec.rs:119-122 | `iter().map(f).collect()` keeps length and order: output `i` is `f` of input `i` |
| Common.Option.UnwrapOr | polkadot-test-service/src/chain_spec.rs:89 | `unwrap_or_else`: a supplied value is returned unchanged, and a missing one gives the default |
| SeedKeys.AuthorityKeysFromSeed | polkadot-test-service/src/chain_spec.rs:48-62 | the stash is derived from the seed plus `"//stash"`; the controller and the BABE, GRANDPA and validator keys are derived from the bare seed |
| SeedKeys.StashSeed | polkadot-test-service/src/chain_spec.rs:56 | the seed followed by `//stash`: the seed is its prefix and `"//stash"` the rest, seven characters longer |
| SeedKeys.StashSeedInjective | polkadot-test-service/src/chain_spec.rs:56 | appending `"//stash"` maps two seeds to the same stash seed if and only if the seeds are equal |
| SeedKeys.StashSeedDiffers | polkadot-test-service/src/chain_spec.rs:56-57 | the stash seed never equals the bare seed used for the controller |
| SeedKeys.AuthorityKeysDistinct | polkadot-test-service/src/chain_spec.rs:55-61 | if the derivation does not collide on seeds `a`, `b` and their stash seeds, each authority's stash differs from its controller, and different seeds give different stashes and different controllers |
| AccountRegistry.TestnetAccounts | polkadot-test-service/src/chain_spec.rs:64-79 | exactly 12 accounts; entry `i` is derived from the `i`-th registry seed |
| AccountRegistry.RegistryStashSeed | polkadot-test-service/src/chain_spec.rs:66-77 | the first six seeds are Alice, Bob, Charlie, Dave, Eve and Ferdie; seed `i+6` is seed `i` with `"//stash"` appended |
| AccountRegistry.TestnetAccountsLayout | polkadot-test-service/src/chain_spec.rs:64-79 | the first six accounts come from the development seeds, and account `i+6` is the stash account of seed `i` |
| AccountRegistry.AuthorityAccountsInRegistry | polkadot-test-service/src/chain_spec.rs:55-79 | for a development seed at index `i`, the authority's controller is registry entry `i` and its stash is entry `i+6` |
| Genesis.EndowmentCoversStash | polkadot-test-service/src/chain_spec.rs:91-92 | `ENDOWMENT = 10_000 * STASH`, and the endowment exceeds the positive stash deposit |
| Genesis.Endowment | polkadot-test-service/src/chain_spec.rs:91 | `ENDOWMENT` is `1_000_000 * DOTS`, at least one million |
| Genesis.StashBond | polkadot-test-service/src/chain_spec.rs:92 | `STASH` is `100 * DOTS`, at least 100 and below `ENDOWMENT` |
| Genesis.Balances | polkadot-test-service/src/chain_spec.rs:103 | one balance entry per endowed account, in order, each holding the given amount |
| Genesis.SessionEntries | polkadot-test-service/src/chain_spec.rs:106-114 | one session entry per authority; entry `i` uses authority `i`'s stash in both id slots and its BABE, GRANDPA and validator keys |
| Genesis.Stakers | polkadot-test-service/src/chain_spec.rs:119-121 | one staker per authority: `(stash, controller, bond, Validator)`, in order |
| Genesis.Invulnerables | polkadot-test-service/src/chain_spec.rs:122 | the stash column of the authorities, in order |
| Genesis.TestnetGenesis | polkadot-test-service/src/chain_spec.rs:94-145 | for any input: balances, session keys, stakers and invulnerables are the projections of the endowed list and the authority list; minimum validator count 1, validator count 2, `NotForcing`, a slash-reward fraction of one tenth; the indices, authority-discovery, parachains, registrar, claims and vesting sections are empty |
| Genesis.GenesisBalances | polkadot-test-service/src/chain_spec.rs:89-103 | the endowed accounts are the supplied list unchanged, or `testnet_accounts()` when none is supplied; every entry holds `ENDOWMENT` |
| Genesis.DefaultEndowsRegistry | polkadot-test-service/src/chain_spec.rs:89 | with no list supplied, there are exactly 12 balance entries, entry `i` endowing registry account `i` (the missing-list case of `Genesis.GenesisBalances`, spelled out) |
| Genesis.BalancesRoundTrip | polkadot-test-service/src/chain_spec.rs:103 | the balances' account column gives back the endowed list, so duplicates are not merged; the equal multisets are a corollary of that |
| Genesis.SectionsAgree | polkadot-test-service/src/chain_spec.rs:106-122 | session keys, stakers and invulnerables built from one authority list have its length; entry `i` of each carries authority `i`'s stash, the staker also its controller, the bond and `Validator`, the session entry its BABE, GRANDPA and validator keys |
| Genesis.SessionMatchesStaking | polkadot-test-service/src/chain_spec.rs:105-122 | in the genesis, entry `i` of invulnerables, of both session id slots and of stakers is authority `i`'s stash; session entry `i` holds authority `i`'s three keys; staker `i` is `(stash, controller, STASH, Validator)` (`Genesis.SectionsAgree` restated on the genesis) |
| Genesis.InvulnerableSet | polkadot-test-service/src/chain_spec.rs:122 | the invulnerables, as a set, are exactly the authority stashes |
| Genesis.InvulnerablesAreStashSet | polkadot-test-service/src/chain_spec.rs:119-122 | in the genesis, the slashing-exempt set equals the set of authority stashes for any number of authorities |
| Genesis.StakersFunded | polkadot-test-service/src/chain_spec.rs:89-121 | if every authority's stash and controller are endowed, every staker's stash and controller appear in the balances and the endowment covers its bond |
| Genesis.RootKeyUnused | polkadot-test-service/src/chain_spec.rs:84 | the genesis does not depend on the root key |
| Genesis.ValidatorCountUnchecked | polkadot-test-service/src/chain_spec.rs:117-122 | for every authority list, the validator count is 2 and there is one staker per authority, so with fewer than two authorities the count exceeds the stakers |
| Genesis.RepeatedAuthorityKept | polkadot-test-service/src/chain_spec.rs:119-122 | for every authority list, authorities sharing a stash are each staked and each listed as invulnerable, at their own positions |
| ChainSpec.LocalTestnetConfig | polkadot-test-service/src/chain_spec.rs:22-34 | name "Local Testnet", id "local_testnet", chain type Local, protocol id "dot", no boot nodes, telemetry or properties; the deferred genesis is the local testnet genesis |
| ChainSpec.LocalTestnetAuthorities | polkadot-test-service/src/chain_spec.rs:38-41 | exactly two authorities, built from "Alice" then "Bob" |
| ChainSpec.LocalTestnetGenesis | polkadot-test-service/src/chain_spec.rs:36-45 | the test genesis of the authorities from "Alice" and "Bob", with root key "Alice" and no endowed list (so the whole registry is endowed) |
| ChainSpec.LocalTestnetStaking | polkadot-test-service/src/chain_spec.rs:36-45 | exactly two stakers, from "Alice" then "Bob", with matching invulnerables and session keys and the fixed staking constants |
| ChainSpec.LocalTestnetBalances | polkadot-test-service/src/chain_spec.rs:36-45 | the local genesis endows all 12 registry accounts, in order, with `ENDOWMENT` (`Genesis.DefaultEndowsRegistry` restated on the local genesis) |
| ChainSpec.LocalTestnetAuthoritiesRegistered | polkadot-test-service/src/chain_spec.rs:38-41 | the stashes and controllers of Alice and Bob are registry accounts |
| ChainSpec.LocalTestnetStakersFunded | polkadot-test-service/src/chain_spec.rs:36-45 | in the local genesis, every staker's stash and controller are endowed, and the endowment covers its bond |
| ChainSpec.LocalTestnetDistinctStakers | polkadot-test-service/src/chain_spec.rs:36-45 | if the derivation does not collide on "Alice", "Bob" and their stash seeds, the two validators have different stashes and controllers, and neither one's stash is its own controller |

## Left out

- The key derivation itself (`get_account_id_from_seed`, `get_from_seed`). It is cryptography in another file that is not part of this model, so it is an arbitrary function parameter.
- The panic when a seed cannot be derived. That happens inside the foreign derivation, and the model treats derivation as total.
- The `system` section (`WASM_BINARY`, `changes_trie_config`). The runtime blob and its defaults are defined outside this file.
- The `babe` and `grandpa` sections, and the staking fields filled by `..Default::default()`. These are library defaults, so the model does not see their values.
- The entry types of the empty sections (indices, authority discovery, parachains, registrar, claims and vesting). These types belong to the runtime crate, so entries are kept as opaque byte strings; only the emptiness of each list is modelled. The registrar's `_phdata` marker is omitted.
- `Extensions` and the internals of `from_genesis` (serialization, telemetry). These are library plumbing. Laziness is kept: the spec holds the genesis as a function.
- The commented-out sudo section. It has no behaviour. The root key from "Alice" is passed and ignored, which `Genesis.RootKeyUnused` states.
- `Perbill::from_percent`. Only the constant value it yields here is kept: 100_000_000 parts per billion.
- ChainSpec.LocalTestnetStaking: does not state that Alice's and Bob's stashes differ, because the code does not guarantee it. `ChainSpec.LocalTestnetDistinctStakers` proves it when the derivation does not collide on the four seeds.
