/** The local test network: its default genesis and the chain-spec metadata around it. */
module ChainSpec {
  import opened Common
  import opened SeedKeys
  import opened AccountRegistry
  import opened Genesis

  const DEFAULT_PROTOCOL_ID := "dot"

  datatype ChainType = Development | Local | Live | Custom(name: string)

  /**
   * A chain spec. The genesis is kept as a function, evaluated only when the spec
   * is consumed, as `from_genesis` defers it.
   */
  datatype PolkadotChainSpec = PolkadotChainSpec(
    name: string,
    id: string,
    chainType: ChainType,
    genesis: () -> GenesisConfig,
    bootNodes: seq<string>,
    telemetryEndpoints: Option<seq<(string, nat)>>,
    protocolId: Option<string>,
    properties: Option<map<string, string>>)

  /** The two default authorities, Alice then Bob. */
  function LocalTestnetAuthorities(d: Deriver): (r: seq<AuthorityKeys>)
    ensures |r| == 2
    ensures r[0] == AuthorityKeysFromSeed(d, "Alice") && r[1] == AuthorityKeysFromSeed(d, "Bob")
  {
    [AuthorityKeysFromSeed(d, "Alice"), AuthorityKeysFromSeed(d, "Bob")]
  }

  /** The Alice + Bob genesis, with Alice as root key and the whole registry endowed. */
  function LocalTestnetGenesis(d: Deriver, dots: Dots): (g: GenesisConfig)
    ensures g == TestnetGenesis(d, dots, [AuthorityKeysFromSeed(d, "Alice"), AuthorityKeysFromSeed(d, "Bob")],
                                d.accountId("Alice"), None)
  {
    TestnetGenesis(d, dots, LocalTestnetAuthorities(d), d.accountId("Alice"), None)
  }

  /** The chain spec of the local test network. */
  function LocalTestnetConfig(d: Deriver, dots: Dots): (spec: PolkadotChainSpec)
    ensures spec.name == "Local Testnet" && spec.id == "local_testnet" && spec.chainType == Local
    ensures spec.bootNodes == [] && spec.telemetryEndpoints == None && spec.properties == None
    ensures spec.protocolId == Some("dot")
    ensures spec.genesis() == LocalTestnetGenesis(d, dots)
  {
    PolkadotChainSpec(
      "Local Testnet",
      "local_testnet",
      Local,
      () => LocalTestnetGenesis(d, dots),
      [],
      None,
      Some(DEFAULT_PROTOCOL_ID),
      None)
  }

  /**
   * The local genesis stakes exactly Alice and Bob, in that order: each bonds the
   * stash deposit from its stash as a validator, both stashes are slashing-exempt,
   * each stash carries its own session keys, and the staking constants are fixed.
   */
  lemma LocalTestnetStaking(d: Deriver, dots: Dots)
    ensures var g := LocalTestnetGenesis(d, dots);
      var alice, bob := AuthorityKeysFromSeed(d, "Alice"), AuthorityKeysFromSeed(d, "Bob");
      && g.staking.stakers == [
           Staker(alice.stash, alice.controller, StashBond(dots), Validator),
           Staker(bob.stash, bob.controller, StashBond(dots), Validator)]
      && g.staking.invulnerables == [alice.stash, bob.stash]
      && g.sessionKeys == [
           SessionEntry(alice.stash, alice.stash, SessionKeys(alice.babe, alice.grandpa, alice.validator)),
           SessionEntry(bob.stash, bob.stash, SessionKeys(bob.babe, bob.grandpa, bob.validator))]
      && g.staking.validatorCount == 2 && g.staking.minimumValidatorCount == 1
      && g.staking.forceEra == NotForcing
      && g.staking.slashRewardFraction == Perbill(100_000_000)
  {
    PairSections(AuthorityKeysFromSeed(d, "Alice"), AuthorityKeysFromSeed(d, "Bob"), StashBond(dots));
  }

  /**
   * If the derivation has no collision among "Alice", "Bob" and their stash seeds,
   * the two local validators have different stashes and different controllers,
   * and neither one's stash is its own controller.
   */
  lemma LocalTestnetDistinctStakers(d: Deriver, dots: Dots)
    requires CollisionFree(d, {"Alice", "Bob", StashSeed("Alice"), StashSeed("Bob")})
    ensures var stakers := LocalTestnetGenesis(d, dots).staking.stakers;
      && stakers[0].stash != stakers[1].stash
      && stakers[0].controller != stakers[1].controller
      && stakers[0].stash != stakers[0].controller
      && stakers[1].stash != stakers[1].controller
  {
    var alice, bob := AuthorityKeysFromSeed(d, "Alice"), AuthorityKeysFromSeed(d, "Bob");
    assert "Alice" != "Bob" by { assert |"Alice"| != |"Bob"|; }
    AuthorityKeysDistinct(d, "Alice", "Bob");
    var stakers := LocalTestnetGenesis(d, dots).staking.stakers;
    assert stakers == Stakers([alice, bob], StashBond(dots));
    assert stakers[0].stash == alice.stash && stakers[0].controller == alice.controller;
    assert stakers[1].stash == bob.stash && stakers[1].controller == bob.controller;
  }

  /**
   * The local genesis endows all twelve registry accounts, in order, with the
   * endowment (`GenesisBalances` for the local authorities, restated for readers).
   */
  lemma LocalTestnetBalances(d: Deriver, dots: Dots)
    ensures var g := LocalTestnetGenesis(d, dots);
      && AccountsOf(g.balances) == TestnetAccounts(d)
      && |g.balances| == 12
      && forall b :: b in g.balances ==> b.amount == Endowment(dots)
  {
    GenesisBalances(d, dots, LocalTestnetAuthorities(d), d.accountId("Alice"), None);
  }

  /**
   * In the local genesis each staker's stash and controller are endowed, and the
   * endowment covers the bond, so every validator can fund its own stake.
   */
  lemma LocalTestnetStakersFunded(d: Deriver, dots: Dots)
    ensures var g := LocalTestnetGenesis(d, dots);
      forall s :: s in g.staking.stakers ==>
        && s.stash in AccountsOf(g.balances)
        && s.controller in AccountsOf(g.balances)
        && Endowment(dots) >= s.bonded
  {
    LocalTestnetAuthoritiesRegistered(d);
    StakersFunded(d, dots, LocalTestnetAuthorities(d), d.accountId("Alice"), None);
  }

  /** Alice's and Bob's stashes and controllers are all registry accounts. */
  lemma LocalTestnetAuthoritiesRegistered(d: Deriver)
    ensures forall i :: 0 <= i < |LocalTestnetAuthorities(d)| ==>
      && LocalTestnetAuthorities(d)[i].stash in TestnetAccounts(d)
      && LocalTestnetAuthorities(d)[i].controller in TestnetAccounts(d)
  {
    var authorities := LocalTestnetAuthorities(d);
    forall i | 0 <= i < |authorities|
      ensures authorities[i].stash in TestnetAccounts(d) && authorities[i].controller in TestnetAccounts(d)
    {
      if i == 0 {
        AuthorityAccountsInRegistry(d, "Alice", 0);
      } else {
        assert i == 1;
        AuthorityAccountsInRegistry(d, "Bob", 1);
      }
    }
  }
}
