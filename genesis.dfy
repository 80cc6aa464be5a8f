/** Assembling the per-module genesis state of the test runtime. */
module Genesis {
  import opened Common
  import opened SeedKeys
  import opened AccountRegistry

  const U128_MAX: nat := 0xffff_ffff_ffff_ffff_ffff_ffff_ffff_ffff

  /** Balances are `u128`. */
  type Balance = b: nat | b <= U128_MAX

  /**
   * The runtime's `DOTS` unit, whose value is defined elsewhere. It is positive,
   * and `1_000_000 * DOTS` fits in a `u128`, since the `const ENDOWMENT: u128`
   * computed from it would not compile otherwise.
   */
  type Dots = d: nat | 0 < d && 1_000_000 * d <= U128_MAX witness 1

  /** `ENDOWMENT`: what every endowed account receives. */
  function Endowment(dots: Dots): (e: Balance)
    ensures e == 1_000_000 * dots && e >= 1_000_000
  {
    1_000_000 * dots
  }

  /** `STASH`: what every staker bonds from its stash. */
  function StashBond(dots: Dots): (b: Balance)
    ensures b == 100 * dots && 100 <= b < Endowment(dots)
  {
    100 * dots
  }

  /** The endowment is ten thousand stash deposits, so it always covers one. */
  lemma EndowmentCoversStash(dots: Dots)
    ensures Endowment(dots) == 10_000 * StashBond(dots)
    ensures StashBond(dots) > 0 && Endowment(dots) > StashBond(dots)
  {
  }

  /** A fraction in parts per billion. */
  datatype Perbill = Perbill(parts: nat)

  const PERBILL_ACCURACY: nat := 1_000_000_000

  /** `Perbill::from_percent(10)`. */
  const SLASH_REWARD_FRACTION := Perbill(100_000_000)

  datatype Forcing = NotForcing | ForceNew | ForceNone | ForceAlways

  datatype StakerStatus = Idle | Validator | Nominator(targets: seq<AccountId>)

  /** An entry of a section whose element type belongs to the runtime; kept as its encoding. */
  datatype Opaque = Opaque(encoded: seq<bv8>)

  datatype BalanceEntry = BalanceEntry(account: AccountId, amount: Balance)

  datatype SessionKeys = SessionKeys(babe: BabeId, grandpa: GrandpaId, parachainValidator: ValidatorId)

  /** `(account, validator id, keys)`; this genesis puts the stash in both id slots. */
  datatype SessionEntry = SessionEntry(account: AccountId, validatorId: AccountId, keys: SessionKeys)

  datatype Staker = Staker(stash: AccountId, controller: AccountId, bonded: Balance, status: StakerStatus)

  /** The staking fields this genesis sets; the rest keep the pallet's defaults. */
  datatype StakingConfig = StakingConfig(
    minimumValidatorCount: nat,
    validatorCount: nat,
    stakers: seq<Staker>,
    invulnerables: seq<AccountId>,
    forceEra: Forcing,
    slashRewardFraction: Perbill)

  /** Every module's initial state; each is present. */
  datatype GenesisConfig = GenesisConfig(
    indices: seq<Opaque>,
    balances: seq<BalanceEntry>,
    sessionKeys: seq<SessionEntry>,
    staking: StakingConfig,
    authorityDiscoveryKeys: seq<Opaque>,
    parachainAuthorities: seq<Opaque>,
    registrarParachains: seq<Opaque>,
    claims: seq<Opaque>,
    claimsVesting: seq<Opaque>,
    vesting: seq<Opaque>)

  /** The balances section: every endowed account, in order, with `amount`; duplicates stay. */
  function Balances(endowed: seq<AccountId>, amount: Balance): (r: seq<BalanceEntry>)
    ensures |r| == |endowed|
    ensures forall i :: 0 <= i < |r| ==> r[i].account == endowed[i] && r[i].amount == amount
  {
    Map((k: AccountId) => BalanceEntry(k, amount), endowed)
  }

  /** The session section: authority `i`'s stash in both id slots, then its three keys. */
  function SessionEntries(authorities: seq<AuthorityKeys>): (r: seq<SessionEntry>)
    ensures |r| == |authorities|
    ensures forall i :: 0 <= i < |r| ==>
      && r[i].account == authorities[i].stash
      && r[i].validatorId == authorities[i].stash
      && r[i].keys == SessionKeys(authorities[i].babe, authorities[i].grandpa, authorities[i].validator)
  {
    Map((x: AuthorityKeys) => SessionEntry(x.stash, x.stash, SessionKeys(x.babe, x.grandpa, x.validator)),
        authorities)
  }

  /** The stakers: authority `i` bonds `bond` from its stash, managed by its controller, as a validator. */
  function Stakers(authorities: seq<AuthorityKeys>, bond: Balance): (r: seq<Staker>)
    ensures |r| == |authorities|
    ensures forall i :: 0 <= i < |r| ==>
      r[i] == Staker(authorities[i].stash, authorities[i].controller, bond, Validator)
  {
    Map((x: AuthorityKeys) => Staker(x.stash, x.controller, bond, Validator), authorities)
  }

  /** The invulnerables: the stash column of the authorities, in order. */
  function Invulnerables(authorities: seq<AuthorityKeys>): (r: seq<AccountId>)
    ensures |r| == |authorities|
    ensures forall i :: 0 <= i < |r| ==> r[i] == authorities[i].stash
  {
    Map((x: AuthorityKeys) => x.stash, authorities)
  }

  /** The account column of a balances list. */
  function AccountsOf(balances: seq<BalanceEntry>): (r: seq<AccountId>)
    ensures |r| == |balances|
    ensures forall i :: 0 <= i < |r| ==> r[i] == balances[i].account
  {
    Map((b: BalanceEntry) => b.account, balances)
  }

  /** The stash column of a stakers list. */
  function StashesOf(stakers: seq<Staker>): (r: seq<AccountId>)
    ensures |r| == |stakers|
    ensures forall i :: 0 <= i < |r| ==> r[i] == stakers[i].stash
  {
    Map((s: Staker) => s.stash, stakers)
  }

  /**
   * The test genesis. `rootKey` is accepted and unused. Without an explicit list
   * the whole registry is endowed. Nothing checks the authority list: it may be
   * empty, shorter than `validatorCount`, or repeat a stash.
   */
  function TestnetGenesis(
    d: Deriver,
    dots: Dots,
    authorities: seq<AuthorityKeys>,
    rootKey: AccountId,
    endowedAccounts: Option<seq<AccountId>>): (g: GenesisConfig)
    ensures g.staking.minimumValidatorCount == 1 && g.staking.validatorCount == 2
    ensures g.staking.forceEra == NotForcing
    ensures g.staking.slashRewardFraction.parts * 10 == PERBILL_ACCURACY
    ensures g.indices == g.authorityDiscoveryKeys == g.parachainAuthorities == []
    ensures g.registrarParachains == g.claims == g.claimsVesting == g.vesting == []
    ensures g.balances == Balances(endowedAccounts.UnwrapOr(TestnetAccounts(d)), Endowment(dots))
    ensures g.sessionKeys == SessionEntries(authorities)
    ensures g.staking.stakers == Stakers(authorities, StashBond(dots))
    ensures g.staking.invulnerables == Invulnerables(authorities)
  {
    var endowed := endowedAccounts.UnwrapOr(TestnetAccounts(d));
    GenesisConfig(
      indices := [],
      balances := Balances(endowed, Endowment(dots)),
      sessionKeys := SessionEntries(authorities),
      staking := StakingConfig(
        minimumValidatorCount := 1,
        validatorCount := 2,
        stakers := Stakers(authorities, StashBond(dots)),
        invulnerables := Invulnerables(authorities),
        forceEra := NotForcing,
        slashRewardFraction := SLASH_REWARD_FRACTION),
      authorityDiscoveryKeys := [],
      parachainAuthorities := [],
      registrarParachains := [],
      claims := [],
      claimsVesting := [],
      vesting := [])
  }

  /**
   * The endowed accounts are the supplied list unchanged, or the twelve registry
   * accounts when none is supplied; each gets the endowment, and an account listed
   * twice is endowed twice.
   */
  lemma GenesisBalances(d: Deriver, dots: Dots, authorities: seq<AuthorityKeys>, rootKey: AccountId,
                        endowedAccounts: Option<seq<AccountId>>)
    ensures var g := TestnetGenesis(d, dots, authorities, rootKey, endowedAccounts);
      && AccountsOf(g.balances) == (if endowedAccounts.Some? then endowedAccounts.value else TestnetAccounts(d))
      && (forall b :: b in g.balances ==> b.amount == Endowment(dots))
  {
    var endowed := endowedAccounts.UnwrapOr(TestnetAccounts(d));
    assert TestnetGenesis(d, dots, authorities, rootKey, endowedAccounts).balances
        == Balances(endowed, Endowment(dots));
    BalancesRoundTrip(endowed, Endowment(dots));
  }

  /** With no list supplied, all twelve registry accounts are endowed (the `None` case of `GenesisBalances`, entry by entry). */
  lemma DefaultEndowsRegistry(d: Deriver, dots: Dots, authorities: seq<AuthorityKeys>, rootKey: AccountId)
    ensures var g := TestnetGenesis(d, dots, authorities, rootKey, None);
      && |g.balances| == 12
      && forall i :: 0 <= i < 12 ==> g.balances[i] == BalanceEntry(TestnetAccounts(d)[i], Endowment(dots))
  {
  }

  /**
   * Balances never merge: the account column gives back the endowed list, so, as a
   * corollary, each account occurs as often as it was listed; every entry holds `amount`.
   */
  lemma BalancesRoundTrip(endowed: seq<AccountId>, amount: Balance)
    ensures AccountsOf(Balances(endowed, amount)) == endowed
    ensures multiset(AccountsOf(Balances(endowed, amount))) == multiset(endowed)
    ensures forall b :: b in Balances(endowed, amount) ==> b.amount == amount
  {
  }

  /**
   * The session, stakers and invulnerables sections built from one authority list
   * agree entry by entry: entry `i` of each names authority `i`'s stash.
   */
  lemma SectionsAgree(authorities: seq<AuthorityKeys>, bond: Balance)
    ensures var session, stakers, inv := SessionEntries(authorities), Stakers(authorities, bond), Invulnerables(authorities);
      && |session| == |stakers| == |inv| == |authorities|
      && StashesOf(stakers) == inv
      && forall i :: 0 <= i < |authorities| ==>
           && inv[i] == authorities[i].stash
           && session[i].account == session[i].validatorId == authorities[i].stash
           && session[i].keys == SessionKeys(authorities[i].babe, authorities[i].grandpa, authorities[i].validator)
           && stakers[i] == Staker(authorities[i].stash, authorities[i].controller, bond, Validator)
  {
    assert StashesOf(Stakers(authorities, bond)) == Invulnerables(authorities);
  }

  /**
   * `SectionsAgree` read through `TestnetGenesis`, restated at the genesis level for
   * readers. Session and staking describe the same authorities in the same order: entry `i`
   * of stakers, session keys and invulnerables all name authority `i`'s stash; the
   * staker carries its controller and the stash deposit, the session entry its keys.
   */
  lemma SessionMatchesStaking(d: Deriver, dots: Dots, authorities: seq<AuthorityKeys>, rootKey: AccountId,
                              endowedAccounts: Option<seq<AccountId>>)
    ensures var g := TestnetGenesis(d, dots, authorities, rootKey, endowedAccounts);
      && |g.sessionKeys| == |g.staking.stakers| == |g.staking.invulnerables| == |authorities|
      && StashesOf(g.staking.stakers) == g.staking.invulnerables
      && forall i :: 0 <= i < |authorities| ==>
           && g.staking.invulnerables[i] == authorities[i].stash
           && g.sessionKeys[i].account == g.sessionKeys[i].validatorId == authorities[i].stash
           && g.sessionKeys[i].keys == SessionKeys(authorities[i].babe, authorities[i].grandpa, authorities[i].validator)
           && g.staking.stakers[i] == Staker(authorities[i].stash, authorities[i].controller, StashBond(dots), Validator)
  {
    SectionsAgree(authorities, StashBond(dots));
  }

  /** `SectionsAgree` written out for a two-authority list, as whole sequences. */
  lemma PairSections(a: AuthorityKeys, b: AuthorityKeys, bond: Balance)
    ensures Stakers([a, b], bond) == [Staker(a.stash, a.controller, bond, Validator),
                                      Staker(b.stash, b.controller, bond, Validator)]
    ensures Invulnerables([a, b]) == [a.stash, b.stash]
    ensures SessionEntries([a, b]) == [
      SessionEntry(a.stash, a.stash, SessionKeys(a.babe, a.grandpa, a.validator)),
      SessionEntry(b.stash, b.stash, SessionKeys(b.babe, b.grandpa, b.validator))]
  {
    SectionsAgree([a, b], bond);
  }

  /** The invulnerables hold each authority stash, and nothing else, for any number of authorities. */
  lemma InvulnerableSet(authorities: seq<AuthorityKeys>)
    ensures (set a | a in Invulnerables(authorities)) == (set x | x in authorities :: x.stash)
  {
    var inv := Invulnerables(authorities);
    forall a | a in inv ensures a in (set x | x in authorities :: x.stash) {
      var i :| 0 <= i < |inv| && inv[i] == a;
      assert authorities[i] in authorities;
    }
    forall x | x in authorities ensures x.stash in inv {
      var i :| 0 <= i < |authorities| && authorities[i] == x;
      assert inv[i] == x.stash;
    }
  }

  /** The slashing-exempt set of the genesis is exactly the set of authority stashes. */
  lemma InvulnerablesAreStashSet(d: Deriver, dots: Dots, authorities: seq<AuthorityKeys>, rootKey: AccountId,
                                 endowedAccounts: Option<seq<AccountId>>)
    ensures var g := TestnetGenesis(d, dots, authorities, rootKey, endowedAccounts);
      (set a | a in g.staking.invulnerables) == (set x | x in authorities :: x.stash)
  {
    assert TestnetGenesis(d, dots, authorities, rootKey, endowedAccounts).staking.invulnerables
        == Invulnerables(authorities);
    InvulnerableSet(authorities);
  }

  /**
   * When every authority's stash and controller are among the endowed accounts,
   * every staker's stash and controller are endowed, and the endowment covers its bond.
   */
  lemma StakersFunded(d: Deriver, dots: Dots, authorities: seq<AuthorityKeys>, rootKey: AccountId,
                      endowedAccounts: Option<seq<AccountId>>)
    requires forall i :: 0 <= i < |authorities| ==>
      && authorities[i].stash in endowedAccounts.UnwrapOr(TestnetAccounts(d))
      && authorities[i].controller in endowedAccounts.UnwrapOr(TestnetAccounts(d))
    ensures var g := TestnetGenesis(d, dots, authorities, rootKey, endowedAccounts);
      forall s :: s in g.staking.stakers ==>
        && s.stash in AccountsOf(g.balances)
        && s.controller in AccountsOf(g.balances)
        && Endowment(dots) >= s.bonded
  {
    var endowed := endowedAccounts.UnwrapOr(TestnetAccounts(d));
    var g := TestnetGenesis(d, dots, authorities, rootKey, endowedAccounts);
    GenesisBalances(d, dots, authorities, rootKey, endowedAccounts);
    EndowmentCoversStash(dots);
    assert AccountsOf(g.balances) == endowed;
    assert g.staking.stakers == Stakers(authorities, StashBond(dots));
    forall s | s in g.staking.stakers
      ensures s.stash in endowed && s.controller in endowed && Endowment(dots) >= s.bonded
    {
      var i :| 0 <= i < |g.staking.stakers| && g.staking.stakers[i] == s;
    }
  }

  /** The unused root key has no influence on the genesis. */
  lemma RootKeyUnused(d: Deriver, dots: Dots, authorities: seq<AuthorityKeys>, k1: AccountId, k2: AccountId,
                      endowedAccounts: Option<seq<AccountId>>)
    ensures TestnetGenesis(d, dots, authorities, k1, endowedAccounts)
         == TestnetGenesis(d, dots, authorities, k2, endowedAccounts)
  {
  }

  /**
   * The validator count is not checked against the authorities: it is two for any
   * authority list, so with fewer than two authorities it exceeds the stakers.
   */
  lemma ValidatorCountUnchecked(d: Deriver, dots: Dots, authorities: seq<AuthorityKeys>, rootKey: AccountId,
                                endowedAccounts: Option<seq<AccountId>>)
    ensures var g := TestnetGenesis(d, dots, authorities, rootKey, endowedAccounts);
      && g.staking.validatorCount == 2
      && |g.staking.stakers| == |authorities|
      && (|authorities| < 2 ==> g.staking.validatorCount > |g.staking.stakers|)
  {
  }

  /**
   * Stashes are not checked for distinctness: authorities sharing a stash are each
   * staked and each listed as invulnerable, at their own positions.
   */
  lemma RepeatedAuthorityKept(d: Deriver, dots: Dots, authorities: seq<AuthorityKeys>, rootKey: AccountId,
                              endowedAccounts: Option<seq<AccountId>>)
    ensures var g := TestnetGenesis(d, dots, authorities, rootKey, endowedAccounts);
      forall i, j :: 0 <= i < j < |authorities| && authorities[i].stash == authorities[j].stash ==>
        && g.staking.invulnerables[i] == g.staking.invulnerables[j] == authorities[i].stash
        && g.staking.stakers[i].stash == g.staking.stakers[j].stash == authorities[i].stash
  {
  }
}
