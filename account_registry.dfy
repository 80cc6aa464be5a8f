/** The fixed registry of twelve test accounts endowed by default. */
module AccountRegistry {
  import opened Common
  import opened SeedKeys

  /** The six well-known development seeds, in registry order. */
  const DEV_SEEDS: seq<string> := ["Alice", "Bob", "Charlie", "Dave", "Eve", "Ferdie"]

  /** The twelve seeds of the registry, written out as the source lists them. */
  const REGISTRY_SEEDS: seq<string> := [
    "Alice", "Bob", "Charlie", "Dave", "Eve", "Ferdie",
    "Alice//stash", "Bob//stash", "Charlie//stash", "Dave//stash", "Eve//stash", "Ferdie//stash"
  ]

  /** The registry: one account per registry seed, in order. */
  function TestnetAccounts(d: Deriver): (r: seq<AccountId>)
    ensures |r| == |REGISTRY_SEEDS| == 12
    ensures forall i :: 0 <= i < 12 ==> r[i] == d.accountId(REGISTRY_SEEDS[i])
  {
    Map(d.accountId, REGISTRY_SEEDS)
  }

  /** Entry `i + 6` of the seed list is entry `i` with the stash suffix. */
  lemma RegistryStashSeed(i: nat)
    requires i < 6
    ensures REGISTRY_SEEDS[i] == DEV_SEEDS[i]
    ensures REGISTRY_SEEDS[i + 6] == StashSeed(DEV_SEEDS[i])
  {
    if i == 0 {
      assert "Alice" + "//stash" == "Alice//stash";
    } else if i == 1 {
      assert "Bob" + "//stash" == "Bob//stash";
    } else if i == 2 {
      assert "Charlie" + "//stash" == "Charlie//stash";
    } else if i == 3 {
      assert "Dave" + "//stash" == "Dave//stash";
    } else if i == 4 {
      assert "Eve" + "//stash" == "Eve//stash";
    } else {
      assert "Ferdie" + "//stash" == "Ferdie//stash";
    }
  }

  /**
   * The registry holds exactly twelve accounts: the six development accounts,
   * then the stash account of each of them in the same order.
   */
  lemma TestnetAccountsLayout(d: Deriver)
    ensures |TestnetAccounts(d)| == 12
    ensures forall i :: 0 <= i < 6 ==> TestnetAccounts(d)[i] == d.accountId(DEV_SEEDS[i])
    ensures forall i :: 0 <= i < 6 ==> TestnetAccounts(d)[i + 6] == d.accountId(StashSeed(DEV_SEEDS[i]))
  {
    forall i | 0 <= i < 6
      ensures TestnetAccounts(d)[i] == d.accountId(DEV_SEEDS[i])
      ensures TestnetAccounts(d)[i + 6] == d.accountId(StashSeed(DEV_SEEDS[i]))
    {
      RegistryStashSeed(i);
    }
  }

  /**
   * Every development seed's authority is fully endowed by the registry: its
   * controller is entry `i` and its stash entry `i + 6`.
   */
  lemma AuthorityAccountsInRegistry(d: Deriver, seed: string, i: nat)
    requires i < 6 && DEV_SEEDS[i] == seed
    ensures AuthorityKeysFromSeed(d, seed).controller == TestnetAccounts(d)[i]
    ensures AuthorityKeysFromSeed(d, seed).stash == TestnetAccounts(d)[i + 6]
    ensures AuthorityKeysFromSeed(d, seed).controller in TestnetAccounts(d)
    ensures AuthorityKeysFromSeed(d, seed).stash in TestnetAccounts(d)
  {
    TestnetAccountsLayout(d);
    assert TestnetAccounts(d)[i] in TestnetAccounts(d);
    assert TestnetAccounts(d)[i + 6] in TestnetAccounts(d);
  }
}
