/** Deriving account identities and session keys from seed strings. */
module SeedKeys {

  /** A 32-byte sr25519 or ed25519 public key. */
  type PublicKey = k: seq<bv8> | |k| == 32 witness seq(32, _ => 0 as bv8)

  /** Public-key based identities; their bytes are whatever the derivation produces. */
  datatype AccountId = AccountId(publicKey: PublicKey)
  datatype BabeId = BabeId(publicKey: PublicKey)
  datatype GrandpaId = GrandpaId(publicKey: PublicKey)
  datatype ValidatorId = ValidatorId(publicKey: PublicKey)

  /**
   * The cryptographic derivation, one operation per key kind. These are foreign
   * calls (`get_account_id_from_seed::<sr25519::Public>` and `get_from_seed::<K>`),
   * so the model takes them as arbitrary functions: nothing here assumes two
   * different seeds give two different keys.
   */
  datatype Deriver = Deriver(
    accountId: string -> AccountId,
    babe: string -> BabeId,
    grandpa: string -> GrandpaId,
    validator: string -> ValidatorId)

  /**
   * The derivation maps no two different seeds of `seeds` to one account. Keys are
   * 32 bytes, so this can hold for a finite set of seeds but never for all strings.
   */
  ghost predicate CollisionFree(d: Deriver, seeds: set<string>)
  {
    forall s, t :: s in seeds && t in seeds && d.accountId(s) == d.accountId(t) ==> s == t
  }

  const STASH_SUFFIX := "//stash"

  /** `format!("{}//stash", seed)`: the seed followed by the suffix. */
  function StashSeed(seed: string): (r: string)
    ensures |r| == |seed| + |STASH_SUFFIX|
    ensures r[..|seed|] == seed && r[|seed|..] == "//stash"
  {
    seed + STASH_SUFFIX
  }

  /** Appending the suffix loses nothing: distinct seeds give distinct stash seeds. */
  lemma StashSeedInjective(a: string, b: string)
    ensures StashSeed(a) == StashSeed(b) <==> a == b
  {
    if StashSeed(a) == StashSeed(b) {
      assert |a| == |b|;
      assert a == (a + STASH_SUFFIX)[..|a|] == (b + STASH_SUFFIX)[..|b|] == b;
    }
  }

  /** A stash seed is never the bare seed it was built from. */
  lemma StashSeedDiffers(seed: string)
    ensures StashSeed(seed) != seed
  {
    assert |StashSeed(seed)| == |seed| + 7;
  }

  /** One authority: stash, controller, and its BABE, GRANDPA and parachain-validator keys. */
  datatype AuthorityKeys = AuthorityKeys(
    stash: AccountId,
    controller: AccountId,
    babe: BabeId,
    grandpa: GrandpaId,
    validator: ValidatorId)

  /**
   * The stash comes from the seed with the stash suffix; the controller and all
   * three consensus keys come from the bare seed.
   */
  function AuthorityKeysFromSeed(d: Deriver, seed: string): (k: AuthorityKeys)
    ensures k.stash == d.accountId(StashSeed(seed))
    ensures k.controller == d.accountId(seed)
    ensures k.babe == d.babe(seed) && k.grandpa == d.grandpa(seed) && k.validator == d.validator(seed)
  {
    AuthorityKeys(
      d.accountId(StashSeed(seed)),
      d.accountId(seed),
      d.babe(seed),
      d.grandpa(seed),
      d.validator(seed))
  }

  /**
   * When the derivation has no collision among the two seeds and their stash seeds,
   * an authority's stash differs from its own controller, and authorities from
   * different seeds differ in stash and in controller.
   */
  lemma AuthorityKeysDistinct(d: Deriver, a: string, b: string)
    requires CollisionFree(d, {a, b, StashSeed(a), StashSeed(b)})
    ensures AuthorityKeysFromSeed(d, a).stash != AuthorityKeysFromSeed(d, a).controller
    ensures AuthorityKeysFromSeed(d, b).stash != AuthorityKeysFromSeed(d, b).controller
    ensures a != b ==> AuthorityKeysFromSeed(d, a).stash != AuthorityKeysFromSeed(d, b).stash
    ensures a != b ==> AuthorityKeysFromSeed(d, a).controller != AuthorityKeysFromSeed(d, b).controller
  {
    StashSeedDiffers(a);
    StashSeedDiffers(b);
    StashSeedInjective(a, b);
  }
}
