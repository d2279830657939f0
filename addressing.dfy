/**
 * Program-derived addresses, modelled by their seeds. The runtime hashes the
 * seeds with a bump byte; here the derived address IS the pair of seeds and
 * bump, so two derivations agree exactly when their inputs agree. The
 * canonical bump that `find_program_address` settles on depends on the hash
 * and is left to an oracle supplied by the host.
 */
module Addressing {
  import opened Ints

  /** An account address: an ordinary key, or an address derived from this program's seeds. */
  datatype Addr = Key(id: nat) | Derived(seed: Seed, bump: u8)

  /** The ordered seed tuples the program derives addresses from. */
  datatype Seed =
    | VaultSeed(authority: Addr)              // [b"vault", authority]
    | MemberSeed(vault: Addr, user: Addr)     // [b"member", vault, user]
    | TokenAccountSeed(vault: Addr)           // [b"token_account", vault]

  /** The canonical bump for each seed tuple, as found by the runtime's search. */
  type BumpOracle = Seed -> u8

  /** `Pubkey::default()`, the all-zero key of a freshly allocated record. */
  const DEFAULT_PUBKEY: Addr := Key(0)

  /** `create_program_address(seeds ++ [bump])`. */
  function CreateProgramAddress(seed: Seed, bump: u8): Addr
  {
    Derived(seed, bump)
  }

  /** `find_program_address(seeds)`: the address at the canonical bump. */
  function FindProgramAddress(seed: Seed, bumps: BumpOracle): (a: Addr)
    ensures a.Derived? && a.seed == seed
  {
    CreateProgramAddress(seed, bumps(seed))
  }

  function VaultAddress(authority: Addr, bumps: BumpOracle): Addr
  {
    FindProgramAddress(VaultSeed(authority), bumps)
  }

  function MemberAddress(vault: Addr, user: Addr, bumps: BumpOracle): Addr
  {
    FindProgramAddress(MemberSeed(vault, user), bumps)
  }

  function TokenAccountAddress(vault: Addr, bumps: BumpOracle): Addr
  {
    FindProgramAddress(TokenAccountSeed(vault), bumps)
  }

  /** Only keys with a private key sign a transaction; a derived address has none. */
  predicate CanSign(a: Addr)
  {
    a.Key?
  }

  /** Derivation is injective: equal addresses come from equal seeds and bumps. */
  lemma DerivationInjective(s1: Seed, b1: u8, s2: Seed, b2: u8)
    ensures CreateProgramAddress(s1, b1) == CreateProgramAddress(s2, b2) <==> s1 == s2 && b1 == b2
  {
  }

  /**
   * One vault per authority, one member record per (vault, user), one token
   * account per vault, and the three roles never share an address.
   */
  lemma AddressesSeparate(bumps: BumpOracle, a1: Addr, a2: Addr, v: Addr, u: Addr, w: Addr, u2: Addr)
    ensures VaultAddress(a1, bumps) == VaultAddress(a2, bumps) <==> a1 == a2
    ensures MemberAddress(v, u, bumps) == MemberAddress(w, u2, bumps) <==> v == w && u == u2
    ensures TokenAccountAddress(v, bumps) == TokenAccountAddress(w, bumps) <==> v == w
    ensures VaultAddress(a1, bumps) != MemberAddress(v, u, bumps)
    ensures VaultAddress(a1, bumps) != TokenAccountAddress(v, bumps)
    ensures MemberAddress(v, u, bumps) != TokenAccountAddress(w, bumps)
    ensures !CanSign(VaultAddress(a1, bumps)) && !CanSign(MemberAddress(v, u, bumps)) && !CanSign(TokenAccountAddress(v, bumps))
  {
  }
}
