/**
 * The initialize instruction: `init` a vault record at the address derived
 * from the signing authority and write each of its fields.
 */
module InitializeInstruction {
  import opened Ints
  import opened Addressing
  import opened Records
  import opened Events
  import opened LedgerState

  /**
   * The instruction's outcome. Anchor checks the `Signer` first, then `init`
   * refuses an address that already holds a vault; the handler then writes
   * the record with zeroed counters.
   */
  function Apply(s: State, bumps: BumpOracle, authority: Addr, mint: Addr, now: i64)
    : Result<Step<VaultInitialized>>
  {
    var vaultKey := VaultAddress(authority, bumps);
    if !CanSign(authority) then Err(MissingSignature)
    else if vaultKey in s.vaults then Err(AccountInUse)
    else
      var vault := Vault(authority, bumps(VaultSeed(authority)), 0, 0, mint,
                         TokenAccountAddress(vaultKey, bumps));
      Ok(Step(s.(vaults := s.vaults[vaultKey := vault]),
              VaultInitialized(vaultKey, authority, now)))
  }

  /** The call commits exactly when the authority signed and no vault exists at its address yet. */
  lemma Outcome(s: State, bumps: BumpOracle, authority: Addr, mint: Addr, now: i64)
    ensures var r := Apply(s, bumps, authority, mint, now);
      && (r.Ok? <==> CanSign(authority) && VaultAddress(authority, bumps) !in s.vaults)
      && (CanSign(authority) && VaultAddress(authority, bumps) in s.vaults ==> r == Err(AccountInUse))
  {
  }

  /**
   * A committed initialize creates the vault at the authority's derived
   * address with that authority, the canonical bump, zero counters, the mint
   * and the token account derived from the vault address, and changes
   * nothing else.
   */
  lemma Effect(s: State, bumps: BumpOracle, authority: Addr, mint: Addr, now: i64)
    requires Apply(s, bumps, authority, mint, now).Ok?
    ensures var st := Apply(s, bumps, authority, mint, now).value;
      var k := VaultAddress(authority, bumps);
      && k !in s.vaults
      && st.next.vaults.Keys == s.vaults.Keys + {k}
      && st.next.vaults[k].authority == authority
      && st.next.vaults[k].bump == bumps(VaultSeed(authority))
      && k == CreateProgramAddress(VaultSeed(authority), st.next.vaults[k].bump)
      && st.next.vaults[k].totalDeposited == 0
      && st.next.vaults[k].memberCount == 0
      && st.next.vaults[k].mint == mint
      && st.next.vaults[k].tokenAccount == TokenAccountAddress(k, bumps)
      && (forall j | j in s.vaults :: st.next.vaults[j] == s.vaults[j])
      && st.next.members == s.members
      && st.next.lamports == s.lamports
      && st.event == VaultInitialized(k, authority, now)
  {
  }

  lemma PreservesValid(s: State, bumps: BumpOracle, authority: Addr, mint: Addr, now: i64)
    requires Valid(s, bumps)
    requires Apply(s, bumps, authority, mint, now).Ok?
    ensures Valid(Apply(s, bumps, authority, mint, now).value.next, bumps)
  {
  }

  /** Initialize keeps every record's identity, and a new vault starts with no depositors. */
  lemma Evolution(s: State, bumps: BumpOracle, authority: Addr, mint: Addr, now: i64)
    requires Valid(s, bumps)
    requires Apply(s, bumps, authority, mint, now).Ok?
    ensures var t := Apply(s, bumps, authority, mint, now).value.next;
      && Evolves(s, t)
      && (forall k :: Depositors(t, k) == Depositors(s, k))
      && (forall k :: CountExact(s, k) ==> CountExact(t, k))
      && (forall k :: CountCovers(s, k) ==> CountCovers(t, k))
  {
    var t := Apply(s, bumps, authority, mint, now).value.next;
    var k0 := VaultAddress(authority, bumps);
    assert Depositors(s, k0) == {} by {
      forall u | u in Depositors(s, k0) ensures false {
        DepositorsMembership(s, k0, u);
      }
    }
  }
}
