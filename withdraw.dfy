/**
 * The withdraw instruction: the vault's authority moves lamports out of the
 * vault to a recipient of its choice, and the vault's counter falls by the
 * same amount. No member record is involved.
 */
module WithdrawInstruction {
  import opened Ints
  import opened Addressing
  import opened Records
  import opened SavingsErrors
  import opened Events
  import opened LedgerState

  /** `**vault.lamports -= amount; **recipient.lamports += amount`, `None` where a u64 would wrap. */
  function Paid(lamports: map<Addr, u64>, vault: Addr, recipient: Addr, amount: u64): (r: Option<map<Addr, u64>>)
    ensures r.Some? <==> amount <= Balance(lamports, vault)
                         && (recipient == vault || Balance(lamports, recipient) + amount <= U64_MAX)
    ensures r.Some? && recipient != vault ==>
              && Balance(r.value, vault) == Balance(lamports, vault) - amount
              && Balance(r.value, recipient) == Balance(lamports, recipient) + amount
    ensures r.Some? && recipient == vault ==> Balance(r.value, vault) == Balance(lamports, vault)
    ensures r.Some? ==> forall k | k != vault && k != recipient :: Balance(r.value, k) == Balance(lamports, k)
  {
    if Balance(lamports, vault) < amount then None
    else
      var debited := lamports[vault := Balance(lamports, vault) - amount];
      if Balance(debited, recipient) + amount > U64_MAX then None
      else Some(debited[recipient := Balance(debited, recipient) + amount])
  }

  /**
   * The instruction's outcome, in the order Anchor and the handler check:
   * the vault record must exist and the authority must sign; the vault
   * must sit at the address the SIGNER's key and the stored bump derive
   * (`seeds`), then its stored authority must be the signer (`has_one`);
   * the amount must not exceed the counter; then the counter falls and the
   * lamports move. A wrapping lamport update aborts the whole call.
   */
  function Apply(s: State, bumps: BumpOracle, vaultKey: Addr, signer: Addr, recipient: Addr,
                 amount: u64, now: i64): Result<Step<WithdrawalPerformed>>
  {
    if vaultKey !in s.vaults then Err(AccountNotInitialized)
    else if !CanSign(signer) then Err(MissingSignature)
    else
      var v := s.vaults[vaultKey];
      if vaultKey != CreateProgramAddress(VaultSeed(signer), v.bump) then Err(ConstraintSeeds)
      else if v.authority != signer then Err(Custom(Unauthorized))
      else if !(v.totalDeposited >= amount) then Err(Custom(InsufficientFunds))
      else match CheckedSub(v.totalDeposited, amount)
        case None => Err(ArithmeticPanic)
        case Some(total) =>
          match Paid(s.lamports, vaultKey, recipient, amount)
          case None => Err(ArithmeticPanic)
          case Some(lamports) =>
            Ok(Step(State(s.vaults[vaultKey := v.(totalDeposited := total)], s.members, lamports),
                    WithdrawalPerformed(vaultKey, signer, recipient, amount, total, now)))
  }

  /**
   * Once the account checks have passed (the vault exists, the authority
   * signed and the vault sits at its derived address), when the call
   * commits and which failure it reports otherwise: the amount must not
   * exceed the counter, the vault must hold the lamports, and the recipient
   * must have room for them unless it is the vault itself.
   */
  lemma Outcome(s: State, bumps: BumpOracle, vaultKey: Addr, signer: Addr, recipient: Addr, amount: u64, now: i64)
    requires vaultKey in s.vaults && CanSign(signer) && signer == s.vaults[vaultKey].authority
    requires vaultKey == CreateProgramAddress(VaultSeed(signer), s.vaults[vaultKey].bump)
    ensures var r := Apply(s, bumps, vaultKey, signer, recipient, amount, now);
      var fundsOk := amount <= s.vaults[vaultKey].totalDeposited;
      var payOk := && amount <= Balance(s.lamports, vaultKey)
                   && (recipient == vaultKey || Balance(s.lamports, recipient) + amount <= U64_MAX);
      && (r.Ok? <==> fundsOk && payOk)
      && (!fundsOk ==> r == Err(Custom(InsufficientFunds)))
      && (fundsOk && !payOk ==> r == Err(ArithmeticPanic))
  {
    if recipient != vaultKey && amount <= Balance(s.lamports, vaultKey) {
      var debited := s.lamports[vaultKey := Balance(s.lamports, vaultKey) - amount];
      assert Balance(debited, recipient) == Balance(s.lamports, recipient);
    }
  }

  /**
   * A partial withdrawal by the authority to a fresh recipient, as the
   * authority's withdrawal test runs it: on a valid ledger it commits, the
   * counter falls by the amount and the recipient's balance is the amount.
   */
  lemma AuthorityWithdrawsPart(s: State, bumps: BumpOracle, vaultKey: Addr, recipient: Addr, amount: u64, now: i64)
    requires Valid(s, bumps) && vaultKey in s.vaults && CanSign(s.vaults[vaultKey].authority)
    requires amount <= s.vaults[vaultKey].totalDeposited
    requires recipient != vaultKey && Balance(s.lamports, recipient) == 0
    ensures var r := Apply(s, bumps, vaultKey, s.vaults[vaultKey].authority, recipient, amount, now);
      && r.Ok?
      && r.value.next.vaults[vaultKey].totalDeposited == s.vaults[vaultKey].totalDeposited - amount
      && Balance(r.value.next.lamports, recipient) == amount
  {
    var v := s.vaults[vaultKey];
    assert VaultAt(vaultKey, v, bumps);
    Outcome(s, bumps, vaultKey, v.authority, recipient, amount, now);
  }

  /**
   * Any signer other than the vault's authority is refused (by `seeds` or
   * by `has_one`); the stored bump is re-checked, so a signer whose key and
   * that bump do not derive the vault's address gets `ConstraintSeeds`;
   * `Unauthorized` is reported exactly when `seeds` passes and `has_one`
   * fails; and an amount above the counter is refused with
   * `InsufficientFunds` once the signer is the authority.
   */
  lemma Refusals(s: State, bumps: BumpOracle, vaultKey: Addr, signer: Addr, recipient: Addr, amount: u64, now: i64)
    requires vaultKey in s.vaults
    ensures var r := Apply(s, bumps, vaultKey, signer, recipient, amount, now);
      var v := s.vaults[vaultKey];
      && (signer != v.authority ==> r.Err?)
      && (CanSign(signer) && vaultKey != CreateProgramAddress(VaultSeed(signer), v.bump) ==> r == Err(ConstraintSeeds))
      && (r == Err(Custom(Unauthorized)) <==>
            CanSign(signer) && vaultKey == CreateProgramAddress(VaultSeed(signer), v.bump) && v.authority != signer)
      && ((CanSign(signer) && signer == v.authority && vaultKey == CreateProgramAddress(VaultSeed(signer), v.bump))
          ==> (amount > v.totalDeposited <==> r == Err(Custom(InsufficientFunds))))
  {
  }

  /**
   * On a valid ledger `has_one` never fires: `Unauthorized` would need a
   * vault record at an address its own authority does not derive.
   */
  lemma NoUnauthorizedWhenValid(s: State, bumps: BumpOracle, vaultKey: Addr, signer: Addr, recipient: Addr,
                                amount: u64, now: i64)
    requires Valid(s, bumps)
    ensures Apply(s, bumps, vaultKey, signer, recipient, amount, now) != Err(Custom(Unauthorized))
  {
    if vaultKey in s.vaults && CanSign(signer) && signer != s.vaults[vaultKey].authority {
      WrongSignerFailsSeeds(s, bumps, vaultKey, signer, recipient, amount, now);
    }
  }

  /**
   * On a valid ledger the `seeds` constraint already pins the signer: a
   * signer other than the authority derives a different vault address, so
   * the call fails with `ConstraintSeeds` before `has_one` is reached.
   */
  lemma WrongSignerFailsSeeds(s: State, bumps: BumpOracle, vaultKey: Addr, signer: Addr, recipient: Addr,
                              amount: u64, now: i64)
    requires Valid(s, bumps)
    requires vaultKey in s.vaults && CanSign(signer) && signer != s.vaults[vaultKey].authority
    ensures Apply(s, bumps, vaultKey, signer, recipient, amount, now) == Err(ConstraintSeeds)
  {
    var v := s.vaults[vaultKey];
    assert VaultAt(vaultKey, v, bumps);
    DerivationInjective(VaultSeed(signer), v.bump, VaultSeed(v.authority), v.bump);
  }

  /**
   * The `InsufficientFunds` guard makes the `checked_sub` unwrap unreachable,
   * and on a valid ledger the custody balance covers the debit, so the only
   * panic left is a recipient balance that would pass `U64_MAX`.
   */
  lemma GuardRulesOutUnderflow(s: State, bumps: BumpOracle, vaultKey: Addr, signer: Addr, recipient: Addr,
                               amount: u64, now: i64)
    requires Apply(s, bumps, vaultKey, signer, recipient, amount, now) == Err(ArithmeticPanic)
    ensures amount <= s.vaults[vaultKey].totalDeposited
    ensures CheckedSub(s.vaults[vaultKey].totalDeposited, amount).Some?
    ensures Valid(s, bumps) ==>
      recipient != vaultKey && Balance(s.lamports, recipient) + amount > U64_MAX
  {
  }

  /**
   * A committed withdrawal lowers the vault's counter by `amount`, moves
   * `amount` lamports from the vault to the recipient (their sum is kept),
   * leaves the member count, the vault's identity, every other vault and
   * every member record unchanged, and reports the new counter.
   */
  lemma Effect(s: State, bumps: BumpOracle, vaultKey: Addr, signer: Addr, recipient: Addr, amount: u64, now: i64)
    requires Apply(s, bumps, vaultKey, signer, recipient, amount, now).Ok?
    ensures var st := Apply(s, bumps, vaultKey, signer, recipient, amount, now).value;
      var t := st.next;
      var v, v' := s.vaults[vaultKey], t.vaults[vaultKey];
      && signer == v.authority
      && amount <= v.totalDeposited
      && t.vaults.Keys == s.vaults.Keys
      && v'.totalDeposited == v.totalDeposited - amount
      && v'.memberCount == v.memberCount
      && SameIdentity(v, v')
      && (forall j | j in s.vaults && j != vaultKey :: t.vaults[j] == s.vaults[j])
      && t.members == s.members
      && (recipient != vaultKey ==>
            && Balance(t.lamports, vaultKey) == Balance(s.lamports, vaultKey) - amount
            && Balance(t.lamports, recipient) == Balance(s.lamports, recipient) + amount)
      && (recipient == vaultKey ==> Balance(t.lamports, vaultKey) == Balance(s.lamports, vaultKey))
      && Balance(t.lamports, vaultKey) + Balance(t.lamports, recipient)
           == Balance(s.lamports, vaultKey) + Balance(s.lamports, recipient)
      && (forall a | a != vaultKey && a != recipient :: Balance(t.lamports, a) == Balance(s.lamports, a))
      && st.event.newVaultTotal == v'.totalDeposited
  {
  }

  lemma PreservesValid(s: State, bumps: BumpOracle, vaultKey: Addr, signer: Addr, recipient: Addr,
                       amount: u64, now: i64)
    requires Valid(s, bumps)
    requires Apply(s, bumps, vaultKey, signer, recipient, amount, now).Ok?
    ensures Valid(Apply(s, bumps, vaultKey, signer, recipient, amount, now).value.next, bumps)
  {
  }

  /** A withdrawal keeps every record's identity and every depositor count. */
  lemma Evolution(s: State, bumps: BumpOracle, vaultKey: Addr, signer: Addr, recipient: Addr,
                  amount: u64, now: i64)
    requires Apply(s, bumps, vaultKey, signer, recipient, amount, now).Ok?
    ensures var t := Apply(s, bumps, vaultKey, signer, recipient, amount, now).value.next;
      && Evolves(s, t)
      && (forall k :: Depositors(t, k) == Depositors(s, k))
      && (forall k :: CountExact(s, k) ==> CountExact(t, k))
      && (forall k :: CountCovers(s, k) ==> CountCovers(t, k))
  {
  }

  /**
   * The authority can withdraw the whole counter, which leaves it at zero;
   * a further withdrawal of one lamport is then refused with `InsufficientFunds`.
   */
  lemma DrainThenOneFails(s: State, bumps: BumpOracle, vaultKey: Addr, recipient: Addr, now: i64)
    requires Valid(s, bumps)
    requires vaultKey in s.vaults && CanSign(s.vaults[vaultKey].authority)
    requires recipient == vaultKey
          || Balance(s.lamports, recipient) + s.vaults[vaultKey].totalDeposited <= U64_MAX
    ensures var v := s.vaults[vaultKey];
      var r := Apply(s, bumps, vaultKey, v.authority, recipient, v.totalDeposited, now);
      && r.Ok?
      && r.value.next.vaults[vaultKey].totalDeposited == 0
      && Apply(r.value.next, bumps, vaultKey, v.authority, recipient, 1, now) == Err(Custom(InsufficientFunds))
  {
    var v := s.vaults[vaultKey];
    assert VaultAt(vaultKey, v, bumps);
  }
}
