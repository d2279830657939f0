/**
 * The deposit instruction: move lamports from the signing user into the
 * vault, add them to the vault's counter, set up the member record on a
 * first deposit (counting the new member), and add them to the member's
 * cumulative deposit.
 */
module DepositInstruction {
  import opened Ints
  import opened Addressing
  import opened Records
  import opened Events
  import opened LedgerState

  /**
   * The system transfer: `amount` of `from`'s lamports move to `to`, and no
   * other balance changes. On a deposit `from` is the signing user and `to`
   * the derived vault address, so the two always differ.
   */
  function Moved(lamports: map<Addr, u64>, from: Addr, to: Addr, amount: u64): (r: map<Addr, u64>)
    requires from != to
    requires amount <= Balance(lamports, from)
    requires Balance(lamports, to) + amount <= U64_MAX
    ensures Balance(r, from) == Balance(lamports, from) - amount
    ensures Balance(r, to) == Balance(lamports, to) + amount
    ensures forall k | k != from && k != to :: Balance(r, k) == Balance(lamports, k)
  {
    lamports[from := Balance(lamports, from) - amount][to := Balance(lamports, to) + amount]
  }

  /**
   * The instruction's outcome, in the order Anchor and the handler check:
   * the vault record must exist, the user must sign, the vault must sit at
   * the address its authority and stored bump derive; the system transfer
   * fails when the user holds too little or the vault balance would wrap;
   * any of the three checked additions overflowing panics. A panic after the
   * transfer is rolled back with it, so every failure leaves the state as it was.
   */
  function Apply(s: State, bumps: BumpOracle, vaultKey: Addr, user: Addr, amount: u64, now: i64)
    : Result<Step<DepositMade>>
  {
    if vaultKey !in s.vaults then Err(AccountNotInitialized)
    else if !CanSign(user) then Err(MissingSignature)
    else
      var v := s.vaults[vaultKey];
      var m := MemberOf(s, vaultKey, user);
      var joining := m.depositedAmount == 0;
      if vaultKey != CreateProgramAddress(VaultSeed(v.authority), v.bump) then Err(ConstraintSeeds)
      else if Balance(s.lamports, user) < amount || Balance(s.lamports, vaultKey) + amount > U64_MAX then
        Err(TransferFailed)
      else if v.totalDeposited + amount > U64_MAX
           || (joining && v.memberCount == U64_MAX)
           || m.depositedAmount + amount > U64_MAX then
        Err(ArithmeticPanic)
      else
        var v' := v.(totalDeposited := v.totalDeposited + amount,
                     memberCount := if joining then v.memberCount + 1 else v.memberCount);
        var m' := if joining then Member(vaultKey, user, amount, now, bumps(MemberSeed(vaultKey, user)))
                  else m.(depositedAmount := m.depositedAmount + amount);
        Ok(Step(State(s.vaults[vaultKey := v'],
                      s.members[(vaultKey, user) := m'],
                      Moved(s.lamports, user, vaultKey, amount)),
                DepositMade(vaultKey, MemberAddress(vaultKey, user, bumps), amount,
                            m'.depositedAmount, v'.totalDeposited, now)))
  }

  /**
   * When the call commits, and which failure it reports otherwise: the
   * stored bump is re-checked on every call, so a vault record at any other
   * address than its authority and bump derive is refused by `seeds`. A
   * failure carries no state, so a failed call changes nothing.
   */
  lemma Outcome(s: State, bumps: BumpOracle, vaultKey: Addr, user: Addr, amount: u64, now: i64)
    requires vaultKey in s.vaults && CanSign(user)
    ensures var r := Apply(s, bumps, vaultKey, user, amount, now);
      var v := s.vaults[vaultKey];
      vaultKey != CreateProgramAddress(VaultSeed(v.authority), v.bump) ==> r == Err(ConstraintSeeds)
    ensures var r := Apply(s, bumps, vaultKey, user, amount, now);
      var v := s.vaults[vaultKey];
      var m := MemberOf(s, vaultKey, user);
      var seedsOk := vaultKey == CreateProgramAddress(VaultSeed(v.authority), v.bump);
      var transferOk := amount <= Balance(s.lamports, user) && Balance(s.lamports, vaultKey) + amount <= U64_MAX;
      var countersOk := && v.totalDeposited + amount <= U64_MAX
                        && (m.depositedAmount == 0 ==> v.memberCount + 1 <= U64_MAX)
                        && m.depositedAmount + amount <= U64_MAX;
      && (r.Ok? <==> seedsOk && transferOk && countersOk)
      && (seedsOk && !transferOk ==> r == Err(TransferFailed))
      && (seedsOk && transferOk && !countersOk ==> r == Err(ArithmeticPanic))
  {
  }

  /**
   * A committed deposit adds `amount` to the vault's counter and to the
   * member's cumulative deposit, moves `amount` lamports from the user to
   * the vault, counts a new member exactly when the member's deposit was
   * zero (and only then writes the member's vault, authority, join time and
   * bump), reuses the record keyed by (vault, user), touches no other record,
   * and reports the new totals in its event.
   */
  lemma Effect(s: State, bumps: BumpOracle, vaultKey: Addr, user: Addr, amount: u64, now: i64)
    requires Apply(s, bumps, vaultKey, user, amount, now).Ok?
    ensures var st := Apply(s, bumps, vaultKey, user, amount, now).value;
      var t := st.next;
      var v, v' := s.vaults[vaultKey], t.vaults[vaultKey];
      var m, m' := MemberOf(s, vaultKey, user), t.members[(vaultKey, user)];
      && t.vaults.Keys == s.vaults.Keys
      && v'.totalDeposited == v.totalDeposited + amount
      && (v'.memberCount == v.memberCount + 1 <==> m.depositedAmount == 0)
      && (m.depositedAmount != 0 ==> v'.memberCount == v.memberCount)
      && SameIdentity(v, v')
      && t.members.Keys == s.members.Keys + {(vaultKey, user)}
      && m'.depositedAmount == m.depositedAmount + amount
      && (m.depositedAmount == 0 ==>
            m'.vault == vaultKey && m'.authority == user && m'.joinedAt == now
            && m'.bump == bumps(MemberSeed(vaultKey, user)))
      && (m.depositedAmount != 0 ==>
            m'.vault == m.vault && m'.authority == m.authority && m'.joinedAt == m.joinedAt && m'.bump == m.bump)
      && (forall j | j in s.vaults && j != vaultKey :: t.vaults[j] == s.vaults[j])
      && (forall p | p in s.members && p != (vaultKey, user) :: t.members[p] == s.members[p])
      && Balance(t.lamports, user) == Balance(s.lamports, user) - amount
      && Balance(t.lamports, vaultKey) == Balance(s.lamports, vaultKey) + amount
      && (forall a | a != user && a != vaultKey :: Balance(t.lamports, a) == Balance(s.lamports, a))
      && st.event.newMemberTotal == m'.depositedAmount
      && st.event.newVaultTotal == v'.totalDeposited
      && st.event.member == MemberAddress(vaultKey, user, bumps)
  {
  }

  /**
   * The counter check at the `total_deposited` addition never fires on a
   * valid ledger: the custody balance covers the counter, and the transfer
   * has already shown that the balance plus `amount` fits in a u64. A panic
   * can only come from the member count or the member's own total.
   */
  lemma TotalAdditionCannotPanic(s: State, bumps: BumpOracle, vaultKey: Addr, user: Addr, amount: u64, now: i64)
    requires Valid(s, bumps)
    requires Apply(s, bumps, vaultKey, user, amount, now) == Err(ArithmeticPanic)
    ensures s.vaults[vaultKey].totalDeposited + amount <= U64_MAX
    ensures var m := MemberOf(s, vaultKey, user);
      (m.depositedAmount == 0 && s.vaults[vaultKey].memberCount == U64_MAX)
      || m.depositedAmount + amount > U64_MAX
  {
  }

  lemma PreservesValid(s: State, bumps: BumpOracle, vaultKey: Addr, user: Addr, amount: u64, now: i64)
    requires Valid(s, bumps)
    requires Apply(s, bumps, vaultKey, user, amount, now).Ok?
    ensures Valid(Apply(s, bumps, vaultKey, user, amount, now).value.next, bumps)
  {
    var t := Apply(s, bumps, vaultKey, user, amount, now).value.next;
    forall k | k in t.vaults
      ensures t.vaults[k].totalDeposited <= Balance(t.lamports, k)
    {
      assert k != user;
    }
  }

  /**
   * Deposits change the depositor set only by adding the user, and only
   * when `amount` is nonzero; the member count keeps covering that set, and
   * stays equal to it when `amount` is nonzero.
   */
  lemma Counting(s: State, bumps: BumpOracle, vaultKey: Addr, user: Addr, amount: u64, now: i64)
    requires Apply(s, bumps, vaultKey, user, amount, now).Ok?
    ensures var t := Apply(s, bumps, vaultKey, user, amount, now).value.next;
      && Depositors(t, vaultKey) == Depositors(s, vaultKey) + (if amount > 0 then {user} else {})
      && (forall k | k != vaultKey :: Depositors(t, k) == Depositors(s, k))
      && (forall k :: CountCovers(s, k) ==> CountCovers(t, k))
      && (amount > 0 ==> forall k :: CountExact(s, k) ==> CountExact(t, k))
  {
    var t := Apply(s, bumps, vaultKey, user, amount, now).value.next;
    var m := MemberOf(s, vaultKey, user);
    DepositorsMembership(s, vaultKey, user);
    forall k | k != vaultKey
      ensures Depositors(t, k) == Depositors(s, k)
    {
      forall u ensures u in Depositors(t, k) <==> u in Depositors(s, k) {
        DepositorsMembership(s, k, u);
        DepositorsMembership(t, k, u);
      }
    }
    var extra: set<Addr> := if amount > 0 then {user} else {};
    assert Depositors(t, vaultKey) == Depositors(s, vaultKey) + extra by {
      forall u ensures u in Depositors(t, vaultKey) <==> u in Depositors(s, vaultKey) + extra {
        DepositorsMembership(s, vaultKey, u);
        DepositorsMembership(t, vaultKey, u);
      }
    }
    if m.depositedAmount == 0 {
      assert user !in Depositors(s, vaultKey);
    } else {
      assert Depositors(t, vaultKey) == Depositors(s, vaultKey);
    }
  }

  /** A deposit keeps every record's identity and never shrinks a member's total. */
  lemma Evolution(s: State, bumps: BumpOracle, vaultKey: Addr, user: Addr, amount: u64, now: i64)
    requires Apply(s, bumps, vaultKey, user, amount, now).Ok?
    ensures Evolves(s, Apply(s, bumps, vaultKey, user, amount, now).value.next)
  {
  }

  /**
   * A zero-amount deposit by a user with no deposit yet counts them as a
   * member but leaves their deposit at zero, so the same call again counts
   * them a second time.
   */
  lemma ZeroDepositCountsAgain(s: State, bumps: BumpOracle, vaultKey: Addr, user: Addr, now: i64)
    requires Apply(s, bumps, vaultKey, user, 0, now).Ok?
    requires MemberOf(s, vaultKey, user).depositedAmount == 0
    requires s.vaults[vaultKey].memberCount + 2 <= U64_MAX
    ensures var t := Apply(s, bumps, vaultKey, user, 0, now).value.next;
      && t.vaults[vaultKey].memberCount == s.vaults[vaultKey].memberCount + 1
      && MemberOf(t, vaultKey, user).depositedAmount == 0
      && Apply(t, bumps, vaultKey, user, 0, now).Ok?
      && Apply(t, bumps, vaultKey, user, 0, now).value.next.vaults[vaultKey].memberCount
           == s.vaults[vaultKey].memberCount + 2
  {
  }
}
