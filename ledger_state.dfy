/**
 * The account state the three instructions read and write: vault records,
 * member records keyed by (vault address, user), and lamport balances; the
 * outcomes an instruction can end with; and the invariants every instruction
 * keeps.
 */
module LedgerState {
  import opened Ints
  import opened Addressing
  import opened Records
  import opened SavingsErrors

  datatype State = State(
    vaults: map<Addr, Vault>,
    members: map<(Addr, Addr), Member>,
    lamports: map<Addr, u64>)

  /** Why a call aborted. The host then discards every write the call made. */
  datatype Abort =
    | Custom(error: SavingsError)   // `require!` / `has_one` with a SavingsError
    | AccountNotInitialized         // no vault record at the address passed as `vault`
    | MissingSignature              // a `Signer` account did not sign
    | ConstraintSeeds               // the address passed does not match its seeds and bump
    | AccountInUse                  // `init` at an address that already holds a vault
    | TransferFailed                // the system program refused the lamport transfer
    | ArithmeticPanic               // `checked_*(..).unwrap()` on `None`, or a wrapping lamport update

  datatype Result<T> = Ok(value: T) | Err(error: Abort)

  /** A committed call: the state it leaves and the event it emits. */
  datatype Step<E> = Step(next: State, event: E)

  /** An account that does not exist holds no lamports. */
  function Balance(lamports: map<Addr, u64>, a: Addr): u64
  {
    if a in lamports then lamports[a] else 0
  }

  /** The deposit counter of the vault at `k`, zero where there is no vault. */
  function TotalOf(s: State, k: Addr): u64
  {
    if k in s.vaults then s.vaults[k].totalDeposited else 0
  }

  /** Lamports the vault at `k` holds beyond what its counter accounts for. */
  function Surplus(s: State, k: Addr): int
  {
    Balance(s.lamports, k) - TotalOf(s, k)
  }

  /** The member record at (vault, user), or the zeroed record `init_if_needed` would allocate. */
  function MemberOf(s: State, vault: Addr, user: Addr): Member
  {
    if (vault, user) in s.members then s.members[(vault, user)] else ZEROED_MEMBER
  }

  /** Users of `vault` whose cumulative deposit is nonzero. */
  function Depositors(s: State, vault: Addr): set<Addr>
  {
    set p | p in s.members.Keys && p.0 == vault && s.members[p].depositedAmount > 0 :: p.1
  }

  lemma DepositorsMembership(s: State, vault: Addr, user: Addr)
    ensures user in Depositors(s, vault) <==> MemberOf(s, vault, user).depositedAmount > 0
  {
    if MemberOf(s, vault, user).depositedAmount > 0 {
      assert (vault, user) in s.members.Keys;
    }
  }

  /** A vault record sits at the address derived from its authority and carries that derivation. */
  predicate VaultAt(k: Addr, v: Vault, bumps: BumpOracle)
  {
    && k == VaultAddress(v.authority, bumps)
    && v.bump == bumps(VaultSeed(v.authority))
    && v.tokenAccount == TokenAccountAddress(k, bumps)
  }

  /** A member record names the vault and user it is keyed by and carries its canonical bump. */
  predicate MemberAt(p: (Addr, Addr), m: Member, bumps: BumpOracle)
  {
    m.vault == p.0 && m.authority == p.1 && m.bump == bumps(MemberSeed(p.0, p.1))
  }

  /**
   * The ledger invariant: every record is at its derived address, every
   * member belongs to an existing vault, and every vault's custody balance
   * covers its deposit counter.
   */
  ghost predicate Valid(s: State, bumps: BumpOracle)
  {
    && (forall k | k in s.vaults :: VaultAt(k, s.vaults[k], bumps))
    && (forall k | k in s.vaults :: s.vaults[k].totalDeposited <= Balance(s.lamports, k))
    && (forall p | p in s.members :: p.0 in s.vaults && MemberAt(p, s.members[p], bumps))
  }

  /** `memberCount` is the number of distinct users with a nonzero deposit. */
  ghost predicate CountExact(s: State, k: Addr)
  {
    k in s.vaults ==> s.vaults[k].memberCount == |Depositors(s, k)|
  }

  /** `memberCount` is at least the number of distinct users with a nonzero deposit. */
  ghost predicate CountCovers(s: State, k: Addr)
  {
    k in s.vaults ==> |Depositors(s, k)| <= s.vaults[k].memberCount
  }

  predicate SameIdentity(v: Vault, w: Vault)
  {
    w.authority == v.authority && w.bump == v.bump && w.mint == v.mint && w.tokenAccount == v.tokenAccount
  }

  predicate MemberGrows(m: Member, n: Member)
  {
    && m.depositedAmount <= n.depositedAmount
    && (m.depositedAmount > 0 ==>
          n.vault == m.vault && n.authority == m.authority && n.joinedAt == m.joinedAt && n.bump == m.bump)
  }

  /**
   * How state may evolve: records are never deleted, a vault's authority,
   * bump, mint and token account never change, a member's deposit never
   * shrinks, and once it is nonzero the member's identity and join time are fixed.
   */
  ghost predicate Evolves(s: State, t: State)
  {
    && (forall k | k in s.vaults :: k in t.vaults && SameIdentity(s.vaults[k], t.vaults[k]))
    && (forall p | p in s.members :: p in t.members && MemberGrows(s.members[p], t.members[p]))
  }

  lemma EvolvesTransitive(a: State, b: State, c: State)
    requires Evolves(a, b) && Evolves(b, c)
    ensures Evolves(a, c)
  {
  }
}
