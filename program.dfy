/**
 * The program's three entry points. `Execute` dispatches one instruction as
 * one atomic step; `Run` applies a sequence of them, as the host would,
 * keeping the ones that commit. The lemmas here are about whole runs.
 */
module Program {
  import opened Ints
  import opened Addressing
  import opened Records
  import opened SavingsErrors
  import opened LedgerState
  import Events
  import InitializeInstruction
  import DepositInstruction
  import WithdrawInstruction

  datatype Instruction =
    | InitializeIx(authority: Addr, mint: Addr, now: i64)
    | DepositIx(vault: Addr, user: Addr, amount: u64, now: i64)
    | WithdrawIx(vault: Addr, signer: Addr, recipient: Addr, amount: u64, now: i64)

  function NextState<E>(r: Result<Step<E>>): Result<State>
  {
    match r
    case Ok(st) => Ok(st.next)
    case Err(e) => Err(e)
  }

  function Execute(s: State, bumps: BumpOracle, ix: Instruction): Result<State>
  {
    match ix
    case InitializeIx(authority, mint, now) =>
      NextState(InitializeInstruction.Apply(s, bumps, authority, mint, now))
    case DepositIx(vault, user, amount, now) =>
      NextState(DepositInstruction.Apply(s, bumps, vault, user, amount, now))
    case WithdrawIx(vault, signer, recipient, amount, now) =>
      NextState(WithdrawInstruction.Apply(s, bumps, vault, signer, recipient, amount, now))
  }

  /** The final state and, in order, the instructions that committed. */
  function Run(s: State, bumps: BumpOracle, txs: seq<Instruction>): (State, seq<Instruction>)
    decreases |txs|
  {
    if txs == [] then (s, [])
    else match Execute(s, bumps, txs[0])
      case Err(_) => Run(s, bumps, txs[1..])
      case Ok(t) =>
        var (f, c) := Run(t, bumps, txs[1..]);
        (f, [txs[0]] + c)
  }

  /**
   * A run extended by one call is the shorter run followed by that call,
   * dispatched on the run's final state and logged exactly when it commits.
   */
  lemma {:induction false} RunSnoc(s: State, bumps: BumpOracle, txs: seq<Instruction>, ix: Instruction)
    ensures var (f, c) := Run(s, bumps, txs);
      Run(s, bumps, txs + [ix]) == match Execute(f, bumps, ix)
        case Err(_) => (f, c)
        case Ok(t) => (t, c + [ix])
    decreases |txs|
  {
    if txs == [] {
      assert txs + [ix] == [ix] && [ix][1..] == [];
      assert Run(s, bumps, txs) == (s, []);
      match Execute(s, bumps, ix)
      case Err(_) =>
      case Ok(t) =>
        var none: seq<Instruction> := [];
        RunCommitsAll(s, bumps, ix, none, t);
        assert Run(t, bumps, none) == (t, none);
        assert none + [ix] == [ix] + none == [ix];
    } else {
      assert (txs + [ix])[0] == txs[0];
      assert (txs + [ix])[1..] == txs[1..] + [ix];
      match Execute(s, bumps, txs[0])
      case Err(_) =>
        RunSnoc(s, bumps, txs[1..], ix);
      case Ok(t) =>
        RunSnoc(t, bumps, txs[1..], ix);
        var (f, c) := Run(t, bumps, txs[1..]);
        assert [txs[0]] + (c + [ix]) == ([txs[0]] + c) + [ix];
    }
  }

  /** Sum of the amounts deposited into `k`. */
  function Deposited(txs: seq<Instruction>, k: Addr): nat
  {
    if txs == [] then 0
    else (if txs[0].DepositIx? && txs[0].vault == k then txs[0].amount else 0) + Deposited(txs[1..], k)
  }

  /** Sum of the amounts withdrawn from `k`. */
  function Withdrawn(txs: seq<Instruction>, k: Addr): nat
  {
    if txs == [] then 0
    else (if txs[0].WithdrawIx? && txs[0].vault == k then txs[0].amount else 0) + Withdrawn(txs[1..], k)
  }

  /** Sum of the amounts withdrawn to `k` as recipient. */
  function Received(txs: seq<Instruction>, k: Addr): nat
  {
    if txs == [] then 0
    else (if txs[0].WithdrawIx? && txs[0].recipient == k then txs[0].amount else 0) + Received(txs[1..], k)
  }

  /** Users who made a nonzero deposit into `k`. */
  function Joiners(txs: seq<Instruction>, k: Addr): set<Addr>
  {
    if txs == [] then {}
    else (if txs[0].DepositIx? && txs[0].vault == k && txs[0].amount > 0 then {txs[0].user} else {})
         + Joiners(txs[1..], k)
  }

  predicate NoZeroDeposits(txs: seq<Instruction>)
  {
    forall i | 0 <= i < |txs| && txs[i].DepositIx? :: txs[i].amount > 0
  }

  /** The sums over a one-instruction log. */
  lemma SingleSums(ix: Instruction, k: Addr)
    ensures Deposited([ix], k) == if ix.DepositIx? && ix.vault == k then ix.amount else 0
    ensures Withdrawn([ix], k) == if ix.WithdrawIx? && ix.vault == k then ix.amount else 0
    ensures Received([ix], k) == if ix.WithdrawIx? && ix.recipient == k then ix.amount else 0
    ensures Joiners([ix], k) == if ix.DepositIx? && ix.vault == k && ix.amount > 0 then {ix.user} else {}
  {
    assert [ix][1..] == [];
  }

  /**
   * How the quantities the run lemmas add up moved from `s` to `f` under the
   * committed log `c`; `zeroFree` says that no deposit in it was of zero.
   */
  ghost predicate Accounted(s: State, f: State, c: seq<Instruction>, zeroFree: bool)
  {
    && (forall k :: TotalOf(f, k) == TotalOf(s, k) + Deposited(c, k) - Withdrawn(c, k))
    && (forall k: Addr | k.Derived? :: Surplus(f, k) == Surplus(s, k) + Received(c, k))
    && (forall k :: Depositors(f, k) == Depositors(s, k) + Joiners(c, k))
    && (forall k :: CountCovers(s, k) ==> CountCovers(f, k))
    && (zeroFree ==> forall k :: CountExact(s, k) ==> CountExact(f, k))
  }

  lemma InitializeStep(s: State, bumps: BumpOracle, ix: Instruction)
    requires ix.InitializeIx? && Valid(s, bumps) && Execute(s, bumps, ix).Ok?
    ensures var t := Execute(s, bumps, ix).value;
      Valid(t, bumps) && Evolves(s, t) && Accounted(s, t, [ix], NoZeroDeposits([ix]))
  {
    InitializeInstruction.PreservesValid(s, bumps, ix.authority, ix.mint, ix.now);
    InitializeInstruction.Evolution(s, bumps, ix.authority, ix.mint, ix.now);
    InitializeAccounted(s, bumps, ix);
  }

  lemma InitializeAccounted(s: State, bumps: BumpOracle, ix: Instruction)
    requires ix.InitializeIx? && Valid(s, bumps) && Execute(s, bumps, ix).Ok?
    ensures Accounted(s, Execute(s, bumps, ix).value, [ix], NoZeroDeposits([ix]))
  {
    var t := Execute(s, bumps, ix).value;
    InitializeInstruction.Evolution(s, bumps, ix.authority, ix.mint, ix.now);
    InitializeInstruction.Effect(s, bumps, ix.authority, ix.mint, ix.now);
    forall k ensures TotalOf(t, k) == TotalOf(s, k) + Deposited([ix], k) - Withdrawn([ix], k) {
      SingleSums(ix, k);
    }
    forall k ensures Depositors(t, k) == Depositors(s, k) + Joiners([ix], k) {
      SingleSums(ix, k);
    }
    forall k: Addr | k.Derived? ensures Surplus(t, k) == Surplus(s, k) + Received([ix], k) {
      SingleSums(ix, k);
    }
  }

  lemma DepositStep(s: State, bumps: BumpOracle, ix: Instruction)
    requires ix.DepositIx? && Valid(s, bumps) && Execute(s, bumps, ix).Ok?
    ensures var t := Execute(s, bumps, ix).value;
      Valid(t, bumps) && Evolves(s, t) && Accounted(s, t, [ix], NoZeroDeposits([ix]))
  {
    DepositInstruction.PreservesValid(s, bumps, ix.vault, ix.user, ix.amount, ix.now);
    DepositInstruction.Evolution(s, bumps, ix.vault, ix.user, ix.amount, ix.now);
    DepositAccounted(s, bumps, ix);
  }

  lemma DepositAccounted(s: State, bumps: BumpOracle, ix: Instruction)
    requires ix.DepositIx? && Valid(s, bumps) && Execute(s, bumps, ix).Ok?
    ensures Accounted(s, Execute(s, bumps, ix).value, [ix], NoZeroDeposits([ix]))
  {
    var t := Execute(s, bumps, ix).value;
    DepositInstruction.Effect(s, bumps, ix.vault, ix.user, ix.amount, ix.now);
    DepositInstruction.Counting(s, bumps, ix.vault, ix.user, ix.amount, ix.now);
    forall k ensures TotalOf(t, k) == TotalOf(s, k) + Deposited([ix], k) - Withdrawn([ix], k) {
      SingleSums(ix, k);
    }
    forall k ensures Depositors(t, k) == Depositors(s, k) + Joiners([ix], k) {
      SingleSums(ix, k);
    }
    forall k: Addr | k.Derived? ensures Surplus(t, k) == Surplus(s, k) + Received([ix], k) {
      SingleSums(ix, k);
    }
    assert NoZeroDeposits([ix]) ==> ix.amount > 0 by {
      if NoZeroDeposits([ix]) { assert [ix][0].DepositIx?; }
    }
  }

  lemma WithdrawStep(s: State, bumps: BumpOracle, ix: Instruction)
    requires ix.WithdrawIx? && Valid(s, bumps) && Execute(s, bumps, ix).Ok?
    ensures var t := Execute(s, bumps, ix).value;
      Valid(t, bumps) && Evolves(s, t) && Accounted(s, t, [ix], NoZeroDeposits([ix]))
  {
    WithdrawInstruction.PreservesValid(s, bumps, ix.vault, ix.signer, ix.recipient, ix.amount, ix.now);
    WithdrawInstruction.Evolution(s, bumps, ix.vault, ix.signer, ix.recipient, ix.amount, ix.now);
    WithdrawAccounted(s, bumps, ix);
  }

  lemma WithdrawAccounted(s: State, bumps: BumpOracle, ix: Instruction)
    requires ix.WithdrawIx? && Valid(s, bumps) && Execute(s, bumps, ix).Ok?
    ensures Accounted(s, Execute(s, bumps, ix).value, [ix], NoZeroDeposits([ix]))
  {
    var t := Execute(s, bumps, ix).value;
    WithdrawInstruction.Evolution(s, bumps, ix.vault, ix.signer, ix.recipient, ix.amount, ix.now);
    WithdrawInstruction.Effect(s, bumps, ix.vault, ix.signer, ix.recipient, ix.amount, ix.now);
    forall k ensures TotalOf(t, k) == TotalOf(s, k) + Deposited([ix], k) - Withdrawn([ix], k) {
      SingleSums(ix, k);
    }
    forall k ensures Depositors(t, k) == Depositors(s, k) + Joiners([ix], k) {
      SingleSums(ix, k);
    }
    forall k: Addr | k.Derived? ensures Surplus(t, k) == Surplus(s, k) + Received([ix], k) {
      SingleSums(ix, k);
    }
  }

  lemma ExecuteStep(s: State, bumps: BumpOracle, ix: Instruction)
    requires Valid(s, bumps)
    requires Execute(s, bumps, ix).Ok?
    ensures var t := Execute(s, bumps, ix).value;
      Valid(t, bumps) && Evolves(s, t) && Accounted(s, t, [ix], NoZeroDeposits([ix]))
  {
    match ix
    case InitializeIx(_, _, _) => InitializeStep(s, bumps, ix);
    case DepositIx(_, _, _, _) => DepositStep(s, bumps, ix);
    case WithdrawIx(_, _, _, _, _) => WithdrawStep(s, bumps, ix);
  }

  lemma SumsSplit(ix: Instruction, c: seq<Instruction>, k: Addr)
    ensures Deposited([ix] + c, k) == Deposited([ix], k) + Deposited(c, k)
    ensures Withdrawn([ix] + c, k) == Withdrawn([ix], k) + Withdrawn(c, k)
    ensures Received([ix] + c, k) == Received([ix], k) + Received(c, k)
    ensures Joiners([ix] + c, k) == Joiners([ix], k) + Joiners(c, k)
  {
    assert ([ix] + c)[1..] == c;
    assert [ix][1..] == [];
  }

  lemma AccountedCompose(s: State, t: State, f: State, ix: Instruction, c: seq<Instruction>, z1: bool, z2: bool)
    requires Accounted(s, t, [ix], z1) && Accounted(t, f, c, z2)
    ensures Accounted(s, f, [ix] + c, z1 && z2)
  {
    forall k ensures
      && TotalOf(f, k) == TotalOf(s, k) + Deposited([ix] + c, k) - Withdrawn([ix] + c, k)
      && (k.Derived? ==> Surplus(f, k) == Surplus(s, k) + Received([ix] + c, k))
      && Depositors(f, k) == Depositors(s, k) + Joiners([ix] + c, k)
    {
      SumsSplit(ix, c, k);
    }
  }

  lemma NoZeroDepositsSplit(txs: seq<Instruction>)
    requires txs != [] && NoZeroDeposits(txs)
    ensures NoZeroDeposits([txs[0]]) && NoZeroDeposits(txs[1..])
  {
    forall i | 0 <= i < |txs[1..]| && txs[1..][i].DepositIx? ensures txs[1..][i].amount > 0 {
      assert txs[1..][i] == txs[i + 1];
    }
  }

  /**
   * Over any run from a valid ledger: the ledger stays valid, records only
   * evolve as `Evolves` allows, each vault's counter equals its starting
   * value plus the committed deposits minus the committed withdrawals, each
   * derived address's lamports beyond its counter grow only by what it
   * received as a withdrawal recipient, each vault's depositors are the
   * starting ones plus the users who committed a nonzero deposit, and the
   * member count keeps covering them (exactly, when no deposit is of zero).
   */
  lemma {:induction false} RunAccounting(s: State, bumps: BumpOracle, txs: seq<Instruction>)
    requires Valid(s, bumps)
    ensures var (f, c) := Run(s, bumps, txs);
      Valid(f, bumps) && Evolves(s, f) && Accounted(s, f, c, NoZeroDeposits(txs))
    decreases |txs|
  {
    if txs == [] {
      assert Run(s, bumps, txs) == (s, []);
    } else {
      var ix := txs[0];
      var z := NoZeroDeposits(txs);
      var z1, z2 := NoZeroDeposits([ix]), NoZeroDeposits(txs[1..]);
      if z {
        NoZeroDepositsSplit(txs);
      }
      match Execute(s, bumps, ix)
      case Err(_) =>
        RunAccounting(s, bumps, txs[1..]);
      case Ok(t) =>
        ExecuteStep(s, bumps, ix);
        RunAccounting(t, bumps, txs[1..]);
        var (f, c) := Run(t, bumps, txs[1..]);
        EvolvesTransitive(s, t, f);
        AccountedCompose(s, t, f, ix, c, z1, z2);
    }
  }

  /**
   * With every deposit amount nonzero, a vault created during a run ends
   * with `memberCount` equal to the number of distinct users who deposited
   * into it, and `totalDeposited` equal to the sum of the deposits less the
   * withdrawals, whatever order the host serialized them in.
   */
  lemma NewVaultCountsDistinctDepositors(s: State, bumps: BumpOracle, k: Addr, txs: seq<Instruction>)
    requires Valid(s, bumps) && k !in s.vaults && NoZeroDeposits(txs)
    ensures var (f, c) := Run(s, bumps, txs);
      k in f.vaults ==>
        && f.vaults[k].memberCount == |Joiners(c, k)|
        && f.vaults[k].totalDeposited == Deposited(c, k) - Withdrawn(c, k)
  {
    RunAccounting(s, bumps, txs);
    var (f, c) := Run(s, bumps, txs);
    assert Depositors(s, k) == {} by {
      forall u | u in Depositors(s, k) ensures false {
        DepositorsMembership(s, k, u);
      }
    }
    assert CountExact(s, k);
  }

  /** No instruction ever fails with `Overflow` or `InvalidVaultConfig`: both are declared only. */
  lemma UnraisedErrors(s: State, bumps: BumpOracle, ix: Instruction)
    ensures Execute(s, bumps, ix) != Err(Custom(Overflow))
    ensures Execute(s, bumps, ix) != Err(Custom(InvalidVaultConfig))
  {
  }

  /** A run whose instructions all commit, one at a time. */
  lemma RunCommitsAll(s: State, bumps: BumpOracle, ix: Instruction, rest: seq<Instruction>, t: State)
    requires Execute(s, bumps, ix) == Ok(t)
    ensures Run(s, bumps, [ix] + rest) == (Run(t, bumps, rest).0, [ix] + Run(t, bumps, rest).1)
  {
    assert ([ix] + rest)[0] == ix;
    assert ([ix] + rest)[1..] == rest;
  }

  /**
   * Initialize by A, then deposits of 100 and 50 by A: all three commit, and
   * A's member total and the vault's counter are 150 with one member.
   */
  lemma InitializeThenTwoDeposits(lamports: map<Addr, u64>, bumps: BumpOracle, a: Addr, mint: Addr)
    requires CanSign(a)
    requires Balance(lamports, a) >= 150
    requires Balance(lamports, VaultAddress(a, bumps)) + 150 <= U64_MAX
    ensures var k := VaultAddress(a, bumps);
      var (f, c) := Run(State(map[], map[], lamports), bumps,
                        [InitializeIx(a, mint, 0), DepositIx(k, a, 100, 1), DepositIx(k, a, 50, 2)]);
      && |c| == 3
      && k in f.vaults && (k, a) in f.members
      && f.members[(k, a)].depositedAmount == 150
      && f.vaults[k].totalDeposited == 150
      && f.vaults[k].memberCount == 1
  {
    var k := VaultAddress(a, bumps);
    var s0 := State(map[], map[], lamports);
    var i0, i1, i2 := InitializeIx(a, mint, 0), DepositIx(k, a, 100, 1), DepositIx(k, a, 50, 2);
    var s1 := Execute(s0, bumps, i0).value;
    assert s1.vaults[k].authority == a && s1.vaults[k].bump == bumps(VaultSeed(a));
    assert s1.vaults[k].totalDeposited == 0 && s1.vaults[k].memberCount == 0;
    assert s1.lamports == lamports;
    var s2 := Execute(s1, bumps, i1).value;
    assert s2.vaults[k].totalDeposited == 100 && s2.vaults[k].memberCount == 1;
    assert s2.members[(k, a)].depositedAmount == 100;
    assert Balance(s2.lamports, a) == Balance(lamports, a) - 100;
    assert Balance(s2.lamports, k) == Balance(lamports, k) + 100;
    var s3 := Execute(s2, bumps, i2).value;
    assert s3.vaults[k].totalDeposited == 150 && s3.vaults[k].memberCount == 1;
    RunCommitsAll(s2, bumps, i2, [], s3);
    RunCommitsAll(s1, bumps, i1, [i2], s2);
    RunCommitsAll(s0, bumps, i0, [i1, i2], s1);
    assert [i2] + [] == [i2] && [i1] + [i2] == [i1, i2] && [i0] + [i1, i2] == [i0, i1, i2];
  }

  /**
   * Two different users depositing 10 each into a vault with no deposits
   * yet give two members and a counter of 20, in either order.
   */
  lemma TwoDepositorsEitherOrder(s: State, bumps: BumpOracle, k: Addr, b: Addr, c: Addr)
    requires Valid(s, bumps) && k in s.vaults
    requires s.vaults[k].totalDeposited == 0 && s.vaults[k].memberCount == 0
    requires CanSign(b) && CanSign(c) && b != c
    requires MemberOf(s, k, b).depositedAmount == 0 && MemberOf(s, k, c).depositedAmount == 0
    requires Balance(s.lamports, b) >= 10 && Balance(s.lamports, c) >= 10
    requires Balance(s.lamports, k) + 20 <= U64_MAX
    ensures var (f1, c1) := Run(s, bumps, [DepositIx(k, b, 10, 0), DepositIx(k, c, 10, 0)]);
      var (f2, c2) := Run(s, bumps, [DepositIx(k, c, 10, 0), DepositIx(k, b, 10, 0)]);
      && |c1| == 2 && |c2| == 2 && k in f1.vaults && k in f2.vaults
      && f1.vaults[k].memberCount == 2 && f1.vaults[k].totalDeposited == 20
      && f2.vaults[k].memberCount == 2 && f2.vaults[k].totalDeposited == 20
  {
    assert VaultAt(k, s.vaults[k], bumps);
    OneThenOther(s, bumps, k, b, c);
    OneThenOther(s, bumps, k, c, b);
  }

  lemma OneThenOther(s: State, bumps: BumpOracle, k: Addr, b: Addr, c: Addr)
    requires k in s.vaults && VaultAt(k, s.vaults[k], bumps)
    requires s.vaults[k].totalDeposited == 0 && s.vaults[k].memberCount == 0
    requires CanSign(b) && CanSign(c) && b != c
    requires MemberOf(s, k, b).depositedAmount == 0 && MemberOf(s, k, c).depositedAmount == 0
    requires Balance(s.lamports, b) >= 10 && Balance(s.lamports, c) >= 10
    requires Balance(s.lamports, k) + 20 <= U64_MAX
    ensures var (f, cs) := Run(s, bumps, [DepositIx(k, b, 10, 0), DepositIx(k, c, 10, 0)]);
      |cs| == 2 && k in f.vaults && f.vaults[k].memberCount == 2 && f.vaults[k].totalDeposited == 20
  {
    var i1, i2 := DepositIx(k, b, 10, 0), DepositIx(k, c, 10, 0);
    var s1 := Execute(s, bumps, i1).value;
    assert s1.vaults[k].totalDeposited == 10 && s1.vaults[k].memberCount == 1;
    assert MemberOf(s1, k, c) == MemberOf(s, k, c);
    assert Balance(s1.lamports, c) == Balance(s.lamports, c);
    assert Balance(s1.lamports, k) == Balance(s.lamports, k) + 10;
    var s2 := Execute(s1, bumps, i2).value;
    assert s2.vaults[k].totalDeposited == 20 && s2.vaults[k].memberCount == 2;
    RunCommitsAll(s1, bumps, i2, [], s2);
    RunCommitsAll(s, bumps, i1, [i2], s1);
    assert [i2] + [] == [i2] && [i1] + [i2] == [i1, i2];
  }

  /** Either the specified step committed and the ledger holds its state, or nothing changed. */
  ghost predicate Commits<E>(spec: Result<Step<E>>, before: State, after: State, r: Result<E>)
  {
    match spec
    case Ok(st) => after == st.next && r == Ok(st.event)
    case Err(e) => after == before && r == Err(e)
  }

  /**
   * The program's accounts as the runtime holds them between calls. Each
   * entry point updates the records and balances in place, in the handler's
   * order; a failure after a lamport movement restores the balances, as the
   * runtime discards a failed call's writes.
   */
  class Ledger {
    const bumps: BumpOracle
    var vaults: map<Addr, Vault>
    var members: map<(Addr, Addr), Member>
    var lamports: map<Addr, u64>

    function Snapshot(): State
      reads this
    {
      State(vaults, members, lamports)
    }

    ghost predicate Valid()
      reads this
    {
      LedgerState.Valid(Snapshot(), bumps)
    }

    /** A ledger with no program records yet and the given lamport balances. */
    constructor (bumps: BumpOracle, balances: map<Addr, u64>)
      ensures Valid()
      ensures this.bumps == bumps && Snapshot() == State(map[], map[], balances)
    {
      this.bumps := bumps;
      vaults := map[];
      members := map[];
      lamports := balances;
    }

    /** The system program's transfer: all of `amount` moves, or nothing does. */
    method SystemTransfer(from: Addr, to: Addr, amount: u64) returns (ok: bool)
      requires from != to
      modifies this`lamports
      ensures ok <==> amount <= Balance(old(lamports), from) && Balance(old(lamports), to) + amount <= U64_MAX
      ensures ok ==> lamports == DepositInstruction.Moved(old(lamports), from, to, amount)
      ensures !ok ==> lamports == old(lamports)
    {
      if Balance(lamports, from) < amount || Balance(lamports, to) + amount > U64_MAX {
        return false;
      }
      lamports := lamports[from := Balance(lamports, from) - amount];
      lamports := lamports[to := Balance(lamports, to) + amount];
      ok := true;
    }

    /** `**account.try_borrow_mut_lamports()? -= amount`, refused where it would wrap. */
    method DebitLamports(a: Addr, amount: u64) returns (ok: bool)
      modifies this`lamports
      ensures ok <==> amount <= Balance(old(lamports), a)
      ensures lamports == if ok then old(lamports)[a := Balance(old(lamports), a) - amount] else old(lamports)
    {
      ok := amount <= Balance(lamports, a);
      if ok {
        lamports := lamports[a := Balance(lamports, a) - amount];
      }
    }

    /** `**account.try_borrow_mut_lamports()? += amount`, refused where it would wrap. */
    method CreditLamports(a: Addr, amount: u64) returns (ok: bool)
      modifies this`lamports
      ensures ok <==> Balance(old(lamports), a) + amount <= U64_MAX
      ensures lamports == if ok then old(lamports)[a := Balance(old(lamports), a) + amount] else old(lamports)
    {
      ok := Balance(lamports, a) + amount <= U64_MAX;
      if ok {
        lamports := lamports[a := Balance(lamports, a) + amount];
      }
    }

    method Initialize(authority: Addr, mint: Addr, now: i64) returns (r: Result<Events.VaultInitialized>)
      requires Valid()
      modifies this
      ensures Valid()
      ensures Commits(InitializeInstruction.Apply(old(Snapshot()), bumps, authority, mint, now),
                      old(Snapshot()), Snapshot(), r)
      ensures r.Err? ==> Snapshot() == old(Snapshot())
    {
      if !CanSign(authority) {
        return Err(MissingSignature);
      }
      var vaultKey := FindProgramAddress(VaultSeed(authority), bumps);
      if vaultKey in vaults {
        return Err(AccountInUse);
      }
      var vault := ZEROED_VAULT;
      vault := vault.(authority := authority);
      vault := vault.(mint := mint);
      vault := vault.(tokenAccount := FindProgramAddress(TokenAccountSeed(vaultKey), bumps));
      vault := vault.(bump := bumps(VaultSeed(authority)));
      vault := vault.(totalDeposited := 0);
      vault := vault.(memberCount := 0);
      vaults := vaults[vaultKey := vault];
      r := Ok(Events.VaultInitialized(vaultKey, vault.authority, now));
      InitializeInstruction.PreservesValid(old(Snapshot()), bumps, authority, mint, now);
    }

    /** Anchor's account validation for deposit, then the handler. */
    method Deposit(vaultKey: Addr, user: Addr, amount: u64, now: i64) returns (r: Result<Events.DepositMade>)
      requires Valid()
      modifies this
      ensures Valid()
      ensures Commits(DepositInstruction.Apply(old(Snapshot()), bumps, vaultKey, user, amount, now),
                      old(Snapshot()), Snapshot(), r)
      ensures r.Err? ==> Snapshot() == old(Snapshot())
    {
      if vaultKey !in vaults {
        return Err(AccountNotInitialized);
      }
      if !CanSign(user) {
        return Err(MissingSignature);
      }
      var vault := vaults[vaultKey];
      if vaultKey != CreateProgramAddress(VaultSeed(vault.authority), vault.bump) {
        return Err(ConstraintSeeds);
      }
      r := DepositHandler(vaultKey, user, amount, now);
      if r.Ok? {
        DepositInstruction.PreservesValid(old(Snapshot()), bumps, vaultKey, user, amount, now);
      }
    }

    /** deposit.rs `handler`: transfer in, then the three checked additions, then write back. */
    method DepositHandler(vaultKey: Addr, user: Addr, amount: u64, now: i64) returns (r: Result<Events.DepositMade>)
      requires vaultKey in vaults && CanSign(user)
      requires vaultKey == CreateProgramAddress(VaultSeed(vaults[vaultKey].authority), vaults[vaultKey].bump)
      modifies this
      ensures Commits(DepositInstruction.Apply(old(Snapshot()), bumps, vaultKey, user, amount, now),
                      old(Snapshot()), Snapshot(), r)
      ensures r.Err? ==> Snapshot() == old(Snapshot())
    {
      var vault := vaults[vaultKey];
      var member := if (vaultKey, user) in members then members[(vaultKey, user)] else ZEROED_MEMBER;
      var checkpoint := lamports;

      var moved := SystemTransfer(user, vaultKey, amount);
      if !moved {
        return Err(TransferFailed);
      }
      var total := CheckedAdd(vault.totalDeposited, amount);
      if total.None? {
        lamports := checkpoint;
        return Err(ArithmeticPanic);
      }
      vault := vault.(totalDeposited := total.value);
      if member.depositedAmount == 0 {
        member := member.(vault := vaultKey, authority := user, joinedAt := now,
                          bump := bumps(MemberSeed(vaultKey, user)));
        var count := CheckedAdd(vault.memberCount, 1);
        if count.None? {
          lamports := checkpoint;
          return Err(ArithmeticPanic);
        }
        vault := vault.(memberCount := count.value);
      }
      var deposited := CheckedAdd(member.depositedAmount, amount);
      if deposited.None? {
        lamports := checkpoint;
        return Err(ArithmeticPanic);
      }
      member := member.(depositedAmount := deposited.value);

      vaults := vaults[vaultKey := vault];
      members := members[(vaultKey, user) := member];
      r := Ok(Events.DepositMade(vaultKey, FindProgramAddress(MemberSeed(vaultKey, user), bumps), amount,
                                 member.depositedAmount, vault.totalDeposited, now));
    }

    /** Anchor's account validation for withdraw (`seeds`, then `has_one`), then the handler. */
    method Withdraw(vaultKey: Addr, signer: Addr, recipient: Addr, amount: u64, now: i64)
      returns (r: Result<Events.WithdrawalPerformed>)
      requires Valid()
      modifies this
      ensures Valid()
      ensures Commits(WithdrawInstruction.Apply(old(Snapshot()), bumps, vaultKey, signer, recipient, amount, now),
                      old(Snapshot()), Snapshot(), r)
      ensures r.Err? ==> Snapshot() == old(Snapshot())
    {
      if vaultKey !in vaults {
        return Err(AccountNotInitialized);
      }
      if !CanSign(signer) {
        return Err(MissingSignature);
      }
      var vault := vaults[vaultKey];
      if vaultKey != CreateProgramAddress(VaultSeed(signer), vault.bump) {
        return Err(ConstraintSeeds);
      }
      if vault.authority != signer {
        return Err(Custom(Unauthorized));
      }
      r := WithdrawHandler(vaultKey, signer, recipient, amount, now);
      if r.Ok? {
        WithdrawInstruction.PreservesValid(old(Snapshot()), bumps, vaultKey, signer, recipient, amount, now);
      }
    }

    /** withdraw.rs `handler`: the funds guard, the checked subtraction, the lamport move, then write back. */
    method WithdrawHandler(vaultKey: Addr, signer: Addr, recipient: Addr, amount: u64, now: i64)
      returns (r: Result<Events.WithdrawalPerformed>)
      requires vaultKey in vaults && CanSign(signer)
      requires vaultKey == CreateProgramAddress(VaultSeed(signer), vaults[vaultKey].bump)
      requires vaults[vaultKey].authority == signer
      modifies this
      ensures Commits(WithdrawInstruction.Apply(old(Snapshot()), bumps, vaultKey, signer, recipient, amount, now),
                      old(Snapshot()), Snapshot(), r)
      ensures r.Err? ==> Snapshot() == old(Snapshot())
    {
      var vault := vaults[vaultKey];
      if !(vault.totalDeposited >= amount) {
        return Err(Custom(InsufficientFunds));
      }
      var total := CheckedSub(vault.totalDeposited, amount);
      if total.None? {
        return Err(ArithmeticPanic);
      }
      vault := vault.(totalDeposited := total.value);

      var checkpoint := lamports;
      var debited := DebitLamports(vaultKey, amount);
      if !debited {
        return Err(ArithmeticPanic);
      }
      var credited := CreditLamports(recipient, amount);
      if !credited {
        lamports := checkpoint;
        return Err(ArithmeticPanic);
      }

      vaults := vaults[vaultKey := vault];
      r := Ok(Events.WithdrawalPerformed(vaultKey, signer, recipient, amount, vault.totalDeposited, now));
    }
  }
}
