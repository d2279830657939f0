# nexapay-savings ledger model

A Dafny model of the accounting core of the nexapay-savings Solana/Anchor program. The program is a custodial savings vault:

- an authority creates a vault at an address derived from its own key;
- any signer deposits lamports into the vault, and the program keeps a per-user member record;
- only the authority withdraws, sending lamports from the vault to a recipient of its choice.

Files and modules:

| file | module | models |
|---|---|---|
| `ints.dfy` | `Ints` | `u8`/`u64`/`i64`, `checked_add`, `checked_sub` |
| `errors.dfy` | `SavingsErrors` | `SavingsError`, the Anchor error codes and `#[msg]` texts |
| `addressing.dfy` | `Addressing` | program-derived addresses as seed tuples plus a bump |
| `records.dfy` | `Records` | the `Vault` and `Member` records, `Vault::LEN`, `Member::LEN` |
| `events.dfy` | `Events` | the three event records (returned, not logged) |
| `ledger_state.dfy` | `LedgerState` | the account state, abort reasons, the ledger invariant `Valid` |
| `initialize.dfy` | `InitializeInstruction` | the initialize instruction as a function on states, with lemmas |
| `deposit.dfy` | `DepositInstruction` | the deposit instruction as a function on states, with lemmas |
| `withdraw.dfy` | `WithdrawInstruction` | the withdraw instruction as a function on states, with lemmas |
| `program.dfy` | `Program` | dispatch, runs of many instructions, and the class `Ledger` |

Each instruction has two forms:

- **A specification function `Apply`.** It takes a `State`, which holds three maps: vaults by address, members by (vault address, user), and lamport balances. It returns either `Err(abort)` or the next state together with the event. A failure carries no state. This is how the model captures the host's all-or-nothing rollback.
- **A method of the class `Program.Ledger`.** The method changes the ledger's `vaults`, `members` and `lamports` fields step by step, in the handler's order. The lamport transfer happens first. A later `checked_add(..).unwrap()` that panics restores the lamports, as the runtime does when it discards a failed call. Vault and member records are local copies that are written back only on success, as Anchor's account exit does. Deposit and withdraw are each split in two: Anchor's account validation (`Deposit`, `Withdraw`) and the handler body (`DepositHandler`, `WithdrawHandler`); initialize is one method. Each method is proved to commit exactly the state `Apply` specifies, or to leave everything unchanged.

**Derived addresses.** An `Addr` is either an ordinary `Key` or `Derived(seed, bump)`. Equal derivations therefore come from equal seeds and bumps, with no hashing involved. The runtime's canonical-bump search is a `BumpOracle` (`Seed -> u8`) that the `Ledger` holds as a constant. Only `Key` addresses can sign.

**Order of checks.** The model keeps the checks that decide a call's outcome on the modelled state, in Anchor's order:

1. the vault record must exist;
2. the `Signer` must have signed;
3. `seeds`/`bump` must match, then `has_one`;
4. (deposit) the system transfer, then the three checked additions;
5. (withdraw) the `InsufficientFunds` guard, `checked_sub`, then the lamport debit and credit.

Some account constraints are not modelled, and "## Left out" lists them:

- the member record's `init_if_needed` seeds and payer (`deposit.rs:16-21`);
- the `mint` and `vault_token_account` accounts of initialize (`initialize.rs:18-28`);
- the writable and program-id checks.

**Where the program's files disagree with each other**, the model makes the following choices:

- **Vault seeds.** `initialize.rs:11` derives the vault from `[SEED_VAULT, authority, mint]`. `deposit.rs:11` and `withdraw.rs:12` re-derive it from `[SEED_VAULT, authority]`. The model departs from `initialize.rs:11` and uses the two-seed address everywhere, so that a vault created by initialize is the one deposit and withdraw find. "## Left out" records what this departure changes.
- **Extra vault fields.** `initialize.rs:41-42` writes `mint` and `vault_token_account`, which `Vault` (`vault.rs:4-16`) does not declare. The model keeps both as extra fields written only at initialize. `Records.ExtraVaultFieldsExceedLen` shows that they would need 64 bytes beyond `Vault::LEN`.
- **Overflow on deposit.** `errors.rs:11-12` declares `Overflow` ("Arithmetic overflow occurred."). Yet `deposit.rs:47,56,58` call `unwrap()` on `checked_add`, so an overflow panics instead of returning that error. The model aborts with `ArithmeticPanic`, and `Overflow` is never returned.
- **`InvalidVaultConfig`.** `errors.rs:14-15` declares it, and no handler returns it (`Program.UnraisedErrors`).
- **Tokens.** `initialize.rs:2,18-28` imports `anchor_spl::token` and creates a token account for the vault. No handler moves tokens: deposit and withdraw move only lamports, so only lamports are modelled.

Two behaviours of the code are stated as lemmas rather than treated as defects:

- **Zero-amount deposits.** A zero-amount deposit by a user without a deposit counts that user as a member and leaves their deposit at zero. Repeating it counts them again (`DepositInstruction.ZeroDepositCountsAgain`). When every deposit is nonzero, `memberCount` equals the number of distinct depositors (`Program.NewVaultCountsDistinctDepositors`). A zero deposit by a user who has already deposited changes nothing, so zero deposits do not always break that equality.
- **Withdrawing to the vault itself.** If the recipient is the vault, the counter falls but no lamports leave. The vault's lamports beyond its counter then grow by the amount (`Program.RunAccounting`).

## Model

| member | source | states |
|---|---|---|
| `Ints.CheckedAdd` | programs/nexapay-savings/src/instructions/deposit.rs:47 | `checked_add` is `None` exactly when the sum passes `U64_MAX`, and otherwise undone by subtracting the addend |
| `Ints.CheckedSub` | programs/nexapay-savings/src/instructions/withdraw.rs:36 | `checked_sub` is `None` exactly when the subtrahend exceeds the minuend, and otherwise undone by adding it back |
| `Ints.CheckedInverse` | programs/nexapay-savings/src/instructions/withdraw.rs:36 | A checked subtraction after a checked addition of the same amount gives back the start value, and conversely |
| `SavingsErrors.Code` | programs/nexapay-savings/src/errors.rs:3-16 | Anchor numbers the four variants from 6000, so each code lies in 6000..6003 |
| `SavingsErrors.VariantsDistinct` | programs/nexapay-savings/src/errors.rs:4-16 | Two variants have the same code, and the same message, exactly when they are the same variant |
| `Addressing.FindProgramAddress` | programs/nexapay-savings/src/instructions/initialize.rs:11-12 | The address found for a seed tuple is a derived (off-curve) address that carries those seeds, so it cannot sign and different seeds never share it |
| `Addressing.DerivationInjective` | programs/nexapay-savings/src/instructions/deposit.rs:11-12 | Two derivations give the same address iff their seeds and bumps are equal; this makes the seeds-plus-stored-bump re-check an authenticity check |
| `Addressing.AddressesSeparate` | programs/nexapay-savings/src/instructions/deposit.rs:16-21 | One vault per authority, one member record per (vault, user), one token account per vault; vault, member and token-account addresses never coincide and none of them can sign |
| `Records.Space` | programs/nexapay-savings/src/state/vault.rs:19-20 | An account's space is the 8-byte discriminator plus the widths of its fields, at least 8 plus one byte per field |
| `Records.SpaceAppend` | programs/nexapay-savings/src/state/member.rs:22-23 | Space is additive over field lists, with a single shared discriminator; `ExtraVaultFieldsExceedLen` follows from it |
| `Records.VaultLenMatchesFields` | programs/nexapay-savings/src/state/vault.rs:4-21 | `Vault::LEN` is 57, the space of a pubkey, a u8 and two u64 after the discriminator |
| `Records.MemberLenMatchesFields` | programs/nexapay-savings/src/state/member.rs:4-24 | `Member::LEN` is 89, the space of two pubkeys, a u64, an i64 and a u8 after the discriminator |
| `Records.ExtraVaultFieldsExceedLen` | programs/nexapay-savings/src/instructions/initialize.rs:39-45 | With the mint and token-account pubkeys that initialize writes, the vault would need 64 bytes more than `Vault::LEN` |
| `LedgerState.MemberOf` | programs/nexapay-savings/src/instructions/deposit.rs:16-21 | No contract of its own: the stored member record, or the zeroed record `init_if_needed` allocates; specified through `DepositInstruction.Effect` and `DepositInstruction.Evolution` |
| `InitializeInstruction.Apply` | programs/nexapay-savings/src/instructions/initialize.rs:7-53 | No contract of its own: the initialize instruction on the ledger state; specified by `InitializeInstruction.Outcome`, `Effect`, `PreservesValid` and `Evolution` |
| `InitializeInstruction.Outcome` | programs/nexapay-savings/src/instructions/initialize.rs:9-16 | Initialize commits iff the authority signed and no vault exists at its derived address; an existing vault gives `AccountInUse` |
| `InitializeInstruction.Effect` | programs/nexapay-savings/src/instructions/initialize.rs:38-53 | The new vault sits at the authority's derived address with that authority, the canonical bump, zero `total_deposited` and `member_count`, the mint, and the token account derived from the vault address; no other vault, member or balance changes; the event names vault and authority |
| `InitializeInstruction.PreservesValid` | programs/nexapay-savings/src/instructions/initialize.rs:38-45 | A committed initialize keeps the ledger invariant |
| `InitializeInstruction.Evolution` | programs/nexapay-savings/src/instructions/initialize.rs:44-45 | Initialize keeps every record's identity, adds no depositors, and keeps `member_count` exact or covering for every vault, the new one included |
| `DepositInstruction.Moved` | programs/nexapay-savings/src/instructions/deposit.rs:36-44 | The system transfer between two distinct accounts: the payer loses `amount`, the payee gains it, every other balance is unchanged |
| `DepositInstruction.Apply` | programs/nexapay-savings/src/instructions/deposit.rs:7-70 | No contract of its own: the deposit instruction on the ledger state; specified by `DepositInstruction.Outcome`, `Effect`, `TotalAdditionCannotPanic`, `PreservesValid`, `Counting`, `Evolution` and `ZeroDepositCountsAgain` |
| `DepositInstruction.Outcome` | programs/nexapay-savings/src/instructions/deposit.rs:8-58 | For an existing vault and a signing user: a vault record at an address other than the one its authority and stored bump derive gets `ConstraintSeeds`; past that, a deposit commits iff the user holds `amount` lamports, the vault's balance plus `amount` fits in a u64, and all three checked additions fit; otherwise it reports `TransferFailed` or `ArithmeticPanic` and changes nothing |
| `DepositInstruction.Effect` | programs/nexapay-savings/src/instructions/deposit.rs:31-69 | `total_deposited` and the member's `deposited_amount` grow by `amount`; `member_count` grows by one iff the member's deposit was 0; member vault, authority, `joined_at` and bump are written only on that branch; the (vault, user) record is reused; `amount` lamports move from user to vault; nothing else changes; the event carries the new totals |
| `DepositInstruction.TotalAdditionCannotPanic` | programs/nexapay-savings/src/instructions/deposit.rs:44-47 | On a valid ledger the `total_deposited` addition never panics, because custody covers the counter and the transfer already bounded the balance; a panic comes from `member_count` or the member's total |
| `DepositInstruction.PreservesValid` | programs/nexapay-savings/src/instructions/deposit.rs:44-58 | A committed deposit keeps the ledger invariant, custody covering the counter included |
| `DepositInstruction.Counting` | programs/nexapay-savings/src/instructions/deposit.rs:50-58 | The depositor set gains the user iff `amount` is nonzero; `member_count` keeps covering it, and stays equal to it for a nonzero deposit |
| `DepositInstruction.Evolution` | programs/nexapay-savings/src/instructions/deposit.rs:50-58 | A deposit keeps vault identities, never shrinks a member's total, and never rewrites a member whose total is nonzero |
| `DepositInstruction.ZeroDepositCountsAgain` | programs/nexapay-savings/src/instructions/deposit.rs:50-58 | A zero-amount deposit on a fresh member counts them and leaves their total at 0, so repeating it counts them again |
| `WithdrawInstruction.Paid` | programs/nexapay-savings/src/instructions/withdraw.rs:39-40 | The debit-then-credit of lamports succeeds exactly when the vault holds `amount` and the recipient has room (or is the vault); then the vault loses `amount` and the recipient gains it, a payment to the vault itself leaves its balance as it was, and other balances are unchanged |
| `WithdrawInstruction.Apply` | programs/nexapay-savings/src/instructions/withdraw.rs:8-52 | No contract of its own: the withdraw instruction on the ledger state; specified by `WithdrawInstruction.Outcome`, `Refusals`, `NoUnauthorizedWhenValid`, `WrongSignerFailsSeeds`, `GuardRulesOutUnderflow`, `Effect`, `PreservesValid`, `Evolution` and `DrainThenOneFails` |
| `WithdrawInstruction.Outcome` | programs/nexapay-savings/src/instructions/withdraw.rs:28-51 | Past the account checks, a withdrawal commits iff `amount <= total_deposited`, the vault holds `amount` lamports and the recipient has room for them (or is the vault); otherwise it reports `InsufficientFunds` or `ArithmeticPanic` |
| `WithdrawInstruction.AuthorityWithdrawsPart` | tests/nexapay-savings.ts:133-154 | On a valid ledger, the authority's withdrawal of part of the counter to a fresh recipient commits, lowers the counter by the amount and leaves the recipient holding exactly the amount |
| `WithdrawInstruction.Refusals` | programs/nexapay-savings/src/instructions/withdraw.rs:10-33 | A signer other than the authority is always refused; a vault address that the signer's key and the stored bump do not derive gets `ConstraintSeeds`; `Unauthorized` is reported exactly when `seeds` passes and the stored authority is not the signer; for the authority, `amount > total_deposited` gives exactly `InsufficientFunds` |
| `WithdrawInstruction.NoUnauthorizedWhenValid` | programs/nexapay-savings/src/instructions/withdraw.rs:10-15 | On a valid ledger withdraw never reports `Unauthorized`: the `seeds` check already refuses every signer but the authority |
| `WithdrawInstruction.WrongSignerFailsSeeds` | programs/nexapay-savings/src/instructions/withdraw.rs:10-15 | On a valid ledger a wrong signer fails at the `seeds` constraint (`ConstraintSeeds`) before `has_one` is checked |
| `WithdrawInstruction.GuardRulesOutUnderflow` | programs/nexapay-savings/src/instructions/withdraw.rs:33-40 | After the guard, `checked_sub` cannot fail; on a valid ledger the vault debit cannot wrap, so the only panic left is a recipient balance above `U64_MAX` |
| `WithdrawInstruction.Effect` | programs/nexapay-savings/src/instructions/withdraw.rs:28-51 | On success the signer is the authority, `total_deposited` falls by `amount`, `member_count`, vault identity, other vaults and every member record are unchanged, `amount` lamports move from vault to recipient (their sum kept), and the event carries the new total |
| `WithdrawInstruction.PreservesValid` | programs/nexapay-savings/src/instructions/withdraw.rs:33-40 | A committed withdrawal keeps the ledger invariant |
| `WithdrawInstruction.Evolution` | programs/nexapay-savings/src/instructions/withdraw.rs:28-51 | A withdrawal keeps every record's identity, the depositor sets and the member counts |
| `WithdrawInstruction.DrainThenOneFails` | programs/nexapay-savings/src/instructions/withdraw.rs:33-36 | Withdrawing exactly `total_deposited` succeeds and leaves 0; a following withdrawal of 1 fails with `InsufficientFunds` |
| `Program.Execute` | programs/nexapay-savings/src/lib.rs:17-27 | No contract of its own: dispatches one call to its instruction's `Apply`; specified by `Program.ExecuteStep` and `Program.UnraisedErrors` |
| `Program.Run` | tests/nexapay-savings.ts:53-131 | No contract of its own: the host applying calls one after another, keeping those that commit; specified by `Program.RunSnoc`, `Program.RunAccounting` and `Program.NewVaultCountsDistinctDepositors` |
| `Program.RunSnoc` | programs/nexapay-savings/src/lib.rs:17-27 | Running one more call after a sequence dispatches it on the sequence's final state, and the log gains it exactly when it commits |
| `Program.ExecuteStep` | programs/nexapay-savings/src/lib.rs:17-27 | Every committed entry point keeps `Valid`, evolves records only as allowed, and moves counters, balances and depositor sets by its own amounts |
| `Program.RunAccounting` | programs/nexapay-savings/src/instructions/deposit.rs:44-58 | Over any run: `total_deposited` is the start value plus committed deposits minus committed withdrawals; lamports beyond the counter grow only by withdrawals received; depositors grow by nonzero depositors; `member_count` keeps covering them where it covered them at the start, and stays equal to them where it started equal and no deposit is zero; authority, bump and member identity never change; deposits never shrink |
| `Program.NewVaultCountsDistinctDepositors` | programs/nexapay-savings/src/state/vault.rs:11-15 | With nonzero deposits, a vault created in a run ends with `member_count` equal to its distinct depositors and `total_deposited` equal to deposits minus withdrawals, in any order |
| `Program.UnraisedErrors` | programs/nexapay-savings/src/errors.rs:11-15 | No instruction ever fails with `Overflow` or `InvalidVaultConfig` |
| `Program.InitializeThenTwoDeposits` | tests/nexapay-savings.ts:107-130 | Initialize by A, then deposits of 100 and 50 by A, all commit with member total 150, vault total 150 and one member |
| `Program.TwoDepositorsEitherOrder` | tests/nexapay-savings.ts:53-105 | Two distinct users depositing 10 each give two members and a total of 20, in either order |
| `Program.Ledger.Initialize` | programs/nexapay-savings/src/instructions/initialize.rs:38-53 | Writes the vault's fields one by one; commits exactly `InitializeInstruction.Apply` or changes nothing; keeps `Valid` |
| `Program.Ledger.Deposit` | programs/nexapay-savings/src/instructions/deposit.rs:7-29 | Anchor's account checks for deposit, then the handler; commits exactly `DepositInstruction.Apply` or changes nothing; keeps `Valid` |
| `Program.Ledger.DepositHandler` | programs/nexapay-savings/src/instructions/deposit.rs:31-70 | Transfer, checked additions and first-deposit branch in the handler's order, with lamports restored on a panic; commits exactly `DepositInstruction.Apply` or changes nothing |
| `Program.Ledger.Withdraw` | programs/nexapay-savings/src/instructions/withdraw.rs:8-26 | `seeds` then `has_one`, then the handler; commits exactly `WithdrawInstruction.Apply` or changes nothing; keeps `Valid` |
| `Program.Ledger.WithdrawHandler` | programs/nexapay-savings/src/instructions/withdraw.rs:28-52 | Funds guard, `checked_sub`, then the lamport debit and credit, restoring lamports if the credit would wrap; commits exactly `WithdrawInstruction.Apply` or changes nothing |
| `Program.Ledger.SystemTransfer` | programs/nexapay-savings/src/instructions/deposit.rs:36-44 | The system transfer moves `amount` from user to vault iff the user holds it and the vault balance stays within u64; otherwise nothing moves |
| `Program.Ledger.DebitLamports` | programs/nexapay-savings/src/instructions/withdraw.rs:39 | The vault's lamports fall by `amount`, refused where they would go negative |
| `Program.Ledger.CreditLamports` | programs/nexapay-savings/src/instructions/withdraw.rs:40 | The recipient's lamports rise by `amount`, refused where they would pass `U64_MAX` |

## Left out

- Address hashing. SHA-256 and the off-curve bump search are not modelled. Addresses are seed tuples, and the canonical bump comes from an oracle.
- The host runtime. Signature verification becomes `CanSign`. The clock becomes a `now` parameter. Atomicity becomes "a failure carries no state". Account owner and discriminator checks become "the vault record exists".
- Rent and allocation. Payers, rent-exempt minimums and account creation costs are left out. This includes the rent the user pays for a new member record and the rent the authority pays for a new vault.
- CPIs of initialize. Creating the token account and checking the mint are foreign calls to the SPL token program. The model records only the mint key and the derived token-account address.
- Client-supplied derived addresses. The client passes the member address to deposit and the vault address to initialize. The model derives the member key from (vault, user) and the vault key from the authority instead of taking them as arguments. A wrong member address, rejected by the seeds check at `deposit.rs:16-21`, is not modelled. Nor is a wrong vault address passed to initialize, which the `init` and `seeds` constraint at `initialize.rs:9-12` refuses with `ConstraintSeeds` without changing anything.
- Other Anchor failures. Accounts not marked writable, a wrong program id, and `Clock::get()` failing are not modelled.
- Events. They are returned from each call, not logged. The initialize event's timestamp is the `now` parameter.
- The test client and dispatch. The TypeScript client (airdrops, RPC) is left out. `lib.rs` only delegates, and is mirrored by `Program.Execute` and the three `Ledger` entry points.
- Concurrency. Each call is one atomic step; the host serializes calls.
- `InitializeInstruction.Apply`: does not model the three-seed address of `initialize.rs:11`. With the mint among its seeds, the source allows one vault per (authority, mint). A second initialize by the same authority with another mint therefore commits in the source, but the model returns `AccountInUse`. Conversely, as written, the two-seed derivations at `deposit.rs:11` and `withdraw.rs:12` never match a vault created at the three-seed address. Every deposit or withdrawal into such a vault would then fail the seeds check, which the model does not show.
- `InitializeInstruction.Apply`: does not model the allocation size. Initialize allocates `space = Vault::LEN` (`initialize.rs:14`), but the two extra pubkeys it writes need 64 more bytes (`Records.ExtraVaultFieldsExceedLen`). If `Vault` declared them, serializing the vault at exit would fail and initialize would abort. The model's initialize commits.
- Member account constraints. The `init_if_needed` seeds and payer of the member record (`deposit.rs:16-21`) are replaced by keying members on (vault, user).
- Initialize's token accounts. The `mint` account and the `init` of `vault_token_account` with its `token::mint`/`token::authority` constraints (`initialize.rs:18-28`) are not checked. Initialize never fails for a bad mint or an occupied token-account address.
