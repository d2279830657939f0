/** The events the handlers emit; the model returns them instead of logging them. */
module Events {
  import opened Ints
  import opened Addressing

  datatype VaultInitialized = VaultInitialized(vault: Addr, authority: Addr, timestamp: i64)

  datatype DepositMade = DepositMade(
    vault: Addr,
    member: Addr,
    amount: u64,
    newMemberTotal: u64,
    newVaultTotal: u64,
    timestamp: i64)

  datatype WithdrawalPerformed = WithdrawalPerformed(
    vault: Addr,
    authority: Addr,
    recipient: Addr,
    amount: u64,
    newVaultTotal: u64,
    timestamp: i64)
}
