/** The program's custom error enum and the codes Anchor gives it. */
module SavingsErrors {

  datatype SavingsError = Unauthorized | InsufficientFunds | Overflow | InvalidVaultConfig

  /** Anchor numbers the variants of an `#[error_code]` enum from 6000 in declaration order. */
  const ERROR_CODE_OFFSET: nat := 6000

  function Code(e: SavingsError): (c: nat)
    ensures ERROR_CODE_OFFSET <= c < ERROR_CODE_OFFSET + 4
  {
    match e
    case Unauthorized => ERROR_CODE_OFFSET
    case InsufficientFunds => ERROR_CODE_OFFSET + 1
    case Overflow => ERROR_CODE_OFFSET + 2
    case InvalidVaultConfig => ERROR_CODE_OFFSET + 3
  }

  /** The `#[msg]` text attached to each variant. */
  function Message(e: SavingsError): string
  {
    match e
    case Unauthorized => "You are not authorized to perform this action."
    case InsufficientFunds => "The requested amount exceeds available funds."
    case Overflow => "Arithmetic overflow occurred."
    case InvalidVaultConfig => "Invalid vault configuration."
  }

  /** The four variants are told apart both by their code and by their message. */
  lemma VariantsDistinct(e1: SavingsError, e2: SavingsError)
    ensures Code(e1) == Code(e2) <==> e1 == e2
    ensures Message(e1) == Message(e2) <==> e1 == e2
  {
  }
}
