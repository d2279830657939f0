/** The two account records the program stores, and their on-chain sizes. */
module Records {
  import opened Ints
  import opened Addressing

  /**
   * A vault. The first four fields are the ones `Vault` declares; `mint` and
   * `tokenAccount` are the two further fields the initialize handler writes.
   */
  datatype Vault = Vault(
    authority: Addr,
    bump: u8,
    totalDeposited: u64,
    memberCount: u64,
    mint: Addr,
    tokenAccount: Addr)

  /** A contributor's record in one vault. */
  datatype Member = Member(
    vault: Addr,
    authority: Addr,
    depositedAmount: u64,
    joinedAt: i64,
    bump: u8)

  /** A freshly allocated, all-zero vault record. */
  const ZEROED_VAULT: Vault := Vault(DEFAULT_PUBKEY, 0, 0, 0, DEFAULT_PUBKEY, DEFAULT_PUBKEY)

  /** What `init_if_needed` yields for a member record that does not exist yet. */
  const ZEROED_MEMBER: Member := Member(DEFAULT_PUBKEY, DEFAULT_PUBKEY, 0, 0, 0)

  /** Borsh field types and their serialized widths. */
  datatype FieldType = PubkeyField | U8Field | U64Field | I64Field

  function Width(t: FieldType): nat
  {
    match t
    case PubkeyField => 32
    case U8Field => 1
    case U64Field => 8
    case I64Field => 8
  }

  /** Anchor's 8-byte account discriminator. */
  const DISCRIMINATOR_LEN: nat := 8

  /** Bytes an account needs: the discriminator plus every field's width. */
  function Space(fields: seq<FieldType>): (n: nat)
    ensures n >= DISCRIMINATOR_LEN + |fields|
  {
    if fields == [] then DISCRIMINATOR_LEN
    else Width(fields[0]) + Space(fields[1..])
  }

  const VAULT_FIELDS: seq<FieldType> := [PubkeyField, U8Field, U64Field, U64Field]
  const MEMBER_FIELDS: seq<FieldType> := [PubkeyField, PubkeyField, U64Field, I64Field, U8Field]

  /** `Vault::LEN` and `Member::LEN` as the source writes them. */
  const VAULT_LEN: nat := 8 + 32 + 1 + 8 + 8
  const MEMBER_LEN: nat := 8 + 32 + 32 + 8 + 8 + 1

  /** Space is additive: two field lists share one discriminator. */
  lemma {:induction false} SpaceAppend(a: seq<FieldType>, b: seq<FieldType>)
    ensures Space(a + b) == Space(a) + Space(b) - DISCRIMINATOR_LEN
  {
    if a == [] {
      assert a + b == b;
    } else {
      assert (a + b)[1..] == a[1..] + b;
      SpaceAppend(a[1..], b);
    }
  }

  /** `Vault::LEN` is 57 and is exactly the space of the fields `Vault` declares. */
  lemma VaultLenMatchesFields()
    ensures VAULT_LEN == 57 && VAULT_LEN == Space(VAULT_FIELDS)
  {
  }

  /** `Member::LEN` is 89 and is exactly the space of the fields `Member` declares. */
  lemma MemberLenMatchesFields()
    ensures MEMBER_LEN == 89 && MEMBER_LEN == Space(MEMBER_FIELDS)
  {
  }

  /** The two extra pubkeys written by initialize do not fit in `Vault::LEN` bytes. */
  lemma ExtraVaultFieldsExceedLen()
    ensures Space(VAULT_FIELDS + [PubkeyField, PubkeyField]) == VAULT_LEN + 64
  {
    VaultLenMatchesFields();
    SpaceAppend(VAULT_FIELDS, [PubkeyField, PubkeyField]);
  }
}
