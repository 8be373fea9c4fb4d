// What every contract shares: addresses, identifiers and machine integer ranges.
module Ledger {

  datatype Address = Address(id: nat)

  // 32-byte identifiers. Those computed by hashing are kept as the term that was hashed,
  // which is what a hash without collisions amounts to; `Opaque` is any other value.
  datatype Uid =
    | SchemaUid(authority: Address, definition: string)
    | ClaimUid(schema: Uid, attester: Address, subject: Address, nonce: nat)
    | Opaque(bytes: nat)

  const I128_MAX: int := 0x7fff_ffff_ffff_ffff_ffff_ffff_ffff_ffff
  const U64_MAX: int := 0xffff_ffff_ffff_ffff
}
