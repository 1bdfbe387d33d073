/**
 * The FROST threshold-signature library (secp256k1 ciphersuite) as the rest of
 * the system sees it: opaque values and the operations on them. The
 * cryptography is not modelled; each operation is a field of `Library`, a
 * fixed but arbitrary function, and every property proved elsewhere holds for
 * whatever those functions are. An operation that can fail returns the Debug
 * text of the library's error.
 */
module Frost {
  import opened Wrappers
  import opened Primitives
  import opened Api

  /** A participant identifier (a non-zero scalar in the library). */
  datatype Identifier = Identifier(handle: nat)

  /** A signer's long-lived key share, which knows its identifier. */
  datatype SecretShare = SecretShare(identifier: Identifier, handle: nat)

  /** The secret nonces of one signing session; they never leave the signer. */
  datatype SigningNonces = SigningNonces(handle: nat)

  /** The public commitments to a signer's nonces. */
  datatype SigningCommitments = SigningCommitments(handle: nat)

  datatype KeyPackage = KeyPackage(handle: nat)

  datatype SignatureShare = SignatureShare(handle: nat)

  datatype Signature = Signature(handle: nat)

  /** The group's public keys; it holds the group verifying key. */
  datatype PublicKeyPackage = PublicKeyPackage(handle: nat)

  /** `SigningPackage::new(commitments, message)`: the commitments keyed by signer, and the message. */
  datatype SigningPackage = SigningPackage(commitments: map<Identifier, SigningCommitments>, message: seq<byte>)

  datatype Library = Library(
    /** `Identifier::try_from(u16)`. */
    identifierFrom: SignerIdWire -> Result<Identifier, string>,
    /** `u16::from(identifier)`. */
    identifierToWire: Identifier -> SignerIdWire,
    /** `round1::commit(signing_share, rng)`, the generator's output given as a number. */
    round1Commit: (SecretShare, nat) -> (SigningNonces, SigningCommitments),
    /** `SigningCommitments::serialize` and `deserialize`. */
    serializeCommitments: SigningCommitments -> seq<byte>,
    deserializeCommitments: seq<byte> -> Result<SigningCommitments, string>,
    /** `KeyPackage::try_from(secret_share)`. */
    keyPackageFrom: SecretShare -> Result<KeyPackage, string>,
    /** `round2::sign(signing_package, nonces, key_package)`. */
    round2Sign: (SigningPackage, SigningNonces, KeyPackage) -> Result<SignatureShare, string>,
    serializeShare: SignatureShare -> seq<byte>,
    /** `frost::aggregate(signing_package, shares, pubkey_package)`. */
    aggregate: (SigningPackage, map<Identifier, SignatureShare>, PublicKeyPackage) -> Result<Signature, string>,
    /** `verifying_key().verify(message, signature)`. */
    verify: (PublicKeyPackage, seq<byte>, Signature) -> Result<Unit, string>,
    serializeSignature: Signature -> seq<byte>,
    /** The serialized group verifying key. */
    serializeGroupKey: PublicKeyPackage -> seq<byte>
  )
}
