/**
 The cryptographic primitives the program calls into go-ethereum for. They
 are not modelled: each is a field of `Primitives`, so every property proved
 in this project holds for EVERY Keccak-256, secp256k1 signer, public-key
 recovery and transaction signer, and says only how the program combines
 them. Where a property needs something of the primitives (that recovery
 inverts signing, say), the lemma states it as a hypothesis.
 */
module Crypto {
  import opened Common

  /** A private key, treated as opaque bytes. */
  type PrivateKey = Bytes

  /** `crypto.Sign` output: r (32 bytes) ‖ s (32 bytes) ‖ recovery id (1 byte). */
  type Signature65 = s: Bytes | |s| == 65 witness Zeros(65)

  /** An uncompressed secp256k1 public key: 0x04 ‖ X ‖ Y. */
  type PublicKey = p: Bytes | |p| == 65 witness Zeros(65)

  /** An unsigned legacy transaction (`types.NewTransaction`). */
  datatype Tx = Tx(nonce: nat, to: Address, value: nat, gas: nat, gasPrice: nat, data: Bytes)

  datatype Primitives = Primitives(
    /** Keccak-256 of a byte string. */
    keccak: Bytes -> Hash,
    /** `crypto.Sign`: None is the error return. */
    sign: (Hash, PrivateKey) -> Option<Signature65>,
    /** `crypto.Ecrecover` / `crypto.SigToPub`: None is the error return. */
    ecrecover: (Hash, Bytes) -> Option<PublicKey>,
    /** The public key of a private key. */
    publicKey: PrivateKey -> PublicKey,
    /**
     Chain-id-bound (EIP-155) signing of a transaction: the signed
     transaction's hash, None when signing errors.
     */
    signTx: (Tx, nat, PrivateKey) -> Option<Hash>
  )

  /** `crypto.Keccak256(parts...)`: the hash of the concatenation of its arguments. */
  function Keccak256(c: Primitives, parts: seq<Bytes>): Hash {
    c.keccak(Concat(parts))
  }

  function Concat(parts: seq<Bytes>): Bytes {
    if |parts| == 0 then [] else parts[0] + Concat(parts[1..])
  }

  /**
   `crypto.PubkeyToAddress` / `common.BytesToAddress(Keccak256(pub[1:])[12:])`:
   the low 20 bytes of the hash of the key without its 0x04 prefix.
   */
  function PubkeyToAddress(c: Primitives, pub: PublicKey): Address {
    c.keccak(pub[1..])[12..]
  }

  /** The address a private key signs for. */
  function AddressOf(c: Primitives, key: PrivateKey): Address {
    PubkeyToAddress(c, c.publicKey(key))
  }

  /**
   `bind.NewKeyedTransactorWithChainID(key, chainID)`: a nil chain id is
   its only error; otherwise the transactor's `From` is the address of the
   key's public key, whatever the id.
   */
  function KeyedTransactor(c: Primitives, key: PrivateKey, chainId: Option<nat>): (from: Option<Address>)
    ensures from.Some? <==> chainId.Some?
    ensures from.Some? ==> from.value == AddressOf(c, key)
  {
    match chainId
    case None => None
    case Some(_) => Some(AddressOf(c, key))
  }

  /**
   The transactor's `From` is the account the key signs for: every
   signature the key makes recovers to it, so the nonce a handler reads
   for `From` is the nonce of the account whose transactions it signs.
   */
  lemma TransactorIsSigner(c: Primitives, key: PrivateKey, chainId: nat, h: Hash)
    requires SignatureRecovers(c)
    requires c.sign(h, key).Some?
    ensures c.ecrecover(h, c.sign(h, key).value).Some?
    ensures PubkeyToAddress(c, c.ecrecover(h, c.sign(h, key).value).value) == KeyedTransactor(c, key, Some(chainId)).value
  {
  }

  /**
   The secp256k1 facts the signature round trip rests on: a successful
   signature carries a raw recovery id of 0 or 1 in its last byte, and
   recovering from it yields the signer's public key.
   */
  ghost predicate SignatureRecovers(c: Primitives) {
    forall h: Hash, k: PrivateKey {:trigger c.sign(h, k)} ::
      c.sign(h, k).Some? ==>
        && c.sign(h, k).value[64] < 2
        && c.ecrecover(h, c.sign(h, k).value) == Some(c.publicKey(k))
  }

  /** go-ethereum's recovery rejects every signature that is not 65 bytes long. */
  ghost predicate RecoveryNeeds65Bytes(c: Primitives) {
    forall h: Hash, sig: Bytes {:trigger c.ecrecover(h, sig)} ::
      |sig| != 65 ==> c.ecrecover(h, sig).None?
  }
}
