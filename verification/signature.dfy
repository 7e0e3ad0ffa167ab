/**
 internal/ethereum/signature.go: checking that a signature over a message
 was made by a given address, in the "personal message" form of EIP-191
 (version 0x45).
 */
module Signature {
  import opened Common
  import opened Crypto

  /** "\x19Ethereum Signed Message:\n32" as bytes. */
  const PersonalPrefix: Bytes := [0x19] + Ascii("Ethereum Signed Message:\n32")

  /** The hash recovery runs on: keccak256(prefix ‖ keccak256(message)). */
  function PersonalMessageHash(c: Primitives, message: Bytes): Hash {
    Keccak256(c, [PersonalPrefix, c.keccak(message)])
  }

  /** A 65-byte signature loses its last (recovery id) byte; any other length is kept. */
  function StripRecoveryId(signature: Bytes): (stripped: Bytes)
    ensures |signature| == 65 ==> |stripped| == 64 && signature == stripped + [signature[64]]
    ensures |signature| != 65 ==> stripped == signature
  {
    if |signature| == 65 then signature[..64] else signature
  }

  /** The address recovered from a signature over the prefixed message, if recovery succeeds. */
  function RecoveredAddress(c: Primitives, message: Bytes, signature: Bytes): Option<Address> {
    match c.ecrecover(PersonalMessageHash(c, message), signature)
    case None => None
    case Some(pub) => Some(PubkeyToAddress(c, pub))
  }

  /**
   `VerifySignature(message, signature, address)` as written: the recovery
   id is stripped from a 65-byte signature before recovery, a recovery
   error answers false, and otherwise the recovered address is compared.
   */
  function VerifySignature(c: Primitives, message: Bytes, signature: Bytes, address: Address): (ok: bool)
    ensures ok <==> RecoveredAddress(c, message, StripRecoveryId(signature)) == Some(address)
    ensures c.ecrecover(PersonalMessageHash(c, message), StripRecoveryId(signature)).None? ==> !ok
  {
    var stripped := if |signature| == 65 then signature[..64] else signature;
    match c.ecrecover(PersonalMessageHash(c, message), stripped)
    case None => false
    case Some(pub) => PubkeyToAddress(c, pub) == address
  }

  /** Two 65-byte signatures that differ only in the recovery id get the same answer. */
  lemma RecoveryIdIgnored(c: Primitives, message: Bytes, sig: Bytes, sig': Bytes, address: Address)
    requires |sig| == 65 && |sig'| == 65 && sig[..64] == sig'[..64]
    ensures VerifySignature(c, message, sig, address) == VerifySignature(c, message, sig', address)
  {
  }

  /**
   With go-ethereum's recovery, which refuses every signature that is not
   65 bytes long, no signature is ever accepted: a 65-byte one is cut to 64
   bytes, and any other length is refused as it is.
   */
  lemma VerifySignatureNeverAccepts(c: Primitives, message: Bytes, signature: Bytes, address: Address)
    requires RecoveryNeeds65Bytes(c)
    ensures !VerifySignature(c, message, signature, address)
  {
    var stripped := StripRecoveryId(signature);
    assert |stripped| != 65;
    assert c.ecrecover(PersonalMessageHash(c, message), stripped).None?;
  }

  /**
   The check as evidently intended: recovery gets the full 65 bytes, with a
   recovery id of 27 or 28 (the form wallets and `GeneratePermitSignature`
   hand out) brought back to 0 or 1 first.
   */
  function NormalizeRecoveryId(signature: Bytes): (normalized: Bytes)
    ensures |normalized| == |signature|
    ensures |signature| == 65 ==> normalized[..64] == signature[..64]
    ensures |signature| == 65 && signature[64] < 27 ==> normalized == signature
    ensures |signature| == 65 && 27 <= signature[64] ==> normalized[64] == signature[64] - 27
  {
    if |signature| == 65 && signature[64] >= 27 then signature[..64] + [signature[64] - 27] else signature
  }

  function VerifySignatureFixed(c: Primitives, message: Bytes, signature: Bytes, address: Address): (ok: bool)
    ensures ok <==> RecoveredAddress(c, message, NormalizeRecoveryId(signature)) == Some(address)
  {
    match c.ecrecover(PersonalMessageHash(c, message), NormalizeRecoveryId(signature))
    case None => false
    case Some(pub) => PubkeyToAddress(c, pub) == address
  }

  /**
   When recovery inverts signing, a signature the key made over the prefixed
   message is accepted for the key's address, both in the raw form (recovery
   id 0 or 1) and with 27 added to the last byte.
   */
  lemma FixedAcceptsGenuineSignatures(c: Primitives, message: Bytes, key: PrivateKey)
    requires SignatureRecovers(c)
    requires c.sign(PersonalMessageHash(c, message), key).Some?
    ensures var sig := c.sign(PersonalMessageHash(c, message), key).value;
      && VerifySignatureFixed(c, message, sig, AddressOf(c, key))
      && VerifySignatureFixed(c, message, sig[..64] + [sig[64] + 27], AddressOf(c, key))
  {
    var h := PersonalMessageHash(c, message);
    var sig := c.sign(h, key).value;
    assert sig[64] < 2 && c.ecrecover(h, sig) == Some(c.publicKey(key));
    assert NormalizeRecoveryId(sig) == sig;
    var shifted := sig[..64] + [sig[64] + 27];
    assert NormalizeRecoveryId(shifted) == sig;
  }

  /**
   The discrepancy on one input: a genuine signature, which the corrected
   check accepts, is rejected as written.
   */
  lemma GenuineSignatureRejected(c: Primitives, message: Bytes, key: PrivateKey)
    requires SignatureRecovers(c) && RecoveryNeeds65Bytes(c)
    requires c.sign(PersonalMessageHash(c, message), key).Some?
    ensures var sig := c.sign(PersonalMessageHash(c, message), key).value;
      && !VerifySignature(c, message, sig, AddressOf(c, key))
      && VerifySignatureFixed(c, message, sig, AddressOf(c, key))
  {
    var sig := c.sign(PersonalMessageHash(c, message), key).value;
    VerifySignatureNeverAccepts(c, message, sig, AddressOf(c, key));
    FixedAcceptsGenuineSignatures(c, message, key);
  }
}
