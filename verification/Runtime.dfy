/** What the programs take from the chain: key derivation, hashing, signature recovery and rent. */
module Runtime {
  import opened Base

  /** Uninterpreted functions of the runtime; every result holds for all of them. */
  datatype Env = Env(
    programId: Pubkey,
    /** the program's state account, which owns the custody token accounts */
    statePda: Pubkey,
    /** `find_program_address` for the custody seed: the canonical bump of a mint */
    custodyBump: Pubkey -> byte,
    /** `create_program_address` for the custody seed, a mint and a bump */
    custodyPda: (Pubkey, byte) -> Option<Pubkey>,
    /** `find_program_address` for the used-hash seed */
    usedPda: Bytes32 -> Pubkey,
    /** the canonical bump of a (mint, depositor) deposit account */
    depositBump: (Pubkey, Pubkey) -> byte,
    /** the associated token account of an (owner, mint) pair */
    ata: (Pubkey, Pubkey) -> Pubkey,
    keccak: Bytes -> Bytes32,
    /** `recover_evm_signer`: message hash and signature to signer */
    recover: (Bytes32, Bytes) -> Option<Pubkey>,
    ed25519Program: Pubkey,
    /** the Ed25519 precompile's check of (signature, public key, message) */
    ed25519Verify: (Bytes, Bytes, Bytes) -> bool,
    /** rent-exempt minimum of a used-hash account */
    rent: u64
  )

  /** "\x19Ethereum Signed Message:\n32" */
  const SIGNED_MESSAGE_PREFIX: Bytes := [
    0x19, 0x45, 0x74, 0x68, 0x65, 0x72, 0x65, 0x75, 0x6d, 0x20, 0x53, 0x69, 0x67, 0x6e,
    0x65, 0x64, 0x20, 0x4d, 0x65, 0x73, 0x73, 0x61, 0x67, 0x65, 0x3a, 0x0a, 0x33, 0x32]

  function EthereumSignedMessageHash(env: Env, h: Bytes32): Bytes32 {
    env.keccak(SIGNED_MESSAGE_PREFIX + h)
  }

  const SIGNATURE_LENGTH := 65

  /** The signer of the EIP-191 hash of `message`, if the signature has the right length and recovers. */
  function RecoveredSigner(env: Env, message: Bytes, signature: Bytes): Option<Pubkey> {
    if |signature| != SIGNATURE_LENGTH then None
    else env.recover(EthereumSignedMessageHash(env, env.keccak(message)), signature)
  }

  /** What a signature by s over `message` is, written out: 65 bytes from which the signer of the keccak hash of the 28
      bytes "\x19Ethereum Signed Message:\n32" and the message's own keccak hash recovers to s. */
  predicate SignatureCovers(env: Env, message: Bytes, signature: Bytes, s: Pubkey) {
    && |signature| == 65
    && env.recover(
         env.keccak([0x19, 0x45, 0x74, 0x68, 0x65, 0x72, 0x65, 0x75, 0x6d, 0x20, 0x53, 0x69, 0x67, 0x6e,
                     0x65, 0x64, 0x20, 0x4d, 0x65, 0x73, 0x73, 0x61, 0x67, 0x65, 0x3a, 0x0a, 0x33, 0x32]
                    + env.keccak(message)),
         signature) == Some(s)
  }

  lemma RecoveredCovers(env: Env, message: Bytes, signature: Bytes, s: Pubkey)
    ensures RecoveredSigner(env, message, signature) == Some(s) <==> SignatureCovers(env, message, signature, s)
  {
  }

  /** Some enabled signer's signature covers the message. */
  ghost predicate CoveredByOneOf(env: Env, message: Bytes, signature: Bytes, enabled: seq<Pubkey>) {
    exists s :: s in enabled && SignatureCovers(env, message, signature, s)
  }

  lemma RecoveredEnabledIff(env: Env, message: Bytes, signature: Bytes, enabled: seq<Pubkey>)
    ensures RecoveredSigner(env, message, signature).Some? && RecoveredSigner(env, message, signature).value in enabled
       <==> CoveredByOneOf(env, message, signature, enabled)
  {
    hide RecoveredSigner, SignatureCovers;
    var r := RecoveredSigner(env, message, signature);
    if r.Some? {
      RecoveredCovers(env, message, signature, r.value);
    }
    forall s | SignatureCovers(env, message, signature, s)
      ensures r == Some(s)
    {
      RecoveredCovers(env, message, signature, s);
    }
  }
}
