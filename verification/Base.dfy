/** Machine integers, byte strings, keys, results and errors shared by both programs. */
module Base {

  type byte = n: int | 0 <= n < 256
  type Bytes = seq<byte>

  const U16_MAX := 0xFFFF
  const U32_MAX := 0xFFFF_FFFF
  const U64_MAX := 0xFFFF_FFFF_FFFF_FFFF
  const USIZE_MAX := U64_MAX

  /** No slice is longer than this in Rust. */
  const ISIZE_MAX := 0x7FFF_FFFF_FFFF_FFFF

  type u16 = n: int | 0 <= n <= U16_MAX
  type u32 = n: int | 0 <= n <= U32_MAX
  type u64 = n: int | 0 <= n <= U64_MAX

  type Bytes32 = s: Bytes | |s| == 32 witness seq(32, _ => 0)
  type Bytes64 = s: Bytes | |s| == 64 witness seq(64, _ => 0)

  /** A 32-byte account address. */
  datatype Pubkey = Pubkey(bytes: Bytes32)

  const ZEROS: Bytes32 := [
    0, 0, 0, 0, 0, 0, 0, 0, 0, 0, 0, 0, 0, 0, 0, 0, 0, 0, 0, 0, 0, 0, 0, 0, 0, 0, 0, 0, 0, 0, 0, 0]

  const DEFAULT_PUBKEY := Pubkey(ZEROS)

  /** Every failure of the two programs, of the programs they call, and of the runtime. */
  datatype Error =
    // both programs
    | InvalidAuthority | ProgramPaused | MaxTokensSupported | TokenNotSupported | VersionMismatch
    | RemainingAccountsLengthMismatch | InvalidTransferSpecHashAccount | TransferSpecHashAlreadyUsed
    // wallet
    | AccountDenylisted | InvalidBurnSigner | BurnSignerLimitExceeded | InvalidDepositor
    | InvalidDepositAmount | InvalidWithdrawalAmount | InsufficientDepositBalance
    | NoWithdrawalInProgress | WithdrawalDelayNotElapsed | InvalidWithdrawalDelay
    | InvalidDelegate | CannotDelegateToSelf | MalformedBurnData | InvalidBurnIntentMessagePrefix
    | InvalidBurnIntentValue | BurnIntentMagicMismatch | BurnIntentLengthMismatch
    | TransferSpecMagicMismatch | InvalidU64HighBytes | InvalidBurnSignerSignature
    | BurnSignerNotAuthorized | BurnIntentExpired | BurnFeeExceedsMaxFee | SourceDomainMismatch
    | SourceContractMismatch | SourceTokenMismatch | SourceDepositorMismatch
    | InvalidBalanceReductionAmount | InsufficientCustodyBalance
    | PreviousInstructionNotEd25519Program | InvalidEd25519InstructionData
    | InvalidDelegateAccount | DelegateDepositorMismatch | DelegateSignerMismatch
    | DelegateSignerNotAuthorized
    // minter
    | InvalidPauser | InvalidDenylister | InvalidTokenController
    | InvalidAttester | AttesterLimitExceeded | InvalidBurnAmount | MalformedMintAttestation
    | AttestationMagicMismatch | AttestationTooShort | AttestationTooLong | EmptyAttestationSet
    | InvalidAttesterSignature | AttestationExpired | InvalidAttestationValue
    | DestinationDomainMismatch | DestinationContractMismatch | DestinationTokenMismatch
    | DestinationCallerMismatch | DestinationRecipientMismatch | InvalidCustodyTokenAccount
    | InvalidDestinationTokenAccount
    // account constraints, the runtime, the token program and the system program
    | ConstraintViolated | MissingSignature | ArithmeticOverflow | IndexOutOfBounds
    | InsufficientFunds | MintMismatch | OwnerMismatch | TokenOverflow
    | AccountAlreadyInUse | InsufficientLamports | NotPermitted

  datatype Option<+T> = None | Some(value: T)

  datatype Result<+T> = Ok(value: T) | Err(error: Error) {
    predicate IsFailure() {
      Err?
    }

    function PropagateFailure<U>(): Result<U>
      requires Err?
    {
      Err(error)
    }

    function Extract(): T
      requires Ok?
    {
      value
    }
  }

  /** The `require!` family: the error unless the condition holds. */
  function Require(condition: bool, error: Error): Result<()> {
    if condition then Ok(()) else Err(error)
  }

  /** Addition under the release profile's overflow checks: it aborts past the width. */
  function AddU64(a: u64, b: u64): Result<u64> {
    if a + b <= U64_MAX then Ok(a + b) else Err(ArithmeticOverflow)
  }

  /** Indexing a slice: it aborts out of bounds. */
  function Slice(data: Bytes, start: nat, end: nat): Result<Bytes> {
    if start <= end <= |data| then Ok(data[start..end]) else Err(IndexOutOfBounds)
  }

  // ---------- big-endian and little-endian integers ----------

  function Pow256(k: nat): nat {
    if k == 0 then 1 else 256 * Pow256(k - 1)
  }

  lemma Widths()
    ensures Pow256(2) == U16_MAX + 1 && Pow256(4) == U32_MAX + 1 && Pow256(8) == U64_MAX + 1
  {
    assert Pow256(2) == 256 * Pow256(1);
    assert Pow256(4) == 256 * Pow256(3) == 65536 * Pow256(2);
    assert Pow256(6) == 256 * Pow256(5) == 65536 * Pow256(4);
    assert Pow256(8) == 256 * Pow256(7) == 65536 * Pow256(6);
  }

  /** The low k bytes of n, most significant first; this is also what `as u32` keeps. */
  function ToBE(n: nat, k: nat): (s: Bytes)
    ensures |s| == k
  {
    if k == 0 then [] else ToBE(n / 256, k - 1) + [n % 256]
  }

  function FromBE(s: Bytes): nat {
    if s == [] then 0 else FromBE(s[..|s| - 1]) * 256 + s[|s| - 1]
  }

  lemma {:induction false} FromToBE(n: nat, k: nat)
    requires n < Pow256(k)
    ensures FromBE(ToBE(n, k)) == n
  {
    if k == 0 {
    } else {
      FromToBE(n / 256, k - 1);
      assert ToBE(n, k)[..k - 1] == ToBE(n / 256, k - 1);
    }
  }

  /** Four bytes hold a 32-bit number, most significant first. */
  lemma BigEndian32(n: u32)
    ensures ToBE(n, 4) == [n / 0x1000000, n / 0x10000 % 256, n / 256 % 256, n % 256]
  {
    assert ToBE(n, 4) == ToBE(n / 256, 3) + [n % 256];
    assert ToBE(n / 256, 3) == ToBE(n / 256 / 256, 2) + [n / 256 % 256];
    assert ToBE(n / 256 / 256, 2) == ToBE(n / 256 / 256 / 256, 1) + [n / 256 / 256 % 256];
    assert ToBE(n / 256 / 256 / 256, 1) == ToBE(n / 256 / 256 / 256 / 256, 0) + [n / 256 / 256 / 256 % 256];
  }

  lemma {:induction false} ToFromBE(s: Bytes)
    ensures FromBE(s) < Pow256(|s|)
    ensures ToBE(FromBE(s), |s|) == s
  {
    if s == [] {
    } else {
      ToFromBE(s[..|s| - 1]);
      assert s[..|s| - 1] + [s[|s| - 1]] == s;
    }
  }

  function U32At(data: Bytes, offset: nat): (n: u32)
    requires offset + 4 <= |data|
  {
    Widths();
    ToFromBE(data[offset..offset + 4]);
    FromBE(data[offset..offset + 4])
  }

  lemma U32Bytes(data: Bytes, offset: nat)
    requires offset + 4 <= |data|
    ensures var n := U32At(data, offset);
            data[offset..offset + 4] == [n / 0x1000000, n / 0x10000 % 256, n / 256 % 256, n % 256]
  {
    ToFromBE(data[offset..offset + 4]);
    BigEndian32(U32At(data, offset));
  }

  function U64At(data: Bytes, offset: nat): (n: u64)
    requires offset + 8 <= |data|
  {
    Widths();
    ToFromBE(data[offset..offset + 8]);
    FromBE(data[offset..offset + 8])
  }

  function ToLE(n: nat, k: nat): (s: Bytes)
    ensures |s| == k
  {
    if k == 0 then [] else [n % 256] + ToLE(n / 256, k - 1)
  }

  function FromLE(s: Bytes): nat {
    if s == [] then 0 else s[0] + 256 * FromLE(s[1..])
  }

  lemma {:induction false} FromToLE(n: nat, k: nat)
    requires n < Pow256(k)
    ensures FromLE(ToLE(n, k)) == n
  {
    if k == 0 {
    } else {
      FromToLE(n / 256, k - 1);
      assert ToLE(n, k)[1..] == ToLE(n / 256, k - 1);
    }
  }

  lemma {:induction false} ToFromLE(s: Bytes)
    ensures FromLE(s) < Pow256(|s|)
    ensures ToLE(FromLE(s), |s|) == s
  {
    if s == [] {
    } else {
      ToFromLE(s[1..]);
      assert [s[0]] + s[1..] == s;
    }
  }
}
