/** The used-transfer-spec-hash accounts that both programs mark to prevent replay (shared/src/lib.rs). */
module UsedHashes {
  import opened Base
  import opened Runtime

  const DISCRIMINATOR_SIZE := 2

  /** The system program's id is the all-zero key. */
  const SYSTEM_PROGRAM: Pubkey := DEFAULT_PUBKEY

  datatype Account = Account(lamports: u64, owner: Pubkey, data: Bytes)

  /** An account nobody has funded yet. */
  const ABSENT := Account(0, SYSTEM_PROGRAM, [])

  predicate IsUsed(data: Bytes, discriminator: Bytes) {
    |data| >= DISCRIMINATOR_SIZE && data[..DISCRIMINATOR_SIZE] == discriminator
  }

  predicate Vacant(a: Account) {
    a.owner == SYSTEM_PROGRAM && a.data == []
  }

  function Shortfall(a: Account, rent: u64): nat {
    if a.lamports < rent then rent - a.lamports else 0
  }

  /** A payer can be debited by the system program when it is a plain account with the funds. */
  predicate CanPay(payer: Account, amount: nat) {
    amount == 0 || (Vacant(payer) && payer.lamports >= amount)
  }

  function Marked(a: Account, rent: u64, programId: Pubkey, discriminator: Bytes): Account {
    Account(if a.lamports < rent then rent else a.lamports, programId, discriminator)
  }

  /** What creating and marking an account does to (hash account, payer). */
  function Mark(a: Account, payer: Account, rent: u64, programId: Pubkey, discriminator: Bytes)
    : Result<(Account, Account)>
  {
    if a.lamports == 0 && !Vacant(a) then Err(AccountAlreadyInUse)
    else if !CanPay(payer, Shortfall(a, rent)) then Err(InsufficientLamports)
    else if !Vacant(a) then Err(AccountAlreadyInUse)
    else
      Ok((Marked(a, rent, programId, discriminator), payer.(lamports := payer.lamports - Shortfall(a, rent))))
  }

  /** A runtime account that instruction handlers update in place. */
  class AccountInfo {
    var lamports: u64
    var owner: Pubkey
    var data: Bytes

    constructor (a: Account)
      ensures Value() == a
    {
      lamports, owner, data := a.lamports, a.owner, a.data;
    }

    function Value(): Account
      reads this
    {
      Account(lamports, owner, data)
    }
  }

  /** `system_program::transfer`. */
  method SystemTransfer(from: AccountInfo, to: AccountInfo, amount: u64) returns (r: Result<()>)
    requires from != to
    requires to.lamports + amount <= U64_MAX
    modifies from`lamports, to`lamports
    ensures r == (if CanPay(old(from.Value()), amount) then Ok(()) else Err(InsufficientLamports))
    ensures from.lamports == old(from.lamports) - (if r.Ok? then amount else 0)
    ensures to.lamports == old(to.lamports) + (if r.Ok? then amount else 0)
  {
    if !CanPay(from.Value(), amount) {
      return Err(InsufficientLamports);
    }
    if amount > 0 {
      from.lamports := from.lamports - amount;
      to.lamports := to.lamports + amount;
    }
    return Ok(());
  }

  /** `system_program::allocate`: only a vacant account can be given space. */
  method SystemAllocate(a: AccountInfo, space: nat) returns (r: Result<()>)
    modifies a`data
    ensures r == (if Vacant(old(a.Value())) then Ok(()) else Err(AccountAlreadyInUse))
    ensures a.data == if r.Ok? then seq(space, _ => 0) else old(a.data)
  {
    if !Vacant(a.Value()) {
      return Err(AccountAlreadyInUse);
    }
    a.data := seq(space, _ => 0);
    return Ok(());
  }

  /** Creates or tops up, allocates and assigns the account, then writes the discriminator.
      The payer signs and the hash account is a derived address, so they are never the same account. */
  method CreateUsedTransferSpecHashAccount(
    hashAccount: AccountInfo, payer: AccountInfo, rent: u64, programId: Pubkey, discriminator: Bytes
  ) returns (r: Result<()>)
    requires hashAccount != payer
    requires |discriminator| == DISCRIMINATOR_SIZE
    modifies hashAccount, payer
    ensures match Mark(old(hashAccount.Value()), old(payer.Value()), rent, programId, discriminator)
            case Ok(pair) => r == Ok(()) && hashAccount.Value() == pair.0 && payer.Value() == pair.1
            case Err(e) => r == Err(e)
  {
    var currentLamports := hashAccount.lamports;
    if currentLamports == 0 {
      // system_program::create_account
      if !Vacant(hashAccount.Value()) {
        return Err(AccountAlreadyInUse);
      }
      var _ :- SystemTransfer(payer, hashAccount, rent);
      hashAccount.data := seq(DISCRIMINATOR_SIZE, _ => 0);
      hashAccount.owner := programId;
    } else {
      if currentLamports < rent {
        var _ :- SystemTransfer(payer, hashAccount, rent - currentLamports);
      }
      var _ :- SystemAllocate(hashAccount, DISCRIMINATOR_SIZE);
      // system_program::assign
      hashAccount.owner := programId;
    }
    hashAccount.data := discriminator + hashAccount.data[DISCRIMINATOR_SIZE..];
    return Ok(());
  }

  /** Marking succeeds exactly on a vacant account with a payer able to cover the shortfall; then the account
      is owned, used and rent exempt at max(old, rent), and the pair's lamports are conserved. */
  lemma MarkLifeCycle(a: Account, payer: Account, rent: u64, programId: Pubkey, discriminator: Bytes)
    requires |discriminator| == DISCRIMINATOR_SIZE
    ensures var r := Mark(a, payer, rent, programId, discriminator);
            && (r.Ok? <==>
                 && a.owner == Pubkey(ZEROS) && a.data == []
                 && (a.lamports >= rent
                     || (payer.owner == Pubkey(ZEROS) && payer.data == [] && payer.lamports >= rent - a.lamports)))
            && (r.Ok? ==>
                 && r.value.0.data == discriminator && IsUsed(r.value.0.data, discriminator)
                 && r.value.0.owner == programId
                 && r.value.0.lamports >= rent && r.value.0.lamports >= a.lamports
                 && (r.value.0.lamports == rent || r.value.0.lamports == a.lamports)
                 && r.value.0.lamports + r.value.1.lamports == a.lamports + payer.lamports
                 && r.value.1.owner == payer.owner && r.value.1.data == payer.data)
            && (programId != SYSTEM_PROGRAM && r.Ok? ==>
                 forall p, n, d :: Mark(r.value.0, p, n, programId, d).Err?)
  {
    assert discriminator[..DISCRIMINATOR_SIZE] == discriminator;
  }

  // ---------- the accounts of the chain ----------

  type Accounts = map<Pubkey, Account>

  function Get(accounts: Accounts, key: Pubkey): Account {
    if key in accounts then accounts[key] else ABSENT
  }

  /** The check and the marking of one transfer spec hash; a signer is never a derived address. */
  function ProcessHash(env: Env, accounts: Accounts, payer: Pubkey, key: Pubkey, specHash: Bytes32,
                       discriminator: Bytes)
    : Result<Accounts>
  {
    if env.usedPda(specHash) != key then Err(InvalidTransferSpecHashAccount)
    else if payer == key then Err(MissingSignature)
    else if IsUsed(Get(accounts, key).data, discriminator) then Err(TransferSpecHashAlreadyUsed)
    else
      match Mark(Get(accounts, key), Get(accounts, payer), env.rent, env.programId, discriminator)
      case Err(e) => Err(e)
      case Ok(pair) => Ok(accounts[key := pair.0][payer := pair.1])
  }

  predicate HashUsed(env: Env, accounts: Accounts, specHash: Bytes32, discriminator: Bytes) {
    IsUsed(Get(accounts, env.usedPda(specHash)).data, discriminator)
  }

  /** Later states of the accounts: what the program owns keeps its owner and its data. */
  ghost predicate KeepsOwned(env: Env, accounts: Accounts, accounts': Accounts) {
    forall k :: k in accounts && accounts[k].owner == env.programId ==>
      k in accounts' && accounts'[k].owner == env.programId && accounts'[k].data == accounts[k].data
  }

  /** Every marked account belongs to the program: nobody else can write data at a derived address. */
  ghost predicate UsedAreOwned(env: Env, accounts: Accounts, discriminator: Bytes) {
    forall h: Bytes32 :: HashUsed(env, accounts, h, discriminator) ==>
      Get(accounts, env.usedPda(h)).owner == env.programId
  }

  /** Processing a hash marks an unused one, and leaves every used hash used. */
  lemma ProcessMarksOnce(env: Env, accounts: Accounts, payer: Pubkey, key: Pubkey, specHash: Bytes32,
                         discriminator: Bytes)
    requires |discriminator| == DISCRIMINATOR_SIZE
    requires ProcessHash(env, accounts, payer, key, specHash, discriminator).Ok?
    ensures var accounts' := ProcessHash(env, accounts, payer, key, specHash, discriminator).value;
            && !HashUsed(env, accounts, specHash, discriminator)
            && HashUsed(env, accounts', specHash, discriminator)
            && (forall h: Bytes32 :: HashUsed(env, accounts, h, discriminator) ==>
                HashUsed(env, accounts', h, discriminator))
            && (UsedAreOwned(env, accounts, discriminator) ==> UsedAreOwned(env, accounts', discriminator))
  {
    var accounts' := ProcessHash(env, accounts, payer, key, specHash, discriminator).value;
    assert discriminator[..DISCRIMINATOR_SIZE] == discriminator;
    assert accounts'[key].data == discriminator;
    forall k
      ensures k != key ==>
                Get(accounts', k).data == Get(accounts, k).data && Get(accounts', k).owner == Get(accounts, k).owner
    {
    }
  }

  /** What each failure to process a hash reports. */
  lemma HashErrors(env: Env, accounts: Accounts, payer: Pubkey, key: Pubkey, specHash: Bytes32, discriminator: Bytes)
    ensures var r := ProcessHash(env, accounts, payer, key, specHash, discriminator);
            r.Err? ==>
              match r.error
              case InvalidTransferSpecHashAccount => key != env.usedPda(specHash)
              case MissingSignature => key == payer
              case TransferSpecHashAlreadyUsed => HashUsed(env, accounts, specHash, discriminator)
              case AccountAlreadyInUse => !Vacant(Get(accounts, key))
              case InsufficientLamports =>
                Get(accounts, payer).lamports + Get(accounts, key).lamports < env.rent || !Vacant(Get(accounts, payer))
              case _ => false
  {
  }

  /** Used hashes stay used as long as the program's accounts keep their data. */
  lemma UsedStaysUsed(env: Env, accounts: Accounts, accounts': Accounts, specHash: Bytes32, discriminator: Bytes)
    requires UsedAreOwned(env, accounts, discriminator) && KeepsOwned(env, accounts, accounts')
    requires HashUsed(env, accounts, specHash, discriminator)
    ensures HashUsed(env, accounts', specHash, discriminator)
  {
    assert Get(accounts, env.usedPda(specHash)).owner == env.programId;
  }
}
