/** The wallet program as a function on its whole state: one step for every instruction
    (programs/gateway-wallet). */
module Wallet {
  import opened Base
  import opened Runtime
  import opened Tokens
  import opened UsedHashes
  import opened Registry
  import opened BurnData
  import opened Ed25519

  const USED_DISCRIMINATOR: Bytes := [21, 4]

  // ---------- accounts ----------

  datatype Key = Key(mint: Pubkey, depositor: Pubkey)

  datatype Deposit = Deposit(
    bump: byte, depositor: Pubkey, mint: Pubkey, available: u64, withdrawing: u64, withdrawalBlock: u64)

  /** A freshly created deposit account, before `initialize_if_needed`. */
  const BLANK := Deposit(0, DEFAULT_PUBKEY, DEFAULT_PUBKEY, 0, 0, 0)

  datatype DelegateStatus = Unauthorized | Authorized | Revoked

  datatype DelegateKey = DelegateKey(mint: Pubkey, depositor: Pubkey, delegate: Pubkey)

  datatype Delegate = Delegate(status: DelegateStatus, token: Pubkey, depositor: Pubkey, delegate: Pubkey)

  datatype Config = Config(
    owner: Pubkey, pendingOwner: Pubkey, pauser: Pubkey, denylister: Pubkey, tokenController: Pubkey,
    feeRecipient: Pubkey,
    localDomain: u32, version: u32, withdrawalDelay: u64, paused: bool,
    supportedTokens: seq<Pubkey>, bumps: seq<byte>, burnSigners: seq<Pubkey>)

  datatype Event =
    | Deposited(key: Key, sender: Pubkey, value: u64)
    | WithdrawalInitiated(key: Key, value: u64, remainingAvailable: u64, totalWithdrawing: u64, withdrawalBlock: u64)
    | WithdrawalCompleted(key: Key, value: u64)
    | GatewayBurned(key: Key, specHash: Bytes32, destinationDomain: u32, destinationRecipient: Pubkey, signer: Pubkey,
                    value: u64, fee: u64, fromAvailable: u64, fromWithdrawing: u64)
    | InsufficientBalance(key: Key, value: u64, availableBalance: u64, withdrawingBalance: u64)
    | DelegateAdded(delegate: DelegateKey)
    | DelegateRemoved(delegate: DelegateKey)
    | Denylisted(addr: Pubkey)
    | UnDenylisted(addr: Pubkey)
    | WithdrawalDelayChanged(oldDelay: u64, newDelay: u64)
    | Administered

  /** An event with the slot it was emitted in and the withdrawal delay then in force. */
  datatype Entry = Entry(slot: u64, delay: u64, event: Event)

  datatype State = State(
    cfg: Config, deposits: map<Key, Deposit>, delegates: map<DelegateKey, Delegate>, denylist: set<Pubkey>,
    tokens: TokenMap, accounts: Accounts, slot: u64, log: seq<Entry>)

  function Emit(st: State, e: Event): State {
    st.(log := st.log + [Entry(st.slot, st.cfg.withdrawalDelay, e)])
  }

  // ---------- account constraints ----------

  /** The program only signs for its own account inside calls it makes, so that account signs no instruction. */
  function SignedBy(env: Env, signer: Pubkey): Result<()> {
    Require(signer != env.statePda, MissingSignature)
  }

  /** The custody account of a supported mint, by its stored bump. */
  function CustodyOf(env: Env, cfg: Config, mint: Pubkey): Result<Pubkey> {
    var bump :- BumpOf(cfg.supportedTokens, cfg.bumps, mint);
    match env.custodyPda(mint, bump)
    case None => Err(ConstraintViolated)
    case Some(k) => Ok(k)
  }

  /** The custody constraints; the result is the account's mint. */
  function CheckCustody(env: Env, cfg: Config, tokens: TokenMap, custody: Pubkey): Result<Pubkey> {
    var _ :- Require(custody in tokens, ConstraintViolated);
    var expected :- CustodyOf(env, cfg, tokens[custody].mint);
    var _ :- Require(expected == custody && tokens[custody].owner == env.statePda, ConstraintViolated);
    Ok(tokens[custody].mint)
  }

  predicate IsTokenAccount(tokens: TokenMap, k: Pubkey, mint: Pubkey, owner: Pubkey) {
    k in tokens && tokens[k].mint == mint && tokens[k].owner == owner
  }

  /** The seed constraint of an existing deposit account: its own fields derive its address. */
  function LoadDeposit(env: Env, deposits: map<Key, Deposit>, key: Key): Result<Deposit> {
    var _ :- Require(key in deposits, ConstraintViolated);
    var d := deposits[key];
    var _ :- Require(d.mint == key.mint && d.bump == env.depositBump(key.mint, key.depositor), ConstraintViolated);
    Ok(d)
  }

  // ---------- deposits and withdrawals ----------

  function Initialized(d: Deposit, bump: byte, depositor: Pubkey, mint: Pubkey): Deposit {
    if d.bump == 0 then d.(bump := bump, depositor := depositor, mint := mint) else d
  }

  /** `deposit` (sender and depositor are one) and `deposit_for`. */
  function DepositStep(env: Env, st: State, owner: Pubkey, ownerToken: Pubkey, custody: Pubkey, depositor: Pubkey,
                       amount: u64, forOther: bool): Result<State>
  {
    var _ :- SignedBy(env, owner);
    var _ :- Require(!st.cfg.paused, ProgramPaused);
    var mint :- CheckCustody(env, st.cfg, st.tokens, custody);
    var _ :- Require(IsTokenAccount(st.tokens, ownerToken, mint, owner), ConstraintViolated);
    var _ :- Require(forOther ==> depositor != DEFAULT_PUBKEY, InvalidDepositor);
    var _ :- Require(owner !in st.denylist && depositor !in st.denylist, AccountDenylisted);
    var key := Key(mint, depositor);
    var blank := if key in st.deposits then st.deposits[key] else BLANK;
    var d := Initialized(blank, env.depositBump(mint, depositor), depositor, mint);
    var _ :- Require(amount > 0, InvalidDepositAmount);
    var tokens :- Transfer(st.tokens, ownerToken, custody, owner, amount);
    var available :- AddU64(d.available, amount);
    Ok(Emit(st.(deposits := st.deposits[key := d.(available := available)], tokens := tokens),
            Deposited(key, owner, amount)))
  }

  function InitiateWithdrawalStep(env: Env, st: State, depositor: Pubkey, mint: Pubkey, amount: u64): Result<State> {
    var _ :- SignedBy(env, depositor);
    var _ :- Require(!st.cfg.paused, ProgramPaused);
    var key := Key(mint, depositor);
    var d :- LoadDeposit(env, st.deposits, key);
    var _ :- Require(amount > 0, InvalidWithdrawalAmount);
    var _ :- Require(d.mint in st.cfg.supportedTokens, TokenNotSupported);
    var _ :- Require(amount <= d.available, InsufficientDepositBalance);
    var withdrawing :- AddU64(d.withdrawing, amount);
    var block :- AddU64(st.slot, st.cfg.withdrawalDelay);
    var d' := d.(available := d.available - amount, withdrawing := withdrawing, withdrawalBlock := block);
    Ok(Emit(st.(deposits := st.deposits[key := d']),
            WithdrawalInitiated(key, amount, d'.available, d'.withdrawing, d'.withdrawalBlock)))
  }

  function WithdrawStep(env: Env, st: State, depositor: Pubkey, mint: Pubkey, custody: Pubkey, depositorToken: Pubkey)
    : Result<State>
  {
    var _ :- SignedBy(env, depositor);
    var _ :- Require(!st.cfg.paused, ProgramPaused);
    var custodyMint :- CheckCustody(env, st.cfg, st.tokens, custody);
    var _ :- Require(IsTokenAccount(st.tokens, depositorToken, custodyMint, depositor), ConstraintViolated);
    var key := Key(mint, depositor);
    var d :- LoadDeposit(env, st.deposits, key);
    var _ :- Require(d.mint == custodyMint, ConstraintViolated);
    var _ :- Require(d.withdrawing > 0, NoWithdrawalInProgress);
    var _ :- Require(st.slot >= d.withdrawalBlock, WithdrawalDelayNotElapsed);
    var tokens :- Transfer(st.tokens, custody, depositorToken, env.statePda, d.withdrawing);
    Ok(Emit(st.(deposits := st.deposits[key := d.(withdrawing := 0, withdrawalBlock := 0)], tokens := tokens),
            WithdrawalCompleted(key, d.withdrawing)))
  }

  // ---------- burns ----------

  function Min(a: nat, b: nat): nat {
    if a < b then a else b
  }

  /** What a reduction by `value` takes from the two balances: available first. */
  function FromAvailable(d: Deposit, value: nat): nat {
    Min(d.available, value)
  }

  function FromWithdrawing(d: Deposit, value: nat): nat {
    Min(d.withdrawing, value - FromAvailable(d, value))
  }

  function Reduced(d: Deposit, value: nat): Deposit {
    d.(available := d.available - FromAvailable(d, value), withdrawing := d.withdrawing - FromWithdrawing(d, value))
  }

  /** `validate_signer_authorization`, on the record that the delegate account holds, if one was passed. */
  function ValidateSigner(signer: Pubkey, depositor: Pubkey, delegate: Option<Delegate>): Result<()> {
    if signer == depositor then Ok(())
    else
      match delegate
      case None => Err(InvalidDelegateAccount)
      case Some(g) =>
        var _ :- Require(g.depositor == depositor, DelegateDepositorMismatch);
        var _ :- Require(g.delegate == signer, DelegateSignerMismatch);
        Require(g.status != Unauthorized, DelegateSignerNotAuthorized)
  }

  /** The delegate account passed to a burn must exist at the address its own fields derive, under the mint. */
  function LoadDelegate(delegates: map<DelegateKey, Delegate>, mint: Pubkey,
                        key: Option<DelegateKey>): Result<Option<Delegate>> {
    match key
    case None => Ok(None)
    case Some(k) =>
      if k in delegates && k == DelegateKey(mint, delegates[k].depositor, delegates[k].delegate)
      then Ok(Some(delegates[k]))
      else Err(ConstraintViolated)
  }

  /** The accounts and arguments of `gateway_burn`; the deposit account is named by its key. */
  datatype BurnCall = BurnCall(
    payer: Pubkey, mint: Pubkey, custody: Pubkey, feeToken: Pubkey, deposit: Key, delegate: Option<DelegateKey>,
    remaining: seq<Pubkey>, sysvar: Sysvar, burnData: Bytes, burnSignature: Bytes)

  /** The account constraints of a burn; the result is the deposit and the delegate record. */
  function BurnAccounts(env: Env, st: State, c: BurnCall): Result<(Deposit, Option<Delegate>)> {
    var _ :- SignedBy(env, c.payer);
    var _ :- Require(!st.cfg.paused, ProgramPaused);
    var mint :- CheckCustody(env, st.cfg, st.tokens, c.custody);
    var _ :- Require(mint == c.mint, ConstraintViolated);
    var _ :- Require(c.feeToken == env.ata(st.cfg.feeRecipient, c.mint)
                     && IsTokenAccount(st.tokens, c.feeToken, c.mint, st.cfg.feeRecipient), ConstraintViolated);
    var _ :- Require(c.deposit in st.deposits, ConstraintViolated);
    var d := st.deposits[c.deposit];
    var _ :- Require(c.deposit == Key(c.mint, d.depositor) && d.bump == env.depositBump(c.mint, d.depositor),
                     ConstraintViolated);
    var g :- LoadDelegate(st.delegates, c.mint, c.delegate);
    Ok((d, g))
  }

  /** What a burn takes from the burn data once every field has been checked. */
  datatype Terms = Terms(
    hashAccount: Pubkey, specHash: Bytes32, value: u64, fee: u64,
    destinationDomain: u32, destinationRecipient: Pubkey, signer: Pubkey)

  type BurnTerms = t: Terms | t.value + t.fee <= U64_MAX
    witness Terms(DEFAULT_PUBKEY, ZEROS, 0, 0, 0, DEFAULT_PUBKEY, DEFAULT_PUBKEY)

  /** The checks on the burn data, in the order of the handler. */
  function BurnChecks(env: Env, st: State, c: BurnCall, d: Deposit, g: Option<Delegate>): Result<BurnTerms> {
    var recovered := RecoveredSigner(env, c.burnData, c.burnSignature);
    var _ :- Require(recovered.Some?, InvalidBurnSignerSignature);
    var _ :- Require(recovered.value in st.cfg.burnSigners, BurnSignerNotAuthorized);
    var b :- New(c.burnData);
    var messageLength :- b.BurnIntentMessageLength();
    var _ :- VerifyUserSignature(env, c.sysvar, messageLength);
    var version :- b.Version();
    var _ :- Require(version == st.cfg.version, VersionMismatch);
    var maxBlockHeight :- b.MaxBlockHeight();
    var _ :- Require(maxBlockHeight >= st.slot, BurnIntentExpired);
    var sourceDomain :- b.SourceDomain();
    var _ :- Require(sourceDomain == st.cfg.localDomain, SourceDomainMismatch);
    var sourceContract :- b.SourceContract();
    var _ :- Require(sourceContract == env.programId, SourceContractMismatch);
    var sourceToken :- b.SourceToken();
    var _ :- Require(sourceToken == c.mint, SourceTokenMismatch);
    var sourceDepositor :- b.SourceDepositor();
    var _ :- Require(sourceDepositor == d.depositor, SourceDepositorMismatch);
    var signer :- b.SourceSigner();
    var _ :- ValidateSigner(signer, sourceDepositor, g);
    var maxFee :- b.MaxFee();
    var fee :- b.Fee();
    var _ :- Require(maxFee >= fee, BurnFeeExceedsMaxFee);
    var value :- b.Value();
    var total :- AddU64(value, fee);
    var _ :- Require(c.custody in st.tokens && st.tokens[c.custody].amount >= total, InsufficientCustodyBalance);
    var _ :- Require(|c.remaining| == 1, RemainingAccountsLengthMismatch);
    var spec :- b.EncodedTransferSpec();
    var destinationDomain :- b.DestinationDomain();
    var destinationRecipient :- b.DestinationRecipient();
    Ok(Terms(c.remaining[0], env.keccak(spec), value, fee, destinationDomain, destinationRecipient, signer))
  }

  /** The part of a reduction that goes to the fee recipient: what is left once the value is covered. */
  function FeeCharged(deducted: nat, value: nat): nat {
    if deducted > value then deducted - value else 0
  }

  /** The fee transfer, when there is one, then the burn of the rest. */
  function MoveBurn(env: Env, tokens: TokenMap, c: BurnCall, fee: u64, burned: u64): Result<TokenMap> {
    var t :- if fee > 0 then Transfer(tokens, c.custody, c.feeToken, env.statePda, fee) else Ok(tokens);
    Burn(t, c.mint, c.custody, env.statePda, burned)
  }

  /** The effects of a burn whose checks have passed. */
  function BurnEffects(env: Env, st: State, c: BurnCall, d: Deposit, t: BurnTerms): Result<State> {
    var accounts :- ProcessHash(env, st.accounts, c.payer, t.hashAccount, t.specHash, USED_DISCRIMINATOR);
    var total: u64 := t.value + t.fee;
    var _ :- Require(total > 0, InvalidBalanceReductionAmount);
    var fromAvailable, fromWithdrawing := FromAvailable(d, total), FromWithdrawing(d, total);
    var deducted := fromAvailable + fromWithdrawing;
    var fee := FeeCharged(deducted, t.value);
    var tokens :- MoveBurn(env, st.tokens, c, fee, deducted - fee);
    var st1 := st.(deposits := st.deposits[c.deposit := Reduced(d, total)], tokens := tokens, accounts := accounts);
    var st2 := if deducted < total
      then Emit(st1, InsufficientBalance(c.deposit, total, fromAvailable, fromWithdrawing)) else st1;
    Ok(Emit(st2, GatewayBurned(c.deposit, t.specHash, t.destinationDomain, t.destinationRecipient, t.signer,
                               deducted - fee, fee, fromAvailable, fromWithdrawing)))
  }

  function BurnStep(env: Env, st: State, c: BurnCall): Result<State> {
    var a :- BurnAccounts(env, st, c);
    var t :- BurnChecks(env, st, c, a.0, a.1);
    BurnEffects(env, st, c, a.0, t)
  }

  // ---------- delegates ----------

  function AddDelegateStep(env: Env, st: State, depositor: Pubkey, mint: Pubkey, delegate: Pubkey): Result<State> {
    var _ :- SignedBy(env, depositor);
    var _ :- Require(!st.cfg.paused, ProgramPaused);
    var _ :- Require(delegate != DEFAULT_PUBKEY, InvalidDelegate);
    var _ :- Require(delegate != depositor, CannotDelegateToSelf);
    var _ :- Require(depositor !in st.denylist && delegate !in st.denylist, AccountDenylisted);
    var _ :- Require(mint in st.cfg.supportedTokens, TokenNotSupported);
    var k := DelegateKey(mint, depositor, delegate);
    Ok(Emit(st.(delegates := st.delegates[k := Delegate(Authorized, mint, depositor, delegate)]), DelegateAdded(k)))
  }

  function RemoveDelegateStep(env: Env, st: State, depositor: Pubkey, mint: Pubkey, delegate: Pubkey): Result<State> {
    var _ :- SignedBy(env, depositor);
    var _ :- Require(!st.cfg.paused, ProgramPaused);
    var k := DelegateKey(mint, depositor, delegate);
    var _ :- Require(k in st.delegates, ConstraintViolated);
    var _ :- Require(delegate != DEFAULT_PUBKEY, InvalidDelegate);
    var _ :- Require(depositor !in st.denylist, AccountDenylisted);
    var _ :- Require(mint in st.cfg.supportedTokens, TokenNotSupported);
    var g := st.delegates[k];
    if g.status == Unauthorized || g.status == Revoked then Ok(st)
    else Ok(Emit(st.(delegates := st.delegates[k := g.(status := Revoked)]), DelegateRemoved(k)))
  }

  // ---------- administration ----------

  /** The role setters and the two steps of an ownership transfer. */
  datatype RoleChange =
    | SetPauser(pauser: Pubkey)
    | SetDenylister(denylister: Pubkey)
    | SetTokenController(tokenController: Pubkey)
    | TransferOwnership(newOwner: Pubkey)
    | AcceptOwnership

  function RoleEffect(cfg: Config, c: RoleChange): Result<Config> {
    match c
    case SetPauser(x) =>
      var _ :- Require(x != DEFAULT_PUBKEY, InvalidPauser);
      Ok(cfg.(pauser := x))
    case SetDenylister(x) =>
      var _ :- Require(x != DEFAULT_PUBKEY, InvalidDenylister);
      Ok(cfg.(denylister := x))
    case SetTokenController(x) =>
      var _ :- Require(x != DEFAULT_PUBKEY, InvalidTokenController);
      Ok(cfg.(tokenController := x))
    case TransferOwnership(x) => Ok(cfg.(pendingOwner := x))
    case AcceptOwnership => Ok(cfg.(owner := cfg.pendingOwner, pendingOwner := DEFAULT_PUBKEY))
  }

  datatype Admin =
    | Pause
    | Unpause
    | DenylistAccount(account: Pubkey)
    | UndenylistAccount(account: Pubkey)
    | UpdateWithdrawalDelay(newDelay: u64)
    | AddSupportedToken(mint: Pubkey)
    | AddBurnSigner(burnSigner: Pubkey)
    | RemoveBurnSigner(burnSigner: Pubkey)
    | UpdateFeeRecipient(recipient: Pubkey)
    | UpdateRole(change: RoleChange)

  function AuthorityOf(cfg: Config, a: Admin): Pubkey {
    match a
    case Pause | Unpause => cfg.pauser
    case DenylistAccount(_) | UndenylistAccount(_) => cfg.denylister
    case AddSupportedToken(_) => cfg.tokenController
    case UpdateRole(c) => if c == AcceptOwnership then cfg.pendingOwner else cfg.owner
    case _ => cfg.owner
  }

  /** `add_token`: creates the custody account if it does not exist, then extends the lists. */
  function AddTokenEffect(env: Env, st: State, mint: Pubkey): Result<State> {
    var bump := env.custodyBump(mint);
    var pda := env.custodyPda(mint, bump);
    var _ :- Require(pda.Some?, ConstraintViolated);
    var k := pda.value;
    var _ :- Require(k in st.tokens ==> IsTokenAccount(st.tokens, k, mint, env.statePda), ConstraintViolated);
    var tokens := if k in st.tokens then st.tokens else st.tokens[k := TokenAccount(mint, env.statePda, 0)];
    var lists :- Registry.AddToken(st.cfg.supportedTokens, st.cfg.bumps, mint, bump);
    Ok(st.(tokens := tokens, cfg := st.cfg.(supportedTokens := lists.0, bumps := lists.1)))
  }

  /** What an administrative instruction changes. */
  function AdminEffect(env: Env, st: State, a: Admin): Result<State> {
    match a
    case Pause => Ok(st.(cfg := st.cfg.(paused := true)))
    case Unpause => Ok(st.(cfg := st.cfg.(paused := false)))
    case DenylistAccount(x) => Ok(st.(denylist := st.denylist + {x}))
    case UndenylistAccount(x) =>
      var _ :- Require(x in st.denylist, ConstraintViolated);
      Ok(st.(denylist := st.denylist - {x}))
    case UpdateWithdrawalDelay(d) =>
      var _ :- Require(d > 0, InvalidWithdrawalDelay);
      Ok(st.(cfg := st.cfg.(withdrawalDelay := d)))
    case AddSupportedToken(m) => AddTokenEffect(env, st, m)
    case AddBurnSigner(s) =>
      var _ :- Require(s != DEFAULT_PUBKEY, InvalidBurnSigner);
      var signers :- AddSigner(st.cfg.burnSigners, s, BurnSignerLimitExceeded);
      Ok(st.(cfg := st.cfg.(burnSigners := signers)))
    case RemoveBurnSigner(s) =>
      Ok(st.(cfg := st.cfg.(burnSigners := RemoveSigner(st.cfg.burnSigners, s))))
    case UpdateFeeRecipient(r) =>
      var _ :- Require(r != DEFAULT_PUBKEY, InvalidAuthority);
      Ok(st.(cfg := st.cfg.(feeRecipient := r)))
    case UpdateRole(c) =>
      var cfg :- RoleEffect(st.cfg, c);
      Ok(st.(cfg := cfg))
  }

  /** What an administrative instruction reports. */
  function AdminEvent(st: State, a: Admin): Event {
    match a
    case DenylistAccount(x) => Denylisted(x)
    case UndenylistAccount(x) => UnDenylisted(x)
    case UpdateWithdrawalDelay(d) => WithdrawalDelayChanged(st.cfg.withdrawalDelay, d)
    case _ => Administered
  }

  function AdminStep(env: Env, st: State, signer: Pubkey, a: Admin): Result<State> {
    var _ :- SignedBy(env, signer);
    var _ :- Require(signer == AuthorityOf(st.cfg, a), InvalidAuthority);
    var st' :- AdminEffect(env, st, a);
    Ok(Emit(st', AdminEvent(st, a)))
  }

  // ---------- instructions, transactions and runs ----------

  datatype Call =
    | DepositCall(owner: Pubkey, ownerToken: Pubkey, custody: Pubkey, amount: u64)
    | DepositForCall(owner: Pubkey, ownerToken: Pubkey, custody: Pubkey, amount: u64, depositor: Pubkey)
    | InitiateWithdrawalCall(depositor: Pubkey, mint: Pubkey, amount: u64)
    | WithdrawCall(depositor: Pubkey, mint: Pubkey, custody: Pubkey, depositorToken: Pubkey)
    | GatewayBurnCall(burn: BurnCall)
    | AddDelegateCall(depositor: Pubkey, mint: Pubkey, delegate: Pubkey)
    | RemoveDelegateCall(depositor: Pubkey, mint: Pubkey, delegate: Pubkey)
    | AdminCall(signer: Pubkey, admin: Admin)

  function Step(env: Env, st: State, c: Call): Result<State> {
    match c
    case DepositCall(owner, ownerToken, custody, amount) =>
      DepositStep(env, st, owner, ownerToken, custody, owner, amount, false)
    case DepositForCall(owner, ownerToken, custody, amount, depositor) =>
      DepositStep(env, st, owner, ownerToken, custody, depositor, amount, true)
    case InitiateWithdrawalCall(depositor, mint, amount) => InitiateWithdrawalStep(env, st, depositor, mint, amount)
    case WithdrawCall(depositor, mint, custody, depositorToken) =>
      WithdrawStep(env, st, depositor, mint, custody, depositorToken)
    case GatewayBurnCall(b) => BurnStep(env, st, b)
    case AddDelegateCall(depositor, mint, delegate) => AddDelegateStep(env, st, depositor, mint, delegate)
    case RemoveDelegateCall(depositor, mint, delegate) => RemoveDelegateStep(env, st, depositor, mint, delegate)
    case AdminCall(signer, a) => AdminStep(env, st, signer, a)
  }

  /** A transaction: a failing instruction leaves no trace. */
  function Transact(env: Env, st: State, c: Call): State {
    match Step(env, st, c)
    case Ok(st') => st'
    case Err(_) => st
  }

  /** What everyone else can do between two instructions: tokens and lamports move and time passes, but nobody
      debits the program's token accounts, touches the data of its accounts, or forges a used-hash account. */
  ghost predicate OutsideOk(env: Env, st: State, tokens: TokenMap, accounts: Accounts, slot: u64) {
    && st.slot <= slot
    && (forall k :: k in st.tokens && st.tokens[k].owner == env.statePda ==>
         k in tokens && tokens[k].mint == st.tokens[k].mint && tokens[k].owner == env.statePda
         && tokens[k].amount >= st.tokens[k].amount)
    && (forall mint :: Supply(tokens, mint) <= U64_MAX)
    && KeepsOwned(env, st.accounts, accounts) && UsedAreOwned(env, accounts, USED_DISCRIMINATOR)
  }

  datatype Action =
    | Program(call: Call)
    | Outside(tokens: TokenMap, accounts: Accounts, slot: u64)

  ghost function Apply(env: Env, st: State, a: Action): State {
    match a
    case Program(c) => Transact(env, st, c)
    case Outside(tokens, accounts, slot) =>
      if OutsideOk(env, st, tokens, accounts, slot) then st.(tokens := tokens, accounts := accounts, slot := slot)
        else st
  }

  ghost function Run(env: Env, st: State, actions: seq<Action>): State {
    if actions == [] then st else Apply(env, Run(env, st, actions[..|actions| - 1]), actions[|actions| - 1])
  }

  /** A state right after `initialize`, on a chain whose mints have at most 2^64 - 1 units. */
  ghost predicate Initial(env: Env, st: State) {
    && st.cfg.withdrawalDelay > 0 && !st.cfg.paused
    && st.cfg.supportedTokens == [] && st.cfg.bumps == [] && st.cfg.burnSigners == []
    && st.deposits == map[] && st.delegates == map[] && st.denylist == {} && st.log == []
    && (forall mint :: Supply(st.tokens, mint) <= U64_MAX)
    && UsedAreOwned(env, st.accounts, USED_DISCRIMINATOR)
  }

  ghost predicate Reachable(env: Env, st: State) {
    exists st0, actions :: Initial(env, st0) && st == Run(env, st0, actions)
  }
}
