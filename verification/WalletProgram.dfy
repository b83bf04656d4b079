/** The wallet program in the form of its source: accounts whose fields methods update in place, token and system
    calls, and instruction handlers that run step by step; each is proved against the step function of Wallet.
    A failing handler may leave partial effects behind; `Execute` is the runtime's rollback around it. */
module WalletProgram {
  import opened Base
  import opened Runtime
  import opened Tokens
  import opened UsedHashes
  import opened ChainCalls
  import opened Registry
  import opened BurnData
  import opened Ed25519
  import opened Wallet
  import opened WalletSolvency

  /** A deposit account, loaded for the time of one instruction. */
  class GatewayDeposit {
    var bump: byte
    var depositor: Pubkey
    var tokenMint: Pubkey
    var availableAmount: u64
    var withdrawingAmount: u64
    var withdrawalBlock: u64

    constructor (d: Wallet.Deposit)
      ensures Value() == d
    {
      bump, depositor, tokenMint := d.bump, d.depositor, d.mint;
      availableAmount, withdrawingAmount, withdrawalBlock := d.available, d.withdrawing, d.withdrawalBlock;
    }

    function Value(): Wallet.Deposit
      reads this
    {
      Wallet.Deposit(bump, depositor, tokenMint, availableAmount, withdrawingAmount, withdrawalBlock)
    }

    method InitializeIfNeeded(newBump: byte, newDepositor: Pubkey, newMint: Pubkey)
      modifies this
      ensures Value() == Initialized(old(Value()), newBump, newDepositor, newMint)
    {
      if bump == 0 {
        bump := newBump;
        depositor := newDepositor;
        tokenMint := newMint;
      }
    }

    method Deposit(chain: Chain, from: Pubkey, to: Pubkey, authority: Pubkey, amount: u64) returns (r: Result<()>)
      modifies this`availableAmount, chain`tokens
      ensures amount == 0 ==> r == Err(InvalidDepositAmount)
      ensures amount > 0 ==>
                match Transfer(old(chain.tokens), from, to, authority, amount)
                case Err(e) => r == Err(e)
                case Ok(t) =>
                  if old(availableAmount) + amount > U64_MAX then r == Err(ArithmeticOverflow)
                  else r == Ok(()) && chain.tokens == t && availableAmount == old(availableAmount) + amount
    {
      var _ :- Require(amount > 0, InvalidDepositAmount);
      var _ :- chain.TransferTokens(from, to, authority, amount);
      availableAmount :- AddU64(availableAmount, amount);
      return Ok(());
    }

    /** The amount moves from available to withdrawing, and the deadline of the whole pending amount is set anew. */
    method InitiateWithdrawal(amount: u64, supported: bool, withdrawalDelay: u64, slot: u64)
      returns (r: Result<(u64, u64, u64)>)
      modifies this`availableAmount, this`withdrawingAmount, this`withdrawalBlock
      ensures r.Ok? <==> 0 < amount <= old(availableAmount) && supported
                         && old(withdrawingAmount) + amount <= U64_MAX && slot + withdrawalDelay <= U64_MAX
      ensures r.Ok? ==>
                && availableAmount == old(availableAmount) - amount
                && withdrawingAmount == old(withdrawingAmount) + amount
                && withdrawalBlock == slot + withdrawalDelay
                && r.value == (availableAmount, withdrawingAmount, withdrawalBlock)
      ensures r.Err? ==>
                r.error == if amount == 0 then InvalidWithdrawalAmount else if !supported then TokenNotSupported
                           else if amount > old(availableAmount) then InsufficientDepositBalance else ArithmeticOverflow
    {
      var _ :- Require(amount > 0, InvalidWithdrawalAmount);
      var _ :- Require(supported, TokenNotSupported);
      var _ :- Require(amount <= availableAmount, InsufficientDepositBalance);
      availableAmount := availableAmount - amount;
      withdrawingAmount :- AddU64(withdrawingAmount, amount);
      withdrawalBlock :- AddU64(slot, withdrawalDelay);
      return Ok((availableAmount, withdrawingAmount, withdrawalBlock));
    }

    /** The pending amount is paid out from custody and the record's pending fields are cleared. */
    method CompleteWithdrawal(chain: Chain, from: Pubkey, to: Pubkey, authority: Pubkey) returns (r: Result<u64>)
      modifies this`withdrawingAmount, this`withdrawalBlock, chain`tokens
      ensures withdrawingAmount == 0 && withdrawalBlock == 0
      ensures match Transfer(old(chain.tokens), from, to, authority, old(withdrawingAmount))
              case Err(e) => r == Err(e)
              case Ok(t) => r == Ok(old(withdrawingAmount)) && chain.tokens == t
    {
      var withdrawalAmount := withdrawingAmount;
      withdrawingAmount := 0;
      withdrawalBlock := 0;
      var _ :- chain.TransferTokens(from, to, authority, withdrawalAmount);
      return Ok(withdrawalAmount);
    }

    /** Takes up to `value` from the two balances, available first. */
    method ReduceBalance(value: u64) returns (r: Result<(u64, u64)>)
      modifies this`availableAmount, this`withdrawingAmount
      ensures value == 0 ==> r == Err(InvalidBalanceReductionAmount)
      ensures value > 0 ==> r == Ok((FromAvailable(old(Value()), value), FromWithdrawing(old(Value()), value)))
      ensures value > 0 ==> Value() == Reduced(old(Value()), value)
    {
      var _ :- Require(value > 0, InvalidBalanceReductionAmount);
      var available := availableAmount;
      var needed := value;
      if available >= needed {
        availableAmount := availableAmount - needed;
        return Ok((needed, 0));
      }
      availableAmount := 0;
      needed := needed - available;
      var withdrawing := withdrawingAmount;
      if withdrawing >= needed {
        withdrawingAmount := withdrawingAmount - needed;
        return Ok((available, needed));
      }
      withdrawingAmount := 0;
      return Ok((available, withdrawing));
    }
  }

  /** The program's state account. */
  class GatewayWallet {
    var owner: Pubkey
    var pendingOwner: Pubkey
    var pauser: Pubkey
    var denylister: Pubkey
    var tokenController: Pubkey
    var feeRecipient: Pubkey
    var localDomain: u32
    var version: u32
    var withdrawalDelay: u64
    var paused: bool
    var supportedTokens: seq<Pubkey>
    var custodyTokenAccountBumps: seq<byte>
    var burnSigners: seq<Pubkey>

    constructor (c: Config)
      ensures Value() == c
    {
      owner, pendingOwner, pauser, denylister := c.owner, c.pendingOwner, c.pauser, c.denylister;
      tokenController, feeRecipient := c.tokenController, c.feeRecipient;
      localDomain, version, withdrawalDelay, paused := c.localDomain, c.version, c.withdrawalDelay, c.paused;
      supportedTokens, custodyTokenAccountBumps, burnSigners := c.supportedTokens, c.bumps, c.burnSigners;
    }

    function Value(): Config
      reads this
    {
      Config(owner, pendingOwner, pauser, denylister, tokenController, feeRecipient, localDomain, version,
             withdrawalDelay, paused, supportedTokens, custodyTokenAccountBumps, burnSigners)
    }

    method Restore(c: Config)
      modifies this
      ensures Value() == c
    {
      owner, pendingOwner, pauser, denylister := c.owner, c.pendingOwner, c.pauser, c.denylister;
      tokenController, feeRecipient := c.tokenController, c.feeRecipient;
      localDomain, version, withdrawalDelay, paused := c.localDomain, c.version, c.withdrawalDelay, c.paused;
      supportedTokens, custodyTokenAccountBumps, burnSigners := c.supportedTokens, c.bumps, c.burnSigners;
    }

    method AddToken(tokenMint: Pubkey, bump: byte) returns (r: Result<()>)
      modifies this`supportedTokens, this`custodyTokenAccountBumps
      ensures match Registry.AddToken(old(supportedTokens), old(custodyTokenAccountBumps), tokenMint, bump)
              case Ok(lists) => r == Ok(()) && supportedTokens == lists.0 && custodyTokenAccountBumps == lists.1
              case Err(e) => r == Err(e) && unchanged(this)
    {
      if tokenMint in supportedTokens {
        return Ok(());
      }
      if |supportedTokens| >= MAX_SUPPORTED_TOKENS {
        return Err(MaxTokensSupported);
      }
      supportedTokens := supportedTokens + [tokenMint];
      custodyTokenAccountBumps := custodyTokenAccountBumps + [bump];
      return Ok(());
    }

    method AddBurnSigner(signer: Pubkey) returns (r: Result<()>)
      modifies this`burnSigners
      ensures match AddSigner(old(burnSigners), signer, BurnSignerLimitExceeded)
              case Ok(s) => r == Ok(()) && burnSigners == s
              case Err(e) => r == Err(e) && burnSigners == old(burnSigners)
    {
      if signer in burnSigners {
        return Ok(());
      }
      if |burnSigners| >= MAX_SIGNERS {
        return Err(BurnSignerLimitExceeded);
      }
      burnSigners := burnSigners + [signer];
      return Ok(());
    }

    method ChangeRole(c: RoleChange) returns (r: Result<()>)
      modifies this`owner, this`pendingOwner, this`pauser, this`denylister, this`tokenController
      ensures match RoleEffect(old(Value()), c)
              case Ok(cfg) => r == Ok(()) && Value() == cfg
              case Err(e) => r == Err(e)
    {
      match c {
        case SetPauser(newPauser) =>
          var _ :- Require(newPauser != DEFAULT_PUBKEY, InvalidPauser);
          pauser := newPauser;
        case SetDenylister(newDenylister) =>
          var _ :- Require(newDenylister != DEFAULT_PUBKEY, InvalidDenylister);
          denylister := newDenylister;
        case SetTokenController(newController) =>
          var _ :- Require(newController != DEFAULT_PUBKEY, InvalidTokenController);
          tokenController := newController;
        case TransferOwnership(newOwner) => pendingOwner := newOwner;
        case AcceptOwnership =>
          owner := pendingOwner;
          pendingOwner := DEFAULT_PUBKEY;
      }
      return Ok(());
    }

    method RemoveBurnSigner(signer: Pubkey)
      modifies this`burnSigners
      ensures burnSigners == RemoveSigner(old(burnSigners), signer)
    {
      var index := Position(burnSigners, signer);
      if index.None? {
        return;
      }
      burnSigners := burnSigners[..index.value] + burnSigners[index.value + 1..];
    }
  }

  /** Whether a handler's outcome and the state it left are those of a step. */
  ghost predicate Matches(expected: Result<State>, r: Result<()>, st: State) {
    match expected
    case Ok(st') => r == Ok(()) && st == st'
    case Err(e) => r == Err(e)
  }

  /** The program with the chain it runs on. */
  class Program {
    const env: Env
    const wallet: GatewayWallet
    const chain: Chain
    var deposits: map<Key, Wallet.Deposit>
    var delegates: map<DelegateKey, Delegate>
    var denylist: set<Pubkey>
    var slot: u64
    var log: seq<Entry>

    constructor (env: Env, st: State)
      ensures this.env == env && State() == st && fresh(wallet) && fresh(chain)
    {
      this.env := env;
      wallet := new GatewayWallet(st.cfg);
      chain := new Chain(st.tokens, st.accounts);
      deposits, delegates, denylist, slot, log := st.deposits, st.delegates, st.denylist, st.slot, st.log;
    }

    function State(): Wallet.State
      reads this, wallet, chain
    {
      Wallet.State(wallet.Value(), deposits, delegates, denylist, chain.tokens, chain.accounts, slot, log)
    }

    method EmitEvent(e: Event)
      modifies this`log
      ensures State() == Emit(old(State()), e)
    {
      log := log + [Entry(slot, wallet.withdrawalDelay, e)];
    }

    method DepositHandler(owner: Pubkey, ownerToken: Pubkey, custody: Pubkey, depositor: Pubkey, amount: u64,
                          forOther: bool)
      returns (r: Result<()>)
      modifies this, chain
      ensures Matches(DepositStep(env, old(State()), owner, ownerToken, custody, depositor, amount, forOther), r,
                      State())
    {
      hide Transfer, CheckCustody, IsTokenAccount;
      var _ :- SignedBy(env, owner);
      var _ :- Require(!wallet.paused, ProgramPaused);
      hide GatewayWallet.Value, Initialized, Emit;
      var mint :- CheckCustody(env, wallet.Value(), chain.tokens, custody);
      var _ :- Require(IsTokenAccount(chain.tokens, ownerToken, mint, owner), ConstraintViolated);
      var _ :- Require(forOther ==> depositor != DEFAULT_PUBKEY, InvalidDepositor);
      var _ :- Require(owner !in denylist && depositor !in denylist, AccountDenylisted);
      var key := Key(mint, depositor);
      var deposit := new GatewayDeposit(if key in deposits then deposits[key] else BLANK);
      deposit.InitializeIfNeeded(env.depositBump(mint, depositor), depositor, mint);
      var _ :- deposit.Deposit(chain, ownerToken, custody, owner, amount);
      deposits := deposits[key := deposit.Value()];
      EmitEvent(Deposited(key, owner, amount));
      return Ok(());
    }

    method InitiateWithdrawalHandler(depositor: Pubkey, mint: Pubkey, amount: u64) returns (r: Result<()>)
      modifies this
      ensures Matches(InitiateWithdrawalStep(env, old(State()), depositor, mint, amount), r, State())
    {
      hide LoadDeposit, SignedBy;
      var _ :- SignedBy(env, depositor);
      var _ :- Require(!wallet.paused, ProgramPaused);
      var key := Key(mint, depositor);
      var d :- LoadDeposit(env, deposits, key);
      var deposit := new GatewayDeposit(d);
      var totals :-
        deposit.InitiateWithdrawal(amount, deposit.tokenMint in wallet.supportedTokens, wallet.withdrawalDelay, slot);
      deposits := deposits[key := deposit.Value()];
      EmitEvent(WithdrawalInitiated(key, amount, totals.0, totals.1, totals.2));
      return Ok(());
    }

    method WithdrawHandler(depositor: Pubkey, mint: Pubkey, custody: Pubkey, depositorToken: Pubkey)
      returns (r: Result<()>)
      modifies this, chain
      ensures Matches(WithdrawStep(env, old(State()), depositor, mint, custody, depositorToken), r, State())
    {
      hide Transfer, CheckCustody, IsTokenAccount;
      var _ :- SignedBy(env, depositor);
      var _ :- Require(!wallet.paused, ProgramPaused);
      var custodyMint :- CheckCustody(env, wallet.Value(), chain.tokens, custody);
      var _ :- Require(IsTokenAccount(chain.tokens, depositorToken, custodyMint, depositor), ConstraintViolated);
      var key := Key(mint, depositor);
      var d :- LoadDeposit(env, deposits, key);
      var deposit := new GatewayDeposit(d);
      var _ :- Require(deposit.tokenMint == custodyMint, ConstraintViolated);
      var _ :- Require(deposit.withdrawingAmount > 0, NoWithdrawalInProgress);
      var _ :- Require(slot >= deposit.withdrawalBlock, WithdrawalDelayNotElapsed);
      var withdrawalAmount :- deposit.CompleteWithdrawal(chain, custody, depositorToken, env.statePda);
      deposits := deposits[key := deposit.Value()];
      EmitEvent(WithdrawalCompleted(key, withdrawalAmount));
      return Ok(());
    }

    /** Transfers the fee, if any, to the fee recipient, then burns the rest from custody. */
    method ChargeAndBurn(c: BurnCall, fee: u64, burned: u64) returns (r: Result<()>)
      modifies chain`tokens
      ensures match MoveBurn(env, old(chain.tokens), c, fee, burned)
              case Ok(t) => r == Ok(()) && chain.tokens == t
              case Err(e) => r == Err(e)
    {
      hide Transfer, Burn;
      if fee > 0 {
        var _ :- chain.TransferTokens(c.custody, c.feeToken, env.statePda, fee);
      }
      r := chain.BurnTokens(c.mint, c.custody, env.statePda, burned);
    }

    /** Everything a burn does once its checks have passed. */
    method BurnEffectsHandler(c: BurnCall, d: Wallet.Deposit, t: BurnTerms) returns (r: Result<()>)
      modifies this, chain
      ensures Matches(BurnEffects(env, old(State()), c, d, t), r, State())
    {
      hide MoveBurn, ProcessHash, Reduced, FromAvailable, FromWithdrawing, GatewayWallet.Value;
      ReducedOwes(d, t.value + t.fee);
      var _ :- chain.ProcessUsedTransferSpecHash(env, c.payer, t.hashAccount, t.specHash, USED_DISCRIMINATOR);
      var deposit := new GatewayDeposit(d);
      var taken :- deposit.ReduceBalance(t.value + t.fee);
      // unchecked addition: the type is the proof that it does not overflow
      var deducted: u64 := taken.0 + taken.1;
      if deducted < t.value + t.fee {
        EmitEvent(InsufficientBalance(c.deposit, t.value + t.fee, taken.0, taken.1));
      }
      var actualFeeCharged: u64 := if deducted >= t.value then deducted - t.value else 0;
      var burnAmount: u64 := deducted - actualFeeCharged;
      var _ :- ChargeAndBurn(c, actualFeeCharged, burnAmount);
      deposits := deposits[c.deposit := deposit.Value()];
      EmitEvent(GatewayBurned(c.deposit, t.specHash, t.destinationDomain, t.destinationRecipient, t.signer,
                              burnAmount, actualFeeCharged, taken.0, taken.1));
      return Ok(());
    }

    /** The checks on the burn data, field by field. */
    method CheckBurnData(c: BurnCall, deposit: Wallet.Deposit, delegateAccount: Option<Delegate>)
      returns (r: Result<BurnTerms>)
      ensures r == BurnChecks(env, State(), c, deposit, delegateAccount)
    {
      hide RecoveredSigner, VerifyUserSignature, New, ValidateSigner;
      var recovered := RecoveredSigner(env, c.burnData, c.burnSignature);
      if recovered.None? {
        return Err(InvalidBurnSignerSignature);
      }
      var _ :- Require(recovered.value in wallet.burnSigners, BurnSignerNotAuthorized);
      var burnData :- New(c.burnData);
      var messageLength :- burnData.BurnIntentMessageLength();
      var _ :- VerifyUserSignature(env, c.sysvar, messageLength);
      var intentVersion :- burnData.Version();
      var _ :- Require(intentVersion == wallet.version, VersionMismatch);
      var maxBlockHeight :- burnData.MaxBlockHeight();
      var _ :- Require(maxBlockHeight >= slot, BurnIntentExpired);
      var sourceDomain :- burnData.SourceDomain();
      var _ :- Require(sourceDomain == wallet.localDomain, SourceDomainMismatch);
      var sourceContract :- burnData.SourceContract();
      var _ :- Require(sourceContract == env.programId, SourceContractMismatch);
      var sourceToken :- burnData.SourceToken();
      var _ :- Require(sourceToken == c.mint, SourceTokenMismatch);
      var sourceDepositor :- burnData.SourceDepositor();
      var _ :- Require(sourceDepositor == deposit.depositor, SourceDepositorMismatch);
      var sourceSigner :- burnData.SourceSigner();
      var _ :- ValidateSigner(sourceSigner, sourceDepositor, delegateAccount);
      var maxFee :- burnData.MaxFee();
      // past the fields read so far, this read cannot fail: taking `value` is the proof
      var fee := burnData.Fee().value;
      var _ :- Require(maxFee >= fee, BurnFeeExceedsMaxFee);
      var value :- burnData.Value();
      var total :- AddU64(value, fee);
      var _ :- Require(c.custody in chain.tokens && chain.tokens[c.custody].amount >= total,
                       InsufficientCustodyBalance);
      var _ :- Require(|c.remaining| == 1, RemainingAccountsLengthMismatch);
      var spec :- burnData.EncodedTransferSpec();
      // nor can these
      var destinationDomain, destinationRecipient :=
        burnData.DestinationDomain().value, burnData.DestinationRecipient().value;
      return Ok(Terms(c.remaining[0], env.keccak(spec), value, fee, destinationDomain, destinationRecipient,
                      sourceSigner));
    }

    method GatewayBurnHandler(c: BurnCall) returns (r: Result<()>)
      modifies this, chain
      ensures Matches(BurnStep(env, old(State()), c), r, State())
    {
      hide BurnChecks, BurnEffects, CheckCustody, IsTokenAccount, LoadDelegate;
      var _ :- SignedBy(env, c.payer);
      var _ :- Require(!wallet.paused, ProgramPaused);
      var mint :- CheckCustody(env, wallet.Value(), chain.tokens, c.custody);
      var _ :- Require(mint == c.mint, ConstraintViolated);
      var _ :- Require(c.feeToken == env.ata(wallet.feeRecipient, c.mint)
                       && IsTokenAccount(chain.tokens, c.feeToken, c.mint, wallet.feeRecipient), ConstraintViolated);
      var _ :- Require(c.deposit in deposits, ConstraintViolated);
      var deposit := deposits[c.deposit];
      var _ :- Require(c.deposit == Key(c.mint, deposit.depositor)
                       && deposit.bump == env.depositBump(c.mint, deposit.depositor), ConstraintViolated);
      var delegateAccount :- LoadDelegate(delegates, c.mint, c.delegate);
      var t :- CheckBurnData(c, deposit, delegateAccount);
      r := BurnEffectsHandler(c, deposit, t);
    }

    method AddDelegateHandler(depositor: Pubkey, mint: Pubkey, delegate: Pubkey) returns (r: Result<()>)
      modifies this
      ensures Matches(AddDelegateStep(env, old(State()), depositor, mint, delegate), r, State())
    {
      var _ :- SignedBy(env, depositor);
      var _ :- Require(!wallet.paused, ProgramPaused);
      var _ :- Require(delegate != DEFAULT_PUBKEY, InvalidDelegate);
      var _ :- Require(delegate != depositor, CannotDelegateToSelf);
      var _ :- Require(depositor !in denylist && delegate !in denylist, AccountDenylisted);
      var _ :- Require(mint in wallet.supportedTokens, TokenNotSupported);
      var k := DelegateKey(mint, depositor, delegate);
      delegates := delegates[k := Delegate(Authorized, mint, depositor, delegate)];
      EmitEvent(DelegateAdded(k));
      return Ok(());
    }

    method RemoveDelegateHandler(depositor: Pubkey, mint: Pubkey, delegate: Pubkey) returns (r: Result<()>)
      modifies this
      ensures Matches(RemoveDelegateStep(env, old(State()), depositor, mint, delegate), r, State())
    {
      var _ :- SignedBy(env, depositor);
      var _ :- Require(!wallet.paused, ProgramPaused);
      var k := DelegateKey(mint, depositor, delegate);
      var _ :- Require(k in delegates, ConstraintViolated);
      var _ :- Require(delegate != DEFAULT_PUBKEY, InvalidDelegate);
      var _ :- Require(depositor !in denylist, AccountDenylisted);
      var _ :- Require(mint in wallet.supportedTokens, TokenNotSupported);
      var existing := delegates[k];
      if existing.status == Unauthorized || existing.status == Revoked {
        return Ok(());
      }
      delegates := delegates[k := existing.(status := Revoked)];
      EmitEvent(DelegateRemoved(k));
      return Ok(());
    }

    method AddTokenHandler(mint: Pubkey) returns (r: Result<()>)
      modifies wallet, chain
      ensures Matches(AddTokenEffect(env, old(State()), mint), r, State())
    {
      hide Position;
      var bump := env.custodyBump(mint);
      var pda := env.custodyPda(mint, bump);
      var _ :- Require(pda.Some?, ConstraintViolated);
      var k := pda.value;
      var _ :- Require(k in chain.tokens ==> IsTokenAccount(chain.tokens, k, mint, env.statePda), ConstraintViolated);
      if k !in chain.tokens {
        chain.tokens := chain.tokens[k := TokenAccount(mint, env.statePda, 0)];
      }
      r := wallet.AddToken(mint, bump);
    }

    /** The assignment that each administrative instruction makes. */
    method AdminEffectHandler(a: Admin) returns (r: Result<()>)
      modifies this`denylist, wallet, chain
      ensures Matches(AdminEffect(env, old(State()), a), r, State())
    {
      hide AddTokenEffect, AddSigner, RemoveSigner, RoleEffect;
      match a {
        case Pause => wallet.paused := true;
        case Unpause => wallet.paused := false;
        case DenylistAccount(x) => denylist := denylist + {x};
        case UndenylistAccount(x) =>
          var _ :- Require(x in denylist, ConstraintViolated);
          denylist := denylist - {x};
        case UpdateWithdrawalDelay(d) =>
          var _ :- Require(d > 0, InvalidWithdrawalDelay);
          wallet.withdrawalDelay := d;
        case AddSupportedToken(m) => var _ :- AddTokenHandler(m);
        case AddBurnSigner(s) =>
          var _ :- Require(s != DEFAULT_PUBKEY, InvalidBurnSigner);
          var _ :- wallet.AddBurnSigner(s);
        case RemoveBurnSigner(s) => wallet.RemoveBurnSigner(s);
        case UpdateFeeRecipient(x) =>
          var _ :- Require(x != DEFAULT_PUBKEY, InvalidAuthority);
          wallet.feeRecipient := x;
        case UpdateRole(c) => var _ :- wallet.ChangeRole(c);
      }
      return Ok(());
    }

    method AdminHandler(signer: Pubkey, a: Admin) returns (r: Result<()>)
      modifies this, wallet, chain
      ensures Matches(AdminStep(env, old(State()), signer, a), r, State())
    {
      hide AdminEffect, AdminEvent;
      var _ :- SignedBy(env, signer);
      var _ :- Require(signer == AuthorityOf(wallet.Value(), a), InvalidAuthority);
      var event := AdminEvent(State(), a);
      var _ :- AdminEffectHandler(a);
      EmitEvent(event);
      return Ok(());
    }

    method Dispatch(c: Call) returns (r: Result<()>)
      modifies this, wallet, chain
      ensures Matches(Step(env, old(State()), c), r, State())
    {
      hide DepositStep, InitiateWithdrawalStep, WithdrawStep, BurnStep, AddDelegateStep, RemoveDelegateStep, AdminStep,
           Matches, GatewayWallet.Value, Program.State;
      match c {
        case DepositCall(owner, ownerToken, custody, amount) =>
          r := DepositHandler(owner, ownerToken, custody, owner, amount, false);
        case DepositForCall(owner, ownerToken, custody, amount, depositor) =>
          r := DepositHandler(owner, ownerToken, custody, depositor, amount, true);
        case InitiateWithdrawalCall(depositor, mint, amount) => r := InitiateWithdrawalHandler(depositor, mint, amount);
        case WithdrawCall(depositor, mint, custody, depositorToken) =>
          r := WithdrawHandler(depositor, mint, custody, depositorToken);
        case GatewayBurnCall(b) => r := GatewayBurnHandler(b);
        case AddDelegateCall(depositor, mint, delegate) => r := AddDelegateHandler(depositor, mint, delegate);
        case RemoveDelegateCall(depositor, mint, delegate) => r := RemoveDelegateHandler(depositor, mint, delegate);
        case AdminCall(signer, a) => r := AdminHandler(signer, a);
      }
    }

    /** One transaction: runs the instruction and undoes everything if it fails. */
    method Execute(c: Call) returns (r: Result<()>)
      modifies this, wallet, chain
      ensures State() == Transact(env, old(State()), c)
      ensures match Step(env, old(State()), c)
              case Ok(_) => r == Ok(())
              case Err(e) => r == Err(e)
    {
      hide Step, GatewayWallet.Value;
      var snapshot := State();
      r := Dispatch(c);
      if r.Err? {
        wallet.Restore(snapshot.cfg);
        chain.tokens := snapshot.tokens;
        deposits, delegates, denylist := snapshot.deposits, snapshot.delegates, snapshot.denylist;
        chain.accounts, slot, log := snapshot.accounts, snapshot.slot, snapshot.log;
      }
    }
  }
}
