/** What each error of the wallet's instructions tells the caller: the condition that it reports, in every state that
    satisfies the invariant. Errors that are not listed cannot occur. */
module WalletErrors {
  import opened Base
  import opened Runtime
  import opened Tokens
  import opened UsedHashes
  import opened BurnData
  import opened Ed25519
  import opened Wallet
  import opened WalletSolvency
  import opened WalletReachable
  import opened WalletBurn

  /** The custody account passed is not the canonical one of a supported mint. */
  predicate CustodyWrong(env: Env, st: State, custody: Pubkey) {
    custody !in st.tokens || st.tokens[custody].mint !in st.cfg.supportedTokens
    || custody != Custody(env, st.tokens[custody].mint)
  }

  lemma CustodyErrors(env: Env, st: State, custody: Pubkey)
    requires Inv(env, st)
    ensures var r := CheckCustody(env, st.cfg, st.tokens, custody);
            && (r.Err? <==> CustodyWrong(env, st, custody))
            && (r.Err? ==> r.error == ConstraintViolated || r.error == TokenNotSupported)
            && (r.Ok? ==> r.value == st.tokens[custody].mint)
  {
    hide Supply, Surplus, UsedAreOwned;
    if custody in st.tokens && st.tokens[custody].mint in st.cfg.supportedTokens {
      assert IsTokenAccount(st.tokens, Custody(env, st.tokens[custody].mint), st.tokens[custody].mint, env.statePda);
    }
  }

  predicate NotHeldBy(tokens: TokenMap, k: Pubkey, mint: Pubkey, owner: Pubkey) {
    k !in tokens || tokens[k].mint != mint || tokens[k].owner != owner
  }

  lemma RecordOk(env: Env, st: State, k: Key)
    requires Inv(env, st)
    ensures k in st.deposits ==> DepositOk(env, st.cfg, k, st.deposits[k])
  {
  }

  lemma DepositErrors(env: Env, st: State, owner: Pubkey, ownerToken: Pubkey, custody: Pubkey, depositor: Pubkey,
                      amount: u64, forOther: bool)
    requires Inv(env, st) && DepositStep(env, st, owner, ownerToken, custody, depositor, amount, forOther).Err?
    ensures var e := DepositStep(env, st, owner, ownerToken, custody, depositor, amount, forOther).error;
            && (e.MissingSignature? ==> owner == env.statePda)
            && (e.ProgramPaused? ==> st.cfg.paused)
            && (e.TokenNotSupported? ==> CustodyWrong(env, st, custody))
            && (e.ConstraintViolated? ==>
                  CustodyWrong(env, st, custody) || NotHeldBy(st.tokens, ownerToken, st.tokens[custody].mint, owner))
            && (e.InvalidDepositor? ==> forOther && depositor == DEFAULT_PUBKEY)
            && (e.AccountDenylisted? ==> owner in st.denylist || depositor in st.denylist)
            && (e.InvalidDepositAmount? ==> amount == 0)
            && (e.InsufficientFunds? ==> ownerToken in st.tokens && st.tokens[ownerToken].amount < amount)
            && (|| e.MissingSignature? || e.ProgramPaused? || e.TokenNotSupported? || e.ConstraintViolated?
                || e.InvalidDepositor? || e.AccountDenylisted? || e.InvalidDepositAmount? || e.InsufficientFunds?)
  {
    hide Inv, CheckCustody, Supply, CustodyWrong, Custody, Initialized;
    CustodyErrors(env, st, custody);
    if CheckCustody(env, st.cfg, st.tokens, custody).Ok? {
      CustodyChecked(env, st, custody);
      var m := st.tokens[custody].mint;
      DepositSucceedsIff(env, st, owner, ownerToken, m, depositor, amount, forOther);
    }
  }

  lemma InitiateErrors(env: Env, st: State, depositor: Pubkey, mint: Pubkey, amount: u64)
    requires Inv(env, st) && InitiateWithdrawalStep(env, st, depositor, mint, amount).Err?
    ensures var e := InitiateWithdrawalStep(env, st, depositor, mint, amount).error;
            && (e.MissingSignature? ==> depositor == env.statePda)
            && (e.ProgramPaused? ==> st.cfg.paused)
            && (e.ConstraintViolated? ==> Key(mint, depositor) !in st.deposits)
            && (e.InvalidWithdrawalAmount? ==> amount == 0)
            && (e.InsufficientDepositBalance? ==>
                  Key(mint, depositor) in st.deposits && st.deposits[Key(mint, depositor)].available < amount)
            && (e.ArithmeticOverflow? ==> st.slot + st.cfg.withdrawalDelay > 0xFFFF_FFFF_FFFF_FFFF)
            && (|| e.MissingSignature? || e.ProgramPaused? || e.ConstraintViolated? || e.InvalidWithdrawalAmount?
                || e.InsufficientDepositBalance? || e.ArithmeticOverflow?)
  {
    hide Inv;
    InitiateSucceedsIff(env, st, depositor, mint, amount);
    RecordOk(env, st, Key(mint, depositor));
  }

  lemma WithdrawErrors(env: Env, st: State, depositor: Pubkey, mint: Pubkey, custody: Pubkey, depositorToken: Pubkey)
    requires Inv(env, st) && WithdrawStep(env, st, depositor, mint, custody, depositorToken).Err?
    ensures var e := WithdrawStep(env, st, depositor, mint, custody, depositorToken).error;
            && (e.MissingSignature? ==> depositor == env.statePda)
            && (e.ProgramPaused? ==> st.cfg.paused)
            && (e.TokenNotSupported? ==> CustodyWrong(env, st, custody))
            && (e.ConstraintViolated? ==>
                  CustodyWrong(env, st, custody) || st.tokens[custody].mint != mint
                    || NotHeldBy(st.tokens, depositorToken, mint, depositor) || Key(mint, depositor) !in st.deposits)
            && (e.NoWithdrawalInProgress? ==>
                  Key(mint, depositor) in st.deposits && st.deposits[Key(mint, depositor)].withdrawing == 0)
            && (e.WithdrawalDelayNotElapsed? ==>
                  Key(mint, depositor) in st.deposits && st.slot < st.deposits[Key(mint, depositor)].withdrawalBlock)
            && (|| e.MissingSignature? || e.ProgramPaused? || e.TokenNotSupported? || e.ConstraintViolated?
                || e.NoWithdrawalInProgress? || e.WithdrawalDelayNotElapsed?)
  {
    hide Inv, Supply, CheckCustody, CustodyWrong, Custody;
    CustodyErrors(env, st, custody);
    RecordOk(env, st, Key(mint, depositor));
    if CheckCustody(env, st.cfg, st.tokens, custody).Ok? {
      CustodyChecked(env, st, custody);
      WithdrawSucceedsIff(env, st, depositor, mint, depositorToken);
    }
  }

  lemma AddDelegateErrors(env: Env, st: State, depositor: Pubkey, mint: Pubkey, delegate: Pubkey)
    requires AddDelegateStep(env, st, depositor, mint, delegate).Err?
    ensures var e := AddDelegateStep(env, st, depositor, mint, delegate).error;
            && (e.MissingSignature? ==> depositor == env.statePda)
            && (e.ProgramPaused? ==> st.cfg.paused)
            && (e.InvalidDelegate? ==> delegate == DEFAULT_PUBKEY)
            && (e.CannotDelegateToSelf? ==> delegate == depositor)
            && (e.AccountDenylisted? ==> depositor in st.denylist || delegate in st.denylist)
            && (e.TokenNotSupported? ==> mint !in st.cfg.supportedTokens)
            && (|| e.MissingSignature? || e.ProgramPaused? || e.InvalidDelegate? || e.CannotDelegateToSelf?
                || e.AccountDenylisted? || e.TokenNotSupported?)
  {
  }

  lemma RemoveDelegateErrors(env: Env, st: State, depositor: Pubkey, mint: Pubkey, delegate: Pubkey)
    requires RemoveDelegateStep(env, st, depositor, mint, delegate).Err?
    ensures var e := RemoveDelegateStep(env, st, depositor, mint, delegate).error;
            && (e.MissingSignature? ==> depositor == env.statePda)
            && (e.ProgramPaused? ==> st.cfg.paused)
            && (e.ConstraintViolated? ==> DelegateKey(mint, depositor, delegate) !in st.delegates)
            && (e.InvalidDelegate? ==> delegate == DEFAULT_PUBKEY)
            && (e.AccountDenylisted? ==> depositor in st.denylist)
            && (e.TokenNotSupported? ==> mint !in st.cfg.supportedTokens)
            && (|| e.MissingSignature? || e.ProgramPaused? || e.ConstraintViolated? || e.InvalidDelegate?
                || e.AccountDenylisted? || e.TokenNotSupported?)
  {
  }

  /** What each failing administrative instruction reports, for whoever has its role. */
  lemma AdminErrors(env: Env, st: State, signer: Pubkey, a: Admin)
    requires AdminStep(env, st, signer, a).Err?
    ensures var e := AdminStep(env, st, signer, a).error;
            && (e.MissingSignature? ==> signer == env.statePda)
            && (e.InvalidAuthority? ==>
                  || (a.UpdateFeeRecipient? && a.recipient == DEFAULT_PUBKEY)
                  || signer != (if a == UpdateRole(AcceptOwnership) then st.cfg.pendingOwner
                                else if a.Pause? || a.Unpause? then st.cfg.pauser
                                else if a.DenylistAccount? || a.UndenylistAccount? then st.cfg.denylister
                                else if a.AddSupportedToken? then st.cfg.tokenController
                                else st.cfg.owner))
            && (e.ConstraintViolated? ==> a.AddSupportedToken? || (a.UndenylistAccount? && a.account !in st.denylist))
            && (e.MaxTokensSupported? ==> a.AddSupportedToken? && |st.cfg.supportedTokens| >= 10)
            && (e.InvalidWithdrawalDelay? ==> a == UpdateWithdrawalDelay(0))
            && (e.InvalidBurnSigner? ==> a == AddBurnSigner(DEFAULT_PUBKEY))
            && (e.BurnSignerLimitExceeded? ==> a.AddBurnSigner? && |st.cfg.burnSigners| >= 10)
            && (e.InvalidPauser? ==> a == UpdateRole(SetPauser(DEFAULT_PUBKEY)))
            && (e.InvalidDenylister? ==> a == UpdateRole(SetDenylister(DEFAULT_PUBKEY)))
            && (e.InvalidTokenController? ==> a == UpdateRole(SetTokenController(DEFAULT_PUBKEY)))
            && (|| e.MissingSignature? || e.InvalidAuthority? || e.ConstraintViolated? || e.MaxTokensSupported?
                || e.InvalidWithdrawalDelay? || e.InvalidBurnSigner? || e.BurnSignerLimitExceeded? || e.InvalidPauser?
                || e.InvalidDenylister? || e.InvalidTokenController?)
  {
  }

  /** A signer that is neither the depositor nor the delegate of the record passed. */
  predicate SignerRefused(signer: Pubkey, depositor: Pubkey, g: Option<Delegate>) {
    && signer != depositor
    && (g == None || g.value.depositor != depositor || g.value.delegate != signer || g.value.status == Unauthorized)
  }

  lemma SignerErrors(signer: Pubkey, depositor: Pubkey, g: Option<Delegate>)
    ensures ValidateSigner(signer, depositor, g).Err? <==> SignerRefused(signer, depositor, g)
    ensures var r := ValidateSigner(signer, depositor, g);
            r.Err? ==>
              r.error == if g == None then InvalidDelegateAccount
                         else if g.value.depositor != depositor then DelegateDepositorMismatch
                         else if g.value.delegate != signer then DelegateSignerMismatch
                         else DelegateSignerNotAuthorized
  {
  }

  /** The errors of the checks on burn data that encode a record. */
  lemma BurnCheckErrors(env: Env, st: State, c: BurnCall, d: Deposit, g: Option<Delegate>, r: Record)
    requires Encodable(r) && Encode(r) == c.burnData && BurnChecks(env, st, c, d, g).Err?
    ensures |c.burnData| >= BURN_INTENT_MESSAGE_PREFIX_OFFSET
    ensures var e := BurnChecks(env, st, c, d, g).error;
            && (e.InvalidBurnSignerSignature? ==> !CoveredByOneOf(env, c.burnData, c.burnSignature, st.cfg.burnSigners))
            && (e.BurnSignerNotAuthorized? ==> !CoveredByOneOf(env, c.burnData, c.burnSignature, st.cfg.burnSigners))
            && (e.VersionMismatch? ==> r.spec.version != st.cfg.version)
            && (e.BurnIntentExpired? ==> r.maxBlockHeight < st.slot)
            && (e.SourceDomainMismatch? ==> r.spec.sourceDomain != st.cfg.localDomain)
            && (e.SourceContractMismatch? ==> r.spec.sourceContract != env.programId)
            && (e.SourceTokenMismatch? ==> r.spec.sourceToken != c.mint)
            && (e.SourceDepositorMismatch? ==> r.spec.sourceDepositor != d.depositor)
            && (e.InvalidDelegateAccount? ==> SignerRefused(r.spec.sourceSigner, r.spec.sourceDepositor, g))
            && (e.DelegateDepositorMismatch? ==> SignerRefused(r.spec.sourceSigner, r.spec.sourceDepositor, g))
            && (e.DelegateSignerMismatch? ==> SignerRefused(r.spec.sourceSigner, r.spec.sourceDepositor, g))
            && (e.DelegateSignerNotAuthorized? ==> SignerRefused(r.spec.sourceSigner, r.spec.sourceDepositor, g))
            && (e.BurnFeeExceedsMaxFee? ==> r.fee > r.maxFee)
            && (e.ArithmeticOverflow? ==> r.spec.value + r.fee > 0xFFFF_FFFF_FFFF_FFFF)
            && (e.InsufficientCustodyBalance? ==> Amount(st.tokens, c.custody) < r.spec.value + r.fee)
            && (e.RemainingAccountsLengthMismatch? ==> |c.remaining| != 1)
            && (!(e.InvalidBurnSignerSignature? || e.BurnSignerNotAuthorized? || e.VersionMismatch?
                  || e.BurnIntentExpired? || e.SourceDomainMismatch? || e.SourceContractMismatch?
                  || e.SourceTokenMismatch? || e.SourceDepositorMismatch? || e.InvalidDelegateAccount?
                  || e.DelegateDepositorMismatch? || e.DelegateSignerMismatch? || e.DelegateSignerNotAuthorized?
                  || e.BurnFeeExceedsMaxFee? || e.ArithmeticOverflow? || e.InsufficientCustodyBalance?
                  || e.RemainingAccountsLengthMismatch?) ==>
                  !PrecompileComesBefore(env, c.sysvar, |c.burnData| - BURN_INTENT_MESSAGE_PREFIX_OFFSET))
  {
    hide New, VerifyUserSignature, RecoveredSigner, Encode, EncodeSpec, CoveredByOneOf, PrecompileComesBefore, ReadU32,
         ReadU64, ReadPubkey, ReadU64WithDataOffset, Slice, ToBE, FromBE, Accepted, ValidateSigner, SignerRefused,
         RecordAt, SpecAt;
    SignerErrors(r.spec.sourceSigner, r.spec.sourceDepositor, g);
    EncodedIsAccepted(r);
    NewKeepsData(c.burnData);
    AcceptedIsLong(c.burnData);
    RecoveredEnabledIff(env, c.burnData, c.burnSignature, st.cfg.burnSigners);
    VerifiedComesBefore(env, c.sysvar, |c.burnData| - BURN_INTENT_MESSAGE_PREFIX_OFFSET);
    VerifyErrors(env, c.sysvar, |c.burnData| - BURN_INTENT_MESSAGE_PREFIX_OFFSET);
  }

  lemma AcceptedIsLong(data: Bytes)
    requires Accepted(data)
    ensures |data| >= TS_HOOK_DATA_OFFSET
  {
    AcceptedIsEncoded(data);
  }

  lemma VerifiedComesBefore(env: Env, sysvar: Sysvar, n: nat)
    ensures VerifyUserSignature(env, sysvar, n).Ok? <==> PrecompileComesBefore(env, sysvar, n)
  {
    hide VerifyUserSignature, ExpectedData;
    AcceptsExactly(env, sysvar, n);
  }

  /** The binding check has errors of its own. */
  lemma VerifyErrors(env: Env, sysvar: Sysvar, n: nat)
    ensures var r := VerifyUserSignature(env, sysvar, n);
            r.Err? ==> r.error in {MalformedBurnData, PreviousInstructionNotEd25519Program, IndexOutOfBounds,
                                   InvalidEd25519InstructionData}
  {
  }

  /** A second burn of the same transfer spec is refused as a replay, once everything before the hash is in order. */
  lemma ReplayIsNamed(env: Env, st: State, c: BurnCall, r: Record, d: Deposit, g: Option<Delegate>)
    requires BurnAccounts(env, st, c) == Ok((d, g)) && BurnChecks(env, st, c, d, g).Ok?
    requires Encodable(r) && Encode(r) == c.burnData
             && HashUsed(env, st.accounts, env.keccak(EncodeSpec(r.spec)), USED_DISCRIMINATOR)
    requires c.remaining == [env.usedPda(env.keccak(EncodeSpec(r.spec)))] && c.remaining != [c.payer]
    ensures BurnStep(env, st, c) == Err(TransferSpecHashAlreadyUsed)
  {
    hide BurnAccounts, BurnChecks, Encode, EncodeSpec, HashUsed, MoveBurn;
    ChecksMatchRecord(env, st, c, d, g);
    EncodedIsAccepted(r);
    UsedIsNamed(env, st.accounts, c.payer, env.keccak(EncodeSpec(r.spec)));
  }

  lemma UsedIsNamed(env: Env, accounts: Accounts, payer: Pubkey, specHash: Bytes32)
    requires HashUsed(env, accounts, specHash, USED_DISCRIMINATOR) && payer != env.usedPda(specHash)
    ensures ProcessHash(env, accounts, payer, env.usedPda(specHash), specHash, USED_DISCRIMINATOR)
         == Err(TransferSpecHashAlreadyUsed)
  {
  }
}
