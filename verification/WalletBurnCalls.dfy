/** Which burns succeed: the exact condition in every reachable state. */
module WalletBurnCalls {
  import opened Base
  import opened Runtime
  import opened UsedHashes
  import opened BurnData
  import opened Ed25519
  import opened Wallet
  import opened WalletSolvency
  import opened WalletReachable
  import opened WalletBurn
  import opened WalletHistory

  /** The accounts of a burn: the canonical ones of the mint, an existing deposit and, if passed, an existing
      delegate. */
  predicate AccountsFit(env: Env, st: State, c: BurnCall) {
    && c.payer != env.statePda && !st.cfg.paused
    && c.mint in st.cfg.supportedTokens && c.custody == Custody(env, c.mint)
    && c.feeToken == env.ata(st.cfg.feeRecipient, c.mint)
    && IsTokenAccount(st.tokens, c.feeToken, c.mint, st.cfg.feeRecipient)
    && c.deposit in st.deposits && c.deposit.mint == c.mint
    && (c.delegate.Some? ==> c.delegate.value in st.delegates && c.delegate.value.mint == c.mint)
  }

  /** The record of a burn, against the configuration and the accounts: its signer is the depositor or the delegate
      passed. */
  predicate RecordFits(env: Env, st: State, c: BurnCall, r: Record) {
    && r.spec.version == st.cfg.version && r.maxBlockHeight >= st.slot && r.spec.sourceDomain == st.cfg.localDomain
    && r.spec.sourceContract == env.programId && r.spec.sourceToken == c.mint
    && r.spec.sourceDepositor == c.deposit.depositor
    && (r.spec.sourceSigner == c.deposit.depositor
        || c.delegate == Some(DelegateKey(c.mint, c.deposit.depositor, r.spec.sourceSigner)))
    && r.fee <= r.maxFee && r.spec.value > 0 && r.spec.value + r.fee <= U64_MAX
  }

  function DelegateOf(st: State, c: BurnCall): Option<Delegate> {
    if c.delegate.Some? && c.delegate.value in st.delegates then Some(st.delegates[c.delegate.value]) else None
  }

  lemma AccountsPassIff(env: Env, st: State, c: BurnCall)
    requires Inv(env, st) && DelegatesOk(st)
    ensures BurnAccounts(env, st, c).Ok? <==> AccountsFit(env, st, c)
    ensures AccountsFit(env, st, c) ==> BurnAccounts(env, st, c) == Ok((st.deposits[c.deposit], DelegateOf(st, c)))
  {
    hide Inv, DelegatesOk, CheckCustody, WasAdded;
    if CheckCustody(env, st.cfg, st.tokens, c.custody).Ok? {
      CustodyChecked(env, st, c.custody);
    }
    if c.mint in st.cfg.supportedTokens {
      CustodyAccepted(env, st, c.mint);
    }
    if c.deposit in st.deposits {
      DepositFits(env, st, c.deposit);
    }
    if c.delegate.Some? && c.delegate.value in st.delegates {
      DelegateRecorded(st, c.delegate.value);
    }
  }

  lemma DepositFits(env: Env, st: State, k: Key)
    requires Inv(env, st) && k in st.deposits
    ensures DepositOk(env, st.cfg, k, st.deposits[k])
  {
  }

  lemma RecordMatchesIff(env: Env, st: State, c: BurnCall, r: Record)
    requires Inv(env, st) && DelegatesOk(st) && AccountsFit(env, st, c)
    ensures RecordMatches(env, st, c, st.deposits[c.deposit], DelegateOf(st, c), r) <==> RecordFits(env, st, c, r)
  {
    hide Inv, DelegatesOk, WasAdded;
    DepositFits(env, st, c.deposit);
    if c.delegate.Some? {
      DelegateRecorded(st, c.delegate.value);
      NeverUnauthorized(st, c.delegate.value);
    }
  }

  lemma NeverUnauthorized(st: State, k: DelegateKey)
    requires DelegatesOk(st) && k in st.delegates
    ensures st.delegates[k].status != Unauthorized
  {
    assert DelegateOk(st, k);
  }

  /** Everything that makes a burn with this record succeed. */
  ghost predicate BurnFits(env: Env, st: State, c: BurnCall, r: Record) {
    && Encodable(r) && Encode(r) == c.burnData && RecordFits(env, st, c, r) && CallFits(env, st, c, r)
    && ProcessHash(env, st.accounts, c.payer, c.remaining[0], env.keccak(EncodeSpec(r.spec)), USED_DISCRIMINATOR).Ok?
  }

  /** Checks and effects, with the hash processing left as the only effect that can fail. */
  lemma EffectsSucceedIff(env: Env, st: State, c: BurnCall, r: Record)
    requires Inv(env, st) && BurnAccounts(env, st, c).Ok?
    requires var a := BurnAccounts(env, st, c).value; BurnChecks(env, st, c, a.0, a.1).Ok?
    requires Encodable(r) && Encode(r) == c.burnData
    ensures |c.remaining| == 1
    ensures BurnStep(env, st, c).Ok?
       <==> ProcessHash(env, st.accounts, c.payer, c.remaining[0], env.keccak(EncodeSpec(r.spec)),
                        USED_DISCRIMINATOR).Ok?
  {
    hide Inv, BurnChecks, BurnEffects, ProcessHash, Encode, EncodeSpec, RecordMatches, RecoveredSigner,
         VerifyUserSignature, CheckCustody, Reads, Accepted;
    var a := BurnAccounts(env, st, c).value;
    var t := BurnChecks(env, st, c, a.0, a.1).value;
    ChecksMatchRecord(env, st, c, a.0, a.1);
    EncodedIsAccepted(r);
    ValuePositive(env, st, c, a.0, a.1);
    BurnMovesSucceed(env, st, c, a.0, t);
  }

  lemma ValuePositive(env: Env, st: State, c: BurnCall, d: Deposit, g: Option<Delegate>)
    requires BurnChecks(env, st, c, d, g).Ok?
    ensures BurnChecks(env, st, c, d, g).value.value > 0
  {
    hide BurnChecks, Encode, EncodeSpec, RecoveredSigner, VerifyUserSignature;
    ChecksMatchRecord(env, st, c, d, g);
  }

  /** In every reachable state, a burn succeeds exactly on the encoding of a record that fits the state and the call,
      with a hash that can be marked: no balance, transfer or addition is ever in the way. */
  lemma BurnSucceedsIff(env: Env, st: State, c: BurnCall)
    requires Reachable(env, st)
    ensures BurnStep(env, st, c).Ok? <==> AccountsFit(env, st, c) && exists r :: BurnFits(env, st, c, r)
  {
    hide Reachable, Inv, DelegatesOk, BurnAccounts, BurnChecks, BurnEffects, ProcessHash, Encode, EncodeSpec, Encodable,
         RecordMatches, RecordFits, CallFits, AccountsFit;
    ReachableInv(env, st);
    ReachableDelegates(env, st);
    AccountsPassIff(env, st, c);
    if AccountsFit(env, st, c) {
      var a := BurnAccounts(env, st, c).value;
      ChecksPassIff(env, st, c, a.0, a.1);
      if BurnChecks(env, st, c, a.0, a.1).Ok? {
        var r :| Encodable(r) && Encode(r) == c.burnData
                 && RecordMatches(env, st, c, a.0, a.1, r) && CallFits(env, st, c, r);
        RecordMatchesIff(env, st, c, r);
        EffectsSucceedIff(env, st, c, r);
        if BurnStep(env, st, c).Ok? {
          assert BurnFits(env, st, c, r);
        }
      }
      if r :| BurnFits(env, st, c, r) {
        RecordMatchesIff(env, st, c, r);
        EffectsSucceedIff(env, st, c, r);
      }
    }
  }
}
