/** What one successful burn does, in terms of the record its burn data holds. */
module WalletBurn {
  import opened Base
  import opened Runtime
  import opened Tokens
  import opened UsedHashes
  import opened BurnData
  import opened Ed25519
  import opened Wallet
  import opened WalletSolvency

  /** The record of a burn matches the wallet it runs on, the accounts passed, and the signer's authority. */
  ghost predicate RecordMatches(env: Env, st: State, c: BurnCall, d: Deposit, g: Option<Delegate>, r: Record) {
    && r.spec.version == st.cfg.version && r.maxBlockHeight >= st.slot && r.spec.sourceDomain == st.cfg.localDomain
    && r.spec.sourceContract == env.programId && r.spec.sourceToken == c.mint && r.spec.sourceDepositor == d.depositor
    && ValidateSigner(r.spec.sourceSigner, d.depositor, g) == Ok(())
    && r.fee <= r.maxFee && r.spec.value > 0 && r.spec.value + r.fee <= U64_MAX
  }

  lemma FieldsMatch(env: Env, st: State, c: BurnCall, d: Deposit, g: Option<Delegate>, b: BurnData, r: Record, t: Terms)
    requires New(c.burnData) == Ok(b) && b.data == c.burnData && Reads(b, r)
    requires BurnChecks(env, st, c, d, g) == Ok(t)
    ensures RecordMatches(env, st, c, d, g, r) || r.spec.value == 0
    ensures t.value == r.spec.value && t.fee == r.fee && t.specHash == env.keccak(c.burnData[TRANSFER_SPEC_OFFSET..])
    ensures t.destinationDomain == r.spec.destinationDomain && t.destinationRecipient == r.spec.destinationRecipient
    ensures t.signer == r.spec.sourceSigner && c.remaining == [t.hashAccount]
    ensures RecoveredSigner(env, c.burnData, c.burnSignature).Some?
    ensures RecoveredSigner(env, c.burnData, c.burnSignature).value in st.cfg.burnSigners
    ensures VerifyUserSignature(env, c.sysvar, |c.burnData| - BURN_INTENT_MESSAGE_PREFIX_OFFSET).Ok?
    ensures c.custody in st.tokens && st.tokens[c.custody].amount >= r.spec.value + r.fee
  {
    hide New, VerifyUserSignature, RecoveredSigner, EncodeSpec;
  }

  /** What the checks demand besides a record that matches. */
  ghost predicate CallFits(env: Env, st: State, c: BurnCall, r: Record) {
    && |c.burnData| >= BURN_INTENT_MESSAGE_PREFIX_OFFSET
    && CoveredByOneOf(env, c.burnData, c.burnSignature, st.cfg.burnSigners)
    && PrecompileComesBefore(env, c.sysvar, |c.burnData| - BURN_INTENT_MESSAGE_PREFIX_OFFSET)
    && |c.remaining| == 1 && c.custody in st.tokens && st.tokens[c.custody].amount >= r.spec.value + r.fee
  }

  lemma FieldsPass(env: Env, st: State, c: BurnCall, d: Deposit, g: Option<Delegate>, b: BurnData, r: Record)
    requires New(c.burnData) == Ok(b) && b.data == c.burnData && Reads(b, r)
    requires RecordMatches(env, st, c, d, g, r) && |c.burnData| >= BURN_INTENT_MESSAGE_PREFIX_OFFSET
    requires RecoveredSigner(env, c.burnData, c.burnSignature).Some?
    requires RecoveredSigner(env, c.burnData, c.burnSignature).value in st.cfg.burnSigners
    requires VerifyUserSignature(env, c.sysvar, |c.burnData| - BURN_INTENT_MESSAGE_PREFIX_OFFSET).Ok?
    requires |c.remaining| == 1 && c.custody in st.tokens && st.tokens[c.custody].amount >= r.spec.value + r.fee
    ensures BurnChecks(env, st, c, d, g).Ok?
  {
    hide New, VerifyUserSignature, RecoveredSigner, EncodeSpec, ValidateSigner;
  }

  /** What a fitting call means for the two signature checks. */
  lemma CallPasses(env: Env, st: State, c: BurnCall, r: Record)
    requires CallFits(env, st, c, r)
    ensures RecoveredSigner(env, c.burnData, c.burnSignature).Some?
    ensures RecoveredSigner(env, c.burnData, c.burnSignature).value in st.cfg.burnSigners
    ensures VerifyUserSignature(env, c.sysvar, |c.burnData| - BURN_INTENT_MESSAGE_PREFIX_OFFSET).Ok?
  {
    hide VerifyUserSignature, RecoveredSigner, ExpectedData, CoveredByOneOf;
    RecoveredEnabledIff(env, c.burnData, c.burnSignature, st.cfg.burnSigners);
    AcceptsExactly(env, c.sysvar, |c.burnData| - BURN_INTENT_MESSAGE_PREFIX_OFFSET);
  }

  lemma ChecksAccept(env: Env, st: State, c: BurnCall, d: Deposit, g: Option<Delegate>)
    requires BurnChecks(env, st, c, d, g).Ok?
    ensures Accepted(c.burnData) && New(c.burnData) == Ok(BurnData(c.burnData))
  {
    hide VerifyUserSignature, RecoveredSigner;
  }

  /** Passing the checks: the burn data is the encoding of one record, which matches everything it is checked
      against. */
  lemma ChecksMatchRecord(env: Env, st: State, c: BurnCall, d: Deposit, g: Option<Delegate>)
    requires BurnChecks(env, st, c, d, g).Ok?
    ensures var t := BurnChecks(env, st, c, d, g).value;
            && Accepted(c.burnData) && |c.burnData| >= TS_HOOK_DATA_OFFSET
            && var r := RecordAt(c.burnData);
               && Encode(r) == c.burnData && RecordMatches(env, st, c, d, g, r)
               && t.value == r.spec.value && t.fee == r.fee && t.specHash == env.keccak(EncodeSpec(r.spec))
               && EncodeSpec(r.spec) == c.burnData[TRANSFER_SPEC_OFFSET..]
               && t.destinationDomain == r.spec.destinationDomain
               && t.destinationRecipient == r.spec.destinationRecipient
               && t.signer == r.spec.sourceSigner && c.remaining == [t.hashAccount]
               && RecoveredSigner(env, c.burnData, c.burnSignature).Some?
               && RecoveredSigner(env, c.burnData, c.burnSignature).value in st.cfg.burnSigners
               && VerifyUserSignature(env, c.sysvar, |c.burnData| - BURN_INTENT_MESSAGE_PREFIX_OFFSET).Ok?
               && c.custody in st.tokens && st.tokens[c.custody].amount >= r.spec.value + r.fee
  {
    hide New, VerifyUserSignature, RecoveredSigner, BurnChecks, RecordMatches;
    ChecksAccept(env, st, c, d, g);
    AcceptedIsEncoded(c.burnData);
    var r := RecordAt(c.burnData);
    EncodedIsAccepted(r);
    FieldsMatch(env, st, c, d, g, BurnData(c.burnData), r, BurnChecks(env, st, c, d, g).value);
  }

  /** The checks pass exactly on the encoding of a record that matches, signed by an enabled burn signer and bound to
      the precompile, with one account for the hash and custody that covers value and fee. */
  lemma ChecksPassIff(env: Env, st: State, c: BurnCall, d: Deposit, g: Option<Delegate>)
    ensures BurnChecks(env, st, c, d, g).Ok?
       <==> exists r :: Encodable(r) && Encode(r) == c.burnData
                        && RecordMatches(env, st, c, d, g, r) && CallFits(env, st, c, r)
  {
    hide BurnChecks, CallFits, RecordMatches, New, Encode, RecoveredSigner, VerifyUserSignature;
    if BurnChecks(env, st, c, d, g).Ok? {
      ChecksFit(env, st, c, d, g);
      AcceptedIsEncoded(c.burnData);
    }
    if r :| Encodable(r) && Encode(r) == c.burnData && RecordMatches(env, st, c, d, g, r) && CallFits(env, st, c, r) {
      EncodedIsAccepted(r);
      AcceptedIsEncoded(c.burnData);
      NewKeepsData(c.burnData);
      CallPasses(env, st, c, r);
      CallIsLong(env, st, c, r);
      FieldsPass(env, st, c, d, g, BurnData(c.burnData), r);
    }
  }

  lemma CallIsLong(env: Env, st: State, c: BurnCall, r: Record)
    requires CallFits(env, st, c, r)
    ensures |c.burnData| >= BURN_INTENT_MESSAGE_PREFIX_OFFSET && |c.remaining| == 1
    ensures c.custody in st.tokens && st.tokens[c.custody].amount >= r.spec.value + r.fee
  {
  }

  lemma NewKeepsData(data: Bytes)
    requires Accepted(data)
    ensures New(data) == Ok(BurnData(data))
  {
  }

  lemma ChecksFit(env: Env, st: State, c: BurnCall, d: Deposit, g: Option<Delegate>)
    requires BurnChecks(env, st, c, d, g).Ok?
    ensures Accepted(c.burnData) && |c.burnData| >= TS_HOOK_DATA_OFFSET
    ensures RecordMatches(env, st, c, d, g, RecordAt(c.burnData)) && CallFits(env, st, c, RecordAt(c.burnData))
  {
    hide VerifyUserSignature, RecoveredSigner, BurnChecks, RecordMatches, ExpectedData, CoveredByOneOf, Encode,
         EncodeSpec, RecordAt, Accepted;
    ChecksMatchRecord(env, st, c, d, g);
    RecoveredEnabledIff(env, c.burnData, c.burnSignature, st.cfg.burnSigners);
    AcceptsExactly(env, c.sysvar, |c.burnData| - BURN_INTENT_MESSAGE_PREFIX_OFFSET);
  }

  // ---------- the split ----------

  /** With T owed to the depositor: min(value, T) is burned, and the fee is the smaller of what is asked and what T
      leaves. */
  function BurnedFor(r: Record, d: Deposit): u64 {
    Min(r.spec.value, Owed(d))
  }

  function ChargedFor(r: Record, d: Deposit): u64 {
    Min(r.fee, if Owed(d) > r.spec.value then Owed(d) - r.spec.value else 0)
  }

  lemma SplitMatches(d: Deposit, t: BurnTerms, r: Record)
    requires t.value == r.spec.value && t.fee == r.fee
    ensures Burned(d, t) == BurnedFor(r, d) && FeeOf(d, t) == ChargedFor(r, d)
    ensures Deducted(d, t) == BurnedFor(r, d) + ChargedFor(r, d)
  {
  }

  /** The terms and the record of a successful burn. */
  lemma BurnRecord(env: Env, st: State, c: BurnCall) returns (t: BurnTerms, r: Record)
    requires BurnStep(env, st, c).Ok?
    ensures BurnMoved(env, st, c, t, BurnStep(env, st, c).value)
    ensures Encode(r) == c.burnData && Encodable(r) && r.fee <= r.maxFee
    ensures t.value == r.spec.value && t.fee == r.fee && t.specHash == env.keccak(EncodeSpec(r.spec))
    ensures t.destinationDomain == r.spec.destinationDomain && t.destinationRecipient == r.spec.destinationRecipient
    ensures t.signer == r.spec.sourceSigner && c.remaining == [t.hashAccount]
  {
    hide BurnStep, BurnChecks, BurnAccounts, BurnMoved;
    t := BurnMoves(env, st, c);
    ChecksMatchRecord(env, st, c, BurnAccounts(env, st, c).value.0, BurnAccounts(env, st, c).value.1);
    AcceptedIsEncoded(c.burnData);
    r := RecordAt(c.burnData);
  }

  /** What a burn does to the ledger: burned and charged are together what the depositor's two balances lose, the
      withdrawing balance is touched only once the available one is exhausted, and no other record changes. */
  lemma BurnLedger(env: Env, st: State, c: BurnCall) returns (r: Record)
    requires BurnStep(env, st, c).Ok?
    ensures Encode(r) == c.burnData && Encodable(r) && c.deposit in st.deposits
    ensures ChargedFor(r, st.deposits[c.deposit]) <= r.maxFee
    ensures var st' := BurnStep(env, st, c).value;
            && c.deposit in st'.deposits
            && var d, d' := st.deposits[c.deposit], st'.deposits[c.deposit];
               && st'.deposits == st.deposits[c.deposit := d']
               && d' == d.(available := d'.available, withdrawing := d'.withdrawing)
               && d'.available <= d.available && d'.withdrawing <= d.withdrawing
               && Owed(d) - Owed(d') == BurnedFor(r, d) + ChargedFor(r, d)
               && (d'.withdrawing < d.withdrawing ==> d'.available == 0)
  {
    hide BurnStep, MoveBurn, ProcessHash, CheckCustody, Encode, BurnEvents;
    var t;
    t, r := BurnRecord(env, st, c);
    var d := st.deposits[c.deposit];
    ReducedOwes(d, t.value + t.fee);
    SplitMatches(d, t, r);
  }

  /** What a burn does to the tokens: custody loses burned and charged, the fee account gains the charge, every other
      account is untouched, and the mint's supply falls by exactly what was burned. */
  lemma BurnTokens(env: Env, st: State, c: BurnCall, m: Pubkey, k: Pubkey) returns (r: Record)
    requires BurnStep(env, st, c).Ok?
    ensures Encode(r) == c.burnData && Encodable(r) && c.deposit in st.deposits
    ensures var st' := BurnStep(env, st, c).value;
            var d := st.deposits[c.deposit];
            && Amount(st'.tokens, k) == Amount(st.tokens, k)
                 - (if k == c.custody then BurnedFor(r, d) + ChargedFor(r, d) else 0)
                 + (if k == c.feeToken then ChargedFor(r, d) else 0)
            && Supply(st'.tokens, m) == Supply(st.tokens, m) - (if m == c.mint then BurnedFor(r, d) else 0)
  {
    hide BurnStep, MoveBurn, ProcessHash, CheckCustody, Encode, BurnEvents, Supply, FeeOf, Burned, BurnedFor,
         ChargedFor;
    var t;
    t, r := BurnRecord(env, st, c);
    var d := st.deposits[c.deposit];
    SplitMatches(d, t, r);
    MoveBurnEffect(env, st.tokens, c, FeeOf(d, t), Burned(d, t));
    MoveBurnSupply(env, st.tokens, c, FeeOf(d, t), Burned(d, t), m);
  }

  /** What a burn reports: the split and the hash of the transfer spec, after a shortfall notice exactly when the
      depositor is owed less than value and fee. */
  lemma BurnReport(env: Env, st: State, c: BurnCall) returns (r: Record)
    requires BurnStep(env, st, c).Ok?
    ensures Encode(r) == c.burnData && Encodable(r) && c.deposit in st.deposits && r.spec.value + r.fee <= U64_MAX
    ensures var st' := BurnStep(env, st, c).value;
            && c.deposit in st'.deposits
            && var d, d' := st.deposits[c.deposit], st'.deposits[c.deposit];
               && d'.available <= d.available && d'.withdrawing <= d.withdrawing
               && var fa, fw := d.available - d'.available, d.withdrawing - d'.withdrawing;
                  var done := GatewayBurned(c.deposit, env.keccak(EncodeSpec(r.spec)), r.spec.destinationDomain,
                                            r.spec.destinationRecipient, r.spec.sourceSigner, BurnedFor(r, d),
                                            ChargedFor(r, d), fa, fw);
                  var short := InsufficientBalance(c.deposit, r.spec.value + r.fee, fa, fw);
                  st'.log == st.log + Logged(st, if Owed(d) < r.spec.value + r.fee then [short, done] else [done])
  {
    hide BurnStep, MoveBurn, ProcessHash, CheckCustody, Encode, FeeOf, Burned, BurnedFor, ChargedFor;
    var t;
    t, r := BurnRecord(env, st, c);
    SplitMatches(st.deposits[c.deposit], t, r);
  }
}
