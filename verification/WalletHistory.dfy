/** Safety over whole runs of the wallet: no transfer spec is burned twice, nobody signs a burn without the
    depositor's delegation, and the gates hold for as long as they are closed. */
module WalletHistory {
  import opened Base
  import opened Runtime
  import opened Tokens
  import opened UsedHashes
  import opened Registry
  import opened BurnData
  import opened Ed25519
  import opened Wallet
  import opened WalletFacts
  import opened WalletSolvency
  import opened WalletReachable
  import opened WalletBurn

  // ---------- at most once ----------

  ghost predicate BurnedHashesUsed(env: Env, st: State) {
    forall i :: 0 <= i < |st.log| && st.log[i].event.GatewayBurned? ==>
      HashUsed(env, st.accounts, st.log[i].event.specHash, USED_DISCRIMINATOR)
  }

  ghost predicate BurnedOnce(log: seq<Entry>) {
    forall i, j :: 0 <= i < j < |log| && log[i].event.GatewayBurned? && log[j].event.GatewayBurned? ==>
      log[i].event.specHash != log[j].event.specHash
  }

  ghost predicate Once(env: Env, st: State) {
    && UsedAreOwned(env, st.accounts, USED_DISCRIMINATOR) && BurnedHashesUsed(env, st) && BurnedOnce(st.log)
  }

  /** The entries of a burn: the last one, and only that one, reports the hash. */
  lemma BurnLogs(st: State, c: BurnCall, d: Deposit, t: BurnTerms)
    ensures var log := st.log + Logged(st, BurnEvents(c, d, t));
            && |st.log| < |log| <= |st.log| + 2 && log[..|st.log|] == st.log
            && (forall i :: |st.log| <= i < |log| - 1 ==> !log[i].event.GatewayBurned?)
            && log[|log| - 1].event.GatewayBurned? && log[|log| - 1].event.specHash == t.specHash
  {
    hide FeeOf, Burned;
    var es := BurnEvents(c, d, t);
    var entries := Logged(st, es);
    assert |entries| == |es| && forall i :: 0 <= i < |es| ==> entries[i].event == es[i];
  }

  /** The hash that a burn marks: unused before, used after, and every used hash stays used. */
  lemma BurnMarks(env: Env, st: State, c: BurnCall) returns (r: Record)
    requires BurnStep(env, st, c).Ok?
    ensures Encode(r) == c.burnData && Encodable(r)
    ensures var st', h := BurnStep(env, st, c).value, env.keccak(EncodeSpec(r.spec));
            && !HashUsed(env, st.accounts, h, USED_DISCRIMINATOR) && HashUsed(env, st'.accounts, h, USED_DISCRIMINATOR)
            && (forall x: Bytes32 :: HashUsed(env, st.accounts, x, USED_DISCRIMINATOR) ==>
                HashUsed(env, st'.accounts, x, USED_DISCRIMINATOR))
            && (UsedAreOwned(env, st.accounts, USED_DISCRIMINATOR) ==>
                UsedAreOwned(env, st'.accounts, USED_DISCRIMINATOR))
            && |st.log| < |st'.log| <= |st.log| + 2 && st'.log[..|st.log|] == st.log
            && (forall i :: |st.log| <= i < |st'.log| - 1 ==> !st'.log[i].event.GatewayBurned?)
            && st'.log[|st'.log| - 1].event.GatewayBurned? && st'.log[|st'.log| - 1].event.specHash == h
  {
    hide BurnStep, MoveBurn, CheckCustody, HashUsed, UsedAreOwned, Encode, EncodeSpec, ProcessHash, Logged, BurnEvents;
    var t;
    t, r := BurnRecord(env, st, c);
    ProcessMarksOnce(env, st.accounts, c.payer, t.hashAccount, t.specHash, USED_DISCRIMINATOR);
    BurnLogs(st, c, st.deposits[c.deposit], t);
  }

  lemma BurnKeepsOnce(env: Env, st: State, c: BurnCall)
    requires Once(env, st) && BurnStep(env, st, c).Ok?
    ensures Once(env, BurnStep(env, st, c).value)
  {
    hide BurnStep, HashUsed, UsedAreOwned, Encode, EncodeSpec;
    var r := BurnMarks(env, st, c);
    var st', n := BurnStep(env, st, c).value, |st.log|;
    assert forall i :: 0 <= i < n ==> st'.log[i] == st'.log[..n][i];
  }

  lemma QuietKeepsOnce(env: Env, st: State, st': State)
    requires Once(env, st) && st'.accounts == st.accounts
    requires st'.log == st.log
             || (|st'.log| > |st.log| && LogsOne(st, st', st'.log[|st.log|].event)
                 && !st'.log[|st.log|].event.GatewayBurned?)
    ensures Once(env, st')
  {
    hide HashUsed, UsedAreOwned;
  }

  lemma StepKeepsOnce(env: Env, st: State, c: Call)
    requires Once(env, st) && Step(env, st, c).Ok?
    ensures Once(env, Step(env, st, c).value)
  {
    hide BurnStep, DepositStep, InitiateWithdrawalStep, WithdrawStep, AddDelegateStep, RemoveDelegateStep, AdminStep,
         Once;
    var st' := Step(env, st, c).value;
    match c
    case DepositCall(owner, ownerToken, custody, amount) =>
      var _ := DepositFacts(env, st, owner, ownerToken, custody, owner, amount, false);
      QuietKeepsOnce(env, st, st');
    case DepositForCall(owner, ownerToken, custody, amount, depositor) =>
      var _ := DepositFacts(env, st, owner, ownerToken, custody, depositor, amount, true);
      QuietKeepsOnce(env, st, st');
    case InitiateWithdrawalCall(depositor, mint, amount) =>
      var _ := InitiateFacts(env, st, depositor, mint, amount);
      QuietKeepsOnce(env, st, st');
    case WithdrawCall(depositor, mint, custody, depositorToken) =>
      var _ := WithdrawFacts(env, st, depositor, mint, custody, depositorToken);
      QuietKeepsOnce(env, st, st');
    case GatewayBurnCall(b) => BurnKeepsOnce(env, st, b);
    case AddDelegateCall(depositor, mint, delegate) =>
      var _ := AddDelegateFacts(env, st, depositor, mint, delegate);
      QuietKeepsOnce(env, st, st');
    case RemoveDelegateCall(depositor, mint, delegate) =>
      var _ := RemoveDelegateFacts(env, st, depositor, mint, delegate);
      QuietKeepsOnce(env, st, st');
    case AdminCall(signer, a) =>
      AdminFacts(env, st, signer, a);
      QuietKeepsOnce(env, st, st');
  }

  lemma OutsideKeepsOnce(env: Env, st: State, tokens: TokenMap, accounts: Accounts, slot: u64)
    requires Once(env, st) && OutsideOk(env, st, tokens, accounts, slot)
    ensures Once(env, st.(tokens := tokens, accounts := accounts, slot := slot))
  {
    hide Supply;
    forall i | 0 <= i < |st.log| && st.log[i].event.GatewayBurned?
      ensures HashUsed(env, accounts, st.log[i].event.specHash, USED_DISCRIMINATOR)
    {
      UsedStaysUsed(env, st.accounts, accounts, st.log[i].event.specHash, USED_DISCRIMINATOR);
    }
  }

  lemma {:induction false} RunKeepsOnce(env: Env, st: State, actions: seq<Action>)
    requires Once(env, st)
    ensures Once(env, Run(env, st, actions))
  {
    hide Once, Step, OutsideOk;
    if actions == [] {
    } else {
      var before := Run(env, st, actions[..|actions| - 1]);
      RunKeepsOnce(env, st, actions[..|actions| - 1]);
      match actions[|actions| - 1]
      case Program(c) =>
        if Step(env, before, c).Ok? {
          StepKeepsOnce(env, before, c);
        }
      case Outside(tokens, accounts, slot) =>
        if OutsideOk(env, before, tokens, accounts, slot) {
          OutsideKeepsOnce(env, before, tokens, accounts, slot);
        }
    }
  }

  /** Over every run, no two burns carry the same transfer spec hash. */
  lemma NoHashBurnedTwice(env: Env, st: State)
    requires Reachable(env, st)
    ensures BurnedOnce(st.log)
  {
    var st0, actions :| Initial(env, st0) && st == Run(env, st0, actions);
    RunKeepsOnce(env, st0, actions);
  }

  lemma StepKeepsUsed(env: Env, st: State, c: Call, h: Bytes32)
    requires Step(env, st, c).Ok? && HashUsed(env, st.accounts, h, USED_DISCRIMINATOR)
    ensures HashUsed(env, Step(env, st, c).value.accounts, h, USED_DISCRIMINATOR)
  {
    hide BurnStep, DepositStep, InitiateWithdrawalStep, WithdrawStep, AddDelegateStep, RemoveDelegateStep, AdminStep,
         HashUsed;
    match c
    case DepositCall(owner, ownerToken, custody, amount) =>
      var _ := DepositFacts(env, st, owner, ownerToken, custody, owner, amount, false);
    case DepositForCall(owner, ownerToken, custody, amount, depositor) =>
      var _ := DepositFacts(env, st, owner, ownerToken, custody, depositor, amount, true);
    case InitiateWithdrawalCall(depositor, mint, amount) => var _ := InitiateFacts(env, st, depositor, mint, amount);
    case WithdrawCall(depositor, mint, custody, depositorToken) =>
      var _ := WithdrawFacts(env, st, depositor, mint, custody, depositorToken);
    case GatewayBurnCall(b) => var _ := BurnMarks(env, st, b);
    case AddDelegateCall(depositor, mint, delegate) => var _ := AddDelegateFacts(env, st, depositor, mint, delegate);
    case RemoveDelegateCall(depositor, mint, delegate) =>
      var _ := RemoveDelegateFacts(env, st, depositor, mint, delegate);
    case AdminCall(signer, a) => AdminFacts(env, st, signer, a);
  }

  /** Once used, a hash stays used under every later instruction and every outside step. */
  lemma {:induction false} RunKeepsUsed(env: Env, st: State, actions: seq<Action>, h: Bytes32)
    requires Inv(env, st) && HashUsed(env, st.accounts, h, USED_DISCRIMINATOR)
    ensures HashUsed(env, Run(env, st, actions).accounts, h, USED_DISCRIMINATOR)
  {
    hide Inv, Step, HashUsed, Supply;
    if actions == [] {
    } else {
      var before := Run(env, st, actions[..|actions| - 1]);
      RunKeepsUsed(env, st, actions[..|actions| - 1], h);
      RunKeeps(env, st, actions[..|actions| - 1]);
      InvOwns(env, before);
      match actions[|actions| - 1]
      case Program(c) =>
        if Step(env, before, c).Ok? {
          StepKeepsUsed(env, before, c, h);
        }
      case Outside(tokens, accounts, slot) =>
        if OutsideOk(env, before, tokens, accounts, slot) {
          UsedStaysUsed(env, before.accounts, accounts, h, USED_DISCRIMINATOR);
        }
    }
  }

  lemma InvOwns(env: Env, st: State)
    requires Inv(env, st)
    ensures UsedAreOwned(env, st.accounts, USED_DISCRIMINATOR)
  {
  }

  /** Two burn data with the same transfer spec cannot both be burned, whatever their fees, signatures, expiries and
      maximum fees, and whatever happens in between. */
  lemma SameSpecBurnsOnce(env: Env, st: State, c1: BurnCall, actions: seq<Action>, c2: BurnCall)
    requires Inv(env, st) && BurnStep(env, st, c1).Ok?
    requires |c1.burnData| >= TRANSFER_SPEC_OFFSET && |c2.burnData| >= TRANSFER_SPEC_OFFSET
    requires c1.burnData[TRANSFER_SPEC_OFFSET..] == c2.burnData[TRANSFER_SPEC_OFFSET..]
    ensures BurnStep(env, Run(env, BurnStep(env, st, c1).value, actions), c2).Err?
  {
    hide Inv, BurnStep, BurnMoved, Run, HashUsed, Encodable;
    var st1 := BurnStep(env, st, c1).value;
    var st2 := Run(env, st1, actions);
    StepKeeps(env, st, GatewayBurnCall(c1));
    if BurnStep(env, st2, c2).Ok? {
      var r1 := BurnMarks(env, st, c1);
      var r2 := BurnMarks(env, st2, c2);
      SpecSuffix(r1);
      SpecSuffix(r2);
      RunKeepsUsed(env, st1, actions, env.keccak(EncodeSpec(r1.spec)));
      assert false;
    }
  }

  lemma SpecSuffix(r: Record)
    ensures |Encode(r)| >= TRANSFER_SPEC_OFFSET && Encode(r)[TRANSFER_SPEC_OFFSET..] == EncodeSpec(r.spec)
  {
    HeadFits(r);
  }

  // ---------- delegation ----------

  ghost predicate WasAdded(log: seq<Entry>, k: DelegateKey) {
    exists i :: 0 <= i < |log| && log[i].event == DelegateAdded(k)
  }

  /** An existing delegate record matches its key, is never unauthorized, and was added by its depositor. */
  ghost predicate DelegateOk(st: State, k: DelegateKey) {
    k in st.delegates ==>
      && st.delegates[k].status != Unauthorized
      && st.delegates[k].token == k.mint && st.delegates[k].depositor == k.depositor
      && st.delegates[k].delegate == k.delegate
      && WasAdded(st.log, k)
  }

  ghost predicate DelegatesOk(st: State) {
    forall k :: DelegateOk(st, k)
  }

  lemma LongerLog(log: seq<Entry>, log': seq<Entry>, k: DelegateKey)
    requires WasAdded(log, k) && log <= log'
    ensures WasAdded(log', k)
  {
    var i :| 0 <= i < |log| && log[i].event == DelegateAdded(k);
    assert log'[i] == log[i];
  }

  lemma SameDelegates(st: State, st': State)
    requires DelegatesOk(st) && st'.delegates == st.delegates && st.log <= st'.log
    ensures DelegatesOk(st')
  {
    forall k
      ensures DelegateOk(st', k)
    {
      assert DelegateOk(st, k);
      if k in st.delegates {
        LongerLog(st.log, st'.log, k);
      }
    }
  }

  lemma StepDelegates(env: Env, st: State, c: Call)
    requires DelegatesOk(st) && Step(env, st, c).Ok?
    ensures DelegatesOk(Step(env, st, c).value)
  {
    hide BurnStep, DepositStep, InitiateWithdrawalStep, WithdrawStep, AddDelegateStep, RemoveDelegateStep, AdminStep,
         DelegatesOk, BurnMoved;
    var st' := Step(env, st, c).value;
    match c
    case DepositCall(owner, ownerToken, custody, amount) =>
      var _ := DepositFacts(env, st, owner, ownerToken, custody, owner, amount, false);
      SameDelegates(st, st');
    case DepositForCall(owner, ownerToken, custody, amount, depositor) =>
      var _ := DepositFacts(env, st, owner, ownerToken, custody, depositor, amount, true);
      SameDelegates(st, st');
    case InitiateWithdrawalCall(depositor, mint, amount) =>
      var _ := InitiateFacts(env, st, depositor, mint, amount);
      SameDelegates(st, st');
    case WithdrawCall(depositor, mint, custody, depositorToken) =>
      var _ := WithdrawFacts(env, st, depositor, mint, custody, depositorToken);
      SameDelegates(st, st');
    case GatewayBurnCall(b) =>
      var t := BurnMoves(env, st, b);
      BurnFrame(env, st, b, t, st');
      SameDelegates(st, st');
    case AddDelegateCall(depositor, mint, delegate) =>
      var k := AddDelegateFacts(env, st, depositor, mint, delegate);
      AddedDelegate(st, st', k);
    case RemoveDelegateCall(depositor, mint, delegate) =>
      var k := RemoveDelegateFacts(env, st, depositor, mint, delegate);
      if st' != st {
        RevokedDelegate(st, st', k);
      }
    case AdminCall(signer, a) =>
      AdminFacts(env, st, signer, a);
      SameDelegates(st, st');
  }

  lemma BurnFrame(env: Env, st: State, c: BurnCall, t: BurnTerms, st': State)
    requires BurnMoved(env, st, c, t, st')
    ensures st'.delegates == st.delegates && st.log <= st'.log && st'.cfg == st.cfg && st'.denylist == st.denylist
  {
  }

  lemma AddedDelegate(st: State, st': State, k: DelegateKey)
    requires DelegatesOk(st) && LogsOne(st, st', DelegateAdded(k))
    requires st'.delegates == st.delegates[k := Delegate(Authorized, k.mint, k.depositor, k.delegate)]
    ensures DelegatesOk(st')
  {
    assert st'.log[|st.log|].event == DelegateAdded(k);
    forall x
      ensures DelegateOk(st', x)
    {
      assert DelegateOk(st, x);
      if x != k && x in st.delegates {
        LongerLog(st.log, st'.log, x);
      }
    }
  }

  lemma RevokedDelegate(st: State, st': State, k: DelegateKey)
    requires DelegatesOk(st) && LogsOne(st, st', DelegateRemoved(k)) && k in st.delegates
    requires st'.delegates == st.delegates[k := st.delegates[k].(status := Revoked)]
    ensures DelegatesOk(st')
  {
    forall x
      ensures DelegateOk(st', x)
    {
      assert DelegateOk(st, x);
      if x in st.delegates {
        LongerLog(st.log, st'.log, x);
      }
    }
  }

  lemma {:induction false} RunDelegates(env: Env, st: State, actions: seq<Action>)
    requires DelegatesOk(st)
    ensures DelegatesOk(Run(env, st, actions))
  {
    hide DelegatesOk, Step;
    if actions == [] {
    } else {
      var before := Run(env, st, actions[..|actions| - 1]);
      RunDelegates(env, st, actions[..|actions| - 1]);
      match actions[|actions| - 1]
      case Program(c) =>
        if Step(env, before, c).Ok? {
          StepDelegates(env, before, c);
        }
      case Outside(tokens, accounts, slot) => SameDelegates(before, Run(env, st, actions));
    }
  }

  lemma ReachableDelegates(env: Env, st: State)
    requires Reachable(env, st)
    ensures DelegatesOk(st)
  {
    var st0, actions :| Initial(env, st0) && st == Run(env, st0, actions);
    RunDelegates(env, st0, actions);
  }

  /** Who must have agreed to a burn: an enabled burn signer signed the burn data; and its source signer is the
      depositor, or a delegate that the depositor once added for that very mint, even if since revoked. */
  lemma BurnWasAuthorized(env: Env, st: State, c: BurnCall) returns (r: Record)
    requires Reachable(env, st) && BurnStep(env, st, c).Ok?
    ensures Encodable(r) && Encode(r) == c.burnData && c.deposit == Key(c.mint, r.spec.sourceDepositor)
    ensures CoveredByOneOf(env, c.burnData, c.burnSignature, st.cfg.burnSigners)
    ensures r.spec.sourceSigner == r.spec.sourceDepositor
         || WasAdded(st.log, DelegateKey(c.mint, r.spec.sourceDepositor, r.spec.sourceSigner))
  {
    hide Reachable, BurnChecks, RecoveredSigner, Accepted, VerifyUserSignature, BurnEffects, CheckCustody, DelegatesOk,
         Encodable, WasAdded, IsTokenAccount, SignedBy, Encode, CoveredByOneOf;
    RecoveredEnabledIff(env, c.burnData, c.burnSignature, st.cfg.burnSigners);
    ReachableDelegates(env, st);
    var a := BurnAccounts(env, st, c).value;
    ChecksMatchRecord(env, st, c, a.0, a.1);
    AcceptedIsEncoded(c.burnData);
    r := RecordAt(c.burnData);
    if a.1.Some? {
      DelegateRecorded(st, c.delegate.value);
    }
  }

  /** The burn signature covers the burn data, written out: it has 65 bytes and recovers, from the keccak hash of the
      28-byte Ethereum prefix and the burn data's own hash, to a signer enabled at that moment. */
  lemma BurnSignatureCoversData(env: Env, st: State, c: BurnCall) returns (s: Pubkey)
    requires BurnStep(env, st, c).Ok?
    ensures |c.burnSignature| == 65 && s in st.cfg.burnSigners
    ensures env.recover(
              env.keccak([0x19, 0x45, 0x74, 0x68, 0x65, 0x72, 0x65, 0x75, 0x6d, 0x20, 0x53, 0x69, 0x67, 0x6e,
                          0x65, 0x64, 0x20, 0x4d, 0x65, 0x73, 0x73, 0x61, 0x67, 0x65, 0x3a, 0x0a, 0x33, 0x32]
                         + env.keccak(c.burnData)),
              c.burnSignature) == Some(s)
  {
    hide BurnChecks, BurnAccounts, BurnEffects, RecoveredSigner;
    var a := BurnAccounts(env, st, c).value;
    assert CoveredByOneOf(env, c.burnData, c.burnSignature, st.cfg.burnSigners) by {
      hide SignatureCovers;
      ChecksMatchRecord(env, st, c, a.0, a.1);
      RecoveredEnabledIff(env, c.burnData, c.burnSignature, st.cfg.burnSigners);
    }
    s :| s in st.cfg.burnSigners && SignatureCovers(env, c.burnData, c.burnSignature, s);
  }

  /** A signature made for other burn data burns nothing: the call fails on every burn data whose own signed hash does
      not recover to an enabled signer. */
  lemma UncoveredBurnFails(env: Env, st: State, c: BurnCall, data: Bytes)
    requires forall s :: s in st.cfg.burnSigners ==> !SignatureCovers(env, data, c.burnSignature, s)
    ensures BurnStep(env, st, c.(burnData := data)).Err?
  {
    hide BurnStep, SignatureCovers;
    if BurnStep(env, st, c.(burnData := data)).Ok? {
      var s := BurnSignatureCoversData(env, st, c.(burnData := data));
      CoversUnfolds(env, data, c.burnSignature, s);
    }
  }

  lemma CoversUnfolds(env: Env, message: Bytes, signature: Bytes, s: Pubkey)
    ensures SignatureCovers(env, message, signature, s)
       <==> |signature| == 65
            && env.recover(
                 env.keccak([0x19, 0x45, 0x74, 0x68, 0x65, 0x72, 0x65, 0x75, 0x6d, 0x20, 0x53, 0x69, 0x67, 0x6e,
                             0x65, 0x64, 0x20, 0x4d, 0x65, 0x73, 0x73, 0x61, 0x67, 0x65, 0x3a, 0x0a, 0x33, 0x32]
                            + env.keccak(message)),
                 signature) == Some(s)
  {
  }

  /** A burn with both signatures behind it: an enabled burn signer's, and in its record that of the depositor or of a
      delegate the depositor once added for that mint. */
  ghost predicate BurnAgreed(env: Env, st: State, c: BurnCall) {
    && CoveredByOneOf(env, c.burnData, c.burnSignature, st.cfg.burnSigners)
    && exists r :: Encodable(r) && Encode(r) == c.burnData && c.deposit == Key(c.mint, r.spec.sourceDepositor)
                   && (r.spec.sourceSigner == r.spec.sourceDepositor
                       || WasAdded(st.log, DelegateKey(c.mint, r.spec.sourceDepositor, r.spec.sourceSigner)))
  }

  /** The two ways of taking from what k is owed: k's own withdrawal, or a burn on k that was agreed. */
  ghost predicate Debits(env: Env, st: State, a: Action, k: Key) {
    && a.Program? && Step(env, st, a.call).Ok?
    && (|| (a.call.WithdrawCall? && Key(a.call.mint, a.call.depositor) == k)
        || (a.call.GatewayBurnCall? && a.call.burn.deposit == k && BurnAgreed(env, st, a.call.burn)))
  }

  lemma OnlyTwoDebits(env: Env, st: State, c: Call, k: Key)
    requires Step(env, st, c).Ok? && OwedAt(Step(env, st, c).value.deposits, k) < OwedAt(st.deposits, k)
    ensures (c.WithdrawCall? && Key(c.mint, c.depositor) == k) || (c.GatewayBurnCall? && c.burn.deposit == k)
  {
    hide BurnStep, DepositStep, InitiateWithdrawalStep, WithdrawStep, AddDelegateStep, RemoveDelegateStep, AdminStep,
         BurnedFor, ChargedFor, Encode;
    match c
    case DepositCall(owner, ownerToken, custody, amount) =>
      var _ := DepositFacts(env, st, owner, ownerToken, custody, owner, amount, false);
    case DepositForCall(owner, ownerToken, custody, amount, depositor) =>
      var _ := DepositFacts(env, st, owner, ownerToken, custody, depositor, amount, true);
    case InitiateWithdrawalCall(depositor, m, amount) => var _ := InitiateFacts(env, st, depositor, m, amount);
    case WithdrawCall(depositor, m, custody, depositorToken) =>
      var _ := WithdrawFacts(env, st, depositor, m, custody, depositorToken);
    case GatewayBurnCall(b) => var _ := BurnLedger(env, st, b);
    case AddDelegateCall(depositor, m, delegate) => var _ := AddDelegateFacts(env, st, depositor, m, delegate);
    case RemoveDelegateCall(depositor, m, delegate) => var _ := RemoveDelegateFacts(env, st, depositor, m, delegate);
    case AdminCall(signer, a) => AdminFacts(env, st, signer, a);
  }

  lemma OwedFallsStep(env: Env, st: State, a: Action, k: Key)
    requires Reachable(env, st) && OwedAt(Apply(env, st, a).deposits, k) < OwedAt(st.deposits, k)
    ensures Debits(env, st, a, k)
  {
    hide Reachable, Step, WasAdded, Encode, Encodable, CoveredByOneOf, OutsideOk;
    OnlyTwoDebits(env, st, a.call, k);
    if a.call.GatewayBurnCall? {
      BurnIsAgreed(env, st, a.call.burn);
    }
  }

  lemma BurnIsAgreed(env: Env, st: State, c: BurnCall)
    requires Reachable(env, st) && Step(env, st, GatewayBurnCall(c)).Ok?
    ensures BurnAgreed(env, st, c)
  {
    hide Reachable, BurnStep, WasAdded, Encode, Encodable, CoveredByOneOf;
    var r := BurnWasAuthorized(env, st, c);
  }

  /** Over every run, each fall of what k is owed is k's own withdrawal or an agreed burn on k. */
  lemma OwedFallsOnlyByConsent(env: Env, st: State, actions: seq<Action>, k: Key, i: nat)
    requires Reachable(env, st) && i < |actions|
    requires OwedAt(Run(env, st, actions[..i + 1]).deposits, k) < OwedAt(Run(env, st, actions[..i]).deposits, k)
    ensures Debits(env, Run(env, st, actions[..i]), actions[i], k)
  {
    hide Apply, Debits;
    assert actions[..i + 1][..i] == actions[..i];
    ReachableRun(env, st, actions[..i]);
    OwedFallsStep(env, Run(env, st, actions[..i]), actions[i], k);
  }

  lemma ReachableRun(env: Env, st: State, actions: seq<Action>)
    requires Reachable(env, st)
    ensures Reachable(env, Run(env, st, actions))
  {
    hide Initial, Run;
    var st0, before :| Initial(env, st0) && st == Run(env, st0, before);
    RunAppend(env, st0, before, actions);
  }

  /** A depositor who is owed less at the end of a run than at its start withdrew, or agreed to a burn, on the way. */
  lemma {:induction false} LessOwedMeansDebited(env: Env, st: State, actions: seq<Action>, k: Key) returns (i: nat)
    requires Reachable(env, st) && OwedAt(Run(env, st, actions).deposits, k) < OwedAt(st.deposits, k)
    ensures i < |actions| && Debits(env, Run(env, st, actions[..i]), actions[i], k)
  {
    hide Apply, Debits, Reachable;
    var n := |actions| - 1;
    assert actions[..n + 1] == actions;
    if OwedAt(Run(env, st, actions).deposits, k) < OwedAt(Run(env, st, actions[..n]).deposits, k) {
      OwedFallsOnlyByConsent(env, st, actions, k, n);
      i := n;
    } else {
      i := LessOwedMeansDebited(env, st, actions[..n], k);
      assert actions[..n][..i] == actions[..i];
    }
  }

  /** When the burn is the transaction's current instruction and the precompile passed on the instruction before it,
      the record's source signer signed the prefix and the whole burn intent. */
  lemma BurnWasSigned(env: Env, st: State, c: BurnCall, discriminator: Bytes) returns (r: Record)
    requires BurnStep(env, st, c).Ok?
    requires |discriminator| == 2 && 0 < c.sysvar.current < |c.sysvar.instructions|
    requires c.sysvar.instructions[c.sysvar.current].data
          == BurnInstructionData(discriminator, c.burnData, c.burnSignature)
    requires |c.sysvar.instructions[c.sysvar.current - 1].data| == HEADER_SIZE
    requires PrecompilePasses(env, c.sysvar, c.sysvar.instructions[c.sysvar.current - 1].data)
    ensures Encode(r) == c.burnData && |c.burnData| >= BURN_INTENT_MESSAGE_PREFIX_OFFSET
    ensures env.ed25519Verify(r.userSignature, r.spec.sourceSigner.bytes,
                              c.burnData[BURN_INTENT_MESSAGE_PREFIX_OFFSET..])
  {
    hide BurnChecks, BurnAccounts, RecoveredSigner, Accepted, VerifyUserSignature, PrecompilePasses, BurnEffects,
         BurnInstructionData, RecordMatches;
    var a := BurnAccounts(env, st, c).value;
    ChecksMatchRecord(env, st, c, a.0, a.1);
    AcceptedIsEncoded(c.burnData);
    r := RecordAt(c.burnData);
    PrecompileChecksTheBurn(env, c.sysvar, discriminator, r, c.burnSignature);
  }

  /** What the accepted header says in general, also of a burn that another program invokes: that the precompile passed
      binds the burn to its own signature exactly when the windows of the transaction's current instruction, if they
      exist, are the record's fields. */
  lemma BurnBoundIff(env: Env, st: State, c: BurnCall) returns (r: Record)
    requires BurnStep(env, st, c).Ok?
    ensures Encodable(r) && Encode(r) == c.burnData && BURN_INTENT_MESSAGE_PREFIX_OFFSET <= |c.burnData|
    ensures 0 < c.sysvar.current <= |c.sysvar.instructions|
    ensures |c.sysvar.instructions[c.sysvar.current - 1].data| == HEADER_SIZE
    ensures var header := c.sysvar.instructions[c.sysvar.current - 1].data;
            var message := c.burnData[BURN_INTENT_MESSAGE_PREFIX_OFFSET..];
            var s, k, m := SignatureWindow(c.sysvar), KeyWindow(c.sysvar), MessageWindow(c.sysvar, |message|);
            Binds(env, c.sysvar, header, r.userSignature, r.spec.sourceSigner.bytes, message)
            <==> (s.Some? && k.Some? && m.Some? ==>
                    s.value == r.userSignature && k.value == r.spec.sourceSigner.bytes && m.value == message)
  {
    hide BurnChecks, BurnAccounts, RecoveredSigner, VerifyUserSignature, BurnEffects, RecordMatches, ExpectedData,
         Binds;
    var a := BurnAccounts(env, st, c).value;
    ChecksMatchRecord(env, st, c, a.0, a.1);
    r := RecordAt(c.burnData);
    var message := c.burnData[BURN_INTENT_MESSAGE_PREFIX_OFFSET..];
    AcceptsExactly(env, c.sysvar, |message|);
    BindsIff(env, c.sysvar, |message|, r.userSignature, r.spec.sourceSigner.bytes, message);
    AcceptedIsEncoded(c.burnData);
  }

  /** In no environment does a burn depend on the transaction's current instruction: with any other in its place, the
      outcome and the state are the same. */
  lemma BurnIgnoresCurrent(env: Env, st: State, c: BurnCall, i: Instruction)
    requires c.sysvar.current < |c.sysvar.instructions|
    ensures BurnStep(env, st, c.(sysvar := WithCurrent(c.sysvar, i))) == BurnStep(env, st, c)
  {
    hide BurnChecks, CheckCustody, LoadDelegate, IsTokenAccount, ProcessHash;
    var c' := c.(sysvar := WithCurrent(c.sysvar, i));
    var a := BurnAccounts(env, st, c);
    assert BurnAccounts(env, st, c') == a;
    if a.Ok? {
      ChecksIgnoreCurrent(env, st, c, i, a.value.0, a.value.1);
    }
  }

  lemma ChecksIgnoreCurrent(env: Env, st: State, c: BurnCall, i: Instruction, d: Deposit, g: Option<Delegate>)
    requires c.sysvar.current < |c.sysvar.instructions|
    ensures BurnChecks(env, st, c.(sysvar := WithCurrent(c.sysvar, i)), d, g) == BurnChecks(env, st, c, d, g)
  {
    hide VerifyUserSignature, RecoveredSigner, New, ValidateSigner, WithCurrent;
    forall n: nat
      ensures VerifyUserSignature(env, WithCurrent(c.sysvar, i), n) == VerifyUserSignature(env, c.sysvar, n)
    {
      VerifyIgnoresCurrent(env, c.sysvar, i, n);
    }
  }

  /** So every burn that succeeds, at top level too, succeeds just the same under some current instruction of any
      program to whose data it is not bound. */
  lemma EveryBurnCanBeUnbound(env: Env, st: State, c: BurnCall, programId: Pubkey) returns (i: Instruction, r: Record)
    requires BurnStep(env, st, c).Ok? && c.sysvar.current < |c.sysvar.instructions|
    ensures i.programId == programId
    ensures BurnStep(env, st, c.(sysvar := WithCurrent(c.sysvar, i))) == BurnStep(env, st, c)
    ensures Encodable(r) && Encode(r) == c.burnData && BURN_INTENT_MESSAGE_PREFIX_OFFSET <= |c.burnData|
    ensures 0 < c.sysvar.current && |c.sysvar.instructions[c.sysvar.current - 1].data| == HEADER_SIZE
    ensures !Binds(env, WithCurrent(c.sysvar, i), c.sysvar.instructions[c.sysvar.current - 1].data, r.userSignature,
                   r.spec.sourceSigner.bytes, c.burnData[BURN_INTENT_MESSAGE_PREFIX_OFFSET..])
  {
    hide BurnStep, Encode, Encodable, Binds, Window;
    r := BurnBoundIff(env, st, c);
    var x: byte := if r.userSignature[0] == 0 then 1 else 0;
    var size := |c.burnData| + HEADER_SIZE + TS_HOOK_DATA_OFFSET;
    i := Instruction(programId, seq(size, _ => x));
    var c' := c.(sysvar := WithCurrent(c.sysvar, i));
    BurnIgnoresCurrent(env, st, c, i);
    var r' := BurnBoundIff(env, st, c');
    RecordInjective(r, r');
    UniformWindow(c'.sysvar, 14, 64, size, x);
    UniformWindow(c'.sysvar, 374, 32, size, x);
    UniformWindow(c'.sysvar, 78, |c.burnData| - BURN_INTENT_MESSAGE_PREFIX_OFFSET, size, x);
    assert seq(64, _ => x)[0] == x;
  }

  lemma DelegateRecorded(st: State, k: DelegateKey)
    requires DelegatesOk(st) && k in st.delegates
    ensures st.delegates[k].depositor == k.depositor && st.delegates[k].delegate == k.delegate && WasAdded(st.log, k)
  {
    assert DelegateOk(st, k);
  }

  // ---------- gates ----------

  /** While the program is paused, no deposit record and no delegate record changes. */
  lemma PausedStep(env: Env, st: State, c: Call)
    requires st.cfg.paused && Step(env, st, c).Ok? && !(c.AdminCall? && c.admin.Unpause?)
    ensures var st' := Step(env, st, c).value;
            st'.cfg.paused && st'.deposits == st.deposits && st'.delegates == st.delegates
  {
    hide DepositStep, InitiateWithdrawalStep, WithdrawStep, AddDelegateStep, RemoveDelegateStep, AdminStep, BurnChecks,
         BurnEffects;
    match c
    case DepositCall(owner, ownerToken, custody, amount) =>
      var _ := DepositFacts(env, st, owner, ownerToken, custody, owner, amount, false);
    case DepositForCall(owner, ownerToken, custody, amount, depositor) =>
      var _ := DepositFacts(env, st, owner, ownerToken, custody, depositor, amount, true);
    case InitiateWithdrawalCall(depositor, mint, amount) => var _ := InitiateFacts(env, st, depositor, mint, amount);
    case WithdrawCall(depositor, mint, custody, depositorToken) =>
      var _ := WithdrawFacts(env, st, depositor, mint, custody, depositorToken);
    case GatewayBurnCall(b) =>
    case AddDelegateCall(depositor, mint, delegate) => var _ := AddDelegateFacts(env, st, depositor, mint, delegate);
    case RemoveDelegateCall(depositor, mint, delegate) =>
      var _ := RemoveDelegateFacts(env, st, depositor, mint, delegate);
    case AdminCall(signer, a) => AdminFacts(env, st, signer, a);
  }

  predicate IsAdmin(a: Action, admin: Admin) {
    a.Program? && a.call.AdminCall? && a.call.admin == admin
  }

  /** From a paused state, a run without an unpause leaves every deposit record and every delegate record as it was. */
  lemma {:induction false} PausedFreezesRecords(env: Env, st: State, actions: seq<Action>)
    requires st.cfg.paused && forall i :: 0 <= i < |actions| ==> !IsAdmin(actions[i], Unpause)
    ensures var st' := Run(env, st, actions);
            st'.cfg.paused && st'.deposits == st.deposits && st'.delegates == st.delegates
  {
    hide Step, OutsideOk;
    if actions == [] {
    } else {
      var init, a := actions[..|actions| - 1], actions[|actions| - 1];
      assert forall i :: 0 <= i < |init| ==> init[i] == actions[i];
      PausedFreezesRecords(env, st, init);
      var before := Run(env, st, init);
      if a.Program? && Step(env, before, a.call).Ok? {
        PausedStep(env, before, a.call);
      }
    }
  }

  /** An instruction leaves a denylisted depositor owed no more than before, and undenylists only who it names. */
  lemma DenylistedStep(env: Env, st: State, c: Call, x: Pubkey, mint: Pubkey)
    requires x in st.denylist && Step(env, st, c).Ok? && !(c.AdminCall? && c.admin == UndenylistAccount(x))
    ensures var st' := Step(env, st, c).value;
            x in st'.denylist && OwedAt(st'.deposits, Key(mint, x)) <= OwedAt(st.deposits, Key(mint, x))
  {
    hide BurnStep, DepositStep, InitiateWithdrawalStep, WithdrawStep, AddDelegateStep, RemoveDelegateStep, AdminStep,
         BurnedFor, ChargedFor, Encode, BurnMoved;
    match c
    case DepositCall(owner, ownerToken, custody, amount) =>
      var _ := DepositFacts(env, st, owner, ownerToken, custody, owner, amount, false);
    case DepositForCall(owner, ownerToken, custody, amount, depositor) =>
      var _ := DepositFacts(env, st, owner, ownerToken, custody, depositor, amount, true);
    case InitiateWithdrawalCall(depositor, m, amount) => var _ := InitiateFacts(env, st, depositor, m, amount);
    case WithdrawCall(depositor, m, custody, depositorToken) =>
      var _ := WithdrawFacts(env, st, depositor, m, custody, depositorToken);
    case GatewayBurnCall(b) =>
      var _ := BurnLedger(env, st, b);
      var t := BurnMoves(env, st, b);
      BurnFrame(env, st, b, t, Step(env, st, c).value);
    case AddDelegateCall(depositor, m, delegate) => var _ := AddDelegateFacts(env, st, depositor, m, delegate);
    case RemoveDelegateCall(depositor, m, delegate) => var _ := RemoveDelegateFacts(env, st, depositor, m, delegate);
    case AdminCall(signer, a) => AdminFacts(env, st, signer, a);
  }

  /** While x stays denylisted, what the wallet owes x never grows, for any mint. */
  lemma {:induction false} DenylistedNeverGrows(env: Env, st: State, actions: seq<Action>, x: Pubkey, mint: Pubkey)
    requires x in st.denylist && forall i :: 0 <= i < |actions| ==> !IsAdmin(actions[i], UndenylistAccount(x))
    ensures var st' := Run(env, st, actions);
            x in st'.denylist && OwedAt(st'.deposits, Key(mint, x)) <= OwedAt(st.deposits, Key(mint, x))
  {
    hide Step, OutsideOk;
    if actions == [] {
    } else {
      var init, a := actions[..|actions| - 1], actions[|actions| - 1];
      assert forall i :: 0 <= i < |init| ==> init[i] == actions[i];
      DenylistedNeverGrows(env, st, init, x, mint);
      var before := Run(env, st, init);
      if a.Program? && Step(env, before, a.call).Ok? {
        DenylistedStep(env, before, a.call, x, mint);
      }
    }
  }

  lemma TokensGrowStep(env: Env, st: State, c: Call)
    requires Step(env, st, c).Ok?
    ensures var cfg' := Step(env, st, c).value.cfg;
            st.cfg.supportedTokens <= cfg'.supportedTokens && st.cfg.bumps <= cfg'.bumps
  {
    hide BurnStep, DepositStep, InitiateWithdrawalStep, WithdrawStep, AddDelegateStep, RemoveDelegateStep, AdminStep,
         BurnMoved;
    match c
    case DepositCall(owner, ownerToken, custody, amount) =>
      var _ := DepositFacts(env, st, owner, ownerToken, custody, owner, amount, false);
    case DepositForCall(owner, ownerToken, custody, amount, depositor) =>
      var _ := DepositFacts(env, st, owner, ownerToken, custody, depositor, amount, true);
    case InitiateWithdrawalCall(depositor, m, amount) => var _ := InitiateFacts(env, st, depositor, m, amount);
    case WithdrawCall(depositor, m, custody, depositorToken) =>
      var _ := WithdrawFacts(env, st, depositor, m, custody, depositorToken);
    case GatewayBurnCall(b) =>
      var t := BurnMoves(env, st, b);
      BurnFrame(env, st, b, t, Step(env, st, c).value);
    case AddDelegateCall(depositor, m, delegate) => var _ := AddDelegateFacts(env, st, depositor, m, delegate);
    case RemoveDelegateCall(depositor, m, delegate) => var _ := RemoveDelegateFacts(env, st, depositor, m, delegate);
    case AdminCall(signer, a) => AdminFacts(env, st, signer, a);
  }

  /** Over every run the token list and its bumps only grow at the end, so a supported token stays supported. */
  lemma {:induction false} TokensOnlyGrowOverRun(env: Env, st: State, actions: seq<Action>)
    ensures var cfg' := Run(env, st, actions).cfg;
            st.cfg.supportedTokens <= cfg'.supportedTokens && st.cfg.bumps <= cfg'.bumps
  {
    hide Step, OutsideOk;
    if actions == [] {
    } else {
      var init, a := actions[..|actions| - 1], actions[|actions| - 1];
      TokensOnlyGrowOverRun(env, st, init);
      var before := Run(env, st, init);
      if a.Program? && Step(env, before, a.call).Ok? {
        TokensGrowStep(env, before, a.call);
      }
    }
  }

  /** In every reachable state the token list is a duplicate-free map of at most ten mints to their canonical bumps, and
      every deposit record sits under its own mint and depositor, with a supported mint. */
  lemma RegistryInvariant(env: Env, st: State)
    requires Reachable(env, st)
    ensures TokenListOk(st.cfg.supportedTokens, st.cfg.bumps)
    ensures forall i :: 0 <= i < |st.cfg.supportedTokens| ==>
              st.cfg.bumps[i] == env.custodyBump(st.cfg.supportedTokens[i])
    ensures forall k :: k in st.deposits ==>
              st.deposits[k].mint == k.mint && st.deposits[k].depositor == k.depositor
                && k.mint in st.cfg.supportedTokens
  {
    hide Reachable, Supply, Surplus, UsedAreOwned;
    ReachableInv(env, st);
    forall i | 0 <= i < |st.cfg.supportedTokens|
      ensures st.cfg.bumps[i] == env.custodyBump(st.cfg.supportedTokens[i])
    {
      var m := st.cfg.supportedTokens[i];
      assert BumpOf(st.cfg.supportedTokens, st.cfg.bumps, m) == Ok(env.custodyBump(m));
    }
    forall k | k in st.deposits
      ensures st.deposits[k].mint == k.mint && st.deposits[k].depositor == k.depositor
              && k.mint in st.cfg.supportedTokens
    {
      assert DepositOk(env, st.cfg, k, st.deposits[k]);
    }
  }
}
