/** What holds in every reachable state of the wallet, over every run: solvency, and what follows from it
    for overflow, for custody funds and for when an instruction succeeds. */
module WalletReachable {
  import opened Base
  import opened Runtime
  import opened Tokens
  import opened UsedHashes
  import opened Wallet
  import opened WalletSolvency
  import opened WalletFacts

  lemma StepKeeps(env: Env, st: State, c: Call)
    requires Inv(env, st) && Step(env, st, c).Ok?
    ensures Inv(env, Step(env, st, c).value)
  {
    hide Inv, DepositStep, InitiateWithdrawalStep, WithdrawStep, BurnStep, AdminStep, BurnMoved;
    match c
    case DepositCall(owner, ownerToken, custody, amount) =>
      DepositKeeps(env, st, owner, ownerToken, custody, owner, amount, false);
    case DepositForCall(owner, ownerToken, custody, amount, depositor) =>
      DepositKeeps(env, st, owner, ownerToken, custody, depositor, amount, true);
    case InitiateWithdrawalCall(depositor, mint, amount) => InitiateKeeps(env, st, depositor, mint, amount);
    case WithdrawCall(depositor, mint, custody, depositorToken) =>
      WithdrawKeeps(env, st, depositor, mint, custody, depositorToken);
    case GatewayBurnCall(b) =>
      var t := BurnMoves(env, st, b);
      BurnKeeps(env, st, b, t, Step(env, st, c).value);
    case AddDelegateCall(_, _, _) => DelegatesKeep(env, st, Step(env, st, c).value);
    case RemoveDelegateCall(_, _, _) => DelegatesKeep(env, st, Step(env, st, c).value);
    case AdminCall(signer, a) => AdminKeeps(env, st, signer, a);
  }

  lemma DelegatesKeep(env: Env, st: State, st': State)
    requires Inv(env, st) && st' == st.(delegates := st'.delegates, log := st'.log)
    ensures Inv(env, st')
  {
    SettingsOk(env, st);
    SettingsKeep(env, st, st');
  }

  lemma ApplyKeeps(env: Env, st: State, a: Action)
    requires Inv(env, st)
    ensures Inv(env, Apply(env, st, a))
  {
    hide Inv, Step, OutsideOk;
    match a
    case Program(c) =>
      if Step(env, st, c).Ok? {
        StepKeeps(env, st, c);
      }
    case Outside(tokens, accounts, slot) =>
      if OutsideOk(env, st, tokens, accounts, slot) {
        OutsideKeeps(env, st, tokens, accounts, slot);
      }
  }

  lemma {:induction false} RunKeeps(env: Env, st: State, actions: seq<Action>)
    requires Inv(env, st)
    ensures Inv(env, Run(env, st, actions))
  {
    hide Inv, Apply;
    if actions == [] {
    } else {
      RunKeeps(env, st, actions[..|actions| - 1]);
      ApplyKeeps(env, Run(env, st, actions[..|actions| - 1]), actions[|actions| - 1]);
    }
  }

  lemma {:induction false} RunAppend(env: Env, st: State, first: seq<Action>, second: seq<Action>)
    ensures Run(env, st, first + second) == Run(env, Run(env, st, first), second)
  {
    hide Apply;
    var all := first + second;
    if second == [] {
      assert all == first;
    } else {
      var n := |second| - 1;
      RunAppend(env, st, first, second[..n]);
      assert all[..|all| - 1] == first + second[..n] && all[|all| - 1] == second[n];
    }
  }

  lemma ReachableInv(env: Env, st: State)
    requires Reachable(env, st)
    ensures Inv(env, st)
  {
    var st0, actions :| Initial(env, st0) && st == Run(env, st0, actions);
    RunKeeps(env, st0, actions);
  }

  /** Solvency: for every mint, custody holds at least the sum of what all depositors are owed. */
  lemma Solvency(env: Env, st: State, mint: Pubkey)
    requires Reachable(env, st)
    ensures Amount(st.tokens, Custody(env, mint)) >= Liabilities(st.deposits, mint)
  {
    hide Reachable;
    ReachableInv(env, st);
    if mint in st.cfg.supportedTokens {
      assert Surplus(env, st, mint) >= 0;
    } else {
      assert Claims(st.deposits, mint) == map[];
    }
  }

  // ---------- conservation over runs ----------

  /** Associated token accounts and custody accounts are derived under different programs. */
  ghost predicate AtaApart(env: Env, mint: Pubkey) {
    forall owner :: env.ata(owner, mint) != Custody(env, mint)
  }

  lemma BurnStepSurplus(env: Env, st: State, c: BurnCall, m: Pubkey)
    requires Inv(env, st) && m in st.cfg.supportedTokens && BurnStep(env, st, c).Ok?
    ensures BurnStep(env, st, c).value.cfg == st.cfg
    ensures Surplus(env, BurnStep(env, st, c).value, m) >= Surplus(env, st, m)
    ensures AtaApart(env, m) ==> Surplus(env, BurnStep(env, st, c).value, m) == Surplus(env, st, m)
  {
    hide Inv, BurnStep, Surplus, CheckCustody, MoveBurn, ProcessHash, BurnEvents;
    var t := BurnMoves(env, st, c);
    BurnSurplus(env, st, c, t, BurnStep(env, st, c).value, m);
    CustodyChecked(env, st, c.custody);
  }

  lemma StepSurplus(env: Env, st: State, c: Call, m: Pubkey)
    requires Inv(env, st) && m in st.cfg.supportedTokens && Step(env, st, c).Ok?
    ensures m in Step(env, st, c).value.cfg.supportedTokens
    ensures Surplus(env, Step(env, st, c).value, m) >= Surplus(env, st, m)
    ensures AtaApart(env, m) ==> Surplus(env, Step(env, st, c).value, m) == Surplus(env, st, m)
  {
    hide Inv, DepositStep, InitiateWithdrawalStep, WithdrawStep, BurnStep, AddDelegateStep, RemoveDelegateStep,
         AdminStep, Amount, Liabilities, AtaApart;
    match c
    case DepositCall(owner, ownerToken, custody, amount) =>
      DepositSurplus(env, st, owner, ownerToken, custody, owner, amount, false, m);
      var _ := DepositFacts(env, st, owner, ownerToken, custody, owner, amount, false);
    case DepositForCall(owner, ownerToken, custody, amount, depositor) =>
      DepositSurplus(env, st, owner, ownerToken, custody, depositor, amount, true, m);
      var _ := DepositFacts(env, st, owner, ownerToken, custody, depositor, amount, true);
    case InitiateWithdrawalCall(depositor, mint, amount) =>
      InitiateSurplus(env, st, depositor, mint, amount, m);
      var _ := InitiateFacts(env, st, depositor, mint, amount);
    case WithdrawCall(depositor, mint, custody, depositorToken) =>
      WithdrawSurplus(env, st, depositor, mint, custody, depositorToken, m);
      var _ := WithdrawFacts(env, st, depositor, mint, custody, depositorToken);
    case GatewayBurnCall(b) => BurnStepSurplus(env, st, b, m);
    case AddDelegateCall(depositor, mint, delegate) => var _ := AddDelegateFacts(env, st, depositor, mint, delegate);
    case RemoveDelegateCall(depositor, mint, delegate) =>
      var _ := RemoveDelegateFacts(env, st, depositor, mint, delegate);
    case AdminCall(signer, a) =>
      AdminKeeps(env, st, signer, a);
      TokensOnlyGrow(env, st, signer, a);
  }

  lemma TokensOnlyGrow(env: Env, st: State, signer: Pubkey, a: Admin)
    requires AdminStep(env, st, signer, a).Ok?
    ensures st.cfg.supportedTokens <= AdminStep(env, st, signer, a).value.cfg.supportedTokens
    ensures st.cfg.bumps <= AdminStep(env, st, signer, a).value.cfg.bumps
  {
  }

  /** No instruction ever lowers the surplus, and without outside transfers a run leaves it exactly unchanged. */
  lemma {:induction false} SurplusOverRun(env: Env, st: State, actions: seq<Action>, m: Pubkey)
    requires Inv(env, st) && m in st.cfg.supportedTokens
    ensures m in Run(env, st, actions).cfg.supportedTokens
    ensures Surplus(env, Run(env, st, actions), m) >= Surplus(env, st, m)
    ensures AtaApart(env, m) && (forall a :: a in actions ==> a.Program?) ==>
              Surplus(env, Run(env, st, actions), m) == Surplus(env, st, m)
  {
    hide Inv, Step, OutsideOk, Surplus, AtaApart;
    if actions == [] {
    } else {
      var init, a := actions[..|actions| - 1], actions[|actions| - 1];
      var before := Run(env, st, init);
      SurplusOverRun(env, st, init, m);
      RunKeeps(env, st, init);
      match a
      case Program(c) =>
        if Step(env, before, c).Ok? {
          StepSurplus(env, before, c, m);
        }
      case Outside(tokens, accounts, slot) =>
        if OutsideOk(env, before, tokens, accounts, slot) {
          OutsideKeeps(env, before, tokens, accounts, slot);
        }
    }
  }

  // ---------- when instructions succeed ----------

  /** A deposit succeeds exactly when its gates, its accounts and the sender's funds allow it: neither the
      depositor's balance nor the custody account can overflow. */
  lemma DepositSucceedsIff(env: Env, st: State, owner: Pubkey, ownerToken: Pubkey, mint: Pubkey, depositor: Pubkey,
                           amount: u64, forOther: bool)
    requires Inv(env, st) && mint in st.cfg.supportedTokens
    ensures DepositStep(env, st, owner, ownerToken, Custody(env, mint), depositor, amount, forOther).Ok? <==>
              && owner != env.statePda && !st.cfg.paused
              && ownerToken in st.tokens && st.tokens[ownerToken].mint == mint && st.tokens[ownerToken].owner == owner
              && (forOther ==> depositor != DEFAULT_PUBKEY) && owner !in st.denylist && depositor !in st.denylist
              && 0 < amount <= st.tokens[ownerToken].amount
  {
    var custody, key := Custody(env, mint), Key(mint, depositor);
    CustodyAccepted(env, st, mint);
    assert IsTokenAccount(st.tokens, custody, mint, env.statePda);
    OwedWithinCustody(env, st, key);
    TransferNeverOverflows(st.tokens, ownerToken, custody, owner, amount);
  }

  /** Starting a withdrawal succeeds exactly with a positive covered amount and a deadline that fits 64 bits. */
  lemma InitiateSucceedsIff(env: Env, st: State, depositor: Pubkey, mint: Pubkey, amount: u64)
    requires Inv(env, st)
    ensures InitiateWithdrawalStep(env, st, depositor, mint, amount).Ok? <==>
              && depositor != env.statePda && !st.cfg.paused && Key(mint, depositor) in st.deposits
              && 0 < amount <= st.deposits[Key(mint, depositor)].available
              && st.slot + st.cfg.withdrawalDelay <= U64_MAX
  {
    hide Supply, Surplus, UsedAreOwned;
    var key := Key(mint, depositor);
    if key in st.deposits {
      assert DepositOk(env, st.cfg, key, st.deposits[key]);
      OwedWithinCustody(env, st, key);
    }
  }

  /** A withdrawal that is due always succeeds while the program is not paused: custody is never short. */
  lemma WithdrawSucceedsIff(env: Env, st: State, depositor: Pubkey, mint: Pubkey, depositorToken: Pubkey)
    requires Inv(env, st)
    ensures WithdrawStep(env, st, depositor, mint, Custody(env, mint), depositorToken).Ok? <==>
              && depositor != env.statePda && !st.cfg.paused && Key(mint, depositor) in st.deposits
              && depositorToken in st.tokens && st.tokens[depositorToken].mint == mint
              && st.tokens[depositorToken].owner == depositor
              && st.deposits[Key(mint, depositor)].withdrawing > 0
              && st.slot >= st.deposits[Key(mint, depositor)].withdrawalBlock
  {
    hide UsedAreOwned;
    var key, custody := Key(mint, depositor), Custody(env, mint);
    if key in st.deposits {
      assert DepositOk(env, st.cfg, key, st.deposits[key]);
      CustodyAccepted(env, st, mint);
      assert IsTokenAccount(st.tokens, custody, mint, env.statePda);
      OwedWithinCustody(env, st, key);
      TransferNeverOverflows(st.tokens, custody, depositorToken, env.statePda, st.deposits[key].withdrawing);
    }
  }

  /** Once a burn's checks pass and its hash is marked, its fee transfer and its burn cannot fail. */
  lemma BurnMovesSucceed(env: Env, st: State, c: BurnCall, d: Deposit, t: BurnTerms)
    requires Inv(env, st) && t.value > 0 && c.deposit in st.deposits && d == st.deposits[c.deposit]
             && c.deposit.mint == c.mint
    requires CheckCustody(env, st.cfg, st.tokens, c.custody) == Ok(c.mint)
    requires IsTokenAccount(st.tokens, c.feeToken, c.mint, st.cfg.feeRecipient)
    ensures BurnEffects(env, st, c, d, t).Ok?
       <==> ProcessHash(env, st.accounts, c.payer, t.hashAccount, t.specHash, USED_DISCRIMINATOR).Ok?
  {
    hide UsedAreOwned, Mark, IsUsed, Liabilities;
    var fee := FeeOf(d, t);
    ReducedOwes(d, t.value + t.fee);
    CustodyChecked(env, st, c.custody);
    OwedWithinCustody(env, st, c.deposit);
    assert Deducted(d, t) <= st.tokens[c.custody].amount;
    TransferNeverOverflows(st.tokens, c.custody, c.feeToken, env.statePda, fee);
    MoveBurnSucceeds(env, st.tokens, c, fee, Burned(d, t));
  }

  lemma MoveBurnSucceeds(env: Env, t: TokenMap, c: BurnCall, fee: u64, burned: u64)
    requires IsTokenAccount(t, c.custody, c.mint, env.statePda) && c.feeToken in t && t[c.feeToken].mint == c.mint
    requires fee + burned <= t[c.custody].amount
    requires Transfer(t, c.custody, c.feeToken, env.statePda, fee) != Err(TokenOverflow)
    ensures MoveBurn(env, t, c, fee, burned).Ok?
  {
  }
}
