/** The effect of each successful instruction on each part of the wallet's state, for the proofs over runs. */
module WalletFacts {
  import opened Base
  import opened Runtime
  import opened Wallet

  /** One more entry, carrying the current slot and delay. */
  ghost predicate LogsOne(st: State, st': State, e: Event) {
    st'.log == st.log + [Entry(st.slot, st'.cfg.withdrawalDelay, e)]
  }

  /** Everything but the named parts is untouched. */
  ghost predicate OnlyLedger(st: State, st': State) {
    st'.cfg == st.cfg && st'.delegates == st.delegates && st'.denylist == st.denylist && st'.accounts == st.accounts
    && st'.slot == st.slot
  }

  lemma DepositFacts(env: Env, st: State, owner: Pubkey, ownerToken: Pubkey, custody: Pubkey, depositor: Pubkey,
                     amount: u64, forOther: bool) returns (key: Key)
    requires DepositStep(env, st, owner, ownerToken, custody, depositor, amount, forOther).Ok?
    ensures var st' := DepositStep(env, st, owner, ownerToken, custody, depositor, amount, forOther).value;
            && key.depositor == depositor && !st.cfg.paused && depositor !in st.denylist && key in st'.deposits
            && OnlyLedger(st, st') && LogsOne(st, st', Deposited(key, owner, amount))
            && var d, d' := if key in st.deposits then st.deposits[key] else BLANK, st'.deposits[key];
               && st'.deposits == st.deposits[key := d']
               && d'.available == d.available + amount && d'.withdrawing == d.withdrawing
               && d'.withdrawalBlock == d.withdrawalBlock
  {
    key := Key(st.tokens[custody].mint, depositor);
  }

  lemma InitiateFacts(env: Env, st: State, depositor: Pubkey, mint: Pubkey, amount: u64) returns (key: Key)
    requires InitiateWithdrawalStep(env, st, depositor, mint, amount).Ok?
    ensures var st' := InitiateWithdrawalStep(env, st, depositor, mint, amount).value;
            && key == Key(mint, depositor) && !st.cfg.paused && key in st.deposits && key in st'.deposits
            && OnlyLedger(st, st') && st'.tokens == st.tokens
            && var d, d' := st.deposits[key], st'.deposits[key];
               && LogsOne(st, st', WithdrawalInitiated(key, amount, d'.available, d'.withdrawing, d'.withdrawalBlock))
               && st'.deposits == st.deposits[key := d']
               && amount > 0 && d'.available == d.available - amount && d'.withdrawing == d.withdrawing + amount
               && d'.withdrawalBlock == st.slot + st.cfg.withdrawalDelay
  {
    key := Key(mint, depositor);
  }

  lemma WithdrawFacts(env: Env, st: State, depositor: Pubkey, mint: Pubkey, custody: Pubkey, depositorToken: Pubkey)
    returns (key: Key)
    requires WithdrawStep(env, st, depositor, mint, custody, depositorToken).Ok?
    ensures var st' := WithdrawStep(env, st, depositor, mint, custody, depositorToken).value;
            && key == Key(mint, depositor) && !st.cfg.paused && key in st.deposits && key in st'.deposits
            && OnlyLedger(st, st')
            && var d, d' := st.deposits[key], st'.deposits[key];
               && LogsOne(st, st', WithdrawalCompleted(key, d.withdrawing))
               && st'.deposits == st.deposits[key := d'] && d' == d.(withdrawing := 0, withdrawalBlock := 0)
               && d.withdrawing > 0 && st.slot >= d.withdrawalBlock
  {
    key := Key(mint, depositor);
  }

  /** The events that change the ledger. */
  predicate OnLedger(e: Event) {
    e.Deposited? || e.WithdrawalInitiated? || e.WithdrawalCompleted? || e.GatewayBurned?
  }

  ghost predicate OffLedger(st: State, st': State) {
    && st'.deposits == st.deposits && st'.accounts == st.accounts && st'.slot == st.slot
    && (st'.log == st.log || (|st'.log| > |st.log| && LogsOne(st, st', st'.log[|st.log|].event)
                              && !OnLedger(st'.log[|st.log|].event)))
  }

  lemma AddDelegateFacts(env: Env, st: State, depositor: Pubkey, mint: Pubkey, delegate: Pubkey)
    returns (k: DelegateKey)
    requires AddDelegateStep(env, st, depositor, mint, delegate).Ok?
    ensures var st' := AddDelegateStep(env, st, depositor, mint, delegate).value;
            && OffLedger(st, st') && !st.cfg.paused && st'.cfg == st.cfg && st'.denylist == st.denylist
            && st'.tokens == st.tokens
            && k == DelegateKey(mint, depositor, delegate) && LogsOne(st, st', DelegateAdded(k))
            && st'.delegates == st.delegates[k := Delegate(Authorized, mint, depositor, delegate)]
  {
    k := DelegateKey(mint, depositor, delegate);
  }

  lemma RemoveDelegateFacts(env: Env, st: State, depositor: Pubkey, mint: Pubkey, delegate: Pubkey)
    returns (k: DelegateKey)
    requires RemoveDelegateStep(env, st, depositor, mint, delegate).Ok?
    ensures var st' := RemoveDelegateStep(env, st, depositor, mint, delegate).value;
            && OffLedger(st, st') && !st.cfg.paused && st'.cfg == st.cfg && st'.denylist == st.denylist
            && st'.tokens == st.tokens
            && k == DelegateKey(mint, depositor, delegate) && k in st.delegates
            && (if st.delegates[k].status == Authorized
                then LogsOne(st, st', DelegateRemoved(k))
                  && st'.delegates == st.delegates[k := st.delegates[k].(status := Revoked)]
                else st' == st)
  {
    k := DelegateKey(mint, depositor, delegate);
  }

  lemma AdminFacts(env: Env, st: State, signer: Pubkey, a: Admin)
    requires AdminStep(env, st, signer, a).Ok?
    ensures var st' := AdminStep(env, st, signer, a).value;
            && OffLedger(st, st') && st'.delegates == st.delegates
            && (!a.Unpause? ==> st.cfg.paused ==> st'.cfg.paused)
            && st.denylist - (if a.UndenylistAccount? then {a.account} else {}) <= st'.denylist
            && st.cfg.supportedTokens <= st'.cfg.supportedTokens && st.cfg.bumps <= st'.cfg.bumps
            && (st'.cfg.withdrawalDelay > 0 || st'.cfg.withdrawalDelay == st.cfg.withdrawalDelay)
  {
    hide RoleEffect, AddTokenEffect;
    if a.UpdateRole? {
      RoleFacts(st.cfg, a.change);
    } else if a.AddSupportedToken? {
      AddTokenFacts(env, st, a.mint);
    }
  }

  lemma RoleFacts(cfg: Config, c: RoleChange)
    requires RoleEffect(cfg, c).Ok?
    ensures RoleEffect(cfg, c).value
            == cfg.(owner := RoleEffect(cfg, c).value.owner, pendingOwner := RoleEffect(cfg, c).value.pendingOwner,
                    pauser := RoleEffect(cfg, c).value.pauser, denylister := RoleEffect(cfg, c).value.denylister,
                    tokenController := RoleEffect(cfg, c).value.tokenController)
  {
  }

  lemma AddTokenFacts(env: Env, st: State, mint: Pubkey)
    requires AddTokenEffect(env, st, mint).Ok?
    ensures var st' := AddTokenEffect(env, st, mint).value;
            && st'.deposits == st.deposits && st'.delegates == st.delegates && st'.denylist == st.denylist
            && st'.accounts == st.accounts && st'.slot == st.slot && st'.log == st.log
            && st.cfg.supportedTokens <= st'.cfg.supportedTokens && st.cfg.bumps <= st'.cfg.bumps
            && st'.cfg == st.cfg.(supportedTokens := st'.cfg.supportedTokens, bumps := st'.cfg.bumps)
  {
  }
}
