/** What deposits, initiations, withdrawals and burns change, each as a whole: the record it names, the token accounts
    it moves between, the hash it marks and the event it reports, and nothing else. */
module WalletEffects {
  import opened Base
  import opened Runtime
  import opened Tokens
  import opened UsedHashes
  import opened BurnData
  import opened Wallet
  import opened WalletFacts
  import opened WalletSolvency
  import opened WalletBurn

  /** Only balances differ, by `amount` from one account to the other. */
  ghost predicate Moved(t: TokenMap, t': TokenMap, from: Pubkey, to: Pubkey, amount: nat) {
    && SameShape(t, t')
    && forall k ::
         Amount(t', k) == Amount(t, k) - (if k == from then amount else 0) + (if k == to then amount else 0)
  }

  /** The one deposit record that changed, and nothing beside ledger, tokens and log. */
  ghost predicate OneRecord(st: State, st': State, k: Key, d': Deposit) {
    && st' == st.(deposits := st.deposits[k := d'], tokens := st'.tokens, log := st'.log)
  }

  ghost predicate Deposits(env: Env, st: State, st': State, owner: Pubkey, ownerToken: Pubkey, custody: Pubkey,
                           depositor: Pubkey, amount: u64)
  {
    && custody in st.tokens && custody == Custody(env, st.tokens[custody].mint)
    && var k := Key(st.tokens[custody].mint, depositor);
       && k in st'.deposits
       && var d, d' := if k in st.deposits then st.deposits[k] else BLANK, st'.deposits[k];
          && OneRecord(st, st', k, d')
          && d'.available == d.available + amount
          && d' == Deposit(env.depositBump(k.mint, depositor), depositor, k.mint, d'.available, d.withdrawing,
                           d.withdrawalBlock)
          && Moved(st.tokens, st'.tokens, ownerToken, custody, amount)
          && LogsOne(st, st', Deposited(k, owner, amount))
  }

  lemma DepositStepDoes(env: Env, st: State, owner: Pubkey, ownerToken: Pubkey, custody: Pubkey, depositor: Pubkey,
                        amount: u64, forOther: bool)
    requires Inv(env, st) && DepositStep(env, st, owner, ownerToken, custody, depositor, amount, forOther).Ok?
    ensures Deposits(env, st, DepositStep(env, st, owner, ownerToken, custody, depositor, amount, forOther).value,
                     owner, ownerToken, custody, depositor, amount)
  {
    hide Supply, Surplus, UsedAreOwned, Transfer;
    CustodyChecked(env, st, custody);
    TransferMoves(st.tokens, ownerToken, custody, owner, amount);
    var k := Key(st.tokens[custody].mint, depositor);
    if k in st.deposits {
      assert DepositOk(env, st.cfg, k, st.deposits[k]);
    }
  }

  /** Depositing for oneself credits one's own record by exactly what leaves one's token account for custody. */
  lemma DepositDoes(env: Env, st: State, owner: Pubkey, ownerToken: Pubkey, custody: Pubkey, amount: u64)
    requires Inv(env, st) && Step(env, st, DepositCall(owner, ownerToken, custody, amount)).Ok?
    ensures Deposits(env, st, Step(env, st, DepositCall(owner, ownerToken, custody, amount)).value, owner, ownerToken,
                     custody, owner, amount)
  {
    hide Inv, DepositStep, Deposits;
    DepositStepDoes(env, st, owner, ownerToken, custody, owner, amount, false);
  }

  /** Depositing for another credits that depositor's record, out of the sender's token account. */
  lemma DepositForDoes(env: Env, st: State, owner: Pubkey, ownerToken: Pubkey, custody: Pubkey, amount: u64,
                       depositor: Pubkey)
    requires Inv(env, st) && Step(env, st, DepositForCall(owner, ownerToken, custody, amount, depositor)).Ok?
    ensures Deposits(env, st, Step(env, st, DepositForCall(owner, ownerToken, custody, amount, depositor)).value, owner,
                     ownerToken, custody, depositor, amount)
    ensures depositor != DEFAULT_PUBKEY
  {
    hide Inv, Deposits;
    DepositStepDoes(env, st, owner, ownerToken, custody, depositor, amount, true);
  }

  /** Initiating moves the amount within the caller's own record, sets its deadline, and moves no token. */
  lemma InitiateDoes(env: Env, st: State, depositor: Pubkey, mint: Pubkey, amount: u64)
    requires Step(env, st, InitiateWithdrawalCall(depositor, mint, amount)).Ok?
    ensures var st', k := Step(env, st, InitiateWithdrawalCall(depositor, mint, amount)).value, Key(mint, depositor);
            && k in st.deposits && k in st'.deposits
            && var d, d' := st.deposits[k], st'.deposits[k];
               && amount <= d.available && st'.tokens == st.tokens && OneRecord(st, st', k, d')
               && d' == d.(available := d.available - amount, withdrawing := d'.withdrawing,
                           withdrawalBlock := d'.withdrawalBlock)
               && d'.withdrawing == d.withdrawing + amount && d'.withdrawalBlock == st.slot + st.cfg.withdrawalDelay
               && LogsOne(st, st', WithdrawalInitiated(k, amount, d'.available, d'.withdrawing, d'.withdrawalBlock))
  {
  }

  /** Withdrawing pays the whole pending amount from custody to the caller's token account and clears it. */
  lemma WithdrawDoes(env: Env, st: State, depositor: Pubkey, mint: Pubkey, custody: Pubkey, depositorToken: Pubkey)
    requires Inv(env, st) && Step(env, st, WithdrawCall(depositor, mint, custody, depositorToken)).Ok?
    ensures var st' := Step(env, st, WithdrawCall(depositor, mint, custody, depositorToken)).value;
            var k := Key(mint, depositor);
            && custody == Custody(env, mint) && k in st.deposits && k in st'.deposits
            && var d := st.deposits[k];
               && OneRecord(st, st', k, d.(withdrawing := 0, withdrawalBlock := 0))
               && Moved(st.tokens, st'.tokens, custody, depositorToken, d.withdrawing)
               && LogsOne(st, st', WithdrawalCompleted(k, d.withdrawing))
  {
    hide Supply, Surplus, UsedAreOwned, Transfer;
    CustodyChecked(env, st, custody);
    var d := st.deposits[Key(mint, depositor)];
    TransferMoves(st.tokens, custody, depositorToken, env.statePda, d.withdrawing);
  }

  /** A burn marks the account derived from the hash of its transfer spec: the program's, with the two bytes 21 and 4 as
      its whole data. The payer may have paid its rent; settings, delegates, denylist and slot are untouched. */
  lemma BurnMarksAccount(env: Env, st: State, c: BurnCall) returns (r: Record)
    requires Step(env, st, GatewayBurnCall(c)).Ok?
    ensures Encodable(r) && Encode(r) == c.burnData
    ensures var st', h := Step(env, st, GatewayBurnCall(c)).value, env.usedPda(env.keccak(EncodeSpec(r.spec)));
            && c.remaining == [h] && Get(st'.accounts, h).data == [21, 4] && Get(st'.accounts, h).owner == env.programId
            && (forall k :: k != h && k != c.payer ==> Get(st'.accounts, k) == Get(st.accounts, k))
            && st'.cfg == st.cfg && st'.delegates == st.delegates && st'.denylist == st.denylist && st'.slot == st.slot
  {
    hide BurnStep, MoveBurn, CheckCustody, Encode, EncodeSpec, ProcessHash, Logged, BurnEvents, BurnChecks;
    var t;
    t, r := BurnRecord(env, st, c);
    HashMarked(env, st.accounts, c.payer, t.hashAccount, t.specHash);
  }

  lemma HashMarked(env: Env, accounts: Accounts, payer: Pubkey, key: Pubkey, specHash: Bytes32)
    requires ProcessHash(env, accounts, payer, key, specHash, USED_DISCRIMINATOR).Ok?
    ensures var accounts' := ProcessHash(env, accounts, payer, key, specHash, USED_DISCRIMINATOR).value;
            && key == env.usedPda(specHash)
            && Get(accounts', key).data == [21, 4] && Get(accounts', key).owner == env.programId
            && forall k :: k != key && k != payer ==> Get(accounts', k) == Get(accounts, k)
  {
  }
}
