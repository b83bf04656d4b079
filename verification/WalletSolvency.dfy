/** The wallet owes no more than it holds: the invariant of every reachable state. */
module WalletSolvency {
  import opened Base
  import opened Runtime
  import opened Sums
  import opened Tokens
  import opened UsedHashes
  import opened Registry
  import opened Wallet

  /** The canonical custody account of a mint. */
  function Custody(env: Env, mint: Pubkey): Pubkey {
    match env.custodyPda(mint, env.custodyBump(mint))
    case Some(k) => k
    case None => DEFAULT_PUBKEY
  }

  function Owed(d: Deposit): nat {
    d.available + d.withdrawing
  }

  function Claims(deposits: map<Key, Deposit>, mint: Pubkey): map<Key, nat> {
    map k | k in deposits && k.mint == mint :: Owed(deposits[k])
  }

  /** What the wallet owes all depositors of a mint. */
  ghost function Liabilities(deposits: map<Key, Deposit>, mint: Pubkey): nat {
    Sum(Claims(deposits, mint))
  }

  /** What custody holds beyond what is owed. */
  ghost function Surplus(env: Env, st: State, mint: Pubkey): int {
    Amount(st.tokens, Custody(env, mint)) - Liabilities(st.deposits, mint)
  }

  function OwedAt(deposits: map<Key, Deposit>, k: Key): nat {
    if k in deposits then Owed(deposits[k]) else 0
  }

  // ---------- the invariant ----------

  ghost predicate RegistryOk(env: Env, cfg: Config) {
    && TokenListOk(cfg.supportedTokens, cfg.bumps)
    && (forall m :: m in cfg.supportedTokens ==>
         BumpOf(cfg.supportedTokens, cfg.bumps, m) == Ok(env.custodyBump(m))
           && env.custodyPda(m, env.custodyBump(m)).Some?)
    && NoDuplicates(cfg.burnSigners) && |cfg.burnSigners| <= MAX_SIGNERS
    && cfg.withdrawalDelay > 0
  }

  ghost predicate CustodyOk(env: Env, cfg: Config, tokens: TokenMap) {
    forall m :: m in cfg.supportedTokens ==> IsTokenAccount(tokens, Custody(env, m), m, env.statePda)
  }

  /** A record's own fields match its key, its mint is supported, and a pending withdrawal has a deadline. */
  ghost predicate DepositOk(env: Env, cfg: Config, k: Key, d: Deposit) {
    && d.mint == k.mint && d.depositor == k.depositor && d.bump == env.depositBump(k.mint, k.depositor)
    && k.mint in cfg.supportedTokens
    && (d.withdrawing > 0 ==> d.withdrawalBlock > 0)
  }

  ghost predicate DepositsOk(env: Env, cfg: Config, deposits: map<Key, Deposit>) {
    forall k :: k in deposits ==> DepositOk(env, cfg, k, deposits[k])
  }

  ghost predicate Solvent(env: Env, st: State) {
    forall m :: m in st.cfg.supportedTokens ==> Surplus(env, st, m) >= 0
  }

  ghost predicate SupplyOk(tokens: TokenMap) {
    forall m :: Supply(tokens, m) <= U64_MAX
  }

  ghost predicate Inv(env: Env, st: State) {
    && RegistryOk(env, st.cfg) && CustodyOk(env, st.cfg, st.tokens) && DepositsOk(env, st.cfg, st.deposits)
    && Solvent(env, st) && SupplyOk(st.tokens) && UsedAreOwned(env, st.accounts, USED_DISCRIMINATOR)
  }

  // ---------- sums ----------

  lemma LiabilitiesUpdate(deposits: map<Key, Deposit>, k: Key, d: Deposit, mint: Pubkey)
    ensures Liabilities(deposits[k := d], mint)
         == Liabilities(deposits, mint) + (if k.mint == mint then Owed(d) - OwedAt(deposits, k) else 0)
  {
    if k.mint == mint {
      SumUpdate(Claims(deposits, mint), k, Owed(d));
      assert Claims(deposits[k := d], mint) == Claims(deposits, mint)[k := Owed(d)];
    } else {
      assert Claims(deposits[k := d], mint) == Claims(deposits, mint);
    }
  }

  /** One depositor is never owed more than custody holds. */
  lemma OwedWithinCustody(env: Env, st: State, k: Key)
    requires Inv(env, st) && k.mint in st.cfg.supportedTokens
    ensures OwedAt(st.deposits, k) <= Amount(st.tokens, Custody(env, k.mint))
  {
    SumMember(Claims(st.deposits, k.mint), k);
    assert Surplus(env, st, k.mint) >= 0;
  }

  // ---------- custody accounts ----------

  /** The custody check accepts exactly the canonical custody accounts of supported mints. */
  lemma CustodyChecked(env: Env, st: State, custody: Pubkey)
    requires Inv(env, st) && CheckCustody(env, st.cfg, st.tokens, custody).Ok?
    ensures var m := CheckCustody(env, st.cfg, st.tokens, custody).value;
            m in st.cfg.supportedTokens && custody == Custody(env, m)
              && IsTokenAccount(st.tokens, custody, m, env.statePda)
  {
  }

  lemma CustodyAccepted(env: Env, st: State, m: Pubkey)
    requires Inv(env, st) && m in st.cfg.supportedTokens
    ensures CheckCustody(env, st.cfg, st.tokens, Custody(env, m)) == Ok(m)
  {
    assert IsTokenAccount(st.tokens, Custody(env, m), m, env.statePda);
  }

  /** Accounts of another mint or another owner are no custody account of m. */
  lemma NotCustody(env: Env, st: State, k: Pubkey, m: Pubkey)
    requires Inv(env, st) && m in st.cfg.supportedTokens && k in st.tokens
    requires st.tokens[k].mint != m || st.tokens[k].owner != env.statePda
    ensures k != Custody(env, m)
  {
    assert IsTokenAccount(st.tokens, Custody(env, m), m, env.statePda);
  }

  /** Moves that keep every account's mint and owner keep the custody accounts. */
  lemma ShapeKeepsCustody(env: Env, cfg: Config, t: TokenMap, t': TokenMap)
    requires CustodyOk(env, cfg, t) && SameShape(t, t')
    ensures CustodyOk(env, cfg, t')
  {
    forall m | m in cfg.supportedTokens
      ensures IsTokenAccount(t', Custody(env, m), m, env.statePda)
    {
      assert IsTokenAccount(t, Custody(env, m), m, env.statePda);
    }
  }

  // ---------- every instruction ----------

  lemma DepositSurplus(env: Env, st: State, owner: Pubkey, ownerToken: Pubkey, custody: Pubkey, depositor: Pubkey,
                       amount: u64, forOther: bool, m: Pubkey)
    requires Inv(env, st) && m in st.cfg.supportedTokens
    requires DepositStep(env, st, owner, ownerToken, custody, depositor, amount, forOther).Ok?
    ensures Surplus(env, DepositStep(env, st, owner, ownerToken, custody, depositor, amount, forOther).value, m)
         == Surplus(env, st, m)
  {
    hide Supply, UsedAreOwned;
    var st' := DepositStep(env, st, owner, ownerToken, custody, depositor, amount, forOther).value;
    CustodyChecked(env, st, custody);
    var mint := st.tokens[custody].mint;
    var key := Key(mint, depositor);
    TransferMoves(st.tokens, ownerToken, custody, owner, amount);
    NotCustody(env, st, ownerToken, m);
    if m != mint {
      NotCustody(env, st, custody, m);
    }
    LiabilitiesUpdate(st.deposits, key, st'.deposits[key], m);
  }

  lemma DepositKeeps(env: Env, st: State, owner: Pubkey, ownerToken: Pubkey, custody: Pubkey, depositor: Pubkey,
                     amount: u64, forOther: bool)
    requires Inv(env, st)
    requires DepositStep(env, st, owner, ownerToken, custody, depositor, amount, forOther).Ok?
    ensures Inv(env, DepositStep(env, st, owner, ownerToken, custody, depositor, amount, forOther).value)
  {
    hide Supply, Surplus;
    var st' := DepositStep(env, st, owner, ownerToken, custody, depositor, amount, forOther).value;
    CustodyChecked(env, st, custody);
    TransferMoves(st.tokens, ownerToken, custody, owner, amount);
    ShapeKeepsCustody(env, st.cfg, st.tokens, st'.tokens);
    forall m
      ensures Supply(st'.tokens, m) <= U64_MAX
    {
      TransferConserves(st.tokens, ownerToken, custody, owner, amount, m);
    }
    forall m | m in st.cfg.supportedTokens
      ensures Surplus(env, st', m) >= 0
    {
      DepositSurplus(env, st, owner, ownerToken, custody, depositor, amount, forOther, m);
    }
  }

  lemma InitiateSurplus(env: Env, st: State, depositor: Pubkey, mint: Pubkey, amount: u64, m: Pubkey)
    requires InitiateWithdrawalStep(env, st, depositor, mint, amount).Ok?
    ensures Surplus(env, InitiateWithdrawalStep(env, st, depositor, mint, amount).value, m) == Surplus(env, st, m)
  {
    var st' := InitiateWithdrawalStep(env, st, depositor, mint, amount).value;
    var key := Key(mint, depositor);
    LiabilitiesUpdate(st.deposits, key, st'.deposits[key], m);
  }

  lemma InitiateKeeps(env: Env, st: State, depositor: Pubkey, mint: Pubkey, amount: u64)
    requires Inv(env, st) && InitiateWithdrawalStep(env, st, depositor, mint, amount).Ok?
    ensures Inv(env, InitiateWithdrawalStep(env, st, depositor, mint, amount).value)
  {
    hide Supply, Surplus;
    var st' := InitiateWithdrawalStep(env, st, depositor, mint, amount).value;
    forall m | m in st.cfg.supportedTokens
      ensures Surplus(env, st', m) >= 0
    {
      InitiateSurplus(env, st, depositor, mint, amount, m);
    }
  }

  lemma WithdrawSurplus(env: Env, st: State, depositor: Pubkey, mint: Pubkey, custody: Pubkey, depositorToken: Pubkey,
                        m: Pubkey)
    requires Inv(env, st) && m in st.cfg.supportedTokens
    requires WithdrawStep(env, st, depositor, mint, custody, depositorToken).Ok?
    ensures Surplus(env, WithdrawStep(env, st, depositor, mint, custody, depositorToken).value, m)
         == Surplus(env, st, m)
  {
    hide Supply, UsedAreOwned;
    var st' := WithdrawStep(env, st, depositor, mint, custody, depositorToken).value;
    var key := Key(mint, depositor);
    CustodyChecked(env, st, custody);
    TransferMoves(st.tokens, custody, depositorToken, env.statePda, st.deposits[key].withdrawing);
    NotCustody(env, st, depositorToken, m);
    if m != mint {
      NotCustody(env, st, custody, m);
    }
    LiabilitiesUpdate(st.deposits, key, st'.deposits[key], m);
  }

  lemma WithdrawKeeps(env: Env, st: State, depositor: Pubkey, mint: Pubkey, custody: Pubkey, depositorToken: Pubkey)
    requires Inv(env, st)
    requires WithdrawStep(env, st, depositor, mint, custody, depositorToken).Ok?
    ensures Inv(env, WithdrawStep(env, st, depositor, mint, custody, depositorToken).value)
  {
    hide Supply, Surplus;
    var st' := WithdrawStep(env, st, depositor, mint, custody, depositorToken).value;
    var amount := st.deposits[Key(mint, depositor)].withdrawing;
    TransferMoves(st.tokens, custody, depositorToken, env.statePda, amount);
    ShapeKeepsCustody(env, st.cfg, st.tokens, st'.tokens);
    forall m
      ensures Supply(st'.tokens, m) <= U64_MAX
    {
      TransferConserves(st.tokens, custody, depositorToken, env.statePda, amount, m);
    }
    forall m | m in st.cfg.supportedTokens
      ensures Surplus(env, st', m) >= 0
    {
      WithdrawSurplus(env, st, depositor, mint, custody, depositorToken, m);
    }
  }

  // ---------- burns ----------

  /** A reduction takes exactly the smaller of the amount asked and the amount owed. */
  lemma ReducedOwes(d: Deposit, value: nat)
    ensures FromAvailable(d, value) + FromWithdrawing(d, value) == Min(value, Owed(d))
    ensures Owed(Reduced(d, value)) == Owed(d) - Min(value, Owed(d))
    ensures FromWithdrawing(d, value) > 0 ==> FromAvailable(d, value) == d.available
  {
  }

  /** The two token moves of a burn: custody loses fee and burn, the fee account gains the fee, supply falls by the
      burn. */
  lemma MoveBurnEffect(env: Env, t: TokenMap, c: BurnCall, fee: u64, burned: u64)
    requires MoveBurn(env, t, c, fee, burned).Ok?
    ensures var t' := MoveBurn(env, t, c, fee, burned).value;
            && SameShape(t, t')
            && (forall k :: Amount(t', k)
                  == Amount(t, k) - (if k == c.custody then fee + burned else 0) + (if k == c.feeToken then fee else 0))
  {
    if fee > 0 {
      TransferMoves(t, c.custody, c.feeToken, env.statePda, fee);
    }
  }

  lemma MoveBurnSupply(env: Env, t: TokenMap, c: BurnCall, fee: u64, burned: u64, m: Pubkey)
    requires MoveBurn(env, t, c, fee, burned).Ok?
    ensures Supply(MoveBurn(env, t, c, fee, burned).value, m) == Supply(t, m) - (if m == c.mint then burned else 0)
  {
    var t1 := if fee > 0 then Transfer(t, c.custody, c.feeToken, env.statePda, fee).value else t;
    if fee > 0 {
      TransferConserves(t, c.custody, c.feeToken, env.statePda, fee, m);
    }
    BurnLowersSupply(t1, c.mint, c.custody, env.statePda, burned, m);
  }

  /** What a burn deducts, the part of it that is fee, and the part that is burned. */
  function Deducted(d: Deposit, t: BurnTerms): u64 {
    Min(t.value + t.fee, Owed(d))
  }

  function FeeOf(d: Deposit, t: BurnTerms): u64 {
    FeeCharged(Deducted(d, t), t.value)
  }

  function Burned(d: Deposit, t: BurnTerms): u64 {
    Deducted(d, t) - FeeOf(d, t)
  }

  /** The log entries of a burn: a shortfall notice exactly when less than value and fee could be taken. */
  function BurnEvents(c: BurnCall, d: Deposit, t: BurnTerms): seq<Event> {
    var total: u64 := t.value + t.fee;
    var burned := GatewayBurned(c.deposit, t.specHash, t.destinationDomain, t.destinationRecipient, t.signer,
                                Burned(d, t), FeeOf(d, t), FromAvailable(d, total), FromWithdrawing(d, total));
    if Owed(d) < total
    then [InsufficientBalance(c.deposit, total, FromAvailable(d, total), FromWithdrawing(d, total)), burned]
    else [burned]
  }

  function Logged(st: State, events: seq<Event>): seq<Entry> {
    seq(|events|, i requires 0 <= i < |events| => Entry(st.slot, st.cfg.withdrawalDelay, events[i]))
  }

  /** What a successful burn did to each part of the state, on the terms t. */
  ghost predicate BurnMoved(env: Env, st: State, c: BurnCall, t: BurnTerms, st': State) {
    && c.deposit in st.deposits && c.deposit.mint == c.mint
    && CheckCustody(env, st.cfg, st.tokens, c.custody) == Ok(c.mint)
    && IsTokenAccount(st.tokens, c.feeToken, c.mint, st.cfg.feeRecipient)
    && c.feeToken == env.ata(st.cfg.feeRecipient, c.mint)
    && var d := st.deposits[c.deposit];
       && t.value + t.fee > 0
       && st'.deposits == st.deposits[c.deposit := Reduced(d, t.value + t.fee)]
       && MoveBurn(env, st.tokens, c, FeeOf(d, t), Burned(d, t)) == Ok(st'.tokens)
       && ProcessHash(env, st.accounts, c.payer, t.hashAccount, t.specHash, USED_DISCRIMINATOR) == Ok(st'.accounts)
       && st'.cfg == st.cfg && st'.delegates == st.delegates && st'.denylist == st.denylist && st'.slot == st.slot
       && st'.log == st.log + Logged(st, BurnEvents(c, d, t))
  }

  lemma EffectsMoved(env: Env, st: State, c: BurnCall, t: BurnTerms)
    requires c.deposit in st.deposits && c.deposit.mint == c.mint
    requires CheckCustody(env, st.cfg, st.tokens, c.custody) == Ok(c.mint)
    requires IsTokenAccount(st.tokens, c.feeToken, c.mint, st.cfg.feeRecipient)
    requires c.feeToken == env.ata(st.cfg.feeRecipient, c.mint)
    requires BurnEffects(env, st, c, st.deposits[c.deposit], t).Ok?
    ensures BurnMoved(env, st, c, t, BurnEffects(env, st, c, st.deposits[c.deposit], t).value)
  {
    hide MoveBurn, ProcessHash, CheckCustody;
    var d := st.deposits[c.deposit];
    ReducedOwes(d, t.value + t.fee);
    var st' := BurnEffects(env, st, c, d, t).value;
    assert st'.log == st.log + Logged(st, BurnEvents(c, d, t));
  }

  /** The terms of a successful burn, with its checks and its effects. */
  lemma BurnMoves(env: Env, st: State, c: BurnCall) returns (t: BurnTerms)
    requires BurnStep(env, st, c).Ok?
    ensures BurnMoved(env, st, c, t, BurnStep(env, st, c).value)
    ensures BurnAccounts(env, st, c).Ok?
    ensures BurnChecks(env, st, c, BurnAccounts(env, st, c).value.0, BurnAccounts(env, st, c).value.1) == Ok(t)
  {
    hide BurnChecks, BurnEffects;
    var a := BurnAccounts(env, st, c).value;
    assert a.0 == st.deposits[c.deposit];
    t := BurnChecks(env, st, c, a.0, a.1).value;
    EffectsMoved(env, st, c, t);
  }

  lemma BurnCustody(env: Env, st: State, c: BurnCall, t: BurnTerms, st': State, m: Pubkey)
    requires Inv(env, st) && m in st.cfg.supportedTokens && BurnMoved(env, st, c, t, st')
    ensures Amount(st'.tokens, Custody(env, m)) + (if m == c.mint then Deducted(st.deposits[c.deposit], t) else 0)
         == Amount(st.tokens, Custody(env, m))
          + (if m == c.mint && c.feeToken == c.custody then FeeOf(st.deposits[c.deposit], t) else 0)
  {
    hide MoveBurn, ProcessHash, BurnEvents, Supply, Surplus, UsedAreOwned;
    var d := st.deposits[c.deposit];
    CustodyChecked(env, st, c.custody);
    MoveBurnEffect(env, st.tokens, c, FeeOf(d, t), Burned(d, t));
    if m != c.mint {
      NotCustody(env, st, c.custody, m);
      NotCustody(env, st, c.feeToken, m);
    }
  }

  lemma BurnLiabilities(env: Env, st: State, c: BurnCall, t: BurnTerms, st': State, m: Pubkey)
    requires BurnMoved(env, st, c, t, st')
    ensures Liabilities(st'.deposits, m)
         == Liabilities(st.deposits, m) - (if m == c.mint then Deducted(st.deposits[c.deposit], t) else 0)
  {
    hide MoveBurn, ProcessHash, BurnEvents, CheckCustody;
    ReducedOwes(st.deposits[c.deposit], t.value + t.fee);
    LiabilitiesUpdate(st.deposits, c.deposit, st'.deposits[c.deposit], m);
  }

  /** A burn leaves the surplus unchanged, unless the fee account is the custody account itself. */
  lemma BurnSurplus(env: Env, st: State, c: BurnCall, t: BurnTerms, st': State, m: Pubkey)
    requires Inv(env, st) && m in st.cfg.supportedTokens && BurnMoved(env, st, c, t, st')
    ensures Surplus(env, st', m) - Surplus(env, st, m)
         == if m == c.mint && c.feeToken == c.custody then FeeOf(st.deposits[c.deposit], t) else 0
  {
    hide Inv, Liabilities, Amount, MoveBurn, ProcessHash, BurnEvents, CheckCustody, FeeOf, Deducted;
    BurnCustody(env, st, c, t, st', m);
    BurnLiabilities(env, st, c, t, st', m);
  }

  lemma BurnKeeps(env: Env, st: State, c: BurnCall, t: BurnTerms, st': State)
    requires Inv(env, st) && BurnMoved(env, st, c, t, st')
    ensures Inv(env, st')
  {
    hide MoveBurn, ProcessHash, CheckCustody, Supply, Surplus, BurnEvents, IsUsed, FeeOf, Burned;
    var d := st.deposits[c.deposit];
    MoveBurnEffect(env, st.tokens, c, FeeOf(d, t), Burned(d, t));
    ShapeKeepsCustody(env, st.cfg, st.tokens, st'.tokens);
    ProcessMarksOnce(env, st.accounts, c.payer, t.hashAccount, t.specHash, USED_DISCRIMINATOR);
    forall m
      ensures Supply(st'.tokens, m) <= U64_MAX
    {
      MoveBurnSupply(env, st.tokens, c, FeeOf(d, t), Burned(d, t), m);
    }
    forall m | m in st.cfg.supportedTokens
      ensures Surplus(env, st', m) >= 0
    {
      BurnSurplus(env, st, c, t, st', m);
    }
    forall k | k in st'.deposits
      ensures DepositOk(env, st'.cfg, k, st'.deposits[k])
    {
      assert DepositOk(env, st.cfg, k, st.deposits[k]);
    }
  }

  // ---------- administration and the outside ----------

  /** A newly supported token has no claims yet, and its custody account is in place. */
  lemma AddTokenEffectKeeps(env: Env, st: State, mint: Pubkey)
    requires Inv(env, st) && AddTokenEffect(env, st, mint).Ok?
    ensures Inv(env, AddTokenEffect(env, st, mint).value)
    ensures var st' := AddTokenEffect(env, st, mint).value;
            forall m :: m in st.cfg.supportedTokens ==> Surplus(env, st', m) == Surplus(env, st, m)
  {
    hide Supply, Liabilities, Position, UsedAreOwned;
    var st' := AddTokenEffect(env, st, mint).value;
    var k := Custody(env, mint);
    AddTokenKeeps(st.cfg.supportedTokens, st.cfg.bumps, mint, env.custodyBump(mint));
    NewCustody(env, st, st', k, mint);
    assert SupplyOk(st'.tokens) by {
      forall m
        ensures Supply(st'.tokens, m) <= U64_MAX
      {
        NewAccountSupply(st.tokens, k, mint, env.statePda, m);
      }
    }
  }

  /** Supporting one more mint, whose custody account exists, keeps custody and solvency. */
  lemma NewCustody(env: Env, st: State, st': State, k: Pubkey, mint: Pubkey)
    requires CustodyOk(env, st.cfg, st.tokens) && DepositsOk(env, st.cfg, st.deposits) && Solvent(env, st)
    requires k == Custody(env, mint) && IsTokenAccount(st'.tokens, k, mint, env.statePda)
    requires forall m :: m in st'.cfg.supportedTokens <==> m in st.cfg.supportedTokens || m == mint
    requires st'.deposits == st.deposits
    requires forall x :: x in st.tokens ==> x in st'.tokens && st'.tokens[x] == st.tokens[x]
    ensures CustodyOk(env, st'.cfg, st'.tokens) && DepositsOk(env, st'.cfg, st'.deposits) && Solvent(env, st')
    ensures forall m :: m in st.cfg.supportedTokens ==> Surplus(env, st', m) == Surplus(env, st, m)
  {
    forall m | m in st'.cfg.supportedTokens
      ensures IsTokenAccount(st'.tokens, Custody(env, m), m, env.statePda)
      ensures m in st.cfg.supportedTokens ==> Surplus(env, st', m) == Surplus(env, st, m)
      ensures Surplus(env, st', m) >= 0
    {
      if m in st.cfg.supportedTokens {
        assert IsTokenAccount(st.tokens, Custody(env, m), m, env.statePda);
      } else {
        assert Claims(st.deposits, m) == map[];
      }
    }
    forall x | x in st'.deposits
      ensures DepositOk(env, st'.cfg, x, st'.deposits[x])
    {
      assert DepositOk(env, st.cfg, x, st.deposits[x]);
    }
  }

  /** Settings other than the token list leave the invariant alone. */
  lemma SettingsKeep(env: Env, st: State, st': State)
    requires Inv(env, st)
    requires st'.cfg.supportedTokens == st.cfg.supportedTokens && st'.cfg.bumps == st.cfg.bumps
    requires NoDuplicates(st'.cfg.burnSigners) && |st'.cfg.burnSigners| <= MAX_SIGNERS && st'.cfg.withdrawalDelay > 0
    requires st'.deposits == st.deposits && st'.tokens == st.tokens && st'.accounts == st.accounts
    ensures Inv(env, st')
    ensures forall m :: m in st.cfg.supportedTokens ==> Surplus(env, st', m) == Surplus(env, st, m)
  {
    hide Supply, Liabilities, UsedAreOwned, Position;
    forall k | k in st'.deposits
      ensures DepositOk(env, st'.cfg, k, st'.deposits[k])
    {
      assert DepositOk(env, st.cfg, k, st.deposits[k]);
    }
    forall m | m in st.cfg.supportedTokens
      ensures Surplus(env, st', m) == Surplus(env, st, m) >= 0
    {
    }
  }

  lemma SettingsOk(env: Env, st: State)
    requires Inv(env, st)
    ensures NoDuplicates(st.cfg.burnSigners) && |st.cfg.burnSigners| <= MAX_SIGNERS && st.cfg.withdrawalDelay > 0
  {
  }

  lemma AdminKeeps(env: Env, st: State, signer: Pubkey, a: Admin)
    requires Inv(env, st) && AdminStep(env, st, signer, a).Ok?
    ensures Inv(env, AdminStep(env, st, signer, a).value)
    ensures AdminStep(env, st, signer, a).value.deposits == st.deposits
    ensures var st' := AdminStep(env, st, signer, a).value;
            forall m :: m in st.cfg.supportedTokens ==> Surplus(env, st', m) == Surplus(env, st, m)
  {
    hide Inv, Surplus;
    SettingsOk(env, st);
    SignersKeepFor(st.cfg.burnSigners, a);
    var st1 := AdminEffect(env, st, a).value;
    var st' := AdminStep(env, st, signer, a).value;
    if a.AddSupportedToken? {
      AddTokenEffectKeeps(env, st, a.mint);
    } else {
      SettingsKeep(env, st, st1);
    }
    SettingsOk(env, st1);
    SettingsKeep(env, st1, st');
  }

  lemma SignersKeepFor(signers: seq<Pubkey>, a: Admin)
    requires NoDuplicates(signers) && |signers| <= MAX_SIGNERS
    ensures a.AddBurnSigner? && AddSigner(signers, a.burnSigner, BurnSignerLimitExceeded).Ok? ==>
              var s := AddSigner(signers, a.burnSigner, BurnSignerLimitExceeded).value;
              NoDuplicates(s) && |s| <= MAX_SIGNERS
    ensures a.RemoveBurnSigner? ==>
              var s := RemoveSigner(signers, a.burnSigner); NoDuplicates(s) && |s| <= MAX_SIGNERS
  {
    if a.AddBurnSigner? || a.RemoveBurnSigner? {
      SignersKeep(signers, a.burnSigner, BurnSignerLimitExceeded);
    }
  }

  lemma OutsideKeeps(env: Env, st: State, tokens: TokenMap, accounts: Accounts, slot: u64)
    requires Inv(env, st) && OutsideOk(env, st, tokens, accounts, slot)
    ensures Inv(env, st.(tokens := tokens, accounts := accounts, slot := slot))
    ensures forall m :: m in st.cfg.supportedTokens ==>
              Surplus(env, st.(tokens := tokens, accounts := accounts, slot := slot), m) >= Surplus(env, st, m)
  {
    hide Supply, Liabilities;
    var st' := st.(tokens := tokens, accounts := accounts, slot := slot);
    forall m | m in st.cfg.supportedTokens
      ensures IsTokenAccount(tokens, Custody(env, m), m, env.statePda)
      ensures Surplus(env, st', m) >= Surplus(env, st, m)
    {
      assert IsTokenAccount(st.tokens, Custody(env, m), m, env.statePda);
    }
  }
}
