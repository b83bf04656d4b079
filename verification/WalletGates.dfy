/** The gates of the wallet: who may move them, what moving them changes, and what they keep shut over every run until
    they are opened again. */
module WalletGates {
  import opened Base
  import opened Runtime
  import opened Tokens
  import opened UsedHashes
  import opened Registry
  import opened Wallet
  import opened WalletFacts
  import opened WalletSolvency
  import opened WalletReachable
  import opened WalletBurn
  import opened WalletHistory
  import BurnData

  // ---------- delegates ----------

  /** Exactly when a delegate can be added, and what that writes: an authorized record under its own key, nothing
      else. */
  lemma AddDelegateSucceedsIff(env: Env, st: State, depositor: Pubkey, mint: Pubkey, delegate: Pubkey)
    ensures AddDelegateStep(env, st, depositor, mint, delegate).Ok?
       <==> depositor != env.statePda && !st.cfg.paused && delegate != DEFAULT_PUBKEY && delegate != depositor
            && depositor !in st.denylist && delegate !in st.denylist && mint in st.cfg.supportedTokens
    ensures AddDelegateStep(env, st, depositor, mint, delegate).Ok? ==>
              var k := DelegateKey(mint, depositor, delegate);
              var st' := AddDelegateStep(env, st, depositor, mint, delegate).value;
              st' == st.(delegates := st.delegates[k := Delegate(Authorized, mint, depositor, delegate)],
                         log := st'.log)
              && LogsOne(st, st', DelegateAdded(k))
  {
  }

  /** Exactly when one can be removed: the record must exist. An authorized one becomes revoked; any other is left. */
  lemma RemoveDelegateSucceedsIff(env: Env, st: State, depositor: Pubkey, mint: Pubkey, delegate: Pubkey)
    ensures RemoveDelegateStep(env, st, depositor, mint, delegate).Ok?
       <==> depositor != env.statePda && !st.cfg.paused && DelegateKey(mint, depositor, delegate) in st.delegates
            && delegate != DEFAULT_PUBKEY && depositor !in st.denylist && mint in st.cfg.supportedTokens
    ensures RemoveDelegateStep(env, st, depositor, mint, delegate).Ok? ==>
              var k := DelegateKey(mint, depositor, delegate);
              var st' := RemoveDelegateStep(env, st, depositor, mint, delegate).value;
              if st.delegates[k].status != Authorized then st' == st
              else st' == st.(delegates := st.delegates[k := st.delegates[k].(status := Revoked)], log := st'.log)
                   && LogsOne(st, st', DelegateRemoved(k))
  {
  }

  // ---------- administration ----------

  /** Who may do what, and when: the role of each instruction and its own conditions. */
  predicate AllowedTo(env: Env, st: State, signer: Pubkey, a: Admin) {
    && signer != env.statePda
    && match a
       case Pause => signer == st.cfg.pauser
       case Unpause => signer == st.cfg.pauser
       case DenylistAccount(_) => signer == st.cfg.denylister
       case UndenylistAccount(x) => signer == st.cfg.denylister && x in st.denylist
       case UpdateWithdrawalDelay(d) => signer == st.cfg.owner && d > 0
       case AddSupportedToken(m) =>
         && signer == st.cfg.tokenController && (m in st.cfg.supportedTokens || |st.cfg.supportedTokens| < 10)
         && var k := env.custodyPda(m, env.custodyBump(m));
            k.Some? && (k.value in st.tokens ==>
                        st.tokens[k.value].mint == m && st.tokens[k.value].owner == env.statePda)
       case AddBurnSigner(s) =>
         signer == st.cfg.owner && s != DEFAULT_PUBKEY && (s in st.cfg.burnSigners || |st.cfg.burnSigners| < 10)
       case RemoveBurnSigner(_) => signer == st.cfg.owner
       case UpdateFeeRecipient(r) => signer == st.cfg.owner && r != DEFAULT_PUBKEY
       case UpdateRole(c) =>
         match c
         case SetPauser(x) => signer == st.cfg.owner && x != DEFAULT_PUBKEY
         case SetDenylister(x) => signer == st.cfg.owner && x != DEFAULT_PUBKEY
         case SetTokenController(x) => signer == st.cfg.owner && x != DEFAULT_PUBKEY
         case TransferOwnership(_) => signer == st.cfg.owner
         case AcceptOwnership => signer == st.cfg.pendingOwner
  }

  /** An administrative instruction succeeds exactly for the role it names, under its own conditions. */
  lemma AdminSucceedsIff(env: Env, st: State, signer: Pubkey, a: Admin)
    ensures AdminStep(env, st, signer, a).Ok? <==> AllowedTo(env, st, signer, a)
  {
    hide AddSigner, RemoveSigner, RoleEffect, AddTokenEffect;
    match a
    case AddSupportedToken(m) => AddTokenSucceedsIff(env, st, m);
    case AddBurnSigner(s) => AddSignerSucceedsIff(st.cfg.burnSigners, s, BurnSignerLimitExceeded);
    case UpdateRole(c) => RoleSucceedsIff(st.cfg, c);
    case _ =>
  }

  lemma AddTokenSucceedsIff(env: Env, st: State, m: Pubkey)
    ensures AddTokenEffect(env, st, m).Ok?
       <==> (m in st.cfg.supportedTokens || |st.cfg.supportedTokens| < 10)
            && var k := env.custodyPda(m, env.custodyBump(m));
               k.Some? && (k.value in st.tokens ==>
                           st.tokens[k.value].mint == m && st.tokens[k.value].owner == env.statePda)
  {
  }

  lemma AddSignerSucceedsIff(signers: seq<Pubkey>, s: Pubkey, e: Error)
    ensures AddSigner(signers, s, e).Ok? <==> s in signers || |signers| < 10
  {
  }

  lemma RoleSucceedsIff(cfg: Config, c: RoleChange)
    ensures RoleEffect(cfg, c).Ok?
       <==> (c.SetPauser? ==> c.pauser != DEFAULT_PUBKEY)
            && (c.SetDenylister? ==> c.denylister != DEFAULT_PUBKEY)
            && (c.SetTokenController? ==> c.tokenController != DEFAULT_PUBKEY)
  {
  }

  /** The settings that an instruction other than the registry's leaves behind. */
  function SettingsAfter(cfg: Config, a: Admin): Config {
    match a
    case Pause => cfg.(paused := true)
    case Unpause => cfg.(paused := false)
    case UpdateWithdrawalDelay(d) => cfg.(withdrawalDelay := d)
    case UpdateFeeRecipient(r) => cfg.(feeRecipient := r)
    case UpdateRole(SetPauser(x)) => cfg.(pauser := x)
    case UpdateRole(SetDenylister(x)) => cfg.(denylister := x)
    case UpdateRole(SetTokenController(x)) => cfg.(tokenController := x)
    case UpdateRole(TransferOwnership(x)) => cfg.(pendingOwner := x)
    case UpdateRole(AcceptOwnership) => cfg.(owner := cfg.pendingOwner, pendingOwner := DEFAULT_PUBKEY)
    case _ => cfg
  }

  /** What each instruction changes: the one setting, list or account it names; ledger, delegates, accounts and slot
      never. */
  lemma AdminDoes(env: Env, st: State, signer: Pubkey, a: Admin)
    requires Inv(env, st) && AdminStep(env, st, signer, a).Ok?
    ensures var st' := AdminStep(env, st, signer, a).value;
            && st'.deposits == st.deposits && st'.delegates == st.delegates && st'.accounts == st.accounts
            && st'.slot == st.slot
            && SettingsAfter(st.cfg, a)
               == st'.cfg.(supportedTokens := st.cfg.supportedTokens, bumps := st.cfg.bumps,
                           burnSigners := st.cfg.burnSigners)
            && (forall m :: m in st'.cfg.supportedTokens <==>
                              m in st.cfg.supportedTokens || (a.AddSupportedToken? && m == a.mint))
            && (forall s :: s in st'.cfg.burnSigners <==>
                              (s in st.cfg.burnSigners || (a.AddBurnSigner? && s == a.burnSigner))
                              && !(a.RemoveBurnSigner? && s == a.burnSigner))
            && (forall x :: x in st'.denylist <==>
                              (x in st.denylist || (a.DenylistAccount? && x == a.account))
                              && !(a.UndenylistAccount? && x == a.account))
            && (forall k :: k in st.tokens ==> k in st'.tokens && st'.tokens[k] == st.tokens[k])
            && (forall k :: k in st'.tokens && k !in st.tokens ==>
                              a.AddSupportedToken? && k == Custody(env, a.mint)
                              && st'.tokens[k] == TokenAccount(a.mint, env.statePda, 0))
  {
    hide AddSigner, RemoveSigner, AddTokenEffect, Custody, CustodyOk, DepositsOk, Solvent, SupplyOk, UsedAreOwned,
         TokenListOk, BumpOf;
    match a
    case AddSupportedToken(m) => AddTokenDoes(env, st, m);
    case AddBurnSigner(s) => SignersKeep(st.cfg.burnSigners, s, BurnSignerLimitExceeded);
    case RemoveBurnSigner(s) => SignersKeep(st.cfg.burnSigners, s, BurnSignerLimitExceeded);
    case _ =>
  }

  lemma AddTokenDoes(env: Env, st: State, m: Pubkey)
    requires AddTokenEffect(env, st, m).Ok?
    ensures var st' := AddTokenEffect(env, st, m).value;
            && st' == st.(tokens := st'.tokens,
                          cfg := st.cfg.(supportedTokens := st'.cfg.supportedTokens, bumps := st'.cfg.bumps))
            && (forall x :: x in st'.cfg.supportedTokens <==> x in st.cfg.supportedTokens || x == m)
            && (forall k :: k in st.tokens ==> k in st'.tokens && st'.tokens[k] == st.tokens[k])
            && (forall k :: k in st'.tokens && k !in st.tokens ==>
                              k == Custody(env, m) && st'.tokens[k] == TokenAccount(m, env.statePda, 0))
  {
  }

  /** The report of each instruction, with the delay in force after it. */
  lemma AdminReports(env: Env, st: State, signer: Pubkey, a: Admin)
    requires AdminStep(env, st, signer, a).Ok?
    ensures var st' := AdminStep(env, st, signer, a).value;
            LogsOne(st, st', if a.DenylistAccount? then Denylisted(a.account)
                             else if a.UndenylistAccount? then UnDenylisted(a.account)
                             else if a.UpdateWithdrawalDelay?
                               then WithdrawalDelayChanged(st.cfg.withdrawalDelay, a.newDelay)
                             else Administered)
  {
    hide AddSigner, RemoveSigner, Registry.AddToken;
  }

  /** Only administration touches the settings and the denylist. */
  lemma OnlyAdminSets(env: Env, st: State, c: Call)
    requires Step(env, st, c).Ok? && !c.AdminCall?
    ensures Step(env, st, c).value.cfg == st.cfg && Step(env, st, c).value.denylist == st.denylist
  {
    hide BurnStep, DepositStep, InitiateWithdrawalStep, WithdrawStep, AddDelegateStep, RemoveDelegateStep, BurnMoved;
    match c
    case DepositCall(owner, ownerToken, custody, amount) =>
      var _ := DepositFacts(env, st, owner, ownerToken, custody, owner, amount, false);
    case DepositForCall(owner, ownerToken, custody, amount, depositor) =>
      var _ := DepositFacts(env, st, owner, ownerToken, custody, depositor, amount, true);
    case InitiateWithdrawalCall(depositor, m, amount) => var _ := InitiateFacts(env, st, depositor, m, amount);
    case WithdrawCall(depositor, m, custody, depositorToken) =>
      var _ := WithdrawFacts(env, st, depositor, m, custody, depositorToken);
    case GatewayBurnCall(b) =>
      var t := BurnMoves(env, st, b);
      BurnFrame(env, st, b, t, Step(env, st, c).value);
    case AddDelegateCall(depositor, m, delegate) => var _ := AddDelegateFacts(env, st, depositor, m, delegate);
    case RemoveDelegateCall(depositor, m, delegate) => var _ := RemoveDelegateFacts(env, st, depositor, m, delegate);
  }

  // ---------- pausing ----------

  /** After a pause, whoever acts, no deposit or delegate record changes until an unpause. */
  lemma PauseFreezes(env: Env, st: State, signer: Pubkey, actions: seq<Action>)
    requires Reachable(env, st) && AdminStep(env, st, signer, Pause).Ok?
    requires forall i :: 0 <= i < |actions| ==> !IsAdmin(actions[i], Unpause)
    ensures var st' := Run(env, AdminStep(env, st, signer, Pause).value, actions);
            st'.cfg.paused && st'.deposits == st.deposits && st'.delegates == st.delegates
  {
    hide Reachable, Inv, Run, AdminStep;
    ReachableInv(env, st);
    AdminDoes(env, st, signer, Pause);
    PausedFreezesRecords(env, AdminStep(env, st, signer, Pause).value, actions);
  }

  /** While paused, no instruction on the ledger or the delegates succeeds at all. */
  lemma PausedRefusesAll(env: Env, st: State, c: Call)
    requires st.cfg.paused && !c.AdminCall?
    ensures Step(env, st, c).Err?
    ensures Step(env, st, c).error == ProgramPaused || Step(env, st, c).error == MissingSignature
  {
    hide BurnChecks, BurnEffects, CheckCustody;
  }

  /** After an unpause deposits work again: this one succeeds exactly on its other gates. */
  lemma UnpauseReopens(env: Env, st: State, signer: Pubkey, owner: Pubkey, ownerToken: Pubkey, mint: Pubkey,
                       depositor: Pubkey, amount: u64, forOther: bool)
    requires Reachable(env, st) && AdminStep(env, st, signer, Unpause).Ok? && mint in st.cfg.supportedTokens
    ensures var st' := AdminStep(env, st, signer, Unpause).value;
            DepositStep(env, st', owner, ownerToken, Custody(env, mint), depositor, amount, forOther).Ok?
            <==> owner != env.statePda && IsTokenAccount(st.tokens, ownerToken, mint, owner)
                 && (forOther ==> depositor != DEFAULT_PUBKEY) && owner !in st.denylist && depositor !in st.denylist
                 && 0 < amount <= st.tokens[ownerToken].amount
  {
    hide Reachable, Inv, AdminStep, DepositStep;
    ReachableInv(env, st);
    AdminDoes(env, st, signer, Unpause);
    AdminKeeps(env, st, signer, Unpause);
    var st' := AdminStep(env, st, signer, Unpause).value;
    DepositSucceedsIff(env, st', owner, ownerToken, mint, depositor, amount, forOther);
  }

  // ---------- the denylist ----------

  /** After denylisting x, what the wallet owes x never grows until x is undenylisted. */
  lemma DenylistFreezes(env: Env, st: State, signer: Pubkey, x: Pubkey, mint: Pubkey, actions: seq<Action>)
    requires Reachable(env, st) && AdminStep(env, st, signer, DenylistAccount(x)).Ok?
    requires forall i :: 0 <= i < |actions| ==> !IsAdmin(actions[i], UndenylistAccount(x))
    ensures var st' := Run(env, AdminStep(env, st, signer, DenylistAccount(x)).value, actions);
            x in st'.denylist && OwedAt(st'.deposits, Key(mint, x)) <= OwedAt(st.deposits, Key(mint, x))
  {
    hide Reachable, Inv, Run, AdminStep;
    ReachableInv(env, st);
    AdminDoes(env, st, signer, DenylistAccount(x));
    DenylistedNeverGrows(env, AdminStep(env, st, signer, DenylistAccount(x)).value, actions, x, mint);
  }

  /** After undenylisting x, x can deposit again exactly on the other gates. */
  lemma UndenylistReopens(env: Env, st: State, signer: Pubkey, x: Pubkey, ownerToken: Pubkey, mint: Pubkey, amount: u64)
    requires Reachable(env, st) && AdminStep(env, st, signer, UndenylistAccount(x)).Ok?
             && mint in st.cfg.supportedTokens
    ensures var st' := AdminStep(env, st, signer, UndenylistAccount(x)).value;
            DepositStep(env, st', x, ownerToken, Custody(env, mint), x, amount, false).Ok?
            <==> x != env.statePda && !st.cfg.paused && IsTokenAccount(st.tokens, ownerToken, mint, x)
                 && 0 < amount <= st.tokens[ownerToken].amount
  {
    hide Reachable, Inv, AdminStep, DepositStep;
    ReachableInv(env, st);
    AdminDoes(env, st, signer, UndenylistAccount(x));
    AdminKeeps(env, st, signer, UndenylistAccount(x));
    var st' := AdminStep(env, st, signer, UndenylistAccount(x)).value;
    DepositSucceedsIff(env, st', x, ownerToken, mint, x, amount, false);
  }

  // ---------- burn signers ----------

  lemma {:induction false} SignerStaysOut(env: Env, st: State, actions: seq<Action>, s: Pubkey)
    requires Inv(env, st) && s !in st.cfg.burnSigners
    requires forall i :: 0 <= i < |actions| ==> !IsAdmin(actions[i], AddBurnSigner(s))
    ensures s !in Run(env, st, actions).cfg.burnSigners
  {
    hide Inv, Step, OutsideOk;
    if actions == [] {
    } else {
      var init, a := actions[..|actions| - 1], actions[|actions| - 1];
      assert forall i :: 0 <= i < |init| ==> init[i] == actions[i];
      SignerStaysOut(env, st, init, s);
      var before := Run(env, st, init);
      if a.Program? && Step(env, before, a.call).Ok? {
        RunKeeps(env, st, init);
        SettingsStep(env, before, a.call);
      }
    }
  }

  /** One successful instruction and the settings that runs are asked about. */
  lemma SettingsStep(env: Env, st: State, c: Call)
    requires Inv(env, st) && Step(env, st, c).Ok?
    ensures var st' := Step(env, st, c).value;
            && (forall s :: s in st'.cfg.burnSigners ==>
                              s in st.cfg.burnSigners || (c.AdminCall? && c.admin == AddBurnSigner(s)))
            && (st'.cfg.feeRecipient == st.cfg.feeRecipient
                || (c.AdminCall? && c.admin == UpdateFeeRecipient(st'.cfg.feeRecipient)))
            && (st'.cfg.withdrawalDelay == st.cfg.withdrawalDelay
                || (c.AdminCall? && c.admin == UpdateWithdrawalDelay(st'.cfg.withdrawalDelay)))
  {
    hide Inv, AdminStep, BurnStep, DepositStep, InitiateWithdrawalStep, WithdrawStep, AddDelegateStep,
         RemoveDelegateStep;
    if c.AdminCall? {
      AdminDoes(env, st, c.signer, c.admin);
    } else {
      OnlyAdminSets(env, st, c);
    }
  }

  /** After removing burn signer s, no burn whose data s signed succeeds until s is added again. */
  lemma RemovedSignerNeverBurns(env: Env, st: State, signer: Pubkey, s: Pubkey, actions: seq<Action>, c: BurnCall)
    requires Reachable(env, st) && AdminStep(env, st, signer, RemoveBurnSigner(s)).Ok?
    requires forall i :: 0 <= i < |actions| ==> !IsAdmin(actions[i], AddBurnSigner(s))
    requires SignatureCovers(env, c.burnData, c.burnSignature, s)
    ensures BurnStep(env, Run(env, AdminStep(env, st, signer, RemoveBurnSigner(s)).value, actions), c).Err?
  {
    hide Reachable, Inv, Run, AdminStep, BurnStep, SignatureCovers;
    var st1 := AdminStep(env, st, signer, RemoveBurnSigner(s)).value;
    ReachableInv(env, st);
    AdminDoes(env, st, signer, RemoveBurnSigner(s));
    AdminKeeps(env, st, signer, RemoveBurnSigner(s));
    SignerStaysOut(env, st1, actions, s);
    var st2 := Run(env, st1, actions);
    forall x | x in st2.cfg.burnSigners
      ensures !SignatureCovers(env, c.burnData, c.burnSignature, x)
    {
      if SignatureCovers(env, c.burnData, c.burnSignature, x) {
        CoveredByOne(env, c.burnData, c.burnSignature, s, x);
      }
    }
    assert c == c.(burnData := c.burnData);
    UncoveredBurnFails(env, st2, c, c.burnData);
  }

  /** A signature covers a message for one signer at most. */
  lemma CoveredByOne(env: Env, message: Bytes, signature: Bytes, s: Pubkey, x: Pubkey)
    requires SignatureCovers(env, message, signature, s) && SignatureCovers(env, message, signature, x)
    ensures s == x
  {
  }

  // ---------- fee recipient and delay ----------

  lemma {:induction false} FeeRecipientStays(env: Env, st: State, actions: seq<Action>)
    requires Inv(env, st)
    requires forall i :: 0 <= i < |actions| ==>
               !(actions[i].Program? && actions[i].call.AdminCall? && actions[i].call.admin.UpdateFeeRecipient?)
    ensures Run(env, st, actions).cfg.feeRecipient == st.cfg.feeRecipient
  {
    hide Inv, Step, OutsideOk;
    if actions == [] {
    } else {
      var init, a := actions[..|actions| - 1], actions[|actions| - 1];
      assert forall i :: 0 <= i < |init| ==> init[i] == actions[i];
      FeeRecipientStays(env, st, init);
      var before := Run(env, st, init);
      if a.Program? && Step(env, before, a.call).Ok? {
        RunKeeps(env, st, init);
        SettingsStep(env, before, a.call);
      }
    }
  }

  /** After the fee recipient becomes r, every burn pays its fee to r's own token account, until it changes again. */
  lemma FeesGoToRecipient(env: Env, st: State, signer: Pubkey, r: Pubkey, actions: seq<Action>, c: BurnCall)
    returns (record: BurnData.Record)
    requires Reachable(env, st) && AdminStep(env, st, signer, UpdateFeeRecipient(r)).Ok?
    requires forall i :: 0 <= i < |actions| ==>
               !(actions[i].Program? && actions[i].call.AdminCall? && actions[i].call.admin.UpdateFeeRecipient?)
    requires BurnStep(env, Run(env, AdminStep(env, st, signer, UpdateFeeRecipient(r)).value, actions), c).Ok?
    ensures var st2 := Run(env, AdminStep(env, st, signer, UpdateFeeRecipient(r)).value, actions);
            && c.feeToken == env.ata(r, c.mint) && c.feeToken in st2.tokens
            && st2.tokens[c.feeToken].mint == c.mint && st2.tokens[c.feeToken].owner == r
            && BurnData.Encode(record) == c.burnData && c.deposit in st2.deposits
            && (c.feeToken != c.custody ==>
                  Amount(BurnStep(env, st2, c).value.tokens, c.feeToken)
                  == Amount(st2.tokens, c.feeToken) + ChargedFor(record, st2.deposits[c.deposit]))
  {
    hide Reachable, Inv, Run, AdminStep, BurnStep, BurnData.Encode, ChargedFor, Supply, MoveBurn, ProcessHash,
         CheckCustody;
    var st1 := AdminStep(env, st, signer, UpdateFeeRecipient(r)).value;
    ReachableInv(env, st);
    AdminDoes(env, st, signer, UpdateFeeRecipient(r));
    AdminKeeps(env, st, signer, UpdateFeeRecipient(r));
    FeeRecipientStays(env, st1, actions);
    var st2 := Run(env, st1, actions);
    var _ := BurnMoves(env, st2, c);
    record := BurnTokens(env, st2, c, c.mint, c.feeToken);
  }

  lemma {:induction false} DelayStays(env: Env, st: State, actions: seq<Action>)
    requires Inv(env, st)
    requires forall i :: 0 <= i < |actions| ==>
               !(actions[i].Program? && actions[i].call.AdminCall? && actions[i].call.admin.UpdateWithdrawalDelay?)
    ensures Run(env, st, actions).cfg.withdrawalDelay == st.cfg.withdrawalDelay
  {
    hide Inv, Step, OutsideOk;
    if actions == [] {
    } else {
      var init, a := actions[..|actions| - 1], actions[|actions| - 1];
      assert forall i :: 0 <= i < |init| ==> init[i] == actions[i];
      DelayStays(env, st, init);
      var before := Run(env, st, init);
      if a.Program? && Step(env, before, a.call).Ok? {
        RunKeeps(env, st, init);
        SettingsStep(env, before, a.call);
      }
    }
  }

  /** After the delay becomes d, every initiation is due d slots later, until the delay changes again. */
  lemma InitiationsWaitTheDelay(env: Env, st: State, signer: Pubkey, d: u64, actions: seq<Action>, depositor: Pubkey,
                                mint: Pubkey, amount: u64)
    requires Reachable(env, st) && AdminStep(env, st, signer, UpdateWithdrawalDelay(d)).Ok?
    requires forall i :: 0 <= i < |actions| ==>
               !(actions[i].Program? && actions[i].call.AdminCall? && actions[i].call.admin.UpdateWithdrawalDelay?)
    ensures var st2 := Run(env, AdminStep(env, st, signer, UpdateWithdrawalDelay(d)).value, actions);
            var r := InitiateWithdrawalStep(env, st2, depositor, mint, amount);
            r.Ok? ==> Key(mint, depositor) in r.value.deposits
                      && r.value.deposits[Key(mint, depositor)].withdrawalBlock == st2.slot + d
  {
    hide Reachable, Inv, Run, AdminStep, InitiateWithdrawalStep;
    var st1 := AdminStep(env, st, signer, UpdateWithdrawalDelay(d)).value;
    ReachableInv(env, st);
    AdminDoes(env, st, signer, UpdateWithdrawalDelay(d));
    AdminKeeps(env, st, signer, UpdateWithdrawalDelay(d));
    DelayStays(env, st1, actions);
    var st2 := Run(env, st1, actions);
    if InitiateWithdrawalStep(env, st2, depositor, mint, amount).Ok? {
      var _ := InitiateFacts(env, st2, depositor, mint, amount);
    }
  }
}
