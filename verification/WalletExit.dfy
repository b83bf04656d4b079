/** What solvency is for: from every reachable state that is not paused, everyone can be paid out in full. */
module WalletExit {
  import opened Base
  import opened Tokens
  import opened Runtime
  import opened UsedHashes
  import opened Wallet
  import opened WalletFacts
  import opened WalletSolvency
  import opened WalletReachable

  lemma RunSnoc(env: Env, st: State, actions: seq<Action>, c: Call)
    requires Step(env, Run(env, st, actions), c).Ok?
    ensures Run(env, st, actions + [Program(c)]) == Step(env, Run(env, st, actions), c).value
  {
    hide Step;
    var longer := actions + [Program(c)];
    assert longer[..|longer| - 1] == actions;
  }

  /** Only withdrawal instructions, signed by the given depositors. */
  ghost predicate OnlyLeaving(actions: seq<Action>, keys: set<Key>) {
    forall a :: a in actions ==>
      && a.Program? && (a.call.InitiateWithdrawalCall? || a.call.WithdrawCall?)
      && Key(a.call.mint, a.call.depositor) in keys
  }

  /** A depositor with a record, an account of the mint to be paid on, and the ability to sign. */
  ghost predicate CanLeave(env: Env, st: State, wallets: map<Key, Pubkey>, k: Key) {
    && k in st.deposits && k.depositor != env.statePda
    && k in wallets && IsTokenAccount(st.tokens, wallets[k], k.mint, k.depositor)
  }

  /** Everything of the given depositors is pending and due by `until`; the rest of the state is as it was. */
  ghost predicate AllPending(st: State, st': State, keys: set<Key>, until: u64) {
    && st' == st.(deposits := st'.deposits, log := st'.log)
    && st'.deposits.Keys == st.deposits.Keys
    && forall k :: k in st.deposits ==>
         if k in keys then
           && st'.deposits[k].available == 0 && st'.deposits[k].withdrawing == Owed(st.deposits[k])
           && st'.deposits[k].withdrawalBlock <= until
         else st'.deposits[k] == st.deposits[k]
  }

  lemma InitiateOne(env: Env, st: State, k: Key, until: u64) returns (actions: seq<Action>)
    requires Inv(env, st) && !st.cfg.paused && st.slot + st.cfg.withdrawalDelay <= until
    requires k in st.deposits && k.depositor != env.statePda && st.deposits[k].withdrawalBlock <= until
    ensures OnlyLeaving(actions, {k})
    ensures Inv(env, Run(env, st, actions)) && AllPending(st, Run(env, st, actions), {k}, until)
  {
    hide Inv, InitiateWithdrawalStep;
    actions := [];
    assert Run(env, st, actions) == st;
    if st.deposits[k].available > 0 {
      var c := InitiateWithdrawalCall(k.depositor, k.mint, st.deposits[k].available);
      InitiateSucceedsIff(env, st, k.depositor, k.mint, st.deposits[k].available);
      var _ := InitiateFacts(env, st, k.depositor, k.mint, st.deposits[k].available);
      StepKeeps(env, st, c);
      RunSnoc(env, st, actions, c);
      actions := actions + [Program(c)];
    }
  }

  /** Each depositor initiates a withdrawal of the whole available balance. */
  lemma InitiateAll(env: Env, st: State, keys: set<Key>, until: u64) returns (actions: seq<Action>)
    requires Inv(env, st) && !st.cfg.paused && st.slot + st.cfg.withdrawalDelay <= until
    requires forall k :: k in keys ==>
               k in st.deposits && k.depositor != env.statePda && st.deposits[k].withdrawalBlock <= until
    ensures OnlyLeaving(actions, keys)
    ensures Inv(env, Run(env, st, actions)) && AllPending(st, Run(env, st, actions), keys, until)
    decreases |keys|
  {
    hide Inv, Apply;
    if keys == {} {
      actions := [];
    } else {
      var k :| k in keys;
      var first := InitiateAll(env, st, keys - {k}, until);
      var middle := Run(env, st, first);
      var second := InitiateOne(env, middle, k, until);
      RunAppend(env, st, first, second);
      actions := first + second;
    }
  }

  /** The pending amounts of the given depositors are cleared, and nobody else's record changed. */
  ghost predicate RecordsPaid(st: State, st': State, keys: set<Key>) {
    && st'.deposits.Keys == st.deposits.Keys
    && forall k :: k in st.deposits ==>
         if k in keys then st'.deposits[k].available == st.deposits[k].available && st'.deposits[k].withdrawing == 0
         else st'.deposits[k] == st.deposits[k]
  }

  predicate IsWalletOf(keys: set<Key>, wallets: map<Key, Pubkey>, a: Pubkey) {
    exists k :: k in keys && k in wallets && wallets[k] == a
  }

  /** Their accounts have received those amounts, and only the program's own accounts changed besides. */
  ghost predicate WalletsPaid(env: Env, st: State, st': State, keys: set<Key>, wallets: map<Key, Pubkey>) {
    && SameShape(st.tokens, st'.tokens)
    && (forall k :: k in keys && k in st.deposits && k in wallets ==>
          Amount(st'.tokens, wallets[k]) == Amount(st.tokens, wallets[k]) + st.deposits[k].withdrawing)
    && (forall a :: a in st.tokens && st.tokens[a].owner != env.statePda && !IsWalletOf(keys, wallets, a) ==>
          Amount(st'.tokens, a) == Amount(st.tokens, a))
  }

  /** Everything pending of the given depositors has been paid on their accounts. */
  ghost predicate AllPaid(env: Env, st: State, st': State, keys: set<Key>, wallets: map<Key, Pubkey>) {
    st'.cfg == st.cfg && st'.slot == st.slot && RecordsPaid(st, st', keys) && WalletsPaid(env, st, st', keys, wallets)
  }

  lemma WithdrawMoves(env: Env, st: State, k: Key, token: Pubkey)
    requires Inv(env, st) && WithdrawStep(env, st, k.depositor, k.mint, Custody(env, k.mint), token).Ok?
    requires k in st.deposits
    ensures var st' := WithdrawStep(env, st, k.depositor, k.mint, Custody(env, k.mint), token).value;
            && SameShape(st.tokens, st'.tokens)
            && (forall a :: a in st.tokens && st.tokens[a].owner != env.statePda ==>
                  Amount(st'.tokens, a)
                  == Amount(st.tokens, a) + (if a == token then st.deposits[k].withdrawing else 0))
  {
    hide Inv, Transfer, SameShape;
    CustodyChecked(env, st, Custody(env, k.mint));
    TransferMoves(st.tokens, Custody(env, k.mint), token, env.statePda, st.deposits[k].withdrawing);
  }

  lemma WithdrawOne(env: Env, st: State, k: Key, wallets: map<Key, Pubkey>) returns (actions: seq<Action>)
    requires Inv(env, st) && !st.cfg.paused && CanLeave(env, st, wallets, k)
             && st.deposits[k].withdrawalBlock <= st.slot
    ensures OnlyLeaving(actions, {k})
    ensures Inv(env, Run(env, st, actions)) && AllPaid(env, st, Run(env, st, actions), {k}, wallets)
  {
    hide Inv, WithdrawStep;
    actions := [];
    assert Run(env, st, actions) == st;
    if st.deposits[k].withdrawing > 0 {
      var c := WithdrawCall(k.depositor, k.mint, Custody(env, k.mint), wallets[k]);
      WithdrawSucceedsIff(env, st, k.depositor, k.mint, wallets[k]);
      var _ := WithdrawFacts(env, st, k.depositor, k.mint, Custody(env, k.mint), wallets[k]);
      WithdrawMoves(env, st, k, wallets[k]);
      StepKeeps(env, st, c);
      RunSnoc(env, st, actions, c);
      actions := actions + [Program(c)];
    }
  }

  /** Different depositors, or the same depositor for different mints, are paid on different accounts. */
  lemma WalletsApart(env: Env, st: State, wallets: map<Key, Pubkey>, k: Key, x: Key)
    requires CanLeave(env, st, wallets, k) && CanLeave(env, st, wallets, x) && k != x
    ensures wallets[k] != wallets[x]
  {
  }

  lemma WalletsPaidAfterOthers(env: Env, st: State, middle: State, st': State, keys: set<Key>, k: Key,
                               wallets: map<Key, Pubkey>)
    requires forall x :: x in keys ==> CanLeave(env, st, wallets, x)
    requires k in keys && RecordsPaid(st, middle, keys - {k})
    requires WalletsPaid(env, st, middle, keys - {k}, wallets) && WalletsPaid(env, middle, st', {k}, wallets)
    ensures WalletsPaid(env, st, st', keys, wallets)
  {
    forall x | x in keys
      ensures Amount(st'.tokens, wallets[x]) == Amount(st.tokens, wallets[x]) + st.deposits[x].withdrawing
    {
      if x == k {
        assert !IsWalletOf(keys - {k}, wallets, wallets[k]) by {
          OthersWallets(env, st, keys, wallets, k);
        }
      } else {
        WalletsApart(env, st, wallets, k, x);
        assert !IsWalletOf({k}, wallets, wallets[x]);
      }
    }
    forall a | a in st.tokens && st.tokens[a].owner != env.statePda && !IsWalletOf(keys, wallets, a)
      ensures Amount(st'.tokens, a) == Amount(st.tokens, a)
    {
      assert !IsWalletOf(keys - {k}, wallets, a) && !IsWalletOf({k}, wallets, a);
    }
  }

  lemma OthersWallets(env: Env, st: State, keys: set<Key>, wallets: map<Key, Pubkey>, k: Key)
    requires forall x :: x in keys ==> CanLeave(env, st, wallets, x)
    requires k in keys && CanLeave(env, st, wallets, k)
    ensures !IsWalletOf(keys - {k}, wallets, wallets[k])
  {
    forall x | x in keys - {k}
      ensures wallets[x] != wallets[k]
    {
      WalletsApart(env, st, wallets, k, x);
    }
  }

  lemma RecordsPaidAfterOthers(st: State, middle: State, st': State, keys: set<Key>, k: Key)
    requires k in keys && RecordsPaid(st, middle, keys - {k}) && RecordsPaid(middle, st', {k})
    ensures RecordsPaid(st, st', keys)
  {
  }

  lemma StillCanLeave(env: Env, st: State, middle: State, keys: set<Key>, k: Key, wallets: map<Key, Pubkey>)
    requires CanLeave(env, st, wallets, k) && k !in keys && AllPaid(env, st, middle, keys, wallets)
    ensures CanLeave(env, middle, wallets, k) && middle.deposits[k] == st.deposits[k]
  {
  }

  /** Each depositor withdraws what is pending. */
  lemma WithdrawAll(env: Env, st: State, keys: set<Key>, wallets: map<Key, Pubkey>) returns (actions: seq<Action>)
    requires Inv(env, st) && !st.cfg.paused
    requires forall k :: k in keys ==> CanLeave(env, st, wallets, k) && st.deposits[k].withdrawalBlock <= st.slot
    ensures OnlyLeaving(actions, keys)
    ensures Inv(env, Run(env, st, actions)) && AllPaid(env, st, Run(env, st, actions), keys, wallets)
    decreases |keys|
  {
    hide Inv, Apply, CanLeave;
    if keys == {} {
      actions := [];
    } else {
      var k :| k in keys;
      assert CanLeave(env, st, wallets, k);
      var first := WithdrawAll(env, st, keys - {k}, wallets);
      hide RecordsPaid, WalletsPaid;
      var middle := Run(env, st, first);
      StillCanLeave(env, st, middle, keys - {k}, k, wallets);
      var second := WithdrawOne(env, middle, k, wallets);
      RunAppend(env, st, first, second);
      actions := first + second;
      RecordsPaidAfterOthers(st, middle, Run(env, st, actions), keys, k);
      WalletsPaidAfterOthers(env, st, middle, Run(env, st, actions), keys, k, wallets);
    }
  }

  lemma WaitAllowed(env: Env, st: State, until: u64)
    requires Inv(env, st) && st.slot <= until
    ensures OutsideOk(env, st, st.tokens, st.accounts, until)
  {
    hide Supply, UsedAreOwned, Surplus;
  }

  /** From every reachable state that is not paused, any set of depositors who can sign and have a token account can be
      paid everything they are owed, available and withdrawing, by any slot that their deadlines and the delay allow:
      everyone initiates, time passes, everyone withdraws, and nobody else does anything. */
  lemma EveryoneCanLeave(env: Env, st: State, keys: set<Key>, wallets: map<Key, Pubkey>, until: u64)
    returns (initiations: seq<Action>, withdrawals: seq<Action>)
    requires Reachable(env, st) && !st.cfg.paused && st.slot + st.cfg.withdrawalDelay <= until
    requires forall k :: k in keys ==> CanLeave(env, st, wallets, k) && st.deposits[k].withdrawalBlock <= until
    ensures OnlyLeaving(initiations, keys) && OnlyLeaving(withdrawals, keys)
    ensures var pending := Run(env, st, initiations);
            var st' := Run(env, st, initiations + [Outside(pending.tokens, pending.accounts, until)] + withdrawals);
            && pending.tokens == st.tokens && st'.slot == until
            && (forall k :: k in keys ==>
                  && k in wallets && k in st.deposits && k in st'.deposits && Owed(st'.deposits[k]) == 0
                  && Amount(st'.tokens, wallets[k]) == Amount(st.tokens, wallets[k]) + Owed(st.deposits[k]))
            && (forall k :: k in st.deposits && k !in keys ==> k in st'.deposits && st'.deposits[k] == st.deposits[k])
  {
    hide Reachable, Inv, OutsideOk;
    ReachableInv(env, st);
    initiations := InitiateAll(env, st, keys, until);
    var pending := Run(env, st, initiations);
    var wait := Outside(pending.tokens, pending.accounts, until);
    WaitAllowed(env, pending, until);
    ApplyKeeps(env, pending, wait);
    var due := pending.(slot := until);
    withdrawals := WithdrawAll(env, due, keys, wallets);
    assert [wait][..0] == [];
    assert Run(env, pending, [wait]) == Apply(env, Run(env, pending, []), wait) == due;
    RunAppend(env, st, initiations, [wait]);
    RunAppend(env, st, initiations + [wait], withdrawals);
  }
}
