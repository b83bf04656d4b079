/** The event log as the history of the ledger: replaying it gives every balance and deadline back, and it
    proves how long every withdrawn unit waited. */
module WalletLog {
  import opened Base
  import opened Runtime
  import opened Tokens
  import opened UsedHashes
  import opened BurnData
  import opened Wallet
  import opened WalletFacts
  import opened WalletSolvency
  import opened WalletReachable
  import opened WalletBurn

  // ---------- replay ----------

  /** What an observer of the events knows about one depositor of one mint. */
  datatype Balance = Balance(available: int, withdrawing: int, withdrawalBlock: int)

  type Ledger = map<Key, Balance>

  function BalanceOf(l: Ledger, k: Key): Balance {
    if k in l then l[k] else Balance(0, 0, 0)
  }

  /** The effect of one event, from its own fields only. */
  function ReplayEvent(l: Ledger, e: Event): Ledger {
    match e
    case Deposited(k, _, value) =>
      var b := BalanceOf(l, k);
      l[k := b.(available := b.available + value)]
    case WithdrawalInitiated(k, value, _, _, block) =>
      var b := BalanceOf(l, k);
      l[k := Balance(b.available - value, b.withdrawing + value, block)]
    case WithdrawalCompleted(k, value) =>
      var b := BalanceOf(l, k);
      l[k := Balance(b.available, b.withdrawing - value, 0)]
    case GatewayBurned(k, _, _, _, _, _, _, fromAvailable, fromWithdrawing) =>
      var b := BalanceOf(l, k);
      l[k := Balance(b.available - fromAvailable, b.withdrawing - fromWithdrawing, b.withdrawalBlock)]
    case _ => l
  }

  function Replay(log: seq<Entry>): Ledger {
    if log == [] then map[] else ReplayEvent(Replay(log[..|log| - 1]), log[|log| - 1].event)
  }

  /** What the deposit accounts say. */
  function View(deposits: map<Key, Deposit>): Ledger {
    map k | k in deposits :: Balance(deposits[k].available, deposits[k].withdrawing, deposits[k].withdrawalBlock)
  }

  lemma ReplayAppend(log: seq<Entry>, e: Entry)
    ensures Replay(log + [e]) == ReplayEvent(Replay(log), e.event)
  {
    assert (log + [e])[..|log|] == log;
  }

  lemma ReplayLogged(st: State, events: seq<Event>)
    requires 1 <= |events| <= 2
    ensures |events| == 1 ==> Replay(st.log + Logged(st, events)) == ReplayEvent(Replay(st.log), events[0])
    ensures |events| == 2 ==>
              Replay(st.log + Logged(st, events)) == ReplayEvent(ReplayEvent(Replay(st.log), events[0]), events[1])
  {
    var l := Logged(st, events);
    ReplayAppend(st.log, l[0]);
    if |events| == 1 {
      assert l == [l[0]];
    } else {
      ReplayAppend(st.log + [l[0]], l[1]);
      assert st.log + l == st.log + [l[0]] + [l[1]];
    }
  }

  lemma ViewUpdate(deposits: map<Key, Deposit>, k: Key, d: Deposit)
    ensures View(deposits[k := d]) == View(deposits)[k := Balance(d.available, d.withdrawing, d.withdrawalBlock)]
  {
  }

  ghost predicate Replays(st: State) {
    Replay(st.log) == View(st.deposits)
  }

  lemma BurnReplays(env: Env, st: State, c: BurnCall)
    requires Replays(st) && BurnStep(env, st, c).Ok?
    ensures Replays(BurnStep(env, st, c).value)
  {
    hide BurnStep, BurnedFor, ChargedFor, Encode, EncodeSpec, Replay;
    var st' := BurnStep(env, st, c).value;
    var r := BurnReport(env, st, c);
    var _ := BurnLedger(env, st, c);
    var d' := st'.deposits[c.deposit];
    ViewUpdate(st.deposits, c.deposit, d');
    var n := |st'.log| - |st.log|;
    ReplayLogged(st, seq(n, i requires 0 <= i < n => st'.log[|st.log| + i].event));
    assert st'.log == st.log + Logged(st, seq(n, i requires 0 <= i < n => st'.log[|st.log| + i].event));
  }

  lemma OneReplays(st: State, st': State, e: Event)
    requires Replays(st) && LogsOne(st, st', e) && View(st'.deposits) == ReplayEvent(View(st.deposits), e)
    ensures Replays(st')
  {
    ReplayAppend(st.log, st'.log[|st.log|]);
  }

  lemma OffLedgerReplays(st: State, st': State)
    requires Replays(st) && OffLedger(st, st')
    ensures Replays(st')
  {
    if st'.log != st.log {
      OneReplays(st, st', st'.log[|st.log|].event);
    }
  }

  /** Every instruction logs exactly what it changes. */
  lemma StepReplays(env: Env, st: State, c: Call)
    requires Replays(st) && Step(env, st, c).Ok?
    ensures Replays(Step(env, st, c).value)
  {
    hide BurnStep, DepositStep, InitiateWithdrawalStep, WithdrawStep, AddDelegateStep, RemoveDelegateStep, AdminStep,
         Replays, Replay;
    var st' := Step(env, st, c).value;
    match c
    case DepositCall(owner, ownerToken, custody, amount) =>
      var k := DepositFacts(env, st, owner, ownerToken, custody, owner, amount, false);
      KeyReplays(st, st', k);
    case DepositForCall(owner, ownerToken, custody, amount, depositor) =>
      var k := DepositFacts(env, st, owner, ownerToken, custody, depositor, amount, true);
      KeyReplays(st, st', k);
    case InitiateWithdrawalCall(depositor, mint, amount) =>
      var k := InitiateFacts(env, st, depositor, mint, amount);
      KeyReplays(st, st', k);
    case WithdrawCall(depositor, mint, custody, depositorToken) =>
      var k := WithdrawFacts(env, st, depositor, mint, custody, depositorToken);
      KeyReplays(st, st', k);
    case GatewayBurnCall(b) => BurnReplays(env, st, b);
    case AddDelegateCall(depositor, mint, delegate) =>
      var _ := AddDelegateFacts(env, st, depositor, mint, delegate);
      OffLedgerReplays(st, st');
    case RemoveDelegateCall(depositor, mint, delegate) =>
      var _ := RemoveDelegateFacts(env, st, depositor, mint, delegate);
      OffLedgerReplays(st, st');
    case AdminCall(signer, a) =>
      AdminFacts(env, st, signer, a);
      OffLedgerReplays(st, st');
  }

  /** An event on one key that says what became of that key's record. */
  lemma KeyReplays(st: State, st': State, k: Key)
    requires Replays(st) && |st'.log| > |st.log| && LogsOne(st, st', st'.log[|st.log|].event)
    requires k in st'.deposits && st'.deposits == st.deposits[k := st'.deposits[k]]
    requires var d := st'.deposits[k];
             ReplayEvent(View(st.deposits), st'.log[|st.log|].event)
             == View(st.deposits)[k := Balance(d.available, d.withdrawing, d.withdrawalBlock)]
    ensures Replays(st')
  {
    ViewUpdate(st.deposits, k, st'.deposits[k]);
    OneReplays(st, st', st'.log[|st.log|].event);
  }

  lemma {:induction false} RunReplays(env: Env, st: State, actions: seq<Action>)
    requires Replays(st)
    ensures Replays(Run(env, st, actions))
  {
    hide Replays, Step, OutsideOk;
    if actions == [] {
    } else {
      var before := Run(env, st, actions[..|actions| - 1]);
      RunReplays(env, st, actions[..|actions| - 1]);
      match actions[|actions| - 1]
      case Program(c) =>
        if Step(env, before, c).Ok? {
          StepReplays(env, before, c);
        }
      case Outside(tokens, accounts, slot) => SameLedgerReplays(before, Run(env, st, actions));
    }
  }

  lemma SameLedgerReplays(st: State, st': State)
    requires Replays(st) && st'.log == st.log && st'.deposits == st.deposits
    ensures Replays(st')
  {
  }

  /** In every reachable state, replaying the log gives exactly the ledger: the same keys, and for each the same
      available amount, withdrawing amount and deadline. */
  lemma LogIsLedger(env: Env, st: State)
    requires Reachable(env, st)
    ensures Replay(st.log).Keys == st.deposits.Keys
    ensures forall k :: k in st.deposits ==>
              Replay(st.log)[k]
              == Balance(st.deposits[k].available, st.deposits[k].withdrawing, st.deposits[k].withdrawalBlock)
  {
    var st0, actions :| Initial(env, st0) && st == Run(env, st0, actions);
    RunReplays(env, st0, actions);
  }

  // ---------- withdrawal timing ----------

  predicate Initiates(e: Event, k: Key) {
    e.WithdrawalInitiated? && e.key == k
  }

  predicate Completes(e: Event, k: Key) {
    e.WithdrawalCompleted? && e.key == k
  }

  /** The latest initiation for k, unless a completion came after it. */
  function LastInitiation(log: seq<Entry>, k: Key): Option<nat> {
    if log == [] then None
    else
      var n := |log| - 1;
      if Initiates(log[n].event, k) then Some(n)
      else if Completes(log[n].event, k) then None
      else LastInitiation(log[..n], k)
  }

  /** The units whose withdrawal was initiated for k since its last completion. */
  function InitiatedSince(log: seq<Entry>, k: Key): nat {
    if log == [] then 0
    else
      var n := |log| - 1;
      if Initiates(log[n].event, k) then log[n].event.value + InitiatedSince(log[..n], k)
      else if Completes(log[n].event, k) then 0
      else InitiatedSince(log[..n], k)
  }

  lemma {:induction false} LastInitiationIsLast(log: seq<Entry>, k: Key, j: nat)
    requires j < |log| && Initiates(log[j].event, k)
    requires forall i :: j < i < |log| ==> !Completes(log[i].event, k)
    ensures LastInitiation(log, k).Some?
    ensures j <= LastInitiation(log, k).value < |log| && Initiates(log[LastInitiation(log, k).value].event, k)
  {
    var n := |log| - 1;
    if j < n && !Initiates(log[n].event, k) {
      LastInitiationIsLast(log[..n], k, j);
    }
  }

  lemma {:induction false} LastInitiationInLog(log: seq<Entry>, k: Key)
    ensures LastInitiation(log, k).Some? ==>
              LastInitiation(log, k).value < |log| && Initiates(log[LastInitiation(log, k).value].event, k)
    ensures InitiatedSince(log, k) > 0 ==> LastInitiation(log, k).Some?
  {
    if log != [] {
      LastInitiationInLog(log[..|log| - 1], k);
    }
  }

  /** Deadlines come from the latest initiation, and no unit is withdrawing without having been initiated. */
  ghost predicate KeyTimed(log: seq<Entry>, deposits: map<Key, Deposit>, k: Key) {
    var last := LastInitiation(log, k);
    if k in deposits
    then
      && deposits[k].withdrawing <= InitiatedSince(log, k)
      && (last.Some? ==>
          last.value < |log| && deposits[k].withdrawalBlock == log[last.value].slot + log[last.value].delay)
    else last.None?
  }

  ghost predicate SlotsOrdered(st: State) {
    && (forall i :: 0 <= i < |st.log| ==> st.log[i].slot <= st.slot)
    && (forall i, j :: 0 <= i < j < |st.log| ==> st.log[i].slot <= st.log[j].slot)
  }

  ghost predicate Timed(st: State) {
    SlotsOrdered(st) && forall k :: KeyTimed(st.log, st.deposits, k)
  }

  lemma LastAppend(log: seq<Entry>, e: Entry, k: Key)
    ensures LastInitiation(log + [e], k)
         == if Initiates(e.event, k) then Some(|log|) else if Completes(e.event, k) then None
           else LastInitiation(log, k)
    ensures InitiatedSince(log + [e], k)
         == if Initiates(e.event, k) then e.event.value + InitiatedSince(log, k)
            else if Completes(e.event, k) then 0 else InitiatedSince(log, k)
    ensures LastInitiation(log, k).Some? ==> LastInitiation(log, k).value < |log|
  {
    assert (log + [e])[..|log|] == log;
    LastInitiationInLog(log, k);
  }

  /** A record keeps its deadline and gains no withdrawing units, or the event is its own initiation or completion. */
  ghost predicate EntryFits(deposits: map<Key, Deposit>, deposits': map<Key, Deposit>, e: Entry, k: Key) {
    if Initiates(e.event, k) then
      && k in deposits && k in deposits'
      && deposits'[k].withdrawing == deposits[k].withdrawing + e.event.value
      && deposits'[k].withdrawalBlock == e.slot + e.delay
    else if Completes(e.event, k) then k in deposits' && deposits'[k].withdrawing == 0
    else if k in deposits then
      && k in deposits'
      && deposits'[k].withdrawing <= deposits[k].withdrawing
      && deposits'[k].withdrawalBlock == deposits[k].withdrawalBlock
    else k in deposits' ==> deposits'[k].withdrawing == 0
  }

  lemma KeyStaysTimed(log: seq<Entry>, deposits: map<Key, Deposit>, deposits': map<Key, Deposit>, e: Entry, k: Key)
    requires KeyTimed(log, deposits, k) && EntryFits(deposits, deposits', e, k)
    ensures KeyTimed(log + [e], deposits', k)
  {
    LastAppend(log, e, k);
  }

  lemma EntryKeepsTimed(st: State, st': State, e: Entry)
    requires Timed(st) && st'.log == st.log + [e] && st'.slot == st.slot == e.slot
    requires forall k :: EntryFits(st.deposits, st'.deposits, e, k)
    ensures Timed(st')
  {
    hide KeyTimed, EntryFits;
    forall k
      ensures KeyTimed(st'.log, st'.deposits, k)
    {
      KeyStaysTimed(st.log, st.deposits, st'.deposits, e, k);
    }
  }

  lemma OffLedgerTimed(st: State, st': State)
    requires Timed(st) && OffLedger(st, st')
    ensures Timed(st')
  {
    hide KeyTimed;
    if st'.log != st.log {
      EntryKeepsTimed(st, st', st'.log[|st.log|]);
    }
  }

  lemma BurnTimed(env: Env, st: State, c: BurnCall)
    requires Timed(st) && BurnStep(env, st, c).Ok?
    ensures Timed(BurnStep(env, st, c).value)
  {
    hide BurnStep, BurnedFor, ChargedFor, Encode, EncodeSpec, Timed;
    var st' := BurnStep(env, st, c).value;
    var _ := BurnReport(env, st, c);
    var _ := BurnLedger(env, st, c);
    BurnSameSlot(env, st, c);
    var n := |st.log|;
    var st1 := st.(deposits := st'.deposits, log := st.log + [st'.log[n]]);
    EntryKeepsTimed(st, st1, st'.log[n]);
    if |st'.log| == n + 2 {
      assert st'.log == st1.log + [st'.log[n + 1]];
      EntryKeepsTimed(st1, st', st'.log[n + 1]);
    } else {
      assert st'.log == st1.log;
      SameTimed(st1, st');
    }
  }

  lemma SameTimed(st: State, st': State)
    requires Timed(st) && st'.log == st.log && st'.deposits == st.deposits && st'.slot >= st.slot
    ensures Timed(st')
  {
  }

  lemma BurnSameSlot(env: Env, st: State, c: BurnCall)
    requires BurnStep(env, st, c).Ok?
    ensures BurnStep(env, st, c).value.slot == st.slot
  {
    hide BurnStep;
    var t := BurnMoves(env, st, c);
  }

  lemma StepTimed(env: Env, st: State, c: Call)
    requires Timed(st) && Step(env, st, c).Ok?
    ensures Timed(Step(env, st, c).value)
  {
    hide BurnStep, DepositStep, InitiateWithdrawalStep, WithdrawStep, AddDelegateStep, RemoveDelegateStep, AdminStep,
         Timed;
    var st' := Step(env, st, c).value;
    match c
    case DepositCall(owner, ownerToken, custody, amount) =>
      var k := DepositFacts(env, st, owner, ownerToken, custody, owner, amount, false);
      EntryKeepsTimed(st, st', st'.log[|st.log|]);
    case DepositForCall(owner, ownerToken, custody, amount, depositor) =>
      var k := DepositFacts(env, st, owner, ownerToken, custody, depositor, amount, true);
      EntryKeepsTimed(st, st', st'.log[|st.log|]);
    case InitiateWithdrawalCall(depositor, mint, amount) =>
      var k := InitiateFacts(env, st, depositor, mint, amount);
      EntryKeepsTimed(st, st', st'.log[|st.log|]);
    case WithdrawCall(depositor, mint, custody, depositorToken) =>
      var k := WithdrawFacts(env, st, depositor, mint, custody, depositorToken);
      EntryKeepsTimed(st, st', st'.log[|st.log|]);
    case GatewayBurnCall(b) => BurnTimed(env, st, b);
    case AddDelegateCall(depositor, mint, delegate) =>
      var _ := AddDelegateFacts(env, st, depositor, mint, delegate);
      OffLedgerTimed(st, st');
    case RemoveDelegateCall(depositor, mint, delegate) =>
      var _ := RemoveDelegateFacts(env, st, depositor, mint, delegate);
      OffLedgerTimed(st, st');
    case AdminCall(signer, a) =>
      AdminFacts(env, st, signer, a);
      OffLedgerTimed(st, st');
  }

  lemma {:induction false} RunTimed(env: Env, st: State, actions: seq<Action>)
    requires Timed(st)
    ensures Timed(Run(env, st, actions))
  {
    hide Timed, Step;
    if actions == [] {
    } else {
      var before := Run(env, st, actions[..|actions| - 1]);
      RunTimed(env, st, actions[..|actions| - 1]);
      match actions[|actions| - 1]
      case Program(c) =>
        if Step(env, before, c).Ok? {
          StepTimed(env, before, c);
        }
      case Outside(tokens, accounts, slot) => SameTimed(before, Run(env, st, actions));
    }
  }

  lemma ReachableTimed(env: Env, st: State)
    requires Reachable(env, st)
    ensures Timed(st)
  {
    var st0, actions :| Initial(env, st0) && st == Run(env, st0, actions);
    RunTimed(env, st0, actions);
  }

  /** Every unit that is being withdrawn was initiated since the last completion, in the log. */
  lemma WithdrawingWasInitiated(env: Env, st: State, k: Key)
    requires Reachable(env, st) && k in st.deposits
    ensures st.deposits[k].withdrawing <= InitiatedSince(st.log, k)
    ensures st.deposits[k].withdrawing > 0 ==> st.deposits[k].withdrawalBlock > 0
  {
    hide Reachable;
    ReachableTimed(env, st);
    assert KeyTimed(st.log, st.deposits, k);
    ReachableInv(env, st);
    assert DepositOk(env, st.cfg, k, st.deposits[k]);
  }

  /** The delay in force never went below d from entry j on. */
  ghost predicate DelayAtLeast(log: seq<Entry>, j: nat, d: nat) {
    forall i :: j <= i < |log| ==> log[i].delay >= d
  }

  /** A withdrawal waits out the latest initiation's own delay; so each unit, initiated at entry j and not completed
      since, has waited at least the smallest delay in force from its initiation on. */
  lemma WithdrawWaited(env: Env, st: State, depositor: Pubkey, mint: Pubkey, custody: Pubkey, depositorToken: Pubkey,
                       j: nat)
    returns (last: nat)
    requires Reachable(env, st) && WithdrawStep(env, st, depositor, mint, custody, depositorToken).Ok?
    requires j < |st.log| && Initiates(st.log[j].event, Key(mint, depositor))
    requires forall i :: j < i < |st.log| ==> !Completes(st.log[i].event, Key(mint, depositor))
    ensures j <= last < |st.log| && Initiates(st.log[last].event, Key(mint, depositor))
    ensures st.slot >= st.log[last].slot + st.log[last].delay >= st.log[j].slot + st.log[last].delay
    ensures forall smallest: nat :: DelayAtLeast(st.log, j, smallest) ==> st.slot >= st.log[j].slot + smallest
  {
    hide Reachable, WithdrawStep;
    var k := WithdrawFacts(env, st, depositor, mint, custody, depositorToken);
    ReachableTimed(env, st);
    LastInitiationIsLast(st.log, k, j);
    last := LastInitiation(st.log, k).value;
    assert KeyTimed(st.log, st.deposits, k);
  }

  /** Time passing alone does not touch the invariant. */
  lemma LaterInv(env: Env, st: State, slot: u64)
    requires Inv(env, st)
    ensures Inv(env, st.(slot := slot))
  {
    hide Supply, UsedAreOwned, RegistryOk, CustodyOk, DepositsOk;
    assert forall m :: m in st.cfg.supportedTokens ==> Surplus(env, st.(slot := slot), m) == Surplus(env, st, m);
  }

  lemma {:induction false} NothingInitiatedAfter(log: seq<Entry>, k: Key)
    ensures LastInitiation(log, k).Some? ==>
              forall i :: LastInitiation(log, k).value < i < |log| ==> !Initiates(log[i].event, k)
  {
    if log != [] {
      var n := |log| - 1;
      if !Initiates(log[n].event, k) && !Completes(log[n].event, k) {
        NothingInitiatedAfter(log[..n], k);
        assert forall i :: 0 <= i < n ==> log[i] == log[..n][i];
      }
    }
  }

  /** When the delay in force at an initiation has passed. */
  function Due(e: Entry): nat {
    e.slot + e.delay
  }

  /** However long the depositor waits, and whichever accounts are passed, nothing is withdrawn before `due`. */
  ghost predicate WaitsUntil(env: Env, st: State, depositor: Pubkey, mint: Pubkey, due: nat) {
    forall slot: u64, custody, token ::
      st.slot <= slot && WithdrawStep(env, st.(slot := slot), depositor, mint, custody, token).Ok? ==> due <= slot
  }

  /** What is pending leaves at its deadline or at once, whichever is later. */
  lemma WaitsUntilIff(env: Env, st: State, depositor: Pubkey, mint: Pubkey, token: Pubkey, due: nat)
    requires Inv(env, st) && !st.cfg.paused && depositor != env.statePda
    requires Key(mint, depositor) in st.deposits && st.deposits[Key(mint, depositor)].withdrawing > 0
    requires IsTokenAccount(st.tokens, token, mint, depositor)
    ensures WaitsUntil(env, st, depositor, mint, due)
       <==> due <= st.slot || due <= st.deposits[Key(mint, depositor)].withdrawalBlock
  {
    hide Inv, WithdrawStep;
    var k := Key(mint, depositor);
    if due > st.slot && due > st.deposits[k].withdrawalBlock {
      var slot := if st.slot < st.deposits[k].withdrawalBlock then st.deposits[k].withdrawalBlock else st.slot;
      LaterInv(env, st, slot);
      WithdrawSucceedsIff(env, st.(slot := slot), depositor, mint, token);
    } else {
      forall slot: u64, custody, t
        | st.slot <= slot && WithdrawStep(env, st.(slot := slot), depositor, mint, custody, t).Ok?
        ensures due <= slot
      {
        var _ := WithdrawFacts(env, st.(slot := slot), depositor, mint, custody, t);
      }
    }
  }

  /** Exactly when a pending unit waits out the delay in force at its own initiation j: when the latest initiation is
      due no earlier, or the unit's own delay has already passed. */
  lemma OwnDelayKeptIff(env: Env, st: State, depositor: Pubkey, mint: Pubkey, token: Pubkey, j: nat) returns (last: nat)
    requires Reachable(env, st) && !st.cfg.paused && depositor != env.statePda
    requires Key(mint, depositor) in st.deposits && st.deposits[Key(mint, depositor)].withdrawing > 0
    requires IsTokenAccount(st.tokens, token, mint, depositor)
    requires j < |st.log| && Initiates(st.log[j].event, Key(mint, depositor))
    requires forall i :: j < i < |st.log| ==> !Completes(st.log[i].event, Key(mint, depositor))
    ensures j <= last < |st.log| && Initiates(st.log[last].event, Key(mint, depositor))
    ensures forall i :: last < i < |st.log| ==> !Initiates(st.log[i].event, Key(mint, depositor))
    ensures WaitsUntil(env, st, depositor, mint, Due(st.log[j]))
       <==> Due(st.log[j]) <= Due(st.log[last]) || Due(st.log[j]) <= st.slot
  {
    hide Reachable, Inv, WaitsUntil;
    var k := Key(mint, depositor);
    ReachableTimed(env, st);
    ReachableInv(env, st);
    LastInitiationIsLast(st.log, k, j);
    NothingInitiatedAfter(st.log, k);
    last := LastInitiation(st.log, k).value;
    assert KeyTimed(st.log, st.deposits, k);
    WaitsUntilIff(env, st, depositor, mint, token, Due(st.log[j]));
  }

  lemma ReachableStep(env: Env, st: State, c: Call)
    requires Reachable(env, st) && Step(env, st, c).Ok?
    ensures Reachable(env, Step(env, st, c).value)
  {
    hide Step, Initial;
    var st0, actions :| Initial(env, st0) && st == Run(env, st0, actions);
    var longer := actions + [Program(c)];
    assert longer[..|longer| - 1] == actions;
    assert Run(env, st0, longer) == Step(env, st, c).value;
  }

  /** What a depositor can check before initiating again: the units pending since j will still wait out their own delay
      exactly when the delay in force now ends no earlier. */
  lemma NextInitiationKeepsOwnDelayIff(
    env: Env, st: State, depositor: Pubkey, mint: Pubkey, amount: u64, token: Pubkey, j: nat)
    requires Reachable(env, st) && InitiateWithdrawalStep(env, st, depositor, mint, amount).Ok?
    requires IsTokenAccount(st.tokens, token, mint, depositor)
    requires j < |st.log| && Initiates(st.log[j].event, Key(mint, depositor))
    requires forall i :: j < i < |st.log| ==> !Completes(st.log[i].event, Key(mint, depositor))
    ensures WaitsUntil(env, InitiateWithdrawalStep(env, st, depositor, mint, amount).value, depositor, mint,
                       Due(st.log[j]))
       <==> Due(st.log[j]) <= st.slot + st.cfg.withdrawalDelay
  {
    hide Reachable, Inv, InitiateWithdrawalStep, WaitsUntil;
    var c := InitiateWithdrawalCall(depositor, mint, amount);
    var st' := Step(env, st, c).value;
    ReachableInv(env, st);
    InitiateSucceedsIff(env, st, depositor, mint, amount);
    var k := InitiateFacts(env, st, depositor, mint, amount);
    ReachableStep(env, st, c);
    var last := OwnDelayKeptIff(env, st', depositor, mint, token, j);
    assert Initiates(st'.log[|st.log|].event, k);
    assert last == |st.log|;
  }

  lemma {:induction false} RunOfFour(env: Env, st: State, a: Action, b: Action, c: Action, d: Action)
    ensures Run(env, st, [a, b, c, d]) == Apply(env, Apply(env, Apply(env, Apply(env, st, a), b), c), d)
  {
    hide Apply;
    assert [a, b, c, d][..3] == [a, b, c] && [a, b, c][..2] == [a, b] && [a, b][..1] == [a] && [a][..0] == [];
    assert Run(env, st, [a]) == Apply(env, Run(env, st, []), a);
    assert Run(env, st, [a, b]) == Apply(env, Run(env, st, [a]), b);
    assert Run(env, st, [a, b, c]) == Apply(env, Run(env, st, [a, b]), c);
  }

  /** A withdrawal does not always wait the delay in force when it was initiated: from any reachable state, once the
      owner shortens the delay to one slot and the depositor initiates one more unit, all of it leaves one slot
      later. */
  lemma OwnDelayCanBeCut(env: Env, st: State, depositor: Pubkey, mint: Pubkey, amount: u64, depositorToken: Pubkey)
    returns (actions: seq<Action>)
    requires Reachable(env, st) && InitiateWithdrawalStep(env, st, depositor, mint, amount).Ok?
    requires Key(mint, depositor) in st.deposits && st.deposits[Key(mint, depositor)].available > amount
    requires st.cfg.withdrawalDelay > 1 && st.cfg.owner != env.statePda
    requires IsTokenAccount(st.tokens, depositorToken, mint, depositor)
    ensures var k, st', j := Key(mint, depositor), Run(env, st, actions), |st.log|;
            && j < |st'.log| && st'.log[j].event.WithdrawalInitiated? && st'.log[j].event.key == k
            && st'.log[j].event.value == amount && st'.log[j].delay == st.cfg.withdrawalDelay
            && (forall i :: j < i < |st'.log| ==> !Completes(st'.log[i].event, k))
            && st'.slot == st'.log[j].slot + 1 < st'.log[j].slot + st'.log[j].delay
            && k in st'.deposits && st'.deposits[k].withdrawing == st.deposits[k].withdrawing + amount + 1
            && WithdrawStep(env, st', depositor, mint, Custody(env, mint), depositorToken).Ok?
  {
    hide Reachable, InitiateWithdrawalStep, WithdrawStep, Inv;
    ReachableInv(env, st);
    var first := InitiateWithdrawalCall(depositor, mint, amount);
    var k := InitiateFacts(env, st, depositor, mint, amount);
    StepKeeps(env, st, first);
    InitiateSucceedsIff(env, st, depositor, mint, amount);
    var s1 := Step(env, st, first).value;
    var shorten := AdminCall(st.cfg.owner, UpdateWithdrawalDelay(1));
    StepKeeps(env, s1, shorten);
    var s2 := Step(env, s1, shorten).value;
    var again := InitiateWithdrawalCall(depositor, mint, 1);
    InitiateSucceedsIff(env, s2, depositor, mint, 1);
    k := InitiateFacts(env, s2, depositor, mint, 1);
    StepKeeps(env, s2, again);
    var s3 := Step(env, s2, again).value;
    var later := Outside(s3.tokens, s3.accounts, s3.slot + 1);
    OneSlotLater(env, s3);
    ApplyKeeps(env, s3, later);
    actions := [Program(first), Program(shorten), Program(again), later];
    RunOfFour(env, st, Program(first), Program(shorten), Program(again), later);
    WithdrawSucceedsIff(env, Apply(env, s3, later), depositor, mint, depositorToken);
  }

  lemma OneSlotLater(env: Env, st: State)
    requires Inv(env, st) && st.slot < U64_MAX
    ensures OutsideOk(env, st, st.tokens, st.accounts, st.slot + 1)
  {
    hide Supply, UsedAreOwned, Surplus, HashUsed;
  }
}
