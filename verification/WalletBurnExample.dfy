/** One burn, from the initial state on: it shows that burns succeed, and that a burn which is not its transaction's
    top-level instruction is not bound to its own signature. */
module WalletBurnExample {
  import opened Base
  import opened Runtime
  import opened Tokens
  import opened UsedHashes
  import opened Registry
  import opened BurnData
  import opened Ed25519
  import opened Wallet
  import opened WalletBurn
  import opened WalletLog
  import opened WalletBurnCalls

  const GATEWAY_BURN_DISCRIMINATOR: Bytes := [22, 2]

  /** The keys of the example. */
  datatype Keys = Keys(
    program: Pubkey, statePda: Pubkey, mint: Pubkey, custody: Pubkey, alice: Pubkey, aliceToken: Pubkey,
    feeOwner: Pubkey, feeToken: Pubkey, owner: Pubkey, burnSigner: Pubkey, hashAccount: Pubkey, ed25519: Pubkey,
    payer: Pubkey, caller: Pubkey, bob: Pubkey)

  ghost predicate Apart(n: Keys) {
    && n.owner != n.statePda && n.alice != n.statePda && n.payer != n.statePda && n.payer != n.hashAccount
    && n.custody != n.aliceToken && n.custody != n.feeToken && n.aliceToken != n.feeToken
    && n.burnSigner != DEFAULT_PUBKEY
    && n.caller != n.program && n.bob != n.alice && n.bob != DEFAULT_PUBKEY
  }

  function Named(i: byte): Pubkey {
    Pubkey(seq(32, _ => i))
  }

  lemma NamesApart(i: byte, j: byte)
    ensures Named(i) == Named(j) ==> i == j
    ensures i > 0 ==> Named(i) != DEFAULT_PUBKEY
  {
    assert Named(i).bytes[0] == i && Named(j).bytes[0] == j;
  }

  lemma SomeKeys() returns (n: Keys)
    ensures Apart(n)
  {
    n := Keys(Named(1), Named(2), Named(3), Named(4), Named(5), Named(6), Named(7), Named(8), Named(9), Named(10),
              Named(11), Named(12), Named(13), Named(14), Named(15));
    NamesApart(9, 2);
    NamesApart(5, 2);
    NamesApart(13, 2);
    NamesApart(13, 11);
    NamesApart(4, 6);
    NamesApart(4, 8);
    NamesApart(6, 8);
    NamesApart(10, 0);
    NamesApart(14, 1);
    NamesApart(15, 5);
  }

  function ExampleEnv(n: Keys, hash: Bytes32, verify: (Bytes, Bytes, Bytes) -> bool): Env {
    Env(n.program, n.statePda, _ => 255, (_, _) => Some(n.custody), _ => n.hashAccount, (_, _) => 255,
        (_, _) => n.feeToken, _ => hash, (_, _) => Some(n.burnSigner), n.ed25519, verify, 1)
  }

  function StartConfig(n: Keys): Config {
    Config(n.owner, DEFAULT_PUBKEY, n.owner, n.owner, n.owner, n.feeOwner, 5, 1, 10, false, [], [], [])
  }

  function Start(n: Keys): State {
    State(StartConfig(n), map[], map[], {},
          map[n.aliceToken := TokenAccount(n.mint, n.alice, 100), n.feeToken := TokenAccount(n.mint, n.feeOwner, 0)],
          map[n.payer := Account(10, SYSTEM_PROGRAM, [])], 0, [])
  }

  /** Burns 40 of Alice's 50 for a fee of 2, signed by `signer`. */
  function ExampleRecord(n: Keys, salt: Bytes32, signature: Bytes64, signer: Pubkey): Record {
    Record(2, signature, 100, 5,
           TransferSpec(1, 5, 0, n.program, n.program, n.mint, n.mint, n.alice, n.alice, signer, n.alice, 40, salt,
                        []))
  }

  lemma StartSupply(n: Keys, m: Pubkey)
    requires Apart(n)
    ensures Supply(Start(n).tokens, m) <= U64_MAX
  {
    var none: TokenMap := map[];
    assert Balances(none, m) == map[];
    var empty := none[n.aliceToken := TokenAccount(n.mint, n.alice, 0)];
    NewAccountSupply(none, n.aliceToken, n.mint, n.alice, m);
    SupplyUpdate(empty, n.aliceToken, 100, m);
    var funded := WithAmount(empty, n.aliceToken, 100);
    NewAccountSupply(funded, n.feeToken, n.mint, n.feeOwner, m);
    assert Start(n).tokens == funded[n.feeToken := TokenAccount(n.mint, n.feeOwner, 0)];
  }

  lemma StartIsInitial(n: Keys, hash: Bytes32, verify: (Bytes, Bytes, Bytes) -> bool)
    requires Apart(n)
    ensures Initial(ExampleEnv(n, hash, verify), Start(n))
  {
    hide Supply;
    forall m
      ensures Supply(Start(n).tokens, m) <= U64_MAX
    {
      StartSupply(n, m);
    }
  }

  /** The token is supported, the burn signer enabled, and Alice has deposited 50. */
  ghost predicate Ready(n: Keys, st: State) {
    && st.cfg == StartConfig(n).(supportedTokens := [n.mint], bumps := [255], burnSigners := [n.burnSigner])
    && Key(n.mint, n.alice) in st.deposits && st.deposits[Key(n.mint, n.alice)].available == 50
    && st.deposits[Key(n.mint, n.alice)].withdrawing == 0
    && IsTokenAccount(st.tokens, n.custody, n.mint, n.statePda) && st.tokens[n.custody].amount == 50
    && IsTokenAccount(st.tokens, n.feeToken, n.mint, n.feeOwner) && st.tokens[n.feeToken].amount == 0
    && st.accounts == Start(n).accounts && st.slot == 0
  }

  /** The token is supported and its custody account exists. */
  function Supported(n: Keys): State {
    var st := Start(n);
    Emit(st.(cfg := st.cfg.(supportedTokens := [n.mint], bumps := [255]),
             tokens := st.tokens[n.custody := TokenAccount(n.mint, n.statePda, 0)]),
         Event.Administered)
  }

  /** The burn signer is enabled as well. */
  function Enabled(n: Keys): State {
    var st := Supported(n);
    Emit(st.(cfg := st.cfg.(burnSigners := [n.burnSigner])), Event.Administered)
  }

  lemma SupportSteps(n: Keys, hash: Bytes32, verify: (Bytes, Bytes, Bytes) -> bool)
    requires Apart(n)
    ensures AdminStep(ExampleEnv(n, hash, verify), Start(n), n.owner, AddSupportedToken(n.mint)) == Ok(Supported(n))
  {
    var cfg := StartConfig(n);
    assert cfg.supportedTokens + [n.mint] == [n.mint] && cfg.bumps + [255] == [255];
  }

  lemma EnableSteps(n: Keys, hash: Bytes32, verify: (Bytes, Bytes, Bytes) -> bool)
    requires Apart(n)
    ensures AdminStep(ExampleEnv(n, hash, verify), Supported(n), n.owner, AddBurnSigner(n.burnSigner)) == Ok(Enabled(n))
  {
    assert Supported(n).cfg.burnSigners + [n.burnSigner] == [n.burnSigner];
  }

  lemma EnabledIsReachable(n: Keys, hash: Bytes32, verify: (Bytes, Bytes, Bytes) -> bool)
    requires Apart(n)
    ensures Reachable(ExampleEnv(n, hash, verify), Enabled(n))
  {
    hide AdminStep, Supported, Enabled, Start;
    var env := ExampleEnv(n, hash, verify);
    StartIsInitial(n, hash, verify);
    InitialIsReachable(env, Start(n));
    hide Reachable;
    SupportSteps(n, hash, verify);
    EnableSteps(n, hash, verify);
    ReachableStep(env, Start(n), AdminCall(n.owner, AddSupportedToken(n.mint)));
    ReachableStep(env, Supported(n), AdminCall(n.owner, AddBurnSigner(n.burnSigner)));
  }

  lemma InitialIsReachable(env: Env, st: State)
    requires Initial(env, st)
    ensures Reachable(env, st)
  {
    assert st == Run(env, st, []);
  }

  lemma ReadyState(n: Keys, hash: Bytes32, verify: (Bytes, Bytes, Bytes) -> bool) returns (st: State)
    requires Apart(n)
    ensures Reachable(ExampleEnv(n, hash, verify), st) && Ready(n, st) && st.denylist == {}
  {
    var env := ExampleEnv(n, hash, verify);
    EnabledIsReachable(n, hash, verify);
    hide Reachable;
    var deposit := DepositCall(n.alice, n.aliceToken, n.custody, 50);
    assert Position([n.mint], n.mint) == Some(0);
    st := Step(env, Enabled(n), deposit).value;
    ReachableStep(env, Enabled(n), deposit);
  }

  /** The burn of the example, after a precompile instruction, in a transaction with any current instruction. */
  function ExampleBurn(n: Keys, r: Record, signature: Bytes, current: Instruction,
                       delegate: Option<DelegateKey>): BurnCall
    requires BURN_INTENT_MESSAGE_PREFIX_OFFSET <= |Encode(r)| <= U16_MAX
  {
    var header := ExpectedData(1, |Encode(r)| - BURN_INTENT_MESSAGE_PREFIX_OFFSET);
    BurnCall(n.payer, n.mint, n.custody, n.feeToken, Key(n.mint, n.alice), delegate, [n.hashAccount],
             Sysvar([Instruction(n.ed25519, header), current], 1), Encode(r), signature)
  }

  lemma ExampleSize(n: Keys, salt: Bytes32, signature: Bytes64, signer: Pubkey)
    ensures |Encode(ExampleRecord(n, salt, signature, signer))| == TS_HOOK_DATA_OFFSET
  {
    HeadOfEncoded(ExampleRecord(n, salt, signature, signer));
  }

  lemma ExampleHash(n: Keys, hash: Bytes32, verify: (Bytes, Bytes, Bytes) -> bool, specHash: Bytes32)
    requires Apart(n)
    ensures ProcessHash(ExampleEnv(n, hash, verify), Start(n).accounts, n.payer, n.hashAccount, specHash,
                        USED_DISCRIMINATOR).Ok?
  {
  }

  lemma ExampleCallFits(n: Keys, hash: Bytes32, verify: (Bytes, Bytes, Bytes) -> bool, st: State, r: Record,
                        burnSignature: Bytes, current: Instruction, delegate: Option<DelegateKey>)
    requires TS_HOOK_DATA_OFFSET <= |Encode(r)| <= U16_MAX && |burnSignature| == SIGNATURE_LENGTH && Ready(n, st)
    requires r.spec.value == 40 && r.fee == 2
    ensures CallFits(ExampleEnv(n, hash, verify), st, ExampleBurn(n, r, burnSignature, current, delegate), r)
  {
    hide Encode, ExpectedData;
    var env, data := ExampleEnv(n, hash, verify), Encode(r);
    assert SignatureCovers(env, data, burnSignature, n.burnSigner);
    assert n.burnSigner in st.cfg.burnSigners;
  }

  /** It succeeds, whatever the current instruction and whatever signatures verify, if Alice signed, or a delegate with
      a record. */
  lemma ExampleSucceeds(n: Keys, hash: Bytes32, verify: (Bytes, Bytes, Bytes) -> bool, st: State, salt: Bytes32,
                        userSignature: Bytes64, burnSignature: Bytes, current: Instruction, signer: Pubkey,
                        delegate: Option<DelegateKey>)
    requires Apart(n) && Reachable(ExampleEnv(n, hash, verify), st) && Ready(n, st)
             && |burnSignature| == SIGNATURE_LENGTH
    requires if delegate.None? then signer == n.alice
             else delegate == Some(DelegateKey(n.mint, n.alice, signer)) && delegate.value in st.delegates
    ensures |Encode(ExampleRecord(n, salt, userSignature, signer))| == TS_HOOK_DATA_OFFSET
    ensures var c := ExampleBurn(n, ExampleRecord(n, salt, userSignature, signer), burnSignature, current, delegate);
            BurnStep(ExampleEnv(n, hash, verify), st, c).Ok?
  {
    hide Reachable, Encode, EncodeSpec, ExpectedData, CallFits, ProcessHash, BurnStep;
    ExampleSize(n, salt, userSignature, signer);
    var env, r := ExampleEnv(n, hash, verify), ExampleRecord(n, salt, userSignature, signer);
    var c := ExampleBurn(n, r, burnSignature, current, delegate);
    ExampleCallFits(n, hash, verify, st, r, burnSignature, current, delegate);
    ExampleHash(n, hash, verify, env.keccak(EncodeSpec(r.spec)));
    assert RecordFits(env, st, c, r) && AccountsFit(env, st, c);
    assert BurnFits(env, st, c, r);
    BurnSucceedsIff(env, st, c);
  }

  lemma ExampleMoves(n: Keys, env: Env, st: State, c: BurnCall, r: Record)
    requires BurnStep(env, st, c).Ok? && Ready(n, st) && Apart(n) && Encode(r) == c.burnData && Encodable(r)
    requires c.custody == n.custody && c.feeToken == n.feeToken && c.mint == n.mint && c.deposit == Key(n.mint, n.alice)
    requires r.spec.value == 40 && r.fee == 2
    ensures var st' := BurnStep(env, st, c).value;
            && Supply(st'.tokens, n.mint) == Supply(st.tokens, n.mint) - 40
            && Amount(st'.tokens, n.feeToken) == 2 && Amount(st'.tokens, n.custody) == 8
  {
    hide Encode, BurnStep, Supply;
    var toFee := BurnTokens(env, st, c, n.mint, n.feeToken);
    var fromCustody := BurnTokens(env, st, c, n.mint, n.custody);
    RecordInjective(r, toFee);
    RecordInjective(r, fromCustody);
  }

  /** A burn that succeeds in a reachable state: of Alice's 50, 40 leave the supply, 2 go to the fee account and 8
      stay. */
  lemma SomeBurnSucceeds() returns (env: Env, st: State, c: BurnCall)
    ensures Reachable(env, st) && BurnStep(env, st, c).Ok?
    ensures c.sysvar.current == 1 && |c.sysvar.instructions| == 2
    ensures c.sysvar.instructions[1]
         == Instruction(env.programId, BurnInstructionData(GATEWAY_BURN_DISCRIMINATOR, c.burnData, c.burnSignature))
    ensures var st' := BurnStep(env, st, c).value;
            && Amount(st.tokens, c.custody) == 50 && Supply(st'.tokens, c.mint) == Supply(st.tokens, c.mint) - 40
            && Amount(st'.tokens, c.feeToken) == 2 && Amount(st'.tokens, c.custody) == 8
  {
    hide Reachable, Encode, ExpectedData, BurnStep, Supply;
    var n := SomeKeys();
    var verify: (Bytes, Bytes, Bytes) -> bool := (_, _, _) => true;
    var h, signature := n.mint.bytes, seq(SIGNATURE_LENGTH, _ => 0);
    env := ExampleEnv(n, h, verify);
    st := ReadyState(n, h, verify);
    var r := ExampleRecord(n, h, n.mint.bytes + n.mint.bytes, n.alice);
    var current := Instruction(n.program, BurnInstructionData(GATEWAY_BURN_DISCRIMINATOR, Encode(r), signature));
    ExampleSucceeds(n, h, verify, st, h, r.userSignature, signature, current, n.alice, None);
    c := ExampleBurn(n, r, signature, current, None);
    ExampleMoves(n, env, st, c, r);
  }

  /** The check does not look at which instruction is the current one: a burn invoked by another program succeeds on a
      signature that does not verify, while the precompile verified windows of the calling instruction's data. */
  lemma InvokedBurnIsUnbound() returns (env: Env, st: State, c: BurnCall, r: Record)
    ensures Reachable(env, st) && BurnStep(env, st, c).Ok? && Encodable(r) && Encode(r) == c.burnData
    ensures c.sysvar.current == 1 && |c.sysvar.instructions| == 2 && c.sysvar.instructions[1].programId != env.programId
    ensures |c.sysvar.instructions[0].data| == HEADER_SIZE
    ensures PrecompilePasses(env, c.sysvar, c.sysvar.instructions[0].data)
    ensures BURN_INTENT_MESSAGE_PREFIX_OFFSET <= |c.burnData|
    ensures !env.ed25519Verify(r.userSignature, r.spec.sourceSigner.bytes,
                               c.burnData[BURN_INTENT_MESSAGE_PREFIX_OFFSET..])
  {
    hide Reachable, Encode, ExpectedData, BurnStep, Window, PrecompilePasses;
    var n := SomeKeys();
    var zeros, h := seq(64, _ => 0), n.mint.bytes;
    var verify: (Bytes, Bytes, Bytes) -> bool := (s, _, _) => s == zeros;
    env := ExampleEnv(n, h, verify);
    st := ReadyState(n, h, verify);
    r := ExampleRecord(n, h, seq(64, _ => 1), n.alice);
    var signature, current := seq(SIGNATURE_LENGTH, _ => 0), Instruction(n.caller, seq(600, _ => 0));
    ExampleSucceeds(n, h, verify, st, h, r.userSignature, signature, current, n.alice, None);
    c := ExampleBurn(n, r, signature, current, None);
    var length := |c.burnData| - BURN_INTENT_MESSAGE_PREFIX_OFFSET;
    UniformWindow(c.sysvar, 14, 64, 600, 0);
    UniformWindow(c.sysvar, 374, 32, 600, 0);
    UniformWindow(c.sysvar, 78, length, 600, 0);
    ExpectedHeaderChecks(env, c.sysvar, length, zeros, seq(32, _ => 0), seq(length, _ => 0));
    assert r.userSignature[0] != zeros[0];
  }

  lemma DelegateAddedAndRevoked(n: Keys, env: Env, st: State) returns (st1: State, st2: State)
    requires Apart(n) && env.statePda == n.statePda && Reachable(env, st) && Ready(n, st) && st.denylist == {}
    ensures AddDelegateStep(env, st, n.alice, n.mint, n.bob) == Ok(st1)
    ensures RemoveDelegateStep(env, st1, n.alice, n.mint, n.bob) == Ok(st2)
    ensures Reachable(env, st2) && Ready(n, st2)
    ensures DelegateKey(n.mint, n.alice, n.bob) in st2.delegates
    ensures st2.delegates[DelegateKey(n.mint, n.alice, n.bob)].status == Revoked
  {
    hide Reachable;
    var add := AddDelegateCall(n.alice, n.mint, n.bob);
    st1 := Step(env, st, add).value;
    ReachableStep(env, st, add);
    var revoke := RemoveDelegateCall(n.alice, n.mint, n.bob);
    st2 := Step(env, st1, revoke).value;
    ReachableStep(env, st1, revoke);
  }

  /** A delegate is added and revoked; a burn that this delegate signed still succeeds afterwards. */
  lemma RevokedDelegateStillBurns() returns (env: Env, st: State, st1: State, st2: State, c: BurnCall, r: Record)
    ensures Reachable(env, st) && r.spec.sourceSigner != r.spec.sourceDepositor
    ensures AddDelegateStep(env, st, r.spec.sourceDepositor, c.mint, r.spec.sourceSigner) == Ok(st1)
    ensures RemoveDelegateStep(env, st1, r.spec.sourceDepositor, c.mint, r.spec.sourceSigner) == Ok(st2)
    ensures var k := DelegateKey(c.mint, r.spec.sourceDepositor, r.spec.sourceSigner);
            k in st2.delegates && st2.delegates[k].status == Revoked && c.delegate == Some(k)
    ensures Encodable(r) && Encode(r) == c.burnData && BurnStep(env, st2, c).Ok?
  {
    hide Reachable, Encode, ExpectedData, BurnStep, AddDelegateStep, RemoveDelegateStep;
    var n := SomeKeys();
    var verify: (Bytes, Bytes, Bytes) -> bool := (_, _, _) => true;
    var h, signature := n.mint.bytes, seq(SIGNATURE_LENGTH, _ => 0);
    env := ExampleEnv(n, h, verify);
    st := ReadyState(n, h, verify);
    st1, st2 := DelegateAddedAndRevoked(n, env, st);
    r := ExampleRecord(n, h, n.mint.bytes + n.mint.bytes, n.bob);
    var k, current := DelegateKey(n.mint, n.alice, n.bob), Instruction(n.program, []);
    ExampleSucceeds(n, h, verify, st2, h, r.userSignature, signature, current, n.bob, Some(k));
    c := ExampleBurn(n, r, signature, current, Some(k));
  }
}
