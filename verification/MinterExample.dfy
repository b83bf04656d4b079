/** Two mints from the initial state on: one that succeeds, and one whose count field makes the program abort. */
module MinterExample {
  import opened Base
  import opened Runtime
  import opened Tokens
  import opened UsedHashes
  import opened Registry
  import opened Layout
  import opened Attestation
  import opened Minter
  import opened MinterModes
  import opened MinterHistory
  import opened MinterCalls

  /** The keys of the examples. */
  datatype Keys = Keys(
    program: Pubkey, statePda: Pubkey, mint: Pubkey, custody: Pubkey, alice: Pubkey, aliceToken: Pubkey, owner: Pubkey,
    attester: Pubkey, hashAccount: Pubkey, payer: Pubkey)

  ghost predicate Apart(n: Keys) {
    n.custody != n.aliceToken && n.attester != DEFAULT_PUBKEY && n.payer != n.hashAccount
  }

  lemma SomeKeys() returns (n: Keys)
    ensures Apart(n)
  {
    var one, two := Pubkey(seq(32, _ => 1)), Pubkey(seq(32, _ => 2));
    assert one.bytes[0] != two.bytes[0] && one.bytes[0] != DEFAULT_PUBKEY.bytes[0];
    n := Keys(one, one, one, one, one, two, one, one, one, two);
  }

  /** Every signature recovers to the attester. */
  function ExampleEnv(n: Keys, hash: Bytes32): Env {
    Env(n.program, n.statePda, _ => 255, (_, _) => Some(n.custody), _ => n.hashAccount, (_, _) => 255,
        (_, _) => n.aliceToken, _ => hash, (_, _) => Some(n.attester), n.program, (_, _, _) => true, 1)
  }

  function Start(n: Keys): State {
    State(Config(n.owner, DEFAULT_PUBKEY, n.owner, n.owner, false, [], 5, 1, [], []),
          map[n.custody := TokenAccount(n.mint, n.statePda, 100), n.aliceToken := TokenAccount(n.mint, n.alice, 0)],
          map[n.payer := Account(10, SYSTEM_PROGRAM, [])], 0, [])
  }

  /** The token is supported. */
  function Supported(n: Keys): State {
    var st := Start(n);
    st.(cfg := st.cfg.(supportedTokens := [n.mint], bumps := [255]), log := [Event.Administered])
  }

  /** The attester is enabled as well. */
  function Enabled(n: Keys): State {
    var st := Supported(n);
    st.(cfg := st.cfg.(attesters := [n.attester]), log := st.log + [Event.Administered])
  }

  function Setup(n: Keys): seq<Action> {
    [Program(AdminCall(n.owner, AddSupportedToken(n.mint))), Program(AdminCall(n.owner, AddAttester(n.attester)))]
  }

  lemma StartIsInitial(n: Keys, hash: Bytes32)
    requires Apart(n)
    ensures Initial(ExampleEnv(n, hash), Start(n))
  {
  }

  lemma SupportSteps(n: Keys, hash: Bytes32)
    requires Apart(n)
    ensures AdminStep(ExampleEnv(n, hash), Start(n), n.owner, AddSupportedToken(n.mint)) == Ok(Supported(n))
  {
    var cfg := Start(n).cfg;
    assert cfg.supportedTokens + [n.mint] == [n.mint] && cfg.bumps + [255] == [255];
    assert Start(n).log + [Event.Administered] == [Event.Administered];
  }

  lemma EnableSteps(n: Keys, hash: Bytes32)
    requires Apart(n)
    ensures AdminStep(ExampleEnv(n, hash), Supported(n), n.owner, AddAttester(n.attester)) == Ok(Enabled(n))
  {
    assert Supported(n).cfg.attesters + [n.attester] == [n.attester];
  }

  lemma SetupRuns(n: Keys, hash: Bytes32)
    requires Apart(n)
    ensures Run(ExampleEnv(n, hash), Start(n), Setup(n)) == Enabled(n)
  {
    hide AdminStep, Start, Supported, Enabled;
    var env, all := ExampleEnv(n, hash), Setup(n);
    SupportSteps(n, hash);
    EnableSteps(n, hash);
    assert all[..1] == [all[0]] && all[..1][..0] == [];
    assert Run(env, Start(n), []) == Start(n);
    assert Run(env, Start(n), all[..1]) == Supported(n);
  }

  function ExampleHeader(n: Keys): Header {
    Header(1, 5, n.program, DEFAULT_PUBKEY, 100)
  }

  lemma AttestedByAll(n: Keys, hash: Bytes32, data: Bytes, signature: Bytes)
    requires |signature| == SIGNATURE_LENGTH
    ensures Attested(ExampleEnv(n, hash), Enabled(n).cfg, data, signature)
    ensures CoveredByOneOf(ExampleEnv(n, hash), data, signature, Enabled(n).cfg.attesters)
  {
    AttestedIff(ExampleEnv(n, hash), Enabled(n).cfg, data, signature);
  }

  /** A witness of the abort: in a state with one attester, an attested header, room for one element and a count field
      of 1431655766, with no accounts at all. */
  lemma ShortBytesAbort() returns (env: Env, st0: State, actions: seq<Action>, ctx: MintContext, data: Bytes,
                                   signature: Bytes)
    ensures Initial(env, st0) && |data| == ATTESTATIONS_OFFSET + HOOK_DATA_OFFSET && CountAt(data) == 1431655766
    ensures ctx.remaining == []
    ensures MintStep(env, Run(env, st0, actions), ctx, data, signature) == Err(ArithmeticOverflow)
  {
    hide Cat, HeaderParts, Attested, MintStep, Run;
    var n := SomeKeys();
    var hash := n.mint.bytes;
    env, st0, actions := ExampleEnv(n, hash), Start(n), Setup(n);
    StartIsInitial(n, hash);
    SetupRuns(n, hash);
    var tail: Bytes := seq(HOOK_DATA_OFFSET, _ => 0);
    data := Cat(HeaderParts(ExampleHeader(n), 1431655766)) + tail;
    HeaderOfEncoded(ExampleHeader(n), 1431655766, tail);
    signature := seq(SIGNATURE_LENGTH, _ => 0);
    ctx := MintContext(n.payer, n.payer, []);
    AttestedByAll(n, hash, data, signature);
    MintAbortsIff(env, Enabled(n), ctx, data, signature);
  }

  lemma ExampleSupply(n: Keys)
    requires Apart(n)
    ensures SupplyOk(Enabled(n).tokens)
  {
    forall m
      ensures Supply(Enabled(n).tokens, m) <= U64_MAX
    {
      hide Supply;
      TwoAccountSupply(n, m);
    }
  }

  lemma TwoAccountSupply(n: Keys, m: Pubkey)
    requires Apart(n)
    ensures Supply(Start(n).tokens, m) <= 100
  {
    var none: TokenMap := map[];
    assert Balances(none, m) == map[];
    var empty := none[n.custody := TokenAccount(n.mint, n.statePda, 0)];
    NewAccountSupply(none, n.custody, n.mint, n.statePda, m);
    SupplyUpdate(empty, n.custody, 100, m);
    var funded := WithAmount(empty, n.custody, 100);
    NewAccountSupply(funded, n.aliceToken, n.mint, n.alice, m);
    assert Start(n).tokens == funded[n.aliceToken := TokenAccount(n.mint, n.alice, 0)];
  }

  /** One element: 40 units for Alice. */
  function ExampleSet(n: Keys, hash: Bytes32): AttestationSet {
    AttestationSet(ExampleHeader(n), [Element(n.mint, n.aliceToken, 40, hash, [])])
  }

  lemma ExampleMints(n: Keys, hash: Bytes32, ctx: MintContext)
    requires Apart(n) && ctx.payer == n.payer && ctx.remaining == [n.custody, n.aliceToken, n.hashAccount]
    ensures SetMints(ExampleEnv(n, hash), Enabled(n), ctx, ExampleSet(n, hash))
  {
    var env, st, es, keys := ExampleEnv(n, hash), Enabled(n), ExampleSet(n, hash).elements, ctx.remaining;
    assert Position([n.mint], n.mint) == Some(0);
    assert CustodyOf(env, st.cfg, n.mint) == Ok(n.custody);
    assert es[..0] == [] && keys[3..] == [];
    assert ElementMints(env, st, n.payer, es, keys, 0);
    assert TotalShortfall(env, st.accounts, keys) == 1 + TotalShortfall(env, st.accounts, keys[3..]);
  }

  /** A mint that succeeds after the setup: 40 of custody's 100 reach Alice. */
  lemma SomeMintSucceeds() returns (env: Env, st0: State, actions: seq<Action>, ctx: MintContext, data: Bytes,
                                    signature: Bytes)
    ensures Initial(env, st0) && |ctx.remaining| == 3
    ensures var st := Run(env, st0, actions);
            && MintStep(env, st, ctx, data, signature).Ok?
            && var st' := MintStep(env, st, ctx, data, signature).value;
               && Amount(st.tokens, ctx.remaining[0]) == 100 && Amount(st'.tokens, ctx.remaining[0]) == 60
               && Amount(st.tokens, ctx.remaining[1]) == 0 && Amount(st'.tokens, ctx.remaining[1]) == 40
  {
    hide Encode, Attested, MintStep, Run, SetMints, Supply;
    var n := SomeKeys();
    var hash := n.mint.bytes;
    env, st0, actions := ExampleEnv(n, hash), Start(n), Setup(n);
    StartIsInitial(n, hash);
    SetupRuns(n, hash);
    var s := ExampleSet(n, hash);
    data, signature := Encode(s), seq(SIGNATURE_LENGTH, _ => 0);
    ctx := MintContext(n.payer, n.payer, [n.custody, n.aliceToken, n.hashAccount]);
    AttestedByAll(n, hash, data, signature);
    ExampleMints(n, hash, ctx);
    ExampleSupply(n);
    MintSucceedsIff(env, Enabled(n), ctx, data, signature);
    ParseEncoded(s);
    MintMovesSet(env, Enabled(n), ctx, data, signature, n.custody, n.mint);
    MintMovesSet(env, Enabled(n), ctx, data, signature, n.aliceToken, n.mint);
    ExampleBalances(n, hash);
  }

  lemma ExampleBalances(n: Keys, hash: Bytes32)
    requires Apart(n)
    ensures var env, cfg, es := ExampleEnv(n, hash), Enabled(n).cfg, ExampleSet(n, hash).elements;
            && Received(es, n.custody) == 0 && Paid(env, cfg, es, n.custody) == 40
            && Received(es, n.aliceToken) == 40 && Paid(env, cfg, es, n.aliceToken) == 0
  {
    var env, cfg, es := ExampleEnv(n, hash), Enabled(n).cfg, ExampleSet(n, hash).elements;
    assert Position([n.mint], n.mint) == Some(0);
    assert CustodyOf(env, cfg, n.mint) == Ok(n.custody);
    assert es[1..] == [];
  }
}
