/** The gates of the minter: attesters, pausing, administration and custody burns, each from the instruction that moves
    it on, over every run. */
module MinterGates {
  import opened Base
  import opened Runtime
  import opened Tokens
  import opened UsedHashes
  import opened Registry
  import opened Attestation
  import opened Minter
  import opened MinterHistory
  import opened MinterCalls

  // ---------- attestation ----------

  /** A mint's signature covers its bytes, written out: it has 65 bytes and recovers, from the keccak hash of the
      28-byte Ethereum prefix and the bytes' own hash, to an attester enabled at that moment. */
  lemma MintSignatureCoversData(env: Env, st: State, ctx: MintContext, data: Bytes, signature: Bytes)
    returns (s: Pubkey)
    requires MintStep(env, st, ctx, data, signature).Ok?
    ensures |signature| == 65 && s in st.cfg.attesters
    ensures env.recover(
              env.keccak([0x19, 0x45, 0x74, 0x68, 0x65, 0x72, 0x65, 0x75, 0x6d, 0x20, 0x53, 0x69, 0x67, 0x6e,
                          0x65, 0x64, 0x20, 0x4d, 0x65, 0x73, 0x73, 0x61, 0x67, 0x65, 0x3a, 0x0a, 0x33, 0x32]
                         + env.keccak(data)),
              signature) == Some(s)
  {
    hide MintLoop, HeaderChecks;
    assert CoveredByOneOf(env, data, signature, st.cfg.attesters) by {
      hide SignatureCovers;
      AttestedIff(env, st.cfg, data, signature);
    }
    s :| s in st.cfg.attesters && SignatureCovers(env, data, signature, s);
  }

  /** Bytes whose signed hash recovers to no enabled attester are not minted. */
  lemma UncoveredMintFails(env: Env, st: State, ctx: MintContext, data: Bytes, signature: Bytes)
    requires forall s :: s in st.cfg.attesters ==> !SignatureCovers(env, data, signature, s)
    ensures MintStep(env, st, ctx, data, signature).Err?
  {
    hide MintLoop, HeaderChecks, SignatureCovers, Attested;
    AttestedIff(env, st.cfg, data, signature);
  }

  /** Without attesters neither mode mints. */
  lemma NoAttesterNoMint(env: Env, st: State, ctx: MintContext, data: Bytes, signature: Bytes, p: MintParams)
    requires st.cfg.attesters == []
    ensures MintStep(env, st, ctx, data, signature).Err? && MintWithParamsStep(env, st, ctx, p).Err?
  {
    hide MintStep, SignatureCovers, Rebuild, Encode;
    UncoveredMintFails(env, st, ctx, data, signature);
    if Rebuild(env, st, ctx, p).Ok? {
      UncoveredMintFails(env, st, ctx, Encode(Rebuild(env, st, ctx, p).value), p.signature);
    }
  }

  // ---------- administration ----------

  /** Who may do what, and when. */
  predicate AllowedTo(env: Env, st: State, signer: Pubkey, a: Admin) {
    match a
    case Pause => signer == st.cfg.pauser
    case Unpause => signer == st.cfg.pauser
    case AddSupportedToken(m) =>
      && signer == st.cfg.tokenController && (m in st.cfg.supportedTokens || |st.cfg.supportedTokens| < 10)
      && var k := env.custodyPda(m, env.custodyBump(m));
         k.Some? && (k.value in st.tokens ==> st.tokens[k.value].mint == m && st.tokens[k.value].owner == env.statePda)
    case AddAttester(x) =>
      signer == st.cfg.owner && x != DEFAULT_PUBKEY && (x in st.cfg.attesters || |st.cfg.attesters| < 10)
    case RemoveAttester(_) => signer == st.cfg.owner
    case UpdateRole(c) =>
      match c
      case SetPauser(x) => signer == st.cfg.owner && x != DEFAULT_PUBKEY
      case SetTokenController(x) => signer == st.cfg.owner && x != DEFAULT_PUBKEY
      case TransferOwnership(_) => signer == st.cfg.owner
      case AcceptOwnership => signer == st.cfg.pendingOwner
  }

  lemma AdminSucceedsIff(env: Env, st: State, signer: Pubkey, a: Admin)
    ensures AdminStep(env, st, signer, a).Ok? <==> AllowedTo(env, st, signer, a)
  {
    hide RemoveSigner;
  }

  /** The settings that an instruction other than the registry's leaves behind. */
  function SettingsAfter(cfg: Config, a: Admin): Config {
    match a
    case Pause => cfg.(paused := true)
    case Unpause => cfg.(paused := false)
    case UpdateRole(SetPauser(x)) => cfg.(pauser := x)
    case UpdateRole(SetTokenController(x)) => cfg.(tokenController := x)
    case UpdateRole(TransferOwnership(x)) => cfg.(pendingOwner := x)
    case UpdateRole(AcceptOwnership) => cfg.(owner := cfg.pendingOwner, pendingOwner := DEFAULT_PUBKEY)
    case _ => cfg
  }

  /** What each instruction changes: the one setting or list it names, and a custody account when a token is added. */
  lemma AdminDoes(env: Env, st: State, signer: Pubkey, a: Admin)
    requires RegistryOk(env, st.cfg) && AdminStep(env, st, signer, a).Ok?
    ensures var st' := AdminStep(env, st, signer, a).value;
            && st'.accounts == st.accounts && st'.slot == st.slot && st'.log == st.log + [Administered]
            && SettingsAfter(st.cfg, a)
               == st'.cfg.(supportedTokens := st.cfg.supportedTokens, bumps := st.cfg.bumps,
                           attesters := st.cfg.attesters)
            && (forall m :: m in st'.cfg.supportedTokens <==>
                              m in st.cfg.supportedTokens || (a.AddSupportedToken? && m == a.mint))
            && (forall x :: x in st'.cfg.attesters <==>
                              (x in st.cfg.attesters || (a.AddAttester? && x == a.attester))
                              && !(a.RemoveAttester? && x == a.attester))
            && (!a.AddSupportedToken? ==> st'.tokens == st.tokens)
            && (forall k :: k in st.tokens ==> k in st'.tokens && st'.tokens[k] == st.tokens[k])
            && (forall k :: k in st'.tokens && k !in st.tokens ==>
                  && a.AddSupportedToken? && st'.tokens[k] == TokenAccount(a.mint, env.statePda, 0)
                  && env.custodyPda(a.mint, env.custodyBump(a.mint)) == Some(k))
  {
    hide BumpOf;
    match a
    case AddSupportedToken(m) => AddTokenKeeps(st.cfg.supportedTokens, st.cfg.bumps, m, env.custodyBump(m));
    case AddAttester(x) => SignersKeep(st.cfg.attesters, x, AttesterLimitExceeded);
    case RemoveAttester(x) => SignersKeep(st.cfg.attesters, x, AttesterLimitExceeded);
    case _ =>
  }

  predicate IsAdmin(a: Action, admin: Admin) {
    a.Program? && a.call.AdminCall? && a.call.admin == admin
  }

  /** One successful instruction and the settings that runs are asked about. */
  lemma SettingsStep(env: Env, st: State, c: Call)
    requires RegistryOk(env, st.cfg) && Step(env, st, c).Ok?
    ensures var st' := Step(env, st, c).value;
            && (forall x :: x in st'.cfg.attesters ==>
                              x in st.cfg.attesters || (c.AdminCall? && c.admin == AddAttester(x)))
            && (st.cfg.paused ==> st'.cfg.paused || (c.AdminCall? && c.admin == Unpause))
  {
    hide RegistryOk, MintStep, AdminStep, Rebuild, Encode, Burn, CustodyOf;
    match c
    case MintCall(ctx, data, signature) => MintKeepsConfig(env, st, ctx, data, signature);
    case MintWithParamsCall(ctx, p) =>
      MintKeepsConfig(env, st, ctx, Encode(Rebuild(env, st, ctx, p).value), p.signature);
    case BurnCustodyCall(_, _, _, _) =>
    case AdminCall(signer, a) => AdminDoes(env, st, signer, a);
  }

  lemma {:induction false} AttesterStaysOut(env: Env, st: State, actions: seq<Action>, x: Pubkey)
    requires RegistryOk(env, st.cfg) && x !in st.cfg.attesters
    requires forall i :: 0 <= i < |actions| ==> !IsAdmin(actions[i], AddAttester(x))
    ensures x !in Run(env, st, actions).cfg.attesters
  {
    hide RegistryOk, Step, OutsideOk;
    if actions == [] {
    } else {
      var init, a := actions[..|actions| - 1], actions[|actions| - 1];
      assert forall i :: 0 <= i < |init| ==> init[i] == actions[i];
      AttesterStaysOut(env, st, init, x);
      var before := Run(env, st, init);
      if a.Program? && Step(env, before, a.call).Ok? {
        RunKeepsRegistry(env, st, init);
        SettingsStep(env, before, a.call);
      }
    }
  }

  /** After removing attester x, no bytes that x signed are minted, in either mode, until x is added again. */
  lemma RemovedAttesterNeverMints(env: Env, st: State, signer: Pubkey, x: Pubkey, actions: seq<Action>,
                                  ctx: MintContext, data: Bytes, signature: Bytes, p: MintParams)
    requires RegistryOk(env, st.cfg) && AdminStep(env, st, signer, RemoveAttester(x)).Ok?
    requires forall i :: 0 <= i < |actions| ==> !IsAdmin(actions[i], AddAttester(x))
    ensures var st2 := Run(env, AdminStep(env, st, signer, RemoveAttester(x)).value, actions);
            && (SignatureCovers(env, data, signature, x) ==> MintStep(env, st2, ctx, data, signature).Err?)
            && (Rebuild(env, st2, ctx, p).Ok?
                && SignatureCovers(env, Encode(Rebuild(env, st2, ctx, p).value), p.signature, x) ==>
                  MintWithParamsStep(env, st2, ctx, p).Err?)
  {
    hide RegistryOk, Run, AdminStep, MintStep, SignatureCovers, Rebuild, Encode;
    var st1 := AdminStep(env, st, signer, RemoveAttester(x)).value;
    AdminDoes(env, st, signer, RemoveAttester(x));
    AdminKeepsRegistry(env, st, signer, RemoveAttester(x));
    AttesterStaysOut(env, st1, actions, x);
    var st2 := Run(env, st1, actions);
    DisabledNeverMints(env, st2, ctx, data, signature, x);
    if Rebuild(env, st2, ctx, p).Ok? {
      DisabledNeverMints(env, st2, ctx, Encode(Rebuild(env, st2, ctx, p).value), p.signature, x);
    }
  }

  lemma DisabledNeverMints(env: Env, st: State, ctx: MintContext, data: Bytes, signature: Bytes, x: Pubkey)
    requires x !in st.cfg.attesters
    ensures SignatureCovers(env, data, signature, x) ==> MintStep(env, st, ctx, data, signature).Err?
  {
    hide MintStep, SignatureCovers;
    if SignatureCovers(env, data, signature, x) && MintStep(env, st, ctx, data, signature).Ok? {
      var s := MintSignatureCoversData(env, st, ctx, data, signature);
      CoversSigner(env, data, signature, x);
    }
  }

  lemma CoversSigner(env: Env, data: Bytes, signature: Bytes, x: Pubkey)
    requires SignatureCovers(env, data, signature, x)
    ensures env.recover(
              env.keccak([0x19, 0x45, 0x74, 0x68, 0x65, 0x72, 0x65, 0x75, 0x6d, 0x20, 0x53, 0x69, 0x67, 0x6e,
                          0x65, 0x64, 0x20, 0x4d, 0x65, 0x73, 0x73, 0x61, 0x67, 0x65, 0x3a, 0x0a, 0x33, 0x32]
                         + env.keccak(data)),
              signature) == Some(x)
  {
  }

  // ---------- pausing ----------

  lemma {:induction false} StaysPaused(env: Env, st: State, actions: seq<Action>)
    requires RegistryOk(env, st.cfg) && st.cfg.paused
    requires forall i :: 0 <= i < |actions| ==> !IsAdmin(actions[i], Unpause)
    ensures Run(env, st, actions).cfg.paused
  {
    hide RegistryOk, Step, OutsideOk;
    if actions == [] {
    } else {
      var init, a := actions[..|actions| - 1], actions[|actions| - 1];
      assert forall i :: 0 <= i < |init| ==> init[i] == actions[i];
      StaysPaused(env, st, init);
      var before := Run(env, st, init);
      if a.Program? && Step(env, before, a.call).Ok? {
        RunKeepsRegistry(env, st, init);
        SettingsStep(env, before, a.call);
      }
    }
  }

  /** After a pause, whoever acts, neither mode mints until an unpause. */
  lemma PauseStopsMinting(env: Env, st: State, signer: Pubkey, actions: seq<Action>, ctx: MintContext, data: Bytes,
                          signature: Bytes, p: MintParams)
    requires RegistryOk(env, st.cfg) && AdminStep(env, st, signer, Pause).Ok?
    requires forall i :: 0 <= i < |actions| ==> !IsAdmin(actions[i], Unpause)
    ensures var st2 := Run(env, AdminStep(env, st, signer, Pause).value, actions);
            && MintStep(env, st2, ctx, data, signature) == Err(ProgramPaused)
            && MintWithParamsStep(env, st2, ctx, p) == Err(ProgramPaused)
  {
    hide RegistryOk, Run, AdminStep;
    AdminDoes(env, st, signer, Pause);
    AdminKeepsRegistry(env, st, signer, Pause);
    StaysPaused(env, AdminStep(env, st, signer, Pause).value, actions);
  }

  /** After an unpause a set mints exactly on its other conditions. */
  lemma UnpauseReopens(env: Env, st: State, signer: Pubkey, ctx: MintContext, data: Bytes, signature: Bytes)
    requires RegistryOk(env, st.cfg) && AdminStep(env, st, signer, Unpause).Ok? && SupplyOk(st.tokens)
    ensures var st' := AdminStep(env, st, signer, Unpause).value;
            MintStep(env, st', ctx, data, signature).Ok?
            <==> CoveredByOneOf(env, data, signature, st'.cfg.attesters)
                 && exists s :: Encode(s) == data && SetMints(env, st', ctx, s)
  {
    hide RegistryOk, AdminStep, MintStep, SupplyOk, CoveredByOneOf, Encode, SetMints;
    AdminDoes(env, st, signer, Unpause);
    MintSucceedsIff(env, AdminStep(env, st, signer, Unpause).value, ctx, data, signature);
  }

  // ---------- custody ----------

  /** The custody account of a mint is the address derived from the mint and its canonical bump, for supported mints. */
  lemma CustodyIsDerived(env: Env, cfg: Config, mint: Pubkey, k: Pubkey)
    requires RegistryOk(env, cfg)
    ensures CustodyOf(env, cfg, mint) == Ok(k)
       <==> mint in cfg.supportedTokens && env.custodyPda(mint, env.custodyBump(mint)) == Some(k)
  {
  }

  /** Exactly when a custody burn succeeds, and how much it takes: an amount above the balance burns the whole
      balance. */
  lemma BurnCustodySucceedsIff(env: Env, st: State, signer: Pubkey, mint: Pubkey, custody: Pubkey, amount: u64)
    requires RegistryOk(env, st.cfg)
    ensures BurnCustodyStep(env, st, signer, mint, custody, amount).Ok?
       <==> signer == st.cfg.tokenController && mint in st.cfg.supportedTokens
            && env.custodyPda(mint, env.custodyBump(mint)) == Some(custody)
            && custody in st.tokens && st.tokens[custody].mint == mint && st.tokens[custody].owner == env.statePda
            && amount > 0
    ensures var r := BurnCustodyStep(env, st, signer, mint, custody, amount);
            r.Ok? ==>
              && custody in r.value.tokens
              && r.value.tokens == st.tokens[custody := r.value.tokens[custody]]
              && r.value.tokens[custody] == TokenAccount(mint, env.statePda, r.value.tokens[custody].amount)
              && (amount <= st.tokens[custody].amount ==>
                  r.value.tokens[custody].amount == st.tokens[custody].amount - amount)
              && (amount > st.tokens[custody].amount ==> r.value.tokens[custody].amount == 0)
              && r.value.cfg == st.cfg && r.value.accounts == st.accounts && r.value.slot == st.slot
  {
    hide RegistryOk, CustodyOf;
    CustodyIsDerived(env, st.cfg, mint, custody);
  }

  // ---------- errors ----------

  /** What each failing administrative instruction reports, for whoever has its role. */
  lemma AdminErrors(env: Env, st: State, signer: Pubkey, a: Admin)
    requires AdminStep(env, st, signer, a).Err?
    ensures var e := AdminStep(env, st, signer, a).error;
            && (e.InvalidAuthority? ==>
                  signer != (if a == UpdateRole(AcceptOwnership) then st.cfg.pendingOwner
                             else if a.Pause? || a.Unpause? then st.cfg.pauser
                             else if a.AddSupportedToken? then st.cfg.tokenController
                             else st.cfg.owner))
            && (e.ConstraintViolated? ==> a.AddSupportedToken?)
            && (e.MaxTokensSupported? ==> a.AddSupportedToken? && |st.cfg.supportedTokens| >= 10)
            && (e.InvalidAttester? ==> a == AddAttester(DEFAULT_PUBKEY))
            && (e.AttesterLimitExceeded? ==> a.AddAttester? && |st.cfg.attesters| >= 10)
            && (e.InvalidPauser? ==> a == UpdateRole(SetPauser(DEFAULT_PUBKEY)))
            && (e.InvalidTokenController? ==> a == UpdateRole(SetTokenController(DEFAULT_PUBKEY)))
            && (|| e.InvalidAuthority? || e.ConstraintViolated? || e.MaxTokensSupported? || e.InvalidAttester?
                || e.AttesterLimitExceeded? || e.InvalidPauser? || e.InvalidTokenController?)
  {
    hide RemoveSigner;
  }

  /** What each error of the header checks reports. */
  lemma HeaderErrors(env: Env, st: State, ctx: MintContext, h: Header)
    requires HeaderChecks(env, st, ctx, h).Err?
    ensures var e := HeaderChecks(env, st, ctx, h).error;
            && (e.VersionMismatch? ==> h.version != st.cfg.version)
            && (e.AttestationExpired? ==> h.maxBlockHeight < st.slot)
            && (e.DestinationCallerMismatch? ==>
                  h.destinationCaller != DEFAULT_PUBKEY && h.destinationCaller != ctx.destinationCaller)
            && (e.DestinationDomainMismatch? ==> h.destinationDomain != st.cfg.localDomain)
            && (e.DestinationContractMismatch? ==> h.destinationContract != env.programId)
            && (|| e.VersionMismatch? || e.AttestationExpired? || e.DestinationCallerMismatch?
                || e.DestinationDomainMismatch? || e.DestinationContractMismatch?)
  {
  }

  /** What each error of one element reports, against the state it is minted in. */
  lemma MintOneErrors(env: Env, st: State, payer: Pubkey, e: Element, custody: Pubkey, recipient: Pubkey,
                      hashAccount: Pubkey)
    requires RegistryOk(env, st.cfg) && MintOne(env, st, payer, e, custody, recipient, hashAccount).Err?
    ensures var x := MintOne(env, st, payer, e, custody, recipient, hashAccount).error;
            && (x.InvalidCustodyTokenAccount? ==>
                  custody !in st.tokens || st.tokens[custody].owner != env.statePda
                    || env.custodyPda(st.tokens[custody].mint,
                                      env.custodyBump(st.tokens[custody].mint)) != Some(custody))
            && (x.TokenNotSupported? ==>
                  custody in st.tokens && st.tokens[custody].mint !in st.cfg.supportedTokens)
            && (x.InvalidDestinationTokenAccount? ==> recipient !in st.tokens)
            && (x.InvalidTransferSpecHashAccount? ==> hashAccount != env.usedPda(e.transferSpecHash))
            && (x.MissingSignature? ==> hashAccount == payer)
            && (x.TransferSpecHashAlreadyUsed? ==> HashUsed(env, st.accounts, e.transferSpecHash, USED_DISCRIMINATOR))
            && (x.AccountAlreadyInUse? ==> !Vacant(Get(st.accounts, hashAccount)))
            && (x.InsufficientLamports? ==>
                  Get(st.accounts, payer).lamports + Get(st.accounts, hashAccount).lamports < env.rent
                    || !Vacant(Get(st.accounts, payer)))
            && (x.DestinationTokenMismatch? ==>
                  (custody in st.tokens && st.tokens[custody].mint != e.destinationToken)
                    || (recipient in st.tokens && st.tokens[recipient].mint != e.destinationToken))
            && (x.DestinationRecipientMismatch? ==> recipient != e.destinationRecipient)
            && (x.InvalidAttestationValue? ==> e.value == 0)
            && (x.InsufficientFunds? ==> Amount(st.tokens, custody) < e.value)
            && (x.TokenOverflow? ==> Amount(st.tokens, recipient) + e.value > 0xFFFF_FFFF_FFFF_FFFF)
            && (|| x.InvalidCustodyTokenAccount? || x.TokenNotSupported? || x.InvalidDestinationTokenAccount?
                || x.InvalidTransferSpecHashAccount? || x.MissingSignature? || x.TransferSpecHashAlreadyUsed?
                || x.AccountAlreadyInUse? || x.InsufficientLamports? || x.DestinationTokenMismatch?
                || x.DestinationRecipientMismatch? || x.InvalidAttestationValue? || x.InsufficientFunds?
                || x.TokenOverflow?)
  {
    hide ProcessHash, Transfer, ValidateCustody, RegistryOk;
    if ValidateCustody(env, st.cfg, st.tokens, custody).Err? {
      CustodyErrors(env, st.cfg, st.tokens, custody);
    } else {
      CustodyValid(env, st.cfg, st.tokens, custody);
      HashErrors(env, st.accounts, payer, hashAccount, e.transferSpecHash, USED_DISCRIMINATOR);
      TransferErrors(st.tokens, custody, recipient, env.statePda, e.value);
    }
  }

  lemma CustodyErrors(env: Env, cfg: Config, tokens: TokenMap, custody: Pubkey)
    requires RegistryOk(env, cfg) && ValidateCustody(env, cfg, tokens, custody).Err?
    ensures var e := ValidateCustody(env, cfg, tokens, custody).error;
            && (e.InvalidCustodyTokenAccount? ==>
                  custody !in tokens || tokens[custody].owner != env.statePda
                    || env.custodyPda(tokens[custody].mint, env.custodyBump(tokens[custody].mint)) != Some(custody))
            && (e.TokenNotSupported? ==> custody in tokens && tokens[custody].mint !in cfg.supportedTokens)
            && (|| e.InvalidCustodyTokenAccount? || e.TokenNotSupported?)
  {
  }

  lemma CustodyValid(env: Env, cfg: Config, tokens: TokenMap, custody: Pubkey)
    requires ValidateCustody(env, cfg, tokens, custody).Ok?
    ensures custody in tokens && tokens[custody].owner == env.statePda
    ensures tokens[custody].mint == ValidateCustody(env, cfg, tokens, custody).value
  {
    hide CustodyOf;
  }

  lemma TransferErrors(t: TokenMap, from: Pubkey, to: Pubkey, authority: Pubkey, amount: u64)
    requires from in t && t[from].owner == authority
    ensures var r := Transfer(t, from, to, authority, amount);
            r.Err? && to in t && t[from].mint == t[to].mint ==>
              if r.error == InsufficientFunds then t[from].amount < amount
              else r.error == TokenOverflow && t[to].amount + amount > 0xFFFF_FFFF_FFFF_FFFF
  {
  }

  /** A minted element's hash account is the program's, with the two bytes 11 and 1 as its whole data. */
  lemma MintMarksAccount(env: Env, st: State, payer: Pubkey, e: Element, custody: Pubkey, recipient: Pubkey,
                         hashAccount: Pubkey)
    requires MintOne(env, st, payer, e, custody, recipient, hashAccount).Ok?
    ensures var accounts := MintOne(env, st, payer, e, custody, recipient, hashAccount).value.accounts;
            && hashAccount == env.usedPda(e.transferSpecHash)
            && Get(accounts, hashAccount).data == [11, 1] && Get(accounts, hashAccount).owner == env.programId
            && forall k :: k != hashAccount && k != payer ==> Get(accounts, k) == Get(st.accounts, k)
  {
    hide Transfer, ValidateCustody;
  }

  /** What each error before the loop reports. */
  lemma BeforeLoopErrors(env: Env, st: State, ctx: MintContext, data: Bytes, signature: Bytes)
    requires BeforeLoop(env, st, ctx, data, signature).Err?
    ensures var e := BeforeLoop(env, st, ctx, data, signature).error;
            && (e.ProgramPaused? ==> st.cfg.paused)
            && (e.InvalidAttesterSignature? ==> !CoveredByOneOf(env, data, signature, st.cfg.attesters))
            && (e.AttestationTooShort? ==> |data| < 88 + 108)
            && (e.AttestationMagicMismatch? ==> |data| >= 4 && data[0..4] != [0x10, 0xcb, 0xb1, 0xec])
            && (e.EmptyAttestationSet? ==> |data| >= 88 && CountAt(data) == 0)
            && (e.ArithmeticOverflow? ==> |data| >= 88 && CountAt(data) >= 1431655766)
            && (e.RemainingAccountsLengthMismatch? ==> |data| >= 88 && |ctx.remaining| != 3 * CountAt(data))
            && (!(e.ProgramPaused? || e.InvalidAttesterSignature? || e.AttestationTooShort?
                  || e.AttestationMagicMismatch? || e.EmptyAttestationSet? || e.ArithmeticOverflow?
                  || e.RemainingAccountsLengthMismatch?) ==>
                  |data| >= 88 && HeaderChecks(env, st, ctx, HeaderAt(data)).Err?)
  {
    hide Attested, CoveredByOneOf, HeaderAt, U32At;
    AttestedIff(env, st.cfg, data, signature);
    if |data| >= 88 {
      U32Bytes(data, 0);
      if HeaderChecks(env, st, ctx, HeaderAt(data)).Err? {
        HeaderErrors(env, st, ctx, HeaderAt(data));
      }
      if data[0..4] == [0x10, 0xcb, 0xb1, 0xec] {
        MagicBytes(data);
      }
    }
  }

  /** What the parameter mode refuses before it has bytes to mint. */
  lemma ParamsErrors(env: Env, st: State, ctx: MintContext, p: MintParams)
    requires !st.cfg.paused
    ensures var r := MintWithParamsStep(env, st, ctx, p);
            && (p.elements == [] ==> r == Err(EmptyAttestationSet))
            && (p.elements != [] && |ctx.remaining| != 3 * |p.elements| ==> r == Err(RemainingAccountsLengthMismatch))
            && (p.elements != [] && |ctx.remaining| == 3 * |p.elements|
                && (exists i: nat :: i < |p.elements| && !RecipientAt(st.tokens, ctx.remaining, i)) ==>
                  r == Err(InvalidDestinationTokenAccount))
  {
    hide MintStep, Encode, RebuildElements;
    if |ctx.remaining| == 3 * |p.elements| {
      RebuildErrors(st.tokens, p.elements, ctx.remaining);
    }
  }

  /** The recipient account passed for element i is a token account. */
  predicate RecipientAt(tokens: TokenMap, keys: seq<Pubkey>, i: nat) {
    3 * i + 1 < |keys| && keys[3 * i + 1] in tokens
  }

  lemma {:induction false} RebuildErrors(tokens: TokenMap, es: seq<ElementParams>, keys: seq<Pubkey>)
    requires |keys| == 3 * |es|
    ensures var r := RebuildElements(tokens, es, keys);
            && (r.Ok? <==> forall i: nat :: i < |es| ==> RecipientAt(tokens, keys, i))
            && (r.Err? ==> r.error == InvalidDestinationTokenAccount)
  {
    if es != [] {
      RebuildErrors(tokens, es[1..], keys[3..]);
      assert RecipientAt(tokens, keys, 0) <==> keys[1] in tokens;
      forall i: nat | i < |es| - 1
        ensures RecipientAt(tokens, keys[3..], i) == RecipientAt(tokens, keys, i + 1)
      {
      }
      if RebuildElements(tokens, es[1..], keys[3..]).Ok? {
        forall i: nat | 0 < i < |es|
          ensures RecipientAt(tokens, keys, i)
        {
          assert RecipientAt(tokens, keys[3..], i - 1);
        }
      }
    }
  }

  lemma MagicBytes(data: Bytes)
    requires |data| >= 4 && data[0..4] == [0x10, 0xcb, 0xb1, 0xec]
    ensures U32At(data, 0) == ATTESTATION_SET_MAGIC
  {
    U32Bytes(data, 0);
  }
}
