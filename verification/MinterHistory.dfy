/** What minting does to the chain: every value moves from custody to its recipient exactly once, supplies are
    conserved, and over all runs no transfer spec hash is minted twice. */
module MinterHistory {
  import opened Base
  import opened Runtime
  import opened Tokens
  import opened UsedHashes
  import opened Registry
  import opened Attestation
  import opened Minter
  import opened MinterModes

  // ---------- balances ----------

  /** What the elements pay to account k as their recipient. */
  function Received(es: seq<Element>, k: Pubkey): nat {
    if es == [] then 0 else (if es[0].destinationRecipient == k then es[0].value else 0) + Received(es[1..], k)
  }

  /** What the elements take from account k as the custody account of their token. */
  function Paid(env: Env, cfg: Config, es: seq<Element>, k: Pubkey): nat {
    if es == [] then 0
    else (if CustodyOf(env, cfg, es[0].destinationToken) == Ok(k) then es[0].value else 0) + Paid(env, cfg, es[1..], k)
  }

  /** One element: its value leaves its token's custody account and reaches its recipient. */
  lemma MintOneMoves(env: Env, st: State, payer: Pubkey, e: Element, custody: Pubkey, recipient: Pubkey,
                     hashAccount: Pubkey, m: Pubkey)
    requires MintOne(env, st, payer, e, custody, recipient, hashAccount).Ok?
    ensures CustodyOf(env, st.cfg, e.destinationToken) == Ok(custody) && recipient == e.destinationRecipient
            && e.value > 0
    ensures var st' := MintOne(env, st, payer, e, custody, recipient, hashAccount).value;
            && Supply(st'.tokens, m) == Supply(st.tokens, m)
            && (forall k :: Amount(st'.tokens, k)
                  == Amount(st.tokens, k) - (if k == custody then e.value else 0)
                    + (if k == recipient then e.value else 0))
            && st'.cfg == st.cfg && st'.slot == st.slot
            && ProcessHash(env, st.accounts, payer, hashAccount, e.transferSpecHash, USED_DISCRIMINATOR)
               == Ok(st'.accounts)
            && st'.log == st.log
                 + [AttestationUsed(e.destinationToken, e.destinationRecipient, e.transferSpecHash, e.value)]
  {
    hide ProcessHash, Supply, BumpOf;
    TransferMoves(st.tokens, custody, recipient, env.statePda, e.value);
    TransferConserves(st.tokens, custody, recipient, env.statePda, e.value, m);
  }

  /** A set, with shared recipients, repeated mints and recipients that are custody accounts: every account ends with
      what it had, plus what the elements pay it, less what they take from it; and every supply is unchanged. */
  lemma {:induction false} MintAllMoves(env: Env, st: State, payer: Pubkey, es: seq<Element>, keys: seq<Pubkey>,
                                        k: Pubkey, m: Pubkey)
    requires |keys| == 3 * |es| && MintAll(env, st, payer, es, keys).Ok?
    ensures var st' := MintAll(env, st, payer, es, keys).value;
            && Amount(st'.tokens, k) == Amount(st.tokens, k) + Received(es, k) - Paid(env, st.cfg, es, k)
            && Supply(st'.tokens, m) == Supply(st.tokens, m)
            && st'.cfg == st.cfg && st'.slot == st.slot
    decreases |es|
  {
    hide MintOne, Supply, Amount, CustodyOf, ProcessHash;
    if es == [] {
    } else {
      var st1 := MintOne(env, st, payer, es[0], keys[0], keys[1], keys[2]).value;
      MintOneMoves(env, st, payer, es[0], keys[0], keys[1], keys[2], m);
      MintAllMoves(env, st1, payer, es[1..], keys[3..], k, m);
    }
  }

  /** What a successful mint of bytes moves, account by account, is determined by the set in the bytes alone. */
  lemma MintMovesSet(env: Env, st: State, ctx: MintContext, data: Bytes, signature: Bytes, k: Pubkey, m: Pubkey)
    requires MintStep(env, st, ctx, data, signature).Ok?
    ensures Parse(data).Ok?
    ensures var st', es := MintStep(env, st, ctx, data, signature).value, Parse(data).value.elements;
            && Amount(st'.tokens, k) == Amount(st.tokens, k) + Received(es, k) - Paid(env, st.cfg, es, k)
            && Supply(st'.tokens, m) == Supply(st.tokens, m)
  {
    hide MintStep, MintAll, BeforeLoop, Supply, Amount;
    MintIsParseThenMint(env, st, ctx, data, signature);
    MintAllMoves(env, st, ctx.payer, Parse(data).value.elements, ctx.remaining, k, m);
  }

  /** A custody burn takes the smaller of the asked amount and the custody balance, from the balance and from the
      supply. */
  lemma BurnCustodyCapped(env: Env, st: State, signer: Pubkey, mint: Pubkey, custody: Pubkey, amount: u64, k: Pubkey,
                          m: Pubkey)
    requires BurnCustodyStep(env, st, signer, mint, custody, amount).Ok?
    ensures var st' := BurnCustodyStep(env, st, signer, mint, custody, amount).value;
            var burned := if amount < Amount(st.tokens, custody) then amount else Amount(st.tokens, custody);
            && amount > 0 && signer == st.cfg.tokenController && CustodyOf(env, st.cfg, mint) == Ok(custody)
            && Amount(st'.tokens, k) == Amount(st.tokens, k) - (if k == custody then burned else 0)
            && Supply(st'.tokens, m) == Supply(st.tokens, m) - (if m == mint then burned else 0)
            && st'.log == st.log + [TokenCustodyBurned(mint, custody, burned)]
  {
    hide Supply, BumpOf;
    var burned := if st.tokens[custody].amount > amount then amount else st.tokens[custody].amount;
    BurnLowersSupply(st.tokens, mint, custody, env.statePda, burned, m);
  }

  // ---------- at most once ----------

  ghost predicate MintedHashesUsed(env: Env, st: State) {
    forall i :: 0 <= i < |st.log| && st.log[i].AttestationUsed? ==>
      HashUsed(env, st.accounts, st.log[i].specHash, USED_DISCRIMINATOR)
  }

  ghost predicate MintedOnce(log: seq<Event>) {
    forall i, j :: 0 <= i < j < |log| && log[i].AttestationUsed? && log[j].AttestationUsed? ==>
      log[i].specHash != log[j].specHash
  }

  ghost predicate Once(env: Env, st: State) {
    && UsedAreOwned(env, st.accounts, USED_DISCRIMINATOR) && MintedHashesUsed(env, st) && MintedOnce(st.log)
  }

  lemma MintOneKeepsOnce(env: Env, st: State, payer: Pubkey, e: Element, custody: Pubkey, recipient: Pubkey,
                         hashAccount: Pubkey)
    requires Once(env, st) && MintOne(env, st, payer, e, custody, recipient, hashAccount).Ok?
    ensures Once(env, MintOne(env, st, payer, e, custody, recipient, hashAccount).value)
  {
    hide MintOne, ProcessHash, HashUsed, UsedAreOwned, CustodyOf, Amount, Supply;
    MintOneMoves(env, st, payer, e, custody, recipient, hashAccount, e.destinationToken);
    ProcessMarksOnce(env, st.accounts, payer, hashAccount, e.transferSpecHash, USED_DISCRIMINATOR);
  }

  lemma {:induction false} MintAllKeepsOnce(env: Env, st: State, payer: Pubkey, es: seq<Element>, keys: seq<Pubkey>)
    requires |keys| == 3 * |es| && Once(env, st) && MintAll(env, st, payer, es, keys).Ok?
    ensures Once(env, MintAll(env, st, payer, es, keys).value)
    decreases |es|
  {
    hide MintOne, Once;
    if es == [] {
    } else {
      MintOneKeepsOnce(env, st, payer, es[0], keys[0], keys[1], keys[2]);
      MintAllKeepsOnce(env, MintOne(env, st, payer, es[0], keys[0], keys[1], keys[2]).value, payer, es[1..], keys[3..]);
    }
  }

  lemma {:induction false} MintAllKeepsUsed(env: Env, st: State, payer: Pubkey, es: seq<Element>, keys: seq<Pubkey>,
                                            h: Bytes32)
    requires |keys| == 3 * |es| && MintAll(env, st, payer, es, keys).Ok?
    requires HashUsed(env, st.accounts, h, USED_DISCRIMINATOR)
    ensures HashUsed(env, MintAll(env, st, payer, es, keys).value.accounts, h, USED_DISCRIMINATOR)
    ensures forall e :: e in es ==> e.transferSpecHash != h
    decreases |es|
  {
    hide MintOne, ProcessHash, HashUsed, UsedAreOwned, CustodyOf, Amount, Supply;
    if es == [] {
    } else {
      var e := es[0];
      MintOneMoves(env, st, payer, e, keys[0], keys[1], keys[2], e.destinationToken);
      ProcessMarksOnce(env, st.accounts, payer, keys[2], e.transferSpecHash, USED_DISCRIMINATOR);
      MintAllKeepsUsed(env, MintOne(env, st, payer, e, keys[0], keys[1], keys[2]).value, payer, es[1..], keys[3..], h);
    }
  }

  /** A set that mints has pairwise distinct hashes, all unused before and all used after. */
  lemma {:induction false} SetMarksDistinctHashes(env: Env, st: State, payer: Pubkey, es: seq<Element>,
                                                  keys: seq<Pubkey>)
    requires |keys| == 3 * |es| && MintAll(env, st, payer, es, keys).Ok?
    ensures forall i, j :: 0 <= i < j < |es| ==> es[i].transferSpecHash != es[j].transferSpecHash
    ensures forall e :: e in es ==>
              && !HashUsed(env, st.accounts, e.transferSpecHash, USED_DISCRIMINATOR)
              && HashUsed(env, MintAll(env, st, payer, es, keys).value.accounts, e.transferSpecHash, USED_DISCRIMINATOR)
    decreases |es|
  {
    hide MintOne, ProcessHash, HashUsed, UsedAreOwned, CustodyOf, Amount, Supply;
    if es == [] {
    } else {
      var e := es[0];
      var st1 := MintOne(env, st, payer, e, keys[0], keys[1], keys[2]).value;
      MintOneMoves(env, st, payer, e, keys[0], keys[1], keys[2], e.destinationToken);
      ProcessMarksOnce(env, st.accounts, payer, keys[2], e.transferSpecHash, USED_DISCRIMINATOR);
      SetMarksDistinctHashes(env, st1, payer, es[1..], keys[3..]);
      MintAllKeepsUsed(env, st1, payer, es[1..], keys[3..], e.transferSpecHash);
      forall x | x in es
        ensures x == e || x in es[1..]
      {
      }
    }
  }

  lemma MintStepKeepsOnce(env: Env, st: State, ctx: MintContext, data: Bytes, signature: Bytes)
    requires Once(env, st) && MintStep(env, st, ctx, data, signature).Ok?
    ensures Once(env, MintStep(env, st, ctx, data, signature).value)
  {
    hide MintStep, MintAll, BeforeLoop, Once;
    MintIsParseThenMint(env, st, ctx, data, signature);
    MintAllKeepsOnce(env, st, ctx.payer, Parse(data).value.elements, ctx.remaining);
  }

  lemma QuietKeepsOnce(env: Env, st: State, st': State, e: Event)
    requires Once(env, st) && st'.accounts == st.accounts && st'.log == st.log + [e] && !e.AttestationUsed?
    ensures Once(env, st')
  {
    hide HashUsed, UsedAreOwned;
  }

  lemma StepKeepsOnce(env: Env, st: State, c: Call)
    requires Once(env, st) && Step(env, st, c).Ok?
    ensures Once(env, Step(env, st, c).value)
  {
    hide MintStep, Once, Rebuild, Burn, CustodyOf;
    var st' := Step(env, st, c).value;
    match c
    case MintCall(ctx, data, signature) => MintStepKeepsOnce(env, st, ctx, data, signature);
    case MintWithParamsCall(ctx, p) =>
      MintStepKeepsOnce(env, st, ctx, Encode(Rebuild(env, st, ctx, p).value), p.signature);
    case BurnCustodyCall(_, _, _, _) => QuietKeepsOnce(env, st, st', st'.log[|st.log|]);
    case AdminCall(_, _) => QuietKeepsOnce(env, st, st', Administered);
  }

  lemma OutsideKeepsOnce(env: Env, st: State, tokens: TokenMap, accounts: Accounts, slot: u64)
    requires Once(env, st) && OutsideOk(env, st, accounts, slot)
    ensures Once(env, st.(tokens := tokens, accounts := accounts, slot := slot))
  {
    forall i | 0 <= i < |st.log| && st.log[i].AttestationUsed?
      ensures HashUsed(env, accounts, st.log[i].specHash, USED_DISCRIMINATOR)
    {
      UsedStaysUsed(env, st.accounts, accounts, st.log[i].specHash, USED_DISCRIMINATOR);
    }
  }

  /** Over every run, across sets and inside one set, in either mode, no transfer spec hash is minted twice. */
  lemma {:induction false} NoHashMintedTwice(env: Env, st: State, actions: seq<Action>)
    requires Once(env, st)
    ensures Once(env, Run(env, st, actions)) && MintedOnce(Run(env, st, actions).log)
  {
    hide Once, Step, OutsideOk;
    if actions == [] {
      OnceIsMintedOnce(env, st);
    } else {
      var before := Run(env, st, actions[..|actions| - 1]);
      NoHashMintedTwice(env, st, actions[..|actions| - 1]);
      match actions[|actions| - 1] {
        case Program(c) =>
          if Step(env, before, c).Ok? {
            StepKeepsOnce(env, before, c);
          }
        case Outside(tokens, accounts, slot) =>
          if OutsideOk(env, before, accounts, slot) {
            OutsideKeepsOnce(env, before, tokens, accounts, slot);
          }
      }
      OnceIsMintedOnce(env, Run(env, st, actions));
    }
  }

  lemma OnceIsMintedOnce(env: Env, st: State)
    requires Once(env, st)
    ensures MintedOnce(st.log)
  {
  }

  /** The state right after `initialize` starts every run with nothing minted. */
  ghost predicate Initial(env: Env, st: State) {
    && !st.cfg.paused && st.cfg.supportedTokens == [] && st.cfg.bumps == [] && st.cfg.attesters == [] && st.log == []
    && UsedAreOwned(env, st.accounts, USED_DISCRIMINATOR)
  }

  lemma InitialIsOnce(env: Env, st: State)
    requires Initial(env, st)
    ensures Once(env, st)
  {
  }

  // ---------- the registry ----------

  ghost predicate RegistryOk(env: Env, cfg: Config) {
    && TokenListOk(cfg.supportedTokens, cfg.bumps)
    && (forall m :: m in cfg.supportedTokens ==> BumpOf(cfg.supportedTokens, cfg.bumps, m) == Ok(env.custodyBump(m)))
    && NoDuplicates(cfg.attesters) && |cfg.attesters| <= MAX_SIGNERS
  }

  lemma AdminKeepsRegistry(env: Env, st: State, signer: Pubkey, a: Admin)
    requires RegistryOk(env, st.cfg) && AdminStep(env, st, signer, a).Ok?
    ensures var cfg' := AdminStep(env, st, signer, a).value.cfg;
            RegistryOk(env, cfg') && st.cfg.supportedTokens <= cfg'.supportedTokens && st.cfg.bumps <= cfg'.bumps
  {
    hide BumpOf;
    match a
    case AddSupportedToken(m) => AddTokenKeeps(st.cfg.supportedTokens, st.cfg.bumps, m, env.custodyBump(m));
    case AddAttester(x) => SignersKeep(st.cfg.attesters, x, AttesterLimitExceeded);
    case RemoveAttester(x) => SignersKeep(st.cfg.attesters, x, AttesterLimitExceeded);
    case _ =>
  }

  lemma StepKeepsRegistry(env: Env, st: State, c: Call)
    requires RegistryOk(env, st.cfg) && Step(env, st, c).Ok?
    ensures var cfg' := Step(env, st, c).value.cfg;
            RegistryOk(env, cfg') && st.cfg.supportedTokens <= cfg'.supportedTokens && st.cfg.bumps <= cfg'.bumps
  {
    hide MintStep, RegistryOk, Rebuild, Burn, CustodyOf, AdminStep;
    match c
    case MintCall(ctx, data, signature) => MintKeepsConfig(env, st, ctx, data, signature);
    case MintWithParamsCall(ctx, p) =>
      MintKeepsConfig(env, st, ctx, Encode(Rebuild(env, st, ctx, p).value), p.signature);
    case BurnCustodyCall(_, _, _, _) =>
    case AdminCall(signer, a) => AdminKeepsRegistry(env, st, signer, a);
  }

  lemma MintKeepsConfig(env: Env, st: State, ctx: MintContext, data: Bytes, signature: Bytes)
    requires MintStep(env, st, ctx, data, signature).Ok?
    ensures MintStep(env, st, ctx, data, signature).value.cfg == st.cfg
  {
    hide MintStep, MintAll, BeforeLoop, Amount, Supply;
    MintIsParseThenMint(env, st, ctx, data, signature);
    MintAllMoves(env, st, ctx.payer, Parse(data).value.elements, ctx.remaining, DEFAULT_PUBKEY, DEFAULT_PUBKEY);
  }

  /** Over every run the token list stays a bounded duplicate-free map to canonical bumps that only grows. */
  lemma {:induction false} RunKeepsRegistry(env: Env, st: State, actions: seq<Action>)
    requires RegistryOk(env, st.cfg)
    ensures var cfg' := Run(env, st, actions).cfg;
            RegistryOk(env, cfg') && st.cfg.supportedTokens <= cfg'.supportedTokens && st.cfg.bumps <= cfg'.bumps
  {
    hide RegistryOk, Step, OutsideOk;
    if actions == [] {
    } else {
      var init, a := actions[..|actions| - 1], actions[|actions| - 1];
      RunKeepsRegistry(env, st, init);
      var before := Run(env, st, init);
      if a.Program? && Step(env, before, a.call).Ok? {
        StepKeepsRegistry(env, before, a.call);
      }
    }
  }
}
