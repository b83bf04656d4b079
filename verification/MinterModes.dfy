/** The two modes of minting agree: the loop over bytes is parsing followed by minting, and rebuilding a set from its
    parameters gives exactly the bytes that were signed. */
module MinterModes {
  import opened Base
  import opened Runtime
  import opened Tokens
  import opened UsedHashes
  import opened Registry
  import opened Attestation
  import opened Minter

  // ---------- the loop is parsing, then minting ----------

  /** On bytes that parse, reading elements lazily makes no difference, down to the error. */
  lemma {:induction false} LoopMintsParsed(env: Env, st: State, payer: Pubkey, rest: Bytes, count: nat,
                                           keys: seq<Pubkey>)
    requires |keys| == 3 * count && ParseElements(rest, count).Ok?
    ensures |ParseElements(rest, count).value| == count
    ensures MintLoop(env, st, payer, rest, count, keys)
         == MintAll(env, st, payer, ParseElements(rest, count).value, keys)
    decreases count
  {
    hide MintOne, FirstElement;
    if count == 0 {
    } else {
      var es, next := ParseElements(rest, count).value, rest[ElementSize(rest)..];
      assert es[1..] == ParseElements(next, count - 1).value;
      LoopMintsParsed(env, st, payer, next, count - 1, keys[3..]);
      var one := MintOne(env, st, payer, es[0], keys[0], keys[1], keys[2]);
      if one.Ok? {
        LoopMintsParsed(env, one.value, payer, next, count - 1, keys[3..]);
      }
    }
  }

  /** A loop that reaches its end has read a whole set. */
  lemma {:induction false} LoopParses(env: Env, st: State, payer: Pubkey, rest: Bytes, count: nat, keys: seq<Pubkey>)
    requires |keys| == 3 * count && MintLoop(env, st, payer, rest, count, keys).Ok?
    ensures ParseElements(rest, count).Ok?
    decreases count
  {
    hide MintOne, FirstElement;
    if count == 0 {
    } else {
      var e := ReadElement(rest, count == 1).value;
      var st' := MintOne(env, st, payer, e, keys[0], keys[1], keys[2]).value;
      LoopParses(env, st', payer, rest[ElementSize(rest)..], count - 1, keys[3..]);
    }
  }

  /** A mint of bytes succeeds exactly when the checks before the loop pass, the bytes are a whole set, and minting its
      elements in order succeeds; and then the results are the same. */
  lemma MintIsParseThenMint(env: Env, st: State, ctx: MintContext, data: Bytes, signature: Bytes)
    ensures MintStep(env, st, ctx, data, signature).Ok? <==>
              && BeforeLoop(env, st, ctx, data, signature).Ok? && Parse(data).Ok?
              && |ctx.remaining| == 3 * |Parse(data).value.elements|
              && MintAll(env, st, ctx.payer, Parse(data).value.elements, ctx.remaining).Ok?
    ensures MintStep(env, st, ctx, data, signature).Ok? ==>
              MintStep(env, st, ctx, data, signature)
              == MintAll(env, st, ctx.payer, Parse(data).value.elements, ctx.remaining)
  {
    hide HeaderChecks, Attested;
    if BeforeLoop(env, st, ctx, data, signature).Ok? {
      var rest, count := data[ATTESTATIONS_OFFSET..], CountAt(data);
      if MintStep(env, st, ctx, data, signature).Ok? {
        LoopParses(env, st, ctx.payer, rest, count, ctx.remaining);
      }
      if ParseElements(rest, count).Ok? {
        LoopMintsParsed(env, st, ctx.payer, rest, count, ctx.remaining);
      }
    }
  }

  // ---------- every parameter-mode mint is the byte-mode mint, and back ----------

  function ProjectElements(es: seq<Element>): (ps: seq<ElementParams>)
    ensures |ps| == |es|
  {
    if es == [] then []
    else [ElementParams(es[0].value, es[0].transferSpecHash, es[0].hookData)] + ProjectElements(es[1..])
  }

  /** What a caller of the parameter mode passes for a set: values, hashes, hook data, expiry and whether any caller may
      mint. */
  function Project(s: AttestationSet, signature: Bytes): MintParams {
    MintParams(s.header.destinationCaller == DEFAULT_PUBKEY, s.header.maxBlockHeight, ProjectElements(s.elements),
               signature)
  }

  lemma MintOneShape(env: Env, st: State, payer: Pubkey, e: Element, custody: Pubkey, recipient: Pubkey,
                     hashAccount: Pubkey)
    requires MintOne(env, st, payer, e, custody, recipient, hashAccount).Ok?
    ensures SameShape(st.tokens, MintOne(env, st, payer, e, custody, recipient, hashAccount).value.tokens)
    ensures recipient in st.tokens && recipient == e.destinationRecipient
            && st.tokens[recipient].mint == e.destinationToken
    ensures var st' := MintOne(env, st, payer, e, custody, recipient, hashAccount).value;
            st'.cfg == st.cfg && st'.slot == st.slot
  {
    hide ProcessHash, ValidateCustody;
    TransferMoves(st.tokens, custody, recipient, env.statePda, e.value);
  }

  lemma ShapeChains(t: TokenMap, t1: TokenMap, t2: TokenMap, k: Pubkey)
    requires SameShape(t, t1) && SameShape(t1, t2)
    ensures SameShape(t, t2) && (k in t <==> k in t1) && (k in t ==> t[k].mint == t1[k].mint)
  {
  }

  /** Elements that were minted are what the recipient accounts, as they were before any of them, rebuild. */
  lemma {:induction false} RebuildsMinted(env: Env, st: State, payer: Pubkey, es: seq<Element>, keys: seq<Pubkey>,
                                          tokens: TokenMap)
    requires |keys| == 3 * |es| && SameShape(tokens, st.tokens) && MintAll(env, st, payer, es, keys).Ok?
    ensures RebuildElements(tokens, ProjectElements(es), keys) == Ok(es)
    decreases |es|
  {
    hide MintOne, SameShape;
    if es == [] {
    } else {
      var st' := MintOne(env, st, payer, es[0], keys[0], keys[1], keys[2]).value;
      MintOneShape(env, st, payer, es[0], keys[0], keys[1], keys[2]);
      ShapeChains(tokens, st.tokens, st'.tokens, keys[1]);
      RebuildsMinted(env, st', payer, es[1..], keys[3..], tokens);
      assert ProjectElements(es)[1..] == ProjectElements(es[1..]);
      assert es == [es[0]] + es[1..];
    }
  }

  /** Completeness: whenever bytes can be minted, their projection rebuilds exactly those bytes, and the parameter mode
      succeeds with the same final state and events. */
  lemma ParamsModeIsComplete(env: Env, st: State, ctx: MintContext, data: Bytes, signature: Bytes)
    requires MintStep(env, st, ctx, data, signature).Ok?
    ensures Parse(data).Ok?
    ensures var p := Project(Parse(data).value, signature);
            && Rebuild(env, st, ctx, p).Ok? && Encode(Rebuild(env, st, ctx, p).value) == data
            && MintWithParamsStep(env, st, ctx, p) == MintStep(env, st, ctx, data, signature)
  {
    hide MintAll, MintLoop, Attested;
    MintIsParseThenMint(env, st, ctx, data, signature);
    EncodeParsed(data);
    var s := Parse(data).value;
    RebuildsMinted(env, st, ctx.payer, s.elements, ctx.remaining, st.tokens);
    var p := Project(s, signature);
    assert RebuiltHeader(env, st, ctx, p) == s.header;
    assert Rebuild(env, st, ctx, p) == Ok(s);
  }

  // ---------- what can still fail on rebuilt bytes ----------

  /** Each element names its recipient account and that account's mint. */
  ghost predicate Rebuilt(tokens: TokenMap, es: seq<Element>, keys: seq<Pubkey>)
    decreases |es|
  {
    && |keys| == 3 * |es|
    && (es != [] ==>
          && keys[1] in tokens && es[0].destinationRecipient == keys[1]
          && es[0].destinationToken == tokens[keys[1]].mint
          && Rebuilt(tokens, es[1..], keys[3..]))
  }

  lemma {:induction false} RebuiltElements(tokens: TokenMap, ps: seq<ElementParams>, keys: seq<Pubkey>)
    requires |keys| == 3 * |ps| && RebuildElements(tokens, ps, keys).Ok?
    requires forall p :: p in ps ==> |p.hookData| <= U32_MAX
    ensures var es := RebuildElements(tokens, ps, keys).value;
            && |es| == |ps| && Rebuilt(tokens, es, keys)
            && forall e :: e in es ==> |e.hookData| <= U32_MAX
    decreases |ps|
  {
    if ps == [] {
    } else {
      RebuiltElements(tokens, ps[1..], keys[3..]);
      var es := RebuildElements(tokens, ps, keys).value;
      assert es[1..] == RebuildElements(tokens, ps[1..], keys[3..]).value;
      assert ps[0] in ps;
    }
  }

  /** Soundness: on rebuilt bytes the parse and every header check but the expiry pass, so that only the signature, the
      expiry, the 32-bit account count and the elements themselves decide. */
  lemma ParamsModeOutcome(env: Env, st: State, ctx: MintContext, p: MintParams)
    requires !st.cfg.paused && 1 <= |p.elements| <= U32_MAX && Rebuild(env, st, ctx, p).Ok?
    requires forall e :: e in p.elements ==> |e.hookData| <= U32_MAX
    ensures var s := Rebuild(env, st, ctx, p).value;
            && |ctx.remaining| == 3 * |s.elements|
            && MintWithParamsStep(env, st, ctx, p)
               == if !Attested(env, st.cfg, Encode(s), p.signature) then Err(InvalidAttesterSignature)
                  else if p.maxBlockHeight < st.slot then Err(AttestationExpired)
                  else if |p.elements| * 3 > U32_MAX then Err(ArithmeticOverflow)
                  else MintAll(env, st, ctx.payer, s.elements, ctx.remaining)
  {
    hide MintAll, MintLoop, Attested, Encode, RebuildElements;
    var s := Rebuild(env, st, ctx, p).value;
    RebuiltElements(st.tokens, p.elements, ctx.remaining);
    ParseEncoded(s);
    var data := Encode(s);
    EncodeParsed(data);
    ParsedParts(data, s);
    LoopMintsParsed(env, st, ctx.payer, data[ATTESTATIONS_OFFSET..], |s.elements|, ctx.remaining);
  }

  lemma ParsedParts(data: Bytes, s: AttestationSet)
    requires Parse(data) == Ok(s)
    ensures Open(data).Ok? && HeaderAt(data) == s.header && CountAt(data) == |s.elements|
    ensures ParseElements(data[ATTESTATIONS_OFFSET..], |s.elements|) == Ok(s.elements)
  {
    EncodeParsedElements(data[ATTESTATIONS_OFFSET..], CountAt(data));
  }

  /** The failures left to an element whose recipient and token were rebuilt from its recipient account: its custody
      account, its hash account, its value and the balances. Its own recipient and token checks cannot fail. */
  predicate ElementFailure(e: Error) {
    || e == InvalidCustodyTokenAccount || e == TokenNotSupported
    || e == InvalidTransferSpecHashAccount || e == MissingSignature || e == TransferSpecHashAlreadyUsed
    || e == AccountAlreadyInUse || e == InsufficientLamports
    || e == InvalidAttestationValue || e == InsufficientFunds || e == TokenOverflow
  }

  /** Some element's custody account is for another mint than its recipient account. */
  ghost predicate CustodyOfOtherMint(tokens: TokenMap, keys: seq<Pubkey>)
    decreases |keys|
  {
    |keys| >= 3
    && ((keys[0] in tokens && keys[1] in tokens && tokens[keys[0]].mint != tokens[keys[1]].mint)
        || CustodyOfOtherMint(tokens, keys[3..]))
  }

  /** One such custody account makes the whole list fail. */
  lemma {:induction false} CustodyMintsAgree(env: Env, st: State, payer: Pubkey, es: seq<Element>, keys: seq<Pubkey>,
                                             tokens: TokenMap)
    requires |keys| == 3 * |es| && SameShape(tokens, st.tokens) && MintAll(env, st, payer, es, keys).Ok?
    ensures !CustodyOfOtherMint(tokens, keys)
    decreases |es|
  {
    if es != [] {
      hide MintOne;
      MintOneShape(env, st, payer, es[0], keys[0], keys[1], keys[2]);
      MintOneCustody(env, st, payer, es[0], keys[0], keys[1], keys[2]);
      var st1 := MintOne(env, st, payer, es[0], keys[0], keys[1], keys[2]).value;
      CustodyMintsAgree(env, st1, payer, es[1..], keys[3..], tokens);
    }
  }

  lemma MintOneCustody(env: Env, st: State, payer: Pubkey, e: Element, custody: Pubkey, recipient: Pubkey,
                       hashAccount: Pubkey)
    requires MintOne(env, st, payer, e, custody, recipient, hashAccount).Ok?
    ensures custody in st.tokens && st.tokens[custody].mint == e.destinationToken
  {
    hide ProcessHash, Transfer, CustodyOf;
  }

  /** What a caller can check before either mode: with a custody account of another mint than its recipient's, nothing
      is minted. */
  lemma OtherMintNeverMints(env: Env, st: State, ctx: MintContext, data: Bytes, signature: Bytes, p: MintParams)
    requires CustodyOfOtherMint(st.tokens, ctx.remaining)
    ensures MintStep(env, st, ctx, data, signature).Err? && MintWithParamsStep(env, st, ctx, p).Err?
  {
    hide MintStep, CustodyOfOtherMint, MintAll, Encode, Rebuild, Attested;
    BytesOfOtherMint(env, st, ctx, data, signature);
    if Rebuild(env, st, ctx, p).Ok? {
      BytesOfOtherMint(env, st, ctx, Encode(Rebuild(env, st, ctx, p).value), p.signature);
    }
  }

  lemma BytesOfOtherMint(env: Env, st: State, ctx: MintContext, data: Bytes, signature: Bytes)
    requires CustodyOfOtherMint(st.tokens, ctx.remaining)
    ensures MintStep(env, st, ctx, data, signature).Err?
  {
    hide MintStep, CustodyOfOtherMint, MintAll, BeforeLoop;
    if MintStep(env, st, ctx, data, signature).Ok? {
      MintIsParseThenMint(env, st, ctx, data, signature);
      CustodyMintsAgree(env, st, ctx.payer, Parse(data).value.elements, ctx.remaining, st.tokens);
    }
  }

  lemma ProcessHashFailure(env: Env, accounts: Accounts, payer: Pubkey, key: Pubkey, specHash: Bytes32,
                           discriminator: Bytes)
    ensures var r := ProcessHash(env, accounts, payer, key, specHash, discriminator);
            r.Err? ==> r.error in {InvalidTransferSpecHashAccount, MissingSignature, TransferSpecHashAlreadyUsed,
                                   AccountAlreadyInUse, InsufficientLamports}
  {
  }

  lemma TransferFailure(t: TokenMap, from: Pubkey, to: Pubkey, authority: Pubkey, amount: u64)
    requires from in t && to in t && t[from].mint == t[to].mint && t[from].owner == authority
    ensures var r := Transfer(t, from, to, authority, amount);
            r.Err? ==> r.error == InsufficientFunds || r.error == TokenOverflow
  {
  }

  lemma ValidateCustodyFailure(env: Env, cfg: Config, tokens: TokenMap, custody: Pubkey)
    requires TokenListOk(cfg.supportedTokens, cfg.bumps)
    ensures var r := ValidateCustody(env, cfg, tokens, custody);
            && (r.Err? ==> r.error == InvalidCustodyTokenAccount || r.error == TokenNotSupported)
            && (r.Ok? ==> custody in tokens && tokens[custody].owner == env.statePda && tokens[custody].mint == r.value)
  {
  }

  lemma MintOneFailure(env: Env, st: State, payer: Pubkey, e: Element, custody: Pubkey, recipient: Pubkey,
                       hashAccount: Pubkey)
    requires TokenListOk(st.cfg.supportedTokens, st.cfg.bumps)
    requires recipient in st.tokens && e.destinationRecipient == recipient
             && e.destinationToken == st.tokens[recipient].mint
    ensures var r := MintOne(env, st, payer, e, custody, recipient, hashAccount);
            r.Err? ==>
              || ElementFailure(r.error)
              || (r.error == DestinationTokenMismatch && custody in st.tokens
                  && st.tokens[custody].mint != st.tokens[recipient].mint)
  {
    hide Transfer, ProcessHash, ValidateCustody;
    ValidateCustodyFailure(env, st.cfg, st.tokens, custody);
    ProcessHashFailure(env, st.accounts, payer, hashAccount, e.transferSpecHash, USED_DISCRIMINATOR);
    var custodyMint := ValidateCustody(env, st.cfg, st.tokens, custody);
    if custodyMint.Ok? && custodyMint.value == e.destinationToken {
      TransferFailure(st.tokens, custody, recipient, env.statePda, e.value);
    }
  }

  lemma {:induction false} MintAllFailure(env: Env, st: State, payer: Pubkey, es: seq<Element>, keys: seq<Pubkey>,
                                          tokens: TokenMap)
    requires Rebuilt(tokens, es, keys) && SameShape(tokens, st.tokens)
             && TokenListOk(st.cfg.supportedTokens, st.cfg.bumps)
    ensures var r := MintAll(env, st, payer, es, keys);
            r.Err? ==>
              || ElementFailure(r.error)
              || (r.error == DestinationTokenMismatch && CustodyOfOtherMint(tokens, keys))
    decreases |es|
  {
    hide MintOne, ElementFailure;
    if es == [] {
    } else {
      MintOneFailure(env, st, payer, es[0], keys[0], keys[1], keys[2]);
      var one := MintOne(env, st, payer, es[0], keys[0], keys[1], keys[2]);
      if one.Ok? {
        MintOneShape(env, st, payer, es[0], keys[0], keys[1], keys[2]);
        MintAllFailure(env, one.value, payer, es[1..], keys[3..], tokens);
      }
    }
  }

  /** Soundness, error by error: past the reconstruction, a parameter-mode mint fails only by signature, expiry, an
      account count past 32 bits, or an element's custody, hash, value or balance. The count aborts exactly from
      1431655766 elements on. */
  lemma ParamsModeIsSound(env: Env, st: State, ctx: MintContext, p: MintParams)
    requires TokenListOk(st.cfg.supportedTokens, st.cfg.bumps)
    requires !st.cfg.paused && 1 <= |p.elements| <= U32_MAX && Rebuild(env, st, ctx, p).Ok?
    requires forall e :: e in p.elements ==> |e.hookData| <= U32_MAX
    ensures |ctx.remaining| == 3 * |p.elements|
    ensures var r := MintWithParamsStep(env, st, ctx, p);
            r.Err? ==>
              || r.error == InvalidAttesterSignature || r.error == AttestationExpired || r.error == ArithmeticOverflow
              || ElementFailure(r.error)
              || (r.error == DestinationTokenMismatch && CustodyOfOtherMint(st.tokens, ctx.remaining))
    ensures MintWithParamsStep(env, st, ctx, p) == Err(ArithmeticOverflow) <==>
              && Attested(env, st.cfg, Encode(Rebuild(env, st, ctx, p).value), p.signature)
              && p.maxBlockHeight >= st.slot
              && |p.elements| >= 1431655766
  {
    hide MintAll, MintWithParamsStep, Attested, Encode, RebuildElements, CustodyOfOtherMint;
    var s := Rebuild(env, st, ctx, p).value;
    ParamsModeOutcome(env, st, ctx, p);
    RebuiltElements(st.tokens, p.elements, ctx.remaining);
    MintAllFailure(env, st, ctx.payer, s.elements, ctx.remaining, st.tokens);
  }

  lemma MintOneNeverAborts(env: Env, st: State, payer: Pubkey, e: Element, custody: Pubkey, recipient: Pubkey,
                           hashAccount: Pubkey)
    ensures MintOne(env, st, payer, e, custody, recipient, hashAccount) != Err(ArithmeticOverflow)
  {
    hide Transfer, ProcessHash, ValidateCustody;
    ProcessHashFailure(env, st.accounts, payer, hashAccount, e.transferSpecHash, USED_DISCRIMINATOR);
    assert ValidateCustody(env, st.cfg, st.tokens, custody) != Err(ArithmeticOverflow) by {
      ValidateNeverAborts(env, st.cfg, st.tokens, custody);
    }
    TransferNeverAborts(st.tokens, custody, recipient, env.statePda, e.value);
  }

  lemma ValidateNeverAborts(env: Env, cfg: Config, tokens: TokenMap, custody: Pubkey)
    ensures ValidateCustody(env, cfg, tokens, custody) != Err(ArithmeticOverflow)
  {
  }

  lemma TransferNeverAborts(t: TokenMap, from: Pubkey, to: Pubkey, authority: Pubkey, amount: u64)
    ensures Transfer(t, from, to, authority, amount) != Err(ArithmeticOverflow)
  {
  }

  lemma {:induction false} LoopNeverAborts(env: Env, st: State, payer: Pubkey, rest: Bytes, count: nat,
                                           keys: seq<Pubkey>)
    requires |keys| == 3 * count
    ensures MintLoop(env, st, payer, rest, count, keys) != Err(ArithmeticOverflow)
    decreases count
  {
    hide MintOne, FirstElement;
    if count > 0 {
      var e := ReadElement(rest, count == 1);
      if e.Ok? {
        MintOneNeverAborts(env, st, payer, e.value, keys[0], keys[1], keys[2]);
        var one := MintOne(env, st, payer, e.value, keys[0], keys[1], keys[2]);
        if one.Ok? {
          LoopNeverAborts(env, one.value, payer, rest[ElementSize(rest)..], count - 1, keys[3..]);
        }
      }
    }
  }

  /** In the byte mode the 32-bit product aborts exactly on a signed header that passes every check and whose count
      field says 1431655766 or more, however short the bytes and the accounts are. */
  lemma MintAbortsIff(env: Env, st: State, ctx: MintContext, data: Bytes, signature: Bytes)
    ensures MintStep(env, st, ctx, data, signature) == Err(ArithmeticOverflow)
       <==> !st.cfg.paused && Attested(env, st.cfg, data, signature) && Open(data).Ok?
            && HeaderChecks(env, st, ctx, HeaderAt(data)).Ok? && CountAt(data) >= 1431655766
  {
    hide Attested, MintLoop;
    var count := BeforeLoop(env, st, ctx, data, signature);
    if count.Ok? {
      LoopNeverAborts(env, st, ctx.payer, data[ATTESTATIONS_OFFSET..], count.value, ctx.remaining);
    }
  }
}
