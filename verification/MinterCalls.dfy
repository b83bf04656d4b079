/** Which mints succeed: the exact condition, element by element, in terms of the state before the mint. */
module MinterCalls {
  import opened Base
  import opened Runtime
  import opened Tokens
  import opened UsedHashes
  import opened Attestation
  import opened Minter
  import opened MinterModes
  import opened MinterHistory

  // ---------- the three accounts of each element ----------

  function CustodyKey(keys: seq<Pubkey>, i: nat): Pubkey
    requires 3 * i + 2 < |keys|
  {
    keys[3 * i]
  }

  function RecipientKey(keys: seq<Pubkey>, i: nat): Pubkey
    requires 3 * i + 2 < |keys|
  {
    keys[3 * i + 1]
  }

  function HashKey(keys: seq<Pubkey>, i: nat): Pubkey
    requires 3 * i + 2 < |keys|
  {
    keys[3 * i + 2]
  }

  /** An element with its accounts: the custody account of its token, its recipient of the same mint, a positive value,
      and its own hash account, unused. */
  predicate AccountsFit(env: Env, st: State, payer: Pubkey, e: Element, custody: Pubkey, recipient: Pubkey,
                        hashAccount: Pubkey)
  {
    && CustodyOf(env, st.cfg, e.destinationToken) == Ok(custody)
    && custody in st.tokens && st.tokens[custody].mint == e.destinationToken && st.tokens[custody].owner == env.statePda
    && recipient in st.tokens && st.tokens[recipient].mint == e.destinationToken && recipient == e.destinationRecipient
    && e.value > 0
    && hashAccount == env.usedPda(e.transferSpecHash) && hashAccount != payer
    && Vacant(Get(st.accounts, hashAccount))
  }

  /** What account k holds once the elements have been minted. */
  function BalanceAfter(env: Env, st: State, es: seq<Element>, k: Pubkey): int {
    Amount(st.tokens, k) + Received(es, k) - Paid(env, st.cfg, es, k)
  }

  /** Element i fits, and what the ones before it leave in its custody account covers it. */
  predicate ElementMints(env: Env, st: State, payer: Pubkey, es: seq<Element>, keys: seq<Pubkey>, i: nat)
    requires |keys| == 3 * |es| && i < |es|
  {
    && AccountsFit(env, st, payer, es[i], CustodyKey(keys, i), RecipientKey(keys, i), HashKey(keys, i))
    && es[i].value <= BalanceAfter(env, st, es[..i], CustodyKey(keys, i))
  }

  predicate DistinctHashKeys(keys: seq<Pubkey>, n: nat)
    requires |keys| == 3 * n
  {
    forall i, j :: 0 <= i < j < n ==> HashKey(keys, i) != HashKey(keys, j)
  }

  /** What the payer adds to the hash accounts to make them rent exempt. */
  function TotalShortfall(env: Env, accounts: Accounts, keys: seq<Pubkey>): nat
    decreases |keys|
  {
    if |keys| < 3 then 0
    else Shortfall(Get(accounts, keys[2]), env.rent) + TotalShortfall(env, accounts, keys[3..])
  }

  /** Everything that makes a list mint. */
  predicate ListMints(env: Env, st: State, payer: Pubkey, es: seq<Element>, keys: seq<Pubkey>)
    requires |keys| == 3 * |es|
  {
    && (forall i :: 0 <= i < |es| ==> ElementMints(env, st, payer, es, keys, i))
    && DistinctHashKeys(keys, |es|)
    && CanPay(Get(st.accounts, payer), TotalShortfall(env, st.accounts, keys))
  }

  ghost predicate SupplyOk(tokens: TokenMap) {
    forall m :: Supply(tokens, m) <= U64_MAX
  }

  // ---------- one element ----------

  lemma HashProcessedIff(env: Env, accounts: Accounts, payer: Pubkey, key: Pubkey, specHash: Bytes32)
    ensures ProcessHash(env, accounts, payer, key, specHash, USED_DISCRIMINATOR).Ok?
       <==> key == env.usedPda(specHash) && key != payer && Vacant(Get(accounts, key))
            && CanPay(Get(accounts, payer), Shortfall(Get(accounts, key), env.rent))
  {
  }

  lemma ValidateCustodyIff(env: Env, cfg: Config, tokens: TokenMap, custody: Pubkey, mint: Pubkey)
    ensures ValidateCustody(env, cfg, tokens, custody) == Ok(mint)
       <==> custody in tokens && tokens[custody].mint == mint && tokens[custody].owner == env.statePda
            && CustodyOf(env, cfg, mint) == Ok(custody)
  {
    hide CustodyOf;
  }

  lemma MintOneIff(env: Env, st: State, payer: Pubkey, e: Element, custody: Pubkey, recipient: Pubkey,
                   hashAccount: Pubkey)
    requires SupplyOk(st.tokens)
    ensures MintOne(env, st, payer, e, custody, recipient, hashAccount).Ok?
       <==> AccountsFit(env, st, payer, e, custody, recipient, hashAccount) && e.value <= Amount(st.tokens, custody)
            && CanPay(Get(st.accounts, payer), Shortfall(Get(st.accounts, hashAccount), env.rent))
  {
    hide ProcessHash, ValidateCustody, CustodyOf, Supply, Vacant, CanPay, Shortfall, Get;
    HashProcessedIff(env, st.accounts, payer, hashAccount, e.transferSpecHash);
    ValidateCustodyIff(env, st.cfg, st.tokens, custody, e.destinationToken);
    TransferNeverOverflows(st.tokens, custody, recipient, env.statePda, e.value);
  }

  /** What processing one hash leaves of the accounts: its own is taken, the payer is poorer by the shortfall. */
  lemma HashProcessed(env: Env, accounts: Accounts, payer: Pubkey, key: Pubkey, specHash: Bytes32, k: Pubkey)
    requires ProcessHash(env, accounts, payer, key, specHash, USED_DISCRIMINATOR).Ok?
    ensures var accounts' := ProcessHash(env, accounts, payer, key, specHash, USED_DISCRIMINATOR).value;
            && !Vacant(Get(accounts', key))
            && (k != key && k != payer ==> Get(accounts', k) == Get(accounts, k))
            && Shortfall(Get(accounts, key), env.rent) <= Get(accounts, payer).lamports
            && Get(accounts', payer)
               == Get(accounts, payer).(lamports := Get(accounts, payer).lamports
                                                    - Shortfall(Get(accounts, key), env.rent))
  {
  }

  // ---------- the rest of the list, before and after the first element ----------

  lemma BalanceShift(env: Env, st: State, st1: State, es: seq<Element>, custody: Pubkey, k: Pubkey)
    requires es != [] && st1.cfg == st.cfg && CustodyOf(env, st.cfg, es[0].destinationToken) == Ok(custody)
    requires Amount(st1.tokens, k)
          == Amount(st.tokens, k) - (if k == custody then es[0].value else 0)
             + (if k == es[0].destinationRecipient then es[0].value else 0)
    ensures BalanceAfter(env, st, es, k) == BalanceAfter(env, st1, es[1..], k)
  {
    hide CustodyOf, Amount;
  }

  lemma AccountsFitShift(env: Env, st: State, st1: State, payer: Pubkey, e: Element, custody: Pubkey,
                         recipient: Pubkey, hashAccount: Pubkey)
    requires SameShape(st.tokens, st1.tokens) && st1.cfg == st.cfg
    requires hashAccount != payer ==> Get(st1.accounts, hashAccount) == Get(st.accounts, hashAccount)
    ensures AccountsFit(env, st, payer, e, custody, recipient, hashAccount)
       <==> AccountsFit(env, st1, payer, e, custody, recipient, hashAccount)
  {
    hide CustodyOf, Vacant, Get;
  }

  /** Element i of a list after its first one has been minted: it fits exactly as before, unless it repeats the first
      one's hash account. */
  lemma ElementShift(env: Env, st: State, payer: Pubkey, es: seq<Element>, keys: seq<Pubkey>, i: nat)
    requires |keys| == 3 * |es| && 0 < i < |es|
    requires MintOne(env, st, payer, es[0], keys[0], keys[1], keys[2]).Ok?
    ensures var st1 := MintOne(env, st, payer, es[0], keys[0], keys[1], keys[2]).value;
            ElementMints(env, st1, payer, es[1..], keys[3..], i - 1)
            <==> ElementMints(env, st, payer, es, keys, i) && HashKey(keys, i) != keys[2]
  {
    hide MintOne, CustodyOf, ProcessHash, Vacant, Get, Amount, Supply, AccountsFit, BalanceAfter;
    var st1 := MintOne(env, st, payer, es[0], keys[0], keys[1], keys[2]).value;
    var k, h := CustodyKey(keys, i), HashKey(keys, i);
    MintOneMoves(env, st, payer, es[0], keys[0], keys[1], keys[2], DEFAULT_PUBKEY);
    MintOneShape(env, st, payer, es[0], keys[0], keys[1], keys[2]);
    HashProcessed(env, st.accounts, payer, keys[2], es[0].transferSpecHash, h);
    assert es[..i][1..] == es[1..][..i - 1] && es[..i][0] == es[0];
    BalanceShift(env, st, st1, es[..i], keys[0], k);
    if h == keys[2] {
      NotVacantNotFit(env, st1, payer, es[i], k, RecipientKey(keys, i), h);
    } else {
      AccountsFitShift(env, st, st1, payer, es[i], k, RecipientKey(keys, i), h);
    }
  }

  lemma NotVacantNotFit(env: Env, st: State, payer: Pubkey, e: Element, custody: Pubkey, recipient: Pubkey,
                        hashAccount: Pubkey)
    requires !Vacant(Get(st.accounts, hashAccount))
    ensures !AccountsFit(env, st, payer, e, custody, recipient, hashAccount)
  {
  }

  lemma {:induction false} ShortfallShift(env: Env, accounts: Accounts, accounts': Accounts, keys: seq<Pubkey>, n: nat)
    requires |keys| == 3 * n
    requires forall i :: 0 <= i < n ==> Get(accounts', HashKey(keys, i)) == Get(accounts, HashKey(keys, i))
    ensures TotalShortfall(env, accounts', keys) == TotalShortfall(env, accounts, keys)
    decreases n
  {
    hide Get, Shortfall;
    if n > 0 {
      assert HashKey(keys, 0) == keys[2];
      forall i | 0 <= i < n - 1
        ensures Get(accounts', HashKey(keys[3..], i)) == Get(accounts, HashKey(keys[3..], i))
      {
        assert HashKey(keys[3..], i) == HashKey(keys, i + 1);
      }
      ShortfallShift(env, accounts, accounts', keys[3..], n - 1);
    }
  }

  lemma PayShift(payer: Account, first: nat, rest: nat)
    requires first <= payer.lamports
    ensures CanPay(payer, first + rest)
       <==> CanPay(payer, first) && CanPay(payer.(lamports := payer.lamports - first), rest)
  {
  }

  lemma DistinctShift(keys: seq<Pubkey>, n: nat)
    requires |keys| == 3 * n && n > 0
    ensures DistinctHashKeys(keys, n)
       <==> DistinctHashKeys(keys[3..], n - 1) && forall i :: 0 < i < n ==> HashKey(keys, i) != HashKey(keys, 0)
  {
    assert forall i :: 0 < i < n ==> HashKey(keys, i) == HashKey(keys[3..], i - 1);
    if DistinctHashKeys(keys, n) {
      forall i, j | 0 <= i < j < n - 1
        ensures HashKey(keys[3..], i) != HashKey(keys[3..], j)
      {
        assert HashKey(keys, i + 1) != HashKey(keys, j + 1);
      }
    }
  }

  /** The payer's share: the first shortfall, then the others from what is left. */
  lemma PaymentShift(env: Env, st: State, payer: Pubkey, es: seq<Element>, keys: seq<Pubkey>)
    requires |keys| == 3 * |es| && es != []
    requires MintOne(env, st, payer, es[0], keys[0], keys[1], keys[2]).Ok?
    requires forall i :: 0 < i < |es| ==> HashKey(keys, i) != keys[2] && HashKey(keys, i) != payer
    ensures var st1 := MintOne(env, st, payer, es[0], keys[0], keys[1], keys[2]).value;
            CanPay(Get(st.accounts, payer), TotalShortfall(env, st.accounts, keys))
            <==> CanPay(Get(st.accounts, payer), Shortfall(Get(st.accounts, keys[2]), env.rent))
                 && CanPay(Get(st1.accounts, payer), TotalShortfall(env, st1.accounts, keys[3..]))
  {
    hide MintOne, ProcessHash, Supply, Amount, CustodyOf, Vacant, CanPay, Shortfall, Get;
    var st1 := MintOne(env, st, payer, es[0], keys[0], keys[1], keys[2]).value;
    MintOneMoves(env, st, payer, es[0], keys[0], keys[1], keys[2], DEFAULT_PUBKEY);
    HashProcessed(env, st.accounts, payer, keys[2], es[0].transferSpecHash, payer);
    forall i | 0 <= i < |es| - 1
      ensures Get(st1.accounts, HashKey(keys[3..], i)) == Get(st.accounts, HashKey(keys[3..], i))
    {
      assert HashKey(keys[3..], i) == HashKey(keys, i + 1);
      HashProcessed(env, st.accounts, payer, keys[2], es[0].transferSpecHash, HashKey(keys, i + 1));
    }
    ShortfallShift(env, st.accounts, st1.accounts, keys[3..], |es| - 1);
    PayShift(Get(st.accounts, payer), Shortfall(Get(st.accounts, keys[2]), env.rent),
             TotalShortfall(env, st.accounts, keys[3..]));
  }

  /** A hash account that fits is not the payer. */
  lemma FitIsNotPayer(env: Env, st: State, payer: Pubkey, es: seq<Element>, keys: seq<Pubkey>, i: nat)
    requires |keys| == 3 * |es| && i < |es| && ElementMints(env, st, payer, es, keys, i)
    ensures HashKey(keys, i) != payer
  {
  }

  /** Once its first element has been minted, the rest of a list mints exactly when the whole list did. */
  lemma ListShift(env: Env, st: State, payer: Pubkey, es: seq<Element>, keys: seq<Pubkey>)
    requires |keys| == 3 * |es| && es != []
    requires MintOne(env, st, payer, es[0], keys[0], keys[1], keys[2]).Ok?
    requires ElementMints(env, st, payer, es, keys, 0)
    requires CanPay(Get(st.accounts, payer), Shortfall(Get(st.accounts, keys[2]), env.rent))
    ensures var st1 := MintOne(env, st, payer, es[0], keys[0], keys[1], keys[2]).value;
            ListMints(env, st1, payer, es[1..], keys[3..]) <==> ListMints(env, st, payer, es, keys)
  {
    hide MintOne, ElementMints, DistinctHashKeys, CanPay, Shortfall, Get, TotalShortfall;
    var st1 := MintOne(env, st, payer, es[0], keys[0], keys[1], keys[2]).value;
    DistinctShift(keys, |es|);
    forall i | 0 < i < |es|
      ensures ElementMints(env, st1, payer, es[1..], keys[3..], i - 1)
         <==> ElementMints(env, st, payer, es, keys, i) && HashKey(keys, i) != keys[2]
      ensures ElementMints(env, st, payer, es, keys, i) ==> HashKey(keys, i) != payer
    {
      ElementShift(env, st, payer, es, keys, i);
      if ElementMints(env, st, payer, es, keys, i) {
        FitIsNotPayer(env, st, payer, es, keys, i);
      }
    }
    if ListMints(env, st1, payer, es[1..], keys[3..]) {
      forall i | 0 < i < |es|
        ensures ElementMints(env, st, payer, es, keys, i) && HashKey(keys, i) != keys[2]
      {
        assert ElementMints(env, st1, payer, es[1..], keys[3..], i - 1);
      }
      PaymentShift(env, st, payer, es, keys);
    }
    if ListMints(env, st, payer, es, keys) {
      PaymentShift(env, st, payer, es, keys);
      forall i | 0 <= i < |es| - 1
        ensures ElementMints(env, st1, payer, es[1..], keys[3..], i)
      {
        assert ElementMints(env, st, payer, es, keys, i + 1);
      }
    }
  }

  /** A list mints exactly when, in the state before it, every element fits its accounts and is covered by what the ones
      before it leave in custody, the hash accounts are distinct, and the payer covers their rent. */
  lemma {:induction false} MintAllIff(env: Env, st: State, payer: Pubkey, es: seq<Element>, keys: seq<Pubkey>)
    requires |keys| == 3 * |es| && SupplyOk(st.tokens)
    ensures MintAll(env, st, payer, es, keys).Ok? <==> ListMints(env, st, payer, es, keys)
    decreases |es|
  {
    hide MintOne, ListMints, SupplyOk;
    if es == [] {
      assert ListMints(env, st, payer, es, keys) by {
        EmptyMints(env, st, payer, keys);
      }
    } else {
      FirstIff(env, st, payer, es, keys);
      var one := MintOne(env, st, payer, es[0], keys[0], keys[1], keys[2]);
      if one.Ok? {
        SupplyStays(env, st, payer, es[0], keys[0], keys[1], keys[2]);
        ListShift(env, st, payer, es, keys);
        MintAllIff(env, one.value, payer, es[1..], keys[3..]);
      }
    }
  }

  lemma EmptyMints(env: Env, st: State, payer: Pubkey, keys: seq<Pubkey>)
    requires keys == []
    ensures ListMints(env, st, payer, [], keys)
  {
  }

  lemma FirstIff(env: Env, st: State, payer: Pubkey, es: seq<Element>, keys: seq<Pubkey>)
    requires |keys| == 3 * |es| && es != [] && SupplyOk(st.tokens)
    ensures MintOne(env, st, payer, es[0], keys[0], keys[1], keys[2]).Ok?
       <==> ElementMints(env, st, payer, es, keys, 0)
            && CanPay(Get(st.accounts, payer), Shortfall(Get(st.accounts, keys[2]), env.rent))
    ensures ListMints(env, st, payer, es, keys) ==> MintOne(env, st, payer, es[0], keys[0], keys[1], keys[2]).Ok?
  {
    hide MintOne, AccountsFit, SupplyOk, Get, Shortfall;
    MintOneIff(env, st, payer, es[0], keys[0], keys[1], keys[2]);
    assert es[..0] == [];
  }

  lemma SupplyStays(env: Env, st: State, payer: Pubkey, e: Element, custody: Pubkey, recipient: Pubkey,
                    hashAccount: Pubkey)
    requires SupplyOk(st.tokens) && MintOne(env, st, payer, e, custody, recipient, hashAccount).Ok?
    ensures SupplyOk(MintOne(env, st, payer, e, custody, recipient, hashAccount).value.tokens)
  {
    hide MintOne, Supply, Amount, CustodyOf, ProcessHash;
    forall m
      ensures Supply(MintOne(env, st, payer, e, custody, recipient, hashAccount).value.tokens, m) <= U64_MAX
    {
      MintOneMoves(env, st, payer, e, custody, recipient, hashAccount, m);
    }
  }

  // ---------- the instruction ----------

  predicate HeaderAccepted(env: Env, st: State, ctx: MintContext, h: Header) {
    && h.version == st.cfg.version && h.maxBlockHeight >= st.slot && h.destinationDomain == st.cfg.localDomain
    && h.destinationContract == env.programId
    && (h.destinationCaller == DEFAULT_PUBKEY || h.destinationCaller == ctx.destinationCaller)
  }

  /** Everything that makes the bytes of a set mint. */
  ghost predicate SetMints(env: Env, st: State, ctx: MintContext, s: AttestationSet) {
    && Encodable(s) && HeaderAccepted(env, st, ctx, s.header)
    && |s.elements| < 1431655766 && |ctx.remaining| == 3 * |s.elements|
    && ListMints(env, st, ctx.payer, s.elements, ctx.remaining)
  }

  /** Attested means covered by the signature of an enabled attester. */
  lemma AttestedIff(env: Env, cfg: Config, data: Bytes, signature: Bytes)
    ensures Attested(env, cfg, data, signature) <==> CoveredByOneOf(env, data, signature, cfg.attesters)
  {
    hide RecoveredSigner, CoveredByOneOf;
    RecoveredEnabledIff(env, data, signature, cfg.attesters);
  }

  /** A mint succeeds exactly when the program is not paused and the bytes are the attested encoding of a set whose
      header fits and whose elements mint. */
  lemma MintSucceedsIff(env: Env, st: State, ctx: MintContext, data: Bytes, signature: Bytes)
    requires SupplyOk(st.tokens)
    ensures MintStep(env, st, ctx, data, signature).Ok?
       <==> !st.cfg.paused && CoveredByOneOf(env, data, signature, st.cfg.attesters)
            && exists s :: Encode(s) == data && SetMints(env, st, ctx, s)
  {
    hide MintStep, MintAll, ListMints, Attested, SupplyOk, Encode, Encodable, ParseElements, CoveredByOneOf;
    AttestedIff(env, st.cfg, data, signature);
    MintIsParseThenMint(env, st, ctx, data, signature);
    if Parse(data).Ok? {
      var s := Parse(data).value;
      EncodeParsed(data);
      ParsedParts(data, s);
      if |ctx.remaining| == 3 * |s.elements| {
        MintAllIff(env, st, ctx.payer, s.elements, ctx.remaining);
      }
      if MintStep(env, st, ctx, data, signature).Ok? {
        assert SetMints(env, st, ctx, s);
      }
    }
    if s :| Encode(s) == data && SetMints(env, st, ctx, s) {
      ParseEncoded(s);
    }
  }

  /** A parameter-mode mint succeeds exactly when the program is not paused and the set rebuilt from the parameters and
      the recipient accounts is covered by an attester's signature, not expired, small enough for the product, and
      mints. */
  lemma ParamsMintSucceedsIff(env: Env, st: State, ctx: MintContext, p: MintParams)
    requires SupplyOk(st.tokens) && |p.elements| <= U32_MAX && forall e :: e in p.elements ==> |e.hookData| <= U32_MAX
    ensures MintWithParamsStep(env, st, ctx, p).Ok?
       <==> !st.cfg.paused && p.elements != [] && Rebuild(env, st, ctx, p).Ok?
            && var s := Rebuild(env, st, ctx, p).value;
               && CoveredByOneOf(env, Encode(s), p.signature, st.cfg.attesters) && p.maxBlockHeight >= st.slot
               && |p.elements| < 1431655766 && |ctx.remaining| == 3 * |s.elements|
               && ListMints(env, st, ctx.payer, s.elements, ctx.remaining)
  {
    hide MintStep, MintAll, ListMints, Attested, SupplyOk, Encode, CoveredByOneOf, RebuildElements;
    if !st.cfg.paused && p.elements != [] && Rebuild(env, st, ctx, p).Ok? {
      var s := Rebuild(env, st, ctx, p).value;
      AttestedIff(env, st.cfg, Encode(s), p.signature);
      RebuiltElements(st.tokens, p.elements, ctx.remaining);
      ParamsModeOutcome(env, st, ctx, p);
      MintAllIff(env, st, ctx.payer, s.elements, ctx.remaining);
    }
  }
}
