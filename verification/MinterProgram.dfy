/** The minter program in the form of its source: the mint loop over the attestation cursor, the reconstruction of the
    signed bytes, and the handlers around them; each is proved against the step function of Minter.
    A failing handler may leave partial effects behind; `Execute` is the runtime's rollback around it. */
module MinterProgram {
  import opened Base
  import opened Runtime
  import opened Tokens
  import opened UsedHashes
  import opened ChainCalls
  import opened Registry
  import opened Attestation
  import opened Minter

  /** The program's state account. */
  class GatewayMinter {
    var owner: Pubkey
    var pendingOwner: Pubkey
    var pauser: Pubkey
    var tokenController: Pubkey
    var paused: bool
    var enabledAttesters: seq<Pubkey>
    var localDomain: u32
    var version: u32
    var supportedTokens: seq<Pubkey>
    var custodyTokenAccountBumps: seq<byte>

    constructor (c: Config)
      ensures Value() == c
    {
      owner, pendingOwner, pauser, tokenController := c.owner, c.pendingOwner, c.pauser, c.tokenController;
      paused, enabledAttesters := c.paused, c.attesters;
      localDomain, version, supportedTokens, custodyTokenAccountBumps :=
        c.localDomain, c.version, c.supportedTokens, c.bumps;
    }

    function Value(): Config
      reads this
    {
      Config(owner, pendingOwner, pauser, tokenController, paused, enabledAttesters, localDomain, version,
             supportedTokens, custodyTokenAccountBumps)
    }

    method Restore(c: Config)
      modifies this
      ensures Value() == c
    {
      owner, pendingOwner, pauser, tokenController := c.owner, c.pendingOwner, c.pauser, c.tokenController;
      paused, enabledAttesters := c.paused, c.attesters;
      localDomain, version, supportedTokens, custodyTokenAccountBumps :=
        c.localDomain, c.version, c.supportedTokens, c.bumps;
    }

    method AddToken(tokenMint: Pubkey, bump: byte) returns (r: Result<()>)
      modifies this`supportedTokens, this`custodyTokenAccountBumps
      ensures match Registry.AddToken(old(supportedTokens), old(custodyTokenAccountBumps), tokenMint, bump)
              case Ok(lists) => r == Ok(()) && supportedTokens == lists.0 && custodyTokenAccountBumps == lists.1
              case Err(e) => r == Err(e) && unchanged(this)
    {
      if tokenMint in supportedTokens {
        return Ok(());
      }
      if |supportedTokens| >= MAX_SUPPORTED_TOKENS {
        return Err(MaxTokensSupported);
      }
      supportedTokens := supportedTokens + [tokenMint];
      custodyTokenAccountBumps := custodyTokenAccountBumps + [bump];
      return Ok(());
    }

    method AddAttester(attester: Pubkey) returns (r: Result<()>)
      modifies this`enabledAttesters
      ensures match AddSigner(old(enabledAttesters), attester, AttesterLimitExceeded)
              case Ok(s) => r == Ok(()) && enabledAttesters == s
              case Err(e) => r == Err(e) && enabledAttesters == old(enabledAttesters)
    {
      if attester in enabledAttesters {
        return Ok(());
      }
      if |enabledAttesters| >= MAX_SIGNERS {
        return Err(AttesterLimitExceeded);
      }
      enabledAttesters := enabledAttesters + [attester];
      return Ok(());
    }

    method ChangeRole(c: RoleChange) returns (r: Result<()>)
      modifies this`owner, this`pendingOwner, this`pauser, this`tokenController
      ensures match RoleEffect(old(Value()), c)
              case Ok(cfg) => r == Ok(()) && Value() == cfg
              case Err(e) => r == Err(e)
    {
      match c {
        case SetPauser(newPauser) =>
          var _ :- Require(newPauser != DEFAULT_PUBKEY, InvalidPauser);
          pauser := newPauser;
        case SetTokenController(newController) =>
          var _ :- Require(newController != DEFAULT_PUBKEY, InvalidTokenController);
          tokenController := newController;
        case TransferOwnership(newOwner) => pendingOwner := newOwner;
        case AcceptOwnership =>
          owner := pendingOwner;
          pendingOwner := DEFAULT_PUBKEY;
      }
      return Ok(());
    }

    method RemoveAttester(attester: Pubkey)
      modifies this`enabledAttesters
      ensures enabledAttesters == RemoveSigner(old(enabledAttesters), attester)
    {
      var index := Position(enabledAttesters, attester);
      if index.None? {
        return;
      }
      enabledAttesters := enabledAttesters[..index.value] + enabledAttesters[index.value + 1..];
    }
  }

  /** Whether a handler's outcome and the state it left are those of a step. */
  ghost predicate Matches(expected: Result<State>, r: Result<()>, st: State) {
    if expected.Ok? then r == Ok(()) && st == expected.value else r == Err(expected.error)
  }

  /** What is left of a mint whose cursor stands on element e: that element, then the unread ones. */
  ghost function Pending(env: Env, st: State, payer: Pubkey, e: Element, unread: Bytes, count: nat,
                         keys: seq<Pubkey>): Result<State>
    requires |keys| == 3 * (count + 1)
  {
    var next :- MintOne(env, st, payer, e, keys[0], keys[1], keys[2]);
    MintLoop(env, next, payer, unread, count, keys[3..])
  }

  /** Reading the next element turns the rest of the loop into that element and what follows it. */
  lemma LoopReads(env: Env, st: State, payer: Pubkey, unread: Bytes, count: nat, keys: seq<Pubkey>)
    requires |keys| == 3 * count && count > 0
    ensures MintLoop(env, st, payer, unread, count, keys)
         == match ReadElement(unread, count == 1)
            case Err(e) => Err(e)
            case Ok(e) => Pending(env, st, payer, e, unread[ElementSize(unread)..], count - 1, keys)
  {
    hide MintOne, FirstElement;
  }

  /** Elements already rebuilt, in front of what is still to be rebuilt. */
  function Prepend(done: seq<Element>, r: Result<seq<Element>>): Result<seq<Element>> {
    match r
    case Err(e) => Err(e)
    case Ok(es) => Ok(done + es)
  }

  lemma PrependNone(r: Result<seq<Element>>)
    ensures Prepend([], r) == r
  {
    if r.Ok? {
      assert [] + r.value == r.value;
    }
  }

  lemma PrependEmpty(done: seq<Element>)
    ensures Prepend(done, Ok([])) == Ok(done)
  {
    assert done + [] == done;
  }

  /** One more element rebuilt. */
  lemma RebuildOne(tokens: TokenMap, ps: seq<ElementParams>, keys: seq<Pubkey>, done: seq<Element>)
    requires ps != [] && |keys| == 3 * |ps|
    ensures Prepend(done, RebuildElements(tokens, ps, keys))
         == if keys[1] !in tokens then Err(InvalidDestinationTokenAccount)
            else Prepend(done + [Element(tokens[keys[1]].mint, keys[1], ps[0].value, ps[0].transferSpecHash,
                                         ps[0].hookData)],
                         RebuildElements(tokens, ps[1..], keys[3..]))
  {
    if keys[1] in tokens {
      var rest := RebuildElements(tokens, ps[1..], keys[3..]);
      var e := Element(tokens[keys[1]].mint, keys[1], ps[0].value, ps[0].transferSpecHash, ps[0].hookData);
      if rest.Ok? {
        assert done + ([e] + rest.value) == done + [e] + rest.value;
      }
    }
  }

  /** Done with the element under the cursor, the loop goes on with the unread ones. */
  lemma PendingStep(env: Env, st: State, payer: Pubkey, e: Element, unread: Bytes, left: nat, keys: seq<Pubkey>,
                    at: nat)
    requires at + 3 * (left + 1) == |keys|
    ensures var done := MintOne(env, st, payer, e, keys[at], keys[at + 1], keys[at + 2]);
            Pending(env, st, payer, e, unread, left, keys[at..])
            == if done.Err? then Err(done.error) else MintLoop(env, done.value, payer, unread, left, keys[at + 3..])
  {
    hide MintOne, MintLoop;
    assert keys[at..][3..] == keys[at + 3..];
  }

  /** With no element left the loop changes nothing. */
  lemma LoopEnds(env: Env, st: State, payer: Pubkey, unread: Bytes, keys: seq<Pubkey>)
    requires keys == []
    ensures MintLoop(env, st, payer, unread, 0, keys) == Ok(st)
  {
  }

  /** The program with the chain it runs on. */
  class Program {
    const env: Env
    const minter: GatewayMinter
    const chain: Chain
    var slot: u64
    var log: seq<Event>

    constructor (env: Env, st: State)
      ensures this.env == env && State() == st && fresh(minter) && fresh(chain)
    {
      this.env := env;
      minter := new GatewayMinter(st.cfg);
      chain := new Chain(st.tokens, st.accounts);
      slot, log := st.slot, st.log;
    }

    function State(): Minter.State
      reads this, minter, chain
    {
      Minter.State(minter.Value(), chain.tokens, chain.accounts, slot, log)
    }

    /** The body of the mint loop, on the element under the cursor. */
    method MintElement(attestation: MintAttestation, payer: Pubkey, custody: Pubkey, recipient: Pubkey,
                       hashAccount: Pubkey)
      returns (r: Result<()>)
      requires attestation.Valid() && attestation.index > 0
      modifies this`log, chain
      ensures Matches(MintOne(env, old(State()), payer, attestation.Current(), custody, recipient, hashAccount), r,
                      State())
    {
      hide Transfer, ProcessHash, CustodyOf, FirstElement;
      var custodyMint :- ValidateCustody(env, minter.Value(), chain.tokens, custody);
      var _ :- Require(recipient in chain.tokens, InvalidDestinationTokenAccount);
      var recipientMint := chain.tokens[recipient].mint;
      var specHash := attestation.TransferSpecHash().value;
      var _ :- chain.ProcessUsedTransferSpecHash(env, payer, hashAccount, specHash, USED_DISCRIMINATOR);
      var destinationToken := attestation.DestinationToken().value;
      var _ :- Require(custodyMint == destinationToken, DestinationTokenMismatch);
      var _ :- Require(recipientMint == destinationToken, DestinationTokenMismatch);
      var destinationRecipient := attestation.DestinationRecipient().value;
      var _ :- Require(recipient == destinationRecipient, DestinationRecipientMismatch);
      var value := attestation.Value().value;
      var _ :- Require(value > 0, InvalidAttestationValue);
      var _ :- chain.TransferTokens(custody, recipient, env.statePda, value);
      log := log + [AttestationUsed(destinationToken, destinationRecipient, specHash, value)];
      return Ok(());
    }

    /** What is left of the mint before a test of the loop's condition: the unread elements. */
    ghost function Ahead(attestation: MintAttestation, payer: Pubkey, keys: seq<Pubkey>,
                         accountIndex: nat): Result<State>
      requires attestation.Valid() && accountIndex == 3 * attestation.index && |keys| == 3 * attestation.numElements
      reads this, minter, chain, attestation
    {
      MintLoop(env, State(), payer, attestation.Unread(), attestation.numElements - attestation.index,
               keys[accountIndex..])
    }

    lemma AheadAtStart(attestation: MintAttestation, payer: Pubkey, keys: seq<Pubkey>)
      requires attestation.Valid() && attestation.index == 0 && |keys| == 3 * attestation.numElements
      ensures Ahead(attestation, payer, keys, 0)
           == MintLoop(env, State(), payer, attestation.Unread(), attestation.numElements, keys)
    {
      assert keys[0..] == keys;
    }

    /** What is left of it at the head of the loop's body: the element under the cursor, then the unread ones. */
    ghost function Here(attestation: MintAttestation, payer: Pubkey, keys: seq<Pubkey>,
                        accountIndex: nat): Result<State>
      requires attestation.Valid() && attestation.index > 0
      requires accountIndex == 3 * (attestation.index - 1) && |keys| == 3 * attestation.numElements
      reads this, minter, chain, attestation
    {
      Pending(env, State(), payer, attestation.Current(), attestation.Unread(),
              attestation.numElements - attestation.index,
              keys[accountIndex..])
    }

    /** The loop's condition: moves the cursor. */
    method NextElement(attestation: MintAttestation, payer: Pubkey, keys: seq<Pubkey>, accountIndex: nat)
      returns (r: Result<bool>)
      requires attestation.Valid() && accountIndex == 3 * attestation.index && |keys| == 3 * attestation.numElements
      modifies attestation
      ensures r.Err? ==> old(Ahead(attestation, payer, keys, accountIndex)) == Err(r.error)
      ensures r.Ok? ==>
                && attestation.Valid()
                && attestation.index <= attestation.numElements == old(attestation.numElements)
      ensures r == Ok(false) ==> attestation.index == old(attestation.index) == attestation.numElements
                                 && old(Ahead(attestation, payer, keys, accountIndex)) == Ok(State())
      ensures r == Ok(true) ==> attestation.index == old(attestation.index) + 1
                                && old(Ahead(attestation, payer, keys, accountIndex))
                                   == Here(attestation, payer, keys, accountIndex)
    {
      hide MintOne, ReadElement, MintLoop, Pending, ElementSize, FirstElement, GatewayMinter.Value, Program.State;
      ghost var left := attestation.numElements - attestation.index;
      if left > 0 {
        LoopReads(env, State(), payer, attestation.Unread(), left, keys[accountIndex..]);
      } else {
        LoopEnds(env, State(), payer, attestation.Unread(), keys[accountIndex..]);
      }
      r := attestation.Next();
    }

    /** The loop's body. */
    method MintCurrent(attestation: MintAttestation, payer: Pubkey, keys: seq<Pubkey>, accountIndex: nat)
      returns (r: Result<()>)
      requires attestation.Valid() && attestation.index > 0
      requires accountIndex == 3 * (attestation.index - 1) && |keys| == 3 * attestation.numElements
      modifies this`log, chain
      ensures r.Err? ==> old(Here(attestation, payer, keys, accountIndex)) == Err(r.error)
      ensures r.Ok? ==>
                old(Here(attestation, payer, keys, accountIndex)) == Ahead(attestation, payer, keys, accountIndex + 3)
    {
      hide MintOne, MintLoop, Pending, FirstElement, ElementSize, GatewayMinter.Value, Program.State;
      ghost var left := attestation.numElements - attestation.index;
      PendingStep(env, State(), payer, attestation.Current(), attestation.Unread(), left, keys, accountIndex);
      r := MintElement(attestation, payer, keys[accountIndex], keys[accountIndex + 1], keys[accountIndex + 2]);
    }

    /** The mint loop: the account index is always three times the elements done, and the loop ends with every
        account used. */
    method MintElements(attestation: MintAttestation, payer: Pubkey, keys: seq<Pubkey>) returns (r: Result<()>)
      requires attestation.Valid() && attestation.index == 0 && |keys| == 3 * attestation.numElements
      modifies this`log, chain, attestation
      ensures Matches(MintLoop(env, old(State()), payer, old(attestation.Unread()), old(attestation.numElements),
                               keys), r, State())
    {
      hide MintLoop, Program.Ahead, Program.Here, MintAttestation.Valid, MintAttestation.Unread, GatewayMinter.Value,
           Program.State;
      AheadAtStart(attestation, payer, keys);
      ghost var count, expected := attestation.numElements, Ahead(attestation, payer, keys, 0);
      var accountIndex := 0;
      var more :- NextElement(attestation, payer, keys, accountIndex);
      while more
        invariant attestation.Valid() && attestation.index <= attestation.numElements == count
        invariant !more ==> accountIndex == |keys| && expected == Ok(State())
        invariant more ==> attestation.index > 0 && accountIndex == 3 * (attestation.index - 1)
        invariant more ==> expected == Here(attestation, payer, keys, accountIndex)
        decreases count - attestation.index, more
      {
        var _ :- MintCurrent(attestation, payer, keys, accountIndex);
        accountIndex := accountIndex + 3;
        more :- NextElement(attestation, payer, keys, accountIndex);
      }
      // the closing check on the number of accounts can never fire
      assert accountIndex == |keys|;
      return Ok(());
    }

    /** The checks on the header. No read of it can fail once the cursor is open: taking `value` is the proof. */
    method CheckHeader(attestation: MintAttestation, ctx: MintContext) returns (r: Result<()>)
      requires attestation.Valid()
      ensures r == HeaderChecks(env, State(), ctx, HeaderAt(attestation.data))
    {
      hide HeaderAt;
      var _ :- Require(attestation.Version().value == minter.version, VersionMismatch);
      var _ :- Require(attestation.MaxBlockHeight().value >= slot, AttestationExpired);
      var attestationDestinationCaller := attestation.DestinationCaller().value;
      if attestationDestinationCaller != DEFAULT_PUBKEY {
        var _ :- Require(attestationDestinationCaller == ctx.destinationCaller, DestinationCallerMismatch);
      }
      var _ :- Require(attestation.DestinationDomain().value == minter.localDomain, DestinationDomainMismatch);
      var _ :- Require(attestation.DestinationContract().value == env.programId, DestinationContractMismatch);
      return Ok(());
    }

    /** `gateway_mint`. */
    method GatewayMintHandler(ctx: MintContext, data: Bytes, signature: Bytes) returns (r: Result<()>)
      requires |data| <= ISIZE_MAX
      modifies this`log, chain
      ensures Matches(MintStep(env, old(State()), ctx, data, signature), r, State())
    {
      hide MintLoop, Attested, HeaderChecks, HeaderAt;
      var _ :- Require(!minter.paused, ProgramPaused);
      var _ :- Require(Attested(env, minter.Value(), data, signature), InvalidAttesterSignature);
      var attestation :- NewMintAttestation(data);
      var _ :- CheckHeader(attestation, ctx);
      var numAttestations := attestation.NumAttestations().value;
      var _ :- Require(numAttestations * 3 <= U32_MAX, ArithmeticOverflow);
      var _ :- Require(|ctx.remaining| == numAttestations * 3, RemainingAccountsLengthMismatch);
      r := MintElements(attestation, ctx.payer, ctx.remaining);
    }

    /** `reconstruct_attestation_bytes`: one pass over the parameters, three accounts per element. */
    method ReconstructAttestationBytes(ctx: MintContext, p: MintParams) returns (r: Result<Bytes>)
      ensures match Rebuild(env, State(), ctx, p)
              case Ok(s) => r == Ok(Encode(s))
              case Err(e) => r == Err(e)
    {
      hide Encode, Prepend;
      var _ :- Require(|ctx.remaining| == |p.elements| * 3, RemainingAccountsLengthMismatch);
      var accountIndex := 0;
      var elements: seq<Element> := [];
      ghost var expected := RebuildElements(chain.tokens, p.elements, ctx.remaining);
      assert p.elements[0..] == p.elements && ctx.remaining[0..] == ctx.remaining;
      PrependNone(expected);
      for i := 0 to |p.elements|
        invariant accountIndex == 3 * i
        invariant expected == Prepend(elements,
                                      RebuildElements(chain.tokens, p.elements[i..], ctx.remaining[accountIndex..]))
      {
        var element := p.elements[i];
        var recipient := ctx.remaining[accountIndex + 1];
        assert p.elements[i..][1..] == p.elements[i + 1..];
        assert ctx.remaining[accountIndex..][3..] == ctx.remaining[accountIndex + 3..];
        RebuildOne(chain.tokens, p.elements[i..], ctx.remaining[accountIndex..], elements);
        var _ :- Require(recipient in chain.tokens, InvalidDestinationTokenAccount);
        elements := elements
          + [Element(chain.tokens[recipient].mint, recipient, element.value, element.transferSpecHash,
                     element.hookData)];
        accountIndex := accountIndex + 3;
      }
      PrependEmpty(elements);
      var header := RebuiltHeader(env, State(), ctx, p);
      var bytes, _ := EncodeAttestation(AttestationSet(header, elements));
      return Ok(bytes);
    }

    /** `gateway_mint_with_params`. */
    method GatewayMintWithParamsHandler(ctx: MintContext, p: MintParams) returns (r: Result<()>)
      requires Rebuild(env, State(), ctx, p).Ok? ==> |Encode(Rebuild(env, State(), ctx, p).value)| <= ISIZE_MAX
      modifies this`log, chain
      ensures Matches(MintWithParamsStep(env, old(State()), ctx, p), r, State())
    {
      hide MintStep, Rebuild, Encode;
      var _ :- Require(!minter.paused, ProgramPaused);
      var _ :- Require(p.elements != [], EmptyAttestationSet);
      var bytes :- ReconstructAttestationBytes(ctx, p);
      r := GatewayMintHandler(ctx, bytes, p.signature);
    }

    /** `burn_token_custody`: burns up to the whole custody balance. */
    method BurnTokenCustodyHandler(signer: Pubkey, mint: Pubkey, custody: Pubkey, amount: u64) returns (r: Result<()>)
      modifies this`log, chain
      ensures Matches(BurnCustodyStep(env, old(State()), signer, mint, custody, amount), r, State())
    {
      hide Burn, BumpOf;
      var _ :- Require(signer == minter.tokenController, InvalidAuthority);
      var expected :- CustodyOf(env, minter.Value(), mint);
      var _ :- Require(custody == expected && custody in chain.tokens && chain.tokens[custody].mint == mint
                       && chain.tokens[custody].owner == env.statePda, ConstraintViolated);
      var _ :- Require(amount != 0, InvalidBurnAmount);
      var burnAmount := chain.tokens[custody].amount;
      if chain.tokens[custody].amount > amount {
        burnAmount := amount;
      }
      var _ :- chain.BurnTokens(mint, custody, env.statePda, burnAmount);
      log := log + [TokenCustodyBurned(mint, custody, burnAmount)];
      return Ok(());
    }

    method AdminHandler(signer: Pubkey, a: Admin) returns (r: Result<()>)
      modifies this`log, minter, chain
      ensures Matches(AdminStep(env, old(State()), signer, a), r, State())
    {
      hide AddSigner, RemoveSigner, Registry.AddToken, RoleEffect;
      var _ :- Require(signer == AuthorityOf(minter.Value(), a), InvalidAuthority);
      match a {
        case Pause => minter.paused := true;
        case Unpause => minter.paused := false;
        case AddSupportedToken(mint) =>
          var bump := env.custodyBump(mint);
          var pda := env.custodyPda(mint, bump);
          var _ :- Require(pda.Some?, ConstraintViolated);
          var k := pda.value;
          var _ :- Require(k in chain.tokens ==> chain.tokens[k].mint == mint && chain.tokens[k].owner == env.statePda,
                           ConstraintViolated);
          if k !in chain.tokens {
            chain.tokens := chain.tokens[k := TokenAccount(mint, env.statePda, 0)];
          }
          var _ :- minter.AddToken(mint, bump);
        case AddAttester(x) =>
          var _ :- Require(x != DEFAULT_PUBKEY, InvalidAttester);
          var _ :- minter.AddAttester(x);
        case RemoveAttester(x) => minter.RemoveAttester(x);
        case UpdateRole(c) => var _ :- minter.ChangeRole(c);
      }
      log := log + [Administered];
      return Ok(());
    }

    /** Rust never holds more bytes in one slice than this. */
    ghost predicate FitsMemory(c: Call)
      reads this, minter, chain
    {
      match c
      case MintCall(_, data, _) => |data| <= ISIZE_MAX
      case MintWithParamsCall(ctx, p) =>
        Rebuild(env, State(), ctx, p).Ok? ==> |Encode(Rebuild(env, State(), ctx, p).value)| <= ISIZE_MAX
      case _ => true
    }

    /** One transaction: dispatches to the handler and undoes everything if it fails. */
    method Execute(c: Call) returns (r: Result<()>)
      requires FitsMemory(c)
      modifies this, minter, chain
      ensures State() == Transact(env, old(State()), c)
      ensures match Step(env, old(State()), c)
              case Ok(_) => r == Ok(())
              case Err(e) => r == Err(e)
    {
      hide MintStep, MintWithParamsStep, BurnCustodyStep, AdminStep, Encode, Rebuild;
      var snapshot := State();
      match c {
        case MintCall(ctx, data, signature) => r := GatewayMintHandler(ctx, data, signature);
        case MintWithParamsCall(ctx, p) => r := GatewayMintWithParamsHandler(ctx, p);
        case BurnCustodyCall(signer, mint, custody, amount) =>
          r := BurnTokenCustodyHandler(signer, mint, custody, amount);
        case AdminCall(signer, a) => r := AdminHandler(signer, a);
      }
      if r.Err? {
        minter.Restore(snapshot.cfg);
        chain.tokens, chain.accounts := snapshot.tokens, snapshot.accounts;
        slot, log := snapshot.slot, snapshot.log;
      }
    }
  }
}
