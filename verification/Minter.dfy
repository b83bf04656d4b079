/** The minter program as a function on its whole state: minting an attestation set from its bytes or from its
    parameters, burning custody, and administration (programs/gateway-minter). */
module Minter {
  import opened Base
  import opened Runtime
  import opened Tokens
  import opened UsedHashes
  import opened Registry
  import opened Attestation

  const USED_DISCRIMINATOR: Bytes := [11, 1]

  datatype Config = Config(
    owner: Pubkey, pendingOwner: Pubkey, pauser: Pubkey, tokenController: Pubkey, paused: bool, attesters: seq<Pubkey>,
    localDomain: u32, version: u32, supportedTokens: seq<Pubkey>, bumps: seq<byte>)

  datatype Event =
    | AttestationUsed(token: Pubkey, recipient: Pubkey, specHash: Bytes32, value: u64)
    | TokenCustodyBurned(token: Pubkey, custody: Pubkey, amount: u64)
    | Administered

  datatype State = State(cfg: Config, tokens: TokenMap, accounts: Accounts, slot: u64, log: seq<Event>)

  // ---------- one element ----------

  /** The custody account of a supported mint, by its stored bump. */
  function CustodyOf(env: Env, cfg: Config, mint: Pubkey): Result<Pubkey> {
    var bump :- BumpOf(cfg.supportedTokens, cfg.bumps, mint);
    match env.custodyPda(mint, bump)
    case None => Err(InvalidCustodyTokenAccount)
    case Some(k) => Ok(k)
  }

  /** `validate_custody_token_account`; the result is the account's mint. */
  function ValidateCustody(env: Env, cfg: Config, tokens: TokenMap, custody: Pubkey): Result<Pubkey> {
    var _ :- Require(custody in tokens, InvalidCustodyTokenAccount);
    var _ :- Require(tokens[custody].owner == env.statePda, InvalidCustodyTokenAccount);
    var expected :- CustodyOf(env, cfg, tokens[custody].mint);
    var _ :- Require(expected == custody, InvalidCustodyTokenAccount);
    Ok(tokens[custody].mint)
  }

  /** One turn of the loop: the element under the cursor with its three accounts. */
  function MintOne(env: Env, st: State, payer: Pubkey, e: Element, custody: Pubkey, recipient: Pubkey,
                   hashAccount: Pubkey)
    : Result<State>
  {
    var custodyMint :- ValidateCustody(env, st.cfg, st.tokens, custody);
    var _ :- Require(recipient in st.tokens, InvalidDestinationTokenAccount);
    var accounts :- ProcessHash(env, st.accounts, payer, hashAccount, e.transferSpecHash, USED_DISCRIMINATOR);
    var _ :- Require(custodyMint == e.destinationToken, DestinationTokenMismatch);
    var _ :- Require(st.tokens[recipient].mint == e.destinationToken, DestinationTokenMismatch);
    var _ :- Require(recipient == e.destinationRecipient, DestinationRecipientMismatch);
    var _ :- Require(e.value > 0, InvalidAttestationValue);
    var tokens :- Transfer(st.tokens, custody, recipient, env.statePda, e.value);
    Ok(st.(tokens := tokens, accounts := accounts,
           log := st.log + [AttestationUsed(e.destinationToken, e.destinationRecipient, e.transferSpecHash, e.value)]))
  }

  /** The loop as it runs: each element is read only once the ones before it have been minted. */
  function MintLoop(env: Env, st: State, payer: Pubkey, rest: Bytes, count: nat, keys: seq<Pubkey>): Result<State>
    requires |keys| == 3 * count
    decreases count
  {
    if count == 0 then Ok(st)
    else
      var e :- ReadElement(rest, count == 1);
      var st' :- MintOne(env, st, payer, e, keys[0], keys[1], keys[2]);
      MintLoop(env, st', payer, rest[ElementSize(rest)..], count - 1, keys[3..])
  }

  /** Minting a list of elements, one after the other. */
  function MintAll(env: Env, st: State, payer: Pubkey, es: seq<Element>, keys: seq<Pubkey>): Result<State>
    requires |keys| == 3 * |es|
    decreases |es|
  {
    if es == [] then Ok(st)
    else
      var st' :- MintOne(env, st, payer, es[0], keys[0], keys[1], keys[2]);
      MintAll(env, st', payer, es[1..], keys[3..])
  }

  // ---------- the two instructions ----------

  datatype MintContext = MintContext(payer: Pubkey, destinationCaller: Pubkey, remaining: seq<Pubkey>)

  predicate Attested(env: Env, cfg: Config, data: Bytes, signature: Bytes) {
    var s := RecoveredSigner(env, data, signature);
    s.Some? && s.value in cfg.attesters
  }

  /** The checks on the header, in the order of the handler. */
  function HeaderChecks(env: Env, st: State, ctx: MintContext, h: Header): Result<()> {
    var _ :- Require(h.version == st.cfg.version, VersionMismatch);
    var _ :- Require(h.maxBlockHeight >= st.slot, AttestationExpired);
    var _ :- Require(h.destinationCaller == DEFAULT_PUBKEY || h.destinationCaller == ctx.destinationCaller,
                     DestinationCallerMismatch);
    var _ :- Require(h.destinationDomain == st.cfg.localDomain, DestinationDomainMismatch);
    Require(h.destinationContract == env.programId, DestinationContractMismatch)
  }

  /** Everything before the loop; the number of accounts is a 32-bit product. */
  function BeforeLoop(env: Env, st: State, ctx: MintContext, data: Bytes, signature: Bytes): Result<u32> {
    var _ :- Require(!st.cfg.paused, ProgramPaused);
    var _ :- Require(Attested(env, st.cfg, data, signature), InvalidAttesterSignature);
    var _ :- Open(data);
    var _ :- HeaderChecks(env, st, ctx, HeaderAt(data));
    var count := CountAt(data);
    var _ :- Require(count * 3 <= U32_MAX, ArithmeticOverflow);
    var _ :- Require(|ctx.remaining| == count * 3, RemainingAccountsLengthMismatch);
    Ok(count)
  }

  /** `gateway_mint`. */
  function MintStep(env: Env, st: State, ctx: MintContext, data: Bytes, signature: Bytes): Result<State> {
    var count :- BeforeLoop(env, st, ctx, data, signature);
    MintLoop(env, st, ctx.payer, data[ATTESTATIONS_OFFSET..], count, ctx.remaining)
  }

  datatype ElementParams = ElementParams(value: u64, transferSpecHash: Bytes32, hookData: Bytes)

  datatype MintParams = MintParams(
    isDefaultDestinationCaller: bool, maxBlockHeight: u64, elements: seq<ElementParams>, signature: Bytes)

  /** Each element with its recipient account's key and mint filled in. */
  function RebuildElements(tokens: TokenMap, es: seq<ElementParams>, keys: seq<Pubkey>): Result<seq<Element>>
    requires |keys| == 3 * |es|
  {
    if es == [] then Ok([])
    else
      var _ :- Require(keys[1] in tokens, InvalidDestinationTokenAccount);
      var others :- RebuildElements(tokens, es[1..], keys[3..]);
      Ok([Element(tokens[keys[1]].mint, keys[1], es[0].value, es[0].transferSpecHash, es[0].hookData)] + others)
  }

  function RebuiltHeader(env: Env, st: State, ctx: MintContext, p: MintParams): Header {
    Header(st.cfg.version, st.cfg.localDomain, env.programId,
           if p.isDefaultDestinationCaller then DEFAULT_PUBKEY else ctx.destinationCaller, p.maxBlockHeight)
  }

  /** The set that `reconstruct_attestation_bytes` encodes. */
  function Rebuild(env: Env, st: State, ctx: MintContext, p: MintParams): Result<AttestationSet> {
    var _ :- Require(|ctx.remaining| == 3 * |p.elements|, RemainingAccountsLengthMismatch);
    var es :- RebuildElements(st.tokens, p.elements, ctx.remaining);
    Ok(AttestationSet(RebuiltHeader(env, st, ctx, p), es))
  }

  /** `gateway_mint_with_params`. */
  function MintWithParamsStep(env: Env, st: State, ctx: MintContext, p: MintParams): Result<State> {
    var _ :- Require(!st.cfg.paused, ProgramPaused);
    var _ :- Require(p.elements != [], EmptyAttestationSet);
    var s :- Rebuild(env, st, ctx, p);
    MintStep(env, st, ctx, Encode(s), p.signature)
  }

  // ---------- custody burns and administration ----------

  function BurnCustodyStep(env: Env, st: State, signer: Pubkey, mint: Pubkey, custody: Pubkey,
                           amount: u64): Result<State> {
    var _ :- Require(signer == st.cfg.tokenController, InvalidAuthority);
    var expected :- CustodyOf(env, st.cfg, mint);
    var _ :- Require(custody == expected && custody in st.tokens && st.tokens[custody].mint == mint
                     && st.tokens[custody].owner == env.statePda, ConstraintViolated);
    var _ :- Require(amount != 0, InvalidBurnAmount);
    var burned := if st.tokens[custody].amount > amount then amount else st.tokens[custody].amount;
    var tokens :- Burn(st.tokens, mint, custody, env.statePda, burned);
    Ok(st.(tokens := tokens, log := st.log + [TokenCustodyBurned(mint, custody, burned)]))
  }

  /** The role setters and the two steps of an ownership transfer. */
  datatype RoleChange =
    | SetPauser(pauser: Pubkey)
    | SetTokenController(tokenController: Pubkey)
    | TransferOwnership(newOwner: Pubkey)
    | AcceptOwnership

  function RoleEffect(cfg: Config, c: RoleChange): Result<Config> {
    match c
    case SetPauser(x) =>
      var _ :- Require(x != DEFAULT_PUBKEY, InvalidPauser);
      Ok(cfg.(pauser := x))
    case SetTokenController(x) =>
      var _ :- Require(x != DEFAULT_PUBKEY, InvalidTokenController);
      Ok(cfg.(tokenController := x))
    case TransferOwnership(x) => Ok(cfg.(pendingOwner := x))
    case AcceptOwnership => Ok(cfg.(owner := cfg.pendingOwner, pendingOwner := DEFAULT_PUBKEY))
  }

  datatype Admin =
    | Pause
    | Unpause
    | AddSupportedToken(mint: Pubkey)
    | AddAttester(attester: Pubkey)
    | RemoveAttester(attester: Pubkey)
    | UpdateRole(change: RoleChange)

  function AuthorityOf(cfg: Config, a: Admin): Pubkey {
    match a
    case Pause | Unpause => cfg.pauser
    case AddSupportedToken(_) => cfg.tokenController
    case UpdateRole(c) => if c == AcceptOwnership then cfg.pendingOwner else cfg.owner
    case _ => cfg.owner
  }

  function AdminEffect(env: Env, st: State, a: Admin): Result<State> {
    match a
    case Pause => Ok(st.(cfg := st.cfg.(paused := true)))
    case Unpause => Ok(st.(cfg := st.cfg.(paused := false)))
    case AddSupportedToken(mint) =>
      var bump := env.custodyBump(mint);
      var pda := env.custodyPda(mint, bump);
      var _ :- Require(pda.Some?, ConstraintViolated);
      var k := pda.value;
      var _ :- Require(k in st.tokens ==> st.tokens[k].mint == mint && st.tokens[k].owner == env.statePda,
                       ConstraintViolated);
      var tokens := if k in st.tokens then st.tokens else st.tokens[k := TokenAccount(mint, env.statePda, 0)];
      var lists :- Registry.AddToken(st.cfg.supportedTokens, st.cfg.bumps, mint, bump);
      Ok(st.(tokens := tokens, cfg := st.cfg.(supportedTokens := lists.0, bumps := lists.1)))
    case AddAttester(x) =>
      var _ :- Require(x != DEFAULT_PUBKEY, InvalidAttester);
      var attesters :- AddSigner(st.cfg.attesters, x, AttesterLimitExceeded);
      Ok(st.(cfg := st.cfg.(attesters := attesters)))
    case RemoveAttester(x) => Ok(st.(cfg := st.cfg.(attesters := RemoveSigner(st.cfg.attesters, x))))
    case UpdateRole(c) =>
      var cfg :- RoleEffect(st.cfg, c);
      Ok(st.(cfg := cfg))
  }

  function AdminStep(env: Env, st: State, signer: Pubkey, a: Admin): Result<State> {
    var _ :- Require(signer == AuthorityOf(st.cfg, a), InvalidAuthority);
    var st' :- AdminEffect(env, st, a);
    Ok(st'.(log := st'.log + [Administered]))
  }

  // ---------- runs ----------

  datatype Call =
    | MintCall(ctx: MintContext, data: Bytes, signature: Bytes)
    | MintWithParamsCall(ctx: MintContext, params: MintParams)
    | BurnCustodyCall(signer: Pubkey, mint: Pubkey, custody: Pubkey, amount: u64)
    | AdminCall(signer: Pubkey, admin: Admin)

  function Step(env: Env, st: State, c: Call): Result<State> {
    match c
    case MintCall(ctx, data, signature) => MintStep(env, st, ctx, data, signature)
    case MintWithParamsCall(ctx, params) => MintWithParamsStep(env, st, ctx, params)
    case BurnCustodyCall(signer, mint, custody, amount) => BurnCustodyStep(env, st, signer, mint, custody, amount)
    case AdminCall(signer, a) => AdminStep(env, st, signer, a)
  }

  /** A transaction: a failing instruction leaves no trace. */
  function Transact(env: Env, st: State, c: Call): State {
    match Step(env, st, c)
    case Ok(st') => st'
    case Err(_) => st
  }

  /** What everyone else can do in between: nobody writes or forges a used-hash account of the program. */
  ghost predicate OutsideOk(env: Env, st: State, accounts: Accounts, slot: u64) {
    st.slot <= slot && KeepsOwned(env, st.accounts, accounts) && UsedAreOwned(env, accounts, USED_DISCRIMINATOR)
  }

  datatype Action =
    | Program(call: Call)
    | Outside(tokens: TokenMap, accounts: Accounts, slot: u64)

  ghost function Apply(env: Env, st: State, a: Action): State {
    match a
    case Program(c) => Transact(env, st, c)
    case Outside(tokens, accounts, slot) =>
      if OutsideOk(env, st, accounts, slot) then st.(tokens := tokens, accounts := accounts, slot := slot) else st
  }

  ghost function Run(env: Env, st: State, actions: seq<Action>): State {
    if actions == [] then st else Apply(env, Run(env, st, actions[..|actions| - 1]), actions[|actions| - 1])
  }
}
