/** The SPL token program as the two programs use it: transfers and burns over token accounts. */
module Tokens {
  import opened Base
  import opened Sums

  datatype TokenAccount = TokenAccount(mint: Pubkey, owner: Pubkey, amount: u64)

  type TokenMap = map<Pubkey, TokenAccount>

  function WithAmount(t: TokenMap, k: Pubkey, amount: u64): TokenMap
    requires k in t
  {
    t[k := t[k].(amount := amount)]
  }

  /** Moves `amount`; a transfer from an account to itself changes nothing. */
  function Transfer(t: TokenMap, from: Pubkey, to: Pubkey, authority: Pubkey, amount: u64): Result<TokenMap> {
    if from !in t || to !in t then Err(ConstraintViolated)
    else if t[from].amount < amount then Err(InsufficientFunds)
    else if t[from].mint != t[to].mint then Err(MintMismatch)
    else if t[from].owner != authority then Err(OwnerMismatch)
    else if from == to then Ok(t)
    else if t[to].amount + amount > U64_MAX then Err(TokenOverflow)
    else Ok(WithAmount(WithAmount(t, from, t[from].amount - amount), to, t[to].amount + amount))
  }

  function Burn(t: TokenMap, mint: Pubkey, from: Pubkey, authority: Pubkey, amount: u64): Result<TokenMap> {
    if from !in t then Err(ConstraintViolated)
    else if t[from].amount < amount then Err(InsufficientFunds)
    else if t[from].mint != mint then Err(MintMismatch)
    else if t[from].owner != authority then Err(OwnerMismatch)
    else Ok(WithAmount(t, from, t[from].amount - amount))
  }

  function Balances(t: TokenMap, mint: Pubkey): map<Pubkey, nat> {
    map k | k in t && t[k].mint == mint :: t[k].amount
  }

  /** All the units of a mint, over every token account. */
  ghost function Supply(t: TokenMap, mint: Pubkey): nat {
    Sum(Balances(t, mint))
  }

  function Amount(t: TokenMap, k: Pubkey): nat {
    if k in t then t[k].amount else 0
  }

  /** The same accounts with the same mints and owners; only amounts may differ. */
  ghost predicate SameShape(t: TokenMap, t': TokenMap) {
    forall k :: (k in t <==> k in t') && (k in t ==> t[k].mint == t'[k].mint && t[k].owner == t'[k].owner)
  }

  lemma SupplyUpdate(t: TokenMap, k: Pubkey, amount: u64, mint: Pubkey)
    requires k in t
    ensures Supply(WithAmount(t, k, amount), mint)
         == Supply(t, mint) + (if t[k].mint == mint then amount - t[k].amount else 0)
  {
    var t' := WithAmount(t, k, amount);
    if t[k].mint == mint {
      SumUpdate(Balances(t, mint), k, amount);
      assert Balances(t', mint) == Balances(t, mint)[k := amount];
    } else {
      assert Balances(t', mint) == Balances(t, mint);
    }
  }

  /** Opening an empty account changes no supply. */
  lemma NewAccountSupply(t: TokenMap, k: Pubkey, mint: Pubkey, owner: Pubkey, m: Pubkey)
    ensures k !in t ==> Supply(t[k := TokenAccount(mint, owner, 0)], m) == Supply(t, m)
  {
    if k !in t {
      var t' := t[k := TokenAccount(mint, owner, 0)];
      if m == mint {
        SumUpdate(Balances(t, m), k, 0);
        assert Balances(t', m) == Balances(t, m)[k := 0];
      } else {
        assert Balances(t', m) == Balances(t, m);
      }
    }
  }

  lemma MoveConserves(t: TokenMap, from: Pubkey, to: Pubkey, amount: u64, mint: Pubkey)
    requires from in t && to in t && from != to && t[from].mint == t[to].mint
    requires amount <= t[from].amount && t[to].amount + amount <= U64_MAX
    ensures Supply(WithAmount(WithAmount(t, from, t[from].amount - amount), to, t[to].amount + amount), mint)
         == Supply(t, mint)
  {
    SupplyUpdate(t, from, t[from].amount - amount, mint);
    SupplyUpdate(WithAmount(t, from, t[from].amount - amount), to, t[to].amount + amount, mint);
  }

  /** Exactly when a transfer succeeds: both accounts of one mint, the source held by the authority and funded, and room
      at the destination. */
  lemma TransferSucceedsIff(t: TokenMap, from: Pubkey, to: Pubkey, authority: Pubkey, amount: u64)
    ensures Transfer(t, from, to, authority, amount).Ok?
       <==> from in t && to in t && t[from].mint == t[to].mint && t[from].owner == authority
            && amount <= t[from].amount && (from == to || t[to].amount + amount <= 0xFFFF_FFFF_FFFF_FFFF)
  {
  }

  /** Exactly when a burn succeeds, and that it takes the amount from the one account. */
  lemma TokenBurnSucceedsIff(t: TokenMap, mint: Pubkey, from: Pubkey, authority: Pubkey, amount: u64)
    ensures Burn(t, mint, from, authority, amount).Ok?
       <==> from in t && t[from].mint == mint && t[from].owner == authority && amount <= t[from].amount
    ensures var r := Burn(t, mint, from, authority, amount);
            r.Ok? ==>
              && SameShape(t, r.value)
              && forall k :: Amount(r.value, k) == Amount(t, k) - (if k == from then amount else 0)
  {
  }

  /** A transfer conserves every mint's supply. */
  lemma TransferConserves(t: TokenMap, from: Pubkey, to: Pubkey, authority: Pubkey, amount: u64, mint: Pubkey)
    requires Transfer(t, from, to, authority, amount).Ok?
    ensures Supply(Transfer(t, from, to, authority, amount).value, mint) == Supply(t, mint)
  {
    if from != to {
      MoveConserves(t, from, to, amount, mint);
    }
  }

  /** A transfer keeps every account's mint and owner and moves exactly the amount. */
  lemma TransferMoves(t: TokenMap, from: Pubkey, to: Pubkey, authority: Pubkey, amount: u64)
    requires Transfer(t, from, to, authority, amount).Ok?
    ensures var t' := Transfer(t, from, to, authority, amount).value;
            && SameShape(t, t')
            && forall k ::
                 Amount(t', k) == Amount(t, k) - (if k == from then amount else 0) + (if k == to then amount else 0)
  {
  }

  /** When no mint has more than 2^64 - 1 units, a transfer can never overflow its destination. */
  lemma TransferNeverOverflows(t: TokenMap, from: Pubkey, to: Pubkey, authority: Pubkey, amount: u64)
    requires forall mint :: Supply(t, mint) <= U64_MAX
    ensures Transfer(t, from, to, authority, amount) != Err(TokenOverflow)
  {
    if from in t && to in t && from != to && t[from].mint == t[to].mint {
      SumPair(Balances(t, t[from].mint), from, to);
      assert Supply(t, t[from].mint) <= U64_MAX;
    }
  }

  /** A burn lowers its own mint's supply by exactly the amount, and no other's. */
  lemma BurnLowersSupply(t: TokenMap, m: Pubkey, from: Pubkey, authority: Pubkey, amount: u64, mint: Pubkey)
    requires Burn(t, m, from, authority, amount).Ok?
    ensures var t' := Burn(t, m, from, authority, amount).value;
            Supply(t', mint) == Supply(t, mint) - (if m == mint then amount else 0)
  {
    SupplyUpdate(t, from, t[from].amount - amount, mint);
  }
}
