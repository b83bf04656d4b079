/** The chain's mutable accounts and the calls both programs make on them: token transfers and burns, and the
    marking of used-hash accounts. */
module ChainCalls {
  import opened Base
  import opened Runtime
  import opened Tokens
  import opened UsedHashes

  class Chain {
    var tokens: TokenMap
    var accounts: Accounts

    constructor (tokens: TokenMap, accounts: Accounts)
      ensures this.tokens == tokens && this.accounts == accounts
    {
      this.tokens, this.accounts := tokens, accounts;
    }

    method TransferTokens(from: Pubkey, to: Pubkey, authority: Pubkey, amount: u64) returns (r: Result<()>)
      modifies this`tokens
      ensures match Transfer(old(tokens), from, to, authority, amount)
              case Ok(t) => r == Ok(()) && tokens == t
              case Err(e) => r == Err(e) && tokens == old(tokens)
    {
      tokens :- Transfer(tokens, from, to, authority, amount);
      return Ok(());
    }

    method BurnTokens(mint: Pubkey, from: Pubkey, authority: Pubkey, amount: u64) returns (r: Result<()>)
      modifies this`tokens
      ensures match Burn(old(tokens), mint, from, authority, amount)
              case Ok(t) => r == Ok(()) && tokens == t
              case Err(e) => r == Err(e) && tokens == old(tokens)
    {
      tokens :- Burn(tokens, mint, from, authority, amount);
      return Ok(());
    }

    /** Checks the hash account, then creates and marks it, with the payer covering the shortfall. */
    method ProcessUsedTransferSpecHash(env: Env, payer: Pubkey, hashAccount: Pubkey, specHash: Bytes32,
                                       discriminator: Bytes)
      returns (r: Result<()>)
      requires |discriminator| == DISCRIMINATOR_SIZE
      modifies this`accounts
      ensures match ProcessHash(env, old(accounts), payer, hashAccount, specHash, discriminator)
              case Ok(a) => r == Ok(()) && accounts == a
              case Err(e) => r == Err(e) && accounts == old(accounts)
    {
      var _ :- Require(env.usedPda(specHash) == hashAccount, InvalidTransferSpecHashAccount);
      var _ :- Require(payer != hashAccount, MissingSignature);
      var _ :- Require(!IsUsed(Get(accounts, hashAccount).data, discriminator), TransferSpecHashAlreadyUsed);
      var hashInfo := new AccountInfo(Get(accounts, hashAccount));
      var payerInfo := new AccountInfo(Get(accounts, payer));
      var _ :- CreateUsedTransferSpecHashAccount(hashInfo, payerInfo, env.rent, env.programId, discriminator);
      accounts := accounts[hashAccount := hashInfo.Value()][payer := payerInfo.Value()];
      return Ok(());
    }
  }
}
