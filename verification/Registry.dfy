/** The bounded, duplicate-free lists in the programs' state accounts. */
module Registry {
  import opened Base

  const MAX_SUPPORTED_TOKENS := 10
  const MAX_SIGNERS := 10

  /** The first position of x, as `iter().position` finds it. */
  function Position<T(==)>(s: seq<T>, x: T): (r: Option<nat>)
    ensures match r
            case None => x !in s
            case Some(i) => i < |s| && s[i] == x && x !in s[..i]
  {
    if s == [] then None
    else if s[0] == x then Some(0)
    else
      match Position(s[1..], x)
      case None => assert x !in s[1..]; None
      case Some(i) =>
        assert s[..i + 1] == [s[0]] + s[1..][..i];
        Some(i + 1)
  }

  ghost predicate NoDuplicates<T>(s: seq<T>) {
    forall i, j :: 0 <= i < j < |s| ==> s[i] != s[j]
  }

  /** Tokens with the bumps of their custody accounts: parallel lists forming a finite map. */
  ghost predicate TokenListOk(tokens: seq<Pubkey>, bumps: seq<byte>) {
    |tokens| == |bumps| <= MAX_SUPPORTED_TOKENS && NoDuplicates(tokens)
  }

  function BumpOf(tokens: seq<Pubkey>, bumps: seq<byte>, mint: Pubkey): Result<byte> {
    match Position(tokens, mint)
    case None => Err(TokenNotSupported)
    case Some(i) => if i < |bumps| then Ok(bumps[i]) else Err(IndexOutOfBounds)
  }

  function AddToken(tokens: seq<Pubkey>, bumps: seq<byte>, mint: Pubkey, bump: byte): Result<(seq<Pubkey>, seq<byte>)> {
    if mint in tokens then Ok((tokens, bumps))
    else if |tokens| >= MAX_SUPPORTED_TOKENS then Err(MaxTokensSupported)
    else Ok((tokens + [mint], bumps + [bump]))
  }

  function AddSigner(signers: seq<Pubkey>, signer: Pubkey, full: Error): Result<seq<Pubkey>> {
    if signer in signers then Ok(signers)
    else if |signers| >= MAX_SIGNERS then Err(full)
    else Ok(signers + [signer])
  }

  function RemoveSigner(signers: seq<Pubkey>, signer: Pubkey): seq<Pubkey> {
    match Position(signers, signer)
    case None => signers
    case Some(i) => signers[..i] + signers[i + 1..]
  }

  /** Adding keeps the lists a bounded map, only extends them, gives the token its bump and changes no other. */
  lemma AddTokenKeeps(tokens: seq<Pubkey>, bumps: seq<byte>, mint: Pubkey, bump: byte)
    requires TokenListOk(tokens, bumps) && AddToken(tokens, bumps, mint, bump).Ok?
    ensures var r := AddToken(tokens, bumps, mint, bump).value;
            && TokenListOk(r.0, r.1) && tokens <= r.0 && bumps <= r.1 && mint in r.0
            && (forall m :: m in r.0 <==> m in tokens || m == mint)
            && (forall m :: m in tokens ==> BumpOf(r.0, r.1, m) == BumpOf(tokens, bumps, m))
            && (mint !in tokens ==> BumpOf(r.0, r.1, mint) == Ok(bump))
  {
    var r := AddToken(tokens, bumps, mint, bump).value;
    forall m | m in r.0
      ensures m in tokens ==> BumpOf(r.0, r.1, m) == BumpOf(tokens, bumps, m)
      ensures m !in tokens ==> m == mint && BumpOf(r.0, r.1, m) == Ok(bump)
    {
      var i, j := Position(r.0, m).value, Position(tokens, m);
      assert r.0[i] == m;
    }
  }

  /** Adding and removing keep a signer list bounded and duplicate free, and change only the one membership. */
  lemma SignersKeep(signers: seq<Pubkey>, signer: Pubkey, full: Error)
    requires NoDuplicates(signers) && |signers| <= MAX_SIGNERS
    ensures var s := RemoveSigner(signers, signer);
            && NoDuplicates(s) && |s| <= MAX_SIGNERS && (forall x :: x in s <==> x in signers && x != signer)
    ensures var r := AddSigner(signers, signer, full);
            && (r.Err? <==> signer !in signers && |signers| == 10)
            && (r.Ok? ==>
                  && NoDuplicates(r.value) && |r.value| <= MAX_SIGNERS
                  && (forall x :: x in r.value <==> x in signers || x == signer))
  {
    match Position(signers, signer)
    case None =>
    case Some(i) =>
      forall x
        ensures x in signers[..i] + signers[i + 1..] <==> x in signers && x != signer
      {
        if x in signers && x != signer {
          var j :| 0 <= j < |signers| && signers[j] == x;
          assert x in signers[..i] || x in signers[i + 1..];
        }
      }
  }

  /** The others keep their order, a new signer comes last, and removing it again gives back the list. */
  lemma SignersKeepOrder(signers: seq<Pubkey>, signer: Pubkey, full: Error)
    requires NoDuplicates(signers)
    ensures forall i: nat :: i < |signers| && signers[i] == signer ==>
              RemoveSigner(signers, signer) == signers[..i] + signers[i + 1..]
    ensures var r := AddSigner(signers, signer, full);
            r.Ok? ==> signers <= r.value && (signer !in signers ==> RemoveSigner(r.value, signer) == signers)
  {
    if signer !in signers {
      var added := signers + [signer];
      assert added[|signers|] == signer;
      assert added[..|signers|] + added[|signers| + 1..] == signers;
    }
  }
}
