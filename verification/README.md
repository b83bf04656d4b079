# Circle Gateway on Solana: a verified model

Circle Gateway consists of two on-chain programs. The **wallet** program holds tokens in per-mint custody accounts and
keeps a ledger of what every depositor is owed: an available amount, an amount being withdrawn and a withdrawal
deadline. Depositors fill and empty the ledger themselves; `gateway_burn` takes from it on behalf of a signed burn
intent. The **minter** program pays out of its own custody accounts against signed attestation sets. Both mark the hash of
every transfer spec they process so that it is processed once.

The project models both programs and proves what holds of every input, every instruction and every run.

| file | content |
|---|---|
| `Base`, `Layout`, `Sums` | machine integers, big and little endian, concatenating and cutting byte layouts, sums over maps |
| `Runtime`, `Tokens`, `UsedHashes`, `Chain`, `Registry` | what the programs take from the chain: key derivation and signatures, SPL tokens, used-hash accounts, the bounded lists |
| `BurnData`, `Ed25519`, `Attestation` | the three wire formats: readers, encoders, the stateful attestation cursor |
| `Wallet`, `Minter` | each program as a function on its whole state, one step per instruction, and runs of instructions |
| `WalletProgram`, `MinterProgram` | each program in the imperative form of its source, every method proved against the step functions |
| `WalletSolvency`, `WalletReachable` | the wallet's invariant, its preservation by every step, solvency and when instructions succeed |
| `WalletFacts`, `WalletBurn`, `WalletLog`, `WalletHistory` | effects of single instructions, the burn split, the event log as history and withdrawal timing, properties over runs |
| `MinterCalls`, `MinterExample` | exactly when a mint succeeds; a mint from the initial state on that succeeds, and one that aborts |
| `WalletGates`, `MinterGates` | pausing, denylist, signers, attesters, roles, delegates and settings: who may move each, what it changes, and what it keeps shut over runs |
| `WalletEffects`, `WalletErrors` | the whole effect of each ledger instruction, and the condition that each error reports |
| `WalletExit` | the run that pays every depositor out in full |
| `WalletBurnCalls`, `WalletBurnExample` | exactly when a burn succeeds; burns from the initial state on: as a top-level instruction, invoked by another program, and signed by a revoked delegate |
| `MinterModes`, `MinterHistory` | the two mint modes compared, and what minting moves and marks over runs |

## How the model is built

- A run is a sequence of transactions interleaved with `Outside` steps. A transaction that fails leaves the state
  unchanged: `Execute` in the program modules is the runtime's rollback around a handler. `Outside` steps stand for everyone
  else: they may move any tokens and lamports and let slots pass, but they cannot debit an account owned by the
  program's state account, cannot change the data of program-owned accounts, cannot write data at an address derived for the
  program, and cannot lower the slot. No mint ever has more than 2^64 - 1 units, as the token program ensures.
- Arithmetic is the release build's: an overflow aborts the transaction (`Cargo.toml:10`), modelled as
  `ArithmeticOverflow`. Where the code relies on an addition not overflowing, the model gives it a 64-bit type and the
  type check is the proof.
- Key derivation, keccak, signature recovery, the Ed25519 check and the rent minimum are fields of `Env`, arbitrary
  functions. No result assumes that keccak is injective. Accounts found by derived addresses (deposits, delegates, the
  denylist) are maps keyed by their seeds, which takes distinct seeds to give distinct addresses. That associated
  token accounts and custody accounts are distinct always holds on the chain, where they are derived under different
  programs; since the model leaves derivations arbitrary, it is the hypothesis `AtaApart` of the one result that needs
  it: that no instruction changes the difference between custody and debts (`StepSurplus`, `SurplusOverRun`).
- Handlers load an account record into an object, call its methods and store it back, as Anchor does. Violations of account
  constraints that Anchor reports under its own codes are one error, `ConstraintViolated`; errors of the programs keep their names.

## What the proofs found

- `gateway_mint` multiplies the element count by three in 32 bits. A signed attestation, however short, whose count field
  is 1431655766 or more aborts there and not at the length check (`MintAbortsIff`, with the input `ShortBytesAbort`); in
  the parameter mode it takes that many elements (`ParamsModeIsSound`).
- The encoder truncates the element count and the hook lengths to 32 bits, so an encoded set parses back exactly when it is
  nonempty and its counts fit (`ParseEncoded`).
- A second `initiate_withdrawal` resets the deadline of the whole pending amount. A unit always waits the smallest delay in
  force since its initiation (`WithdrawWaited`), but not always the delay in force when it was initiated: after the owner
  has shortened the delay it can leave earlier (`OwnDelayCanBeCut`). It waits its own delay exactly when the latest
  initiation is due no earlier or its own delay has passed already (`OwnDelayKeptIff`). Before initiating again, a
  depositor can check that the current slot plus the current delay is no earlier than the pending unit's own due slot
  (`NextInitiationKeepsOwnDelayIff`).
- The signature check names windows of the transaction's current top-level instruction without looking at which
  instruction that is: in every environment, a burn has the same outcome whatever that instruction is
  (`BurnIgnoresCurrent`). For a top-level burn the windows are the burn's own fields (`BurnWasSigned`). For a burn that
  another program invokes they are windows of the caller's data, so every burn that succeeds also succeeds unbound
  (`EveryBurnCanBeUnbound`), and one can succeed on a signature that does not verify (`InvokedBurnIsUnbound`). The
  binding holds exactly when the windows are the record's fields (`BurnBoundIff`).

## Model

| member | source | states |
|---|---|---|
| Attestation.ParseEncoded | programs/gateway-minter/src/attestation.rs:313-345 | Parsing an encoded set yields that set if and only if it is nonempty and its count and hook lengths fit 32 bits |
| Attestation.EncodeParsed | programs/gateway-minter/src/attestation.rs:84-159 | Bytes that the constructor and the iterator accept to the end are exactly the encoding of what was read |
| Attestation.EncodeInjective | programs/gateway-minter/src/attestation.rs:313-345 | Two sets that fit and have the same bytes are the same set |
| Attestation.WireConstants | programs/gateway-minter/src/attestation.rs:63-82 | Every encoding starts with the bytes 10 cb b1 ec; a set has at least 88 + 108 bytes, an element 108 and its hook data |
| Attestation.ElementErrors | programs/gateway-minter/src/attestation.rs:117-159 | An element cannot be read exactly when the bytes are shorter than its hook length asks for, or longer after the last one, and the error says which |
| Attestation.EncodeAttestation | programs/gateway-minter/src/attestation.rs:313-345 | The appending loop produces the layout of header and elements, and the reserved capacity is the exact length |
| Attestation.EncodedSize | programs/gateway-minter/src/attestation.rs:316-320 | The first pass over the elements sums the length of the encoding |
| Attestation.NewMintAttestation | programs/gateway-minter/src/attestation.rs:84-115 | The same errors as the header checks, and otherwise a cursor before the first element |
| Attestation.MintAttestation.Next | programs/gateway-minter/src/attestation.rs:117-159 | While elements remain, moves to exactly the next element of the remaining bytes or reports its error; then answers false and stays; no read leaves the bytes and the remaining length never underflows |
| Attestation.MintAttestation.HookData | programs/gateway-minter/src/attestation.rs:237-243 | On a cursor that stands on an element, the read is in bounds and gives that element's hook data |
| Attestation.MintAttestation.TransferSpecHash | programs/gateway-minter/src/attestation.rs:221-226 | On a cursor that stands on an element, the read is in bounds and gives that element's hash |
| BurnData.Canonical | programs/gateway-wallet/src/burn_data.rs:33-179 | `new`, `max_block_height` and `max_fee` succeed if and only if the bytes are the documented layout of some record with positive value whose length fits |
| BurnData.AcceptedIsEncoded | programs/gateway-wallet/src/burn_data.rs:122-179 | Accepted bytes are the encoding of the record they hold |
| BurnData.EncodedIsAccepted | programs/gateway-wallet/src/burn_data.rs:183-295 | The encoding of a record is accepted, holds that record, and every reader is in bounds and returns its own field |
| BurnData.SpecIsSuffix | programs/gateway-wallet/src/burn_data.rs:218-226 | On accepted bytes the hashed transfer spec is exactly the suffix from offset 160, and all readers agree with the record |
| BurnData.SpecInjective | programs/gateway-wallet/src/burn_data.rs:52-71 | The encoding of a transfer spec determines all of its fields |
| BurnData.RecordInjective | programs/gateway-wallet/src/burn_data.rs:33-71 | The bytes of a burn determine the whole record: fee, user signature, expiry, maximum fee and transfer spec |
| BurnData.WireConstants | programs/gateway-wallet/src/burn_data.rs:82-120 | Every encoding has 500 bytes and its hook data, the sixteen prefix bytes ff 00 .. 00 at 72, 07 0a fb c2 at 88 and ca 85 de f7 at 160 |
| BurnData.NarrowExact | programs/gateway-wallet/src/burn_data.rs:320-334 | Reading a 256-bit number as 64 bits succeeds exactly when the number fits, and then returns it |
| BurnData.NewErrors | programs/gateway-wallet/src/burn_data.rs:122-179 | Each error of reading burn data, with what it reports about prefix, magics, lengths and value, given by their bytes |
| Ed25519.AcceptsExactly | programs/gateway-wallet/src/instructions/gateway_burn.rs:348-418 | The check passes if and only if the previous instruction is the Ed25519 program's and its data are the sixteen bytes written out, a count of one first and padding zero second, for a message of at most 65535 bytes |
| Ed25519.OtherCountsRefused | programs/gateway-wallet/src/instructions/gateway_burn.rs:384-395 | Data whose first byte counts no signature, or more than one, are refused in every environment |
| Ed25519.FieldsDetermine | programs/gateway-wallet/src/ed25519.rs:66-145 | Nine little-endian field comparisons amount to equality of the sixteen bytes |
| Ed25519.WindowsAreFields | programs/gateway-wallet/src/instructions/gateway_burn.rs:29-50 | In a top-level burn instruction the three windows are the record's user signature, its source signer, and its prefix with the whole burn intent |
| Ed25519.PrecompileChecksTheBurn | programs/gateway-wallet/src/instructions/gateway_burn.rs:348-395 | With an accepted header, the precompile, which verifies as many signatures as the header's first byte says, passes if and only if the record's own signature verifies under its own source signer over the prefix and the whole intent, for every hook length that fits |
| Ed25519.BindsIff | programs/gateway-wallet/src/instructions/gateway_burn.rs:384-395 | An accepted header binds exactly what lies in the current instruction's windows, whatever that instruction is |
| UsedHashes.CreateUsedTransferSpecHashAccount | shared/src/lib.rs:71-158 | Creating or topping up, allocating, assigning and writing the account changes both accounts exactly as `Mark` |
| UsedHashes.MarkLifeCycle | shared/src/lib.rs:71-158 | Marking succeeds exactly on a system-owned account without data and a payer that covers the shortfall; the account ends program-owned, used and with the larger of its old lamports and the rent; lamports are conserved; it can never be marked again |
| UsedHashes.ProcessMarksOnce | programs/gateway-minter/src/instructions/gateway_mint.rs:275-317 | A processed hash was unused and becomes used, and every used hash stays used |
| UsedHashes.UsedStaysUsed | shared/src/lib.rs:43-47 | A used hash stays used under every later step of others |
| UsedHashes.HashErrors | shared/src/lib.rs:71-158 | The five ways processing a hash can fail, each with the condition it reports |
| Registry.Position | programs/gateway-wallet/src/state.rs:131-135 | The first position of a key, or none exactly when it is absent |
| Registry.AddTokenKeeps | programs/gateway-wallet/src/state.rs:137-159 | Adding a token keeps the two parallel lists a duplicate-free map of at most ten entries that only grows, with the bumps of other tokens unchanged |
| Registry.SignersKeep | programs/gateway-wallet/src/state.rs:165-189 | Adding and removing a signer change exactly one membership and keep the list bounded and duplicate free; adding fails exactly when the list is full |
| Registry.SignersKeepOrder | programs/gateway-wallet/src/state.rs:165-189 | The other signers keep their order, a new one comes last, and removing it again gives back the list |
| Tokens.TransferMoves | programs/gateway-minter/src/state.rs:160-184 | A transfer moves the amount, a transfer to itself moves nothing, and no account changes mint or owner |
| Tokens.TransferSucceedsIff | programs/gateway-minter/src/state.rs:160-184 | A transfer succeeds if and only if both accounts have one mint, the authority owns the funded source and the destination has room |
| Tokens.TransferConserves | programs/gateway-minter/src/state.rs:160-184 | A transfer leaves the supply of every mint unchanged |
| Tokens.BurnLowersSupply | programs/gateway-wallet/src/state.rs:235-258 | A burn lowers the supply of its own mint by the amount and of no other |
| Tokens.TokenBurnSucceedsIff | programs/gateway-wallet/src/state.rs:235-258 | A token burn succeeds if and only if the authority owns the funded account of that mint, and it takes the amount from that account only |
| WalletProgram.GatewayDeposit.InitializeIfNeeded | programs/gateway-wallet/src/state.rs:262-268 | Identity fields are set only while the bump is zero |
| WalletProgram.GatewayDeposit.Deposit | programs/gateway-wallet/src/state.rs:270-294 | A positive amount is transferred and added to available, with each failure named |
| WalletProgram.GatewayDeposit.InitiateWithdrawal | programs/gateway-wallet/src/state.rs:296-324 | Succeeds exactly when covered, supported and in range; the amount moves between the two balances and the deadline is set anew |
| WalletProgram.GatewayDeposit.CompleteWithdrawal | programs/gateway-wallet/src/state.rs:326-351 | The whole pending amount is paid from custody and the pending fields are cleared |
| WalletProgram.GatewayDeposit.ReduceBalance | programs/gateway-wallet/src/state.rs:362-390 | The three branches take min(available, value) and then min(withdrawing, rest), and leave the rest of the record alone |
| WalletProgram.GatewayWallet.AddToken | programs/gateway-wallet/src/state.rs:137-150 | The two lists are extended together or not at all |
| WalletProgram.GatewayWallet.RemoveBurnSigner | programs/gateway-wallet/src/state.rs:179-189 | Removes the first occurrence, if any |
| WalletProgram.Program.DepositHandler | programs/gateway-wallet/src/instructions/deposit_for.rs:95-136 | The handler's outcome and state are those of the deposit step, for oneself or another |
| WalletProgram.Program.InitiateWithdrawalHandler | programs/gateway-wallet/src/instructions/initiate_withdrawal.rs:52-73 | The handler's outcome and state are those of the initiation step |
| WalletProgram.Program.WithdrawHandler | programs/gateway-wallet/src/instructions/withdrawal.rs:71-106 | The handler's outcome and state are those of the withdrawal step |
| WalletProgram.Program.BurnEffectsHandler | programs/gateway-wallet/src/instructions/gateway_burn.rs:276-343 | Marking, reducing, splitting, transferring, burning and reporting give the state of the step; the unchecked additions fit 64 bits |
| WalletProgram.Program.CheckBurnData | programs/gateway-wallet/src/instructions/gateway_burn.rs:163-254 | The checks as statements, field by field, have the outcome and the terms of the burn's checks |
| WalletProgram.Program.GatewayBurnHandler | programs/gateway-wallet/src/instructions/gateway_burn.rs:91-346 | Account constraints, checks and effects in turn have the outcome and state of the burn step |
| WalletProgram.Program.AddDelegateHandler | programs/gateway-wallet/src/instructions/add_delegate.rs:82-127 | The handler's outcome and state are those of the step to Authorized |
| WalletProgram.Program.RemoveDelegateHandler | programs/gateway-wallet/src/instructions/remove_delegate.rs:69-110 | The handler's outcome and state are those of the step to Revoked, which does nothing on a record that is not Authorized |
| WalletProgram.Program.AddTokenHandler | programs/gateway-wallet/src/instructions/add_token.rs:33-82 | The custody account exists afterwards and the lists are extended |
| WalletProgram.Program.Execute | programs/gateway-wallet/src/lib.rs:44-191 | Every transaction changes the whole state as the step says on success and leaves it untouched on failure |
| WalletSolvency.DepositKeeps | programs/gateway-wallet/src/state.rs:270-294 | A deposit keeps the invariant: solvency, canonical custody, identities, bounded registries, supplies, used hashes |
| WalletSolvency.DepositSurplus | programs/gateway-wallet/src/state.rs:270-294 | A deposit raises custody and debts by the same amount |
| WalletSolvency.WithdrawKeeps | programs/gateway-wallet/src/state.rs:326-351 | A withdrawal keeps the invariant |
| WalletSolvency.BurnKeeps | programs/gateway-wallet/src/instructions/gateway_burn.rs:287-330 | A burn keeps the invariant, partial and empty ones included |
| WalletSolvency.BurnSurplus | programs/gateway-wallet/src/instructions/gateway_burn.rs:287-330 | A burn lowers custody and debts alike, except that a fee paid into custody itself stays there |
| WalletReachable.ReachableInv | programs/gateway-wallet/src/state.rs:41-71 | Every reachable state satisfies the invariant |
| WalletReachable.Solvency | programs/gateway-wallet/src/state.rs:270-390 | In every reachable state, for every mint, custody holds at least the sum over all depositors of available and withdrawing |
| WalletReachable.StepSurplus | programs/gateway-wallet/src/state.rs:270-390 | No instruction lowers the difference between custody and debts, and none changes it while associated and custody accounts are distinct |
| WalletReachable.SurplusOverRun | programs/gateway-wallet/src/state.rs:270-390 | Over any run the difference never falls, and without outside steps it stays exactly the same |
| WalletExit.EveryoneCanLeave | programs/gateway-wallet/src/state.rs:296-351 | From every reachable unpaused state, any set of depositors who can sign and have a token account is paid everything, available and withdrawing, by any slot their deadlines and the delay allow; no other record changes and nobody else acts |
| WalletReachable.DepositSucceedsIff | programs/gateway-wallet/src/instructions/deposit.rs:86-115 | In reachable states a deposit succeeds exactly when its gates and the sender's funds allow; neither `available` nor custody can overflow |
| WalletReachable.InitiateSucceedsIff | programs/gateway-wallet/src/state.rs:296-324 | In reachable states an initiation succeeds exactly when covered and with a deadline in range; `withdrawing` cannot overflow |
| WalletReachable.WithdrawSucceedsIff | programs/gateway-wallet/src/instructions/withdrawal.rs:71-106 | In reachable states a due withdrawal always succeeds while not paused; custody never runs short |
| WalletEffects.DepositDoes | programs/gateway-wallet/src/instructions/deposit.rs:86-115 | A deposit credits the sender's own record by what leaves the sender's token account for custody, reports it, and changes nothing else |
| WalletEffects.DepositForDoes | programs/gateway-wallet/src/instructions/deposit_for.rs:95-136 | A deposit for another credits that depositor's record, never the default key's, out of the sender's token account |
| WalletEffects.InitiateDoes | programs/gateway-wallet/src/instructions/initiate_withdrawal.rs:52-73 | An initiation moves the amount within the caller's record, sets its deadline to slot plus delay, reports both balances and moves no token |
| WalletEffects.WithdrawDoes | programs/gateway-wallet/src/instructions/withdrawal.rs:71-106 | A withdrawal pays exactly the pending amount from custody to the caller's account, clears amount and deadline, and changes nothing else |
| WalletErrors.DepositErrors | programs/gateway-wallet/src/instructions/deposit_for.rs:95-136 | The eight errors a deposit can have in a state that keeps the invariant, each with the condition it reports |
| WalletErrors.InitiateErrors | programs/gateway-wallet/src/state.rs:296-324 | The six errors of an initiation, each with its condition |
| WalletErrors.WithdrawErrors | programs/gateway-wallet/src/state.rs:326-351 | The six errors of a withdrawal, each with its condition; running short of custody is not one |
| WalletReachable.BurnMovesSucceed | programs/gateway-wallet/src/instructions/gateway_burn.rs:287-330 | Once the checks passed, a burn fails only by its hash; the additions, the fee transfer and the burn cannot fail |
| WalletBurn.ChecksPassIff | programs/gateway-wallet/src/instructions/gateway_burn.rs:157-252 | The checks pass if and only if the burn data encode a record that matches configuration, deposit and delegate, the recovered signer of the burn data's signed hash is enabled, the sixteen bytes come before the burn, one hash account is passed and custody covers value plus fee |
| WalletBurn.ChecksMatchRecord | programs/gateway-wallet/src/instructions/gateway_burn.rs:157-254 | What passed checks hand to the burn: the value, fee, spec hash, destination and signer of the one record that the bytes hold |
| WalletBurnCalls.BurnSucceedsIff | programs/gateway-wallet/src/instructions/gateway_burn.rs:91-346 | In every reachable state a burn succeeds if and only if its accounts are the mint's own, its bytes encode a record that fits, the call fits and its hash can be marked; no balance, transfer or addition is in the way |
| WalletHistory.BurnSignatureCoversData | programs/gateway-wallet/src/instructions/gateway_burn.rs:163-167 | A successful burn has 65 signature bytes from which, for the keccak hash of the 28 prefix bytes and the hash of its own burn data, an enabled burn signer recovers |
| WalletHistory.UncoveredBurnFails | programs/gateway-wallet/src/state.rs:202-220 | A call whose burn data are replaced by others fails unless an enabled burn signer recovers for their own signed hash |
| WalletErrors.BurnCheckErrors | programs/gateway-wallet/src/instructions/gateway_burn.rs:163-254 | Each error of the checks on burn data that encode a record, with the condition of record, call and state that it reports |
| WalletErrors.SignerErrors | programs/gateway-wallet/src/utils.rs:54-87 | The source signer is refused exactly when neither depositor nor the passed delegate record's delegate, with the first failing condition named |
| WalletErrors.ReplayIsNamed | programs/gateway-wallet/src/instructions/gateway_burn.rs:253-285 | A second burn of a transfer spec that passes the checks is refused by `TransferSpecHashAlreadyUsed` |
| WalletEffects.BurnMarksAccount | programs/gateway-wallet/src/state.rs:120-122 | A burn marks exactly the account derived from its own spec's hash: the program's, holding the two bytes 21 and 4; settings, delegates and denylist stay |
| WalletBurnExample.SomeBurnSucceeds | programs/gateway-wallet/src/instructions/gateway_burn.rs:157-346 | A concrete top-level burn in a reachable state succeeds: of 50 deposited, 40 leave the supply, 2 go to the fee account and 8 stay |
| WalletBurnExample.RevokedDelegateStillBurns | programs/gateway-wallet/src/utils.rs:69-84 | A concrete reachable run: a delegate is added and revoked, and a burn signed by that delegate succeeds afterwards |
| WalletBurn.BurnLedger | programs/gateway-wallet/src/state.rs:362-390 | The depositor loses exactly burned plus charged, at most `max_fee` is charged, withdrawing is touched only once available is exhausted, and no other record changes |
| WalletBurn.BurnTokens | programs/gateway-wallet/src/instructions/gateway_burn.rs:300-330 | With T owed, min(value, T) leaves the supply and min(fee, T - value, if positive) goes to the fee account; every other account is unchanged |
| WalletBurn.BurnReport | programs/gateway-wallet/src/instructions/gateway_burn.rs:287-343 | The events carry the split and the spec hash; the shortfall notice comes first, exactly when T is less than value plus fee |
| WalletLog.LogIsLedger | programs/gateway-wallet/src/instructions/gateway_burn.rs:332-343 | In every reachable state, folding the events from their own fields gives exactly the ledger: keys, available, withdrawing and deadline |
| WalletLog.WithdrawingWasInitiated | programs/gateway-wallet/src/state.rs:296-338 | What is being withdrawn was initiated since the last completion, and then the deadline is positive |
| WalletLog.WithdrawWaited | programs/gateway-wallet/src/instructions/withdrawal.rs:76-97 | A withdrawal comes no earlier than the latest initiation plus its delay, so every unit waited at least the smallest delay in force since its own initiation |
| WalletLog.OwnDelayKeptIff | programs/gateway-wallet/src/state.rs:313-338 | In every reachable unpaused state, units pending since initiation j cannot be withdrawn before their own delay has passed, at any later slot and with any accounts, if and only if the latest initiation is due no earlier or that delay has passed already |
| WalletLog.NextInitiationKeepsOwnDelayIff | programs/gateway-wallet/src/instructions/initiate_withdrawal.rs:52-73 | After a further initiation the units pending since j still wait their own delay if and only if the slot plus the delay in force at that initiation is no earlier than their due slot |
| WalletLog.WaitsUntilIff | programs/gateway-wallet/src/instructions/withdrawal.rs:76-97 | Nothing can be withdrawn before a given slot if and only if the deadline or the current slot is no earlier |
| WalletLog.OwnDelayCanBeCut | programs/gateway-wallet/src/instructions/update_withdrawal_delay.rs:48-69 | The failing input: from any reachable state with a delay above one slot, a run in which units leave before the delay in force at their own initiation has passed; `OwnDelayKeptIff` has the exact condition |
| WalletHistory.NoHashBurnedTwice | programs/gateway-wallet/src/instructions/gateway_burn.rs:253-285 | No log of a reachable state has two burns with the same transfer spec hash |
| WalletHistory.RunKeepsUsed | shared/src/lib.rs:43-47 | Over any run a used hash stays used |
| WalletHistory.SameSpecBurnsOnce | programs/gateway-wallet/src/burn_data.rs:218-226 | After a burn, burn data with the same transfer spec fails in every later state, whatever its fee, signature, expiry or maximum fee |
| WalletHistory.ReachableDelegates | programs/gateway-wallet/src/instructions/add_delegate.rs:82-127 | Every delegate record is Authorized or Revoked, carries its own key, and was added in the log |
| WalletHistory.BurnWasAuthorized | programs/gateway-wallet/src/utils.rs:54-87 | A burn carries 65 bytes from which an enabled burn signer recovers for its own burn data, and its source signer is the depositor or a delegate that depositor once added for that mint, even if since revoked |
| WalletHistory.OwedFallsOnlyByConsent | programs/gateway-wallet/src/instructions/gateway_burn.rs:157-346 | Over every run, whenever what a depositor is owed for a mint falls, the step is that depositor's own withdrawal of that mint, or a burn on that record which an enabled burn signer signed and whose source signer is the depositor or a delegate once added |
| WalletHistory.LessOwedMeansDebited | programs/gateway-wallet/src/state.rs:270-390 | A depositor owed less at the end of a run than at its start made such a withdrawal, or agreed to such a burn, at some step of it |
| WalletHistory.BurnWasSigned | programs/gateway-wallet/src/instructions/gateway_burn.rs:169-174 | A top-level burn whose precompile passed was signed by its source signer over the whole burn intent |
| WalletHistory.BurnBoundIff | programs/gateway-wallet/src/instructions/gateway_burn.rs:348-395 | For any successful burn, that the precompile passed binds it to its own signature if and only if the windows of the current instruction, if they exist, are the record's fields |
| WalletHistory.BurnIgnoresCurrent | programs/gateway-wallet/src/instructions/gateway_burn.rs:358-395 | In every environment, state and call, replacing the transaction's current instruction by any other leaves the burn's outcome and state unchanged |
| WalletHistory.EveryBurnCanBeUnbound | programs/gateway-wallet/src/instructions/gateway_burn.rs:358-395 | Every burn that succeeds, at top level too, succeeds just the same under a current instruction of any given program to which the precompile does not bind it |
| WalletBurnExample.InvokedBurnIsUnbound | programs/gateway-wallet/src/instructions/gateway_burn.rs:358-395 | A concrete input: a burn invoked by another program that succeeds in a reachable state, with the precompile passing, on a signature that does not verify |
| WalletHistory.PausedFreezesRecords | programs/gateway-wallet/src/instructions/deposit.rs:43-48 | While paused, no run without an unpause changes a deposit or delegate record |
| WalletHistory.DenylistedNeverGrows | programs/gateway-wallet/src/instructions/deposit_for.rs:95-118 | While denylisted, a depositor's available plus withdrawing never grows, over any run |
| WalletHistory.TokensOnlyGrowOverRun | programs/gateway-wallet/src/state.rs:137-150 | Over any run the token and bump lists only grow at the end |
| WalletHistory.RegistryInvariant | programs/gateway-wallet/src/state.rs:127-159 | In reachable states the registry is a bounded map to canonical bumps, and every deposit record's identity fields match its key and a supported token |
| WalletGates.AddDelegateSucceedsIff | programs/gateway-wallet/src/instructions/add_delegate.rs:82-127 | Adding a delegate succeeds if and only if not paused, the mint is supported, the delegate is neither default nor the depositor, and neither is denylisted; it writes that one authorized record |
| WalletGates.RemoveDelegateSucceedsIff | programs/gateway-wallet/src/instructions/remove_delegate.rs:69-110 | Removing one succeeds if and only if the record exists and the other gates hold, whatever its status; only an authorized record changes, to revoked |
| WalletErrors.AddDelegateErrors | programs/gateway-wallet/src/instructions/add_delegate.rs:82-127 | The six errors of adding a delegate, each with its condition |
| WalletErrors.RemoveDelegateErrors | programs/gateway-wallet/src/instructions/remove_delegate.rs:69-110 | The six errors of removing a delegate, each with its condition |
| WalletGates.AdminSucceedsIff | programs/gateway-wallet/src/instructions/pause.rs:28-50 | Every administrative instruction succeeds if and only if its signer has the role it names and its own conditions hold |
| WalletGates.AdminDoes | programs/gateway-wallet/src/instructions/accept_ownership.rs:46-63 | Every administrative instruction changes the one setting, list membership or role that it names, creates at most the custody account of an added token, and leaves ledger, delegates and balances alone |
| WalletGates.AdminReports | programs/gateway-wallet/src/instructions/update_withdrawal_delay.rs:48-69 | Every administrative instruction appends one event; a changed delay is reported as old, then new |
| WalletErrors.AdminErrors | programs/gateway-wallet/src/instructions/update_withdrawal_delay.rs:29-69 | The ten errors of administrative instructions, each with its condition |
| WalletGates.OnlyAdminSets | programs/gateway-wallet/src/lib.rs:44-191 | No other instruction touches the settings or the denylist |
| WalletGates.PauseFreezes | programs/gateway-wallet/src/instructions/pause.rs:42-50 | After a successful pause no deposit or delegate record changes over any run without an unpause |
| WalletGates.PausedRefusesAll | programs/gateway-wallet/src/instructions/gateway_burn.rs:95-99 | While paused every deposit, initiation, withdrawal, burn and delegate instruction fails |
| WalletGates.UnpauseReopens | programs/gateway-wallet/src/instructions/unpause.rs:43-51 | After an unpause a deposit succeeds exactly on its other gates |
| WalletGates.DenylistFreezes | programs/gateway-wallet/src/instructions/denylist.rs:65-71 | After denylisting an account, what it is owed never grows over any run that does not undenylist it |
| WalletGates.UndenylistReopens | programs/gateway-wallet/src/instructions/undenylist.rs:61-67 | After undenylisting, the account can deposit exactly on the other gates |
| WalletGates.RemovedSignerNeverBurns | programs/gateway-wallet/src/instructions/remove_burn_signer.rs:48-61 | After removing a burn signer, no burn whose data that key signed succeeds over any run until the key is added again |
| WalletGates.FeesGoToRecipient | programs/gateway-wallet/src/instructions/update_fee_recipient.rs:48-68 | After the fee recipient becomes r, over any run that does not change it again, every burn charges its fee to r's associated account of the burn's mint |
| WalletGates.InitiationsWaitTheDelay | programs/gateway-wallet/src/instructions/update_withdrawal_delay.rs:48-69 | After the delay becomes d, over any run that does not change it again, every initiation is due d slots later |
| MinterProgram.GatewayMinter.AddToken | programs/gateway-minter/src/state.rs:66-79 | The two lists are extended together or not at all |
| MinterProgram.Program.MintElement | programs/gateway-minter/src/instructions/gateway_mint.rs:154-212 | The loop's body does to the state what one element's step does |
| MinterProgram.Program.MintElements | programs/gateway-minter/src/instructions/gateway_mint.rs:152-224 | The loop over the cursor mints exactly the remaining bytes' elements in order; the account index is three times the elements done and the closing count check cannot fail |
| MinterProgram.Program.CheckHeader | programs/gateway-minter/src/instructions/gateway_mint.rs:99-137 | The header checks as statements, field by field, have the outcome of the header checks; no read of the header can fail |
| MinterProgram.Program.GatewayMintHandler | programs/gateway-minter/src/instructions/gateway_mint.rs:85-225 | The handler's outcome and state are those of the mint step |
| MinterProgram.Program.ReconstructAttestationBytes | programs/gateway-minter/src/instructions/gateway_mint.rs:338-387 | The loop over the parameters produces the encoding of the rebuilt set, or the same error |
| MinterProgram.Program.GatewayMintWithParamsHandler | programs/gateway-minter/src/instructions/gateway_mint.rs:319-336 | The handler's outcome and state are those of the parameter-mode step |
| MinterProgram.Program.BurnTokenCustodyHandler | programs/gateway-minter/src/instructions/burn_token_custody.rs:63-90 | The handler's outcome and state are those of the capped burn |
| MinterProgram.Program.Execute | programs/gateway-minter/src/lib.rs:43-132 | Every transaction changes the whole state as the step says on success and leaves it untouched on failure |
| MinterModes.LoopMintsParsed | programs/gateway-minter/src/instructions/gateway_mint.rs:152-215 | Reading each element only when its turn comes mints the same as parsing first and then minting the list |
| MinterModes.MintIsParseThenMint | programs/gateway-minter/src/instructions/gateway_mint.rs:85-225 | A mint succeeds exactly when the bytes parse, the checks pass and the parsed list mints, with the same state |
| MinterCalls.MintSucceedsIff | programs/gateway-minter/src/instructions/gateway_mint.rs:85-225 | Where, as the token program ensures, no mint has more than 2^64 - 1 units: a mint succeeds if and only if the program is not paused, an enabled attester recovers from the 65 signature bytes for the hash of these bytes, and they encode a set whose header fits, with fewer than 1431655766 elements, three accounts each, and a list that mints |
| MinterCalls.ParamsMintSucceedsIff | programs/gateway-minter/src/instructions/gateway_mint.rs:319-387 | With counts that fit 32 bits and under the same bound: a parameter-mode mint succeeds if and only if not paused, an attester's signature covers the rebuilt set's encoding, and that set is nonempty, unexpired, below 1431655766 elements and mints |
| MinterGates.MintSignatureCoversData | programs/gateway-minter/src/state.rs:198-221 | A successful mint has 65 signature bytes from which, for the keccak hash of the 28 prefix bytes and the hash of its own bytes, an enabled attester recovers |
| MinterGates.UncoveredMintFails | programs/gateway-minter/src/state.rs:198-221 | Bytes for whose own signed hash no enabled attester recovers are not minted |
| MinterGates.NoAttesterNoMint | programs/gateway-minter/src/state.rs:214-218 | With no attester enabled neither mode mints |
| MinterGates.HeaderErrors | programs/gateway-minter/src/instructions/gateway_mint.rs:99-137 | The five errors of the header checks, each with its condition |
| MinterGates.BeforeLoopErrors | programs/gateway-minter/src/instructions/gateway_mint.rs:85-150 | What each error before the loop reports about pause, signature, bytes, count and accounts |
| MinterGates.MintOneErrors | programs/gateway-minter/src/instructions/gateway_mint.rs:152-215 | What each of the thirteen errors of one element reports about its three accounts, its value and its hash |
| MinterGates.ParamsErrors | programs/gateway-minter/src/instructions/gateway_mint.rs:319-353 | What the parameter mode refuses before it has bytes: no elements, a wrong number of accounts, and a recipient that is no token account |
| MinterGates.MintMarksAccount | programs/gateway-minter/src/state.rs:49-51 | An element marks exactly the account derived from its hash: the program's, holding the two bytes 11 and 1 |
| MinterCalls.MintAllIff | programs/gateway-minter/src/instructions/gateway_mint.rs:152-215 | Under the same bound on supplies: a list mints if and only if, in the state before it, every element fits its three accounts, its value is covered by its custody account plus what the elements before it bring less what they take, the hash accounts are vacant and pairwise distinct, and the payer covers all their rent |
| MinterExample.SomeMintSucceeds | programs/gateway-minter/src/instructions/gateway_mint.rs:85-225 | A concrete mint after initialisation, token and attester set-up succeeds: of 100 in custody 40 reach the recipient |
| MinterExample.ShortBytesAbort | programs/gateway-minter/src/instructions/gateway_mint.rs:142-146 | The input of the abort: 196 attested bytes with a count field of 1431655766 and no accounts |
| MinterModes.CustodyMintsAgree | programs/gateway-minter/src/instructions/gateway_mint.rs:172-183 | A list that mints has no custody account of another mint than its recipient account's |
| MinterModes.OtherMintNeverMints | programs/gateway-minter/src/instructions/gateway_mint.rs:172-183 | With one such custody account among the accounts passed, neither mode mints anything |
| MinterModes.MintAbortsIff | programs/gateway-minter/src/instructions/gateway_mint.rs:142-146 | The byte mode aborts by overflow if and only if not paused, attested, opened, past the header checks and with a count field of at least 1431655766 |
| MinterModes.RebuildsMinted | programs/gateway-minter/src/instructions/gateway_mint.rs:349-367 | Rebuilding the elements of a successful mint from their projection gives them back |
| MinterModes.ParamsModeIsComplete | programs/gateway-minter/src/instructions/gateway_mint.rs:319-387 | Whenever the byte mode succeeds, rebuilding from the projection gives the same bytes, and the parameter mode has the same final state and events |
| MinterModes.ParamsModeOutcome | programs/gateway-minter/src/instructions/gateway_mint.rs:338-387 | On rebuilt bytes the outcome is decided by signature, expiry, the 32-bit product and minting the list; parse, version, caller, domain and contract checks never fail |
| MinterModes.ParamsModeIsSound | programs/gateway-minter/src/instructions/gateway_mint.rs:97-190 | The errors left to the parameter mode are signature, expiry, the 32-bit count from 1431655766 elements on, and each element's custody, hash, value and balance |
| MinterHistory.MintAllMoves | programs/gateway-minter/src/state.rs:160-184 | A minted list changes each account by what its elements pay to it less what they take from it, with shared recipients, repeated mints and recipient equal to custody; supplies are conserved |
| MinterHistory.MintMovesSet | programs/gateway-minter/src/instructions/gateway_mint.rs:152-222 | A successful mint moves the values of exactly the parsed set's elements, once each |
| MinterHistory.SetMarksDistinctHashes | programs/gateway-minter/src/instructions/gateway_mint.rs:275-317 | The hashes of one minted set are pairwise distinct, were all unused and are all used afterwards |
| MinterHistory.InitialIsOnce | programs/gateway-minter/src/instructions/initialize.rs:66-81 | The state after initialisation satisfies the invariant behind at-most-once minting |
| MinterHistory.NoHashMintedTwice | programs/gateway-minter/src/instructions/gateway_mint.rs:295-303 | Over any run no transfer spec hash is minted twice, across sets or inside one |
| MinterHistory.BurnCustodyCapped | programs/gateway-minter/src/instructions/burn_token_custody.rs:63-90 | The controller burns the smaller of the amount and the custody balance, and only that account and supply change |
| MinterGates.BurnCustodySucceedsIff | programs/gateway-minter/src/instructions/burn_token_custody.rs:63-90 | A custody burn succeeds if and only if the token controller asks for a positive amount of a supported mint from its canonical custody account; an amount above the balance burns the whole balance |
| MinterGates.CustodyIsDerived | programs/gateway-minter/src/instructions/burn_token_custody.rs:33-61 | The custody account of a mint is the address derived from it and its canonical bump, for supported mints only |
| MinterGates.AdminSucceedsIff | programs/gateway-minter/src/instructions/add_attester.rs:29-64 | Every administrative instruction succeeds if and only if its signer has the role it names and its own conditions hold |
| MinterGates.AdminDoes | programs/gateway-minter/src/instructions/accept_ownership.rs:46-63 | Every administrative instruction changes the one setting, list membership or role that it names, creates at most the custody account of an added token, and moves no token |
| MinterGates.AdminErrors | programs/gateway-minter/src/instructions/add_attester.rs:29-64 | The seven errors of administrative instructions, each with its condition |
| MinterGates.PauseStopsMinting | programs/gateway-minter/src/instructions/pause.rs:42-50 | After a successful pause both modes answer `ProgramPaused` over any run without an unpause |
| MinterGates.UnpauseReopens | programs/gateway-minter/src/instructions/unpause.rs:43-51 | After an unpause a set mints exactly on its other conditions |
| MinterGates.RemovedAttesterNeverMints | programs/gateway-minter/src/instructions/remove_attester.rs:48-61 | After removing an attester, nothing that key signed is minted in either mode, over any run until the key is added again |
| MinterHistory.RunKeepsRegistry | programs/gateway-minter/src/state.rs:56-109 | Over any run the token registry stays a bounded map to canonical bumps that only grows, and the attester list stays bounded and duplicate free |

## Left out

- Cryptography: keccak, secp256k1 recovery with its low-s rule and the Ed25519 curve are arbitrary functions.
- Account serialisation, Borsh, CPI contexts and compute limits; the accounts are their logical values.
- `emit_cpi`: an event is an entry of the log; that its CPI succeeds is not modelled.
- Rent of deposit, delegate and denylist accounts that `init_if_needed` creates, and their lamports.
- `delegate.closeable_at_block` and the bump of delegate records, which no instruction reads beyond seed checks.
- SPL token freezing, close authority, delegates and decimals; tokens are accounts with a mint, an owner and an amount.
- The initialisation instructions; the state that they leave is where runs start.
- The authorities of administrative instructions are compared by key; program upgrade and its authority are not modelled.
- `usize` additions inside the `BurnData` readers are unbounded; they only add constants and 32-bit lengths to offsets.
- Attesters and burn signers deciding what to sign, and any link between burns and mints: no on-chain code enforces it.
- Logging, `security_txt`, entry point dispatch and scripts.
- Attestation.NewMintAttestation: for slices of at most 2^63 - 1 bytes, the most that Rust allows; MintAttestation and the minter's handlers inherit it.
- MinterCalls.ParamsMintSucceedsIff: parameters with 2^32 or more elements or hook bytes, whose counts the encoder truncates; `MinterCalls.MintSucceedsIff` decides what is made of their bytes.
- WalletHistory.BurnWasSigned: that the burn is the current top-level instruction and that the runtime ran the precompile with success are hypotheses; `BurnBoundIff` has the general case.
- WalletExit.EveryoneCanLeave: depositors who cannot sign are not covered; `deposit_for` accepts any address as depositor, the program's own state account included.
