# Car-license ledger: transition rules and initiator flows

This project models the core of a Corda application that keeps car licenses on a shared ledger.
A license record `(licensePlate, issuer, licensee, linearId)` is created by an Issue flow. A Transfer
flow moves it to a new licensee, and a Scrap flow retires it. The model covers three things:

- The record and its two operations, `participants` and `changeLicensee`.
- The contract's `verify`, which exists twice and is modelled twice: once for the Kotlin
  implementation and once for the Java one. Each is a pure function from a transaction (inputs,
  outputs, commands with signer keys) to `Pass` or the first rule that failed. Within a command the
  order is shape, then content, then signers.
- The initiator side of each flow. Its pure part is a builder that returns the transaction plus
  the parties to open sessions with, or an error. After it comes the protocol common to all flows
  (`Proposer.Propose`): verify locally, self-sign, collect counter-signatures, finalise.

Parties are opaque values. A party's signing key comes from a function parameter
`owningKey: Party -> PublicKey`, and lemmas that need distinct keys require `Injective(owningKey)`.
The record's `linearId` is a parameter, because the source draws it at random. Three outside
answers are also parameters: whether each counterparty signs (`countersigns`), whether the notary
accepts (`notarised`), and the vault's records (`vault`).

The central results are:

- Each builder's output is accepted by the matching contract exactly when the parties involved are
  pairwise different.
- The session set of each builder equals the required signers minus the caller.
- A whole run finalises exactly when the transaction is valid, every counterparty signs and the
  notary accepts. The finalised signatures are then exactly the command's signer set.
- The Java contract is the Kotlin contract plus a signer-count check. With distinct keys this
  means the Java contract additionally rejects three transactions: a transfer to the current
  licensee, a transfer of a record whose issuer is also its old licensee, and a scrap of a record
  its issuer holds. The Kotlin contract accepts all three.
- A license issued to one party, transferred by its issuer to a second party and then scrapped by
  its issuer passes the Java contract at every step (`Lifecycle.IssueTransferScrap`).

Files: `wrappers.dfy` (result types), `collections.dfy` (list-to-set, list removal),
`identity.dfy`, `state.dfy`, `transactions.dfy`, `vault.dfy`, `contract_kotlin.dfy`,
`contract_java.dfy`, `contract_divergence.dfy`, `proposer.dfy`, `issue_flow_java.dfy`,
`transfer_flow_java.dfy`, `scrap_flow_java.dfy`, `issue_flow_kotlin.dfy`, `lifecycle.dfy`.

## Model

| member | source | states |
|---|---|---|
| State.CarLicenseState.Participants | contracts-kotlin/src/main/kotlin/com/review/state/CarLicenseState.kt:28 | the participants are two, issuer first then licensee, and a party is a participant iff it is the issuer or the licensee |
| State.CarLicenseState.ChangeLicensee | contracts-kotlin/src/main/kotlin/com/review/state/CarLicenseState.kt:31 | the copy has the new licensee; plate, issuer and linear id are unchanged |
| State.ChangeToSameLicenseeIsIdentity | contracts-kotlin/src/main/kotlin/com/review/state/CarLicenseState.kt:31 | changing to the current licensee returns the same record |
| State.ChangeLicenseeLastWriteWins | contracts-kotlin/src/main/kotlin/com/review/state/CarLicenseState.kt:31 | two licensee changes in a row equal the last one alone |
| State.SameUpToLicensee | contracts-kotlin/src/main/kotlin/com/review/contract/CarLicenseContract.kt:65 | the Kotlin whole-record comparison `input == output.changeLicensee(input.licensee)` holds iff plate, issuer and linear id agree; this is the Java contract's field-by-field check |
| Identity.KeysOf | workflows-kotlin/src/main/kotlin/com/example/flow/CarLicenseIssueFlow.kt:69 | `map { it.owningKey }` gives one key per party, in list order: the key at each position is the owning key of the party at that position |
| Collections.ToSet | contracts-java/src/main/java/com/review/contract/CarLicenseContract.java:75-78 | building a set from the signer list keeps exactly the listed keys and never grows |
| Collections.ToSetSizeIffDistinct | contracts-java/src/main/java/com/review/contract/CarLicenseContract.java:80-81 | the signer set is as large as the signer list iff the list has no duplicate key, which is what the size checks rely on |
| Collections.RemoveFirst | workflows-kotlin/src/main/kotlin/com/example/flow/CarLicenseIssueFlow.kt:85 | `list - element` removes one occurrence, as a multiset difference, and only when the element is present |
| Collections.RemoveFirstSplitsAtFirst | workflows-kotlin/src/main/kotlin/com/example/flow/CarLicenseIssueFlow.kt:85 | `list - element` removes the first occurrence, at the returned position: the elements before it stay in place and those after it move up by one, so order is kept |
| Transactions.LicenseCommands | contracts-kotlin/src/main/kotlin/com/review/contract/CarLicenseContract.kt:41 | the commands considered by the single-command selection are exactly those of license kind, and there are never more of them than commands |
| Transactions.RequireSingleCommand | contracts-kotlin/src/main/kotlin/com/review/contract/CarLicenseContract.kt:41 | succeeds iff exactly one license command is present and returns it; otherwise it fails with the count found |
| Transactions.LicenseCommandsKeepMultiplicity | contracts-kotlin/src/main/kotlin/com/review/contract/CarLicenseContract.kt:41 | the license commands considered by the single-command selection are kept with their multiplicity; other commands are dropped |
| Transactions.RepeatedLicenseCommandRejected | contracts-kotlin/src/main/kotlin/com/review/contract/CarLicenseContract.kt:41 | the same license command listed twice is not a single command: the selection fails with a count of two |
| ContractKotlin.VerifyCreate | contracts-kotlin/src/main/kotlin/com/review/contract/CarLicenseContract.kt:43-56 | Create passes iff there are no inputs, one output, issuer ≠ licensee, and the signer set is exactly {issuer key, licensee key}; shape failures come before the content failure, which comes before the signer failure; with shape and content met, any failure is the signer message |
| ContractKotlin.TransferRecords | contracts-kotlin/src/main/kotlin/com/review/contract/CarLicenseContract.kt:63-71 | the Transfer content and signer rules pass iff plate, issuer and linear id are unchanged, the new licensee is not the issuer, and the signer set is exactly the keys of issuer, old licensee and new licensee (no size check); with the content rules met, any failure is the signer message |
| ContractKotlin.TransferSignerRule | contracts-kotlin/src/main/kotlin/com/review/contract/CarLicenseContract.kt:68-70 | the Transfer signer rule passes iff the signer set equals the keys of the participants of input and output together; its only failure is the signer message |
| ContractKotlin.VerifyTransfer | contracts-kotlin/src/main/kotlin/com/review/contract/CarLicenseContract.kt:57-60 | Transfer fails with a shape violation unless there is one input and one output; then its verdict, including the violation reported, is that of the record rules |
| ContractKotlin.VerifyScrap | contracts-kotlin/src/main/kotlin/com/review/contract/CarLicenseContract.kt:73-86 | Scrap passes iff there is one input, no output, and the signer set is exactly the input's {issuer key, licensee key}; there is no content rule, so with the shape met any failure is the signer message |
| ContractKotlin.Verify | contracts-kotlin/src/main/kotlin/com/review/contract/CarLicenseContract.kt:40-89 | anything but exactly one license command fails before any rule; otherwise the command kind selects the rule set |
| ContractJava.VerifyCreate | contracts-java/src/main/java/com/review/contract/CarLicenseContract.java:63-85 | as the Kotlin Create, plus the signer set must have exactly two keys; with shape and content met, any failure is the signer message |
| ContractJava.TransferRecords | contracts-java/src/main/java/com/review/contract/CarLicenseContract.java:95-112 | the Transfer content and signer rules pass iff issuer, plate and linear id agree, the new licensee is not the issuer, and the signer set is exactly {issuer, old licensee, new licensee} keys with three elements; with the content rules met, any failure is the signer message |
| ContractJava.TransferSignerRule | contracts-java/src/main/java/com/review/contract/CarLicenseContract.java:104-112 | the Transfer signer rule passes iff the signer set equals the input's participant keys plus the new licensee's key and has three elements; its only failure is the signer message |
| ContractJava.VerifyTransfer | contracts-java/src/main/java/com/review/contract/CarLicenseContract.java:87-92 | Transfer fails with a shape violation unless there is one input and one output; then its verdict, including the violation reported, is that of the record rules |
| ContractJava.VerifyScrap | contracts-java/src/main/java/com/review/contract/CarLicenseContract.java:119-140 | as the Kotlin Scrap, plus the signer set must have exactly two keys; with the shape met, any failure is the signer message |
| ContractJava.Verify | contracts-java/src/main/java/com/review/contract/CarLicenseContract.java:57-141 | anything but exactly one license command fails before any rule; otherwise the command kind selects the rule set |
| ContractDivergence.JavaIsKotlinPlusSignerCount | contracts-java/src/main/java/com/review/contract/CarLicenseContract.java:80-81 | for every transaction and key map, the Java contract passes iff the Kotlin contract passes and the signer set has 2 (Create, Scrap) or 3 (Transfer) keys; so Java acceptance implies Kotlin acceptance |
| ContractDivergence.JavaIsKotlinWithDistinctParties | contracts-java/src/main/java/com/review/contract/CarLicenseContract.java:104-112 | with distinct keys, the Java contract passes iff the Kotlin contract passes and the signing parties are pairwise different (old licensee ≠ issuer and ≠ new licensee on Transfer, issuer ≠ licensee on Scrap) |
| ContractDivergence.TransferToCurrentLicensee | contracts-java/src/main/java/com/review/contract/CarLicenseContract.java:111-112 | the transaction the Java Transfer flow builds for a transfer to the current licensee passes the Kotlin contract and fails the Java signer rule |
| ContractDivergence.ScrapOfSelfHeldRecord | contracts-java/src/main/java/com/review/contract/CarLicenseContract.java:135-136 | scrapping a record whose issuer is its licensee passes the Kotlin contract and fails the Java signer rule |
| Vault.FirstByLinearId | workflows-java/src/main/java/com/example/flow/CarLicenseTransferFlow.java:75-80 | the lookup returns the first record carrying the identifier, and returns none iff no record carries it |
| Proposer.Propose | workflows-java/src/main/java/com/example/flow/CarLicenseIssueFlow.java:92-111 | steps run in the order verify, sign, gather signatures, finalise; a contract violation stops the run before signing and before any session; finality uses the sessions of signature collection; a run succeeds iff the verdict passes, every session signs and the notary accepts; the signatures are then the caller's key plus the session parties' keys; a refused signature aborts signature collection with `Declined` before finality, after the verify, sign and gather steps; with every signature collected, a notary refusal is reported as `NotaryRejected` after the finalising step |
| Proposer.OneSessionOutcome | workflows-java/src/main/java/com/example/flow/CarLicenseIssueFlow.java:101-111 | a valid proposal with one counterparty finalises iff that party signs and the notary accepts, and then carries exactly the caller's and the counterparty's keys |
| Proposer.TwoSessionOutcome | workflows-java/src/main/java/com/example/flow/CarLicenseTransferFlow.java:112-125 | a valid proposal with two counterparties finalises iff both sign and the notary accepts, and then carries exactly the caller's and both counterparties' keys |
| IssueFlowJava.Build | workflows-java/src/main/java/com/example/flow/CarLicenseIssueFlow.java:79-90 | no input, one output, one command; the record has the given plate, issuer and linear id and the caller as licensee; the Create signers are the record's participant keys; the one session is with the issuer |
| IssueFlowJava.BuildAcceptedIffDistinct | workflows-java/src/main/java/com/example/flow/CarLicenseIssueFlow.java:79-94 | with distinct keys the Java contract accepts the built transaction iff issuer ≠ caller, and otherwise reports the content rule |
| IssueFlowJava.BuildSessionsAreOtherSigners | workflows-java/src/main/java/com/example/flow/CarLicenseIssueFlow.java:101-104 | the session keys are the signer keys minus the caller's |
| IssueFlowJava.CallOutcome | workflows-java/src/main/java/com/example/flow/CarLicenseIssueFlow.java:76-113 | describes `IssueFlowJava.Call`, the whole run: a run finalises iff issuer ≠ caller, the issuer signs and the notary accepts; the result holds the new record and exactly the issuer's and the caller's signatures; self-issue stops at verification with no session |
| TransferFlowJava.Assemble | workflows-java/src/main/java/com/example/flow/CarLicenseTransferFlow.java:85-102 | consumes the looked-up record and produces its `changeLicensee` copy; the signers are the input's participant keys followed by the new licensee's key; sessions are old and new licensee |
| TransferFlowJava.Build | workflows-java/src/main/java/com/example/flow/CarLicenseTransferFlow.java:74-83 | fails with not-found iff no record carries the identifier; fails with the not-issuer message when the found record's issuer is not the caller; the record decided on is the first in the vault carrying the identifier: not-issuer iff its issuer is not the caller, success iff it is, and the proposal is assembled around exactly that record |
| TransferFlowJava.AssembledAcceptedIffDistinct | workflows-java/src/main/java/com/example/flow/CarLicenseTransferFlow.java:85-106 | with distinct keys the Java contract accepts the assembled transfer iff issuer, old and new licensee are pairwise different; a transfer to the current licensee fails the signer rule |
| TransferFlowJava.AssembledSessionsAreOtherSigners | workflows-java/src/main/java/com/example/flow/CarLicenseTransferFlow.java:114-118 | when the issuer is neither licensee, the session keys are the signer keys minus the issuer's |
| TransferFlowJava.CallOutcome | workflows-java/src/main/java/com/example/flow/CarLicenseTransferFlow.java:72-127 | describes `TransferFlowJava.Call`, the whole run: a run finalises iff the record is found, the caller issued it, the three parties differ, both licensees sign and the notary accepts; the result consumes the record, produces its new-licensee copy and holds exactly the three keys; a missing record or a non-issuer caller stops before any step |
| ScrapFlowJava.Assemble | workflows-java/src/main/java/com/example/flow/CarLicenseScrapFlow.java:84-89 | consumes the record and produces nothing; the Scrap signers are the record's participant keys; the one session is with the licensee |
| ScrapFlowJava.Build | workflows-java/src/main/java/com/example/flow/CarLicenseScrapFlow.java:69-78 | fails with not-found iff no record carries the identifier; fails with the not-issuer message when the caller is not the found record's issuer; the record decided on is the first in the vault carrying the identifier: not-issuer iff its issuer is not the caller, success iff it is, and the proposal is assembled around exactly that record |
| ScrapFlowJava.AssembledAcceptedIffDistinct | workflows-java/src/main/java/com/example/flow/CarLicenseScrapFlow.java:84-93 | with distinct keys the Java contract accepts the assembled scrap iff issuer ≠ licensee, and otherwise reports the signer rule |
| ScrapFlowJava.AssembledSessionsAreOtherSigners | workflows-java/src/main/java/com/example/flow/CarLicenseScrapFlow.java:101-104 | when issuer ≠ licensee, the session keys are the signer keys minus the issuer's |
| ScrapFlowJava.CallOutcome | workflows-java/src/main/java/com/example/flow/CarLicenseScrapFlow.java:67-113 | describes `ScrapFlowJava.Call`, the whole run: a run finalises iff the record is found, the caller issued it, the licensee is another party who signs, and the notary accepts; the result consumes the record and holds exactly the two keys |
| IssueFlowKotlin.Build | workflows-kotlin/src/main/kotlin/com/example/flow/CarLicenseIssueFlow.kt:61-73 | fails iff the node does not have exactly one legal identity; otherwise that identity is the licensee, the signers are the participant keys, and the sessions are the participants less one copy of the caller |
| IssueFlowKotlin.BuildSessions | workflows-kotlin/src/main/kotlin/com/example/flow/CarLicenseIssueFlow.kt:85 | the sessions are exactly [issuer] when issuer ≠ caller; on self-issue only one copy of the caller is removed, which leaves [caller] |
| IssueFlowKotlin.BuildAcceptedIffDistinct | workflows-kotlin/src/main/kotlin/com/example/flow/CarLicenseIssueFlow.kt:61-77 | for any key map the Kotlin contract accepts the built transaction iff issuer ≠ caller, and otherwise reports the content rule |
| IssueFlowKotlin.BuildSessionsAreOtherSigners | workflows-kotlin/src/main/kotlin/com/example/flow/CarLicenseIssueFlow.kt:69-85 | with distinct keys and issuer ≠ caller, the session keys are the signer keys minus the caller's |
| IssueFlowKotlin.CallOutcome | workflows-kotlin/src/main/kotlin/com/example/flow/CarLicenseIssueFlow.kt:59-93 | describes `IssueFlowKotlin.Call`, the whole run: a run finalises iff there is one legal identity, the issuer is another party who signs, and the notary accepts; the result holds the new record and exactly the signer set of its command |
| Lifecycle.IssueTransferScrap | workflows-java/src/main/java/com/example/flow/CarLicenseTransferFlow.java:74-102 | with distinct keys and three different parties, the Transfer flow finds the record the Issue flow produced and the Scrap flow finds the transferred record; all three transactions pass the Java contract, and the scrap consumes the transferred record and produces nothing |

## Left out

- Network, sessions, the notary and storage are outside the model. `CollectSignaturesFlow`, `FinalityFlow`, `SignTransactionFlow`, `ReceiveFinalityFlow`, `TransactionBuilder.verify` and notary selection are library code that is not part of this model. Only their outcomes are modelled: a counterparty signs or declines (`countersigns`), and the notary accepts or rejects (`notarised`). Double-spend detection, timeouts, delivery retries and concurrent runs are not modelled.
- The Acceptor flows are left out. Their `checkTransaction` accepts everything, so their only effect is whether they sign, which the `countersigns` parameter covers.
- Progress trackers and the debug printout in the Transfer flow are left out. They do not affect the outcome. The `Step` values record the protocol order, not the tracker.
- The Java `!=` on parties in the Create and Transfer content rules compares object references. The model compares party values instead. Two separately deserialised copies of the same party would pass `!=` in Java, but the model treats them as equal. The set of accepted transactions is the same either way: such copies share one key, so the Java size check fails instead (one key where Create needs two, two where Transfer needs three). Only the reported violation differs. For self-issue in the Java Issue flow and for a transfer to the issuer, Java with separate copies would report the signer rule where the model reports the content rule.
- The Java contract and flows are modelled against the Kotlin record shape. The Java `CarLicenseState` class is an empty stub with no fields and no participants, and it does not declare the accessors the Java contract and flows call.
- The Kotlin Scrap flow is left out. It only signs an empty builder with no notary and has no license logic.
- Transactions hold license records only. States of other contracts, and the cast failures they would cause, are not modelled. Commands of other contracts are modelled (`Other`) and are ignored when the single license command is selected.
- The vault query is reduced to "the first live record with this linear id" (`Vault.FirstByLinearId`). The query criteria, paging and state status filter are library behaviour.
- Neither Java flow tests for an empty query result. `results.getStates().get(0)` (CarLicenseTransferFlow.java:79, CarLicenseScrapFlow.java:74) then throws an index exception. The model names that crash `NotFound`, so it is an error result rather than an exception.
- `serviceHub.myInfo.legalIdentities.single()` (CarLicenseIssueFlow.kt:61) throws when the node has zero or several legal identities. The model returns the error result `NoSingleIdentity(count)` instead of an exception.
- `UniqueIdentifier()` randomness is left out: the linear id is passed in.
- Both contract sources declare the same class name. The model pairs the Java flows with the Java contract and the Kotlin flow with the Kotlin contract. `ContractDivergence` shows what changes when the other contract is used.
- The Java Transfer signer set unions the input's participants with the new licensee's key. The Kotlin one unions the participants of input and output. The model follows each text literally, and the two coincide once the content rules hold. Unlike the Java contract, the Kotlin code has no size check.
