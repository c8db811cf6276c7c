/** The Kotlin Issue initiator: as the Java one, but the caller's identity must be its node's
    single legal identity, the signers are the new record's participant keys, and sessions are
    opened with the participants once the caller is taken out of that list. */
module IssueFlowKotlin {
  import opened Wrappers
  import opened Identity
  import opened Collections
  import opened State
  import opened Transactions
  import opened Proposer
  import ContractKotlin

  /** The builder. It fails unless the node has exactly one legal identity; otherwise that identity
      becomes the licensee of a new record issued by `issuer`, the Create signers are the record's
      participant keys, and the sessions are the participants with the first occurrence of the
      caller removed. */
  function Build(legalIdentities: seq<Party>, issuer: Party, licensePlate: string, linearId: UniqueIdentifier,
                 owningKey: Party -> PublicKey): (r: Result<Proposal, FlowError>)
    ensures r.Failure? <==> |legalIdentities| != 1
    ensures r.Failure? ==> r.error == NoSingleIdentity(|legalIdentities|)
    ensures r.Success? ==>
      var me := legalIdentities[0];
      && |r.value.tx.inputs| == 0 && |r.value.tx.outputs| == 1 && |r.value.tx.commands| == 1
      && r.value.tx.outputs[0] == CarLicenseState(licensePlate, issuer, me, linearId)
      && r.value.tx.commands[0] == Command(License(Create), KeysOf(r.value.tx.outputs[0].Participants(), owningKey))
      && multiset(r.value.sessions) == multiset{issuer, me} - multiset{me}
  {
    if |legalIdentities| != 1 then Failure(NoSingleIdentity(|legalIdentities|))
    else
      var myIdentity := legalIdentities[0];
      var newState := CarLicenseState(licensePlate, issuer, myIdentity, linearId);
      var issueSigners := KeysOf(newState.Participants(), owningKey);
      var issueCommand := Command(License(Create), issueSigners);
      var sessions := RemoveFirst(newState.Participants(), myIdentity);
      Success(Proposal(LedgerTransaction([], [newState], [issueCommand]), sessions))
  }

  /** Removing the caller from the participants leaves exactly the issuer when the two differ.
      When the caller issues to itself only the first copy is removed, so the caller would open a
      session with itself; verification rejects that transaction before any session is opened. */
  lemma BuildSessions(me: Party, issuer: Party, licensePlate: string, linearId: UniqueIdentifier,
                      owningKey: Party -> PublicKey)
    ensures var r := Build([me], issuer, licensePlate, linearId, owningKey);
      r.Success? && (issuer != me ==> r.value.sessions == [issuer]) && (issuer == me ==> r.value.sessions == [me])
  {
    var r := Build([me], issuer, licensePlate, linearId, owningKey);
    assert r.value.sessions == RemoveFirst([issuer, me], me);
    if issuer != me {
      assert RemoveFirst([issuer, me], me) == [issuer] + RemoveFirst([me], me);
    }
  }

  /** The Kotlin contract accepts the built transaction exactly when the issuer is not the caller,
      whatever the keys: the signers are the participant keys by construction. */
  lemma BuildAcceptedIffDistinct(me: Party, issuer: Party, licensePlate: string, linearId: UniqueIdentifier,
                                 owningKey: Party -> PublicKey)
    ensures var r := Build([me], issuer, licensePlate, linearId, owningKey);
      r.Success? && (ContractKotlin.Verify(r.value.tx, owningKey).Pass? <==> issuer != me)
    ensures issuer == me ==>
      ContractKotlin.Verify(Build([me], issuer, licensePlate, linearId, owningKey).value.tx, owningKey)
        == Fail(Content(ContractKotlin.CreateSameParty))
  {
    var p := Build([me], issuer, licensePlate, linearId, owningKey).value;
    assert LicenseCommands(p.tx.commands) == p.tx.commands;
    PairSize(owningKey(issuer), owningKey(me));
  }

  /** With distinct keys and an issuer other than the caller, the sessions reach exactly the
      required signers other than the caller. */
  lemma BuildSessionsAreOtherSigners(me: Party, issuer: Party, licensePlate: string, linearId: UniqueIdentifier,
                                     owningKey: Party -> PublicKey)
    requires Injective(owningKey)
    requires issuer != me
    ensures var r := Build([me], issuer, licensePlate, linearId, owningKey);
      r.Success? && ToSet(KeysOf(r.value.sessions, owningKey)) == ToSet(r.value.tx.commands[0].signers) - {owningKey(me)}
  {
    var p := Build([me], issuer, licensePlate, linearId, owningKey).value;
    BuildSessions(me, issuer, licensePlate, linearId, owningKey);
    assert KeysOf(p.sessions, owningKey) == [owningKey(issuer)];
    assert p.tx.commands[0].signers == [owningKey(issuer), owningKey(me)];
    assert owningKey(issuer) != owningKey(me);
  }

  /** The whole initiator run. A failed build stops before any protocol step. */
  function Call(legalIdentities: seq<Party>, issuer: Party, licensePlate: string, linearId: UniqueIdentifier,
                owningKey: Party -> PublicKey, countersigns: Party -> bool, notarised: bool): Run
  {
    match Build(legalIdentities, issuer, licensePlate, linearId, owningKey)
    case Failure(e) => Run([], Failure(e))
    case Success(p) =>
      Propose(legalIdentities[0], owningKey, p, ContractKotlin.Verify(p.tx, owningKey), countersigns, notarised)
  }

  /** A Kotlin Issue run finalises iff the node has one legal identity, the issuer is another party
      and signs, and the notary accepts; the finalised transaction carries the new record and
      exactly the signer keys of its command, those of issuer and caller. */
  lemma CallOutcome(legalIdentities: seq<Party>, issuer: Party, licensePlate: string, linearId: UniqueIdentifier,
                    owningKey: Party -> PublicKey, countersigns: Party -> bool, notarised: bool)
    ensures var run := Call(legalIdentities, issuer, licensePlate, linearId, owningKey, countersigns, notarised);
      && (|legalIdentities| != 1 ==> run == Run([], Failure(NoSingleIdentity(|legalIdentities|))))
      && (run.result.Success? <==>
            |legalIdentities| == 1 && issuer != legalIdentities[0] && countersigns(issuer) && notarised)
      && (run.result.Success? ==>
            && run.result.value.tx.outputs == [CarLicenseState(licensePlate, issuer, legalIdentities[0], linearId)]
            && run.result.value.signatures == {owningKey(issuer), owningKey(legalIdentities[0])}
            && run.result.value.signatures == ToSet(run.result.value.tx.commands[0].signers))
  {
    if |legalIdentities| == 1 {
      assert legalIdentities == [legalIdentities[0]];
      SingleIdentityOutcome(legalIdentities[0], issuer, licensePlate, linearId, owningKey, countersigns, notarised);
    }
  }

  /** The run of a node whose one legal identity is `me`. */
  lemma SingleIdentityOutcome(me: Party, issuer: Party, licensePlate: string, linearId: UniqueIdentifier,
                              owningKey: Party -> PublicKey, countersigns: Party -> bool, notarised: bool)
    ensures var run := Call([me], issuer, licensePlate, linearId, owningKey, countersigns, notarised);
      && (run.result.Success? <==> issuer != me && countersigns(issuer) && notarised)
      && (run.result.Success? ==>
            && run.result.value.tx.outputs == [CarLicenseState(licensePlate, issuer, me, linearId)]
            && run.result.value.signatures == {owningKey(issuer), owningKey(me)}
            && run.result.value.signatures == ToSet(run.result.value.tx.commands[0].signers))
  {
    if issuer == me {
      SelfIssueOutcome(me, licensePlate, linearId, owningKey, countersigns, notarised);
    } else {
      OtherIssuerOutcome(me, issuer, licensePlate, linearId, owningKey, countersigns, notarised);
    }
  }

  /** Issuing to oneself stops at verification with the content rule. */
  lemma SelfIssueOutcome(me: Party, licensePlate: string, linearId: UniqueIdentifier,
                         owningKey: Party -> PublicKey, countersigns: Party -> bool, notarised: bool)
    ensures Call([me], me, licensePlate, linearId, owningKey, countersigns, notarised)
         == Run([Verifying], Failure(Invalid(Content(ContractKotlin.CreateSameParty))))
  {
    BuildAcceptedIffDistinct(me, me, licensePlate, linearId, owningKey);
  }

  /** Issued by another party, the run needs that party's signature and the notary, and ends
      with both parties' keys as signatures. */
  lemma OtherIssuerOutcome(me: Party, issuer: Party, licensePlate: string, linearId: UniqueIdentifier,
                           owningKey: Party -> PublicKey, countersigns: Party -> bool, notarised: bool)
    requires issuer != me
    ensures var run := Call([me], issuer, licensePlate, linearId, owningKey, countersigns, notarised);
      && (run.result.Success? <==> countersigns(issuer) && notarised)
      && (run.result.Success? ==>
            && run.result.value.tx.outputs == [CarLicenseState(licensePlate, issuer, me, linearId)]
            && run.result.value.signatures == {owningKey(me), owningKey(issuer)}
            && run.result.value.signatures == ToSet(run.result.value.tx.commands[0].signers))
  {
    var p := Build([me], issuer, licensePlate, linearId, owningKey).value;
    OtherIssuerCall(me, issuer, licensePlate, linearId, owningKey, countersigns, notarised);
    OtherIssuerProposal(me, issuer, licensePlate, linearId, owningKey);
    OneSessionOutcome(me, issuer, owningKey, p, countersigns, notarised);
  }

  /** Issued by another party, the run is the protocol on the built proposal, which the contract
      accepts. */
  lemma OtherIssuerCall(me: Party, issuer: Party, licensePlate: string, linearId: UniqueIdentifier,
                        owningKey: Party -> PublicKey, countersigns: Party -> bool, notarised: bool)
    requires issuer != me
    ensures Call([me], issuer, licensePlate, linearId, owningKey, countersigns, notarised)
         == Propose(me, owningKey, Build([me], issuer, licensePlate, linearId, owningKey).value, Pass,
                    countersigns, notarised)
  {
    BuildAcceptedIffDistinct(me, issuer, licensePlate, linearId, owningKey);
  }

  /** Issued by another party, the proposal has that party as its one session and a Create of the
      new record signed by the two parties' keys. */
  lemma OtherIssuerProposal(me: Party, issuer: Party, licensePlate: string, linearId: UniqueIdentifier,
                            owningKey: Party -> PublicKey)
    requires issuer != me
    ensures var p := Build([me], issuer, licensePlate, linearId, owningKey).value;
      && p.sessions == [issuer]
      && p.tx.outputs == [CarLicenseState(licensePlate, issuer, me, linearId)]
      && ToSet(p.tx.commands[0].signers) == {owningKey(me), owningKey(issuer)}
  {
    var p := Build([me], issuer, licensePlate, linearId, owningKey).value;
    BuildSessions(me, issuer, licensePlate, linearId, owningKey);
    assert ToSet(p.tx.commands[0].signers) == {owningKey(me), owningKey(issuer)} by {
      PairSize(owningKey(issuer), owningKey(me));
    }
  }
}
