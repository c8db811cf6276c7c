/** The Java Issue initiator: the calling node applies for a license from `issuer`. It builds a
    Create transaction with itself as licensee, has the Java contract verify it, signs, collects
    the issuer's signature and finalises with the issuer. */
module IssueFlowJava {
  import opened Wrappers
  import opened Identity
  import opened Collections
  import opened State
  import opened Transactions
  import opened Proposer
  import ContractJava

  /** The proposal the initiator builds: a new record issued by `issuer` to the caller `me`, a
      Create command listing the issuer's and the licensee's keys, and one session, with the issuer. */
  function Build(me: Party, issuer: Party, licensePlate: string, linearId: UniqueIdentifier,
                 owningKey: Party -> PublicKey): (p: Proposal)
    ensures |p.tx.inputs| == 0 && |p.tx.outputs| == 1 && |p.tx.commands| == 1
    ensures var output := p.tx.outputs[0];
      && output.licensePlate == licensePlate && output.issuer == issuer
      && output.licensee == me && output.linearId == linearId
      && p.tx.commands[0] == Command(License(Create), KeysOf(output.Participants(), owningKey))
    ensures p.sessions == [issuer]
  {
    var newState := CarLicenseState(licensePlate, issuer, me, linearId);
    var issueCommand := Command(License(Create), [owningKey(newState.issuer), owningKey(newState.licensee)]);
    Proposal(LedgerTransaction([], [newState], [issueCommand]), [issuer])
  }

  /** The Java contract accepts the built transaction exactly when the issuer is not the caller;
      otherwise it reports the content rule, shape and signer rules holding by construction. */
  lemma BuildAcceptedIffDistinct(me: Party, issuer: Party, licensePlate: string, linearId: UniqueIdentifier,
                                 owningKey: Party -> PublicKey)
    requires Injective(owningKey)
    ensures var p := Build(me, issuer, licensePlate, linearId, owningKey);
      ContractJava.Verify(p.tx, owningKey).Pass? <==> issuer != me
    ensures issuer == me ==>
      ContractJava.Verify(Build(me, issuer, licensePlate, linearId, owningKey).tx, owningKey)
        == Fail(Content(ContractJava.CreateSameParty))
  {
    var p := Build(me, issuer, licensePlate, linearId, owningKey);
    var signers := p.tx.commands[0].signers;
    assert LicenseCommands(p.tx.commands) == p.tx.commands;
    if issuer != me {
      assert owningKey(issuer) != owningKey(me);
      ToSetSizeIffDistinct(signers);
    }
  }

  /** The sessions reach exactly the required signers other than the caller. */
  lemma BuildSessionsAreOtherSigners(me: Party, issuer: Party, licensePlate: string, linearId: UniqueIdentifier,
                                     owningKey: Party -> PublicKey)
    requires Injective(owningKey)
    requires issuer != me
    ensures var p := Build(me, issuer, licensePlate, linearId, owningKey);
      ToSet(KeysOf(p.sessions, owningKey)) == ToSet(p.tx.commands[0].signers) - {owningKey(me)}
  {
    var p := Build(me, issuer, licensePlate, linearId, owningKey);
    assert KeysOf(p.sessions, owningKey) == [owningKey(issuer)];
    assert p.tx.commands[0].signers == [owningKey(issuer), owningKey(me)];
    assert owningKey(issuer) != owningKey(me);
  }

  /** The whole initiator run: build, then the commit protocol under the Java contract's verdict. */
  function Call(me: Party, issuer: Party, licensePlate: string, linearId: UniqueIdentifier,
                owningKey: Party -> PublicKey, countersigns: Party -> bool, notarised: bool): Run
  {
    var p := Build(me, issuer, licensePlate, linearId, owningKey);
    Propose(me, owningKey, p, ContractJava.Verify(p.tx, owningKey), countersigns, notarised)
  }

  /** An Issue run finalises iff the issuer is another party, signs, and the notary accepts; the
      finalised transaction carries the new record and exactly the issuer's and the caller's
      signatures. Issuing to oneself stops at verification, before any session. */
  lemma CallOutcome(me: Party, issuer: Party, licensePlate: string, linearId: UniqueIdentifier,
                    owningKey: Party -> PublicKey, countersigns: Party -> bool, notarised: bool)
    requires Injective(owningKey)
    ensures var run := Call(me, issuer, licensePlate, linearId, owningKey, countersigns, notarised);
      && (run.result.Success? <==> issuer != me && countersigns(issuer) && notarised)
      && (run.result.Success? ==>
            && run.result.value.tx.outputs == [CarLicenseState(licensePlate, issuer, me, linearId)]
            && run.result.value.signatures == {owningKey(issuer), owningKey(me)}
            && run.result.value.signatures == ToSet(run.result.value.tx.commands[0].signers))
      && (issuer == me ==> run == Run([Verifying], Failure(Invalid(Content(ContractJava.CreateSameParty)))))
  {
    var p := Build(me, issuer, licensePlate, linearId, owningKey);
    BuildAcceptedIffDistinct(me, issuer, licensePlate, linearId, owningKey);
    OneSessionOutcome(me, issuer, owningKey, p, countersigns, notarised);
    PairSize(owningKey(issuer), owningKey(me));
  }
}
