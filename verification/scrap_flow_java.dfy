/** The Java Scrap initiator: the issuer of a license retires it. It looks the record up by linear
    identifier, refuses unless the caller is the record's issuer, builds a Scrap transaction that
    consumes the record and produces nothing, and collects the licensee's signature. */
module ScrapFlowJava {
  import opened Wrappers
  import opened Identity
  import opened Collections
  import opened State
  import opened Transactions
  import opened Proposer
  import Vault
  import ContractJava

  const NotIssuerMessage := "Only Issuer may scarp the Car License"

  /** The proposal built around a looked-up record: that record consumed, nothing produced, a
      Scrap command listing the issuer's and the licensee's keys, and one session, with the licensee. */
  function Assemble(input: CarLicenseState, owningKey: Party -> PublicKey): (p: Proposal)
    ensures p.tx.inputs == [input] && p.tx.outputs == [] && |p.tx.commands| == 1
    ensures p.tx.commands[0] == Command(License(Scrap), KeysOf(input.Participants(), owningKey))
    ensures p.sessions == [input.licensee]
  {
    var scrapCommand := Command(License(Scrap), [owningKey(input.issuer), owningKey(input.licensee)]);
    Proposal(LedgerTransaction([input], [], [scrapCommand]), [input.licensee])
  }

  /** The builder: fails when no live record carries `linearId`, fails when the caller is not that
      record's issuer, and otherwise assembles the proposal around the record. */
  function Build(me: Party, vault: seq<CarLicenseState>, linearId: UniqueIdentifier,
                 owningKey: Party -> PublicKey): (r: Result<Proposal, FlowError>)
    ensures (forall s :: s in vault ==> s.linearId != linearId) <==> r == Failure(NotFound(linearId))
    ensures r.Failure? ==> r.error == NotFound(linearId) || r.error == NotIssuer(NotIssuerMessage)
    ensures r == Failure(NotIssuer(NotIssuerMessage)) ==>
      exists s :: s in vault && s.linearId == linearId && s.issuer != me
    ensures r.Success? ==>
      exists input :: input in vault && input.linearId == linearId && input.issuer == me
                      && r.value == Assemble(input, owningKey)
    // the record decided on is the first one carrying the identifier
    ensures var found := Vault.FirstByLinearId(vault, linearId);
      && (r == Failure(NotIssuer(NotIssuerMessage)) <==> found.Some? && found.value.issuer != me)
      && (r.Success? <==> found.Some? && found.value.issuer == me)
      && (r.Success? ==> r.value == Assemble(found.value, owningKey))
  {
    match Vault.FirstByLinearId(vault, linearId)
    case None => Failure(NotFound(linearId))
    case Some(input) =>
      if input.issuer != me then Failure(NotIssuer(NotIssuerMessage))
      else Success(Assemble(input, owningKey))
  }

  /** The Java contract accepts an assembled scrap exactly when the record's issuer and licensee
      differ; a record held by its own issuer fails the signer rule (one key instead of two). */
  lemma AssembledAcceptedIffDistinct(input: CarLicenseState, owningKey: Party -> PublicKey)
    requires Injective(owningKey)
    ensures ContractJava.Verify(Assemble(input, owningKey).tx, owningKey).Pass? <==> input.issuer != input.licensee
    ensures input.issuer == input.licensee ==>
      ContractJava.Verify(Assemble(input, owningKey).tx, owningKey) == Fail(Signers(ContractJava.ScrapSigners))
  {
    var p := Assemble(input, owningKey);
    assert LicenseCommands(p.tx.commands) == p.tx.commands;
    PairSize(owningKey(input.issuer), owningKey(input.licensee));
  }

  /** When issuer and licensee differ, the one session reaches exactly the required signers other
      than the issuer, who runs the flow. */
  lemma AssembledSessionsAreOtherSigners(input: CarLicenseState, owningKey: Party -> PublicKey)
    requires Injective(owningKey)
    requires input.issuer != input.licensee
    ensures var p := Assemble(input, owningKey);
      ToSet(KeysOf(p.sessions, owningKey)) == ToSet(p.tx.commands[0].signers) - {owningKey(input.issuer)}
  {
    var p := Assemble(input, owningKey);
    assert KeysOf(p.sessions, owningKey) == [owningKey(input.licensee)];
    assert p.tx.commands[0].signers == [owningKey(input.issuer), owningKey(input.licensee)];
    assert owningKey(input.issuer) != owningKey(input.licensee);
  }

  /** The whole initiator run. A failed build stops before any protocol step. */
  function Call(me: Party, vault: seq<CarLicenseState>, linearId: UniqueIdentifier,
                owningKey: Party -> PublicKey, countersigns: Party -> bool, notarised: bool): Run
  {
    match Build(me, vault, linearId, owningKey)
    case Failure(e) => Run([], Failure(e))
    case Success(p) => Propose(me, owningKey, p, ContractJava.Verify(p.tx, owningKey), countersigns, notarised)
  }

  /** A Scrap run finalises iff a record with the identifier is found, it was issued by the caller
      and is held by another party who signs, and the notary accepts; the result consumes the record,
      produces nothing, and carries exactly the issuer's and the licensee's signatures. */
  lemma CallOutcome(me: Party, vault: seq<CarLicenseState>, linearId: UniqueIdentifier,
                    owningKey: Party -> PublicKey, countersigns: Party -> bool, notarised: bool)
    requires Injective(owningKey)
    ensures var found := Vault.FirstByLinearId(vault, linearId);
      var run := Call(me, vault, linearId, owningKey, countersigns, notarised);
      && (found.None? ==> run == Run([], Failure(NotFound(linearId))))
      && (found.Some? && found.value.issuer != me ==> run == Run([], Failure(NotIssuer(NotIssuerMessage))))
      && (run.result.Success? <==>
            && found.Some?
            && found.value.issuer == me && found.value.licensee != me
            && countersigns(found.value.licensee) && notarised)
      && (run.result.Success? ==>
            && found.Some?
            && run.result.value.tx.inputs == [found.value]
            && run.result.value.tx.outputs == []
            && run.result.value.signatures == {owningKey(me), owningKey(found.value.licensee)}
            && run.result.value.signatures == ToSet(run.result.value.tx.commands[0].signers))
  {
    var found := Vault.FirstByLinearId(vault, linearId);
    if found.Some? && found.value.issuer == me {
      var input := found.value;
      var p := Assemble(input, owningKey);
      AssembledAcceptedIffDistinct(input, owningKey);
      OneSessionOutcome(me, input.licensee, owningKey, p, countersigns, notarised);
      PairSize(owningKey(input.issuer), owningKey(input.licensee));
    }
  }
}
