/** The Java Transfer initiator: the issuer of a license moves it to a new licensee. It looks the
    record up by linear identifier, refuses unless the caller is the record's issuer, builds a
    Transfer transaction signed by issuer, old licensee and new licensee, and collects the two
    licensees' signatures. */
module TransferFlowJava {
  import opened Wrappers
  import opened Identity
  import opened Collections
  import opened State
  import opened Transactions
  import opened Proposer
  import Vault
  import ContractJava

  const NotIssuerMessage := "Only Issuer may transfer the Car License "

  /** The proposal built around a looked-up record: that record consumed, a copy with the new
      licensee produced, a Transfer command listing the keys of issuer, old licensee and new
      licensee, and sessions with the old and the new licensee. */
  function Assemble(input: CarLicenseState, newLicensee: Party, owningKey: Party -> PublicKey): (p: Proposal)
    ensures p.tx.inputs == [input] && |p.tx.outputs| == 1 && |p.tx.commands| == 1
    ensures p.tx.outputs[0] == input.ChangeLicensee(newLicensee)
    ensures p.tx.commands[0].value == License(Transfer)
    ensures p.tx.commands[0].signers
         == KeysOf(input.Participants(), owningKey) + [owningKey(p.tx.outputs[0].licensee)]
    ensures p.sessions == [input.licensee, newLicensee]
  {
    var outputState := input.ChangeLicensee(newLicensee);
    var transferCommand := Command(License(Transfer),
      [owningKey(input.issuer), owningKey(input.licensee), owningKey(newLicensee)]);
    Proposal(LedgerTransaction([input], [outputState], [transferCommand]), [input.licensee, newLicensee])
  }

  /** The builder: fails when no live record carries `linearId`, fails when the caller is not that
      record's issuer, and otherwise assembles the proposal around the record. */
  function Build(me: Party, vault: seq<CarLicenseState>, linearId: UniqueIdentifier, newLicensee: Party,
                 owningKey: Party -> PublicKey): (r: Result<Proposal, FlowError>)
    ensures (forall s :: s in vault ==> s.linearId != linearId) <==> r == Failure(NotFound(linearId))
    ensures r.Failure? ==> r.error == NotFound(linearId) || r.error == NotIssuer(NotIssuerMessage)
    ensures r == Failure(NotIssuer(NotIssuerMessage)) ==>
      exists s :: s in vault && s.linearId == linearId && s.issuer != me
    ensures r.Success? ==>
      exists input :: input in vault && input.linearId == linearId && input.issuer == me
                      && r.value == Assemble(input, newLicensee, owningKey)
    // the record decided on is the first one carrying the identifier
    ensures var found := Vault.FirstByLinearId(vault, linearId);
      && (r == Failure(NotIssuer(NotIssuerMessage)) <==> found.Some? && found.value.issuer != me)
      && (r.Success? <==> found.Some? && found.value.issuer == me)
      && (r.Success? ==> r.value == Assemble(found.value, newLicensee, owningKey))
  {
    match Vault.FirstByLinearId(vault, linearId)
    case None => Failure(NotFound(linearId))
    case Some(input) =>
      if input.issuer != me then Failure(NotIssuer(NotIssuerMessage))
      else Success(Assemble(input, newLicensee, owningKey))
  }

  /** The Java contract accepts an assembled transfer exactly when issuer, old licensee and new
      licensee are three different parties. In particular a transfer to the current licensee is
      rejected by the signer rule, whose key set then has two elements instead of three. */
  lemma AssembledAcceptedIffDistinct(input: CarLicenseState, newLicensee: Party, owningKey: Party -> PublicKey)
    requires Injective(owningKey)
    ensures var p := Assemble(input, newLicensee, owningKey);
      ContractJava.Verify(p.tx, owningKey).Pass? <==>
        input.issuer != input.licensee && input.issuer != newLicensee && input.licensee != newLicensee
    ensures input.issuer != newLicensee && input.licensee == newLicensee ==>
      ContractJava.Verify(Assemble(input, newLicensee, owningKey).tx, owningKey)
        == Fail(Signers(ContractJava.TransferSigners))
  {
    var p := Assemble(input, newLicensee, owningKey);
    var output := p.tx.outputs[0];
    var signers := p.tx.commands[0].signers;
    assert LicenseCommands(p.tx.commands) == p.tx.commands;
    assert ContractJava.Verify(p.tx, owningKey) == ContractJava.TransferRecords(input, output, signers, owningKey);
    TripleSize(owningKey(input.issuer), owningKey(input.licensee), owningKey(newLicensee));
  }

  /** When the issuer is neither licensee, the sessions reach exactly the required signers other
      than the issuer, who runs the flow. */
  lemma AssembledSessionsAreOtherSigners(input: CarLicenseState, newLicensee: Party, owningKey: Party -> PublicKey)
    requires Injective(owningKey)
    requires input.issuer != input.licensee && input.issuer != newLicensee
    ensures var p := Assemble(input, newLicensee, owningKey);
      ToSet(KeysOf(p.sessions, owningKey)) == ToSet(p.tx.commands[0].signers) - {owningKey(input.issuer)}
  {
    var p := Assemble(input, newLicensee, owningKey);
    var issuerKey, licenseeKey, newKey := owningKey(input.issuer), owningKey(input.licensee), owningKey(newLicensee);
    var signers := p.tx.commands[0].signers;
    assert signers == [issuerKey, licenseeKey, newKey];
    assert KeysOf(p.sessions, owningKey) == signers[1..];
    DropUniqueHead(signers);
  }

  /** The whole initiator run. A failed build stops before any protocol step. */
  function Call(me: Party, vault: seq<CarLicenseState>, linearId: UniqueIdentifier, newLicensee: Party,
                owningKey: Party -> PublicKey, countersigns: Party -> bool, notarised: bool): Run
  {
    match Build(me, vault, linearId, newLicensee, owningKey)
    case Failure(e) => Run([], Failure(e))
    case Success(p) => Propose(me, owningKey, p, ContractJava.Verify(p.tx, owningKey), countersigns, notarised)
  }

  /** A Transfer run finalises iff a record with the identifier is found, it was issued by the
      caller, issuer, old and new licensee are pairwise different, both licensees sign and the
      notary accepts; the result consumes that record, produces it with the new licensee, and
      carries exactly the three parties' signatures. A missing record or a caller who is not the
      issuer is refused before any protocol step. */
  lemma CallOutcome(me: Party, vault: seq<CarLicenseState>, linearId: UniqueIdentifier, newLicensee: Party,
                    owningKey: Party -> PublicKey, countersigns: Party -> bool, notarised: bool)
    requires Injective(owningKey)
    ensures var found := Vault.FirstByLinearId(vault, linearId);
      var run := Call(me, vault, linearId, newLicensee, owningKey, countersigns, notarised);
      && (found.None? ==> run == Run([], Failure(NotFound(linearId))))
      && (found.Some? && found.value.issuer != me ==> run == Run([], Failure(NotIssuer(NotIssuerMessage))))
      && (run.result.Success? <==>
            && found.Some?
            && found.value.issuer == me && found.value.licensee != me && newLicensee != me
            && found.value.licensee != newLicensee
            && countersigns(found.value.licensee) && countersigns(newLicensee) && notarised)
      && (run.result.Success? ==>
            && found.Some?
            && run.result.value.tx.inputs == [found.value]
            && run.result.value.tx.outputs == [found.value.ChangeLicensee(newLicensee)]
            && run.result.value.signatures == {owningKey(me), owningKey(found.value.licensee), owningKey(newLicensee)}
            && run.result.value.signatures == ToSet(run.result.value.tx.commands[0].signers))
  {
    var found := Vault.FirstByLinearId(vault, linearId);
    if found.Some? && found.value.issuer == me {
      var input := found.value;
      var p := Assemble(input, newLicensee, owningKey);
      AssembledAcceptedIffDistinct(input, newLicensee, owningKey);
      TwoSessionOutcome(me, input.licensee, newLicensee, owningKey, p, countersigns, notarised);
      TripleSize(owningKey(input.issuer), owningKey(input.licensee), owningKey(newLicensee));
    }
  }
}
