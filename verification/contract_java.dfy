/** The Java car-license contract. Its rules and their order match the Kotlin contract, but each
    signer rule also demands that the signer set, duplicates ignored, has exactly the size the
    command expects: two for Create and Scrap, three for Transfer. */
module ContractJava {
  import opened Wrappers
  import opened Identity
  import opened Collections
  import opened State
  import opened Transactions

  const CreateInputs := "Input for license issuance is zero"
  const CreateOutputs := "There should only be one output for issuance"
  const CreateSameParty := "The issuer and licensee cannot be the same person"
  const CreateSigners := "Only the issuer and licensee needs to sign the contract"
  const TransferInputs := "Input for license transfer is one"
  const TransferOutputs := "There should only be one output for transfer"
  const TransferOnlyLicensee := "Only the licensee may change in a transfer"
  const TransferToIssuer := "The output licensee cannot be the issuer"
  const TransferSigners := "Only the issuer, old licensee and new licensee needs to sign the contract"
  const ScrapInputs := "Input for license scraping is one"
  const ScrapOutputs := "Output for license scraping is zero"
  const ScrapSigners := "Only the issuer and licensee needs to sign the contract"

  /** The Create rules: no input, one output whose issuer and licensee differ, and a signer set
      of exactly two keys, those of the output's issuer and licensee. */
  function VerifyCreate(tx: LedgerTransaction, signers: seq<PublicKey>, owningKey: Party -> PublicKey)
    : (r: Outcome<Violation>)
    ensures |tx.inputs| != 0 ==> r == Fail(Shape(CreateInputs))
    ensures |tx.inputs| == 0 && |tx.outputs| != 1 ==> r == Fail(Shape(CreateOutputs))
    ensures |tx.inputs| == 0 && |tx.outputs| == 1 && tx.outputs[0].issuer == tx.outputs[0].licensee
            ==> r == Fail(Content(CreateSameParty))
    ensures r.Pass? <==>
      && |tx.inputs| == 0
      && |tx.outputs| == 1
      && tx.outputs[0].issuer != tx.outputs[0].licensee
      && SignedExactlyBy(signers, {owningKey(tx.outputs[0].issuer), owningKey(tx.outputs[0].licensee)})
      && |ToSet(signers)| == 2
    ensures r.Fail? && !r.error.Shape? && !r.error.Content? ==> r.error == Signers(CreateSigners)
    ensures |tx.inputs| == 0 && |tx.outputs| == 1 && tx.outputs[0].issuer != tx.outputs[0].licensee && r.Fail?
            ==> r == Fail(Signers(CreateSigners))
  {
    if |tx.inputs| != 0 then Fail(Shape(CreateInputs))
    else if |tx.outputs| != 1 then Fail(Shape(CreateOutputs))
    else
      var output := tx.outputs[0];
      ParticipantKeys(output, owningKey);
      if output.issuer == output.licensee then Fail(Content(CreateSameParty))
      else
        var participantKeys := ToSet(KeysOf(output.Participants(), owningKey));
        var signerSet := ToSet(signers);
        if !(signerSet == participantKeys && |signerSet| == 2) then Fail(Signers(CreateSigners))
        else Pass
  }

  /** The Transfer rules on the consumed and the produced record: they agree on issuer, licence
      plate and linear identifier, the new licensee is not the issuer, and the signer set has
      exactly three keys, those of the issuer, the old licensee and the new licensee. */
  function TransferRecords(input: CarLicenseState, output: CarLicenseState, signers: seq<PublicKey>,
                           owningKey: Party -> PublicKey): (r: Outcome<Violation>)
    ensures input.licensePlate != output.licensePlate || input.issuer != output.issuer || input.linearId != output.linearId
            ==> r == Fail(Content(TransferOnlyLicensee))
    ensures input.licensePlate == output.licensePlate && input.issuer == output.issuer && input.linearId == output.linearId
            && output.issuer == output.licensee
            ==> r == Fail(Content(TransferToIssuer))
    ensures r.Pass? <==>
      && input.licensePlate == output.licensePlate
      && input.issuer == output.issuer
      && input.linearId == output.linearId
      && output.licensee != output.issuer
      && SignedExactlyBy(signers, {owningKey(input.issuer), owningKey(input.licensee), owningKey(output.licensee)})
      && |ToSet(signers)| == 3
    ensures r.Fail? && !r.error.Content? ==> r.error == Signers(TransferSigners)
    ensures input.licensePlate == output.licensePlate && input.issuer == output.issuer && input.linearId == output.linearId
            && output.issuer != output.licensee && r.Fail?
            ==> r == Fail(Signers(TransferSigners))
  {
    var checkOutput := output.ChangeLicensee(input.licensee);
    if !(checkOutput.issuer == input.issuer && checkOutput.licensee == input.licensee
         && checkOutput.licensePlate == input.licensePlate && checkOutput.linearId == input.linearId)
    then Fail(Content(TransferOnlyLicensee))
    else if output.issuer == output.licensee then Fail(Content(TransferToIssuer))
    else TransferSignerRule(input, output, signers, owningKey)
  }

  /** The Transfer signer rule: the signer set is the input's participant keys plus the new
      licensee's key, and it has three elements. */
  function TransferSignerRule(input: CarLicenseState, output: CarLicenseState, signers: seq<PublicKey>,
                              owningKey: Party -> PublicKey): (r: Outcome<Violation>)
    ensures r.Pass? <==>
      SignedExactlyBy(signers, {owningKey(input.issuer), owningKey(input.licensee), owningKey(output.licensee)})
      && |ToSet(signers)| == 3
    ensures r.Fail? ==> r.error == Signers(TransferSigners)
  {
    var participantKeys := ToSet(KeysOf(input.Participants(), owningKey)) + {owningKey(output.licensee)};
    assert participantKeys == {owningKey(input.issuer), owningKey(input.licensee), owningKey(output.licensee)} by {
      ParticipantKeys(input, owningKey);
    }
    var signerSet := ToSet(signers);
    if !(signerSet == participantKeys && |signerSet| == 3) then Fail(Signers(TransferSigners))
    else Pass
  }

  /** The Transfer rules: one input and one output, then the rules on the two records. */
  function VerifyTransfer(tx: LedgerTransaction, signers: seq<PublicKey>, owningKey: Party -> PublicKey)
    : (r: Outcome<Violation>)
    ensures |tx.inputs| != 1 ==> r == Fail(Shape(TransferInputs))
    ensures |tx.inputs| == 1 && |tx.outputs| != 1 ==> r == Fail(Shape(TransferOutputs))
    ensures r.Pass? <==>
      && |tx.inputs| == 1
      && |tx.outputs| == 1
      && TransferRecords(tx.inputs[0], tx.outputs[0], signers, owningKey).Pass?
    ensures |tx.inputs| == 1 && |tx.outputs| == 1 && r.Fail? ==> !r.error.Shape?
    ensures |tx.inputs| == 1 && |tx.outputs| == 1 ==> r == TransferRecords(tx.inputs[0], tx.outputs[0], signers, owningKey)
  {
    if |tx.inputs| != 1 then Fail(Shape(TransferInputs))
    else if |tx.outputs| != 1 then Fail(Shape(TransferOutputs))
    else TransferRecords(tx.inputs[0], tx.outputs[0], signers, owningKey)
  }

  /** The Scrap rules: one input, no output, no content rule, and a signer set of exactly two
      keys, those of the input's issuer and licensee. */
  function VerifyScrap(tx: LedgerTransaction, signers: seq<PublicKey>, owningKey: Party -> PublicKey)
    : (r: Outcome<Violation>)
    ensures |tx.inputs| != 1 ==> r == Fail(Shape(ScrapInputs))
    ensures |tx.inputs| == 1 && |tx.outputs| != 0 ==> r == Fail(Shape(ScrapOutputs))
    ensures r.Pass? <==>
      && |tx.inputs| == 1
      && |tx.outputs| == 0
      && SignedExactlyBy(signers, {owningKey(tx.inputs[0].issuer), owningKey(tx.inputs[0].licensee)})
      && |ToSet(signers)| == 2
    ensures r.Fail? && !r.error.Shape? ==> r.error == Signers(ScrapSigners)
    ensures |tx.inputs| == 1 && |tx.outputs| == 0 && r.Fail? ==> r == Fail(Signers(ScrapSigners))
  {
    if |tx.inputs| != 1 then Fail(Shape(ScrapInputs))
    else if |tx.outputs| != 0 then Fail(Shape(ScrapOutputs))
    else
      var input := tx.inputs[0];
      ParticipantKeys(input, owningKey);
      var participantKeys := ToSet(KeysOf(input.Participants(), owningKey));
      var signerSet := ToSet(signers);
      if !(signerSet == participantKeys && |signerSet| == 2) then Fail(Signers(ScrapSigners))
      else Pass
  }

  /** The contract's verdict: the single license command selects the rule set. */
  function Verify(tx: LedgerTransaction, owningKey: Party -> PublicKey): (r: Outcome<Violation>)
    ensures |LicenseCommands(tx.commands)| != 1 ==> r == Fail(NoSingleCommand(|LicenseCommands(tx.commands)|))
    ensures r.Pass? ==> |LicenseCommands(tx.commands)| == 1
    ensures forall c :: c in tx.commands && c.value.License? && |LicenseCommands(tx.commands)| == 1 ==>
      r == match c.value.kind
           case Create => VerifyCreate(tx, c.signers, owningKey)
           case Transfer => VerifyTransfer(tx, c.signers, owningKey)
           case Scrap => VerifyScrap(tx, c.signers, owningKey)
  {
    match RequireSingleCommand(tx.commands)
    case Failure(v) => Fail(v)
    case Success(command) =>
      match command.value.kind
      case Create => VerifyCreate(tx, command.signers, owningKey)
      case Transfer => VerifyTransfer(tx, command.signers, owningKey)
      case Scrap => VerifyScrap(tx, command.signers, owningKey)
  }
}
