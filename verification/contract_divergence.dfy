/** How the Java and the Kotlin contract relate. They check the same shape, content and signer-set
    rules; the Java contract adds a size check on the signer set, so it accepts strictly fewer
    transactions: a transfer to the current licensee, a transfer of a record whose issuer is also
    its licensee and a scrap of a record held by its own issuer pass the Kotlin contract and fail
    the Java one. */
module ContractDivergence {
  import opened Wrappers
  import opened Identity
  import opened Collections
  import opened State
  import opened Transactions
  import ContractKotlin
  import ContractJava
  import TransferFlowJava

  /** The number of distinct signer keys the Java contract demands for a command kind. */
  function JavaSignerCount(kind: LicenseCommand): nat {
    match kind
    case Create => 2
    case Transfer => 3
    case Scrap => 2
  }

  /** The Java contract's extra rule: the selected command's signer set has the expected size
      (vacuous when there is no single license command). */
  predicate SignerCountHolds(tx: LedgerTransaction) {
    match RequireSingleCommand(tx.commands)
    case Failure(_) => true
    case Success(c) => |ToSet(c.signers)| == JavaSignerCount(c.value.kind)
  }

  /** The Java verdict is the Kotlin verdict plus the signer-count rule; in particular every
      transaction the Java contract accepts is accepted by the Kotlin contract. */
  lemma JavaIsKotlinPlusSignerCount(tx: LedgerTransaction, owningKey: Party -> PublicKey)
    ensures ContractJava.Verify(tx, owningKey).Pass? <==>
      ContractKotlin.Verify(tx, owningKey).Pass? && SignerCountHolds(tx)
    ensures ContractJava.Verify(tx, owningKey).Pass? ==> ContractKotlin.Verify(tx, owningKey).Pass?
  {
    match RequireSingleCommand(tx.commands)
    case Failure(_) =>
    case Success(c) =>
      match c.value.kind
      case Create =>
      case Transfer =>
        if |tx.inputs| == 1 && |tx.outputs| == 1 {
          assert ContractJava.Verify(tx, owningKey)
              == ContractJava.TransferRecords(tx.inputs[0], tx.outputs[0], c.signers, owningKey);
          assert ContractKotlin.Verify(tx, owningKey)
              == ContractKotlin.TransferRecords(tx.inputs[0], tx.outputs[0], c.signers, owningKey);
        }
      case Scrap =>
  }

  /** The parties that must differ for the Java contract beyond what the Kotlin contract demands:
      nothing more for Create; for Transfer the old licensee must be neither the issuer nor the new
      licensee; for Scrap the issuer and licensee of the consumed record must differ. */
  predicate DistinctSigningParties(tx: LedgerTransaction) {
    match RequireSingleCommand(tx.commands)
    case Failure(_) => true
    case Success(c) =>
      match c.value.kind
      case Create => true
      case Transfer =>
        |tx.inputs| == 1 && |tx.outputs| == 1
        && tx.inputs[0].issuer != tx.inputs[0].licensee && tx.inputs[0].licensee != tx.outputs[0].licensee
      case Scrap =>
        |tx.inputs| == 1 && tx.inputs[0].issuer != tx.inputs[0].licensee
  }

  /** With distinct keys per party, the Java contract accepts exactly the transactions the Kotlin
      contract accepts whose signing parties are pairwise different. */
  lemma JavaIsKotlinWithDistinctParties(tx: LedgerTransaction, owningKey: Party -> PublicKey)
    requires Injective(owningKey)
    ensures ContractJava.Verify(tx, owningKey).Pass? <==>
      ContractKotlin.Verify(tx, owningKey).Pass? && DistinctSigningParties(tx)
  {
    JavaIsKotlinPlusSignerCount(tx, owningKey);
    if ContractKotlin.Verify(tx, owningKey).Pass? {
      SignerCountIffDistinct(tx, owningKey);
    }
  }

  /** On a transaction the Kotlin contract accepts, with distinct keys per party, the signer set
      has the size the Java contract expects exactly when the signing parties are pairwise
      different. */
  lemma SignerCountIffDistinct(tx: LedgerTransaction, owningKey: Party -> PublicKey)
    requires Injective(owningKey)
    requires ContractKotlin.Verify(tx, owningKey).Pass?
    ensures SignerCountHolds(tx) <==> DistinctSigningParties(tx)
  {
    var c := RequireSingleCommand(tx.commands).value;
    match c.value.kind
    case Create =>
      assert ContractKotlin.VerifyCreate(tx, c.signers, owningKey).Pass?;
      var output := tx.outputs[0];
      assert ToSet(c.signers) == {owningKey(output.issuer), owningKey(output.licensee)};
      PairSize(owningKey(output.issuer), owningKey(output.licensee));
      assert owningKey(output.issuer) != owningKey(output.licensee);
    case Transfer =>
      assert ContractKotlin.VerifyTransfer(tx, c.signers, owningKey).Pass?;
      var input, output := tx.inputs[0], tx.outputs[0];
      assert ContractKotlin.TransferRecords(input, output, c.signers, owningKey).Pass?;
      assert ToSet(c.signers) == {owningKey(input.issuer), owningKey(input.licensee), owningKey(output.licensee)};
      TripleSize(owningKey(input.issuer), owningKey(input.licensee), owningKey(output.licensee));
      assert owningKey(input.issuer) != owningKey(output.licensee);
      assert owningKey(input.issuer) == owningKey(input.licensee) <==> input.issuer == input.licensee;
      assert owningKey(input.licensee) == owningKey(output.licensee) <==> input.licensee == output.licensee;
    case Scrap =>
      assert ContractKotlin.VerifyScrap(tx, c.signers, owningKey).Pass?;
      var input := tx.inputs[0];
      assert ToSet(c.signers) == {owningKey(input.issuer), owningKey(input.licensee)};
      PairSize(owningKey(input.issuer), owningKey(input.licensee));
      assert owningKey(input.issuer) == owningKey(input.licensee) <==> input.issuer == input.licensee;
  }

  /** The Java Transfer flow asked to transfer a license to its current licensee builds a
      transaction the Kotlin contract accepts and the Java contract rejects at the signer rule. */
  lemma TransferToCurrentLicensee(input: CarLicenseState, owningKey: Party -> PublicKey)
    requires input.issuer != input.licensee
    ensures var tx := TransferFlowJava.Assemble(input, input.licensee, owningKey).tx;
      && ContractKotlin.Verify(tx, owningKey) == Pass
      && ContractJava.Verify(tx, owningKey) == Fail(Signers(ContractJava.TransferSigners))
  {
    var tx := TransferFlowJava.Assemble(input, input.licensee, owningKey).tx;
    var signers := tx.commands[0].signers;
    assert LicenseCommands(tx.commands) == tx.commands;
    assert ToSet(signers) == {owningKey(input.issuer), owningKey(input.licensee)} by {
      assert signers == [owningKey(input.issuer), owningKey(input.licensee), owningKey(input.licensee)];
    }
    KotlinAcceptsSelfTransfer(input, signers, owningKey);
    JavaRejectsSelfTransfer(input, signers, owningKey);
    assert ContractJava.Verify(tx, owningKey)
        == ContractJava.TransferRecords(input, tx.outputs[0], signers, owningKey);
    assert ContractKotlin.Verify(tx, owningKey)
        == ContractKotlin.TransferRecords(input, tx.outputs[0], signers, owningKey);
  }

  /** The Kotlin rules on a record transferred to itself, signed by its two parties. */
  lemma KotlinAcceptsSelfTransfer(input: CarLicenseState, signers: seq<PublicKey>, owningKey: Party -> PublicKey)
    requires input.issuer != input.licensee
    requires ToSet(signers) == {owningKey(input.issuer), owningKey(input.licensee)}
    ensures ContractKotlin.TransferRecords(input, input, signers, owningKey) == Pass
  {
  }

  /** The Java rules on the same pair: the signer set has two keys where three are demanded. */
  lemma JavaRejectsSelfTransfer(input: CarLicenseState, signers: seq<PublicKey>, owningKey: Party -> PublicKey)
    requires input.issuer != input.licensee
    requires ToSet(signers) == {owningKey(input.issuer), owningKey(input.licensee)}
    ensures ContractJava.TransferRecords(input, input, signers, owningKey) == Fail(Signers(ContractJava.TransferSigners))
  {
    assert |ToSet(signers)| <= 2;
  }

  /** Scrapping a record whose issuer is also its licensee, signed by that one party, passes the
      Kotlin contract (no content rule, matching key set) and fails the Java signer-count rule. */
  lemma ScrapOfSelfHeldRecord(input: CarLicenseState, owningKey: Party -> PublicKey)
    requires input.issuer == input.licensee
    ensures var tx := SingleCommandTx([input], [], Scrap, [owningKey(input.issuer)]);
      && ContractKotlin.Verify(tx, owningKey) == Pass
      && ContractJava.Verify(tx, owningKey) == Fail(Signers(ContractJava.ScrapSigners))
  {
    var tx := SingleCommandTx([input], [], Scrap, [owningKey(input.issuer)]);
    assert LicenseCommands(tx.commands) == tx.commands;
    assert ToSet([owningKey(input.issuer)]) == {owningKey(input.issuer)};
  }
}
