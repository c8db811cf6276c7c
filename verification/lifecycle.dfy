/** The life of one license under the Java contract and flows: applied for by a licensee, moved by
    its issuer to a second licensee, then scrapped by the issuer. Each flow finds the record the
    previous one produced, and the Java contract accepts each transaction. */
module Lifecycle {
  import opened Wrappers
  import opened Identity
  import opened State
  import opened Transactions
  import opened Proposer
  import ContractJava
  import IssueFlowJava
  import TransferFlowJava
  import ScrapFlowJava

  /** With distinct keys and three different parties, issue, transfer and scrap all build and all
      pass the Java contract; the record keeps its plate, issuer and linear id throughout, and the
      scrap consumes the transferred record and produces nothing. */
  lemma IssueTransferScrap(issuer: Party, first: Party, second: Party, licensePlate: string,
                           linearId: UniqueIdentifier, owningKey: Party -> PublicKey)
    requires Injective(owningKey)
    requires issuer != first && issuer != second && first != second
    ensures var issued := IssueFlowJava.Build(first, issuer, licensePlate, linearId, owningKey).tx;
      var transfer := TransferFlowJava.Build(issuer, issued.outputs, linearId, second, owningKey);
      && ContractJava.Verify(issued, owningKey) == Pass
      && transfer.Success?
      && ContractJava.Verify(transfer.value.tx, owningKey) == Pass
      && transfer.value.tx.outputs == [CarLicenseState(licensePlate, issuer, second, linearId)]
      && var scrap := ScrapFlowJava.Build(issuer, transfer.value.tx.outputs, linearId, owningKey);
         && scrap.Success?
         && ContractJava.Verify(scrap.value.tx, owningKey) == Pass
         && scrap.value.tx.inputs == transfer.value.tx.outputs
         && scrap.value.tx.outputs == []
  {
    var record := CarLicenseState(licensePlate, issuer, first, linearId);
    IssueFlowJava.BuildAcceptedIffDistinct(first, issuer, licensePlate, linearId, owningKey);
    assert IssueFlowJava.Build(first, issuer, licensePlate, linearId, owningKey).tx.outputs == [record];

    var moved := record.ChangeLicensee(second);
    assert TransferFlowJava.Build(issuer, [record], linearId, second, owningKey)
        == Success(TransferFlowJava.Assemble(record, second, owningKey));
    TransferFlowJava.AssembledAcceptedIffDistinct(record, second, owningKey);

    assert ScrapFlowJava.Build(issuer, [moved], linearId, owningKey)
        == Success(ScrapFlowJava.Assemble(moved, owningKey));
    ScrapFlowJava.AssembledAcceptedIffDistinct(moved, owningKey);
  }
}
