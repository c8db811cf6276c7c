/** The initiator's side of the commit protocol shared by every flow: verify the built transaction
    locally, sign it, open one session per counterparty and collect their signatures, then hand the
    fully signed transaction to finality over the same sessions. Counterparty answers and the
    notary's answer are parameters: they happen on other nodes. */
module Proposer {
  import opened Wrappers
  import opened Identity
  import opened Collections
  import opened Transactions

  /** The protocol steps, named after the flows' progress steps. */
  datatype Step = Verifying | Signing | GatheringSigs(sessions: seq<Party>) | Finalising(sessions: seq<Party>)

  /** Why a flow run stopped. */
  datatype FlowError =
    | NotFound(id: UniqueIdentifier)
    | NotIssuer(message: string)
    | NoSingleIdentity(count: nat)
    | Invalid(violation: Violation)
    | Declined(parties: set<Party>)
    | NotaryRejected

  /** What a builder hands to the protocol: the transaction and the parties to open sessions with. */
  datatype Proposal = Proposal(tx: LedgerTransaction, sessions: seq<Party>)

  /** A transaction together with the keys that have signed it. */
  datatype SignedTransaction = SignedTransaction(tx: LedgerTransaction, signatures: set<PublicKey>)

  /** The steps a run went through and how it ended. */
  datatype Run = Run(steps: seq<Step>, result: Result<SignedTransaction, FlowError>)

  /** The complete step sequence of a successful run. */
  function Protocol(sessions: seq<Party>): seq<Step> {
    [Verifying, Signing, GatheringSigs(sessions), Finalising(sessions)]
  }

  /** The session parties that refuse to sign. */
  function Decliners(sessions: seq<Party>, countersigns: Party -> bool): (r: set<Party>)
    ensures r == {} <==> forall p :: p in sessions ==> countersigns(p)
  {
    var r := set p | p in sessions && !countersigns(p);
    assert forall p :: p in sessions && !countersigns(p) ==> p in r;
    r
  }

  /** One initiator run on a built proposal. `verdict` is the contract's verdict on the proposal's
      transaction, `countersigns` says which counterparties sign, `notarised` whether the notary
      accepts the fully signed transaction. */
  function Propose(me: Party, owningKey: Party -> PublicKey, proposal: Proposal, verdict: Outcome<Violation>,
                   countersigns: Party -> bool, notarised: bool): (run: Run)
    // the steps always run in protocol order, starting with local verification
    ensures 1 <= |run.steps| && run.steps <= Protocol(proposal.sessions)
    // a rejected transaction stops the run before signing and before any session is opened
    ensures verdict.Fail? ==> run == Run([Verifying], Failure(Invalid(verdict.error)))
    ensures GatheringSigs(proposal.sessions) in run.steps <==> verdict.Pass?
    // success needs a valid transaction, every counterparty's signature and the notary
    ensures run.result.Success? <==>
      verdict.Pass? && (forall p :: p in proposal.sessions ==> countersigns(p)) && notarised
    ensures run.result.Success? ==>
      && run.steps == Protocol(proposal.sessions)
      && run.result.value.tx == proposal.tx
      && run.result.value.signatures == {owningKey(me)} + ToSet(KeysOf(proposal.sessions, owningKey))
    // a refused signature aborts signature collection, so finality is never reached
    ensures verdict.Pass? && (exists p :: p in proposal.sessions && !countersigns(p)) ==>
      && run.result.Failure? && run.result.error.Declined?
      && run.steps == Protocol(proposal.sessions)[..3]
    // with every signature collected, a notary refusal is reported after the finalising step
    ensures verdict.Pass? && (forall p :: p in proposal.sessions ==> countersigns(p)) && !notarised ==>
      run == Run(Protocol(proposal.sessions), Failure(NotaryRejected))
    ensures run.result.Failure? && run.result.error.Declined? ==>
      && run.result.error.parties != {}
      && (forall p :: p in run.result.error.parties <==> p in proposal.sessions && !countersigns(p))
      && run.steps == Protocol(proposal.sessions)[..3]
  {
    if verdict.Fail? then Run([Verifying], Failure(Invalid(verdict.error)))
    else
      var ptx := SignedTransaction(proposal.tx, {owningKey(me)});
      var declined := Decliners(proposal.sessions, countersigns);
      if declined != {} then
        Run([Verifying, Signing, GatheringSigs(proposal.sessions)], Failure(Declined(declined)))
      else
        var stx := ptx.(signatures := ptx.signatures + ToSet(KeysOf(proposal.sessions, owningKey)));
        if !notarised then Run(Protocol(proposal.sessions), Failure(NotaryRejected))
        else Run(Protocol(proposal.sessions), Success(stx))
  }

  /** A run on a valid proposal with one counterparty finalises iff that party signs and the notary
      accepts, and then carries the caller's and the counterparty's signatures. */
  lemma OneSessionOutcome(me: Party, other: Party, owningKey: Party -> PublicKey, proposal: Proposal,
                          countersigns: Party -> bool, notarised: bool)
    requires proposal.sessions == [other]
    ensures var run := Propose(me, owningKey, proposal, Pass, countersigns, notarised);
      && (run.result.Success? <==> countersigns(other) && notarised)
      && (run.result.Success? ==>
            run.result.value.tx == proposal.tx && run.result.value.signatures == {owningKey(me), owningKey(other)})
  {
    assert KeysOf(proposal.sessions, owningKey) == [owningKey(other)];
  }

  /** The same with two counterparties: both must sign. */
  lemma TwoSessionOutcome(me: Party, first: Party, second: Party, owningKey: Party -> PublicKey, proposal: Proposal,
                          countersigns: Party -> bool, notarised: bool)
    requires proposal.sessions == [first, second]
    ensures var run := Propose(me, owningKey, proposal, Pass, countersigns, notarised);
      && (run.result.Success? <==> countersigns(first) && countersigns(second) && notarised)
      && (run.result.Success? ==>
            && run.result.value.tx == proposal.tx
            && run.result.value.signatures == {owningKey(me), owningKey(first), owningKey(second)})
  {
    assert KeysOf(proposal.sessions, owningKey) == [owningKey(first), owningKey(second)];
  }
}
