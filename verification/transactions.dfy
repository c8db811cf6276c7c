/** The ledger transaction a contract verifies: consumed records, produced records and commands
    with their signer keys; and the command vocabulary both contracts switch on. */
module Transactions {
  import opened Wrappers
  import opened Identity
  import opened State
  import opened Collections

  /** The three type-only commands of the car-license contract. */
  datatype LicenseCommand = Create | Transfer | Scrap

  /** A command's data: one of the license commands, or a command belonging to some other contract. */
  datatype CommandData = License(kind: LicenseCommand) | Other(name: string)

  /** A command with the list of keys that must sign it (duplicates allowed, order kept). */
  datatype Command = Command(value: CommandData, signers: seq<PublicKey>)

  /** A transaction as the contract sees it. */
  datatype LedgerTransaction = LedgerTransaction(
    inputs: seq<CarLicenseState>,
    outputs: seq<CarLicenseState>,
    commands: seq<Command>)

  /** The first rule a transaction breaks: no single license command, or a rule from the contract's
      shape, content or signature constraint group; `message` is the text the contract reports. */
  datatype Violation =
    | NoSingleCommand(found: nat)
    | Shape(message: string)
    | Content(message: string)
    | Signers(message: string)

  /** The signer list, duplicates ignored, is exactly the `required` key set: a missing key and an
      extra key both break it. */
  predicate SignedExactlyBy(signers: seq<PublicKey>, required: set<PublicKey>) {
    ToSet(signers) == required
  }

  /** The key set of a record's participants is the issuer's and the licensee's key. */
  lemma ParticipantKeys(s: CarLicenseState, owningKey: Party -> PublicKey)
    ensures ToSet(KeysOf(s.Participants(), owningKey)) == {owningKey(s.issuer), owningKey(s.licensee)}
  {
    var keys := KeysOf(s.Participants(), owningKey);
    assert keys == [owningKey(s.issuer), owningKey(s.licensee)];
  }

  /** The key set of the participants of two records together. */
  lemma UnionParticipantKeys(a: CarLicenseState, b: CarLicenseState, owningKey: Party -> PublicKey)
    ensures ToSet(KeysOf(a.Participants() + b.Participants(), owningKey))
         == {owningKey(a.issuer), owningKey(a.licensee), owningKey(b.issuer), owningKey(b.licensee)}
  {
    var keys := KeysOf(a.Participants() + b.Participants(), owningKey);
    assert keys == [owningKey(a.issuer), owningKey(a.licensee), owningKey(b.issuer), owningKey(b.licensee)];
    QuadrupleSet(owningKey(a.issuer), owningKey(a.licensee), owningKey(b.issuer), owningKey(b.licensee));
  }

  /** The license commands among `commands`, in order. */
  function LicenseCommands(commands: seq<Command>): (r: seq<Command>)
    ensures forall c :: c in r <==> c in commands && c.value.License?
    ensures |r| <= |commands|
  {
    if |commands| == 0 then []
    else if commands[0].value.License? then [commands[0]] + LicenseCommands(commands[1..])
    else LicenseCommands(commands[1..])
  }

  /** Each license command is kept as often as it occurs, so a repeated license command is
      counted twice and makes the single-command selection fail. */
  lemma {:induction false} LicenseCommandsKeepMultiplicity(commands: seq<Command>, c: Command)
    ensures multiset(LicenseCommands(commands))[c] == if c.value.License? then multiset(commands)[c] else 0
  {
    if |commands| > 0 {
      var head, rest := commands[0], LicenseCommands(commands[1..]);
      LicenseCommandsKeepMultiplicity(commands[1..], c);
      assert multiset(commands) == multiset{head} + multiset(commands[1..]) by {
        assert commands == [head] + commands[1..];
      }
      if head.value.License? {
        assert LicenseCommands(commands) == [head] + rest;
        assert multiset([head] + rest) == multiset{head} + multiset(rest);
      } else {
        assert LicenseCommands(commands) == rest;
      }
    }
  }

  /** The same license command given twice counts as two, so no single command is selected. */
  lemma RepeatedLicenseCommandRejected(c: Command)
    requires c.value.License?
    ensures RequireSingleCommand([c, c]) == Failure(NoSingleCommand(2))
  {
    LicenseCommandsKeepMultiplicity([c, c], c);
    assert multiset([c, c])[c] == 2;
  }

  /** The one license command of a transaction, or a failure carrying how many were found. */
  function RequireSingleCommand(commands: seq<Command>): (r: Result<Command, Violation>)
    ensures r.Success? <==> |LicenseCommands(commands)| == 1
    ensures r.Success? ==> r.value in commands && r.value.value.License?
    ensures r.Success? ==> forall c :: c in commands && c.value.License? ==> c == r.value
    ensures r.Failure? ==> r.error == NoSingleCommand(|LicenseCommands(commands)|)
  {
    var found := LicenseCommands(commands);
    if |found| == 1 then Success(found[0]) else Failure(NoSingleCommand(|found|))
  }

  /** A transaction whose one command is a license command of the given kind signed by `signers`. */
  function SingleCommandTx(inputs: seq<CarLicenseState>, outputs: seq<CarLicenseState>,
                           kind: LicenseCommand, signers: seq<PublicKey>): LedgerTransaction
  {
    LedgerTransaction(inputs, outputs, [Command(License(kind), signers)])
  }
}
