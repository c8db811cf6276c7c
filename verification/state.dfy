/** The license record: one immutable version of a car license on the ledger. */
module State {
  import opened Identity

  /** A car license. Equality is structural over the four fields, as for a Kotlin data class. */
  datatype CarLicenseState = CarLicenseState(
    licensePlate: string,
    issuer: Party,
    licensee: Party,
    linearId: UniqueIdentifier)
  {
    /** The parties whose consent the ledger requires by default: issuer first, then licensee. */
    function Participants(): (ps: seq<Party>)
      ensures |ps| == 2 && ps[0] == issuer && ps[1] == licensee
      ensures forall p :: p in ps <==> p == issuer || p == licensee
    {
      [issuer, licensee]
    }

    /** A copy of this record with the licensee replaced and nothing else changed. */
    function ChangeLicensee(newParty: Party): (s: CarLicenseState)
      ensures s.licensee == newParty
      ensures s.licensePlate == licensePlate && s.issuer == issuer && s.linearId == linearId
    {
      this.(licensee := newParty)
    }
  }

  /** Changing the licensee to the current licensee gives back the same record. */
  lemma ChangeToSameLicenseeIsIdentity(s: CarLicenseState)
    ensures s.ChangeLicensee(s.licensee) == s
  {
  }

  /** Of two licensee changes in a row only the last one is visible. */
  lemma ChangeLicenseeLastWriteWins(s: CarLicenseState, a: Party, b: Party)
    ensures s.ChangeLicensee(a).ChangeLicensee(b) == s.ChangeLicensee(b)
  {
  }

  /** Two records are equal exactly when their four fields are; in particular a record equals
      another one with its licensee put back iff the two differ in the licensee at most. */
  lemma SameUpToLicensee(input: CarLicenseState, output: CarLicenseState)
    ensures input == output.ChangeLicensee(input.licensee) <==>
      input.licensePlate == output.licensePlate
      && input.issuer == output.issuer
      && input.linearId == output.linearId
  {
  }
}
