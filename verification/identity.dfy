/** Parties, their public keys and the unique identifiers that tie the versions of one record together. */
module Identity {

  /** A ledger participant, known by its legal name and otherwise opaque. */
  datatype Party = Party(name: string)

  /** A public key; a party signs with the key its `owningKey` map assigns to it. */
  datatype PublicKey = PublicKey(encoded: string)

  /** The linear identifier shared by every version of one license record. */
  datatype UniqueIdentifier = UniqueIdentifier(uuid: nat)

  /** No two distinct parties share a key. */
  ghost predicate Injective(owningKey: Party -> PublicKey) {
    forall p, q :: owningKey(p) == owningKey(q) ==> p == q
  }

  /** The keys of a list of parties, in list order (`parties.map { it.owningKey }`). */
  function KeysOf(parties: seq<Party>, owningKey: Party -> PublicKey): (keys: seq<PublicKey>)
    ensures |keys| == |parties|
    ensures forall i :: 0 <= i < |parties| ==> keys[i] == owningKey(parties[i])
  {
    if |parties| == 0 then [] else [owningKey(parties[0])] + KeysOf(parties[1..], owningKey)
  }
}
