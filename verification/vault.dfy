/** The node's store of live license records, reduced to a lookup by linear identifier. The
    flows use the first record the query returns. */
module Vault {
  import opened Wrappers
  import opened Identity
  import opened State

  /** The first live record in `vault` carrying `id`, or None when there is none. */
  function FirstByLinearId(vault: seq<CarLicenseState>, id: UniqueIdentifier): (r: Option<CarLicenseState>)
    ensures r.None? <==> forall s :: s in vault ==> s.linearId != id
    ensures r.Some? ==> r.value.linearId == id && r.value in vault
    ensures r.Some? ==> exists i :: 0 <= i < |vault| && vault[i] == r.value
                                    && forall j :: 0 <= j < i ==> vault[j].linearId != id
  {
    if |vault| == 0 then None
    else if vault[0].linearId == id then Some(vault[0])
    else
      var rest := FirstByLinearId(vault[1..], id);
      if rest.Some? then
        FirstMatchPastHead(vault, id, rest.value);
        rest
      else rest
  }

  /** A first match in the tail, behind a head that does not match, is a first match of the whole. */
  lemma FirstMatchPastHead(vault: seq<CarLicenseState>, id: UniqueIdentifier, x: CarLicenseState)
    requires |vault| > 0 && vault[0].linearId != id
    requires exists i :: 0 <= i < |vault[1..]| && vault[1..][i] == x
                         && forall j :: 0 <= j < i ==> vault[1..][j].linearId != id
    ensures exists i :: 0 <= i < |vault| && vault[i] == x
                        && forall j :: 0 <= j < i ==> vault[j].linearId != id
  {
    var i :| 0 <= i < |vault[1..]| && vault[1..][i] == x
             && forall j :: 0 <= j < i ==> vault[1..][j].linearId != id;
    assert vault[i + 1] == x;
  }
}
