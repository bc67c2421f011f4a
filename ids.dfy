/** Identifier generation. The system draws ids at random; the model only
    relies on being able to pick one that is not in use yet, and this
    module shows that such an id always exists. */
module Ids {

  /** A string strictly longer than every string in `used`. */
  ghost function LongerThanAll(used: set<string>): (s: string)
    ensures forall u | u in used :: |u| < |s|
    decreases used
  {
    if used == {} then ""
    else
      var u :| u in used;
      var rest := LongerThanAll(used - {u});
      if |u| < |rest| then rest else u + "0"
  }

  /** However many ids are taken, a fresh one remains. */
  lemma FreshIdExists(used: set<string>)
    ensures exists id: string :: id !in used
  {
    var id := LongerThanAll(used);
    assert id !in used;
  }
}
