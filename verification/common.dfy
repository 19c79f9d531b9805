/** What several parts of the model share. */
module Common {
  function One(b: bool): (n: nat) {
    if b then 1 else 0
  }

  ghost predicate Distinct(s: seq<nat>) {
    forall i, j :: 0 <= i < j < |s| ==> s[i] != s[j]
  }
}
