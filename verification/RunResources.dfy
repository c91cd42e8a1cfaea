/** Resources claimed by live runs and the rule that decides when two claims clash. */
module RunResources {

  datatype Access = Shared | Exclusive

  datatype RunResource = RunResource(kind: string, identifier: string, access: Access)

  predicate ResourcesConflict(left: RunResource, right: RunResource) {
    var sameResource := left.kind == right.kind && left.identifier == right.identifier;
    sameResource && Exclusive in {left.access, right.access}
  }

  /** Some resource of one claim clashes with some resource of the other. */
  predicate ClaimsConflict(left: seq<RunResource>, right: seq<RunResource>) {
    exists i, j :: 0 <= i < |left| && 0 <= j < |right| && ResourcesConflict(left[i], right[j])
  }

  lemma ClaimsConflictSymmetric(left: seq<RunResource>, right: seq<RunResource>)
    ensures ClaimsConflict(left, right) <==> ClaimsConflict(right, left)
  {
  }

  /** Two claims clash exactly if both name one resource, by kind and identifier, and not both only share it. */
  lemma ClaimsConflictExactly(left: seq<RunResource>, right: seq<RunResource>)
    ensures ClaimsConflict(left, right) <==> exists mine, theirs ::
      && mine in left && theirs in right
      && mine.kind == theirs.kind && mine.identifier == theirs.identifier && !(mine.access == Shared && theirs.access == Shared)
  {
    if mine, theirs :| mine in left && theirs in right && mine.kind == theirs.kind && mine.identifier == theirs.identifier
                       && !(mine.access == Shared && theirs.access == Shared) {
      var i :| 0 <= i < |left| && left[i] == mine;
      var j :| 0 <= j < |right| && right[j] == theirs;
      assert ResourcesConflict(left[i], right[j]);
    }
  }

  /** An exclusive claim on a resource clashes with every claim that names the same resource. */
  lemma ExclusiveExcludesEveryOther(claim: seq<RunResource>, other: seq<RunResource>, mine: RunResource, theirs: RunResource)
    requires mine in claim && theirs in other
    requires mine.access == Exclusive && mine.kind == theirs.kind && mine.identifier == theirs.identifier
    ensures ClaimsConflict(claim, other) && ClaimsConflict(other, claim)
  {
  }
}
