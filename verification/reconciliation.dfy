/**
 Reconciliation: the skipped provisions are written back over the updated
 eligible ones, giving the manifest that is saved for the next run. This
 module also composes the whole run (qualify, dispatch, aggregate, merge) and
 states what one run does to every provision and that a second run finds
 nothing left to do.
 */
module Reconciliation {
  import opened Manifest
  import opened MapOrder
  import opened Qualification
  import opened Aggregation

  /** Writing every skipped entry over the updated map; a skipped entry wins on a shared name. */
  function Merge(updated: ProvisionMap, skipped: ProvisionMap): ProvisionMap {
    updated + skipped
  }

  /**
   The merge of disjoint halves loses nothing: the result holds every entry
   of both, unchanged, and is as large as both together.
   */
  lemma MergeDisjoint(updated: ProvisionMap, skipped: ProvisionMap)
    requires updated.Keys !! skipped.Keys
    ensures Merge(updated, skipped).Keys == updated.Keys + skipped.Keys
    ensures forall k | k in updated :: Merge(updated, skipped)[k] == updated[k]
    ensures forall k | k in skipped :: Merge(updated, skipped)[k] == skipped[k]
    ensures |Merge(updated, skipped)| == |updated| + |skipped|
  {
    var r := Merge(updated, skipped);
    assert r.Keys == updated.Keys + skipped.Keys;
    assert |r.Keys| == |updated.Keys| + |skipped.Keys|;
  }

  /** The source's merge loop: store each skipped entry, one at a time, in the updated map. */
  method SaveMerge(updated: ProvisionMap, skipped: ProvisionMap) returns (saved: ProvisionMap)
    ensures saved.Keys == updated.Keys + skipped.Keys
    ensures forall k | k in skipped :: saved[k] == skipped[k]
    ensures forall k | k in updated && k !in skipped :: saved[k] == updated[k]
    ensures saved == Merge(updated, skipped)
  {
    saved := updated;
    var todo := skipped.Keys;
    while todo != {}
      invariant todo <= skipped.Keys
      invariant saved == updated + map k | k in skipped && k !in todo :: skipped[k]
      decreases todo
    {
      var k :| k in todo;
      saved := saved[k := skipped[k]];
      todo := todo - {k};
    }
  }

  /** What one run leaves in place of a provision: skipped ones unchanged, the others completed. */
  function Target(p: Provision): (r: Provision)
    ensures r.action == p.action && r.parameters == p.parameters
    ensures Skip(p) ==> r == p
    ensures !Skip(p) && p.action == Apply ==> r.state == Applied
    ensures !Skip(p) && p.action == Destroy ==> r.state == Destroyed
  {
    if Skip(p) then p else Complete(p, p.action)
  }

  /** The manifest one run is meant to leave behind. */
  function Expected(provisions: ProvisionMap): (r: ProvisionMap)
    ensures r.Keys == provisions.Keys
  {
    map k | k in provisions :: Target(provisions[k])
  }

  /**
   One run: qualify, run the aggregator loop over the reports, then write the
   skipped provisions back over the result. `None` when the loop waits for a
   report that never comes.
   */
  function Reconcile(provisions: ProvisionMap, arrivals: seq<Outcome>): Option<ProvisionMap> {
    var part := Qualify(provisions);
    match Join(part.eligible, arrivals)
    case None => None
    case Some(updated) => Some(Merge(updated, part.skipped))
  }

  /**
   Reconciliation completeness: with one report per eligible provision, in any
   order, the run completes and the saved manifest has exactly the original
   names, every skipped provision as it was, and every eligible one completed
   with its own action.
   */
  lemma ReconcileMeetsExpected(provisions: ProvisionMap, arrivals: seq<Outcome>)
    requires OnePerProvision(arrivals, Qualify(provisions).eligible)
    ensures |arrivals| == |Qualify(provisions).eligible|
    ensures Reconcile(provisions, arrivals) == Some(Expected(provisions))
  {
    var part := Qualify(provisions);
    OnePerProvisionLength(arrivals, part.eligible);
    JoinOnePerProvision(part.eligible, arrivals);
    MergeExecuted(provisions);
  }

  /** Merging the completed eligible half with the skipped half gives the expected manifest. */
  lemma MergeExecuted(provisions: ProvisionMap)
    ensures Merge(Executed(Qualify(provisions).eligible), Qualify(provisions).skipped) == Expected(provisions)
  {
    var part := Qualify(provisions);
    QualifyPartition(provisions);
    var r := Merge(Executed(part.eligible), part.skipped);
    var e := Expected(provisions);
    assert r.Keys == e.Keys;
    forall k | k in provisions
      ensures r[k] == e[k]
    {
      if Skip(provisions[k]) {
        assert k in part.skipped;
      } else {
        assert k in part.eligible && k !in part.skipped;
      }
    }
  }

  /** After a run no provision qualifies any more: each is skipped by one of the rules. */
  lemma ExpectedAllSkipped(provisions: ProvisionMap)
    ensures Qualify(Expected(provisions)).eligible == map[]
    ensures Qualify(Expected(provisions)).skipped == Expected(provisions)
  {
    var e := Expected(provisions);
    forall k | k in e
      ensures Skip(e[k])
    {
      assert e[k] == Target(provisions[k]);
    }
    assert Qualify(e).eligible.Keys == {};
  }

  /**
   Idempotence: qualifying the saved manifest again finds nothing eligible, so
   a second run with no reports completes at once and saves the same manifest.
   */
  lemma ReconcileIdempotent(provisions: ProvisionMap, arrivals: seq<Outcome>)
    requires OnePerProvision(arrivals, Qualify(provisions).eligible)
    ensures |arrivals| == |Qualify(provisions).eligible|
    ensures Reconcile(provisions, arrivals).Some?
    ensures Qualify(Reconcile(provisions, arrivals).value).eligible == map[]
    ensures Reconcile(Reconcile(provisions, arrivals).value, []) == Reconcile(provisions, arrivals)
  {
    ReconcileMeetsExpected(provisions, arrivals);
    ExpectedAllSkipped(provisions);
    ReconcileSettled(Expected(provisions));
  }

  /** A manifest with nothing eligible waits for no report and is saved as it is. */
  lemma ReconcileSettled(provisions: ProvisionMap)
    requires Qualify(provisions).eligible == map[]
    ensures Reconcile(provisions, []) == Some(provisions)
  {
    QualifyPartition(provisions);
    assert Join(map[], []) == Some(map[]);
    assert Qualify(provisions).skipped == provisions;
    assert Merge(map[], provisions) == provisions;
  }

  /**
   The whole run as the source performs it: partition by the loop, launch
   one tool run per eligible provision, take the reports in arrival order,
   and merge the skipped provisions back. The template repository and the
   state bucket are carried through unchanged.
   */
  method Run(c: Config, order: seq<string>, paramOrder: map<string, seq<string>>, arrivals: seq<Outcome>)
    returns (launches: seq<Launch>, saved: Config)
    requires Enumerates(order, Qualify(c.provisions).eligible)
    requires ParameterOrders(Qualify(c.provisions).eligible, order, paramOrder)
    requires multiset(arrivals) == multiset(Reports(Dispatch(Qualify(c.provisions).eligible, order, paramOrder)))
    ensures launches == Dispatch(Qualify(c.provisions).eligible, order, paramOrder)
    ensures OnePerProvision(Reports(launches), Qualify(c.provisions).eligible)
    ensures |launches| == |Qualify(c.provisions).eligible|
    ensures forall l | l in launches :: l.name in c.provisions && !Skip(c.provisions[l.name])
    ensures saved.tfRepo == c.tfRepo && saved.s3Bucket == c.s3Bucket
    ensures saved.provisions == Expected(c.provisions)
    ensures Qualify(saved.provisions).eligible == map[]
  {
    var qualified, unqualified := ComputeQualifiedProvisions(c.provisions);
    launches := Dispatch(qualified, order, paramOrder);
    DispatchReportsEach(qualified, order, paramOrder);
    PermutationReportsEach(arrivals, Reports(launches), qualified);
    var joined := UpdateProvisions(qualified, arrivals);
    var merged := SaveMerge(joined.value, unqualified);
    saved := c.(provisions := merged);
    MergeExecuted(c.provisions);
    ExpectedAllSkipped(c.provisions);
  }

  /**
   The repository's qualification test: of five provisions, only
   (apply, changed) and (destroy, applied) are eligible.
   */
  lemma QualifyExample()
    ensures
      var ps := map["desired_service_count" := "3"];
      var provisions := map[
        "jenkins_1" := Provision(Destroy, Destroyed, ps),
        "jenkins_2" := Provision(Apply, Changed, ps),
        "jenkins_3" := Provision(Destroy, Changed, ps),
        "jenkins_4" := Provision(Destroy, Applied, ps),
        "jenkins_5" := Provision(Apply, Applied, ps)];
      Qualify(provisions).eligible.Keys == {"jenkins_2", "jenkins_4"}
  {
  }
}
