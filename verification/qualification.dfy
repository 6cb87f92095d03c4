/**
 The qualification filter: which provisions the tool runs for this time, and
 which are left alone. The source partitions the manifest by deleting from it
 while ranging over it; `Qualify` builds the two halves afresh, and
 `ComputeQualifiedProvisions` follows the source's loop step by step and is
 shown to agree with it.
 */
module Qualification {
  import opened Manifest

  /** The four skip rules, in the source's order, as string comparisons. */
  predicate SkipText(action: string, state: string) {
    || (state == "changed" && action == "destroy")
    || (state == "destroyed" && action == "destroy")
    || (state == "applied" && action == "apply")
    || (action != "apply" && action != "destroy")
  }

  /** The four skip rules on the manifest model. */
  predicate Skip(p: Provision) {
    || (p.state == Changed && p.action == Destroy)
    || (p.state == Destroyed && p.action == Destroy)
    || (p.state == Applied && p.action == Apply)
    || !Recognised(p.action)
  }

  /** The skip rules on the model decide exactly as the string comparisons do. */
  lemma SkipMatchesText(action: string, state: string, parameters: map<string, string>)
    ensures Skip(Provision(ParseAction(action), ParseState(state), parameters)) <==> SkipText(action, state)
  {
  }

  /**
   Eligibility spelled positively: apply unless already applied, destroy
   unless already destroyed or changed. An unset state is always eligible.
   */
  lemma EligibleIff(p: Provision)
    ensures !Skip(p) <==>
      || (p.action == Apply && p.state != Applied)
      || (p.action == Destroy && p.state != Destroyed && p.state != Changed)
    ensures p.state == Unset && Recognised(p.action) ==> !Skip(p)
  {
  }

  /** The result of qualification: the entries to execute and the entries left alone. */
  datatype Partition = Partition(eligible: ProvisionMap, skipped: ProvisionMap)

  /** Splits the provisions into eligible and skipped ones by the skip rules. */
  function Qualify(provisions: ProvisionMap): Partition {
    Partition(
      map k | k in provisions && !Skip(provisions[k]) :: provisions[k],
      map k | k in provisions && Skip(provisions[k]) :: provisions[k])
  }

  /**
   Partition law: the two halves have disjoint key sets whose union is the
   input; every entry keeps its value; eligible entries fail the skip rules
   and skipped ones meet them; every eligible action is apply or destroy.
   */
  lemma QualifyPartition(provisions: ProvisionMap)
    ensures Qualify(provisions).eligible.Keys !! Qualify(provisions).skipped.Keys
    ensures Qualify(provisions).eligible.Keys + Qualify(provisions).skipped.Keys == provisions.Keys
    ensures forall k | k in Qualify(provisions).eligible ::
      Qualify(provisions).eligible[k] == provisions[k] && !Skip(provisions[k])
    ensures forall k | k in Qualify(provisions).skipped ::
      Qualify(provisions).skipped[k] == provisions[k] && Skip(provisions[k])
    ensures forall k | k in Qualify(provisions).eligible :: Recognised(Qualify(provisions).eligible[k].action)
  {
  }

  /** Qualifying nothing yields two empty halves. */
  lemma QualifyEmpty()
    ensures Qualify(map[]) == Partition(map[], map[])
  {
  }

  /**
   The source's loop: range over the provisions, and for each of the four
   rules that fires, move the entry into the unqualified map and delete it
   from the provisions. What remains of the provisions is the qualified map.
   */
  method ComputeQualifiedProvisions(provisions: ProvisionMap) returns (qualified: ProvisionMap, unqualified: ProvisionMap)
    ensures qualified == Qualify(provisions).eligible
    ensures unqualified == Qualify(provisions).skipped
    ensures qualified.Keys !! unqualified.Keys
    ensures qualified.Keys + unqualified.Keys == provisions.Keys
  {
    qualified := provisions;
    unqualified := map[];
    var remaining := provisions.Keys;
    while remaining != {}
      invariant remaining <= provisions.Keys
      invariant qualified == map k | k in provisions && (k in remaining || !Skip(provisions[k])) :: provisions[k]
      invariant unqualified == map k | k in provisions && k !in remaining && Skip(provisions[k]) :: provisions[k]
      decreases remaining
    {
      var k :| k in remaining;
      var v := qualified[k];
      if v.state == Changed && v.action == Destroy {
        unqualified := unqualified[k := v];
        qualified := qualified - {k};
      }
      if v.state == Destroyed && v.action == Destroy {
        unqualified := unqualified[k := v];
        qualified := qualified - {k};
      }
      if v.state == Applied && v.action == Apply {
        unqualified := unqualified[k := v];
        qualified := qualified - {k};
      }
      if v.action != Apply && v.action != Destroy {
        unqualified := unqualified[k := v];
        qualified := qualified - {k};
      }
      remaining := remaining - {k};
    }
    QualifyPartition(provisions);
  }
}
