/** Pools, scale sets and their owners, and label matching
    (ci/runners/garm/params/params.go). */
module Params {
  import opened Wrappers

  datatype EntityType = RepositoryEntity | OrganizationEntity | EnterpriseEntity | NoEntity

  /** A pool (id: string) or a scale set (id: nat): what the caches look at. */
  datatype Resource<K> = Resource(
    id: K,
    repoID: string,
    orgID: string,
    enterpriseID: string,
    createdAt: int,
    tags: seq<string>,
    settings: string)
  {
    /** PoolType and ScaleSetType. */
    function ResourceType(): EntityType {
      if repoID != "" then RepositoryEntity
      else if orgID != "" then OrganizationEntity
      else if enterpriseID != "" then EnterpriseEntity
      else NoEntity
    }

    /** The ID in GetEntity's answer; None is its error. An owner is never "". */
    function Owner(): (o: Option<string>)
      ensures o.Some? ==> o.value != ""
      ensures repoID != "" ==> o == Some(repoID)
      ensures repoID == "" && orgID != "" ==> o == Some(orgID)
      ensures repoID == orgID == "" && enterpriseID != "" ==> o == Some(enterpriseID)
      ensures o.None? <==> repoID == orgID == enterpriseID == ""
    {
      match ResourceType()
      case RepositoryEntity => Some(repoID)
      case OrganizationEntity => Some(orgID)
      case EnterpriseEntity => Some(enterpriseID)
      case NoEntity => None
    }
  }

  type Pool = Resource<string>
  type ScaleSet = Resource<nat>

  // ---------------------------------------------------------------------
  // Labels. `lower` is strings.ToLower; nothing depends on how it folds.
  // ---------------------------------------------------------------------

  function Lowered(lower: string -> string, names: seq<string>): set<string> {
    set i | 0 <= i < |names| :: lower(names[i])
  }

  /** Every label is among the tags, up to case. */
  predicate LabelsWithin(lower: string -> string, labels: seq<string>, tags: seq<string>) {
    Lowered(lower, labels) <= Lowered(lower, tags)
  }

  predicate HasLabels(lower: string -> string, tags: seq<string>, labels: seq<string>) {
    |labels| <= |tags| && LabelsWithin(lower, labels, tags)
  }

  /** The name occurs, up to case. */
  predicate Occurs(lower: string -> string, name: string, names: seq<string>) {
    exists j :: 0 <= j < |names| && lower(names[j]) == lower(name)
  }

  lemma WithinIff(lower: string -> string, labels: seq<string>, tags: seq<string>)
    ensures LabelsWithin(lower, labels, tags) <==> forall i :: 0 <= i < |labels| ==> Occurs(lower, labels[i], tags)
  {
    if LabelsWithin(lower, labels, tags) {
      forall i | 0 <= i < |labels|
        ensures Occurs(lower, labels[i], tags)
      {
        assert lower(labels[i]) in Lowered(lower, labels);
        assert lower(labels[i]) in Lowered(lower, tags);
      }
    } else {
      var x :| x in Lowered(lower, labels) && x !in Lowered(lower, tags);
      var i :| 0 <= i < |labels| && lower(labels[i]) == x;
      assert forall j :: 0 <= j < |tags| ==> lower(tags[j]) in Lowered(lower, tags);
      assert !Occurs(lower, labels[i], tags);
    }
  }

  method HasRequiredLabels(lower: string -> string, tags: seq<string>, labels: seq<string>) returns (ok: bool)
    ensures ok == HasLabels(lower, tags, labels)
    ensures ok <==> |labels| <= |tags| && forall i :: 0 <= i < |labels| ==> Occurs(lower, labels[i], tags)
  {
    WithinIff(lower, labels, tags);
    if |labels| > |tags| {
      return false;
    }
    var asMap: set<string> := {};
    for i := 0 to |tags|
      invariant asMap == set k | 0 <= k < i :: lower(tags[k])
    {
      asMap := asMap + {lower(tags[i])};
    }
    for i := 0 to |labels|
      invariant forall k :: 0 <= k < i ==> lower(labels[k]) in asMap
    {
      if lower(labels[i]) !in asMap {
        assert lower(labels[i]) in Lowered(lower, labels);
        return false;
      }
    }
    return true;
  }

  predicate DistinctUpToCase(lower: string -> string, names: seq<string>) {
    forall i, j :: 0 <= i < j < |names| ==> lower(names[i]) != lower(names[j])
  }

  lemma DistinctOneMore(lower: string -> string, names: seq<string>)
    requires names != []
    ensures var front, last := names[..|names| - 1], names[|names| - 1];
            DistinctUpToCase(lower, names)
            <==> DistinctUpToCase(lower, front) && lower(last) !in Lowered(lower, front)
  {
    var last := |names| - 1;
    if lower(names[last]) in Lowered(lower, names[..last]) {
      var i :| 0 <= i < last && lower(names[i]) == lower(names[last]);
    } else {
      assert forall i :: 0 <= i < last ==> lower(names[..last][i]) in Lowered(lower, names[..last]);
    }
  }

  lemma {:induction false} LoweredSize(lower: string -> string, names: seq<string>)
    ensures |Lowered(lower, names)| <= |names|
    ensures DistinctUpToCase(lower, names) <==> |Lowered(lower, names)| == |names|
  {
    if names == [] {
    } else {
      var last := |names| - 1;
      LoweredSize(lower, names[..last]);
      assert Lowered(lower, names) == Lowered(lower, names[..last]) + {lower(names[last])};
      DistinctOneMore(lower, names);
    }
  }

  lemma {:induction false} SubsetSize(a: set<string>, b: set<string>)
    requires a <= b
    ensures |a| <= |b|
  {
    if a == {} {
    } else {
      var x :| x in a;
      SubsetSize(a - {x}, b - {x});
    }
  }

  /** Main result: for labels that are distinct up to case, the early length test
      never rejects a list whose labels are all there. */
  lemma LabelsMatchIffWithin(lower: string -> string, tags: seq<string>, labels: seq<string>)
    requires DistinctUpToCase(lower, labels)
    ensures HasLabels(lower, tags, labels) <==> LabelsWithin(lower, labels, tags)
  {
    LoweredSize(lower, labels);
    LoweredSize(lower, tags);
    if LabelsWithin(lower, labels, tags) {
      SubsetSize(Lowered(lower, labels), Lowered(lower, tags));
    }
  }

  /** Exactly which label counts the test is right for, given the tags: up to the
      number of tags (longer lists may repeat a label), or any if there are none. */
  lemma LengthTestSafeIff(lower: string -> string, tags: seq<string>, n: nat)
    ensures (forall labels :: |labels| == n ==>
               (HasLabels(lower, tags, labels) <==> LabelsWithin(lower, labels, tags)))
            <==> n <= |tags| || |tags| == 0
  {
    if n > |tags| && |tags| > 0 {
      var labels := seq(n, _ => tags[0]);
      assert Lowered(lower, labels) <= Lowered(lower, tags);
      assert |labels| == n && !HasLabels(lower, tags, labels);
    } else if n > |tags| {
      forall labels | |labels| == n
        ensures !LabelsWithin(lower, labels, tags)
      {
        assert lower(labels[0]) in Lowered(lower, labels);
      }
    }
  }
}
