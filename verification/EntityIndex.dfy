/** The two-way index of ci/runners/garm/cache/entity_cache.go (entity -> IDs,
    ID -> resource), and the flat table it stands for. Pools and scale sets are
    two instances of it. */
module EntityIndex {
  import opened Wrappers
  import opened Params

  /** `members` is the ID set of every cached entity, `table` the global map. */
  datatype Index<K(==)> = Index(members: map<string, set<K>>, table: map<K, Resource<K>>)

  // ---------------------------------------------------------------------
  // The operations
  // ---------------------------------------------------------------------

  function AddEntity<K>(ix: Index<K>, e: string): Index<K> {
    if e in ix.members then ix else ix.(members := ix.members[e := {}])
  }

  function SetItem<K>(ix: Index<K>, e: string, r: Resource<K>): Index<K> {
    if r.Owner() != Some(e) || e !in ix.members then ix
    else Index(ix.members[e := ix.members[e] + {r.id}], ix.table[r.id := r])
  }

  /** The resources that ReplaceEntityPools accepts: owned by e. The last one of
      several with the same ID counts. */
  function AddAll<K>(table: map<K, Resource<K>>, e: string, rs: seq<Resource<K>>): map<K, Resource<K>> {
    if rs == [] then table
    else
      var before, r := AddAll(table, e, rs[..|rs| - 1]), rs[|rs| - 1];
      if r.Owner() == Some(e) then before[r.id := r] else before
  }

  function AcceptedIDs<K>(e: string, rs: seq<Resource<K>>): set<K> {
    set i | 0 <= i < |rs| && rs[i].Owner() == Some(e) :: rs[i].id
  }

  function Replace<K>(ix: Index<K>, e: string, rs: seq<Resource<K>>): Index<K> {
    if e !in ix.members then ix
    else Index(ix.members[e := AcceptedIDs(e, rs)], AddAll(ix.table - ix.members[e], e, rs))
  }

  function DeleteItem<K>(ix: Index<K>, e: string, id: K): Index<K> {
    Index(if e in ix.members then ix.members[e := ix.members[e] - {id}] else ix.members, ix.table - {id})
  }

  function DeleteEntity<K>(ix: Index<K>, e: string): Index<K> {
    if e in ix.members then Index(ix.members - {e}, ix.table - ix.members[e]) else ix
  }

  /** The resources behind a set of IDs; an ID may have none. */
  function Behind<K>(ids: set<K>, table: map<K, Resource<K>>): set<Resource<K>> {
    set id | id in ids && id in table :: table[id]
  }

  /** What GetEntityPools(e) collects. */
  function Listed<K>(ix: Index<K>, e: string): set<Resource<K>> {
    if e in ix.members then Behind(ix.members[e], ix.table) else {}
  }

  /** What the flat table holds for e. */
  function Owned<K>(ix: Index<K>, e: string): set<Resource<K>> {
    set id | id in ix.table && ix.table[id].Owner() == Some(e) :: ix.table[id]
  }

  // ---------------------------------------------------------------------
  // Coherence
  // ---------------------------------------------------------------------

  /** Every resource is filed under its ID, its owner is cached and lists it, and
      nobody else lists it. A listed ID may be missing from the table. */
  ghost predicate Coherent<K(!new)>(ix: Index<K>) {
    && (forall id :: id in ix.table ==>
          && ix.table[id].id == id
          && ix.table[id].Owner().Some?
          && ix.table[id].Owner().value in ix.members
          && id in ix.members[ix.table[id].Owner().value])
    && (forall e, id :: e in ix.members && id in ix.members[e] && id in ix.table
                        ==> ix.table[id].Owner() == Some(e))
  }

  /** Main result on look-ups: the two-way index answers like the flat table, and
      every cached resource finds its owner in the cache. */
  lemma CoherentMeansFlat<K(!new)>(ix: Index<K>, e: string)
    requires Coherent(ix)
    ensures Listed(ix, e) == Owned(ix, e)
    ensures forall id :: id in ix.table ==> ix.table[id].Owner().Some? && ix.table[id].Owner().value in ix.members
  {
  }

  /** Another entity lists the ID, even if the table has no such resource. */
  ghost predicate ClaimedElsewhere<K>(ix: Index<K>, e: string, id: K) {
    exists other :: other in ix.members && other != e && id in ix.members[other]
  }

  lemma AddEntityKeeps<K(!new)>(ix: Index<K>, e: string)
    requires Coherent(ix)
    ensures Coherent(AddEntity(ix, e))
  {
  }

  lemma DeleteItemKeeps<K(!new)>(ix: Index<K>, e: string, id: K)
    requires Coherent(ix)
    ensures Coherent(DeleteItem(ix, e, id))
  {
  }

  /** DeleteEntity keeps coherence and leaves no orphan. */
  lemma DeleteEntityKeeps<K(!new)>(ix: Index<K>, e: string)
    requires Coherent(ix)
    ensures Coherent(DeleteEntity(ix, e))
    ensures Owned(DeleteEntity(ix, e), e) == {} && e !in DeleteEntity(ix, e).members
  {
  }

  lemma SetItemKeeps<K(!new)>(ix: Index<K>, e: string, r: Resource<K>)
    requires Coherent(ix) && !ClaimedElsewhere(ix, e, r.id)
    ensures Coherent(SetItem(ix, e, r))
  {
  }

  /** Main result on SetEntityPool / SetEntityScaleSet: coherence survives exactly
      when the call has no effect or no other entity lists the ID. */
  lemma SetItemKeepsIff<K(!new)>(ix: Index<K>, e: string, r: Resource<K>)
    requires Coherent(ix)
    ensures Coherent(SetItem(ix, e, r))
            <==> (r.Owner() == Some(e) && e in ix.members ==> !ClaimedElsewhere(ix, e, r.id))
  {
    if !ClaimedElsewhere(ix, e, r.id) {
      SetItemKeeps(ix, e, r);
    } else if r.Owner() == Some(e) && e in ix.members {
      var other :| other in ix.members && other != e && r.id in ix.members[other];
      var after := SetItem(ix, e, r);
      assert other in after.members && r.id in after.members[other] && after.table[r.id] == r;
    }
  }

  lemma {:induction false} AddAllIs<K(!new)>(table: map<K, Resource<K>>, e: string, rs: seq<Resource<K>>)
    ensures AddAll(table, e, rs).Keys == table.Keys + AcceptedIDs(e, rs)
    ensures forall id :: id in AcceptedIDs(e, rs) ==>
              AddAll(table, e, rs)[id].id == id && AddAll(table, e, rs)[id].Owner() == Some(e)
    ensures forall id :: id in table && id !in AcceptedIDs(e, rs) ==> AddAll(table, e, rs)[id] == table[id]
  {
    if rs == [] {
    } else {
      var last := |rs| - 1;
      AddAllIs(table, e, rs[..last]);
      assert AcceptedIDs(e, rs) == AcceptedIDs(e, rs[..last])
                                   + (if rs[last].Owner() == Some(e) then {rs[last].id} else {});
    }
  }

  /** Resource i is stored as given, unless a later one of the same ID replaces it. */
  lemma {:induction false} AddAllStores<K(!new)>(
    table: map<K, Resource<K>>, e: string, rs: seq<Resource<K>>, i: nat)
    requires i < |rs| && rs[i].Owner() == Some(e)
    requires forall j :: i < j < |rs| && rs[j].Owner() == Some(e) ==> rs[j].id != rs[i].id
    ensures AddAll(table, e, rs).Keys >= {rs[i].id} && AddAll(table, e, rs)[rs[i].id] == rs[i]
  {
    var last := |rs| - 1;
    if i == last {
    } else {
      AddAllStores(table, e, rs[..last], i);
    }
  }

  lemma ReplaceKeeps<K(!new)>(ix: Index<K>, e: string, rs: seq<Resource<K>>)
    requires Coherent(ix) && e in ix.members
    requires forall id :: id in AcceptedIDs(e, rs) ==> !ClaimedElsewhere(ix, e, id)
    ensures Coherent(Replace(ix, e, rs))
  {
    AddAllIs(ix.table - ix.members[e], e, rs);
    var after := Replace(ix, e, rs);
    forall id | id in after.table
      ensures && after.table[id].id == id
              && after.table[id].Owner().Some?
              && after.table[id].Owner().value in after.members
              && id in after.members[after.table[id].Owner().value]
    {
      if id !in AcceptedIDs(e, rs) {
        assert id in ix.table && id !in ix.members[e];
      }
    }
    forall x, id | x in after.members && id in after.members[x] && id in after.table
      ensures after.table[id].Owner() == Some(x)
    {
      if x != e {
        assert id in ix.members[x];
        assert id !in AcceptedIDs(e, rs);
      }
    }
  }

  lemma ReplaceBreaks<K(!new)>(ix: Index<K>, e: string, rs: seq<Resource<K>>, id: K)
    requires Coherent(ix) && e in ix.members
    requires id in AcceptedIDs(e, rs) && ClaimedElsewhere(ix, e, id)
    ensures !Coherent(Replace(ix, e, rs))
  {
    AddAllIs(ix.table - ix.members[e], e, rs);
    var after := Replace(ix, e, rs);
    var other :| other in ix.members && other != e && id in ix.members[other];
    assert other in after.members && id in after.members[other] && id in after.table;
  }

  /** Main result on ReplaceEntityPools / ReplaceEntityScaleSets. */
  lemma ReplaceKeepsIff<K(!new)>(ix: Index<K>, e: string, rs: seq<Resource<K>>)
    requires Coherent(ix)
    ensures Coherent(Replace(ix, e, rs))
            <==> (e in ix.members ==> forall id :: id in AcceptedIDs(e, rs) ==> !ClaimedElsewhere(ix, e, id))
  {
    if e in ix.members {
      if id :| id in AcceptedIDs(e, rs) && ClaimedElsewhere(ix, e, id) {
        ReplaceBreaks(ix, e, rs, id);
      } else {
        ReplaceKeeps(ix, e, rs);
      }
    }
  }

  // ---------------------------------------------------------------------
  // The flat table
  // ---------------------------------------------------------------------

  /** One table of resources and the set of cached entities. */
  datatype Flat<K(==)> = Flat(entities: set<string>, table: map<K, Resource<K>>)

  function ToFlat<K>(ix: Index<K>): Flat<K> {
    Flat(ix.members.Keys, ix.table)
  }

  datatype Op<K> =
    | OpAddEntity(e: string)
    | OpSetItem(e: string, r: Resource<K>)
    | OpReplace(e: string, rs: seq<Resource<K>>)
    | OpDeleteItem(e: string, id: K)
    | OpDeleteEntity(e: string)

  function Apply<K>(ix: Index<K>, op: Op<K>): Index<K> {
    match op
    case OpAddEntity(e) => AddEntity(ix, e)
    case OpSetItem(e, r) => SetItem(ix, e, r)
    case OpReplace(e, rs) => Replace(ix, e, rs)
    case OpDeleteItem(e, id) => DeleteItem(ix, e, id)
    case OpDeleteEntity(e) => DeleteEntity(ix, e)
  }

  function NotOwnedBy<K>(table: map<K, Resource<K>>, e: string): map<K, Resource<K>> {
    map id | id in table && table[id].Owner() != Some(e) :: table[id]
  }

  /** The place of the last resource of that ID that belongs to e. */
  ghost function LastPlace<K>(e: string, rs: seq<Resource<K>>, id: K): (i: nat)
    requires id in AcceptedIDs(e, rs)
    ensures i < |rs| && rs[i].id == id && rs[i].Owner() == Some(e)
    ensures forall j :: i < j < |rs| && rs[j].Owner() == Some(e) ==> rs[j].id != id
    decreases |rs|
  {
    var last := |rs| - 1;
    if rs[last].id == id && rs[last].Owner() == Some(e) then last
    else
      assert exists i :: 0 <= i < last && rs[..last][i].id == id && rs[..last][i].Owner() == Some(e) by {
        var i :| 0 <= i < |rs| && rs[i].Owner() == Some(e) && rs[i].id == id;
        assert rs[..last][i] == rs[i];
      }
      LastPlace(e, rs[..last], id)
  }

  /** The given resources that belong to e, the last one of each ID, over a table. */
  ghost function Overlaid<K>(table: map<K, Resource<K>>, e: string, rs: seq<Resource<K>>): map<K, Resource<K>> {
    map id | id in table.Keys + AcceptedIDs(e, rs) ::
      if id in AcceptedIDs(e, rs) then rs[LastPlace(e, rs, id)] else table[id]
  }

  lemma AddAllOverlays<K(!new)>(table: map<K, Resource<K>>, e: string, rs: seq<Resource<K>>)
    ensures AddAll(table, e, rs) == Overlaid(table, e, rs)
  {
    AddAllIs(table, e, rs);
    forall id | id in AcceptedIDs(e, rs)
      ensures AddAll(table, e, rs)[id] == rs[LastPlace(e, rs, id)]
    {
      AddAllStores(table, e, rs, LastPlace(e, rs, id));
    }
  }

  /** The same operations on the flat table, where ownership is a field test. */
  ghost function ApplyFlat<K>(f: Flat<K>, op: Op<K>): Flat<K> {
    match op
    case OpAddEntity(e) => f.(entities := f.entities + {e})
    case OpSetItem(e, r) =>
      if e in f.entities && r.Owner() == Some(e) then f.(table := f.table[r.id := r]) else f
    case OpReplace(e, rs) =>
      if e in f.entities then f.(table := Overlaid(NotOwnedBy(f.table, e), e, rs)) else f
    case OpDeleteItem(e, id) => f.(table := f.table - {id})
    case OpDeleteEntity(e) => Flat(f.entities - {e}, NotOwnedBy(f.table, e))
  }

  /** From a coherent index every operation acts as on the flat table. */
  lemma StepRefinesFlat<K(!new)>(ix: Index<K>, op: Op<K>)
    requires Coherent(ix)
    ensures ToFlat(Apply(ix, op)) == ApplyFlat(ToFlat(ix), op)
  {
    if op.OpReplace? && op.e in ix.members {
      assert ix.table - ix.members[op.e] == NotOwnedBy(ix.table, op.e);
      AddAllOverlays(NotOwnedBy(ix.table, op.e), op.e, op.rs);
    } else if op.OpDeleteEntity? {
      if op.e in ix.members {
        assert ix.table - ix.members[op.e] == NotOwnedBy(ix.table, op.e);
      } else {
        assert ix.table == NotOwnedBy(ix.table, op.e);
      }
    }
  }

  // ---------------------------------------------------------------------
  // Whole runs
  // ---------------------------------------------------------------------

  function Run<K>(ix: Index<K>, ops: seq<Op<K>>): Index<K>
    decreases |ops|
  {
    if ops == [] then ix else Run(Apply(ix, ops[0]), ops[1..])
  }

  ghost function RunFlat<K>(f: Flat<K>, ops: seq<Op<K>>): Flat<K>
    decreases |ops|
  {
    if ops == [] then f else RunFlat(ApplyFlat(f, ops[0]), ops[1..])
  }

  /** An ID is only ever set for one owner. */
  predicate KeepsOwners<K>(own: K -> string, op: Op<K>) {
    match op
    case OpSetItem(e, r) => r.Owner() == Some(e) ==> own(r.id) == e
    case OpReplace(e, rs) => forall i :: 0 <= i < |rs| && rs[i].Owner() == Some(e) ==> own(rs[i].id) == e
    case _ => true
  }

  ghost predicate OwnersKept<K(!new)>(own: K -> string, ix: Index<K>) {
    forall e, id :: e in ix.members && id in ix.members[e] ==> own(id) == e
  }

  lemma StepKeeps<K(!new)>(own: K -> string, ix: Index<K>, op: Op<K>)
    requires Coherent(ix) && OwnersKept(own, ix) && KeepsOwners(own, op)
    ensures Coherent(Apply(ix, op)) && OwnersKept(own, Apply(ix, op))
  {
    match op
    case OpAddEntity(e) => AddEntityKeeps(ix, e);
    case OpSetItem(e, r) => SetItemKeepsIff(ix, e, r);
    case OpReplace(e, rs) => ReplaceKeepsIff(ix, e, rs);
    case OpDeleteItem(e, id) => DeleteItemKeeps(ix, e, id);
    case OpDeleteEntity(e) => DeleteEntityKeeps(ix, e);
  }

  lemma {:induction false} RunKeeps<K(!new)>(own: K -> string, ix: Index<K>, ops: seq<Op<K>>)
    requires Coherent(ix) && OwnersKept(own, ix)
    requires forall i :: 0 <= i < |ops| ==> KeepsOwners(own, ops[i])
    ensures Coherent(Run(ix, ops)) && ToFlat(Run(ix, ops)) == RunFlat(ToFlat(ix), ops)
    decreases |ops|
  {
    if ops == [] {
    } else {
      StepKeeps(own, ix, ops[0]);
      StepRefinesFlat(ix, ops[0]);
      RunKeeps(own, Apply(ix, ops[0]), ops[1..]);
    }
  }

  /** Main result: if no ID ever changes its owner, then after every run from the
      empty cache the index is the flat table of that run, and the list of every
      entity is exactly what the table holds for it. */
  lemma RunRefinesFlat<K(!new)>(own: K -> string, ops: seq<Op<K>>, e: string)
    requires forall i :: 0 <= i < |ops| ==> KeepsOwners(own, ops[i])
    ensures var ix := Run(Index(map[], map[]), ops);
            && Coherent(ix)
            && ToFlat(ix) == RunFlat(Flat({}, map[]), ops)
            && Listed(ix, e) == Owned(ix, e)
  {
    var empty: Index<K> := Index(map[], map[]);
    assert ToFlat(empty) == Flat({}, map[]);
    RunKeeps(own, empty, ops);
    CoherentMeansFlat(Run(empty, ops), e);
  }

  // ---------------------------------------------------------------------
  // No stale IDs in the lists
  // ---------------------------------------------------------------------

  /** Every listed ID has a resource. */
  ghost predicate Tight<K(!new)>(ix: Index<K>) {
    forall e, id :: e in ix.members && id in ix.members[e] ==> id in ix.table
  }

  /** Then the lists say exactly who owns what. */
  lemma TightMeansExact<K(!new)>(ix: Index<K>, e: string)
    requires Coherent(ix) && Tight(ix) && e in ix.members
    ensures ix.members[e] == set id | id in ix.table && ix.table[id].Owner() == Some(e)
  {
  }

  lemma ReplaceKeepsTight<K(!new)>(ix: Index<K>, e: string, rs: seq<Resource<K>>)
    requires Coherent(ix) && Tight(ix) && e in ix.members
    ensures Tight(Replace(ix, e, rs))
  {
    AddAllIs(ix.table - ix.members[e], e, rs);
    var after := Replace(ix, e, rs);
    forall x, id | x in after.members && id in after.members[x]
      ensures id in after.table
    {
      if x != e {
        assert id in ix.members[x] && id in ix.table && ix.table[id].Owner() == Some(x);
      }
    }
  }

  /** Main result on the lists: every operation leaves no stale ID, except that
      DeleteEntityPool and DeleteEntityScaleSet do so exactly if no entity other
      than the given one lists the ID. */
  lemma StepTightIff<K(!new)>(ix: Index<K>, op: Op<K>)
    requires Coherent(ix) && Tight(ix)
    ensures Tight(Apply(ix, op)) <==> (op.OpDeleteItem? ==> !ClaimedElsewhere(ix, op.e, op.id))
  {
    match op
    case OpAddEntity(e) =>
    case OpSetItem(e, r) =>
    case OpReplace(e, rs) => if e in ix.members { ReplaceKeepsTight(ix, e, rs); }
    case OpDeleteItem(e, id) =>
      if ClaimedElsewhere(ix, e, id) {
        var other :| other in ix.members && other != e && id in ix.members[other];
        assert other in Apply(ix, op).members && id in Apply(ix, op).members[other];
      }
    case OpDeleteEntity(e) =>
  }

  /** Resources are only deleted under their owner. */
  predicate DeletesOwn<K>(own: K -> string, op: Op<K>) {
    op.OpDeleteItem? ==> own(op.id) == op.e
  }

  lemma {:induction false} RunKeepsTight<K(!new)>(own: K -> string, ix: Index<K>, ops: seq<Op<K>>)
    requires Coherent(ix) && OwnersKept(own, ix) && Tight(ix)
    requires forall i :: 0 <= i < |ops| ==> KeepsOwners(own, ops[i]) && DeletesOwn(own, ops[i])
    ensures Coherent(Run(ix, ops)) && Tight(Run(ix, ops))
    decreases |ops|
  {
    if ops == [] {
    } else {
      StepKeeps(own, ix, ops[0]);
      StepTightIff(ix, ops[0]);
      RunKeepsTight(own, Apply(ix, ops[0]), ops[1..]);
    }
  }

  /** Main result: then, after every run from the empty cache, the ID set of every
      cached entity is exactly what the flat table of that run holds for it. */
  lemma ListsAreExact<K(!new)>(own: K -> string, ops: seq<Op<K>>, e: string)
    requires forall i :: 0 <= i < |ops| ==> KeepsOwners(own, ops[i]) && DeletesOwn(own, ops[i])
    ensures var ix, flat := Run(Index(map[], map[]), ops), RunFlat(Flat({}, map[]), ops);
            && (e in ix.members <==> e in flat.entities)
            && (e in ix.members ==> ix.members[e] == set id | id in flat.table && flat.table[id].Owner() == Some(e))
  {
    var empty: Index<K> := Index(map[], map[]);
    RunRefinesFlat(own, ops, e);
    RunKeepsTight(own, empty, ops);
    if e in Run(empty, ops).members {
      TightMeansExact(Run(empty, ops), e);
    }
  }

  /** The proviso is needed: move pool "p" from "a" to "b" and a still lists it. */
  lemma MovedPoolIsListedTwice()
    ensures var pa: Pool := Resource("p", "a", "", "", 0, [], "");
            var pb: Pool := Resource("p", "b", "", "", 0, [], "");
            var ix := Run(Index(map[], map[]),
                          [OpAddEntity("a"), OpAddEntity("b"), OpSetItem("a", pa), OpSetItem("b", pb)]);
            Listed(ix, "a") == {pb} && Owned(ix, "a") == {}
  {
    var pa: Pool := Resource("p", "a", "", "", 0, [], "");
    var pb: Pool := Resource("p", "b", "", "", 0, [], "");
    var i0: Index<string> := Index(map[], map[]);
    var i1 := AddEntity(i0, "a");
    var i2 := AddEntity(i1, "b");
    var i3 := SetItem(i2, "a", pa);
    var i4 := SetItem(i3, "b", pb);
    var ops := [OpAddEntity("a"), OpAddEntity("b"), OpSetItem("a", pa), OpSetItem("b", pb)];
    assert ops[1..][1..][1..] == [OpSetItem("b", pb)] && ops[1..][1..][1..][1..] == [];
    assert ops[1..][1..] == [OpSetItem("a", pa), OpSetItem("b", pb)];
    assert ops[1..] == [OpAddEntity("b"), OpSetItem("a", pa), OpSetItem("b", pb)];
    assert Run(i0, ops) == Run(i1, ops[1..]) == Run(i2, ops[1..][1..]) == Run(i3, ops[1..][1..][1..]) == Run(i4, []);
    assert {} + {"p"} == {"p"};
    assert i2.members == map["a" := {}, "b" := {}];
    assert i3.members == map["a" := {"p"}, "b" := {}];
    assert i4.table == map["p" := pb] && i4.members == map["a" := {"p"}, "b" := {"p"}];
  }
}
