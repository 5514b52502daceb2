/**
 The attribute registry: descriptors keyed by attribute ID, and the two
 indexes derived from it, names to IDs and the list of all IDs.

 The registry is updated by AddAttributeRef, which stores a descriptor with
 its custom flag forced on and then rebuilds both indexes from scratch. The
 rebuilds walk a Go map, whose iteration order is unspecified; the model
 picks the next key with `:|`, so every order is covered, and the indexes are
 specified by what they must contain rather than by one order.
 */
module Attributes {
  import opened Access
  import opened Vitodata

  /** Attribute IDs are unsigned 16-bit integers. */
  newtype AttrID = x: int | 0 <= x < 0x1_0000

  /** The ID reserved for error cases; it names no attribute. */
  const NoAttr: AttrID := 0xffff

  /** An attribute descriptor: value type, access rights, name, documentation,
      and whether it was added at run time. */
  datatype AttrRef = AttrRef(
    valueType: VitodataType,
    access: AttrAccess,
    name: string,
    doc: string,
    custom: bool)

  type Registry = map<AttrID, AttrRef>

  /** The registry together with its two derived indexes. */
  datatype State = State(
    refs: Registry,
    names2IDs: map<string, AttrID>,
    attributes: seq<AttrID>)

  /** The names carried by the descriptors of a registry. */
  function Names(refs: Registry): set<string> {
    set id | id in refs :: refs[id].name
  }

  /** No two keys of the registry carry the same name. */
  predicate NamesUnique(refs: Registry) {
    forall a, b :: a in refs && b in refs && refs[a].name == refs[b].name ==> a == b
  }

  /** No element of `ids` appears twice. */
  predicate NoDuplicates(ids: seq<AttrID>) {
    forall i, j :: 0 <= i < j < |ids| ==> ids[i] != ids[j]
  }

  /** `ids` lists every key of the registry exactly once, in some order. */
  predicate IsAttributeList(refs: Registry, ids: seq<AttrID>) {
    && NoDuplicates(ids)
    && (forall id :: id in ids <==> id in refs)
  }

  /** `idx` is defined on exactly the registry's names and maps each of them
      back to a key whose descriptor carries it. */
  predicate IsNameIndex(refs: Registry, idx: map<string, AttrID>) {
    && idx.Keys == Names(refs)
    && (forall n :: n in idx ==> idx[n] in refs && refs[idx[n]].name == n)
  }

  /** Both derived indexes are exact projections of the registry. */
  predicate Consistent(s: State) {
    IsNameIndex(s.refs, s.names2IDs) && IsAttributeList(s.refs, s.attributes)
  }

  /** The registry update of AddAttributeRef: the descriptor is stored with its
      custom flag set, overwriting any previous one. */
  function Insert(refs: Registry, id: AttrID, ref: AttrRef): (r: Registry)
    ensures r.Keys == refs.Keys + {id}
    ensures r[id].custom && r[id].(custom := ref.custom) == ref
    ensures forall k :: k in refs && k != id ==> r[k] == refs[k]
  {
    refs[id := ref.(custom := true)]
  }

  /** The names of the descriptors a walk visits. */
  function VisitedNames(refs: Registry, order: seq<AttrID>): set<string>
    requires forall i :: 0 <= i < |order| ==> order[i] in refs
  {
    set i | 0 <= i < |order| :: refs[order[i]].name
  }

  /** The name index a walk visiting the keys in `order` builds: each visit
      stores the key under its descriptor's name, so the last visit to a name
      wins. */
  function NamesWalk(refs: Registry, order: seq<AttrID>): map<string, AttrID>
    requires forall i :: 0 <= i < |order| ==> order[i] in refs
    decreases |order|
  {
    if order == [] then map[]
    else
      var k := order[|order| - 1];
      NamesWalk(refs, order[..|order| - 1])[refs[k].name := k]
  }

  /** A walk stores exactly the names it visits, each against a visited key
      carrying that name. */
  lemma {:induction false} NamesWalkContents(refs: Registry, order: seq<AttrID>)
    requires forall i :: 0 <= i < |order| ==> order[i] in refs
    ensures NamesWalk(refs, order).Keys == VisitedNames(refs, order)
    ensures forall n :: n in NamesWalk(refs, order) ==>
      NamesWalk(refs, order)[n] in order && refs[NamesWalk(refs, order)[n]].name == n
    decreases |order|
  {
    if order != [] {
      var init := order[..|order| - 1];
      var k := order[|order| - 1];
      NamesWalkContents(refs, init);
      var prev := NamesWalk(refs, init);
      assert forall n :: n in prev ==> prev[n] in order by {
        forall n | n in prev ensures prev[n] in order {
          var j :| 0 <= j < |init| && init[j] == prev[n];
          assert order[j] == prev[n];
        }
      }
      assert VisitedNames(refs, order) == VisitedNames(refs, init) + {refs[k].name} by {
        forall n | n in VisitedNames(refs, order)
          ensures n in VisitedNames(refs, init) + {refs[k].name}
        {
          var i :| 0 <= i < |order| && refs[order[i]].name == n;
          if i < |init| {
            assert init[i] == order[i];
          }
        }
        forall n | n in VisitedNames(refs, init) ensures n in VisitedNames(refs, order) {
          var i :| 0 <= i < |init| && refs[init[i]].name == n;
          assert order[i] == init[i];
        }
        assert refs[order[|order| - 1]].name == refs[k].name;
      }
    }
  }

  /** Builds the name index by walking the registry in an arbitrary order and
      storing each descriptor's name against its key; when two keys share a
      name, the one visited last wins. The ghost `visited` is the order taken. */
  method ComputeNames2IDs(refs: Registry) returns (idx: map<string, AttrID>, ghost visited: seq<AttrID>)
    ensures IsNameIndex(refs, idx)
    ensures IsAttributeList(refs, visited) && idx == NamesWalk(refs, visited)
  {
    idx := map[];
    visited := [];
    var rest := refs.Keys;
    while rest != {}
      invariant rest <= refs.Keys
      invariant forall id :: id in refs <==> id in rest || id in visited
      invariant forall id :: id in visited ==> id !in rest
      invariant NoDuplicates(visited)
      invariant idx == NamesWalk(refs, visited)
      invariant idx.Keys == set id | id in refs && id !in rest :: refs[id].name
      invariant forall n :: n in idx ==> idx[n] in refs && idx[n] !in rest && refs[idx[n]].name == n
      decreases rest
    {
      var id :| id in rest;
      assert (visited + [id])[..|visited|] == visited;
      idx := idx[refs[id].name := id];
      visited := visited + [id];
      rest := rest - {id};
    }
  }

  /** Builds the list of all IDs by walking the registry in an arbitrary order. */
  method ComputeAttributes(refs: Registry) returns (ids: seq<AttrID>)
    ensures IsAttributeList(refs, ids)
    ensures |ids| == |refs|
  {
    ids := [];
    var rest := refs.Keys;
    while rest != {}
      invariant rest <= refs.Keys
      invariant forall id :: id in refs <==> id in rest || id in ids
      invariant forall id :: id in ids ==> id !in rest
      invariant NoDuplicates(ids)
      invariant |ids| + |rest| == |refs|
      decreases rest
    {
      var id :| id in rest;
      ids := ids + [id];
      rest := rest - {id};
    }
  }

  /** Adds or silently replaces the descriptor of `id`, marked custom, and
      rebuilds both indexes from the whole registry. The previous indexes are
      not consulted, so the result is consistent whatever state it starts from. */
  method AddAttributeRef(s: State, id: AttrID, ref: AttrRef) returns (s': State)
    ensures s'.refs.Keys == s.refs.Keys + {id}
    ensures s'.refs[id].custom && s'.refs[id].(custom := ref.custom) == ref
    ensures forall k :: k in s.refs && k != id ==> s'.refs[k] == s.refs[k]
    ensures Consistent(s')
    ensures exists order :: IsAttributeList(s'.refs, order) && s'.names2IDs == NamesWalk(s'.refs, order)
    ensures |s'.attributes| == if id in s.refs then |s.refs| else |s.refs| + 1
    ensures ref.name in s'.names2IDs
    ensures s'.names2IDs[ref.name] == id
            || (s'.names2IDs[ref.name] in s.refs && s.refs[s'.names2IDs[ref.name]].name == ref.name)
    ensures (forall k :: k in s.refs && k != id ==> s.refs[k].name != ref.name)
            ==> s'.names2IDs[ref.name] == id
  {
    var refs := Insert(s.refs, id, ref);
    var idx, visited := ComputeNames2IDs(refs);
    var ids := ComputeAttributes(refs);
    s' := State(refs, idx, ids);
  }

  /* ---------------------------------------------------------------------- */
  /* The list of all IDs                                                     */
  /* ---------------------------------------------------------------------- */

  /** In a list without duplicates every element occurs exactly once. */
  lemma {:induction false} NoDuplicatesMultiplicity(ids: seq<AttrID>, x: AttrID)
    requires NoDuplicates(ids)
    ensures multiset(ids)[x] == if x in ids then 1 else 0
  {
    if ids != [] {
      var t := ids[1..];
      assert ids == [ids[0]] + t;
      assert NoDuplicates(t) by {
        forall i, j | 0 <= i < j < |t| ensures t[i] != t[j] {
          assert t[i] == ids[i + 1] && t[j] == ids[j + 1];
        }
      }
      assert ids[0] !in t by {
        forall j | 0 <= j < |t| ensures t[j] != ids[0] {
          assert t[j] == ids[j + 1];
        }
      }
      NoDuplicatesMultiplicity(t, x);
    }
  }

  /** A list without duplicates has as many elements as its set of elements. */
  lemma {:induction false} NoDuplicatesCardinality(ids: seq<AttrID>)
    requires NoDuplicates(ids)
    ensures |(set x | x in ids)| == |ids|
  {
    if ids != [] {
      var t := ids[..|ids| - 1];
      var last := ids[|ids| - 1];
      assert ids == t + [last];
      assert NoDuplicates(t);
      assert last !in t by {
        forall j | 0 <= j < |t| ensures t[j] != last {
          assert t[j] == ids[j];
        }
      }
      NoDuplicatesCardinality(t);
      assert (set x | x in ids) == (set x | x in t) + {last};
    }
  }

  /** Any list of all IDs has exactly one entry per registry key. */
  lemma AttributeListLength(refs: Registry, ids: seq<AttrID>)
    requires IsAttributeList(refs, ids)
    ensures |ids| == |refs|
  {
    assert (set x | x in ids) == refs.Keys;
    NoDuplicatesCardinality(ids);
  }

  /** Two lists of all IDs of the same registry differ at most in order:
      only the order is left unspecified by the map walk. */
  lemma AttributeListsArePermutations(refs: Registry, a: seq<AttrID>, b: seq<AttrID>)
    requires IsAttributeList(refs, a) && IsAttributeList(refs, b)
    ensures multiset(a) == multiset(b)
  {
    forall x ensures multiset(a)[x] == multiset(b)[x] {
      NoDuplicatesMultiplicity(a, x);
      NoDuplicatesMultiplicity(b, x);
    }
  }

  /* ---------------------------------------------------------------------- */
  /* The name index                                                          */
  /* ---------------------------------------------------------------------- */

  /** Some order listing each element of `keys` exactly once. */
  ghost function SomeOrder(keys: set<AttrID>): (order: seq<AttrID>)
    ensures NoDuplicates(order)
    ensures forall x :: x in order <==> x in keys
    decreases keys
  {
    if keys == {} then []
    else
      var x :| x in keys;
      var prefix := SomeOrder(keys - {x});
      assert NoDuplicates(prefix + [x]) by {
        forall i, j | 0 <= i < j < |prefix| + 1 ensures (prefix + [x])[i] != (prefix + [x])[j] {
          if j == |prefix| {
            assert (prefix + [x])[i] == prefix[i];
          } else {
            assert (prefix + [x])[i] == prefix[i] && (prefix + [x])[j] == prefix[j];
          }
        }
      }
      prefix + [x]
  }

  /** A walk over any order listing each key once builds a name index. */
  lemma WalkIsNameIndex(refs: Registry, order: seq<AttrID>)
    requires IsAttributeList(refs, order)
    ensures IsNameIndex(refs, NamesWalk(refs, order))
  {
    NamesWalkContents(refs, order);
    assert VisitedNames(refs, order) == Names(refs) by {
      forall n | n in Names(refs) ensures n in VisitedNames(refs, order) {
        var k :| k in refs && refs[k].name == n;
        var i :| 0 <= i < |order| && order[i] == k;
      }
    }
  }

  /** Whatever was visited before, the key visited last owns its name. */
  lemma LastVisitWins(refs: Registry, order: seq<AttrID>, k: AttrID)
    requires forall i :: 0 <= i < |order| ==> order[i] in refs
    requires k in refs
    ensures refs[k].name in NamesWalk(refs, order + [k])
    ensures NamesWalk(refs, order + [k])[refs[k].name] == k
  {
    assert (order + [k])[..|order|] == order;
  }

  /** For any key, a walk order over the registry that visits it last. */
  ghost function OrderVisitingLast(refs: Registry, p: AttrID): (order: seq<AttrID>)
    requires p in refs
    ensures IsAttributeList(refs, order)
    ensures |order| > 0 && order[|order| - 1] == p
    ensures refs[p].name in NamesWalk(refs, order) && NamesWalk(refs, order)[refs[p].name] == p
  {
    var prefix := SomeOrder(refs.Keys - {p});
    assert NoDuplicates(prefix + [p]) by {
      forall i, j | 0 <= i < j < |prefix| + 1 ensures (prefix + [p])[i] != (prefix + [p])[j] {
        if j == |prefix| {
          assert (prefix + [p])[i] == prefix[i];
        } else {
          assert (prefix + [p])[i] == prefix[i] && (prefix + [p])[j] == prefix[j];
        }
      }
    }
    forall i | 0 <= i < |prefix| ensures prefix[i] in refs {
      assert prefix[i] in prefix;
    }
    LastVisitWins(refs, prefix, p);
    prefix + [p]
  }

  /** For any key, the index of a walk that visits it last: a name index
      that resolves the key's name to the key itself. */
  lemma IndexPreferring(refs: Registry, p: AttrID) returns (idx: map<string, AttrID>)
    requires p in refs
    ensures IsNameIndex(refs, idx)
    ensures refs[p].name in idx && idx[refs[p].name] == p
    ensures exists order :: IsAttributeList(refs, order) && idx == NamesWalk(refs, order)
  {
    var order := OrderVisitingLast(refs, p);
    WalkIsNameIndex(refs, order);
    idx := NamesWalk(refs, order);
    assert IsAttributeList(refs, order) && idx == NamesWalk(refs, order);
  }

  /** When names are unique, a name index sends the name of every key back to
      that key: it is the exact inverse of the name projection. */
  lemma NameIndexInvertsUniqueNames(refs: Registry, idx: map<string, AttrID>)
    requires IsNameIndex(refs, idx) && NamesUnique(refs)
    ensures forall id :: id in refs ==> refs[id].name in idx && idx[refs[id].name] == id
  {
    forall id | id in refs ensures refs[id].name in idx && idx[refs[id].name] == id {
      assert refs[id].name in Names(refs);
    }
  }

  /** The name index of a registry is determined exactly when its names are
      unique; with a shared name the walk order decides which key wins. */
  lemma NameIndexDeterminedIffUnique(refs: Registry)
    ensures NamesUnique(refs) <==>
      forall i1, i2 :: IsNameIndex(refs, i1) && IsNameIndex(refs, i2) ==> i1 == i2
  {
    if NamesUnique(refs) {
      forall i1, i2 | IsNameIndex(refs, i1) && IsNameIndex(refs, i2) ensures i1 == i2 {
        assert i1.Keys == i2.Keys;
        forall n | n in i1 ensures i1[n] == i2[n] {
          assert refs[i1[n]].name == refs[i2[n]].name;
        }
      }
    } else {
      var a, b :| a in refs && b in refs && refs[a].name == refs[b].name && a != b;
      var i1 := IndexPreferring(refs, a);
      var i2 := IndexPreferring(refs, b);
      assert i1[refs[a].name] != i2[refs[a].name];
    }
  }

  /** Every walk order builds the same name index exactly when names are
      unique; with a shared name, the walk order decides which key wins. */
  lemma WalksAgreeIffUnique(refs: Registry)
    ensures NamesUnique(refs) <==>
      forall o1, o2 :: IsAttributeList(refs, o1) && IsAttributeList(refs, o2) ==>
        NamesWalk(refs, o1) == NamesWalk(refs, o2)
  {
    if NamesUnique(refs) {
      forall o1, o2 | IsAttributeList(refs, o1) && IsAttributeList(refs, o2)
        ensures NamesWalk(refs, o1) == NamesWalk(refs, o2)
      {
        WalksAgreeWhenUnique(refs, o1, o2);
      }
    } else {
      var a, b :| a in refs && b in refs && refs[a].name == refs[b].name && a != b;
      var o1, o2 := WalksDisagreeOnSharedName(refs, a, b);
    }
  }

  /** Two keys sharing a name give two walk orders, each visiting one of
      them last, that build different name indexes. */
  lemma WalksDisagreeOnSharedName(refs: Registry, a: AttrID, b: AttrID) returns (o1: seq<AttrID>, o2: seq<AttrID>)
    requires a in refs && b in refs && refs[a].name == refs[b].name && a != b
    ensures IsAttributeList(refs, o1) && IsAttributeList(refs, o2)
    ensures NamesWalk(refs, o1) != NamesWalk(refs, o2)
  {
    o1 := OrderVisitingLast(refs, a);
    o2 := OrderVisitingLast(refs, b);
    assert NamesWalk(refs, o1)[refs[a].name] != NamesWalk(refs, o2)[refs[a].name];
  }

  /** With unique names, two walks over the same registry agree. */
  lemma WalksAgreeWhenUnique(refs: Registry, o1: seq<AttrID>, o2: seq<AttrID>)
    requires NamesUnique(refs)
    requires IsAttributeList(refs, o1) && IsAttributeList(refs, o2)
    ensures NamesWalk(refs, o1) == NamesWalk(refs, o2)
  {
    WalkIsNameIndex(refs, o1);
    WalkIsNameIndex(refs, o2);
    NameIndexDeterminedIffUnique(refs);
  }

  /* ---------------------------------------------------------------------- */
  /* Adding attributes                                                       */
  /* ---------------------------------------------------------------------- */

  /** Adding keeps names unique exactly when no other key already carries the
      new name; the descriptor being replaced does not count. */
  lemma InsertNamesUnique(refs: Registry, id: AttrID, ref: AttrRef)
    ensures NamesUnique(Insert(refs, id, ref)) <==>
      NamesUnique(refs - {id}) && forall k :: k in refs && k != id ==> refs[k].name != ref.name
  {
    var r := Insert(refs, id, ref);
    var rest := refs - {id};
    if NamesUnique(r) {
      forall k | k in refs && k != id ensures refs[k].name != ref.name {
        assert r[k].name == refs[k].name && r[id].name == ref.name;
      }
      forall a, b | a in rest && b in rest && rest[a].name == rest[b].name ensures a == b {
        assert r[a] == rest[a] && r[b] == rest[b];
      }
    } else {
      var a, b :| a in r && b in r && r[a].name == r[b].name && a != b;
      if a != id && b != id {
        assert rest[a] == r[a] && rest[b] == r[b];
      } else if a == id {
        assert refs[b].name == ref.name;
      } else {
        assert refs[a].name == ref.name;
      }
    }
  }

  /** Adding twice under one ID keeps only the second descriptor. */
  lemma InsertOverwrites(refs: Registry, id: AttrID, first: AttrRef, second: AttrRef)
    ensures Insert(Insert(refs, id, first), id, second) == Insert(refs, id, second)
  {
  }

  /** Additions under different IDs do not interfere. */
  lemma InsertCommutes(refs: Registry, id1: AttrID, ref1: AttrRef, id2: AttrID, ref2: AttrRef)
    requires id1 != id2
    ensures Insert(Insert(refs, id1, ref1), id2, ref2) == Insert(Insert(refs, id2, ref2), id1, ref1)
  {
  }

  /** With unique names, patching the old name index (drop the replaced
      descriptor's name, then point the new name at `id`) yields a name index
      of the updated registry. */
  lemma PatchedNameIndex(s: State, id: AttrID, ref: AttrRef)
    requires Consistent(s) && NamesUnique(s.refs)
    requires forall k :: k in s.refs && k != id ==> s.refs[k].name != ref.name
    ensures IsNameIndex(Insert(s.refs, id, ref),
      (if id in s.refs then s.names2IDs - {s.refs[id].name} else s.names2IDs)[ref.name := id])
  {
    var r := Insert(s.refs, id, ref);
    var patched :=
      (if id in s.refs then s.names2IDs - {s.refs[id].name} else s.names2IDs)[ref.name := id];
    NameIndexInvertsUniqueNames(s.refs, s.names2IDs);
    forall n | n in Names(r) ensures n in patched {
      var k :| k in r && r[k].name == n;
      if k != id {
        assert s.refs[k].name == n;
      }
    }
    forall n | n in patched ensures n in Names(r) && patched[n] in r && r[patched[n]].name == n {
      if n != ref.name {
        assert n in s.names2IDs;
        var k := s.names2IDs[n];
        assert k != id;
        assert r[k] == s.refs[k];
      }
    }
  }

  /** When names stay unique, rebuilding the indexes after an addition gives
      what patching the old indexes in place would: the name index loses the
      replaced descriptor's name and gains the new one, and the ID list gains
      the ID if it is new. */
  lemma RebuildMatchesPatch(s: State, id: AttrID, ref: AttrRef, s': State)
    requires Consistent(s) && NamesUnique(s.refs)
    requires forall k :: k in s.refs && k != id ==> s.refs[k].name != ref.name
    requires s'.refs == Insert(s.refs, id, ref) && Consistent(s')
    ensures s'.names2IDs ==
      (if id in s.refs then s.names2IDs - {s.refs[id].name} else s.names2IDs)[ref.name := id]
    ensures multiset(s'.attributes) ==
      multiset(s.attributes) + (if id in s.refs then multiset{} else multiset{id})
  {
    InsertNamesUnique(s.refs, id, ref);
    PatchedNameIndex(s, id, ref);
    NameIndexDeterminedIffUnique(s'.refs);
    var extended := if id in s.refs then s.attributes else s.attributes + [id];
    assert IsAttributeList(s'.refs, extended);
    AttributeListsArePermutations(s'.refs, s'.attributes, extended);
  }

  /** The converse of the uniqueness case: when an older key already carries
      the new name, some walk order over the updated registry resolves the
      name to that older key, so the added ID is not guaranteed to win. */
  lemma AddMayResolveToOlderKey(refs: Registry, id: AttrID, ref: AttrRef, k: AttrID)
    requires k in refs && k != id && refs[k].name == ref.name
    ensures exists order :: (IsAttributeList(Insert(refs, id, ref), order)
      && ref.name in NamesWalk(Insert(refs, id, ref), order)
      && NamesWalk(Insert(refs, id, ref), order)[ref.name] == k)
  {
    var r := Insert(refs, id, ref);
    var order := OrderVisitingLast(r, k);
    assert IsAttributeList(r, order) && ref.name in NamesWalk(r, order) && NamesWalk(r, order)[ref.name] == k;
  }

  /** The registry after a sequence of additions, made in order. */
  function AddAll(refs: Registry, adds: seq<(AttrID, AttrRef)>): Registry
    decreases |adds|
  {
    if adds == [] then refs else AddAll(Insert(refs, adds[0].0, adds[0].1), adds[1..])
  }

  /** The IDs a sequence of additions names. */
  function AddedIDs(adds: seq<(AttrID, AttrRef)>): set<AttrID> {
    set i | 0 <= i < |adds| :: adds[i].0
  }

  /** After a sequence of additions the keys are the old ones plus the added
      IDs, a descriptor is custom exactly when its ID was added or it was
      custom before, and the descriptors of IDs never added are untouched. */
  lemma {:induction false} AddAllKeysAndCustom(refs: Registry, adds: seq<(AttrID, AttrRef)>)
    ensures AddAll(refs, adds).Keys == refs.Keys + AddedIDs(adds)
    ensures forall k :: k in AddAll(refs, adds) ==>
      (AddAll(refs, adds)[k].custom <==> k in AddedIDs(adds) || (k in refs && refs[k].custom))
    ensures forall k :: k in refs && k !in AddedIDs(adds) ==> AddAll(refs, adds)[k] == refs[k]
    decreases |adds|
  {
    if adds != [] {
      var next := Insert(refs, adds[0].0, adds[0].1);
      var tail := adds[1..];
      AddAllKeysAndCustom(next, tail);
      assert AddedIDs(adds) == {adds[0].0} + AddedIDs(tail) by {
        forall x | x in AddedIDs(adds) ensures x in {adds[0].0} + AddedIDs(tail) {
          var i :| 0 <= i < |adds| && adds[i].0 == x;
          if i > 0 {
            assert tail[i - 1].0 == x;
          }
        }
        forall x | x in AddedIDs(tail) ensures x in AddedIDs(adds) {
          var i :| 0 <= i < |tail| && tail[i].0 == x;
          assert adds[i + 1].0 == x;
        }
      }
    }
  }
}
