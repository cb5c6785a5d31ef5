/** The generic collection store: named collections of records kept in a
    key-value store, read whole and rewritten whole by every write. */
module Handlers {
  import opened Types

  type Collections = map<string, seq<Record>>

  /** What the store yields for a key; an absent key reads as empty. */
  function ReadKey(m: Collections, key: string): (rs: seq<Record>)
    ensures key in m ==> rs == m[key]
    ensures key !in m ==> rs == []
  {
    if key in m then m[key] else []
  }

  /** `findIndex` by id: the first position whose record has this id. */
  function FindIndex(rs: seq<Record>, id: int): (r: Option<nat>)
    ensures r.Some? ==> r.value < |rs| && HasId(rs[r.value], id)
    ensures r.Some? ==> forall j :: 0 <= j < r.value ==> !HasId(rs[j], id)
    ensures r.None? <==> forall j :: 0 <= j < |rs| ==> !HasId(rs[j], id)
    decreases |rs|
  {
    if |rs| == 0 then None
    else if HasId(rs[0], id) then Some(0)
    else match FindIndex(rs[1..], id)
      case None => None
      case Some(i) => Some(i + 1)
  }

  /** `find` by id: the first record with this id, or nothing. */
  function Find(rs: seq<Record>, id: int): (r: Option<Record>)
    ensures r.None? <==> forall j :: 0 <= j < |rs| ==> !HasId(rs[j], id)
    ensures r.Some? ==> r.value in rs && HasId(r.value, id)
    ensures r.Some? ==> exists i :: (0 <= i < |rs| && r.value == rs[i]
      && forall j :: 0 <= j < i ==> !HasId(rs[j], id))
  {
    match FindIndex(rs, id)
    case None => None
    case Some(i) => Some(rs[i])
  }

  /** Appending never changes which record a lookup finds first: a second
      record with an id already present stays hidden behind the first. */
  lemma {:induction false} FindIndexAfterAppend(rs: seq<Record>, item: Record, id: int)
    ensures FindIndex(rs + [item], id) ==
      if FindIndex(rs, id).Some? then FindIndex(rs, id)
      else if HasId(item, id) then Some(|rs|)
      else None
    decreases |rs|
  {
    if |rs| > 0 && !HasId(rs[0], id) {
      assert (rs + [item])[1..] == rs[1..] + [item];
      FindIndexAfterAppend(rs[1..], item, id);
    }
  }

  /** Replacing the first match by a record with the same id keeps that
      position the first match, so the lookup finds the new record. */
  lemma FindAfterReplace(rs: seq<Record>, item: Record, id: int)
    requires HasId(item, id) && FindIndex(rs, id).Some?
    ensures FindIndex(rs[FindIndex(rs, id).value := item], id) == FindIndex(rs, id)
    ensures Find(rs[FindIndex(rs, id).value := item], id) == Some(item)
  {
    var i := FindIndex(rs, id).value;
    var rs' := rs[i := item];
    var k := FindIndex(rs', id);
    assert HasId(rs'[i], id);
  }

  /** The process-wide key-value store, seen as whole collections. */
  class Store {
    var collections: Collections

    constructor (initial: Collections)
      ensures collections == initial
    {
      collections := initial;
    }

    /** `getAll`: the stored collection as it is, or empty when the key is absent. */
    function GetAll(key: string): (rs: seq<Record>)
      reads this
      ensures key in collections ==> rs == collections[key]
      ensures key !in collections ==> rs == []
    {
      ReadKey(collections, key)
    }

    /** `get`: the first record of the collection with this id, or nothing. */
    function Get(key: string, id: int): (r: Option<Record>)
      reads this
      ensures r.None? <==> forall j :: 0 <= j < |GetAll(key)| ==> !HasId(GetAll(key)[j], id)
      ensures r.Some? ==> exists i :: (0 <= i < |GetAll(key)| && r.value == GetAll(key)[i] && HasId(r.value, id)
        && forall j :: 0 <= j < i ==> !HasId(GetAll(key)[j], id))
    {
      var rs := GetAll(key);
      var r := Find(rs, id);
      assert r.Some? ==> var i := FindIndex(rs, id).value; r.value == rs[i];
      r
    }

    /** Writes a whole collection under a key (`saveToStorage`). */
    method Save(key: string, data: seq<Record>)
      modifies this
      ensures collections == old(collections)[key := data]
    {
      collections := collections[key := data];
    }

    /** `create`: appends the item, with no check that its id is new. */
    method Create(key: string, item: Record)
      modifies this
      ensures collections == old(collections)[key := old(GetAll(key)) + [item]]
      ensures |GetAll(key)| == |old(GetAll(key))| + 1
      ensures forall k :: k != key ==> GetAll(k) == old(GetAll(k))
    {
      var data := GetAll(key);
      data := data + [item];
      Save(key, data);
    }

    /** `update`: replaces the first record with the item's id; when no
        record has that id the store is left as it was, without an error. */
    method Update(key: string, item: Record)
      requires item.Id().Some?
      modifies this
      ensures FindIndex(old(GetAll(key)), item.Id().value).None? ==> collections == old(collections)
      ensures FindIndex(old(GetAll(key)), item.Id().value).Some? ==>
        collections == old(collections)[key := old(GetAll(key))[FindIndex(old(GetAll(key)), item.Id().value).value := item]]
      ensures FindIndex(old(GetAll(key)), item.Id().value).Some? ==> Get(key, item.Id().value) == Some(item)
      ensures |GetAll(key)| == |old(GetAll(key))|
      ensures forall k :: k != key ==> GetAll(k) == old(GetAll(k))
    {
      var data := GetAll(key);
      var index := FindIndex(data, item.Id().value);
      if index.Some? {
        FindAfterReplace(data, item, item.Id().value);
        data := data[index.value := item];
        Save(key, data);
      }
    }
  }
}
