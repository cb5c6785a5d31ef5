/** Member operations: the store's operations on the members key, with no
    rule of their own. */
module MemberApi {
  import opened Types
  import opened StorageKeys
  import opened Handlers

  function GetAll(store: Store): (rs: seq<Record>)
    reads store
    ensures MembersKey in store.collections ==> rs == store.collections[MembersKey]
    ensures MembersKey !in store.collections ==> rs == []
  {
    store.GetAll(MembersKey)
  }

  /** The first member with this id, or nothing. */
  function Get(store: Store, id: int): (r: Option<Record>)
    reads store
    ensures r.None? <==> forall j :: 0 <= j < |GetAll(store)| ==> !HasId(GetAll(store)[j], id)
    ensures r.Some? ==> exists i :: (0 <= i < |GetAll(store)| && r.value == GetAll(store)[i] && HasId(r.value, id)
      && forall j :: 0 <= j < i ==> !HasId(GetAll(store)[j], id))
  {
    assert GetAll(store) == store.GetAll(MembersKey);
    store.Get(MembersKey, id)
  }

  /** Appends to the members collection; no other collection changes, so the
      classes key is left as it was. */
  method Create(store: Store, m: Member)
    modifies store
    ensures store.collections == old(store.collections)[MembersKey := old(GetAll(store)) + [MemberRecord(m)]]
    ensures store.GetAll(ClassesKey) == old(store.GetAll(ClassesKey))
  {
    store.Create(MembersKey, MemberRecord(m));
  }

  /** Replaces the first member with the same id, or does nothing. The copies
      of the member held inside classes are not touched. */
  method Update(store: Store, m: Member)
    modifies store
    ensures FindIndex(old(GetAll(store)), m.id).None? ==> store.collections == old(store.collections)
    ensures FindIndex(old(GetAll(store)), m.id).Some? ==>
      store.collections == old(store.collections)[MembersKey := old(GetAll(store))[FindIndex(old(GetAll(store)), m.id).value := MemberRecord(m)]]
    ensures FindIndex(old(GetAll(store)), m.id).Some? ==> Get(store, m.id) == Some(MemberRecord(m))
    ensures store.GetAll(ClassesKey) == old(store.GetAll(ClassesKey))
  {
    store.Update(MembersKey, MemberRecord(m));
  }
}
