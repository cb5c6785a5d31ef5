/** Class operations layered on the store under the classes key: the
    pass-throughs, the filter by calendar day, and adding or removing
    members of one class. */
module ClassApi {
  import opened Types
  import opened StorageKeys
  import opened Handlers

  datatype ApiError = ClassNotFound(classId: int)

  datatype Outcome = Pass | Fail(error: ApiError)

  /** Every record under the classes key is a class, as the typed API ensures. */
  predicate AllClasses(rs: seq<Record>) {
    forall i :: 0 <= i < |rs| ==> rs[i].ClassRecord?
  }

  predicate OnDay(r: Record, d: DateTime) {
    r.ClassRecord? && SameDay(r.cls.date, d)
  }

  /** The classes held on day `d`, in stored order. */
  function FilterOnDay(rs: seq<Record>, d: DateTime): (r: seq<Record>)
    ensures forall x :: x in r <==> x in rs && OnDay(x, d)
    ensures |r| <= |rs|
    decreases |rs|
  {
    if |rs| == 0 then []
    else if OnDay(rs[0], d) then [rs[0]] + FilterOnDay(rs[1..], d)
    else FilterOnDay(rs[1..], d)
  }

  /** Filtering respects concatenation, so relative order is kept. */
  lemma {:induction false} FilterOnDayAppend(a: seq<Record>, b: seq<Record>, d: DateTime)
    ensures FilterOnDay(a + b, d) == FilterOnDay(a, d) + FilterOnDay(b, d)
    decreases |a|
  {
    if |a| == 0 {
      assert a + b == b;
    } else {
      assert (a + b)[0] == a[0];
      assert (a + b)[1..] == a[1..] + b;
      FilterOnDayAppend(a[1..], b, d);
    }
  }

  /** A collection whose classes all fall on the day is kept whole. */
  lemma {:induction false} FilterOnDayKeepsMatching(rs: seq<Record>, d: DateTime)
    requires forall i :: 0 <= i < |rs| ==> OnDay(rs[i], d)
    ensures FilterOnDay(rs, d) == rs
    decreases |rs|
  {
    if |rs| > 0 {
      FilterOnDayKeepsMatching(rs[1..], d);
    }
  }

  /** Only the day counts: two query instants on the same day select the same classes. */
  lemma {:induction false} FilterOnDayIgnoresTime(rs: seq<Record>, d: DateTime, e: DateTime)
    requires SameDay(d, e)
    ensures FilterOnDay(rs, d) == FilterOnDay(rs, e)
    decreases |rs|
  {
    if |rs| > 0 {
      FilterOnDayIgnoresTime(rs[1..], d, e);
    }
  }

  function GetAll(store: Store): (rs: seq<Record>)
    reads store
    ensures rs == ReadKey(store.collections, ClassesKey)
  {
    store.GetAll(ClassesKey)
  }

  function Get(store: Store, id: int): (r: Option<Record>)
    reads store
    ensures r == Find(ReadKey(store.collections, ClassesKey), id)
  {
    store.Get(ClassesKey, id)
  }

  method Create(store: Store, c: Class)
    modifies store
    ensures store.collections == old(store.collections)[ClassesKey := old(GetAll(store)) + [ClassRecord(c)]]
  {
    store.Create(ClassesKey, ClassRecord(c));
  }

  method Update(store: Store, c: Class)
    modifies store
    ensures FindIndex(old(GetAll(store)), c.id).None? ==> store.collections == old(store.collections)
    ensures FindIndex(old(GetAll(store)), c.id).Some? ==>
      store.collections == old(store.collections)[ClassesKey := old(GetAll(store))[FindIndex(old(GetAll(store)), c.id).value := ClassRecord(c)]]
  {
    store.Update(ClassesKey, ClassRecord(c));
  }

  /** `getByDate`: every class when no date is given, otherwise the classes
      on that calendar day in stored order. */
  function GetByDate(store: Store, date: Option<DateTime>): (r: seq<Record>)
    reads store
    ensures date.None? ==> r == GetAll(store)
    ensures date.Some? ==> forall x :: x in r <==> x in GetAll(store) && OnDay(x, date.value)
    ensures date.Some? ==> r == FilterOnDay(GetAll(store), date.value)
  {
    if date.None? then GetAll(store) else FilterOnDay(GetAll(store), date.value)
  }

  /** The member list of a class, an undefined one reading as empty. */
  function MembersOrEmpty(c: Class): (ms: seq<Member>)
    ensures c.members.Some? ==> ms == c.members.value
    ensures c.members.None? ==> ms == []
  {
    if c.members.Some? then c.members.value else []
  }

  /** The class after `addMembers`: old members then the new ones. */
  function WithAddedMembers(c: Class, ms: seq<Member>): (r: Class)
    ensures r.members.Some? && |r.members.value| == |MembersOrEmpty(c)| + |ms|
    ensures r.members.value[..|MembersOrEmpty(c)|] == MembersOrEmpty(c)
    ensures r.members.value[|MembersOrEmpty(c)|..] == ms
    ensures r.(members := c.members) == c
  {
    c.(members := Some(MembersOrEmpty(c) + ms))
  }

  /** No duplicate is dropped and no capacity is checked: the count only adds
      up, whatever `maxCapacity` is. */
  lemma AddedMembersCount(c: Class, ms: seq<Member>)
    ensures multiset(WithAddedMembers(c, ms).members.value) == multiset(MembersOrEmpty(c)) + multiset(ms)
    ensures |WithAddedMembers(c, ms).members.value| == |MembersOrEmpty(c)| + |ms|
    ensures |MembersOrEmpty(c)| + |ms| > c.maxCapacity ==> |WithAddedMembers(c, ms).members.value| > c.maxCapacity
  {
  }

  /** `filter(m => m.id !== memberId)` on a member list. */
  function RemoveById(ms: seq<Member>, memberId: int): (r: seq<Member>)
    ensures forall m :: m in r <==> m in ms && m.id != memberId
    ensures |r| <= |ms|
    decreases |ms|
  {
    if |ms| == 0 then []
    else if ms[0].id != memberId then [ms[0]] + RemoveById(ms[1..], memberId)
    else RemoveById(ms[1..], memberId)
  }

  /** Removing an id no member has leaves the list as it was. */
  lemma {:induction false} RemoveAbsentMember(ms: seq<Member>, memberId: int)
    requires forall i :: 0 <= i < |ms| ==> ms[i].id != memberId
    ensures RemoveById(ms, memberId) == ms
    decreases |ms|
  {
    if |ms| > 0 {
      RemoveAbsentMember(ms[1..], memberId);
    }
  }

  /** Removing twice is removing once. */
  lemma RemoveByIdIdempotent(ms: seq<Member>, memberId: int)
    ensures RemoveById(RemoveById(ms, memberId), memberId) == RemoveById(ms, memberId)
  {
  }

  /** The survivors keep their relative order. */
  lemma {:induction false} RemoveByIdAppend(a: seq<Member>, b: seq<Member>, memberId: int)
    ensures RemoveById(a + b, memberId) == RemoveById(a, memberId) + RemoveById(b, memberId)
    decreases |a|
  {
    if |a| == 0 {
      assert a + b == b;
    } else {
      assert (a + b)[0] == a[0];
      assert (a + b)[1..] == a[1..] + b;
      RemoveByIdAppend(a[1..], b, memberId);
    }
  }

  /** The class after `removeMember`: an undefined member list stays undefined. */
  function WithoutMember(c: Class, memberId: int): (r: Class)
    ensures r.members.None? <==> c.members.None?
    ensures c.members.Some? ==> forall m :: m in r.members.value <==> m in c.members.value && m.id != memberId
    ensures r.(members := c.members) == c
  {
    if c.members.None? then c else c.(members := Some(RemoveById(c.members.value, memberId)))
  }

  lemma WithoutMemberIdempotent(c: Class, memberId: int)
    ensures WithoutMember(WithoutMember(c, memberId), memberId) == WithoutMember(c, memberId)
  {
    if c.members.Some? {
      RemoveByIdIdempotent(c.members.value, memberId);
    }
  }

  /** `addMembers`: throws when no class has the id and writes nothing;
      otherwise rewrites the first class with that id, and only it. */
  method AddMembers(store: Store, classId: int, members: seq<Member>) returns (outcome: Outcome)
    requires AllClasses(GetAll(store))
    modifies store
    ensures AllClasses(GetAll(store))
    ensures FindIndex(old(GetAll(store)), classId).None? ==>
      outcome == Fail(ClassNotFound(classId)) && store.collections == old(store.collections)
    ensures FindIndex(old(GetAll(store)), classId).Some? ==>
      var i := FindIndex(old(GetAll(store)), classId).value;
      && outcome == Pass
      && store.collections == old(store.collections)[ClassesKey :=
           old(GetAll(store))[i := ClassRecord(WithAddedMembers(old(GetAll(store))[i].cls, members))]]
  {
    var classes := store.GetAll(ClassesKey);
    var found := FindIndex(classes, classId);
    if found.None? {
      return Fail(ClassNotFound(classId));
    }
    var classToUpdate := classes[found.value].cls;
    classToUpdate := WithAddedMembers(classToUpdate, members);
    store.Update(ClassesKey, ClassRecord(classToUpdate));
    outcome := Pass;
  }

  /** `removeMember`: throws when no class has the id and writes nothing;
      otherwise filters the member out of the first class with that id. */
  method RemoveMember(store: Store, classId: int, memberId: int) returns (outcome: Outcome)
    requires AllClasses(GetAll(store))
    modifies store
    ensures AllClasses(GetAll(store))
    ensures FindIndex(old(GetAll(store)), classId).None? ==>
      outcome == Fail(ClassNotFound(classId)) && store.collections == old(store.collections)
    ensures FindIndex(old(GetAll(store)), classId).Some? ==>
      var i := FindIndex(old(GetAll(store)), classId).value;
      && outcome == Pass
      && store.collections == old(store.collections)[ClassesKey :=
           old(GetAll(store))[i := ClassRecord(WithoutMember(old(GetAll(store))[i].cls, memberId))]]
  {
    var classes := store.GetAll(ClassesKey);
    var found := FindIndex(classes, classId);
    if found.None? {
      return Fail(ClassNotFound(classId));
    }
    var classToUpdate := classes[found.value].cls;
    classToUpdate := WithoutMember(classToUpdate, memberId);
    store.Update(ClassesKey, ClassRecord(classToUpdate));
    outcome := Pass;
  }
}
