/** The bootstrap: each of eight collections that reads as empty receives its
    sample data; a collection that holds anything is left alone. */
module Setup {
  import opened Types
  import opened StorageKeys
  import opened Handlers
  import opened ClassApi
  import Data

  /** The sample list written under each seeded key. */
  datatype Seeds = Seeds(
    members: seq<Record>,
    classes: seq<Record>,
    states: seq<Record>,
    cities: seq<Record>,
    districts: seq<Record>,
    paymentPlans: seq<Record>,
    classTypes: seq<Record>,
    classStatuses: seq<Record>)

  function SeedFor(s: Seeds, key: string): seq<Record> {
    if key == MembersKey then s.members
    else if key == ClassesKey then s.classes
    else if key == StatesKey then s.states
    else if key == CitiesKey then s.cities
    else if key == DistrictsKey then s.districts
    else if key == PaymentPlansKey then s.paymentPlans
    else if key == ClassTypesKey then s.classTypes
    else if key == ClassStatusKey then s.classStatuses
    else []
  }

  /** One step of the bootstrap: write the seed only when the key reads as empty. */
  function SeedKey(m: Collections, key: string, seed: seq<Record>): (r: Collections)
    ensures key in r && r[key] == if |ReadKey(m, key)| == 0 then seed else m[key]
    ensures r == m || r == m[key := seed]
  {
    if |ReadKey(m, key)| == 0 then m[key := seed] else m
  }

  /** The eight steps, in the order the bootstrap takes them. */
  function SeedAll(m: Collections, s: Seeds): (r: Collections)
    ensures r.Keys == m.Keys + {MembersKey, ClassesKey, StatesKey, CitiesKey,
                                DistrictsKey, PaymentPlansKey, ClassTypesKey, ClassStatusKey}
  {
    var m1 := SeedKey(m, MembersKey, s.members);
    var m2 := SeedKey(m1, ClassesKey, s.classes);
    var m3 := SeedKey(m2, StatesKey, s.states);
    var m4 := SeedKey(m3, CitiesKey, s.cities);
    var m5 := SeedKey(m4, DistrictsKey, s.districts);
    var m6 := SeedKey(m5, PaymentPlansKey, s.paymentPlans);
    var m7 := SeedKey(m6, ClassTypesKey, s.classTypes);
    SeedKey(m7, ClassStatusKey, s.classStatuses)
  }

  lemma SeedKeyAt(m: Collections, key: string, seed: seq<Record>, k: string)
    ensures k == key ==> (k in SeedKey(m, key, seed)
      && SeedKey(m, key, seed)[k] == if |ReadKey(m, k)| == 0 then seed else m[k])
    ensures k != key ==> ((k in SeedKey(m, key, seed) <==> k in m)
      && (k in m ==> SeedKey(m, key, seed)[k] == m[k]))
  {
  }

  /** Where the bootstrap leaves each key: a seeded key holds its seed if it
      read as empty and its old contents otherwise; any other key is as it was. */
  lemma SeedAllAt(m: Collections, s: Seeds, k: string)
    ensures k in SeededKeys ==> (k in SeedAll(m, s)
      && SeedAll(m, s)[k] == if |ReadKey(m, k)| == 0 then SeedFor(s, k) else m[k])
    ensures k !in SeededKeys ==> ((k in SeedAll(m, s) <==> k in m)
      && (k in m ==> SeedAll(m, s)[k] == m[k]))
  {
    var m1 := SeedKey(m, MembersKey, s.members);
    var m2 := SeedKey(m1, ClassesKey, s.classes);
    var m3 := SeedKey(m2, StatesKey, s.states);
    var m4 := SeedKey(m3, CitiesKey, s.cities);
    var m5 := SeedKey(m4, DistrictsKey, s.districts);
    var m6 := SeedKey(m5, PaymentPlansKey, s.paymentPlans);
    var m7 := SeedKey(m6, ClassTypesKey, s.classTypes);
    var m8 := SeedKey(m7, ClassStatusKey, s.classStatuses);
    SeedKeyAt(m, MembersKey, s.members, k);
    SeedKeyAt(m1, ClassesKey, s.classes, k);
    SeedKeyAt(m2, StatesKey, s.states, k);
    SeedKeyAt(m3, CitiesKey, s.cities, k);
    SeedKeyAt(m4, DistrictsKey, s.districts, k);
    SeedKeyAt(m5, PaymentPlansKey, s.paymentPlans, k);
    SeedKeyAt(m6, ClassTypesKey, s.classTypes, k);
    SeedKeyAt(m7, ClassStatusKey, s.classStatuses, k);
  }

  /** A collection that holds anything is never overwritten. */
  lemma SeedAllNeverOverwrites(m: Collections, s: Seeds, k: string)
    requires |ReadKey(m, k)| > 0
    ensures k in SeedAll(m, s) && SeedAll(m, s)[k] == m[k]
  {
    SeedAllAt(m, s, k);
  }

  /** Each decision looks only at its own key: two stores that agree on a key
      agree on it after the bootstrap. */
  lemma SeedDecisionIsLocal(m1: Collections, m2: Collections, s: Seeds, k: string)
    requires k in m1 <==> k in m2
    requires ReadKey(m1, k) == ReadKey(m2, k)
    ensures (k in SeedAll(m1, s) <==> k in SeedAll(m2, s))
    ensures ReadKey(SeedAll(m1, s), k) == ReadKey(SeedAll(m2, s), k)
  {
    SeedAllAt(m1, s, k);
    SeedAllAt(m2, s, k);
  }

  /** Running the bootstrap again changes nothing. */
  lemma SeedAllIdempotent(m: Collections, s: Seeds)
    ensures SeedAll(SeedAll(m, s), s) == SeedAll(m, s)
  {
    var once := SeedAll(m, s);
    var twice := SeedAll(once, s);
    forall k | true
      ensures (k in twice <==> k in once) && (k in once ==> twice[k] == once[k])
    {
      SeedAllAt(m, s, k);
      SeedAllAt(once, s, k);
    }
  }

  /** After the bootstrap every seeded key with a non-empty seed reads as non-empty. */
  lemma SeedAllFillsSeededKeys(m: Collections, s: Seeds, k: string)
    requires k in SeededKeys && |SeedFor(s, k)| > 0
    ensures |ReadKey(SeedAll(m, s), k)| > 0
  {
    SeedAllAt(m, s, k);
  }

  /** With eight non-empty seeds, every seeded key reads as non-empty afterwards. */
  lemma SeedAllFillsAll(m: Collections, s: Seeds)
    requires |s.members| > 0 && |s.classes| > 0 && |s.states| > 0 && |s.cities| > 0
    requires |s.districts| > 0 && |s.paymentPlans| > 0 && |s.classTypes| > 0 && |s.classStatuses| > 0
    ensures forall k :: k in SeededKeys ==> |ReadKey(SeedAll(m, s), k)| > 0
  {
    forall k | k in SeededKeys ensures |ReadKey(SeedAll(m, s), k)| > 0 {
      assert |SeedFor(s, k)| > 0;
      SeedAllFillsSeededKeys(m, s, k);
    }
  }

  // ----- the sample data, as stored -----

  function MemberRecords(ms: seq<Member>): (r: seq<Record>)
    ensures |r| == |ms| && forall i :: 0 <= i < |ms| ==> r[i] == MemberRecord(ms[i])
  {
    seq(|ms|, i requires 0 <= i < |ms| => MemberRecord(ms[i]))
  }

  function ClassRecords(cs: seq<Class>): (r: seq<Record>)
    ensures |r| == |cs| && forall i :: 0 <= i < |cs| ==> r[i] == ClassRecord(cs[i])
  {
    seq(|cs|, i requires 0 <= i < |cs| => ClassRecord(cs[i]))
  }

  function Labels(ts: seq<string>): (r: seq<Record>)
    ensures |r| == |ts| && forall i :: 0 <= i < |ts| ==> r[i] == Label(ts[i])
  {
    seq(|ts|, i requires 0 <= i < |ts| => Label(ts[i]))
  }

  /** What `setupMocks` writes, built from the generators. */
  function MockSeeds(d: Data.Draws): (s: Seeds)
    ensures |s.members| == Data.MemberCount && |s.classes| == Data.ClassCount && AllClasses(s.classes)
    ensures |s.states| == |s.cities| == |s.districts| == Data.AddressCount
    ensures |s.paymentPlans| == 3 && |s.classTypes| == 5 && |s.classStatuses| == 5
  {
    Data.ExistingIsFieldValues(Data.State);
    Data.ExistingIsFieldValues(Data.City);
    Data.ExistingIsFieldValues(Data.District);
    Seeds(
      members := MemberRecords(Data.MockMembers(d)),
      classes := ClassRecords(Data.MockClasses(d)),
      states := Labels(Data.Existing(Data.State)),
      cities := Labels(Data.Existing(Data.City)),
      districts := Labels(Data.Existing(Data.District)),
      paymentPlans := Labels(Data.MockPaymentPlans()),
      classTypes := Labels(Data.MockClassTypes()),
      classStatuses := Labels(Data.MockClassStatus()))
  }

  /** Every generated seed list is non-empty and the classes seed holds only
      classes, so after the bootstrap all eight collections are filled. */
  lemma MockSeedsFilled(d: Data.Draws, m: Collections)
    ensures AllClasses(MockSeeds(d).classes)
    ensures forall k :: k in SeededKeys ==> |ReadKey(SeedAll(m, MockSeeds(d)), k)| > 0
  {
    var s := MockSeeds(d);
    SeedAllFillsAll(m, s);
  }

  /** The bootstrap keeps the classes collection made of classes. */
  lemma SeedAllKeepsClasses(m: Collections, s: Seeds)
    requires AllClasses(ReadKey(m, ClassesKey)) && AllClasses(s.classes)
    ensures AllClasses(ReadKey(SeedAll(m, s), ClassesKey))
  {
    SeedAllAt(m, s, ClassesKey);
  }

  /** One conditional write: the seed goes in only when the key reads as empty. */
  method SeedIfEmpty(store: Store, key: string, seed: seq<Record>)
    modifies store
    ensures store.collections == SeedKey(old(store.collections), key, seed)
  {
    if |store.GetAll(key)| == 0 {
      store.Save(key, seed);
    }
  }

  /** `setupMocks`: eight conditional writes, in order. */
  method SetupMocks(store: Store, seeds: Seeds)
    modifies store
    ensures store.collections == SeedAll(old(store.collections), seeds)
  {
    SeedIfEmpty(store, MembersKey, seeds.members);
    SeedIfEmpty(store, ClassesKey, seeds.classes);
    SeedIfEmpty(store, StatesKey, seeds.states);
    SeedIfEmpty(store, CitiesKey, seeds.cities);
    SeedIfEmpty(store, DistrictsKey, seeds.districts);
    SeedIfEmpty(store, PaymentPlansKey, seeds.paymentPlans);
    SeedIfEmpty(store, ClassTypesKey, seeds.classTypes);
    SeedIfEmpty(store, ClassStatusKey, seeds.classStatuses);
  }
}
