/** The sample data the bootstrap writes: addresses, the lookup lists derived
    from them, members and classes. The random draws and the clock of the
    original generators are inputs here (`Draws`). */
module Data {
  import opened Types
  import opened Text

  /** `Array.from({ length: quantity }, (_, i) => factory(i))`. */
  function CreateMany<T>(factory: nat -> T, quantity: nat): (r: seq<T>)
    ensures |r| == quantity
    ensures forall i :: 0 <= i < quantity ==> r[i] == factory(i)
  {
    seq(quantity, i requires 0 <= i < quantity => factory(i))
  }

  const AddressCount: nat := 20

  /** The i-th address: every field carries the number i + 1, the zip code i. */
  function AddressAt(i: nat): (a: Address)
    ensures AllDigits(a.number) && ParseDecimal(a.number) == i + 1
    ensures a.street == "Rua " + a.number && a.district == "Bairro " + a.number
    ensures a.city == "Cidade " + a.number && a.state == "Estado " + a.number
    ensures a.zipCode == "12345-678" + Decimal(i)
  {
    ParseDecimalOfDecimal(i + 1);
    Address(
      street := "Rua " + Decimal(i + 1),
      number := Decimal(i + 1),
      district := "Bairro " + Decimal(i + 1),
      city := "Cidade " + Decimal(i + 1),
      state := "Estado " + Decimal(i + 1),
      zipCode := "12345-678" + Decimal(i))
  }

  /** `mockAddresses`: twenty addresses, the i-th numbered i + 1. */
  function MockAddresses(): (r: seq<Address>)
    ensures |r| == AddressCount
    ensures forall i :: 0 <= i < |r| ==> r[i].street == "Rua " + Decimal(i + 1)
    ensures forall i :: 0 <= i < |r| ==> r[i].zipCode == "12345-678" + Decimal(i)
    ensures forall i :: 0 <= i < |r| ==> r[i] == AddressAt(i)
  {
    CreateMany(AddressAt, AddressCount)
  }

  // ----- de-duplication through a Set -----

  predicate NoDuplicates<T(==)>(s: seq<T>) {
    forall i, j :: 0 <= i < j < |s| ==> s[i] != s[j]
  }

  /** `Array.from(new Set(s))`: each value once, in the order it was first
      inserted. */
  function Dedup<T(==,!new)>(s: seq<T>): (r: seq<T>)
    ensures forall x :: x in r <==> x in s
    ensures NoDuplicates(r)
    decreases |s|
  {
    if |s| == 0 then []
    else
      var p := Dedup(s[..|s| - 1]);
      if s[|s| - 1] in p then p else p + [s[|s| - 1]]
  }

  /** The position of the first occurrence of `x` in `s`. */
  function FirstIndex<T(==)>(s: seq<T>, x: T): (i: nat)
    requires x in s
    ensures i < |s| && s[i] == x
    ensures forall j :: 0 <= j < i ==> s[j] != x
    decreases |s|
  {
    if s[0] == x then 0 else 1 + FirstIndex(s[1..], x)
  }

  lemma {:induction false} FirstIndexInPrefix<T>(s: seq<T>, m: nat, x: T)
    requires m <= |s| && x in s[..m]
    ensures FirstIndex(s, x) == FirstIndex(s[..m], x)
    decreases m
  {
    assert s[..m][0] == s[0];
    if s[0] != x {
      assert s[1..][..m - 1] == s[..m][1..];
      FirstIndexInPrefix(s[1..], m - 1, x);
    }
  }

  /** The de-duplicated list is ordered by first occurrence in the input. */
  lemma {:induction false} DedupKeepsFirstOccurrenceOrder<T(!new)>(s: seq<T>)
    ensures forall i, j :: 0 <= i < j < |Dedup(s)| ==> FirstIndex(s, Dedup(s)[i]) < FirstIndex(s, Dedup(s)[j])
    decreases |s|
  {
    if |s| > 0 {
      var n := |s| - 1;
      var front := s[..n];
      var p := Dedup(front);
      var r := Dedup(s);
      DedupKeepsFirstOccurrenceOrder(front);
      forall y | y in p ensures FirstIndex(s, y) == FirstIndex(front, y) && FirstIndex(s, y) < n {
        FirstIndexInPrefix(s, n, y);
      }
      if s[n] !in p {
        assert s[n] !in front;
        assert FirstIndex(s, s[n]) == n;
        forall i, j | 0 <= i < j < |r| ensures FirstIndex(s, r[i]) < FirstIndex(s, r[j]) {
          assert r[i] == p[i];
          if j < |p| {
            assert r[j] == p[j];
          }
        }
      }
    }
  }

  /** A list with no repeated value comes out of the Set unchanged. */
  lemma {:induction false} DedupOfDistinct<T(!new)>(s: seq<T>)
    requires NoDuplicates(s)
    ensures Dedup(s) == s
    decreases |s|
  {
    if |s| > 0 {
      var n := |s| - 1;
      DedupOfDistinct(s[..n]);
      assert s[n] !in s[..n];
      assert s[..n] + [s[n]] == s;
    }
  }

  // ----- the lookup lists derived from the addresses -----

  datatype AddressField = District | City | State

  function FieldOf(a: Address, f: AddressField): string {
    match f
    case District => a.district
    case City => a.city
    case State => a.state
  }

  function FieldPrefix(f: AddressField): string {
    match f
    case District => "Bairro "
    case City => "Cidade "
    case State => "Estado "
  }

  /** `mockAddresses.map(address => address.<field>)`. */
  function FieldValues(f: AddressField): (r: seq<string>)
    ensures |r| == AddressCount
    ensures forall i :: 0 <= i < |r| ==> r[i] == FieldPrefix(f) + Decimal(i + 1)
  {
    var addrs := MockAddresses();
    seq(|addrs|, i requires 0 <= i < |addrs| => FieldOf(addrs[i], f))
  }

  /** `existingDistricts`, `existingCities`, `existingStates`: the field's
      values, each once. */
  function Existing(f: AddressField): (r: seq<string>)
    ensures forall x :: x in r <==> x in FieldValues(f)
    ensures NoDuplicates(r)
  {
    Dedup(FieldValues(f))
  }

  lemma NumberedLabelsDistinct(prefix: string, m: nat, n: nat)
    requires prefix + Decimal(m) == prefix + Decimal(n)
    ensures m == n
  {
    assert Decimal(m) == (prefix + Decimal(m))[|prefix|..];
    assert Decimal(n) == (prefix + Decimal(n))[|prefix|..];
    DecimalInjective(m, n);
  }

  lemma FieldValuesDistinct(f: AddressField)
    ensures NoDuplicates(FieldValues(f))
  {
    var vs := FieldValues(f);
    var prefix := FieldPrefix(f);
    forall i, j | 0 <= i < j < |vs| ensures vs[i] != vs[j] {
      if vs[i] == vs[j] {
        assert prefix + Decimal(i + 1) == prefix + Decimal(j + 1);
        NumberedLabelsDistinct(prefix, i + 1, j + 1);
      }
    }
  }

  /** The twenty numbered values are all different, so the Set drops nothing:
      each lookup list is the field list itself, twenty entries long. */
  lemma ExistingIsFieldValues(f: AddressField)
    ensures Existing(f) == FieldValues(f)
    ensures |Existing(f)| == AddressCount
    ensures forall i :: 0 <= i < AddressCount ==> Existing(f)[i] == FieldPrefix(f) + Decimal(i + 1)
  {
    FieldValuesDistinct(f);
    DedupOfDistinct(FieldValues(f));
  }

  /** `mockPaymentPlans`: three distinct plan names. */
  function MockPaymentPlans(): (r: seq<string>)
    ensures |r| == 3 && NoDuplicates(r)
  {
    ["Mensal", "Trimestral", "Anual"]
  }

  /** `mockClassTypes`: five distinct class types. */
  function MockClassTypes(): (r: seq<string>)
    ensures |r| == 5 && NoDuplicates(r)
  {
    ["Yoga", "Pilates", "Musculação", "Zumba", "Crossfit"]
  }

  /** `mockClassStatus`: the status labels in declaration order. */
  function MockClassStatus(): (r: seq<string>)
    ensures |r| == |AllStatuses|
    ensures forall i :: 0 <= i < |r| ==> r[i] == AllStatuses[i].Label()
  {
    seq(|AllStatuses|, i requires 0 <= i < |AllStatuses| => AllStatuses[i].Label())
  }

  // ----- CPF strings -----

  type CpfDigits = s: seq<Digit> | |s| == 11 witness [0, 0, 0, 0, 0, 0, 0, 0, 0, 0, 0]

  function DigitsText(ds: seq<Digit>): (s: string)
    ensures |s| == |ds|
    ensures forall i :: 0 <= i < |ds| ==> s[i] == DigitChar(ds[i])
  {
    seq(|ds|, i requires 0 <= i < |ds| => DigitChar(ds[i]))
  }

  /** `generateRandomCPF` given its eleven digits: `ddd.ddd.ddd-dd`. */
  function FormatCpf(ds: CpfDigits): (s: string)
    ensures |s| == 14 && s[3] == '.' && s[7] == '.' && s[11] == '-'
    ensures forall i :: 0 <= i < 14 && i != 3 && i != 7 && i != 11 ==> IsDigitChar(s[i])
  {
    var t := DigitsText(ds);
    t[..3] + "." + t[3..6] + "." + t[6..9] + "-" + t[9..11]
  }

  /** Where the eleven digits stand in a formatted CPF. */
  const CpfDigitPositions: seq<nat> := [0, 1, 2, 4, 5, 6, 8, 9, 10, 12, 13]

  /** Reads the digits back out of a string of the CPF shape. */
  function ParseCpf(s: string): Option<CpfDigits> {
    if |s| == 14 && s[3] == '.' && s[7] == '.' && s[11] == '-'
       && forall k :: 0 <= k < 11 ==> IsDigitChar(s[CpfDigitPositions[k]])
    then Some(seq(11, k requires 0 <= k < 11 => DigitValue(s[CpfDigitPositions[k]])))
    else None
  }

  /** The formatted CPF keeps every digit, in order. */
  lemma ParseFormatCpf(ds: CpfDigits)
    ensures ParseCpf(FormatCpf(ds)) == Some(ds)
  {
    var s := FormatCpf(ds);
    var t := DigitsText(ds);
    forall k | 0 <= k < 11 ensures s[CpfDigitPositions[k]] == DigitChar(ds[k]) {
      assert s[CpfDigitPositions[k]] == t[k];
    }
    var back := seq(11, k requires 0 <= k < 11 => DigitValue(s[CpfDigitPositions[k]]));
    forall k | 0 <= k < 11 ensures back[k] == ds[k] {
      DigitValueOfChar(ds[k]);
    }
    assert back == ds;
  }

  // ----- members and classes -----

  type CapacityDraw = k: nat | k < 30
  type SizeDraw = n: nat | 1 <= n <= 20 witness 1

  /** The outcomes of `Math.random()` and `new Date()` used while generating:
      the CPF digits of member i, the capacity draw and the member-count draw
      of class i, and the current instant. */
  datatype Draws = Draws(cpf: nat -> CpfDigits, capacity: nat -> CapacityDraw, size: nat -> SizeDraw, now: DateTime)

  const MemberCount: nat := 100
  const ClassCount: nat := 20

  /** The i-th member: id i + 1 in its name and email, the drawn CPF, and the
      address and plan taken round-robin. */
  function MemberAt(i: nat, d: Draws): (m: Member)
    ensures m.id == i + 1
    ensures m.name == "Membro " + Decimal(m.id) && m.email == "membro" + Decimal(m.id) + "@example.com"
    ensures m.document.Some? && ParseCpf(m.document.value) == Some(d.cpf(i))
    ensures m.address == Some(AddressAt(i % AddressCount))
    ensures m.paymentPlan == MockPaymentPlans()[i % 3]
  {
    ParseFormatCpf(d.cpf(i));
    Member(
      id := i + 1,
      createdAt := d.now,
      updatedAt := d.now,
      name := "Membro " + Decimal(i + 1),
      email := "membro" + Decimal(i + 1) + "@example.com",
      birthDate := DateTime(2000 + i, 1, 1, 0, 0),
      document := Some(FormatCpf(d.cpf(i))),
      address := Some(MockAddresses()[i % |MockAddresses()|]),
      paymentPlan := MockPaymentPlans()[i % |MockPaymentPlans()|])
  }

  /** `mockMembers`: one hundred members with ids 1 to 100, addresses and
      plans assigned round-robin. */
  function MockMembers(d: Draws): (r: seq<Member>)
    ensures |r| == MemberCount
    ensures forall i :: 0 <= i < |r| ==> r[i].id == i + 1
    ensures forall i :: 0 <= i < |r| ==> r[i].address == Some(AddressAt(i % AddressCount))
    ensures forall i :: 0 <= i < |r| ==> r[i].paymentPlan == MockPaymentPlans()[i % 3]
    ensures forall i :: 0 <= i < |r| ==> r[i].document.Some? && ParseCpf(r[i].document.value) == Some(d.cpf(i))
  {
    var r := CreateMany(i => MemberAt(i, d), MemberCount);
    assert forall i :: 0 <= i < |r| ==> r[i] == MemberAt(i, d);
    r
  }

  /** The i-th class: capacity 20 to 49 and a prefix of one to twenty members,
      so it starts within capacity. */
  function ClassAt(i: nat, d: Draws): (c: Class)
    ensures c.id == i + 1 && c.description == "Aula " + Decimal(c.id)
    ensures 20 <= c.maxCapacity <= 49
    ensures c.members.Some? && 1 <= |c.members.value| <= 20 <= c.maxCapacity
    ensures c.members.value == MockMembers(d)[..|c.members.value|]
    ensures c.status == AllStatuses[i % 5] && c.classType == MockClassTypes()[i % 5]
    ensures c.allowLateRegistration <==> i % 2 == 0
  {
    var members := MockMembers(d);
    Class(
      id := i + 1,
      createdAt := d.now,
      updatedAt := d.now,
      description := "Aula " + Decimal(i + 1),
      maxCapacity := d.capacity(i) + 20,
      allowLateRegistration := i % 2 == 0,
      date := DateTime(2025, 8, 4, 0, 0),
      status := AllStatuses[i % |AllStatuses|],
      classType := MockClassTypes()[i % |MockClassTypes()|],
      members := Some(members[..d.size(i)]))
  }

  /** `mockClasses`: twenty classes with ids 1 to 20; status and type
      round-robin; late registration on even positions. */
  function MockClasses(d: Draws): (r: seq<Class>)
    ensures |r| == ClassCount
    ensures forall i :: 0 <= i < |r| ==> r[i].id == i + 1
    ensures forall i :: 0 <= i < |r| ==> r[i].status == AllStatuses[i % 5]
    ensures forall i :: 0 <= i < |r| ==> r[i].classType == MockClassTypes()[i % 5]
    ensures forall i :: 0 <= i < |r| ==> (r[i].allowLateRegistration <==> i % 2 == 0)
  {
    CreateMany(i => ClassAt(i, d), ClassCount)
  }

  /** Every seeded class starts within its capacity: 20 to 49 places, and a
      member list that is a prefix of the members, one to twenty long. */
  lemma MockClassesWithinCapacity(d: Draws, i: nat)
    requires i < ClassCount
    ensures 20 <= MockClasses(d)[i].maxCapacity <= 49
    ensures MockClasses(d)[i].members.Some?
    ensures 1 <= |MockClasses(d)[i].members.value| <= 20
    ensures MockClasses(d)[i].members.value == MockMembers(d)[..|MockClasses(d)[i].members.value|]
    ensures |MockClasses(d)[i].members.value| <= MockClasses(d)[i].maxCapacity
  {
  }
}
