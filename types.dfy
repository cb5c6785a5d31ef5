/** Record shapes shared by the mock data layer: the base entity, members,
    classes and their status, and the tagged record that one storage
    collection holds. */
module Types {

  datatype Option<+T> = None | Some(value: T)

  /** A calendar instant broken into components, as dayjs reads a `Date`.
      `month` runs from 1 to 12 (dayjs's `month() + 1`). */
  datatype DateTime = DateTime(year: nat, month: nat, day: nat, hour: nat, minute: nat)

  datatype Address = Address(
    street: string,
    number: string,
    district: string,
    city: string,
    state: string,
    zipCode: string)

  datatype Member = Member(
    id: int,
    createdAt: DateTime,
    updatedAt: DateTime,
    name: string,
    email: string,
    birthDate: DateTime,
    document: Option<string>,
    address: Option<Address>,
    paymentPlan: string)

  /** The five class states, in the order their labels are declared. */
  datatype ClassStatus = OnGoing | Open | Full | Finished | Canceled {
    function Label(): string {
      match this
      case OnGoing => "Em andamento"
      case Open => "Aberta"
      case Full => "Grupo fechado"
      case Finished => "Finalizada"
      case Canceled => "Cancelada"
    }
  }

  /** The status values in declaration order (`Object.values(ClassStatus)`). */
  const AllStatuses: seq<ClassStatus> := [OnGoing, Open, Full, Finished, Canceled]

  /** A class; `members` is optional and `None` stands for an undefined field. */
  datatype Class = Class(
    id: int,
    createdAt: DateTime,
    updatedAt: DateTime,
    description: string,
    maxCapacity: int,
    allowLateRegistration: bool,
    date: DateTime,
    status: ClassStatus,
    classType: string,
    members: Option<seq<Member>>)

  /** One element of a stored collection. Entities carry an id; the lookup
      lists (states, cities, plans, ...) hold bare strings, which have none. */
  datatype Record = MemberRecord(member: Member) | ClassRecord(cls: Class) | Label(text: string) {
    function Id(): Option<int> {
      match this
      case MemberRecord(m) => Some(m.id)
      case ClassRecord(c) => Some(c.id)
      case Label(_) => None
    }
  }

  /** dayjs's `isSame(other, 'day')`: the same year, month and day of month;
      the time of day plays no part. */
  predicate SameDay(a: DateTime, b: DateTime)
    ensures SameDay(a, b) <==> a.(hour := 0, minute := 0) == b.(hour := 0, minute := 0)
  {
    a.year == b.year && a.month == b.month && a.day == b.day
  }

  /** The strict equality `record.id === id` of a lookup by id. */
  predicate HasId(r: Record, id: int) {
    r.Id() == Some(id)
  }
}
