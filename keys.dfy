/** The logical collection names under which the mock layer stores its data. */
module StorageKeys {

  const MembersKey: string := "members"
  const ClassesKey: string := "classes"
  const StatesKey: string := "states"
  const CitiesKey: string := "cities"
  const DistrictsKey: string := "districts"
  const PaymentPlansKey: string := "payment-plans"
  const ClassTypesKey: string := "class-types"
  const ClassStatusKey: string := "class-statuses"

  /** The eight keys the bootstrap seeds, in the order it visits them. */
  const SeededKeys: seq<string> :=
    [MembersKey, ClassesKey, StatesKey, CitiesKey, DistrictsKey, PaymentPlansKey, ClassTypesKey, ClassStatusKey]
}
