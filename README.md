# Gym management mock data layer, in Dafny

This project models the in-browser data layer of a gym management console.
That layer pretends to be a REST back end. It keeps named collections of records (members, classes and six lookup lists) in the browser's key-value store. On top of that it provides:

- the generic handlers `get`, `getAll`, `create` and `update`;
- the class operations: filter by calendar day, add members, remove a member;
- the member operations, which pass straight through to the handlers;
- the bootstrap that seeds empty collections with generated sample data;
- the sample-data generators;
- the formatter that shows a class's date as "Hoje", "Amanhã" or a full date.

Modules, one per source file:

- `Types` (types.dfy): record shapes from `src/types/index.ts`. `Record` is what a collection element can be: a member, a class or a bare label string. `Record.Id()` is `None` for a label, just as `"text".id` is undefined in JavaScript and never equals a number.
- `StorageKeys` (keys.dfy): the eight collection names.
- `Handlers` (handlers.dfy): the store is a class holding `collections: map<string, seq<Record>>`. An absent key reads as the empty sequence. `GetAll` and `Get` are functions, so they cannot change the store. `Save`, `Create` and `Update` are methods. Each one states the whole new map.
- `ClassApi` (class_api.dfy), `MemberApi` (member_api.dfy): the domain operations on the store.
- `Setup` (setup.dfy): `setupMocks` as eight conditional writes, with a closed form of their combined effect.
- `Data` (data.dfy), `Text` (text.dfy): generators, `Set` de-duplication, decimal rendering and CPF formatting.
- `DateText` (date.dfy): `formatDateToText`, with a small calendar for "tomorrow".

Two behaviours of the code worth knowing in advance:

- `addMembers` performs no capacity check. The model states that the member count simply adds up (`ClassApi.AddedMembersCount`).
- `update` with an unknown id is a silent no-op.

## Model

| member | source | states |
|---|---|---|
| Handlers.FindIndex | src/mocks/handlers.ts:37 | the first position whose record has the id, with no match before it; none exactly when no record has the id |
| Handlers.Find | src/mocks/handlers.ts:10 | the lookup yields the first stored record with the id (none before it has the id), and yields nothing exactly when no record has it |
| Handlers.ReadKey | src/mocks/api/base.ts:5-8 | a key that was never written reads as the empty list; a written key reads as what was stored |
| Handlers.FindIndexAfterAppend | src/mocks/handlers.ts:22-29 | appending never changes the first match: a duplicate id added later stays hidden, and a new id is found at the old length |
| Handlers.FindAfterReplace | src/mocks/handlers.ts:37-40 | replacing the first match by a record with the same id keeps that position first, so `get` then returns the new record |
| Handlers.Store.GetAll | src/mocks/handlers.ts:15-20 | returns the stored sequence unchanged, and the empty sequence when the key is absent; reads only |
| Handlers.Store.Get | src/mocks/handlers.ts:4-13 | returns the first record with the id (none with that id before it), or nothing exactly when no record has the id; reads only |
| Handlers.Store.Save | src/mocks/api/base.ts:1-3 | the key now maps to the given collection and every other key is unchanged |
| Handlers.Store.Create | src/mocks/handlers.ts:22-29 | the collection becomes old + [item], one longer, with no id check; every other key is unchanged |
| Handlers.Store.Update | src/mocks/handlers.ts:31-45 | with a match, only the first matching position is replaced and `get` then returns the item; with none, the whole store is unchanged and no error is raised; length and other keys are preserved |
| ClassApi.FilterOnDay | src/mocks/api/class.ts:16-17 | keeps exactly the classes whose date has the query's year, month and day |
| Types.SameDay | src/mocks/api/class.ts:17 | two instants are on the same day exactly when they agree once the time of day is dropped |
| ClassApi.FilterOnDayAppend | src/mocks/api/class.ts:17 | filtering distributes over concatenation, so stored order is kept |
| ClassApi.FilterOnDayKeepsMatching | src/mocks/api/class.ts:17 | a collection whose classes all fall on the day is returned whole |
| ClassApi.FilterOnDayIgnoresTime | src/mocks/api/class.ts:17 | two query instants on the same calendar day select the same classes, so the time of day is ignored |
| ClassApi.GetByDate | src/mocks/api/class.ts:11-18 | with no date, every stored class; with a date, exactly the classes on that calendar day, in stored order |
| ClassApi.GetAll | src/mocks/api/class.ts:7 | the classes collection as stored |
| ClassApi.Get | src/mocks/api/class.ts:8 | the first class with the id, or nothing |
| ClassApi.Create | src/mocks/api/class.ts:9 | appends the class under the classes key only |
| ClassApi.Update | src/mocks/api/class.ts:10 | replaces the first class with the id, or leaves the store unchanged |
| ClassApi.WithAddedMembers | src/mocks/api/class.ts:27 | the new member list is the old one (empty if undefined) followed by the added members; no other field changes |
| ClassApi.MembersOrEmpty | src/mocks/api/class.ts:27 | an undefined member list reads as empty; a defined one as itself |
| ClassApi.AddedMembersCount | src/mocks/api/class.ts:19-30 | duplicates are kept (multiset sum) and no capacity check is made: the count may exceed `maxCapacity` |
| ClassApi.RemoveById | src/mocks/api/class.ts:39-41 | keeps exactly the members whose id differs |
| ClassApi.RemoveAbsentMember | src/mocks/api/class.ts:39-41 | removing an id that no member has leaves the list unchanged |
| ClassApi.RemoveByIdIdempotent | src/mocks/api/class.ts:39-41 | removing twice equals removing once |
| ClassApi.RemoveByIdAppend | src/mocks/api/class.ts:39-41 | removal distributes over concatenation, so survivors keep their order |
| ClassApi.WithoutMember | src/mocks/api/class.ts:39-41 | an undefined member list stays undefined; otherwise exactly the members with another id remain; no other field changes |
| ClassApi.WithoutMemberIdempotent | src/mocks/api/class.ts:39-41 | removing a member from a class twice equals doing it once |
| ClassApi.AddMembers | src/mocks/api/class.ts:19-30 | an absent class id fails with ClassNotFound and writes nothing; otherwise only the first class with the id is rewritten, with old and new members, and the length and other classes are preserved |
| ClassApi.RemoveMember | src/mocks/api/class.ts:31-44 | an absent class id fails with ClassNotFound and writes nothing; otherwise only the first class with the id loses the member, and everything else is preserved |
| MemberApi.GetAll | src/mocks/api/member.ts:6 | the members collection as stored, or empty |
| MemberApi.Get | src/mocks/api/member.ts:7 | the first stored member with the id (none before it has the id), or nothing exactly when no member has it |
| MemberApi.Create | src/mocks/api/member.ts:8 | appends to the members collection only; the classes collection is unchanged |
| MemberApi.Update | src/mocks/api/member.ts:9 | replaces the first member with the id or does nothing; the classes collection, including the member copies held in classes, is unchanged |
| Setup.SeedAllAt | src/mocks/setup.ts:15-38 | each seeded key holds its seed if it read as empty, and its old contents otherwise; every other key is untouched |
| Setup.SeedKey | src/mocks/setup.ts:15-17 | one conditional write: the key holds the seed if it read as empty and its old list otherwise, and no other key changes |
| Setup.SeedAll | src/mocks/setup.ts:15-38 | the bootstrap adds exactly the eight seeded keys to the keys present before |
| Setup.MockSeeds | src/mocks/setup.ts:16-37 | the seeds written: 100 members, 20 classes (all classes), 20 states, cities and districts, 3 plans, 5 class types, 5 statuses |
| Setup.SeedAllFillsAll | src/mocks/setup.ts:15-38 | with eight non-empty seeds, every seeded key reads as non-empty after the bootstrap |
| Setup.SeedAllNeverOverwrites | src/mocks/setup.ts:15-38 | a non-empty collection is never overwritten |
| Setup.SeedDecisionIsLocal | src/mocks/setup.ts:15-38 | each key's outcome depends only on that key's current contents |
| Setup.SeedAllIdempotent | src/mocks/setup.ts:14-39 | running the bootstrap twice gives the same store as running it once |
| Setup.SeedAllFillsSeededKeys | src/mocks/setup.ts:15-38 | after the bootstrap every seeded key with a non-empty seed is non-empty |
| Setup.MockSeedsFilled | src/mocks/setup.ts:15-38 | the generated seeds are all non-empty and the classes seed holds only classes, so all eight collections are filled |
| Setup.SeedAllKeepsClasses | src/mocks/setup.ts:18-20 | the bootstrap keeps the classes collection made only of classes |
| Setup.SeedIfEmpty | src/mocks/setup.ts:15-17 | one step: the seed is written exactly when the key reads as empty |
| Setup.SetupMocks | src/mocks/setup.ts:14-39 | the store after the eight conditional writes is the bootstrap's closed form of the old store |
| Data.CreateMany | src/mocks/data.ts:3-5 | length `quantity`, element i equal to `factory(i)` |
| Data.AddressAt | src/mocks/data.ts:8-15 | address i carries the decimal number i+1 (read back as i+1) in its street, district, city and state, and zip code `12345-678{i}` |
| Data.MockAddresses | src/mocks/data.ts:7-17 | 20 addresses; entry i has street `Rua {i+1}` and zip code `12345-678{i}` |
| Data.Dedup | src/mocks/data.ts:19-29 | no duplicates, and exactly the values present in the input |
| Data.DedupKeepsFirstOccurrenceOrder | src/mocks/data.ts:19-29 | the values come in the order of their first occurrence in the input |
| Data.DedupOfDistinct | src/mocks/data.ts:19-29 | a list without repeats comes out of the Set unchanged |
| Data.Existing | src/mocks/data.ts:19-29 | each field's distinct values: exactly the values of the projected field, none repeated |
| Data.FieldValues | src/mocks/data.ts:20 | the projected field list has 20 entries, entry i being the field's prefix followed by i+1 |
| Data.FieldValuesDistinct | src/mocks/data.ts:7-17 | the twenty numbered values of each address field are pairwise distinct |
| Data.ExistingIsFieldValues | src/mocks/data.ts:19-29 | the districts, cities and states lists are the 20 numbered values, none dropped |
| Data.MockClassStatus | src/mocks/data.ts:41 | the five status labels in declaration order |
| Data.MockPaymentPlans | src/mocks/data.ts:31 | three distinct plan names |
| Data.MockClassTypes | src/mocks/data.ts:33-39 | five distinct class types |
| Data.FormatCpf | src/mocks/data.ts:43-48 | 14 characters, '.' at 3 and 7, '-' at 11, digits everywhere else |
| Data.ParseFormatCpf | src/mocks/data.ts:43-48 | the eleven digits can be read back from the formatted CPF, in order |
| Data.MemberAt | src/mocks/data.ts:51-61 | member i has id i+1, name and email built from that id, a CPF that reads back as the drawn digits, address i mod 20 and plan i mod 3 |
| Data.MockMembers | src/mocks/data.ts:50-63 | 100 members with ids 1..100; member i gets address i mod 20, plan i mod 3 and the CPF of its digits |
| Data.ClassAt | src/mocks/data.ts:66-77 | class i has id i+1, capacity 20..49, a member list that is a prefix of the members of length 1..20 (within capacity), status and type i mod 5, late registration iff i is even |
| Data.MockClasses | src/mocks/data.ts:65-79 | 20 classes with ids 1..20; status i mod 5, type i mod 5, late registration iff i is even |
| Data.MockClassesWithinCapacity | src/mocks/data.ts:65-79 | capacity in 20..49; members a prefix of the members list of length 1..20, hence within capacity |
| Text.Decimal | src/mocks/data.ts:9 | a non-empty digit string without a leading zero |
| Text.ParseDecimalOfDecimal | src/mocks/data.ts:9 | reading the decimal text back gives the number |
| Text.DecimalInjective | src/mocks/data.ts:9-14 | distinct numbers give distinct texts |
| Text.Pad2 | src/utils/date.ts:8 | two digits |
| Text.ParsePad2 | src/utils/date.ts:8 | reading the two padded digits back gives the number |
| DateText.NextDay | src/utils/date.ts:5 | a valid date with the same time of day |
| DateText.PrevDayOfNextDay | src/utils/date.ts:5 | stepping back a day from the next day returns the original date |
| DateText.NextDayChangesDayOfMonth | src/utils/date.ts:4-13 | today's and tomorrow's days of month always differ, so the "Hoje" and "Amanhã" tests never both hold |
| DateText.Clock | src/utils/date.ts:8 | five characters with ':' in the middle |
| DateText.ClockReadsBack | src/utils/date.ts:8 | hour and minute can be read back from the clock text |
| DateText.FullDate | src/utils/date.ts:15 | 17 characters: `DD/MM/YY`, then the literal ` às ` at positions 8-11, then the clock time `HH:mm` |
| DateText.FullDateReadsBack | src/utils/date.ts:15 | day, month, two-digit year, hour and minute can be read back, in that order |
| DateText.FormatDateToText | src/utils/date.ts:3-16 | "Hoje" exactly when the day of month equals today's, and then the text is exactly `Hoje, HH:mm`; "Amanhã" exactly when it equals tomorrow's, and then exactly `Amanhã, HH:mm`; otherwise the full date; every form ends in HH:mm |
| DateText.FormatDateToTextMatchesOtherMonth | src/utils/date.ts:4 | a date in another month with the same day number is shown as "Hoje" |
| DateText.FormatDateToTextByCalendarDay | src/utils/date.ts:3-16 | exactly `Hoje, HH:mm` on today's calendar day and exactly `Amanhã, HH:mm` on tomorrow's, each word appearing on no other day; otherwise the full date |
| DateText.CalendarDayAgreesNearNow | src/utils/date.ts:3-16 | on today's and tomorrow's dates the corrected form and the form as written agree |

## Findings

| source | as written | input that shows it | evidently intended | confidence | as-written member | corrected member |
|---|---|---|---|---|---|---|
| src/utils/date.ts:4-5 | only the day of month (`date()`) is compared with today's and tomorrow's | now 2025-08-04 09:00, date 2025-09-04 10:30 gives "Hoje, 10:30" | "Hoje"/"Amanhã" only on today's/tomorrow's calendar day (year, month and day) | high; not executed | DateText.FormatDateToTextMatchesOtherMonth | DateText.FormatDateToTextByCalendarDay |

## Left out

- Browser storage and JSON (`src/mocks/api/base.ts`): the key-value store is an abstract map, and an absent key reads as empty. The JSON round trip is not modelled, including `Date` values coming back as strings.
- Promises and `async`: each operation is one synchronous step. Lost updates between interleaved read-modify-write cycles are therefore not modelled.
- The key strings stand in for the constants of `src/mocks/constants.ts`, which is not modelled; the proofs use only that the eight strings differ.
- `Math.random()` and `new Date()` in the generators are inputs (`Data.Draws`): the CPF digits per member, a capacity draw 0..29 and a member-count draw 1..20 per class, and one current instant. The original reads the clock separately for each record.
- dayjs internals, time zones, daylight saving and locale are not modelled. Dates are component records, and "now" is an input. Years are natural numbers, so dayjs's `YY` for negative years is not modelled.
- TypeScript's unchecked generic casts: `ClassApi.Get` and `MemberApi.Get` return the stored `Record` as it is. The class operations require the classes collection to hold only classes (`ClassApi.AllClasses`), as the typed callers guarantee. Every writer in the model keeps that property.
- Handlers.Store.Update: requires the item to carry an id, which the source's `T extends BaseEntity` bound demands of callers.
- `addMembers` does not reject additions beyond `maxCapacity`; only the class page's `validateClassSize` (`src/app/(auth)/classes/[id]/page.tsx:113-130`) checks capacity, and the UI is not modelled.
- The UI (pages, forms, menus, date pickers, the breakpoint hook, the theme) is rendering over libraries and is not modelled.
