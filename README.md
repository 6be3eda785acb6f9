# In-memory conservation data store, modelled in Dafny

The server of this conservation platform keeps its data in `MemStorage`, an
in-memory store. The store holds three tables: users, research projects and
environmental alerts. Each table is a map from an auto-incremented identifier
to a record. The store also keeps one array of sensor readings and four
identifier counters. When constructed, it seeds one researcher, four projects
led by that researcher, four active alerts from the last day and a hundred
random readings from the last week. Its operations fall into three groups:

- lookups by identifier, username or email;
- filters by type or by `isActive`, then a newest-first sort and a cut to a
  `limit`;
- creates, which copy the caller's fields, take the next identifier and force
  some columns to their defaults.

The record shapes, the column defaults and the field subsets a caller may
supply come from the shared schema.

The model has five modules:

- `Wrappers` (`wrappers.dfy`): `Option`.
- `Collections` (`collections.dfy`): the array operations the store uses.
  These are `filter`, `find`, `slice(0, n)` and the stable
  `sort((a, b) => key(b) - key(a))`. They are modelled as functions on
  sequences, with lemmas about membership, order, stability and distinct
  identifiers.
- `Schema` (`schema.dfy`): the records, insert inputs, defaults, documented
  value sets and insert projections.
- `Storage` (`storage.dfy`): the class `MemStorage`. Its fields are the three
  tables and the reading array, each a `seq` in creation order or array
  order, plus the counters. Its methods change them under `modifies`
  clauses. Its read-only queries are functions with `reads this`.
- `StoreProperties` (`store_properties.dfy`): properties that span several
  operations and scenarios on a freshly seeded store. It also holds a
  call-replay function for the three sensor calls, a proof that the store's
  own methods answer as that replay does, and a proof that the replay gives
  the same answers whether or not the readings are sorted in place. Together
  these show that the in-place sort cannot be observed through the store's
  reads.

Each map is a sequence because keys are always fresh counter values and
nothing is ever deleted. A map's iteration order is therefore creation order,
which is also identifier order. `getRecentSensorData` sorts the stored array
itself, so the model's method reassigns `sensorData` to the sorted sequence.
`getSensorDataByType` filters into a fresh array first, so it is a function
that changes nothing.

The clock and the random generator are parameters. Each create takes `now`.
The constructor takes `now`, the age of each seeded alert and one
`SensorDraw` per seeded reading. A `SensorDraw` holds the random sensor-id
suffix, type index, formatted value, position and age. A timestamp is an
integer number of milliseconds. The column `type` is called `kind`.

## Model

| member | source | states |
|---|---|---|
| Storage.NewUser | server/storage.ts:121-129 | the stored user carries exactly the caller's username, email, password and institution (its `PickUser` projection is the input; none stays none); its id and creation time are the given ones; role is "user" and isResearcher is false, whatever the input |
| Storage.NewProject | server/storage.ts:142-151 | the stored project carries exactly the caller's name, description and type (its `PickProject` projection is the input); status is "active", participants 0 and data absent; the lead researcher is the one supplied, or absent |
| Storage.NewAlert | server/storage.ts:168-174 | the stored alert carries exactly the caller's five fields (its `PickAlert` projection is the input), and is active |
| Storage.NewReading | server/storage.ts:192-196 | the stored reading is the caller's reading with the next identifier added (`OmitId` of it is the input) |
| Storage.ReadingsOfKindNewest | server/storage.ts:185-190 | `ReadingsByType`, the filter, sort and cut that `getSensorDataByType` runs, yields stored readings of that type only, newest first, none older than a reading of that type left out |
| Storage.UserAppended | server/storage.ts:109-132 | after appending a user numbered one past the last, identifiers are still 1, 2, 3, ...; a lookup by the new identifier finds the new user; a lookup by its email finds it exactly when no earlier user has that email |
| Storage.MemStorage.constructor | server/storage.ts:36-107 | the seeded store: the one sample researcher with id 1; the four project rows with ids 1-4 led by user 1; the four alerts with ids 1-4 created `alertAges[i]` ms before now; the hundred readings with ids 1-100 built from the draws; the next ids are 2, 5, 5 and 101; the store invariant holds |
| Storage.MemStorage.SeedProjectRows | server/storage.ts:55-72 | the loop stores the four project rows in order with ids 1-4, status active, the given lead researcher and their own participant counts |
| Storage.MemStorage.SeedAlertRows | server/storage.ts:74-90 | the loop stores the four alert rows in order with ids 1-4, active, each created its own age before now |
| Storage.MemStorage.SeedReadings | server/storage.ts:92-106 | the loop pushes a hundred readings with ids 1-100, each sensor id prefixed `SENSOR_`, of one of the six sensor types, taken up to a week before now |
| Storage.MemStorage.GetUser | server/storage.ts:109-111 | a user is found exactly when the id was handed out by the seed or a create; the user found is the one with that id |
| Storage.MemStorage.GetUserByUsername | server/storage.ts:113-115 | nothing is found exactly when no user has that username; otherwise the user found has it and is the earliest created that does |
| Storage.MemStorage.GetUserByEmail | server/storage.ts:117-119 | the same for emails |
| Storage.MemStorage.CreateUser | server/storage.ts:121-132 | the new user is the record above with the counter's value as id, appended, with the counter then incremented; its id is above every earlier id; `getUser(id)` then returns it; `getUserByEmail` returns it exactly when the email was not taken; the other tables and counters are unchanged |
| Storage.MemStorage.GetProjects | server/storage.ts:134-136 | exactly the stored projects, each once, with ids strictly increasing, so in creation order; their ids are 1, 2, 3, ... up to one below the counter |
| Storage.MemStorage.GetProjectsByType | server/storage.ts:138-140 | exactly the stored projects of that type, with ids strictly increasing, so each appears once in creation order |
| Storage.MemStorage.CreateProject | server/storage.ts:142-154 | the new project is appended under the counter's value, and the counter is incremented; the projects of its type gain exactly that project at the end; every other type's list is unchanged; so are the other tables and counters |
| Storage.MemStorage.GetActiveAlerts | server/storage.ts:156-160 | exactly the stored active alerts, each once, with creation times non-increasing |
| Storage.MemStorage.GetAlertsByType | server/storage.ts:162-166 | exactly the stored alerts of that type that are active, each once, with creation times non-increasing |
| Storage.MemStorage.CreateAlert | server/storage.ts:168-177 | the new alert is appended under the counter's value and is then listed both by `getActiveAlerts` and by `getAlertsByType` of its type; nothing else changes |
| Storage.MemStorage.GetRecentSensorData | server/storage.ts:179-183 | the stored array becomes its stable newest-first sort, a permutation of what it held; the answer is its first min(limit, count) readings, and no reading left out is newer than one returned; nothing else changes |
| Storage.MemStorage.GetSensorDataByType | server/storage.ts:185-190 | min(limit, number of readings of that type) readings, all stored and of that type, each once, newest first, none older than a reading of that type left out; the stored array is only read |
| Storage.MemStorage.AddSensorData | server/storage.ts:192-199 | the reading is appended at the end under the counter's value, whatever its timestamp, and the counter is incremented; its id is above every stored reading's; nothing else changes |
| Collections.Filter | server/storage.ts:138-140 | `Array.prototype.filter`: an element is kept exactly when it is in the input and meets the condition; the result is no longer than the input |
| Collections.Find | server/storage.ts:113-119 | `Array.prototype.find`: nothing is found exactly when no element meets the condition; otherwise the result is the element at the first index that does |
| Collections.FindAppend | server/storage.ts:113-132 | searching after an append finds what was found before, or else the appended element if it matches |
| Collections.Take | server/storage.ts:182 | `slice(0, n)`: the first min(n, length) elements |
| Collections.NumberedAppend | server/storage.ts:121-131 | appending the element numbered one past the last keeps the numbering 1, 2, 3, ..., and the new id is above every earlier one |
| Collections.FilterDistinct | server/storage.ts:156-166 | filtering keeps identifiers distinct |
| Collections.FilterIncreasing | server/storage.ts:138-140 | filtering keeps identifiers strictly increasing |
| Collections.TakeSortedNewest | server/storage.ts:180-182 | in a newest-first sequence, an element of the first n is no older than any element after them |
| Collections.NewestPrefix | server/storage.ts:180-182 | sorting newest first and cutting to n yields a newest-first selection of the input, none older than an element left out |
| Collections.InsertDesc | server/storage.ts:159 | one step of the stable sort adds exactly the one element, as a multiset |
| Collections.InsertDescMembers | server/storage.ts:159 | one step of the sort yields the new element and the old ones, nothing else |
| Collections.SortedCons | server/storage.ts:159 | an element no older than any element of a newest-first sequence may head it |
| Collections.SortedHead | server/storage.ts:159 | the head of a newest-first sequence is no older than any of its elements |
| Collections.InsertDescSorted | server/storage.ts:159 | one step of the sort keeps a newest-first sequence newest first |
| Collections.SortDesc | server/storage.ts:159 | the sort with comparator `key(b) - key(a)`: the result is a permutation of the input, newest first |
| Collections.SortDescMembers | server/storage.ts:159 | sorting neither adds nor drops an element |
| Collections.FilterAppend | server/storage.ts:138-140 | filtering distributes over concatenation |
| Collections.SortDescOfSorted | server/storage.ts:181 | sorting a sequence that is already newest first leaves it as it is |
| Collections.SortDescIdempotent | server/storage.ts:181 | sorting the stored array a second time changes nothing |
| Collections.FilterCons | server/storage.ts:187 | filtering a sequence with a known head keeps the head exactly when it meets the condition |
| Collections.FilterInsertDesc | server/storage.ts:187-188 | filtering after one step of the sort is that step on the filtered sequence |
| Collections.FilterSortDesc | server/storage.ts:187-188 | filtering then sorting equals sorting then filtering |
| Collections.SortDescStable | server/storage.ts:181 | the sort is stable: the elements that share a timestamp keep their input order |
| Collections.DistinctCons | server/storage.ts:156-166 | an element whose id is new may head a sequence of distinct ids |
| Collections.InsertDescDistinct | server/storage.ts:156-166 | one step of the sort keeps ids distinct |
| Collections.SortDescDistinct | server/storage.ts:156-166 | sorting keeps ids distinct, so a sorted listing shows each record once |
| Collections.SameTieOrderTail | server/storage.ts:181 | two sequences with the same elements and tie order, and equal heads, keep that relation after dropping the heads |
| Collections.SortedUnique | server/storage.ts:181 | two newest-first sequences with the same tie order are equal, so a stable sort has exactly one possible result |
| Collections.SameTieOrderMembers | server/storage.ts:181 | sequences with the same tie order have the same elements |
| Collections.FilterHead | server/storage.ts:181 | when the input's first element meets the condition, the filter result starts with it |
| Collections.SortDescSameTieOrder | server/storage.ts:181 | sorting keeps the tie order |
| Collections.SortDescTieOrderDetermined | server/storage.ts:181 | sequences with the same tie order sort to the same result |
| Collections.SameTieOrderAppend | server/storage.ts:197 | appending the same readings to two sequences with the same tie order keeps that relation |
| Collections.SameTieOrderTrans | server/storage.ts:181 | having the same tie order is transitive |
| StoreProperties.IdsUnique | server/storage.ts:31-34 | in every consistent store, user, project and alert ids strictly increase in creation order, and reading ids are distinct |
| StoreProperties.CreateUserBreaksUniqueUsernames | shared/schema.ts:7 | username uniqueness is declared but `createUser` stores a repeated username all the same, so it is not preserved |
| StoreProperties.CreateUserBreaksUniqueEmails | shared/schema.ts:8 | the same for emails |
| StoreProperties.RepeatedEmailScenario | server/storage.ts:117-132 | on a seeded store, registering the sample researcher's email again succeeds with id 2; the two users share an email; a lookup by it still returns the sample researcher |
| StoreProperties.SeedWithinDocumentedValues | shared/schema.ts:10-35 | the seeded user's role, every seeded project's type and status, and every seeded alert's type and severity are among the values the schema documents |
| Collections.FilterAll | server/storage.ts:158 | filtering by a condition every element meets keeps the sequence as it is |
| StoreProperties.AllAlertsActive | server/storage.ts:156-160 | while every alert is active, the active alerts are all of the alerts |
| StoreProperties.SeededAlertsScenario | server/storage.ts:74-90 | on a seeded store, `getActiveAlerts` lists all four seeded alerts, each once, newest first |
| StoreProperties.CreateProjectScenario | server/storage.ts:142-154 | on a seeded store, a created project gets id 5 and is fifth of `getProjects`; it is appended to its type's list, active and with no participants |
| StoreProperties.SensorByTypeScenario | server/storage.ts:185-190 | on a seeded store, a query by type with limit 5 returns at most five readings, all of that type |
| StoreProperties.Replay | server/storage.ts:179-199 | the answers to a sequence of sensor calls, one per call, with or without the in-place sort; `Step` and `Run` prove that the store's methods give the answers with it |
| StoreProperties.Step | server/storage.ts:179-199 | one sensor call made on the store (`getRecentSensorData`, `getSensorDataByType` or `addSensorData`) gets the answer that heads the replay, and the replay of the remaining calls continues from the store's new readings and counter |
| StoreProperties.Run | server/storage.ts:179-199 | any sequence of sensor calls made on the store one after another gets exactly the replay's answers with the in-place sort |
| StoreProperties.RunSeesNoReordering | server/storage.ts:179-199 | any sequence of sensor calls made on the store gets exactly the answers of a store that keeps its readings in arrival order |
| StoreProperties.QueriesSeeOnlyTieOrder | server/storage.ts:179-190 | two arrays with the same elements and tie order sort to the same sequence, and filter-then-sort to the same sequence; so `getRecentSensorData` and `getSensorDataByType` give the same answer on both for every limit |
| StoreProperties.InPlaceSortUnobservable | server/storage.ts:179-199 | for the replay: after any sequence of calls, sorting the readings in place gives the same answers as never reordering them, starting from readings with the same tie order |
| StoreProperties.InPlaceSortUnobservableFromStart | server/storage.ts:179-199 | the same for the replay, starting from the same readings |

## Left out

- The client (React pages and components), the HTTP routes, request
  validation, the stub login and the hard-coded statistics are not part of
  this model.
- The `async` wrappers are left out. Each store method is synchronous and
  runs to completion.
- The clock and `Math.random` are parameters. The seed calls `new Date()` once
  per record; the model uses one `now` for the whole seed.
- Identifiers, counters and timestamps are unbounded integers. In the
  TypeScript store they are numbers: a counter's `++` is exact only up to
  2^53, and a `Date` holds only times within 8.64e15 ms of the epoch.
- Floating point is not modelled. A position is a pair of reals that is never
  computed with. A reading's value is its formatted string.
- The behaviour of the schema and validation libraries is not modelled. Only
  the resulting field sets and defaults are.
- A create spreads the caller's object, so extra keys would be copied too.
  The input types here carry exactly the declared fields.
- Storage.MemStorage.AddSensorData: the timestamp is never null. The column
  is nullable; with a null timestamp, the comparator of a later sort would
  call `getTime` on null and throw a `TypeError`.
- Storage.MemStorage.GetRecentSensorData: `limit` is a natural number. A
  negative or non-numeric limit, which `slice` would also accept, is not
  modelled.
- Storage.MemStorage.GetSensorDataByType: the same restriction on `limit`.
  The contract also gives the answer's length, its order and its newest-ness,
  not its exact sequence.
- Storage.MemStorage.GetUser: the map lookup is modelled as a search by
  identifier over the users in creation order.
- Storage.MemStorage.constructor: the order of the hundred readings is the
  order of the draws. The random choice of sensor type is given as an index
  into the six types.
- Ties between equal timestamps follow the language's stable sort. Elements
  with equal keys keep their current order; the model does not leave this
  open.
- Declared uniqueness of username and email is not enforced. The model stores
  duplicates as the source does, and proves that uniqueness can be lost.
