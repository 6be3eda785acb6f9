/** Properties of the store that relate several operations: identifiers,
    the unchecked uniqueness of usernames and emails, the seeded scenarios,
    and why the sort that `GetRecentSensorData` performs on the stored array
    cannot be seen through any of the store's reads. */
module StoreProperties {
  import opened Wrappers
  import opened Collections
  import opened Schema
  import opened Storage

  // ---------------------------------------------------------------------
  // Identifiers

  /** In a consistent store, users, projects and alerts have strictly
      increasing identifiers in creation order, and readings distinct ones. */
  lemma IdsUnique(store: MemStorage)
    requires store.Valid()
    ensures IncreasingBy(store.users, UserId)
    ensures IncreasingBy(store.projects, ProjectId)
    ensures IncreasingBy(store.alerts, AlertId)
    ensures DistinctBy(store.sensorData, ReadingId)
  {
  }

  // ---------------------------------------------------------------------
  // Declared uniqueness of usernames and emails

  ghost predicate UniqueUsernames(users: seq<User>) {
    forall i, j :: 0 <= i < j < |users| ==> users[i].username != users[j].username
  }

  ghost predicate UniqueEmails(users: seq<User>) {
    forall i, j :: 0 <= i < j < |users| ==> users[i].email != users[j].email
  }

  /** Creating a user does not keep usernames unique: an input that repeats a
      stored username is stored all the same. */
  lemma CreateUserBreaksUniqueUsernames(users: seq<User>, k: nat, input: InsertUser, id: nat, now: Timestamp)
    requires k < |users| && users[k].username == input.username
    ensures !UniqueUsernames(users + [NewUser(input, id, now)])
  {
    var after := users + [NewUser(input, id, now)];
    assert after[k] == users[k] && after[|users|].username == input.username;
  }

  /** The same holds for emails. */
  lemma CreateUserBreaksUniqueEmails(users: seq<User>, k: nat, input: InsertUser, id: nat, now: Timestamp)
    requires k < |users| && users[k].email == input.email
    ensures !UniqueEmails(users + [NewUser(input, id, now)])
  {
    var after := users + [NewUser(input, id, now)];
    assert after[k] == users[k] && after[|users|].email == input.email;
  }

  /** On a freshly seeded store, registering the seeded researcher's email
      again succeeds; the two users then share the email, and a lookup by it
      (what the login route uses) keeps answering with the seeded researcher. */
  method RepeatedEmailScenario(now: Timestamp, alertAges: seq<nat>, draws: seq<SensorDraw>,
                               input: InsertUser, later: Timestamp)
    returns (created: User, users: seq<User>, found: Option<User>)
    requires |alertAges| == |SeedAlerts|
    requires forall i :: 0 <= i < |alertAges| ==> alertAges[i] <= AlertAgeBound
    requires |draws| == SeedReadingCount
    requires forall i :: 0 <= i < |draws| ==> ValidDraw(draws[i])
    requires input.email == SampleEmail
    ensures created.id == 2 && created.email == SampleEmail && created.role == "user"
    ensures users == [SampleUser(1, now), created] && !UniqueEmails(users)
    ensures found == Some(SampleUser(1, now)) && found != Some(created)
  {
    var store := new MemStorage(now, alertAges, draws);
    created := store.CreateUser(input, later);
    users := store.users;
    found := store.GetUserByEmail(SampleEmail);
    CreateUserBreaksUniqueEmails([SampleUser(1, now)], 0, input, 2, later);
  }

  // ---------------------------------------------------------------------
  // Seeded scenarios

  /** The seed is within the values the schema documents for each column. */
  lemma SeedWithinDocumentedValues(now: Timestamp)
    ensures SampleUser(1, now).role in UserRoles
    ensures forall i :: 0 <= i < |SeedProjects| ==>
              var p := SeededProject(SeedProjects[i], i + 1, 1, now);
              p.kind in ProjectTypes && p.status in ProjectStatuses
    ensures forall i :: 0 <= i < |SeedAlerts| ==>
              SeedAlerts[i].kind in AlertTypes && SeedAlerts[i].severity in AlertSeverities
  {
  }

  /** While no alert has been deactivated -- and nothing in the store
      deactivates one -- the active alerts are all of the alerts. */
  lemma AllAlertsActive(store: MemStorage)
    requires store.Valid()
    requires forall i :: 0 <= i < |store.alerts| ==> store.alerts[i].isActive
    ensures |store.GetActiveAlerts()| == |store.alerts|
    ensures forall i :: 0 <= i < |store.alerts| ==> store.alerts[i] in store.GetActiveAlerts()
  {
    FilterAll(store.alerts, IsActive());
  }

  /** On a freshly seeded store every alert is active, so the active alerts
      are all four of them, each once, newest first. */
  method SeededAlertsScenario(now: Timestamp, alertAges: seq<nat>, draws: seq<SensorDraw>)
    returns (alerts: seq<Alert>, active: seq<Alert>)
    requires |alertAges| == |SeedAlerts|
    requires forall i :: 0 <= i < |alertAges| ==> alertAges[i] <= AlertAgeBound
    requires |draws| == SeedReadingCount
    requires forall i :: 0 <= i < |draws| ==> ValidDraw(draws[i])
    ensures |alerts| == 4 && |active| == 4
    ensures forall i :: 0 <= i < |alerts| ==> alerts[i] in active
    ensures SortedDesc(active, AlertTime) && DistinctBy(active, AlertId)
  {
    var store := new MemStorage(now, alertAges, draws);
    AllAlertsActive(store);
    alerts := store.alerts;
    active := store.GetActiveAlerts();
  }

  /** On a freshly seeded store, creating a project gives five projects; the
      projects of the new project's type gain exactly that one, which is
      active and has no participants. */
  method CreateProjectScenario(now: Timestamp, alertAges: seq<nat>, draws: seq<SensorDraw>,
                               input: InsertProject, later: Timestamp)
    returns (project: Project, all: seq<Project>, before: seq<Project>, after: seq<Project>)
    requires |alertAges| == |SeedAlerts|
    requires forall i :: 0 <= i < |alertAges| ==> alertAges[i] <= AlertAgeBound
    requires |draws| == SeedReadingCount
    requires forall i :: 0 <= i < |draws| ==> ValidDraw(draws[i])
    ensures |all| == 5 && all[4] == project && project.id == 5
    ensures after == before + [project]
    ensures project.participants == 0 && project.status == "active"
  {
    var store := new MemStorage(now, alertAges, draws);
    before := store.GetProjectsByType(input.kind);
    project := store.CreateProject(input, later);
    all := store.GetProjects();
    after := store.GetProjectsByType(input.kind);
  }

  /** A query by type with a limit of five never returns more than five
      readings, and only readings of that type. */
  method SensorByTypeScenario(now: Timestamp, alertAges: seq<nat>, draws: seq<SensorDraw>)
    returns (r: seq<SensorReading>)
    requires |alertAges| == |SeedAlerts|
    requires forall i :: 0 <= i < |alertAges| ==> alertAges[i] <= AlertAgeBound
    requires |draws| == SeedReadingCount
    requires forall i :: 0 <= i < |draws| ==> ValidDraw(draws[i])
    ensures |r| <= 5
    ensures forall x :: x in r ==> x.kind == "temperature"
  {
    var store := new MemStorage(now, alertAges, draws);
    r := store.GetSensorDataByType("temperature", 5);
  }

  // ---------------------------------------------------------------------
  // The in-place sort of the readings is unobservable

  /** The calls that read or grow the readings. */
  datatype SensorCall =
    | Recent(limit: nat)
    | ByType(t: string, limit: nat)
    | Add(data: NewSensorReading)

  /** The answers a sequence of calls receives, starting from the readings
      `data` with `nextId` the next identifier. With `sortInPlace`, `Recent`
      leaves the readings sorted, as the store does; without it, it leaves
      them in arrival order. `Add` answers with the stored reading. */
  function Replay(data: seq<SensorReading>, nextId: nat, calls: seq<SensorCall>, sortInPlace: bool)
    : (answers: seq<seq<SensorReading>>)
    ensures |answers| == |calls|
    decreases calls
  {
    if calls == [] then []
    else
      match calls[0]
      case Recent(limit) =>
        var sorted := SortDesc(data, ReadingTime);
        [Take(sorted, limit)] + Replay(if sortInPlace then sorted else data, nextId, calls[1..], sortInPlace)
      case ByType(t, limit) =>
        [ReadingsByType(data, t, limit)] +
        Replay(data, nextId, calls[1..], sortInPlace)
      case Add(d) =>
        var reading := NewReading(d, nextId);
        [[reading]] + Replay(data + [reading], nextId + 1, calls[1..], sortInPlace)
  }

  /** One sensor call on the store, answered as `Replay` with the in-place
      sort says: the answer heads the replay, and the rest of the replay
      continues from the store's new readings and counter. */
  method Step(store: MemStorage, c: SensorCall, ghost rest: seq<SensorCall>) returns (answer: seq<SensorReading>)
    requires store.Valid()
    modifies store
    ensures store.Valid()
    ensures Replay(old(store.sensorData), old(store.currentSensorId), [c] + rest, true) ==
            [answer] + Replay(store.sensorData, store.currentSensorId, rest, true)
  {
    assert ([c] + rest)[0] == c && ([c] + rest)[1..] == rest;
    match c
    case Recent(limit) =>
      answer := store.GetRecentSensorData(limit);
      assert answer == Take(store.sensorData, limit);
    case ByType(t, limit) =>
      answer := store.GetSensorDataByType(t, limit);
    case Add(d) =>
      var reading := store.AddSensorData(d);
      answer := [reading];
  }

  /** A sequence of sensor calls run on the store one after another gets
      exactly the answers `Replay` gives with the in-place sort. */
  method Run(store: MemStorage, calls: seq<SensorCall>) returns (answers: seq<seq<SensorReading>>)
    requires store.Valid()
    modifies store
    ensures store.Valid()
    ensures answers == Replay(old(store.sensorData), old(store.currentSensorId), calls, true)
  {
    ghost var data0, next0 := store.sensorData, store.currentSensorId;
    answers := [];
    for i := 0 to |calls|
      invariant store.Valid()
      invariant answers + Replay(store.sensorData, store.currentSensorId, calls[i..], true) ==
                Replay(data0, next0, calls, true)
    {
      assert calls[i..] == [calls[i]] + calls[i + 1..];
      var answer := Step(store, calls[i], calls[i + 1..]);
      answers := answers + [answer];
    }
    assert calls[|calls|..] == [];
  }

  /** So the store, which sorts its readings in place, answers any sequence of
      sensor calls exactly as a store that keeps them in arrival order would. */
  method RunSeesNoReordering(store: MemStorage, calls: seq<SensorCall>)
    returns (answers: seq<seq<SensorReading>>)
    requires store.Valid()
    modifies store
    ensures store.Valid()
    ensures answers == Replay(old(store.sensorData), old(store.currentSensorId), calls, false)
  {
    ghost var data0, next0 := store.sensorData, store.currentSensorId;
    answers := Run(store, calls);
    InPlaceSortUnobservableFromStart(data0, next0, calls);
  }

  /** Readings with the same tie order get the same answer from every query. */
  lemma QueriesSeeOnlyTieOrder(a: seq<SensorReading>, b: seq<SensorReading>, t: string, limit: nat)
    requires SameTieOrder(a, b, ReadingTime)
    ensures SortDesc(a, ReadingTime) == SortDesc(b, ReadingTime)
    ensures SortDesc(Filter(a, ReadingOfKind(t)), ReadingTime) ==
            SortDesc(Filter(b, ReadingOfKind(t)), ReadingTime)
    ensures Take(SortDesc(a, ReadingTime), limit) == Take(SortDesc(b, ReadingTime), limit)
    ensures ReadingsByType(a, t, limit) == ReadingsByType(b, t, limit)
  {
    SortDescTieOrderDetermined(a, b, ReadingTime);
    FilterSortDesc(a, ReadingOfKind(t), ReadingTime);
    FilterSortDesc(b, ReadingOfKind(t), ReadingTime);
  }

  /** Whatever sequence of calls follows, a store that sorts its readings in
      place answers exactly as one that never reorders them: the sort is
      stable, so the stored order changes only in ways no query can see. */
  lemma {:induction false} InPlaceSortUnobservable(a: seq<SensorReading>, b: seq<SensorReading>,
                                                   nextId: nat, calls: seq<SensorCall>)
    requires SameTieOrder(a, b, ReadingTime)
    ensures Replay(a, nextId, calls, true) == Replay(b, nextId, calls, false)
    decreases calls
  {
    if calls != [] {
      match calls[0]
      case Recent(limit) =>
        SortDescTieOrderDetermined(a, b, ReadingTime);
        var sorted := SortDesc(a, ReadingTime);
        SortDescSameTieOrder(a, ReadingTime);
        SameTieOrderTrans(sorted, a, b, ReadingTime);
        InPlaceSortUnobservable(sorted, b, nextId, calls[1..]);
      case ByType(t, limit) =>
        QueriesSeeOnlyTieOrder(a, b, t, limit);
        InPlaceSortUnobservable(a, b, nextId, calls[1..]);
      case Add(d) =>
        var reading := NewReading(d, nextId);
        SameTieOrderAppend(a, b, [reading], ReadingTime);
        InPlaceSortUnobservable(a + [reading], b + [reading], nextId + 1, calls[1..]);
    }
  }

  /** In particular, starting from the same readings. */
  lemma InPlaceSortUnobservableFromStart(data: seq<SensorReading>, nextId: nat, calls: seq<SensorCall>)
    ensures Replay(data, nextId, calls, true) == Replay(data, nextId, calls, false)
  {
    InPlaceSortUnobservable(data, data, nextId, calls);
  }
}
