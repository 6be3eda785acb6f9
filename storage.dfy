/** The in-memory store: three tables kept in creation order, one list of
    sensor readings, four identifier counters, a fixed seed, and the lookup,
    filter, sort-and-truncate and create operations over them.

    The clock (`new Date()`) and the random seed values are parameters. */
module Storage {
  import opened Wrappers
  import opened Collections
  import opened Schema

  // ---------------------------------------------------------------------
  // Keys and selectors the queries use

  function UserId(u: User): int { u.id }
  function ProjectId(p: Project): int { p.id }
  function AlertId(a: Alert): int { a.id }
  function ReadingId(r: SensorReading): int { r.id }

  /** The alert sort key, `createdAt.getTime()`. */
  function AlertTime(a: Alert): int { a.createdAt }

  /** The reading sort key, `timestamp.getTime()`. */
  function ReadingTime(r: SensorReading): int { r.timestamp }

  function ProjectOfKind(t: string): Project -> bool {
    (p: Project) => p.kind == t
  }

  function IsActive(): Alert -> bool {
    (a: Alert) => a.isActive
  }

  function ActiveAlertOfKind(t: string): Alert -> bool {
    (a: Alert) => a.kind == t && a.isActive
  }

  function UserIdIs(id: int): User -> bool {
    (u: User) => u.id == id
  }

  function UsernameIs(username: string): User -> bool {
    (u: User) => u.username == username
  }

  function EmailIs(email: string): User -> bool {
    (u: User) => u.email == email
  }

  function ReadingOfKind(t: string): SensorReading -> bool {
    (r: SensorReading) => r.kind == t
  }

  /** Default `limit` of the two sensor queries. */
  const RecentLimit: nat := 50
  const ByTypeLimit: nat := 20

  // ---------------------------------------------------------------------
  // The records the create operations build

  /** The user `createUser` stores: the caller's fields, the next identifier,
      role and researcher flag forced to their defaults, no institution unless
      given, created now. */
  function NewUser(input: InsertUser, id: nat, now: Timestamp): (u: User)
    ensures PickUser(u) == input
    ensures u.id == id && u.createdAt == now
    ensures u.role == DefaultRole && u.isResearcher == DefaultIsResearcher
    ensures u.role in UserRoles
  {
    User(id, input.username, input.email, input.password, "user",
         input.institution, false, now)
  }

  /** The project `createProject` stores: status, participants and data
      forced, the lead researcher only when supplied. */
  function NewProject(input: InsertProject, leadResearcherId: Option<int>, id: nat, now: Timestamp): (p: Project)
    ensures PickProject(p) == input
    ensures p.id == id && p.createdAt == now
    ensures p.status == DefaultStatus && p.participants == DefaultParticipants
    ensures p.status in ProjectStatuses
    ensures p.data == None
    ensures p.leadResearcherId == leadResearcherId
  {
    Project(id, input.name, input.description, input.kind, "active", 0,
            leadResearcherId, None, now)
  }

  /** The alert `createAlert` stores: always active. */
  function NewAlert(input: InsertAlert, id: nat, now: Timestamp): (a: Alert)
    ensures PickAlert(a) == input
    ensures a.id == id && a.createdAt == now
    ensures a.isActive == DefaultIsActive
  {
    Alert(id, input.kind, input.severity, input.title, input.description,
          input.location, true, now)
  }

  /** The reading `addSensorData` stores: the caller's reading under the next
      identifier. */
  function NewReading(data: NewSensorReading, id: nat): (r: SensorReading)
    ensures OmitId(r) == data && r.id == id
  {
    SensorReading(id, data.sensorId, data.kind, data.value, data.location, data.timestamp)
  }

  // ---------------------------------------------------------------------
  // The seed

  const SampleUsername: string := "dr.sarah.chen"
  const SampleEmail: string := "s.chen@conservation.org"

  /** The one seeded user: a researcher, unlike every user created later. */
  function SampleUser(id: nat, now: Timestamp): User {
    User(id, SampleUsername, SampleEmail, "hashed_password", "researcher",
         Some("Stanford Marine Lab"), true, now)
  }

  /** A seeded project row: the insertable fields plus a participant count. */
  datatype SeedProject = SeedProject(name: string, description: string, kind: string, participants: int)

  const SeedProjects: seq<SeedProject> := [
    SeedProject("Amazon Basin Analysis", "Real-time deforestation monitoring in the Amazon rainforest", "forest", 12),
    SeedProject("Coral Reef Monitoring", "Great Barrier Reef health assessment using underwater sensors", "marine", 8),
    SeedProject("Arctic Ice Tracking", "Climate change impact on polar ice sheets", "climate", 15),
    SeedProject("Wildlife Migration", "Tracking migratory patterns of endangered species", "wildlife", 20)
  ]

  const SeedAlerts: seq<InsertAlert> := [
    InsertAlert("forest", "high", "Deforestation Alert", "Illegal logging detected in Amazon Basin", "Amazon, Brazil"),
    InsertAlert("marine", "medium", "Coral Bleaching", "Temperature anomaly causing coral stress", "Great Barrier Reef, Australia"),
    InsertAlert("climate", "critical", "Temperature Spike", "Record high temperatures in Arctic region", "Greenland"),
    InsertAlert("wildlife", "high", "Migration Disruption", "Unusual migration patterns detected", "Serengeti, Tanzania")
  ]

  /** The sensor types a seeded reading draws from, in the seed's order. */
  const SensorTypes: seq<string> := ["temperature", "humidity", "co2", "wildlife_count", "forest_coverage", "ocean_ph"]

  /** Number of seeded readings. */
  const SeedReadingCount: nat := 100

  /** How far back a seeded alert (one day) or reading (one week) may lie, in
      milliseconds. */
  const AlertAgeBound: nat := 24 * 60 * 60 * 1000
  const ReadingAgeBound: nat := 7 * 24 * 60 * 60 * 1000

  /** The random values behind one seeded reading: the sensor-id suffix, the
      index into `SensorTypes`, the formatted value, the position, and how many
      milliseconds before `now` it was taken. */
  datatype SensorDraw = SensorDraw(suffix: string, typeIndex: nat, value: string, lat: real, lng: real, age: nat)

  predicate ValidDraw(d: SensorDraw) {
    d.typeIndex < |SensorTypes| && d.age <= ReadingAgeBound
  }

  function SeededProject(row: SeedProject, id: nat, leadResearcherId: nat, now: Timestamp): Project {
    Project(id, row.name, row.description, row.kind, "active", row.participants,
            Some(leadResearcherId), None, now)
  }

  function SeededReading(d: SensorDraw, id: nat, now: Timestamp): SensorReading
    requires ValidDraw(d)
  {
    SensorReading(id, "SENSOR_" + d.suffix, SensorTypes[d.typeIndex], d.value,
                  Some(GeoPoint(d.lat, d.lng)), now - d.age)
  }

  /** `data.filter(r => r.type === t).sort(newest first).slice(0, limit)`:
      the query `getSensorDataByType` runs on the readings. */
  function ReadingsByType(data: seq<SensorReading>, t: string, limit: nat): seq<SensorReading> {
    Take(SortDesc(Filter(data, ReadingOfKind(t)), ReadingTime), limit)
  }

  /** The readings of type `t`, sorted newest first and cut to `limit`, are
      of type `t`, newest first, and the newest of that type. */
  lemma ReadingsOfKindNewest(data: seq<SensorReading>, t: string, limit: nat)
    ensures var r := ReadingsByType(data, t, limit);
            (forall x :: x in r ==> x in data && x.kind == t) &&
            SortedDesc(r, ReadingTime) &&
            forall x, y :: x in r && y in data && y.kind == t && y !in r ==> x.timestamp >= y.timestamp
  {
    var f := Filter(data, ReadingOfKind(t));
    NewestPrefix(f, limit, ReadingTime);
    var r := Take(SortDesc(f, ReadingTime), limit);
    forall x, y | x in r && y in data && y.kind == t && y !in r
      ensures x.timestamp >= y.timestamp
    {
      assert y in f;
    }
  }

  /** Appending a user under the next identifier keeps identifiers equal to
      positions plus one; the new user is found under its identifier, and
      under its email exactly when no earlier user has that email. */
  lemma UserAppended(before: seq<User>, user: User)
    requires NumberedFromOne(before, UserId) && user.id == |before| + 1
    ensures NumberedFromOne(before + [user], UserId)
    ensures forall v :: v in before ==> v.id < user.id
    ensures Find(before + [user], UserIdIs(user.id)) == Some(user)
    ensures Find(before + [user], EmailIs(user.email)) == Some(user) <==>
            forall v :: v in before ==> v.email != user.email
  {
    NumberedAppend(before, user, UserId);
    FindAppend(before, user, UserIdIs(user.id));
    FindAppend(before, user, EmailIs(user.email));
    var found := Find(before, EmailIs(user.email));
    if found.Some? {
      var i :| 0 <= i < |before| && before[i] == found.value;
    }
  }

  // ---------------------------------------------------------------------
  // The store

  class MemStorage {
    /** The `users`, `projects` and `alerts` maps, as their values in
        iteration order: keys are fresh counter values and nothing is ever
        deleted, so that order is creation order. */
    var users: seq<User>
    var projects: seq<Project>
    var alerts: seq<Alert>
    /** The readings array, in its current order. */
    var sensorData: seq<SensorReading>
    /** The identifier the next create of each kind hands out. */
    var currentUserId: nat
    var currentProjectId: nat
    var currentAlertId: nat
    var currentSensorId: nat

    /** The store's invariant: users, projects and alerts carry identifiers
        1, 2, 3, ... in creation order and their counters are one past the
        last; readings carry distinct identifiers below their counter, one
        for each value handed out. */
    ghost predicate Valid()
      reads this
    {
      currentUserId == |users| + 1 && NumberedFromOne(users, UserId) &&
      currentProjectId == |projects| + 1 && NumberedFromOne(projects, ProjectId) &&
      currentAlertId == |alerts| + 1 && NumberedFromOne(alerts, AlertId) &&
      currentSensorId == |sensorData| + 1 &&
      (forall r :: r in sensorData ==> 1 <= r.id < currentSensorId) &&
      DistinctBy(sensorData, ReadingId)
    }

    /** A fresh store holding the seed: one researcher, four projects led by
        that researcher, four active alerts from the last day and a hundred
        readings from the last week. */
    constructor (now: Timestamp, alertAges: seq<nat>, draws: seq<SensorDraw>)
      requires |alertAges| == |SeedAlerts|
      requires forall i :: 0 <= i < |alertAges| ==> alertAges[i] <= AlertAgeBound
      requires |draws| == SeedReadingCount
      requires forall i :: 0 <= i < |draws| ==> ValidDraw(draws[i])
      ensures Valid()
      ensures users == [SampleUser(1, now)]
      ensures |projects| == |SeedProjects| &&
              forall i :: 0 <= i < |projects| ==> projects[i] == SeededProject(SeedProjects[i], i + 1, 1, now)
      ensures |alerts| == |SeedAlerts| &&
              forall i :: 0 <= i < |alerts| ==> alerts[i] == NewAlert(SeedAlerts[i], i + 1, now - alertAges[i])
      ensures |sensorData| == |draws| &&
              forall i :: 0 <= i < |sensorData| ==> sensorData[i] == SeededReading(draws[i], i + 1, now)
      ensures currentUserId == 2 && currentProjectId == 5 && currentAlertId == 5 && currentSensorId == 101
    {
      users, projects, alerts, sensorData := [], [], [], [];
      currentUserId, currentProjectId, currentAlertId, currentSensorId := 1, 1, 1, 1;
      new;
      var sampleUser := SampleUser(currentUserId, now);
      currentUserId := currentUserId + 1;
      users := users + [sampleUser];
      SeedProjectRows(sampleUser.id, now);
      SeedAlertRows(now, alertAges);
      SeedReadings(now, draws);
    }

    /** The seeded projects, led by the seeded user, under the next
        identifiers. */
    method SeedProjectRows(leadResearcherId: nat, now: Timestamp)
      requires projects == [] && currentProjectId == 1
      modifies this`projects, this`currentProjectId
      ensures |projects| == |SeedProjects| && currentProjectId == |SeedProjects| + 1
      ensures forall i :: 0 <= i < |projects| ==>
                projects[i] == SeededProject(SeedProjects[i], i + 1, leadResearcherId, now)
    {
      for i := 0 to |SeedProjects|
        invariant currentProjectId == i + 1 && |projects| == i
        invariant forall k :: 0 <= k < i ==>
                    projects[k] == SeededProject(SeedProjects[k], k + 1, leadResearcherId, now)
      {
        var project := SeededProject(SeedProjects[i], currentProjectId, leadResearcherId, now);
        currentProjectId := currentProjectId + 1;
        projects := projects + [project];
      }
    }

    /** The seeded alerts, each `alertAges[i]` milliseconds old, under the
        next identifiers. */
    method SeedAlertRows(now: Timestamp, alertAges: seq<nat>)
      requires |alertAges| == |SeedAlerts|
      requires alerts == [] && currentAlertId == 1
      modifies this`alerts, this`currentAlertId
      ensures |alerts| == |SeedAlerts| && currentAlertId == |SeedAlerts| + 1
      ensures forall i :: 0 <= i < |alerts| ==>
                alerts[i] == NewAlert(SeedAlerts[i], i + 1, now - alertAges[i])
    {
      for i := 0 to |SeedAlerts|
        invariant currentAlertId == i + 1 && |alerts| == i
        invariant forall k :: 0 <= k < i ==> alerts[k] == NewAlert(SeedAlerts[k], k + 1, now - alertAges[k])
      {
        var alert := NewAlert(SeedAlerts[i], currentAlertId, now - alertAges[i]);
        currentAlertId := currentAlertId + 1;
        alerts := alerts + [alert];
      }
    }

    /** The hundred seeded readings, pushed one by one under the next
        identifiers. */
    method SeedReadings(now: Timestamp, draws: seq<SensorDraw>)
      requires |draws| == SeedReadingCount
      requires forall i :: 0 <= i < |draws| ==> ValidDraw(draws[i])
      requires sensorData == [] && currentSensorId == 1
      modifies this`sensorData, this`currentSensorId
      ensures |sensorData| == |draws| && currentSensorId == |draws| + 1
      ensures forall i :: 0 <= i < |sensorData| ==> sensorData[i] == SeededReading(draws[i], i + 1, now)
    {
      for i := 0 to SeedReadingCount
        invariant currentSensorId == i + 1 && |sensorData| == i
        invariant forall k :: 0 <= k < i ==> sensorData[k] == SeededReading(draws[k], k + 1, now)
      {
        var reading := SeededReading(draws[i], currentSensorId, now);
        currentSensorId := currentSensorId + 1;
        sensorData := sensorData + [reading];
      }
    }

    // -------------------------------------------------------------------
    // Users

    /** `users.get(id)`: the user with that identifier, if one was created. */
    function GetUser(id: int): (r: Option<User>)
      reads this
      requires Valid()
      ensures r.Some? <==> 1 <= id < currentUserId
      ensures r.Some? ==> r.value == users[id - 1] && r.value.id == id
    {
      var r := Find(users, UserIdIs(id));
      assert 1 <= id < currentUserId ==> users[id - 1].id == id;
      r
    }

    /** The first user, in creation order, with that username. */
    function GetUserByUsername(username: string): (r: Option<User>)
      reads this
      requires Valid()
      ensures r.None? <==> forall i :: 0 <= i < |users| ==> users[i].username != username
      ensures r.Some? ==> r.value in users && r.value.username == username &&
                          forall i :: 0 <= i < |users| && users[i].username == username ==> r.value.id <= users[i].id
    {
      Find(users, UsernameIs(username))
    }

    /** The first user, in creation order, with that email. */
    function GetUserByEmail(email: string): (r: Option<User>)
      reads this
      requires Valid()
      ensures r.None? <==> forall i :: 0 <= i < |users| ==> users[i].email != email
      ensures r.Some? ==> r.value in users && r.value.email == email &&
                          forall i :: 0 <= i < |users| && users[i].email == email ==> r.value.id <= users[i].id
    {
      Find(users, EmailIs(email))
    }

    /** Stores a new user under the next identifier. The declared uniqueness
        of username and email is not checked: a repeated email is stored, and
        lookups by it keep answering with the older user. */
    method CreateUser(input: InsertUser, now: Timestamp) returns (user: User)
      requires Valid()
      modifies this`users, this`currentUserId
      ensures Valid()
      ensures user == NewUser(input, old(currentUserId), now)
      ensures users == old(users) + [user] && currentUserId == old(currentUserId) + 1
      ensures forall v :: v in old(users) ==> v.id < user.id
      ensures GetUser(user.id) == Some(user)
      ensures GetUserByEmail(input.email) == Some(user) <==>
              forall v :: v in old(users) ==> v.email != input.email
      ensures projects == old(projects) && alerts == old(alerts) && sensorData == old(sensorData)
      ensures currentProjectId == old(currentProjectId) && currentAlertId == old(currentAlertId) &&
              currentSensorId == old(currentSensorId)
    {
      var before := users;
      user := NewUser(input, currentUserId, now);
      NumberedAppend(before, user, UserId);
      currentUserId := currentUserId + 1;
      users := before + [user];
      assert GetUser(user.id) == Some(user) by {
        assert users[user.id - 1] == user;
      }
      assert GetUserByEmail(input.email) == Some(user) <==>
             forall v :: v in before ==> v.email != input.email by {
        UserAppended(before, user);
      }
    }

    // -------------------------------------------------------------------
    // Projects

    /** `Array.from(projects.values())`: every project, in creation order. */
    function GetProjects(): (r: seq<Project>)
      reads this
      requires Valid()
      ensures |r| == currentProjectId - 1
      ensures forall i :: 0 <= i < |r| ==> r[i].id == i + 1
      ensures forall p :: p in r <==> p in projects
      ensures IncreasingBy(r, ProjectId)
    {
      projects
    }

    /** The projects of one type, each once, in creation order. */
    function GetProjectsByType(t: string): (r: seq<Project>)
      reads this
      requires Valid()
      ensures forall p :: p in r <==> p in projects && p.kind == t
      ensures IncreasingBy(r, ProjectId)
    {
      FilterIncreasing(projects, ProjectOfKind(t), ProjectId);
      Filter(projects, ProjectOfKind(t))
    }

    /** Stores a new project; nothing else changes. */
    method CreateProject(input: InsertProject, now: Timestamp, leadResearcherId: Option<int> := None)
      returns (project: Project)
      requires Valid()
      modifies this
      ensures Valid()
      ensures project == NewProject(input, leadResearcherId, old(currentProjectId), now)
      ensures projects == old(projects) + [project] && currentProjectId == old(currentProjectId) + 1
      ensures forall p :: p in old(projects) ==> p.id < project.id
      ensures GetProjectsByType(input.kind) == old(GetProjectsByType(input.kind)) + [project]
      ensures forall t :: t != input.kind ==> GetProjectsByType(t) == old(GetProjectsByType(t))
      ensures users == old(users) && alerts == old(alerts) && sensorData == old(sensorData)
      ensures currentUserId == old(currentUserId) && currentAlertId == old(currentAlertId) &&
              currentSensorId == old(currentSensorId)
    {
      project := NewProject(input, leadResearcherId, currentProjectId, now);
      currentProjectId := currentProjectId + 1;
      ghost var before := projects;
      projects := projects + [project];
      forall t ensures Filter(projects, ProjectOfKind(t)) ==
                       Filter(before, ProjectOfKind(t)) + Filter([project], ProjectOfKind(t)) {
        FilterAppend(before, [project], ProjectOfKind(t));
      }
    }

    // -------------------------------------------------------------------
    // Alerts

    /** The active alerts, each once, newest first. */
    function GetActiveAlerts(): (r: seq<Alert>)
      reads this
      requires Valid()
      ensures forall a :: a in r <==> a in alerts && a.isActive
      ensures SortedDesc(r, AlertTime)
      ensures DistinctBy(r, AlertId)
    {
      var f := Filter(alerts, IsActive());
      assert DistinctBy(alerts, AlertId);
      FilterDistinct(alerts, IsActive(), AlertId);
      SortDescDistinct(f, AlertTime, AlertId);
      SortDescMembers(f, AlertTime);
      SortDesc(f, AlertTime)
    }

    /** The active alerts of one type, each once, newest first. */
    function GetAlertsByType(t: string): (r: seq<Alert>)
      reads this
      requires Valid()
      ensures forall a :: a in r <==> a in alerts && a.kind == t && a.isActive
      ensures SortedDesc(r, AlertTime)
      ensures DistinctBy(r, AlertId)
    {
      var f := Filter(alerts, ActiveAlertOfKind(t));
      assert DistinctBy(alerts, AlertId);
      FilterDistinct(alerts, ActiveAlertOfKind(t), AlertId);
      SortDescDistinct(f, AlertTime, AlertId);
      SortDescMembers(f, AlertTime);
      SortDesc(f, AlertTime)
    }

    /** Stores a new alert, which is active and so is listed at once. */
    method CreateAlert(input: InsertAlert, now: Timestamp) returns (alert: Alert)
      requires Valid()
      modifies this
      ensures Valid()
      ensures alert == NewAlert(input, old(currentAlertId), now)
      ensures alerts == old(alerts) + [alert] && currentAlertId == old(currentAlertId) + 1
      ensures forall a :: a in old(alerts) ==> a.id < alert.id
      ensures alert in GetActiveAlerts() && alert in GetAlertsByType(input.kind)
      ensures users == old(users) && projects == old(projects) && sensorData == old(sensorData)
      ensures currentUserId == old(currentUserId) && currentProjectId == old(currentProjectId) &&
              currentSensorId == old(currentSensorId)
    {
      alert := NewAlert(input, currentAlertId, now);
      currentAlertId := currentAlertId + 1;
      alerts := alerts + [alert];
      assert alerts[|alerts| - 1] == alert;
    }

    // -------------------------------------------------------------------
    // Sensor readings

    /** The newest `limit` readings, newest first. The sort runs on the stored
        array itself, so this read leaves the array reordered newest first. */
    method GetRecentSensorData(limit: nat := RecentLimit) returns (r: seq<SensorReading>)
      requires Valid()
      modifies this
      ensures Valid()
      ensures sensorData == SortDesc(old(sensorData), ReadingTime)
      ensures multiset(sensorData) == multiset(old(sensorData))
      ensures SortedDesc(sensorData, ReadingTime)
      ensures |r| == if limit < |sensorData| then limit else |sensorData|
      ensures r == sensorData[..|r|]
      ensures forall x, y :: x in r && y in sensorData && y !in r ==> x.timestamp >= y.timestamp
      ensures users == old(users) && projects == old(projects) && alerts == old(alerts)
      ensures currentUserId == old(currentUserId) && currentProjectId == old(currentProjectId) &&
              currentAlertId == old(currentAlertId) && currentSensorId == old(currentSensorId)
    {
      ghost var before := sensorData;
      SortDescDistinct(sensorData, ReadingTime, ReadingId);
      NewestPrefix(sensorData, limit, ReadingTime);
      SortDescMembers(sensorData, ReadingTime);
      sensorData := SortDesc(sensorData, ReadingTime);
      r := Take(sensorData, limit);
    }

    /** The newest `limit` readings of one type, newest first; the stored
        array is filtered into a fresh one first and is left as it was. */
    function GetSensorDataByType(t: string, limit: nat := ByTypeLimit): (r: seq<SensorReading>)
      reads this
      requires Valid()
      ensures |r| == var n := |Filter(sensorData, ReadingOfKind(t))|; if limit < n then limit else n
      ensures forall x :: x in r ==> x in sensorData && x.kind == t
      ensures SortedDesc(r, ReadingTime)
      ensures forall x, y :: x in r && y in sensorData && y.kind == t && y !in r ==> x.timestamp >= y.timestamp
      ensures DistinctBy(r, ReadingId)
    {
      ReadingsOfKindNewest(sensorData, t, limit);
      FilterDistinct(sensorData, ReadingOfKind(t), ReadingId);
      SortDescDistinct(Filter(sensorData, ReadingOfKind(t)), ReadingTime, ReadingId);
      ReadingsByType(sensorData, t, limit)
    }

    /** Appends a reading, under the next identifier, at the end of the
        array, whatever its timestamp. */
    method AddSensorData(data: NewSensorReading) returns (reading: SensorReading)
      requires Valid()
      modifies this
      ensures Valid()
      ensures reading == NewReading(data, old(currentSensorId))
      ensures sensorData == old(sensorData) + [reading] && currentSensorId == old(currentSensorId) + 1
      ensures forall x :: x in old(sensorData) ==> x.id < reading.id
      ensures users == old(users) && projects == old(projects) && alerts == old(alerts)
      ensures currentUserId == old(currentUserId) && currentProjectId == old(currentProjectId) &&
              currentAlertId == old(currentAlertId)
    {
      reading := NewReading(data, currentSensorId);
      currentSensorId := currentSensorId + 1;
      sensorData := sensorData + [reading];
    }
  }
}
