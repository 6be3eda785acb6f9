/** The record kinds the store keeps (the `users`, `projects`, `alerts` and
    `sensor_data` tables), the values their columns default to, the values
    their text columns are documented to hold, and the field subsets a caller
    may supply when creating a user, a project or an alert.

    The column `type` is called `kind` here, since `type` is a keyword. */
module Schema {
  import opened Wrappers

  /** Milliseconds since the epoch, as `Date.prototype.getTime` gives them. */
  type Timestamp = int

  /** An opaque JSON document (a `jsonb` column). */
  datatype Json = Json(text: string)

  /** A position as latitude and longitude; the store never computes with it. */
  datatype GeoPoint = GeoPoint(lat: real, lng: real)

  datatype User = User(
    id: nat,
    username: string,
    email: string,
    password: string,
    role: string,
    institution: Option<string>,
    isResearcher: bool,
    createdAt: Timestamp)

  datatype Project = Project(
    id: nat,
    name: string,
    description: string,
    kind: string,
    status: string,
    participants: int,
    leadResearcherId: Option<int>,
    data: Option<Json>,
    createdAt: Timestamp)

  datatype Alert = Alert(
    id: nat,
    kind: string,
    severity: string,
    title: string,
    description: string,
    location: string,
    isActive: bool,
    createdAt: Timestamp)

  datatype SensorReading = SensorReading(
    id: nat,
    sensorId: string,
    kind: string,
    value: string,
    location: Option<GeoPoint>,
    timestamp: Timestamp)

  /** What a caller may supply to create a user: the other columns are not
      part of the insert schema. */
  datatype InsertUser = InsertUser(
    username: string,
    email: string,
    password: string,
    institution: Option<string>)

  /** What a caller may supply to create a project. */
  datatype InsertProject = InsertProject(
    name: string,
    description: string,
    kind: string)

  /** What a caller may supply to create an alert. */
  datatype InsertAlert = InsertAlert(
    kind: string,
    severity: string,
    title: string,
    description: string,
    location: string)

  /** A sensor reading without its identifier (the store assigns that). */
  datatype NewSensorReading = NewSensorReading(
    sensorId: string,
    kind: string,
    value: string,
    location: Option<GeoPoint>,
    timestamp: Timestamp)

  // Column defaults.
  const DefaultRole: string := "user"
  const DefaultIsResearcher: bool := false
  const DefaultStatus: string := "active"
  const DefaultParticipants: int := 0
  const DefaultIsActive: bool := true

  // The values the text columns are documented to take. The columns are plain
  // text: nothing in the schema or the store enforces these sets.
  const UserRoles: set<string> := {"user", "researcher", "admin"}
  const ProjectTypes: set<string> := {"forest", "marine", "climate", "wildlife", "research", "education"}
  const ProjectStatuses: set<string> := {"active", "paused", "completed"}
  const AlertTypes: set<string> := {"climate", "forest", "wildlife", "marine"}
  const AlertSeverities: set<string> := {"low", "medium", "high", "critical"}

  /** The insert projection of a user: the fields a caller controls. */
  function PickUser(u: User): InsertUser {
    InsertUser(u.username, u.email, u.password, u.institution)
  }

  /** The insert projection of a project. */
  function PickProject(p: Project): InsertProject {
    InsertProject(p.name, p.description, p.kind)
  }

  /** The insert projection of an alert. */
  function PickAlert(a: Alert): InsertAlert {
    InsertAlert(a.kind, a.severity, a.title, a.description, a.location)
  }

  /** A reading with its identifier omitted. */
  function OmitId(r: SensorReading): NewSensorReading {
    NewSensorReading(r.sensorId, r.kind, r.value, r.location, r.timestamp)
  }
}
