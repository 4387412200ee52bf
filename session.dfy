/** The session document exchanged between the Python pipeline and the web
    front end: its metadata, the driver table, the per-lap records, the
    (still unpopulated) per-driver corner lists and the advisory notes.
    Nullable numbers are `Option`s; a missing or not-a-number value is `None`. */
module SessionData {
  import opened Common

  datatype EventInfo = EventInfo(name: Option<string>, country: Option<string>, officialName: Option<string>)

  /** Session metadata. `requestedDrivers` is `None` when no driver filter was
      requested; the optional fields are `None` on the early-exit paths. */
  datatype SessionMeta = SessionMeta(
    year: int,
    round: string,
    session: string,
    requestedDrivers: Option<seq<string>>,
    status: string,
    event: Option<EventInfo>,
    availableDrivers: Option<seq<string>>,
    totalLapCount: Option<nat>,
    validLapCount: Option<nat>,
    outlierLapCount: Option<nat>)

  datatype SessionDriver = SessionDriver(
    code: string,
    team: Option<string>,
    number: Option<int>,
    defaultCompound: Option<string>)

  datatype SessionLap = SessionLap(
    driver: string,
    lapNumber: Option<real>,
    stint: Option<int>,
    compound: Option<string>,
    tyreLife: Option<int>,
    lapTimeSeconds: Option<real>,
    sectorTimesSeconds: seq<Option<real>>,
    isPersonalBest: bool,
    trackStatus: Option<string>,
    hasData: Option<bool>,
    flags: seq<string>,
    isValid: Option<bool>)

  /** One key of the `drivers` record, in the record's key order. */
  datatype DriverEntry = DriverEntry(key: string, driver: SessionDriver)

  /** One key of the `corners` record; the entries are untyped in the
      document, so each is kept as its JSON text. */
  datatype CornerList = CornerList(key: string, entries: seq<string>)

  datatype SessionPayload = SessionPayload(
    meta: SessionMeta,
    drivers: seq<DriverEntry>,
    laps: seq<SessionLap>,
    corners: seq<CornerList>,
    notes: seq<string>)

  /** `Object.keys(drivers)`: the driver codes in key order. */
  function DriverKeys(drivers: seq<DriverEntry>): (keys: seq<string>)
    ensures |keys| == |drivers|
    ensures forall i :: 0 <= i < |drivers| ==> keys[i] == drivers[i].key
  {
    seq(|drivers|, i requires 0 <= i < |drivers| => drivers[i].key)
  }
}
