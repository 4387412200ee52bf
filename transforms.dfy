/** The session payload builder of the Python pipeline
    (scripts/fastf1_pipeline/transforms.py): the tolerant integer and
    track-status conversions, the outlier flags each lap receives, the
    de-duplication of those flags, the valid/outlier counters, the driver
    table and the advisory notes. A lap table is a sequence of rows whose
    cells are already decoded; a missing or not-a-number cell is `Null` or
    `NotANumber`. */
module Transforms {
  import opened Common
  import opened Decimal
  import opened SessionData

  // ---------------------------------------------------------------------
  // Cells and tolerant conversions
  // ---------------------------------------------------------------------

  /** One table cell: absent, not-a-number, a number, or text. */
  datatype Cell = Null | NotANumber | Num(x: real) | Text(s: string)

  /** Python's `int(x)` on a number: rounds toward zero. */
  function Truncate(x: real): (n: int)
    ensures x >= 0.0 ==> 0 <= n && n as real <= x < n as real + 1.0
    ensures x < 0.0 ==> n <= 0 && n as real - 1.0 < x <= n as real
  {
    if x >= 0.0 then x.Floor else -((-x).Floor)
  }

  /** Python's `int(text)`: surrounding whitespace, an optional sign, then
      decimal digits; anything else is a `ValueError` (`None`). */
  function ParseInt(s: string): Option<int> {
    var t := Trim(Python, s);
    if t != [] && (t[0] == '-' || t[0] == '+') then
      var digits := t[1..];
      if digits != [] && AllDigits(digits) then
        var v: int := DigitsValue(digits);
        Some(if t[0] == '-' then -v else v)
      else None
    else if t != [] && AllDigits(t) then Some(DigitsValue(t))
    else None
  }

  /** `_safe_int`: `None` for an absent or not-a-number cell or one that
      `int()` rejects, otherwise `int(value)`. */
  function SafeInt(v: Cell): Option<int> {
    match v
    case Null => None
    case NotANumber => None
    case Num(x) => Some(Truncate(x))
    case Text(s) => ParseInt(s)
  }

  /** A whole number stored as a float converts back to itself. */
  lemma SafeIntOfWhole(n: int)
    ensures SafeInt(Num(n as real)) == Some(n)
  {
  }

  /** A run of digits parses as its decimal value. */
  lemma ParseIntOfDigits(t: string)
    requires t != [] && AllDigits(t)
    ensures ParseInt(t) == Some(DigitsValue(t) as int)
  {
    assert IsDigit(t[0]) && IsDigit(t[|t| - 1]);
    TrimUnchanged(Python, t);
  }

  /** A minus sign followed by a run of digits parses as the negated value. */
  lemma ParseIntOfNegatedDigits(t: string, n: nat)
    requires t != [] && AllDigits(t) && DigitsValue(t) == n
    ensures SafeInt(Text("-" + t)) == Some(-(n as int))
  {
    var m := "-" + t;
    assert m[0] == '-' && m[1..] == t;
    assert IsDigit(t[|t| - 1]) && m[|m| - 1] == t[|t| - 1];
    TrimUnchanged(Python, m);
  }

  /** A printed natural number converts back to itself. */
  lemma SafeIntOfNumeral(n: nat)
    ensures SafeInt(Text(NatToString(n))) == Some(n)
  {
    var t := NatToString(n);
    NatToStringRoundTrip(n);
    ParseIntOfDigits(t);
    assert SafeInt(Text(t)) == ParseInt(t);
  }

  /** A printed natural number behind a minus sign converts back to its negation. */
  lemma SafeIntOfNegatedNumeral(n: nat)
    ensures SafeInt(Text("-" + NatToString(n))) == Some(-(n as int))
  {
    NatToStringRoundTrip(n);
    ParseIntOfNegatedDigits(NatToString(n), n);
  }

  /** The `TrackStatus` cell: absent, not-a-number, or the text `str(value)` gives. */
  datatype StatusCell = StatusNull | StatusNaN | StatusText(text: string)

  predicate EndsWithPointZero(s: string) {
    |s| >= 2 && s[|s| - 2] == '.' && s[|s| - 1] == '0'
  }

  /** `_stringify_track_status`: absent and not-a-number give `None`; one
      trailing `.0` is cut off; an empty result is `None`. */
  function StringifyTrackStatus(v: StatusCell): (r: Option<string>)
    ensures r.Some? ==> r.value != ""
  {
    match v
    case StatusNull => None
    case StatusNaN => None
    case StatusText(text) =>
      var t := if EndsWithPointZero(text) then text[..|text| - 2] else text;
      if t == "" then None else Some(t)
  }

  /** Exactly one `.0` is removed, even when the rest ends with `.0` too. */
  lemma StringifyDropsOnePointZero(t: string)
    ensures StringifyTrackStatus(StatusText(t + ".0")) == if t == "" then None else Some(t)
  {
    var s := t + ".0";
    assert EndsWithPointZero(s);
    assert s[..|s| - 2] == t;
  }

  /** Text without a trailing `.0` is kept as it is, unless it is empty. */
  lemma StringifyKeepsOthers(text: string)
    requires !EndsWithPointZero(text)
    ensures StringifyTrackStatus(StatusText(text)) == if text == "" then None else Some(text)
  {
  }

  /** `_extract_status_codes`: the set of digit characters of the status text. */
  function StatusCodes(trackStatus: Option<string>): (codes: set<char>)
    ensures forall c :: c in codes <==> trackStatus.Some? && c in trackStatus.value && IsDigit(c)
  {
    if trackStatus.None? || trackStatus.value == "" then {}
    else set c | c in trackStatus.value && IsDigit(c)
  }

  /** The codes of a status are those of its parts, so a code is found
      wherever it occurs in the text. */
  lemma StatusCodesSplit(a: string, b: string)
    ensures StatusCodes(Some(a + b)) == StatusCodes(Some(a)) + StatusCodes(Some(b))
  {
    forall c ensures c in StatusCodes(Some(a + b)) <==> c in StatusCodes(Some(a)) + StatusCodes(Some(b)) {
      assert c in a + b <==> c in a || c in b;
    }
  }

  /** A status without digits, or no status at all, yields no code. */
  lemma StatusCodesEmpty(trackStatus: Option<string>)
    requires trackStatus.Some? ==> forall i :: 0 <= i < |trackStatus.value| ==> !IsDigit(trackStatus.value[i])
    ensures StatusCodes(trackStatus) == {}
  {
  }

  // ---------------------------------------------------------------------
  // Outlier flags
  // ---------------------------------------------------------------------

  datatype Flag = MissingLaptime | Deleted | Inaccurate | OutLap | InLap | FormationLap
                | YellowFlag | SafetyCar | VirtualSafetyCar | RedFlag

  function FlagName(f: Flag): string {
    match f
    case MissingLaptime => "missing-laptime"
    case Deleted => "deleted"
    case Inaccurate => "inaccurate"
    case OutLap => "out-lap"
    case InLap => "in-lap"
    case FormationLap => "formation-lap"
    case YellowFlag => "yellow-flag"
    case SafetyCar => "safety-car"
    case VirtualSafetyCar => "virtual-safety-car"
    case RedFlag => "red-flag"
  }

  /** `OUTLIER_FLAGS` */
  const OutlierFlags: set<string> := {"out-lap", "in-lap", "safety-car", "virtual-safety-car", "yellow-flag",
                                      "red-flag", "formation-lap", "deleted", "inaccurate", "missing-laptime"}

  /** Every flag the classifier can raise is an outlier flag, and different
      flags have different names. */
  lemma FlagNamesAreOutlierFlags(f: Flag, g: Flag)
    ensures FlagName(f) in OutlierFlags
    ensures FlagName(f) == FlagName(g) ==> f == g
  {
  }

  /** One lap row, with the cells the payload builder reads. `deleted` is the
      truthiness of the `Deleted` cell; `isAccurate` is the raw `IsAccurate`
      cell, whose truthiness decides the `inaccurate` flag; the pit times are
      present when the cell is not null. Lap and sector times are in seconds. */
  datatype LapRow = LapRow(
    driver: string,
    driverNumber: Cell,
    team: Option<string>,
    lapNumber: Cell,
    lapTime: Option<real>,
    trackStatus: StatusCell,
    deleted: bool,
    isAccurate: Option<bool>,
    pitOutTime: Option<real>,
    pitInTime: Option<real>,
    stint: Cell,
    compound: Option<string>,
    tyreLife: Cell,
    sectorTimes: seq<Option<real>>,
    isPersonalBest: bool)

  /** The lap table: its rows and whether it has the pit-time columns at all. */
  datatype LapTable = LapTable(rows: seq<LapRow>, hasPitOutColumn: bool, hasPitInColumn: bool)

  /** Python truthiness of an optional boolean: `None` is false. */
  predicate Truthy(b: Option<bool>) {
    b == Some(true)
  }

  /** Whether the check for `f` fires on `row`. */
  predicate Raised(f: Flag, row: LapRow, table: LapTable, isRace: bool) {
    var codes := StatusCodes(StringifyTrackStatus(row.trackStatus));
    match f
    case MissingLaptime => row.lapTime.None?
    case Deleted => row.deleted
    case Inaccurate => !Truthy(row.isAccurate)
    case OutLap => table.hasPitOutColumn && row.pitOutTime.Some?
    case InLap => table.hasPitInColumn && row.pitInTime.Some?
    case FormationLap => isRace && SafeInt(row.lapNumber) == Some(1)
    case YellowFlag => '2' in codes
    case SafetyCar => '3' in codes || '4' in codes
    case VirtualSafetyCar => '5' in codes || '6' in codes
    case RedFlag => '7' in codes || '8' in codes || '9' in codes
  }

  /** The order in which the checks run. */
  const CheckOrder: seq<Flag> := [MissingLaptime, Deleted, Inaccurate, OutLap, InLap, FormationLap,
                                  YellowFlag, SafetyCar, VirtualSafetyCar, RedFlag]

  /** The flags among `checks` that fire, in check order. */
  function RaisedAmong(checks: seq<Flag>, row: LapRow, table: LapTable, isRace: bool): (r: seq<Flag>)
    ensures forall f :: f in r <==> f in checks && Raised(f, row, table, isRace)
    decreases |checks|
  {
    if checks == [] then []
    else
      var init := checks[..|checks| - 1];
      var last := checks[|checks| - 1];
      assert checks == init + [last];
      RaisedAmong(init, row, table, isRace) + (if Raised(last, row, table, isRace) then [last] else [])
  }

  /** The flag list a lap collects before de-duplication, as names. */
  function RawFlags(row: LapRow, table: LapTable, isRace: bool): seq<string> {
    var raised := RaisedAmong(CheckOrder, row, table, isRace);
    seq(|raised|, i requires 0 <= i < |raised| => FlagName(raised[i]))
  }

  /** A flag name is in the raw list exactly when its check fires. */
  lemma RawFlagsMembers(row: LapRow, table: LapTable, isRace: bool, f: Flag)
    ensures FlagName(f) in RawFlags(row, table, isRace) <==> Raised(f, row, table, isRace)
  {
    var raised := RaisedAmong(CheckOrder, row, table, isRace);
    var names := RawFlags(row, table, isRace);
    assert f in CheckOrder;
    if FlagName(f) in names {
      var i :| 0 <= i < |names| && names[i] == FlagName(f);
      FlagNamesAreOutlierFlags(raised[i], f);
    }
    if Raised(f, row, table, isRace) {
      var i :| 0 <= i < |raised| && raised[i] == f;
      assert names[i] == FlagName(f);
    }
  }

  /** Every raw flag is one of `OUTLIER_FLAGS`. */
  lemma RawFlagsAreOutlierFlags(row: LapRow, table: LapTable, isRace: bool)
    ensures forall s :: s in RawFlags(row, table, isRace) ==> s in OutlierFlags
  {
    var raised := RaisedAmong(CheckOrder, row, table, isRace);
    forall i | 0 <= i < |raised| ensures FlagName(raised[i]) in OutlierFlags {
      FlagNamesAreOutlierFlags(raised[i], raised[i]);
    }
  }

  /** The track-status flags follow the digits of the status text. */
  lemma StatusFlags(row: LapRow, table: LapTable, isRace: bool)
    ensures var ts := StringifyTrackStatus(row.trackStatus);
      var flags := RawFlags(row, table, isRace);
      && ("yellow-flag" in flags <==> ts.Some? && '2' in ts.value)
      && ("safety-car" in flags <==> ts.Some? && ('3' in ts.value || '4' in ts.value))
      && ("virtual-safety-car" in flags <==> ts.Some? && ('5' in ts.value || '6' in ts.value))
      && ("red-flag" in flags <==> ts.Some? && ('7' in ts.value || '8' in ts.value || '9' in ts.value))
  {
    RawFlagsMembers(row, table, isRace, YellowFlag);
    RawFlagsMembers(row, table, isRace, SafetyCar);
    RawFlagsMembers(row, table, isRace, VirtualSafetyCar);
    RawFlagsMembers(row, table, isRace, RedFlag);
  }

  /** `formation-lap` is raised only on lap 1 of a race. */
  lemma FormationLapRule(row: LapRow, table: LapTable, isRace: bool)
    ensures "formation-lap" in RawFlags(row, table, isRace) <==> isRace && SafeInt(row.lapNumber) == Some(1)
  {
    RawFlagsMembers(row, table, isRace, FormationLap);
  }

  /** `missing-laptime` is raised exactly when the lap has no time. */
  lemma MissingLaptimeRule(row: LapRow, table: LapTable, isRace: bool)
    ensures "missing-laptime" in RawFlags(row, table, isRace) <==> row.lapTime.None?
  {
    RawFlagsMembers(row, table, isRace, MissingLaptime);
  }

  /** The de-duplication loop over the flag list. */
  method Dedupe(flags: seq<string>) returns (seen: seq<string>)
    ensures seen == FirstOccurrences(flags)
  {
    seen := [];
    for i := 0 to |flags|
      invariant seen == FirstOccurrences(flags[..i])
    {
      assert flags[..i + 1][..i] == flags[..i];
      if flags[i] !in seen {
        seen := seen + [flags[i]];
      }
    }
    assert flags[..|flags|] == flags;
  }

  /** No flag is an outlier flag. */
  predicate NoOutlierFlag(flags: seq<string>) {
    forall s :: s in flags ==> s !in OutlierFlags
  }

  /** The payload entry of one lap. */
  function ClassifyLap(row: LapRow, table: LapTable, isRace: bool): SessionLap {
    var flags := FirstOccurrences(RawFlags(row, table, isRace));
    var isValid := row.lapTime.Some? && NoOutlierFlag(flags);
    SessionLap(
      row.driver, LapNumberOf(row), SafeInt(row.stint), row.compound, SafeInt(row.tyreLife),
      row.lapTime, row.sectorTimes, row.isPersonalBest, StringifyTrackStatus(row.trackStatus),
      row.isAccurate, flags, Some(isValid))
  }

  /** The entries of a sequence of rows, one per row. */
  function ClassifyAll(rows: seq<LapRow>, table: LapTable, isRace: bool): seq<SessionLap>
    decreases |rows|
  {
    if rows == [] then []
    else ClassifyAll(rows[..|rows| - 1], table, isRace) + [ClassifyLap(rows[|rows| - 1], table, isRace)]
  }

  /** Entry `k` is the classification of row `k`. */
  lemma {:induction false} ClassifyAllPointwise(rows: seq<LapRow>, table: LapTable, isRace: bool)
    ensures |ClassifyAll(rows, table, isRace)| == |rows|
    ensures forall k :: 0 <= k < |rows| ==> ClassifyAll(rows, table, isRace)[k] == ClassifyLap(rows[k], table, isRace)
    decreases |rows|
  {
    if rows != [] {
      var init := rows[..|rows| - 1];
      ClassifyAllPointwise(init, table, isRace);
      var r, prev := ClassifyAll(rows, table, isRace), ClassifyAll(init, table, isRace);
      var last := ClassifyLap(rows[|rows| - 1], table, isRace);
      assert r == prev + [last];
      forall k | 0 <= k < |rows| ensures r[k] == ClassifyLap(rows[k], table, isRace) {
        if k < |init| {
          assert r[k] == prev[k] && init[k] == rows[k];
        } else {
          assert r[k] == last && k == |rows| - 1;
        }
      }
    }
  }

  function LapNumberOf(row: LapRow): Option<real> {
    match SafeInt(row.lapNumber)
    case None => None
    case Some(n) => Some(n as real)
  }

  /** A lap is valid exactly when it has no flags; its flags are distinct
      and appear in the order their checks run. */
  lemma ValidIffNoFlags(row: LapRow, table: LapTable, isRace: bool)
    ensures var lap := ClassifyLap(row, table, isRace);
      && lap.isValid == Some(lap.flags == [])
      && NoDuplicates(lap.flags)
      && (forall s :: s in lap.flags <==> s in RawFlags(row, table, isRace))
  {
    var raw := RawFlags(row, table, isRace);
    var flags := FirstOccurrences(raw);
    FirstOccurrencesMembers(raw);
    RawFlagsAreOutlierFlags(row, table, isRace);
    MissingLaptimeRule(row, table, isRace);
    if flags != [] {
      assert flags[0] in raw;
    }
  }

  // ---------------------------------------------------------------------
  // Counters
  // ---------------------------------------------------------------------

  function CountValid(laps: seq<SessionLap>): (n: nat)
    ensures n <= |laps|
    decreases |laps|
  {
    if laps == [] then 0
    else CountValid(laps[..|laps| - 1]) + (if laps[|laps| - 1].isValid == Some(true) then 1 else 0)
  }

  function CountOutliers(laps: seq<SessionLap>): (n: nat)
    ensures n <= |laps|
    decreases |laps|
  {
    if laps == [] then 0
    else CountOutliers(laps[..|laps| - 1]) + (if laps[|laps| - 1].isValid == Some(true) then 0 else 1)
  }

  /** Every lap is counted exactly once, as valid or as an outlier. */
  lemma {:induction false} CountsAddUp(laps: seq<SessionLap>)
    ensures CountValid(laps) + CountOutliers(laps) == |laps|
    decreases |laps|
  {
    if laps != [] {
      CountsAddUp(laps[..|laps| - 1]);
    }
  }

  // ---------------------------------------------------------------------
  // Drivers
  // ---------------------------------------------------------------------

  /** `[d.upper() for d in drivers] if drivers else None` */
  function RequestedCodes(drivers: Option<seq<string>>): (r: Option<seq<string>>)
    ensures r.Some? <==> drivers.Some? && drivers.value != []
    ensures r.Some? ==> |r.value| == |drivers.value|
    ensures r.Some? ==> forall i :: 0 <= i < |r.value| ==> r.value[i] == Upper(drivers.value[i]) && IsUpperCased(r.value[i])
  {
    if drivers.None? || drivers.value == [] then None
    else
      var ds := drivers.value;
      var r := seq(|ds|, i requires 0 <= i < |ds| => Upper(ds[i]));
      assert forall i :: 0 <= i < |r| ==> IsUpperCased(r[i]) by {
        forall i | 0 <= i < |r| ensures IsUpperCased(r[i]) { UpperIsUpperCased(ds[i]); }
      }
      Some(r)
  }

  /** `laps_df[laps_df["Driver"].isin(selected)]`: the rows of the selected
      drivers, in table order. */
  function KeepDrivers(rows: seq<LapRow>, selected: seq<string>): (r: seq<LapRow>)
    ensures |r| <= |rows|
    ensures forall x :: x in r <==> x in rows && x.driver in selected
    decreases |rows|
  {
    if rows == [] then []
    else
      var init := rows[..|rows| - 1];
      var last := rows[|rows| - 1];
      assert rows == init + [last];
      KeepDrivers(init, selected) + (if last.driver in selected then [last] else [])
  }

  function RowDrivers(rows: seq<LapRow>): (codes: seq<string>)
    ensures |codes| == |rows| && forall i :: 0 <= i < |rows| ==> codes[i] == rows[i].driver
  {
    seq(|rows|, i requires 0 <= i < |rows| => rows[i].driver)
  }

  /** `drop_duplicates(subset=["Driver"])`: the first row of every driver, in table order. */
  function FirstRowPerDriver(rows: seq<LapRow>): seq<LapRow>
    decreases |rows|
  {
    if rows == [] then []
    else
      var init := rows[..|rows| - 1];
      var last := rows[|rows| - 1];
      if last.driver in RowDrivers(init) then FirstRowPerDriver(init) else FirstRowPerDriver(init) + [last]
  }

  /** The first rows' drivers are the distinct drivers in first-occurrence order. */
  lemma {:induction false} FirstRowPerDriverCodes(rows: seq<LapRow>)
    ensures RowDrivers(FirstRowPerDriver(rows)) == FirstOccurrences(RowDrivers(rows))
    decreases |rows|
  {
    if rows != [] {
      var init := rows[..|rows| - 1];
      var last := rows[|rows| - 1];
      var codes := RowDrivers(rows);
      FirstRowPerDriverCodes(init);
      assert codes[..|codes| - 1] == RowDrivers(init);
      FirstOccurrencesMembers(RowDrivers(init));
      var firsts := FirstRowPerDriver(init);
      if last.driver !in RowDrivers(init) {
        assert RowDrivers(firsts + [last]) == RowDrivers(firsts) + [last.driver];
      }
    }
  }

  /** The `drivers` entry built from a driver's first row. */
  function DriverEntryOf(row: LapRow): DriverEntry {
    DriverEntry(row.driver, SessionDriver(row.driver, row.team, SafeInt(row.driverNumber), row.compound))
  }

  /** The `corners` record: an empty list under every driver key. */
  function EmptyCorners(drivers: seq<DriverEntry>): (corners: seq<CornerList>)
    ensures |corners| == |drivers|
    ensures forall i :: 0 <= i < |corners| ==> corners[i].key == drivers[i].key && corners[i].entries == []
  {
    seq(|drivers|, i requires 0 <= i < |drivers| => CornerList(drivers[i].key, []))
  }

  // ---------------------------------------------------------------------
  // Notes and metadata
  // ---------------------------------------------------------------------

  /** `FetchResult` together with the fields of the session object that the builder reads. */
  datatype Session = Session(laps: Option<LapTable>, sessionType: string, event: Option<EventInfo>)

  datatype FetchResult = FetchResult(
    status: string,
    year: int,
    roundSlug: string,
    sessionCode: string,
    session: Option<Session>,
    message: Option<string>)

  /** A non-empty message. */
  predicate HasMessage(m: Option<string>) {
    m.Some? && m.value != ""
  }

  function UnavailableNote(fr: FetchResult): string {
    if HasMessage(fr.message) then fr.message.value
    else if fr.status == "fastf1_not_installed" then "FastF1 not installed"
    else "Session unavailable"
  }

  const NoLapsNote := "No lap data returned by fastf1 for this session."
  const NoDriverLapsNote := "Requested drivers have no laps in this session."
  const PlaceholderNote := "Corner-level telemetry aggregation not yet implemented; arrays are placeholders."

  function OutlierNote(outliers: nat, total: nat): string {
    "Flagged " + NatToString(outliers) + " of " + NatToString(total)
    + " laps as outliers (out laps, safety car periods, yellow flags, etc.)."
  }

  /** The notes of a complete payload. */
  function FullNotes(message: Option<string>, outliers: nat, total: nat): seq<string> {
    MessageNotes(message) + (if outliers > 0 then [OutlierNote(outliers, total)] else []) + [PlaceholderNote]
  }

  /** The fetch message, unless it is empty or `OK`. */
  function MessageNotes(message: Option<string>): (notes: seq<string>)
    ensures |notes| <= 1 && forall i :: 0 <= i < |notes| ==> message.Some? && notes[i] == message.value && message.value != "OK"
    ensures HasMessage(message) && message.value != "OK" ==> notes == [message.value]
    ensures !HasMessage(message) || message.value == "OK" ==> notes == []
  {
    if HasMessage(message) && message.value != "OK" then [message.value] else []
  }

  /** The notes end with the placeholder note, carry the outlier note right
      before it exactly when some lap is an outlier, and otherwise hold only
      the fetch message. */
  lemma FullNotesShape(message: Option<string>, outliers: nat, total: nat)
    ensures var notes := FullNotes(message, outliers, total);
      && 1 <= |notes| <= 3 && notes[|notes| - 1] == PlaceholderNote
      && (outliers > 0 ==> |notes| >= 2 && notes[|notes| - 2] == OutlierNote(outliers, total))
      && (outliers == 0 ==> forall i :: 0 <= i < |notes| - 1 ==> message.Some? && notes[i] == message.value && message.value != "OK")
      && |notes| == (if HasMessage(message) && message.value != "OK" then 1 else 0) + (if outliers > 0 then 1 else 0) + 1
      && (HasMessage(message) && message.value != "OK" ==> notes[0] == message.value)
  {
    var m := MessageNotes(message);
    var o := if outliers > 0 then [OutlierNote(outliers, total)] else [];
    var notes := FullNotes(message, outliers, total);
    assert notes == m + o + [PlaceholderNote];
    if outliers == 0 {
      assert notes[..|notes| - 1] == m;
    }
  }

  /** The metadata every payload starts from. */
  function BaseMeta(fr: FetchResult, drivers: Option<seq<string>>): SessionMeta {
    SessionMeta(fr.year, fr.roundSlug, fr.sessionCode, RequestedCodes(drivers), fr.status,
                None, None, None, None, None)
  }

  function EmptyPayload(meta: SessionMeta, note: string): SessionPayload {
    SessionPayload(meta, [], [], [], [note])
  }

  /** The first early exit: the fetch failed, there is no session, or pandas is missing. */
  predicate Unavailable(fr: FetchResult, pandasAvailable: bool) {
    fr.status != "ok" || fr.session.None? || !pandasAvailable
  }

  /** The second early exit: no lap table, or an empty one. */
  predicate NoLapData(s: Session) {
    s.laps.None? || s.laps.value.rows == []
  }

  /** The rows that remain after the driver filter. */
  function KeptRows(t: LapTable, drivers: Option<seq<string>>): seq<LapRow> {
    match RequestedCodes(drivers)
    case None => t.rows
    case Some(selected) => KeepDrivers(t.rows, selected)
  }

  function EventOf(s: Session): EventInfo {
    match s.event
    case None => EventInfo(None, None, None)
    case Some(e) => e
  }

  predicate IsRace(s: Session) {
    Upper(s.sessionType) == "R"
  }

  /** The loop filling the `drivers` record from each driver's first row. */
  method BuildDriverEntries(firsts: seq<LapRow>) returns (entries: seq<DriverEntry>)
    ensures |entries| == |firsts|
    ensures forall k :: 0 <= k < |firsts| ==> entries[k] == DriverEntryOf(firsts[k])
  {
    entries := [];
    for i := 0 to |firsts|
      invariant |entries| == i
      invariant forall k :: 0 <= k < i ==> entries[k] == DriverEntryOf(firsts[k])
    {
      entries := entries + [DriverEntryOf(firsts[i])];
    }
  }

  /** The loop over the kept laps: each lap's entry, and the valid and outlier counters. */
  method ClassifyLaps(rows: seq<LapRow>, table: LapTable, isRace: bool)
    returns (laps: seq<SessionLap>, validLaps: nat, outlierLaps: nat)
    ensures laps == ClassifyAll(rows, table, isRace)
    ensures validLaps == CountValid(laps) && outlierLaps == CountOutliers(laps)
  {
    laps, validLaps, outlierLaps := [], 0, 0;
    for i := 0 to |rows|
      invariant laps == ClassifyAll(rows[..i], table, isRace)
      invariant validLaps == CountValid(laps) && outlierLaps == CountOutliers(laps)
    {
      assert rows[..i + 1][..i] == rows[..i];
      var entry := ClassifyRow(rows[i], table, isRace);
      if entry.isValid == Some(true) {
        validLaps := validLaps + 1;
      } else {
        outlierLaps := outlierLaps + 1;
      }
      assert (laps + [entry])[..|laps|] == laps;
      laps := laps + [entry];
    }
    assert rows[..|rows|] == rows;
  }

  /** The body of the lap loop: the flags, their de-duplication, the validity
      test and the lap's entry. */
  method ClassifyRow(row: LapRow, table: LapTable, isRace: bool) returns (entry: SessionLap)
    ensures entry == ClassifyLap(row, table, isRace)
  {
    var flags := Dedupe(RawFlags(row, table, isRace));
    var isValid := row.lapTime.Some? && NoOutlierFlag(flags);
    entry := SessionLap(
      row.driver, LapNumberOf(row), SafeInt(row.stint), row.compound, SafeInt(row.tyreLife),
      row.lapTime, row.sectorTimes, row.isPersonalBest, StringifyTrackStatus(row.trackStatus),
      row.isAccurate, flags, Some(isValid));
  }

  /** The notes of a complete payload, appended one by one. */
  method BuildNotes(message: Option<string>, outlierLaps: nat, totalLaps: nat) returns (notes: seq<string>)
    ensures notes == FullNotes(message, outlierLaps, totalLaps)
  {
    notes := [];
    if HasMessage(message) && message.value != "OK" {
      notes := notes + [message.value];
    }
    if outlierLaps > 0 {
      notes := notes + [OutlierNote(outlierLaps, totalLaps)];
    }
    notes := notes + [PlaceholderNote];
  }

  /** `build_session_payload` */
  method BuildSessionPayload(fr: FetchResult, drivers: Option<seq<string>>, pandasAvailable: bool)
    returns (p: SessionPayload)
    ensures Unavailable(fr, pandasAvailable) ==> p == EmptyPayload(BaseMeta(fr, drivers), UnavailableNote(fr))
    ensures !Unavailable(fr, pandasAvailable) && NoLapData(fr.session.value) ==>
      p == EmptyPayload(BaseMeta(fr, drivers), NoLapsNote)
    ensures !Unavailable(fr, pandasAvailable) && !NoLapData(fr.session.value)
            && KeptRows(fr.session.value.laps.value, drivers) == [] ==>
      p == EmptyPayload(BaseMeta(fr, drivers), NoDriverLapsNote)
    ensures !Unavailable(fr, pandasAvailable) && !NoLapData(fr.session.value)
            && KeptRows(fr.session.value.laps.value, drivers) != [] ==>
      var s := fr.session.value;
      var t := s.laps.value;
      var rows := KeptRows(t, drivers);
      var firsts := FirstRowPerDriver(rows);
      && |p.drivers| == |firsts| && (forall i :: 0 <= i < |firsts| ==> p.drivers[i] == DriverEntryOf(firsts[i]))
      && p.laps == ClassifyAll(rows, t, IsRace(s))
      && p.corners == EmptyCorners(p.drivers)
      && p.notes == FullNotes(fr.message, CountOutliers(p.laps), |rows|)
      && p.meta == BaseMeta(fr, drivers).(
        event := Some(EventOf(s)),
        availableDrivers := Some(DriverKeys(p.drivers)),
        totalLapCount := Some(|rows|),
        validLapCount := Some(CountValid(p.laps)),
        outlierLapCount := Some(CountOutliers(p.laps)))
  {
    var meta := BaseMeta(fr, drivers);
    if fr.status != "ok" || fr.session.None? || !pandasAvailable {
      return EmptyPayload(meta, UnavailableNote(fr));
    }
    var session := fr.session.value;
    if session.laps.None? || |session.laps.value.rows| == 0 {
      return EmptyPayload(meta, NoLapsNote);
    }
    var table := session.laps.value;
    var rows := table.rows;
    if meta.requestedDrivers.Some? {
      rows := KeepDrivers(rows, meta.requestedDrivers.value);
    }
    if |rows| == 0 {
      return EmptyPayload(meta, NoDriverLapsNote);
    }

    var driverEntries := BuildDriverEntries(FirstRowPerDriver(rows));
    var isRace := Upper(session.sessionType) == "R";
    var lapEntries, validLaps, outlierLaps := ClassifyLaps(rows, table, isRace);
    var total := |rows|;
    var corners := EmptyCorners(driverEntries);
    var notes := BuildNotes(fr.message, outlierLaps, total);

    var fullMeta := meta.(
      event := Some(EventOf(session)),
      availableDrivers := Some(DriverKeys(driverEntries)),
      totalLapCount := Some(total),
      validLapCount := Some(validLaps),
      outlierLapCount := Some(outlierLaps));
    p := SessionPayload(fullMeta, driverEntries, lapEntries, corners, notes);
  }

  /** On the full path the driver table holds each kept driver once, in
      first-occurrence order, and its keys are the available drivers and the
      corner keys. */
  lemma DriverTableKeys(rows: seq<LapRow>, entries: seq<DriverEntry>)
    requires |entries| == |FirstRowPerDriver(rows)|
    requires forall i :: 0 <= i < |entries| ==> entries[i] == DriverEntryOf(FirstRowPerDriver(rows)[i])
    ensures DriverKeys(entries) == FirstOccurrences(RowDrivers(rows))
    ensures NoDuplicates(DriverKeys(entries))
    ensures forall c :: c in DriverKeys(entries) <==> exists i :: 0 <= i < |rows| && rows[i].driver == c
  {
    FirstRowPerDriverCodes(rows);
    assert DriverKeys(entries) == RowDrivers(FirstRowPerDriver(rows));
    FirstOccurrencesMembers(RowDrivers(rows));
    forall c ensures c in RowDrivers(rows) <==> exists i :: 0 <= i < |rows| && rows[i].driver == c {
      if c in RowDrivers(rows) {
        var i :| 0 <= i < |rows| && RowDrivers(rows)[i] == c;
      }
    }
  }

  /** The requested filter keeps exactly the laps of the (upper-cased) requested drivers. */
  lemma KeptRowsSelected(t: LapTable, drivers: Option<seq<string>>, row: LapRow)
    requires drivers.Some? && drivers.value != []
    ensures row in KeptRows(t, drivers) <==>
      row in t.rows && exists i :: 0 <= i < |drivers.value| && Upper(drivers.value[i]) == row.driver
  {
  }
}
