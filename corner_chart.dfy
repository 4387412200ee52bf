/** The corner comparison chart of the earlier corner-analysis front end
    (F1-Corner-Analysis/components/ChartPanel.tsx): each corner of the track
    joined to the session's timing of the corner with the same number. */
module CornerChart {
  import opened Common

  datatype CornerType = Slow | Medium | Fast

  /** A corner of the track layout; its entry, apex and exit points are not used here. */
  datatype TrackCorner = TrackCorner(number: real, kind: CornerType)

  datatype Track = Track(corners: seq<TrackCorner>)

  /** A corner of a session comparison. A driver's corner time is absent when
      the loaded record lacks the driver object or its `cornerTime`. */
  datatype SessionCorner = SessionCorner(cornerNumber: real, driverA: Option<real>, driverB: Option<real>)

  datatype Session = Session(corners: seq<SessionCorner>)

  /** One point of the chart. */
  datatype ChartRow = ChartRow(cornerNumber: real, cornerType: CornerType, driverA: real, driverB: real)

  /** `Array.prototype.find` for the corner with a given number: the first one. */
  function FindCorner(corners: seq<SessionCorner>, number: real): (r: Option<SessionCorner>)
    ensures r.None? <==> forall i :: 0 <= i < |corners| ==> corners[i].cornerNumber != number
    ensures r.Some? ==> exists i :: (0 <= i < |corners| && corners[i] == r.value && r.value.cornerNumber == number
      && forall j :: 0 <= j < i ==> corners[j].cornerNumber != number)
  {
    if corners == [] then None
    else if corners[0].cornerNumber == number then
      Some(corners[0])
    else
      var r := FindCorner(corners[1..], number);
      if r.Some? then
        var i :| 0 <= i < |corners[1..]| && corners[1..][i] == r.value && r.value.cornerNumber == number
          && forall j :: 0 <= j < i ==> corners[1..][j].cornerNumber != number;
        assert corners[i + 1] == r.value;
        assert forall j :: 0 <= j < i + 1 ==> corners[j].cornerNumber != number by {
          forall j | 0 <= j < i + 1 ensures corners[j].cornerNumber != number {
            if j > 0 {
              assert corners[j] == corners[1..][j - 1];
            }
          }
        }
        r
      else
        assert forall i :: 0 <= i < |corners| ==> corners[i].cornerNumber != number by {
          forall i | 0 <= i < |corners| ensures corners[i].cornerNumber != number {
            if i > 0 {
              assert corners[i] == corners[1..][i - 1];
            }
          }
        }
        r
  }

  /** `?? 0` */
  function OrZero(t: Option<real>): real {
    if t.Some? then t.value else 0.0
  }

  /** The chart row of one track corner. */
  function RowFor(corner: TrackCorner, session: Session): ChartRow {
    var found := FindCorner(session.corners, corner.number);
    ChartRow(corner.number, corner.kind,
             if found.Some? then OrZero(found.value.driverA) else 0.0,
             if found.Some? then OrZero(found.value.driverB) else 0.0)
  }

  /** `prepareData`: no track or no session gives no rows; otherwise one row
      per track corner, in track order, with the corner's number and type. */
  function PrepareData(track: Option<Track>, session: Option<Session>): (rows: seq<ChartRow>)
    ensures track.None? || session.None? ==> rows == []
    ensures track.Some? && session.Some? ==>
      && |rows| == |track.value.corners|
      && forall i :: 0 <= i < |rows| ==>
        rows[i].cornerNumber == track.value.corners[i].number && rows[i].cornerType == track.value.corners[i].kind
  {
    if track.None? || session.None? then []
    else seq(|track.value.corners|, i requires 0 <= i < |track.value.corners| => RowFor(track.value.corners[i], session.value))
  }

  /** A track corner with no session corner of the same number is charted at
      zero for both drivers. */
  lemma PrepareDataUnmatched(track: Track, session: Session, i: nat)
    requires i < |track.corners|
    requires forall k :: 0 <= k < |session.corners| ==> session.corners[k].cornerNumber != track.corners[i].number
    ensures var row := PrepareData(Some(track), Some(session))[i];
      row.driverA == 0.0 && row.driverB == 0.0
  {
  }

  /** Otherwise both times come from the first session corner with that
      number, an absent time giving zero. */
  lemma PrepareDataMatched(track: Track, session: Session, i: nat, k: nat)
    requires i < |track.corners| && k < |session.corners|
    requires session.corners[k].cornerNumber == track.corners[i].number
    requires forall j :: 0 <= j < k ==> session.corners[j].cornerNumber != track.corners[i].number
    ensures var row := PrepareData(Some(track), Some(session))[i];
      && row.driverA == (if session.corners[k].driverA.Some? then session.corners[k].driverA.value else 0.0)
      && row.driverB == (if session.corners[k].driverB.Some? then session.corners[k].driverB.value else 0.0)
  {
    var found := FindCorner(session.corners, track.corners[i].number);
    var m :| 0 <= m < |session.corners| && session.corners[m] == found.value
      && found.value.cornerNumber == track.corners[i].number
      && forall j :: 0 <= j < m ==> session.corners[j].cornerNumber != track.corners[i].number;
    assert m == k;
  }
}
