/** Corner detection on a speed trace, per-corner metrics, and the greedy
    matching of two drivers' corners by apex distance (f1_corners.py).
    Speeds, distances and times are exact reals. */
module Corners {
  import opened Common

  /** One detected corner: three sample indices into the trace. */
  datatype CornerSpan = CornerSpan(startIdx: nat, apexIdx: nat, endIdx: nat)

  /** Speed falls strictly at every step from index `lo` to index `hi`. */
  predicate Descending(sp: seq<real>, lo: nat, hi: nat)
    requires lo <= hi < |sp|
  {
    forall m :: lo <= m < hi ==> sp[m] > sp[m + 1]
  }

  /** What every detected corner satisfies: ordered indices inside the trace,
      at least `minLen` samples long, a braking step of at least 0.5 into it,
      a strict descent from the sample after the start to the apex, and a
      total drop of at least `minDrop` over that descent. */
  predicate IsCorner(sp: seq<real>, c: CornerSpan, minDrop: real, minLen: int) {
    && c.startIdx < c.apexIdx <= c.endIdx < |sp|
    && c.endIdx - c.startIdx >= minLen
    && sp[c.startIdx] - sp[c.startIdx + 1] >= 0.5
    && Descending(sp, c.startIdx + 1, c.apexIdx)
    && sp[c.startIdx + 1] - sp[c.apexIdx] >= minDrop
  }

  /** The end of the strict descent that starts at `j`: the first sample
      from which the speed no longer falls. */
  function DescentEnd(sp: seq<real>, j: nat): (r: nat)
    requires j < |sp|
    ensures j <= r < |sp| && Descending(sp, j, r)
    ensures r < |sp| - 1 ==> sp[r] - sp[r + 1] <= 0.0
    decreases |sp| - j
  {
    if j < |sp| - 1 && sp[j] - sp[j + 1] > 0.0 then DescentEnd(sp, j + 1) else j
  }

  /** The speed gained over the step from sample `m` to sample `m + 1`, or 0 on a loss. */
  function Gain(sp: seq<real>, m: nat): real
    requires m + 1 < |sp|
  {
    if sp[m + 1] - sp[m] > 0.0 then sp[m + 1] - sp[m] else 0.0
  }

  /** The speed recovered from the apex `a` up to sample `k`: the gains of
      every step in between, losses counting as nothing. */
  function Recovered(sp: seq<real>, a: nat, k: nat): (r: real)
    requires a <= k < |sp|
    ensures r >= 0.0
    decreases k - a
  {
    if k == a then 0.0 else Recovered(sp, a, k - 1) + Gain(sp, k - 1)
  }

  /** The recovery scan moves on from sample `k`: there is a next sample,
      less than `minRecovery` has been recovered, and the next step does not
      fall by more than 0.2. */
  predicate Continues(sp: seq<real>, a: nat, k: nat, minRecovery: real)
    requires a <= k < |sp|
  {
    k < |sp| - 1 && Recovered(sp, a, k) < minRecovery && sp[k + 1] - sp[k] >= -0.2
  }

  /** The recovery scan from apex `a` stops at `k`: it went on from every
      sample before `k` and not from `k`. So the corner ends when the speed
      has recovered by `minRecovery`, when the trend reverses, or at the end
      of the trace. */
  predicate RecoveryStopsAt(sp: seq<real>, a: nat, k: nat, minRecovery: real) {
    && a <= k < |sp|
    && !Continues(sp, a, k, minRecovery)
    && forall m :: a <= m < k ==> Continues(sp, a, m, minRecovery)
  }

  /** Where the recovery scan from apex `a`, now at `k`, stops. */
  function RecoveryFrom(sp: seq<real>, a: nat, k: nat, minRecovery: real): (r: nat)
    requires a <= k < |sp|
    requires forall m :: a <= m < k ==> Continues(sp, a, m, minRecovery)
    ensures k <= r && RecoveryStopsAt(sp, a, r, minRecovery)
    decreases |sp| - k
  {
    if Continues(sp, a, k, minRecovery) then RecoveryFrom(sp, a, k + 1, minRecovery) else k
  }

  /** The recovery scan stops at one sample only: the first one it does not go on from. */
  lemma RecoveryStopUnique(sp: seq<real>, a: nat, k1: nat, k2: nat, minRecovery: real)
    requires RecoveryStopsAt(sp, a, k1, minRecovery) && RecoveryStopsAt(sp, a, k2, minRecovery)
    ensures k1 == k2
  {
  }

  /** `min(k + 1, n - 1)`, the end index of a corner whose recovery stops at `k`. */
  function EndAfter(sp: seq<real>, k: nat): int {
    if k + 1 < |sp| - 1 then k + 1 else |sp| - 1
  }

  /** The apex is a local minimum: the speed falls into it (`IsCorner`) and
      does not fall out of it. */
  predicate ApexIsLocalMin(sp: seq<real>, c: CornerSpan)
    requires c.apexIdx < |sp|
  {
    c.apexIdx < |sp| - 1 ==> sp[c.apexIdx] <= sp[c.apexIdx + 1]
  }

  /** The corner ends one sample after the recovery scan from its apex stops,
      or at the last sample. */
  predicate EndsAtRecovery(sp: seq<real>, c: CornerSpan, minRecovery: real) {
    exists k: nat :: k < |sp| && RecoveryStopsAt(sp, c.apexIdx, k, minRecovery) && c.endIdx == EndAfter(sp, k)
  }

  /** Everything a detected corner satisfies. */
  predicate Detected(sp: seq<real>, c: CornerSpan, minDrop: real, minRecovery: real, minLen: int) {
    && IsCorner(sp, c, minDrop, minLen)
    && ApexIsLocalMin(sp, c)
    && EndsAtRecovery(sp, c, minRecovery)
  }

  /** Every corner of `cs` is a detected corner starting at or after `lo`,
      and each ends before the next one starts. */
  predicate SoundFrom(sp: seq<real>, cs: seq<CornerSpan>, lo: int, minDrop: real, minRecovery: real, minLen: int) {
    && (forall m :: 0 <= m < |cs| ==> Detected(sp, cs[m], minDrop, minRecovery, minLen) && lo <= cs[m].startIdx)
    && (forall m :: 0 < m < |cs| ==> cs[m - 1].endIdx <= cs[m].startIdx)
  }

  /** One round of the scan at position `i`: the corner it records, if any,
      and the position where the scan resumes. A gentle step moves on by one;
      a braking window whose drop is too small is skipped; otherwise the
      window and its recovery form a corner, kept when it is long enough. */
  function Round(sp: seq<real>, i: nat, minDrop: real, minRecovery: real, minLen: int): (r: (seq<CornerSpan>, nat))
    requires 1 <= i < |sp| - 2
    ensures i < r.1
    ensures SoundFrom(sp, r.0, i - 1, minDrop, minRecovery, minLen)
    ensures forall m :: 0 <= m < |r.0| ==> r.0[m].endIdx < r.1
  {
    if sp[i - 1] - sp[i] < 0.5 then ([], i + 1)
    else
      var j := DescentEnd(sp, i);
      if sp[i] - sp[j] >= minDrop then
        var k := RecoveryFrom(sp, j, j, minRecovery);
        var startIdx := if i - 1 > 0 then i - 1 else 0;
        var endIdx := EndAfter(sp, k);
        if endIdx - startIdx >= minLen then
          FoundCorner(sp, i, j, k, endIdx, minDrop, minRecovery, minLen);
          ([CornerSpan(startIdx, j, endIdx)], endIdx + 1)
        else ([], endIdx + 1)
      else ([], j + 1)
  }

  /** The corners the scan finds from position `i` on. */
  function DetectFrom(sp: seq<real>, i: nat, minDrop: real, minRecovery: real, minLen: int): seq<CornerSpan>
    requires 1 <= i
    decreases |sp| - i
  {
    if i >= |sp| - 2 then []
    else
      var r := Round(sp, i, minDrop, minRecovery, minLen);
      r.0 + DetectFrom(sp, r.1, minDrop, minRecovery, minLen)
  }

  /** `detect_corners`: the scan for braking zones. The distance trace the
      source also receives is never read, so it is not a parameter. */
  method DetectCorners(sp: seq<real>, minDrop: real, minRecovery: real, minLen: int)
    returns (corners: seq<CornerSpan>)
    ensures corners == DetectFrom(sp, 1, minDrop, minRecovery, minLen)
    ensures |sp| < 4 ==> corners == []
    ensures SoundFrom(sp, corners, 0, minDrop, minRecovery, minLen)
  {
    var n := |sp|;
    ghost var all := DetectFrom(sp, 1, minDrop, minRecovery, minLen);
    corners := [];
    var i := 1;
    while i < n - 2
      invariant 1 <= i
      invariant corners + DetectFrom(sp, i, minDrop, minRecovery, minLen) == all
      decreases n - i
    {
      var found, next := DetectStep(sp, i, minDrop, minRecovery, minLen);
      assert corners + found + DetectFrom(sp, next, minDrop, minRecovery, minLen)
        == corners + (found + DetectFrom(sp, next, minDrop, minRecovery, minLen));
      corners := corners + found;
      i := next;
    }
    assert corners + [] == corners;
    DetectFromSound(sp, 1, minDrop, minRecovery, minLen);
  }

  /** The body of the detector's loop: one round of the scan at position `i`. */
  method DetectStep(sp: seq<real>, i: nat, minDrop: real, minRecovery: real, minLen: int)
    returns (found: seq<CornerSpan>, next: nat)
    requires 1 <= i < |sp| - 2
    ensures i < next
    ensures DetectFrom(sp, i, minDrop, minRecovery, minLen) == found + DetectFrom(sp, next, minDrop, minRecovery, minLen)
  {
    found, next := RoundOf(sp, i, minDrop, minRecovery, minLen);
    DetectFromUnfold(sp, i, minDrop, minRecovery, minLen);
  }

  /** The steps of one round, computed by the detector's inner loops. */
  method RoundOf(sp: seq<real>, i: nat, minDrop: real, minRecovery: real, minLen: int)
    returns (found: seq<CornerSpan>, next: nat)
    requires 1 <= i < |sp| - 2
    ensures (found, next) == Round(sp, i, minDrop, minRecovery, minLen)
  {
    var n := |sp|;
    if sp[i - 1] - sp[i] < 0.5 {
      return [], i + 1;
    }
    var j, drop := BrakingWindow(sp, i);
    if drop >= minDrop {
      var apexIdx := j;
      var k := Recovery(sp, apexIdx, minRecovery);
      var startIdx := if i - 1 > 0 then i - 1 else 0;
      var endIdx := if k + 1 < n - 1 then k + 1 else n - 1;
      if endIdx - startIdx >= minLen {
        found := [CornerSpan(startIdx, apexIdx, endIdx)];
      } else {
        found := [];
      }
      next := endIdx + 1;
    } else {
      found, next := [], j + 1;
    }
  }

  /** The scan from `i` is one round followed by the scan from where it resumes. */
  lemma DetectFromUnfold(sp: seq<real>, i: nat, minDrop: real, minRecovery: real, minLen: int)
    requires 1 <= i < |sp| - 2
    ensures var r := Round(sp, i, minDrop, minRecovery, minLen);
      DetectFrom(sp, i, minDrop, minRecovery, minLen) == r.0 + DetectFrom(sp, r.1, minDrop, minRecovery, minLen)
  {
  }

  /** The corners the scan finds from position `i` on are detected corners,
      starting no earlier than `i - 1`, that do not overlap. */
  lemma {:induction false} DetectFromSound(sp: seq<real>, i: nat, minDrop: real, minRecovery: real, minLen: int)
    requires 1 <= i
    ensures SoundFrom(sp, DetectFrom(sp, i, minDrop, minRecovery, minLen), i - 1, minDrop, minRecovery, minLen)
    decreases |sp| - i
  {
    if i < |sp| - 2 {
      var r := Round(sp, i, minDrop, minRecovery, minLen);
      DetectFromSound(sp, r.1, minDrop, minRecovery, minLen);
      AppendSound(sp, r.0, DetectFrom(sp, r.1, minDrop, minRecovery, minLen), i - 1, r.1 - 1, minDrop, minRecovery, minLen);
    }
  }

  /** Sound corners followed by sound corners that start after the first ones end. */
  lemma AppendSound(sp: seq<real>, cs: seq<CornerSpan>, rest: seq<CornerSpan>, lo: int, hi: int,
                    minDrop: real, minRecovery: real, minLen: int)
    requires lo <= hi
    requires SoundFrom(sp, cs, lo, minDrop, minRecovery, minLen)
    requires forall m :: 0 <= m < |cs| ==> cs[m].endIdx <= hi
    requires SoundFrom(sp, rest, hi, minDrop, minRecovery, minLen)
    ensures SoundFrom(sp, cs + rest, lo, minDrop, minRecovery, minLen)
  {
    var all := cs + rest;
    forall m | |cs| <= m < |all| ensures all[m] == rest[m - |cs|] {
    }
  }

  /** A window that passed the detector's tests is a detected corner. */
  lemma FoundCorner(sp: seq<real>, i: nat, apexIdx: nat, k: nat, endIdx: nat, minDrop: real, minRecovery: real, minLen: int)
    requires 1 <= i <= apexIdx <= endIdx < |sp|
    requires sp[i - 1] - sp[i] >= 0.5 && Descending(sp, i, apexIdx) && sp[i] - sp[apexIdx] >= minDrop
    requires apexIdx < |sp| - 1 ==> sp[apexIdx] <= sp[apexIdx + 1]
    requires RecoveryStopsAt(sp, apexIdx, k, minRecovery) && endIdx == EndAfter(sp, k)
    requires endIdx - (i - 1) >= minLen
    ensures Detected(sp, CornerSpan(i - 1, apexIdx, endIdx), minDrop, minRecovery, minLen)
  {
  }

  /** The descent loop of the detector: from `i`, follow the strict descent
      of the speed and add up the drop. */
  method BrakingWindow(sp: seq<real>, i: nat) returns (j: nat, drop: real)
    requires i < |sp|
    ensures j == DescentEnd(sp, i)
    ensures drop == sp[i] - sp[j]
  {
    j := i;
    drop := 0.0;
    while j < |sp| - 1 && sp[j] - sp[j + 1] > 0.0
      invariant i <= j < |sp|
      invariant drop == sp[i] - sp[j]
      invariant DescentEnd(sp, j) == DescentEnd(sp, i)
      decreases |sp| - j
    {
      drop := drop + (sp[j] - sp[j + 1]);
      j := j + 1;
    }
  }

  /** The recovery loop of the detector: from the apex, advance while the
      speed has not recovered by `minRecovery` and does not fall by more
      than 0.2 per step. */
  method Recovery(sp: seq<real>, apexIdx: nat, minRecovery: real) returns (k: nat)
    requires apexIdx < |sp|
    ensures RecoveryStopsAt(sp, apexIdx, k, minRecovery)
    ensures k == RecoveryFrom(sp, apexIdx, apexIdx, minRecovery)
  {
    k := apexIdx;
    var recover := 0.0;
    while k < |sp| - 1 && recover < minRecovery && sp[k + 1] - sp[k] >= -0.2
      invariant apexIdx <= k < |sp|
      invariant recover == Recovered(sp, apexIdx, k)
      invariant forall m :: apexIdx <= m < k ==> Continues(sp, apexIdx, m, minRecovery)
      invariant RecoveryFrom(sp, apexIdx, k, minRecovery) == RecoveryFrom(sp, apexIdx, apexIdx, minRecovery)
      decreases |sp| - k
    {
      recover := recover + (if sp[k + 1] - sp[k] > 0.0 then sp[k + 1] - sp[k] else 0.0);
      k := k + 1;
    }
  }

  // ---------------------------------------------------------------------
  // Per-corner metrics
  // ---------------------------------------------------------------------

  /** One sample of the resampled telemetry: its distance, speed and time. */
  datatype Sample = Sample(distance: real, speed: real, timeS: real)

  datatype CornerMetrics = CornerMetrics(
    corner: nat,
    dStart: real, dApex: real, dEnd: real,
    entrySpeed: real, apexSpeed: real, exitSpeed: real,
    cornerTime: real)

  /** Row `m` of the metrics describes corner `c`, numbered `m + 1`. */
  predicate Describes(row: CornerMetrics, m: nat, tel: seq<Sample>, c: CornerSpan)
    requires c.startIdx < |tel| && c.apexIdx < |tel| && c.endIdx < |tel|
  {
    && row.corner == m + 1
    && row.cornerTime == tel[c.endIdx].timeS - tel[c.startIdx].timeS
    && row.dStart == tel[c.startIdx].distance && row.dApex == tel[c.apexIdx].distance
    && row.dEnd == tel[c.endIdx].distance
    && row.entrySpeed == tel[c.startIdx].speed && row.apexSpeed == tel[c.apexIdx].speed
    && row.exitSpeed == tel[c.endIdx].speed
  }

  /** `per_corner_metrics`: one row per corner, numbered from 1 in order,
      whose corner time is the time at the end minus the time at the start. */
  method PerCornerMetrics(tel: seq<Sample>, corners: seq<CornerSpan>) returns (rows: seq<CornerMetrics>)
    requires forall m :: 0 <= m < |corners| ==>
      corners[m].startIdx < |tel| && corners[m].apexIdx < |tel| && corners[m].endIdx < |tel|
    ensures |rows| == |corners|
    ensures forall m :: 0 <= m < |corners| ==> Describes(rows[m], m, tel, corners[m])
  {
    rows := [];
    for m := 0 to |corners|
      invariant |rows| == m
      invariant forall q :: 0 <= q < m ==> Describes(rows[q], q, tel, corners[q])
    {
      var c := corners[m];
      var row := CornerMetrics(
        m + 1,
        tel[c.startIdx].distance, tel[c.apexIdx].distance, tel[c.endIdx].distance,
        tel[c.startIdx].speed, tel[c.apexIdx].speed, tel[c.endIdx].speed,
        tel[c.endIdx].timeS - tel[c.startIdx].timeS);
      rows := rows + [row];
    }
  }

  // ---------------------------------------------------------------------
  // Matching corners by apex distance
  // ---------------------------------------------------------------------

  function Distance(a: real, b: real): (r: real)
    ensures r >= 0.0 && (r == a - b || r == b - a)
  {
    if a >= b then a - b else b - a
  }

  /** The initial "best difference" of the search: no candidate at or above it is taken. */
  const Unmatched: real := 1000000000.0

  /** The search for `x` among the first `n` candidates of `ds`, skipping
      `used`: the best index so far and its difference. */
  function Scan(x: real, ds: seq<real>, used: set<nat>, tol: real, n: nat): (r: (Option<nat>, real))
    requires n <= |ds|
    decreases n
  {
    if n == 0 then (None, Unmatched)
    else
      var prev := Scan(x, ds, used, tol, n - 1);
      var diff := Distance(x, ds[n - 1]);
      if n - 1 !in used && diff < prev.1 && diff <= tol then (Some(n - 1), diff) else prev
  }

  /** A candidate the search may take. */
  predicate Eligible(x: real, ds: seq<real>, used: set<nat>, tol: real, j: nat) {
    j < |ds| && j !in used && Distance(x, ds[j]) <= tol && Distance(x, ds[j]) < Unmatched
  }

  /** The search finds the eligible candidate nearest to `x`, the earliest
      one among equally near candidates, and finds nothing only when no
      candidate is eligible. */
  lemma {:induction false} ScanFindsNearest(x: real, ds: seq<real>, used: set<nat>, tol: real, n: nat)
    requires n <= |ds|
    ensures var r := Scan(x, ds, used, tol, n);
      && (r.0.None? ==> r.1 == Unmatched)
      && (r.0.Some? ==> r.0.value < n && Eligible(x, ds, used, tol, r.0.value) && r.1 == Distance(x, ds[r.0.value]))
      && (forall j :: 0 <= j < n && Eligible(x, ds, used, tol, j) ==>
            r.0.Some? && (r.1 < Distance(x, ds[j]) || (r.1 == Distance(x, ds[j]) && r.0.value <= j)))
    decreases n
  {
    if n > 0 {
      ScanFindsNearest(x, ds, used, tol, n - 1);
    }
  }

  function UsedB(matches: seq<(nat, nat)>): set<nat> {
    set m | m in matches :: m.1
  }

  /** The matches after the first `|dA|` corners of A. */
  function Align(dA: seq<real>, dB: seq<real>, tol: real): seq<(nat, nat)>
    decreases |dA|
  {
    if dA == [] then []
    else
      var prev := Align(dA[..|dA| - 1], dB, tol);
      var r := Scan(dA[|dA| - 1], dB, UsedB(prev), tol, |dB|);
      if r.0.Some? then prev + [(|dA| - 1, r.0.value)] else prev
  }

  /** Every match pairs existing corners whose apexes lie within the tolerance. */
  predicate WithinTolerance(ms: seq<(nat, nat)>, dA: seq<real>, dB: seq<real>, tol: real) {
    forall k :: 0 <= k < |ms| ==> ms[k].0 < |dA| && ms[k].1 < |dB| && Distance(dA[ms[k].0], dB[ms[k].1]) <= tol
  }

  /** A indices strictly increase and no B index repeats. */
  predicate OneToOne(ms: seq<(nat, nat)>) {
    forall k, l :: 0 <= k < l < |ms| ==> ms[k].0 < ms[l].0 && ms[k].1 != ms[l].1
  }

  /** Every match pairs real corners within the tolerance; A indices strictly
      increase and no B corner is used twice. */
  lemma {:induction false} AlignIsOneToOne(dA: seq<real>, dB: seq<real>, tol: real)
    ensures WithinTolerance(Align(dA, dB, tol), dA, dB, tol)
    ensures OneToOne(Align(dA, dB, tol))
    ensures forall k :: 0 <= k < |Align(dA, dB, tol)| ==> Align(dA, dB, tol)[k].0 < |dA|
    decreases |dA|
  {
    if dA != [] {
      var init := dA[..|dA| - 1];
      var prev := Align(init, dB, tol);
      AlignIsOneToOne(init, dB, tol);
      assert WithinTolerance(prev, dA, dB, tol) by {
        forall k | 0 <= k < |prev|
          ensures prev[k].0 < |dA| && prev[k].1 < |dB| && Distance(dA[prev[k].0], dB[prev[k].1]) <= tol
        {
          assert dA[prev[k].0] == init[prev[k].0];
        }
      }
      var r := Scan(dA[|dA| - 1], dB, UsedB(prev), tol, |dB|);
      ScanFindsNearest(dA[|dA| - 1], dB, UsedB(prev), tol, |dB|);
      if r.0.Some? {
        var j := r.0.value;
        var ms := prev + [(|dA| - 1, j)];
        assert Align(dA, dB, tol) == ms;
        forall k | 0 <= k < |prev| ensures prev[k].1 != j {
          assert prev[k] in prev;
        }
      }
    }
  }

  /** The apex distance of every corner. */
  function ApexDistances(corners: seq<CornerSpan>, distance: seq<real>): (r: seq<real>)
    requires forall m :: 0 <= m < |corners| ==> corners[m].apexIdx < |distance|
    ensures |r| == |corners| && forall m :: 0 <= m < |corners| ==> r[m] == distance[corners[m].apexIdx]
  {
    seq(|corners|, m requires 0 <= m < |corners| => distance[corners[m].apexIdx])
  }

  /** The inner loop of the matcher: the nearest unused candidate within the tolerance. */
  method NearestUnused(x: real, ds: seq<real>, used: set<nat>, tol: real) returns (best: Option<nat>)
    ensures best == Scan(x, ds, used, tol, |ds|).0
  {
    best := None;
    var bestDiff := Unmatched;
    for j := 0 to |ds|
      invariant (best, bestDiff) == Scan(x, ds, used, tol, j)
    {
      if j !in used {
        var diff := Distance(x, ds[j]);
        if diff < bestDiff && diff <= tol {
          best := Some(j);
          bestDiff := diff;
        }
      }
    }
  }

  /** `align_corners_by_distance` */
  method AlignCornersByDistance(cornersA: seq<CornerSpan>, distanceA: seq<real>,
                                cornersB: seq<CornerSpan>, distanceB: seq<real>, tol: real)
    returns (matches: seq<(nat, nat)>)
    requires forall m :: 0 <= m < |cornersA| ==> cornersA[m].apexIdx < |distanceA|
    requires forall m :: 0 <= m < |cornersB| ==> cornersB[m].apexIdx < |distanceB|
    ensures matches == Align(ApexDistances(cornersA, distanceA), ApexDistances(cornersB, distanceB), tol)
  {
    var apexA := ApexDistances(cornersA, distanceA);
    var apexB := ApexDistances(cornersB, distanceB);
    matches := [];
    var used: set<nat> := {};
    for i := 0 to |apexA|
      invariant matches == Align(apexA[..i], apexB, tol)
      invariant used == UsedB(matches)
    {
      var best := NearestUnused(apexA[i], apexB, used, tol);
      assert apexA[..i + 1][..i] == apexA[..i];
      if best.Some? {
        used := used + {best.value};
        matches := matches + [(i, best.value)];
      }
    }
    assert apexA[..|apexA|] == apexA;
  }
}
