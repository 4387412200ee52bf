/** The lap-time chart of the session view: the per-lap series built from
    the session's laps (components/ChartPanel.tsx `buildChartData`), the
    padded y-axis range (`computeYDomain`), the choice of drivers to plot
    (`driversToDisplay`) and the "no selection" message condition. */
module LapChart {
  import opened Common
  import opened SessionData

  /** One point of the chart: a lap number and, for every plotted driver that
      has a lap with that number, its lap time in seconds or null (`None`). */
  datatype ChartDatum = ChartDatum(lapNumber: real, times: map<string, Option<real>>)

  /** `driverCodes.map(code => code.toUpperCase())` as a set. */
  function UpperSet(codes: seq<string>): (s: set<string>)
    ensures forall c :: c in s <==> exists i :: 0 <= i < |codes| && Upper(codes[i]) == c
  {
    set i | 0 <= i < |codes| :: Upper(codes[i])
  }

  /** The selection set is the set of the normalised codes: it holds only
      upper-cased codes and does not change when the selection is upper-cased
      first. */
  lemma UpperSetNormalized(codes: seq<string>)
    ensures UpperSet(codes) == set i | 0 <= i < |codes| :: UpperAll(codes)[i]
    ensures forall c :: c in UpperSet(codes) ==> IsUpperCased(c)
    ensures UpperSet(UpperAll(codes)) == UpperSet(codes)
  {
    UpperAllNormalizes(codes);
    forall c | c in UpperSet(codes) ensures IsUpperCased(c) {
      var i :| 0 <= i < |codes| && Upper(codes[i]) == c;
      UpperIsUpperCased(codes[i]);
    }
  }

  /** A lap takes part in the chart when it has a lap number, it is not an
      outlier being hidden (an absent validity flag counts as valid), and its
      upper-cased driver is among the selected codes. */
  predicate Contributes(lap: SessionLap, selected: set<string>, showOutliers: bool) {
    && lap.lapNumber.Some?
    && (showOutliers || lap.isValid != Some(false))
    && Upper(lap.driver) in selected
  }

  /** The lap-number-to-datum map after the laps have been visited in order:
      a contributing lap writes its time (or null) under its upper-cased
      driver in the entry for its lap number, over whatever was there. */
  function Grouped(laps: seq<SessionLap>, selected: set<string>, showOutliers: bool): map<real, map<string, Option<real>>>
    decreases |laps|
  {
    if laps == [] then map[]
    else AddLap(Grouped(laps[..|laps| - 1], selected, showOutliers), laps[|laps| - 1], selected, showOutliers)
  }

  /** One visit: a contributing lap writes its time under its upper-cased
      driver in the entry for its lap number. */
  function AddLap(g: map<real, map<string, Option<real>>>, lap: SessionLap, selected: set<string>, showOutliers: bool):
    map<real, map<string, Option<real>>>
  {
    if !Contributes(lap, selected, showOutliers) then g
    else
      var n := lap.lapNumber.value;
      var row := if n in g then g[n] else map[];
      g[n := row[Upper(lap.driver) := lap.lapTimeSeconds]]
  }

  /** A lap number has an entry exactly when some contributing lap carries it,
      and an entry holds a driver exactly when a contributing lap of that
      driver carries that number; only selected drivers ever appear. */
  lemma {:induction false} GroupedEntries(laps: seq<SessionLap>, selected: set<string>, showOutliers: bool, n: real, c: string)
    ensures n in Grouped(laps, selected, showOutliers) <==>
      exists k :: 0 <= k < |laps| && Contributes(laps[k], selected, showOutliers) && laps[k].lapNumber == Some(n)
    ensures n in Grouped(laps, selected, showOutliers) && c in Grouped(laps, selected, showOutliers)[n] <==>
      exists k :: 0 <= k < |laps| && Contributes(laps[k], selected, showOutliers) && laps[k].lapNumber == Some(n) && Upper(laps[k].driver) == c
    ensures n in Grouped(laps, selected, showOutliers) && c in Grouped(laps, selected, showOutliers)[n] ==> c in selected
    decreases |laps|
  {
    if laps != [] {
      var init := laps[..|laps| - 1];
      GroupedEntries(init, selected, showOutliers, n, c);
      forall k | 0 <= k < |init| ensures init[k] == laps[k] { }
    }
  }

  /** Last write wins: the value recorded for lap `n` and driver `c` is the
      time of the last contributing lap with that number and driver. */
  lemma {:induction false} GroupedLastWins(laps: seq<SessionLap>, selected: set<string>, showOutliers: bool, k: nat)
    requires k < |laps| && Contributes(laps[k], selected, showOutliers)
    requires forall m :: (k < m < |laps| && Contributes(laps[m], selected, showOutliers)
                          && laps[m].lapNumber == laps[k].lapNumber) ==> Upper(laps[m].driver) != Upper(laps[k].driver)
    ensures var g := Grouped(laps, selected, showOutliers);
      laps[k].lapNumber.value in g && Upper(laps[k].driver) in g[laps[k].lapNumber.value]
      && g[laps[k].lapNumber.value][Upper(laps[k].driver)] == laps[k].lapTimeSeconds
    decreases |laps|
  {
    var init := laps[..|laps| - 1];
    if k < |laps| - 1 {
      GroupedLastWins(init, selected, showOutliers, k);
    }
  }

  /** A lap that does not contribute (for instance an invalid lap while
      outliers are hidden) can be dropped without changing the result. */
  lemma {:induction false} GroupedIgnores(laps: seq<SessionLap>, selected: set<string>, showOutliers: bool, k: nat)
    requires k < |laps| && !Contributes(laps[k], selected, showOutliers)
    ensures Grouped(laps, selected, showOutliers) == Grouped(laps[..k] + laps[k + 1..], selected, showOutliers)
    decreases |laps|
  {
    var rest := laps[..k] + laps[k + 1..];
    if k == |laps| - 1 {
      assert rest == laps[..|laps| - 1];
    } else {
      var init := laps[..|laps| - 1];
      GroupedIgnores(init, selected, showOutliers, k);
      DropBeforeLast(laps, k);
    }
  }

  /** Dropping element `k` before the last element commutes with dropping the last one. */
  lemma DropBeforeLast<T>(s: seq<T>, k: nat)
    requires k < |s| - 1
    ensures var rest := s[..k] + s[k + 1..];
      && rest != [] && rest[..|rest| - 1] == s[..|s| - 1][..k] + s[..|s| - 1][k + 1..]
      && rest[|rest| - 1] == s[|s| - 1]
  {
    var rest := s[..k] + s[k + 1..];
    assert rest[..|rest| - 1] == s[..k] + s[k + 1..|s| - 1];
  }

  /** An invalid lap never influences the chart while outliers are hidden. */
  lemma HiddenOutlierIgnored(laps: seq<SessionLap>, selected: set<string>, k: nat)
    requires k < |laps| && laps[k].isValid == Some(false)
    ensures Grouped(laps, selected, false) == Grouped(laps[..k] + laps[k + 1..], selected, false)
  {
    GroupedIgnores(laps, selected, false, k);
  }

  predicate StrictlyIncreasing(data: seq<ChartDatum>) {
    forall i, j :: 0 <= i < j < |data| ==> data[i].lapNumber < data[j].lapNumber
  }

  /** `data` lists the entries of `g`, one datum per lap number, in ascending order. */
  predicate Lists(data: seq<ChartDatum>, g: map<real, map<string, Option<real>>>) {
    && StrictlyIncreasing(data)
    && (forall i :: 0 <= i < |data| ==> data[i].lapNumber in g && data[i].times == g[data[i].lapNumber])
    && (forall n :: n in g ==> exists i :: 0 <= i < |data| && data[i].lapNumber == n)
  }

  /** Inserts `d` into an ascending series whose lap numbers differ from `d`'s. */
  function InsertByLap(s: seq<ChartDatum>, d: ChartDatum): (r: seq<ChartDatum>)
    requires StrictlyIncreasing(s)
    requires forall i :: 0 <= i < |s| ==> s[i].lapNumber != d.lapNumber
    ensures |r| == |s| + 1 && StrictlyIncreasing(r)
    ensures r[0] == d || (s != [] && r[0] == s[0])
    decreases |s|
  {
    if s == [] then [d]
    else if d.lapNumber < s[0].lapNumber then [d] + s
    else [s[0]] + InsertByLap(s[1..], d)
  }

  /** Insertion adds `d` and keeps everything else. */
  lemma {:induction false} InsertByLapAdds(s: seq<ChartDatum>, d: ChartDatum)
    requires StrictlyIncreasing(s)
    requires forall i :: 0 <= i < |s| ==> s[i].lapNumber != d.lapNumber
    ensures multiset(InsertByLap(s, d)) == multiset(s) + multiset{d}
    decreases |s|
  {
    if s != [] && d.lapNumber >= s[0].lapNumber {
      InsertByLapAdds(s[1..], d);
      assert s == [s[0]] + s[1..];
    }
  }

  /** A datum not yet inserted has a lap number the sorted prefix lacks. */
  lemma NextLapIsNew(sorted: seq<ChartDatum>, ds: seq<ChartDatum>, i: nat)
    requires i < |ds| && multiset(sorted) == multiset(ds[..i])
    requires forall a, b :: 0 <= a < b < |ds| ==> ds[a].lapNumber != ds[b].lapNumber
    ensures forall k :: 0 <= k < |sorted| ==> sorted[k].lapNumber != ds[i].lapNumber
  {
    forall k | 0 <= k < |sorted| ensures sorted[k].lapNumber != ds[i].lapNumber {
      assert sorted[k] in multiset(ds[..i]);
      var m :| 0 <= m < i && ds[..i][m] == sorted[k];
    }
  }

  /** `Array.prototype.sort` by lap number, over data with distinct lap numbers. */
  method SortByLap(ds: seq<ChartDatum>) returns (sorted: seq<ChartDatum>)
    requires forall i, j :: 0 <= i < j < |ds| ==> ds[i].lapNumber != ds[j].lapNumber
    ensures StrictlyIncreasing(sorted)
    ensures multiset(sorted) == multiset(ds)
  {
    sorted := [];
    for i := 0 to |ds|
      invariant StrictlyIncreasing(sorted)
      invariant multiset(sorted) == multiset(ds[..i])
    {
      NextLapIsNew(sorted, ds, i);
      InsertByLapAdds(sorted, ds[i]);
      sorted := InsertByLap(sorted, ds[i]);
      assert ds[..i + 1] == ds[..i] + [ds[i]];
    }
    assert ds[..|ds|] == ds;
  }

  /** `buildChartData`: one datum per lap number that a contributing lap
      carries, holding the last time recorded for each selected driver,
      sorted by lap number; nothing at all without a session or a selection. */
  method BuildChartData(sessionData: Option<SessionPayload>, driverCodes: seq<string>, showOutliers: bool)
    returns (data: seq<ChartDatum>)
    ensures sessionData.None? || driverCodes == [] ==> data == []
    ensures sessionData.Some? && driverCodes != [] ==>
      Lists(data, Grouped(sessionData.value.laps, UpperSet(driverCodes), showOutliers))
  {
    if sessionData.None? || |driverCodes| == 0 {
      return [];
    }
    var driversSet := UpperSet(driverCodes);
    var lapsByNumber, keyOrder := GroupLaps(sessionData.value.laps, driversSet, showOutliers);
    data := SortedEntries(lapsByNumber, keyOrder);
  }

  /** The loop of `buildChartData` over the laps, filling the lap-number map
      and remembering the order in which lap numbers were first seen. */
  method GroupLaps(laps: seq<SessionLap>, driversSet: set<string>, showOutliers: bool)
    returns (lapsByNumber: map<real, map<string, Option<real>>>, keyOrder: seq<real>)
    ensures lapsByNumber == Grouped(laps, driversSet, showOutliers)
    ensures NoDuplicates(keyOrder) && forall n :: n in keyOrder <==> n in lapsByNumber
  {
    lapsByNumber, keyOrder := map[], [];
    for i := 0 to |laps|
      invariant lapsByNumber == Grouped(laps[..i], driversSet, showOutliers)
      invariant NoDuplicates(keyOrder)
      invariant forall n :: n in keyOrder <==> n in lapsByNumber
    {
      assert laps[..i + 1][..i] == laps[..i];
      var lap := laps[i];
      if lap.lapNumber.Some? && (showOutliers || lap.isValid != Some(false)) && Upper(lap.driver) in driversSet {
        var lapNumber := lap.lapNumber.value;
        var existing := if lapNumber in lapsByNumber then lapsByNumber[lapNumber] else map[];
        if lapNumber !in lapsByNumber {
          keyOrder := keyOrder + [lapNumber];
        }
        lapsByNumber := lapsByNumber[lapNumber := existing[Upper(lap.driver) := lap.lapTimeSeconds]];
      }
    }
    assert laps[..|laps|] == laps;
  }

  /** `Array.from(lapsByNumber.values()).sort(...)`: the map's entries as
      data, in ascending lap-number order. */
  method SortedEntries(lapsByNumber: map<real, map<string, Option<real>>>, keyOrder: seq<real>)
    returns (data: seq<ChartDatum>)
    requires NoDuplicates(keyOrder) && forall n :: n in keyOrder <==> n in lapsByNumber
    ensures Lists(data, lapsByNumber)
  {
    forall k | 0 <= k < |keyOrder| ensures keyOrder[k] in lapsByNumber {
      var n := keyOrder[k];
      assert n in keyOrder;
    }
    var values := seq(|keyOrder|, k requires 0 <= k < |keyOrder| => ChartDatum(keyOrder[k], lapsByNumber[keyOrder[k]]));
    data := SortByLap(values);
    forall i | 0 <= i < |data|
      ensures data[i].lapNumber in lapsByNumber && data[i].times == lapsByNumber[data[i].lapNumber]
    {
      assert data[i] in multiset(values);
    }
    forall n | n in lapsByNumber
      ensures exists i :: 0 <= i < |data| && data[i].lapNumber == n
    {
      var k :| 0 <= k < |keyOrder| && keyOrder[k] == n;
      assert values[k] in multiset(data);
    }
  }

  /** `entry[code.toUpperCase()]` when it is a number. */
  function ValueAt(d: ChartDatum, code: string): Option<real> {
    var key := Upper(code);
    if key in d.times then d.times[key] else None
  }

  /** The numbers that the active codes hold in one datum, in code order. */
  function RowValues(d: ChartDatum, codes: seq<string>): seq<real>
    decreases |codes|
  {
    if codes == [] then []
    else
      RowValues(d, codes[..|codes| - 1])
      + (match ValueAt(d, codes[|codes| - 1]) case Some(v) => [v] case None => [])
  }

  /** Every number the active codes hold across the series, in scan order. */
  function ActiveValues(data: seq<ChartDatum>, codes: seq<string>): seq<real>
    decreases |data|
  {
    if data == [] then [] else ActiveValues(data[..|data| - 1], codes) + RowValues(data[|data| - 1], codes)
  }

  lemma {:induction false} RowValuesMembers(d: ChartDatum, codes: seq<string>, v: real)
    ensures v in RowValues(d, codes) <==> exists j :: 0 <= j < |codes| && ValueAt(d, codes[j]) == Some(v)
    decreases |codes|
  {
    if codes != [] {
      var init := codes[..|codes| - 1];
      RowValuesMembers(d, init, v);
      forall j | 0 <= j < |init| ensures init[j] == codes[j] { }
    }
  }

  /** The scanned values are exactly the numbers found under an active code in some datum. */
  lemma {:induction false} ActiveValuesMembers(data: seq<ChartDatum>, codes: seq<string>, v: real)
    ensures v in ActiveValues(data, codes) <==>
      exists i, j :: 0 <= i < |data| && 0 <= j < |codes| && ValueAt(data[i], codes[j]) == Some(v)
    decreases |data|
  {
    if data != [] {
      var init, last := data[..|data| - 1], data[|data| - 1];
      ActiveValuesMembers(init, codes, v);
      RowValuesMembers(last, codes, v);
      assert ActiveValues(data, codes) == ActiveValues(init, codes) + RowValues(last, codes);
      if v in ActiveValues(init, codes) {
        var i, j :| 0 <= i < |init| && 0 <= j < |codes| && ValueAt(init[i], codes[j]) == Some(v);
        assert init[i] == data[i];
      } else if v in RowValues(last, codes) {
        var j :| 0 <= j < |codes| && ValueAt(last, codes[j]) == Some(v);
        assert ValueAt(data[|data| - 1], codes[j]) == Some(v);
      }
      if exists i, j :: 0 <= i < |data| && 0 <= j < |codes| && ValueAt(data[i], codes[j]) == Some(v) {
        var i, j :| 0 <= i < |data| && 0 <= j < |codes| && ValueAt(data[i], codes[j]) == Some(v);
        if i < |init| {
          assert ValueAt(init[i], codes[j]) == Some(v);
        } else {
          assert v in RowValues(last, codes);
        }
      }
    }
  }

  function Min(a: real, b: real): real { if a <= b then a else b }
  function Max(a: real, b: real): real { if a >= b then a else b }

  function SeqMin(s: seq<real>): real
    requires s != []
    decreases |s|
  {
    if |s| == 1 then s[0] else Min(SeqMin(s[..|s| - 1]), s[|s| - 1])
  }

  function SeqMax(s: seq<real>): real
    requires s != []
    decreases |s|
  {
    if |s| == 1 then s[0] else Max(SeqMax(s[..|s| - 1]), s[|s| - 1])
  }

  /** The running minimum and maximum are attained values and bound every value. */
  lemma {:induction false} SeqMinMaxBound(s: seq<real>)
    requires s != []
    ensures SeqMin(s) in s && SeqMax(s) in s
    ensures forall v :: v in s ==> SeqMin(s) <= v <= SeqMax(s)
    decreases |s|
  {
    if |s| > 1 {
      var init := s[..|s| - 1];
      SeqMinMaxBound(init);
      assert s == init + [s[|s| - 1]];
    }
  }

  /** `[max(min - p, 0), max + p]` with `p = max(0.05 * (max - min), 0.3)`. */
  function Padded(lo: real, hi: real): (real, real) {
    var padding := Max((hi - lo) * 0.05, 0.3);
    (Max(lo - padding, 0.0), hi + padding)
  }

  /** `computeYDomain`: no range when no active code holds a number anywhere,
      otherwise the padded range around the smallest and largest of them. */
  method ComputeYDomain(data: seq<ChartDatum>, drivers: seq<string>) returns (domain: Option<(real, real)>)
    ensures domain.None? <==> ActiveValues(data, drivers) == []
    ensures domain.Some? ==>
      domain.value == Padded(SeqMin(ActiveValues(data, drivers)), SeqMax(ActiveValues(data, drivers)))
  {
    // None stands for the initial Infinity / -Infinity.
    var min: Option<real> := None;
    var max: Option<real> := None;
    ghost var seen: seq<real> := [];
    for i := 0 to |data|
      invariant seen == ActiveValues(data[..i], drivers)
      invariant min.None? <==> seen == []
      invariant max.None? <==> seen == []
      invariant seen != [] ==> min == Some(SeqMin(seen)) && max == Some(SeqMax(seen))
    {
      assert data[..i + 1][..i] == data[..i];
      seen, min, max := ScanDatum(data[i], drivers, seen, min, max);
    }
    assert data[..|data|] == data;
    if min.None? || max.None? {
      return None;
    }
    domain := Some(Padded(min.value, max.value));
  }

  /** One more value moves the running minimum and maximum by at most that value. */
  lemma MinMaxSnoc(s: seq<real>, v: real)
    ensures SeqMin(s + [v]) == if s == [] then v else Min(SeqMin(s), v)
    ensures SeqMax(s + [v]) == if s == [] then v else Max(SeqMax(s), v)
  {
    assert (s + [v])[..|s|] == s;
  }

  /** The inner loop of `computeYDomain`: folds the active codes' numbers in
      one datum into the running minimum and maximum. */
  method ScanDatum(d: ChartDatum, drivers: seq<string>, ghost before: seq<real>, min0: Option<real>, max0: Option<real>)
    returns (ghost seen: seq<real>, min: Option<real>, max: Option<real>)
    requires min0.None? <==> before == []
    requires max0.None? <==> before == []
    requires before != [] ==> min0 == Some(SeqMin(before)) && max0 == Some(SeqMax(before))
    ensures seen == before + RowValues(d, drivers)
    ensures min.None? <==> seen == []
    ensures max.None? <==> seen == []
    ensures seen != [] ==> min == Some(SeqMin(seen)) && max == Some(SeqMax(seen))
  {
    seen, min, max := before, min0, max0;
    for j := 0 to |drivers|
      invariant seen == before + RowValues(d, drivers[..j])
      invariant min.None? <==> seen == []
      invariant max.None? <==> seen == []
      invariant seen != [] ==> min == Some(SeqMin(seen)) && max == Some(SeqMax(seen))
    {
      assert drivers[..j + 1][..j] == drivers[..j];
      var value := ValueAt(d, drivers[j]);
      if value.Some? {
        var v := value.value;
        MinMaxSnoc(seen, v);
        seen := seen + [v];
        min := Some(if min.None? then v else Min(min.value, v));
        max := Some(if max.None? then v else Max(max.value, v));
      }
    }
    assert drivers[..|drivers|] == drivers;
  }

  /** The range never goes below zero, leaves at least 0.3 s above the
      largest value, is never empty, and contains every non-negative value. */
  lemma PaddedRange(values: seq<real>)
    requires values != []
    ensures var r := Padded(SeqMin(values), SeqMax(values));
      && r.0 >= 0.0
      && r.1 >= SeqMax(values) + 0.3
      && (SeqMax(values) >= 0.0 ==> r.0 < r.1)
      && forall v :: v in values && v >= 0.0 ==> r.0 <= v <= r.1
  {
    SeqMinMaxBound(values);
  }

  /** `driversToDisplay`: the upper-cased selection restricted to codes that
      key the session's driver table, in selection order; when that is empty,
      the first four upper-cased driver keys; nothing without a session. */
  function DriversToDisplay(sessionData: Option<SessionPayload>, selectedDrivers: seq<string>): (r: seq<string>)
  {
    if sessionData.None? then []
    else
      var keys := DriverKeys(sessionData.value.drivers);
      var filtered := KeepOnly(UpperAll(selectedDrivers), set k | k in keys);
      if |filtered| > 0 then filtered
      else
        var available := UpperAll(keys);
        available[..if |available| < 4 then |available| else 4]
  }

  function UpperAll(codes: seq<string>): (r: seq<string>)
    ensures |r| == |codes|
    ensures forall i :: 0 <= i < |codes| ==> r[i] == Upper(codes[i])
  {
    seq(|codes|, i requires 0 <= i < |codes| => Upper(codes[i]))
  }

  /** The normalised selection holds only upper-cased codes, and normalising
      it again changes nothing. */
  lemma UpperAllNormalizes(codes: seq<string>)
    ensures forall i :: 0 <= i < |codes| ==> IsUpperCased(UpperAll(codes)[i])
    ensures UpperAll(UpperAll(codes)) == UpperAll(codes)
  {
    forall i | 0 <= i < |codes| ensures IsUpperCased(UpperAll(codes)[i]) && Upper(UpperAll(codes)[i]) == UpperAll(codes)[i] {
      UpperIsUpperCased(codes[i]);
    }
  }

  /** When some selected code names a driver of the session, exactly the
      selected codes that do are shown, in selection order and as often as
      they were selected; otherwise at most four available drivers are, in
      table order. */
  lemma DriversToDisplayChoice(sessionData: SessionPayload, selectedDrivers: seq<string>)
    ensures var keys := DriverKeys(sessionData.drivers);
      var r := DriversToDisplay(Some(sessionData), selectedDrivers);
      && ((exists i :: 0 <= i < |selectedDrivers| && Upper(selectedDrivers[i]) in keys) ==>
            && r == KeepOnly(UpperAll(selectedDrivers), set k | k in keys)
            && r != [] && (forall c :: c in r <==> c in UpperAll(selectedDrivers) && c in keys)
            && forall c :: multiset(r)[c] == if c in keys then multiset(UpperAll(selectedDrivers))[c] else 0)
      && ((forall i :: 0 <= i < |selectedDrivers| ==> Upper(selectedDrivers[i]) !in keys) ==>
            |r| == (if |keys| < 4 then |keys| else 4) && forall j :: 0 <= j < |r| ==> r[j] == Upper(keys[j]))
  {
    var keys := DriverKeys(sessionData.drivers);
    if i :| 0 <= i < |selectedDrivers| && Upper(selectedDrivers[i]) in keys {
      DisplaySelected(sessionData, selectedDrivers, i);
      var r := DriversToDisplay(Some(sessionData), selectedDrivers);
      forall c ensures multiset(r)[c] == if c in keys then multiset(UpperAll(selectedDrivers))[c] else 0 {
        KeepOnlyCount(UpperAll(selectedDrivers), (set k | k in keys), c);
      }
    } else {
      DisplayFallback(sessionData, selectedDrivers);
    }
  }

  /** A selected code that names a driver makes the display the filtered selection. */
  lemma DisplaySelected(sessionData: SessionPayload, selectedDrivers: seq<string>, i: nat)
    requires i < |selectedDrivers| && Upper(selectedDrivers[i]) in DriverKeys(sessionData.drivers)
    ensures var keys := DriverKeys(sessionData.drivers);
      var r := DriversToDisplay(Some(sessionData), selectedDrivers);
      && r == KeepOnly(UpperAll(selectedDrivers), set k | k in keys)
      && r != [] && (forall c :: c in r <==> c in UpperAll(selectedDrivers) && c in keys)
  {
    var keys := DriverKeys(sessionData.drivers);
    var normalized := UpperAll(selectedDrivers);
    var known := set k | k in keys;
    KeepOnlyMembers(normalized, known);
    assert normalized[i] in KeepOnly(normalized, known);
  }

  /** Without a selected code that names a driver, the first four driver keys are shown. */
  lemma DisplayFallback(sessionData: SessionPayload, selectedDrivers: seq<string>)
    requires forall i :: 0 <= i < |selectedDrivers| ==> Upper(selectedDrivers[i]) !in DriverKeys(sessionData.drivers)
    ensures var keys := DriverKeys(sessionData.drivers);
      var r := DriversToDisplay(Some(sessionData), selectedDrivers);
      |r| == (if |keys| < 4 then |keys| else 4) && forall j :: 0 <= j < |r| ==> r[j] == Upper(keys[j])
  {
    var keys := DriverKeys(sessionData.drivers);
    var normalized := UpperAll(selectedDrivers);
    var known := set k | k in keys;
    KeepOnlyMembers(normalized, known);
    assert forall k :: 0 <= k < |normalized| ==> normalized[k] !in known;
  }

  /** `showNoSelectionMessage`: no code is selected, or none of the displayed
      drivers is a selected one. */
  function ShowNoSelectionMessage(sessionData: Option<SessionPayload>, selectedDrivers: seq<string>): bool
  {
    var normalized := UpperAll(selectedDrivers);
    var display := DriversToDisplay(sessionData, selectedDrivers);
    |normalized| == 0 || !(exists i :: 0 <= i < |display| && display[i] in normalized)
  }

  /** With upper-case driver keys (as the pipeline writes them), the message
      shows exactly when there is no session or no selected code names one of
      its drivers. */
  lemma NoSelectionMessageExactly(sessionData: Option<SessionPayload>, selectedDrivers: seq<string>)
    requires sessionData.Some? ==> forall i :: 0 <= i < |sessionData.value.drivers| ==> IsUpperCased(sessionData.value.drivers[i].key)
    ensures ShowNoSelectionMessage(sessionData, selectedDrivers) <==>
      sessionData.None? || forall i :: 0 <= i < |selectedDrivers| ==> Upper(selectedDrivers[i]) !in DriverKeys(sessionData.value.drivers)
  {
    if sessionData.Some? {
      var p := sessionData.value;
      var keys := DriverKeys(p.drivers);
      var normalized := UpperAll(selectedDrivers);
      var display := DriversToDisplay(sessionData, selectedDrivers);
      if i :| 0 <= i < |selectedDrivers| && Upper(selectedDrivers[i]) in keys {
        DisplaySelected(p, selectedDrivers, i);
        assert display[0] in normalized;
      } else {
        DisplayFallback(p, selectedDrivers);
        forall j | 0 <= j < |display| ensures display[j] !in normalized {
          UpperCasedFixed(keys[j]);
        }
      }
    }
  }
}
