/** The bulk download script (scripts/bulk_fetch_fastf1_data.py): session
    code normalisation, the round filter, the per-round loop over session
    codes, the loop over the calendar, and the final tally. Fetching a
    session, building its payload and writing it to disk are one step here,
    a function from the session identifier to the fetch status and message. */
module BulkFetch {
  import opened Common

  /** `normalize_session_code`: surrounding whitespace removed, then upper-cased. */
  function NormalizeSessionCode(code: string): (r: string)
    ensures IsUpperCased(r)
  {
    UpperIsUpperCased(Trim(Python, code));
    Upper(Trim(Python, code))
  }

  /** A normalised code has no surrounding whitespace, and normalising it again changes nothing. */
  lemma NormalizeIdempotent(code: string)
    ensures var r := NormalizeSessionCode(code);
      (r == [] || (!IsPySpace(r[0]) && !IsPySpace(r[|r| - 1])))
      && NormalizeSessionCode(r) == r
  {
    var t := Trim(Python, code);
    var r := Upper(t);
    TrimEnds(Python, code);
    UpperIsUpperCased(t);
    if r != [] {
      assert r[0] == UpperChar(t[0]) && r[|r| - 1] == UpperChar(t[|t| - 1]);
      TrimUnchanged(Python, r);
    } else {
      assert Trim(Python, r) == [];
    }
  }

  /** One entry of the calendar's `rounds` list: its `id` and its `round` number. */
  datatype RoundEntry = RoundEntry(id: Option<string>, roundNumber: Option<int>)

  /** `should_include_round`: no filter, or an empty one, lets every round
      through; otherwise the round needs a non-empty id that the filter holds. */
  predicate ShouldIncludeRound(entry: RoundEntry, wanted: Option<set<string>>) {
    if wanted.None? || wanted.value == {} then true
    else if entry.id.None? || entry.id.value == "" then false
    else entry.id.value in wanted.value
  }

  /** Without a filter, or with an empty one, every round is included, with or without an id. */
  lemma ShouldIncludeRoundWithoutFilter(entry: RoundEntry, wanted: Option<set<string>>)
    requires wanted.None? || wanted.value == {}
    ensures ShouldIncludeRound(entry, wanted)
  {
  }

  /** With a non-empty filter, a round is included exactly when its id is one
      of the filter's non-empty ids. */
  lemma ShouldIncludeRoundMeaning(entry: RoundEntry, wanted: set<string>)
    requires wanted != {}
    ensures ShouldIncludeRound(entry, Some(wanted)) <==> exists t :: t in wanted && t != "" && entry.id == Some(t)
  {
  }

  /** What the fetch of one session reports. */
  datatype FetchStatus = FetchStatus(status: string, message: Option<string>)

  /** `FetchSummary`, without the output path. */
  datatype FetchSummary = FetchSummary(
    roundId: Option<string>, roundNumber: Option<int>, sessionCode: string, status: string, message: Option<string>)

  /** The summary of fetching one session code of one round. */
  function SummaryFor(year: int, entry: RoundEntry, code: string, fetch: (int, Option<string>, string) -> FetchStatus)
    : FetchSummary
  {
    var c := NormalizeSessionCode(code);
    var r := fetch(year, entry.id, c);
    FetchSummary(entry.id, entry.roundNumber, c, r.status, r.message)
  }

  /** A round without an id stops the script at its first session code:
      `resolve_cache` joins the missing id onto a path, which raises. */
  predicate RoundAborts(entry: RoundEntry, codes: seq<string>) {
    entry.id.None? && codes != []
  }

  /** `fetch_round_sessions`: one summary per session code, in order, each
      carrying the round and the normalised code it was fetched for; nothing
      when the round has no id and there is a code to fetch. */
  method FetchRoundSessions(year: int, entry: RoundEntry, codes: seq<string>,
                            fetch: (int, Option<string>, string) -> FetchStatus)
    returns (results: Option<seq<FetchSummary>>)
    ensures results.None? <==> RoundAborts(entry, codes)
    ensures results.Some? ==> results.value == RoundSummaries(year, entry, codes, fetch)
  {
    var acc := [];
    for k := 0 to |codes|
      invariant |acc| == k
      invariant entry.id.None? ==> k == 0
      invariant forall i :: 0 <= i < k ==> acc[i] == SummaryFor(year, entry, codes[i], fetch)
    {
      var sessionCode := NormalizeSessionCode(codes[k]);
      if entry.id.None? {
        return None;
      }
      var fetched := fetch(year, entry.id, sessionCode);
      acc := acc + [FetchSummary(entry.id, entry.roundNumber, sessionCode, fetched.status, fetched.message)];
    }
    results := Some(acc);
  }

  /** The summaries of one round, as a sequence. */
  function RoundSummaries(year: int, entry: RoundEntry, codes: seq<string>,
                          fetch: (int, Option<string>, string) -> FetchStatus): (r: seq<FetchSummary>)
    ensures |r| == |codes|
  {
    seq(|codes|, i requires 0 <= i < |codes| => SummaryFor(year, entry, codes[i], fetch))
  }

  /** One summary per session code, in order, each carrying the round, the
      normalised code and what the fetch for that round and code reported. */
  lemma RoundSummariesShape(year: int, entry: RoundEntry, codes: seq<string>,
                            fetch: (int, Option<string>, string) -> FetchStatus)
    ensures var rs := RoundSummaries(year, entry, codes, fetch);
      && |rs| == |codes|
      && forall i :: 0 <= i < |codes| ==>
        && rs[i].roundId == entry.id && rs[i].roundNumber == entry.roundNumber
        && rs[i].sessionCode == NormalizeSessionCode(codes[i])
        && IsUpperCased(rs[i].sessionCode)
        && rs[i].status == fetch(year, entry.id, rs[i].sessionCode).status
        && rs[i].message == fetch(year, entry.id, rs[i].sessionCode).message
  {
  }

  /** The summaries of all included rounds, in calendar order. */
  function AllSummaries(year: int, rounds: seq<RoundEntry>, wanted: Option<set<string>>, codes: seq<string>,
                        fetch: (int, Option<string>, string) -> FetchStatus): seq<FetchSummary>
    decreases |rounds|
  {
    if rounds == [] then []
    else
      var last := rounds[|rounds| - 1];
      AllSummaries(year, rounds[..|rounds| - 1], wanted, codes, fetch)
      + (if ShouldIncludeRound(last, wanted) then RoundSummaries(year, last, codes, fetch) else [])
  }

  /** The number of rounds the filter lets through. */
  function IncludedRounds(rounds: seq<RoundEntry>, wanted: Option<set<string>>): (n: nat)
    ensures n <= |rounds|
    decreases |rounds|
  {
    if rounds == [] then 0
    else IncludedRounds(rounds[..|rounds| - 1], wanted) + (if ShouldIncludeRound(rounds[|rounds| - 1], wanted) then 1 else 0)
  }

  /** Each included round contributes one summary per session code. */
  lemma {:induction false} AllSummariesLength(year: int, rounds: seq<RoundEntry>, wanted: Option<set<string>>,
                                              codes: seq<string>, fetch: (int, Option<string>, string) -> FetchStatus)
    ensures |AllSummaries(year, rounds, wanted, codes, fetch)| == |codes| * IncludedRounds(rounds, wanted)
    decreases |rounds|
  {
    if rounds != [] {
      var init := rounds[..|rounds| - 1];
      var last := rounds[|rounds| - 1];
      var n := IncludedRounds(init, wanted);
      var before := AllSummaries(year, init, wanted, codes, fetch);
      AllSummariesLength(year, init, wanted, codes, fetch);
      assert |before| == |codes| * n;
      if ShouldIncludeRound(last, wanted) {
        assert IncludedRounds(rounds, wanted) == n + 1;
        assert |AllSummaries(year, rounds, wanted, codes, fetch)| == |before| + |codes|;
        MultiplyStep(|codes|, n);
      } else {
        assert IncludedRounds(rounds, wanted) == n;
        assert AllSummaries(year, rounds, wanted, codes, fetch) == before + [];
      }
    }
  }

  lemma MultiplyStep(a: nat, n: nat)
    ensures a * (n + 1) == a * n + a
  {
  }

  /** Only included rounds contribute: every summary belongs to a round the
      filter lets through. */
  lemma {:induction false} AllSummariesFromIncludedRounds(year: int, rounds: seq<RoundEntry>, wanted: Option<set<string>>,
                                                          codes: seq<string>, fetch: (int, Option<string>, string) -> FetchStatus,
                                                          s: FetchSummary)
    requires s in AllSummaries(year, rounds, wanted, codes, fetch)
    ensures codes != []
    ensures exists k :: 0 <= k < |rounds| && ShouldIncludeRound(rounds[k], wanted) &&
                        s.roundId == rounds[k].id && s.roundNumber == rounds[k].roundNumber
    decreases |rounds|
  {
    var init := rounds[..|rounds| - 1];
    var last := rounds[|rounds| - 1];
    if s in AllSummaries(year, init, wanted, codes, fetch) {
      AllSummariesFromIncludedRounds(year, init, wanted, codes, fetch, s);
      var k :| 0 <= k < |init| && ShouldIncludeRound(init[k], wanted)
        && s.roundId == init[k].id && s.roundNumber == init[k].roundNumber;
      assert rounds[k] == init[k];
    } else {
      RoundSummaryOf(year, last, codes, fetch, s);
    }
  }

  /** A summary of one round carries that round's id. */
  lemma RoundSummaryOf(year: int, entry: RoundEntry, codes: seq<string>,
                       fetch: (int, Option<string>, string) -> FetchStatus, s: FetchSummary)
    requires s in RoundSummaries(year, entry, codes, fetch)
    ensures codes != [] && s.roundId == entry.id && s.roundNumber == entry.roundNumber
  {
  }

  /** Every included round contributes its summaries when there is a code to fetch. */
  lemma {:induction false} IncludedRoundContributes(year: int, rounds: seq<RoundEntry>, wanted: Option<set<string>>,
                                                    codes: seq<string>, fetch: (int, Option<string>, string) -> FetchStatus,
                                                    k: nat)
    requires k < |rounds| && ShouldIncludeRound(rounds[k], wanted) && codes != []
    ensures SummaryFor(year, rounds[k], codes[0], fetch) in AllSummaries(year, rounds, wanted, codes, fetch)
    decreases |rounds|
  {
    var init := rounds[..|rounds| - 1];
    if k < |init| {
      IncludedRoundContributes(year, init, wanted, codes, fetch, k);
      assert init[k] == rounds[k];
    } else {
      assert RoundSummaries(year, rounds[k], codes, fetch)[0] == SummaryFor(year, rounds[k], codes[0], fetch);
    }
  }

  /** Whether the calendar loop aborts: it reaches an included round that
      aborts. */
  predicate FetchAborts(rounds: seq<RoundEntry>, wanted: Option<set<string>>, codes: seq<string>)
    decreases |rounds|
  {
    rounds != [] &&
    (FetchAborts(rounds[..|rounds| - 1], wanted, codes) ||
     (ShouldIncludeRound(rounds[|rounds| - 1], wanted) && RoundAborts(rounds[|rounds| - 1], codes)))
  }

  /** The calendar loop aborts exactly when some included round has no id and
      there is a session code to fetch. */
  lemma {:induction false} FetchAbortsMeaning(rounds: seq<RoundEntry>, wanted: Option<set<string>>, codes: seq<string>)
    ensures FetchAborts(rounds, wanted, codes) <==>
      codes != [] && exists k :: 0 <= k < |rounds| && ShouldIncludeRound(rounds[k], wanted) && rounds[k].id.None?
    decreases |rounds|
  {
    if rounds != [] {
      var init := rounds[..|rounds| - 1];
      FetchAbortsMeaning(init, wanted, codes);
      if codes != [] && exists k :: 0 <= k < |rounds| && ShouldIncludeRound(rounds[k], wanted) && rounds[k].id.None? {
        var k :| 0 <= k < |rounds| && ShouldIncludeRound(rounds[k], wanted) && rounds[k].id.None?;
        if k < |init| {
          assert init[k] == rounds[k];
        }
      }
      if FetchAborts(init, wanted, codes) {
        var k :| 0 <= k < |init| && ShouldIncludeRound(init[k], wanted) && init[k].id.None?;
        assert rounds[k] == init[k];
      }
    }
  }

  /** When the calendar loop does not abort, every summary names its round. */
  lemma SummariesHaveRoundIds(year: int, rounds: seq<RoundEntry>, wanted: Option<set<string>>,
                              codes: seq<string>, fetch: (int, Option<string>, string) -> FetchStatus)
    requires !FetchAborts(rounds, wanted, codes)
    ensures forall s :: s in AllSummaries(year, rounds, wanted, codes, fetch) ==> s.roundId.Some?
  {
    FetchAbortsMeaning(rounds, wanted, codes);
    forall s | s in AllSummaries(year, rounds, wanted, codes, fetch) ensures s.roundId.Some? {
      AllSummariesFromIncludedRounds(year, rounds, wanted, codes, fetch, s);
    }
  }

  /** Some summary has no round number. */
  predicate Unnumbered(summaries: seq<FetchSummary>) {
    exists i :: 0 <= i < |summaries| && summaries[i].roundNumber.None?
  }

  /** A summary without a round number appears exactly when some included
      round lacks its number and there is a session code to fetch. */
  lemma UnnumberedFromRounds(year: int, rounds: seq<RoundEntry>, wanted: Option<set<string>>,
                             codes: seq<string>, fetch: (int, Option<string>, string) -> FetchStatus)
    ensures Unnumbered(AllSummaries(year, rounds, wanted, codes, fetch)) <==>
      codes != [] && exists k :: 0 <= k < |rounds| && ShouldIncludeRound(rounds[k], wanted) && rounds[k].roundNumber.None?
  {
    var all := AllSummaries(year, rounds, wanted, codes, fetch);
    if Unnumbered(all) {
      var i :| 0 <= i < |all| && all[i].roundNumber.None?;
      AllSummariesFromIncludedRounds(year, rounds, wanted, codes, fetch, all[i]);
    }
    if codes != [] && exists k :: 0 <= k < |rounds| && ShouldIncludeRound(rounds[k], wanted) && rounds[k].roundNumber.None? {
      var k :| 0 <= k < |rounds| && ShouldIncludeRound(rounds[k], wanted) && rounds[k].roundNumber.None?;
      IncludedRoundContributes(year, rounds, wanted, codes, fetch, k);
      var s := SummaryFor(year, rounds[k], codes[0], fetch);
      var i :| 0 <= i < |all| && all[i] == s;
    }
  }

  /** The loop of `main` over the calendar: the summaries of the included
      rounds in order, or nothing when it aborts on a round without an id. */
  method CollectSummaries(year: int, rounds: seq<RoundEntry>, wanted: Option<set<string>>, codes: seq<string>,
                          fetch: (int, Option<string>, string) -> FetchStatus)
    returns (summaries: Option<seq<FetchSummary>>)
    ensures summaries.None? <==> FetchAborts(rounds, wanted, codes)
    ensures summaries.Some? ==> summaries.value == AllSummaries(year, rounds, wanted, codes, fetch)
  {
    var acc := [];
    for k := 0 to |rounds|
      invariant !FetchAborts(rounds[..k], wanted, codes)
      invariant acc == AllSummaries(year, rounds[..k], wanted, codes, fetch)
    {
      var got := CollectRound(year, rounds[k], wanted, codes, fetch);
      AllSummariesPrefix(year, rounds, wanted, codes, fetch, k);
      if got.None? {
        FetchAbortsMeaning(rounds, wanted, codes);
        return None;
      }
      acc := acc + got.value;
    }
    assert rounds[..|rounds|] == rounds;
    summaries := Some(acc);
  }

  /** The summaries of the first `k + 1` rounds extend those of the first `k`. */
  lemma AllSummariesPrefix(year: int, rounds: seq<RoundEntry>, wanted: Option<set<string>>, codes: seq<string>,
                           fetch: (int, Option<string>, string) -> FetchStatus, k: nat)
    requires k < |rounds|
    ensures AllSummaries(year, rounds[..k + 1], wanted, codes, fetch) ==
      AllSummaries(year, rounds[..k], wanted, codes, fetch)
      + (if ShouldIncludeRound(rounds[k], wanted) then RoundSummaries(year, rounds[k], codes, fetch) else [])
    ensures FetchAborts(rounds[..k + 1], wanted, codes) <==>
      FetchAborts(rounds[..k], wanted, codes) || (ShouldIncludeRound(rounds[k], wanted) && RoundAborts(rounds[k], codes))
  {
    assert rounds[..k + 1][..k] == rounds[..k];
  }

  /** One pass of the calendar loop: the round's summaries when it is
      included, none when it is not, nothing when it aborts. */
  method CollectRound(year: int, entry: RoundEntry, wanted: Option<set<string>>, codes: seq<string>,
                      fetch: (int, Option<string>, string) -> FetchStatus)
    returns (got: Option<seq<FetchSummary>>)
    ensures got.None? <==> ShouldIncludeRound(entry, wanted) && RoundAborts(entry, codes)
    ensures got.Some? ==> got.value == if ShouldIncludeRound(entry, wanted) then RoundSummaries(year, entry, codes, fetch) else []
  {
    if ShouldIncludeRound(entry, wanted) {
      got := FetchRoundSessions(year, entry, codes, fetch);
    } else {
      got := Some([]);
    }
  }

  /** The number of summaries with status `ok`. */
  function CountOk(summaries: seq<FetchSummary>): nat
    decreases |summaries|
  {
    if summaries == [] then 0
    else CountOk(summaries[..|summaries| - 1]) + (if summaries[|summaries| - 1].status == "ok" then 1 else 0)
  }

  /** The summaries whose status is not `ok`, in order. */
  function Failures(summaries: seq<FetchSummary>): seq<FetchSummary>
    decreases |summaries|
  {
    if summaries == [] then []
    else
      var last := summaries[|summaries| - 1];
      Failures(summaries[..|summaries| - 1]) + (if last.status == "ok" then [] else [last])
  }

  /** Every summary is counted as a success or listed as a failure, never both. */
  lemma {:induction false} TallyPartitions(summaries: seq<FetchSummary>)
    ensures CountOk(summaries) + |Failures(summaries)| == |summaries|
    ensures forall f :: f in Failures(summaries) ==> f in summaries && f.status != "ok"
    decreases |summaries|
  {
    if summaries != [] {
      var init := summaries[..|summaries| - 1];
      TallyPartitions(init);
      forall f | f in Failures(summaries) ensures f in summaries && f.status != "ok" {
        if f in Failures(init) {
          assert f in init;
        }
      }
    }
  }

  /** The report and tally loop of `main`: it stops at the first summary
      without a round number, whose `02d` format raises; otherwise it counts
      the `ok` summaries and lists the others. */
  method Tally(summaries: seq<FetchSummary>) returns (aborted: bool, success: nat, failures: seq<FetchSummary>)
    ensures aborted <==> Unnumbered(summaries)
    ensures !aborted ==> success == CountOk(summaries) && failures == Failures(summaries)
  {
    aborted, success, failures := false, 0, [];
    for k := 0 to |summaries|
      invariant success == CountOk(summaries[..k]) && failures == Failures(summaries[..k])
      invariant forall i :: 0 <= i < k ==> summaries[i].roundNumber.Some?
    {
      if summaries[k].roundNumber.None? {
        return true, success, failures;
      }
      assert summaries[..k + 1][..k] == summaries[..k];
      if summaries[k].status == "ok" {
        success := success + 1;
      } else {
        failures := failures + [summaries[k]];
      }
    }
    assert summaries[..|summaries|] == summaries;
  }

  /** The session codes as `main` prepares them. */
  function NormalizeAll(codes: seq<string>): (r: seq<string>)
    ensures |r| == |codes| && forall i :: 0 <= i < |codes| ==> r[i] == NormalizeSessionCode(codes[i])
  {
    seq(|codes|, i requires 0 <= i < |codes| => NormalizeSessionCode(codes[i]))
  }

  /** `set(args.tracks) if args.tracks else None` */
  function TracksFilter(tracks: Option<seq<string>>): Option<set<string>> {
    if tracks.None? || tracks.value == [] then None else Some(set t | t in tracks.value)
  }

  /** The filter exists exactly when track ids are given; with it, a round is
      included exactly when its non-empty id is one of them. */
  lemma TracksFilterMeaning(tracks: Option<seq<string>>, entry: RoundEntry)
    ensures TracksFilter(tracks).Some? <==> tracks.Some? && tracks.value != []
    ensures ShouldIncludeRound(entry, TracksFilter(tracks)) <==>
      tracks.None? || tracks.value == [] || (entry.id.Some? && entry.id.value != "" && entry.id.value in tracks.value)
  {
    if tracks.Some? && tracks.value != [] {
      assert tracks.value[0] in TracksFilter(tracks).value;
    }
  }

  /** `main` codes are normalised once there and once more per round; the
      second normalisation changes nothing, so each summary carries the
      normalised form of the code given on the command line. */
  lemma SummaryCodesNormalizedOnce(year: int, entry: RoundEntry, codes: seq<string>,
                                   fetch: (int, Option<string>, string) -> FetchStatus)
    ensures RoundSummaries(year, entry, NormalizeAll(codes), fetch) == RoundSummaries(year, entry, codes, fetch)
  {
    forall i | 0 <= i < |codes|
      ensures SummaryFor(year, entry, NormalizeAll(codes)[i], fetch) == SummaryFor(year, entry, codes[i], fetch)
    {
      NormalizeIdempotent(codes[i]);
    }
  }

  /** How a run of the script ends. */
  datatype BulkOutcome =
    | NoRounds
    | RoundWithoutId
    | RoundWithoutNumber
    | Completed(summaries: seq<FetchSummary>, success: nat, failures: seq<FetchSummary>)

  /** `main`, after the calendar file has been read: stops when the calendar
      has no rounds, aborts on an included round without an id or, while
      reporting, on one without a number, and otherwise fetches every included
      round and tallies. */
  method RunBulkFetch(year: int, rounds: seq<RoundEntry>, sessions: seq<string>, tracks: Option<seq<string>>,
                      fetch: (int, Option<string>, string) -> FetchStatus)
    returns (outcome: BulkOutcome)
    ensures rounds == [] <==> outcome.NoRounds?
    ensures var wanted := TracksFilter(tracks);
      var codes := NormalizeAll(sessions);
      && (outcome.RoundWithoutId? <==>
            rounds != [] && codes != [] && exists k :: 0 <= k < |rounds| && ShouldIncludeRound(rounds[k], wanted) && rounds[k].id.None?)
      && (outcome.RoundWithoutNumber? <==>
            rounds != [] && !FetchAborts(rounds, wanted, codes) && Unnumbered(AllSummaries(year, rounds, wanted, codes, fetch)))
    ensures outcome.Completed? ==>
      && outcome.summaries == AllSummaries(year, rounds, TracksFilter(tracks), NormalizeAll(sessions), fetch)
      && outcome.success == CountOk(outcome.summaries)
      && outcome.failures == Failures(outcome.summaries)
      && forall s :: s in outcome.summaries ==> s.roundId.Some? && s.roundNumber.Some?
  {
    if rounds == [] {
      return NoRounds;
    }
    var codes := NormalizeAll(sessions);
    var wanted := TracksFilter(tracks);
    var summaries := CollectSummaries(year, rounds, wanted, codes, fetch);
    FetchAbortsMeaning(rounds, wanted, codes);
    if summaries.None? {
      return RoundWithoutId;
    }
    SummariesHaveRoundIds(year, rounds, wanted, codes, fetch);
    var aborted, success, failures := Tally(summaries.value);
    if aborted {
      return RoundWithoutNumber;
    }
    outcome := Completed(summaries.value, success, failures);
  }
}
