/** The analysis-history table as an append-only log of records, with the
    three operations of `db_service`: save, latest-by-key and history. */
module DbService {
  import opened Wrappers
  import Seqs
  import Sorting

  /** The stored result: whatever JSON the aggregation produced. */
  datatype Json =
    | JNull
    | JBool(b: bool)
    | JNumber(n: real)
    | JString(s: string)
    | JArray(items: seq<Json>)
    | JObject(fields: seq<(string, Json)>)

  /** One row of `analysis_history`. `createdAt` is the clock reading at
      insertion, an abstract instant supplied by the caller. */
  datatype AnalysisRecord = AnalysisRecord(
    id: nat,
    userId: string,
    analysisType: string,
    timeRange: string,
    result: Json,
    createdAt: int)

  /** The table: rows in insertion order. Nothing updates or deletes them. */
  type Log = seq<AnalysisRecord>

  /** Primary keys are 1, 2, 3, ... in insertion order. */
  predicate WellFormed(log: Log)
  {
    forall i :: 0 <= i < |log| ==> log[i].id == i + 1
  }

  function CreatedAt(r: AnalysisRecord): int { r.createdAt }

  /** The table after a save, and the row the save returns. */
  datatype Saved = Saved(log: Log, record: AnalysisRecord)

  /** `save_analysis`: append one row carrying exactly the given fields,
      stamped with `now`. */
  function SaveAnalysis(log: Log, userId: string, analysisType: string, timeRange: string,
                        result: Json, now: int): (s: Saved)
    ensures |s.log| == |log| + 1 && s.log[..|log|] == log && s.log[|log|] == s.record
    ensures s.record.userId == userId && s.record.analysisType == analysisType
    ensures s.record.timeRange == timeRange && s.record.result == result
    ensures s.record.createdAt == now
    ensures WellFormed(log) ==> WellFormed(s.log)
  {
    var record := AnalysisRecord(|log| + 1, userId, analysisType, timeRange, result, now);
    Saved(log + [record], record)
  }

  /** A row answers the latest-by-key lookup for these three values. */
  predicate MatchesKey(r: AnalysisRecord, userId: string, analysisType: string, timeRange: string)
  {
    r.userId == userId && r.analysisType == analysisType && r.timeRange == timeRange
  }

  /** `get_latest_analysis`: a matching row whose `createdAt` is maximal, or
      `None` when no row matches. SQL leaves the choice among equal
      timestamps open; this model takes the one inserted last. */
  function GetLatestAnalysis(log: Log, userId: string, analysisType: string, timeRange: string)
    : (r: Option<AnalysisRecord>)
    ensures r.None? <==> forall i :: 0 <= i < |log| ==> !MatchesKey(log[i], userId, analysisType, timeRange)
    ensures r.Some? ==>
              && r.value in log
              && MatchesKey(r.value, userId, analysisType, timeRange)
              && forall i :: 0 <= i < |log| && MatchesKey(log[i], userId, analysisType, timeRange) ==>
                   log[i].createdAt <= r.value.createdAt
  {
    if |log| == 0 then None
    else
      var earlier := log[..|log| - 1];
      var last := log[|log| - 1];
      var best := GetLatestAnalysis(earlier, userId, analysisType, timeRange);
      assert forall i :: 0 <= i < |log| - 1 ==> log[i] == earlier[i];
      if !MatchesKey(last, userId, analysisType, timeRange) then best
      else if best.Some? && best.value.createdAt > last.createdAt then best
      else Some(last)
  }

  /** Saving and then asking for the same key returns the saved row, provided
      the save's instant is strictly later than every stored one (at an equal
      instant `ORDER BY created_at DESC` may return either row). */
  lemma LatestAfterSave(log: Log, userId: string, analysisType: string, timeRange: string,
                        result: Json, now: int)
    requires forall i :: 0 <= i < |log| ==> log[i].createdAt < now
    ensures var s := SaveAnalysis(log, userId, analysisType, timeRange, result, now);
            GetLatestAnalysis(s.log, userId, analysisType, timeRange) == Some(s.record)
  {
    var s := SaveAnalysis(log, userId, analysisType, timeRange, result, now);
    assert s.log[..|s.log| - 1] == log;
  }

  /** A save does not change the answer for any other key. */
  lemma LatestOtherKeyUnchanged(log: Log, userId: string, analysisType: string, timeRange: string,
                                result: Json, now: int, u: string, t: string, tr: string)
    requires (u, t, tr) != (userId, analysisType, timeRange)
    ensures var s := SaveAnalysis(log, userId, analysisType, timeRange, result, now);
            GetLatestAnalysis(s.log, u, t, tr) == GetLatestAnalysis(log, u, t, tr)
  {
    var s := SaveAnalysis(log, userId, analysisType, timeRange, result, now);
    assert s.log[..|s.log| - 1] == log;
  }

  /** `if analysis_type:`: null and "" apply no type filter. */
  predicate TypeFilterActive(analysisType: Option<string>)
  {
    analysisType.Some? && analysisType.value != ""
  }

  /** A row belongs to the user's history listing. */
  predicate InHistory(r: AnalysisRecord, userId: string, analysisType: Option<string>)
  {
    r.userId == userId && (TypeFilterActive(analysisType) ==> r.analysisType == analysisType.value)
  }

  function HistoryFilter(userId: string, analysisType: Option<string>): AnalysisRecord -> bool
  {
    r => InHistory(r, userId, analysisType)
  }

  /** The rows the history query selects before ordering and limiting. */
  function HistoryMatches(log: Log, userId: string, analysisType: Option<string>): Log
  {
    Seqs.Filter(log, HistoryFilter(userId, analysisType))
  }

  /** `LIMIT n`: a negative limit means no limit (SQLite, the default database). */
  function LimitOf(limit: int, available: nat): nat
  {
    if limit < 0 then available else limit
  }

  /** `get_user_analysis_history`: the user's rows, optionally of one type,
      newest first, at most `limit` of them. */
  function GetUserAnalysisHistory(log: Log, userId: string, analysisType: Option<string>, limit: int)
    : (r: seq<AnalysisRecord>)
    ensures forall i :: 0 <= i < |r| ==> r[i].userId == userId
    ensures TypeFilterActive(analysisType) ==>
              forall i :: 0 <= i < |r| ==> r[i].analysisType == analysisType.value
    ensures Sorting.SortedDesc(r, CreatedAt)
    ensures multiset(r) <= multiset(HistoryMatches(log, userId, analysisType))
    ensures |r| == if 0 <= limit < |HistoryMatches(log, userId, analysisType)| then limit
                   else |HistoryMatches(log, userId, analysisType)|
    ensures forall x, y :: x in multiset(HistoryMatches(log, userId, analysisType)) - multiset(r) && y in r ==>
              x.createdAt <= y.createdAt
  {
    var matches := HistoryMatches(log, userId, analysisType);
    var sorted := Sorting.SortDesc(matches, CreatedAt);
    var r := Seqs.Take(sorted, LimitOf(limit, |sorted|));
    NewestKept(matches, sorted, r);
    HistoryRowsMatch(log, userId, analysisType, r);
    r
  }

  lemma HistoryRowsMatch(log: Log, userId: string, analysisType: Option<string>, r: Log)
    requires forall i :: 0 <= i < |r| ==> r[i] in HistoryMatches(log, userId, analysisType)
    ensures forall i :: 0 <= i < |r| ==> InHistory(r[i], userId, analysisType)
  {
    var matches := HistoryMatches(log, userId, analysisType);
    forall i | 0 <= i < |r| ensures InHistory(r[i], userId, analysisType) {
      var j :| 0 <= j < |matches| && matches[j] == r[i];
      assert HistoryFilter(userId, analysisType)(matches[j]);
    }
  }

  /** Cutting a newest-first ordering keeps the newest rows. */
  lemma NewestKept(matches: Log, sorted: Log, r: Log)
    requires sorted == Sorting.SortDesc(matches, CreatedAt)
    requires r <= sorted
    ensures forall i :: 0 <= i < |r| ==> r[i] in matches
    ensures Sorting.SortedDesc(r, CreatedAt)
    ensures multiset(r) <= multiset(matches)
    ensures forall x, y :: x in multiset(matches) - multiset(r) && y in r ==> x.createdAt <= y.createdAt
  {
    var rest := sorted[|r|..];
    assert sorted == r + rest;
    assert multiset(matches) == multiset(r) + multiset(rest);
    PrefixMembers(sorted, r);
    PrefixSorted(sorted, r);
    assert multiset(matches) - multiset(r) == multiset(rest);
    forall x: AnalysisRecord, y: AnalysisRecord | x in multiset(rest) && y in r
      ensures x.createdAt <= y.createdAt
    {
      RestNotNewer(sorted, |r|, x, y);
    }
  }

  lemma PrefixMembers(sorted: Log, r: Log)
    requires r <= sorted
    ensures forall i :: 0 <= i < |r| ==> r[i] in multiset(sorted)
  {
    forall i | 0 <= i < |r| ensures r[i] in multiset(sorted) {
      assert r[i] == sorted[i];
    }
  }

  lemma PrefixSorted(sorted: Log, r: Log)
    requires Sorting.SortedDesc(sorted, CreatedAt)
    requires r <= sorted
    ensures Sorting.SortedDesc(r, CreatedAt)
  {
    forall i, j | 0 <= i < j < |r| ensures r[i].createdAt >= r[j].createdAt {
      assert r[i] == sorted[i] && r[j] == sorted[j];
    }
  }

  lemma RestNotNewer(sorted: Log, n: nat, x: AnalysisRecord, y: AnalysisRecord)
    requires Sorting.SortedDesc(sorted, CreatedAt)
    requires n <= |sorted|
    requires x in multiset(sorted[n..]) && y in sorted[..n]
    ensures x.createdAt <= y.createdAt
  {
    var j :| 0 <= j < |sorted[n..]| && sorted[n..][j] == x;
    var i :| 0 <= i < n && sorted[..n][i] == y;
    assert sorted[i] == y && sorted[n + j] == x;
  }

  /** With a negative limit every selected row is returned. */
  lemma HistoryUnlimited(log: Log, userId: string, analysisType: Option<string>, limit: int)
    requires limit < 0
    ensures multiset(GetUserAnalysisHistory(log, userId, analysisType, limit))
            == multiset(HistoryMatches(log, userId, analysisType))
  {
  }

  /** A row just saved with a clock reading later than every stored one heads
      its user's history whenever it passes the type filter and the limit is
      not zero. */
  lemma HistoryAfterSave(log: Log, userId: string, analysisType: string, timeRange: string,
                         result: Json, now: int, filter: Option<string>, limit: int)
    requires forall i :: 0 <= i < |log| ==> log[i].createdAt < now
    requires !TypeFilterActive(filter) || filter.value == analysisType
    requires limit != 0
    ensures var s := SaveAnalysis(log, userId, analysisType, timeRange, result, now);
            var h := GetUserAnalysisHistory(s.log, userId, filter, limit);
            |h| > 0 && h[0] == s.record
  {
    var s := SaveAnalysis(log, userId, analysisType, timeRange, result, now);
    var matches := HistoryMatches(s.log, userId, filter);
    var h := GetUserAnalysisHistory(s.log, userId, filter, limit);
    assert HistoryFilter(userId, filter)(s.log[|log|]);
    assert s.record in multiset(matches);
    HeadIsNewest(h, matches, s.record);
    assert h[0] in multiset(matches);
    OnlyNewRowAtNow(log, s.log, now, h[0]);
  }

  /** After appending one row stamped `now` to rows all older than `now`,
      the appended row is the only one that is not older. */
  lemma OnlyNewRowAtNow(log: Log, saved: Log, now: int, x: AnalysisRecord)
    requires forall i :: 0 <= i < |log| ==> log[i].createdAt < now
    requires |saved| == |log| + 1 && saved[..|log|] == log
    requires x in saved && x.createdAt >= now
    ensures x == saved[|log|]
  {
    var k :| 0 <= k < |saved| && saved[k] == x;
    assert k == |log|;
  }

  /** The head of a newest-first listing that kept the newest rows is at
      least as new as any selected row. */
  lemma HeadIsNewest(h: Log, matches: Log, x: AnalysisRecord)
    requires x in multiset(matches)
    requires |h| == 0 ==> |matches| == 0
    requires Sorting.SortedDesc(h, CreatedAt)
    requires forall a, b :: a in multiset(matches) - multiset(h) && b in h ==> a.createdAt <= b.createdAt
    ensures |h| > 0 && x.createdAt <= h[0].createdAt
  {
    assert |matches| > 0;
    if x in h {
      var j :| 0 <= j < |h| && h[j] == x;
    } else {
      assert x in multiset(matches) - multiset(h);
      assert h[0] in h;
    }
  }
}
