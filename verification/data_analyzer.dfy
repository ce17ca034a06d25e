/** The three aggregations of `DataAnalyzer` over track dictionaries:
    a genre histogram, the valence/energy scatter and the tempo summary. */
module DataAnalyzer {
  import opened Wrappers
  import Seqs
  import Sorting

  /** A dictionary key that may be absent. */
  datatype Key<T> = Missing | Present(value: T)

  /** What a track dictionary holds under "genres": a list of entries
      (each a string or null) or some other, non-list value. */
  datatype GenresValue = GenreList(entries: seq<Option<string>>) | NotAList

  /** One track dictionary as the aggregations read it. For valence, energy
      and tempo only `dict.get` is used, so a missing key and a null value
      are the same `None`. The names keep the difference, since a present
      null name is passed through. */
  datatype TrackRecord = TrackRecord(
    track: Key<Option<string>>,
    name: Key<Option<string>>,
    genres: Key<GenresValue>,
    valence: Option<real>,
    energy: Option<real>,
    tempo: Option<real>)

  // ---------------------------------------------------------------------
  // genre_distribution
  // ---------------------------------------------------------------------

  /** One row of the genre histogram. */
  datatype GenreCount = GenreCount(genre: string, count: nat)

  function CountOf(e: GenreCount): int { e.count }

  /** A genre entry counts only when it is truthy: not null and not "". */
  predicate Truthy(entry: Option<string>)
  {
    entry.Some? && entry.value != ""
  }

  /** The truthy entries of a genre list, in list order. */
  function TruthyEntries(entries: seq<Option<string>>): (r: seq<string>)
    ensures forall i :: 0 <= i < |r| ==> r[i] != ""
    ensures forall g :: g != "" ==> multiset(r)[g] == multiset(entries)[Some(g)]
  {
    if |entries| == 0 then []
    else
      assert entries == [entries[0]] + entries[1..];
      (if Truthy(entries[0]) then [entries[0].value] else []) + TruthyEntries(entries[1..])
  }

  /** The genres a track contributes: none unless "genres" holds a list. */
  function TrackGenres(t: TrackRecord): seq<string>
  {
    match t.genres
    case Present(GenreList(entries)) => TruthyEntries(entries)
    case _ => []
  }

  /** Every counted genre entry, track after track: the order in which the
      loop visits them. */
  function GenreStream(tracks: seq<TrackRecord>): seq<string>
  {
    if |tracks| == 0 then [] else TrackGenres(tracks[0]) + GenreStream(tracks[1..])
  }

  /** Reference count: how often `g` is listed, over the tracks whose
      "genres" value is a list. */
  function Occurrences(tracks: seq<TrackRecord>, g: string): nat
  {
    if |tracks| == 0 then 0
    else
      var here := match tracks[0].genres
        case Present(GenreList(entries)) => multiset(entries)[Some(g)]
        case _ => 0;
      here + Occurrences(tracks[1..], g)
  }

  lemma {:induction false} GenreStreamCounts(tracks: seq<TrackRecord>, g: string)
    ensures multiset(GenreStream(tracks))[g] == if g == "" then 0 else Occurrences(tracks, g)
  {
    if |tracks| > 0 {
      GenreStreamCounts(tracks[1..], g);
      var first := TrackGenres(tracks[0]);
      assert multiset(GenreStream(tracks)) == multiset(first) + multiset(GenreStream(tracks[1..]));
      if g == "" {
        assert g !in first;
      }
    }
  }

  /** Whether the insertion-ordered dictionary already has `g` as a key. */
  predicate Listed(t: seq<GenreCount>, g: string)
  {
    exists i :: 0 <= i < |t| && t[i].genre == g
  }

  /** Keys of the dictionary are pairwise distinct. */
  predicate DistinctGenres(t: seq<GenreCount>)
  {
    forall i, j :: 0 <= i < j < |t| ==> t[i].genre != t[j].genre
  }

  /** One `genre_counts[genre] = genre_counts.get(genre, 0) + 1` on a dictionary
      that keeps insertion order: an existing key is incremented in place, a
      new key is appended with count 1. */
  function Bump(t: seq<GenreCount>, g: string): (r: seq<GenreCount>)
    requires DistinctGenres(t)
    ensures DistinctGenres(r)
    ensures Listed(t, g) ==>
              |r| == |t| &&
              forall i :: 0 <= i < |t| ==>
                r[i].genre == t[i].genre &&
                r[i].count == if t[i].genre == g then t[i].count + 1 else t[i].count
    ensures !Listed(t, g) ==> r == t + [GenreCount(g, 1)]
  {
    if Listed(t, g) then
      seq(|t|, i requires 0 <= i < |t| =>
        if t[i].genre == g then t[i].(count := t[i].count + 1) else t[i])
    else
      t + [GenreCount(g, 1)]
  }

  /** The dictionary after the counting loop has visited every entry of `xs`. */
  function Tally(xs: seq<string>): (r: seq<GenreCount>)
    ensures DistinctGenres(r)
    ensures forall i :: 0 <= i < |r| ==> r[i].count == multiset(xs)[r[i].genre]
    ensures forall g :: g in xs <==> Listed(r, g)
  {
    if |xs| == 0 then []
    else
      var prefix := xs[..|xs| - 1];
      var g := xs[|xs| - 1];
      var t := Tally(prefix);
      assert xs == prefix + [g];
      assert multiset(xs) == multiset(prefix) + multiset{g};
      assert forall h :: h in xs <==> h in prefix || h == g;
      var r := Bump(t, g);
      BumpListed(t, g);
      r
  }

  /** After a bump the keys are the old keys and `g`. */
  lemma BumpListed(t: seq<GenreCount>, g: string)
    requires DistinctGenres(t)
    ensures forall h :: Listed(Bump(t, g), h) <==> Listed(t, h) || h == g
  {
    var r := Bump(t, g);
    if !Listed(t, g) {
      assert r[|t|].genre == g;
      forall h | Listed(r, h) ensures Listed(t, h) || h == g {
        var i :| 0 <= i < |r| && r[i].genre == h;
        if i < |t| { assert t[i].genre == h; }
      }
      forall h | Listed(t, h) ensures Listed(r, h) {
        var i :| 0 <= i < |t| && t[i].genre == h;
        assert r[i].genre == h;
      }
    } else {
      forall h ensures Listed(r, h) <==> Listed(t, h) {
        if Listed(r, h) {
          var i :| 0 <= i < |r| && r[i].genre == h;
          assert t[i].genre == h;
        }
        if Listed(t, h) {
          var i :| 0 <= i < |t| && t[i].genre == h;
          assert r[i].genre == h;
        }
      }
    }
  }

  /** Position of the first occurrence of `g` in `xs`. */
  function FirstIndex(xs: seq<string>, g: string): (i: nat)
    requires g in xs
    ensures i < |xs| && xs[i] == g && g !in xs[..i]
  {
    if xs[0] == g then 0
    else
      var j := FirstIndex(xs[1..], g);
      assert xs[..j + 1] == [xs[0]] + xs[1..][..j];
      j + 1
  }

  /** When a genre was first seen; genres never seen rank after all others. */
  function Rank(xs: seq<string>, g: string): int
  {
    if g in xs then FirstIndex(xs, g) else |xs|
  }

  function FirstSeen(xs: seq<string>): GenreCount -> int
  {
    (e: GenreCount) => Rank(xs, e.genre)
  }

  lemma FirstIndexUnique(xs: seq<string>, g: string, i: nat)
    requires i < |xs| && xs[i] == g && g !in xs[..i]
    ensures FirstIndex(xs, g) == i
  {
  }

  /** Extending the stream does not move a genre's first occurrence. */
  lemma RankOfPrefix(xs: seq<string>, m: nat, g: string)
    requires m <= |xs| && g in xs[..m]
    ensures Rank(xs, g) == Rank(xs[..m], g) < m
  {
    var i := FirstIndex(xs[..m], g);
    assert xs[..m][..i] == xs[..i];
    FirstIndexUnique(xs, g, i);
  }

  /** The dictionary's insertion order is the order of first appearance. */
  lemma {:induction false} TallyInFirstSeenOrder(xs: seq<string>)
    ensures Sorting.RankIncreasing(Tally(xs), FirstSeen(xs))
  {
    if |xs| > 0 {
      var prefix := xs[..|xs| - 1];
      var g := xs[|xs| - 1];
      assert xs == prefix + [g];
      TallyInFirstSeenOrder(prefix);
      EarlierRanksKept(xs, prefix, Tally(prefix));
      if Listed(Tally(prefix), g) {
        SeenGenreKeepsOrder(xs, prefix, g);
      } else {
        NewGenreKeepsOrder(xs, prefix, g);
      }
    }
  }

  /** A repeated genre changes only counts, so the key order is unchanged. */
  lemma SeenGenreKeepsOrder(xs: seq<string>, prefix: seq<string>, g: string)
    requires xs == prefix + [g] && Listed(Tally(prefix), g)
    requires Sorting.RankIncreasing(Tally(prefix), FirstSeen(prefix))
    requires forall i :: 0 <= i < |Tally(prefix)| ==>
               FirstSeen(xs)(Tally(prefix)[i]) == FirstSeen(prefix)(Tally(prefix)[i])
    ensures Sorting.RankIncreasing(Tally(xs), FirstSeen(xs))
  {
    assert xs[..|xs| - 1] == prefix;
    var t := Tally(prefix);
    var r := Tally(xs);
    assert r == Bump(t, g);
    assert forall i :: 0 <= i < |t| ==> r[i].genre == t[i].genre;
  }

  /** A genre seen for the first time is appended and ranks after every other. */
  lemma NewGenreKeepsOrder(xs: seq<string>, prefix: seq<string>, g: string)
    requires xs == prefix + [g] && !Listed(Tally(prefix), g)
    requires Sorting.RankIncreasing(Tally(prefix), FirstSeen(prefix))
    requires forall i :: 0 <= i < |Tally(prefix)| ==>
               FirstSeen(xs)(Tally(prefix)[i]) == FirstSeen(prefix)(Tally(prefix)[i]) < |prefix|
    ensures Sorting.RankIncreasing(Tally(xs), FirstSeen(xs))
  {
    assert xs[..|xs| - 1] == prefix;
    var t := Tally(prefix);
    assert g !in prefix;
    FirstIndexUnique(xs, g, |prefix|);
    assert Tally(xs) == t + [GenreCount(g, 1)];
  }

  /** Genres already in the dictionary keep their rank when the stream grows. */
  lemma EarlierRanksKept(xs: seq<string>, prefix: seq<string>, t: seq<GenreCount>)
    requires |prefix| <= |xs| && prefix == xs[..|prefix|] && t == Tally(prefix)
    ensures forall i :: 0 <= i < |t| ==>
              FirstSeen(xs)(t[i]) == FirstSeen(prefix)(t[i]) < |prefix|
  {
    forall i | 0 <= i < |t|
      ensures Rank(xs, t[i].genre) == Rank(prefix, t[i].genre) < |prefix|
    {
      assert Listed(t, t[i].genre);
      RankOfPrefix(xs, |prefix|, t[i].genre);
    }
  }

  /** Rows with distinct genres stay distinct when rearranged. */
  lemma PermutationDistinctGenres(t: seq<GenreCount>, r: seq<GenreCount>)
    requires multiset(r) == multiset(t)
    requires DistinctGenres(t)
    ensures DistinctGenres(r)
  {
    assert Seqs.NoDuplicates(t);
    Seqs.PermutationNoDuplicates(t, r);
    forall i, j | 0 <= i < j < |r|
      ensures r[i].genre != r[j].genre
    {
      assert r[i] in multiset(t) && r[j] in multiset(t);
      var a :| 0 <= a < |t| && t[a] == r[i];
      var b :| 0 <= b < |t| && t[b] == r[j];
    }
  }

  /** `genre_distribution`: the dictionary's (genre, count) rows sorted by
      count, largest first, with Python's stable sort. */
  function GenreDistribution(tracks: seq<TrackRecord>): (r: seq<GenreCount>)
    ensures |tracks| == 0 ==> r == []
    ensures forall i :: 0 <= i < |r| ==>
              r[i].genre != "" && r[i].count > 0 && r[i].count == Occurrences(tracks, r[i].genre)
    ensures forall g :: g != "" && Occurrences(tracks, g) > 0 ==>
              exists i :: 0 <= i < |r| && r[i].genre == g
    ensures DistinctGenres(r)
    ensures Sorting.SortedDesc(r, CountOf)
    ensures forall i, j :: 0 <= i < j < |r| && r[i].count == r[j].count ==>
              Rank(GenreStream(tracks), r[i].genre) < Rank(GenreStream(tracks), r[j].genre)
  {
    var stream := GenreStream(tracks);
    var t := Tally(stream);
    var r := Sorting.SortDesc(t, CountOf);
    TallyInFirstSeenOrder(stream);
    Sorting.SortDescKeepsTies(t, CountOf, FirstSeen(stream));
    PermutationDistinctGenres(t, r);
    GenreRowsCounted(tracks, t, r);
    r
  }

  /** Every row is a listed genre with its reference count. */
  lemma GenreRowsCounted(tracks: seq<TrackRecord>, t: seq<GenreCount>, r: seq<GenreCount>)
    requires t == Tally(GenreStream(tracks))
    requires multiset(r) == multiset(t)
    ensures forall i :: 0 <= i < |r| ==>
              r[i].genre != "" && r[i].count > 0 && r[i].count == Occurrences(tracks, r[i].genre)
    ensures forall g :: g != "" && Occurrences(tracks, g) > 0 ==>
              exists i :: 0 <= i < |r| && r[i].genre == g
  {
    forall i | 0 <= i < |r|
      ensures r[i].genre != "" && r[i].count > 0 && r[i].count == Occurrences(tracks, r[i].genre)
    {
      assert r[i] in multiset(t);
      var a :| 0 <= a < |t| && t[a] == r[i];
      RowCounted(tracks, a);
    }
    forall g | g != "" && Occurrences(tracks, g) > 0
      ensures exists i :: 0 <= i < |r| && r[i].genre == g
    {
      var e := GenreHasRow(tracks, t, g);
      assert e in multiset(r);
    }
  }

  lemma RowCounted(tracks: seq<TrackRecord>, a: nat)
    requires a < |Tally(GenreStream(tracks))|
    ensures var e := Tally(GenreStream(tracks))[a];
            e.genre != "" && e.count > 0 && e.count == Occurrences(tracks, e.genre)
  {
    var t := Tally(GenreStream(tracks));
    assert Listed(t, t[a].genre);
    GenreStreamCounts(tracks, t[a].genre);
  }

  lemma GenreHasRow(tracks: seq<TrackRecord>, t: seq<GenreCount>, g: string) returns (e: GenreCount)
    requires t == Tally(GenreStream(tracks))
    requires g != "" && Occurrences(tracks, g) > 0
    ensures e in t && e.genre == g
  {
    var stream := GenreStream(tracks);
    GenreStreamCounts(tracks, g);
    assert multiset(stream)[g] > 0;
    assert g in stream;
    assert Listed(t, g);
    var a :| 0 <= a < |t| && t[a].genre == g;
    e := t[a];
  }

  // ---------------------------------------------------------------------
  // mood_map
  // ---------------------------------------------------------------------

  /** One point of the valence/energy scatter; a null name stays null. */
  datatype MoodPoint = MoodPoint(track: Option<string>, valence: real, energy: real)

  /** The "track" value if that key exists, else the "name" value if that
      key exists, else "Unknown". */
  function DisplayName(t: TrackRecord): Option<string>
  {
    match t.track
    case Present(v) => v
    case Missing =>
      match t.name
      case Present(v) => v
      case Missing => Some("Unknown")
  }

  /** Both coordinates are non-null, so 0.0 is kept. */
  predicate Plottable(t: TrackRecord)
  {
    t.valence.Some? && t.energy.Some?
  }

  function PointOf(t: TrackRecord): MoodPoint
    requires Plottable(t)
  {
    MoodPoint(DisplayName(t), t.valence.value, t.energy.value)
  }

  /** How many tracks have both coordinates. */
  function PlottableCount(tracks: seq<TrackRecord>): nat
  {
    if |tracks| == 0 then 0
    else (if Plottable(tracks[0]) then 1 else 0) + PlottableCount(tracks[1..])
  }

  /** `mood_map`: one point per plottable track, in input order. */
  function MoodMap(tracks: seq<TrackRecord>): (r: seq<MoodPoint>)
    ensures |r| == PlottableCount(tracks) <= |tracks|
  {
    if |tracks| == 0 then []
    else (if Plottable(tracks[0]) then [PointOf(tracks[0])] else []) + MoodMap(tracks[1..])
  }

  /** The points are exactly the plottable tracks' points: none is invented
      and none is lost. */
  lemma {:induction false} MoodMapMembers(tracks: seq<TrackRecord>)
    ensures forall i :: 0 <= i < |tracks| && Plottable(tracks[i]) ==> PointOf(tracks[i]) in MoodMap(tracks)
    ensures forall p :: p in MoodMap(tracks) ==>
              exists i :: 0 <= i < |tracks| && Plottable(tracks[i]) && p == PointOf(tracks[i])
  {
    if |tracks| > 0 {
      var rest := MoodMap(tracks[1..]);
      MoodMapMembers(tracks[1..]);
      assert MoodMap(tracks) == (if Plottable(tracks[0]) then [PointOf(tracks[0])] else []) + rest;
      forall i | 1 <= i < |tracks| && Plottable(tracks[i])
        ensures PointOf(tracks[i]) in MoodMap(tracks)
      {
        assert tracks[1..][i - 1] == tracks[i];
      }
      forall p | p in rest
        ensures exists i :: 0 <= i < |tracks| && Plottable(tracks[i]) && p == PointOf(tracks[i])
      {
        var i :| 0 <= i < |tracks[1..]| && Plottable(tracks[1..][i]) && p == PointOf(tracks[1..][i]);
        assert tracks[i + 1] == tracks[1..][i];
      }
    }
  }

  /** Order preservation: the scatter of a concatenation is the concatenation
      of the scatters. */
  lemma {:induction false} MoodMapAppend(a: seq<TrackRecord>, b: seq<TrackRecord>)
    ensures MoodMap(a + b) == MoodMap(a) + MoodMap(b)
  {
    if |a| == 0 {
      assert a + b == b;
    } else {
      assert (a + b)[1..] == a[1..] + b;
      MoodMapAppend(a[1..], b);
    }
  }

  /** A single track yields its point exactly when both coordinates are present,
      copied unchanged. */
  lemma MoodMapSingle(t: TrackRecord)
    ensures MoodMap([t]) == if Plottable(t) then [MoodPoint(DisplayName(t), t.valence.value, t.energy.value)] else []
  {
    assert [t][1..] == [];
  }

  // ---------------------------------------------------------------------
  // tempo_trends
  // ---------------------------------------------------------------------

  /** Finite bin edges; the last bin is bounded above by +infinity. */
  const BinEdges: seq<real> := [0.0, 60.0, 80.0, 100.0, 120.0, 140.0, 160.0, 180.0, 200.0, 220.0]

  const BinLabels: seq<string> :=
    ["0-60", "60-80", "80-100", "100-120", "120-140", "140-160", "160-180", "180-200", "200-220", "220+"]

  /** Interval semantics of bin `i`: right-closed intervals, the lowest one
      also closed at 0: [0,60], (60,80], ..., (200,220], (220,+inf). */
  predicate InBin(t: real, i: int)
  {
    0 <= i < |BinLabels| &&
    (if i == 0 then 0.0 <= t <= BinEdges[1]
     else if i == |BinLabels| - 1 then BinEdges[i] < t
     else BinEdges[i] < t <= BinEdges[i + 1])
  }

  predicate StrictlyIncreasing(edges: seq<real>)
  {
    forall i, j :: 0 <= i < j < |edges| ==> edges[i] < edges[j]
  }

  /** How many edges lie strictly below `t`: a left-sided search-sorted position. */
  function EdgesBelow(edges: seq<real>, t: real): (n: nat)
    requires StrictlyIncreasing(edges)
    ensures n <= |edges|
    ensures forall i :: 0 <= i < n ==> edges[i] < t
    ensures forall i :: n <= i < |edges| ==> t <= edges[i]
  {
    if |edges| == 0 then 0
    else if edges[0] < t then 1 + EdgesBelow(edges[1..], t)
    else 0
  }

  /** The bin `pd.cut(bins, right=True, include_lowest=True)` gives `t`:
      the search position minus one, with 0 itself moved into the first bin;
      `None` (NaN) for a tempo below 0. */
  function BinOf(t: real): (b: Option<nat>)
    ensures b.Some? <==> 0.0 <= t
    ensures b.Some? ==> InBin(t, b.value)
  {
    var ids := if t == BinEdges[0] then 1 else EdgesBelow(BinEdges, t);
    if ids == 0 then None else Some(ids - 1)
  }

  /** The bins partition the non-negative reals: a tempo is in bin `i`
      exactly when `BinOf` puts it there. */
  lemma BinOfExactlyOne(t: real, i: int)
    ensures InBin(t, i) <==> BinOf(t) == Some(i)
  {
  }

  /** The non-null tempos, in input order. */
  function TempoValues(tracks: seq<TrackRecord>): (r: seq<real>)
    ensures |r| <= |tracks|
  {
    if |tracks| == 0 then []
    else
      (if tracks[0].tempo.Some? then [tracks[0].tempo.value] else []) + TempoValues(tracks[1..])
  }

  /** Tempo collection keeps exactly the non-null tempos: it distributes over
      concatenation and keeps a single track's tempo iff it is present. */
  lemma {:induction false} TempoValuesAppend(a: seq<TrackRecord>, b: seq<TrackRecord>)
    ensures TempoValues(a + b) == TempoValues(a) + TempoValues(b)
  {
    if |a| == 0 {
      assert a + b == b;
    } else {
      var head := if a[0].tempo.Some? then [a[0].tempo.value] else [];
      assert (a + b)[0] == a[0];
      assert (a + b)[1..] == a[1..] + b;
      TempoValuesAppend(a[1..], b);
      assert TempoValues(a + b) == head + (TempoValues(a[1..]) + TempoValues(b));
    }
  }

  lemma TempoValuesSingle(t: TrackRecord)
    ensures TempoValues([t]) == if t.tempo.Some? then [t.tempo.value] else []
  {
    assert [t][1..] == [];
  }

  /** One row of the tempo distribution. */
  datatype TempoBucket = TempoBucket(range: string, count: nat)

  /** How many tempos `BinOf` assigns to bin `i` (`value_counts` per category). */
  function BinTally(tempos: seq<real>, i: nat): nat
  {
    if |tempos| == 0 then 0
    else (if BinOf(tempos[0]) == Some(i) then 1 else 0) + BinTally(tempos[1..], i)
  }

  /** Reference count: how many tempos lie in the interval of bin `i`. */
  function InBinCount(tempos: seq<real>, i: nat): nat
  {
    if |tempos| == 0 then 0
    else (if InBin(tempos[0], i) then 1 else 0) + InBinCount(tempos[1..], i)
  }

  /** How many tempos are at least 0, so that `pd.cut` assigns them a bin. */
  function NonNegativeCount(tempos: seq<real>): nat
  {
    if |tempos| == 0 then 0
    else (if 0.0 <= tempos[0] then 1 else 0) + NonNegativeCount(tempos[1..])
  }

  /** `value_counts().sort_index()` over the categorical column: every one
      of the ten categories, in boundary order, zero counts included. */
  function Distribution(tempos: seq<real>): (d: seq<TempoBucket>)
    ensures |d| == |BinLabels|
    ensures forall i :: 0 <= i < |d| ==> d[i].range == BinLabels[i]
    ensures forall i, j :: 0 <= i < j < |d| ==> d[i].range != d[j].range
  {
    seq(|BinLabels|, i requires 0 <= i < |BinLabels| => TempoBucket(BinLabels[i], BinTally(tempos, i)))
  }

  /** What `tempo_trends` returns. */
  datatype TempoSummary = TempoSummary(meanTempo: real, stdTempo: real, distribution: seq<TempoBucket>)

  /** `tempo_trends`. The sample standard deviation is a library call and is
      taken as the parameter `sampleStd`. */
  function TempoTrends(tracks: seq<TrackRecord>, sampleStd: seq<real> -> real): (r: TempoSummary)
    ensures |TempoValues(tracks)| == 0 ==> r == TempoSummary(0.0, 0.0, [])
    ensures |TempoValues(tracks)| > 0 ==>
              && Seqs.IsMean(r.meanTempo, TempoValues(tracks))
              && r.stdTempo == sampleStd(TempoValues(tracks))
              && |r.distribution| == |BinLabels|
              && forall i :: 0 <= i < |BinLabels| ==>
                   r.distribution[i].range == BinLabels[i] &&
                   r.distribution[i].count == InBinCount(TempoValues(tracks), i)
  {
    var tempos := TempoValues(tracks);
    if |tempos| == 0 then TempoSummary(0.0, 0.0, [])
    else
      BinTallyIsInBinCount(tempos);
      TempoSummary(Seqs.Mean(tempos), sampleStd(tempos), Distribution(tempos))
  }

  lemma {:induction false} BinTallyIsInBinCount(tempos: seq<real>)
    ensures forall i: nat :: BinTally(tempos, i) == InBinCount(tempos, i)
  {
    if |tempos| > 0 {
      BinTallyIsInBinCount(tempos[1..]);
      forall i: nat ensures BinTally(tempos, i) == InBinCount(tempos, i) {
        BinOfExactlyOne(tempos[0], i);
      }
    }
  }

  /** Sum of the counts of the first `n` buckets. */
  function CountedUpTo(d: seq<TempoBucket>, n: nat): nat
    requires n <= |d|
  {
    if n == 0 then 0 else CountedUpTo(d, n - 1) + d[n - 1].count
  }

  /** How many of the first `n` bins hold `t`: one or none. */
  lemma {:induction false} SingleTempoBins(t: real, n: nat)
    requires n <= |BinLabels|
    ensures CountedUpTo(Distribution([t]), n)
            == if BinOf(t).Some? && BinOf(t).value < n then 1 else 0
  {
    assert [t][1..] == [];
    if n > 0 {
      SingleTempoBins(t, n - 1);
      assert Distribution([t])[n - 1].count == BinTally([t], n - 1);
      assert BinTally([t], n - 1) == (if BinOf(t) == Some(n - 1) then 1 else 0) + BinTally([], n - 1);
    }
  }

  lemma {:induction false} CountedUpToSplit(tempos: seq<real>, n: nat)
    requires |tempos| > 0 && n <= |BinLabels|
    ensures CountedUpTo(Distribution(tempos), n)
            == CountedUpTo(Distribution([tempos[0]]), n) + CountedUpTo(Distribution(tempos[1..]), n)
  {
    assert [tempos[0]][1..] == [];
    if n > 0 {
      CountedUpToSplit(tempos, n - 1);
      assert Distribution(tempos)[n - 1].count == BinTally(tempos, n - 1);
      assert Distribution([tempos[0]])[n - 1].count == BinTally([tempos[0]], n - 1);
      assert Distribution(tempos[1..])[n - 1].count == BinTally(tempos[1..], n - 1);
      assert BinTally([tempos[0]], n - 1) == (if BinOf(tempos[0]) == Some(n - 1) then 1 else 0) + BinTally([], n - 1);
    }
  }

  /** The distribution's counts add up to the number of tempos at least 0;
      negative tempos fall in no bin. */
  lemma {:induction false} DistributionCountsNonNegative(tempos: seq<real>)
    ensures CountedUpTo(Distribution(tempos), |BinLabels|) == NonNegativeCount(tempos)
  {
    if |tempos| == 0 {
      NoTemposNoCounts(|BinLabels|);
    } else {
      DistributionCountsNonNegative(tempos[1..]);
      CountedUpToSplit(tempos, |BinLabels|);
      SingleTempoBins(tempos[0], |BinLabels|);
    }
  }

  lemma {:induction false} NoTemposNoCounts(n: nat)
    requires n <= |BinLabels|
    ensures CountedUpTo(Distribution([]), n) == 0
  {
    if n > 0 {
      NoTemposNoCounts(n - 1);
      assert Distribution([])[n - 1].count == BinTally([], n - 1);
    }
  }
}
