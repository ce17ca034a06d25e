/** Worked instances of the aggregations, fixed inputs with their exact results. */
module Examples {
  import opened Wrappers
  import opened DataAnalyzer
  import Seqs
  import Sorting

  function GenreTrack(gs: seq<Option<string>>): TrackRecord
  {
    TrackRecord(Missing, Missing, Present(GenreList(gs)), None, None, None)
  }

  function TempoTrack(t: real): TrackRecord
  {
    TrackRecord(Missing, Missing, Missing, None, None, Some(t))
  }

  /** ["pop", "rock"] and ["pop", "j-pop"]: pop ranks first with 2, and the
      two genres counted once keep the order in which they were first seen. */
  lemma GenreDistributionExample()
    ensures GenreDistribution([GenreTrack([Some("pop"), Some("rock")]), GenreTrack([Some("pop"), Some("j-pop")])])
            == [GenreCount("pop", 2), GenreCount("rock", 1), GenreCount("j-pop", 1)]
  {
    GenreStreamExample();
    TallyExample();
    SortExample();
  }

  lemma GenreStreamExample()
    ensures GenreStream([GenreTrack([Some("pop"), Some("rock")]), GenreTrack([Some("pop"), Some("j-pop")])])
      == ["pop", "rock", "pop", "j-pop"]
  {
    TwoGenres("pop", "rock");
    TwoGenres("pop", "j-pop");
    StreamOfTwo(GenreTrack([Some("pop"), Some("rock")]), GenreTrack([Some("pop"), Some("j-pop")]));
    PairsJoined("pop", "rock", "pop", "j-pop");
  }

  lemma StreamOfTwo(a: TrackRecord, b: TrackRecord)
    ensures GenreStream([a, b]) == TrackGenres(a) + TrackGenres(b)
  {
    assert [b][1..] == [];
    assert GenreStream([b]) == TrackGenres(b);
    assert [a, b][1..] == [b];
  }

  lemma PairsJoined<T>(w: T, x: T, y: T, z: T)
    ensures [w, x] + [y, z] == [w, x, y, z]
  {
  }

  /** A list of two non-empty genres contributes both, in order. */
  lemma TwoGenres(x: string, y: string)
    requires x != "" && y != ""
    ensures TrackGenres(GenreTrack([Some(x), Some(y)])) == [x, y]
  {
    assert [Some(y)][1..] == [];
    assert TruthyEntries([Some(y)]) == [y];
    assert [Some(x), Some(y)][1..] == [Some(y)];
  }

  lemma TallyExample()
    ensures Tally(["pop", "rock", "pop", "j-pop"]) == [GenreCount("pop", 2), GenreCount("rock", 1), GenreCount("j-pop", 1)]
  {
    TallyRepeatFirst("pop", "rock", "j-pop");
  }

  /** Counting p, q, p, j with three distinct genres, one entry at a time. */
  lemma TallyRepeatFirst(p: string, q: string, j: string)
    requires p != q && p != j && q != j
    ensures Tally([p, q, p, j]) == [GenreCount(p, 2), GenreCount(q, 1), GenreCount(j, 1)]
  {
    TallyThree(p, q);
    TallyStep([p, q, p], j);
    assert [p, q, p] + [j] == [p, q, p, j];
    NewGenre([GenreCount(p, 2), GenreCount(q, 1)], j);
  }

  lemma TallyThree(p: string, q: string)
    requires p != q
    ensures Tally([p, q, p]) == [GenreCount(p, 2), GenreCount(q, 1)]
  {
    TallyTwo(p, q);
    TallyStep([p, q], p);
    assert [p, q] + [p] == [p, q, p];
    SeenGenre([GenreCount(p, 1), GenreCount(q, 1)], p);
    assert [GenreCount(p, 2)] + [GenreCount(q, 1)] == [GenreCount(p, 2), GenreCount(q, 1)];
  }

  lemma TallyTwo(p: string, q: string)
    requires p != q
    ensures Tally([p, q]) == [GenreCount(p, 1), GenreCount(q, 1)]
  {
    TallyOne(p);
    TallyStep([p], q);
    assert [p] + [q] == [p, q];
    NewGenre([GenreCount(p, 1)], q);
  }

  lemma TallyOne(p: string)
    ensures Tally([p]) == [GenreCount(p, 1)]
  {
    assert [p][..0] == [];
  }

  /** The counting loop takes one more step for one more entry. */
  lemma TallyStep(xs: seq<string>, g: string)
    ensures Tally(xs + [g]) == Bump(Tally(xs), g)
  {
    assert (xs + [g])[..|xs|] == xs;
  }

  lemma NewGenre(t: seq<GenreCount>, g: string)
    requires DistinctGenres(t)
    requires forall i :: 0 <= i < |t| ==> t[i].genre != g
    ensures Bump(t, g) == t + [GenreCount(g, 1)]
  {
  }

  lemma SeenGenre(t: seq<GenreCount>, g: string)
    requires DistinctGenres(t) && |t| > 0 && t[0].genre == g
    ensures Bump(t, g) == [t[0].(count := t[0].count + 1)] + t[1..]
  {
    var r := Bump(t, g);
    assert forall i :: 1 <= i < |t| ==> r[i] == t[i];
  }

  lemma SortExample()
    ensures Sorting.SortDesc([GenreCount("pop", 2), GenreCount("rock", 1), GenreCount("j-pop", 1)], CountOf)
      == [GenreCount("pop", 2), GenreCount("rock", 1), GenreCount("j-pop", 1)]
  {
    SortedThree(GenreCount("pop", 2), GenreCount("rock", 1), GenreCount("j-pop", 1));
  }

  /** Three rows already in non-increasing order are left as they are. */
  lemma SortedThree(a: GenreCount, b: GenreCount, c: GenreCount)
    requires a.count >= b.count >= c.count
    ensures Sorting.SortDesc([a, b, c], CountOf) == [a, b, c]
  {
    assert [c][1..] == [];
    assert Sorting.SortDesc([c], CountOf) == [c];
    assert [b, c][1..] == [c];
    assert Sorting.SortDesc([b, c], CountOf) == [b, c];
    assert [a, b, c][1..] == [b, c];
  }

  /** Tempos 120 and 130: mean 125; bins are closed on the right, so 120 is
      counted in "100-120" and 130 in "120-140"; the other eight bins are
      listed with count 0. */
  lemma TempoTrendsExample(sampleStd: seq<real> -> real)
    ensures var r := TempoTrends([TempoTrack(120.0), TempoTrack(130.0)], sampleStd);
            && r.meanTempo == 125.0
            && |r.distribution| == 10
            && r.distribution[3] == TempoBucket("100-120", 1)
            && r.distribution[4] == TempoBucket("120-140", 1)
            && forall i :: 0 <= i < 10 && i != 3 && i != 4 ==> r.distribution[i].count == 0
  {
    var tracks := [TempoTrack(120.0), TempoTrack(130.0)];
    TwoTempos(120.0, 130.0);
    var tempos := TempoValues(tracks);
    assert tempos[1..] == [130.0];
    assert [130.0][1..] == [];
    assert Seqs.Sum(tempos) == 250.0;
    forall i | 0 <= i < 10
      ensures InBinCount(tempos, i) == if i == 3 || i == 4 then 1 else 0
    {
      BinCountOfTwo(120.0, 130.0, i);
      BinOfExactlyOne(120.0, i);
      BinOfExactlyOne(130.0, i);
      BinOfExactlyOne(120.0, 3);
      BinOfExactlyOne(130.0, 4);
    }
  }

  lemma TwoTempos(x: real, y: real)
    ensures TempoValues([TempoTrack(x), TempoTrack(y)]) == [x, y]
  {
    assert [TempoTrack(x), TempoTrack(y)][1..] == [TempoTrack(y)];
    assert [TempoTrack(y)][1..] == [];
  }

  lemma BinCountOfTwo(x: real, y: real, i: nat)
    ensures InBinCount([x, y], i) == (if InBin(x, i) then 1 else 0) + (if InBin(y, i) then 1 else 0)
  {
    assert [y][1..] == [];
    assert InBinCount([y], i) == if InBin(y, i) then 1 else 0;
    assert [x, y][1..] == [y];
  }

  /** Edge values: 0 and 60 land in "0-60", 120 in "100-120", a negative
      tempo in no bin, anything above 220 in "220+". */
  lemma BoundaryBins()
    ensures BinOf(0.0) == Some(0) && BinLabels[0] == "0-60"
    ensures BinOf(60.0) == Some(0)
    ensures BinOf(60.5) == Some(1)
    ensures BinOf(120.0) == Some(3) && BinLabels[3] == "100-120"
    ensures BinOf(-0.5) == None
    ensures BinOf(1000.0) == Some(9)
  {
    BinOfExactlyOne(0.0, 0);
    BinOfExactlyOne(60.0, 0);
    BinOfExactlyOne(60.5, 1);
    BinOfExactlyOne(120.0, 3);
    BinOfExactlyOne(1000.0, 9);
  }
}
