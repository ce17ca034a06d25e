/** The bookkeeping `SpotifyService` does around the streaming service's SDK:
    following pagination, dropping unusable playlist items, requesting audio
    features in batches of 100, and the counts of a playlist analysis.
    SDK responses are inputs: a sequence of pages, or a function from the
    requested ids to the returned entries. */
module SpotifyService {
  import opened Wrappers
  import Seqs

  // ---------------------------------------------------------------------
  // Pagination
  // ---------------------------------------------------------------------

  /** One page of a paginated listing; `hasNext` is a truthy "next" link. */
  datatype Page<T> = Page(items: seq<T>, hasNext: bool)

  /** The response to the `k`-th request of a listing: the first request gets
      `pages[0]`, each follow-up request the next page, and a request past
      the last page a null (falsy) response. */
  function Fetch<T>(pages: seq<Page<T>>, k: nat): Option<Page<T>>
  {
    if k < |pages| then Some(pages[k]) else None
  }

  /** The pages a `while results:` loop reads: every page up to and including
      the first one without a "next" link. */
  function PagesRead<T>(pages: seq<Page<T>>): (r: seq<Page<T>>)
    ensures r <= pages
    ensures forall k :: 0 <= k < |r| - 1 ==> r[k].hasNext
    ensures |r| < |pages| ==> 0 < |r| && !r[|r| - 1].hasNext
    ensures |r| == |pages| ==> forall k :: 0 <= k < |pages| - 1 ==> pages[k].hasNext
  {
    if |pages| == 0 then []
    else if !pages[0].hasNext then [pages[0]]
    else [pages[0]] + PagesRead(pages[1..])
  }

  /** The pages read are determined by where the first page without "next" is. */
  lemma {:induction false} PagesReadStopsAt<T>(pages: seq<Page<T>>, k: nat)
    requires k < |pages|
    requires forall j :: 0 <= j < k ==> pages[j].hasNext
    ensures !pages[k].hasNext ==> PagesRead(pages) == pages[..k + 1]
    ensures k == |pages| - 1 && pages[k].hasNext ==> PagesRead(pages) == pages
  {
    if k > 0 {
      PagesReadStopsAt(pages[1..], k - 1);
      assert pages[..k + 1] == [pages[0]] + pages[1..][..k];
      assert pages == [pages[0]] + pages[1..];
    }
  }

  /** All items of the given pages, page after page. */
  function Items<T>(pages: seq<Page<T>>): seq<T>
  {
    if |pages| == 0 then [] else pages[0].items + Items(pages[1..])
  }

  lemma {:induction false} ItemsAppend<T>(a: seq<Page<T>>, b: seq<Page<T>>)
    ensures Items(a + b) == Items(a) + Items(b)
  {
    if |a| == 0 {
      assert a + b == b;
    } else {
      assert (a + b)[1..] == a[1..] + b;
      ItemsAppend(a[1..], b);
    }
  }

  lemma ItemsOfPrefix<T>(pages: seq<Page<T>>, k: nat)
    requires k < |pages|
    ensures Items(pages[..k + 1]) == Items(pages[..k]) + pages[k].items
  {
    assert pages[..k + 1] == pages[..k] + [pages[k]];
    ItemsAppend(pages[..k], [pages[k]]);
    assert [pages[k]][1..] == [];
  }

  // ---------------------------------------------------------------------
  // Playlists
  // ---------------------------------------------------------------------

  /** A playlist object as the SDK returns it; a null image list is empty. */
  datatype RawPlaylist = RawPlaylist(
    id: string, name: string, description: Option<string>, images: seq<string>, total: int)

  datatype PlaylistResponse = PlaylistResponse(
    id: string, name: string, description: Option<string>, imageUrl: Option<string>, trackCount: int)

  /** The response fields of a playlist; the image is the first one, if any. */
  function ToPlaylistResponse(p: RawPlaylist): PlaylistResponse
  {
    PlaylistResponse(p.id, p.name, p.description,
                     if |p.images| > 0 then Some(p.images[0]) else None, p.total)
  }

  /** `get_user_playlists`: one entry per item of every page read, in order. */
  method GetUserPlaylists(pages: seq<Page<RawPlaylist>>) returns (playlists: seq<PlaylistResponse>)
    ensures |playlists| == |Items(PagesRead(pages))|
    ensures forall j :: 0 <= j < |playlists| ==>
              playlists[j] == ToPlaylistResponse(Items(PagesRead(pages))[j])
  {
    playlists := [];
    var k := 0;
    var results := Fetch(pages, 0);
    while results.Some?
      invariant k <= |pages|
      invariant results == Fetch(pages, k)
      invariant forall j :: 0 <= j < k ==> pages[j].hasNext
      invariant |playlists| == |Items(pages[..k])|
      invariant forall j :: 0 <= j < |playlists| ==> playlists[j] == ToPlaylistResponse(Items(pages[..k])[j])
      decreases |pages| - k
    {
      var page := results.value;
      ItemsOfPrefix(pages, k);
      var i := 0;
      while i < |page.items|
        invariant i <= |page.items|
        invariant |playlists| == |Items(pages[..k])| + i
        invariant forall j :: 0 <= j < |playlists| ==>
                    playlists[j] == ToPlaylistResponse(Items(pages[..k + 1])[j])
      {
        playlists := playlists + [ToPlaylistResponse(page.items[i])];
        i := i + 1;
      }
      if page.hasNext {
        k := k + 1;
        results := Fetch(pages, k);
      } else {
        PagesReadStopsAt(pages, k);
        return;
      }
    }
    if k > 0 {
      PagesReadStopsAt(pages, k - 1);
    }
    assert pages[..k] == pages;
  }

  // ---------------------------------------------------------------------
  // Playlist tracks
  // ---------------------------------------------------------------------

  /** A track object as the SDK returns it; local or unavailable tracks may
      have a null id. */
  datatype RawTrack = RawTrack(
    id: Option<string>, name: string, artists: seq<string>, albumName: string,
    albumImages: seq<string>, durationMs: int)

  /** A playlist item; deleted tracks come back as a null track. */
  datatype RawPlaylistItem = RawPlaylistItem(track: Option<RawTrack>)

  datatype TrackResponse = TrackResponse(
    id: string, name: string, artists: seq<string>, albumName: string,
    albumImage: Option<string>, durationMs: int)

  /** `item["track"] and item["track"]["id"]`: a track is present and its id is truthy. */
  predicate Usable(item: RawPlaylistItem)
  {
    item.track.Some? && item.track.value.id.Some? && item.track.value.id.value != ""
  }

  function ToTrackResponse(item: RawPlaylistItem): TrackResponse
    requires Usable(item)
  {
    var t := item.track.value;
    TrackResponse(t.id.value, t.name, t.artists, t.albumName,
                  if |t.albumImages| > 0 then Some(t.albumImages[0]) else None, t.durationMs)
  }

  /** The usable items' tracks, in order. */
  function UsableTracks(items: seq<RawPlaylistItem>): (r: seq<TrackResponse>)
    ensures |r| <= |items|
    ensures forall j :: 0 <= j < |r| ==> r[j].id != ""
  {
    if |items| == 0 then []
    else (if Usable(items[0]) then [ToTrackResponse(items[0])] else []) + UsableTracks(items[1..])
  }

  lemma {:induction false} UsableTracksAppend(a: seq<RawPlaylistItem>, b: seq<RawPlaylistItem>)
    ensures UsableTracks(a + b) == UsableTracks(a) + UsableTracks(b)
  {
    if |a| == 0 {
      assert a + b == b;
    } else {
      assert (a + b)[1..] == a[1..] + b;
      UsableTracksAppend(a[1..], b);
    }
  }

  /** A single item contributes its track exactly when it is usable. */
  lemma UsableTracksSingle(item: RawPlaylistItem)
    ensures UsableTracks([item]) == if Usable(item) then [ToTrackResponse(item)] else []
  {
    assert [item][1..] == [];
  }

  /** `get_playlist_tracks`: the usable items of every page read, in page order. */
  method GetPlaylistTracks(pages: seq<Page<RawPlaylistItem>>) returns (tracks: seq<TrackResponse>)
    ensures tracks == UsableTracks(Items(PagesRead(pages)))
  {
    tracks := [];
    var k := 0;
    var results := Fetch(pages, 0);
    while results.Some?
      invariant k <= |pages|
      invariant results == Fetch(pages, k)
      invariant forall j :: 0 <= j < k ==> pages[j].hasNext
      invariant tracks == UsableTracks(Items(pages[..k]))
      decreases |pages| - k
    {
      var page := results.value;
      var kept := UsableOfPage(page.items);
      TracksOfNextPage(pages, k);
      tracks := tracks + kept;
      if page.hasNext {
        k := k + 1;
        results := Fetch(pages, k);
      } else {
        PagesReadStopsAt(pages, k);
        return;
      }
    }
    if k > 0 {
      PagesReadStopsAt(pages, k - 1);
    }
    assert pages[..k] == pages;
  }

  /** The inner loop over one page's items: keep the usable ones, in order. */
  method UsableOfPage(items: seq<RawPlaylistItem>) returns (kept: seq<TrackResponse>)
    ensures kept == UsableTracks(items)
  {
    kept := [];
    var i := 0;
    while i < |items|
      invariant i <= |items|
      invariant kept == UsableTracks(items[..i])
    {
      UsableTracksSnoc(items, i);
      if Usable(items[i]) {
        kept := kept + [ToTrackResponse(items[i])];
      }
      i := i + 1;
    }
    assert items[..i] == items;
  }

  /** Reading page `k` appends its usable tracks. */
  lemma TracksOfNextPage(pages: seq<Page<RawPlaylistItem>>, k: nat)
    requires k < |pages|
    ensures UsableTracks(Items(pages[..k + 1])) == UsableTracks(Items(pages[..k])) + UsableTracks(pages[k].items)
  {
    ItemsOfPrefix(pages, k);
    UsableTracksAppend(Items(pages[..k]), pages[k].items);
  }

  /** One more item extends the usable tracks by that item's track, if any. */
  lemma UsableTracksSnoc(items: seq<RawPlaylistItem>, i: nat)
    requires i < |items|
    ensures UsableTracks(items[..i + 1])
         == UsableTracks(items[..i]) + (if Usable(items[i]) then [ToTrackResponse(items[i])] else [])
  {
    assert items[..i + 1] == items[..i] + [items[i]];
    UsableTracksAppend(items[..i], [items[i]]);
    UsableTracksSingle(items[i]);
  }

  // ---------------------------------------------------------------------
  // Audio features
  // ---------------------------------------------------------------------

  /** The audio descriptors of one track, field for field as returned. */
  datatype AudioFeatures = AudioFeatures(
    id: string,
    danceability: real, energy: real, valence: real, tempo: real,
    acousticness: real, instrumentalness: real, liveness: real, speechiness: real,
    loudness: real, mode: int, key: int, timeSignature: int)

  /** The SDK's `audio_features(ids)`: one entry per requested id, null when
      the service has no features for it. */
  type Upstream = seq<string> -> seq<Option<AudioFeatures>>

  /** Why `get_audio_features` raises: a null entry (ValueError), or an
      empty response, where indexing `[0]` fails (IndexError). */
  datatype FeaturesError = NoFeatures(trackId: string) | EmptyResponse

  /** `get_audio_features`: the first entry of the response for `[trackId]`. */
  function GetAudioFeatures(trackId: string, upstream: Upstream): (r: Result<AudioFeatures, FeaturesError>)
    ensures r.Success? <==> |upstream([trackId])| > 0 && upstream([trackId])[0].Some?
    ensures r.Success? ==> Some(r.value) == upstream([trackId])[0]
    ensures r.Failure? && |upstream([trackId])| > 0 ==> r.error == NoFeatures(trackId)
    ensures |upstream([trackId])| == 0 ==> r == Failure(EmptyResponse)
  {
    var response := upstream([trackId]);
    if |response| == 0 then Failure(EmptyResponse)
    else match response[0]
      case None => Failure(NoFeatures(trackId))
      case Some(f) => Success(f)
  }

  /** The upstream's cap on ids per `audio_features` call. */
  const BatchSize: nat := 100

  /** The non-null entries, in order. */
  function Present(entries: seq<Option<AudioFeatures>>): (r: seq<AudioFeatures>)
    ensures |r| <= |entries|
    ensures forall j :: 0 <= j < |entries| && entries[j].Some? ==> entries[j].value in r
    ensures forall f :: f in r ==> Some(f) in entries
  {
    if |entries| == 0 then []
    else
      var rest := Present(entries[1..]);
      assert forall j :: 1 <= j < |entries| ==> entries[j] == entries[1..][j - 1];
      assert forall f :: f in rest ==> Some(f) in entries[1..];
      (if entries[0].Some? then [entries[0].value] else []) + rest
  }

  lemma {:induction false} PresentAppend(a: seq<Option<AudioFeatures>>, b: seq<Option<AudioFeatures>>)
    ensures Present(a + b) == Present(a) + Present(b)
  {
    if |a| == 0 {
      assert a + b == b;
    } else {
      assert (a + b)[1..] == a[1..] + b;
      PresentAppend(a[1..], b);
    }
  }

  /** Every non-null entry is kept once for each time it occurs: the filter
      never merges duplicates (a playlist listing a track twice yields two
      feature records). */
  lemma {:induction false} PresentCounts(entries: seq<Option<AudioFeatures>>)
    ensures forall f :: multiset(Present(entries))[f] == multiset(entries)[Some(f)]
  {
    if |entries| > 0 {
      PresentCounts(entries[1..]);
      assert entries == [entries[0]] + entries[1..];
    }
  }

  /** Everything the upstream returns for the given batches, batch after batch. */
  function Responses(upstream: Upstream, batches: seq<seq<string>>): seq<Option<AudioFeatures>>
  {
    if |batches| == 0 then [] else upstream(batches[0]) + Responses(upstream, batches[1..])
  }

  lemma {:induction false} ResponsesAppend(upstream: Upstream, a: seq<seq<string>>, b: seq<seq<string>>)
    ensures Responses(upstream, a + b) == Responses(upstream, a) + Responses(upstream, b)
  {
    if |a| == 0 {
      assert a + b == b;
    } else {
      assert (a + b)[1..] == a[1..] + b;
      ResponsesAppend(upstream, a[1..], b);
    }
  }

  /** Block number `j` of `ids`: the ids at positions `100 * j` up to but
      not including `100 * (j + 1)`, cut short at the end of `ids`. */
  function Block(ids: seq<string>, j: nat): seq<string>
  {
    var lo := if j * BatchSize < |ids| then j * BatchSize else |ids|;
    var hi := if (j + 1) * BatchSize < |ids| then (j + 1) * BatchSize else |ids|;
    ids[lo..hi]
  }

  /** `get_audio_features_batch`: requests consecutive slices of at most 100
      ids and keeps the non-null entries of every response, in order.
      `requested` is the list of slices sent upstream. */
  method GetAudioFeaturesBatch(trackIds: seq<string>, upstream: Upstream)
    returns (requested: seq<seq<string>>, features: seq<AudioFeatures>)
    ensures Seqs.Concat(requested) == trackIds
    ensures forall j :: 0 <= j < |requested| ==> 0 < |requested[j]| <= BatchSize
    ensures |requested| == (|trackIds| + BatchSize - 1) / BatchSize
    ensures forall j :: 0 <= j < |requested| ==> requested[j] == Block(trackIds, j)
    ensures features == Present(Responses(upstream, requested))
  {
    requested := [];
    features := [];
    var i := 0;
    while i < |trackIds|
      invariant i == |requested| * BatchSize
      invariant i < |trackIds| + BatchSize
      invariant Seqs.Concat(requested) == trackIds[..if i < |trackIds| then i else |trackIds|]
      invariant forall j :: 0 <= j < |requested| ==> 0 < |requested[j]| <= BatchSize
      invariant forall j :: 0 <= j < |requested| ==> requested[j] == Block(trackIds, j)
      invariant features == Present(Responses(upstream, requested))
      decreases |trackIds| - i
    {
      var end := if i + BatchSize < |trackIds| then i + BatchSize else |trackIds|;
      var batch := trackIds[i..end];
      var response := upstream(batch);
      NextBatchAt(trackIds, |requested|, i);
      Seqs.ConcatAppend(requested, [batch]);
      assert Seqs.Concat([batch]) == batch;
      assert trackIds[..end] == trackIds[..i] + batch;
      ResponsesAppend(upstream, requested, [batch]);
      assert Responses(upstream, [batch]) == response;
      PresentAppend(Responses(upstream, requested), response);
      BlocksSnoc(trackIds, requested, batch);
      requested := requested + [batch];
      features := features + Present(response);
      i := i + BatchSize;
    }
    BlockCount(|trackIds|, |requested|);
  }

  /** Appending the next block keeps `requested` the run of blocks 0, 1, ... */
  lemma BlocksSnoc(trackIds: seq<string>, requested: seq<seq<string>>, batch: seq<string>)
    requires forall j :: 0 <= j < |requested| ==> requested[j] == Block(trackIds, j)
    requires forall j :: 0 <= j < |requested| ==> 0 < |requested[j]| <= BatchSize
    requires batch == Block(trackIds, |requested|) && 0 < |batch| <= BatchSize
    ensures forall j :: 0 <= j < |requested| + 1 ==> (requested + [batch])[j] == Block(trackIds, j)
    ensures forall j :: 0 <= j < |requested| + 1 ==> 0 < |(requested + [batch])[j]| <= BatchSize
  {
  }

  /** `k` blocks of 100 that reach `n` without a whole block to spare are
      exactly the ceiling of `n / 100`. */
  lemma BlockCount(n: nat, k: nat)
    requires n <= k * BatchSize < n + BatchSize
    ensures k == (n + BatchSize - 1) / BatchSize
  {
  }

  /** The slice sent at offset `i` is block number `i / 100`. */
  lemma NextBatchAt(trackIds: seq<string>, k: nat, i: nat)
    requires i < |trackIds| && i == k * BatchSize
    ensures trackIds[i..if i + BatchSize < |trackIds| then i + BatchSize else |trackIds|] == Block(trackIds, k)
  {
  }

  /** When the upstream answers one entry per requested id, the batch result
      has at most one entry per id. */
  lemma {:induction false} ResponsesLength(upstream: Upstream, batches: seq<seq<string>>)
    requires forall b :: |upstream(b)| == |b|
    ensures |Responses(upstream, batches)| == |Seqs.Concat(batches)|
  {
    if |batches| > 0 {
      ResponsesLength(upstream, batches[1..]);
    }
  }

  /** With one entry per requested id, the batch result has at most one
      feature record per id. */
  lemma FeaturesAtMostIds(trackIds: seq<string>, requested: seq<seq<string>>, upstream: Upstream)
    requires Seqs.Concat(requested) == trackIds
    requires forall b :: |upstream(b)| == |b|
    ensures |Present(Responses(upstream, requested))| <= |trackIds|
  {
    ResponsesLength(upstream, requested);
  }

  // ---------------------------------------------------------------------
  // analyze_playlist
  // ---------------------------------------------------------------------

  /** The features averaged (and spread-measured) per playlist; the result
      maps are keyed by these, whose names the response spells out with
      `Name`. */
  datatype Feature =
    | Danceability | Energy | Valence | Tempo
    | Acousticness | Instrumentalness | Liveness | Speechiness

  function Name(f: Feature): string
  {
    match f
    case Danceability => "danceability"
    case Energy => "energy"
    case Valence => "valence"
    case Tempo => "tempo"
    case Acousticness => "acousticness"
    case Instrumentalness => "instrumentalness"
    case Liveness => "liveness"
    case Speechiness => "speechiness"
  }

  /** Distinct features have distinct keys, so each map has eight entries. */
  lemma NamesDistinct(f: Feature, g: Feature)
    ensures Name(f) == Name(g) <==> f == g
  {
  }

  function FeatureValue(a: AudioFeatures, f: Feature): real
  {
    match f
    case Danceability => a.danceability
    case Energy => a.energy
    case Valence => a.valence
    case Tempo => a.tempo
    case Acousticness => a.acousticness
    case Instrumentalness => a.instrumentalness
    case Liveness => a.liveness
    case Speechiness => a.speechiness
  }

  /** One feature across all feature records: a data-frame column. */
  function Column(features: seq<AudioFeatures>, f: Feature): (c: seq<real>)
    ensures |c| == |features|
    ensures forall j :: 0 <= j < |c| ==> c[j] == FeatureValue(features[j], f)
  {
    seq(|features|, j requires 0 <= j < |features| => FeatureValue(features[j], f))
  }

  datatype PlaylistStats = PlaylistStats(
    totalTracks: nat, analyzedTracks: nat, averages: map<Feature, real>, stdDevs: map<Feature, real>)

  datatype PlaylistAnalysis = PlaylistAnalysis(
    playlist: PlaylistResponse, tracks: seq<TrackResponse>, features: seq<AudioFeatures>,
    stats: PlaylistStats)

  function TrackIds(tracks: seq<TrackResponse>): seq<string>
  {
    seq(|tracks|, j requires 0 <= j < |tracks| => tracks[j].id)
  }

  /** The exact mean of every summarized feature's column. */
  function Averages(features: seq<AudioFeatures>): (m: map<Feature, real>)
    requires |features| > 0
    ensures forall f: Feature :: f in m
    ensures forall f: Feature :: Seqs.IsMean(m[f], Column(features, f))
  {
    map f: Feature :: Seqs.Mean(Column(features, f))
  }

  /** The caller-supplied spread of every summarized feature's column. */
  function StdDevs(features: seq<AudioFeatures>, sampleStd: seq<real> -> real): (m: map<Feature, real>)
    ensures forall f: Feature :: f in m && m[f] == sampleStd(Column(features, f))
  {
    map f: Feature :: sampleStd(Column(features, f))
  }

  /** The statistics block: counts, exact means and (caller-supplied) sample
      standard deviations of the summarized features; empty maps when no
      track has features. */
  function Stats(tracks: seq<TrackResponse>, features: seq<AudioFeatures>, sampleStd: seq<real> -> real)
    : (s: PlaylistStats)
    ensures s.totalTracks == |tracks| && s.analyzedTracks == |features|
    ensures |features| == 0 ==> s.averages == map[] && s.stdDevs == map[]
    ensures |features| > 0 ==>
              && (forall f: Feature :: f in s.averages && f in s.stdDevs)
              && forall f: Feature :: Seqs.IsMean(s.averages[f], Column(features, f))
  {
    if |features| == 0 then PlaylistStats(|tracks|, 0, map[], map[])
    else PlaylistStats(|tracks|, |features|, Averages(features), StdDevs(features, sampleStd))
  }

  /** `analyze_playlist`: the playlist's metadata, its usable tracks, their
      features fetched in batches in track order, and the statistics.
      `detail` is the SDK's playlist object and `pages` its track listing. */
  method AnalyzePlaylist(detail: RawPlaylist, pages: seq<Page<RawPlaylistItem>>,
                         upstream: Upstream, sampleStd: seq<real> -> real)
    returns (analysis: PlaylistAnalysis, requested: seq<seq<string>>)
    ensures analysis.playlist == ToPlaylistResponse(detail)
    ensures analysis.tracks == UsableTracks(Items(PagesRead(pages)))
    ensures Seqs.Concat(requested) == TrackIds(analysis.tracks)
    ensures forall j :: 0 <= j < |requested| ==> 0 < |requested[j]| <= BatchSize
    ensures |requested| == (|analysis.tracks| + BatchSize - 1) / BatchSize
    ensures forall j :: 0 <= j < |requested| ==> requested[j] == Block(TrackIds(analysis.tracks), j)
    ensures analysis.features == Present(Responses(upstream, requested))
    ensures analysis.stats == Stats(analysis.tracks, analysis.features, sampleStd)
    ensures analysis.stats.totalTracks == |analysis.tracks|
    ensures analysis.stats.analyzedTracks == |analysis.features|
    ensures |analysis.features| == 0 ==>
              analysis.stats.averages == map[] && analysis.stats.stdDevs == map[]
  {
    var playlist := ToPlaylistResponse(detail);
    var tracks := GetPlaylistTracks(pages);
    var trackIds := TrackIds(tracks);
    var features;
    requested, features := GetAudioFeaturesBatch(trackIds, upstream);
    analysis := PlaylistAnalysis(playlist, tracks, features, Stats(tracks, features, sampleStd));
  }
}
