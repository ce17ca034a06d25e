# spotify_analytics: a Dafny model of the analytics core

This project models three parts of the spotify_analytics backend:

- **Track aggregations** (`DataAnalyzer`): `genre_distribution`, `mood_map` and `tempo_trends`.
  These are pure functions from a list of track records to a summary:
  - a genre histogram sorted by count;
  - the valence/energy scatter;
  - the tempo mean and a fixed-edge tempo histogram.
- **Analysis-history store** (`DbService`): `save_analysis`, `get_latest_analysis` and `get_user_analysis_history`.
  The table is an append-only log of records in insertion order. The timestamp is an abstract instant supplied by the caller.
- **Streaming-service adapter** (`SpotifyService`): the bookkeeping around the SDK calls. That is:
  - following pagination links;
  - dropping playlist items with no track or no id;
  - requesting audio features in slices of at most 100 ids;
  - the error case of the single-track features lookup;
  - the counts and means of a playlist analysis.

  SDK responses are inputs: a sequence of pages, or a function from the requested ids to the returned entries.

Modules:

| file | module | contents |
|---|---|---|
| wrappers.dfy | `Wrappers` | `Option`, `Result` |
| seqs.dfy | `Seqs` | filter, take, concat, exact sum and mean, duplicate-freedom |
| sorting.dfy | `Sorting` | stable sort into non-increasing key order, and its stability lemma |
| data_analyzer.dfy | `DataAnalyzer` | the three aggregations |
| db_service.dfy | `DbService` | the record log and its three operations |
| spotify_service.dfy | `SpotifyService` | pagination, item filter, batching, playlist analysis |
| examples.dfy | `Examples` | fixed inputs with their exact results |

How the model represents the source's data:

- A track record is a datatype. "Key absent" (`Missing`) and "key present with a null value" (`Present(None)`) are kept apart, because `dict.get(key, default)` treats them differently.
- Floats are exact reals, so means are exact `sum / len`.
- Python's `list.sort(reverse=True)` and SQL `ORDER BY ... DESC` are both modelled by one insertion sort, `Sorting.SortDesc`.
  - For the genre histogram, the model proves that the sort is stable. Rows with equal counts keep the dictionary's insertion order, which is the order in which each genre was first seen.
  - For the history listing, SQL leaves the order of equal timestamps open, and the contract promises only the non-increasing order.

Tempo binning follows the code. `pd.cut(..., include_lowest=True)` keeps the default `right=True`, so the bins are [0,60], (60,80], ..., (200,220] and (220,+inf). This has three consequences:

- a tempo of exactly 60 is in "0-60";
- exactly 120 is in "100-120", so for tempos 120 and 130 the buckets "100-120" and "120-140" each count 1;
- a negative tempo is in no bin. It is still part of the mean.

Each label therefore names a bin closed on its upper edge: "60-80" holds tempos above 60 up to and including 80. `Examples.BoundaryBins` and `Examples.TempoTrendsExample` state this at the edges. When at least one tempo exists, `value_counts()` on the categorical column lists all ten labels, including those with count 0. `sort_index()` then puts them in boundary order.

## Model

| member | source | states |
|---|---|---|
| DataAnalyzer.TruthyEntries | backend/services/data_analyzer.py:195-197 | null and empty-string genre entries are skipped; every other genre is kept exactly as often as it is listed |
| DataAnalyzer.GenreStreamCounts | backend/services/data_analyzer.py:190-197 | how often the counting loop meets a genre equals its reference number of occurrences over the tracks whose "genres" value is a list (a missing key counts as an empty list); "" is never counted |
| DataAnalyzer.Bump | backend/services/data_analyzer.py:197 | a dictionary increment on an insertion-ordered dict: an existing key is incremented in place and nothing else changes; a new key is appended with count 1; keys stay distinct |
| DataAnalyzer.Tally | backend/services/data_analyzer.py:190-197 | the dictionary after the loop has distinct keys; its keys are exactly the genres met; each count is the genre's number of occurrences |
| DataAnalyzer.TallyInFirstSeenOrder | backend/services/data_analyzer.py:190-202 | the dictionary lists genres in the order in which each was first met |
| Sorting.SortDesc | backend/services/data_analyzer.py:203 | the sort returns a permutation of its input, in non-increasing key order |
| Sorting.SortDescKeepsTies | backend/services/data_analyzer.py:203 | the sort is stable: elements with equal keys keep their input order |
| DataAnalyzer.GenreDistribution | backend/services/data_analyzer.py:190-204 | empty input gives []; each row is a non-empty genre with its exact occurrence count; every occurring genre has a row, and exactly one; rows are in non-increasing count order; rows with equal counts are in first-seen order |
| DataAnalyzer.MoodMap | backend/services/data_analyzer.py:219-235 | one point per track that has both valence and energy, so the output is never longer than the input |
| DataAnalyzer.MoodMapMembers | backend/services/data_analyzer.py:219-235 | every track with both values contributes its point, and every point comes from such a track |
| DataAnalyzer.MoodMapAppend | backend/services/data_analyzer.py:220-233 | order is preserved: the scatter of a concatenation is the concatenation of the scatters |
| DataAnalyzer.MoodMapSingle | backend/services/data_analyzer.py:221-233 | a single track yields a point exactly when neither value is null (0.0 is kept); the values are copied unchanged; the name is the "track" value if that key exists, else the "name" value, else "Unknown" |
| DataAnalyzer.BinOf | backend/services/data_analyzer.py:272-288 | a tempo gets a bin exactly when it is at least 0, and that bin's interval contains it |
| DataAnalyzer.BinOfExactlyOne | backend/services/data_analyzer.py:272-288 | the ten right-closed intervals partition the non-negative reals: a tempo is in interval i exactly when the binning assigns it bin i |
| DataAnalyzer.TempoValuesAppend | backend/services/data_analyzer.py:254-258 | tempo collection keeps input order: the tempos of a concatenation are the concatenation of the tempos |
| DataAnalyzer.TempoValuesSingle | backend/services/data_analyzer.py:256-258 | a track contributes its tempo exactly when the tempo is not null |
| DataAnalyzer.Distribution | backend/services/data_analyzer.py:289-294 | all ten labels are listed, each once, in boundary order |
| DataAnalyzer.BinTallyIsInBinCount | backend/services/data_analyzer.py:286-289 | the count of each bin is the number of tempos in that bin's interval |
| DataAnalyzer.DistributionCountsNonNegative | backend/services/data_analyzer.py:286-294 | the counts add up to the number of tempos that are at least 0 |
| DataAnalyzer.TempoTrends | backend/services/data_analyzer.py:254-300 | with no non-null tempo: mean 0, std 0 and an empty distribution; otherwise: mean times count equals the sum of exactly the non-null tempos, std is the supplied sample deviation of those tempos, and there are ten buckets whose counts are the interval counts |
| Seqs.Mean | backend/services/data_analyzer.py:268 | the mean of a non-empty sequence multiplied by its length is its sum |
| DbService.SaveAnalysis | backend/services/db_service.py:31-41 | appends exactly one record carrying the given user, type, time range and result, stamped with the supplied instant; earlier records are unchanged; ids stay 1, 2, 3, ... |
| DbService.GetLatestAnalysis | backend/services/db_service.py:62-71 | None if and only if no record matches all three keys; otherwise a stored record that matches all three and whose timestamp is not older than that of any other matching record |
| DbService.LatestAfterSave | backend/services/db_service.py:31-71 | if the save's instant is strictly later than every stored timestamp, a save followed by a latest-lookup for the same keys returns the saved record (at an equal instant the SQL ordering may return either row, so nothing is claimed) |
| DbService.LatestOtherKeyUnchanged | backend/services/db_service.py:31-71 | a save does not change the latest-lookup for any other key triple |
| DbService.GetUserAnalysisHistory | backend/services/db_service.py:92-95 | only the user's records, of the given type when the type is truthy; newest first; drawn from the matching records; length min(limit, matches) for limit >= 0 and all matches for a negative limit; no match left out is newer than one returned |
| DbService.NewestKept | backend/services/db_service.py:95 | cutting a newest-first ordering keeps a newest-first sub-multiset of the matches, and every dropped match is no newer than every kept one |
| DbService.HistoryUnlimited | backend/services/db_service.py:95 | with a negative limit the history holds every matching record |
| DbService.HistoryAfterSave | backend/services/db_service.py:31-95 | a record saved later than every stored one heads its user's history, provided it passes the type filter and the limit is not 0 |
| SpotifyService.PagesRead | backend/spotify_service.py:37-51 | the pages read form a prefix of the listing; every page read except the last has a next link; reading stops at the first page without one |
| SpotifyService.PagesReadStopsAt | backend/spotify_service.py:48-51 | the pages read end exactly at the first page whose next link is falsy, or run to the end of the listing |
| SpotifyService.GetUserPlaylists | backend/spotify_service.py:32-53 | one response per item of every page read, in order, each carrying that item's fields and the first image if there is one |
| SpotifyService.UsableTracks | backend/spotify_service.py:73-89 | never more tracks than items, and every track kept has a non-empty id |
| SpotifyService.UsableTracksAppend | backend/spotify_service.py:72-89 | filtering distributes over concatenation, so page order is preserved |
| SpotifyService.UsableTracksSingle | backend/spotify_service.py:74-89 | an item is kept exactly when its track is not null and its id is truthy |
| SpotifyService.UsableOfPage | backend/spotify_service.py:73-89 | the loop over one page's items keeps exactly the usable items, in order |
| SpotifyService.GetPlaylistTracks | backend/spotify_service.py:67-95 | the usable items of every page read, concatenated in page order |
| SpotifyService.GetAudioFeatures | backend/spotify_service.py:97-102 | succeeds exactly when the first entry of the response is not null, and then returns it; a null entry raises the no-features error for that id; an empty response is the empty-response error |
| SpotifyService.Present | backend/spotify_service.py:131-149 | keeps the non-null entries and only those; never more than the entries given |
| SpotifyService.PresentCounts | backend/spotify_service.py:131-133 | every non-null entry is kept exactly as often as it occurs in the responses; duplicates are not merged |
| SpotifyService.PresentAppend | backend/spotify_service.py:127-133 | order is preserved: the filtered responses of consecutive batches are the filtered first batch followed by the filtered second |
| SpotifyService.GetAudioFeaturesBatch | backend/spotify_service.py:120-151 | slice j is exactly the ids at positions 100j up to 100(j+1), cut short at the end; the slices concatenate to exactly the ids; each holds 1 to 100 ids; there are ceil(n/100) slices; the result is the non-null entries of all responses, in order |
| SpotifyService.FeaturesAtMostIds | backend/spotify_service.py:127-151 | when the service answers one entry per requested id, the batch result has no more records than ids |
| SpotifyService.Averages | backend/spotify_service.py:175-184 | each of the eight summarized features has an exact mean of its column |
| SpotifyService.NamesDistinct | backend/spotify_service.py:175-194 | the eight response keys are pairwise distinct, one per summarized feature |
| SpotifyService.Stats | backend/spotify_service.py:170-202 | totals are the track and feature counts; with no features both maps are empty; otherwise both maps have all eight keys and each average is the exact mean of its column |
| SpotifyService.AnalyzePlaylist | backend/spotify_service.py:153-209 | the analysis carries the playlist's fields and its usable tracks; features are requested for those tracks' ids, in track order, slice j being ids 100j up to 100(j+1); the features are the non-null entries of the responses; the statistics are those of exactly these tracks and features, so the counts are the track and feature counts, the maps are empty when there are no features and otherwise hold the exact mean of every column |
| Examples.GenreDistributionExample | backend/services/data_analyzer.py:190-204 | for genres [pop, rock] and [pop, j-pop] the rows are pop 2, rock 1, j-pop 1 |
| Examples.TempoTrendsExample | backend/services/data_analyzer.py:254-294 | for tempos 120 and 130: the mean is 125; "100-120" and "120-140" count 1 each; the other eight bins count 0 |
| Examples.BoundaryBins | backend/services/data_analyzer.py:272-288 | 0 and 60 fall in "0-60"; 60.5 falls in "60-80"; 120 falls in "100-120"; -0.5 falls in no bin; 1000 falls in "220+" |

## Left out

- Clustering and its helpers (backend/services/data_analyzer.py:24-175): standardisation, k-means, `calculate_statistics`, cluster characteristics and representative tracks. They are numerical library calls over floats.
- TempoTrends: the sample standard deviation is the parameter `sampleStd`, not computed. The real computation needs a square root and gives NaN for a single value.
- Stats: `std_devs` likewise comes from `sampleStd`. Averages are exact real means, not float means.
- Floating point: every float is an exact real. NaN, infinities and rounding are not modelled, and neither is a `float()` conversion that raises on a non-numeric value.
- TruthyEntries: genre entries are strings or null. Other truthy or falsy values inside a genres list (numbers, lists) are not modelled.
- GetLatestAnalysis: among matching records with equal timestamps, SQL may return any. The model returns the last one inserted, but its contract promises only a record with the greatest timestamp.
- GetUserAnalysisHistory: the order among equal timestamps is whatever the insertion sort yields. The contract promises only the non-increasing order. A negative `limit` is read as "no limit", which is how SQLite, the default database, treats it.
- GetAudioFeatures: an empty response is the `EmptyResponse` error, standing for the IndexError that indexing `[0]` raises. An empty but non-null features object, which is also falsy, is not distinguished from a present one.
- GetAudioFeaturesBatch: an upstream call that raises part-way through is not modelled. A null response for a whole batch is not modelled either.
- `get_playlist_details` is modelled only as the conversion `ToPlaylistResponse` of the playlist object it fetches. The fetch itself is SDK I/O.
- SDK, HTTP and process plumbing are not modelled: authentication, the OAuth client, page-size arguments, the FastAPI handlers, the SQLAlchemy session and engine, Celery tasks, the one-off scripts, the Pydantic schemas and the frontend.
- The clock (`datetime.utcnow()`) is the `now` parameter of `SaveAnalysis`. The result JSON is an inert `Json` value.
