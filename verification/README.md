# Cache-aside data layer of the Spotify/Twitter explorer

This project models the data layer of a command-line explorer that reads
artists, tracks, playlists, related artists, featured playlists and social
posts from two remote services and keeps them in a local relational cache.

- **The repository** (`DataAccessor`, data_accessor.py) works over nine tables.
  - The entity tables are `artist`, `track`, `playlist` and `twitter`.
  - The join tables are `track_artist`, `playlist_track`, `related_artist`, `featured_playlist` and `track_twitter`.
  - In the model it is a class with one `seq` field per table, in insertion order.
  - Every `save_*` appends rows one statement at a time.
  - A lookup by key returns the first matching row, as `fetchone` does.
  - A join query returns the matching rows in row order, as `fetchall` does.
  - `find_track` and `find_playlist` rebuild their children through `find_artist` and `find_track`. They keep a `None` entry for a join row whose child is not stored.
- **The orchestrators** (`get_*`, spotify_cli.py) ask the repository first.
  - On a hit they return the stored entity.
  - On a miss they fetch the remote record, convert it, save it and return it.
  - The track and playlist converters fetch their children through `get_artist` and `get_track`. They drop every child whose lookup fails.
  - `get_related_artists` and `get_featured_playlists` stop at the first failing child.
  - `get_featured_playlists` keeps at most five playlists.
  - Each orchestrator is a method over the repository object and a `Remote` object.
    - `Remote` holds a fixed catalogue of raw records and counts the requests made.
    - A request for a record the catalogue lacks is a failed request.
  - Each method is proved equal to a pure function of the store before the call and the catalogue, in module `CacheAside`. The two agree on three things: the answer, the store afterwards and the number of requests made.
- **The entities** (spotify_objects.py) are values with their `__str__` printers.
  - The track and playlist printers build their text in a loop.
  - Each printer is proved to produce the text its function describes.

The properties proved are in modules `StoreFacts` (repository) and
`CacheFacts` (orchestrators).
- `StoreFacts` proves:
  - hit or miss for every finder;
  - save-then-find round trips;
  - stability of stored entities while the tables grow.
- `CacheFacts` proves:
  - a hit makes no request and changes nothing;
  - a miss saves what it fetched, so the same call is then a hit:
    - for an artist, a track or a playlist, with the same answer, when the catalogue answers each id with a record carrying that id and, for a track or a playlist, the store is referentially intact (which every `get_*` keeps, starting from the empty store of `EmptyStoreIntegrity`);
    - for related artists and featured playlists, when the answer was non-empty, with the same answer, when the catalogue answers each id with a record carrying that id and, for featured playlists, the store is referentially intact;
    - for posts, when the search found any, with the stored post of each status id in order; this is the same answer when the ids are distinct and new (`TwittersRepeat`), and can differ otherwise (`TwittersDuplicateId`);
  - the converters keep exactly the obtainable children, in source order;
  - the first-failure cut-off of the related and featured loops;
  - the cap of five;
  - the twitter behaviour, where an empty search is not remembered;
  - referential integrity of the store, which is kept by each of the six `get_*` calls.

Module layout:
- `Wrappers`: `Option`, `Result`.
- `Text`: `sep.join`, `str(int)`, `split(", ")`.
- `Objects`: spotify_objects.py.
- `Tables`: the tables and the reads and writes as functions.
- `DataAccess`: the `DataAccessor` class.
- `StoreFacts`.
- `Services`: raw records, catalogue, `Remote`.
- `Conversion`: the converters.
- `CacheAside`: the `get_*` as functions.
- `Explorer`: the `get_*` and the converters as methods.
- `CacheFacts`.

## Model

| member | source | states |
|---|---|---|
| Text.SplitJoin | spotify_cli.py:105 | splitting a `", "`-joined non-empty genre list whose genres hold no `", "` gives the list back |
| Text.JoinCons | spotify_cli.py:105 | joining a first part onto a non-empty rest puts exactly one separator after it |
| Text.IntToString | spotify_objects.py:22-26 | `str(i)` of an integer is non-empty and all digits except a leading minus; the minus appears exactly for negatives; the digits have no leading zero and read back as the magnitude of `i`, which fixes the text uniquely |
| Text.ParseNatToString | spotify_objects.py:76 | the decimal text `str(n)` used for track numbers reads back as `n` |
| Objects.NewTrack | spotify_objects.py:31-40 | the constructor stores every argument in the same-named field, and the artist list starts empty |
| Objects.NewPlaylist | spotify_objects.py:60-70 | the constructor stores every argument in the same-named field, and the track list starts empty |
| Objects.ArtistText | spotify_objects.py:21-26 | the printed artist starts with its name line and ends with a newline |
| Objects.TwitterText | spotify_objects.py:96-99 | the printed post starts with its user line and ends with a newline |
| Objects.TwitterTextDependsOnly | spotify_objects.py:96-99 | two posts with the same user name and text print the same |
| Objects.ArtistNamesIsJoin | spotify_objects.py:43-49 | unless the first of several names is empty, the accumulator loop builds exactly `", ".join(names)`, later empty names included |
| Objects.ArtistNamesEmptyHead | spotify_objects.py:46-49 | an empty first name makes the loop omit the separator that `", ".join` would write |
| Objects.ArtistNamesStep | spotify_objects.py:45-49 | one more artist extends the name segment by one accumulator step |
| Objects.TrackText | spotify_objects.py:51-55 | the printed track starts with its name line and ends with a newline |
| Objects.TrackTextNoArtists | spotify_objects.py:43-55 | a track without artists prints an empty artist segment |
| Objects.TrackToString | spotify_objects.py:42-55 | the loop prints exactly the text `TrackText` describes |
| Objects.TrackLinesAppend | spotify_objects.py:75-76 | the numbered lines of two lists are the lines of the first followed by the second's, numbered on |
| Objects.TrackLinesAt | spotify_objects.py:75-76 | the track at position `i` is printed on line `[i + 1]`, between the lines of the tracks before and after it |
| Objects.TrackLinesCount | spotify_objects.py:75-76 | with no line break inside the names, the track segment holds exactly one line per track |
| Objects.PlaylistText | spotify_objects.py:78-83 | the printed playlist starts with its name line and ends with a newline |
| Objects.PlaylistToString | spotify_objects.py:72-83 | the loop prints exactly the text `PlaylistText` describes |
| Tables.First | data_accessor.py:56-59 | the lookup is `None` exactly when no row carries the key; otherwise it is a row of the table with that key |
| Tables.FirstAppend | data_accessor.py:36-39 | appending rows keeps a successful lookup and lets a failed one find the first new match |
| Tables.FirstPrefix | data_accessor.py:36-39 | a table that only grows keeps every successful lookup |
| Tables.MembersAreLinks | data_accessor.py:111-113 | every member read back comes from a join row of that owner |
| Tables.MembersAppend | data_accessor.py:111-113 | reading the join rows of an extended table gives the old members followed by the new ones, in row order |
| Tables.MembersOtherOwner | data_accessor.py:111-113 | rows of other owners contribute no member |
| Tables.LinksFrom | data_accessor.py:84-87 | one join row per child, all with the same owner, in list order |
| Tables.MembersOfLinks | data_accessor.py:84-87 | reading back the rows written for one owner gives the child ids in order |
| Tables.ArtistsByIds | data_accessor.py:115-116 | one `find_artist` result per id, in order |
| Tables.TracksByIds | data_accessor.py:175-176 | one `find_track` result per id, in order |
| Tables.FeaturedIds | data_accessor.py:278-282 | one playlist id per `featured_playlist` row, of every snapshot |
| Tables.FeaturedRows | data_accessor.py:254-259 | one row per playlist, in list order, all with the same timestamp |
| DataAccess.DataAccessor.constructor | data_accessor.py:18-19 | the opened repository holds the given tables |
| DataAccess.DataAccessor.SaveArtist | data_accessor.py:22-40 | appends one artist row, changes no other table, returns the argument |
| DataAccess.DataAccessor.FindArtist | data_accessor.py:42-62 | the first artist row with the id, `None` exactly when no row has it |
| DataAccess.DataAccessor.SaveTrack | data_accessor.py:65-89 | appends one track row and one `track_artist` row per artist in list order, changes no other table, returns the argument |
| DataAccess.DataAccessor.FindTrack | data_accessor.py:91-118 | the loop rebuilds the track exactly as `TrackById` describes: its row, one `find_artist` result per join row |
| DataAccess.DataAccessor.SavePlaylist | data_accessor.py:121-146 | appends one playlist row and one `playlist_track` row per track in list order, returns the argument |
| DataAccess.DataAccessor.FindPlaylist | data_accessor.py:148-178 | the loop rebuilds the playlist exactly as `PlaylistById` describes: its row, one `find_track` result per join row |
| DataAccess.DataAccessor.SaveRelatedArtists | data_accessor.py:181-206 | appends one `related_artist` row per artist in list order, returns the argument |
| DataAccess.DataAccessor.FindRelatedArtists | data_accessor.py:208-234 | one `find_artist` result per join row, or `None` when there is none |
| DataAccess.DataAccessor.SaveFeaturedPlaylists | data_accessor.py:237-261 | appends one row per playlist, all stamped with the same timestamp, returns the argument |
| DataAccess.DataAccessor.FindFeaturedPlaylists | data_accessor.py:263-287 | one `find_playlist` result per row of every snapshot, or `None` when the table is empty |
| DataAccess.DataAccessor.SaveTwitter | data_accessor.py:290-313 | appends the post when its id is new; a duplicate leaves every table unchanged; always returns the post |
| DataAccess.DataAccessor.FindTwitter | data_accessor.py:315-336 | the first post with the id, `None` exactly when no row has it |
| DataAccess.DataAccessor.SaveTwitterByTrack | data_accessor.py:338-363 | appends one `track_twitter` row per post in list order, returns the argument |
| DataAccess.DataAccessor.FindTwittersByTrack | data_accessor.py:365-394 | one `find_twitter` result per join row, or `None` when there is none |
| StoreFacts.FindNoneIffAbsent | data_accessor.py:56-59 | each keyed finder answers `None` exactly when no row carries the id (artist, track, playlist, twitter) |
| StoreFacts.TrackByIdShape | data_accessor.py:111-116 | a found track has one artist entry per `track_artist` row in row order; an entry is `None` exactly when its artist has no row |
| StoreFacts.PlaylistByIdShape | data_accessor.py:171-176 | a found playlist has one `find_track` result per `playlist_track` row, in row order |
| StoreFacts.RelationCounts | data_accessor.py:223-234 | the related and post finders answer `None` exactly when there is no join row, else one entry per row |
| StoreFacts.FeaturedCounts | data_accessor.py:278-287 | the featured finder answers one playlist per row across all snapshots, with no timestamp filter |
| StoreFacts.ArtistRoundTrip | data_accessor.py:36-62 | save then find of a new artist gives it back equal in all six fields; other lookups are unchanged |
| StoreFacts.TrackRoundTrip | data_accessor.py:79-118 | save then find of a new track with stored artists gives it back equal, artists in order |
| StoreFacts.PlaylistRoundTrip | data_accessor.py:135-178 | save then find of a new playlist with stored tracks gives it back equal, tracks in order |
| StoreFacts.TracksIgnorePlaylists | data_accessor.py:104-118 | rebuilding tracks reads only the artist, track and join tables |
| StoreFacts.TrackIgnoresPlaylists | data_accessor.py:104-118 | rebuilding one track reads only the artist, track and `track_artist` tables |
| StoreFacts.RelatedRoundTrip | data_accessor.py:199-234 | save then find of a fresh relation gives the artists back in order, or `None` for an empty list |
| StoreFacts.FeaturedAfterSave | data_accessor.py:250-259 | one row per playlist appended with the call's tag; earlier snapshots stay |
| StoreFacts.TwitterSaveFindable | data_accessor.py:305-313 | after `save_twitter` the id is always found: the new post, or the stored one on a duplicate, which changes nothing |
| StoreFacts.TwitterSaveKeepsId | data_accessor.py:305-313 | `save_twitter` never changes the answer for an already stored id |
| StoreFacts.EmptyStoreIntegrity | data_accessor.py:18-19 | an empty database is referentially intact |
| StoreFacts.GrowsTransitive | data_accessor.py:36-39 | appending in two rounds is appending |
| StoreFacts.ArtistStable | data_accessor.py:56-62 | a stored artist stays what it is while the artist table grows |
| StoreFacts.TrackMembersStable | data_accessor.py:111-113 | the join rows of a stored track do not change while the store grows |
| StoreFacts.TrackStable | data_accessor.py:104-118 | in an intact store a stored track is rebuilt identically while the store grows |
| StoreFacts.PlaylistStable | data_accessor.py:161-178 | in an intact store a stored playlist is rebuilt identically while the store grows |
| StoreFacts.TracksStable | data_accessor.py:175-176 | the tracks of a stored playlist are rebuilt identically while the store grows |
| Services.Lookup | spotify_cli.py:223 | a request succeeds exactly for a key in the catalogue, with its record |
| Services.Remote.FetchArtist | spotify_cli.py:223 | one request; the catalogue's artist record or a failure |
| Services.Remote.FetchTrack | spotify_cli.py:245 | one request; the catalogue's track record or a failure |
| Services.Remote.FetchPlaylist | spotify_cli.py:267 | one request; the catalogue's playlist record or a failure |
| Services.Remote.FetchRelatedArtists | spotify_cli.py:292-293 | one request; the related artist ids or a failure |
| Services.Remote.FetchFeaturedPlaylists | spotify_cli.py:316 | one request; the featured playlist ids or a failure |
| Services.Remote.SearchStatuses | spotify_cli.py:346-348 | one request with query and count; the statuses or a failure |
| Conversion.ConvertArtistFaithful | spotify_cli.py:103-111 | the artist copies id, name, follower total, popularity and URL; its genre string splits back into the genre list |
| Conversion.ConvertArtistNoGenres | spotify_cli.py:105 | no genres and one empty genre both give an empty genre string |
| Conversion.ConvertStatusInjective | spotify_cli.py:192-198 | the post copies the five status fields (id, user name, user URL, text, creation time), so two statuses convert to the same post exactly when they are equal |
| Conversion.ShellsFaithful | spotify_cli.py:129-168 | the track and playlist converters copy the record's fields and start with no children |
| CacheAside.ResolveArtists | spotify_cli.py:137-141 | the artist loop keeps at most one artist per listed id (never more artists than ids listed; a repeated id can give a repeated artist) and only adds artist rows |
| CacheAside.ConvertTrackSpec | spotify_cli.py:116-143 | the converted track holds no `None` artist |
| CacheAside.ResolveTracks | spotify_cli.py:170-174 | the track loop keeps at most one track per listed id (never more tracks than ids listed; a repeated id can give a repeated track) and leaves the playlist, relation and post tables alone |
| CacheAside.ConvertPlaylistSpec | spotify_cli.py:147-176 | the converted playlist holds no `None` track |
| CacheAside.GetAllArtists | spotify_cli.py:293-294 | a successful loop holds exactly one artist per listed id and only adds artist rows |
| CacheAside.GetAllArtistsStops | spotify_cli.py:293-294 | after the first failure nothing else is fetched or saved |
| CacheAside.GetAllPlaylists | spotify_cli.py:318-320 | a successful loop holds exactly one playlist per listed id and writes no featured row |
| CacheAside.GetAllPlaylistsStops | spotify_cli.py:318-320 | after the first failure nothing else is fetched or saved |
| CacheAside.ConvertStatuses | spotify_cli.py:350-352 | one post per status, in order |
| CacheAside.SaveAllTwitters | spotify_cli.py:350-353 | saving posts only appends to the `twitter` table |
| Explorer.GetArtist | spotify_cli.py:205-225 | answer, store afterwards and request count are those of `GetArtistSpec` |
| Explorer.ConvertTrack | spotify_cli.py:116-143 | the loop's track, store and request count are those of `ConvertTrackSpec` |
| Explorer.GetTrack | spotify_cli.py:227-247 | answer, store afterwards and request count are those of `GetTrackSpec` |
| Explorer.ConvertPlaylist | spotify_cli.py:147-176 | the loop's playlist, store and request count are those of `ConvertPlaylistSpec` |
| Explorer.GetPlaylist | spotify_cli.py:249-269 | answer, store afterwards and request count are those of `GetPlaylistSpec` |
| Explorer.GetEachArtist | spotify_cli.py:293-294 | the loop stops at the first failure, as `GetAllArtists` says |
| Explorer.GetRelatedArtists | spotify_cli.py:271-296 | answer, store afterwards and request count are those of `GetRelatedSpec` |
| Explorer.GetEachPlaylist | spotify_cli.py:318-320 | the loop stops at the first failure, as `GetAllPlaylists` says |
| Explorer.GetFeaturedPlaylists | spotify_cli.py:298-322 | answer, store afterwards and request count are those of `GetFeaturedSpec` |
| Explorer.GetTwittersByTrack | spotify_cli.py:324-355 | answer, store afterwards and request count are those of `GetTwittersSpec` |
| CacheFacts.IntegrityAddArtists | spotify_cli.py:224 | saving artists keeps the store intact and growing |
| CacheFacts.IntegrityAddTrack | spotify_cli.py:246 | saving a new track whose artists are stored keeps the store intact and growing |
| CacheFacts.GrowsAddTrack | spotify_cli.py:246 | saving a new track only appends, and its join rows belong to the new track |
| CacheFacts.IntegrityAddPlaylist | spotify_cli.py:268 | saving a new playlist whose tracks are stored keeps the store intact and growing |
| CacheFacts.IntegrityAddRows | data_accessor.py:181-206 | appending only posts, related, featured or post-link rows keeps the store intact and growing |
| CacheFacts.GrowsAddPlaylist | spotify_cli.py:268 | saving a new playlist only appends, and its join rows belong to the new playlist |
| CacheFacts.ArtistCaches | spotify_cli.py:218-225 | a hit makes no request and changes nothing; a miss makes one request and, on success, saves the artist found under the id; a failure saves nothing |
| CacheFacts.ArtistIdempotent | spotify_cli.py:218-225 | after a successful call the same call is a hit with the same artist and no request |
| CacheFacts.Obtainable | spotify_cli.py:137-141 | an artist can be obtained exactly when it is stored or in the catalogue |
| CacheFacts.GetArtistAgrees | spotify_cli.py:139 | each `get_artist` of the loop answers what could be obtained before the loop |
| CacheFacts.ResolveArtistsSurvivors | spotify_cli.py:137-141 | the track keeps exactly the obtainable artists, in source order; the failed ones are dropped |
| CacheFacts.SurvivorsAll | spotify_cli.py:137-141 | when every artist can be obtained none is dropped |
| CacheFacts.SurvivorsSkipFailure | spotify_cli.py:138-141 | a failing middle artist is skipped and the ones around it are kept in order |
| CacheFacts.ArtistStepKeeps | spotify_cli.py:139 | one `get_artist` keeps the earlier artists stored and stores the one it answers, under the requested id |
| CacheFacts.ArtistIdsAppend | spotify_cli.py:139 | appending an artist appends its id |
| CacheFacts.ResolveArtistsStored | spotify_cli.py:137-141 | every artist the loop keeps is stored under its id afterwards |
| CacheFacts.ResolveArtistsAllCached | spotify_cli.py:137-141 | a track whose artists are all stored is converted with no request and no change |
| CacheFacts.TrackCaches | spotify_cli.py:240-247 | a hit makes no request and changes nothing; a miss on success saves the track found under the id; a failed track request saves nothing; the store stays intact |
| CacheFacts.TrackIdempotent | spotify_cli.py:240-247 | after a successful call the same call is a hit with the same track, artists included, and no request |
| CacheFacts.TrackAnswer | spotify_cli.py:240-247 | the call answers exactly for a stored or catalogue id, with that id, and adds at most that track |
| CacheFacts.ResolveTracksStored | spotify_cli.py:170-174 | the track loop keeps the store intact, and every track it keeps is stored afterwards |
| CacheFacts.TrackStepKeeps | spotify_cli.py:172 | one `get_track` keeps the earlier tracks stored and stores the one it answers |
| CacheFacts.ObtainableTrackIds | spotify_cli.py:170-174 | the obtainable track ids are listed ids that are stored or in the catalogue |
| CacheFacts.ResolveTracksIds | spotify_cli.py:170-174 | the playlist keeps exactly the obtainable tracks, in source order; the failed ones are dropped |
| CacheFacts.TrackIdStep | spotify_cli.py:172 | one `get_track` of the loop answers exactly for an obtainable id and adds only obtainable tracks |
| CacheFacts.PlaylistCaches | spotify_cli.py:262-269 | a hit makes no request and changes nothing; a miss on success saves the playlist found under the id; a failed playlist request saves nothing; the store stays intact |
| CacheFacts.PlaylistIdempotent | spotify_cli.py:262-269 | after a successful call the same call is a hit with the same playlist, tracks included, and no request |
| CacheFacts.PlaylistTrackIds | spotify_cli.py:266-269 | a fetched playlist lists the obtainable tracks of the remote record in remote order |
| CacheFacts.MembersNone | data_accessor.py:223-225 | no join row belongs to an owner without members |
| CacheFacts.GetAllArtistsStored | spotify_cli.py:291-294 | a successful artist loop holds one artist per remote id, in order, each stored under its id |
| CacheFacts.RelatedMiss | spotify_cli.py:284-296 | with no stored relation: the artist itself is cached first; success answers one artist per remote entry in order; a non-empty answer makes the next call a hit; an empty one is not remembered; a failure saves no relation row |
| CacheFacts.RelatedHit | spotify_cli.py:284-288 | with the artist and its relation stored the call answers from the store with no request |
| CacheFacts.RelatedKeepsIntegrity | spotify_cli.py:271-296 | `get_related_artists` keeps an intact store intact and only grows it, whatever the outcome |
| CacheFacts.CappedIsMin | spotify_cli.py:318 | the number of playlists kept is `min(5, n)` |
| CacheFacts.PlaylistAnswer | spotify_cli.py:262-269 | the call answers exactly for a stored or catalogue id, with that id |
| CacheFacts.PlaylistIdsAppend | spotify_cli.py:319-320 | appending a playlist appends its id |
| CacheFacts.GetAllPlaylistsIds | spotify_cli.py:318-320 | a successful playlist loop holds one playlist per listed id, in order |
| CacheFacts.FeaturedMiss | spotify_cli.py:310-322 | with nothing stored, success answers and records exactly the first `min(5, n)` remote items in order, all with the call's timestamp; a failure records none |
| CacheFacts.PlaylistStepKeeps | spotify_cli.py:319-320 | one `get_playlist` keeps the earlier playlists stored and stores the one it answers |
| CacheFacts.GetAllPlaylistsStored | spotify_cli.py:318-320 | the playlist loop keeps the store intact, and every playlist it answers is stored afterwards |
| CacheFacts.PlaylistsIgnoreFeatured | data_accessor.py:278-282 | rebuilding playlists does not read the featured table |
| CacheFacts.FeaturedIdempotent | spotify_cli.py:310-322 | after a call that saved a non-empty snapshot, the next call is a hit with the same playlists and no request, whatever its timestamp |
| CacheFacts.FeaturedSnapshotReads | data_accessor.py:278-287 | a snapshot saved into an empty featured table reads back as the saved playlists |
| CacheFacts.FeaturedKeepsIntegrity | spotify_cli.py:298-322 | `get_featured_playlists` keeps an intact store intact and only grows it, whatever the outcome |
| CacheFacts.SaveAllTwittersFindable | spotify_cli.py:350-353 | after saving every post, each post's id is found |
| CacheFacts.SaveAllTwittersKeeps | spotify_cli.py:350-353 | saving posts never changes the answer for an id already stored |
| CacheFacts.TwittersMiss | spotify_cli.py:345-355 | with nothing stored: one search; every status converted in order; each post found afterwards; the track's rows list the post ids in order |
| CacheFacts.TwittersAgain | spotify_cli.py:340-355 | a non-empty search makes the next call a hit with no request, answering for each status, in order, the post stored under its id; an empty one leaves the store as it was, so the next call searches again |
| CacheFacts.TwittersHit | spotify_cli.py:340-343 | with posts stored for the track the call answers them with no request, whatever the limit |
| CacheFacts.TwittersKeepIntegrity | spotify_cli.py:324-355 | `get_twitters_by_track` keeps an intact store intact and only grows it, whatever the outcome |
| CacheFacts.SaveAllTwittersFresh | data_accessor.py:290-313 | saving posts leaves an unstored id that none of them carries unstored |
| CacheFacts.SaveAllTwittersExact | data_accessor.py:290-313 | saving posts with distinct, unstored ids stores each post under its id |
| CacheFacts.SaveOneMoreTwitter | data_accessor.py:290-313 | one more save of a post with an unstored id keeps every post found so far and finds the new one |
| CacheFacts.TwittersRepeat | spotify_cli.py:340-355 | when the search answers statuses with distinct ids none of which is stored, the next call is a hit with exactly the first answer, the same store and no request |
| CacheFacts.TwittersDuplicateId | spotify_cli.py:348-353 | two statuses with the same id: the first call answers both posts, the next answers the first post twice |

## Left out

- The SQLite connection, cursors, commits and SQL text are not modelled. They are replaced by in-memory tables. The schema is not part of this model, so the column order is the insert order.
- DataAccess.DataAccessor.SaveArtist: requires the artist id to be absent. What the database does with a duplicate key is not part of this model.
- DataAccess.DataAccessor.SaveTrack: requires the track id to be absent, for the same reason.
- DataAccess.DataAccessor.SaveTrack: also requires every artist to be present. The source commits the track row and then raises an attribute error on a `None` artist, leaving the track without its remaining links; that is not modelled. `get_track` never passes `None`.
- DataAccess.DataAccessor.SavePlaylist: requires the playlist id to be absent, for the same reason.
- DataAccess.DataAccessor.SavePlaylist: also requires every track to be present, for the same reason as `SaveTrack`. `get_playlist` never passes `None`.
- DataAccess.DataAccessor.SaveRelatedArtists: requires every element of the list to be present. The `if artist is None: pass` guard skips nothing, so a `None` element raises an attribute error, which is not modelled. The orchestrators never pass `None`.
- DataAccess.DataAccessor.SaveFeaturedPlaylists: requires every element to be present, for the same reason.
- DataAccess.DataAccessor.SaveTwitterByTrack: requires every element to be present, for the same reason.
- DataAccess.DataAccessor.SaveTwitter: the only insert failure modelled is a duplicate id. Any other database error is not modelled.
- DataAccess.DataAccessor.SaveFeaturedPlaylists: the clock reading `time.time()` and its float-to-digits conversion are not modelled. The timestamp is an integer parameter instead.
- The network clients (spotipy, requests, OAuth1), the secrets modules and the two connectivity tests are not modelled. They are replaced by the `Remote` class over a fixed catalogue.
  - Every request that raises becomes a failed request.
  - Related artists and featured playlists are projected on their ids.
  - The post search is projected on its statuses.
- The explorer methods require `Keyed` of the catalogue: each artist, track and playlist record carries the id it was requested under. The remote service guarantees this; the model assumes it.
- Explorer.GetTwittersByTrack: `limit` is used only as the `count` of the search key. The service's enforcement of the count is not modelled. The default `limit = 100` of spotify_cli.py:324 is not modelled; callers pass `limit` explicitly.
- CacheFacts.TwittersAgain: a repeated call does not always answer what the first call answered. `save_twitter` swallows the insert error for an id already stored, so a post that shares its id with an earlier one is answered as that earlier post. `TwittersDuplicateId` shows this and `TwittersRepeat` gives the condition under which the answers agree.
- The cache-hit and cache-miss traces, the no-op expression in `get_related_artists` and the `__main__` block are not modelled. They are console output only.
- Exceptions are not modelled as such. A failed remote request in a `get_*` is an `Err` result passed to the caller; in the converter loops it is swallowed, as the `try`/`except: pass` does.
- Objects.TrackToString: requires every artist entry to be present. A `None` entry raises an attribute error in the source; it can be read back from a `track_artist` row whose artist is not stored. Integrity rules that out for stores built by the explorer.
- Objects.PlaylistToString: requires every track entry to be present, for the same reason.
- Objects.ArtistNamesIsJoin: holds unless the first name is empty and more names follow. The loop tests the accumulator rather than the position, so an empty first name drops the separator before the second; `ArtistNamesEmptyHead` shows this.
- Conversion.ConvertArtistFaithful: recovers the genre list only when it is non-empty and no genre contains `", "`. The join loses that information otherwise.
- The loops of `get_related_artists` and `get_featured_playlists` are the methods `GetEachArtist` and `GetEachPlaylist`, called from the orchestrators.
- The `Artist` and `Twitter` constructors are the datatype constructors, which store every argument in the same-named field.
