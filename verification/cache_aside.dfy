/** The cache-aside reads of the explorer (spotify_cli.py), as functions of the
    store before the call and of the remote catalogue. Each `get_*` first asks
    the store; on a hit it returns the stored entity and makes no request; on a
    miss it fetches the record, converts it (resolving children through the same
    cache), saves the result and returns it. A failed request is an error that
    leaves behind whatever was saved before it. */
module CacheAside {
  import opened Wrappers
  import opened Objects
  import opened Tables
  import opened Services
  import opened Conversion

  /** The outcome of one `get_*` call: its answer, the store after it and the
      number of remote requests it made. */
  datatype Step<T> = Step(result: Result<T, FetchError>, store: Store, fetches: nat)

  /** The outcome of a converter loop, which swallows every failure. */
  datatype Built<T> = Built(value: T, store: Store, fetches: nat)

  // ---------------------------------------------------------------- get_artist

  function GetArtistSpec(s: Store, c: Catalog, id: string): Step<Artist>
  {
    match ArtistById(s, id)
    case Some(a) => Step(Ok(a), s, 0)
    case None =>
      if id in c.artists then
        var a := ConvertArtist(c.artists[id]);
        Step(Ok(a), WithArtist(s, a), 1)
      else Step(Err(ExternalUnavailable), s, 1)
  }

  // ---------------------------------------------------------------- get_track

  /** The artist loop of `convert_spotify_track_object`: `get_artist` for each
      listed id in order, dropping the ones that fail. */
  function ResolveArtists(s: Store, c: Catalog, ids: seq<string>): (r: Built<seq<Option<Artist>>>)
    ensures AllSome(r.value) && |r.value| <= |ids|
    ensures r.store == s.(artist := r.store.artist) && s.artist <= r.store.artist
    decreases |ids|
  {
    if ids == [] then Built([], s, 0)
    else
      var prev := ResolveArtists(s, c, ids[..|ids| - 1]);
      var step := GetArtistSpec(prev.store, c, ids[|ids| - 1]);
      Built(if step.result.Ok? then prev.value + [Some(step.result.value)] else prev.value,
            step.store, prev.fetches + step.fetches)
  }

  /** `convert_spotify_track_object`. */
  function ConvertTrackSpec(s: Store, c: Catalog, raw: RawTrack): (r: Built<Track>)
    ensures AllSome(r.value.artists)
  {
    var artists := ResolveArtists(s, c, raw.artistIds);
    Built(TrackShell(raw).(artists := artists.value), artists.store, artists.fetches)
  }

  function GetTrackSpec(s: Store, c: Catalog, id: string): Step<Track>
  {
    match TrackById(s, id)
    case Some(t) => Step(Ok(t), s, 0)
    case None =>
      if id in c.tracks then
        var conv := ConvertTrackSpec(s, c, c.tracks[id]);
        Step(Ok(conv.value), WithTrack(conv.store, conv.value), 1 + conv.fetches)
      else Step(Err(ExternalUnavailable), s, 1)
  }

  // ---------------------------------------------------------------- get_playlist

  /** The track loop of `convert_spotify_playlist_object`: `get_track` for each
      listed id in order, dropping the ones that fail. */
  function ResolveTracks(s: Store, c: Catalog, ids: seq<string>): (r: Built<seq<Option<Track>>>)
    ensures AllSome(r.value) && |r.value| <= |ids|
    ensures r.store.playlist == s.playlist && r.store.playlistTrack == s.playlistTrack
    ensures r.store.relatedArtist == s.relatedArtist && r.store.featuredPlaylist == s.featuredPlaylist
    ensures r.store.twitter == s.twitter && r.store.trackTwitter == s.trackTwitter
    decreases |ids|
  {
    if ids == [] then Built([], s, 0)
    else
      var prev := ResolveTracks(s, c, ids[..|ids| - 1]);
      var step := GetTrackSpec(prev.store, c, ids[|ids| - 1]);
      Built(if step.result.Ok? then prev.value + [Some(step.result.value)] else prev.value,
            step.store, prev.fetches + step.fetches)
  }

  /** `convert_spotify_playlist_object`. */
  function ConvertPlaylistSpec(s: Store, c: Catalog, raw: RawPlaylist): (r: Built<Playlist>)
    ensures AllSome(r.value.tracks)
  {
    var tracks := ResolveTracks(s, c, raw.trackIds);
    Built(PlaylistShell(raw).(tracks := tracks.value), tracks.store, tracks.fetches)
  }

  function GetPlaylistSpec(s: Store, c: Catalog, id: string): Step<Playlist>
  {
    match PlaylistById(s, id)
    case Some(p) => Step(Ok(p), s, 0)
    case None =>
      if id in c.playlists then
        var conv := ConvertPlaylistSpec(s, c, c.playlists[id]);
        Step(Ok(conv.value), WithPlaylist(conv.store, conv.value), 1 + conv.fetches)
      else Step(Err(ExternalUnavailable), s, 1)
  }

  // ---------------------------------------------------------------- get_related_artists

  /** `get_artist` for each id in order; the first failure ends the loop and is
      the answer. */
  function GetAllArtists(s: Store, c: Catalog, ids: seq<string>): (r: Step<seq<Option<Artist>>>)
    ensures r.result.Ok? ==> AllSome(r.result.value) && |r.result.value| == |ids|
    ensures r.store == s.(artist := r.store.artist) && s.artist <= r.store.artist
    decreases |ids|
  {
    if ids == [] then Step(Ok([]), s, 0)
    else
      var prev := GetAllArtists(s, c, ids[..|ids| - 1]);
      if prev.result.Err? then prev
      else
        var step := GetArtistSpec(prev.store, c, ids[|ids| - 1]);
        Step(if step.result.Ok? then Ok(prev.result.value + [Some(step.result.value)])
             else Err(step.result.error),
             step.store, prev.fetches + step.fetches)
  }

  /** The first failure ends the loop: what follows it changes nothing. */
  lemma {:induction false} GetAllArtistsStops(s: Store, c: Catalog, ids: seq<string>, k: nat)
    requires k <= |ids|
    requires GetAllArtists(s, c, ids[..k]).result.Err?
    ensures GetAllArtists(s, c, ids) == GetAllArtists(s, c, ids[..k])
    decreases |ids|
  {
    if k < |ids| {
      var init := ids[..|ids| - 1];
      assert init[..k] == ids[..k];
      GetAllArtistsStops(s, c, init, k);
    } else {
      assert ids[..k] == ids;
    }
  }

  function GetRelatedSpec(s: Store, c: Catalog, id: string): Step<seq<Option<Artist>>>
  {
    var owner := GetArtistSpec(s, c, id);
    if owner.result.Err? then Step(Err(owner.result.error), owner.store, owner.fetches)
    else match RelatedArtistsOf(owner.store, id)
      case Some(artists) => Step(Ok(artists), owner.store, owner.fetches)
      case None =>
        if id !in c.related then Step(Err(ExternalUnavailable), owner.store, owner.fetches + 1)
        else
          var all := GetAllArtists(owner.store, c, c.related[id]);
          if all.result.Err? then Step(all.result, all.store, owner.fetches + 1 + all.fetches)
          else Step(all.result, WithRelated(all.store, id, all.result.value), owner.fetches + 1 + all.fetches)
  }

  // ---------------------------------------------------------------- get_featured_playlists

  /** At most five featured playlists are kept. */
  const FeaturedLimit := 5

  function Capped(n: nat): nat
  {
    if n < FeaturedLimit then n else FeaturedLimit
  }

  /** `get_playlist` for each id in order; the first failure ends the loop and is
      the answer. */
  function GetAllPlaylists(s: Store, c: Catalog, ids: seq<string>): (r: Step<seq<Option<Playlist>>>)
    ensures r.result.Ok? ==> AllSome(r.result.value) && |r.result.value| == |ids|
    ensures r.store.featuredPlaylist == s.featuredPlaylist
    decreases |ids|
  {
    if ids == [] then Step(Ok([]), s, 0)
    else
      var prev := GetAllPlaylists(s, c, ids[..|ids| - 1]);
      if prev.result.Err? then prev
      else
        var step := GetPlaylistSpec(prev.store, c, ids[|ids| - 1]);
        Step(if step.result.Ok? then Ok(prev.result.value + [Some(step.result.value)])
             else Err(step.result.error),
             step.store, prev.fetches + step.fetches)
  }

  /** The first failure ends the loop: what follows it changes nothing. */
  lemma {:induction false} GetAllPlaylistsStops(s: Store, c: Catalog, ids: seq<string>, k: nat)
    requires k <= |ids|
    requires GetAllPlaylists(s, c, ids[..k]).result.Err?
    ensures GetAllPlaylists(s, c, ids) == GetAllPlaylists(s, c, ids[..k])
    decreases |ids|
  {
    if k < |ids| {
      var init := ids[..|ids| - 1];
      assert init[..k] == ids[..k];
      GetAllPlaylistsStops(s, c, init, k);
    } else {
      assert ids[..k] == ids;
    }
  }

  /** `get_featured_playlists`, with `timestamp` standing for the clock reading
      the save takes. */
  function GetFeaturedSpec(s: Store, c: Catalog, timestamp: int): Step<seq<Option<Playlist>>>
  {
    match FeaturedPlaylistsOf(s)
    case Some(playlists) => Step(Ok(playlists), s, 0)
    case None =>
      if c.featured.None? then Step(Err(ExternalUnavailable), s, 1)
      else
        var items := c.featured.value;
        var all := GetAllPlaylists(s, c, items[..Capped(|items|)]);
        if all.result.Err? then Step(all.result, all.store, 1 + all.fetches)
        else Step(all.result, WithFeatured(all.store, all.result.value, timestamp), 1 + all.fetches)
  }

  // ---------------------------------------------------------------- get_twitters_by_track

  function ConvertStatuses(statuses: seq<RawStatus>): (r: seq<Twitter>)
    ensures |r| == |statuses|
    ensures forall i | 0 <= i < |statuses| :: r[i] == ConvertStatus(statuses[i])
  {
    seq(|statuses|, i requires 0 <= i < |statuses| => ConvertStatus(statuses[i]))
  }

  /** `save_twitter` for each post in order. */
  function SaveAllTwitters(s: Store, posts: seq<Twitter>): (r: Store)
    ensures r == s.(twitter := r.twitter) && s.twitter <= r.twitter
    decreases |posts|
  {
    if posts == [] then s else WithTwitter(SaveAllTwitters(s, posts[..|posts| - 1]), posts[|posts| - 1])
  }

  /** `get_twitters_by_track`; the search asks for `limit` posts matching the
      track name. */
  function GetTwittersSpec(s: Store, c: Catalog, t: Track, limit: int): Step<seq<Option<Twitter>>>
  {
    match TwittersOfTrack(s, t.trackId)
    case Some(posts) => Step(Ok(posts), s, 0)
    case None =>
      if (t.trackName, limit) in c.search then
        var posts := ConvertStatuses(c.search[(t.trackName, limit)]);
        Step(Ok(Present(posts)), WithTrackTwitters(SaveAllTwitters(s, posts), t.trackId, Present(posts)), 1)
      else Step(Err(ExternalUnavailable), s, 1)
  }
}
