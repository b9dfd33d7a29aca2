/** The `get_*` orchestrators and the two converters that call back into them
    (spotify_cli.py), as methods over the data accessor and the remote
    services. Each is proved to do exactly what its function in module
    CacheAside says: the same answer, the same store afterwards, and the same
    number of remote requests. */
module Explorer {
  import opened Wrappers
  import opened Objects
  import opened Tables
  import opened Services
  import opened Conversion
  import opened CacheAside
  import opened DataAccess

  /** `get_artist`. */
  method GetArtist(db: DataAccessor, remote: Remote, id: string) returns (r: Result<Artist, FetchError>)
    requires Keyed(remote.catalog)
    modifies db, remote
    ensures var st := GetArtistSpec(old(db.Snapshot()), remote.catalog, id);
            r == st.result && db.Snapshot() == st.store && remote.fetches == old(remote.fetches) + st.fetches
  {
    var cached := db.FindArtist(id);
    if cached.Some? {
      return Ok(cached.value);
    }
    var raw := remote.FetchArtist(id);
    if raw.Err? {
      return Err(raw.error);
    }
    var artist := ConvertArtist(raw.value);
    var saved := db.SaveArtist(artist);
    r := Ok(artist);
  }

  /** `convert_spotify_track_object`: the shell, then `get_artist` for every
      listed artist, skipping the ones that fail. */
  method ConvertTrack(db: DataAccessor, remote: Remote, raw: RawTrack) returns (t: Track)
    requires Keyed(remote.catalog)
    modifies db, remote
    ensures var b := ConvertTrackSpec(old(db.Snapshot()), remote.catalog, raw);
            t == b.value && db.Snapshot() == b.store && remote.fetches == old(remote.fetches) + b.fetches
  {
    ghost var s0, f0 := db.Snapshot(), remote.fetches;
    var ids := raw.artistIds;
    t := TrackShell(raw);
    for i := 0 to |ids|
      invariant var b := ResolveArtists(s0, remote.catalog, ids[..i]);
                t == TrackShell(raw).(artists := b.value) && db.Snapshot() == b.store
                && remote.fetches == f0 + b.fetches
    {
      assert ids[..i + 1][..i] == ids[..i];
      var artist := GetArtist(db, remote, ids[i]);
      if artist.Ok? {
        t := t.(artists := t.artists + [Some(artist.value)]);
      }
    }
    assert ids[..|ids|] == ids;
  }

  /** `get_track`. */
  method GetTrack(db: DataAccessor, remote: Remote, id: string) returns (r: Result<Track, FetchError>)
    requires Keyed(remote.catalog)
    modifies db, remote
    ensures var st := GetTrackSpec(old(db.Snapshot()), remote.catalog, id);
            r == st.result && db.Snapshot() == st.store && remote.fetches == old(remote.fetches) + st.fetches
  {
    var cached := db.FindTrack(id);
    if cached.Some? {
      return Ok(cached.value);
    }
    var raw := remote.FetchTrack(id);
    if raw.Err? {
      return Err(raw.error);
    }
    var track := ConvertTrack(db, remote, raw.value);
    var saved := db.SaveTrack(track);
    r := Ok(track);
  }

  /** `convert_spotify_playlist_object`: the shell, then `get_track` for every
      listed track, skipping the ones that fail. */
  method ConvertPlaylist(db: DataAccessor, remote: Remote, raw: RawPlaylist) returns (p: Playlist)
    requires Keyed(remote.catalog)
    modifies db, remote
    ensures var b := ConvertPlaylistSpec(old(db.Snapshot()), remote.catalog, raw);
            p == b.value && db.Snapshot() == b.store && remote.fetches == old(remote.fetches) + b.fetches
  {
    ghost var s0, f0 := db.Snapshot(), remote.fetches;
    var ids := raw.trackIds;
    p := PlaylistShell(raw);
    for i := 0 to |ids|
      invariant var b := ResolveTracks(s0, remote.catalog, ids[..i]);
                p == PlaylistShell(raw).(tracks := b.value) && db.Snapshot() == b.store
                && remote.fetches == f0 + b.fetches
    {
      assert ids[..i + 1][..i] == ids[..i];
      var track := GetTrack(db, remote, ids[i]);
      if track.Ok? {
        p := p.(tracks := p.tracks + [Some(track.value)]);
      }
    }
    assert ids[..|ids|] == ids;
  }

  /** `get_playlist`. */
  method GetPlaylist(db: DataAccessor, remote: Remote, id: string) returns (r: Result<Playlist, FetchError>)
    requires Keyed(remote.catalog)
    modifies db, remote
    ensures var st := GetPlaylistSpec(old(db.Snapshot()), remote.catalog, id);
            r == st.result && db.Snapshot() == st.store && remote.fetches == old(remote.fetches) + st.fetches
  {
    var cached := db.FindPlaylist(id);
    if cached.Some? {
      return Ok(cached.value);
    }
    var raw := remote.FetchPlaylist(id);
    if raw.Err? {
      return Err(raw.error);
    }
    var playlist := ConvertPlaylist(db, remote, raw.value);
    var saved := db.SavePlaylist(playlist);
    r := Ok(playlist);
  }

  /** The artist loop of `get_related_artists`: `get_artist` for each id in
      order; the first failure ends the loop and is the answer. */
  method GetEachArtist(db: DataAccessor, remote: Remote, ids: seq<string>) returns (r: Result<seq<Option<Artist>>, FetchError>)
    requires Keyed(remote.catalog)
    modifies db, remote
    ensures var st := GetAllArtists(old(db.Snapshot()), remote.catalog, ids);
            r == st.result && db.Snapshot() == st.store && remote.fetches == old(remote.fetches) + st.fetches
  {
    ghost var s0, f0 := db.Snapshot(), remote.fetches;
    var artists: seq<Option<Artist>> := [];
    for i := 0 to |ids|
      invariant var st := GetAllArtists(s0, remote.catalog, ids[..i]);
                st.result == Ok(artists) && db.Snapshot() == st.store && remote.fetches == f0 + st.fetches
    {
      assert ids[..i + 1][..i] == ids[..i];
      var artist := GetArtist(db, remote, ids[i]);
      if artist.Err? {
        GetAllArtistsStops(s0, remote.catalog, ids, i + 1);
        return Err(artist.error);
      }
      artists := artists + [Some(artist.value)];
    }
    assert ids[..|ids|] == ids;
    r := Ok(artists);
  }

  /** `get_related_artists`: the artist itself first, then the stored relation,
      else the remote list with `get_artist` for each entry; any failure ends the
      call before the relation is saved. */
  method GetRelatedArtists(db: DataAccessor, remote: Remote, id: string) returns (r: Result<seq<Option<Artist>>, FetchError>)
    requires Keyed(remote.catalog)
    modifies db, remote
    ensures var st := GetRelatedSpec(old(db.Snapshot()), remote.catalog, id);
            r == st.result && db.Snapshot() == st.store && remote.fetches == old(remote.fetches) + st.fetches
  {
    var owner := GetArtist(db, remote, id);
    if owner.Err? {
      return Err(owner.error);
    }
    var cached := db.FindRelatedArtists(id);
    if cached.Some? {
      return Ok(cached.value);
    }
    var related := remote.FetchRelatedArtists(id);
    if related.Err? {
      return Err(related.error);
    }
    r := GetEachArtist(db, remote, related.value);
    if r.Ok? {
      var saved := db.SaveRelatedArtists(id, r.value);
    }
  }

  /** The playlist loop of `get_featured_playlists`: `get_playlist` for each id
      in order; the first failure ends the loop and is the answer. */
  method GetEachPlaylist(db: DataAccessor, remote: Remote, ids: seq<string>) returns (r: Result<seq<Option<Playlist>>, FetchError>)
    requires Keyed(remote.catalog)
    modifies db, remote
    ensures var st := GetAllPlaylists(old(db.Snapshot()), remote.catalog, ids);
            r == st.result && db.Snapshot() == st.store && remote.fetches == old(remote.fetches) + st.fetches
  {
    ghost var s0, f0 := db.Snapshot(), remote.fetches;
    var playlists: seq<Option<Playlist>> := [];
    for i := 0 to |ids|
      invariant var st := GetAllPlaylists(s0, remote.catalog, ids[..i]);
                st.result == Ok(playlists) && db.Snapshot() == st.store && remote.fetches == f0 + st.fetches
    {
      assert ids[..i + 1][..i] == ids[..i];
      var playlist := GetPlaylist(db, remote, ids[i]);
      if playlist.Err? {
        GetAllPlaylistsStops(s0, remote.catalog, ids, i + 1);
        return Err(playlist.error);
      }
      playlists := playlists + [Some(playlist.value)];
    }
    assert ids[..|ids|] == ids;
    r := Ok(playlists);
  }

  /** `get_featured_playlists`: the stored snapshots, else `get_playlist` for
      the first `min(5, n)` remote items, saved under `timestamp`. */
  method GetFeaturedPlaylists(db: DataAccessor, remote: Remote, timestamp: int) returns (r: Result<seq<Option<Playlist>>, FetchError>)
    requires Keyed(remote.catalog)
    modifies db, remote
    ensures var st := GetFeaturedSpec(old(db.Snapshot()), remote.catalog, timestamp);
            r == st.result && db.Snapshot() == st.store && remote.fetches == old(remote.fetches) + st.fetches
  {
    var cached := db.FindFeaturedPlaylists();
    if cached.Some? {
      return Ok(cached.value);
    }
    var items := remote.FetchFeaturedPlaylists();
    if items.Err? {
      return Err(items.error);
    }
    r := GetEachPlaylist(db, remote, items.value[..Capped(|items.value|)]);
    if r.Ok? {
      var saved := db.SaveFeaturedPlaylists(r.value, timestamp);
    }
  }

  /** `get_twitters_by_track`: the stored posts of the track, else one search,
      every post converted and saved, then the track's post list saved. */
  method GetTwittersByTrack(db: DataAccessor, remote: Remote, t: Track, limit: int)
    returns (r: Result<seq<Option<Twitter>>, FetchError>)
    modifies db, remote
    ensures var st := GetTwittersSpec(old(db.Snapshot()), remote.catalog, t, limit);
            r == st.result && db.Snapshot() == st.store && remote.fetches == old(remote.fetches) + st.fetches
  {
    var cached := db.FindTwittersByTrack(t);
    if cached.Some? {
      return Ok(cached.value);
    }
    var response := remote.SearchStatuses(t.trackName, limit);
    if response.Err? {
      return Err(response.error);
    }
    var statuses := response.value;
    ghost var s1 := db.Snapshot();
    var twitters: seq<Twitter> := [];
    for i := 0 to |statuses|
      invariant twitters == ConvertStatuses(statuses[..i])
      invariant db.Snapshot() == SaveAllTwitters(s1, twitters)
      invariant remote.fetches == old(remote.fetches) + 1
    {
      var post := ConvertStatus(statuses[i]);
      ghost var done := twitters;
      twitters := twitters + [post];
      assert twitters == ConvertStatuses(statuses[..i + 1]);
      assert twitters[..|twitters| - 1] == done;
      var saved := db.SaveTwitter(post);
    }
    assert statuses[..|statuses|] == statuses;
    var links := db.SaveTwitterByTrack(t, Present(twitters));
    r := Ok(Present(twitters));
  }
}
