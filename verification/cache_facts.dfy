/** What the cache-aside reads promise (spotify_cli.py): a hit makes no
    request and changes nothing; a miss saves what it fetched so that the same
    call is a hit afterwards and returns the same entity; the converters keep
    every child that could be obtained, in order, and drop the others; the
    store stays referentially intact and only grows. */
module CacheFacts {
  import opened Wrappers
  import opened Objects
  import opened Tables
  import opened StoreFacts
  import opened Services
  import opened Conversion
  import opened CacheAside

  // ---------------------------------------------------------------- store growth

  /** Adding artists keeps integrity: a stored artist stays stored. */
  lemma IntegrityAddArtists(s: Store, s': Store)
    requires Integrity(s)
    requires s' == s.(artist := s'.artist) && s.artist <= s'.artist
    ensures Integrity(s') && Grows(s, s')
  {
    forall l | l in s'.trackArtist
      ensures ArtistById(s', l.member).Some?
    {
      ArtistStable(s, s', l.member);
    }
    assert s'.trackArtist[|s.trackArtist|..] == [];
    assert s'.playlistTrack[|s.playlistTrack|..] == [];
  }

  /** `save_track` of a new track whose artists are all stored keeps integrity,
      and its `track_artist` rows belong to a track the store did not hold. */
  lemma IntegrityAddTrack(s: Store, t: Track)
    requires Integrity(s)
    requires !HasTrack(s, t.trackId)
    requires AllSome(t.artists)
    requires forall i | 0 <= i < |t.artists| :: ArtistById(s, t.artists[i].value.artistId).Some?
    ensures Integrity(WithTrack(s, t)) && Grows(s, WithTrack(s, t))
  {
    GrowsAddTrack(s, t);
    var s' := WithTrack(s, t);
    var links := LinksFrom(t.trackId, ArtistIdsOf(t.artists));
    forall x | HasTrack(s, x)
      ensures HasTrack(s', x)
    {
      FirstPrefix(s.track, s'.track, TrackKey, x);
    }
    forall l | l in links
      ensures HasTrack(s', l.owner) && ArtistById(s', l.member).Some?
    {
      var i :| 0 <= i < |links| && links[i] == l;
    }
  }

  lemma GrowsAddTrack(s: Store, t: Track)
    requires !HasTrack(s, t.trackId)
    requires AllSome(t.artists)
    ensures Grows(s, WithTrack(s, t)) && HasTrack(WithTrack(s, t), t.trackId)
  {
    var s' := WithTrack(s, t);
    FirstAppend(s.track, [RowOfTrack(t)], TrackKey, t.trackId);
    assert s'.trackArtist[|s.trackArtist|..] == LinksFrom(t.trackId, ArtistIdsOf(t.artists));
    assert s'.playlistTrack[|s.playlistTrack|..] == [];
  }

  /** `save_playlist` of a new playlist whose tracks are all stored keeps
      integrity, and its `playlist_track` rows belong to a new playlist. */
  lemma IntegrityAddPlaylist(s: Store, p: Playlist)
    requires Integrity(s)
    requires !HasPlaylist(s, p.playlistId)
    requires AllSome(p.tracks)
    requires forall i | 0 <= i < |p.tracks| :: HasTrack(s, p.tracks[i].value.trackId)
    ensures Integrity(WithPlaylist(s, p)) && Grows(s, WithPlaylist(s, p))
  {
    GrowsAddPlaylist(s, p);
    var s' := WithPlaylist(s, p);
    var links := LinksFrom(p.playlistId, TrackIdsOf(p.tracks));
    forall x | HasPlaylist(s, x)
      ensures HasPlaylist(s', x)
    {
      FirstPrefix(s.playlist, s'.playlist, PlaylistKey, x);
    }
    forall l | l in links
      ensures HasPlaylist(s', l.owner) && HasTrack(s', l.member)
    {
      var i :| 0 <= i < |links| && links[i] == l;
    }
  }

  lemma GrowsAddPlaylist(s: Store, p: Playlist)
    requires !HasPlaylist(s, p.playlistId)
    requires AllSome(p.tracks)
    ensures Grows(s, WithPlaylist(s, p)) && HasPlaylist(WithPlaylist(s, p), p.playlistId)
  {
    var s' := WithPlaylist(s, p);
    FirstAppend(s.playlist, [RowOfPlaylist(p)], PlaylistKey, p.playlistId);
    assert s'.trackArtist[|s.trackArtist|..] == [];
    assert s'.playlistTrack[|s.playlistTrack|..] == LinksFrom(p.playlistId, TrackIdsOf(p.tracks));
  }

  /** Rows appended only to tables that no integrity rule reads (posts and the
      related, featured and post relations) keep the store intact and growing. */
  lemma IntegrityAddRows(s: Store, s': Store)
    requires Integrity(s)
    requires s'.artist == s.artist && s'.track == s.track && s'.playlist == s.playlist
    requires s'.trackArtist == s.trackArtist && s'.playlistTrack == s.playlistTrack
    requires s.twitter <= s'.twitter && s.relatedArtist <= s'.relatedArtist
    requires s.featuredPlaylist <= s'.featuredPlaylist && s.trackTwitter <= s'.trackTwitter
    ensures Integrity(s') && Grows(s, s')
  {
    assert s'.trackArtist[|s.trackArtist|..] == [];
    assert s'.playlistTrack[|s.playlistTrack|..] == [];
  }

  // ---------------------------------------------------------------- get_artist

  /** `get_artist`: a hit answers from the store with no request; a miss makes
      one request, and on success saves the converted artist so that it is
      found under the requested id; a failure changes nothing. */
  lemma ArtistCaches(s: Store, c: Catalog, id: string)
    requires Keyed(c)
    ensures var st := GetArtistSpec(s, c, id);
            && (st.result.Ok? <==> ArtistById(s, id).Some? || id in c.artists)
            && (st.result.Ok? ==> st.result.value.artistId == id && ArtistById(st.store, id) == Some(st.result.value))
            && (ArtistById(s, id).Some? ==> st.store == s && st.fetches == 0)
            && (ArtistById(s, id).None? ==> st.fetches == 1)
            && (st.result.Err? ==> st.store == s)
            && st.store == s.(artist := st.store.artist) && s.artist <= st.store.artist
  {
    if ArtistById(s, id).None? && id in c.artists {
      ArtistRoundTrip(s, ConvertArtist(c.artists[id]));
    }
  }

  /** Calling `get_artist` twice: the second call is a hit that returns the
      same artist, changes nothing and makes no request. */
  lemma ArtistIdempotent(s: Store, c: Catalog, id: string)
    requires Keyed(c)
    ensures var first := GetArtistSpec(s, c, id);
            first.result.Ok? ==> GetArtistSpec(first.store, c, id) == Step(first.result, first.store, 0)
  {
    ArtistCaches(s, c, id);
  }

  // ---------------------------------------------------------------- the artist loop of a track

  /** What `get_artist` would answer for `id` against the store `s` as it was
      before the loop: the stored artist, else the converted catalogue record. */
  function Obtainable(s: Store, c: Catalog, id: string): (r: Option<Artist>)
    ensures r.Some? <==> ArtistById(s, id).Some? || id in c.artists
  {
    if ArtistById(s, id).Some? then ArtistById(s, id)
    else if id in c.artists then Some(ConvertArtist(c.artists[id]))
    else None
  }

  /** The artists of the listed ids that can be obtained, in list order; the
      others are left out. */
  function Survivors(s: Store, c: Catalog, ids: seq<string>): (r: seq<Option<Artist>>)
    ensures |r| <= |ids|
    decreases |ids|
  {
    if ids == [] then []
    else
      var last := Obtainable(s, c, ids[|ids| - 1]);
      Survivors(s, c, ids[..|ids| - 1]) + (if last.Some? then [last] else [])
  }

  /** Every artist stored in `s'` is the one `Obtainable` names for its id. */
  ghost predicate Agrees(s: Store, s': Store, c: Catalog)
  {
    && s.artist <= s'.artist
    && forall x | ArtistById(s', x).Some? :: ArtistById(s', x) == Obtainable(s, c, x)
  }

  /** One `get_artist` keeps the agreement and answers what `Obtainable` names. */
  lemma GetArtistAgrees(s: Store, s': Store, c: Catalog, id: string)
    requires Keyed(c) && Agrees(s, s', c)
    ensures var st := GetArtistSpec(s', c, id);
            && Agrees(s, st.store, c)
            && (st.result.Ok? <==> Obtainable(s, c, id).Some?)
            && (st.result.Ok? ==> Some(st.result.value) == Obtainable(s, c, id))
  {
    if ArtistById(s, id).Some? {
      ArtistStable(s, s', id);
    }
    if ArtistById(s', id).None? && id in c.artists {
      var a := ConvertArtist(c.artists[id]);
      ArtistRoundTrip(s', a);
    }
  }

  /** The artist loop of `convert_spotify_track_object` keeps exactly the
      artists that can be obtained, in the listed order, whatever failed. */
  lemma {:induction false} ResolveArtistsSurvivors(s: Store, c: Catalog, ids: seq<string>)
    requires Keyed(c)
    ensures ResolveArtists(s, c, ids).value == Survivors(s, c, ids)
    ensures Agrees(s, ResolveArtists(s, c, ids).store, c)
    decreases |ids|
  {
    if ids != [] {
      var init := ids[..|ids| - 1];
      ResolveArtistsSurvivors(s, c, init);
      GetArtistAgrees(s, ResolveArtists(s, c, init).store, c, ids[|ids| - 1]);
    }
  }

  /** When every listed artist can be obtained none is dropped. */
  lemma {:induction false} SurvivorsAll(s: Store, c: Catalog, ids: seq<string>)
    requires forall i | 0 <= i < |ids| :: Obtainable(s, c, ids[i]).Some?
    ensures |Survivors(s, c, ids)| == |ids|
    ensures forall i | 0 <= i < |ids| :: Survivors(s, c, ids)[i] == Obtainable(s, c, ids[i])
    decreases |ids|
  {
    if ids != [] {
      SurvivorsAll(s, c, ids[..|ids| - 1]);
    }
  }

  /** An artist that cannot be obtained is skipped, not an error: a track
      listing `a`, `x`, `b` where only `x` fails keeps `a` and `b`, in order. */
  lemma SurvivorsSkipFailure(s: Store, c: Catalog, a: string, x: string, b: string)
    requires Obtainable(s, c, a).Some? && Obtainable(s, c, b).Some? && Obtainable(s, c, x).None?
    ensures Survivors(s, c, [a, x, b]) == [Obtainable(s, c, a), Obtainable(s, c, b)]
  {
    assert [a][..0] == [];
    assert Survivors(s, c, [a]) == [Obtainable(s, c, a)];
    assert [a, x][..1] == [a];
    assert Survivors(s, c, [a, x]) == [Obtainable(s, c, a)];
    assert [a, x, b][..2] == [a, x];
    assert Survivors(s, c, [a, x, b]) == Survivors(s, c, [a, x]) + [Obtainable(s, c, b)];
  }

  /** Every artist of the list is the one stored under its id. */
  ghost predicate StoredUnderIds(s: Store, artists: seq<Option<Artist>>)
  {
    forall i | 0 <= i < |artists| :: artists[i].Some? && ArtistById(s, artists[i].value.artistId) == artists[i]
  }

  /** One `get_artist` keeps every stored artist of a list stored, and adds
      the one it answers, which carries the requested id. */
  lemma ArtistStepKeeps(s: Store, c: Catalog, id: string, done: seq<Option<Artist>>)
    requires Keyed(c) && StoredUnderIds(s, done)
    ensures var st := GetArtistSpec(s, c, id);
            && (st.result.Ok? ==> st.result.value.artistId == id)
            && StoredUnderIds(st.store, if st.result.Ok? then done + [Some(st.result.value)] else done)
  {
    ArtistCaches(s, c, id);
    var st := GetArtistSpec(s, c, id);
    forall i | 0 <= i < |done|
      ensures ArtistById(st.store, done[i].value.artistId) == done[i]
    {
      ArtistStable(s, st.store, done[i].value.artistId);
    }
  }

  lemma ArtistIdsAppend(done: seq<Option<Artist>>, a: Artist)
    requires AllSome(done)
    ensures ArtistIdsOf(done + [Some(a)]) == ArtistIdsOf(done) + [a.artistId]
  {
  }

  /** Every artist the loop keeps is stored afterwards under its id. */
  lemma {:induction false} ResolveArtistsStored(s: Store, c: Catalog, ids: seq<string>)
    requires Keyed(c)
    ensures StoredUnderIds(ResolveArtists(s, c, ids).store, ResolveArtists(s, c, ids).value)
    decreases |ids|
  {
    if ids != [] {
      var init := ids[..|ids| - 1];
      var prev := ResolveArtists(s, c, init);
      ResolveArtistsStored(s, c, init);
      ArtistStepKeeps(prev.store, c, ids[|ids| - 1], prev.value);
    }
  }

  /** A track whose artists are all stored is converted without any request. */
  lemma {:induction false} ResolveArtistsAllCached(s: Store, c: Catalog, ids: seq<string>)
    requires forall i | 0 <= i < |ids| :: ArtistById(s, ids[i]).Some?
    ensures var b := ResolveArtists(s, c, ids);
            b.store == s && b.fetches == 0 && b.value == ArtistsByIds(s, ids)
    decreases |ids|
  {
    if ids != [] {
      var init := ids[..|ids| - 1];
      var y := ids[|ids| - 1];
      var prev := ResolveArtists(s, c, init);
      assert ArtistsByIds(s, ids) == ArtistsByIds(s, init) + [ArtistById(s, y)];
      ResolveArtistsAllCached(s, c, init);
      assert GetArtistSpec(prev.store, c, y) == Step(Ok(ArtistById(s, y).value), s, 0);
      assert ResolveArtists(s, c, ids) == Built(prev.value + [ArtistById(s, y)], s, prev.fetches);
    }
  }

  // ---------------------------------------------------------------- get_track

  /** `get_track`: a hit answers from the store with no request; a miss makes
      at least the track request, and on success saves the converted track so
      that it is found under the requested id; a failed track
      request changes nothing. The store stays intact and only grows. */
  lemma TrackCaches(s: Store, c: Catalog, id: string)
    requires Keyed(c) && Integrity(s)
    ensures var st := GetTrackSpec(s, c, id);
            && (st.result.Ok? <==> HasTrack(s, id) || id in c.tracks)
            && (st.result.Ok? ==> st.result.value.trackId == id && TrackById(st.store, id) == Some(st.result.value))
            && (HasTrack(s, id) ==> st.store == s && st.fetches == 0)
            && (!HasTrack(s, id) ==> st.fetches >= 1)
            && (st.result.Err? ==> st.store == s && st.fetches == 1)
            && Integrity(st.store) && Grows(s, st.store)
  {
    if HasTrack(s, id) {
      TrackByIdShape(s, id);
      GrowsReflexive(s);
    } else if id in c.tracks {
      var raw := c.tracks[id];
      var res := ResolveArtists(s, c, raw.artistIds);
      ResolveArtistsStored(s, c, raw.artistIds);
      IntegrityAddArtists(s, res.store);
      var t := ConvertTrackSpec(s, c, raw).value;
      TrackRoundTrip(res.store, t);
      IntegrityAddTrack(res.store, t);
      GrowsTransitive(s, res.store, WithTrack(res.store, t));
    } else {
      GrowsReflexive(s);
    }
  }

  /** Calling `get_track` twice: the second call is a hit that returns the same
      track, artists included, changes nothing and makes no request. */
  lemma TrackIdempotent(s: Store, c: Catalog, id: string)
    requires Keyed(c) && Integrity(s)
    ensures var first := GetTrackSpec(s, c, id);
            first.result.Ok? ==> GetTrackSpec(first.store, c, id) == Step(first.result, first.store, 0)
  {
    TrackCaches(s, c, id);
  }

  /** Which track ids `get_track` can answer, without any assumption on the
      store: the stored ones and the catalogue's; a call adds at most its own id. */
  lemma TrackAnswer(s: Store, c: Catalog, id: string)
    requires Keyed(c)
    ensures var st := GetTrackSpec(s, c, id);
            && (st.result.Ok? <==> HasTrack(s, id) || id in c.tracks)
            && (st.result.Ok? ==> st.result.value.trackId == id)
            && s.track <= st.store.track
            && (forall x | HasTrack(st.store, x) :: HasTrack(s, x) || (x == id && id in c.tracks))
  {
    if HasTrack(s, id) {
      TrackByIdShape(s, id);
    } else if id in c.tracks {
      var t := ConvertTrackSpec(s, c, c.tracks[id]).value;
      forall x | HasTrack(GetTrackSpec(s, c, id).store, x)
        ensures HasTrack(s, x) || x == id
      {
        FirstAppend(s.track, [RowOfTrack(t)], TrackKey, x);
      }
    }
  }

  // ---------------------------------------------------------------- the track loop of a playlist

  /** Every track of the list is the one stored under its id. */
  ghost predicate TracksStoredUnderIds(s: Store, tracks: seq<Option<Track>>)
  {
    forall i | 0 <= i < |tracks| :: tracks[i].Some? && TrackById(s, tracks[i].value.trackId) == tracks[i]
  }

  /** The track loop keeps the store intact, and every track it keeps is stored
      afterwards, artists included. */
  lemma {:induction false} ResolveTracksStored(s: Store, c: Catalog, ids: seq<string>)
    requires Keyed(c) && Integrity(s)
    ensures Integrity(ResolveTracks(s, c, ids).store) && Grows(s, ResolveTracks(s, c, ids).store)
    ensures TracksStoredUnderIds(ResolveTracks(s, c, ids).store, ResolveTracks(s, c, ids).value)
    decreases |ids|
  {
    if ids == [] {
      GrowsReflexive(s);
    } else {
      var init := ids[..|ids| - 1];
      var prev := ResolveTracks(s, c, init);
      ResolveTracksStored(s, c, init);
      TrackStepKeeps(prev.store, c, ids[|ids| - 1], prev.value);
      GrowsTransitive(s, prev.store, GetTrackSpec(prev.store, c, ids[|ids| - 1]).store);
    }
  }

  /** One `get_track` keeps every stored track of a list stored, and adds the
      one it answers. */
  lemma TrackStepKeeps(s: Store, c: Catalog, id: string, done: seq<Option<Track>>)
    requires Keyed(c) && Integrity(s) && TracksStoredUnderIds(s, done)
    ensures var st := GetTrackSpec(s, c, id);
            && Integrity(st.store) && Grows(s, st.store)
            && TracksStoredUnderIds(st.store, if st.result.Ok? then done + [Some(st.result.value)] else done)
  {
    TrackCaches(s, c, id);
    var st := GetTrackSpec(s, c, id);
    var after := if st.result.Ok? then done + [Some(st.result.value)] else done;
    forall i | 0 <= i < |after|
      ensures after[i].Some? && TrackById(st.store, after[i].value.trackId) == after[i]
    {
      if i < |done| {
        assert after[i] == done[i];
        TrackStable(s, st.store, done[i].value.trackId);
      }
    }
  }

  /** The ids of the tracks that can be obtained (stored, or in the catalogue),
      in list order. */
  function ObtainableTrackIds(s: Store, c: Catalog, ids: seq<string>): (r: seq<string>)
    ensures |r| <= |ids|
    ensures forall x | x in r :: x in ids && (HasTrack(s, x) || x in c.tracks)
    decreases |ids|
  {
    if ids == [] then []
    else
      var last := ids[|ids| - 1];
      ObtainableTrackIds(s, c, ids[..|ids| - 1]) + (if HasTrack(s, last) || last in c.tracks then [last] else [])
  }

  /** The track loop of `convert_spotify_playlist_object` keeps exactly the
      tracks that can be obtained, in the listed order; a failing track is
      skipped and the rest are kept. */
  lemma {:induction false} ResolveTracksIds(s: Store, c: Catalog, ids: seq<string>)
    requires Keyed(c)
    ensures TrackIdsOf(ResolveTracks(s, c, ids).value) == ObtainableTrackIds(s, c, ids)
    ensures s.track <= ResolveTracks(s, c, ids).store.track
    ensures forall x | HasTrack(ResolveTracks(s, c, ids).store, x) :: HasTrack(s, x) || x in c.tracks
    decreases |ids|
  {
    if ids != [] {
      var init := ids[..|ids| - 1];
      var y := ids[|ids| - 1];
      var prev := ResolveTracks(s, c, init);
      ResolveTracksIds(s, c, init);
      TrackIdStep(s, prev.store, c, y, prev.value);
      var step := GetTrackSpec(prev.store, c, y);
      assert ResolveTracks(s, c, ids).store == step.store;
      if step.result.Ok? {
        assert ResolveTracks(s, c, ids).value == prev.value + [Some(step.result.value)];
      } else {
        assert ResolveTracks(s, c, ids).value == prev.value;
      }
    }
  }

  /** One `get_track` of the loop, against a store that holds only tracks that
      were stored before the loop or come from the catalogue. */
  lemma TrackIdStep(s: Store, s': Store, c: Catalog, id: string, done: seq<Option<Track>>)
    requires Keyed(c) && AllSome(done)
    requires s.track <= s'.track
    requires forall x | HasTrack(s', x) :: HasTrack(s, x) || x in c.tracks
    ensures var st := GetTrackSpec(s', c, id);
            && (st.result.Ok? <==> HasTrack(s, id) || id in c.tracks)
            && (st.result.Ok? ==> TrackIdsOf(done + [Some(st.result.value)]) == TrackIdsOf(done) + [id])
            && s.track <= st.store.track
            && (forall x | HasTrack(st.store, x) :: HasTrack(s, x) || x in c.tracks)
  {
    TrackAnswer(s', c, id);
    if HasTrack(s, id) {
      FirstPrefix(s.track, s'.track, TrackKey, id);
    }
  }

  // ---------------------------------------------------------------- get_playlist

  /** `get_playlist`: a hit answers from the store with no request; a miss
      saves the converted playlist, which is then found under the requested id;
      a failed playlist request changes nothing. The store stays intact. */
  lemma PlaylistCaches(s: Store, c: Catalog, id: string)
    requires Keyed(c) && Integrity(s)
    ensures var st := GetPlaylistSpec(s, c, id);
            && (st.result.Ok? <==> HasPlaylist(s, id) || id in c.playlists)
            && (st.result.Ok? ==> st.result.value.playlistId == id && PlaylistById(st.store, id) == Some(st.result.value))
            && (HasPlaylist(s, id) ==> st.store == s && st.fetches == 0)
            && (!HasPlaylist(s, id) ==> st.fetches >= 1)
            && (st.result.Err? ==> st.store == s && st.fetches == 1)
            && Integrity(st.store) && Grows(s, st.store)
  {
    if HasPlaylist(s, id) {
      PlaylistByIdShape(s, id);
      GrowsReflexive(s);
    } else if id in c.playlists {
      var raw := c.playlists[id];
      var res := ResolveTracks(s, c, raw.trackIds);
      ResolveTracksStored(s, c, raw.trackIds);
      var p := ConvertPlaylistSpec(s, c, raw).value;
      forall i | 0 <= i < |p.tracks|
        ensures HasTrack(res.store, p.tracks[i].value.trackId)
      {
      }
      PlaylistRoundTrip(res.store, p);
      IntegrityAddPlaylist(res.store, p);
      GrowsTransitive(s, res.store, WithPlaylist(res.store, p));
    } else {
      GrowsReflexive(s);
    }
  }

  /** Calling `get_playlist` twice: the second call is a hit that returns the
      same playlist, tracks and their artists included, with no request. */
  lemma PlaylistIdempotent(s: Store, c: Catalog, id: string)
    requires Keyed(c) && Integrity(s)
    ensures var first := GetPlaylistSpec(s, c, id);
            first.result.Ok? ==> GetPlaylistSpec(first.store, c, id) == Step(first.result, first.store, 0)
  {
    PlaylistCaches(s, c, id);
  }

  /** A fetched playlist lists the obtainable tracks of the remote record, in
      the remote order. */
  lemma PlaylistTrackIds(s: Store, c: Catalog, id: string)
    requires Keyed(c) && !HasPlaylist(s, id) && id in c.playlists
    ensures var st := GetPlaylistSpec(s, c, id);
            st.result.Ok? && TrackIdsOf(st.result.value.tracks) == ObtainableTrackIds(s, c, c.playlists[id].trackIds)
  {
    ResolveTracksIds(s, c, c.playlists[id].trackIds);
  }

  // ---------------------------------------------------------------- get_related_artists

  /** No row of a join table belongs to an owner with no members. */
  lemma {:induction false} MembersNone(links: seq<Link>, owner: string)
    requires Members(links, owner) == []
    ensures forall l | l in links :: l.owner != owner
  {
    if links != [] {
      MembersNone(links[1..], owner);
    }
  }

  /** The artist loop of `get_related_artists`: when it succeeds it holds one
      artist per listed id, in order, each stored under its id. */
  lemma {:induction false} GetAllArtistsStored(s: Store, c: Catalog, ids: seq<string>)
    requires Keyed(c)
    ensures GetAllArtists(s, c, ids).result.Ok? ==>
              && StoredUnderIds(GetAllArtists(s, c, ids).store, GetAllArtists(s, c, ids).result.value)
              && ArtistIdsOf(GetAllArtists(s, c, ids).result.value) == ids
    decreases |ids|
  {
    if ids != [] {
      var init := ids[..|ids| - 1];
      var y := ids[|ids| - 1];
      var prev := GetAllArtists(s, c, init);
      if prev.result.Ok? {
        var step := GetArtistSpec(prev.store, c, y);
        assert GetAllArtists(s, c, ids).store == step.store;
        assert step.result.Ok? ==> GetAllArtists(s, c, ids).result == Ok(prev.result.value + [Some(step.result.value)]);
        GetAllArtistsStored(s, c, init);
        ArtistStepKeeps(prev.store, c, y, prev.result.value);
        if step.result.Ok? {
          ArtistIdsAppend(prev.result.value, step.result.value);
          assert init + [y] == ids;
        }
      }
    }
  }

  /** `get_related_artists` with no stored relation: on success the artist
      itself is stored, the answer holds one artist per remote entry in remote
      order, and a non-empty answer makes the next call a hit with the same
      answer and no request; an empty answer is never remembered, so the next
      call asks again. A failure saves no relation row. */
  lemma RelatedMiss(s: Store, c: Catalog, id: string)
    requires Keyed(c)
    requires RelatedArtistsOf(s, id).None?
    ensures GetRelatedSpec(s, c, id).store.relatedArtist == s.relatedArtist
            || GetRelatedSpec(s, c, id).result.Ok?
    ensures var st := GetRelatedSpec(s, c, id);
            st.result.Ok? ==>
              && id in c.related
              && AllSome(st.result.value) && ArtistIdsOf(st.result.value) == c.related[id]
              && ArtistById(st.store, id).Some?
              && (|st.result.value| > 0 ==> GetRelatedSpec(st.store, c, id) == Step(st.result, st.store, 0))
              && (|st.result.value| == 0 ==> GetRelatedSpec(st.store, c, id).fetches > 0)
  {
    ArtistCaches(s, c, id);
    var owner := GetArtistSpec(s, c, id);
    if owner.result.Ok? && id in c.related {
      var all := GetAllArtists(owner.store, c, c.related[id]);
      GetAllArtistsStored(owner.store, c, c.related[id]);
      if all.result.Ok? {
        var artists := all.result.value;
        var s2 := WithRelated(all.store, id, artists);
        ArtistStable(owner.store, all.store, id);
        MembersNone(s.relatedArtist, id);
        RelatedRoundTrip(all.store, id, artists);
        ArtistCaches(s2, c, id);
      }
    }
  }

  /** With the artist and its relation stored, `get_related_artists` answers
      from the store and makes no request. */
  lemma RelatedHit(s: Store, c: Catalog, id: string)
    requires ArtistById(s, id).Some? && RelatedArtistsOf(s, id).Some?
    ensures GetRelatedSpec(s, c, id) == Step(Ok(RelatedArtistsOf(s, id).value), s, 0)
  {
  }

  /** `get_related_artists` keeps the store intact, and the store only grows. */
  lemma RelatedKeepsIntegrity(s: Store, c: Catalog, id: string)
    requires Keyed(c) && Integrity(s)
    ensures Integrity(GetRelatedSpec(s, c, id).store) && Grows(s, GetRelatedSpec(s, c, id).store)
  {
    var owner := GetArtistSpec(s, c, id);
    ArtistCaches(s, c, id);
    IntegrityAddArtists(s, owner.store);
    if owner.result.Ok? && RelatedArtistsOf(owner.store, id).None? && id in c.related {
      var all := GetAllArtists(owner.store, c, c.related[id]);
      IntegrityAddArtists(owner.store, all.store);
      GrowsTransitive(s, owner.store, all.store);
      if all.result.Ok? {
        var s2 := WithRelated(all.store, id, all.result.value);
        assert GetRelatedSpec(s, c, id).store == s2;
        IntegrityAddRows(all.store, s2);
        GrowsTransitive(s, all.store, s2);
      }
    }
  }

  // ---------------------------------------------------------------- get_featured_playlists

  /** The number of items kept is `min(5, n)`. */
  lemma CappedIsMin(n: nat)
    ensures Capped(n) <= n && Capped(n) <= FeaturedLimit
    ensures Capped(n) == n || Capped(n) == FeaturedLimit
  {
  }

  /** Which playlist `get_playlist` answers: the one with the requested id. */
  lemma PlaylistAnswer(s: Store, c: Catalog, id: string)
    requires Keyed(c)
    ensures var st := GetPlaylistSpec(s, c, id);
            && (st.result.Ok? <==> HasPlaylist(s, id) || id in c.playlists)
            && (st.result.Ok? ==> st.result.value.playlistId == id)
  {
    if HasPlaylist(s, id) {
      PlaylistByIdShape(s, id);
    }
  }

  lemma PlaylistIdsAppend(done: seq<Option<Playlist>>, p: Playlist)
    requires AllSome(done)
    ensures PlaylistIdsOf(done + [Some(p)]) == PlaylistIdsOf(done) + [p.playlistId]
  {
  }

  /** The playlist loop of `get_featured_playlists`, when it succeeds, holds one
      playlist per listed id, in order. */
  lemma {:induction false} GetAllPlaylistsIds(s: Store, c: Catalog, ids: seq<string>)
    requires Keyed(c)
    ensures GetAllPlaylists(s, c, ids).result.Ok? ==> PlaylistIdsOf(GetAllPlaylists(s, c, ids).result.value) == ids
    decreases |ids|
  {
    if ids != [] {
      var init := ids[..|ids| - 1];
      var y := ids[|ids| - 1];
      var prev := GetAllPlaylists(s, c, init);
      if prev.result.Ok? {
        var step := GetPlaylistSpec(prev.store, c, y);
        if step.result.Ok? {
          assert GetAllPlaylists(s, c, ids).result == Ok(prev.result.value + [Some(step.result.value)]);
          assert init + [y] == ids;
          GetAllPlaylistsIds(s, c, init);
          PlaylistAnswer(prev.store, c, y);
          PlaylistIdsAppend(prev.result.value, step.result.value);
        }
      }
    }
  }

  /** `get_featured_playlists` with nothing stored: on success it answers the
      first `min(5, n)` remote items in order and records exactly those, all
      stamped with the call's timestamp; on failure it records none. */
  lemma FeaturedMiss(s: Store, c: Catalog, timestamp: int)
    requires Keyed(c) && FeaturedPlaylistsOf(s).None? && c.featured.Some?
    ensures var items := c.featured.value;
            var k := Capped(|items|);
            var st := GetFeaturedSpec(s, c, timestamp);
            && (st.result.Ok? ==>
                  && |st.result.value| == k && AllSome(st.result.value)
                  && PlaylistIdsOf(st.result.value) == items[..k]
                  && st.store.featuredPlaylist == FeaturedRows(items[..k], timestamp))
            && (st.result.Err? ==> st.store.featuredPlaylist == [])
  {
    var items := c.featured.value;
    GetAllPlaylistsIds(s, c, items[..Capped(|items|)]);
    FeaturedCounts(s);
  }

  /** Every playlist of the list is the one stored under its id. */
  ghost predicate PlaylistsStoredUnderIds(s: Store, playlists: seq<Option<Playlist>>)
  {
    forall i | 0 <= i < |playlists| :: playlists[i].Some? && PlaylistById(s, playlists[i].value.playlistId) == playlists[i]
  }

  /** One `get_playlist` keeps every stored playlist of a list stored, and adds
      the one it answers. */
  lemma PlaylistStepKeeps(s: Store, c: Catalog, id: string, done: seq<Option<Playlist>>)
    requires Keyed(c) && Integrity(s) && PlaylistsStoredUnderIds(s, done)
    ensures var st := GetPlaylistSpec(s, c, id);
            && Integrity(st.store) && Grows(s, st.store)
            && PlaylistsStoredUnderIds(st.store, if st.result.Ok? then done + [Some(st.result.value)] else done)
  {
    PlaylistCaches(s, c, id);
    var st := GetPlaylistSpec(s, c, id);
    var after := if st.result.Ok? then done + [Some(st.result.value)] else done;
    forall i | 0 <= i < |after|
      ensures after[i].Some? && PlaylistById(st.store, after[i].value.playlistId) == after[i]
    {
      if i < |done| {
        assert after[i] == done[i];
        PlaylistStable(s, st.store, done[i].value.playlistId);
      }
    }
  }

  /** The playlist loop keeps the store intact, and every playlist it answers is
      stored afterwards. */
  lemma {:induction false} GetAllPlaylistsStored(s: Store, c: Catalog, ids: seq<string>)
    requires Keyed(c) && Integrity(s)
    ensures Integrity(GetAllPlaylists(s, c, ids).store) && Grows(s, GetAllPlaylists(s, c, ids).store)
    ensures GetAllPlaylists(s, c, ids).result.Ok? ==>
              PlaylistsStoredUnderIds(GetAllPlaylists(s, c, ids).store, GetAllPlaylists(s, c, ids).result.value)
    decreases |ids|
  {
    if ids == [] {
      GrowsReflexive(s);
    } else {
      var init := ids[..|ids| - 1];
      var prev := GetAllPlaylists(s, c, init);
      GetAllPlaylistsStored(s, c, init);
      if prev.result.Ok? {
        PlaylistStepKeeps(prev.store, c, ids[|ids| - 1], prev.result.value);
        GrowsTransitive(s, prev.store, GetPlaylistSpec(prev.store, c, ids[|ids| - 1]).store);
      }
    }
  }

  /** Reading playlists does not look at the featured table. */
  lemma PlaylistsIgnoreFeatured(s: Store, rows: seq<FeaturedRow>, ids: seq<string>)
    ensures PlaylistsByIds(s.(featuredPlaylist := rows), ids) == PlaylistsByIds(s, ids)
  {
    var s' := s.(featuredPlaylist := rows);
    forall i | 0 <= i < |ids|
      ensures PlaylistById(s', ids[i]) == PlaylistById(s, ids[i])
    {
      TracksIgnorePlaylists(s, s', Members(s.playlistTrack, ids[i]));
    }
  }

  /** Calling `get_featured_playlists` twice: when the first call saved a
      non-empty snapshot, the second is a hit that returns the same playlists,
      whatever its own timestamp, and makes no request. */
  lemma FeaturedIdempotent(s: Store, c: Catalog, timestamp: int, later: int)
    requires Keyed(c) && Integrity(s) && FeaturedPlaylistsOf(s).None?
    ensures var first := GetFeaturedSpec(s, c, timestamp);
            first.result.Ok? && |first.result.value| > 0 ==>
              GetFeaturedSpec(first.store, c, later) == Step(first.result, first.store, 0)
  {
    var first := GetFeaturedSpec(s, c, timestamp);
    if first.result.Ok? && |first.result.value| > 0 {
      var items := c.featured.value;
      var all := GetAllPlaylists(s, c, items[..Capped(|items|)]);
      assert first == Step(all.result, WithFeatured(all.store, all.result.value, timestamp), 1 + all.fetches);
      FeaturedCounts(s);
      GetAllPlaylistsStored(s, c, items[..Capped(|items|)]);
      FeaturedSnapshotReads(all.store, all.result.value, timestamp);
    }
  }

  /** A snapshot saved into an empty featured table reads back as the saved
      playlists, when each is the one stored under its id. */
  lemma FeaturedSnapshotReads(s: Store, playlists: seq<Option<Playlist>>, timestamp: int)
    requires |s.featuredPlaylist| == 0 && |playlists| > 0 && AllSome(playlists)
    requires PlaylistsStoredUnderIds(s, playlists)
    ensures FeaturedPlaylistsOf(WithFeatured(s, playlists, timestamp)) == Some(playlists)
  {
    var rows := FeaturedRows(PlaylistIdsOf(playlists), timestamp);
    assert WithFeatured(s, playlists, timestamp) == s.(featuredPlaylist := rows);
    PlaylistsIgnoreFeatured(s, rows, PlaylistIdsOf(playlists));
    assert FeaturedIds(rows) == PlaylistIdsOf(playlists);
    assert PlaylistsByIds(s, PlaylistIdsOf(playlists)) == playlists;
  }

  /** `get_featured_playlists` keeps the store intact, and the store only grows. */
  lemma FeaturedKeepsIntegrity(s: Store, c: Catalog, timestamp: int)
    requires Keyed(c) && Integrity(s)
    ensures Integrity(GetFeaturedSpec(s, c, timestamp).store) && Grows(s, GetFeaturedSpec(s, c, timestamp).store)
  {
    if FeaturedPlaylistsOf(s).None? && c.featured.Some? {
      var items := c.featured.value;
      var all := GetAllPlaylists(s, c, items[..Capped(|items|)]);
      GetAllPlaylistsStored(s, c, items[..Capped(|items|)]);
      if all.result.Ok? {
        var s2 := WithFeatured(all.store, all.result.value, timestamp);
        assert GetFeaturedSpec(s, c, timestamp).store == s2;
        IntegrityAddRows(all.store, s2);
        GrowsTransitive(s, all.store, s2);
      }
    } else {
      GrowsReflexive(s);
    }
  }

  // ---------------------------------------------------------------- get_twitters_by_track

  /** After `save_twitter` of every post, each post's id is found. */
  lemma {:induction false} SaveAllTwittersFindable(s: Store, posts: seq<Twitter>)
    ensures forall i | 0 <= i < |posts| :: TwitterById(SaveAllTwitters(s, posts), posts[i].twitterId).Some?
    decreases |posts|
  {
    if posts != [] {
      var init := posts[..|posts| - 1];
      var last := posts[|posts| - 1];
      var prev := SaveAllTwitters(s, init);
      var next := WithTwitter(prev, last);
      assert SaveAllTwitters(s, posts) == next;
      SaveAllTwittersFindable(s, init);
      forall i | 0 <= i < |posts|
        ensures TwitterById(next, posts[i].twitterId).Some?
      {
        if i < |init| {
          assert posts[i] == init[i];
          TwitterSaveKeepsId(prev, last, init[i].twitterId);
        } else {
          assert posts[i] == last;
          TwitterSaveFindable(prev, last);
        }
      }
    }
  }

  /** Saving posts never changes the answer for an id already stored. */
  lemma {:induction false} SaveAllTwittersKeeps(s: Store, posts: seq<Twitter>)
    ensures forall x | TwitterById(s, x).Some? :: TwitterById(SaveAllTwitters(s, posts), x) == TwitterById(s, x)
    decreases |posts|
  {
    if posts != [] {
      var init := posts[..|posts| - 1];
      var prev := SaveAllTwitters(s, init);
      assert SaveAllTwitters(s, posts) == WithTwitter(prev, posts[|posts| - 1]);
      SaveAllTwittersKeeps(s, init);
      TwitterSaveFindable(prev, posts[|posts| - 1]);
    }
  }

  /** `get_twitters_by_track` with nothing stored for the track: one search;
      the answer is every status converted, in order; each post is then found
      and the track's link rows list the post ids in order. */
  lemma TwittersMiss(s: Store, c: Catalog, t: Track, limit: int)
    requires TwittersOfTrack(s, t.trackId).None?
    requires (t.trackName, limit) in c.search
    ensures var posts := ConvertStatuses(c.search[(t.trackName, limit)]);
            var st := GetTwittersSpec(s, c, t, limit);
            && st.result == Ok(Present(posts)) && st.fetches == 1
            && (forall i | 0 <= i < |posts| :: TwitterById(st.store, posts[i].twitterId).Some?)
            && Members(st.store.trackTwitter, t.trackId) == TwitterIdsOf(Present(posts))
  {
    var posts := ConvertStatuses(c.search[(t.trackName, limit)]);
    var saved := SaveAllTwitters(s, posts);
    var ids := TwitterIdsOf(Present(posts));
    assert GetTwittersSpec(s, c, t, limit) == Step(Ok(Present(posts)), WithTrackTwitters(saved, t.trackId, Present(posts)), 1);
    assert saved.trackTwitter == s.trackTwitter;
    SaveAllTwittersFindable(s, posts);
    RelationCounts(s, t.trackId);
    MembersAppend(saved.trackTwitter, LinksFrom(t.trackId, ids), t.trackId);
    MembersOfLinks(t.trackId, ids);
  }

  /** A search with results makes the next call a hit with no request, one
      post per status; an empty result leaves the store as it was, so the next
      call searches again. */
  lemma TwittersAgain(s: Store, c: Catalog, t: Track, limit: int)
    requires TwittersOfTrack(s, t.trackId).None?
    requires (t.trackName, limit) in c.search
    ensures var statuses := c.search[(t.trackName, limit)];
            var st := GetTwittersSpec(s, c, t, limit);
            && (|statuses| > 0 ==>
                  var again := GetTwittersSpec(st.store, c, t, limit);
                  again.store == st.store && again.fetches == 0
                  && again.result.Ok? && |again.result.value| == |statuses|
                  && forall i | 0 <= i < |statuses| ::
                       again.result.value[i] == TwitterById(st.store, statuses[i].idStr))
            && (|statuses| == 0 ==> st.store == s && GetTwittersSpec(st.store, c, t, limit) == st)
  {
    var statuses := c.search[(t.trackName, limit)];
    var st := GetTwittersSpec(s, c, t, limit);
    TwittersMiss(s, c, t, limit);
    RelationCounts(st.store, t.trackId);
    if statuses != [] {
      var posts := ConvertStatuses(statuses);
      var ids := Members(st.store.trackTwitter, t.trackId);
      assert ids == TwitterIdsOf(Present(posts));
      assert TwittersOfTrack(st.store, t.trackId) == Some(TwittersByIds(st.store, ids));
      forall i | 0 <= i < |statuses|
        ensures ids[i] == statuses[i].idStr
      {
        assert Present(posts)[i] == Some(posts[i]);
      }
    } else {
      var posts := ConvertStatuses(statuses);
      assert posts == [];
      assert st.store == WithTrackTwitters(s, t.trackId, []);
      assert LinksFrom(t.trackId, TwitterIdsOf(Present(posts))) == [];
      assert s.trackTwitter + [] == s.trackTwitter;
    }
  }

  /** With posts stored for the track, `get_twitters_by_track` answers them
      with no request, whatever the limit. */
  lemma TwittersHit(s: Store, c: Catalog, t: Track, limit: int)
    requires TwittersOfTrack(s, t.trackId).Some?
    ensures GetTwittersSpec(s, c, t, limit) == Step(Ok(TwittersOfTrack(s, t.trackId).value), s, 0)
  {
  }

  /** `get_twitters_by_track` keeps the store intact, and the store only grows. */
  lemma TwittersKeepIntegrity(s: Store, c: Catalog, t: Track, limit: int)
    requires Integrity(s)
    ensures Integrity(GetTwittersSpec(s, c, t, limit).store) && Grows(s, GetTwittersSpec(s, c, t, limit).store)
  {
    if TwittersOfTrack(s, t.trackId).None? && (t.trackName, limit) in c.search {
      var posts := ConvertStatuses(c.search[(t.trackName, limit)]);
      var s2 := WithTrackTwitters(SaveAllTwitters(s, posts), t.trackId, Present(posts));
      assert GetTwittersSpec(s, c, t, limit).store == s2;
      IntegrityAddRows(s, s2);
    } else {
      GrowsReflexive(s);
    }
  }

  /** Saving posts leaves an id that none of them carries, and that was not
      stored, still unstored. */
  lemma {:induction false} SaveAllTwittersFresh(s: Store, posts: seq<Twitter>, x: string)
    requires TwitterById(s, x).None?
    requires forall i | 0 <= i < |posts| :: posts[i].twitterId != x
    ensures TwitterById(SaveAllTwitters(s, posts), x).None?
    decreases |posts|
  {
    if posts != [] {
      var init := posts[..|posts| - 1];
      var prev := SaveAllTwitters(s, init);
      assert forall i | 0 <= i < |init| :: init[i] == posts[i];
      SaveAllTwittersFresh(s, init, x);
      FirstAppend(prev.twitter, [posts[|posts| - 1]], TwitterKey, x);
    }
  }

  /** Saving posts whose ids are pairwise distinct and not yet stored stores
      each of them under its id. */
  lemma {:induction false} SaveAllTwittersExact(s: Store, posts: seq<Twitter>)
    requires forall i, j | 0 <= i < j < |posts| :: posts[i].twitterId != posts[j].twitterId
    requires forall i | 0 <= i < |posts| :: TwitterById(s, posts[i].twitterId).None?
    ensures forall i | 0 <= i < |posts| :: TwitterById(SaveAllTwitters(s, posts), posts[i].twitterId) == Some(posts[i])
    decreases |posts|
  {
    if posts != [] {
      var init := posts[..|posts| - 1];
      var last := posts[|posts| - 1];
      var prev := SaveAllTwitters(s, init);
      assert posts == init + [last];
      assert SaveAllTwitters(s, posts) == WithTwitter(prev, last);
      assert forall i, j | 0 <= i < j < |init| :: init[i].twitterId != init[j].twitterId;
      assert forall i | 0 <= i < |init| :: TwitterById(s, init[i].twitterId).None?;
      SaveAllTwittersExact(s, init);
      assert forall i | 0 <= i < |init| :: init[i].twitterId != last.twitterId by {
        forall i | 0 <= i < |init|
          ensures init[i].twitterId != last.twitterId
        {
          assert posts[i].twitterId != posts[|posts| - 1].twitterId;
        }
      }
      SaveAllTwittersFresh(s, init, last.twitterId);
      SaveOneMoreTwitter(prev, init, last);
    }
  }

  /** One more save after posts that are all stored under their ids, with an
      id not yet stored: all of them, and the new one, are then found. */
  lemma SaveOneMoreTwitter(prev: Store, init: seq<Twitter>, last: Twitter)
    requires forall i | 0 <= i < |init| :: TwitterById(prev, init[i].twitterId) == Some(init[i])
    requires TwitterById(prev, last.twitterId).None?
    ensures var posts := init + [last];
            forall i | 0 <= i < |posts| :: TwitterById(WithTwitter(prev, last), posts[i].twitterId) == Some(posts[i])
  {
    var posts := init + [last];
    TwitterSaveFindable(prev, last);
    forall i | 0 <= i < |posts|
      ensures TwitterById(WithTwitter(prev, last), posts[i].twitterId) == Some(posts[i])
    {
      if i < |init| {
        assert posts[i] == init[i];
        TwitterSaveKeepsId(prev, last, init[i].twitterId);
      }
    }
  }

  /** When the search answers posts with pairwise distinct ids that are not yet
      stored, the second call is a hit with exactly the first answer and no request. */
  lemma TwittersRepeat(s: Store, c: Catalog, t: Track, limit: int)
    requires TwittersOfTrack(s, t.trackId).None?
    requires (t.trackName, limit) in c.search
    requires var statuses := c.search[(t.trackName, limit)];
             && |statuses| > 0
             && (forall i, j | 0 <= i < j < |statuses| :: statuses[i].idStr != statuses[j].idStr)
             && (forall i | 0 <= i < |statuses| :: TwitterById(s, statuses[i].idStr).None?)
    ensures var st := GetTwittersSpec(s, c, t, limit);
            GetTwittersSpec(st.store, c, t, limit) == Step(st.result, st.store, 0)
  {
    var statuses := c.search[(t.trackName, limit)];
    var posts := ConvertStatuses(statuses);
    var st := GetTwittersSpec(s, c, t, limit);
    TwittersAgain(s, c, t, limit);
    assert forall i | 0 <= i < |posts| :: posts[i].twitterId == statuses[i].idStr;
    SaveAllTwittersExact(s, posts);
    var saved := SaveAllTwitters(s, posts);
    assert st.store.twitter == saved.twitter;
    var again := GetTwittersSpec(st.store, c, t, limit);
    forall i | 0 <= i < |statuses|
      ensures again.result.value[i] == Present(posts)[i]
    {
      assert TwitterById(st.store, posts[i].twitterId) == TwitterById(saved, posts[i].twitterId);
    }
    assert again.result.value == Present(posts);
  }

  /** Two statuses with the same id: the second insert is swallowed, so the next
      call answers the first post twice instead of the two posts the search gave. */
  lemma TwittersDuplicateId(s: Store, c: Catalog, t: Track, limit: int)
    requires TwittersOfTrack(s, t.trackId).None?
    requires (t.trackName, limit) in c.search
    requires var statuses := c.search[(t.trackName, limit)];
             && |statuses| == 2 && statuses[0].idStr == statuses[1].idStr && statuses[0] != statuses[1]
             && TwitterById(s, statuses[0].idStr).None?
    ensures var statuses := c.search[(t.trackName, limit)];
            var st := GetTwittersSpec(s, c, t, limit);
            && st.result == Ok([Some(ConvertStatus(statuses[0])), Some(ConvertStatus(statuses[1]))])
            && GetTwittersSpec(st.store, c, t, limit).result
               == Ok([Some(ConvertStatus(statuses[0])), Some(ConvertStatus(statuses[0]))])
            && GetTwittersSpec(st.store, c, t, limit).result != st.result
  {
    var statuses := c.search[(t.trackName, limit)];
    var posts := ConvertStatuses(statuses);
    var st := GetTwittersSpec(s, c, t, limit);
    TwittersAgain(s, c, t, limit);
    assert posts[..1] == [posts[0]];
    assert [posts[0]][..0] == [];
    assert SaveAllTwitters(s, []) == s;
    var s1 := SaveAllTwitters(s, [posts[0]]);
    assert s1 == WithTwitter(SaveAllTwitters(s, []), posts[0]);
    TwitterSaveFindable(s, posts[0]);
    TwitterSaveFindable(s1, posts[1]);
    ConvertStatusInjective(statuses[0], statuses[1]);
    assert TwitterById(s1, posts[1].twitterId) == Some(posts[0]);
    assert SaveAllTwitters(s, posts) == s1;
    assert st.store.twitter == s1.twitter;
    assert Present(posts) == [Some(posts[0]), Some(posts[1])];
    assert st.result == Ok(Present(posts));
    var again := GetTwittersSpec(st.store, c, t, limit);
    assert again.result.value[0] == Some(posts[0]) by {
      assert TwitterById(st.store, statuses[0].idStr) == TwitterById(s1, posts[0].twitterId);
    }
    assert again.result.value[1] == Some(posts[0]) by {
      assert TwitterById(st.store, statuses[1].idStr) == TwitterById(s1, posts[1].twitterId);
    }
    assert again.result.value == [Some(posts[0]), Some(posts[0])];
  }
}
