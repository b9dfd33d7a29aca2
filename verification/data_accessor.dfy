/** The repository over the nine tables (data_accessor.py): every `save_*`
    appends rows one statement at a time, every `find_*` reads them back and
    rebuilds the entity, resolving join rows through the member's own `find_*`. */
module DataAccess {
  import opened Wrappers
  import opened Objects
  import opened Tables

  class DataAccessor {
    var artist: seq<Artist>
    var track: seq<TrackRow>
    var playlist: seq<PlaylistRow>
    var twitter: seq<Twitter>
    var trackArtist: seq<Link>
    var playlistTrack: seq<Link>
    var relatedArtist: seq<Link>
    var featuredPlaylist: seq<FeaturedRow>
    var trackTwitter: seq<Link>

    /** The current contents of the nine tables. */
    function Snapshot(): Store
      reads this
    {
      Store(artist, track, playlist, twitter, trackArtist, playlistTrack, relatedArtist, featuredPlaylist, trackTwitter)
    }

    /** Opens the database, whose tables hold `initial`. */
    constructor (initial: Store)
      ensures Snapshot() == initial
    {
      artist, track, playlist, twitter := initial.artist, initial.track, initial.playlist, initial.twitter;
      trackArtist, playlistTrack, relatedArtist := initial.trackArtist, initial.playlistTrack, initial.relatedArtist;
      featuredPlaylist, trackTwitter := initial.featuredPlaylist, initial.trackTwitter;
    }

    // ---------------------------------------------------------------- artist

    method SaveArtist(a: Artist) returns (r: Artist)
      requires ArtistById(Snapshot(), a.artistId).None?
      modifies this
      ensures r == a
      ensures Snapshot() == WithArtist(old(Snapshot()), a)
    {
      artist := artist + [a];
      r := a;
    }

    method FindArtist(artistId: string) returns (r: Option<Artist>)
      ensures r == ArtistById(Snapshot(), artistId)
      ensures r.None? <==> forall i | 0 <= i < |artist| :: artist[i].artistId != artistId
      ensures r.Some? ==> r.value in artist && r.value.artistId == artistId
    {
      r := First(artist, ArtistKey, artistId);
    }

    // ---------------------------------------------------------------- track

    method SaveTrack(t: Track) returns (r: Track)
      requires !HasTrack(Snapshot(), t.trackId)
      requires AllSome(t.artists)
      modifies this
      ensures r == t
      ensures Snapshot() == WithTrack(old(Snapshot()), t)
    {
      track := track + [RowOfTrack(t)];
      ghost var links := LinksFrom(t.trackId, ArtistIdsOf(t.artists));
      for i := 0 to |t.artists|
        invariant Snapshot() == old(Snapshot()).(track := old(track) + [RowOfTrack(t)],
                                                 trackArtist := old(trackArtist) + links[..i])
      {
        trackArtist := trackArtist + [Link(t.trackId, t.artists[i].value.artistId)];
        assert links[..i + 1] == links[..i] + [links[i]];
      }
      assert links[..|t.artists|] == links;
      r := t;
    }

    method FindTrack(trackId: string) returns (r: Option<Track>)
      ensures r == TrackById(Snapshot(), trackId)
    {
      var record := First(track, TrackKey, trackId);
      if record.None? {
        return None;
      }
      var row := record.value;
      var t := NewTrack(row.trackId, row.trackName, row.durationMs, row.popularity, row.externalUrl);
      var ids := Members(trackArtist, trackId);
      for i := 0 to |ids|
        invariant |t.artists| == i
        invariant t == NewTrack(row.trackId, row.trackName, row.durationMs, row.popularity, row.externalUrl)
                         .(artists := t.artists)
        invariant forall k | 0 <= k < i :: t.artists[k] == ArtistById(Snapshot(), ids[k])
      {
        var a := FindArtist(ids[i]);
        t := t.(artists := t.artists + [a]);
      }
      assert t.artists == ArtistsByIds(Snapshot(), ids);
      r := Some(t);
    }

    // ---------------------------------------------------------------- playlist

    method SavePlaylist(p: Playlist) returns (r: Playlist)
      requires !HasPlaylist(Snapshot(), p.playlistId)
      requires AllSome(p.tracks)
      modifies this
      ensures r == p
      ensures Snapshot() == WithPlaylist(old(Snapshot()), p)
    {
      playlist := playlist + [RowOfPlaylist(p)];
      ghost var links := LinksFrom(p.playlistId, TrackIdsOf(p.tracks));
      for i := 0 to |p.tracks|
        invariant Snapshot() == old(Snapshot()).(playlist := old(playlist) + [RowOfPlaylist(p)],
                                                 playlistTrack := old(playlistTrack) + links[..i])
      {
        playlistTrack := playlistTrack + [Link(p.playlistId, p.tracks[i].value.trackId)];
        assert links[..i + 1] == links[..i] + [links[i]];
      }
      assert links[..|p.tracks|] == links;
      r := p;
    }

    method FindPlaylist(playlistId: string) returns (r: Option<Playlist>)
      ensures r == PlaylistById(Snapshot(), playlistId)
    {
      var record := First(playlist, PlaylistKey, playlistId);
      if record.None? {
        return None;
      }
      var row := record.value;
      var p := NewPlaylist(row.playlistId, row.playlistName, row.ownerName, row.playlistDescription,
                           row.followers, row.externalUrl);
      var ids := Members(playlistTrack, playlistId);
      for i := 0 to |ids|
        invariant |p.tracks| == i
        invariant p == NewPlaylist(row.playlistId, row.playlistName, row.ownerName, row.playlistDescription,
                                   row.followers, row.externalUrl).(tracks := p.tracks)
        invariant forall k | 0 <= k < i :: p.tracks[k] == TrackById(Snapshot(), ids[k])
      {
        var t := FindTrack(ids[i]);
        p := p.(tracks := p.tracks + [t]);
      }
      assert p.tracks == TracksByIds(Snapshot(), ids);
      r := Some(p);
    }

    // ---------------------------------------------------------------- related artists

    method SaveRelatedArtists(toArtistId: string, artists: seq<Option<Artist>>) returns (r: seq<Option<Artist>>)
      requires AllSome(artists)
      modifies this
      ensures r == artists
      ensures Snapshot() == WithRelated(old(Snapshot()), toArtistId, artists)
    {
      ghost var links := LinksFrom(toArtistId, ArtistIdsOf(artists));
      for i := 0 to |artists|
        invariant Snapshot() == old(Snapshot()).(relatedArtist := old(relatedArtist) + links[..i])
      {
        relatedArtist := relatedArtist + [Link(toArtistId, artists[i].value.artistId)];
        assert links[..i + 1] == links[..i] + [links[i]];
      }
      assert links[..|artists|] == links;
      r := artists;
    }

    method FindRelatedArtists(toArtistId: string) returns (r: Option<seq<Option<Artist>>>)
      ensures r == RelatedArtistsOf(Snapshot(), toArtistId)
    {
      var ids := Members(relatedArtist, toArtistId);
      var artists: seq<Option<Artist>> := [];
      for i := 0 to |ids|
        invariant |artists| == i
        invariant forall k | 0 <= k < i :: artists[k] == ArtistById(Snapshot(), ids[k])
      {
        var a := FindArtist(ids[i]);
        artists := artists + [a];
      }
      if |artists| == 0 {
        return None;
      }
      assert artists == ArtistsByIds(Snapshot(), ids);
      r := Some(artists);
    }

    // ---------------------------------------------------------------- featured playlists

    /** Every row of one call carries the same capture tag `timestamp`. */
    method SaveFeaturedPlaylists(playlists: seq<Option<Playlist>>, timestamp: int) returns (r: seq<Option<Playlist>>)
      requires AllSome(playlists)
      modifies this
      ensures r == playlists
      ensures Snapshot() == WithFeatured(old(Snapshot()), playlists, timestamp)
    {
      ghost var rows := FeaturedRows(PlaylistIdsOf(playlists), timestamp);
      for i := 0 to |playlists|
        invariant Snapshot() == old(Snapshot()).(featuredPlaylist := old(featuredPlaylist) + rows[..i])
      {
        featuredPlaylist := featuredPlaylist + [FeaturedRow(playlists[i].value.playlistId, timestamp)];
        assert rows[..i + 1] == rows[..i] + [rows[i]];
      }
      assert rows[..|playlists|] == rows;
      r := playlists;
    }

    method FindFeaturedPlaylists() returns (r: Option<seq<Option<Playlist>>>)
      ensures r == FeaturedPlaylistsOf(Snapshot())
    {
      var ids := FeaturedIds(featuredPlaylist);
      var playlists: seq<Option<Playlist>> := [];
      for i := 0 to |ids|
        invariant |playlists| == i
        invariant forall k | 0 <= k < i :: playlists[k] == PlaylistById(Snapshot(), ids[k])
      {
        var p := FindPlaylist(ids[i]);
        playlists := playlists + [p];
      }
      if |playlists| == 0 {
        return None;
      }
      assert playlists == PlaylistsByIds(Snapshot(), ids);
      r := Some(playlists);
    }

    // ---------------------------------------------------------------- twitter

    /** Never fails: an insert that would duplicate a stored id is dropped and
        the post is returned all the same. */
    method SaveTwitter(t: Twitter) returns (r: Twitter)
      modifies this
      ensures r == t
      ensures Snapshot() == WithTwitter(old(Snapshot()), t)
      ensures TwitterById(old(Snapshot()), t.twitterId).Some? ==> Snapshot() == old(Snapshot())
    {
      var existing := First(twitter, TwitterKey, t.twitterId);
      if existing.None? {
        twitter := twitter + [t];
      }
      r := t;
    }

    method FindTwitter(twitterId: string) returns (r: Option<Twitter>)
      ensures r == TwitterById(Snapshot(), twitterId)
      ensures r.None? <==> forall i | 0 <= i < |twitter| :: twitter[i].twitterId != twitterId
    {
      r := First(twitter, TwitterKey, twitterId);
    }

    method SaveTwitterByTrack(t: Track, twitters: seq<Option<Twitter>>) returns (r: seq<Option<Twitter>>)
      requires AllSome(twitters)
      modifies this
      ensures r == twitters
      ensures Snapshot() == WithTrackTwitters(old(Snapshot()), t.trackId, twitters)
    {
      ghost var links := LinksFrom(t.trackId, TwitterIdsOf(twitters));
      for i := 0 to |twitters|
        invariant Snapshot() == old(Snapshot()).(trackTwitter := old(trackTwitter) + links[..i])
      {
        trackTwitter := trackTwitter + [Link(t.trackId, twitters[i].value.twitterId)];
        assert links[..i + 1] == links[..i] + [links[i]];
      }
      assert links[..|twitters|] == links;
      r := twitters;
    }

    method FindTwittersByTrack(t: Track) returns (r: Option<seq<Option<Twitter>>>)
      ensures r == TwittersOfTrack(Snapshot(), t.trackId)
    {
      var ids := Members(trackTwitter, t.trackId);
      var twitters: seq<Option<Twitter>> := [];
      for i := 0 to |ids|
        invariant |twitters| == i
        invariant forall k | 0 <= k < i :: twitters[k] == TwitterById(Snapshot(), ids[k])
      {
        var post := FindTwitter(ids[i]);
        twitters := twitters + [post];
      }
      if |twitters| == 0 {
        return None;
      }
      assert twitters == TwittersByIds(Snapshot(), ids);
      r := Some(twitters);
    }
  }
}
