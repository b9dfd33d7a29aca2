/** What the reads and writes of the data accessor promise about each other:
    the hit/miss contract of every `find_*`, the save-then-find round trips,
    and the stability of stored entities while the tables grow. */
module StoreFacts {
  import opened Wrappers
  import opened Objects
  import opened Tables

  // ------------------------------------------------------------ find_*: hit or miss

  /** Every keyed `find_*` returns `None` exactly when no row carries the id. */
  lemma FindNoneIffAbsent(s: Store, id: string)
    ensures ArtistById(s, id).None? <==> forall i | 0 <= i < |s.artist| :: s.artist[i].artistId != id
    ensures TrackById(s, id).None? <==> forall i | 0 <= i < |s.track| :: s.track[i].trackId != id
    ensures PlaylistById(s, id).None? <==> forall i | 0 <= i < |s.playlist| :: s.playlist[i].playlistId != id
    ensures TwitterById(s, id).None? <==> forall i | 0 <= i < |s.twitter| :: s.twitter[i].twitterId != id
  {
  }

  /** A found track carries its row's scalar fields and one artist entry per
      `track_artist` row, in row order; an entry is `None` exactly when its
      artist id has no `artist` row, and it is kept, not skipped. */
  lemma TrackByIdShape(s: Store, id: string)
    requires TrackById(s, id).Some?
    ensures var t := TrackById(s, id).value;
            var ids := Members(s.trackArtist, id);
            && t.trackId == id
            && RowOfTrack(t) in s.track
            && |t.artists| == |ids|
            && (forall i | 0 <= i < |ids| :: t.artists[i] == ArtistById(s, ids[i]))
            && (forall i | 0 <= i < |ids| ::
                  t.artists[i].None? <==> forall j | 0 <= j < |s.artist| :: s.artist[j].artistId != ids[i])
  {
  }

  /** A found playlist carries one track entry per `playlist_track` row, in row order. */
  lemma PlaylistByIdShape(s: Store, id: string)
    requires PlaylistById(s, id).Some?
    ensures var p := PlaylistById(s, id).value;
            var ids := Members(s.playlistTrack, id);
            && p.playlistId == id
            && RowOfPlaylist(p) in s.playlist
            && |p.tracks| == |ids|
            && (forall i | 0 <= i < |ids| :: p.tracks[i] == TrackById(s, ids[i]))
  {
  }

  /** `find_related_artists` and `find_twitters_by_track` answer `None` exactly
      when there is no matching join row; otherwise one entry per row, even when
      every entry is itself `None`. */
  lemma RelationCounts(s: Store, id: string)
    ensures RelatedArtistsOf(s, id).None? <==> |Members(s.relatedArtist, id)| == 0
    ensures RelatedArtistsOf(s, id).Some? ==> |RelatedArtistsOf(s, id).value| == |Members(s.relatedArtist, id)|
    ensures TwittersOfTrack(s, id).None? <==> |Members(s.trackTwitter, id)| == 0
    ensures TwittersOfTrack(s, id).Some? ==> |TwittersOfTrack(s, id).value| == |Members(s.trackTwitter, id)|
  {
  }

  /** `find_featured_palylists` returns one playlist per row over all snapshots. */
  lemma FeaturedCounts(s: Store)
    ensures FeaturedPlaylistsOf(s).None? <==> |s.featuredPlaylist| == 0
    ensures FeaturedPlaylistsOf(s).Some? ==>
              var ps := FeaturedPlaylistsOf(s).value;
              |ps| == |s.featuredPlaylist|
              && forall i | 0 <= i < |ps| :: ps[i] == PlaylistById(s, s.featuredPlaylist[i].playlistId)
  {
  }

  // ------------------------------------------------------------ save then find

  /** `save_artist` then `find_artist`: the artist comes back equal in all six
      fields, and every other artist lookup is unchanged. */
  lemma ArtistRoundTrip(s: Store, a: Artist)
    requires ArtistById(s, a.artistId).None?
    ensures ArtistById(WithArtist(s, a), a.artistId) == Some(a)
    ensures forall id | id != a.artistId :: ArtistById(WithArtist(s, a), id) == ArtistById(s, id)
  {
    forall id
      ensures ArtistById(WithArtist(s, a), id)
              == if ArtistById(s, id).Some? then ArtistById(s, id) else First([a], ArtistKey, id)
    {
      FirstAppend(s.artist, [a], ArtistKey, id);
    }
  }

  /** `save_track` then `find_track`: when the track id is new, no join row is
      owned by it yet, and every artist of the track is stored as it is, the
      track comes back equal, artists included and in the same order. */
  lemma TrackRoundTrip(s: Store, t: Track)
    requires !HasTrack(s, t.trackId)
    requires forall l | l in s.trackArtist :: l.owner != t.trackId
    requires AllSome(t.artists)
    requires forall i | 0 <= i < |t.artists| :: ArtistById(s, t.artists[i].value.artistId) == t.artists[i]
    ensures TrackById(WithTrack(s, t), t.trackId) == Some(t)
  {
    var s' := WithTrack(s, t);
    var ids := ArtistIdsOf(t.artists);
    FirstAppend(s.track, [RowOfTrack(t)], TrackKey, t.trackId);
    MembersAppend(s.trackArtist, LinksFrom(t.trackId, ids), t.trackId);
    MembersOtherOwner(s.trackArtist, t.trackId);
    MembersOfLinks(t.trackId, ids);
    assert Members(s'.trackArtist, t.trackId) == ids;
    assert ArtistsByIds(s', ids) == t.artists;
  }

  /** `save_playlist` then `find_playlist`, under the same conditions for its tracks. */
  lemma PlaylistRoundTrip(s: Store, p: Playlist)
    requires !HasPlaylist(s, p.playlistId)
    requires forall l | l in s.playlistTrack :: l.owner != p.playlistId
    requires AllSome(p.tracks)
    requires forall i | 0 <= i < |p.tracks| :: TrackById(s, p.tracks[i].value.trackId) == p.tracks[i]
    ensures PlaylistById(WithPlaylist(s, p), p.playlistId) == Some(p)
  {
    var s' := WithPlaylist(s, p);
    var ids := TrackIdsOf(p.tracks);
    FirstAppend(s.playlist, [RowOfPlaylist(p)], PlaylistKey, p.playlistId);
    MembersAppend(s.playlistTrack, LinksFrom(p.playlistId, ids), p.playlistId);
    MembersOtherOwner(s.playlistTrack, p.playlistId);
    MembersOfLinks(p.playlistId, ids);
    assert Members(s'.playlistTrack, p.playlistId) == ids;
    TracksIgnorePlaylists(s, s', ids);
    assert TracksByIds(s', ids) == p.tracks;
  }

  /** Rebuilding tracks reads only the artist, track and track_artist tables. */
  lemma TracksIgnorePlaylists(s: Store, s': Store, ids: seq<string>)
    requires s'.artist == s.artist && s'.track == s.track && s'.trackArtist == s.trackArtist
    ensures TracksByIds(s', ids) == TracksByIds(s, ids)
  {
    forall i | 0 <= i < |ids|
      ensures TrackById(s', ids[i]) == TrackById(s, ids[i])
    {
      TrackIgnoresPlaylists(s, s', ids[i]);
    }
  }

  lemma TrackIgnoresPlaylists(s: Store, s': Store, id: string)
    requires s'.artist == s.artist && s'.track == s.track && s'.trackArtist == s.trackArtist
    ensures TrackById(s', id) == TrackById(s, id)
  {
    var ids := Members(s.trackArtist, id);
    assert ArtistsByIds(s', ids) == ArtistsByIds(s, ids);
  }

  /** `save_related_artists` then `find_related_artists` for a fresh owner:
      the stored artists in order, or `None` when the list was empty. */
  lemma RelatedRoundTrip(s: Store, toArtistId: string, artists: seq<Option<Artist>>)
    requires forall l | l in s.relatedArtist :: l.owner != toArtistId
    requires AllSome(artists)
    requires forall i | 0 <= i < |artists| :: ArtistById(s, artists[i].value.artistId) == artists[i]
    ensures RelatedArtistsOf(WithRelated(s, toArtistId, artists), toArtistId)
            == if artists == [] then None else Some(artists)
  {
    var ids := ArtistIdsOf(artists);
    MembersAppend(s.relatedArtist, LinksFrom(toArtistId, ids), toArtistId);
    MembersOtherOwner(s.relatedArtist, toArtistId);
    MembersOfLinks(toArtistId, ids);
    var s' := WithRelated(s, toArtistId, artists);
    assert Members(s'.relatedArtist, toArtistId) == ids;
    assert ArtistsByIds(s', ids) == artists;
  }

  /** `save_featured_palylists` appends one row per playlist, all stamped with
      the same tag; the earlier snapshots stay. */
  lemma FeaturedAfterSave(s: Store, playlists: seq<Option<Playlist>>, timestamp: int)
    requires AllSome(playlists)
    ensures var f := WithFeatured(s, playlists, timestamp).featuredPlaylist;
            && |f| == |s.featuredPlaylist| + |playlists|
            && f[..|s.featuredPlaylist|] == s.featuredPlaylist
            && (forall i | |s.featuredPlaylist| <= i < |f| :: f[i].timestamp == timestamp)
            && FeaturedIds(f) == FeaturedIds(s.featuredPlaylist) + PlaylistIdsOf(playlists)
  {
    var f := WithFeatured(s, playlists, timestamp).featuredPlaylist;
    assert f[..|s.featuredPlaylist|] == s.featuredPlaylist;
  }

  /** `save_twitter` never fails: afterwards the post's id is always found, it
      is the post itself when the id was new, and a duplicate leaves the store
      as it was. */
  lemma TwitterSaveFindable(s: Store, t: Twitter)
    ensures TwitterById(WithTwitter(s, t), t.twitterId).Some?
    ensures TwitterById(s, t.twitterId).None? ==> TwitterById(WithTwitter(s, t), t.twitterId) == Some(t)
    ensures TwitterById(s, t.twitterId).Some? ==> WithTwitter(s, t) == s
    ensures forall id | TwitterById(s, id).Some? :: TwitterById(WithTwitter(s, t), id) == TwitterById(s, id)
  {
    if TwitterById(s, t.twitterId).None? {
      FirstAppend(s.twitter, [t], TwitterKey, t.twitterId);
      forall id | TwitterById(s, id).Some?
        ensures TwitterById(WithTwitter(s, t), id) == TwitterById(s, id)
      {
        FirstAppend(s.twitter, [t], TwitterKey, id);
      }
    }
  }

  /** `save_twitter` leaves the answer for an already stored id as it was. */
  lemma TwitterSaveKeepsId(s: Store, t: Twitter, id: string)
    requires TwitterById(s, id).Some?
    ensures TwitterById(WithTwitter(s, t), id) == TwitterById(s, id)
  {
    if TwitterById(s, t.twitterId).None? {
      FirstAppend(s.twitter, [t], TwitterKey, id);
    }
  }

  // ------------------------------------------------------------ integrity and growth

  /** Referential integrity of the composite entities: every `track_artist` row
      joins a stored track to a stored artist, every `playlist_track` row a
      stored playlist to a stored track. */
  ghost predicate Integrity(s: Store)
  {
    && (forall l | l in s.trackArtist :: HasTrack(s, l.owner) && ArtistById(s, l.member).Some?)
    && (forall l | l in s.playlistTrack :: HasPlaylist(s, l.owner) && HasTrack(s, l.member))
  }

  lemma EmptyStoreIntegrity()
    ensures Integrity(EmptyStore())
  {
  }

  /** `s'` is `s` with rows appended to its tables, where no new join row of a
      composite entity belongs to a track or playlist that `s` already stores. */
  ghost predicate Grows(s: Store, s': Store)
  {
    && s.artist <= s'.artist && s.track <= s'.track && s.playlist <= s'.playlist && s.twitter <= s'.twitter
    && s.trackArtist <= s'.trackArtist && s.playlistTrack <= s'.playlistTrack
    && s.relatedArtist <= s'.relatedArtist && s.featuredPlaylist <= s'.featuredPlaylist
    && s.trackTwitter <= s'.trackTwitter
    && (forall l | l in s'.trackArtist[|s.trackArtist|..] :: !HasTrack(s, l.owner))
    && (forall l | l in s'.playlistTrack[|s.playlistTrack|..] :: !HasPlaylist(s, l.owner))
  }

  lemma GrowsReflexive(s: Store)
    ensures Grows(s, s)
  {
  }

  lemma GrowsTransitive(s1: Store, s2: Store, s3: Store)
    requires Grows(s1, s2) && Grows(s2, s3)
    ensures Grows(s1, s3)
  {
    forall l | l in s3.trackArtist[|s1.trackArtist|..]
      ensures !HasTrack(s1, l.owner)
    {
      var k :| |s1.trackArtist| <= k < |s3.trackArtist| && s3.trackArtist[k] == l;
      if k < |s2.trackArtist| {
        assert l in s2.trackArtist[|s1.trackArtist|..];
      } else {
        assert l in s3.trackArtist[|s2.trackArtist|..];
        if HasTrack(s1, l.owner) {
          FirstPrefix(s1.track, s2.track, TrackKey, l.owner);
        }
      }
    }
    forall l | l in s3.playlistTrack[|s1.playlistTrack|..]
      ensures !HasPlaylist(s1, l.owner)
    {
      var k :| |s1.playlistTrack| <= k < |s3.playlistTrack| && s3.playlistTrack[k] == l;
      if k < |s2.playlistTrack| {
        assert l in s2.playlistTrack[|s1.playlistTrack|..];
      } else {
        assert l in s3.playlistTrack[|s2.playlistTrack|..];
        if HasPlaylist(s1, l.owner) {
          FirstPrefix(s1.playlist, s2.playlist, PlaylistKey, l.owner);
        }
      }
    }
  }

  /** A stored artist stays what it is while the store grows. */
  lemma ArtistStable(s: Store, s': Store, id: string)
    requires s.artist <= s'.artist
    requires ArtistById(s, id).Some?
    ensures ArtistById(s', id) == ArtistById(s, id)
  {
    FirstPrefix(s.artist, s'.artist, ArtistKey, id);
  }

  /** The join rows of a stored track do not change while the store grows. */
  lemma TrackMembersStable(s: Store, s': Store, id: string)
    requires Grows(s, s')
    requires HasTrack(s, id)
    ensures Members(s'.trackArtist, id) == Members(s.trackArtist, id)
  {
    var extra := s'.trackArtist[|s.trackArtist|..];
    assert s'.trackArtist == s.trackArtist + extra;
    MembersAppend(s.trackArtist, extra, id);
    MembersOtherOwner(extra, id);
  }

  /** A stored track is rebuilt identically while the store grows, as long as
      its artists were stored (integrity): no `None` entry can turn into an artist. */
  lemma TrackStable(s: Store, s': Store, id: string)
    requires Integrity(s) && Grows(s, s')
    requires HasTrack(s, id)
    ensures TrackById(s', id) == TrackById(s, id)
  {
    FirstPrefix(s.track, s'.track, TrackKey, id);
    TrackMembersStable(s, s', id);
    var ids := Members(s.trackArtist, id);
    MembersAreLinks(s.trackArtist, id);
    forall i | 0 <= i < |ids|
      ensures ArtistById(s', ids[i]) == ArtistById(s, ids[i])
    {
      assert ids[i] in ids;
      assert Link(id, ids[i]) in s.trackArtist;
      ArtistStable(s, s', ids[i]);
    }
    assert ArtistsByIds(s', ids) == ArtistsByIds(s, ids);
  }

  /** A stored playlist is rebuilt identically while the store grows. */
  lemma PlaylistStable(s: Store, s': Store, id: string)
    requires Integrity(s) && Grows(s, s')
    requires HasPlaylist(s, id)
    ensures PlaylistById(s', id) == PlaylistById(s, id)
  {
    FirstPrefix(s.playlist, s'.playlist, PlaylistKey, id);
    var extra := s'.playlistTrack[|s.playlistTrack|..];
    assert s'.playlistTrack == s.playlistTrack + extra;
    MembersAppend(s.playlistTrack, extra, id);
    MembersOtherOwner(extra, id);
    var ids := Members(s.playlistTrack, id);
    assert Members(s'.playlistTrack, id) == ids;
    TracksStable(s, s', id, ids);
  }

  lemma TracksStable(s: Store, s': Store, id: string, ids: seq<string>)
    requires Integrity(s) && Grows(s, s')
    requires ids == Members(s.playlistTrack, id)
    ensures TracksByIds(s', ids) == TracksByIds(s, ids)
  {
    MembersAreLinks(s.playlistTrack, id);
    forall i | 0 <= i < |ids|
      ensures TrackById(s', ids[i]) == TrackById(s, ids[i])
    {
      assert ids[i] in ids;
      assert Link(id, ids[i]) in s.playlistTrack;
      TrackStable(s, s', ids[i]);
    }
  }
}
