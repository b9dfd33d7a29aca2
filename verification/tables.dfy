/** The relational store behind the data accessor (data_accessor.py), as nine
    in-memory tables. Every table is a sequence of rows in insertion order, so
    duplicate join rows and the order of `fetchall` are visible. A lookup by
    key returns the first matching row (`fetchone`); a join-table query returns
    the matching rows in insertion order (`fetchall`). */
module Tables {
  import opened Wrappers
  import opened Objects

  /** A row of the `track` table; the artists live in `track_artist`. */
  datatype TrackRow = TrackRow(trackId: string, trackName: string, durationMs: int, popularity: int, externalUrl: string)

  /** A row of the `playlist` table; the tracks live in `playlist_track`. */
  datatype PlaylistRow = PlaylistRow(playlistId: string, playlistName: string, ownerName: string,
                                     playlistDescription: string, followers: int, externalUrl: string)

  /** A row of a join table: the owner id in the first column, the member id in the second. */
  datatype Link = Link(owner: string, member: string)

  /** A row of `featured_playlist`: a playlist id and the capture tag of its snapshot. */
  datatype FeaturedRow = FeaturedRow(playlistId: string, timestamp: int)

  /** The nine tables. The `artist` and `twitter` tables hold exactly the fields
      of their entities, in constructor order. */
  datatype Store = Store(
    artist: seq<Artist>,
    track: seq<TrackRow>,
    playlist: seq<PlaylistRow>,
    twitter: seq<Twitter>,
    trackArtist: seq<Link>,
    playlistTrack: seq<Link>,
    relatedArtist: seq<Link>,
    featuredPlaylist: seq<FeaturedRow>,
    trackTwitter: seq<Link>)

  function EmptyStore(): Store
  {
    Store([], [], [], [], [], [], [], [], [])
  }

  // ------------------------------------------------------------ keyed lookup

  function ArtistKey(a: Artist): string { a.artistId }
  function TrackKey(r: TrackRow): string { r.trackId }
  function PlaylistKey(r: PlaylistRow): string { r.playlistId }
  function TwitterKey(t: Twitter): string { t.twitterId }

  /** `SELECT * FROM table WHERE key = id` followed by `fetchone()`: the first
      row whose key is `id`, or `None` when there is none. */
  function First<R>(rows: seq<R>, key: R -> string, id: string): (r: Option<R>)
    ensures r.None? <==> forall i | 0 <= i < |rows| :: key(rows[i]) != id
    ensures r.Some? ==> r.value in rows && key(r.value) == id
  {
    if rows == [] then None
    else if key(rows[0]) == id then Some(rows[0])
    else First(rows[1..], key, id)
  }

  /** Appending rows never changes a lookup that already succeeds, and a
      lookup that failed finds the first match among the new rows. */
  lemma {:induction false} FirstAppend<R>(rows: seq<R>, more: seq<R>, key: R -> string, id: string)
    ensures First(rows + more, key, id)
            == if First(rows, key, id).Some? then First(rows, key, id) else First(more, key, id)
  {
    if rows == [] {
      assert rows + more == more;
    } else if key(rows[0]) != id {
      assert (rows + more)[1..] == rows[1..] + more;
      FirstAppend(rows[1..], more, key, id);
    }
  }

  /** Growing a table by appending keeps every successful lookup. */
  lemma FirstPrefix<R>(rows: seq<R>, rows': seq<R>, key: R -> string, id: string)
    requires rows <= rows'
    requires First(rows, key, id).Some?
    ensures First(rows', key, id) == First(rows, key, id)
  {
    assert rows' == rows + rows'[|rows|..];
    FirstAppend(rows, rows'[|rows|..], key, id);
  }

  // ------------------------------------------------------------ join tables

  /** `SELECT * FROM join WHERE owner = id` followed by `fetchall()`,
      projected on the member column: one entry per matching row, in row order. */
  function Members(links: seq<Link>, owner: string): (r: seq<string>)
    ensures |r| <= |links|
  {
    if links == [] then []
    else (if links[0].owner == owner then [links[0].member] else []) + Members(links[1..], owner)
  }

  /** Every member read back comes from a row of that owner. */
  lemma {:induction false} MembersAreLinks(links: seq<Link>, owner: string)
    ensures forall m | m in Members(links, owner) :: Link(owner, m) in links
  {
    if links != [] {
      MembersAreLinks(links[1..], owner);
    }
  }

  lemma {:induction false} MembersAppend(a: seq<Link>, b: seq<Link>, owner: string)
    ensures Members(a + b, owner) == Members(a, owner) + Members(b, owner)
  {
    if a == [] {
      assert a + b == b;
    } else {
      var ab := a + b;
      assert ab[0] == a[0];
      assert ab[1..] == a[1..] + b;
      MembersAppend(a[1..], b, owner);
      var head := if a[0].owner == owner then [a[0].member] else [];
      assert Members(ab, owner) == head + Members(a[1..] + b, owner);
      assert Members(a, owner) == head + Members(a[1..], owner);
    }
  }

  /** Rows owned by someone else contribute nothing. */
  lemma {:induction false} MembersOtherOwner(links: seq<Link>, owner: string)
    requires forall l | l in links :: l.owner != owner
    ensures Members(links, owner) == []
  {
    if links != [] {
      MembersOtherOwner(links[1..], owner);
    }
  }

  /** One join row per member id, all with the same owner, in list order. */
  function LinksFrom(owner: string, ids: seq<string>): (r: seq<Link>)
    ensures |r| == |ids|
    ensures forall i | 0 <= i < |ids| :: r[i] == Link(owner, ids[i])
  {
    seq(|ids|, i requires 0 <= i < |ids| => Link(owner, ids[i]))
  }

  /** Reading back the rows written for one owner gives the member ids in order. */
  lemma {:induction false} MembersOfLinks(owner: string, ids: seq<string>)
    ensures Members(LinksFrom(owner, ids), owner) == ids
    decreases |ids|
  {
    if ids != [] {
      assert LinksFrom(owner, ids)[1..] == LinksFrom(owner, ids[1..]);
      MembersOfLinks(owner, ids[1..]);
    }
  }

  // ------------------------------------------------------------ reads

  predicate HasTrack(s: Store, id: string) { First(s.track, TrackKey, id).Some? }
  predicate HasPlaylist(s: Store, id: string) { First(s.playlist, PlaylistKey, id).Some? }

  /** `find_artist`. */
  function ArtistById(s: Store, id: string): Option<Artist>
  {
    First(s.artist, ArtistKey, id)
  }

  /** `find_artist` for every id, in order; a missing artist gives `None`. */
  function ArtistsByIds(s: Store, ids: seq<string>): (r: seq<Option<Artist>>)
    ensures |r| == |ids|
    ensures forall i | 0 <= i < |ids| :: r[i] == ArtistById(s, ids[i])
  {
    seq(|ids|, i requires 0 <= i < |ids| => ArtistById(s, ids[i]))
  }

  /** `find_track`: the track row with one artist entry per `track_artist` row. */
  function TrackById(s: Store, id: string): Option<Track>
  {
    match First(s.track, TrackKey, id)
    case None => None
    case Some(row) =>
      Some(NewTrack(row.trackId, row.trackName, row.durationMs, row.popularity, row.externalUrl)
             .(artists := ArtistsByIds(s, Members(s.trackArtist, id))))
  }

  /** `find_track` for every id, in order; a missing track gives `None`. */
  function TracksByIds(s: Store, ids: seq<string>): (r: seq<Option<Track>>)
    ensures |r| == |ids|
    ensures forall i | 0 <= i < |ids| :: r[i] == TrackById(s, ids[i])
  {
    seq(|ids|, i requires 0 <= i < |ids| => TrackById(s, ids[i]))
  }

  /** `find_playlist`: the playlist row with one track entry per `playlist_track` row. */
  function PlaylistById(s: Store, id: string): Option<Playlist>
  {
    match First(s.playlist, PlaylistKey, id)
    case None => None
    case Some(row) =>
      Some(NewPlaylist(row.playlistId, row.playlistName, row.ownerName, row.playlistDescription,
                       row.followers, row.externalUrl)
             .(tracks := TracksByIds(s, Members(s.playlistTrack, id))))
  }

  function PlaylistsByIds(s: Store, ids: seq<string>): (r: seq<Option<Playlist>>)
    ensures |r| == |ids|
    ensures forall i | 0 <= i < |ids| :: r[i] == PlaylistById(s, ids[i])
  {
    seq(|ids|, i requires 0 <= i < |ids| => PlaylistById(s, ids[i]))
  }

  /** `find_twitter`. */
  function TwitterById(s: Store, id: string): Option<Twitter>
  {
    First(s.twitter, TwitterKey, id)
  }

  function TwittersByIds(s: Store, ids: seq<string>): (r: seq<Option<Twitter>>)
    ensures |r| == |ids|
    ensures forall i | 0 <= i < |ids| :: r[i] == TwitterById(s, ids[i])
  {
    seq(|ids|, i requires 0 <= i < |ids| => TwitterById(s, ids[i]))
  }

  /** `find_related_artists`: `None` when the collected list is empty. */
  function RelatedArtistsOf(s: Store, toArtistId: string): Option<seq<Option<Artist>>>
  {
    var ids := Members(s.relatedArtist, toArtistId);
    if |ids| == 0 then None else Some(ArtistsByIds(s, ids))
  }

  /** The playlist ids of every `featured_playlist` row, of every snapshot. */
  function FeaturedIds(rows: seq<FeaturedRow>): (r: seq<string>)
    ensures |r| == |rows|
    ensures forall i | 0 <= i < |rows| :: r[i] == rows[i].playlistId
  {
    seq(|rows|, i requires 0 <= i < |rows| => rows[i].playlistId)
  }

  /** `find_featured_palylists`: every row, with no timestamp filter. */
  function FeaturedPlaylistsOf(s: Store): Option<seq<Option<Playlist>>>
  {
    var ids := FeaturedIds(s.featuredPlaylist);
    if |ids| == 0 then None else Some(PlaylistsByIds(s, ids))
  }

  /** `find_twitters_by_track`. */
  function TwittersOfTrack(s: Store, trackId: string): Option<seq<Option<Twitter>>>
  {
    var ids := Members(s.trackTwitter, trackId);
    if |ids| == 0 then None else Some(TwittersByIds(s, ids))
  }

  // ------------------------------------------------------------ writes

  function ArtistIdsOf(artists: seq<Option<Artist>>): (r: seq<string>)
    requires AllSome(artists)
    ensures |r| == |artists|
    ensures forall i | 0 <= i < |artists| :: r[i] == artists[i].value.artistId
  {
    seq(|artists|, i requires 0 <= i < |artists| => artists[i].value.artistId)
  }

  function TrackIdsOf(tracks: seq<Option<Track>>): (r: seq<string>)
    requires AllSome(tracks)
    ensures |r| == |tracks|
    ensures forall i | 0 <= i < |tracks| :: r[i] == tracks[i].value.trackId
  {
    seq(|tracks|, i requires 0 <= i < |tracks| => tracks[i].value.trackId)
  }

  function PlaylistIdsOf(playlists: seq<Option<Playlist>>): (r: seq<string>)
    requires AllSome(playlists)
    ensures |r| == |playlists|
    ensures forall i | 0 <= i < |playlists| :: r[i] == playlists[i].value.playlistId
  {
    seq(|playlists|, i requires 0 <= i < |playlists| => playlists[i].value.playlistId)
  }

  function TwitterIdsOf(twitters: seq<Option<Twitter>>): (r: seq<string>)
    requires AllSome(twitters)
    ensures |r| == |twitters|
    ensures forall i | 0 <= i < |twitters| :: r[i] == twitters[i].value.twitterId
  {
    seq(|twitters|, i requires 0 <= i < |twitters| => twitters[i].value.twitterId)
  }

  function RowOfTrack(t: Track): TrackRow
  {
    TrackRow(t.trackId, t.trackName, t.durationMs, t.popularity, t.externalUrl)
  }

  function RowOfPlaylist(p: Playlist): PlaylistRow
  {
    PlaylistRow(p.playlistId, p.playlistName, p.ownerName, p.playlistDescription, p.followers, p.externalUrl)
  }

  /** The featured rows of one snapshot: every playlist with the same tag. */
  function FeaturedRows(ids: seq<string>, timestamp: int): (r: seq<FeaturedRow>)
    ensures |r| == |ids|
    ensures forall i | 0 <= i < |ids| :: r[i] == FeaturedRow(ids[i], timestamp)
  {
    seq(|ids|, i requires 0 <= i < |ids| => FeaturedRow(ids[i], timestamp))
  }

  /** The store after `save_artist`. */
  function WithArtist(s: Store, a: Artist): Store
  {
    s.(artist := s.artist + [a])
  }

  /** The store after `save_track`: one track row, then one `track_artist` row per artist. */
  function WithTrack(s: Store, t: Track): Store
    requires AllSome(t.artists)
  {
    s.(track := s.track + [RowOfTrack(t)],
       trackArtist := s.trackArtist + LinksFrom(t.trackId, ArtistIdsOf(t.artists)))
  }

  /** The store after `save_playlist`: one playlist row, then one `playlist_track` row per track. */
  function WithPlaylist(s: Store, p: Playlist): Store
    requires AllSome(p.tracks)
  {
    s.(playlist := s.playlist + [RowOfPlaylist(p)],
       playlistTrack := s.playlistTrack + LinksFrom(p.playlistId, TrackIdsOf(p.tracks)))
  }

  /** The store after `save_related_artists`. */
  function WithRelated(s: Store, toArtistId: string, artists: seq<Option<Artist>>): Store
    requires AllSome(artists)
  {
    s.(relatedArtist := s.relatedArtist + LinksFrom(toArtistId, ArtistIdsOf(artists)))
  }

  /** The store after `save_featured_palylists`, stamped with `timestamp`. */
  function WithFeatured(s: Store, playlists: seq<Option<Playlist>>, timestamp: int): (r: Store)
    requires AllSome(playlists)
  {
    s.(featuredPlaylist := s.featuredPlaylist + FeaturedRows(PlaylistIdsOf(playlists), timestamp))
  }

  /** The store after `save_twitter`: a post whose id is already stored makes
      the insert fail, and the failure is swallowed. */
  function WithTwitter(s: Store, t: Twitter): Store
  {
    if TwitterById(s, t.twitterId).Some? then s else s.(twitter := s.twitter + [t])
  }

  /** The store after `save_twitter_by_track`. */
  function WithTrackTwitters(s: Store, trackId: string, twitters: seq<Option<Twitter>>): Store
    requires AllSome(twitters)
  {
    s.(trackTwitter := s.trackTwitter + LinksFrom(trackId, TwitterIdsOf(twitters)))
  }
}
