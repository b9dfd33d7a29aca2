/** The converters from remote records to entities (spotify_cli.py). The
    artist and status converters are pure; the track and playlist converters
    build the shell here and resolve their children through the cache (see
    module CacheAside). */
module Conversion {
  import opened Text
  import opened Objects
  import opened Services

  /** `convert_spotify_artist_object`. */
  function ConvertArtist(raw: RawArtist): Artist
  {
    Artist(raw.id, raw.name, Join(raw.genres, ", "), raw.followersTotal, raw.popularity, raw.spotifyUrl)
  }

  /** `convert_twitter_status_object`. */
  function ConvertStatus(raw: RawStatus): Twitter
  {
    Twitter(raw.idStr, raw.userName, raw.userUrl, raw.text, raw.createdAt)
  }

  /** The first part of `convert_spotify_track_object`: the track before its artists. */
  function TrackShell(raw: RawTrack): Track
  {
    NewTrack(raw.id, raw.name, raw.durationMs, raw.popularity, raw.spotifyUrl)
  }

  /** The first part of `convert_spotify_playlist_object`: the playlist before its tracks. */
  function PlaylistShell(raw: RawPlaylist): Playlist
  {
    NewPlaylist(raw.id, raw.name, raw.ownerId, raw.description, raw.followersTotal, raw.spotifyUrl)
  }

  /** The artist keeps the record's scalar fields, and its genre string gives the
      genre list back when the list is non-empty and no genre contains `", "`. */
  lemma ConvertArtistFaithful(raw: RawArtist)
    requires |raw.genres| > 0
    requires forall i | 0 <= i < |raw.genres| :: NoCommaSpace(raw.genres[i])
    ensures ConvertArtist(raw).artistId == raw.id && ConvertArtist(raw).artistName == raw.name
    ensures ConvertArtist(raw).followers == raw.followersTotal && ConvertArtist(raw).popularity == raw.popularity
    ensures ConvertArtist(raw).externalUrl == raw.spotifyUrl
    ensures SplitComma(ConvertArtist(raw).genres) == raw.genres
  {
    SplitJoin(raw.genres);
  }

  /** An artist without genres has an empty genre string, the same as one whose
      only genre is empty: the join loses that distinction. */
  lemma ConvertArtistNoGenres(raw: RawArtist)
    requires raw.genres == [] || raw.genres == [""]
    ensures ConvertArtist(raw).genres == ""
  {
  }

  /** The post keeps every field of the status record, and two statuses convert
      to the same post only if they are the same record. */
  lemma ConvertStatusInjective(a: RawStatus, b: RawStatus)
    ensures ConvertStatus(a) == ConvertStatus(b) <==> a == b
    ensures ConvertStatus(a).twitterId == a.idStr && ConvertStatus(a).userName == a.userName
    ensures ConvertStatus(a).url == a.userUrl && ConvertStatus(a).text == a.text
    ensures ConvertStatus(a).createdAt == a.createdAt
  {
  }

  /** The shells keep the record's fields and start with no children. */
  lemma ShellsFaithful(t: RawTrack, p: RawPlaylist)
    ensures TrackShell(t).trackId == t.id && TrackShell(t).trackName == t.name && TrackShell(t).artists == []
    ensures TrackShell(t).durationMs == t.durationMs && TrackShell(t).popularity == t.popularity
    ensures TrackShell(t).externalUrl == t.spotifyUrl
    ensures PlaylistShell(p).playlistId == p.id && PlaylistShell(p).ownerName == p.ownerId
    ensures PlaylistShell(p).playlistName == p.name && PlaylistShell(p).playlistDescription == p.description
    ensures PlaylistShell(p).followers == p.followersTotal && PlaylistShell(p).externalUrl == p.spotifyUrl
    ensures PlaylistShell(p).tracks == []
  {
  }
}
