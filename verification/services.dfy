/** The remote services the explorer calls (spotify_cli.py): the music
    catalogue's artist, track, playlist, related-artists and featured-playlists
    endpoints, and the social-post search. The network is replaced by a fixed
    catalogue of raw records; a request for something the catalogue lacks is the
    failure of that request. Every request is counted, so the model can say how
    often a call reached the network. */
module Services {
  import opened Wrappers

  /** The fields of a catalogue artist record that the converter reads. */
  datatype RawArtist = RawArtist(
    id: string,
    name: string,
    genres: seq<string>,
    followersTotal: int,
    popularity: int,
    spotifyUrl: string)

  /** A catalogue track record; `artistIds` lists the ids of its `artists` entries. */
  datatype RawTrack = RawTrack(
    id: string,
    name: string,
    durationMs: int,
    popularity: int,
    spotifyUrl: string,
    artistIds: seq<string>)

  /** A catalogue playlist record; `trackIds` lists the ids of its `tracks.items` entries. */
  datatype RawPlaylist = RawPlaylist(
    id: string,
    name: string,
    ownerId: string,
    description: string,
    followersTotal: int,
    spotifyUrl: string,
    trackIds: seq<string>)

  /** A status record of the post search. */
  datatype RawStatus = RawStatus(
    idStr: string,
    userName: string,
    userUrl: string,
    text: string,
    createdAt: string)

  /** What the remote services would answer. A missing key (or `featured == None`)
      is a request that fails; `search` is keyed by the query and the count. */
  datatype Catalog = Catalog(
    artists: map<string, RawArtist>,
    tracks: map<string, RawTrack>,
    playlists: map<string, RawPlaylist>,
    related: map<string, seq<string>>,
    featured: Option<seq<string>>,
    search: map<(string, int), seq<RawStatus>>)

  /** Each endpoint answers a request for an id with the record of that id. */
  predicate Keyed(c: Catalog)
  {
    && (forall id | id in c.artists :: c.artists[id].id == id)
    && (forall id | id in c.tracks :: c.tracks[id].id == id)
    && (forall id | id in c.playlists :: c.playlists[id].id == id)
  }

  /** Any exception raised by a remote request. */
  datatype FetchError = ExternalUnavailable

  function Lookup<K, V>(m: map<K, V>, k: K): (r: Result<V, FetchError>)
    ensures r.Ok? <==> k in m
    ensures r.Ok? ==> r.value == m[k]
  {
    if k in m then Ok(m[k]) else Err(ExternalUnavailable)
  }

  /** The remote services, with a count of the requests made so far. */
  class Remote {
    const catalog: Catalog
    var fetches: nat

    constructor (catalog: Catalog)
      ensures this.catalog == catalog && fetches == 0
    {
      this.catalog := catalog;
      fetches := 0;
    }

    /** `spotify.artist(id)`. */
    method FetchArtist(id: string) returns (r: Result<RawArtist, FetchError>)
      modifies this
      ensures r == Lookup(catalog.artists, id)
      ensures fetches == old(fetches) + 1
    {
      r := Lookup(catalog.artists, id);
      fetches := fetches + 1;
    }

    /** `spotify.track(id)`. */
    method FetchTrack(id: string) returns (r: Result<RawTrack, FetchError>)
      modifies this
      ensures r == Lookup(catalog.tracks, id)
      ensures fetches == old(fetches) + 1
    {
      r := Lookup(catalog.tracks, id);
      fetches := fetches + 1;
    }

    /** `spotify.playlist(id)`. */
    method FetchPlaylist(id: string) returns (r: Result<RawPlaylist, FetchError>)
      modifies this
      ensures r == Lookup(catalog.playlists, id)
      ensures fetches == old(fetches) + 1
    {
      r := Lookup(catalog.playlists, id);
      fetches := fetches + 1;
    }

    /** `spotify.artist_related_artists(id)`, projected on the artist ids. */
    method FetchRelatedArtists(id: string) returns (r: Result<seq<string>, FetchError>)
      modifies this
      ensures r == Lookup(catalog.related, id)
      ensures fetches == old(fetches) + 1
    {
      r := Lookup(catalog.related, id);
      fetches := fetches + 1;
    }

    /** `spotify.featured_playlists()`, projected on the playlist ids. */
    method FetchFeaturedPlaylists() returns (r: Result<seq<string>, FetchError>)
      modifies this
      ensures r == (if catalog.featured.Some? then Ok(catalog.featured.value) else Err(ExternalUnavailable))
      ensures fetches == old(fetches) + 1
    {
      r := if catalog.featured.Some? then Ok(catalog.featured.value) else Err(ExternalUnavailable);
      fetches := fetches + 1;
    }

    /** The post search with parameters `q` and `count`, projected on `statuses`. */
    method SearchStatuses(query: string, count: int) returns (r: Result<seq<RawStatus>, FetchError>)
      modifies this
      ensures r == Lookup(catalog.search, (query, count))
      ensures fetches == old(fetches) + 1
    {
      r := Lookup(catalog.search, (query, count));
      fetches := fetches + 1;
    }
  }
}
