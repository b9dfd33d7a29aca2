/** The entity records of the explorer (spotify_objects.py): Artist, Track,
    Playlist and Twitter, their constructors and their `__str__` printers. */
module Objects {
  import opened Wrappers
  import opened Text

  /** An artist; the constructor `Artist(...)` stores every argument in the same-named field. */
  datatype Artist = Artist(
    artistId: string,
    artistName: string,
    genres: string,       // the genre list joined with ", "
    followers: int,
    popularity: int,
    externalUrl: string)

  /** A track; `artists` is `None` where a stored link names an artist that is not stored. */
  datatype Track = Track(
    trackId: string,
    trackName: string,
    durationMs: int,
    popularity: int,
    externalUrl: string,
    artists: seq<Option<Artist>>)

  /** A playlist; `tracks` is `None` where a stored link names a track that is not stored. */
  datatype Playlist = Playlist(
    playlistId: string,
    playlistName: string,
    ownerName: string,
    playlistDescription: string,
    followers: int,
    externalUrl: string,
    tracks: seq<Option<Track>>)

  /** A social post; the constructor `Twitter(...)` stores every argument in the same-named field. */
  datatype Twitter = Twitter(
    twitterId: string,
    userName: string,
    url: string,
    text: string,
    createdAt: string)

  /** `Track(...)`: the scalar fields as given and no artists yet. */
  function NewTrack(trackId: string, trackName: string, durationMs: int, popularity: int, externalUrl: string): (t: Track)
    ensures t.trackId == trackId && t.trackName == trackName && t.durationMs == durationMs
    ensures t.popularity == popularity && t.externalUrl == externalUrl
    ensures t.artists == []
  {
    Track(trackId, trackName, durationMs, popularity, externalUrl, [])
  }

  /** `Playlist(...)`: the scalar fields as given and no tracks yet. */
  function NewPlaylist(playlistId: string, playlistName: string, ownerName: string, playlistDescription: string,
                       followers: int, externalUrl: string): (p: Playlist)
    ensures p.playlistId == playlistId && p.playlistName == playlistName && p.ownerName == ownerName
    ensures p.playlistDescription == playlistDescription && p.followers == followers && p.externalUrl == externalUrl
    ensures p.tracks == []
  {
    Playlist(playlistId, playlistName, ownerName, playlistDescription, followers, externalUrl, [])
  }

  /** A printed entity ends with a newline. */
  predicate EndsWithNewline(s: string)
  {
    |s| > 0 && s[|s| - 1] == '\n'
  }

  // ---------------------------------------------------------------- Artist.__str__

  function ArtistText(a: Artist): (r: string)
    ensures "Artist name: " + a.artistName + "\n" <= r
    ensures EndsWithNewline(r)
  {
    var rest := "Artist genres: " + a.genres
                + "\nArtist followers: " + IntToString(a.followers)
                + "\nArtist popularity: " + IntToString(a.popularity)
                + "\n";
    "Artist name: " + a.artistName + "\n" + rest
  }

  // ---------------------------------------------------------------- Twitter.__str__

  function TwitterText(t: Twitter): (r: string)
    ensures "Twitter user: " + t.userName + "\n" <= r
    ensures EndsWithNewline(r)
  {
    "Twitter user: " + t.userName + "\nTwitter text: " + t.text + "\n"
  }

  /** The printed post shows only the author's name and the text. */
  lemma TwitterTextDependsOnly(t1: Twitter, t2: Twitter)
    requires t1.userName == t2.userName && t1.text == t2.text
    ensures TwitterText(t1) == TwitterText(t2)
  {
  }

  // ---------------------------------------------------------------- Track.__str__

  /** The names of the artists of a track, in list order. */
  function ArtistNameList(artists: seq<Option<Artist>>): (names: seq<string>)
    requires AllSome(artists)
    ensures |names| == |artists|
    ensures forall i | 0 <= i < |artists| :: names[i] == artists[i].value.artistName
  {
    if artists == [] then []
    else ArtistNameList(artists[..|artists| - 1]) + [artists[|artists| - 1].value.artistName]
  }

  /** One step of the name accumulator: the separator is written only when
      the text so far is non-empty. */
  function AppendName(acc: string, name: string): string
  {
    if |acc| == 0 then acc + name else acc + ", " + name
  }

  /** The artist segment as the accumulator loop builds it. */
  function ArtistNames(names: seq<string>): string
  {
    if names == [] then "" else AppendName(ArtistNames(names[..|names| - 1]), names[|names| - 1])
  }

  /** Unless the first of several names is empty, the accumulator loop is
      exactly `", ".join(names)`; later empty names still get their separator. */
  lemma {:induction false} ArtistNamesIsJoin(names: seq<string>)
    requires |names| <= 1 || names[0] != ""
    ensures ArtistNames(names) == Join(names, ", ")
  {
    if |names| > 1 {
      var init := names[..|names| - 1];
      var last := names[|names| - 1];
      assert init[0] == names[0] != "";
      ArtistNamesIsJoin(init);
      var joined := Join(init, ", ");
      assert |joined| > 0 by {
        assert init[0] <= joined;
      }
      calc {
        ArtistNames(names);
        AppendName(ArtistNames(init), last);
        joined + ", " + last;
        Join(names, ", ");
      }
    } else if |names| == 1 {
      assert names[..0] == [];
    }
  }

  /** An artist with an empty name at the head of the list drops the separator
      before the next name: the loop tests the accumulator, not the position. */
  lemma ArtistNamesEmptyHead(b: string)
    ensures ArtistNames(["", b]) == b
    ensures Join(["", b], ", ") == ", " + b
  {
    assert ["", b][..1] == [""];
    assert [""][..0] == [];
  }

  /** One more artist extends the segment by one accumulator step. */
  lemma ArtistNamesStep(artists: seq<Option<Artist>>, i: nat)
    requires AllSome(artists) && i < |artists|
    ensures ArtistNames(ArtistNameList(artists[..i + 1]))
            == AppendName(ArtistNames(ArtistNameList(artists[..i])), artists[i].value.artistName)
  {
    var prefix := artists[..i + 1];
    assert prefix[..i] == artists[..i];
    var names := ArtistNameList(prefix);
    assert names[..i] == ArtistNameList(artists[..i]);
  }

  function TrackText(t: Track): (r: string)
    requires AllSome(t.artists)
    ensures "Track name: " + t.trackName + "\n" <= r
    ensures EndsWithNewline(r)
  {
    "Track name: " + t.trackName
    + "\nTrack artists: " + ArtistNames(ArtistNameList(t.artists))
    + "\nTrack durations (in ms): " + IntToString(t.durationMs)
    + "\nTrack popularity: " + IntToString(t.popularity)
    + "\n"
  }

  /** A track without artists prints an empty artist segment. */
  lemma TrackTextNoArtists(t: Track)
    requires t.artists == []
    ensures TrackText(t) == "Track name: " + t.trackName + "\nTrack artists: "
                            + "\nTrack durations (in ms): " + IntToString(t.durationMs)
                            + "\nTrack popularity: " + IntToString(t.popularity) + "\n"
  {
  }

  /** `Track.__str__`: builds the artist segment in a loop, then the fixed lines. */
  method TrackToString(t: Track) returns (s: string)
    requires AllSome(t.artists)
    ensures s == TrackText(t)
  {
    var artistNames := "";
    var i := 0;
    while i < |t.artists|
      invariant 0 <= i <= |t.artists|
      invariant artistNames == ArtistNames(ArtistNameList(t.artists[..i]))
    {
      var name := t.artists[i].value.artistName;
      ArtistNamesStep(t.artists, i);
      if |artistNames| == 0 {
        artistNames := artistNames + name;
      } else {
        artistNames := artistNames + ", " + name;
      }
      i := i + 1;
    }
    assert t.artists[..i] == t.artists;
    s := "Track name: " + t.trackName
         + "\nTrack artists: " + artistNames
         + "\nTrack durations (in ms): " + IntToString(t.durationMs)
         + "\nTrack popularity: " + IntToString(t.popularity)
         + "\n";
  }

  // ---------------------------------------------------------------- Playlist.__str__

  /** The names of the tracks of a playlist, in list order. */
  function TrackNameList(tracks: seq<Option<Track>>): (names: seq<string>)
    requires AllSome(tracks)
    ensures |names| == |tracks|
    ensures forall i | 0 <= i < |tracks| :: names[i] == tracks[i].value.trackName
  {
    if tracks == [] then []
    else TrackNameList(tracks[..|tracks| - 1]) + [tracks[|tracks| - 1].value.trackName]
  }

  /** The line for the track numbered `n`. */
  function TrackLine(n: nat, name: string): string
  {
    "\n  [" + NatToString(n) + "]: " + name
  }

  /** The track lines numbered from `first` on, one per name, in list order. */
  function TrackLines(names: seq<string>, first: nat): string
    decreases |names|
  {
    if names == [] then "" else TrackLine(first, names[0]) + TrackLines(names[1..], first + 1)
  }

  /** The lines of a concatenated list are the lines of its parts, the second
      part numbered on from where the first stopped. */
  lemma {:induction false} TrackLinesAppend(a: seq<string>, b: seq<string>, first: nat)
    ensures TrackLines(a + b, first) == TrackLines(a, first) + TrackLines(b, first + |a|)
    decreases |a|
  {
    if a == [] {
      assert a + b == b;
    } else {
      assert (a + b)[1..] == a[1..] + b;
      TrackLinesAppend(a[1..], b, first + 1);
    }
  }

  /** The track at position `i` is printed on the line numbered `i + 1`, after
      the lines of the tracks before it and before the lines of those after it. */
  lemma TrackLinesAt(names: seq<string>, i: nat)
    requires i < |names|
    ensures TrackLines(names, 1)
            == TrackLines(names[..i], 1) + TrackLine(i + 1, names[i]) + TrackLines(names[i + 1..], i + 2)
  {
    assert names == names[..i] + names[i..];
    TrackLinesAppend(names[..i], names[i..], 1);
    assert names[i..][1..] == names[i + 1..];
  }

  /** One line per track: with no line break inside the names, the track
      segment holds exactly one line break per track. */
  lemma {:induction false} TrackLinesCount(names: seq<string>, first: nat)
    requires forall i, k | 0 <= i < |names| && 0 <= k < |names[i]| :: names[i][k] != '\n'
    ensures CountChar('\n', TrackLines(names, first)) == |names|
    decreases |names|
  {
    if names != [] {
      var digits := NatToString(first);
      CountCharAbsent('\n', digits);
      CountCharAbsent('\n', names[0]);
      CountCharAppend('\n', "\n  [", digits);
      CountCharAppend('\n', "\n  [" + digits, "]: ");
      CountCharAppend('\n', "\n  [" + digits + "]: ", names[0]);
      CountCharAppend('\n', TrackLine(first, names[0]), TrackLines(names[1..], first + 1));
      TrackLinesCount(names[1..], first + 1);
    }
  }

  function PlaylistText(p: Playlist): (r: string)
    requires AllSome(p.tracks)
    ensures "Playlist name: " + p.playlistName + "\n" <= r
    ensures EndsWithNewline(r)
  {
    var rest := "Playlist owner: " + p.ownerName
                + "\nPlaylist description: " + p.playlistDescription
                + "\nPlaylist followers: " + IntToString(p.followers)
                + "\nPlaylist tracks: " + TrackLines(TrackNameList(p.tracks), 1)
                + "\n";
    "Playlist name: " + p.playlistName + "\n" + rest
  }

  /** `Playlist.__str__`: numbers the tracks from 1 in a loop, then the fixed lines. */
  method PlaylistToString(p: Playlist) returns (s: string)
    requires AllSome(p.tracks)
    ensures s == PlaylistText(p)
  {
    var trackNames := "";
    for i := 0 to |p.tracks|
      invariant trackNames == TrackLines(TrackNameList(p.tracks[..i]), 1)
    {
      var line := "\n  [" + NatToString(i + 1) + "]: " + p.tracks[i].value.trackName;
      ghost var done := TrackNameList(p.tracks[..i]);
      assert p.tracks[..i + 1][..i] == p.tracks[..i];
      TrackLinesAppend(done, [p.tracks[i].value.trackName], 1);
      trackNames := trackNames + line;
    }
    assert p.tracks[..|p.tracks|] == p.tracks;
    var rest := "Playlist owner: " + p.ownerName
                + "\nPlaylist description: " + p.playlistDescription
                + "\nPlaylist followers: " + IntToString(p.followers)
                + "\nPlaylist tracks: " + trackNames
                + "\n";
    s := "Playlist name: " + p.playlistName + "\n" + rest;
  }
}
