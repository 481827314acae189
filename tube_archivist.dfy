/**
 * `TubeArchivistAPI`: the client of the video archive's HTTP API. The service is
 * given as its replies; a failed request (transport error, timeout, non-2xx status,
 * undecodable body) is caught where the source catches `RequestException`, and any
 * other exception is modelled as `Raised`.
 */
module TubeArchivist {
  import opened Outcomes
  import opened JsonValues
  import opened AsciiCase

  /** What one GET gives: the decoded body of a successful response, or a failed request. */
  datatype Reply = Body(json: Json) | RequestFailed

  /**
   * The service as the client sees it: the reply to `/api/playlist/`, the reply to
   * `/api/playlist/{id}/` for each value a playlist's `playlist_id` may hold, and the
   * reply to `/api/video/{id}/` for each video id.
   */
  datatype Server = Server(playlists: Reply, playlist: Json -> Reply, video: string -> Reply)

  /**
   * `get_ta_playlists`: the `data` field of the playlist listing, or [] when the request
   * fails. A body that is not a dict makes `.get` raise, and that is not caught here.
   */
  function GetTaPlaylists(server: Server): (r: Outcome<Json>)
    ensures server.playlists.RequestFailed? ==> r == Returned(Arr([]))
    ensures r.Raised? <==> server.playlists.Body? && !server.playlists.json.Obj?
    ensures server.playlists.Body? && server.playlists.json.Obj? && "data" in server.playlists.json.fields ==>
      r == Returned(server.playlists.json.fields["data"])
    ensures server.playlists.Body? && server.playlists.json.Obj? && "data" !in server.playlists.json.fields ==>
      r == Returned(Arr([]))
  {
    match server.playlists
    case RequestFailed => Returned(Arr([]))
    case Body(data) => if data.Obj? then Returned(Get(data, "data", Arr([]))) else Raised
  }

  /** `get_ta_video_info`: the decoded body, or None when the request fails. */
  function GetTaVideoInfo(server: Server, videoId: string): (r: Option<Json>)
    ensures r.None? <==> server.video(videoId).RequestFailed?
    ensures r.Some? ==> server.video(videoId) == Body(r.value)
  {
    match server.video(videoId)
    case RequestFailed => None
    case Body(info) => Some(info)
  }

  /** A playlist entry the listing loop keeps: a dict with a `youtube_id` key. */
  predicate HasYoutubeId(entry: Json)
  {
    entry.Obj? && "youtube_id" in entry.fields
  }

  /** The `youtube_id` values of the entries that are dicts holding that key, in order. */
  function YoutubeIds(entries: seq<Json>): (ids: seq<Json>)
    ensures |ids| <= |entries|
    decreases |entries|
  {
    if entries == [] then []
    else
      (if HasYoutubeId(entries[0]) then [entries[0].fields["youtube_id"]] else []) +
      YoutubeIds(entries[1..])
  }

  /** Filtering distributes over concatenation: kept ids keep the order of their entries. */
  lemma {:induction false} YoutubeIdsConcat(a: seq<Json>, b: seq<Json>)
    ensures YoutubeIds(a + b) == YoutubeIds(a) + YoutubeIds(b)
    decreases |a|
  {
    if a == [] {
      assert a + b == b;
    } else {
      var head := if HasYoutubeId(a[0]) then [a[0].fields["youtube_id"]] else [];
      assert (a + b)[0] == a[0];
      assert (a + b)[1..] == a[1..] + b;
      assert YoutubeIds(a + b) == head + YoutubeIds(a[1..] + b);
      YoutubeIdsConcat(a[1..], b);
      assert YoutubeIds(a) == head + YoutubeIds(a[1..]);
    }
  }

  /** A value is listed exactly when some dict entry carries it under `youtube_id`. */
  lemma {:induction false} YoutubeIdsMembership(entries: seq<Json>, x: Json)
    ensures x in YoutubeIds(entries) <==>
      exists i :: 0 <= i < |entries| && HasYoutubeId(entries[i]) && entries[i].fields["youtube_id"] == x
    decreases |entries|
  {
    if entries != [] {
      YoutubeIdsMembership(entries[1..], x);
      if x in YoutubeIds(entries[1..]) {
        var i :| 0 <= i < |entries[1..]| && HasYoutubeId(entries[1..][i]) && entries[1..][i].fields["youtube_id"] == x;
        assert HasYoutubeId(entries[i + 1]) && entries[i + 1].fields["youtube_id"] == x;
      }
      if i :| 0 <= i < |entries| && HasYoutubeId(entries[i]) && entries[i].fields["youtube_id"] == x {
        if i > 0 {
          assert entries[1..][i - 1] == entries[i];
        }
      }
    }
  }

  /**
   * What `get_ta_playlist_videos` returns for a reply: [] when the request fails; the
   * kept `youtube_id` values of `playlist_entries` when that is a list; [] when it is a
   * dict or a string (iterating them yields strings, never dicts). A body that is not
   * a dict, or entries that cannot be iterated (None, a bool, a number), raise.
   */
  function PlaylistVideos(reply: Reply): Outcome<seq<Json>>
  {
    match reply
    case RequestFailed => Returned([])
    case Body(data) =>
      if !data.Obj? then Raised
      else
        match Get(data, "playlist_entries", Arr([]))
        case Arr(entries) => Returned(YoutubeIds(entries))
        case Obj(_) => Returned([])
        case Str(_) => Returned([])
        case _ => Raised
  }

  /** `get_ta_playlist_videos`: collects the ids of one playlist by appending in a loop. */
  method GetTaPlaylistVideos(server: Server, playlistId: Json) returns (r: Outcome<seq<Json>>)
    ensures r == PlaylistVideos(server.playlist(playlistId))
  {
    var reply := server.playlist(playlistId);
    if reply.RequestFailed? {
      return Returned([]);
    }
    var data := reply.json;
    if !data.Obj? {
      return Raised;
    }
    var entries := Get(data, "playlist_entries", Arr([]));
    match entries {
      case Arr(items) =>
        var videoIds: seq<Json> := [];
        for i := 0 to |items|
          invariant videoIds == YoutubeIds(items[..i])
        {
          var entry := items[i];
          if entry.Obj? && "youtube_id" in entry.fields {
            videoIds := videoIds + [entry.fields["youtube_id"]];
          }
          assert items[..i + 1] == items[..i] + [entry];
          YoutubeIdsConcat(items[..i], [entry]);
        }
        assert items[..|items|] == items;
        return Returned(videoIds);
      case Obj(_) =>
        return Returned([]);
      case Str(_) =>
        return Returned([]);
      case _ =>
        return Raised;
    }
  }

  const MusicPrefix: string := "MUSIC"

  /** `name.upper().startswith('MUSIC')`. */
  predicate IsMusicName(name: string)
  {
    var upper := Upper(name);
    |MusicPrefix| <= |upper| && upper[..|MusicPrefix|] == MusicPrefix
  }

  /** How one pass of the loop in `is_in_music_playlist` ends. */
  datatype Verdict = Match | NoMatch | Fail

  /**
   * One pass of the loop: the playlist must be a dict (`.get` raises otherwise), its
   * `playlist_name` (default '') a string (`.upper()` raises otherwise); a MUSIC
   * playlist with a truthy `playlist_id` has its videos fetched, and it matches when
   * they include the video id.
   */
  function Examine(server: Server, playlist: Json, videoId: string): Verdict
  {
    if !playlist.Obj? then Fail
    else
      var name := Get(playlist, "playlist_name", Str(""));
      if !name.Str? then Fail
      else if !IsMusicName(name.s) then NoMatch
      else
        var playlistId := Get(playlist, "playlist_id", Null);
        if !Truthy(playlistId) then NoMatch
        else
          match PlaylistVideos(server.playlist(playlistId))
          case Raised => Fail
          case Returned(ids) => if Str(videoId) in ids then Match else NoMatch
  }

  /** The loop with its early return; an exception ends it with False. */
  function ScanPlaylists(server: Server, playlists: seq<Json>, videoId: string): bool
    decreases |playlists|
  {
    if playlists == [] then false
    else
      match Examine(server, playlists[0], videoId)
      case Match => true
      case Fail => false
      case NoMatch => ScanPlaylists(server, playlists[1..], videoId)
  }

  /**
   * `is_in_music_playlist`. When the listing's `data` is not a list the answer is False
   * whatever it holds: iterating a dict or a string yields strings, on which `.get`
   * raises, and any other value cannot be iterated; an empty one ends the loop at once.
   */
  function IsInMusicPlaylist(server: Server, videoId: string): bool
  {
    match GetTaPlaylists(server)
    case Raised => false
    case Returned(data) => data.Arr? && ScanPlaylists(server, data.items, videoId)
  }

  /** A playlist qualifies for a video: the three conditions, stated on their own. */
  predicate Qualifies(server: Server, playlist: Json, videoId: string)
  {
    && playlist.Obj?
    && var name := Get(playlist, "playlist_name", Str(""));
    && name.Str? && IsMusicName(name.s)
    && var playlistId := Get(playlist, "playlist_id", Null);
    && Truthy(playlistId)
    && var listed := PlaylistVideos(server.playlist(playlistId));
    && listed.Returned? && Str(videoId) in listed.value
  }

  /**
   * Examining a playlist raises: it is not a dict, its name is not a string, or it is a
   * MUSIC playlist with an id whose video listing raises.
   */
  predicate Raises(server: Server, playlist: Json)
  {
    || !playlist.Obj?
    || !Get(playlist, "playlist_name", Str("")).Str?
    || (&& IsMusicName(Get(playlist, "playlist_name", Str("")).s)
        && Truthy(Get(playlist, "playlist_id", Null))
        && PlaylistVideos(server.playlist(Get(playlist, "playlist_id", Null))).Raised?)
  }

  lemma ExamineCases(server: Server, playlist: Json, videoId: string)
    ensures Examine(server, playlist, videoId) == Match <==> Qualifies(server, playlist, videoId)
    ensures Examine(server, playlist, videoId) == Fail <==> Raises(server, playlist)
  {
  }

  /**
   * The scan answers True exactly when some playlist qualifies and no playlist before it
   * raises; an exception before the first qualifying playlist makes the answer False.
   */
  lemma {:induction false} ScanPlaylistsIff(server: Server, playlists: seq<Json>, videoId: string)
    ensures ScanPlaylists(server, playlists, videoId) <==>
      exists i :: 0 <= i < |playlists| && Qualifies(server, playlists[i], videoId) &&
        forall k :: 0 <= k < i ==> !Raises(server, playlists[k])
    decreases |playlists|
  {
    if playlists != [] {
      var p := playlists[0];
      var rest := playlists[1..];
      ExamineCases(server, p, videoId);
      match Examine(server, p, videoId)
      case Match =>
        assert Qualifies(server, playlists[0], videoId);
      case Fail =>
      case NoMatch =>
        ScanPlaylistsIff(server, rest, videoId);
        if ScanPlaylists(server, rest, videoId) {
          var i :| 0 <= i < |rest| && Qualifies(server, rest[i], videoId) &&
            (forall k :: 0 <= k < i ==> !Raises(server, rest[k]));
          assert Qualifies(server, playlists[i + 1], videoId);
          forall k | 0 <= k < i + 1
            ensures !Raises(server, playlists[k])
          {
            if k > 0 {
              assert playlists[k] == rest[k - 1];
            }
          }
        }
        if i :| (0 <= i < |playlists| && Qualifies(server, playlists[i], videoId) &&
                 forall k :: 0 <= k < i ==> !Raises(server, playlists[k])) {
          assert i != 0;
          assert Qualifies(server, rest[i - 1], videoId);
          forall k | 0 <= k < i - 1
            ensures !Raises(server, rest[k])
          {
            assert rest[k] == playlists[k + 1];
          }
        }
    }
  }

  /**
   * `is_in_music_playlist` in full: True exactly when the listing is a list in which some
   * playlist qualifies (a MUSIC name, a truthy id, the video among its entries) and no
   * earlier playlist raises.
   */
  lemma IsInMusicPlaylistIff(server: Server, videoId: string)
    ensures IsInMusicPlaylist(server, videoId) <==>
      && GetTaPlaylists(server).Returned?
      && GetTaPlaylists(server).value.Arr?
      && var playlists := GetTaPlaylists(server).value.items;
      && exists i :: 0 <= i < |playlists| && Qualifies(server, playlists[i], videoId) &&
          forall k :: 0 <= k < i ==> !Raises(server, playlists[k])
  {
    if GetTaPlaylists(server).Returned? && GetTaPlaylists(server).value.Arr? {
      ScanPlaylistsIff(server, GetTaPlaylists(server).value.items, videoId);
    }
  }

  /** When no playlist raises, the answer is True exactly when some playlist qualifies. */
  lemma WellFormedIsInMusicPlaylistIff(server: Server, videoId: string, playlists: seq<Json>)
    requires GetTaPlaylists(server) == Returned(Arr(playlists))
    requires forall k :: 0 <= k < |playlists| ==> !Raises(server, playlists[k])
    ensures IsInMusicPlaylist(server, videoId) <==>
      exists i :: 0 <= i < |playlists| && Qualifies(server, playlists[i], videoId)
  {
    IsInMusicPlaylistIff(server, videoId);
  }

  /**
   * The example of a MUSIC2025 playlist holding "abc123" beside an OTHER playlist holding
   * "xyz999": the first video is in a MUSIC playlist, the second is not.
   */
  lemma MusicPlaylistExample()
    ensures var music := Obj(map["playlist_name" := Str("MUSIC2025"), "playlist_id" := Str("p1")]);
      var other := Obj(map["playlist_name" := Str("OTHER"), "playlist_id" := Str("p2")]);
      var entries := (id: string) => Body(Obj(map["playlist_entries" := Arr([Obj(map["youtube_id" := Str(id)])])]));
      var server := Server(
        Body(Obj(map["data" := Arr([music, other])])),
        (playlistId: Json) => if playlistId == Str("p1") then entries("abc123") else entries("xyz999"),
        (videoId: string) => RequestFailed);
      IsInMusicPlaylist(server, "abc123") && !IsInMusicPlaylist(server, "xyz999")
  {
    var music := Obj(map["playlist_name" := Str("MUSIC2025"), "playlist_id" := Str("p1")]);
    var other := Obj(map["playlist_name" := Str("OTHER"), "playlist_id" := Str("p2")]);
    assert IsMusicName("MUSIC2025") by {
      assert Upper("MUSIC2025")[..5] == MusicPrefix;
    }
    assert !IsMusicName("OTHER") by {
      assert Upper("OTHER")[0] == 'O';
    }
    assert YoutubeIds([Obj(map["youtube_id" := Str("abc123")])]) == [Str("abc123")];
    assert YoutubeIds([Obj(map["youtube_id" := Str("xyz999")])]) == [Str("xyz999")];
  }
}
