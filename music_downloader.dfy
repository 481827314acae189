/**
 * `MusicDownloader`: the per-file pipeline. A video file that is new to the ledger and
 * sits in a MUSIC playlist has its audio fetched by yt-dlp into the music library, and
 * its content hash is recorded once the mp3 is there.
 *
 * The outside world is abstract: the filesystem is a map from path to file, the SQLite
 * ledger is a set of hashes with a flag for whether the store can be reached, the API
 * is a `Server` of fixed replies, and one run of yt-dlp is given as its outcome.
 */
module Downloader {
  import opened Outcomes
  import opened JsonValues
  import opened PathNames
  import opened Sanitize
  import opened TubeArchivist

  /**
   * A file as the pipeline sees it: its size, and what `_get_file_hash` yields for it
   * (the hex md5 of its bytes, or "" when reading it fails).
   */
  datatype FileEntry = FileEntry(size: nat, md5: string)

  /** The files the process can see, input and output directories alike. */
  class FileSystem {
    var files: map<Path, FileEntry>

    constructor (files: map<Path, FileEntry>)
      ensures this.files == files
    {
      this.files := files;
    }
  }

  /** How the yt-dlp subprocess ended (`check=True`, `timeout=3600`). */
  datatype ExitStatus = ExitedZero | ExitedNonZero | TimedOut | LaunchFailed

  /** One run of yt-dlp: how it ended, and the file it left at the expected mp3 path, if any. */
  datatype ToolRun = ToolRun(status: ExitStatus, written: Option<FileEntry>)

  const ExtPlaceholder: string := "%(ext)s"

  /** Python's `s.replace(pat, rep)`: every non-overlapping occurrence, left to right. */
  function ReplaceAll(s: string, pat: string, rep: string): string
    requires pat != []
    decreases |s|
  {
    if |s| < |pat| then s
    else if s[..|pat|] == pat then rep + ReplaceAll(s[|pat|..], pat, rep)
    else [s[0]] + ReplaceAll(s[1..], pat, rep)
  }

  /** `pat` occurs in `s` at position `k`. */
  predicate MatchAt(s: string, k: int, pat: string)
  {
    0 <= k && k + |pat| <= |s| && s[k..k + |pat|] == pat
  }

  /** A match in the tail of a text is a match one position further on in the text. */
  lemma MatchAtTail(s: string, k: nat, pat: string)
    requires s != []
    ensures MatchAt(s[1..], k, pat) <==> MatchAt(s, k + 1, pat)
  {
    if k + |pat| <= |s[1..]| {
      assert s[1..][k..k + |pat|] == s[k + 1..k + 1 + |pat|];
    }
  }

  /** Dropping the first character of a match-free prefix leaves a match-free prefix. */
  lemma MatchFreeTail(s: string, t: string, pat: string)
    requires s != []
    requires forall k :: 0 <= k < |s| ==> !MatchAt(s + t, k, pat)
    ensures forall k :: 0 <= k < |s[1..]| ==> !MatchAt(s[1..] + t, k, pat)
  {
    var st := s + t;
    assert st[1..] == s[1..] + t;
    forall k | 0 <= k < |s[1..]|
      ensures !MatchAt(s[1..] + t, k, pat)
    {
      MatchAtTail(st, k, pat);
    }
  }

  /** Where `pat` does not start at the head, the first character is copied and replacing goes on after it. */
  lemma ReplaceAllCopiesUnmatchedHead(s: string, pat: string, rep: string)
    requires pat != [] && s != [] && !MatchAt(s, 0, pat)
    ensures ReplaceAll(s, pat, rep) == [s[0]] + ReplaceAll(s[1..], pat, rep)
  {
    if |s| < |pat| {
      assert ReplaceAll(s[1..], pat, rep) == s[1..];
      assert [s[0]] + s[1..] == s;
    }
  }

  /**
   * A prefix at none of whose positions the pattern starts is copied through unchanged,
   * and the replacing goes on in what follows it.
   */
  lemma {:induction false} ReplaceAllSkipsMatchFreePrefix(s: string, t: string, pat: string, rep: string)
    requires pat != []
    requires forall k :: 0 <= k < |s| ==> !MatchAt(s + t, k, pat)
    ensures ReplaceAll(s + t, pat, rep) == s + ReplaceAll(t, pat, rep)
    decreases |s|
  {
    if s != [] {
      var st := s + t;
      MatchFreeTail(s, t, pat);
      ReplaceAllSkipsMatchFreePrefix(s[1..], t, pat, rep);
      assert !MatchAt(st, 0, pat);
      ReplaceAllCopiesUnmatchedHead(st, pat, rep);
      assert st[1..] == s[1..] + t;
      assert st[0] == s[0] && [s[0]] + s[1..] == s;
    } else {
      assert s + t == t;
    }
  }

  /** The base name of the output: the sanitised title when the title is truthy, else the video id. */
  function OutputName(youtubeId: string, videoTitle: Option<string>): string
  {
    if videoTitle.Some? && videoTitle.value != [] then SanitizeFilename(videoTitle.value) else youtubeId
  }

  /** The `--output` template handed to yt-dlp. */
  function OutputTemplate(dir: Path, youtubeId: string, videoTitle: Option<string>): Path
  {
    Join(dir, OutputName(youtubeId, videoTitle) + "." + ExtPlaceholder)
  }

  /** `expected_mp3_path`: the template with every `%(ext)s` replaced by `mp3`. */
  function ExpectedMp3Path(dir: Path, youtubeId: string, videoTitle: Option<string>): Path
  {
    ReplaceAll(OutputTemplate(dir, youtubeId, videoTitle), ExtPlaceholder, "mp3")
  }

  /**
   * When `%(ext)s` does not occur in the joined path of the base name, the expected
   * path is the base name with ".mp3" in the music directory. A '%' elsewhere, as in a
   * title such as "100% Pure", does not matter.
   */
  lemma {:induction false} ExpectedMp3PathIsNameDotMp3(dir: Path, youtubeId: string, videoTitle: Option<string>)
    requires forall k :: !MatchAt(Join(dir, OutputName(youtubeId, videoTitle)), k, ExtPlaceholder)
    ensures ExpectedMp3Path(dir, youtubeId, videoTitle) == Join(dir, OutputName(youtubeId, videoTitle) + ".mp3")
  {
    var name := OutputName(youtubeId, videoTitle);
    JoinAppend(dir, name, ".");
    JoinAppend(dir, name + ".", ExtPlaceholder);
    JoinAppend(dir, name, ".mp3");
    PlaceholderAfterDot(Join(dir, name));
  }

  /** Text appended to the name ends up appended to the joined path. */
  lemma JoinAppend(dir: Path, name: string, x: string)
    ensures Join(dir, name + x) == Join(dir, name) + x
  {
    if dir == [] || dir == "." {
    } else if dir[|dir| - 1] == '/' {
      assert dir + (name + x) == dir + name + x;
    } else {
      assert dir + "/" + (name + x) == dir + "/" + name + x;
    }
  }

  /** In `p.%(ext)s`, with no `%(ext)s` in `p`, only the final placeholder is replaced. */
  lemma {:induction false} PlaceholderAfterDot(p: string)
    requires forall k :: !MatchAt(p, k, ExtPlaceholder)
    ensures ReplaceAll(p + "." + ExtPlaceholder, ExtPlaceholder, "mp3") == p + ".mp3"
  {
    var prefix := p + ".";
    var st := prefix + ExtPlaceholder;
    var n := |ExtPlaceholder|;
    forall k | 0 <= k < |prefix|
      ensures !MatchAt(st, k, ExtPlaceholder)
    {
      if k + n <= |p| {
        assert st[k..k + n] == p[k..k + n];
        assert !MatchAt(p, k, ExtPlaceholder);
      } else if k + n <= |st| {
        var j := |p| - k;
        assert st[k..k + n][j] == st[|p|] == '.';
        assert ExtPlaceholder[j] != '.';
      }
    }
    ReplaceAllSkipsMatchFreePrefix(prefix, ExtPlaceholder, ExtPlaceholder, "mp3");
    assert ReplaceAll(ExtPlaceholder, ExtPlaceholder, "mp3") == "mp3" + ReplaceAll([], ExtPlaceholder, "mp3");
    assert p + "." + ExtPlaceholder == st;
    assert prefix + "mp3" == p + ".mp3";
  }

  /** The command line `_download_mp3_with_thumbnail` runs. */
  function YtDlpCommand(youtubeId: string, template: Path): seq<string>
  {
    ["yt-dlp", "-x", "--audio-format", "mp3", "--audio-quality", "0", "--embed-thumbnail",
     "--output", template, "https://www.youtube.com/watch?v=" + youtubeId]
  }

  /** The files after a download: untouched when the mp3 was there, else with what yt-dlp left. */
  function FilesAfterFetch(files: map<Path, FileEntry>, expected: Path, run: ToolRun): map<Path, FileEntry>
  {
    if expected in files || run.written.None? then files else files[expected := run.written.value]
  }

  /**
   * Whether the download returns the expected path: it existed already, or yt-dlp exited
   * with status 0 and the file exists afterwards.
   */
  predicate Fetched(files: map<Path, FileEntry>, expected: Path, run: ToolRun)
  {
    expected in files || (run.status == ExitedZero && run.written.Some?)
  }

  /**
   * The title `process_video` passes on: `info.get('title') or info.get('video_title')`
   * when the video info is truthy, None when the request failed or the info is empty.
   * A truthy info that is not a dict makes `.get` raise; a truthy title that is not a
   * string makes `_sanitize_filename` raise, since `re.sub` needs a string. A falsy
   * title of any kind means no title.
   */
  function ChooseTitle(info: Option<Json>): (r: Outcome<Option<string>>)
    ensures r.Returned? && r.value.Some? ==> r.value.value != []
    ensures r.Returned? && r.value.Some? ==>
      info.Some? && info.value.Obj? &&
      (Get(info.value, "title", Null) == Str(r.value.value) ||
       (!Truthy(Get(info.value, "title", Null)) && Get(info.value, "video_title", Null) == Str(r.value.value)))
    ensures info.Some? && info.value.Obj? && Get(info.value, "title", Null).Str? && Get(info.value, "title", Null).s != [] ==>
      r == Returned(Some(Get(info.value, "title", Null).s))
    ensures (info.Some? && info.value.Obj? && !Truthy(Get(info.value, "title", Null)) &&
             Get(info.value, "video_title", Null).Str? && Get(info.value, "video_title", Null).s != []) ==>
      r == Returned(Some(Get(info.value, "video_title", Null).s))
    ensures r.Raised? <==>
      info.Some? && Truthy(info.value) &&
      (!info.value.Obj? ||
       (Truthy(Get(info.value, "title", Null)) && !Get(info.value, "title", Null).Str?) ||
       (!Truthy(Get(info.value, "title", Null)) && Truthy(Get(info.value, "video_title", Null)) &&
        !Get(info.value, "video_title", Null).Str?))
  {
    if info.None? || !Truthy(info.value) then Returned(None)
    else if !info.value.Obj? then Raised
    else
      var title := Get(info.value, "title", Null);
      var chosen := if Truthy(title) then title else Get(info.value, "video_title", Null);
      if !Truthy(chosen) then Returned(None)
      else if chosen.Str? then Returned(Some(chosen.s))
      else Raised
  }

  /** Where `process_video` ends up for a file, given the state before the call. */
  datatype Decision =
    | Skip                                                            // returns False, touches nothing
    | Crash                                                           // an exception escapes, nothing touched
    | Fetch(videoId: string, title: Option<string>, fileHash: string) // the download runs

  /** The files, the ledger and the commands run: what `process_video` may change. */
  datatype Effects = Effects(files: map<Path, FileEntry>, downloaded: set<string>, launched: seq<seq<string>>)

  /**
   * What one call of `process_video` does, given where its gate chain ends (`d`) and the
   * state before the call: a skipped or crashing call changes nothing; a fetching call
   * downloads as `_download_mp3_with_thumbnail` does and records the hash only when the
   * mp3 is in place and the ledger is reachable.
   */
  ghost predicate ProcessedVideo(dir: Path, storeReachable: bool, d: Decision, before: Effects,
                                 run: ToolRun, r: Outcome<bool>, after: Effects)
  {
    match d
    case Skip => r == Returned(false) && after == before
    case Crash => r == Raised && after == before
    case Fetch(videoId, title, fileHash) =>
      var expected := ExpectedMp3Path(dir, videoId, title);
      var ok := Fetched(before.files, expected, run);
      && after.files == FilesAfterFetch(before.files, expected, run)
      && after.launched == before.launched +
           (if expected in before.files then [] else [YtDlpCommand(videoId, OutputTemplate(dir, videoId, title))])
      && r == Returned(ok)
      && after.downloaded == (if ok && storeReachable then before.downloaded + {fileHash} else before.downloaded)
  }

  /**
   * The ledger only ever gains the hash of the file just processed, and only when the
   * call reports success; a reported success means the download ran and left its mp3.
   */
  lemma ProcessedVideoLedger(dir: Path, storeReachable: bool, d: Decision, before: Effects,
                             run: ToolRun, r: Outcome<bool>, after: Effects)
    requires ProcessedVideo(dir, storeReachable, d, before, run, r, after)
    ensures after.downloaded != before.downloaded ==>
      r == Returned(true) && d.Fetch? && after.downloaded == before.downloaded + {d.fileHash}
    ensures r == Returned(true) ==> d.Fetch? && ExpectedMp3Path(dir, d.videoId, d.title) in after.files
    ensures !d.Fetch? ==> after == before
    ensures r.Raised? <==> d.Crash?
    ensures d.Skip? ==> r == Returned(false)
  {
  }

  class MusicDownloader {
    const navidromeDir: Path
    const api: Option<Server>
    const fs: FileSystem
    /** The `mp3_downloaded_videos` table: the hashes of the videos whose mp3 was fetched. */
    var downloaded: set<string>
    /** False while the SQLite store cannot be opened or queried. */
    var storeReachable: bool
    /** The yt-dlp command lines started so far, in order (kept for the proofs only). */
    ghost var launched: seq<seq<string>>

    constructor (navidromeDir: Path, api: Option<Server>, fs: FileSystem, downloaded: set<string>, storeReachable: bool)
      ensures this.navidromeDir == navidromeDir && this.api == api && this.fs == fs
      ensures this.downloaded == downloaded && this.storeReachable == storeReachable && launched == []
    {
      this.navidromeDir := navidromeDir;
      this.api := api;
      this.fs := fs;
      this.downloaded := downloaded;
      this.storeReachable := storeReachable;
      launched := [];
    }

    /** `_get_file_hash`: a file that has gone reads as a failure too. */
    function FileHash(p: Path): (h: string)
      reads fs
      ensures p in fs.files ==> h == fs.files[p].md5
      ensures p !in fs.files ==> h == ""
      ensures h != "" ==> p in fs.files && h == fs.files[p].md5
    {
      if p in fs.files then fs.files[p].md5 else ""
    }

    /** `is_mp3_downloaded`: a storage error reads as "not downloaded". */
    method IsMp3Downloaded(fileHash: string) returns (found: bool)
      ensures found <==> storeReachable && fileHash in downloaded
    {
      if !storeReachable {
        return false;
      }
      found := fileHash in downloaded;
    }

    /** `mark_as_mp3_downloaded`: `INSERT OR IGNORE`; a storage error is logged and dropped. */
    method MarkAsMp3Downloaded(fileHash: string)
      modifies this`downloaded
      ensures downloaded == if storeReachable then old(downloaded) + {fileHash} else old(downloaded)
      ensures fileHash in old(downloaded) ==> downloaded == old(downloaded)
      ensures storeReachable ==> fileHash in downloaded
    {
      if storeReachable {
        downloaded := downloaded + {fileHash};
      }
    }

    /** `_get_mp3_downloaded_count`: `SELECT COUNT(*)`, or 0 on a storage error. */
    method GetMp3DownloadedCount() returns (count: nat)
      ensures count == if storeReachable then |downloaded| else 0
    {
      count := if storeReachable then |downloaded| else 0;
    }

    /**
     * `_download_mp3_with_thumbnail`. An mp3 already at the expected path is returned at
     * once and nothing runs; otherwise yt-dlp runs once, and the path is returned only if
     * it exited with status 0 and the file is there afterwards.
     */
    method DownloadMp3WithThumbnail(youtubeId: string, videoTitle: Option<string>, run: ToolRun)
      returns (mp3: Option<Path>)
      modifies fs, this`launched
      ensures var expected := ExpectedMp3Path(navidromeDir, youtubeId, videoTitle);
        && fs.files == FilesAfterFetch(old(fs.files), expected, run)
        && mp3 == (if Fetched(old(fs.files), expected, run) then Some(expected) else None)
        && launched == old(launched) +
             (if expected in old(fs.files) then [] else [YtDlpCommand(youtubeId, OutputTemplate(navidromeDir, youtubeId, videoTitle))])
      ensures mp3.Some? ==> mp3.value in fs.files
    {
      var template := OutputTemplate(navidromeDir, youtubeId, videoTitle);
      var expected := ReplaceAll(template, ExtPlaceholder, "mp3");
      if expected in fs.files {
        return Some(expected);
      }
      launched := launched + [YtDlpCommand(youtubeId, template)];
      if run.written.Some? {
        fs.files := fs.files[expected := run.written.value];
      }
      if run.status == ExitedZero && expected in fs.files {
        mp3 := Some(expected);
      } else {
        mp3 := None;
      }
    }

    /** The gate chain of `process_video`, in the order the source applies it. */
    function Decide(videoPath: Path): Decision
      reads this, fs
    {
      if videoPath !in fs.files || !IsVideoFile(videoPath) then Skip
      else
        var fileHash := FileHash(videoPath);
        if fileHash == "" || (storeReachable && fileHash in downloaded) || api.None? then Skip
        else
          match ExtractVideoId(videoPath)
          case None => Skip
          case Some(videoId) =>
            if !IsInMusicPlaylist(api.value, videoId) then Skip
            else
              match ChooseTitle(GetTaVideoInfo(api.value, videoId))
              case Raised => Crash
              case Returned(title) => Fetch(videoId, title, fileHash)
    }

    /**
     * The download runs exactly when every gate passes: the file exists and is a video,
     * its hash could be computed and is not in a reachable ledger, the API is configured,
     * the video (named by the file's stem) is in a MUSIC playlist, and its info does not
     * raise. The stem check of the source never fails past the extension check.
     */
    lemma FetchOnlyPastEveryGate(videoPath: Path)
      ensures Decide(videoPath).Fetch? <==>
        && videoPath in fs.files && IsVideoFile(videoPath)
        && FileHash(videoPath) != ""
        && !(storeReachable && FileHash(videoPath) in downloaded)
        && api.Some?
        && IsInMusicPlaylist(api.value, Stem(videoPath))
        && ChooseTitle(GetTaVideoInfo(api.value, Stem(videoPath))).Returned?
      ensures Decide(videoPath) == Crash <==>
        && videoPath in fs.files && IsVideoFile(videoPath)
        && FileHash(videoPath) != ""
        && !(storeReachable && FileHash(videoPath) in downloaded)
        && api.Some?
        && IsInMusicPlaylist(api.value, Stem(videoPath))
        && ChooseTitle(GetTaVideoInfo(api.value, Stem(videoPath))).Raised?
      ensures Decide(videoPath).Fetch? ==>
        Decide(videoPath).videoId == Stem(videoPath) && Decide(videoPath).fileHash == FileHash(videoPath)
    {
      if videoPath in fs.files && IsVideoFile(videoPath) {
        VideoFileHasVideoId(videoPath);
      }
    }

    /** A file whose content a reachable ledger already holds is skipped, whatever else holds. */
    lemma RecordedContentSkipped(videoPath: Path)
      requires storeReachable && FileHash(videoPath) in downloaded
      ensures Decide(videoPath) == Skip
    {
    }

    /** The part of the downloader's state that `process_video` may change. */
    ghost function Snapshot(): Effects
      reads this, fs
    {
      Effects(fs.files, downloaded, launched)
    }

    /**
     * What `process_video` does once its checks are done: nothing for a skipped file, an
     * exception for a crash, and otherwise the download, recorded in the ledger when the
     * mp3 is in place.
     */
    method ActOn(d: Decision, run: ToolRun) returns (r: Outcome<bool>)
      modifies this`downloaded, this`launched, fs
      ensures ProcessedVideo(navidromeDir, storeReachable, d, old(Snapshot()), run, r, Snapshot())
    {
      match d
      case Skip =>
        return Returned(false);
      case Crash =>
        return Raised;
      case Fetch(videoId, title, fileHash) =>
        var mp3 := DownloadMp3WithThumbnail(videoId, title, run);
        if mp3.Some? && mp3.value in fs.files {
          MarkAsMp3Downloaded(fileHash);
          return Returned(true);
        }
        return Returned(false);
    }

    /**
     * `process_video`. The ledger is written only after a download that left the mp3 in
     * place, and a file that fails a gate is rejected with nothing touched and no command run.
     */
    method ProcessVideo(videoPath: Path, run: ToolRun) returns (r: Outcome<bool>)
      modifies this`downloaded, this`launched, fs
      ensures ProcessedVideo(navidromeDir, storeReachable, old(Decide(videoPath)), old(Snapshot()), run, r, Snapshot())
    {
      var d := Decide(videoPath);
      r := ActOn(d, run);
    }
  }
}
