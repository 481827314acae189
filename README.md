# ta2music core, modelled in Dafny

ta2music watches the directory where TubeArchivist stores downloaded videos. When a
new video file appears, it checks the file against a chain of gates:

- the file is a video,
- its content hash is not yet in a SQLite ledger,
- the video is listed in a TubeArchivist playlist whose name starts with "MUSIC".

If every gate passes, it fetches the same video's audio with yt-dlp as an MP3 for
Navidrome and records the hash. While the ledger can be read, a file whose hash is
recorded is skipped. A ledger that cannot be read counts as "not recorded", and a
failed write is dropped while the call still reports success, so content can be
fetched again then.

This project models the core of `main.py` and proves properties of it:

| file | module | models |
|---|---|---|
| `outcomes.dfy` | `Outcomes`, `AsciiCase` | `X \| None`, a call that returns or raises, ASCII `str.lower`/`str.upper` |
| `path_names.dfy` | `PathNames` | pathlib's name, suffix and stem; `_is_video_file`; `_extract_video_id` |
| `sanitize.dfy` | `Sanitize` | `_sanitize_filename` |
| `json_values.dfy` | `JsonValues` | decoded JSON bodies, Python truthiness, `dict.get` |
| `tube_archivist.dfy` | `TubeArchivist` | `get_ta_playlists`, `get_ta_video_info`, `get_ta_playlist_videos`, `is_in_music_playlist` |
| `music_downloader.dfy` | `Downloader` | the `MusicDownloader` class: the ledger, `_download_mp3_with_thumbnail`, `process_video` |
| `video_file_handler.dfy` | `Watcher` | the `VideoFileHandler` class: `on_created`, `_process_file` |

The pure parts are functions and lemmas. The source's stateful objects are classes:

- `MusicDownloader` holds the ledger as a `set` of hashes. A flag says whether the
  SQLite store is reachable.
- `FileSystem` holds a map from path to (size, md5).
- `VideoFileHandler` holds the in-flight set `processing`.

Their methods update those fields.

Exceptions that escape a call are the `Raised` outcome. The TubeArchivist server is
a value of type `Server`: it gives one reply to the playlist listing, one per playlist
id and one per video id. A reply is either a decoded body or a failed request. One
yt-dlp run is a `ToolRun` value: its exit status and the file it left behind, if any.
The ghost field `launched` logs the yt-dlp command lines started, so the proofs can say
when a download runs.

Three behaviours of the code are easy to misread:

- A title made only of illegal characters becomes underscores, not "untitled":
  each such character is replaced by `_`, and `_` survives the strip
  (`Sanitize.AllIllegalBecomesUnderscores`).
- The cut to 200 characters comes after the strip. A sanitised name can therefore end
  in a space or a dot (`Sanitize.TruncationCanLeaveTrailingPadding`).
- The extension allow-list is checked inside `process_video`, after the settle wait and
  the size check, not when the event arrives.

## Model

| member | source | states |
|---|---|---|
| `PathNames.SuffixOf` | main.py:224-228 | `Path.suffix` of a name is its tail: empty, or a dot followed by at least one non-dot character, with something before it; it is non-empty exactly when the name does not end in a dot and has a dot after its first character |
| `PathNames.StemOf` | main.py:230-244 | stem followed by suffix is the whole name; the stem is empty only for an empty name |
| `PathNames.IsVideoFileIff` | main.py:224-228 | `_is_video_file` holds exactly when the name ends, ignoring ASCII case, in one of the seven allowed extensions with at least one character before it |
| `PathNames.ExtractVideoId` | main.py:230-244 | `_extract_video_id` gives the stem, which holds no '/', and gives None only for an empty name |
| `PathNames.VideoFileHasVideoId` | main.py:349-352 | once the extension gate passed, the id is never None, so the "no video id" return in `process_video` cannot be reached |
| `PathNames.NameOfJoin` | main.py:266-270 | joining a one-component name onto a directory and taking the final component gives the name back |
| `Sanitize.ReplaceIllegal` | main.py:249-250 | `re.sub` keeps the length, puts '_' exactly where an illegal character stood and leaves every other character in place |
| `Sanitize.LStrip` | main.py:252 | `lstrip(' .')` removes a prefix made only of spaces and dots and leaves text that does not start with one |
| `Sanitize.RStrip` | main.py:252 | `rstrip(' .')` removes a suffix made only of spaces and dots and leaves text that does not end with one |
| `Sanitize.SanitizeFilename` | main.py:246-256 | the name is never empty, has at most 200 characters and holds no illegal character |
| `Sanitize.StrippedEmptyIff` | main.py:252-256 | nothing is left after stripping exactly when the title is made only of spaces and dots |
| `Sanitize.OnlySpacesAndDotsFallBack` | main.py:256 | such a title, the empty title included, becomes "untitled" |
| `Sanitize.SanitizeReplacesInPlace` | main.py:246-256 | for a title not starting with a space or dot, the name is a prefix of the title with illegal characters turned into '_' in place (replaced, not dropped); it keeps min(length, 200) characters when the title does not end with a space or dot either |
| `Sanitize.LeadingPaddingIgnored` | main.py:246-256 | spaces and dots in front of a title do not change its name, so with `SanitizeReplacesInPlace` every title's name is its replaced text in place |
| `Sanitize.ReplaceIllegalConcat` | main.py:249-250 | `re.sub` works character by character, so it distributes over concatenation |
| `Sanitize.LStripSkipsPadding` | main.py:252 | `lstrip(' .')` removes a leading run of spaces and dots completely |
| `Sanitize.PaddingIsLegal` | main.py:249-250 | `re.sub` leaves spaces and dots as they are |
| `Sanitize.SameStripSameName` | main.py:250-256 | two titles whose replaced and stripped texts agree get the same name |
| `Sanitize.AllIllegalBecomesUnderscores` | main.py:249-256 | an all-illegal title becomes min(length, 200) underscores |
| `Sanitize.CleanNameUnchanged` | main.py:246-256 | a legal, unpadded name of at most 200 characters is kept as it is |
| `Sanitize.FallbackUnchanged` | main.py:256 | "untitled" sanitises to itself |
| `Sanitize.StripLeavesNoPadding` | main.py:252 | after `strip(' .')` the text neither starts nor ends with a space or dot |
| `Sanitize.StripShrinksEndPadded` | main.py:252 | text that ends in a space or dot loses at least that character to the strip |
| `Sanitize.SanitizeIdempotentWithinCap` | main.py:246-256 | when stripping leaves at most 200 characters, sanitising the result again changes nothing |
| `Sanitize.EndPaddedNameShrinks` | main.py:252-256 | a name ending in a space or dot sanitises to something shorter, or to "untitled" |
| `Sanitize.TruncationCanLeaveTrailingPadding` | main.py:252-255 | a long unpadded title whose 200th character is a space or dot keeps that character last, and sanitising that name again changes it |
| `TubeArchivist.GetTaPlaylists` | main.py:55-68 | a failed request gives []; a dict body gives its "data" entry, or [] without one; it raises exactly when the body is not a dict |
| `TubeArchivist.GetTaVideoInfo` | main.py:41-53 | None exactly when the request fails; otherwise the decoded body as it came |
| `TubeArchivist.YoutubeIds` | main.py:81-84 | the filtered ids are never more than the entries |
| `TubeArchivist.YoutubeIdsConcat` | main.py:81-84 | filtering distributes over concatenation, so kept ids stay in entry order |
| `TubeArchivist.YoutubeIdsMembership` | main.py:81-84 | a value is listed exactly when some dict entry holds it under `youtube_id` |
| `TubeArchivist.GetTaPlaylistVideos` | main.py:70-89 | the append loop returns exactly the kept ids of `playlist_entries` in order; [] on a failed request or on dict or string entries; it raises on a non-dict body or on entries that cannot be iterated |
| `TubeArchivist.ExamineCases` | main.py:97-107 | one pass of the loop matches exactly when the playlist qualifies, and raises exactly when the playlist is not a dict, its name is not a string, or its video listing raises |
| `TubeArchivist.ScanPlaylistsIff` | main.py:96-109 | the loop answers True exactly when some playlist qualifies and no earlier playlist raises |
| `TubeArchivist.IsInMusicPlaylistIff` | main.py:55-113 | `is_in_music_playlist` is True exactly when the listing is a list with a qualifying playlist and no raising playlist before it; any exception gives False |
| `TubeArchivist.WellFormedIsInMusicPlaylistIff` | main.py:91-113 | when no playlist raises, the answer is True exactly when some playlist is MUSIC-named, has a truthy id and lists the video |
| `TubeArchivist.MusicPlaylistExample` | main.py:91-113 | a video in MUSIC2025 is accepted; a video only in OTHER is not |
| `Downloader.ReplaceAllSkipsMatchFreePrefix` | main.py:273 | `str.replace` copies a prefix at none of whose positions the pattern starts unchanged and goes on replacing after it |
| `Downloader.PlaceholderAfterDot` | main.py:273 | replacing `%(ext)s` in a path without that pattern, followed by ".%(ext)s", gives the path plus ".mp3" |
| `Downloader.ExpectedMp3PathIsNameDotMp3` | main.py:263-273 | when `%(ext)s` does not occur in the joined base path, the expected path is the base name plus ".mp3" in the music directory; other '%' signs, as in "100% Pure", do not matter |
| `Downloader.ChooseTitle` | main.py:360-368 | a truthy string "title" is chosen; failing that, a truthy string "video_title"; any other returned title is None; it raises exactly when the info is truthy but not a dict (`.get` fails), or the chosen value is truthy but not a string (the failure then comes from `re.sub` when the title is sanitised at main.py:265, and is accounted here) |
| `Downloader.ProcessedVideoLedger` | main.py:369-378 | the ledger only gains the processed file's hash, and only when the call reports success; success means the download ran and its mp3 exists; the call raises exactly when the gate decision is a crash; a skip returns False; a skipped or crashing call changes nothing |
| `Downloader.MusicDownloader.constructor` | main.py:119-123 | the downloader starts with the given directory, API, files and ledger, and no command run |
| `Downloader.MusicDownloader.FileHash` | main.py:212-222 | an existing file hashes to its md5; a file that is not there hashes to ""; a non-empty hash is the md5 of the file at that path |
| `Downloader.MusicDownloader.IsMp3Downloaded` | main.py:183-195 | found exactly when the store is reachable and the hash is in the ledger; a storage error reads as "not downloaded" |
| `Downloader.MusicDownloader.MarkAsMp3Downloaded` | main.py:197-210 | `INSERT OR IGNORE`: the ledger gains the hash when the store is reachable; inserting a present hash changes nothing; a storage error leaves the ledger as it was |
| `Downloader.MusicDownloader.GetMp3DownloadedCount` | main.py:170-181 | the count is the ledger's size, or 0 on a storage error |
| `Downloader.MusicDownloader.DownloadMp3WithThumbnail` | main.py:258-322 | an existing mp3 is returned at once and nothing runs; otherwise the exact yt-dlp command runs once, and the path is returned only on exit status 0 with the file present |
| `Downloader.MusicDownloader.FetchOnlyPastEveryGate` | main.py:324-367 | the download runs exactly when the file exists and is a video, its hash was computed and is not in a reachable ledger, the API is configured, the video is in a MUSIC playlist and its info does not raise; the decision is a crash exactly when all those gates pass and reading the info or title raises; the video id is the file's stem |
| `Downloader.MusicDownloader.RecordedContentSkipped` | main.py:340-342 | a file whose hash a reachable ledger already holds is skipped |
| `Downloader.MusicDownloader.ActOn` | main.py:369-378 | after the checks, the call downloads and records the hash only when the mp3 is in place and the store is reachable; a skip changes nothing |
| `Downloader.MusicDownloader.ProcessVideo` | main.py:324-381 | `process_video` changes the files, the ledger and the command log exactly as its gate decision says, with the outcome that decision gives |
| `Watcher.VideoFileHandler.constructor` | main.py:387-389 | a new handler has nothing in flight |
| `Watcher.VideoFileHandler.ProcessMarked` | main.py:414-419 | the in-flight mark is removed again however `process_video` ends, and the downloader changes as `process_video` says |
| `Watcher.VideoFileHandler.ProcessFile` | main.py:399-419 | a path already in flight, missing or empty is dropped and nothing changes; otherwise `process_video` runs once; either way the in-flight set ends as it began |
| `Watcher.VideoFileHandler.OnCreated` | main.py:391-397 | directory events are dropped and change nothing; any other event is handled as `_process_file` handles its path |

## Left out

- HTTP transport (session, headers, timeouts, URLs): each endpoint is a function from request to reply. A body that is not valid JSON counts as a failed request, since requests reports it as a `RequestException`.
- SQLite plumbing (connect, `CREATE TABLE`, commit, timestamps) and the checks at startup in `__init__`/`_init_database` (missing music directory, creating the data directory): the ledger is a set, and a flag says whether the store can be reached.
- `_get_file_hash` internals (chunked reads, MD5): each file carries its digest, and "" stands for a failed read.
- yt-dlp itself, its output, the 3600-second timeout and how a launch fails: one run is a `ToolRun` value. Every status other than `ExitedZero` counts as a failure: a non-zero exit, a timeout and a failed launch alike. Whatever the tool leaves at the expected path is written even when it fails.
- The watchdog `Observer`, the two-second settle `sleep`, logging and `main()`: the file system seen by the model is the state after the settle wait.
- Concurrency: events are handled one after another. The check-then-add race on `processing` between watchdog threads is not modelled.
- `Downloader.MusicDownloader.DownloadMp3WithThumbnail`: pathlib normalisation of `navidrome_dir` is not modelled: directories are normalised POSIX text, and `Join` handles an empty directory, the directory ".", which pathlib drops, and a trailing '/'.
- `Downloader.MusicDownloader.DownloadMp3WithThumbnail`: file-name length limits are not modelled. The 200-character cut counts characters, not bytes, so a title such as 100 Japanese characters (300 bytes in UTF-8) gives a name over Linux's 255-byte limit. On Python 3.10 to 3.12, `Path.exists()` at main.py:274 then raises `OSError` (ENAMETOOLONG) outside the `try`, so no command runs. The model instead runs yt-dlp and returns by the tool's outcome.
- `Downloader.MusicDownloader.ProcessVideo`: for the same reason, the crash where that `OSError` escapes `process_video` is missing. The model gives `Returned(ok)` for such a fetch, not a raise.
- `PathNames.SuffixOf`: follows `Path.suffix` as in Python 3.10 to 3.13: a suffix exists when the last dot is neither the first nor the last character of the name (`X | None` annotations already need 3.10). Python 3.14 changed how a trailing dot is treated; that rule is not modelled.
- `PathNames.IsVideoFileIff`: case folding is ASCII only. Python's `str.lower` and `str.upper` also map non-ASCII letters.
- JSON numbers are integers. Floats are not modelled.
