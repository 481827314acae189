/**
 * `VideoFileHandler`: the watchdog callback. It drops events for directories and for
 * paths already being processed, waits for the file to settle, skips files that are
 * gone or empty, and otherwise runs `process_video` with the path marked as in flight
 * until the call ends, however it ends.
 */
module Watcher {
  import opened Outcomes
  import opened PathNames
  import opened Downloader

  /** A creation event as watchdog delivers it. */
  datatype FileEvent = FileEvent(isDirectory: bool, srcPath: Path)

  /** What handling an event came to: dropped, or one call of `process_video` with its outcome. */
  datatype Handling = Ignored | Processed(outcome: Outcome<bool>)

  class VideoFileHandler {
    const downloader: MusicDownloader
    /** The paths whose `process_video` call is under way. */
    var processing: set<Path>

    constructor (downloader: MusicDownloader)
      ensures this.downloader == downloader && processing == {}
    {
      this.downloader := downloader;
      processing := {};
    }

    /** A file ready for processing: it exists and is not empty. */
    predicate Settled(filePath: Path)
      reads downloader, downloader.fs
    {
      filePath in downloader.fs.files && downloader.fs.files[filePath].size != 0
    }

    /**
     * What `_process_file` does with one path: it is dropped when already in flight or
     * not settled, leaving everything as it was; otherwise `process_video` runs once.
     * Either way the in-flight set ends as it began.
     */
    twostate predicate HandledFile(filePath: Path, run: ToolRun, new h: Handling)
      reads this, downloader, downloader.fs
    {
      && processing == old(processing)
      && (h.Ignored? <==> filePath in old(processing) || !old(Settled(filePath)))
      && (h.Ignored? ==> downloader.Snapshot() == old(downloader.Snapshot()))
      && (h.Processed? ==>
            ProcessedVideo(downloader.navidromeDir, downloader.storeReachable, old(downloader.Decide(filePath)),
                           old(downloader.Snapshot()), run, h.outcome, downloader.Snapshot()))
    }

    /**
     * The `try`/`finally` of `_process_file`: the path is marked as in flight for the
     * length of one `process_video` call and unmarked afterwards, however the call ends.
     */
    method ProcessMarked(filePath: Path, run: ToolRun) returns (outcome: Outcome<bool>)
      requires filePath !in processing
      modifies this`processing, downloader`downloaded, downloader`launched, downloader.fs
      ensures processing == old(processing)
      ensures ProcessedVideo(downloader.navidromeDir, downloader.storeReachable, old(downloader.Decide(filePath)),
                             old(downloader.Snapshot()), run, outcome, downloader.Snapshot())
    {
      ghost var decision := downloader.Decide(filePath);
      ghost var before := downloader.Snapshot();
      processing := processing + {filePath};
      assert downloader.Decide(filePath) == decision;
      assert downloader.Snapshot() == before;
      outcome := downloader.ProcessVideo(filePath, run);
      processing := processing - {filePath};
    }

    /**
     * `_process_file`: a path already in flight, or one that is gone or empty after the
     * settle wait, is dropped; any other path is processed while marked.
     */
    method ProcessFile(filePath: Path, run: ToolRun) returns (h: Handling)
      modifies this`processing, downloader`downloaded, downloader`launched, downloader.fs
      ensures HandledFile(filePath, run, h)
    {
      if filePath in processing || !Settled(filePath) {
        return Ignored;
      }
      var outcome := ProcessMarked(filePath, run);
      return Processed(outcome);
    }

    /** `on_created`: directory events are dropped; any other path goes to `_process_file`. */
    method OnCreated(event: FileEvent, run: ToolRun) returns (h: Handling)
      modifies this`processing, downloader`downloaded, downloader`launched, downloader.fs
      ensures event.isDirectory ==>
        h == Ignored && processing == old(processing) && downloader.Snapshot() == old(downloader.Snapshot())
      ensures !event.isDirectory ==> HandledFile(event.srcPath, run, h)
    {
      if event.isDirectory {
        return Ignored;
      }
      h := ProcessFile(event.srcPath, run);
    }
  }
}
