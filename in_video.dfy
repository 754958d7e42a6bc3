/**
 * The recorded-video page of the 48 group: starting, stopping and finishing downloads.
 * Each download runs in its own worker; the page keeps the list of running downloads, keyed
 * by the recording's id and live type.
 */
module InVideo {
  import opened Wrappers
  import opened Jobs
  import opened SaveDialog
  import ManifestRewriter

  /** A recording in the list (only the fields the download logic reads). */
  datatype InVideoItem = InVideoItem(id: string, liveType: string, title: string)

  /** The key of a download job: the recording's id together with its live type. */
  datatype Key = Key(id: string, liveType: string)

  function KeyOf(record: InVideoItem): Key
  {
    Key(record.id, record.liveType)
  }

  /** `!m3u8Url`: no playlist address, or an empty one. */
  predicate Missing(m3u8Url: Option<string>)
  {
    m3u8Url.None? || m3u8Url.value == ""
  }

  /** The messages the page shows. */
  datatype Notice =
    | VideoMissing               // the recording has no playlist for this quality
    | DownloadFailed(title: string)  // a worker reported an error
    | Failed                     // fetching or writing the playlist threw

  /** The qualities offered for a recording that is not being downloaded. */
  const Qualities: seq<string> := ["chao", "gao", "liuchang"]

  /** The buttons in a recording's row of the table. */
  datatype RowActions = StopDownload | DownloadChoices(qualities: seq<string>)

  /** The operation column: "stop" while a download for the row runs, the qualities otherwise. */
  function Actions(jobs: seq<Job<Key>>, record: InVideoItem): (a: RowActions)
    ensures a.StopDownload? <==> exists n :: 0 <= n < |jobs| && jobs[n].key == KeyOf(record)
    ensures a.DownloadChoices? ==> a.qualities == Qualities
  {
    if FindIndex(jobs, KeyOf(record)) >= 0 then StopDownload else DownloadChoices(Qualities)
  }

  /** Once a download for the recording is added, its row offers "stop". */
  lemma ActionsAfterAdd(jobs: seq<Job<Key>>, record: InVideoItem, worker: Worker)
    ensures Actions(jobs + [Job(KeyOf(record), worker)], record) == StopDownload
  {
    FindAfterAppend(jobs, Job(KeyOf(record), worker), KeyOf(record));
  }

  /**
   * Once the recording's download ends, its row offers the qualities again, provided the
   * list held at most one download per recording.
   */
  lemma ActionsAfterDelete(jobs: seq<Job<Key>>, record: InVideoItem)
    requires UniqueKeys(jobs)
    ensures Actions(DeleteByKey(jobs, KeyOf(record)), record) == DownloadChoices(Qualities)
  {
    DeleteUnique(jobs, KeyOf(record));
  }

  /** A file written by the page: its path and its contents. */
  datatype WrittenFile = WrittenFile(path: string, contents: string)

  /** The page with its store slice: running downloads, shown messages, and the files it wrote, in order. */
  class DownloadPage {
    var videoListChild: seq<Job<Key>>
    var notices: seq<Notice>
    var written: seq<WrittenFile>
    /** What the page did to its jobs, in order. */
    ghost var events: seq<JobEvent<Key>>

    constructor ()
      ensures videoListChild == [] && notices == [] && written == [] && events == []
    {
      videoListChild, notices, written, events := [], [], [], [];
    }

    /** The workers of the running downloads. */
    function Workers(): set<Worker>
      reads this
    {
      WorkersOf(videoListChild)
    }

    /** The list holds one running worker per key. */
    ghost predicate Valid()
      reads this, Workers()
    {
      Consistent(videoListChild)
    }

    /**
     * `handleStopClick`: ask the worker of the recording's download to stop. It does not
     * wait for the worker and leaves the list alone; without a download it does nothing.
     */
    method HandleStopClick(record: InVideoItem)
      modifies Workers()
      ensures unchanged(this)
      ensures var i := FindIndex(videoListChild, KeyOf(record));
        i >= 0 ==> videoListChild[i].worker.posted == old(videoListChild[i].worker.posted) + [Stop]
      ensures forall w :: w in Workers() ==> w.terminated == old(w.terminated)
      ensures var i := FindIndex(videoListChild, KeyOf(record));
        forall w :: w in Workers() && (i < 0 || w != videoListChild[i].worker) ==> unchanged(w)
      ensures old(Valid()) ==> Valid()
    {
      var index := FindIndex(videoListChild, KeyOf(record));
      if index >= 0 {
        videoListChild[index].worker.PostMessage(Stop);
      }
    }

    /**
     * `handleDownloadClick`, one run to completion over the answers of its collaborators:
     * the playlist address of the chosen quality, the save dialog, the playlist text
     * (None when the request threw) and whether writing the rewritten playlist worked.
     */
    method HandleDownloadClick(record: InVideoItem, quality: string, m3u8Url: Option<string>,
                               dialog: SaveDialogReturn, m3u8Data: Option<string>,
                               writeOk: bool, ffmpeg: string)
      returns (worker: Worker?)
      modifies this
      // no playlist: a warning, and nothing else
      ensures Missing(m3u8Url) ==>
        worker == null && notices == old(notices) + [VideoMissing] &&
        videoListChild == old(videoListChild) && written == old(written) && events == old(events)
      // cancelled dialog: nothing at all
      ensures !Missing(m3u8Url) && Cancelled(dialog) ==>
        worker == null && unchanged(this)
      // the request or the write threw: the error message, no manifest, no worker, no job
      ensures !Missing(m3u8Url) && !Cancelled(dialog) && (m3u8Data.None? || !writeOk) ==>
        worker == null && notices == old(notices) + [Failed] &&
        videoListChild == old(videoListChild) && written == old(written) && events == old(events)
      // otherwise: the rewritten playlist beside the target, a started worker, one more job
      ensures !Missing(m3u8Url) && !Cancelled(dialog) && m3u8Data.Some? && writeOk ==>
        var filePath := dialog.filePath.value;
        && worker != null && fresh(worker) && !worker.terminated
        && written == old(written) + [WrittenFile(filePath + ".m3u8",
             ManifestRewriter.Formatted(m3u8Data.value, m3u8Url.value))]
        && worker.posted == [Start(DownloadStart(filePath + ".m3u8", filePath, ffmpeg, true))]
        && videoListChild == old(videoListChild) + [Job(KeyOf(record), worker)]
        && notices == old(notices)
        // the job is added only once its worker has been started
        && events == old(events) + [PostedStart(worker), Added(KeyOf(record), worker)]
      // the row offered the qualities only while no download for the key ran
      ensures old(Valid()) && old(FindIndex(videoListChild, KeyOf(record))) < 0 ==> Valid()
    {
      worker := null;
      if Missing(m3u8Url) {
        notices := notices + [VideoMissing];
        return;
      }
      if Cancelled(dialog) {
        return;
      }
      var filePath := dialog.filePath.value;
      var m3u8File := filePath + ".m3u8";
      if m3u8Data.None? {
        notices := notices + [Failed];
        return;
      }
      var manifest := ManifestRewriter.FormatTsUrl(m3u8Data.value, m3u8Url.value);
      if !writeOk {
        notices := notices + [Failed];
        return;
      }
      written := written + [WrittenFile(m3u8File, manifest)];
      var w := new Worker();
      w.PostMessage(Start(DownloadStart(m3u8File, filePath, ffmpeg, true)));
      events := events + [PostedStart(w)];
      AddJob(KeyOf(record), w);
      worker := w;
    }

    /**
     * `setVideoListChildAdd`: the job is appended to the list, whose keys stay unique when
     * the key was not listed and whose workers stay running when the new one is.
     */
    method AddJob(key: Key, w: Worker)
      modifies this`videoListChild, this`events
      ensures videoListChild == old(videoListChild) + [Job(key, w)]
      ensures events == old(events) + [Added(key, w)]
      ensures old(Valid()) && FindIndex(old(videoListChild), key) < 0 && !w.terminated && w !in old(Workers()) ==> Valid()
    {
      var jobs := videoListChild;
      if Valid() && FindIndex(jobs, key) < 0 && !w.terminated && w !in Workers() {
        forall n | 0 <= n < |jobs| ensures jobs[n].worker != w && !jobs[n].worker.terminated {
          assert jobs[n].worker in Workers();
        }
        AppendConsistent(jobs, Job(key, w));
      }
      videoListChild, events := jobs + [Job(key, w)], events + [Added(key, w)];
    }

    /**
     * The message listener of a download's worker. `close` and `error` end the job; any
     * other message changes nothing.
     */
    method OnWorkerMessage(record: InVideoItem, worker: Worker, messageType: string)
      modifies this, worker
      ensures messageType == "close" || messageType == "error" ==>
        && worker.terminated && worker.posted == old(worker.posted)
        && videoListChild == DeleteByKey(old(videoListChild), KeyOf(record))
        && notices == old(notices) + (if messageType == "error" then [DownloadFailed(record.title)] else [])
        && events == old(events) + [TerminatedWorker(worker), Deleted(KeyOf(record))]
        && written == old(written)
      ensures messageType != "close" && messageType != "error" ==>
        unchanged(this) && unchanged(worker)
      // the listener of the listed worker for the key keeps the list consistent
      ensures old(Valid()) && old(Listed(videoListChild, KeyOf(record), worker)) ==> Valid()
    {
      if messageType == "close" || messageType == "error" {
        EndJob(record, worker, messageType == "error");
      }
    }

    /**
     * A job's end: the worker is terminated and the recording's job deleted; a failure is
     * also reported with the recording's title.
     */
    method EndJob(record: InVideoItem, worker: Worker, failed: bool)
      modifies this`videoListChild, this`notices, this`events, worker
      ensures worker.terminated && worker.posted == old(worker.posted)
      ensures videoListChild == DeleteByKey(old(videoListChild), KeyOf(record))
      ensures notices == old(notices) + (if failed then [DownloadFailed(record.title)] else [])
      ensures events == old(events) + [TerminatedWorker(worker), Deleted(KeyOf(record))]
      ensures old(Valid()) && old(Listed(videoListChild, KeyOf(record), worker)) ==> Valid()
    {
      notices := notices + (if failed then [DownloadFailed(record.title)] else []);
      var jobs := videoListChild;
      if Valid() && Listed(jobs, KeyOf(record), worker) {
        // what is left once the job is deleted no longer holds the worker about to be terminated
        EndJobLeaves(jobs, KeyOf(record), worker);
      }
      worker.Terminate();
      videoListChild, events := DeleteByKey(jobs, KeyOf(record)), events + [TerminatedWorker(worker), Deleted(KeyOf(record))];
    }
  }
}
