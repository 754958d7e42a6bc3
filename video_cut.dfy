/**
 * The quick video cut page: each queued cut runs in its own worker, and the page keeps the
 * list of running cuts, keyed by the queue item's id.
 */
module VideoCut {
  import opened Wrappers
  import opened Jobs
  import opened SaveDialog

  /** A queued cut (the fields the page reads). */
  datatype CutItem = CutItem(id: string, name: string, file: string, startTime: string, endTime: string)

  /** The messages the page shows. */
  datatype Notice = CutFailed(name: string)

  /** The button that starts or stops the item's cut. */
  datatype CutButton = StopCut | StartCut

  /** The operation column of a row. */
  datatype RowControls = RowControls(cut: CutButton, deleteDisabled: bool)

  /**
   * The operation column: "stop" while a cut of the item runs and "start" otherwise; the
   * delete button is disabled exactly while the cut runs.
   */
  function Controls(jobs: seq<Job<string>>, item: CutItem): (c: RowControls)
    ensures c.deleteDisabled <==> exists n :: 0 <= n < |jobs| && jobs[n].key == item.id
    ensures c.cut == StopCut <==> c.deleteDisabled
  {
    var hasChild := FindIndex(jobs, item.id) >= 0;
    RowControls(if hasChild then StopCut else StartCut, hasChild)
  }

  /** Once a cut of the item is added, the item can be stopped and not deleted. */
  lemma ControlsAfterAdd(jobs: seq<Job<string>>, item: CutItem, worker: Worker)
    ensures Controls(jobs + [Job(item.id, worker)], item) == RowControls(StopCut, true)
  {
    FindAfterAppend(jobs, Job(item.id, worker), item.id);
  }

  /** Once the item's cut ends, in a list without duplicate ids, it can be started and deleted again. */
  lemma ControlsAfterDelete(jobs: seq<Job<string>>, item: CutItem)
    requires UniqueKeys(jobs)
    ensures Controls(DeleteByKey(jobs, item.id), item) == RowControls(StartCut, false)
  {
    DeleteUnique(jobs, item.id);
  }

  /** The page with its store slice: running cuts and shown messages. */
  class CutPage {
    var cutChildList: seq<Job<string>>
    var notices: seq<Notice>
    /** What the page did to its jobs, in order. */
    ghost var events: seq<JobEvent<string>>

    constructor ()
      ensures cutChildList == [] && notices == [] && events == []
    {
      cutChildList, notices, events := [], [], [];
    }

    /** The workers of the running cuts. */
    function Workers(): set<Worker>
      reads this
    {
      WorkersOf(cutChildList)
    }

    /** The list holds one running worker per item. */
    ghost predicate Valid()
      reads this, Workers()
    {
      Consistent(cutChildList)
    }

    /**
     * `handleStopCutClick`: ask the worker of the item's cut to stop, without waiting and
     * without touching the list; without a cut it does nothing.
     */
    method HandleStopCutClick(item: CutItem)
      modifies Workers()
      ensures unchanged(this)
      ensures var i := FindIndex(cutChildList, item.id);
        i >= 0 ==> cutChildList[i].worker.posted == old(cutChildList[i].worker.posted) + [Stop]
      ensures forall w :: w in Workers() ==> w.terminated == old(w.terminated)
      ensures var i := FindIndex(cutChildList, item.id);
        forall w :: w in Workers() && (i < 0 || w != cutChildList[i].worker) ==> unchanged(w)
      ensures old(Valid()) ==> Valid()
    {
      var index := FindIndex(cutChildList, item.id);
      if index >= 0 {
        cutChildList[index].worker.PostMessage(Stop);
      }
    }

    /**
     * `handleStartCutClick`, over the answer of the save dialog: a cancelled dialog does
     * nothing; otherwise a new worker is started on the item's file and times, and the cut
     * is added under the item's id.
     */
    method HandleStartCutClick(item: CutItem, dialog: SaveDialogReturn, ffmpeg: string)
      returns (worker: Worker?)
      modifies this
      ensures Cancelled(dialog) ==> worker == null && unchanged(this)
      ensures !Cancelled(dialog) ==>
        && worker != null && fresh(worker) && !worker.terminated
        && worker.posted == [Start(CutStart(item.file, dialog.filePath.value, item.startTime, item.endTime, ffmpeg))]
        && cutChildList == old(cutChildList) + [Job(item.id, worker)]
        && notices == old(notices)
        // the job is added only once its worker has been started
        && events == old(events) + [PostedStart(worker), Added(item.id, worker)]
      // the row offered "start" only while no cut of the item ran
      ensures old(Valid()) && old(FindIndex(cutChildList, item.id)) < 0 ==> Valid()
    {
      worker := null;
      if Cancelled(dialog) {
        return;
      }
      var w := new Worker();
      w.PostMessage(Start(CutStart(item.file, dialog.filePath.value, item.startTime, item.endTime, ffmpeg)));
      events := events + [PostedStart(w)];
      AddJob(item.id, w);
      worker := w;
    }

    /**
     * `setCutChildListAdd`: the cut is appended to the list, whose keys stay unique when the
     * id was not listed and whose workers stay running when the new one is.
     */
    method AddJob(id: string, w: Worker)
      modifies this`cutChildList, this`events
      ensures cutChildList == old(cutChildList) + [Job(id, w)]
      ensures events == old(events) + [Added(id, w)]
      ensures old(Valid()) && FindIndex(old(cutChildList), id) < 0 && !w.terminated && w !in old(Workers()) ==> Valid()
    {
      var jobs := cutChildList;
      if Valid() && FindIndex(jobs, id) < 0 && !w.terminated && w !in Workers() {
        forall n | 0 <= n < |jobs| ensures jobs[n].worker != w && !jobs[n].worker.terminated {
          assert jobs[n].worker in Workers();
        }
        AppendConsistent(jobs, Job(id, w));
      }
      cutChildList, events := jobs + [Job(id, w)], events + [Added(id, w)];
    }

    /**
     * The message listener of a cut's worker. `close` and `error` end the cut; any other
     * message changes nothing.
     */
    method OnWorkerMessage(item: CutItem, worker: Worker, messageType: string)
      modifies this, worker
      ensures messageType == "close" || messageType == "error" ==>
        && worker.terminated && worker.posted == old(worker.posted)
        && cutChildList == DeleteByKey(old(cutChildList), item.id)
        && notices == old(notices) + (if messageType == "error" then [CutFailed(item.name)] else [])
        && events == old(events) + [TerminatedWorker(worker), Deleted(item.id)]
      ensures messageType != "close" && messageType != "error" ==>
        unchanged(this) && unchanged(worker)
      // the listener of the listed worker for the item keeps the list consistent
      ensures old(Valid()) && old(Listed(cutChildList, item.id, worker)) ==> Valid()
    {
      if messageType == "close" || messageType == "error" {
        EndJob(item, worker, messageType == "error");
      }
    }

    /**
     * A cut's end: the worker is terminated and the item's cut deleted; a failure is also
     * reported with the item's name.
     */
    method EndJob(item: CutItem, worker: Worker, failed: bool)
      modifies this`cutChildList, this`notices, this`events, worker
      ensures worker.terminated && worker.posted == old(worker.posted)
      ensures cutChildList == DeleteByKey(old(cutChildList), item.id)
      ensures notices == old(notices) + (if failed then [CutFailed(item.name)] else [])
      ensures events == old(events) + [TerminatedWorker(worker), Deleted(item.id)]
      ensures old(Valid()) && old(Listed(cutChildList, item.id, worker)) ==> Valid()
    {
      notices := notices + (if failed then [CutFailed(item.name)] else []);
      var jobs := cutChildList;
      if Valid() && Listed(jobs, item.id, worker) {
        // what is left once the job is deleted no longer holds the worker about to be terminated
        EndJobLeaves(jobs, item.id, worker);
      }
      worker.Terminate();
      cutChildList, events := DeleteByKey(jobs, item.id), events + [TerminatedWorker(worker), Deleted(item.id)];
    }
  }
}
