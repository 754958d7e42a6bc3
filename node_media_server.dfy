/**
 * The main process's node-media-server service: one slot for the worker thread that runs
 * the server, emptied by `nodeMediaServerClose` and refilled by the `node-media-server`
 * message handler that `nodeMediaServerInit` registers.
 */
module NodeMediaServer {
  import ProcessEnv

  /** What the renderer sends to start the server. */
  datatype NodeMediaServerArg = NodeMediaServerArg(ffmpeg: string, rtmpPort: int, httpPort: int)

  /** The worker's data: the message's fields spread out, plus the development flag. */
  datatype WorkerData = WorkerData(ffmpeg: string, rtmpPort: int, httpPort: int, isDevelopment: bool)

  /** `{ ...arg, isDevelopment }`. */
  function WorkerDataOf(arg: NodeMediaServerArg, isDevelopment: bool): WorkerData
  {
    WorkerData(arg.ffmpeg, arg.rtmpPort, arg.httpPort, isDevelopment)
  }

  /** The message fields carried by a worker's data. */
  function ArgOf(data: WorkerData): NodeMediaServerArg
  {
    NodeMediaServerArg(data.ffmpeg, data.rtmpPort, data.httpPort)
  }

  /** The worker data holds the message unchanged, beside the flag, and nothing else. */
  lemma WorkerDataRoundTrip(arg: NodeMediaServerArg, isDevelopment: bool, data: WorkerData)
    ensures ArgOf(WorkerDataOf(arg, isDevelopment)) == arg
    ensures WorkerDataOf(arg, isDevelopment).isDevelopment == isDevelopment
    ensures WorkerDataOf(ArgOf(data), data.isDevelopment) == data
  {
  }

  /** A worker thread running the server script. */
  class ServerWorker {
    const workerData: WorkerData
    var terminated: bool

    constructor (data: WorkerData)
      ensures workerData == data && !terminated
    {
      workerData, terminated := data, false;
    }

    /** `worker.terminate()`. */
    method Terminate()
      modifies this
      ensures terminated
    {
      terminated := true;
    }
  }

  /** What happens to workers, in order. */
  datatype Event = Created(worker: ServerWorker) | Terminated(worker: ServerWorker)

  /** The module's state: the development flag read at load time and the worker slot. */
  class ServerSlot {
    const isDevelopment: bool
    var nodeMediaServerWorker: ServerWorker?
    /** Every worker the handler created, oldest first. */
    ghost var spawned: seq<ServerWorker>
    /** Creations and terminations, in the order they happened. */
    ghost var events: seq<Event>

    /** The workers created so far. */
    ghost function Spawned(): set<ServerWorker>
      reads this
    {
      set i | 0 <= i < |spawned| :: spawned[i]
    }

    /** The slot holds the only live worker: a created worker runs exactly while it is in the slot. */
    ghost predicate Valid()
      reads this, Spawned()
    {
      && (nodeMediaServerWorker != null ==> nodeMediaServerWorker in Spawned())
      && forall i :: 0 <= i < |spawned| ==> (!spawned[i].terminated <==> spawned[i] == nodeMediaServerWorker)
    }

    /** Loading the module: `isDevelopment` is `process.env.NODE_ENV === 'development'`; the slot is empty. */
    constructor (env: ProcessEnv.Env)
      ensures isDevelopment <==> "NODE_ENV" in env && env["NODE_ENV"] == "development"
      ensures nodeMediaServerWorker == null && spawned == [] && events == []
      ensures Valid()
    {
      isDevelopment := ProcessEnv.Equals(env, "NODE_ENV", "development");
      nodeMediaServerWorker := null;
      spawned, events := [], [];
    }

    /**
     * `nodeMediaServerClose`: terminate the worker in the slot, if any, and empty the slot;
     * an empty slot is left as it is.
     */
    method Close()
      modifies this, nodeMediaServerWorker
      ensures nodeMediaServerWorker == null && spawned == old(spawned)
      ensures old(nodeMediaServerWorker) == null ==> unchanged(this)
      ensures old(nodeMediaServerWorker) != null ==>
        old(nodeMediaServerWorker).terminated &&
        events == old(events) + [Terminated(old(nodeMediaServerWorker))]
      ensures old(Valid()) ==> Valid() && forall i :: 0 <= i < |spawned| ==> spawned[i].terminated
    {
      if nodeMediaServerWorker != null {
        var w := nodeMediaServerWorker;
        w.Terminate();
        events := events + [Terminated(w)];
        nodeMediaServerWorker := null;
      }
    }

    /**
     * The `node-media-server` handler: close the running server first, then fill the slot
     * with a new worker whose data is the message plus the development flag.
     */
    method Reinit(arg: NodeMediaServerArg)
      modifies this, nodeMediaServerWorker
      ensures nodeMediaServerWorker != null && fresh(nodeMediaServerWorker)
      ensures !nodeMediaServerWorker.terminated
      ensures nodeMediaServerWorker.workerData == WorkerDataOf(arg, isDevelopment)
      ensures old(nodeMediaServerWorker) != null ==> old(nodeMediaServerWorker).terminated
      ensures spawned == old(spawned) + [nodeMediaServerWorker]
      // the old worker is terminated before the new one is created
      ensures events == old(events) +
        (if old(nodeMediaServerWorker) != null then [Terminated(old(nodeMediaServerWorker))] else []) +
        [Created(nodeMediaServerWorker)]
      ensures old(Valid()) ==> Valid()
    {
      Close();
      var w := new ServerWorker(WorkerDataOf(arg, isDevelopment));
      nodeMediaServerWorker := w;
      spawned := spawned + [w];
      assert spawned[|spawned| - 1] == w;
      events := events + [Created(w)];
    }
  }

  /** In a valid slot at most one created worker is live, and it is the one in the slot. */
  lemma AtMostOneLive(slot: ServerSlot, i: nat, j: nat)
    requires slot.Valid() && i < |slot.spawned| && j < |slot.spawned|
    requires !slot.spawned[i].terminated && !slot.spawned[j].terminated
    ensures slot.spawned[i] == slot.spawned[j] == slot.nodeMediaServerWorker
  {
  }

  /** Two messages in a row: the first server is stopped and only the second one runs. */
  method ReinitTwice(slot: ServerSlot, first: NodeMediaServerArg, second: NodeMediaServerArg)
    returns (a: ServerWorker, b: ServerWorker)
    requires slot.Valid()
    modifies slot, slot.nodeMediaServerWorker
    ensures fresh(a) && fresh(b)
    ensures a != b && a.terminated && !b.terminated && slot.nodeMediaServerWorker == b
    ensures a.workerData == WorkerDataOf(first, slot.isDevelopment)
    ensures b.workerData == WorkerDataOf(second, slot.isDevelopment)
    ensures slot.Valid()
  {
    slot.Reinit(first);
    a := slot.nodeMediaServerWorker;
    slot.Reinit(second);
    b := slot.nodeMediaServerWorker;
  }
}
