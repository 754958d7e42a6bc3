/**
 * What the download and the cut page share: a worker handle that records the messages
 * posted to it and whether it was terminated, and the page's list of active jobs (the
 * `videoListChild` / `cutChildList` arrays of the store), keyed by `K`.
 */
module Jobs {

  /** The payload of a `start` message, one shape per kind of worker. */
  datatype StartPayload =
    | DownloadStart(playStreamPath: string, filePath: string, ffmpeg: string, protocolWhitelist: bool)
    | CutStart(playStreamPath: string, filePath: string, startTime: string, endTime: string, ffmpeg: string)

  /** What the page posts to a worker. */
  datatype Command = Start(payload: StartPayload) | Stop

  /** A worker handle: the log of every message posted to it, and its termination. */
  class Worker {
    var posted: seq<Command>
    var terminated: bool

    constructor ()
      ensures posted == [] && !terminated
    {
      posted, terminated := [], false;
    }

    /** `worker.postMessage(m)`. */
    method PostMessage(m: Command)
      modifies this
      ensures posted == old(posted) + [m] && terminated == old(terminated)
    {
      posted := posted + [m];
    }

    /** `worker.terminate()`. */
    method Terminate()
      modifies this
      ensures terminated && posted == old(posted)
    {
      terminated := true;
    }
  }

  /** One entry of the job list: the job's key and the worker running it. */
  datatype Job<K> = Job(key: K, worker: Worker)

  /** The steps a page takes on its jobs, in the order it takes them. */
  datatype JobEvent<K> =
    | PostedStart(worker: Worker)      // the `start` message was posted to the worker
    | Added(key: K, worker: Worker)    // the job was added to the list
    | TerminatedWorker(worker: Worker) // the worker was terminated
    | Deleted(key: K)                  // the job for the key was deleted from the list

  /** The index of the first job with `key`, or -1 (`findIndex`). */
  function FindIndex<K(==)>(jobs: seq<Job<K>>, key: K): (i: int)
    ensures -1 <= i < |jobs|
    ensures 0 <= i ==> jobs[i].key == key && forall j :: 0 <= j < i ==> jobs[j].key != key
    ensures i == -1 <==> forall j :: 0 <= j < |jobs| ==> jobs[j].key != key
  {
    if jobs == [] then -1
    else if jobs[0].key == key then 0
    else
      var j := FindIndex(jobs[1..], key);
      if j < 0 then -1 else j + 1
  }

  /**
   * The job list with its first job for `key` spliced out; unchanged when there is none
   * (the store's delete reducer: find the entry's index, then `splice(index, 1)`).
   */
  function DeleteByKey<K(==)>(jobs: seq<Job<K>>, key: K): (r: seq<Job<K>>)
    ensures |r| == if FindIndex(jobs, key) < 0 then |jobs| else |jobs| - 1
    ensures FindIndex(jobs, key) < 0 ==> r == jobs
  {
    var i := FindIndex(jobs, key);
    if i < 0 then jobs else jobs[..i] + jobs[i + 1..]
  }

  /** No two jobs share a key. */
  predicate UniqueKeys<K(==)>(jobs: seq<Job<K>>)
  {
    forall i, j :: 0 <= i < j < |jobs| ==> jobs[i].key != jobs[j].key
  }

  /** No two jobs share a worker. */
  predicate DistinctWorkers<K>(jobs: seq<Job<K>>)
  {
    forall i, j :: 0 <= i < j < |jobs| ==> jobs[i].worker != jobs[j].worker
  }

  /** The workers of the jobs. */
  function WorkersOf<K>(jobs: seq<Job<K>>): set<Worker>
  {
    set i | 0 <= i < |jobs| :: jobs[i].worker
  }

  /** Every listed worker is still running. */
  ghost predicate AllRunning<K>(jobs: seq<Job<K>>)
    reads WorkersOf(jobs)
  {
    forall i :: 0 <= i < |jobs| ==> !jobs[i].worker.terminated
  }

  /**
   * The list describes the running jobs one to one: keys and workers are unique, and no
   * listed worker has been terminated.
   */
  ghost predicate Consistent<K>(jobs: seq<Job<K>>)
    reads WorkersOf(jobs)
  {
    UniqueKeys(jobs) && DistinctWorkers(jobs) && AllRunning(jobs)
  }

  // ---------------------------------------------------------------------------
  // Properties of the list operations

  /**
   * Adding does not reject duplicates: the list stays free of duplicate keys exactly when
   * the added key was not there before.
   */
  lemma UniqueAfterAppend<K>(jobs: seq<Job<K>>, job: Job<K>)
    ensures UniqueKeys(jobs + [job]) <==> UniqueKeys(jobs) && FindIndex(jobs, job.key) < 0
  {
    var s := jobs + [job];
    assert forall n :: 0 <= n < |jobs| ==> s[n] == jobs[n];
    assert s[|jobs|] == job;
    if FindIndex(jobs, job.key) >= 0 {
      var i := FindIndex(jobs, job.key);
      assert s[i].key == s[|jobs|].key;
    }
  }

  /**
   * Looking a key up after an add: an earlier job for the key still wins, so with a
   * duplicate the older worker is the one found.
   */
  lemma {:induction false} FindAfterAppend<K>(jobs: seq<Job<K>>, job: Job<K>, key: K)
    ensures FindIndex(jobs + [job], key) ==
      if FindIndex(jobs, key) >= 0 then FindIndex(jobs, key)
      else if job.key == key then |jobs|
      else -1
  {
    var s := jobs + [job];
    if jobs == [] {
      assert s == [job] && s[1..] == [];
    } else if jobs[0].key != key {
      assert s[0] == jobs[0] && s[1..] == jobs[1..] + [job];
      FindAfterAppend(jobs[1..], job, key);
    } else {
      assert s[0] == jobs[0];
    }
  }

  /** Where the jobs left by a delete come from: every job before the deleted one, then every job after it. */
  lemma DeleteIndices<K>(jobs: seq<Job<K>>, key: K)
    requires FindIndex(jobs, key) >= 0
    ensures var r, i := DeleteByKey(jobs, key), FindIndex(jobs, key);
      |r| == |jobs| - 1 &&
      forall n :: 0 <= n < |r| ==> r[n] == jobs[if n < i then n else n + 1]
  {
    var i := FindIndex(jobs, key);
    var r := DeleteByKey(jobs, key);
    assert r == jobs[..i] + jobs[i + 1..];
    forall n | 0 <= n < |r| ensures r[n] == jobs[if n < i then n else n + 1] {
      if n < i {
        assert r[n] == jobs[..i][n];
      } else {
        assert r[n] == jobs[i + 1..][n - i];
      }
    }
  }

  /**
   * Deleting from a list without duplicate keys removes the key completely and keeps every
   * other job: the list stays without duplicates, and a job is left exactly when it was
   * listed under another key.
   */
  lemma DeleteUnique<K>(jobs: seq<Job<K>>, key: K)
    requires UniqueKeys(jobs)
    ensures var r := DeleteByKey(jobs, key);
      && UniqueKeys(r)
      && (forall n :: 0 <= n < |r| ==> r[n].key != key)
      && (forall j :: j in r <==> j in jobs && j.key != key)
  {
    var i := FindIndex(jobs, key);
    if i >= 0 {
      DeleteIndices(jobs, key);
      DeleteUniqueAt(jobs, key, i, DeleteByKey(jobs, key));
    }
  }

  /** DeleteUnique, once the position of the key is known. */
  lemma DeleteUniqueAt<K>(jobs: seq<Job<K>>, key: K, i: nat, r: seq<Job<K>>)
    requires UniqueKeys(jobs) && i < |jobs| && jobs[i].key == key
    requires |r| == |jobs| - 1 && forall n :: 0 <= n < |r| ==> r[n] == jobs[if n < i then n else n + 1]
    ensures UniqueKeys(r)
    ensures forall n :: 0 <= n < |r| ==> r[n].key != key
    ensures forall j :: j in r <==> j in jobs && j.key != key
  {
    forall a, b | 0 <= a < b < |r| ensures r[a].key != r[b].key {
      assert r[a] == jobs[if a < i then a else a + 1];
      assert r[b] == jobs[if b < i then b else b + 1];
    }
    forall n | 0 <= n < |r| ensures r[n].key != key {
      assert r[n] == jobs[if n < i then n else n + 1];
    }
    forall j | j in jobs && j.key != key ensures j in r {
      var n :| 0 <= n < |jobs| && jobs[n] == j;
      assert r[if n < i then n else n - 1] == j;
    }
  }

  /** A delete keeps workers distinct and never brings a worker back. */
  lemma DeleteKeepsWorkers<K>(jobs: seq<Job<K>>, key: K)
    requires DistinctWorkers(jobs)
    ensures var r := DeleteByKey(jobs, key); DistinctWorkers(r) && WorkersOf(r) <= WorkersOf(jobs)
  {
    var r := DeleteByKey(jobs, key);
    var i := FindIndex(jobs, key);
    if i >= 0 {
      DeleteIndices(jobs, key);
      forall a, b | 0 <= a < b < |r| ensures r[a].worker != r[b].worker {
        assert r[a] == jobs[if a < i then a else a + 1];
        assert r[b] == jobs[if b < i then b else b + 1];
      }
      forall w | w in WorkersOf(r) ensures w in WorkersOf(jobs) {
        var n :| 0 <= n < |r| && r[n].worker == w;
        assert jobs[if n < i then n else n + 1].worker == w;
      }
    }
  }

  /** The worker of the job deleted by key is no longer listed, when workers are distinct. */
  lemma DeleteDropsWorker<K>(jobs: seq<Job<K>>, key: K)
    requires DistinctWorkers(jobs) && FindIndex(jobs, key) >= 0
    ensures jobs[FindIndex(jobs, key)].worker !in WorkersOf(DeleteByKey(jobs, key))
  {
    var i := FindIndex(jobs, key);
    var r := DeleteByKey(jobs, key);
    DeleteIndices(jobs, key);
    forall n | 0 <= n < |r| ensures r[n].worker != jobs[i].worker {
      assert r[n] == jobs[if n < i then n else n + 1];
    }
  }

  /**
   * Adding a running worker under a key that is not listed keeps the list consistent, if the
   * listed workers are other ones and still running and keys and workers were unique.
   */
  lemma AppendConsistent<K>(jobs: seq<Job<K>>, job: Job<K>)
    requires UniqueKeys(jobs) && DistinctWorkers(jobs) && FindIndex(jobs, job.key) < 0
    requires forall n :: 0 <= n < |jobs| ==> jobs[n].worker != job.worker && !jobs[n].worker.terminated
    requires !job.worker.terminated
    ensures Consistent(jobs + [job])
  {
    var s := jobs + [job];
    UniqueAfterAppend(jobs, job);
    assert forall n :: 0 <= n < |jobs| ==> s[n] == jobs[n];
    assert s[|jobs|] == job;
  }

  /** Deleting by key keeps a consistent list consistent. */
  lemma DeleteKeepsConsistent<K>(jobs: seq<Job<K>>, key: K)
    requires Consistent(jobs)
    ensures Consistent(DeleteByKey(jobs, key))
  {
    var r := DeleteByKey(jobs, key);
    DeleteUnique(jobs, key);
    DeleteKeepsWorkers(jobs, key);
    forall n | 0 <= n < |r| ensures !r[n].worker.terminated {
      assert r[n].worker in WorkersOf(jobs);
    }
  }

  /** A key absent from a list is found at the start of what follows it. */
  lemma FindPastAbsent<K>(jobs: seq<Job<K>>, tail: seq<Job<K>>, key: K)
    requires FindIndex(jobs, key) < 0 && tail != [] && tail[0].key == key
    ensures FindIndex(jobs + tail, key) == |jobs|
  {
    var s := jobs + tail;
    assert s[|jobs|] == tail[0];
    assert forall n :: 0 <= n < |jobs| ==> s[n] == jobs[n];
  }

  /** `worker` runs the job listed for `key`. */
  predicate Listed<K(==)>(jobs: seq<Job<K>>, key: K, worker: Worker)
  {
    FindIndex(jobs, key) >= 0 && jobs[FindIndex(jobs, key)].worker == worker
  }

  /**
   * Ending the listed job of `worker`: what is left once its job is deleted has unique keys
   * and workers, and every remaining worker is another one and still running.
   */
  lemma EndJobLeaves<K>(jobs: seq<Job<K>>, key: K, worker: Worker)
    requires Consistent(jobs) && Listed(jobs, key, worker)
    ensures var r := DeleteByKey(jobs, key);
      && UniqueKeys(r) && DistinctWorkers(r)
      && forall n :: 0 <= n < |r| ==> r[n].worker != worker && !r[n].worker.terminated
  {
    DeleteKeepsConsistent(jobs, key);
    DeleteDropsWorker(jobs, key);
    var r := DeleteByKey(jobs, key);
    assert forall n :: 0 <= n < |r| ==> r[n].worker in WorkersOf(r);
  }

  /**
   * Without duplicate rejection, two jobs for one key leave the list inconsistent: the
   * terminal message of the newer worker deletes the older worker's entry, and the newer,
   * terminated worker stays listed.
   */
  lemma DuplicateDeleteHitsOlder<K>(jobs: seq<Job<K>>, key: K, older: Worker, newer: Worker)
    requires FindIndex(jobs, key) < 0
    ensures DeleteByKey(jobs + [Job(key, older), Job(key, newer)], key) == jobs + [Job(key, newer)]
  {
    var s := jobs + [Job(key, older), Job(key, newer)];
    FindPastAbsent(jobs, [Job(key, older), Job(key, newer)], key);
    DeleteIndices(s, key);
    var r := DeleteByKey(s, key);
    assert forall n :: 0 <= n < |r| ==> r[n] == (jobs + [Job(key, newer)])[n];
  }
}
